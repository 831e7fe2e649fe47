/** `String.prototype.trim`, for ASCII white space. */
module Whitespace {

  predicate IsSpace(c: char) {
    c == ' ' || '\t' <= c <= '\r'
  }

  function TrimEnd(s: string): string {
    if s != "" && IsSpace(s[|s| - 1]) then TrimEnd(s[..|s| - 1]) else s
  }

  function TrimStart(s: string): string {
    if s != "" && IsSpace(s[0]) then TrimStart(s[1..]) else s
  }

  function Trim(s: string): string {
    TrimEnd(TrimStart(s))
  }

  lemma {:induction false} TrimStartStops(s: string)
    ensures TrimStart(s) != "" ==> !IsSpace(TrimStart(s)[0])
  {
    if s != "" && IsSpace(s[0]) { TrimStartStops(s[1..]); }
  }

  lemma {:induction false} TrimEndStops(s: string)
    ensures TrimEnd(s) <= s && (TrimEnd(s) != "" ==> !IsSpace(TrimEnd(s)[|TrimEnd(s)| - 1]))
  {
    if s != "" && IsSpace(s[|s| - 1]) { TrimEndStops(s[..|s| - 1]); }
  }

  /** The six characters of ASCII white space. */
  lemma SpacesAre(c: char)
    ensures IsSpace(c) <==> c as int in {9, 10, 11, 12, 13, 32}
  {}

  lemma {:induction false} StartIsBlankIff(s: string)
    ensures TrimStart(s) == "" <==> forall c :: c in s ==> IsSpace(c)
    decreases |s|
  {
    if s != "" {
      StartIsBlankIff(s[1..]);
      assert s == [s[0]] + s[1..];
    }
  }

  lemma {:induction false} EndIsBlankIff(s: string)
    ensures TrimEnd(s) == "" <==> forall c :: c in s ==> IsSpace(c)
    decreases |s|
  {
    if s != "" {
      EndIsBlankIff(s[..|s| - 1]);
      assert s == s[..|s| - 1] + [s[|s| - 1]];
    }
  }

  /** Only white space is trimmed to nothing. */
  lemma BlankIff(s: string)
    ensures Trim(s) == "" <==> forall c :: c in s ==> IsSpace(c)
  {
    StartIsBlankIff(s);
    EndIsBlankIff(TrimStart(s));
    TrimStartStops(s);
  }

  lemma TrimTwice(s: string)
    ensures Trim(Trim(s)) == Trim(s)
  {
    TrimStartStops(s);
    TrimEndStops(TrimStart(s));
  }
}
