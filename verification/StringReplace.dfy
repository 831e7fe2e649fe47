/** `String.prototype.replace` with string arguments, as JavaScript has it: the first
    occurrence only, and `$` pairs in the new text expanded. */
module StringReplace {
  import opened Schema
  import opened Seqs

  /** Where `pattern` first occurs in `s`. */
  function IndexOf(s: string, pattern: string): (r: Option<nat>)
    ensures r.Some? ==> r.value + |pattern| <= |s|
  {
    if |s| < |pattern| then None
    else if pattern <= s then Some(0)
    else match IndexOf(s[1..], pattern)
      case Some(i) => Some(i + 1)
      case None => None
  }

  /** A `$` at `i` and the character after it are a pair that JavaScript expands. */
  predicate IsExpandedAt(value: string, i: nat) {
    i + 1 < |value| && value[i] == '$' && value[i + 1] in "$&`'"
  }

  /** The replacement text, with the `$` pairs JavaScript expands in it. */
  function Expand(value: string, matched: string, before: string, after: string): string {
    if value == "" then ""
    else if IsExpandedAt(value, 0) then
      (match value[1]
       case '$' => "$"
       case '&' => matched
       case '`' => before
       case _ => after)
      + Expand(value[2..], matched, before, after)
    else [value[0]] + Expand(value[1..], matched, before, after)
  }

  /** `s.replace(pattern, value)` for string arguments: the first occurrence only. */
  function Replace(s: string, pattern: string, value: string): string {
    match IndexOf(s, pattern)
    case None => s
    case Some(i) =>
      var before, after := s[..i], s[i + |pattern|..];
      before + Expand(value, pattern, before, after) + after
  }

  predicate HasExpansion(value: string) {
    exists i :: 0 <= i < |value| && IsExpandedAt(value, i)
  }

  // ------------------------------------------------------- what the `$` pairs do

  /** How many of the characters are among `cs`. */
  function Count(s: string, cs: set<char>): nat {
    if s == "" then 0 else (if s[0] in cs then 1 else 0) + Count(s[1..], cs)
  }

  lemma CountConcat(a: string, b: string, cs: set<char>)
    ensures Count(a + b, cs) == Count(a, cs) + Count(b, cs)
  {
    if a == "" {
      assert a + b == b;
    } else {
      assert (a + b)[1..] == a[1..] + b;
      CountConcat(a[1..], b, cs);
    }
  }

  lemma NothingToCount(s: string, cs: set<char>)
    requires forall c :: c in s ==> c !in cs
    ensures Count(s, cs) == 0
  {}

  lemma {:induction false} NothingCounted(s: string, c: char)
    requires c in s
    ensures Count(s, {c}) > 0
  {
    if s[0] != c { NothingCounted(s[1..], c); }
  }

  lemma ExpansionInRest(value: string)
    requires value != "" && !IsExpandedAt(value, 0)
    ensures HasExpansion(value) <==> HasExpansion(value[1..])
  {
    if i :| 0 <= i < |value| && IsExpandedAt(value, i) {
      assert IsExpandedAt(value[1..], i - 1);
    }
    if i :| 0 <= i < |value[1..]| && IsExpandedAt(value[1..], i) {
      assert IsExpandedAt(value, i + 1);
    }
  }

  lemma {:induction false} ExpandNothing(value: string, matched: string, before: string, after: string)
    requires !HasExpansion(value)
    ensures Expand(value, matched, before, after) == value
  {
    if value != "" {
      assert !IsExpandedAt(value, 0);
      ExpansionInRest(value);
      ExpandNothing(value[1..], matched, before, after);
    }
  }

  lemma PairAtFront(c: char, rest: string, matched: string, before: string, after: string)
    requires c in "$&`'"
    ensures Expand(['$', c] + rest, matched, before, after)
         == (if c == '$' then "$" else if c == '&' then matched else if c == '`' then before else after)
            + Expand(rest, matched, before, after)
  {
    var value := ['$', c] + rest;
    assert value[2..] == rest && value[0] == '$' && value[1] == c;
  }

  /** What the pairs stand for, wherever they are; a character that begins none stands for
      itself. */
  lemma PairsStandFor(c: char, rest: string, matched: string, before: string, after: string)
    ensures Expand("$$" + rest, matched, before, after) == "$" + Expand(rest, matched, before, after)
    ensures Expand("$&" + rest, matched, before, after) == matched + Expand(rest, matched, before, after)
    ensures Expand("$`" + rest, matched, before, after) == before + Expand(rest, matched, before, after)
    ensures Expand("$'" + rest, matched, before, after) == after + Expand(rest, matched, before, after)
    ensures c != '$' || (rest != "" && rest[0] !in "$&`'") ==>
              Expand([c] + rest, matched, before, after) == [c] + Expand(rest, matched, before, after)
  {
    PairAtFront('$', rest, matched, before, after);
    PairAtFront('&', rest, matched, before, after);
    PairAtFront('`', rest, matched, before, after);
    PairAtFront('\'', rest, matched, before, after);
    assert ([c] + rest)[1..] == rest;
  }

  /** Every expanded pair costs a `$`. */
  lemma {:induction false} ExpandLosesDollars(value: string, matched: string, before: string, after: string)
    requires '$' !in matched && '$' !in before && '$' !in after
    ensures Count(Expand(value, matched, before, after), {'$'}) <= Count(value, {'$'})
    ensures HasExpansion(value) ==> Count(Expand(value, matched, before, after), {'$'}) < Count(value, {'$'})
    decreases |value|
  {
    if value != "" {
      if IsExpandedAt(value, 0) {
        ExpandLosesDollars(value[2..], matched, before, after);
        NothingToCount(matched, {'$'});
        NothingToCount(before, {'$'});
        NothingToCount(after, {'$'});
        PairOfDollars(value);
        var piece := match value[1] case '$' => "$" case '&' => matched case '`' => before case _ => after;
        CountConcat(piece, Expand(value[2..], matched, before, after), {'$'});
        assert piece == "$" ==> Count(piece, {'$'}) == 1 + Count("", {'$'});
      } else {
        ExpansionInRest(value);
        ExpandLosesDollars(value[1..], matched, before, after);
        CountConcat([value[0]], Expand(value[1..], matched, before, after), {'$'});
        CountConcat([value[0]], value[1..], {'$'});
        assert [value[0]] + value[1..] == value;
      }
    }
  }

  lemma PairOfDollars(value: string)
    requires IsExpandedAt(value, 0)
    ensures Count(value, {'$'}) == 1 + (if value[1] == '$' then 1 else 0) + Count(value[2..], {'$'})
  {
    assert value[1..][1..] == value[2..];
  }

  /** JavaScript inserts a value as it is exactly when no `$` in it is followed by one
      of `$`, `&`, a backquote or a quote. */
  lemma ExpandIsIdentityIff(value: string, matched: string, before: string, after: string)
    requires '$' !in matched && '$' !in before && '$' !in after
    ensures Expand(value, matched, before, after) == value <==> !HasExpansion(value)
  {
    if HasExpansion(value) {
      ExpandLosesDollars(value, matched, before, after);
    } else {
      ExpandNothing(value, matched, before, after);
    }
  }

  // -------------------------------------------------------- replacing as splicing

  /** Replacement without expansion, read off left to right. */
  function Splice(s: string, pattern: string, value: string): string {
    if |s| < |pattern| then s
    else if pattern <= s then value + s[|pattern|..]
    else [s[0]] + Splice(s[1..], pattern, value)
  }

  lemma ReplaceFound(s: string, pattern: string, value: string, i: nat)
    requires !HasExpansion(value) && IndexOf(s, pattern) == Some(i)
    ensures Replace(s, pattern, value) == s[..i] + value + s[i + |pattern|..]
  {
    ExpandNothing(value, pattern, s[..i], s[i + |pattern|..]);
  }

  lemma {:induction false} ReplaceIsSplice(s: string, pattern: string, value: string)
    requires !HasExpansion(value) && pattern != ""
    ensures Replace(s, pattern, value) == Splice(s, pattern, value)
  {
    match IndexOf(s, pattern)
    case None => NothingToSplice(s, pattern, value);
    case Some(i) =>
      if i == 0 {
        ReplaceAtFront(s, pattern, value);
      } else {
        FoundLater(s, i, pattern);
        ReplaceIsSplice(s[1..], pattern, value);
        ReplaceBehind(s, pattern, value, i);
      }
  }

  lemma ReplaceAtFront(s: string, pattern: string, value: string)
    requires !HasExpansion(value) && IndexOf(s, pattern) == Some(0)
    ensures Replace(s, pattern, value) == Splice(s, pattern, value)
  {
    ReplaceFound(s, pattern, value, 0);
    EmptyFront(value);
  }

  lemma ReplaceBehind(s: string, pattern: string, value: string, i: nat)
    requires !HasExpansion(value) && IndexOf(s, pattern) == Some(i) && 0 < i
    requires IndexOf(s[1..], pattern) == Some(i - 1)
    ensures Replace(s, pattern, value) == [s[0]] + Replace(s[1..], pattern, value)
  {
    var rest := s[1..];
    ReplaceFound(s, pattern, value, i);
    ReplaceFound(rest, pattern, value, i - 1);
    Shift(s, rest, i, |pattern|, value);
  }

  lemma {:induction false} NothingToSplice(s: string, pattern: string, value: string)
    requires pattern != "" && IndexOf(s, pattern).None?
    ensures Splice(s, pattern, value) == s
  {
    if |s| >= |pattern| {
      NothingToSplice(s[1..], pattern, value);
    }
  }

  /** A pattern first found behind the front is found one earlier without it. */
  lemma FoundLater(s: string, i: nat, pattern: string)
    requires IndexOf(s, pattern) == Some(i) && 0 < i
    ensures IndexOf(s[1..], pattern) == Some(i - 1) && !(pattern <= s)
  {}

  lemma Shift(s: string, rest: string, i: nat, n: nat, value: string)
    requires 0 < i && i + n <= |s| && rest == s[1..]
    ensures s[..i] + value + s[i + n..] == [s[0]] + (rest[..i - 1] + value + rest[i - 1 + n..])
  {}

  lemma SpliceStep(c: char, rest: string, pattern: string, value: string)
    requires pattern != "" && pattern[0] != c
    ensures Splice([c] + rest, pattern, value) == [c] + Splice(rest, pattern, value)
  {}

  /** A pattern is not found across text that lacks its first character. */
  lemma {:induction false} SpliceSkips(a: string, rest: string, pattern: string, value: string)
    requires pattern != "" && pattern[0] !in a
    ensures Splice(a + rest, pattern, value) == a + Splice(rest, pattern, value)
  {
    if a == "" {
      assert a + rest == rest;
    } else {
      Associate([a[0]], a[1..], rest);
      SpliceStep(a[0], a[1..] + rest, pattern, value);
      SpliceSkips(a[1..], rest, pattern, value);
      Associate([a[0]], a[1..], Splice(rest, pattern, value));
      assert [a[0]] + a[1..] == a;
    }
  }

  lemma SpliceAtFront(pattern: string, rest: string, value: string)
    requires pattern != ""
    ensures Splice(pattern + rest, pattern, value) == value + rest
  {}

  lemma FoundShortens(s: string, pattern: string)
    requires pattern != ""
    ensures Replace(s, pattern, "") == s <==> IndexOf(s, pattern).None?
  {
    if IndexOf(s, pattern).Some? {
      var i := IndexOf(s, pattern).value;
      assert |s[..i] + "" + s[i + |pattern|..]| < |s|;
    }
  }

  // ------------------------------------------------------------ what stays and what goes

  lemma NeverFound(s: string, pattern: string)
    requires pattern != "" && pattern[0] !in s
    ensures IndexOf(s, pattern).None?
  {}

  lemma {:induction false} ExpandBringsNothing(value: string, matched: string, before: string, after: string, c: char)
    requires c !in value && c !in matched && c !in before && c !in after
    ensures c !in Expand(value, matched, before, after)
    decreases |value|
  {
    if value != "" {
      if IsExpandedAt(value, 0) {
        ExpandBringsNothing(value[2..], matched, before, after, c);
      } else {
        ExpandBringsNothing(value[1..], matched, before, after, c);
      }
    }
  }

  lemma ReplaceBringsNothing(s: string, pattern: string, value: string, c: char)
    requires c !in s && c !in pattern && c !in value
    ensures c !in Replace(s, pattern, value)
  {
    if IndexOf(s, pattern).Some? {
      var i := IndexOf(s, pattern).value;
      ExpandBringsNothing(value, pattern, s[..i], s[i + |pattern|..], c);
    }
  }

  function Dollars(s: string): nat {
    Count(s, {'$'})
  }

  lemma DollarsSplit(s: string, i: nat, n: nat)
    requires i + n <= |s|
    ensures Dollars(s[..i]) + Dollars(s[i + n..]) <= Dollars(s)
  {
    CountConcat(s[..i], s[i..], {'$'});
    CountConcat(s[i..][..n], s[i..][n..], {'$'});
    assert s[..i] + s[i..] == s && s[i..][..n] + s[i..][n..] == s[i..] && s[i..][n..] == s[i + n..];
  }

  lemma DollarsOfThree(a: string, b: string, c: string)
    ensures Dollars(a + b + c) == Dollars(a) + Dollars(b) + Dollars(c)
  {
    CountConcat(a + b, c, {'$'});
    CountConcat(a, b, {'$'});
  }

  lemma NoDollarsAdded(s: string, pattern: string, value: string)
    requires '$' !in value
    ensures Dollars(Replace(s, pattern, value)) <= Dollars(s)
  {
    if IndexOf(s, pattern).Some? {
      var i := IndexOf(s, pattern).value;
      ReplaceFound(s, pattern, value, i);
      DollarsOfThree(s[..i], value, s[i + |pattern|..]);
      NothingToCount(value, {'$'});
      DollarsSplit(s, i, |pattern|);
    }
  }

  lemma DollarsLostAt(before: string, matched: string, after: string, value: string)
    requires '$' !in before && '$' !in matched && '$' !in after && HasExpansion(value)
    ensures Dollars(before + Expand(value, matched, before, after) + after) < Dollars(value)
  {
    NothingToCount(before, {'$'});
    NothingToCount(matched, {'$'});
    NothingToCount(after, {'$'});
    ExpandLosesDollars(value, matched, before, after);
    DollarsOfThree(before, Expand(value, matched, before, after), after);
  }

  lemma DollarsLost(s: string, pattern: string, value: string)
    requires '$' !in s && '$' !in pattern && HasExpansion(value)
    ensures Dollars(Replace(s, pattern, value)) < Dollars(value)
  {
    match IndexOf(s, pattern)
    case Some(i) => DollarsLostAt(s[..i], pattern, s[i + |pattern|..], value);
    case None =>
      NothingToCount(s, {'$'});
      NothingCounted(value, '$');
  }

  lemma FoundAtOne(s: string, pattern: string, after: string)
    requires s != "" && pattern != "" && pattern[0] != s[0] && s[1..] == pattern + after
    ensures IndexOf(s, pattern) == Some(1)
  {
    assert pattern <= s[1..];
    assert !(pattern <= s);
  }

  /** A pattern found at the second character. */
  lemma ExpandedSecond(s: string, pattern: string, after: string, value: string)
    requires s != "" && pattern != "" && pattern[0] != s[0] && s[1..] == pattern + after
    ensures Replace(s, pattern, value) == [s[0]] + Expand(value, pattern, [s[0]], after) + after
  {
    FoundAtOne(s, pattern, after);
    assert s[..1] == [s[0]] && s[1 + |pattern|..] == s[1..][|pattern|..] == after;
  }

  /** The same with nothing expanded. */
  lemma FoundSecond(s: string, pattern: string, after: string, value: string)
    requires s != "" && pattern != "" && !(pattern <= s) && s[1..] == pattern + after && !HasExpansion(value)
    ensures Replace(s, pattern, value) == [s[0]] + (value + after)
  {
    ReplaceIsSplice(s, pattern, value);
    SpliceAtFront(pattern, after, value);
  }

  lemma ReplaceNowhere(s: string, pattern: string, value: string)
    requires pattern != "" && pattern[0] !in s
    ensures Replace(s, pattern, value) == s
  {
    NeverFound(s, pattern);
  }

  /** Filling one placeholder right at `|before|`, where it is first found. */
  lemma ReplaceHere(before: string, pattern: string, after: string, value: string)
    requires pattern != "" && pattern[0] !in before && !HasExpansion(value)
    ensures Replace(before + pattern + after, pattern, value) == before + value + after
  {
    Associate(before, pattern, after);
    ReplaceIsSplice(before + (pattern + after), pattern, value);
    SpliceSkips(before, pattern + after, pattern, value);
    SpliceAtFront(pattern, after, value);
    Associate(before, value, after);
  }

  // ------------------------------------------------------------------ a witness

  /** Two dollar signs go in, one comes out. */
  lemma DollarsAreExpanded()
    ensures Replace("/{a}", "{a}", "$$") == "/$"
  {
    assert IndexOf("/{a}", "{a}") == Some(1) by {
      assert "/{a}"[1..] == "{a}" && "{a}"[0] != "/{a}"[0];
    }
    assert Expand("$$", "{a}", "/", "") == "$" by {
      assert "$$"[2..] == "" && "$$"[1] == "$&`'"[0];
    }
    assert "/{a}"[..1] == "/" && "/{a}"[4..] == "";
  }
}
