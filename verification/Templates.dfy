/** Path templates: how `resolver.ts` reads one, matches a request suffix
    against it, and picks an endpoint among several. */
module Templates {
  import opened Schema
  import opened Seqs

  /** One element of a template: a literal character, `{name}` or `:name`. */
  datatype Token = Chr(c: char) | Brace(name: string) | Colon(name: string)

  predicate IsWord(c: char) {
    'a' <= c <= 'z' || 'A' <= c <= 'Z' || '0' <= c <= '9' || c == '_'
  }

  function WordLength(s: string): (n: nat)
    ensures n <= |s| && forall i :: 0 <= i < n ==> IsWord(s[i])
    ensures n < |s| ==> !IsWord(s[n])
  {
    if s == "" || !IsWord(s[0]) then 0 else 1 + WordLength(s[1..])
  }

  /** How many characters of the template a token takes. */
  function Width(t: Token): nat {
    match t
    case Chr(_) => 1
    case Brace(name) => |name| + 2
    case Colon(name) => |name| + 1
  }

  /** The parameter that starts exactly at the front of `s`, if one does. */
  function ParameterAt(s: string, colons: bool): (r: Option<Token>)
    ensures r.Some? ==> !r.value.Chr? && 0 < Width(r.value) <= |s|
    ensures r.Some? && r.value.Colon? ==> colons
  {
    if s == "" then None
    else
      var n := WordLength(s[1..]);
      if n == 0 then None
      else if s[0] == '{' && n + 1 < |s| && s[n + 1] == '}' then Some(Brace(s[1..n + 1]))
      else if colons && s[0] == ':' then Some(Colon(s[1..n + 1]))
      else None
  }

  function Spelling(t: Token): string {
    match t
    case Chr(c) => [c]
    case Brace(name) => "{" + name + "}"
    case Colon(name) => ":" + name
  }

  function Show(ts: seq<Token>): string {
    if ts == [] then "" else Spelling(ts[0]) + Show(ts[1..])
  }

  /** The leftmost, non-overlapping reading of a template. */
  function Scan(s: string, colons: bool): seq<Token>
    decreases |s|
  {
    if s == "" then []
    else match ParameterAt(s, colons)
      case Some(t) => [t] + Scan(s[Width(t)..], colons)
      case None => [Chr(s[0])] + Scan(s[1..], colons)
  }

  lemma {:induction false} ScanKeepsSpelling(s: string, colons: bool)
    ensures Show(Scan(s, colons)) == s
    decreases |s|
  {
    if s != "" {
      match ParameterAt(s, colons)
      case Some(t) =>
        ScanKeepsSpelling(s[Width(t)..], colons);
        ParameterIsSpelled(s, colons);
        ShowHead(t, Scan(s[Width(t)..], colons));
      case None =>
        ScanKeepsSpelling(s[1..], colons);
        ShowHead(Chr(s[0]), Scan(s[1..], colons));
    }
  }

  /** The characters of a name are the letters, the digits and the underscore. */
  lemma WordsAre(c: char)
    ensures IsWord(c) <==> 48 <= c as int <= 57 || 65 <= c as int <= 90 || 97 <= c as int <= 122 || c as int == 95
  {}

  predicate IsName(name: string) {
    name != "" && forall c :: c in name ==> IsWord(c)
  }

  predicate IsPlaceholder(t: Token) {
    !t.Chr? && IsName(t.name)
  }

  lemma {:induction false} WordsBefore(name: string, rest: string)
    requires (forall c :: c in name ==> IsWord(c)) && (rest != "" ==> !IsWord(rest[0]))
    ensures WordLength(name + rest) == |name|
    decreases |name|
  {
    if name == "" {
      EmptyFront(rest);
    } else {
      HeadFirst(name, rest);
      WordsBefore(name[1..], rest);
    }
  }

  /** Wherever a name stands in braces, or ends behind a colon, it is read as a parameter. */
  lemma {:induction false} EveryPlaceholderIsRead(before: string, t: Token, after: string, colons: bool)
    requires IsPlaceholder(t) && (t.Colon? ==> colons && (after != "" ==> !IsWord(after[0])))
    ensures t in Scan(before + (Spelling(t) + after), colons)
    decreases |before|
  {
    var s := before + (Spelling(t) + after);
    if before == "" {
      EmptyFront(Spelling(t) + after);
      PlaceholderAtFront(t, after, colons);
    } else {
      match ParameterAt(s, colons)
      case Some(first) =>
        NoneReachesAcross(before, t, after, colons);
        assert s[Width(first)..] == before[Width(first)..] + (Spelling(t) + after);
        EveryPlaceholderIsRead(before[Width(first)..], t, after, colons);
      case None =>
        HeadFirst(before, Spelling(t) + after);
        EveryPlaceholderIsRead(before[1..], t, after, colons);
    }
  }

  lemma BraceAtFront(name: string, after: string, colons: bool)
    requires IsName(name)
    ensures ParameterAt("{" + (name + ("}" + after)), colons) == Some(Brace(name))
  {
    var s := "{" + (name + ("}" + after));
    assert s[1..] == name + ("}" + after) && s[1..|name| + 1] == name && s[|name| + 1] == '}';
    WordsBefore(name, "}" + after);
  }

  lemma ColonAtFront(name: string, after: string)
    requires IsName(name) && (after != "" ==> !IsWord(after[0]))
    ensures ParameterAt(":" + (name + after), true) == Some(Colon(name))
  {
    var s := ":" + (name + after);
    assert s[1..] == name + after && s[1..|name| + 1] == name && s[0] == ':';
    WordsBefore(name, after);
  }

  lemma PlaceholderAtFront(t: Token, after: string, colons: bool)
    requires IsPlaceholder(t) && (t.Colon? ==> colons && (after != "" ==> !IsWord(after[0])))
    ensures ParameterAt(Spelling(t) + after, colons) == Some(t)
  {
    match t
    case Brace(name) =>
      BraceAtFront(name, after, colons);
      assert Spelling(t) + after == "{" + (name + ("}" + after));
    case Colon(name) =>
      ColonAtFront(name, after);
      assert Spelling(t) + after == ":" + (name + after);
  }

  /** A parameter at the front ends before the next brace or colon opens one. */
  lemma NoneReachesAcross(before: string, t: Token, after: string, colons: bool)
    requires before != "" && !t.Chr? && ParameterAt(before + (Spelling(t) + after), colons).Some?
    ensures Width(ParameterAt(before + (Spelling(t) + after), colons).value) <= |before|
  {
    var s := before + (Spelling(t) + after);
    var n := WordLength(s[1..]);
    assert s[|before|] == Spelling(t)[0] && !IsWord(s[|before|]) && s[|before|] != '}';
    if |before| <= n {
      assert s[1..][|before| - 1] == s[|before|];
    }
  }

  lemma ShowHead(t: Token, rest: seq<Token>)
    ensures Show([t] + rest) == Spelling(t) + Show(rest)
  {}

  lemma ParameterIsSpelled(s: string, colons: bool)
    requires ParameterAt(s, colons).Some?
    ensures var t := ParameterAt(s, colons).value; Spelling(t) == s[..Width(t)]
  {
    var n := WordLength(s[1..]);
    if ParameterAt(s, colons).value.Brace? {
      assert "{" + s[1..n + 1] + "}" == s[..n + 2];
    } else {
      assert ":" + s[1..n + 1] == s[..n + 1];
    }
  }

  function Literals(s: string): seq<Token> {
    if s == "" then [] else [Chr(s[0])] + Literals(s[1..])
  }

  function Names(ts: seq<Token>): seq<string> {
    if ts == [] then []
    else (if ts[0].Chr? then [] else [ts[0].name]) + Names(ts[1..])
  }

  /** The names a path declares in braces: the compiler's `parameters`. */
  function BraceNames(path: string): set<string> {
    set t | t in Scan(path, false) && t.Brace? :: t.name
  }

  /** The next match the global regular expression yields: how far ahead it is,
      and the parameter found there. */
  function NextParameter(s: string): (r: Option<(nat, Token)>)
    ensures r.Some? ==> !r.value.1.Chr?
    ensures r.Some? ==> r.value.0 < r.value.0 + Width(r.value.1) <= |s|
  {
    if s == "" then None
    else match ParameterAt(s, true)
      case Some(t) => Some((0, t))
      case None =>
        match NextParameter(s[1..])
        case Some((index, t)) => Some((index + 1, t))
        case None => None
  }

  lemma {:induction false} NothingLeftToRead(s: string)
    requires NextParameter(s).None?
    ensures Scan(s, true) == Literals(s)
  {
    if s != "" {
      NothingLeftToRead(s[1..]);
    }
  }

  lemma LiteralsCons(c: char, s: string, rest: seq<Token>)
    ensures Literals([c] + s) + rest == [Chr(c)] + (Literals(s) + rest)
  {}

  /** Everything before the next parameter reads as literal characters. */
  lemma {:induction false} LiteralsUpToNext(s: string, index: nat, t: Token)
    requires NextParameter(s) == Some((index, t))
    ensures ParameterAt(s[index..], true) == Some(t)
    ensures Scan(s, true) == Literals(s[..index]) + Scan(s[index..], true)
  {
    if index == 0 {
      assert s[..0] == "" && s[0..] == s;
    } else {
      LiteralsUpToNext(s[1..], index - 1, t);
      SplitHead(s, index);
      LiteralsCons(s[0], s[1..][..index - 1], Scan(s[index..], true));
    }
  }

  lemma NextIsLeftmost(s: string, index: nat, t: Token)
    requires NextParameter(s) == Some((index, t))
    ensures Scan(s, true) == Literals(s[..index]) + ([t] + Scan(s[index + Width(t)..], true))
  {
    LiteralsUpToNext(s, index, t);
    assert s[index..][Width(t)..] == s[index + Width(t)..];
  }

  lemma NamesConcat(a: seq<Token>, b: seq<Token>)
    ensures Names(a + b) == Names(a) + Names(b)
  {
    if a == [] {
      assert a + b == b;
    } else {
      assert (a + b)[1..] == a[1..] + b;
      NamesConcat(a[1..], b);
    }
  }

  lemma LiteralsHaveNoNames(s: string)
    ensures Names(Literals(s)) == []
  {}

  /** Taking one more match off the path keeps the reading and adds its name. */
  lemma PatternGrows(pattern: seq<Token>, literal: seq<Token>, t: Token, rest: seq<Token>)
    requires !t.Chr? && Names(literal) == []
    ensures pattern + literal + [t] + rest == pattern + (literal + ([t] + rest))
    ensures Names(pattern + literal + [t]) == Names(pattern) + [t.name]
  {
    NamesConcat(pattern + literal, [t]);
    NamesConcat(pattern, literal);
    assert Names([t]) == [t.name] + Names([]);
  }

  /** `compileEndpointPath`: walks the parameters of a path left to right,
      collecting the pattern and the capture names. */
  method CompileEndpointPath(path: string) returns (pattern: seq<Token>, keys: seq<string>)
    ensures pattern == Scan(path, true) && keys == Names(pattern)
  {
    pattern, keys := [], [];
    var rest := path;
    var next := NextParameter(rest);
    while next.Some?
      invariant next == NextParameter(rest)
      invariant pattern + Scan(rest, true) == Scan(path, true)
      invariant keys == Names(pattern)
      decreases |rest|
    {
      var (index, token) := next.value;
      NextIsLeftmost(rest, index, token);
      LiteralsHaveNoNames(rest[..index]);
      PatternGrows(pattern, Literals(rest[..index]), token, Scan(rest[index + Width(token)..], true));
      pattern := pattern + Literals(rest[..index]) + [token];
      keys := keys + [token.name];
      rest := rest[index + Width(token)..];
      next := NextParameter(rest);
    }
    NothingLeftToRead(rest);
    NamesConcat(pattern, Literals(rest));
    LiteralsHaveNoNames(rest);
    pattern := pattern + Literals(rest);
  }

  // ---------------------------------------------------------------- matching

  predicate IsCapture(s: string) {
    s != "" && '/' !in s
  }

  /** The template's text with its parameters replaced, in order, by `captures`. */
  function Fill(ts: seq<Token>, captures: seq<string>): string
    requires |captures| == |Names(ts)|
  {
    if ts == [] then ""
    else if ts[0].Chr? then [ts[0].c] + Fill(ts[1..], captures)
    else captures[0] + Fill(ts[1..], captures[1..])
  }

  /** What it means for `captures` to explain `suffix`, up to one trailing slash. */
  ghost predicate Explains(ts: seq<Token>, captures: seq<string>, suffix: string) {
    && |captures| == |Names(ts)|
    && (forall c :: c in captures ==> IsCapture(c))
    && (Fill(ts, captures) == suffix || Fill(ts, captures) + "/" == suffix)
  }

  /** The length of the longest run that `[^/]+` can take at the front of `s`. */
  function SegmentLength(s: string): (n: nat)
    ensures n <= |s| && '/' !in s[..n]
    ensures n < |s| ==> s[n] == '/'
  {
    if s == "" || s[0] == '/' then 0 else 1 + SegmentLength(s[1..])
  }

  /** The backtracking match of `^pattern/?$`: every capture takes as much as it
      can, and gives characters back only when the rest fails. */
  function Match(ts: seq<Token>, s: string): (r: Option<seq<string>>)
    ensures r.Some? ==> |r.value| == |Names(ts)|
    decreases |ts|, 1, 0
  {
    if ts == [] then (if s == "" || s == "/" then Some([]) else None)
    else if ts[0].Chr? then (if s != "" && s[0] == ts[0].c then Match(ts[1..], s[1..]) else None)
    else MatchCapture(ts, s, SegmentLength(s))
  }

  function MatchCapture(ts: seq<Token>, s: string, most: nat): (r: Option<seq<string>>)
    requires ts != [] && !ts[0].Chr? && most <= |s|
    ensures r.Some? ==> |r.value| == |Names(ts)|
    decreases |ts|, 0, most
  {
    if most == 0 then None
    else match Match(ts[1..], s[most..])
      case Some(rest) => Some([s[..most]] + rest)
      case None => MatchCapture(ts, s, most - 1)
  }

  /** One literal character, read off both sides. */
  lemma ExplainsLiteral(ts: seq<Token>, captures: seq<string>, s: string)
    requires ts != [] && ts[0].Chr?
    ensures Explains(ts, captures, s) <==> s != "" && s[0] == ts[0].c && Explains(ts[1..], captures, s[1..])
  {
    assert Names(ts) == Names(ts[1..]);
    if |captures| == |Names(ts)| {
      ConsMatches(ts[0].c, Fill(ts[1..], captures), s);
    }
  }

  lemma ConsMatches(c: char, rest: string, s: string)
    ensures [c] + rest == s <==> s != "" && s[0] == c && rest == s[1..]
    ensures [c] + rest + "/" == s <==> s != "" && s[0] == c && rest + "/" == s[1..]
  {}

  /** One capture, read off both sides. */
  lemma ExplainsCapture(ts: seq<Token>, captures: seq<string>, s: string)
    requires ts != [] && !ts[0].Chr?
    ensures Explains(ts, captures, s)
       <==> captures != [] && IsCapture(captures[0]) && |captures[0]| <= |s|
            && s[..|captures[0]|] == captures[0] && Explains(ts[1..], captures[1..], s[|captures[0]|..])
  {}

  /** Whatever the matcher returns explains the suffix. */
  lemma {:induction false} MatchIsSound(ts: seq<Token>, s: string)
    requires Match(ts, s).Some?
    ensures Explains(ts, Match(ts, s).value, s)
    decreases |ts|, 1, 0
  {
    if ts == [] {
      assert "" + "/" == "/";
    } else if ts[0].Chr? {
      MatchIsSound(ts[1..], s[1..]);
      ExplainsLiteral(ts, Match(ts, s).value, s);
    } else {
      CaptureIsSound(ts, s, SegmentLength(s));
    }
  }

  lemma {:induction false} CaptureIsSound(ts: seq<Token>, s: string, most: nat)
    requires ts != [] && !ts[0].Chr? && most <= |s| && '/' !in s[..most]
    requires MatchCapture(ts, s, most).Some?
    ensures Explains(ts, MatchCapture(ts, s, most).value, s)
    decreases |ts|, 0, most
  {
    if Match(ts[1..], s[most..]).Some? {
      MatchIsSound(ts[1..], s[most..]);
      var rest := Match(ts[1..], s[most..]).value;
      assert ([s[..most]] + rest)[1..] == rest;
      ExplainsCapture(ts, [s[..most]] + rest, s);
    } else {
      assert forall c :: c in s[..most - 1] ==> c in s[..most];
      CaptureIsSound(ts, s, most - 1);
    }
  }

  /** Earlier captures are at least as long, compared left to right. */
  ghost predicate Greedier(a: seq<string>, b: seq<string>)
    requires |a| == |b|
  {
    a == [] || |a[0]| > |b[0]| || (a[0] == b[0] && Greedier(a[1..], b[1..]))
  }

  /** A suffix with any explanation matches, and the one returned is the greediest. */
  lemma {:induction false} MatchIsComplete(ts: seq<Token>, s: string, captures: seq<string>)
    requires Explains(ts, captures, s)
    ensures Match(ts, s).Some? && |Match(ts, s).value| == |captures|
    ensures Greedier(Match(ts, s).value, captures)
    decreases |ts|, 1, 0
  {
    if ts == [] {
      assert "" + "/" == "/";
    } else if ts[0].Chr? {
      ExplainsLiteral(ts, captures, s);
      MatchIsComplete(ts[1..], s[1..], captures);
    } else {
      ExplainsCapture(ts, captures, s);
      CaptureFits(s, captures[0]);
      CaptureIsComplete(ts, s, SegmentLength(s), captures);
    }
  }

  lemma CaptureFits(s: string, capture: string)
    requires IsCapture(capture) && |capture| <= |s| && s[..|capture|] == capture
    ensures |capture| <= SegmentLength(s)
  {}

  lemma {:induction false} CaptureIsComplete(ts: seq<Token>, s: string, most: nat, captures: seq<string>)
    requires ts != [] && !ts[0].Chr? && most <= |s|
    requires Explains(ts, captures, s) && captures != [] && |captures[0]| <= most
    ensures var r := MatchCapture(ts, s, most); r.Some? && |r.value| == |captures| && Greedier(r.value, captures)
    decreases |ts|, 0, most
  {
    ExplainsCapture(ts, captures, s);
    var found := Match(ts[1..], s[most..]);
    if |captures[0]| == most {
      MatchIsComplete(ts[1..], s[most..], captures[1..]);
    } else if found.Some? {
      MatchIsSound(ts[1..], s[most..]);
      assert |Names(ts)| == 1 + |Names(ts[1..])|;
    } else {
      CaptureIsComplete(ts, s, most - 1, captures);
    }
  }
}
