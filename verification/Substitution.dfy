/** `buildTargetUrl` puts captured values into a target path one key at a time,
    with JavaScript's `replace`; this module says when that amounts to putting
    them all in at once. */
module Substitution {
  import opened Schema
  import opened Seqs
  import opened StringReplace
  import opened Templates
  import opened Endpoints

  // ------------------------------------------------------------ buildTargetUrl

  /** What one key's two replacements make of a path. */
  function ReplaceKey(target: string, key: string, value: string): string {
    Replace(Replace(target, "{" + key + "}", value), ":" + key, value)
  }

  function Sequential(target: string, params: seq<(string, string)>): string
    decreases |params|
  {
    if params == [] then target
    else Sequential(ReplaceKey(target, params[0].0, params[0].1), params[1..])
  }

  /** The replacement loop of `buildTargetUrl`. */
  method BuildTargetPath(targetPath: string, params: seq<(string, string)>) returns (target: string)
    ensures target == Sequential(targetPath, params)
  {
    target := targetPath;
    var i := 0;
    while i < |params|
      invariant 0 <= i <= |params|
      invariant Sequential(targetPath, params) == Sequential(target, params[i..])
    {
      var (key, value) := params[i];
      target := Replace(target, "{" + key + "}", value);
      target := Replace(target, ":" + key, value);
      StepThrough(params, i);
      i := i + 1;
    }
  }

  // ------------------------------------------------------- one replacement at a time

  function RoundAt(params: seq<(string, string)>, j: nat): (Token, string)
    requires j / 2 < |params|
  {
    (if j % 2 == 0 then Brace(params[j / 2].0) else Colon(params[j / 2].0), params[j / 2].1)
  }

  /** The replacements of the loop, in order: a placeholder and its text. */
  function Rounds(params: seq<(string, string)>): seq<(Token, string)> {
    seq(2 * |params|, j requires 0 <= j < 2 * |params| => RoundAt(params, j))
  }

  function Chained(target: string, rounds: seq<(Token, string)>): string
    decreases |rounds|
  {
    if rounds == [] then target
    else Chained(Replace(target, Spelling(rounds[0].0), rounds[0].1), rounds[1..])
  }

  /** Every placeholder replaced at the same moment. */
  function Simultaneous(ts: seq<Token>, bound: map<Token, string>): string {
    if ts == [] then ""
    else (if ts[0] in bound then bound[ts[0]] else Spelling(ts[0])) + Simultaneous(ts[1..], bound)
  }

  predicate PlainToken(t: Token) {
    match t
    case Chr(c) => c != '{' && c != ':'
    case Brace(name) => IsName(name)
    case Colon(name) => IsName(name)
  }

  /** Only placeholders put braces and colons in the text. */
  predicate Plain(ts: seq<Token>) {
    forall i :: 0 <= i < |ts| ==> PlainToken(ts[i])
  }

  /** Two names of which neither begins with the other, or the same name. */
  predicate AreApart(a: string, b: string) {
    a == b || (!(a <= b) && !(b <= a))
  }

  // ---------------------------------------------------------- filling one placeholder

  /** The first such placeholder becomes the value, read as a template. */
  function FillFirst(ts: seq<Token>, placeholder: Token, value: string): seq<Token> {
    if ts == [] then []
    else if ts[0] == placeholder then Scan(value, true) + ts[1..]
    else [ts[0]] + FillFirst(ts[1..], placeholder, value)
  }

  function Occurrences(ts: seq<Token>, placeholder: Token): nat {
    if ts == [] then 0 else (if ts[0] == placeholder then 1 else 0) + Occurrences(ts[1..], placeholder)
  }

  lemma ShowConcat(a: seq<Token>, b: seq<Token>)
    ensures Show(a + b) == Show(a) + Show(b)
  {
    if a == [] {
      assert a + b == b;
    } else {
      assert (a + b)[1..] == a[1..] + b;
      ShowConcat(a[1..], b);
      Associate(Spelling(a[0]), Show(a[1..]), Show(b));
    }
  }

  /** Of two colon placeholders neither reads as the start of the other. */
  predicate NotConfused(t: Token, placeholder: Token) {
    t.Colon? && placeholder.Colon? ==> AreApart(t.name, placeholder.name)
  }

  function Opener(placeholder: Token): char
    requires !placeholder.Chr?
  {
    if placeholder.Brace? then '{' else ':'
  }

  lemma OpenerFirst(placeholder: Token)
    requires IsPlaceholder(placeholder)
    ensures Spelling(placeholder) == [Opener(placeholder)] + Spelling(placeholder)[1..]
    ensures '{' !in Spelling(placeholder)[1..] && ':' !in Spelling(placeholder)[1..]
  {
    assert Spelling(placeholder)[1..] == if placeholder.Brace? then placeholder.name + "}" else placeholder.name;
  }

  /** A placeholder can only be found where one of its kind and name starts. */
  lemma OtherPlaceholder(t: Token, placeholder: Token, rest: string, value: string)
    requires IsPlaceholder(t) && IsPlaceholder(placeholder) && t != placeholder && NotConfused(t, placeholder)
    ensures Splice(Spelling(t) + rest, Spelling(placeholder), value) == Spelling(t) + Splice(rest, Spelling(placeholder), value)
  {
    var pattern, tail := Spelling(placeholder), Spelling(t)[1..];
    OpenerFirst(t);
    OpenerFirst(placeholder);
    if Opener(t) != Opener(placeholder) {
      SpliceSkips(Spelling(t), rest, pattern, value);
    } else {
      Associate([Opener(t)], tail, rest);
      NotThere(t, placeholder, rest);
      assert Spelling(t) + rest == [Opener(t)] + (tail + rest);
      assert ([Opener(t)] + (tail + rest))[1..] == tail + rest;
      SpliceSkips(tail, rest, pattern, value);
      Associate([Opener(t)], tail, Splice(rest, pattern, value));
      if |[Opener(t)] + (tail + rest)| < |pattern| {
        assert Splice(rest, pattern, value) == rest;
      }
    }
  }

  lemma NotPrefix(a: string, b: string, j: nat)
    requires j < |a| && (j < |b| ==> a[j] != b[j])
    ensures !(a <= b)
  {}

  lemma SpelledName(t: Token, rest: string)
    requires !t.Chr?
    ensures var s := Spelling(t) + rest;
            && |t.name| + 1 <= |s| && (forall j :: 0 <= j < |t.name| ==> s[j + 1] == t.name[j])
            && (t.Brace? ==> |t.name| + 1 < |s| && s[|t.name| + 1] == '}')
  {}

  lemma NotThere(t: Token, placeholder: Token, rest: string)
    requires IsPlaceholder(t) && IsPlaceholder(placeholder) && t != placeholder && NotConfused(t, placeholder)
    requires Opener(t) == Opener(placeholder)
    ensures !(Spelling(placeholder) <= Spelling(t) + rest)
  {
    var name, key := t.name, placeholder.name;
    var j := WhereTheyDiffer(name, key);
    SpelledName(t, rest);
    SpelledName(placeholder, "");
    assert Spelling(placeholder) + "" == Spelling(placeholder);
    if j < |name| && j < |key| {
      NotPrefix(Spelling(placeholder), Spelling(t) + rest, j + 1);
    } else {
      PrefixesDiffer(name, key, j);
      assert IsWord(if j < |name| then name[j] else key[j]);
      NotPrefix(Spelling(placeholder), Spelling(t) + rest, j + 1);
    }
  }

  /** The first position at which two different names do not have the same character. */
  lemma {:induction false} WhereTheyDiffer(a: string, b: string) returns (j: nat)
    requires a != b
    ensures j <= |a| && j <= |b| && a[..j] == b[..j] && (j < |a| || j < |b|)
    ensures j < |a| && j < |b| ==> a[j] != b[j]
  {
    j := 0;
    if a != "" && b != "" && a[0] == b[0] {
      HeadFirst(a, "");
      HeadFirst(b, "");
      var k := WhereTheyDiffer(a[1..], b[1..]);
      j := k + 1;
      SplitHead(a, j);
      SplitHead(b, j);
    }
  }

  /** Names that agree up to the end of one of them are one the start of the other. */
  lemma PrefixesDiffer(a: string, b: string, j: nat)
    requires j <= |a| && j <= |b| && a[..j] == b[..j] && (j == |a| || j == |b|)
    ensures a <= b || b <= a
  {}

  lemma {:induction false} SpliceFillsFirst(ts: seq<Token>, placeholder: Token, value: string)
    requires Plain(ts) && IsPlaceholder(placeholder) && forall t :: t in ts ==> NotConfused(t, placeholder)
    ensures Splice(Show(ts), Spelling(placeholder), value) == Show(FillFirst(ts, placeholder, value))
  {
    if ts != [] {
      var rest := ts[1..];
      OpenerFirst(placeholder);
      if ts[0] == placeholder {
        SpliceAtFront(Spelling(placeholder), Show(rest), value);
        ShowConcat(Scan(value, true), rest);
        ScanKeepsSpelling(value, true);
      } else {
        SpliceFillsFirst(rest, placeholder, value);
        ShowHead(ts[0], FillFirst(rest, placeholder, value));
        assert PlainToken(ts[0]) && ts[0] in ts;
        if ts[0].Chr? {
          SpliceStep(ts[0].c, Show(rest), Spelling(placeholder), value);
        } else {
          OtherPlaceholder(ts[0], placeholder, Show(rest), value);
        }
      }
    }
  }

  lemma {:induction false} NothingToFill(ts: seq<Token>, placeholder: Token, value: string)
    requires Occurrences(ts, placeholder) == 0
    ensures FillFirst(ts, placeholder, value) == ts
  {
    if ts != [] {
      NothingToFill(ts[1..], placeholder, value);
    }
  }

  /** One replacement is one placeholder filled; where there is none, the value does not matter. */
  lemma ReplaceFillsFirst(ts: seq<Token>, placeholder: Token, value: string)
    requires Plain(ts) && IsPlaceholder(placeholder) && forall t :: t in ts ==> NotConfused(t, placeholder)
    requires Occurrences(ts, placeholder) > 0 ==> !HasExpansion(value)
    ensures Replace(Show(ts), Spelling(placeholder), value) == Show(FillFirst(ts, placeholder, value))
  {
    if Occurrences(ts, placeholder) > 0 {
      ReplaceIsSplice(Show(ts), Spelling(placeholder), value);
      SpliceFillsFirst(ts, placeholder, value);
    } else {
      ReplaceIsSplice(Show(ts), Spelling(placeholder), "");
      SpliceFillsFirst(ts, placeholder, "");
      NothingToFill(ts, placeholder, "");
      NothingToFill(ts, placeholder, value);
      FoundShortens(Show(ts), Spelling(placeholder));
    }
  }

  lemma {:induction false} FillBringsTheValue(ts: seq<Token>, placeholder: Token, value: string, t: Token)
    requires t in FillFirst(ts, placeholder, value)
    ensures t in ts || t in Scan(value, true)
  {
    if ts[0] != placeholder && t != ts[0] {
      FillBringsTheValue(ts[1..], placeholder, value, t);
    }
  }

  lemma {:induction false} AbsentOccursNowhere(ts: seq<Token>, placeholder: Token)
    ensures placeholder !in ts <==> Occurrences(ts, placeholder) == 0
  {
    if ts != [] {
      AbsentOccursNowhere(ts[1..], placeholder);
    }
  }

  lemma OccurrencesConcat(a: seq<Token>, b: seq<Token>, placeholder: Token)
    ensures Occurrences(a + b, placeholder) == Occurrences(a, placeholder) + Occurrences(b, placeholder)
  {
    if a == [] {
      assert a + b == b;
    } else {
      assert (a + b)[1..] == a[1..] + b;
      OccurrencesConcat(a[1..], b, placeholder);
    }
  }

  lemma {:induction false} FillCounts(ts: seq<Token>, placeholder: Token, value: string, other: Token)
    requires other !in Scan(value, true)
    ensures Occurrences(FillFirst(ts, placeholder, value), other)
         == Occurrences(ts, other) - if other == placeholder && Occurrences(ts, other) > 0 then 1 else 0
  {
    if ts != [] {
      if ts[0] == placeholder {
        OccurrencesConcat(Scan(value, true), ts[1..], other);
        AbsentOccursNowhere(Scan(value, true), other);
      } else {
        FillCounts(ts[1..], placeholder, value, other);
      }
    }
  }

  // --------------------------------------------------------------- all of the rounds

  /** A value whose own braces and colons are not taken for the placeholder. */
  predicate IsInert(value: string, placeholder: Token) {
    forall t :: t in Scan(value, true) ==> PlainToken(t) && t != placeholder && NotConfused(t, placeholder)
  }

  predicate RoundsAreClean(rounds: seq<(Token, string)>) {
    && (forall i :: 0 <= i < |rounds| ==> IsPlaceholder(rounds[i].0))
    && (forall i, j :: 0 <= i < |rounds| && 0 <= j < |rounds| ==> IsInert(rounds[i].1, rounds[j].0))
    && PlaceholdersDiffer(rounds)
  }

  predicate PlaceholdersDiffer(rounds: seq<(Token, string)>) {
    forall i, j :: 0 <= i < j < |rounds| ==> rounds[i].0 != rounds[j].0
  }

  predicate NoneConfused(ts: seq<Token>, rounds: seq<(Token, string)>) {
    forall t, i :: t in ts && 0 <= i < |rounds| ==> NotConfused(t, rounds[i].0)
  }

  /** No value that is put somewhere holds a pair that expands. */
  predicate NoneExpands(ts: seq<Token>, rounds: seq<(Token, string)>) {
    forall i :: 0 <= i < |rounds| ==> Occurrences(ts, rounds[i].0) > 0 ==> !HasExpansion(rounds[i].1)
  }

  predicate NoneRepeats(ts: seq<Token>, rounds: seq<(Token, string)>) {
    forall i :: 0 <= i < |rounds| ==> Occurrences(ts, rounds[i].0) <= 1
  }

  function FillAll(ts: seq<Token>, rounds: seq<(Token, string)>): seq<Token>
    decreases |rounds|
  {
    if rounds == [] then ts else FillAll(FillFirst(ts, rounds[0].0, rounds[0].1), rounds[1..])
  }

  predicate Fits(ts: seq<Token>, placeholder: Token) {
    forall t :: t in ts ==> PlainToken(t) && NotConfused(t, placeholder)
  }

  lemma FillFits(ts: seq<Token>, placeholder: Token, value: string, other: Token)
    requires Fits(ts, other) && IsInert(value, other)
    ensures Fits(FillFirst(ts, placeholder, value), other)
  {
    forall t | t in FillFirst(ts, placeholder, value) ensures PlainToken(t) && NotConfused(t, other) {
      FillBringsTheValue(ts, placeholder, value, t);
    }
  }

  lemma PlainFits(ts: seq<Token>, rounds: seq<(Token, string)>, i: nat)
    requires Plain(ts) && NoneConfused(ts, rounds) && i < |rounds|
    ensures Fits(ts, rounds[i].0)
  {}

  /** What a round leaves to the later ones. */
  lemma AfterOneRound(ts: seq<Token>, rounds: seq<(Token, string)>)
    requires rounds != [] && Plain(ts) && RoundsAreClean(rounds) && NoneConfused(ts, rounds)
    ensures var filled := FillFirst(ts, rounds[0].0, rounds[0].1);
            && Plain(filled) && RoundsAreClean(rounds[1..]) && NoneConfused(filled, rounds[1..])
            && forall i :: 0 <= i < |rounds[1..]| ==> Occurrences(filled, rounds[1..][i].0) == Occurrences(ts, rounds[1..][i].0)
  {
    var (placeholder, value) := rounds[0];
    var filled, rest := FillFirst(ts, placeholder, value), rounds[1..];
    PlainFits(ts, rounds, 0);
    FillFits(ts, placeholder, value, placeholder);
    assert forall i :: 0 <= i < |rest| ==> rest[i] == rounds[i + 1];
    forall i | 0 <= i < |rest|
      ensures Fits(filled, rest[i].0) && Occurrences(filled, rest[i].0) == Occurrences(ts, rest[i].0)
    {
      PlainFits(ts, rounds, i + 1);
      FillFits(ts, placeholder, value, rest[i].0);
      FillCounts(ts, placeholder, value, rest[i].0);
    }
  }

  lemma {:induction false} ChainedFills(ts: seq<Token>, rounds: seq<(Token, string)>)
    requires Plain(ts) && RoundsAreClean(rounds) && NoneConfused(ts, rounds) && NoneExpands(ts, rounds)
    ensures Chained(Show(ts), rounds) == Show(FillAll(ts, rounds))
    decreases |rounds|
  {
    if rounds != [] {
      ReplaceFillsFirst(ts, rounds[0].0, rounds[0].1);
      AfterOneRound(ts, rounds);
      ChainedFills(FillFirst(ts, rounds[0].0, rounds[0].1), rounds[1..]);
    }
  }

  function BoundBy(rounds: seq<(Token, string)>): (m: map<Token, string>)
    ensures forall t :: t in m <==> exists i :: 0 <= i < |rounds| && rounds[i].0 == t
  {
    if rounds == [] then map[] else BoundBy(rounds[1..])[rounds[0].0 := rounds[0].1]
  }

  lemma {:induction false} SimultaneousConcat(a: seq<Token>, b: seq<Token>, m: map<Token, string>)
    ensures Simultaneous(a + b, m) == Simultaneous(a, m) + Simultaneous(b, m)
  {
    if a == [] {
      EmptyFront(b);
      EmptyFront(Simultaneous(b, m));
    } else {
      SimultaneousConcat(a[1..], b, m);
      HeadFirst(a, b);
      SimultaneousHead(a[0], a[1..], m);
      SimultaneousHead(a[0], a[1..] + b, m);
      Associate(Simultaneous([a[0]], m), Simultaneous(a[1..], m), Simultaneous(b, m));
    }
  }

  lemma SimultaneousHead(t: Token, rest: seq<Token>, m: map<Token, string>)
    ensures Simultaneous([t] + rest, m) == Simultaneous([t], m) + Simultaneous(rest, m)
  {}

  lemma {:induction false} NothingBoundIn(ts: seq<Token>, m: map<Token, string>)
    requires forall t :: t in ts ==> t !in m
    ensures Simultaneous(ts, m) == Show(ts)
  {
    if ts != [] {
      assert ts[0] in ts;
      NothingBoundIn(ts[1..], m);
    }
  }

  lemma {:induction false} UnusedPlaceholder(ts: seq<Token>, m: map<Token, string>, placeholder: Token, value: string)
    requires Occurrences(ts, placeholder) == 0
    ensures Simultaneous(ts, m[placeholder := value]) == Simultaneous(ts, m)
  {
    if ts != [] {
      UnusedPlaceholder(ts[1..], m, placeholder, value);
    }
  }

  /** Filling one placeholder first does not change what the others give. */
  lemma {:induction false} FillThenRest(ts: seq<Token>, m: map<Token, string>, placeholder: Token, value: string)
    requires Occurrences(ts, placeholder) <= 1 && placeholder !in m && forall t :: t in Scan(value, true) ==> t !in m
    ensures Simultaneous(FillFirst(ts, placeholder, value), m) == Simultaneous(ts, m[placeholder := value])
  {
    if ts != [] {
      if ts[0] == placeholder {
        SimultaneousConcat(Scan(value, true), ts[1..], m);
        NothingBoundIn(Scan(value, true), m);
        ScanKeepsSpelling(value, true);
        UnusedPlaceholder(ts[1..], m, placeholder, value);
      } else {
        FillThenRest(ts[1..], m, placeholder, value);
      }
    }
  }

  /** No value names a bound placeholder. */
  lemma ValuesNameNothing(rounds: seq<(Token, string)>)
    requires RoundsAreClean(rounds)
    ensures forall i, t :: 0 <= i < |rounds| && t in Scan(rounds[i].1, true) ==> t !in BoundBy(rounds)
  {}

  lemma {:induction false} FillAllIsSimultaneous(ts: seq<Token>, rounds: seq<(Token, string)>)
    requires Plain(ts) && RoundsAreClean(rounds) && NoneConfused(ts, rounds) && NoneRepeats(ts, rounds)
    ensures Show(FillAll(ts, rounds)) == Simultaneous(ts, BoundBy(rounds))
    decreases |rounds|
  {
    if rounds == [] {
      NothingBoundIn(ts, map[]);
    } else {
      AfterOneRound(ts, rounds);
      ValuesNameNothing(rounds);
      FillAllIsSimultaneous(FillFirst(ts, rounds[0].0, rounds[0].1), rounds[1..]);
      FillThenRest(ts, BoundBy(rounds[1..]), rounds[0].0, rounds[0].1);
    }
  }

  // ------------------------------------------------- what a repeated placeholder leaves

  lemma {:induction false} FillAllFits(ts: seq<Token>, rounds: seq<(Token, string)>, placeholder: Token)
    requires Fits(ts, placeholder) && forall i :: 0 <= i < |rounds| ==> IsInert(rounds[i].1, placeholder)
    ensures Fits(FillAll(ts, rounds), placeholder)
    decreases |rounds|
  {
    if rounds != [] {
      FillFits(ts, rounds[0].0, rounds[0].1, placeholder);
      FillAllFits(FillFirst(ts, rounds[0].0, rounds[0].1), rounds[1..], placeholder);
    }
  }

  lemma {:induction false} LaterRoundsLeave(ts: seq<Token>, rounds: seq<(Token, string)>, placeholder: Token)
    requires forall i :: 0 <= i < |rounds| ==> rounds[i].0 != placeholder && placeholder !in Scan(rounds[i].1, true)
    ensures Occurrences(FillAll(ts, rounds), placeholder) == Occurrences(ts, placeholder)
    decreases |rounds|
  {
    if rounds != [] {
      FillCounts(ts, rounds[0].0, rounds[0].1, placeholder);
      LaterRoundsLeave(FillFirst(ts, rounds[0].0, rounds[0].1), rounds[1..], placeholder);
    }
  }

  /** Of a placeholder that occurs twice, one is left after all rounds. */
  lemma {:induction false} RepeatsAreLeft(ts: seq<Token>, rounds: seq<(Token, string)>, i: nat)
    requires Plain(ts) && RoundsAreClean(rounds) && NoneConfused(ts, rounds)
    requires i < |rounds| && Occurrences(ts, rounds[i].0) > 1
    ensures Occurrences(FillAll(ts, rounds), rounds[i].0) > 0
    decreases |rounds|
  {
    var filled := FillFirst(ts, rounds[0].0, rounds[0].1);
    if i == 0 {
      FillCounts(ts, rounds[0].0, rounds[0].1, rounds[0].0);
      LaterRoundsLeave(filled, rounds[1..], rounds[0].0);
    } else {
      AfterOneRound(ts, rounds);
      RepeatsAreLeft(filled, rounds[1..], i - 1);
    }
  }

  /** The template with every bound placeholder's value read in its place. */
  function Substituted(ts: seq<Token>, m: map<Token, string>): seq<Token> {
    if ts == [] then [] else (if ts[0] in m then Scan(m[ts[0]], true) else [ts[0]]) + Substituted(ts[1..], m)
  }

  lemma {:induction false} SubstitutedIsShown(ts: seq<Token>, m: map<Token, string>)
    ensures Show(Substituted(ts, m)) == Simultaneous(ts, m)
  {
    if ts != [] {
      SubstitutedIsShown(ts[1..], m);
      var head := if ts[0] in m then Scan(m[ts[0]], true) else [ts[0]];
      ShowConcat(head, Substituted(ts[1..], m));
      if ts[0] in m { ScanKeepsSpelling(m[ts[0]], true); }
    }
  }

  lemma {:induction false} SubstitutedFits(ts: seq<Token>, m: map<Token, string>, placeholder: Token)
    requires Fits(ts, placeholder) && placeholder in m && forall t :: t in m ==> IsInert(m[t], placeholder)
    ensures Fits(Substituted(ts, m), placeholder) && placeholder !in Substituted(ts, m)
  {
    if ts != [] {
      assert ts[0] in ts;
      SubstitutedFits(ts[1..], m, placeholder);
    }
  }

  /** Texts differ when a placeholder can be found in one and not in the other. */
  lemma FoundInOneOnly(a: seq<Token>, b: seq<Token>, placeholder: Token)
    requires IsPlaceholder(placeholder) && Fits(a, placeholder) && Fits(b, placeholder)
    requires Occurrences(a, placeholder) > 0 && placeholder !in b
    ensures Show(a) != Show(b)
  {
    SpliceFillsFirst(a, placeholder, "");
    SpliceFillsFirst(b, placeholder, "");
    AbsentOccursNowhere(b, placeholder);
    NothingToFill(b, placeholder, "");
    FillingShortens(a, placeholder);
  }

  lemma {:induction false} FillingShortens(ts: seq<Token>, placeholder: Token)
    requires Occurrences(ts, placeholder) > 0 && IsPlaceholder(placeholder)
    ensures |Show(FillFirst(ts, placeholder, ""))| < |Show(ts)|
  {
    if ts[0] == placeholder {
      EmptyFront(ts[1..]);
    } else {
      FillingShortens(ts[1..], placeholder);
      ShowHead(ts[0], FillFirst(ts[1..], placeholder, ""));
    }
  }

  lemma BoundByIsInert(rounds: seq<(Token, string)>, placeholder: Token)
    requires forall i :: 0 <= i < |rounds| ==> IsInert(rounds[i].1, placeholder)
    ensures forall t :: t in BoundBy(rounds) ==> IsInert(BoundBy(rounds)[t], placeholder)
  {}

  lemma RepeatsAreSeen(ts: seq<Token>, rounds: seq<(Token, string)>, i: nat)
    requires Plain(ts) && RoundsAreClean(rounds) && NoneConfused(ts, rounds)
    requires i < |rounds| && Occurrences(ts, rounds[i].0) > 1
    ensures Show(FillAll(ts, rounds)) != Simultaneous(ts, BoundBy(rounds))
  {
    var placeholder, bound := rounds[i].0, BoundBy(rounds);
    RepeatsAreLeft(ts, rounds, i);
    PlainFits(ts, rounds, i);
    FillAllFits(ts, rounds, placeholder);
    BoundByIsInert(rounds, placeholder);
    SubstitutedFits(ts, bound, placeholder);
    SubstitutedIsShown(ts, bound);
    FoundInOneOnly(FillAll(ts, rounds), Substituted(ts, bound), placeholder);
  }

  lemma ChainedIsSimultaneousIff(ts: seq<Token>, rounds: seq<(Token, string)>)
    requires Plain(ts) && RoundsAreClean(rounds) && NoneConfused(ts, rounds) && NoneExpands(ts, rounds)
    ensures Chained(Show(ts), rounds) == Simultaneous(ts, BoundBy(rounds)) <==> NoneRepeats(ts, rounds)
  {
    ChainedFills(ts, rounds);
    if NoneRepeats(ts, rounds) {
      FillAllIsSimultaneous(ts, rounds);
    } else {
      var i :| 0 <= i < |rounds| && Occurrences(ts, rounds[i].0) > 1;
      RepeatsAreSeen(ts, rounds, i);
    }
  }

  // ------------------------------------------------------------------- the parameters

  /** What a value or a template holds in braces or behind a colon is not taken for a key. */
  predicate IsForeign(t: Token, key: string) {
    !t.Chr? ==> t.name != key && (t.Colon? ==> AreApart(t.name, key))
  }

  /** Keys are different names; in a value a brace or colon only spells a placeholder that
      is not taken for a key. Values without braces and colons are such values. */
  predicate ParamsAreClean(params: seq<(string, string)>) {
    && (forall i :: 0 <= i < |params| ==> IsName(params[i].0) && Plain(Scan(params[i].1, true)))
    && (forall i, t, j :: 0 <= i < |params| && t in Scan(params[i].1, true) && 0 <= j < |params| ==> IsForeign(t, params[j].0))
    && KeysDiffer(params)
  }

  predicate KeysDiffer(params: seq<(string, string)>) {
    forall i, j :: 0 <= i < j < |params| ==> params[i].0 != params[j].0
  }

  lemma {:induction false} ValuesWithoutMarksAreClean(value: string)
    requires '{' !in value && ':' !in value
    ensures forall t :: t in Scan(value, true) ==> t.Chr? && PlainToken(t)
  {
    if value != "" {
      ValuesWithoutMarksAreClean(value[1..]);
    }
  }

  /** No key begins a colon placeholder of another name, nor the other way round. */
  predicate KeysAreApart(ts: seq<Token>, params: seq<(string, string)>) {
    forall t, i :: t in ts && t.Colon? && 0 <= i < |params| ==> AreApart(t.name, params[i].0)
  }

  function Uses(ts: seq<Token>, key: string): nat {
    Occurrences(ts, Brace(key)) + Occurrences(ts, Colon(key))
  }

  /** No value that is used holds a pair that expands. */
  predicate ValuesStay(ts: seq<Token>, params: seq<(string, string)>) {
    forall i :: 0 <= i < |params| ==> Uses(ts, params[i].0) > 0 ==> !HasExpansion(params[i].1)
  }

  /** No bound placeholder occurs twice in one spelling. */
  predicate KeysDoNotRepeat(ts: seq<Token>, params: seq<(string, string)>) {
    forall i :: 0 <= i < |params| ==> Occurrences(ts, Brace(params[i].0)) <= 1 && Occurrences(ts, Colon(params[i].0)) <= 1
  }

  function MapOf(params: seq<(string, string)>): (m: map<string, string>)
    ensures forall k :: k in m <==> exists i :: 0 <= i < |params| && params[i].0 == k
  {
    if params == [] then map[] else MapOf(params[1..])[params[0].0 := params[0].1]
  }

  lemma {:induction false} SequentialIsChained(target: string, params: seq<(string, string)>)
    ensures Sequential(target, params) == Chained(target, Rounds(params))
    decreases |params|
  {
    if params != [] {
      var rounds := Rounds(params);
      assert rounds[0] == RoundAt(params, 0) && rounds[1..][0] == RoundAt(params, 1);
      assert rounds[1..][1..] == Rounds(params[1..]);
      SequentialIsChained(ReplaceKey(target, params[0].0, params[0].1), params[1..]);
    }
  }

  lemma ValueIsInert(params: seq<(string, string)>, i: nat, j: nat)
    requires ParamsAreClean(params) && i < |params| && j < |params|
    ensures IsInert(params[i].1, Brace(params[j].0)) && IsInert(params[i].1, Colon(params[j].0))
  {
    forall t | t in Scan(params[i].1, true) ensures PlainToken(t) && IsForeign(t, params[j].0) {}
  }

  lemma RoundsAreCleanToo(params: seq<(string, string)>)
    requires ParamsAreClean(params)
    ensures RoundsAreClean(Rounds(params))
  {
    var rounds := Rounds(params);
    forall i, j | 0 <= i < |rounds| && 0 <= j < |rounds| ensures IsInert(rounds[i].1, rounds[j].0) {
      assert rounds[i] == RoundAt(params, i) && rounds[j] == RoundAt(params, j);
      ValueIsInert(params, i / 2, j / 2);
    }
    forall i, j | 0 <= i < j < |rounds| ensures rounds[i].0 != rounds[j].0 {
      assert rounds[i] == RoundAt(params, i) && rounds[j] == RoundAt(params, j);
    }
  }

  lemma RoundsOfKey(params: seq<(string, string)>, i: nat)
    requires i < |params|
    ensures Rounds(params)[2 * i] == (Brace(params[i].0), params[i].1)
    ensures Rounds(params)[2 * i + 1] == (Colon(params[i].0), params[i].1)
  {
    assert 2 * i / 2 == i && (2 * i + 1) / 2 == i;
  }

  lemma KeysRepeatAsRounds(ts: seq<Token>, params: seq<(string, string)>)
    ensures KeysDoNotRepeat(ts, params) <==> NoneRepeats(ts, Rounds(params))
  {
    forall i | 0 <= i < |params| && NoneRepeats(ts, Rounds(params))
      ensures Occurrences(ts, Brace(params[i].0)) <= 1 && Occurrences(ts, Colon(params[i].0)) <= 1
    {
      RoundsOfKey(params, i);
    }
  }

  lemma NoneConfusedInRounds(ts: seq<Token>, params: seq<(string, string)>)
    requires KeysAreApart(ts, params)
    ensures NoneConfused(ts, Rounds(params))
  {
    forall t, j | t in ts && 0 <= j < |Rounds(params)| ensures NotConfused(t, Rounds(params)[j].0) {
      assert Rounds(params)[j] == RoundAt(params, j);
    }
  }

  lemma NoneExpandsInRounds(ts: seq<Token>, params: seq<(string, string)>)
    requires ValuesStay(ts, params)
    ensures NoneExpands(ts, Rounds(params))
  {
    forall j | 0 <= j < |Rounds(params)| && Occurrences(ts, Rounds(params)[j].0) > 0
      ensures !HasExpansion(Rounds(params)[j].1)
    {
      assert Rounds(params)[j] == RoundAt(params, j);
      assert Uses(ts, params[j / 2].0) > 0;
    }
  }

  lemma {:induction false} MapOfLooksUp(params: seq<(string, string)>, i: nat)
    requires KeysDiffer(params) && i < |params|
    ensures params[i].0 in MapOf(params) && MapOf(params)[params[i].0] == params[i].1
  {
    if i > 0 {
      MapOfLooksUp(params[1..], i - 1);
    }
  }

  lemma {:induction false} BoundByLooksUp(rounds: seq<(Token, string)>, i: nat)
    requires PlaceholdersDiffer(rounds) && i < |rounds|
    ensures rounds[i].0 in BoundBy(rounds) && BoundBy(rounds)[rounds[i].0] == rounds[i].1
  {
    if i > 0 {
      BoundByLooksUp(rounds[1..], i - 1);
    }
  }

  lemma BoundIsMapped(params: seq<(string, string)>, j: nat)
    requires ParamsAreClean(params) && j < 2 * |params|
    ensures var t := Rounds(params)[j].0;
            && t in BoundBy(Rounds(params)) && !t.Chr? && t.name in MapOf(params)
            && BoundBy(Rounds(params))[t] == MapOf(params)[t.name]
  {
    RoundsAreCleanToo(params);
    BoundByLooksUp(Rounds(params), j);
    MapOfLooksUp(params, j / 2);
    assert Rounds(params)[j] == RoundAt(params, j);
  }

  lemma BoundInBoth(params: seq<(string, string)>, t: Token)
    requires ParamsAreClean(params)
    ensures t in BoundBy(Rounds(params)) <==> !t.Chr? && t.name in MapOf(params)
    ensures t in BoundBy(Rounds(params)) ==> BoundBy(Rounds(params))[t] == MapOf(params)[t.name]
  {
    if t in BoundBy(Rounds(params)) {
      var j :| 0 <= j < |Rounds(params)| && Rounds(params)[j].0 == t;
      BoundIsMapped(params, j);
    } else if !t.Chr? && t.name in MapOf(params) {
      var i :| 0 <= i < |params| && params[i].0 == t.name;
      RoundsOfKey(params, i);
      BoundIsMapped(params, if t.Brace? then 2 * i else 2 * i + 1);
    }
  }

  lemma {:induction false} SimultaneousIsRebuild(ts: seq<Token>, params: seq<(string, string)>)
    requires ParamsAreClean(params)
    ensures Simultaneous(ts, BoundBy(Rounds(params))) == Rebuild(ts, MapOf(params))
  {
    if ts != [] {
      SimultaneousIsRebuild(ts[1..], params);
      BoundInBoth(params, ts[0]);
    }
  }

  // ------------------------------------------------------------------------ theorems

  /** The loop substitutes all parameters at once exactly when no bound placeholder occurs
      twice in one spelling; in that case the order of the keys cannot matter, since the
      result depends on the map alone. */
  lemma SequentialIsSimultaneousIff(target: string, params: seq<(string, string)>)
    requires Plain(Scan(target, true)) && ParamsAreClean(params)
    requires KeysAreApart(Scan(target, true), params) && ValuesStay(Scan(target, true), params)
    ensures Sequential(target, params) == Rebuild(Scan(target, true), MapOf(params))
       <==> KeysDoNotRepeat(Scan(target, true), params)
  {
    var ts, rounds := Scan(target, true), Rounds(params);
    ScanKeepsSpelling(target, true);
    SequentialIsChained(target, params);
    RoundsAreCleanToo(params);
    NoneConfusedInRounds(ts, params);
    NoneExpandsInRounds(ts, params);
    KeysRepeatAsRounds(ts, params);
    ChainedIsSimultaneousIff(ts, rounds);
    SimultaneousIsRebuild(ts, params);
  }

  // ---------------------------------------------------- when a value's dollars survive

  lemma {:induction false} NoDollarsAddedByRest(target: string, params: seq<(string, string)>)
    requires forall i :: 0 <= i < |params| ==> '$' !in params[i].1
    ensures Dollars(Sequential(target, params)) <= Dollars(target)
    decreases |params|
  {
    if params != [] {
      var (key, value) := params[0];
      NoDollarsAdded(target, "{" + key + "}", value);
      NoDollarsAdded(Replace(target, "{" + key + "}", value), ":" + key, value);
      NoDollarsAddedByRest(ReplaceKey(target, key, value), params[1..]);
    }
  }

  /** In a path without colons the second replacement of a key finds nothing. */
  lemma OnlyBracesReplaced(s: string, key: string, value: string)
    requires ':' !in s && IsName(key) && ':' !in value
    ensures ReplaceKey(s, key, value) == Replace(s, "{" + key + "}", value) && ':' !in ReplaceKey(s, key, value)
  {
    ReplaceBringsNothing(s, "{" + key + "}", value, ':');
    NeverFound(Replace(s, "{" + key + "}", value), ":" + key);
  }

  lemma {:induction false} ExpansionLosesDollars(target: string, params: seq<(string, string)>, k: nat)
    requires '$' !in target && ':' !in target && forall i :: 0 <= i < |params| ==> IsName(params[i].0) && ':' !in params[i].1
    requires k < |params| && HasExpansion(params[k].1)
    requires forall i :: 0 <= i < |params| && i != k ==> '$' !in params[i].1
    ensures Dollars(Sequential(target, params)) < Dollars(params[k].1)
    decreases |params|
  {
    var (key, value) := params[0];
    var next, rest := ReplaceKey(target, key, value), params[1..];
    OnlyBracesReplaced(target, key, value);
    assert '$' !in "{" + key + "}";
    if k == 0 {
      DollarsLost(target, "{" + key + "}", value);
      NoDollarsAddedByRest(next, rest);
    } else {
      ReplaceBringsNothing(target, "{" + key + "}", value, '$');
      ExpansionLosesDollars(next, rest, k - 1);
    }
  }

  lemma {:induction false} RebuildHoldsValue(ts: seq<Token>, m: map<string, string>, name: string)
    requires Occurrences(ts, Brace(name)) > 0 && name in m
    ensures Dollars(Rebuild(ts, m)) >= Dollars(m[name])
  {
    var head := if !ts[0].Chr? && ts[0].name in m then m[ts[0].name] else Spelling(ts[0]);
    CountConcat(head, Rebuild(ts[1..], m), {'$'});
    if ts[0] != Brace(name) {
      RebuildHoldsValue(ts[1..], m, name);
    }
  }

  /** The only value with a `$` reaches the path as it is, and every other value with it,
      exactly when none of its `$` is followed by one of `$`, `&`, a backquote or a quote. */
  lemma DollarsSurviveIff(target: string, params: seq<(string, string)>, k: nat)
    requires Plain(Scan(target, true)) && ParamsAreClean(params) && KeysDoNotRepeat(Scan(target, true), params)
    requires '$' !in target && ':' !in target && forall i :: 0 <= i < |params| ==> ':' !in params[i].1
    requires k < |params| && Occurrences(Scan(target, true), Brace(params[k].0)) == 1
    requires forall i :: 0 <= i < |params| && i != k ==> '$' !in params[i].1
    ensures Sequential(target, params) == Rebuild(Scan(target, true), MapOf(params)) <==> !HasExpansion(params[k].1)
  {
    var ts := Scan(target, true);
    MapOfLooksUp(params, k);
    if HasExpansion(params[k].1) {
      ExpansionLosesDollars(target, params, k);
      RebuildHoldsValue(ts, MapOf(params), params[k].0);
    } else {
      ScanKeepsSpelling(target, true);
      forall t | t in ts ensures !t.Colon? {
        if t.Colon? { SpelledInside(ts, t); }
      }
      SequentialIsSimultaneousIff(target, params);
    }
  }

  lemma {:induction false} SpelledInside(ts: seq<Token>, t: Token)
    requires t in ts && t.Colon?
    ensures ':' in Show(ts)
  {
    if ts[0] == t {
      assert Show(ts)[0] == ':';
    } else {
      SpelledInside(ts[1..], t);
    }
  }

  // --------------------------------------------------------------- what follows

  lemma {:induction false} NamesCountUses(ts: seq<Token>, name: string)
    requires Distinct(Names(ts))
    ensures Uses(ts, name) <= if name in Names(ts) then 1 else 0
  {
    if ts != [] {
      var rest := Names(ts[1..]);
      if ts[0].Chr? {
        assert Names(ts) == rest;
      } else {
        assert Names(ts) == [ts[0].name] + rest;
        forall i | 0 <= i < |rest| ensures rest[i] == Names(ts)[i + 1] != ts[0].name {
          assert Names(ts)[0] != Names(ts)[i + 1];
        }
      }
      assert Distinct(rest);
      NamesCountUses(ts[1..], name);
    }
  }

  /** An operation whose target path is its own path forwards the request suffix
      unchanged, whatever order the captured parameters are enumerated in, exactly when no
      parameter is named `__proto__` or what that one captured is its own placeholder. */
  lemma DefaultTargetForwardsSuffix(
    declared: seq<Operation>, suffix: string, verb: Option<Verb>, params: seq<(string, string)>)
    requires Resolve(SortEndpoints(declared), suffix, verb).Resolved?
    requires var r := Resolve(SortEndpoints(declared), suffix, verb);
             var ts := Scan(r.endpoint.path, true);
             && r.endpoint.targetPath == Some(r.endpoint.path)
             && MapOf(params) == r.params && ParamsAreClean(params) && KeysAreApart(ts, params) && ValuesStay(ts, params)
             && Plain(ts) && Distinct(Names(ts))
    ensures var r := Resolve(SortEndpoints(declared), suffix, verb);
            var ts := Scan(r.endpoint.path, true);
            var target := Sequential(r.endpoint.targetPath.value, params);
            && Match(ts, suffix).Some?
            && ((target == suffix || target + "/" == suffix) <==> ProtoIsKept(ts, Match(ts, suffix).value))
  {
    var r := Resolve(SortEndpoints(declared), suffix, verb);
    var ts := Scan(r.endpoint.path, true);
    CapturesRebuildSuffix(declared, suffix, verb);
    forall i | 0 <= i < |params| ensures Uses(ts, params[i].0) <= 1 {
      NamesCountUses(ts, params[i].0);
    }
    SequentialIsSimultaneousIff(r.endpoint.path, params);
  }

  lemma {:induction false} BraceInRebuildIff(ts: seq<Token>, m: map<string, string>)
    requires Plain(ts) && forall k :: k in m ==> '{' !in m[k]
    ensures '{' in Rebuild(ts, m) <==> exists t :: t in ts && t.Brace? && t.name !in m
  {
    if ts != [] {
      assert PlainToken(ts[0]);
      BraceInRebuildIff(ts[1..], m);
      assert forall t :: t in ts <==> t == ts[0] || t in ts[1..];
      var head := if !ts[0].Chr? && ts[0].name in m then m[ts[0].name] else Spelling(ts[0]);
      assert ts[0].Brace? ==> Spelling(ts[0])[0] == '{';
    }
  }

  /** Reading colons as placeholders neither adds nor loses a placeholder in braces. */
  lemma {:induction false} SameBraces(s: string, t: Token)
    requires t.Brace?
    ensures t in Scan(s, true) <==> t in Scan(s, false)
    decreases |s|
  {
    if s != "" {
      match ParameterAt(s, true)
      case None => SameBraces(s[1..], t);
      case Some(first) =>
        SameBraces(s[Width(first)..], t);
        if first.Colon? {
          assert '{' !in s[..Width(first)];
          BracesBehind(s, Width(first), t);
        }
    }
  }

  lemma {:induction false} BracesBehind(s: string, n: nat, t: Token)
    requires n <= |s| && '{' !in s[..n] && t.Brace?
    ensures t in Scan(s[n..], false) <==> t in Scan(s, false)
    decreases n
  {
    if n == 0 {
      TakeAll(s);
    } else {
      assert s[0] in s[..n] && s[1..][n - 1..] == s[n..];
      assert forall c :: c in s[1..][..n - 1] ==> c in s[..n];
      BracesBehind(s[1..], n - 1, t);
    }
  }

  lemma MapOfHasNoBraces(params: seq<(string, string)>)
    requires forall i :: 0 <= i < |params| ==> '{' !in params[i].1
    ensures forall k :: k in MapOf(params) ==> '{' !in MapOf(params)[k]
  {}

  lemma BraceNamesAreScanned(target: string, name: string)
    ensures name in BraceNames(target) <==> exists t :: t in Scan(target, true) && t.Brace? && t.name == name
  {
    SameBraces(target, Brace(name));
    if name in BraceNames(target) {
      assert Brace(name) in Scan(target, true);
    }
    if t :| t in Scan(target, true) && t.Brace? && t.name == name {
      assert t == Brace(name);
    }
  }

  /** A target path the compiler accepts, that is one whose names in braces the public path
      declares, keeps a brace once every capture has been put in exactly when it names
      `__proto__`, the one parameter that is never passed on. */
  lemma NoPlaceholderLeftIff(path: string, target: string, params: seq<(string, string)>)
    requires BraceNames(target) <= BraceNames(path)
    requires BraceNames(path) - {PROTO} <= MapOf(params).Keys && PROTO !in MapOf(params)
    requires forall i :: 0 <= i < |params| ==> '{' !in params[i].1
    requires Plain(Scan(target, true)) && ParamsAreClean(params) && KeysAreApart(Scan(target, true), params)
    requires ValuesStay(Scan(target, true), params) && KeysDoNotRepeat(Scan(target, true), params)
    ensures '{' in Sequential(target, params) <==> PROTO in BraceNames(target)
  {
    var ts, m := Scan(target, true), MapOf(params);
    SequentialIsSimultaneousIff(target, params);
    MapOfHasNoBraces(params);
    BraceInRebuildIff(ts, m);
    forall t | t in ts && t.Brace? ensures t.name in BraceNames(target) {
      BraceNamesAreScanned(target, t.name);
    }
    BraceNamesAreScanned(target, PROTO);
  }

  // ------------------------------------------------------------------ excluded inputs

  lemma ScanOfStrayBraces()
    ensures Scan("{{a}}", true) == [Chr('{'), Brace("a"), Chr('}')]
  {
    assert "{{a}}"[1..] == "{a}}" && "{a}}"[3..] == "}" && "}"[1..] == "" && "{a}}"[1..] == "a}}" && "a}}"[1..] == "}}";
    assert WordLength("{a}}") == 0 && WordLength("}}") == 0 && WordLength("a}}") == 1;
    assert "{a}}"[1..2] == "a";
    assert ParameterAt("{a}}", true) == Some(Brace("a")) && ParameterAt("}", true) == None;
    assert Scan("}", true) == [Chr('}')];
    assert Scan("{a}}", true) == [Brace("a")] + [Chr('}')];
  }

  lemma StrayBraceFilled()
    ensures ReplaceKey("{{a}}", "a", "b") == "{b}"
  {
    assert "{{a}}"[1..] == "{a}" + "}" && "{{a}}"[1] != "{a}"[1];
    FoundSecond("{{a}}", "{a}", "}", "b");
    assert ["{{a}}"[0]] + ("b" + "}") == "{b}";
    ReplaceNowhere("{b}", ":a", "b");
    assert "{" + "a" + "}" == "{a}" && ":" + "a" == ":a";
  }

  lemma BraceFilledNext()
    ensures ReplaceKey("{b}", "b", "c") == "c"
  {
    ReplaceHere("", "{b}", "", "c");
    assert "" + "{b}" + "" == "{b}" && "" + "c" + "" == "c";
    ReplaceNowhere("c", ":b", "c");
    assert "{" + "b" + "}" == "{b}" && ":" + "b" == ":b";
  }

  /** Why literal braces are excluded: a value between them becomes a placeholder. */
  lemma StrayBraceChains()
    ensures Sequential("{{a}}", [("a", "b"), ("b", "c")]) == "c"
    ensures Rebuild(Scan("{{a}}", true), map["a" := "b", "b" := "c"]) == "{b}"
  {
    var params := [("a", "b"), ("b", "c")];
    StrayBraceFilled();
    BraceFilledNext();
    assert params[1..] == [("b", "c")] && params[1..][1..] == [];
    StrayBraceRebuilt();
  }

  lemma StrayBraceRebuilt()
    ensures Rebuild(Scan("{{a}}", true), map["a" := "b", "b" := "c"]) == "{b}"
  {
    ScanOfStrayBraces();
    var m := map["a" := "b", "b" := "c"];
    var ts := [Chr('{'), Brace("a"), Chr('}')];
    assert ts[1..][1..][1..] == [];
    assert Rebuild(ts[1..][1..], m) == "}";
    assert Rebuild(ts[1..], m) == "b}";
  }

  lemma TwoInTurn(target: string, first: (string, string), second: (string, string))
    ensures Sequential(target, [first, second])
         == ReplaceKey(ReplaceKey(target, first.0, first.1), second.0, second.1)
  {
    assert [first, second][1..] == [second] && [second][1..] == [];
    var once := ReplaceKey(target, first.0, first.1);
    assert Sequential(once, [second]) == ReplaceKey(once, second.0, second.1);
  }

  lemma TwoRebuilt(m: map<string, string>, a: string, b: string, c: char)
    requires a in m && b in m
    ensures Rebuild([Chr('/'), Brace(b), Brace(a), Chr(c)], m) == "/" + (m[b] + (m[a] + [c]))
  {
    var ts := [Chr('/'), Brace(b), Brace(a), Chr(c)];
    assert ts[1..] == [Brace(b), Brace(a), Chr(c)] && ts[1..][1..] == [Brace(a), Chr(c)];
    assert ts[1..][1..][1..] == [Chr(c)] && [Chr(c)][1..] == [];
    EmptyFront([c]);
    assert Rebuild([Chr(c)], m) == [c];
    assert Rebuild(ts[1..][1..], m) == m[a] + [c];
  }

  /** Why no more than one value may hold a `$` there: two of them can make up for each other.
      Here the quote behind the second `$` is expanded to what follows, which is the same. */
  lemma DollarsCancel()
    ensures Sequential("/{b}{a}'", [("a", "$"), ("b", "$'")]) == "/$'$'"
    ensures HasExpansion("$'")
    ensures Rebuild([Chr('/'), Brace("b"), Brace("a"), Chr('\'')], map["a" := "$", "b" := "$'"]) == "/$'$'"
  {
    TwoInTurn("/{b}{a}'", ("a", "$"), ("b", "$'"));
    FirstDollarPut();
    SecondDollarPut();
    assert IsExpandedAt("$'", 0);
    TwoRebuilt(map["a" := "$", "b" := "$'"], "a", "b", '\'');
  }

  lemma FirstDollarSpliced()
    ensures Splice("/{b}{a}'", "{a}", "$") == "/{b}$'"
  {
    var pattern, tail := "{a}", "{a}" + "'";
    SpliceAtFront(pattern, "'", "$");
    SpliceSkips("b}", tail, pattern, "$");
    assert "{b}{a}'"[1..] == "b}" + tail && "{b}{a}'"[1] != pattern[1] && "{b}{a}'"[0] == '{';
    assert Splice("{b}{a}'", pattern, "$") == "{b}$'";
    SpliceStep('/', "{b}{a}'", pattern, "$");
    assert "/" + "{b}{a}'" == "/{b}{a}'";
  }

  lemma OnlyInBraces(s: string, key: string, value: string)
    requires ':' !in Replace(s, "{" + key + "}", value)
    ensures ReplaceKey(s, key, value) == Replace(s, "{" + key + "}", value)
  {
    HeadFirst(":", key);
    ReplaceNowhere(Replace(s, "{" + key + "}", value), ":" + key, value);
  }

  lemma FirstDollarReplaced()
    ensures Replace("/{b}{a}'", "{a}", "$") == "/{b}$'"
  {
    ReplaceIsSplice("/{b}{a}'", "{a}", "$");
    FirstDollarSpliced();
  }

  lemma FirstDollarPut()
    ensures ReplaceKey("/{b}{a}'", "a", "$") == "/{b}$'"
  {
    assert "{" + "a" + "}" == "{a}";
    FirstDollarReplaced();
    OnlyInBraces("/{b}{a}'", "a", "$");
  }

  lemma QuoteBringsWhatFollows(matched: string, before: string, after: string)
    ensures Expand("$'", matched, before, after) == after
  {
    assert "$'"[2..] == "" && "$'"[1] == "$&`'"[3];
    EmptyFront(after);
  }

  lemma SecondDollarReplaced()
    ensures Replace("/{b}$'", "{b}", "$'") == "/$'$'"
  {
    ExpandedSecond("/{b}$'", "{b}", "$'", "$'");
    QuoteBringsWhatFollows("{b}", "/", "$'");
  }

  lemma SecondDollarPut()
    ensures ReplaceKey("/{b}$'", "b", "$'") == "/$'$'"
  {
    assert "{" + "b" + "}" == "{b}";
    SecondDollarReplaced();
    OnlyInBraces("/{b}$'", "b", "$'");
  }
}
