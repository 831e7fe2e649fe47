/** Choosing an endpoint: the order `loadProxies` sorts endpoints into, and the
    search `resolveEndpoint` makes through them. */
module Endpoints {
  import opened Schema
  import opened Seqs
  import opened Templates

  datatype Resolution =
    | Resolved(endpoint: Operation, params: map<string, string>)
    | NotAllowed(verbs: seq<Verb>)
    | NotFound

  // ------------------------------------------------------------------- order

  predicate IsDynamic(path: string) {
    ':' in path || '{' in path
  }

  /** The comparator is negative: `a` goes before `b`. */
  predicate Before(a: Operation, b: Operation) {
    || (!IsDynamic(a.path) && IsDynamic(b.path))
    || (IsDynamic(a.path) == IsDynamic(b.path) && |a.path| > |b.path|)
  }

  /** Stable insertion: after every element that does not have to follow it. */
  function Insert(s: seq<Operation>, e: Operation): seq<Operation> {
    if s != [] && Before(e, s[|s| - 1]) then Insert(s[..|s| - 1], e) + [s[|s| - 1]] else s + [e]
  }

  /** `[...endpoints].sort(comparator)`, which is stable. */
  function SortEndpoints(s: seq<Operation>): (r: seq<Operation>)
    ensures multiset(r) == multiset(s)
  {
    if s == [] then []
    else
      InsertKeeps(SortEndpoints(s[..|s| - 1]), s[|s| - 1]);
      SplitLast(s);
      Insert(SortEndpoints(s[..|s| - 1]), s[|s| - 1])
  }

  lemma InsertKeeps(s: seq<Operation>, e: Operation)
    ensures multiset(Insert(s, e)) == multiset(s) + multiset{e}
  {
    if s != [] && Before(e, s[|s| - 1]) {
      InsertKeeps(s[..|s| - 1], e);
      SplitLast(s);
    }
  }

  ghost predicate Sorted(s: seq<Operation>) {
    forall i, j :: 0 <= i < j < |s| ==> !Before(s[j], s[i])
  }

  lemma {:induction false} InsertSorts(s: seq<Operation>, e: Operation)
    requires Sorted(s)
    ensures Sorted(Insert(s, e))
    ensures forall x :: x in Insert(s, e) <==> x == e || x in s
  {
    if s != [] && Before(e, s[|s| - 1]) {
      var front, last := s[..|s| - 1], s[|s| - 1];
      assert s == front + [last];
      InsertSorts(front, e);
      var r := Insert(front, e);
      assert forall i :: 0 <= i < |r| ==> r[i] in r;
      assert forall x :: x in front ==> !Before(last, x);
    }
  }

  // ------------------------------------------------------------------ search

  /** The endpoint answers this suffix and this method. */
  predicate Answers(e: Operation, suffix: string, verb: Option<Verb>) {
    Match(Scan(e.path, true), suffix).Some? && verb == Some(e.verb)
  }

  function First(s: seq<Operation>, suffix: string, verb: Option<Verb>): (r: Option<Operation>)
    ensures r.Some? ==> r.value in s && Answers(r.value, suffix, verb)
    ensures r.None? <==> forall e :: e in s ==> !Answers(e, suffix, verb)
  {
    if s == [] then None
    else if Answers(s[0], suffix, verb) then Some(s[0])
    else First(s[1..], suffix, verb)
  }

  /** The one key that a plain JavaScript object does not take: assigning a string to it
      does nothing. */
  const PROTO := "__proto__"

  /** `params[key] = match[index + 1]` for each key in turn: a repeated name keeps its last value. */
  function Assign(keys: seq<string>, values: seq<string>): map<string, string>
    requires |keys| == |values|
  {
    if keys == [] then map[]
    else
      var front, key := Assign(keys[..|keys| - 1], values[..|keys| - 1]), keys[|keys| - 1];
      if key == PROTO then front else front[key := values[|keys| - 1]]
  }

  /** The verbs of every endpoint whose template explains the suffix. */
  function MatchingVerbs(s: seq<Operation>, suffix: string): set<Verb> {
    set e | e in s && Match(Scan(e.path, true), suffix).Some? :: e.verb
  }

  /** The place of a method's name in the alphabet. */
  function Rank(v: Verb): nat {
    match v
    case DELETE => 0
    case GET => 1
    case HEAD => 2
    case OPTIONS => 3
    case PATCH => 4
    case POST => 5
    case PUT => 6
    case TRACE => 7
  }

  /** `[...allowedMethods].sort()`: the set's elements, once each, in alphabetical order. */
  function SortVerbs(verbs: set<Verb>): (r: seq<Verb>)
    ensures forall v :: v in r <==> v in verbs
    ensures forall i, j :: 0 <= i < j < |r| ==> Rank(r[i]) < Rank(r[j])
  {
    EveryVerbIsListed();
    Pick(verbs, VERBS)
  }

  lemma EveryVerbIsListed()
    ensures forall v: Verb :: v in VERBS
  {
    forall v: Verb ensures v in VERBS {
      assert v == VERBS[Rank(v)];
    }
  }

  function Pick(verbs: set<Verb>, order: seq<Verb>): (r: seq<Verb>)
    requires forall i, j :: 0 <= i < j < |order| ==> Rank(order[i]) < Rank(order[j])
    ensures forall v :: v in r <==> v in verbs && v in order
    ensures forall i, j :: 0 <= i < j < |r| ==> Rank(r[i]) < Rank(r[j])
  {
    if order == [] then []
    else
      var rest := Pick(verbs, order[1..]);
      assert forall i :: 0 <= i < |rest| ==> rest[i] in order[1..];
      if order[0] in verbs then [order[0]] + rest else rest
  }

  /** What `resolveEndpoint` answers, given the suffix after its default is applied. */
  function Resolve(endpoints: seq<Operation>, suffix: string, verb: Option<Verb>): Resolution {
    match First(endpoints, suffix, verb)
    case Some(e) =>
      var pattern := Scan(e.path, true);
      Resolved(e, Assign(Names(pattern), Match(pattern, suffix).value))
    case None =>
      var verbs := MatchingVerbs(endpoints, suffix);
      if verbs == {} then NotFound else NotAllowed(SortVerbs(verbs))
  }

  /** `resolveEndpoint`. */
  method ResolveEndpoint(endpoints: seq<Operation>, requestSuffix: string, verb: Option<Verb>)
    returns (r: Resolution)
    ensures r == Resolve(endpoints, if requestSuffix == "" then "/" else requestSuffix, verb)
  {
    var suffix := if requestSuffix == "" then "/" else requestSuffix;
    var allowed: set<Verb> := {};
    TakeAll(endpoints);
    var i := 0;
    while i < |endpoints|
      invariant 0 <= i <= |endpoints|
      invariant First(endpoints, suffix, verb) == First(endpoints[i..], suffix, verb)
      invariant allowed == MatchingVerbs(endpoints[..i], suffix)
    {
      SearchStep(endpoints, i, suffix, verb);
      var endpoint := endpoints[i];
      var pattern, keys := CompileEndpointPath(endpoint.path);
      var found := Match(pattern, suffix);
      if found.Some? && verb == Some(endpoint.verb) {
        return Resolved(endpoint, Assign(keys, found.value));
      }
      if found.Some? {
        allowed := allowed + {endpoint.verb};
      }
      i := i + 1;
    }
    r := if allowed == {} then NotFound else NotAllowed(SortVerbs(allowed));
  }

  /** One turn of the search: what is left to look at, and what has been seen. */
  lemma SearchStep(endpoints: seq<Operation>, i: nat, suffix: string, verb: Option<Verb>)
    requires i < |endpoints|
    ensures First(endpoints[i..], suffix, verb)
         == if Answers(endpoints[i], suffix, verb) then Some(endpoints[i]) else First(endpoints[i + 1..], suffix, verb)
    ensures MatchingVerbs(endpoints[..i + 1], suffix)
         == MatchingVerbs(endpoints[..i], suffix)
            + if Match(Scan(endpoints[i].path, true), suffix).Some? then {endpoints[i].verb} else {}
  {}

  // ---------------------------------------------------------------- theorems

  lemma FirstOfSnoc(s: seq<Operation>, e: Operation, suffix: string, verb: Option<Verb>)
    ensures First(s + [e], suffix, verb)
         == if First(s, suffix, verb).Some? then First(s, suffix, verb)
            else if Answers(e, suffix, verb) then Some(e) else None
  {
    if s == [] {
      assert s + [e] == [e];
    } else {
      assert (s + [e])[1..] == s[1..] + [e];
      FirstOfSnoc(s[1..], e, suffix, verb);
    }
  }

  /** The last answer is looked at only when none comes before it. */
  lemma FirstBySplit(s: seq<Operation>, suffix: string, verb: Option<Verb>)
    requires s != []
    ensures var front, last := s[..|s| - 1], s[|s| - 1];
            First(s, suffix, verb)
            == if First(front, suffix, verb).Some? then First(front, suffix, verb)
               else if Answers(last, suffix, verb) then Some(last) else None
  {
    SplitLast(s);
    FirstOfSnoc(s[..|s| - 1], s[|s| - 1], suffix, verb);
  }

  lemma {:induction false} FirstOfInsert(s: seq<Operation>, e: Operation, suffix: string, verb: Option<Verb>)
    requires Sorted(s)
    ensures First(Insert(s, e), suffix, verb)
         == if Answers(e, suffix, verb) && (First(s, suffix, verb).None? || Before(e, First(s, suffix, verb).value))
            then Some(e) else First(s, suffix, verb)
  {
    if s != [] && Before(e, s[|s| - 1]) {
      var front, last := s[..|s| - 1], s[|s| - 1];
      FirstOfInsert(front, e, suffix, verb);
      FirstOfSnoc(Insert(front, e), last, suffix, verb);
      FirstBySplit(s, suffix, verb);
    } else {
      FirstOfSnoc(s, e, suffix, verb);
    }
  }

  /** The declared position that should win: the earliest among the answers no other answer precedes. */
  ghost predicate IsBest(s: seq<Operation>, i: nat, suffix: string, verb: Option<Verb>) {
    && i < |s| && Answers(s[i], suffix, verb)
    && forall j :: 0 <= j < |s| && Answers(s[j], suffix, verb) ==>
         !Before(s[j], s[i]) && (j < i ==> Before(s[i], s[j]))
  }

  lemma SortIsSorted(s: seq<Operation>)
    ensures Sorted(SortEndpoints(s))
  {
    if s != [] {
      SortIsSorted(s[..|s| - 1]);
      InsertSorts(SortEndpoints(s[..|s| - 1]), s[|s| - 1]);
    }
  }

  /** A running champion over the declared order, replaced only by a strictly better answer. */
  function Champion(s: seq<Operation>, suffix: string, verb: Option<Verb>): (r: Option<nat>)
    ensures r.Some? ==> r.value < |s| && Answers(s[r.value], suffix, verb)
  {
    if s == [] then None
    else
      var last := s[|s| - 1];
      var b := Champion(s[..|s| - 1], suffix, verb);
      if Answers(last, suffix, verb) && (b.None? || Before(last, s[b.value])) then Some(|s| - 1) else b
  }

  lemma BestStays(front: seq<Operation>, last: Operation, b: nat, suffix: string, verb: Option<Verb>)
    requires IsBest(front, b, suffix, verb)
    requires !(Answers(last, suffix, verb) && Before(last, front[b]))
    ensures IsBest(front + [last], b, suffix, verb)
  {}

  lemma BestReplaced(front: seq<Operation>, last: Operation, b: nat, suffix: string, verb: Option<Verb>)
    requires IsBest(front, b, suffix, verb)
    requires Answers(last, suffix, verb) && Before(last, front[b])
    ensures IsBest(front + [last], |front|, suffix, verb)
  {}

  lemma {:induction false} ChampionIsBest(s: seq<Operation>, suffix: string, verb: Option<Verb>)
    ensures Champion(s, suffix, verb).Some? ==> IsBest(s, Champion(s, suffix, verb).value, suffix, verb)
    ensures Champion(s, suffix, verb).None? ==> forall j :: 0 <= j < |s| ==> !Answers(s[j], suffix, verb)
  {
    if s != [] {
      var front, last := s[..|s| - 1], s[|s| - 1];
      assert s == front + [last];
      ChampionIsBest(front, suffix, verb);
      match Champion(front, suffix, verb)
      case None =>
      case Some(b) =>
        if Answers(last, suffix, verb) && Before(last, front[b]) {
          BestReplaced(front, last, b, suffix, verb);
        } else {
          BestStays(front, last, b, suffix, verb);
        }
    }
  }

  /** Searching the sorted endpoints in order finds the champion. */
  lemma {:induction false} SearchFindsChampion(s: seq<Operation>, suffix: string, verb: Option<Verb>)
    ensures First(SortEndpoints(s), suffix, verb)
         == match Champion(s, suffix, verb) case Some(i) => Some(s[i]) case None => None
  {
    if s != [] {
      var front := s[..|s| - 1];
      SearchFindsChampion(front, suffix, verb);
      SortIsSorted(front);
      FirstOfInsert(SortEndpoints(front), s[|s| - 1], suffix, verb);
    }
  }

  /** Some reading of the path explains the suffix. */
  ghost predicate Explained(path: string, suffix: string) {
    exists captures :: Explains(Scan(path, true), captures, suffix)
  }

  lemma ExplainedMeansMatch(path: string, suffix: string)
    ensures Explained(path, suffix) <==> Match(Scan(path, true), suffix).Some?
  {
    var ts := Scan(path, true);
    if Match(ts, suffix).Some? {
      MatchIsSound(ts, suffix);
    }
    if Explained(path, suffix) {
      var captures :| Explains(ts, captures, suffix);
      MatchIsComplete(ts, suffix, captures);
    }
  }

  /** Every name but `__proto__` has a value: the one at its last occurrence. */
  ghost predicate IsAssigned(params: map<string, string>, keys: seq<string>, values: seq<string>) {
    && |keys| == |values|
    && (forall key :: key in params <==> key in keys && key != PROTO)
    && (forall i :: 0 <= i < |keys| && keys[i] != PROTO && IsLast(keys, i) ==> params[keys[i]] == values[i])
  }

  /** The parameters come from the reading of the suffix that is greediest left to right. */
  ghost predicate AreGreediest(params: map<string, string>, ts: seq<Token>, suffix: string) {
    exists captures ::
      && Explains(ts, captures, suffix) && IsAssigned(params, Names(ts), captures)
      && forall other :: Explains(ts, other, suffix) ==> Greedier(captures, other)
  }

  predicate IsLast(keys: seq<string>, i: nat)
    requires i < |keys|
  {
    forall j :: i < j < |keys| ==> keys[j] != keys[i]
  }

  lemma {:induction false} AssignAssigns(keys: seq<string>, values: seq<string>)
    requires |keys| == |values|
    ensures IsAssigned(Assign(keys, values), keys, values)
  {
    if keys != [] {
      var n := |keys| - 1;
      AssignAssigns(keys[..n], values[..n]);
      forall i | 0 <= i < n && keys[i] != PROTO && IsLast(keys, i) ensures Assign(keys, values)[keys[i]] == values[i] {
        assert keys[n] != keys[i] && keys[..n][i] == keys[i];
        assert IsLast(keys[..n], i);
      }
      SplitLast(keys);
    }
  }

  /** Resolution over the endpoints of a loaded proxy, said without the sort,
      the regular expression or the search: a declared endpoint wins exactly when
      it explains the suffix, has the method, and no rival is static-before-dynamic,
      longer, or an equally ranked earlier declaration. */
  lemma ResolutionIsDeclarative(declared: seq<Operation>, suffix: string, verb: Option<Verb>)
    ensures match Resolve(SortEndpoints(declared), suffix, verb)
            case Resolved(e, params) =>
              && (exists i: nat :: IsBest(declared, i, suffix, verb) && declared[i] == e)
              && Explained(e.path, suffix) && verb == Some(e.verb)
              && AreGreediest(params, Scan(e.path, true), suffix)
            case NotAllowed(verbs) =>
              && (forall e :: e in declared && Explained(e.path, suffix) ==> verb != Some(e.verb))
              && verbs != []
              && (forall v :: v in verbs <==> exists e :: e in declared && Explained(e.path, suffix) && e.verb == v)
              && (forall i, j :: 0 <= i < j < |verbs| ==> Rank(verbs[i]) < Rank(verbs[j]))
            case NotFound =>
              forall e :: e in declared ==> !Explained(e.path, suffix)
  {
    SearchFindsChampion(declared, suffix, verb);
    ChampionIsBest(declared, suffix, verb);
    forall e: Operation
      ensures Explained(e.path, suffix) <==> Match(Scan(e.path, true), suffix).Some?
    {
      ExplainedMeansMatch(e.path, suffix);
    }
    var r := Resolve(SortEndpoints(declared), suffix, verb);
    if r.Resolved? {
      GreediestExplanation(Scan(r.endpoint.path, true), suffix);
      AssignAssigns(Names(Scan(r.endpoint.path, true)), Match(Scan(r.endpoint.path, true), suffix).value);
    } else {
      SameElements(SortEndpoints(declared), declared);
      VerbsAreExact(SortEndpoints(declared), suffix);
    }
  }

  /** The endpoint answers: its template explains the suffix, and the method is its own. */
  ghost predicate CouldAnswer(e: Operation, suffix: string, verb: Option<Verb>) {
    Explained(e.path, suffix) && verb == Some(e.verb)
  }

  predicate HasParameters(path: string) {
    exists k :: 0 <= k < |path| && (path[k] == ':' || path[k] == '{')
  }

  predicate IsAlike(a: Operation, b: Operation) {
    HasParameters(a.path) <==> HasParameters(b.path)
  }

  /** The winner among all endpoints that could answer: one with parameters only if every
      one has them, of its kind one of the longest, and of those the earliest declared. */
  lemma StaticThenLongestWins(declared: seq<Operation>, suffix: string, verb: Option<Verb>)
    requires Resolve(SortEndpoints(declared), suffix, verb).Resolved?
    ensures var e := Resolve(SortEndpoints(declared), suffix, verb).endpoint;
            && (HasParameters(e.path) ==>
                  forall other :: other in declared && CouldAnswer(other, suffix, verb) ==> HasParameters(other.path))
            && (forall other :: other in declared && CouldAnswer(other, suffix, verb) && IsAlike(other, e) ==>
                  |other.path| <= |e.path|)
            && exists i :: 0 <= i < |declared| && declared[i] == e
                 && forall j :: 0 <= j < i && CouldAnswer(declared[j], suffix, verb) && IsAlike(declared[j], e) ==>
                      |declared[j].path| < |e.path|
  {
    var e := Resolve(SortEndpoints(declared), suffix, verb).endpoint;
    ResolutionIsDeclarative(declared, suffix, verb);
    forall other: Operation
      ensures CouldAnswer(other, suffix, verb) <==> Answers(other, suffix, verb)
      ensures HasParameters(other.path) <==> IsDynamic(other.path)
    {
      ExplainedMeansMatch(other.path, suffix);
    }
    var i: nat :| IsBest(declared, i, suffix, verb) && declared[i] == e;
    forall other | other in declared && CouldAnswer(other, suffix, verb) ensures !Before(other, e) {
      var j :| 0 <= j < |declared| && declared[j] == other;
    }
  }

  lemma VerbsAreExact(s: seq<Operation>, suffix: string)
    ensures MatchingVerbs(s, suffix) == {} <==> forall e :: e in s ==> !Explained(e.path, suffix)
    ensures forall v :: v in MatchingVerbs(s, suffix) <==> exists e :: e in s && Explained(e.path, suffix) && e.verb == v
  {
    forall e: Operation
      ensures Explained(e.path, suffix) <==> Match(Scan(e.path, true), suffix).Some?
    {
      ExplainedMeansMatch(e.path, suffix);
    }
    if MatchingVerbs(s, suffix) == {} {
      forall e | e in s ensures !Explained(e.path, suffix) {
        assert Match(Scan(e.path, true), suffix).Some? ==> e.verb in MatchingVerbs(s, suffix);
      }
    }
  }

  lemma SameElements(a: seq<Operation>, b: seq<Operation>)
    requires multiset(a) == multiset(b)
    ensures forall e :: e in a <==> e in b
  {
    forall e ensures e in a <==> e in b {
      assert e in a <==> e in multiset(a);
      assert e in b <==> e in multiset(b);
    }
  }

  lemma GreediestExplanation(ts: seq<Token>, suffix: string)
    requires Match(ts, suffix).Some?
    ensures Explains(ts, Match(ts, suffix).value, suffix)
    ensures forall other :: Explains(ts, other, suffix) ==> Greedier(Match(ts, suffix).value, other)
  {
    MatchIsSound(ts, suffix);
    forall other | Explains(ts, other, suffix)
      ensures Greedier(Match(ts, suffix).value, other)
    {
      MatchIsComplete(ts, suffix, other);
    }
  }

  // -------------------------------------------------------------- round trip

  /** The template with each parameter replaced by what `params` holds for it. */
  function Rebuild(ts: seq<Token>, params: map<string, string>): string {
    if ts == [] then ""
    else
      (if !ts[0].Chr? && ts[0].name in params then params[ts[0].name] else Spelling(ts[0]))
      + Rebuild(ts[1..], params)
  }

  ghost predicate Distinct(names: seq<string>) {
    forall i, j :: 0 <= i < j < |names| ==> names[i] != names[j]
  }

  /** The captures as the parameters give them back: `__proto__` as its placeholder. */
  function GivenBack(ts: seq<Token>, captures: seq<string>): (r: seq<string>)
    requires |captures| == |Names(ts)|
    ensures |r| == |captures|
  {
    if ts == [] then []
    else if ts[0].Chr? then GivenBack(ts[1..], captures)
    else [if ts[0].name == PROTO then Spelling(ts[0]) else captures[0]] + GivenBack(ts[1..], captures[1..])
  }

  lemma {:induction false} RebuildIsFill(ts: seq<Token>, captures: seq<string>, params: map<string, string>)
    requires |captures| == |Names(ts)| && PROTO !in params
    requires forall i :: 0 <= i < |captures| && Names(ts)[i] != PROTO ==>
               Names(ts)[i] in params && params[Names(ts)[i]] == captures[i]
    ensures Rebuild(ts, params) == Fill(ts, GivenBack(ts, captures))
  {
    if ts != [] {
      if ts[0].Chr? {
        assert Names(ts) == Names(ts[1..]);
        RebuildIsFill(ts[1..], captures, params);
      } else {
        assert Names(ts)[0] == ts[0].name && Names(ts)[1..] == Names(ts[1..]);
        RebuildIsFill(ts[1..], captures[1..], params);
        FillFront(ts, GivenBack(ts, captures));
      }
    }
  }

  lemma FillFront(ts: seq<Token>, captures: seq<string>)
    requires ts != [] && !ts[0].Chr? && |captures| == |Names(ts)|
    ensures Fill(ts, captures) == captures[0] + Fill(ts[1..], captures[1..])
  {}

  // ------------------------------------------------- texts that differ in one segment

  /** A text that shifted by one character under a slash is the same is all slashes. */
  lemma {:induction false} ShiftedIsSlashes(c: char, rest: string)
    requires [c] + rest == rest + "/"
    ensures c == '/'
    decreases |rest|
  {
    if rest == "" {
      assert ([c] + rest)[0] == c && (rest + "/")[0] == '/';
    } else {
      assert ([c] + rest)[0] == c && (rest + "/")[0] == rest[0];
      assert ([c] + rest)[1..] == rest && (rest + "/")[1..] == rest[1..] + "/";
      HeadFirst(rest, "");
      ShiftedIsSlashes(rest[0], rest[1..]);
    }
  }

  lemma OneLonger(a: string, b: string, rest: string)
    requires a + rest == b + (rest + "/")
    ensures '/' in a
  {
    assert |a + rest| == |b + (rest + "/")|;
    var c := a[|b|];
    assert (b + (rest + "/"))[|b|..] == rest + "/" && (a + rest)[|b|..] == [c] + rest;
    ShiftedIsSlashes(c, rest);
  }

  lemma SameBehind(a: string, b: string, rest: string)
    ensures a + rest == b + rest <==> a == b
  {
    if a + rest == b + rest {
      assert |a + rest| == |b + rest|;
      assert a == (a + rest)[..|a|] && b == (b + rest)[..|b|];
    }
  }

  /** Two different slash-free fronts of the same text differ, also up to a slash at the end. */
  lemma FrontsDiffer(a: string, b: string, rest: string)
    requires a != b && '/' !in a && '/' !in b
    ensures AreFarApart(a + rest, b + rest)
  {
    SameBehind(a, b, rest);
    Associate(a, rest, "/");
    Associate(b, rest, "/");
    if a + rest == b + (rest + "/") { OneLonger(a, b, rest); }
    if b + rest == a + (rest + "/") { OneLonger(b, a, rest); }
  }

  lemma FrontKeepsApart(a: string, x: string, y: string)
    requires AreFarApart(x, y)
    ensures AreFarApart(a + x, a + y)
  {
    assert (a + x)[|a|..] == x && (a + y)[|a|..] == y;
    assert (a + x + "/")[|a|..] == x + "/" && (a + y + "/")[|a|..] == y + "/";
  }

  /** Texts that are the same neither as they are nor up to a slash at the end. */
  predicate AreFarApart(x: string, y: string) {
    x != y && x + "/" != y && x != y + "/"
  }

  lemma {:induction false} NoProtoGivesBack(ts: seq<Token>, captures: seq<string>)
    requires |captures| == |Names(ts)| && PROTO !in Names(ts)
    ensures GivenBack(ts, captures) == captures
  {
    if ts != [] {
      if ts[0].Chr? {
        assert Names(ts) == Names(ts[1..]);
        NoProtoGivesBack(ts[1..], captures);
      } else {
        assert Names(ts)[0] == ts[0].name && Names(ts)[1..] == Names(ts[1..]);
        NoProtoGivesBack(ts[1..], captures[1..]);
        HeadFirst(captures, []);
      }
    }
  }

  /** Captures that are not given back make another text. */
  lemma {:induction false} LostCaptureShows(ts: seq<Token>, captures: seq<string>)
    requires |captures| == |Names(ts)| && Distinct(Names(ts)) && GivenBack(ts, captures) != captures
    requires forall i :: 0 <= i < |captures| ==> '/' !in captures[i]
    requires forall t :: t in ts && !t.Chr? ==> '/' !in t.name
    ensures AreFarApart(Fill(ts, captures), Fill(ts, GivenBack(ts, captures)))
  {
    if ts != [] {
      var back := GivenBack(ts, captures);
      assert ts[0] in ts;
      if ts[0].Chr? {
        assert Names(ts) == Names(ts[1..]);
        LostCaptureShows(ts[1..], captures);
        FrontKeepsApart([ts[0].c], Fill(ts[1..], captures), Fill(ts[1..], back));
      } else {
        assert Names(ts)[0] == ts[0].name && Names(ts)[1..] == Names(ts[1..]);
        FillFront(ts, captures);
        FillFront(ts, back);
        HeadFirst(captures, []);
        if ts[0].name == PROTO {
          ProtoIsNotAgain(Names(ts));
          NoProtoGivesBack(ts[1..], captures[1..]);
          FrontsDiffer(captures[0], Spelling(ts[0]), Fill(ts[1..], captures[1..]));
        } else {
          DistinctTail(Names(ts));
          LostCaptureShows(ts[1..], captures[1..]);
          FrontKeepsApart(captures[0], Fill(ts[1..], captures[1..]), Fill(ts[1..], back[1..]));
        }
      }
    }
  }

  lemma ProtoIsNotAgain(names: seq<string>)
    requires names != [] && Distinct(names) && names[0] == PROTO
    ensures PROTO !in names[1..]
  {}

  lemma DistinctTail(names: seq<string>)
    requires names != [] && Distinct(names)
    ensures Distinct(names[1..])
  {}

  /** What a `__proto__` captured, if there is one, is its own placeholder. */
  predicate ProtoIsKept(ts: seq<Token>, captures: seq<string>)
    requires |captures| == |Names(ts)|
  {
    if ts == [] then true
    else if ts[0].Chr? then ProtoIsKept(ts[1..], captures)
    else (ts[0].name == PROTO ==> captures[0] == Spelling(ts[0])) && ProtoIsKept(ts[1..], captures[1..])
  }

  lemma {:induction false} KeptIsGivenBack(ts: seq<Token>, captures: seq<string>)
    requires |captures| == |Names(ts)|
    ensures ProtoIsKept(ts, captures) <==> GivenBack(ts, captures) == captures
  {
    if ts != [] {
      if ts[0].Chr? {
        KeptIsGivenBack(ts[1..], captures);
      } else {
        KeptIsGivenBack(ts[1..], captures[1..]);
        HeadFirst(captures, []);
        assert GivenBack(ts, captures)[1..] == GivenBack(ts[1..], captures[1..]);
      }
    }
  }

  lemma {:induction false} ScannedNamesAreWords(s: string, colons: bool, t: Token)
    requires t in Scan(s, colons) && !t.Chr?
    ensures forall c :: c in t.name ==> IsWord(c)
    decreases |s|
  {
    match ParameterAt(s, colons)
    case Some(first) => if t != first { ScannedNamesAreWords(s[Width(first)..], colons, t); }
    case None => ScannedNamesAreWords(s[1..], colons, t);
  }

  lemma AssignedIsGivenBack(ts: seq<Token>, captures: seq<string>)
    requires |captures| == |Names(ts)| && Distinct(Names(ts))
    ensures Rebuild(ts, Assign(Names(ts), captures)) == Fill(ts, GivenBack(ts, captures))
  {
    AssignAssigns(Names(ts), captures);
    RebuildIsFill(ts, captures, Assign(Names(ts), captures));
  }

  lemma RebuildsIff(ts: seq<Token>, captures: seq<string>, suffix: string)
    requires Explains(ts, captures, suffix) && Distinct(Names(ts))
    requires forall t :: t in ts && !t.Chr? ==> '/' !in t.name
    ensures var rebuilt := Rebuild(ts, Assign(Names(ts), captures));
            (rebuilt == suffix || rebuilt + "/" == suffix) <==> ProtoIsKept(ts, captures)
  {
    AssignedIsGivenBack(ts, captures);
    assert forall i :: 0 <= i < |captures| ==> captures[i] in captures;
    KeptIsGivenBack(ts, captures);
    if !ProtoIsKept(ts, captures) {
      LostCaptureShows(ts, captures);
      SlashesApart(Fill(ts, captures), Fill(ts, GivenBack(ts, captures)), suffix);
    }
  }

  lemma SlashesApart(x: string, y: string, suffix: string)
    requires AreFarApart(x, y) && (x == suffix || x + "/" == suffix)
    ensures y != suffix && y + "/" != suffix
  {
    SameBehind(x, y, "/");
  }

  /** Putting the captured parameters back into the winning template, if its names are
      different, gives the request suffix again, up to the optional trailing slash, exactly
      when no parameter is named `__proto__` or what it captured is its own placeholder. */
  lemma CapturesRebuildSuffix(declared: seq<Operation>, suffix: string, verb: Option<Verb>)
    requires Resolve(SortEndpoints(declared), suffix, verb).Resolved?
    requires Distinct(Names(Scan(Resolve(SortEndpoints(declared), suffix, verb).endpoint.path, true)))
    ensures var r := Resolve(SortEndpoints(declared), suffix, verb);
            var ts := Scan(r.endpoint.path, true);
            var rebuilt := Rebuild(ts, r.params);
            && Match(ts, suffix).Some?
            && ((rebuilt == suffix || rebuilt + "/" == suffix) <==> ProtoIsKept(ts, Match(ts, suffix).value))
  {
    var e := First(SortEndpoints(declared), suffix, verb).value;
    var ts := Scan(e.path, true);
    MatchIsSound(ts, suffix);
    forall t | t in ts && !t.Chr? ensures '/' !in t.name {
      ScannedNamesAreWords(e.path, true, t);
    }
    RebuildsIff(ts, Match(ts, suffix).value, suffix);
  }

  // ------------------------------------------------------------------- the witness

  lemma BraceIsScanned(name: string)
    requires name != "" && forall c :: c in name ==> IsWord(c)
    ensures Scan("{" + (name + "}"), true) == [Brace(name)]
  {
    var s := "{" + (name + "}");
    assert s[1..] == name + "}" && s[1..|name| + 1] == name && s[|name| + 2..] == "";
    WordsBefore(name, "}");
    assert ParameterAt(s, true) == Some(Brace(name));
    assert Scan("", true) == [];
  }

  lemma SegmentIsScanned(name: string)
    requires name != "" && forall c :: c in name ==> IsWord(c)
    ensures Scan("/" + ("{" + (name + "}")), true) == [Chr('/'), Brace(name)]
  {
    var rest := "{" + (name + "}");
    assert ("/" + rest)[1..] == rest && ("/" + rest)[0] == '/';
    BraceIsScanned(name);
    assert ParameterAt("/" + rest, true) == None;
  }

  lemma SegmentIsCaptured(name: string, capture: string)
    requires IsCapture(capture)
    ensures var ts := [Chr('/'), Brace(name)];
            Names(ts) == [name] && Match(ts, "/" + capture).Some? && |Match(ts, "/" + capture).value| == 1
  {
    var ts := [Chr('/'), Brace(name)];
    assert ts[1..] == [Brace(name)] && ts[1..][1..] == [];
    assert Names(ts[1..]) == [name] + Names([]);
    ExplainsCapture(ts[1..], [capture], capture);
    assert [capture][1..] == [] && capture[|capture|..] == "" && Explains([], [], "");
    assert ("/" + capture)[1..] == capture && ("/" + capture)[0] == '/';
    ExplainsLiteral(ts, [capture], "/" + capture);
    MatchIsComplete(ts, "/" + capture, [capture]);
  }

  lemma ResolvesAlone(op: Operation, ts: seq<Token>, suffix: string)
    requires Scan(op.path, true) == ts && Match(ts, suffix).Some?
    ensures Resolve([op], suffix, Some(op.verb)) == Resolved(op, Assign(Names(ts), Match(ts, suffix).value))
  {
    assert Answers([op][0], suffix, Some(op.verb));
  }

  lemma SegmentResolves(op: Operation, name: string, capture: string)
    requires op.path == "/" + ("{" + (name + "}"))
    requires name != "" && (forall c :: c in name ==> IsWord(c)) && IsCapture(capture)
    ensures exists value :: Resolve([op], "/" + capture, Some(op.verb)) == Resolved(op, Assign([name], [value]))
  {
    var ts := [Chr('/'), Brace(name)];
    SegmentIsScanned(name);
    SegmentIsCaptured(name, capture);
    ResolvesAlone(op, ts, "/" + capture);
    var values := Match(ts, "/" + capture).value;
    assert values == [values[0]];
  }

  lemma ProtoIsWord()
    ensures "/{__proto__}" == "/" + ("{" + (PROTO + "}")) && forall c :: c in PROTO ==> IsWord(c)
  {
  }

  /** Whatever is captured under the name `__proto__` is lost. */
  lemma ProtoIsLost(op: Operation, capture: string)
    requires op.path == "/{__proto__}" && IsCapture(capture)
    ensures Resolve([op], "/" + capture, Some(op.verb)) == Resolved(op, map[])
  {
    ProtoIsWord();
    SegmentResolves(op, PROTO, capture);
    forall value ensures Assign([PROTO], [value]) == map[] {
      AssignAssigns([PROTO], [value]);
    }
  }
}
