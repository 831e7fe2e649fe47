/** The lab egress quota: a fixed window per workspace. */
module Quota {
  import opened Schema

  const RATE_LIMIT: nat := 120
  const WINDOW_MS: int := 60_000

  datatype Counter = Counter(windowStartedAt: int, count: nat)

  datatype Request = Request(workspace: string, at: int)

  /** What one request does to its workspace's counter. */
  function Advance(current: Option<Counter>, now: int): Counter {
    match current
    case None => Counter(now, 1)
    case Some(c) => if now - c.windowStartedAt >= WINDOW_MS then Counter(now, 1) else c.(count := c.count + 1)
  }

  function CountersAfter(requests: seq<Request>): map<string, Counter> {
    if requests == [] then map[]
    else
      var before := CountersAfter(requests[..|requests| - 1]);
      var last := requests[|requests| - 1];
      before[last.workspace := Advance(CounterOf(before, last.workspace), last.at)]
  }

  function CounterOf(counters: map<string, Counter>, workspace: string): Option<Counter> {
    if workspace in counters then Some(counters[workspace]) else None
  }

  class LabEgress {
    var counters: map<string, Counter>

    constructor ()
      ensures counters == CountersAfter([])
    {
      counters := map[];
    }

    /** `consumeQuota`: a refused request still counts. */
    method ConsumeQuota(workspace: string, now: int, ghost past: seq<Request>) returns (ok: bool)
      requires counters == CountersAfter(past)
      modifies this
      ensures counters == CountersAfter(past + [Request(workspace, now)])
      ensures ok <==> IsAccepted(past + [Request(workspace, now)], |past|)
    {
      ghost var all := past + [Request(workspace, now)];
      assert all[..|past|] == past && all[..|past| + 1] == all;
      if workspace !in counters || now - counters[workspace].windowStartedAt >= WINDOW_MS {
        counters := counters[workspace := Counter(now, 1)];
        return true;
      }
      var current := counters[workspace];
      counters := counters[workspace := current.(count := current.count + 1)];
      ok := counters[workspace].count <= RATE_LIMIT;
    }
  }

  /** The k-th request leaves its workspace's counter within the limit. */
  predicate IsAccepted(requests: seq<Request>, k: nat)
    requires k < |requests|
  {
    var counter := CounterOf(CountersAfter(requests[..k + 1]), requests[k].workspace);
    counter.Some? && counter.value.count <= RATE_LIMIT
  }

  // The limits are written out from here on, so that the results do not move with the constants.

  /** The request is the workspace's, in the minute from `lo` on, its end excluded. */
  predicate IsIn(r: Request, workspace: string, lo: int) {
    r.workspace == workspace && lo <= r.at < lo + 60_000
  }

  /** A workspace's requests in the half-open window from `lo`, and those of them accepted. */
  function Asked(requests: seq<Request>, workspace: string, lo: int): nat {
    if requests == [] then 0
    else
      Asked(requests[..|requests| - 1], workspace, lo) + if IsIn(requests[|requests| - 1], workspace, lo) then 1 else 0
  }

  function Granted(requests: seq<Request>, workspace: string, lo: int): nat {
    if requests == [] then 0
    else
      var last := |requests| - 1;
      Granted(requests[..last], workspace, lo)
      + if IsIn(requests[last], workspace, lo) && IsAccepted(requests, last) then 1 else 0
  }

  ghost predicate IsTimely(requests: seq<Request>) {
    forall i, j :: 0 <= i < j < |requests| ==> requests[i].at <= requests[j].at
  }

  function Least(a: nat, b: nat): nat {
    if a <= b then a else b
  }

  /** The most a workspace can have been granted from `lo` on, given its counter: at most
      two windows overlap the interval, and the current one has granted what it has counted. */
  function Bound(counter: Option<Counter>, lo: int): nat {
    match counter
    case None => 0
    case Some(c) =>
      if lo >= c.windowStartedAt + WINDOW_MS then 0
      else if lo >= c.windowStartedAt then Least(c.count, RATE_LIMIT)
      else if c.windowStartedAt < lo + WINDOW_MS then RATE_LIMIT + Least(c.count, RATE_LIMIT)
      else 2 * RATE_LIMIT
  }

  ghost predicate StartsInThePast(requests: seq<Request>) {
    forall w :: w in CountersAfter(requests) ==>
      exists k :: 0 <= k < |requests| && requests[k].at == CountersAfter(requests)[w].windowStartedAt
  }

  lemma {:induction false} WindowsStartInThePast(requests: seq<Request>)
    ensures StartsInThePast(requests)
    decreases |requests|
  {
    if requests != [] {
      var front := requests[..|requests| - 1];
      WindowsStartInThePast(front);
      forall w | w in CountersAfter(requests)
        ensures exists k :: 0 <= k < |requests| && requests[k].at == CountersAfter(requests)[w].windowStartedAt
      {
        if w in CountersAfter(front) && CountersAfter(front)[w].windowStartedAt == CountersAfter(requests)[w].windowStartedAt {
          var k :| 0 <= k < |front| && front[k].at == CountersAfter(front)[w].windowStartedAt;
          assert requests[k] == front[k];
        } else {
          assert requests[|requests| - 1].at == CountersAfter(requests)[w].windowStartedAt;
        }
      }
    }
  }

  lemma OneMoreGranted(requests: seq<Request>, workspace: string, lo: int)
    requires requests != []
    ensures var last := |requests| - 1;
            var counter := CounterOf(CountersAfter(requests), workspace);
            Granted(requests, workspace, lo)
            == Granted(requests[..last], workspace, lo)
               + if IsIn(requests[last], workspace, lo) && counter.Some? && counter.value.count <= RATE_LIMIT then 1 else 0
  {
    assert requests[..|requests|] == requests;
  }

  /** One step of the bound, on the counter alone. */
  lemma BoundAdvances(before: Option<Counter>, now: int, lo: int, granted: nat)
    requires granted <= Bound(before, lo) && (before.Some? ==> before.value.windowStartedAt <= now)
    ensures var after := Advance(before, now);
            granted + (if lo <= now < lo + WINDOW_MS && after.count <= RATE_LIMIT then 1 else 0) <= Bound(Some(after), lo)
  {}

  lemma {:induction false} GrantedIsBounded(requests: seq<Request>, workspace: string, lo: int)
    requires IsTimely(requests)
    ensures Granted(requests, workspace, lo) <= Bound(CounterOf(CountersAfter(requests), workspace), lo)
    decreases |requests|
  {
    if requests != [] {
      var front, last := requests[..|requests| - 1], requests[|requests| - 1];
      GrantedIsBounded(front, workspace, lo);
      OneMoreGranted(requests, workspace, lo);
      if last.workspace == workspace {
        var before := CounterOf(CountersAfter(front), workspace);
        if before.Some? {
          WindowsStartInThePast(front);
          var k :| 0 <= k < |front| && front[k].at == before.value.windowStartedAt;
          assert requests[k].at <= last.at;
        }
        BoundAdvances(before, last.at, lo, Granted(front, workspace, lo));
      }
    }
  }

  /** For non-decreasing request times, no half-open minute, wherever it starts, grants a
      workspace more than 240 requests. */
  lemma AtMostTwoWindows(requests: seq<Request>, workspace: string, lo: int)
    requires IsTimely(requests)
    ensures Granted(requests, workspace, lo) <= 240
  {
    GrantedIsBounded(requests, workspace, lo);
  }

  /** And no more than 120 in the window it is in. */
  lemma AtMostOneWindow(requests: seq<Request>, workspace: string, lo: int)
    requires IsTimely(requests) && workspace in CountersAfter(requests)
    requires lo >= CountersAfter(requests)[workspace].windowStartedAt
    ensures Granted(requests, workspace, lo) <= Least(CountersAfter(requests)[workspace].count, 120)
  {
    GrantedIsBounded(requests, workspace, lo);
  }

  lemma {:induction false} CountIsAsked(requests: seq<Request>, workspace: string)
    requires IsTimely(requests) && workspace in CountersAfter(requests)
    ensures var c := CountersAfter(requests)[workspace]; c.count <= Asked(requests, workspace, c.windowStartedAt)
    decreases |requests|
  {
    var front, last := requests[..|requests| - 1], requests[|requests| - 1];
    if workspace in CountersAfter(front) {
      CountIsAsked(front, workspace);
      WindowsStartInThePast(front);
      var k :| 0 <= k < |front| && front[k].at == CountersAfter(front)[workspace].windowStartedAt;
      assert requests[k].at <= last.at;
    }
  }

  lemma {:induction false} AskedGrows(requests: seq<Request>, n: nat, workspace: string, lo: int)
    requires n <= |requests|
    ensures Asked(requests[..n], workspace, lo) <= Asked(requests, workspace, lo)
    decreases |requests|
  {
    if n < |requests| {
      AskedGrows(requests[..|requests| - 1], n, workspace, lo);
      assert requests[..|requests| - 1][..n] == requests[..n];
    } else {
      assert requests[..n] == requests;
    }
  }

  ghost predicate IsModest(requests: seq<Request>, workspace: string) {
    forall lo :: Asked(requests, workspace, lo) <= 120
  }

  /** The limit bites nobody else: a workspace that never asks more than 120 times in any
      half-open minute is never refused, whatever the others do. */
  lemma ModestWorkspacesAreServed(requests: seq<Request>, k: nat)
    requires IsTimely(requests) && k < |requests| && IsModest(requests, requests[k].workspace)
    ensures IsAccepted(requests, k)
  {
    var seen, workspace := requests[..k + 1], requests[k].workspace;
    assert seen[|seen| - 1] == requests[k];
    var counter := CountersAfter(seen)[workspace];
    CountIsAsked(seen, workspace);
    AskedGrows(requests, k + 1, workspace, counter.windowStartedAt);
    assert counter.count <= Asked(seen, workspace, counter.windowStartedAt) <= RATE_LIMIT;
  }

  function Own(requests: seq<Request>, workspace: string): seq<Request> {
    if requests == [] then []
    else
      Own(requests[..|requests| - 1], workspace)
      + if requests[|requests| - 1].workspace == workspace then [requests[|requests| - 1]] else []
  }

  /** A workspace's counter depends on its own requests alone. */
  lemma {:induction false} WorkspacesAreIndependent(requests: seq<Request>, workspace: string)
    ensures CounterOf(CountersAfter(requests), workspace) == CounterOf(CountersAfter(Own(requests, workspace)), workspace)
    decreases |requests|
  {
    if requests != [] {
      var front := requests[..|requests| - 1];
      WorkspacesAreIndependent(front, workspace);
      var own := Own(requests, workspace);
      if requests[|requests| - 1].workspace == workspace {
        assert own[..|own| - 1] == Own(front, workspace);
      } else {
        assert own == Own(front, workspace);
      }
    }
  }
}
