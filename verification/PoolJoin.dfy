/** What the pool guarantees in every reachable state, and what `run` returns over every schedule. */
module PoolJoin {
  import opened Digraph
  import opened Counters
  import opened Pool
  import opened PoolInvariant

  ghost predicate Run(g: Graph, jobs: nat, run: seq<State>) {
    && |run| >= 1 && run[0] == Init(g, jobs)
    && forall k :: 0 <= k < |run| - 1 ==> Next(g, run[k], run[k + 1])
  }

  ghost predicate Reachable(g: Graph, jobs: nat, s: State) {
    exists run :: Run(g, jobs, run) && run[|run| - 1] == s
  }

  lemma {:induction false} NextInv(g: Graph, s: State, s': State)
    requires Inv(g, s) && Next(g, s, s')
    ensures Inv(g, s') && |s'.pcs| == |s.pcs|
  {
    if w: nat, ok :| CanStep(g, s, w) && s' == Step(g, s, w, ok) {
      StepInv(g, s, w, ok);
      SameCrew(g, s, w, ok);
    } else {
      var w: nat :| CanWake(s, w) && s' == Wake(s, w);
      WakeInv(g, s, w);
    }
  }

  lemma {:induction false} SameCrew(g: Graph, s: State, w: nat, ok: bool)
    requires CanStep(g, s, w)
    ensures |Step(g, s, w, ok).pcs| == |s.pcs|
  {
  }

  lemma {:induction false} RunInv(g: Graph, jobs: nat, run: seq<State>, k: nat)
    requires InRange(g) && Run(g, jobs, run) && k < |run|
    ensures Inv(g, run[k]) && |run[k].pcs| == Workers(g, jobs)
  {
    if k == 0 {
      InitInv(g, jobs);
    } else {
      RunInv(g, jobs, run, k - 1);
      assert Next(g, run[k - 1], run[k - 1 + 1]);
      NextInv(g, run[k - 1], run[k]);
    }
  }

  lemma {:induction false} ReachableInv(g: Graph, jobs: nat, s: State)
    requires InRange(g) && Reachable(g, jobs, s)
    ensures Inv(g, s) && |s.pcs| == Workers(g, jobs)
  {
    var run :| Run(g, jobs, run) && run[|run| - 1] == s;
    RunInv(g, jobs, run, |run| - 1);
  }

  lemma {:induction false} ReachableNext(g: Graph, jobs: nat, s: State, s': State)
    requires Reachable(g, jobs, s) && Next(g, s, s')
    ensures Reachable(g, jobs, s')
  {
    var run :| Run(g, jobs, run) && run[|run| - 1] == s;
    var r := run + [s'];
    forall k | 0 <= k < |r| - 1 ensures Next(g, r[k], r[k + 1]) {
      if k < |run| - 1 { assert Next(g, run[k], run[k + 1]); }
    }
    assert Run(g, jobs, r) && r[|r| - 1] == s';
  }

  // ----- safety -----

  predicate Started(loc: Loc) {
    loc.Active? || loc.Done? || loc.Failed?
  }

  ghost predicate BeenStarted(s: State, i: nat) {
    i < |s.loc| && Started(s.loc[i])
  }

  // The history agrees with what the workers do: a job in flight belongs to exactly one worker.
  lemma {:induction false} RunningIsActive(g: Graph, jobs: nat, s: State, w: nat)
    requires InRange(g) && Reachable(g, jobs, s) && w < |s.pcs| && s.pcs[w].Running?
    ensures BeenStarted(s, s.pcs[w].item)
    ensures forall v :: 0 <= v < |s.pcs| && v != w ==> s.pcs[v] != s.pcs[w]
  {
    ReachableInv(g, jobs, s);
    var i := s.pcs[w].item;
    assert s.loc[i] == Active(w) <==> s.pcs[w] == Running(i);
    forall v | 0 <= v < |s.pcs| && v != w ensures s.pcs[v] != s.pcs[w] {
      assert s.loc[i] == Active(v) <==> s.pcs[v] == Running(i);
    }
  }

  lemma {:induction false} StartedAfter(g: Graph, s: State, a: nat, b: nat)
    requires Inv(g, s) && a < |s.loc| && BeenStarted(s, a) && Edge(g, a, b)
    ensures b < |s.loc| && s.loc[b].Done?
  {
    assert s.remaining[a] <= 0;
    OpenBounds(g[a], DoneSet(s.loc));
    assert b in DoneSet(s.loc);
  }

  ghost predicate StartsLate(g: Graph, s: State) {
    forall a: nat, b: nat :: Edge(g, a, b) && BeenStarted(s, a) ==> b < |s.loc| && s.loc[b].Done?
  }

  lemma {:induction false} StartsAreLate(g: Graph, jobs: nat, s: State)
    requires InRange(g) && Reachable(g, jobs, s)
    ensures StartsLate(g, s)
  {
    ReachableInv(g, jobs, s);
    forall a: nat, b: nat | Edge(g, a, b) && BeenStarted(s, a) ensures b < |s.loc| && s.loc[b].Done? {
      StartedAfter(g, s, a, b);
    }
  }

  lemma {:induction false} LateAlong(g: Graph, s: State, p: seq<nat>, k: nat)
    requires StartsLate(g, s) && Walk(g, p) && 0 < k < |p| && BeenStarted(s, p[0])
    ensures p[k] < |s.loc| && s.loc[p[k]].Done?
  {
    assert Edge(g, p[k - 1], p[k - 1 + 1]);
    if k > 1 { LateAlong(g, s, p, k - 1); }
    assert BeenStarted(s, p[k - 1]);
  }

  // Everything a started item waits for, directly or through others, has succeeded.
  lemma {:induction false} StartedAfterAll(g: Graph, jobs: nat, s: State, p: seq<nat>)
    requires InRange(g) && Reachable(g, jobs, s)
    requires Walk(g, p) && |p| >= 2 && BeenStarted(s, p[0])
    ensures p[|p| - 1] < |s.loc| && s.loc[p[|p| - 1]].Done?
  {
    StartsAreLate(g, jobs, s);
    LateAlong(g, s, p, |p| - 1);
  }

  // So nothing that depends on a failed item is ever started.
  lemma {:induction false} NoDependentOfFailure(g: Graph, jobs: nat, s: State, p: seq<nat>)
    requires InRange(g) && Reachable(g, jobs, s)
    requires Walk(g, p) && |p| >= 2 && p[|p| - 1] < |s.loc| && s.loc[p[|p| - 1]].Failed?
    ensures !BeenStarted(s, p[0])
  {
    if BeenStarted(s, p[0]) {
      StartedAfterAll(g, jobs, s, p);
    }
  }

  // ----- the order of starting -----

  // `i` is in front of `j` in the ready queue.
  ghost predicate Ahead(s: State, i: nat, j: nat) {
    exists p, q :: 0 <= p < q < |s.ready| && s.ready[p] == i && s.ready[q] == j
  }

  lemma {:induction false} StartedStays(g: Graph, s: State, w: nat, ok: bool, i: nat)
    requires Inv(g, s) && CanStep(g, s, w) && BeenStarted(s, i)
    ensures BeenStarted(Step(g, s, w, ok), i)
  {
    assert s.ready != [] ==> s.ready[0] in s.ready;
    if s.pcs[w].Running? {
      SucceedKeeps(g, s, w, i);
    }
  }

  lemma {:induction false} SucceedKeeps(g: Graph, s: State, w: nat, i: nat)
    requires Inv(g, s) && CanStep(g, s, w) && s.pcs[w].Running? && BeenStarted(s, i)
    ensures BeenStarted(StepSucceed(g, s, w), i)
  {
    SettleSuccess(g, s, w);
    assert s.remaining[i] <= 0;
  }

  // Only the front of the queue is taken, and only the end grows.
  lemma {:induction false} QueueMoves(g: Graph, s: State, w: nat, ok: bool)
    requires CanStep(g, s, w)
    ensures var s' := Step(g, s, w, ok);
            || s.ready <= s'.ready
            || (s.ready != [] && s'.ready == s.ready[1..] && BeenStarted(s', s.ready[0]))
  {
    assert s.ready != [] ==> s.ready[0] in s.ready;
  }

  lemma {:induction false} NextAhead(g: Graph, s: State, s': State, i: nat, j: nat)
    requires Inv(g, s) && Next(g, s, s') && (BeenStarted(s, i) || Ahead(s, i, j))
    ensures BeenStarted(s', i) || Ahead(s', i, j)
  {
    if w: nat, ok :| CanStep(g, s, w) && s' == Step(g, s, w, ok) {
      if BeenStarted(s, i) {
        StartedStays(g, s, w, ok, i);
      } else {
        var p, q :| 0 <= p < q < |s.ready| && s.ready[p] == i && s.ready[q] == j;
        QueueMoves(g, s, w, ok);
        Shifted(s.ready, s'.ready, p, q);
      }
    } else {
      assert s'.ready == s.ready && s'.loc == s.loc;
    }
  }

  lemma {:induction false} Shifted(a: seq<nat>, b: seq<nat>, p: nat, q: nat)
    requires p < q < |a| && (a <= b || b == a[1..])
    ensures a <= b ==> q < |b| && b[p] == a[p] && b[q] == a[q]
    ensures b == a[1..] && p > 0 ==> q - 1 < |b| && b[p - 1] == a[p] && b[q - 1] == a[q]
  {
  }

  // First ready, first started: an item is never started before one that stood ahead of it.
  lemma {:induction false} NoOvertaking(g: Graph, jobs: nat, run: seq<State>, k: nat, m: nat, i: nat, j: nat)
    requires InRange(g) && Run(g, jobs, run) && k <= m < |run| && Ahead(run[k], i, j)
    ensures BeenStarted(run[m], i) || Ahead(run[m], i, j)
    ensures BeenStarted(run[m], j) ==> BeenStarted(run[m], i)
    decreases m
  {
    if k < m {
      NoOvertaking(g, jobs, run, k, m - 1, i, j);
      RunAhead(g, jobs, run, m - 1, i, j);
    }
    RunWaiting(g, jobs, run, m, i, j);
  }

  lemma {:induction false} RunAhead(g: Graph, jobs: nat, run: seq<State>, k: nat, i: nat, j: nat)
    requires InRange(g) && Run(g, jobs, run) && k < |run| - 1 && (BeenStarted(run[k], i) || Ahead(run[k], i, j))
    ensures BeenStarted(run[k + 1], i) || Ahead(run[k + 1], i, j)
  {
    RunInv(g, jobs, run, k);
    NextAhead(g, run[k], run[k + 1], i, j);
  }

  lemma {:induction false} RunWaiting(g: Graph, jobs: nat, run: seq<State>, k: nat, i: nat, j: nat)
    requires InRange(g) && Run(g, jobs, run) && k < |run|
    ensures Ahead(run[k], i, j) ==> !BeenStarted(run[k], j)
  {
    RunInv(g, jobs, run, k);
    AheadIsWaiting(g, run[k], i, j);
  }

  lemma {:induction false} AheadIsWaiting(g: Graph, s: State, i: nat, j: nat)
    requires Inv(g, s)
    ensures Ahead(s, i, j) ==> !BeenStarted(s, j)
  {
    if p, q :| 0 <= p < q < |s.ready| && s.ready[p] == i && s.ready[q] == j {
      assert s.ready[q] in s.ready;
    }
  }

  // ----- bounds -----

  // Counters never go below zero, and never more than `jobs.max(1)` jobs run.
  lemma {:induction false} Bounded(g: Graph, jobs: nat, s: State)
    requires InRange(g) && Reachable(g, jobs, s)
    ensures forall i :: 0 <= i < |s.remaining| ==> s.remaining[i] >= 0
    ensures s.inFlight == |Busy(s.pcs)| <= Max(jobs, 1)
  {
    ReachableInv(g, jobs, s);
    SubsetBound(Busy(s.pcs), |s.pcs|);
  }

  // ----- liveness -----

  predicate AllReturned(s: State) {
    forall w :: 0 <= w < |s.pcs| ==> s.pcs[w].Returned?
  }

  // Waiting is safe although the notification comes after the lock is dropped.
  lemma {:induction false} WaitingIsSafe(g: Graph, jobs: nat, s: State, w: nat) returns (v: nat)
    requires InRange(g) && Reachable(g, jobs, s) && w < |s.pcs| && s.pcs[w].Waiting?
    ensures v < |s.pcs| && (Notifier(s.pcs[v]) || (s.ready == [] && s.pcs[v].Running?))
  {
    ReachableInv(g, jobs, s);
    if SomeNotifier(s.pcs) {
      v :| 0 <= v < |s.pcs| && Notifier(s.pcs[v]);
    } else {
      assert |Busy(s.pcs)| > 0;
      v :| v in Busy(s.pcs);
    }
  }

  lemma {:induction false} SomeWorkerCanStep(g: Graph, jobs: nat, s: State) returns (w: nat)
    requires InRange(g) && Reachable(g, jobs, s) && !AllReturned(s)
    ensures CanStep(g, s, w)
  {
    ReachableInv(g, jobs, s);
    w :| 0 <= w < |s.pcs| && !s.pcs[w].Returned?;
    if s.pcs[w].Waiting? {
      w := WaitingIsSafe(g, jobs, s, w);
    }
  }

  function Unfinished(loc: seq<Loc>): set<nat> {
    set i | 0 <= i < |loc| && !loc[i].Done? && !loc[i].Failed?
  }

  function Notifiers(pcs: seq<Pc>): set<nat> {
    set w | 0 <= w < |pcs| && Notifier(pcs[w])
  }

  function Weight(pc: Pc): nat {
    match pc
    case Acquire => 1
    case Calling(_, _) => 2
    case _ => 0
  }

  function WeightSum(pcs: seq<Pc>): nat {
    if pcs == [] then 0 else WeightSum(pcs[..|pcs| - 1]) + Weight(pcs[|pcs| - 1])
  }

  lemma {:induction false} WeightUpdate(pcs: seq<Pc>, w: nat, pc: Pc)
    requires w < |pcs|
    ensures WeightSum(pcs[w := pc]) + Weight(pcs[w]) == WeightSum(pcs) + Weight(pc)
  {
    var n := |pcs| - 1;
    if w < n {
      WeightUpdate(pcs[..n], w, pc);
      assert pcs[w := pc][..n] == pcs[..n][w := pc];
    } else {
      assert pcs[w := pc][..n] == pcs[..n];
    }
  }

  // Items left, then notifications owed, then acquisitions and calls to come.
  ghost predicate Lower(s': State, s: State) {
    || |Unfinished(s'.loc)| < |Unfinished(s.loc)|
    || (|Unfinished(s'.loc)| == |Unfinished(s.loc)| && |Notifiers(s'.pcs)| < |Notifiers(s.pcs)|)
    || (|Unfinished(s'.loc)| == |Unfinished(s.loc)| && |Notifiers(s'.pcs)| == |Notifiers(s.pcs)|
        && WeightSum(s'.pcs) < WeightSum(s.pcs))
  }

  lemma {:induction false} SettledLowers(g: Graph, s: State, w: nat, ok: bool)
    requires CanStep(g, s, w) && Placed(g, s) && Counted(g, s) && s.pcs[w].Running?
    ensures Lower(Step(g, s, w, ok), s)
  {
    assert s.loc[s.pcs[w].item] == Active(w);
    if ok {
      SettleSuccess(g, s, w);
      MarkKeeps(s.loc, Freed(s.remaining, DependentIds(g, s.pcs[w].item)), s.pcs[w].item);
    } else {
      FinishOne(s.loc, s.loc[s.pcs[w].item := Failed], s.pcs[w].item);
    }
  }

  lemma {:induction false} FinishOne(loc: seq<Loc>, loc': seq<Loc>, i: nat)
    requires |loc'| == |loc| && i < |loc| && i in Unfinished(loc) && (loc'[i].Done? || loc'[i].Failed?)
    requires forall j :: 0 <= j < |loc| && j != i ==>
               ((loc'[j].Done? || loc'[j].Failed?) <==> (loc[j].Done? || loc[j].Failed?))
    ensures |Unfinished(loc')| < |Unfinished(loc)|
  {
    assert Unfinished(loc') == Unfinished(loc) - {i};
  }

  lemma {:induction false} MarkKeeps(loc: seq<Loc>, freed: seq<nat>, i: nat)
    requires i < |loc| && i in Unfinished(loc)
    requires forall j: nat :: j < |loc| && j in freed ==> loc[j] == Blocked
    ensures |Unfinished(MarkReady(loc, freed)[i := Done])| < |Unfinished(loc)|
  {
    FinishOne(loc, MarkReady(loc, freed)[i := Done], i);
  }

  lemma {:induction false} QuietLowers(s: State, s': State, w: nat)
    requires w < |s.pcs| == |s'.pcs| && s'.pcs == s.pcs[w := s'.pcs[w]] && !Notifier(s.pcs[w]) && !Notifier(s'.pcs[w])
    requires Weight(s'.pcs[w]) < Weight(s.pcs[w]) && Unfinished(s'.loc) == Unfinished(s.loc)
    ensures Lower(s', s)
  {
    assert Notifiers(s'.pcs) == Notifiers(s.pcs);
    WeightUpdate(s.pcs, w, s'.pcs[w]);
  }

  lemma {:induction false} AcquireLowers(g: Graph, s: State, w: nat)
    requires CanStep(g, s, w) && Placed(g, s) && s.pcs[w].Acquire?
    ensures Lower(StepAcquire(g, s, w), s)
  {
    var s' := StepAcquire(g, s, w);
    if s.ready != [] { assert s.ready[0] in s.ready; }
    assert Unfinished(s'.loc) == Unfinished(s.loc);
    QuietLowers(s, s', w);
  }

  // Every step that is not a spurious wake-up is progress.
  lemma {:induction false} StepLowers(g: Graph, s: State, w: nat, ok: bool)
    requires CanStep(g, s, w) && Placed(g, s) && Counted(g, s)
    ensures Lower(Step(g, s, w, ok), s)
  {
    var s' := Step(g, s, w, ok);
    match s.pcs[w]
    case Running(_) => SettledLowers(g, s, w, ok);
    case Acquire => AcquireLowers(g, s, w);
    case Calling(_, _) => QuietLowers(s, s', w);
    case Notifying(_, _) => NotifyLowers(s, s', w);
    case NotifyingLeave => NotifyLowers(s, s', w);
  }

  lemma {:induction false} NotifyLowers(s: State, s': State, w: nat)
    requires w < |s.pcs| == |s'.pcs| && Notifier(s.pcs[w]) && !Notifier(s'.pcs[w]) && s'.loc == s.loc
    requires s'.pcs == Waken(s.pcs)[w := s'.pcs[w]]
    ensures Lower(s', s)
  {
    assert w in Notifiers(s.pcs);
    assert Notifiers(s'.pcs) == Notifiers(s.pcs) - {w};
  }

  // ----- the result -----

  lemma {:induction false} Settled(g: Graph, s: State, i: nat)
    requires Inv(g, s) && AllReturned(s) && s.failure.None? && i < |g|
    ensures s.loc[i].Done? || (s.loc[i].Blocked? && s.remaining[i] > 0)
  {
    assert s.pcs[0].Returned?;
    forall w | 0 <= w < |s.pcs| ensures s.loc[i] != Active(w) {
      assert s.loc[i] == Active(w) <==> s.pcs[w] == Running(i);
    }
    AllIdsDone(g, s);
  }

  lemma {:induction false} AllIdsDone(g: Graph, s: State)
    requires Inv(g, s)
    ensures s.done <= |g|
    ensures s.done == |g| <==> forall i :: 0 <= i < |g| ==> s.loc[i].Done?
  {
    IdsFill(DoneSet(s.loc), |g|);
    assert forall i: nat :: i < |g| ==> (i in DoneSet(s.loc) <==> s.loc[i].Done?);
  }

  lemma {:induction false} CompletionRanks(g: Graph, s: State)
    requires Ordered(g, s) && forall i :: 0 <= i < |g| ==> s.loc[i].Done?
    ensures Acyclic(g)
  {
    forall i: nat | i < |g| ensures i in s.finished {}
    OrderRanks(g, s.finished);
  }

  // Without a failure, everything is done exactly when the dependencies are acyclic.
  lemma {:induction false} JoinExact(g: Graph, jobs: nat, s: State)
    requires InRange(g) && Reachable(g, jobs, s) && AllReturned(s) && s.failure.None?
    ensures s.done == |g| <==> Acyclic(g)
  {
    ReachableInv(g, jobs, s);
    AllIdsDone(g, s);
    if s.done == |g| {
      CompletionRanks(g, s);
    } else {
      var u := set i | 0 <= i < |g| && !s.loc[i].Done?;
      forall a | a in u ensures a < |g| && WaitsInside(g, u, a) {
        Settled(g, s, a);
        OpenBounds(g[a], DoneSet(s.loc));
        var b :| b in g[a] && b !in DoneSet(s.loc);
        var k :| 0 <= k < |g[a]| && g[a][k] == b;
        assert b in u && Edge(g, a, b);
      }
      var a :| 0 <= a < |g| && !s.loc[a].Done?;
      var c := StuckHasCycle(g, u, a);
    }
  }

  ghost predicate HasCall(calls: seq<(nat, nat)>, c: nat) {
    exists j :: 0 <= j < |calls| && calls[j].1 == c
  }

  // `calls` hands out each of the counts 1..n exactly once, each with the item that finished at that count.
  ghost predicate HandsOutOnce(calls: seq<(nat, nat)>, finished: seq<nat>) {
    && (forall j :: 0 <= j < |calls| ==> 0 < calls[j].1 <= |finished| && calls[j].0 == finished[calls[j].1 - 1])
    && (forall i, j :: 0 <= i < j < |calls| ==> calls[i].1 != calls[j].1)
    && (forall c {:trigger HasCall(calls, c)} :: 1 <= c <= |finished| ==> HasCall(calls, c))
  }

  lemma {:induction false} CallsOnce(s: State)
    requires Handed(s) && forall w :: 0 <= w < |s.pcs| ==> s.pcs[w].Returned?
    ensures HandsOutOnce(s.calls, s.finished)
  {
    forall i, j | 0 <= i < j < |s.calls| ensures s.calls[i].1 != s.calls[j].1 {
      var k := s.calls[i].1 - 1;
      assert s.tickets[k] == Called(i);
      assert s.tickets[k] == Called(j) <==> s.calls[j].1 == k + 1;
    }
    forall c {:trigger HasCall(s.calls, c)} | 1 <= c <= |s.finished| ensures HasCall(s.calls, c) {
      CallOf(s, c);
    }
  }

  lemma {:induction false} CallOf(s: State, c: nat)
    requires Handed(s) && 1 <= c <= |s.finished| && forall w :: 0 <= w < |s.pcs| ==> s.pcs[w].Returned?
    ensures HasCall(s.calls, c)
  {
    var k := c - 1;
    forall w | 0 <= w < |s.pcs| ensures s.tickets[k] != With(w) {
      assert s.tickets[k] == With(w) <==> Reports(s.pcs[w], k);
    }
    var j := s.tickets[k].j;
    assert s.calls[j].1 == k + 1;
  }

  lemma {:induction false} CallsExact(g: Graph, jobs: nat, s: State)
    requires InRange(g) && Reachable(g, jobs, s) && AllReturned(s)
    ensures HandsOutOnce(s.calls, s.finished) && NoDup(s.finished) && |s.finished| == s.done
    ensures forall i: nat :: i in s.finished <==> i < |s.loc| && s.loc[i].Done?
  {
    ReachableInv(g, jobs, s);
    CallsOnce(s);
  }
}
