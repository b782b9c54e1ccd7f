/** What the outcomes of the jobs decide: which items run, what is called back, and what `run` returns. */
module PoolOutcomes {
  import opened Digraph
  import opened Counters
  import opened Pool
  import opened PoolInvariant
  import opened PoolJoin

  // Whether an item's job succeeds. An item is started at most once, so a run has one outcome for each.
  type Jobs = nat -> bool

  function Succeeds(v: Jobs, pc: Pc): bool {
    pc.Running? && v(pc.item)
  }

  ghost predicate NextUnder(g: Graph, v: Jobs, s: State, s': State) {
    || (exists w: nat :: CanStep(g, s, w) && s' == Step(g, s, w, Succeeds(v, s.pcs[w])))
    || (exists w: nat :: CanWake(s, w) && s' == Wake(s, w))
  }

  ghost predicate RunUnder(g: Graph, jobs: nat, v: Jobs, run: seq<State>) {
    && |run| >= 1 && run[0] == Init(g, jobs)
    && forall k :: 0 <= k < |run| - 1 ==> NextUnder(g, v, run[k], run[k + 1])
  }

  ghost predicate ReachableUnder(g: Graph, jobs: nat, v: Jobs, s: State) {
    exists run :: RunUnder(g, jobs, v, run) && run[|run| - 1] == s
  }

  lemma {:induction false} UnderIsReachable(g: Graph, jobs: nat, v: Jobs, s: State)
    requires ReachableUnder(g, jobs, v, s)
    ensures Reachable(g, jobs, s)
  {
    var run :| RunUnder(g, jobs, v, run) && run[|run| - 1] == s;
    forall k | 0 <= k < |run| - 1 ensures Next(g, run[k], run[k + 1]) {
      assert NextUnder(g, v, run[k], run[k + 1]);
    }
    assert Run(g, jobs, run);
  }

  lemma {:induction false} StartsUnder(g: Graph, jobs: nat, v: Jobs)
    ensures ReachableUnder(g, jobs, v, Init(g, jobs))
  {
    var run := [Init(g, jobs)];
    assert RunUnder(g, jobs, v, run) && run[|run| - 1] == Init(g, jobs);
  }

  lemma {:induction false} UnderNext(g: Graph, jobs: nat, v: Jobs, s: State, s': State)
    requires ReachableUnder(g, jobs, v, s) && NextUnder(g, v, s, s')
    ensures ReachableUnder(g, jobs, v, s')
  {
    var run :| RunUnder(g, jobs, v, run) && run[|run| - 1] == s;
    var r := run + [s'];
    forall k | 0 <= k < |r| - 1 ensures NextUnder(g, v, r[k], r[k + 1]) {
      if k < |run| - 1 { assert NextUnder(g, v, run[k], run[k + 1]); }
    }
    assert RunUnder(g, jobs, v, r) && r[|r| - 1] == s';
  }

  // ----- done is succeeded, failed is not -----

  predicate LocJudged(v: Jobs, i: nat, loc: Loc) {
    (loc.Done? ==> v(i)) && (loc.Failed? ==> !v(i))
  }

  ghost predicate Judged(v: Jobs, s: State) {
    forall i: nat {:trigger LocJudged(v, i, s.loc[i])} :: i < |s.loc| ==> LocJudged(v, i, s.loc[i])
  }

  lemma {:induction false} StepJudged(g: Graph, v: Jobs, s: State, w: nat)
    requires CanStep(g, s, w) && Judged(v, s)
    ensures Judged(v, Step(g, s, w, Succeeds(v, s.pcs[w])))
  {
    var s' := Step(g, s, w, Succeeds(v, s.pcs[w]));
    forall i: nat {:trigger LocJudged(v, i, s'.loc[i])} | i < |s'.loc| ensures LocJudged(v, i, s'.loc[i]) {
      assert |s'.loc| == |s.loc| && LocJudged(v, i, s.loc[i]);
    }
  }

  lemma {:induction false} NextJudged(g: Graph, v: Jobs, s: State, s': State)
    requires NextUnder(g, v, s, s') && Judged(v, s)
    ensures Judged(v, s')
  {
    if w: nat :| CanStep(g, s, w) && s' == Step(g, s, w, Succeeds(v, s.pcs[w])) {
      StepJudged(g, v, s, w);
    } else {
      forall i: nat {:trigger LocJudged(v, i, s'.loc[i])} | i < |s'.loc| ensures LocJudged(v, i, s'.loc[i]) {
        assert LocJudged(v, i, s.loc[i]);
      }
    }
  }

  lemma {:induction false} RunJudged(g: Graph, jobs: nat, v: Jobs, run: seq<State>, k: nat)
    requires RunUnder(g, jobs, v, run) && k < |run|
    ensures Judged(v, run[k])
  {
    if k > 0 {
      RunJudged(g, jobs, v, run, k - 1);
      assert NextUnder(g, v, run[k - 1], run[k - 1 + 1]);
      NextJudged(g, v, run[k - 1], run[k]);
    }
  }

  // A finished item's job succeeded, a failed item's did not.
  lemma {:induction false} OutcomesDecide(g: Graph, jobs: nat, v: Jobs, s: State, i: nat)
    requires ReachableUnder(g, jobs, v, s) && i < |s.loc|
    ensures s.loc[i].Done? ==> v(i)
    ensures s.loc[i].Failed? ==> !v(i)
  {
    var run :| RunUnder(g, jobs, v, run) && run[|run| - 1] == s;
    RunJudged(g, jobs, v, run, |run| - 1);
    assert LocJudged(v, i, s.loc[i]);
  }

  // Once a failure is recorded no item is started any more: the flag is read under the lock.
  lemma {:induction false} FailureStops(g: Graph, s: State, s': State, i: nat)
    requires Inv(g, s) && Next(g, s, s') && s.cancelled && BeenStarted(s', i)
    ensures s'.cancelled && BeenStarted(s, i)
  {
    if w: nat, ok :| CanStep(g, s, w) && s' == Step(g, s, w, ok) {
      if s.pcs[w].Running? {
        assert s.loc[s.pcs[w].item] == Active(w);
        if ok { SettleSuccess(g, s, w); }
      }
    }
  }

  // ----- who can run -----

  lemma {:induction false} FinishedDrops(g: Graph, s: State, p: seq<nat>, k: nat)
    requires Inv(g, s) && Walk(g, p) && k < |p| && p[0] in s.finished
    ensures p[k] in s.finished && IndexOf(s.finished, p[k]) + k <= IndexOf(s.finished, p[0])
  {
    if k > 0 {
      FinishedDrops(g, s, p, k - 1);
      assert Edge(g, p[k - 1], p[k - 1 + 1]);
      var j := IndexOf(s.finished, p[k - 1]);
      assert p[k] in s.finished[..j];
      var m: nat :| m < j && s.finished[m] == p[k];
      assert IndexOf(s.finished, p[k]) == m;
    }
  }

  lemma {:induction false} FinishedOffCycles(g: Graph, s: State, i: nat)
    requires Inv(g, s) && i in s.finished
    ensures forall c :: ClosedWalk(g, c) ==> c[0] != i
  {
    forall c | ClosedWalk(g, c) ensures c[0] != i {
      if c[0] == i { FinishedDrops(g, s, c, |c| - 1); }
    }
  }

  // No item that was ever started reaches a cycle.
  lemma {:induction false} StartedIsSound(g: Graph, jobs: nat, s: State, i: nat)
    requires InRange(g) && Reachable(g, jobs, s) && BeenStarted(s, i)
    ensures !ReachesCycle(g, i)
  {
    ReachableInv(g, jobs, s);
    StartsAreLate(g, jobs, s);
    forall c: seq<nat> | ClosedWalk(g, c) ensures !Reaches(g, i, c[0]) {
      if Reaches(g, i, c[0]) {
        var p :| Walk(g, p) && p[0] == i && p[|p| - 1] == c[0];
        CycleIsFinished(g, s, i, p, c);
        FinishedOffCycles(g, s, c[0]);
      }
    }
  }

  lemma {:induction false} CycleIsFinished(g: Graph, s: State, i: nat, p: seq<nat>, c: seq<nat>)
    requires Inv(g, s) && StartsLate(g, s) && BeenStarted(s, i) && ClosedWalk(g, c)
    requires Walk(g, p) && p[0] == i && p[|p| - 1] == c[0]
    ensures c[0] in s.finished
  {
    if |p| > 1 { LateAlong(g, s, p, |p| - 1); } else { LateAlong(g, s, c, |c| - 1); }
  }

  // After a clean join an item that is not done waits, directly or through others, for a cycle.
  lemma {:induction false} LeftReachesCycle(g: Graph, s: State, i: nat)
    requires InRange(g) && Inv(g, s) && AllReturned(s) && s.failure.None? && i < |g| && !s.loc[i].Done?
    ensures ReachesCycle(g, i)
  {
    var u := set j: nat | j < |g| && !s.loc[j].Done? && Reaches(g, i, j);
    ReachesItself(g, i);
    forall a | a in u ensures a < |g| && WaitsInside(g, u, a) {
      var b := LeftWaits(g, s, a);
      var p :| Walk(g, p) && p[0] == i && p[|p| - 1] == a;
      WalkExtend(g, p, b);
      var q := p + [b];
      assert q[0] == i && q[|q| - 1] == b;
      assert b in u && Edge(g, a, b);
    }
    var c := StuckHasCycle(g, u, i);
  }

  lemma {:induction false} LeftWaits(g: Graph, s: State, a: nat) returns (b: nat)
    requires InRange(g) && Inv(g, s) && AllReturned(s) && s.failure.None? && a < |g| && !s.loc[a].Done?
    ensures Edge(g, a, b) && b < |g| && !s.loc[b].Done?
  {
    Settled(g, s, a);
    OpenBounds(g[a], DoneSet(s.loc));
    b :| b in g[a] && b !in DoneSet(s.loc);
    var k :| 0 <= k < |g[a]| && g[a][k] == b;
  }

  // ----- the result -----

  datatype Result = Ok(done: nat) | Err(item: nat)

  // Some item that can run has a job that fails.
  ghost predicate SomeFails(g: Graph, v: Jobs) {
    exists i: nat :: i < |g| && !ReachesCycle(g, i) && !v(i)
  }

  // What the pool comes to is a matter of the dependencies and the outcomes: a failure exactly if the job
  // of an item that reaches no cycle fails, and otherwise exactly the items that reach no cycle are done.
  lemma {:induction false} JoinDecided(g: Graph, jobs: nat, v: Jobs, s: State)
    requires InRange(g) && ReachableUnder(g, jobs, v, s) && AllReturned(s)
    ensures |s.loc| == |g| && (s.failure.Some? <==> SomeFails(g, v))
    ensures s.failure.None? ==> forall i: nat :: i < |g| ==> (i in s.finished <==> !ReachesCycle(g, i))
    ensures s.failure.None? ==> forall i: nat :: i in s.finished ==> v(i)
  {
    UnderIsReachable(g, jobs, v, s);
    ReachableInv(g, jobs, s);
    if s.failure.Some? {
      var i := s.failure.value;
      StartedIsSound(g, jobs, s, i);
      OutcomesDecide(g, jobs, v, s, i);
    } else {
      forall i: nat | i < |g|
        ensures (i in s.finished <==> !ReachesCycle(g, i)) && (i in s.finished ==> v(i))
      {
        OutcomesDecide(g, jobs, v, s, i);
        if s.loc[i].Done? { StartedIsSound(g, jobs, s, i); } else { LeftReachesCycle(g, s, i); }
      }
    }
  }

  // The failed item's job failed, and those of everything it depends on, at any distance, succeeded.
  lemma {:induction false} FailedAlone(g: Graph, jobs: nat, v: Jobs, s: State, p: seq<nat>)
    requires InRange(g) && ReachableUnder(g, jobs, v, s) && s.failure.Some?
    requires Walk(g, p) && |p| >= 2 && p[0] == s.failure.value
    ensures p[0] < |g| && !v(p[0]) && v(p[|p| - 1])
  {
    UnderIsReachable(g, jobs, v, s);
    ReachableInv(g, jobs, s);
    OutcomesDecide(g, jobs, v, s, p[0]);
    StartedAfterAll(g, jobs, s, p);
    OutcomesDecide(g, jobs, v, s, p[|p| - 1]);
  }

  // The pool runs until every worker has returned.
  method Join(g: Graph, jobs: nat, v: Jobs, spurious: nat) returns (s: State)
    requires InRange(g)
    ensures ReachableUnder(g, jobs, v, s) && AllReturned(s)
  {
    s := Init(g, jobs);
    StartsUnder(g, jobs, v);
    var budget := spurious;
    UnderInv(g, jobs, v, s);
    while !AllReturned(s)
      invariant ReachableUnder(g, jobs, v, s) && Reachable(g, jobs, s) && Inv(g, s)
      decreases budget, |Unfinished(s.loc)|, |Notifiers(s.pcs)|, WeightSum(s.pcs)
    {
      var wake := *;
      if wake && budget > 0 && exists w :: 0 <= w < |s.pcs| && CanWake(s, w) {
        var w :| 0 <= w < |s.pcs| && CanWake(s, w);
        UnderNext(g, jobs, v, s, Wake(s, w));
        s, budget := Wake(s, w), budget - 1;
      } else {
        ghost var u := SomeWorkerCanStep(g, jobs, s);
        var w :| 0 <= w < |s.pcs| && CanStep(g, s, w);
        var ok := Succeeds(v, s.pcs[w]);
        StepLowers(g, s, w, ok);
        UnderNext(g, jobs, v, s, Step(g, s, w, ok));
        s := Step(g, s, w, ok);
      }
      UnderInv(g, jobs, v, s);
    }
  }

  lemma {:induction false} UnderInv(g: Graph, jobs: nat, v: Jobs, s: State)
    requires InRange(g) && ReachableUnder(g, jobs, v, s)
    ensures Reachable(g, jobs, s) && Inv(g, s)
  {
    UnderIsReachable(g, jobs, v, s);
    ReachableInv(g, jobs, s);
  }

  /** `run`, over every schedule, every outcome of every job and up to `spurious` unasked-for wake-ups. */
  method RunPool(g: Graph, jobs: nat, v: Jobs, spurious: nat) returns (r: Result, ghost end: State)
    requires InRange(g)
    ensures ReachableUnder(g, jobs, v, end) && Reachable(g, jobs, end) && AllReturned(end) && |end.loc| == |g|
    ensures r.Err? <==> SomeFails(g, v)
    ensures r.Err? ==> r.item < |g| && end.loc[r.item].Failed? && !v(r.item)
    ensures r.Ok? ==> r.done == end.done && forall i :: 0 <= i < |g| ==> !end.loc[i].Failed?
    ensures r.Ok? ==> forall i: nat :: i < |g| ==> (i in end.finished <==> !ReachesCycle(g, i))
    ensures r == Ok(|g|) <==> Acyclic(g) && forall i :: 0 <= i < |g| ==> !end.loc[i].Failed?
    ensures r == Ok(|g|) <==> Acyclic(g) && forall i: nat :: i < |g| ==> v(i)
    ensures HandsOutOnce(end.calls, end.finished) && NoDup(end.finished) && |end.finished| == end.done
    ensures forall i :: i in end.finished ==> i < |g| && v(i)
  {
    var s := Join(g, jobs, v, spurious);
    end := s;
    Results(g, jobs, v, s);
    if s.failure.Some? {
      return Err(s.failure.value), end;
    }
    return Ok(s.done), end;
  }

  lemma {:induction false} Results(g: Graph, jobs: nat, v: Jobs, s: State)
    requires InRange(g) && ReachableUnder(g, jobs, v, s) && AllReturned(s)
    ensures Reachable(g, jobs, s) && |s.loc| == |g|
    ensures HandsOutOnce(s.calls, s.finished) && NoDup(s.finished) && |s.finished| == s.done
    ensures forall i :: i in s.finished ==> i < |g| && v(i)
    ensures s.failure.Some? <==> SomeFails(g, v)
    ensures s.failure.Some? ==> s.failure.value < |g| && s.loc[s.failure.value].Failed? && !v(s.failure.value)
    ensures s.failure.None? ==> forall i :: 0 <= i < |g| ==> !s.loc[i].Failed?
    ensures s.failure.None? ==> forall i: nat :: i < |g| ==> (i in s.finished <==> !ReachesCycle(g, i))
    ensures s.failure.None? ==> (s.done == |g| <==> Acyclic(g))
    ensures s.failure.None? && Acyclic(g) ==> forall i: nat :: i < |g| ==> v(i)
  {
    UnderInv(g, jobs, v, s);
    CallsExact(g, jobs, s);
    JoinDecided(g, jobs, v, s);
    forall i | i in s.finished ensures i < |g| && v(i) {
      OutcomesDecide(g, jobs, v, s, i);
    }
    if s.failure.Some? {
      OutcomesDecide(g, jobs, v, s, s.failure.value);
    } else {
      JoinExact(g, jobs, s);
      if Acyclic(g) {
        forall i: nat | i < |g| ensures v(i) {
          assert !ReachesCycle(g, i);
        }
      }
    }
  }
}
