/** What `check_parallel` returns once every worker has returned, over every schedule and every verdict. */
module SchedulerJoin {
  import opened Options
  import opened Digraph
  import opened Tasks
  import opened Scheduler
  import opened SchedulerInvariant
  import opened SchedulerTheorems
  import opened SchedulerVerdicts

  datatype Outcome =
    | Checked(count: nat)                 // all green
    | Failed(task: nat)                   // the first recorded failure
    | DependencyCycle(blame: Option<Name>)

  function TotalCount(ts: seq<Task>, n: nat): nat
    requires n <= |ts|
  {
    if n == 0 then 0 else TotalCount(ts, n - 1) + CheckedCount(ts[n - 1].kind)
  }

  lemma {:induction false} TallyTotal(ts: seq<Task>, s: State, n: nat)
    requires n <= |ts| == |s.loc|
    requires forall i :: 0 <= i < |ts| ==> Tallied(s, i)
    ensures TallySum(ts, s, n) == TotalCount(ts, n)
  {
    if n > 0 { TallyTotal(ts, s, n - 1); }
  }

  // With the pool joined and no failure recorded, a task is either done or still blocked.
  lemma {:induction false} DoneOrBlocked(ts: seq<Task>, s: State, i: nat)
    requires Inv(ts, s) && AllReturned(s) && s.failure.None? && i < |ts|
    ensures s.loc[i].Done? || (s.loc[i].Blocked? && s.pending[i] > 0)
  {
    assert s.pcs[0].Returned?;
    forall w | 0 <= w < |s.pcs|
      ensures s.loc[i] != Held(w) && s.loc[i] != Active(w)
    {
      assert s.loc[i] == Held(w) <==> InNewly(s.pcs[w], i);
      assert s.loc[i] == Active(w) <==> HasTask(s.pcs[w]) && s.pcs[w].task == i;
    }
  }

  lemma {:induction false} AllDone(ts: seq<Task>, s: State)
    requires Inv(ts, s) && s.done == |ts|
    ensures forall i :: 0 <= i < |ts| ==> s.loc[i].Done?
  {
    IdsFill(DoneSet(s.loc), |ts|);
    forall i: nat | i < |ts| ensures s.loc[i].Done? {
      assert i in DoneSet(s.loc);
    }
  }

  // The order in which a complete run popped its tasks numbers them so that dependencies come first.
  lemma {:induction false} CompleteRunRanks(ts: seq<Task>, s: State)
    requires Inv(ts, s) && forall i :: 0 <= i < |ts| ==> i in s.order
    ensures Acyclic(DepsOf(ts)) && InRange(DepsOf(ts))
  {
    forall i: nat | i < |ts| ensures i in s.order {}
    forall k, d | 0 <= k < |s.order| && s.order[k] < |ts| && d in DepsOf(ts)[s.order[k]] ensures d in s.order[..k] {}
    OrderRanks(DepsOf(ts), s.order);
  }

  // A dependency that is done has been counted off.
  lemma {:induction false} DoneIsServed(ts: seq<Task>, s: State, i: nat, m: nat)
    requires Shape(ts, s) && i < |ts| && m < |ts[i].deps| && ts[i].deps[m] < |ts| && s.loc[ts[i].deps[m]].Done?
    ensures Served(DepsOf(ts), Cursors(ts, s), i, m)
  {
    var g, d := DepsOf(ts), ts[i].deps[m];
    DependentsExact(g, d);
    assert IsOcc(g, d, (i, m));
    assert Dependents(g, d)[..|Dependents(g, d)|] == Dependents(g, d);
  }

  lemma {:induction false} BlockedWaits(ts: seq<Task>, s: State, i: nat) returns (d: nat)
    requires Inv(ts, s) && AllReturned(s) && s.failure.None? && i < |ts| && s.loc[i].Blocked?
    ensures Edge(DepsOf(ts), i, d) && (d < |ts| ==> s.loc[d].Blocked?)
  {
    var u := Unserved(DepsOf(ts), Cursors(ts, s), i);
    assert u != {};
    var m :| m in u;
    d := ts[i].deps[m];
    if d < |ts| {
      DoneOrBlocked(ts, s, d);
      if s.loc[d].Done? { DoneIsServed(ts, s, i, m); }
    }
  }

  // A task left blocked waits, directly or through others, for a cycle or for an id that names no task.
  lemma {:induction false} BlockedReaches(ts: seq<Task>, s: State, i: nat)
    requires Inv(ts, s) && AllReturned(s) && s.failure.None? && i < |ts| && s.loc[i].Blocked?
    ensures Doomed(DepsOf(ts), i)
  {
    var g := DepsOf(ts);
    if !ReachesDangling(g, i) {
      var u := set j: nat | j < |ts| && s.loc[j].Blocked? && Reaches(g, i, j);
      ReachesItself(g, i);
      forall a | a in u ensures a < |g| && WaitsInside(g, u, a) {
        var d := BlockedWaits(ts, s, a);
        var p :| Walk(g, p) && p[0] == i && p[|p| - 1] == a;
        WalkExtend(g, p, d);
        var q := p + [d];
        assert q[0] == i && q[|q| - 1] == d;
        assert Reaches(g, i, d);
        assert !Dangling(g, a);
        assert d in u && Edge(g, a, d);
      }
      var c := StuckHasCycle(g, u, i);
    }
  }

  // Whatever a popped task waits for, at any distance, was popped before it.
  lemma {:induction false} OrderDropsAlong(ts: seq<Task>, s: State, p: seq<nat>, k: nat)
    requires Inv(ts, s) && Walk(DepsOf(ts), p) && k < |p| && p[0] in s.order
    ensures p[k] in s.order && IndexOf(s.order, p[k]) + k <= IndexOf(s.order, p[0])
  {
    if k > 0 {
      OrderDropsAlong(ts, s, p, k - 1);
      assert Edge(DepsOf(ts), p[k - 1], p[k - 1 + 1]);
      var j := IndexOf(s.order, p[k - 1]);
      assert p[k] in s.order[..j];
      var m: nat :| m < j && s.order[m] == p[k];
      assert IndexOf(s.order, p[k]) == m;
    }
  }

  lemma {:induction false} PoppedIsSound(ts: seq<Task>, s: State, i: nat)
    requires Inv(ts, s) && i in s.order
    ensures i < |ts| && !Dangling(DepsOf(ts), i)
    ensures forall c :: ClosedWalk(DepsOf(ts), c) ==> c[0] != i
  {
    forall d | d in DepsOf(ts)[i] ensures d < |ts| {
      assert d in s.order[..IndexOf(s.order, i)];
      assert d in s.order;
    }
    forall c | ClosedWalk(DepsOf(ts), c) ensures c[0] != i {
      if c[0] == i {
        OrderDropsAlong(ts, s, c, |c| - 1);
      }
    }
  }

  // In every reachable state, whatever its workers are doing, no task that was popped is doomed.
  lemma {:induction false} PoppedIsNotDoomed(ts: seq<Task>, s: State, i: nat)
    requires Inv(ts, s) && i in s.order
    ensures !Doomed(DepsOf(ts), i)
  {
    forall j: nat | Reaches(DepsOf(ts), i, j)
      ensures !Dangling(DepsOf(ts), j)
      ensures forall c :: ClosedWalk(DepsOf(ts), c) ==> c[0] != j
    {
      var p :| Walk(DepsOf(ts), p) && p[0] == i && p[|p| - 1] == j;
      OrderDropsAlong(ts, s, p, |p| - 1);
      PoppedIsSound(ts, s, j);
    }
  }

  // What the counters say after a clean join is read off the graph, whatever the schedule was.
  lemma {:induction false} PendingIsDoomed(ts: seq<Task>, jobs: nat, s: State, i: nat)
    requires Reachable(ts, jobs, s) && AllReturned(s) && s.failure.None? && i < |ts|
    ensures |s.pending| == |ts|
    ensures s.pending[i] > 0 <==> Doomed(DepsOf(ts), i)
  {
    ReachableInv(ts, jobs, s);
    DoneOrBlocked(ts, s, i);
    if s.loc[i].Blocked? {
      BlockedReaches(ts, s, i);
    } else {
      PoppedIsNotDoomed(ts, s, i);
    }
  }

  // Exact cycle detection: without a failure, every task is done exactly when the graph is acyclic and closed.
  lemma {:induction false} JoinExact(ts: seq<Task>, jobs: nat, s: State)
    requires Reachable(ts, jobs, s) && AllReturned(s) && s.failure.None?
    ensures |s.pending| == |s.loc| == |ts|
    ensures s.done == |ts| <==> Acyclic(DepsOf(ts)) && InRange(DepsOf(ts))
    ensures s.done != |ts| ==> exists i :: 0 <= i < |ts| && s.pending[i] > 0
    ensures s.done == |ts| ==> s.checked == TotalCount(ts, |ts|)
    ensures s.done == |ts| ==> forall i :: 0 <= i < |ts| ==> i in s.order && Admitted(ts, s, i)
  {
    ReachableInv(ts, jobs, s);
    JoinExactly(ts, s);
  }

  lemma {:induction false} JoinExactly(ts: seq<Task>, s: State)
    requires Inv(ts, s) && AllReturned(s) && s.failure.None?
    ensures s.done == |ts| <==> Acyclic(DepsOf(ts)) && InRange(DepsOf(ts))
    ensures s.done != |ts| ==> exists i :: 0 <= i < |ts| && s.pending[i] > 0
    ensures s.done == |ts| ==> s.checked == TotalCount(ts, |ts|)
    ensures s.done == |ts| ==> forall i :: 0 <= i < |ts| ==> i in s.order && Admitted(ts, s, i)
  {
    var g := DepsOf(ts);
    if s.done == |ts| {
      AllDone(ts, s);
      CompleteRunRanks(ts, s);
      TallyTotal(ts, s, |ts|);
      assert forall i :: 0 <= i < |ts| ==> Passed(s, i);
    } else {
      var i := SomeNotDone(ts, s);
      DoneOrBlocked(ts, s, i);
      BlockedReaches(ts, s, i);
      if j: nat :| Reaches(g, i, j) && Dangling(g, j) {
        var d :| d in g[j] && d >= |g|;
        assert !InRange(g);
      }
    }
  }

  lemma {:induction false} SomeNotDone(ts: seq<Task>, s: State) returns (i: nat)
    requires Inv(ts, s) && s.done != |ts|
    ensures i < |ts| && !s.loc[i].Done?
  {
    if forall i :: 0 <= i < |ts| ==> s.loc[i].Done? {
      assert forall i: nat :: i in DoneSet(s.loc) <==> i < |ts|;
      AllIds(DoneSet(s.loc), |ts|);
      assert false;
    }
    i :| 0 <= i < |ts| && !s.loc[i].Done?;
  }

  // The recorded failure is that of a task that ran and that the kernel rejected.
  lemma {:induction false} FailureIsReal(ts: seq<Task>, jobs: nat, s: State)
    requires Reachable(ts, jobs, s) && s.failure.Some?
    ensures s.failure.value < |ts| == |s.loc| && s.failure.value in s.order && !s.loc[s.failure.value].Done?
    ensures AllReturned(s) ==> s.cancelled && s.loc[s.failure.value].Dropped?
  {
    ReachableInv(ts, jobs, s);
    var t := s.failure.value;
    if AllReturned(s) {
      assert forall w :: 0 <= w < |s.pcs| ==> s.pcs[w].Returned?;
    }
  }

  // ----- the blame -----

  // The first task with a name that no schedule can start.
  ghost predicate Blamed(ts: seq<Task>, i: nat) {
    && i < |ts| && ts[i].admits != [] && Doomed(DepsOf(ts), i)
    && forall j: nat :: j < i && ts[j].admits != [] ==> !Doomed(DepsOf(ts), j)
  }

  ghost predicate NobodyToBlame(ts: seq<Task>) {
    forall i: nat :: i < |ts| && ts[i].admits != [] ==> !Doomed(DepsOf(ts), i)
  }

  ghost predicate FirstPending(ts: seq<Task>, pending: seq<nat>, i: nat)
    requires |pending| == |ts|
  {
    && i < |ts| && pending[i] > 0 && ts[i].admits != []
    && forall j: nat :: j < i ==> pending[j] == 0 || ts[j].admits == []
  }

  // A condition on the graph: the first doomed task with a name lies on a cycle.
  ghost predicate BlameFitsCycle(ts: seq<Task>) {
    forall i: nat :: Blamed(ts, i) ==> OnCycle(DepsOf(ts), i)
  }

  // The blamed task depends on the graph alone. It is a member of a cycle, as documented, if and only if the first
  // doomed task with a name is: then every schedule blames a member, and otherwise none does.
  lemma {:induction false} BlameExact(ts: seq<Task>, jobs: nat, s: State, i: nat)
    requires Reachable(ts, jobs, s) && AllReturned(s) && s.failure.None?
    requires |s.pending| == |ts| && FirstPending(ts, s.pending, i)
    ensures forall k: nat :: Blamed(ts, k) <==> k == i
    ensures OnCycle(DepsOf(ts), i) <==> BlameFitsCycle(ts)
  {
    forall j: nat | j <= i ensures s.pending[j] > 0 <==> Doomed(DepsOf(ts), j) {
      PendingIsDoomed(ts, jobs, s, j);
    }
  }

  lemma {:induction false} NoBlameExact(ts: seq<Task>, jobs: nat, s: State)
    requires Reachable(ts, jobs, s) && AllReturned(s) && s.failure.None? && |s.pending| == |ts|
    ensures NobodyToBlame(ts) <==> forall i: nat :: i < |ts| ==> s.pending[i] == 0 || ts[i].admits == []
  {
    forall i: nat | i < |ts| ensures s.pending[i] > 0 <==> Doomed(DepsOf(ts), i) {
      PendingIsDoomed(ts, jobs, s, i);
    }
  }

  // The blame a graph with doomed tasks deserves.
  ghost predicate RightBlame(ts: seq<Task>, blame: Option<Name>) {
    && (exists i: nat :: i < |ts| && Doomed(DepsOf(ts), i))
    && match blame
       case None => NobodyToBlame(ts)
       case Some(n) =>
         exists i: nat :: Blamed(ts, i) && n == ts[i].admits[0] && (OnCycle(DepsOf(ts), i) <==> BlameFitsCycle(ts))
  }

  lemma {:induction false} BlameIsRight(ts: seq<Task>, jobs: nat, s: State, blame: Option<Name>)
    requires Reachable(ts, jobs, s) && AllReturned(s) && s.failure.None? && s.done != |ts| && |s.pending| == |ts|
    requires blame.Some? ==> exists i: nat :: FirstPending(ts, s.pending, i) && blame.value == ts[i].admits[0]
    requires blame.None? ==> forall i: nat :: i < |ts| ==> s.pending[i] == 0 || ts[i].admits == []
    ensures RightBlame(ts, blame)
  {
    JoinExact(ts, jobs, s);
    var i :| 0 <= i < |ts| && s.pending[i] > 0;
    PendingIsDoomed(ts, jobs, s, i);
    if blame.Some? {
      var k: nat :| FirstPending(ts, s.pending, k) && blame.value == ts[k].admits[0];
      BlameExact(ts, jobs, s, k);
    } else {
      NoBlameExact(ts, jobs, s);
    }
  }

  // ----- the result -----

  // The first pending task that admits a name is blamed.
  method StuckDecl(ts: seq<Task>, pending: seq<nat>) returns (blame: Option<Name>)
    requires |pending| == |ts|
    ensures blame.Some? ==> exists i: nat :: FirstPending(ts, pending, i) && blame.value == ts[i].admits[0]
    ensures blame.None? ==> forall i: nat :: i < |ts| ==> pending[i] == 0 || ts[i].admits == []
  {
    for i := 0 to |ts|
      invariant forall j: nat :: j < i ==> pending[j] == 0 || ts[j].admits == []
    {
      if pending[i] > 0 && ts[i].admits != [] {
        assert FirstPending(ts, pending, i);
        return Some(ts[i].admits[0]);
      }
    }
    return None;
  }

  // Some task that can start is rejected.
  ghost predicate Rejects(ts: seq<Task>, v: Verdicts) {
    exists i: nat :: i < |ts| && !Doomed(DepsOf(ts), i) && !v(i)
  }

  // What the pool comes to is a matter of the graph and the verdicts; the schedule only picks which of several
  // rejected tasks is reported.
  lemma {:induction false} FailsExactly(ts: seq<Task>, jobs: nat, v: Verdicts, s: State)
    requires ReachableUnder(ts, jobs, v, s) && AllReturned(s)
    ensures s.failure.Some? <==> Rejects(ts, v)
    ensures s.failure.None? && s.done == |ts| ==> forall i: nat :: i < |ts| ==> v(i)
  {
    UnderIsReachable(ts, jobs, v, s);
    ReachableInv(ts, jobs, s);
    VerdictsDecide(ts, jobs, v, s);
    if s.failure.Some? {
      FailureIsReal(ts, jobs, s);
      PoppedIsNotDoomed(ts, s, s.failure.value);
    } else {
      forall i: nat | i < |ts| && !Doomed(DepsOf(ts), i) ensures v(i) {
        PendingIsDoomed(ts, jobs, s, i);
        DoneOrBlocked(ts, s, i);
        assert Accepted(s, i);
      }
      if s.done == |ts| {
        JoinExact(ts, jobs, s);
        SoundHasNoDoomed(DepsOf(ts));
      }
    }
  }

  // The failed task was rejected, and everything it waits for was accepted.
  lemma {:induction false} FailedAlone(ts: seq<Task>, jobs: nat, v: Verdicts, s: State, d: nat)
    requires ReachableUnder(ts, jobs, v, s) && s.failure.Some? && s.failure.value < |ts|
    requires d in ts[s.failure.value].deps
    ensures !v(s.failure.value) && d < |ts| && v(d)
  {
    UnderIsReachable(ts, jobs, v, s);
    ReachableInv(ts, jobs, s);
    VerdictsDecide(ts, jobs, v, s);
    var t := s.failure.value;
    assert s.loc[t] != Blocked && s.loc[t] != Queued;
    ReadyMeansServed(ts, s, t, d);
    assert Accepted(s, d);
  }

  // The pool runs until every worker has returned.
  method Join(ts: seq<Task>, jobs: nat, v: Verdicts, spurious: nat) returns (s: State)
    ensures ReachableUnder(ts, jobs, v, s) && AllReturned(s)
  {
    s := Init(ts, jobs);
    StartsUnder(ts, jobs, v);
    var budget := spurious;
    UnderShape(ts, jobs, v, s);
    while !AllReturned(s)
      invariant ReachableUnder(ts, jobs, v, s) && Reachable(ts, jobs, s) && Shape(ts, s)
      decreases budget, Phase(s), WeightSum(ts, s.pcs)
    {
      var wake := *;
      if wake && budget > 0 && exists w :: 0 <= w < |s.pcs| && CanWake(s, w) {
        var w :| 0 <= w < |s.pcs| && CanWake(s, w);
        UnderNext(ts, jobs, v, s, Set(s, w, Acquire));
        s := Set(s, w, Acquire);
        budget := budget - 1;
      } else {
        ghost var u := SomeWorkerCanStep(ts, jobs, s);
        var w :| 0 <= w < |s.pcs| && CanStep(ts, s, w);
        var ok := Verdict(v, s.pcs[w]);
        StepLowers(ts, jobs, s, w, ok);
        UnderNext(ts, jobs, v, s, Step(ts, s, w, ok));
        s := Step(ts, s, w, ok);
      }
      UnderShape(ts, jobs, v, s);
    }
  }

  lemma {:induction false} UnderShape(ts: seq<Task>, jobs: nat, v: Verdicts, s: State)
    requires ReachableUnder(ts, jobs, v, s)
    ensures Reachable(ts, jobs, s) && Shape(ts, s)
  {
    UnderIsReachable(ts, jobs, v, s);
    ReachableInv(ts, jobs, s);
  }

  // What is returned once the pool has joined.
  method Answer(ts: seq<Task>, jobs: nat, s: State) returns (r: Outcome)
    requires Reachable(ts, jobs, s) && AllReturned(s)
    ensures r.Failed? <==> s.failure.Some?
    ensures r.Failed? ==> r.task == s.failure.value
    ensures s.failure.None? ==> (r.Checked? <==> s.done == |ts|)
    ensures r.Checked? ==> r.count == s.checked
    ensures r.DependencyCycle? ==> RightBlame(ts, r.blame)
  {
    if s.failure.Some? {
      return Failed(s.failure.value);
    }
    JoinExact(ts, jobs, s);
    if s.done != |ts| {
      var blame := StuckDecl(ts, s.pending);
      BlameIsRight(ts, jobs, s, blame);
      return DependencyCycle(blame);
    }
    r := Checked(s.checked);
  }

  /** `check_parallel`: any number of workers, any verdicts, any schedule; `spurious` bounds the
      wake-ups nobody asked for. The pool always joins, and the result is exact. */
  method CheckParallel(ts: seq<Task>, jobs: nat, v: Verdicts, spurious: nat) returns (r: Outcome, ghost end: State)
    ensures ReachableUnder(ts, jobs, v, end) && Reachable(ts, jobs, end) && AllReturned(end)
    ensures r.Failed? <==> end.failure.Some?
    ensures r.Failed? <==> Rejects(ts, v)
    ensures r.Failed? ==> r.task < |ts| == |end.loc| && r.task in end.order && !end.loc[r.task].Done? && !v(r.task)
    ensures r.Failed? ==> forall d :: d in ts[r.task].deps ==> d < |ts| && v(d)
    ensures end.failure.None? ==> (r.Checked? <==> Acyclic(DepsOf(ts)) && InRange(DepsOf(ts)))
    ensures r.Checked? <==> Acyclic(DepsOf(ts)) && InRange(DepsOf(ts)) && forall i: nat :: i < |ts| ==> v(i)
    ensures r.DependencyCycle? ==> RightBlame(ts, r.blame)
    ensures r.Checked? ==> r.count == TotalCount(ts, |ts|)
    ensures r.Checked? ==> NoDup(end.order) && forall i :: 0 <= i < |ts| ==> i in end.order && Admitted(ts, end, i)
  {
    var s := Join(ts, jobs, v, spurious);
    end := s;
    Outcomes(ts, jobs, v, s);
    r := Answer(ts, jobs, s);
  }

  lemma {:induction false} Outcomes(ts: seq<Task>, jobs: nat, v: Verdicts, s: State)
    requires ReachableUnder(ts, jobs, v, s) && AllReturned(s)
    ensures Reachable(ts, jobs, s) && NoDup(s.order)
    ensures s.failure.Some? <==> Rejects(ts, v)
    ensures s.failure.Some? ==> var t := s.failure.value;
              && t < |ts| == |s.loc| && t in s.order && !s.loc[t].Done? && !v(t)
              && forall d :: d in ts[t].deps ==> d < |ts| && v(d)
    ensures s.failure.None? ==> (s.done == |ts| <==> Acyclic(DepsOf(ts)) && InRange(DepsOf(ts)))
    ensures s.failure.None? && s.done == |ts| ==>
              && s.checked == TotalCount(ts, |ts|)
              && (forall i: nat :: i < |ts| ==> v(i))
              && forall i :: 0 <= i < |ts| ==> i in s.order && Admitted(ts, s, i)
  {
    UnderIsReachable(ts, jobs, v, s);
    RunsAtMostOnce(ts, jobs, s);
    FailsExactly(ts, jobs, v, s);
    if s.failure.Some? {
      VerdictsDecide(ts, jobs, v, s);
      FailureIsReal(ts, jobs, s);
      forall d | d in ts[s.failure.value].deps ensures d < |ts| && v(d) {
        FailedAlone(ts, jobs, v, s, d);
      }
    } else {
      JoinExact(ts, jobs, s);
    }
  }

  // The blamed name need not lie on the cycle: task 0 only waits for task 1, which waits for itself.
  lemma {:induction false} BlameOffCycle() returns (ts: seq<Task>, s: State)
    ensures Reachable(ts, 1, s) && AllReturned(s) && s.failure.None?
    ensures |ts| == |s.pending| == 2 && s.pending[0] > 0 && ts[0].admits == [10]
    ensures forall c :: ClosedWalk(DepsOf(ts), c) ==> 0 !in c
    ensures Blamed(ts, 0) && !BlameFitsCycle(ts)
  {
    ts, s := OffCycleRun();
    PendingIsDoomed(ts, 1, s, 0);
    assert Blamed(ts, 0) && !OnCycle(DepsOf(ts), 0);
  }

  lemma {:induction false} OffCycleRun() returns (ts: seq<Task>, s: State)
    ensures Reachable(ts, 1, s) && AllReturned(s) && s.failure.None?
    ensures |ts| == |s.pending| == 2 && s.pending[0] > 0 && ts[0].admits == [10]
    ensures forall c :: ClosedWalk(DepsOf(ts), c) ==> 0 !in c
  {
    ts := [Task(0, Tasks.Simple(10), [10], [1]), Task(1, Tasks.Simple(11), [11], [1])];
    s := IdleRun(ts);
    forall c | ClosedWalk(DepsOf(ts), c) ensures 0 !in c {
      assert DepsOf(ts) == [[1], [1]];
      OnlyOnes(DepsOf(ts), c);
    }
  }

  // With every task blocked from the start the only worker locks, finds nothing, and leaves.
  lemma {:induction false} IdleRun(ts: seq<Task>) returns (s: State)
    requires forall i :: 0 <= i < |ts| ==> ts[i].deps != []
    ensures Reachable(ts, 1, s) && AllReturned(s) && s.failure.None?
    ensures s.pending == Init(ts, 1).pending
  {
    var s0 := Init(ts, 1);
    InitInv(ts, 1);
    NoReadyIds(ts, |ts|);
    assert [s0][|[s0]| - 1] == s0 && Run(ts, 1, [s0]);
    assert CanStep(ts, s0, 0);
    var s1 := Step(ts, s0, 0, true);
    assert Next(ts, s0, s1);
    ReachableNext(ts, 1, s0, s1);
    StepInv(ts, s0, 0, true);
    assert CanStep(ts, s1, 0);
    s := Step(ts, s1, 0, true);
    assert Next(ts, s1, s);
    ReachableNext(ts, 1, s1, s);
  }

  lemma {:induction false} NoReadyIds(ts: seq<Task>, n: nat)
    requires n <= |ts| && forall i :: 0 <= i < |ts| ==> ts[i].deps != []
    ensures ReadyIds(ts, n) == []
  {
    if n > 0 { NoReadyIds(ts, n - 1); }
  }

  lemma {:induction false} OnlyOnes(g: Graph, c: seq<nat>)
    requires g == [[1], [1]] && ClosedWalk(g, c)
    ensures 0 !in c
  {
    forall k | 0 < k < |c| ensures c[k] == 1 {
      assert Edge(g, c[k - 1], c[k - 1 + 1]);
    }
    assert c[|c| - 1] == 1;
  }
}
