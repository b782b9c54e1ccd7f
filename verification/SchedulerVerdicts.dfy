/** The kernel's verdicts along a run: what they decide, and that nothing else decides it. */
module SchedulerVerdicts {
  import opened Digraph
  import opened Tasks
  import opened Scheduler
  import opened SchedulerInvariant
  import opened SchedulerTheorems

  // Whether the kernel accepts a task. A task runs at most once, so a run has one verdict for each.
  type Verdicts = nat -> bool

  function Verdict(v: Verdicts, pc: Pc): bool {
    pc.Running? && v(pc.task)
  }

  // A worker whose task is being checked goes by the verdict on it.
  ghost predicate NextUnder(ts: seq<Task>, v: Verdicts, s: State, s': State) {
    || (exists w: nat :: CanStep(ts, s, w) && s' == Step(ts, s, w, Verdict(v, s.pcs[w])))
    || (exists w: nat :: CanWake(s, w) && s' == Set(s, w, Acquire))
  }

  ghost predicate RunUnder(ts: seq<Task>, jobs: nat, v: Verdicts, run: seq<State>) {
    && |run| >= 1 && run[0] == Init(ts, jobs)
    && forall k :: 0 <= k < |run| - 1 ==> NextUnder(ts, v, run[k], run[k + 1])
  }

  ghost predicate ReachableUnder(ts: seq<Task>, jobs: nat, v: Verdicts, s: State) {
    exists run :: RunUnder(ts, jobs, v, run) && run[|run| - 1] == s
  }

  lemma {:induction false} RunUnderIsRun(ts: seq<Task>, jobs: nat, v: Verdicts, run: seq<State>)
    requires RunUnder(ts, jobs, v, run)
    ensures Run(ts, jobs, run)
  {
    forall k | 0 <= k < |run| - 1 ensures Next(ts, run[k], run[k + 1]) {
      assert NextUnder(ts, v, run[k], run[k + 1]);
    }
  }

  lemma {:induction false} UnderIsReachable(ts: seq<Task>, jobs: nat, v: Verdicts, s: State)
    requires ReachableUnder(ts, jobs, v, s)
    ensures Reachable(ts, jobs, s)
  {
    var run :| RunUnder(ts, jobs, v, run) && run[|run| - 1] == s;
    RunUnderIsRun(ts, jobs, v, run);
  }

  lemma {:induction false} StartsUnder(ts: seq<Task>, jobs: nat, v: Verdicts)
    ensures ReachableUnder(ts, jobs, v, Init(ts, jobs))
  {
    var run := [Init(ts, jobs)];
    assert RunUnder(ts, jobs, v, run) && run[|run| - 1] == Init(ts, jobs);
  }

  lemma {:induction false} UnderNext(ts: seq<Task>, jobs: nat, v: Verdicts, s: State, s': State)
    requires ReachableUnder(ts, jobs, v, s) && NextUnder(ts, v, s, s')
    ensures ReachableUnder(ts, jobs, v, s')
  {
    var run :| RunUnder(ts, jobs, v, run) && run[|run| - 1] == s;
    var r := run + [s'];
    forall k | 0 <= k < |r| - 1 ensures NextUnder(ts, v, r[k], r[k + 1]) {
      if k < |run| - 1 { assert NextUnder(ts, v, run[k], run[k + 1]); }
    }
    assert RunUnder(ts, jobs, v, r) && r[|r| - 1] == s';
  }

  // ----- what the verdicts decide -----

  predicate AfterReject(pc: Pc) {
    pc.Recording? || pc.Cancelling? || pc.Leaving?
  }

  predicate PcJudged(v: Verdicts, pc: Pc) {
    (AfterCheck(pc) ==> v(pc.task)) && (AfterReject(pc) ==> !v(pc.task))
  }

  predicate LocJudged(v: Verdicts, i: nat, loc: Loc) {
    (loc.Done? ==> v(i)) && (loc.Dropped? ==> !v(i))
  }

  // Every task is where its verdict puts it, and the failure slot names a rejected one.
  ghost predicate Judged(v: Verdicts, s: State) {
    && (forall w {:trigger PcJudged(v, s.pcs[w])} :: 0 <= w < |s.pcs| ==> PcJudged(v, s.pcs[w]))
    && (forall i: nat {:trigger LocJudged(v, i, s.loc[i])} :: i < |s.loc| ==> LocJudged(v, i, s.loc[i]))
    && (s.failure.Some? ==> !v(s.failure.value))
  }

  lemma {:induction false} PcMovesJudged(ts: seq<Task>, v: Verdicts, s: State, w: nat)
    requires CanStep(ts, s, w) && PcJudged(v, s.pcs[w])
    ensures var s' := Step(ts, s, w, Verdict(v, s.pcs[w])); |s'.pcs| == |s.pcs| && PcJudged(v, s'.pcs[w])
  {
    assert PcOk(ts, s.pcs[w]);
  }

  lemma {:induction false} PcStaysJudged(ts: seq<Task>, v: Verdicts, s: State, w: nat, u: nat)
    requires CanStep(ts, s, w) && Judged(v, s) && u < |s.pcs|
    ensures var s' := Step(ts, s, w, Verdict(v, s.pcs[w])); |s'.pcs| == |s.pcs| && PcJudged(v, s'.pcs[u])
  {
    assert PcJudged(v, s.pcs[w]) && PcJudged(v, s.pcs[u]);
    PcMovesJudged(ts, v, s, w);
    OthersKeepPc(ts, s, w, Verdict(v, s.pcs[w]), u);
  }

  lemma {:induction false} LocStaysJudged(ts: seq<Task>, v: Verdicts, s: State, w: nat, i: nat)
    requires CanStep(ts, s, w) && Judged(v, s) && i < |s.loc|
    ensures var s' := Step(ts, s, w, Verdict(v, s.pcs[w])); |s'.loc| == |s.loc| && LocJudged(v, i, s'.loc[i])
  {
    assert PcOk(ts, s.pcs[w]);
    assert PcJudged(v, s.pcs[w]) && LocJudged(v, i, s.loc[i]);
    assert s.queue != [] ==> s.queue[0] in s.queue;
    if s.pcs[w].Decrementing? && s.pcs[w].k < |Dependents(DepsOf(ts), s.pcs[w].task)| {
      NextDependent(ts, s.pcs[w]);
    }
  }

  lemma {:induction false} SlotStaysJudged(ts: seq<Task>, v: Verdicts, s: State, w: nat)
    requires CanStep(ts, s, w) && Judged(v, s)
    ensures var s' := Step(ts, s, w, Verdict(v, s.pcs[w])); s'.failure.Some? ==> !v(s'.failure.value)
  {
    assert PcOk(ts, s.pcs[w]);
    assert PcJudged(v, s.pcs[w]);
    if s.pcs[w].Decrementing? && s.pcs[w].k < |Dependents(DepsOf(ts), s.pcs[w].task)| {
      NextDependent(ts, s.pcs[w]);
    }
  }

  lemma {:induction false} StepJudged(ts: seq<Task>, v: Verdicts, s: State, w: nat)
    requires CanStep(ts, s, w) && Judged(v, s)
    ensures Judged(v, Step(ts, s, w, Verdict(v, s.pcs[w])))
  {
    var s' := Step(ts, s, w, Verdict(v, s.pcs[w]));
    PcStaysJudged(ts, v, s, w, w);
    LocLength(ts, s, w, Verdict(v, s.pcs[w]));
    forall u {:trigger PcJudged(v, s'.pcs[u])} | 0 <= u < |s'.pcs| ensures PcJudged(v, s'.pcs[u]) {
      PcStaysJudged(ts, v, s, w, u);
    }
    forall i: nat {:trigger LocJudged(v, i, s'.loc[i])} | i < |s'.loc| ensures LocJudged(v, i, s'.loc[i]) {
      LocStaysJudged(ts, v, s, w, i);
    }
    SlotStaysJudged(ts, v, s, w);
  }

  lemma {:induction false} LocLength(ts: seq<Task>, s: State, w: nat, ok: bool)
    requires CanStep(ts, s, w)
    ensures |Step(ts, s, w, ok).loc| == |s.loc|
  {
    StepShape(ts, s, w, ok);
  }

  lemma {:induction false} RunJudged(ts: seq<Task>, jobs: nat, v: Verdicts, run: seq<State>, k: nat)
    requires RunUnder(ts, jobs, v, run) && k < |run|
    ensures Judged(v, run[k])
  {
    if k > 0 {
      RunJudged(ts, jobs, v, run, k - 1);
      var s, s' := run[k - 1], run[k];
      assert NextUnder(ts, v, s, run[k - 1 + 1]);
      if w: nat :| CanStep(ts, s, w) && s' == Step(ts, s, w, Verdict(v, s.pcs[w])) {
        StepJudged(ts, v, s, w);
      } else {
        var w: nat :| CanWake(s, w) && s' == Set(s, w, Acquire);
        WakeJudged(v, s, w);
      }
    }
  }

  lemma {:induction false} WakeJudged(v: Verdicts, s: State, w: nat)
    requires CanWake(s, w) && Judged(v, s)
    ensures Judged(v, Set(s, w, Acquire))
  {
    var s' := Set(s, w, Acquire);
    forall u {:trigger PcJudged(v, s'.pcs[u])} | 0 <= u < |s'.pcs| ensures PcJudged(v, s'.pcs[u]) {
      assert PcJudged(v, s.pcs[u]);
    }
    forall i: nat {:trigger LocJudged(v, i, s'.loc[i])} | i < |s'.loc| ensures LocJudged(v, i, s'.loc[i]) {
      assert LocJudged(v, i, s.loc[i]);
    }
  }

  lemma {:induction false} ReachableJudged(ts: seq<Task>, jobs: nat, v: Verdicts, s: State)
    requires ReachableUnder(ts, jobs, v, s)
    ensures Judged(v, s)
  {
    var run :| RunUnder(ts, jobs, v, run) && run[|run| - 1] == s;
    RunJudged(ts, jobs, v, run, |run| - 1);
  }

  // What the kernel has passed it accepted, what was dropped it rejected; a name is only ever admitted by a task the
  // kernel accepted, and the recorded failure is that of one it rejected.
  lemma {:induction false} VerdictsDecide(ts: seq<Task>, jobs: nat, v: Verdicts, s: State)
    requires ReachableUnder(ts, jobs, v, s)
    ensures forall i: nat :: i < |ts| && Accepted(s, i) ==> v(i)
    ensures forall i: nat :: i < |s.loc| && s.loc[i].Dropped? ==> !v(i)
    ensures s.failure.Some? ==> s.failure.value < |ts| && !v(s.failure.value)
    ensures forall n {:trigger n in s.admitted} :: n in s.admitted ==>
              exists i: nat :: i < |ts| && n in ts[i].admits && v(i)
  {
    UnderIsReachable(ts, jobs, v, s);
    ReachableInv(ts, jobs, s);
    ReachableJudged(ts, jobs, v, s);
    AcceptedIsTrue(ts, v, s);
    forall i: nat | i < |s.loc| && s.loc[i].Dropped? ensures !v(i) {
      assert LocJudged(v, i, s.loc[i]);
    }
    forall n {:trigger n in s.admitted} | n in s.admitted
      ensures exists i: nat :: i < |ts| && n in ts[i].admits && v(i) {
      AdmittedWasAccepted(ts, jobs, s, n);
      var i: nat :| i < |ts| && n in ts[i].admits && Accepted(s, i);
    }
  }

  lemma {:induction false} AcceptedIsTrue(ts: seq<Task>, v: Verdicts, s: State)
    requires Judged(v, s)
    ensures forall i: nat :: Accepted(s, i) ==> v(i)
  {
    forall i: nat | Accepted(s, i) ensures v(i) {
      if i < |s.loc| && s.loc[i].Done? {
        assert LocJudged(v, i, s.loc[i]);
      } else {
        var w: nat :| w < |s.pcs| && AfterCheck(s.pcs[w]) && s.pcs[w].task == i;
        assert PcJudged(v, s.pcs[w]);
      }
    }
  }

  // ----- stopping -----

  ghost predicate SomeHolding(s: State) {
    exists w :: 0 <= w < |s.pcs| && s.pcs[w].Holding?
  }

  // Tasks taken, and one more while a worker holds the lock and may still take one.
  ghost function Taken(s: State): nat {
    |s.order| + if SomeHolding(s) then 1 else 0
  }

  // Once the pool is cancelled, only a worker that holds the lock already can still take a task: along every schedule
  // at most one more is taken.
  lemma {:induction false} CancelStops(ts: seq<Task>, jobs: nat, s: State, s': State)
    requires Reachable(ts, jobs, s) && Next(ts, s, s') && s.cancelled
    ensures s'.cancelled && s.order <= s'.order && Taken(s') <= Taken(s)
    ensures !SomeHolding(s) ==> s'.order == s.order
  {
    ReachableInv(ts, jobs, s);
    if w: nat, ok :| CanStep(ts, s, w) && s' == Step(ts, s, w, ok) {
      OneWayStep(ts, s, w, ok);
      StepWhenCancelled(ts, s, w, ok);
    }
  }

  lemma {:induction false} StepWhenCancelled(ts: seq<Task>, s: State, w: nat, ok: bool)
    requires CanStep(ts, s, w) && s.cancelled && OneHolder(s.pcs)
    ensures var s' := Step(ts, s, w, ok);
            && |s'.pcs| == |s.pcs|
            && (forall u :: 0 <= u < |s'.pcs| && s'.pcs[u].Holding? ==> u != w && s.pcs[u].Holding?)
            && (s'.order != s.order ==> s.pcs[w].Holding? && |s'.order| == |s.order| + 1)
  {
    assert PcOk(ts, s.pcs[w]);
    if s.pcs[w].Decrementing? && s.pcs[w].k < |Dependents(DepsOf(ts), s.pcs[w].task)| {
      NextDependent(ts, s.pcs[w]);
    }
  }
}
