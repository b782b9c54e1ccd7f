/** What the parallel check guarantees in every reachable state and when the pool has joined. */
module SchedulerTheorems {
  import opened Digraph
  import opened Tasks
  import opened Scheduler
  import opened SchedulerInvariant

  ghost predicate Reachable(ts: seq<Task>, jobs: nat, s: State) {
    exists run :: Run(ts, jobs, run) && run[|run| - 1] == s
  }

  lemma {:induction false} ReachableInv(ts: seq<Task>, jobs: nat, s: State)
    requires Reachable(ts, jobs, s)
    ensures Inv(ts, s)
  {
    var run :| Run(ts, jobs, run) && run[|run| - 1] == s;
    RunInv(ts, jobs, run, |run| - 1);
  }

  lemma {:induction false} ReachableNext(ts: seq<Task>, jobs: nat, s: State, s': State)
    requires Reachable(ts, jobs, s) && Next(ts, s, s')
    ensures Reachable(ts, jobs, s')
  {
    var run :| Run(ts, jobs, run) && run[|run| - 1] == s;
    var r := run + [s'];
    forall k | 0 <= k < |r| - 1 ensures Next(ts, r[k], r[k + 1]) {
      if k < |run| - 1 { assert Next(ts, run[k], run[k + 1]); }
    }
    assert Run(ts, jobs, r) && r[|r| - 1] == s';
  }

  // ----- safety -----

  // A `fetch_sub` never finds a zero, and finds a one exactly when this is the task's last dependency.
  lemma {:induction false} NoUnderflow(ts: seq<Task>, jobs: nat, s: State, w: nat)
    requires Reachable(ts, jobs, s) && w < |s.pcs| && s.pcs[w].Decrementing?
    requires s.pcs[w].k < |Dependents(DepsOf(ts), s.pcs[w].task)|
    ensures var x := Dependents(DepsOf(ts), s.pcs[w].task)[s.pcs[w].k].0;
            x < |ts| && x < |s.pending| && 0 < s.pending[x] <= |ts[x].deps|
  {
    ReachableInv(ts, jobs, s);
    FinishShape(ts, s, w);
    DecrementCounted(ts, s, w);
    var x := Dependents(DepsOf(ts), s.pcs[w].task)[s.pcs[w].k].0;
    UnservedFits(DepsOf(ts), Cursors(ts, s), x);
  }

  lemma {:induction false} UnservedFits(g: Graph, cur: seq<nat>, i: nat)
    requires |cur| == |g| && i < |g|
    ensures forall m :: m in Unserved(g, cur, i) ==> m < |g[i]|
    ensures |Unserved(g, cur, i)| <= |g[i]|
  {
    SubsetBound(Unserved(g, cur, i), |g[i]|);
  }

  // Every task is queued at most once and popped at most once, never after it was popped.
  lemma {:induction false} RunsAtMostOnce(ts: seq<Task>, jobs: nat, s: State)
    requires Reachable(ts, jobs, s)
    ensures NoDup(s.queue) && NoDup(s.order)
    ensures forall i :: i in s.queue ==> i !in s.order
    ensures forall v, w :: 0 <= v < w < |s.pcs| && HasTask(s.pcs[v]) && HasTask(s.pcs[w]) ==>
              s.pcs[v].task != s.pcs[w].task
  {
    ReachableInv(ts, jobs, s);
    forall v, w | 0 <= v < w < |s.pcs| && HasTask(s.pcs[v]) && HasTask(s.pcs[w])
      ensures s.pcs[v].task != s.pcs[w].task
    {
      var t := s.pcs[v].task;
      assert PcOk(ts, s.pcs[v]);
      assert s.loc[t] == Active(v);
      assert s.loc[t] == Active(w) <==> HasTask(s.pcs[w]) && s.pcs[w].task == t;
    }
  }

  // A task is only run once all it waits for has been checked and every flag of theirs is set; the view it runs
  // with sees the quotient flag if any of them is the quotient task.
  lemma {:induction false} StartsAfterDependencies(ts: seq<Task>, jobs: nat, s: State, w: nat, d: nat)
    requires Reachable(ts, jobs, s) && w < |s.pcs| && HasTask(s.pcs[w])
    requires s.pcs[w].task < |ts| && d in ts[s.pcs[w].task].deps
    ensures d < |ts| == |s.loc| && d in s.order && Passed(s, d)
    ensures forall n :: n in ts[d].admits ==> n in s.admitted
    ensures PublishesQuot(ts[d].kind) ==> s.quotInit
    ensures PublishesQuot(ts[d].kind) && s.pcs[w].Running? ==> s.pcs[w].quot
  {
    ReachableInv(ts, jobs, s);
    var t := s.pcs[w].task;
    assert s.loc[t] == Active(w);
    ReadyMeansServed(ts, s, t, d);
    assert Passed(s, d);
    assert Admitted(ts, s, d);
  }

  // Flags and the failure slot are one-way.
  lemma {:induction false} OneWay(ts: seq<Task>, jobs: nat, s: State, s': State)
    requires Reachable(ts, jobs, s) && Next(ts, s, s')
    ensures s.admitted <= s'.admitted && (s.quotInit ==> s'.quotInit) && (s.cancelled ==> s'.cancelled)
    ensures s.failure.Some? ==> s'.failure == s.failure
    ensures s.order <= s'.order && s.checked <= s'.checked && s.done <= s'.done
    ensures s.order + s.queue <= s'.order + s'.queue
  {
    if w: nat, ok :| CanStep(ts, s, w) && s' == Step(ts, s, w, ok) {
      OneWayStep(ts, s, w, ok);
      FirstQueuedFirst(ts, s, w, ok);
    }
  }

  // Tasks are popped in the order in which they were queued.
  lemma {:induction false} FirstQueuedFirst(ts: seq<Task>, s: State, w: nat, ok: bool)
    requires CanStep(ts, s, w)
    ensures s.order + s.queue <= Step(ts, s, w, ok).order + Step(ts, s, w, ok).queue
  {
    assert PcOk(ts, s.pcs[w]);
    if s.queue != [] {
      assert s.queue[0] in s.queue;
      assert s.order + s.queue == s.order + [s.queue[0]] + s.queue[1..];
    }
    if s.pcs[w].Decrementing? && s.pcs[w].k < |Dependents(DepsOf(ts), s.pcs[w].task)| {
      NextDependent(ts, s.pcs[w]);
    }
  }

  lemma {:induction false} OneWayStep(ts: seq<Task>, s: State, w: nat, ok: bool)
    requires CanStep(ts, s, w)
    ensures var s' := Step(ts, s, w, ok);
            && s.admitted <= s'.admitted && (s.quotInit ==> s'.quotInit) && (s.cancelled ==> s'.cancelled)
            && (s.failure.Some? ==> s'.failure == s.failure)
            && s.order <= s'.order && s.checked <= s'.checked && s.done <= s'.done
  {
    assert PcOk(ts, s.pcs[w]);
    if s.pcs[w].Decrementing? && s.pcs[w].k < |Dependents(DepsOf(ts), s.pcs[w].task)| {
      NextDependent(ts, s.pcs[w]);
    }
  }

  // ----- nothing is admitted early -----

  predicate AfterCheck(pc: Pc) {
    pc.Admitting? || pc.Tally? || pc.Decrementing?
  }

  // The kernel has accepted task `i`.
  ghost predicate Accepted(s: State, i: nat) {
    || (i < |s.loc| && s.loc[i].Done?)
    || (exists w: nat :: w < |s.pcs| && AfterCheck(s.pcs[w]) && s.pcs[w].task == i)
  }

  ghost predicate FromAccepted(ts: seq<Task>, s: State, n: Name) {
    exists i: nat :: i < |ts| && n in ts[i].admits && Accepted(s, i)
  }

  lemma {:induction false} FinishKeepsDone(ts: seq<Task>, s: State, w: nat, i: nat)
    requires Shape(ts, s) && Placed(ts, s) && BlockedExact(s)
    requires w < |s.pcs| && s.pcs[w].Decrementing? && i < |ts| && s.loc[i].Done?
    ensures |StepFinish(ts, s, w).loc| == |ts| && StepFinish(ts, s, w).loc[i].Done?
  {
    var pc := s.pcs[w];
    assert PcOk(ts, pc);
    assert InNewly(pc, i) <==> s.loc[i] == Held(w);
    if pc.k < |Dependents(DepsOf(ts), pc.task)| {
      NextDependent(ts, pc);
    }
  }

  lemma {:induction false} DoneStays(ts: seq<Task>, s: State, w: nat, ok: bool, i: nat)
    requires CanStep(ts, s, w) && Placed(ts, s) && BlockedExact(s) && i < |ts| && s.loc[i].Done?
    ensures |Step(ts, s, w, ok).loc| == |ts| && Step(ts, s, w, ok).loc[i].Done?
  {
    assert PcOk(ts, s.pcs[w]);
    if s.pcs[w].Decrementing? {
      FinishKeepsDone(ts, s, w, i);
    } else {
      assert HasTask(s.pcs[w]) ==> s.loc[s.pcs[w].task] == Active(w);
      assert s.queue != [] ==> s.queue[0] in s.queue;
    }
  }

  lemma {:induction false} OthersStay(ts: seq<Task>, s: State, w: nat, ok: bool, v: nat)
    requires CanStep(ts, s, w) && v < |s.pcs| && v != w && AfterCheck(s.pcs[v])
    ensures v < |Step(ts, s, w, ok).pcs| && Step(ts, s, w, ok).pcs[v] == s.pcs[v]
  {
    assert PcOk(ts, s.pcs[w]);
  }

  lemma {:induction false} HolderMovesOn(ts: seq<Task>, s: State, w: nat, ok: bool)
    requires CanStep(ts, s, w) && AfterCheck(s.pcs[w])
    ensures Accepted(Step(ts, s, w, ok), s.pcs[w].task)
  {
    var pc, s' := s.pcs[w], Step(ts, s, w, ok);
    assert PcOk(ts, pc);
    assert if pc.Decrementing? && pc.k >= |Dependents(DepsOf(ts), pc.task)| then s'.loc[pc.task].Done?
           else AfterCheck(s'.pcs[w]) && s'.pcs[w].task == pc.task;
  }

  lemma {:induction false} AcceptedStays(ts: seq<Task>, s: State, w: nat, ok: bool, i: nat)
    requires Inv(ts, s) && CanStep(ts, s, w) && i < |ts| && Accepted(s, i)
    ensures Accepted(Step(ts, s, w, ok), i)
  {
    if s.loc[i].Done? {
      DoneStays(ts, s, w, ok, i);
    } else {
      var v: nat :| v < |s.pcs| && AfterCheck(s.pcs[v]) && s.pcs[v].task == i;
      if v == w { HolderMovesOn(ts, s, w, ok); } else { OthersStay(ts, s, w, ok, v); }
    }
  }

  // Only setting a flag of the task at hand changes the flags.
  lemma {:induction false} AdmitsNothing(ts: seq<Task>, s: State, w: nat, ok: bool)
    requires CanStep(ts, s, w)
    requires s.pcs[w].Admitting? && s.pcs[w].task < |ts| ==> s.pcs[w].k >= |ts[s.pcs[w].task].admits|
    ensures Step(ts, s, w, ok).admitted == s.admitted
  {
    assert PcOk(ts, s.pcs[w]);
  }

  lemma {:induction false} AdmitsOwnNames(ts: seq<Task>, s: State, w: nat, ok: bool, n: Name)
    requires CanStep(ts, s, w) && n in Step(ts, s, w, ok).admitted && n !in s.admitted
    ensures s.pcs[w].Admitting? && s.pcs[w].task < |ts| && n in ts[s.pcs[w].task].admits
  {
    assert PcOk(ts, s.pcs[w]);
    if !(s.pcs[w].Admitting? && s.pcs[w].k < |ts[s.pcs[w].task].admits|) {
      AdmitsNothing(ts, s, w, ok);
    }
  }

  // No name is visible before the kernel has accepted a task that admits it.
  lemma {:induction false} AdmittedWasAccepted(ts: seq<Task>, jobs: nat, s: State, n: Name)
    requires Reachable(ts, jobs, s) && n in s.admitted
    ensures FromAccepted(ts, s, n)
  {
    var run :| Run(ts, jobs, run) && run[|run| - 1] == s;
    RunAccepted(ts, jobs, run, |run| - 1, n);
  }

  lemma {:induction false} RunAccepted(ts: seq<Task>, jobs: nat, run: seq<State>, k: nat, n: Name)
    requires Run(ts, jobs, run) && k < |run| && n in run[k].admitted
    ensures FromAccepted(ts, run[k], n)
  {
    if k > 0 {
      RunInv(ts, jobs, run, k - 1);
      assert Next(ts, run[k - 1], run[k - 1 + 1]);
      if n in run[k - 1].admitted {
        RunAccepted(ts, jobs, run, k - 1, n);
      }
      NextAccepted(ts, run[k - 1], run[k], n);
    }
  }

  lemma {:induction false} NextAccepted(ts: seq<Task>, s: State, s': State, n: Name)
    requires Inv(ts, s) && Next(ts, s, s') && n in s'.admitted
    requires n in s.admitted ==> FromAccepted(ts, s, n)
    ensures FromAccepted(ts, s', n)
  {
    if w: nat, ok :| CanStep(ts, s, w) && s' == Step(ts, s, w, ok) {
      StepAccepted(ts, s, w, ok, n);
    } else {
      var w: nat :| CanWake(s, w) && s' == Set(s, w, Acquire);
      WakeAccepted(ts, s, w, n);
    }
  }

  lemma {:induction false} WakeAccepted(ts: seq<Task>, s: State, w: nat, n: Name)
    requires CanWake(s, w) && FromAccepted(ts, s, n)
    ensures FromAccepted(ts, Set(s, w, Acquire), n)
  {
    var i: nat :| i < |ts| && n in ts[i].admits && Accepted(s, i);
    var s' := Set(s, w, Acquire);
    assert forall v: nat :: v < |s.pcs| && AfterCheck(s.pcs[v]) ==> s'.pcs[v] == s.pcs[v];
    assert Accepted(s', i);
  }

  lemma {:induction false} StepAccepted(ts: seq<Task>, s: State, w: nat, ok: bool, n: Name)
    requires Inv(ts, s) && CanStep(ts, s, w) && n in Step(ts, s, w, ok).admitted
    requires n in s.admitted ==> FromAccepted(ts, s, n)
    ensures FromAccepted(ts, Step(ts, s, w, ok), n)
  {
    if n in s.admitted {
      var i: nat :| i < |ts| && n in ts[i].admits && Accepted(s, i);
      AcceptedStays(ts, s, w, ok, i);
    } else {
      AdmitsOwnNames(ts, s, w, ok, n);
      AcceptedStays(ts, s, w, ok, s.pcs[w].task);
    }
  }

  // ----- the quotient flag -----

  ghost predicate QuotAccepted(ts: seq<Task>, s: State) {
    exists i: nat :: i < |ts| && PublishesQuot(ts[i].kind) && Accepted(s, i)
  }

  ghost predicate ViewsTrue(s: State) {
    forall w :: 0 <= w < |s.pcs| && s.pcs[w].Running? && s.pcs[w].quot ==> s.quotInit
  }

  ghost predicate QuotRight(ts: seq<Task>, s: State) {
    (s.quotInit ==> QuotAccepted(ts, s)) && ViewsTrue(s)
  }

  // The quotient flag is set only after the kernel has accepted quotient initialisation, and no check sees it before.
  lemma {:induction false} QuotWasAccepted(ts: seq<Task>, jobs: nat, s: State)
    requires Reachable(ts, jobs, s)
    ensures s.quotInit ==> QuotAccepted(ts, s)
    ensures forall w :: 0 <= w < |s.pcs| && s.pcs[w].Running? && s.pcs[w].quot ==> s.quotInit
  {
    var run :| Run(ts, jobs, run) && run[|run| - 1] == s;
    RunQuot(ts, jobs, run, |run| - 1);
  }

  lemma {:induction false} RunQuot(ts: seq<Task>, jobs: nat, run: seq<State>, k: nat)
    requires Run(ts, jobs, run) && k < |run|
    ensures QuotRight(ts, run[k])
    decreases k
  {
    if k > 0 {
      RunQuot(ts, jobs, run, k - 1);
      RunNextQuot(ts, jobs, run, k - 1);
    } else {
      StartsQuot(ts, jobs);
    }
  }

  lemma {:induction false} RunNextQuot(ts: seq<Task>, jobs: nat, run: seq<State>, k: nat)
    requires Run(ts, jobs, run) && k < |run| - 1 && QuotRight(ts, run[k])
    ensures QuotRight(ts, run[k + 1])
  {
    RunInv(ts, jobs, run, k);
    NextQuot(ts, run[k], run[k + 1]);
  }

  lemma {:induction false} StartsQuot(ts: seq<Task>, jobs: nat)
    ensures QuotRight(ts, Init(ts, jobs))
  {
  }

  lemma {:induction false} NextQuot(ts: seq<Task>, s: State, s': State)
    requires Inv(ts, s) && Next(ts, s, s') && QuotRight(ts, s)
    ensures QuotRight(ts, s')
  {
    if w: nat, ok :| CanStep(ts, s, w) && s' == Step(ts, s, w, ok) {
      StepQuot(ts, s, w, ok);
      StepViews(ts, s, w, ok);
    } else {
      var w: nat :| CanWake(s, w) && s' == Set(s, w, Acquire);
      WakeQuot(ts, s, w);
    }
  }

  lemma {:induction false} StepQuot(ts: seq<Task>, s: State, w: nat, ok: bool)
    requires Inv(ts, s) && CanStep(ts, s, w) && (s.quotInit ==> QuotAccepted(ts, s))
    ensures Step(ts, s, w, ok).quotInit ==> QuotAccepted(ts, Step(ts, s, w, ok))
  {
    if s.quotInit {
      var i: nat :| i < |ts| && PublishesQuot(ts[i].kind) && Accepted(s, i);
      AcceptedStays(ts, s, w, ok, i);
    } else if Step(ts, s, w, ok).quotInit {
      SetsQuot(ts, s, w, ok);
      AcceptedStays(ts, s, w, ok, s.pcs[w].task);
    }
  }

  // Only a task with quotient names to publish sets the flag, after setting the flags of its names.
  lemma {:induction false} SetsQuot(ts: seq<Task>, s: State, w: nat, ok: bool)
    requires CanStep(ts, s, w) && !s.quotInit && Step(ts, s, w, ok).quotInit
    ensures s.pcs[w].Admitting? && s.pcs[w].task < |ts| && PublishesQuot(ts[s.pcs[w].task].kind)
    ensures s.pcs[w].k == |ts[s.pcs[w].task].admits|
  {
    assert PcOk(ts, s.pcs[w]);
    if s.pcs[w].Decrementing? { FinishKeepsQuot(ts, s, w); }
  }

  lemma {:induction false} FinishKeepsQuot(ts: seq<Task>, s: State, w: nat)
    requires Shape(ts, s) && w < |s.pcs| && s.pcs[w].Decrementing?
    ensures StepFinish(ts, s, w).quotInit == s.quotInit
  {
    assert PcOk(ts, s.pcs[w]);
    if s.pcs[w].k < |Dependents(DepsOf(ts), s.pcs[w].task)| {
      NextDependent(ts, s.pcs[w]);
    }
  }

  lemma {:induction false} StepViews(ts: seq<Task>, s: State, w: nat, ok: bool)
    requires Inv(ts, s) && CanStep(ts, s, w) && ViewsTrue(s)
    ensures ViewsTrue(Step(ts, s, w, ok))
  {
    var s' := Step(ts, s, w, ok);
    OneWayStep(ts, s, w, ok);
    OwnView(ts, s, w, ok);
    forall u | 0 <= u < |s'.pcs| && s'.pcs[u].Running? && s'.pcs[u].quot ensures s'.quotInit {
      OthersKeepPc(ts, s, w, ok, if u < |s.pcs| then u else w);
    }
  }

  lemma {:induction false} OwnView(ts: seq<Task>, s: State, w: nat, ok: bool)
    requires CanStep(ts, s, w)
    ensures var s' := Step(ts, s, w, ok);
            |s'.pcs| == |s.pcs| && (s'.pcs[w].Running? && s'.pcs[w].quot ==> s'.quotInit)
  {
    assert PcOk(ts, s.pcs[w]);
  }

  lemma {:induction false} OthersKeepPc(ts: seq<Task>, s: State, w: nat, ok: bool, u: nat)
    requires CanStep(ts, s, w) && u < |s.pcs|
    ensures var s' := Step(ts, s, w, ok);
            |s'.pcs| == |s.pcs| && (u != w ==> s'.pcs[u] == s.pcs[u] || s'.pcs[u] == Acquire)
  {
    assert PcOk(ts, s.pcs[w]);
  }

  lemma {:induction false} WakeQuot(ts: seq<Task>, s: State, w: nat)
    requires CanWake(s, w) && (s.quotInit ==> QuotAccepted(ts, s))
    ensures s.quotInit ==> QuotAccepted(ts, Set(s, w, Acquire))
  {
    if s.quotInit {
      var i: nat :| i < |ts| && PublishesQuot(ts[i].kind) && Accepted(s, i);
      var s' := Set(s, w, Acquire);
      assert forall v: nat :: v < |s.pcs| && AfterCheck(s.pcs[v]) ==> s'.pcs[v] == s.pcs[v];
      assert Accepted(s', i);
    }
  }

  // ----- the progress calls -----

  // Worker `w` has just counted a task and is about to call `progress(n)`.
  predicate Reports(s: State, s': State, w: nat, n: nat) {
    w < |s.pcs| == |s'.pcs| && s.pcs[w] != s'.pcs[w] == Progress(n)
  }

  // A finished task is counted once, and the worker that counted it, and no other, goes on to report the new count.
  lemma {:induction false} ProgressOnce(ts: seq<Task>, jobs: nat, s: State, s': State)
    requires Reachable(ts, jobs, s) && Next(ts, s, s')
    ensures s'.done == s.done || s'.done == s.done + 1
    ensures s'.done == s.done + 1 <==> exists w: nat, n: nat :: Reports(s, s', w, n)
    ensures forall w: nat, n: nat :: Reports(s, s', w, n) ==>
              n == s'.done && HasTask(s.pcs[w]) && s.pcs[w].task < |s'.loc| && s'.loc[s.pcs[w].task].Done?
    ensures forall w: nat, n: nat, w': nat, n': nat :: Reports(s, s', w, n) && Reports(s, s', w', n') ==> w == w'
  {
    if w: nat, ok :| CanStep(ts, s, w) && s' == Step(ts, s, w, ok) {
      StepReports(ts, s, w, ok);
    } else {
      assert forall w: nat, n: nat :: !Reports(s, s', w, n);
    }
  }

  lemma {:induction false} StepReports(ts: seq<Task>, s: State, w: nat, ok: bool)
    requires CanStep(ts, s, w)
    ensures var s', pc := Step(ts, s, w, ok), s.pcs[w];
            && (forall u: nat, n: nat :: Reports(s, s', u, n) ==> u == w && pc.Decrementing?)
            && (if pc.Decrementing? && pc.k >= |Dependents(DepsOf(ts), pc.task)| then
                  Reports(s, s', w, s.done + 1) && s'.done == s.done + 1 && pc.task < |s'.loc| && s'.loc[pc.task].Done?
                else s'.done == s.done && !s'.pcs[w].Progress?)
  {
    assert PcOk(ts, s.pcs[w]);
    if s.pcs[w].Decrementing? && s.pcs[w].k < |Dependents(DepsOf(ts), s.pcs[w].task)| {
      NextDependent(ts, s.pcs[w]);
    }
  }

  // ----- liveness -----

  predicate AllReturned(s: State) {
    forall w :: 0 <= w < |s.pcs| ==> s.pcs[w].Returned?
  }

  // No wake-up is lost: a parked worker has nothing to take and something in flight to wait for.
  lemma {:induction false} NoLostWakeup(ts: seq<Task>, jobs: nat, s: State, w: nat) returns (v: nat)
    requires Reachable(ts, jobs, s) && w < |s.pcs| && s.pcs[w].Waiting?
    ensures s.queue == [] && s.inFlight > 0
    ensures v < |s.pcs| && HasTask(s.pcs[v])
  {
    ReachableInv(ts, jobs, s);
    assert |Holders(s.pcs)| > 0;
    v :| v in Holders(s.pcs);
  }

  // Until the pool has joined, some worker can take a step.
  lemma {:induction false} SomeWorkerCanStep(ts: seq<Task>, jobs: nat, s: State) returns (w: nat)
    requires Reachable(ts, jobs, s) && !AllReturned(s)
    ensures CanStep(ts, s, w)
  {
    ReachableInv(ts, jobs, s);
    if h :| 0 <= h < |s.pcs| && s.pcs[h].Holding? {
      w := h;
      assert CanStep(ts, s, w);
    } else {
      w :| 0 <= w < |s.pcs| && !s.pcs[w].Returned?;
      if s.pcs[w].Waiting? {
        w := NoLostWakeup(ts, jobs, s, w);
      }
      assert LockFree(s, w);
    }
  }

  function Unfinished(loc: seq<Loc>): set<nat> {
    set i | 0 <= i < |loc| && !loc[i].Done? && !loc[i].Dropped?
  }

  function Present(pcs: seq<Pc>): set<nat> {
    set w | 0 <= w < |pcs| && !pcs[w].Returned?
  }

  // Work a task holds, over all tasks.
  function Room(ts: seq<Task>, n: nat): nat
    requires n <= |ts|
  {
    if n == 0 then 0 else Room(ts, n - 1) + |Dependents(DepsOf(ts), n - 1)| + |ts[n - 1].admits|
  }

  lemma {:induction false} RoomFor(ts: seq<Task>, n: nat, t: nat)
    requires t < n <= |ts|
    ensures |Dependents(DepsOf(ts), t)| + |ts[t].admits| <= Room(ts, n)
  {
    if t < n - 1 { RoomFor(ts, n - 1, t); }
  }

  // How far a worker is from having to wait, return or publish.
  function Weight(ts: seq<Task>, pc: Pc): nat
    requires PcOk(ts, pc)
  {
    match pc
    case Returned => 0
    case Waiting => 0
    case Leaving(_) => 1
    case Cancelling(_) => 2
    case Recording(_) => 3
    case Decrementing(t, k, _) => 1 + |Dependents(DepsOf(ts), t)| - k
    case Tally(t) => 2 + |Dependents(DepsOf(ts), t)|
    case Admitting(t, k) => 3 + |Dependents(DepsOf(ts), t)| + |ts[t].admits| - k
    case Running(t, _) => 4 + |Dependents(DepsOf(ts), t)| + |ts[t].admits|
    case Starting(t) => 5 + |Dependents(DepsOf(ts), t)| + |ts[t].admits|
    case Holding => Room(ts, |ts|) + 6
    case Acquire => Room(ts, |ts|) + 7
    case Progress(_) => Room(ts, |ts|) + 8
  }

  function WeightSum(ts: seq<Task>, pcs: seq<Pc>): nat
    requires forall w :: 0 <= w < |pcs| ==> PcOk(ts, pcs[w])
  {
    if pcs == [] then 0 else WeightSum(ts, pcs[..|pcs| - 1]) + Weight(ts, pcs[|pcs| - 1])
  }

  lemma {:induction false} WeightUpdate(ts: seq<Task>, pcs: seq<Pc>, w: nat, pc: Pc)
    requires w < |pcs| && PcOk(ts, pc) && forall v :: 0 <= v < |pcs| ==> PcOk(ts, pcs[v])
    ensures WeightSum(ts, pcs[w := pc]) + Weight(ts, pcs[w]) == WeightSum(ts, pcs) + Weight(ts, pc)
  {
    var n := |pcs| - 1;
    if w < n {
      WeightUpdate(ts, pcs[..n], w, pc);
      assert pcs[w := pc][..n] == pcs[..n][w := pc];
    } else {
      assert pcs[w := pc][..n] == pcs[..n];
    }
  }

  function Phase(s: State): nat {
    |Unfinished(s.loc)| + |Present(s.pcs)|
  }

  lemma {:induction false} PresentUpdate(pcs: seq<Pc>, w: nat, pc: Pc)
    requires w < |pcs| && !pcs[w].Returned?
    ensures |Present(pcs[w := pc])| == |Present(pcs)| - if pc.Returned? then 1 else 0
    ensures |Present(NotifyAll(pcs)[w := pc])| == |Present(pcs[w := pc])|
  {
    var a := Present(pcs);
    assert w in a;
    assert Present(pcs[w := pc]) == if pc.Returned? then a - {w} else a;
    assert Present(NotifyAll(pcs)[w := pc]) == Present(pcs[w := pc]);
  }

  lemma {:induction false} QuietDecreases(ts: seq<Task>, s: State, s': State, w: nat)
    requires Shape(ts, s) && Shape(ts, s') && w < |s.pcs| == |s'.pcs| && !s.pcs[w].Returned?
    requires s'.pcs == s.pcs[w := s'.pcs[w]] && Unfinished(s'.loc) == Unfinished(s.loc)
    requires PcOk(ts, s.pcs[w]) && PcOk(ts, s'.pcs[w]) && Weight(ts, s'.pcs[w]) < Weight(ts, s.pcs[w])
    ensures Phase(s') < Phase(s) || (Phase(s') == Phase(s) && WeightSum(ts, s'.pcs) < WeightSum(ts, s.pcs))
  {
    PresentUpdate(s.pcs, w, s'.pcs[w]);
    WeightUpdate(ts, s.pcs, w, s'.pcs[w]);
  }

  // What each step lowers: the tasks and workers still to finish, or else the work held.
  ghost predicate Lower(ts: seq<Task>, s': State, s: State)
    requires Shape(ts, s) && Shape(ts, s')
  {
    Phase(s') < Phase(s) || (Phase(s') == Phase(s) && WeightSum(ts, s'.pcs) < WeightSum(ts, s.pcs))
  }

  lemma {:induction false} PublishLowers(ts: seq<Task>, s: State, w: nat)
    requires Shape(ts, s) && Placed(ts, s) && w < |s.pcs| && s.pcs[w].Decrementing? && Shape(ts, StepFinish(ts, s, w))
    requires s.pcs[w].k >= |Dependents(DepsOf(ts), s.pcs[w].task)|
    ensures Lower(ts, StepFinish(ts, s, w), s)
  {
    var s' := StepFinish(ts, s, w);
    var t := s.pcs[w].task;
    assert PcOk(ts, s.pcs[w]);
    assert s.loc[t] == Active(w);
    PresentUpdate(s.pcs, w, s'.pcs[w]);
    forall i | 0 <= i < |ts| && i in s.pcs[w].newly ensures s.loc[i] == Held(w) {
      assert InNewly(s.pcs[w], i);
    }
    assert t in Unfinished(s.loc);
    assert Unfinished(s'.loc) == Unfinished(s.loc) - {t};
  }

  lemma {:induction false} DecrementLowers(ts: seq<Task>, s: State, w: nat)
    requires Shape(ts, s) && BlockedExact(s) && w < |s.pcs| && s.pcs[w].Decrementing? && Shape(ts, StepFinish(ts, s, w))
    requires s.pcs[w].k < |Dependents(DepsOf(ts), s.pcs[w].task)|
    ensures Lower(ts, StepFinish(ts, s, w), s)
  {
    var s' := StepFinish(ts, s, w);
    assert PcOk(ts, s.pcs[w]) && PcOk(ts, s'.pcs[w]);
    NextDependent(ts, s.pcs[w]);
    assert Unfinished(s'.loc) == Unfinished(s.loc);
    QuietDecreases(ts, s, s', w);
  }

  lemma {:induction false} PopLowers(ts: seq<Task>, s: State, w: nat)
    requires Shape(ts, s) && Placed(ts, s) && w < |s.pcs| && s.pcs[w].Holding? && s.queue != [] && s.queue[0] < |ts|
    requires Shape(ts, StepTake(s, w))
    ensures Lower(ts, StepTake(s, w), s)
  {
    var s' := StepTake(s, w);
    var t := s.queue[0];
    assert PcOk(ts, s'.pcs[w]) && PcOk(ts, s.pcs[w]);
    assert t in s.queue;
    assert s.loc[t] == Queued;
    assert Unfinished(s'.loc) == Unfinished(s.loc);
    RoomFor(ts, |ts|, t);
    QuietDecreases(ts, s, s', w);
  }

  lemma {:induction false} IdleLowers(ts: seq<Task>, s: State, w: nat)
    requires Shape(ts, s) && w < |s.pcs| && s.pcs[w].Holding? && s.queue == [] && Shape(ts, StepTake(s, w))
    ensures Lower(ts, StepTake(s, w), s)
  {
    var s' := StepTake(s, w);
    assert PcOk(ts, s'.pcs[w]) && PcOk(ts, s.pcs[w]);
    if s.inFlight == 0 {
      PresentUpdate(s.pcs, w, Returned);
    } else {
      QuietDecreases(ts, s, s', w);
    }
  }

  lemma {:induction false} OneCellLowers(ts: seq<Task>, s: State, w: nat, ok: bool)
    requires Shape(ts, s) && w < |s.pcs| && OneCell(s.pcs[w]) && PcOk(ts, s.pcs[w])
    requires Shape(ts, StepOneCell(ts, s, w, ok))
    ensures Lower(ts, StepOneCell(ts, s, w, ok), s)
  {
    var s' := StepOneCell(ts, s, w, ok);
    assert PcOk(ts, s'.pcs[w]);
    QuietDecreases(ts, s, s', w);
  }

  lemma {:induction false} LeaveLowers(ts: seq<Task>, s: State, w: nat)
    requires Shape(ts, s) && Placed(ts, s) && w < |s.pcs| && s.pcs[w].Leaving? && s.pcs[w].task < |ts|
    requires Shape(ts, StepLeave(s, w))
    ensures Lower(ts, StepLeave(s, w), s)
  {
    PresentUpdate(s.pcs, w, Returned);
    assert s.loc[s.pcs[w].task] == Active(w);
    assert Unfinished(StepLeave(s, w).loc) == Unfinished(s.loc) - {s.pcs[w].task};
  }

  // Every step that is not a spurious wake-up is progress.
  lemma {:induction false} StepLowers(ts: seq<Task>, jobs: nat, s: State, w: nat, ok: bool)
    requires Reachable(ts, jobs, s) && CanStep(ts, s, w)
    ensures Shape(ts, Step(ts, s, w, ok)) && Lower(ts, Step(ts, s, w, ok), s)
  {
    ReachableInv(ts, jobs, s);
    StepShape(ts, s, w, ok);
    assert PcOk(ts, s.pcs[w]);
    if s.pcs[w].Holding? {
      if s.queue != [] {
        assert s.queue[0] in s.queue;
        PopLowers(ts, s, w);
      } else {
        IdleLowers(ts, s, w);
      }
    } else if s.pcs[w].Admitting? {
      AdmitLowers(ts, s, w);
    } else if s.pcs[w].Decrementing? {
      if s.pcs[w].k < |Dependents(DepsOf(ts), s.pcs[w].task)| {
        DecrementLowers(ts, s, w);
      } else {
        PublishLowers(ts, s, w);
      }
    } else if s.pcs[w].Leaving? {
      LeaveLowers(ts, s, w);
    } else {
      OneCellLowers(ts, s, w, ok);
    }
  }

  lemma {:induction false} AdmitLowers(ts: seq<Task>, s: State, w: nat)
    requires Shape(ts, s) && w < |s.pcs| && s.pcs[w].Admitting? && Shape(ts, StepAdmit(ts, s, w))
    ensures Lower(ts, StepAdmit(ts, s, w), s)
  {
    assert PcOk(ts, StepAdmit(ts, s, w).pcs[w]) && PcOk(ts, s.pcs[w]);
    QuietDecreases(ts, s, StepAdmit(ts, s, w), w);
  }
}
