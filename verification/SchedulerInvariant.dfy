/** Every step of every worker keeps the scheduler's invariant. */
module SchedulerInvariant {
  import opened Digraph
  import opened Tasks
  import opened Scheduler

  // ----- starting state -----

  lemma {:induction false} ReadyIdsExact(ts: seq<Task>, n: nat)
    requires n <= |ts|
    ensures NoDup(ReadyIds(ts, n))
    ensures forall i: nat :: i in ReadyIds(ts, n) <==> i < n && ts[i].deps == []
  {
    if n > 0 { ReadyIdsExact(ts, n - 1); }
  }

  lemma {:induction false} UnservedAtStart(g: Graph, cur: seq<nat>, i: nat)
    requires |cur| == |g| && i < |g|
    requires forall d :: 0 <= d < |g| ==> cur[d] == 0
    ensures |Unserved(g, cur, i)| == |g[i]|
  {
    forall m: nat ensures m in Unserved(g, cur, i) <==> m < |g[i]| {
      assert m < |g[i]| ==> !Served(g, cur, i, m);
    }
    AllIds(Unserved(g, cur, i), |g[i]|);
  }

  lemma {:induction false} TallyZero(ts: seq<Task>, s: State, n: nat)
    requires n <= |ts| == |s.loc|
    requires forall i :: 0 <= i < |ts| ==> !Tallied(s, i)
    ensures TallySum(ts, s, n) == 0
  {
    if n > 0 { TallyZero(ts, s, n - 1); }
  }

  lemma {:induction false} InitInv(ts: seq<Task>, jobs: nat)
    ensures Inv(ts, Init(ts, jobs))
  {
    InitCounted(ts, jobs);
    InitPlaced(ts, jobs);
    InitIdle(ts, jobs);
    TallyZero(ts, Init(ts, jobs), |ts|);
  }

  lemma {:induction false} InitPlaced(ts: seq<Task>, jobs: nat)
    ensures Shape(ts, Init(ts, jobs)) && Placed(ts, Init(ts, jobs))
  {
    ReadyIdsExact(ts, |ts|);
    assert Shape(ts, Init(ts, jobs));
  }

  lemma {:induction false} InitIdle(ts: seq<Task>, jobs: nat)
    requires Shape(ts, Init(ts, jobs))
    ensures var s := Init(ts, jobs);
            CountsRight(s) && Wakeful(s) && OneHolder(s.pcs) && Admission(ts, s) && Ordered(ts, s) && FailSlot(s)
  {
    var s := Init(ts, jobs);
    assert forall i :: 0 <= i < |ts| ==> s.loc[i] == Queued || s.loc[i] == Blocked;
    assert forall i :: 0 <= i < |ts| ==> !Passed(s, i);
    assert Holders(s.pcs) == {};
    assert DoneSet(s.loc) == {};
  }

  lemma {:induction false} InitCounted(ts: seq<Task>, jobs: nat)
    ensures Shape(ts, Init(ts, jobs)) && Counted(ts, Init(ts, jobs)) && BlockedExact(Init(ts, jobs))
  {
    var s := Init(ts, jobs);
    var g := DepsOf(ts);
    ReadyIdsExact(ts, |ts|);
    assert Shape(ts, s);
    forall i | 0 <= i < |ts|
      ensures s.pending[i] == |Unserved(g, Cursors(ts, s), i)|
    {
      UnservedAtStart(g, Cursors(ts, s), i);
    }
  }

  // ----- one step -----

  lemma {:induction false} NextDependent(ts: seq<Task>, pc: Pc)
    requires PcOk(ts, pc) && pc.Decrementing? && pc.k < |Dependents(DepsOf(ts), pc.task)|
    ensures IsOcc(DepsOf(ts), pc.task, Dependents(DepsOf(ts), pc.task)[pc.k])
  {
    DependentsExact(DepsOf(ts), pc.task);
  }

  lemma {:induction false} TakeShape(ts: seq<Task>, s: State, w: nat)
    requires Shape(ts, s) && w < |s.pcs| && (s.queue != [] ==> s.queue[0] < |ts|)
    ensures Shape(ts, StepTake(s, w))
  {
    var s' := StepTake(s, w);
    assert forall v :: 0 <= v < |s.pcs| && v != w ==> s'.pcs[v] == s.pcs[v] || s'.pcs[v] == Acquire;
    assert forall i :: i in s'.queue ==> i in s.queue;
  }

  lemma {:induction false} FinishShape(ts: seq<Task>, s: State, w: nat)
    requires Shape(ts, s) && w < |s.pcs| && s.pcs[w].Decrementing?
    ensures Shape(ts, StepFinish(ts, s, w))
  {
    var s' := StepFinish(ts, s, w);
    var pc := s.pcs[w];
    assert PcOk(ts, pc);
    if pc.k < |Dependents(DepsOf(ts), pc.task)| {
      NextDependent(ts, pc);
    } else {
      assert forall i :: i in s'.queue ==> i in s.queue || i in pc.newly;
    }
    assert PcOk(ts, s'.pcs[w]);
    assert forall v :: 0 <= v < |s.pcs| && v != w ==> s'.pcs[v] == s.pcs[v] || s'.pcs[v] == Acquire;
  }

  lemma {:induction false} OneCellShape(ts: seq<Task>, s: State, w: nat, ok: bool)
    requires Shape(ts, s) && w < |s.pcs| && OneCell(s.pcs[w])
    ensures Shape(ts, StepOneCell(ts, s, w, ok))
  {
    var s' := StepOneCell(ts, s, w, ok);
    assert PcOk(ts, s.pcs[w]);
    assert PcOk(ts, s'.pcs[w]);
  }

  lemma {:induction false} StepShape(ts: seq<Task>, s: State, w: nat, ok: bool)
    requires CanStep(ts, s, w)
    ensures Shape(ts, Step(ts, s, w, ok))
  {
    assert PcOk(ts, s.pcs[w]);
    if s.pcs[w].Holding? {
      assert s.queue != [] ==> s.queue[0] in s.queue;
      TakeShape(ts, s, w);
    } else if s.pcs[w].Admitting? {
    } else if s.pcs[w].Decrementing? {
      FinishShape(ts, s, w);
    } else if s.pcs[w].Leaving? {
      assert forall v :: 0 <= v < |s.pcs| && v != w ==>
        StepLeave(s, w).pcs[v] == s.pcs[v] || StepLeave(s, w).pcs[v] == Acquire;
    } else {
      OneCellShape(ts, s, w, ok);
    }
  }

  // `Placed` says where each task is; only taking, decrementing, publishing and leaving move one.
  lemma {:induction false} TakePlaced(ts: seq<Task>, s: State, w: nat)
    requires Shape(ts, s) && Placed(ts, s) && w < |s.pcs| && s.pcs[w].Holding?
    requires s.queue != [] && s.queue[0] < |ts| && Shape(ts, StepTake(s, w))
    ensures Placed(ts, StepTake(s, w))
  {
    var s' := StepTake(s, w);
    var t := s.queue[0];
    assert t in s.queue && s.loc[t] == Queued;
    forall i | 0 <= i < |ts| ensures s'.loc[i] == Queued <==> i in s'.queue {
      assert i in s.queue <==> i == t || i in s.queue[1..];
    }
    forall i, v | 0 <= i < |ts| && 0 <= v < |s.pcs|
      ensures s'.loc[i] == Held(v) <==> InNewly(s'.pcs[v], i)
      ensures s'.loc[i] == Active(v) <==> HasTask(s'.pcs[v]) && s'.pcs[v].task == i
    {
      assert !InNewly(s.pcs[v], t);
      assert s.loc[t] == Active(v) <==> HasTask(s.pcs[v]) && s.pcs[v].task == t;
    }
  }

  lemma {:induction false} DecrementPlaced(ts: seq<Task>, s: State, w: nat)
    requires Shape(ts, s) && Placed(ts, s) && BlockedExact(s) && w < |s.pcs| && s.pcs[w].Decrementing?
    requires s.pcs[w].k < |Dependents(DepsOf(ts), s.pcs[w].task)| && Shape(ts, StepFinish(ts, s, w))
    ensures Placed(ts, StepFinish(ts, s, w))
  {
    var s' := StepFinish(ts, s, w);
    var t := s.pcs[w].task;
    NextDependent(ts, s.pcs[w]);
    var x := Dependents(DepsOf(ts), t)[s.pcs[w].k].0;
    if s.pending[x] == 1 {
      assert s.loc[x] == Blocked;
      forall i, v | 0 <= i < |ts| && 0 <= v < |s.pcs|
        ensures s'.loc[i] == Held(v) <==> InNewly(s'.pcs[v], i)
        ensures s'.loc[i] == Active(v) <==> HasTask(s'.pcs[v]) && s'.pcs[v].task == i
      {
        assert s.loc[i] == Held(v) <==> InNewly(s.pcs[v], i);
        assert s.loc[i] == Active(v) <==> HasTask(s.pcs[v]) && s.pcs[v].task == i;
      }
      assert !InNewly(s.pcs[w], x);
    }
  }

  lemma {:induction false} PublishPlaced(ts: seq<Task>, s: State, w: nat)
    requires Shape(ts, s) && Placed(ts, s) && w < |s.pcs| && s.pcs[w].Decrementing?
    requires s.pcs[w].k == |Dependents(DepsOf(ts), s.pcs[w].task)| && Shape(ts, StepFinish(ts, s, w))
    ensures Placed(ts, StepFinish(ts, s, w))
  {
    var s' := StepFinish(ts, s, w);
    var t, newly := s.pcs[w].task, s.pcs[w].newly;
    assert s.loc[t] == Active(w);
    assert !InNewly(s.pcs[w], t);
    forall i | 0 <= i < |ts| ensures i in newly <==> s.loc[i] == Held(w) {
      assert s.loc[i] == Held(w) <==> InNewly(s.pcs[w], i);
    }
    forall i, v | 0 <= i < |ts| && 0 <= v < |s.pcs|
      ensures s'.loc[i] == Held(v) <==> InNewly(s'.pcs[v], i)
      ensures s'.loc[i] == Active(v) <==> HasTask(s'.pcs[v]) && s'.pcs[v].task == i
    {
      assert s.loc[i] == Held(v) <==> InNewly(s.pcs[v], i);
      assert s.loc[i] == Active(v) <==> HasTask(s.pcs[v]) && s.pcs[v].task == i;
    }
    forall i | 0 <= i < |ts| ensures s'.loc[i] == Queued <==> i in s'.queue {
      assert i in s'.queue <==> i in s.queue || i in newly;
    }
    forall a, b | 0 <= a < b < |s'.queue| ensures s'.queue[a] != s'.queue[b] {
      if a < |s.queue| <= b {
        assert s'.queue[a] in s.queue && s'.queue[b] in newly;
      }
    }
  }

  // A step that moves no task.
  lemma {:induction false} SamePlaces(ts: seq<Task>, s: State, s': State)
    requires Shape(ts, s) && Placed(ts, s) && Shape(ts, s')
    requires s'.loc == s.loc && s'.queue == s.queue && |s'.pcs| == |s.pcs|
    requires forall v :: 0 <= v < |s.pcs| ==>
               && HasTask(s'.pcs[v]) == HasTask(s.pcs[v])
               && (HasTask(s.pcs[v]) ==> s'.pcs[v].task == s.pcs[v].task)
               && Newly(s'.pcs[v]) == Newly(s.pcs[v])
    ensures Placed(ts, s')
  {
    forall i, v | 0 <= i < |ts| && 0 <= v < |s.pcs|
      ensures s'.loc[i] == Held(v) <==> InNewly(s'.pcs[v], i)
      ensures s'.loc[i] == Active(v) <==> HasTask(s'.pcs[v]) && s'.pcs[v].task == i
    {
      assert s.loc[i] == Held(v) <==> InNewly(s.pcs[v], i);
      assert s.loc[i] == Active(v) <==> HasTask(s.pcs[v]) && s.pcs[v].task == i;
      assert InNewly(s.pcs[v], i) <==> i in Newly(s.pcs[v]);
      assert InNewly(s'.pcs[v], i) <==> i in Newly(s'.pcs[v]);
    }
    forall v | 0 <= v < |s.pcs| && s'.pcs[v].Decrementing? ensures NoDup(s'.pcs[v].newly) {
      assert s'.pcs[v].newly == Newly(s.pcs[v]);
    }
  }

  function Newly(pc: Pc): seq<nat> {
    if pc.Decrementing? then pc.newly else []
  }

  lemma {:induction false} LeavePlaced(ts: seq<Task>, s: State, w: nat)
    requires Shape(ts, s) && Placed(ts, s) && w < |s.pcs| && s.pcs[w].Leaving?
    requires s.pcs[w].task < |ts| && Shape(ts, StepLeave(s, w))
    ensures Placed(ts, StepLeave(s, w))
  {
    var s' := StepLeave(s, w);
    assert s.loc[s.pcs[w].task] == Active(w);
    forall i, v | 0 <= i < |ts| && 0 <= v < |s.pcs|
      ensures s'.loc[i] == Held(v) <==> InNewly(s'.pcs[v], i)
      ensures s'.loc[i] == Active(v) <==> HasTask(s'.pcs[v]) && s'.pcs[v].task == i
    {
      assert s.loc[i] == Held(v) <==> InNewly(s.pcs[v], i);
      assert s.loc[i] == Active(v) <==> HasTask(s.pcs[v]) && s.pcs[v].task == i;
    }
  }

  lemma {:induction false} OneCellPlaced(ts: seq<Task>, s: State, w: nat, ok: bool)
    requires Shape(ts, s) && Placed(ts, s) && w < |s.pcs| && OneCell(s.pcs[w]) && PcOk(ts, s.pcs[w])
    requires Shape(ts, StepOneCell(ts, s, w, ok))
    ensures Placed(ts, StepOneCell(ts, s, w, ok))
  {
    SamePlaces(ts, s, StepOneCell(ts, s, w, ok));
  }

  lemma {:induction false} IdlePlaced(ts: seq<Task>, s: State, w: nat)
    requires Shape(ts, s) && Placed(ts, s) && w < |s.pcs| && s.pcs[w].Holding? && s.queue == []
    requires Shape(ts, StepTake(s, w))
    ensures Placed(ts, StepTake(s, w))
  {
    SamePlaces(ts, s, StepTake(s, w));
  }

  lemma {:induction false} AdmitPlaced(ts: seq<Task>, s: State, w: nat)
    requires Shape(ts, s) && Placed(ts, s) && w < |s.pcs| && s.pcs[w].Admitting?
    requires Shape(ts, StepAdmit(ts, s, w))
    ensures Placed(ts, StepAdmit(ts, s, w))
  {
    SamePlaces(ts, s, StepAdmit(ts, s, w));
  }

  lemma {:induction false} StepPlaced(ts: seq<Task>, s: State, w: nat, ok: bool)
    requires CanStep(ts, s, w) && Placed(ts, s) && BlockedExact(s)
    ensures Shape(ts, Step(ts, s, w, ok)) && Placed(ts, Step(ts, s, w, ok))
  {
    StepShape(ts, s, w, ok);
    assert PcOk(ts, s.pcs[w]);
    if s.pcs[w].Holding? {
      if s.queue != [] {
        assert s.queue[0] in s.queue;
        TakePlaced(ts, s, w);
      } else {
        IdlePlaced(ts, s, w);
      }
    } else if s.pcs[w].Admitting? {
      AdmitPlaced(ts, s, w);
    } else if s.pcs[w].Decrementing? {
      if s.pcs[w].k < |Dependents(DepsOf(ts), s.pcs[w].task)| {
        DecrementPlaced(ts, s, w);
      } else {
        PublishPlaced(ts, s, w);
      }
    } else if s.pcs[w].Leaving? {
      LeavePlaced(ts, s, w);
    } else {
      OneCellPlaced(ts, s, w, ok);
    }
  }

  // ----- counters -----

  // The number of decrements a worker has made on behalf of the task it holds.
  function Given(pc: Pc): nat {
    if pc.Decrementing? then pc.k else 0
  }

  lemma {:induction false} SameCursors(ts: seq<Task>, s: State, s': State)
    requires Shape(ts, s) && Placed(ts, s) && Shape(ts, s') && Placed(ts, s') && |s'.pcs| == |s.pcs|
    requires forall d :: 0 <= d < |ts| ==>
               || s'.loc[d] == s.loc[d]
               || (!s.loc[d].Active? && !s.loc[d].Done? && !s'.loc[d].Active? && !s'.loc[d].Done?)
    requires forall v :: 0 <= v < |s.pcs| ==> Given(s'.pcs[v]) == Given(s.pcs[v])
    ensures Cursors(ts, s') == Cursors(ts, s)
  {
    forall d | 0 <= d < |ts| ensures Cursor(ts, s', d) == Cursor(ts, s, d) {
      if s.loc[d].Active? {
        var v := s.loc[d].w;
        assert s.loc[d] == Active(v) && s'.loc[d] == Active(v);
      }
    }
  }

  lemma {:induction false} TakeCursors(ts: seq<Task>, s: State, w: nat)
    requires Shape(ts, s) && Placed(ts, s) && w < |s.pcs| && s.pcs[w].Holding?
    requires s.queue != [] && s.queue[0] < |ts| && Shape(ts, StepTake(s, w))
    ensures Cursors(ts, StepTake(s, w)) == Cursors(ts, s)
  {
    var s' := StepTake(s, w);
    forall d | 0 <= d < |ts| ensures Cursor(ts, s', d) == Cursor(ts, s, d) {
      assert s.queue[0] in s.queue;
    }
  }

  lemma {:induction false} PublishCursors(ts: seq<Task>, s: State, w: nat)
    requires Shape(ts, s) && Placed(ts, s) && w < |s.pcs| && s.pcs[w].Decrementing?
    requires s.pcs[w].k >= |Dependents(DepsOf(ts), s.pcs[w].task)| && Shape(ts, StepFinish(ts, s, w))
    ensures Cursors(ts, StepFinish(ts, s, w)) == Cursors(ts, s)
  {
    var s' := StepFinish(ts, s, w);
    var t := s.pcs[w].task;
    assert PcOk(ts, s.pcs[w]);
    assert s.loc[t] == Active(w);
    forall d | 0 <= d < |ts| ensures Cursor(ts, s', d) == Cursor(ts, s, d) {
      if d in s.pcs[w].newly {
        assert InNewly(s.pcs[w], d);
        assert s.loc[d] == Held(w);
      }
      if s.loc[d].Active? {
        var v := s.loc[d].w;
        assert s.loc[d] == Active(v);
        assert s.loc[d] == Active(w) <==> HasTask(s.pcs[w]) && s.pcs[w].task == d;
      }
    }
  }

  lemma {:induction false} LeaveCursors(ts: seq<Task>, s: State, w: nat)
    requires Shape(ts, s) && Placed(ts, s) && w < |s.pcs| && s.pcs[w].Leaving?
    requires s.pcs[w].task < |ts| && Shape(ts, StepLeave(s, w))
    ensures Cursors(ts, StepLeave(s, w)) == Cursors(ts, s)
  {
    var s' := StepLeave(s, w);
    assert s.loc[s.pcs[w].task] == Active(w);
    forall d | 0 <= d < |ts| ensures Cursor(ts, s', d) == Cursor(ts, s, d) {
      if s.loc[d].Active? {
        var v := s.loc[d].w;
        assert s.loc[d] == Active(v);
        assert s.loc[d] == Active(w) <==> HasTask(s.pcs[w]) && s.pcs[w].task == d;
      }
    }
  }

  // One more decrement on behalf of `t` serves exactly one more dependency.
  lemma {:induction false} OneMoreServed(g: Graph, cur: seq<nat>, t: nat, x: nat, m: nat)
    requires |cur| == |g| && t < |g| && cur[t] < |Dependents(g, t)| && Dependents(g, t)[cur[t]] == (x, m)
    ensures IsOcc(g, t, (x, m))
    ensures m in Unserved(g, cur, x)
    ensures forall i :: 0 <= i < |g| ==>
              Unserved(g, cur[t := cur[t] + 1], i) == if i == x then Unserved(g, cur, i) - {m} else Unserved(g, cur, i)
  {
    var ds := Dependents(g, t);
    var k := cur[t];
    DependentsExact(g, t);
    assert IsOcc(g, t, ds[k]);
    assert ds[..k + 1] == ds[..k] + [(x, m)];
    assert (x, m) !in ds[..k];
    var cur' := cur[t := k + 1];
    forall i, j | 0 <= i < |g| && 0 <= j < |g[i]|
      ensures Served(g, cur', i, j) <==> Served(g, cur, i, j) || (i, j) == (x, m)
    {
    }
  }

  lemma {:induction false} DecrementCounted(ts: seq<Task>, s: State, w: nat)
    requires Shape(ts, s) && Placed(ts, s) && Counted(ts, s) && BlockedExact(s) && w < |s.pcs| && s.pcs[w].Decrementing?
    requires s.pcs[w].k < |Dependents(DepsOf(ts), s.pcs[w].task)| && Shape(ts, StepFinish(ts, s, w))
    ensures var x := Dependents(DepsOf(ts), s.pcs[w].task)[s.pcs[w].k].0; x < |ts| && s.pending[x] > 0
    ensures Counted(ts, StepFinish(ts, s, w)) && BlockedExact(StepFinish(ts, s, w))
  {
    var s' := StepFinish(ts, s, w);
    var g, t, k := DepsOf(ts), s.pcs[w].task, s.pcs[w].k;
    var (x, m) := Dependents(g, t)[k];
    var cur := Cursors(ts, s);
    assert s.loc[t] == Active(w);
    OneMoreServed(g, cur, t, x, m);
    assert Unserved(g, cur, x) != {};
    assert s.loc[x] == Blocked;
    forall d | 0 <= d < |ts| ensures Cursor(ts, s', d) == cur[t := k + 1][d] {
      if s.loc[d].Active? {
        var v := s.loc[d].w;
        assert s.loc[d] == Active(v);
        assert s.loc[d] == Active(w) <==> HasTask(s.pcs[w]) && s.pcs[w].task == d;
      }
    }
    assert Cursors(ts, s') == cur[t := k + 1];
    forall i | 0 <= i < |g| ensures s'.pending[i] == |Unserved(g, Cursors(ts, s'), i)| {
      assert s.pending[i] == |Unserved(g, cur, i)|;
    }
  }

  lemma {:induction false} PublishBlocked(ts: seq<Task>, s: State, w: nat)
    requires Shape(ts, s) && Placed(ts, s) && BlockedExact(s) && w < |s.pcs| && s.pcs[w].Decrementing?
    requires s.pcs[w].k >= |Dependents(DepsOf(ts), s.pcs[w].task)|
    ensures BlockedExact(StepFinish(ts, s, w))
  {
    var s' := StepFinish(ts, s, w);
    assert PcOk(ts, s.pcs[w]);
    assert s.loc[s.pcs[w].task] == Active(w);
    forall i | 0 <= i < |ts| && i in s.pcs[w].newly ensures s.loc[i] == Held(w) {
      assert InNewly(s.pcs[w], i);
    }
  }

  lemma {:induction false} TakeCounted(ts: seq<Task>, s: State, w: nat)
    requires Shape(ts, s) && Placed(ts, s) && BlockedExact(s) && Counted(ts, s) && w < |s.pcs| && s.pcs[w].Holding?
    requires (s.queue != [] ==> s.queue[0] < |ts|) && Shape(ts, StepTake(s, w)) && Placed(ts, StepTake(s, w))
    ensures BlockedExact(StepTake(s, w)) && Counted(ts, StepTake(s, w))
  {
    if s.queue != [] {
      assert s.queue[0] in s.queue;
      TakeCursors(ts, s, w);
    } else {
      SameCursors(ts, s, StepTake(s, w));
    }
  }

  lemma {:induction false} FinishCounted(ts: seq<Task>, s: State, w: nat)
    requires Shape(ts, s) && Placed(ts, s) && BlockedExact(s) && Counted(ts, s) && w < |s.pcs| && s.pcs[w].Decrementing?
    requires Shape(ts, StepFinish(ts, s, w))
    ensures BlockedExact(StepFinish(ts, s, w)) && Counted(ts, StepFinish(ts, s, w))
  {
    if s.pcs[w].k < |Dependents(DepsOf(ts), s.pcs[w].task)| {
      DecrementCounted(ts, s, w);
    } else {
      PublishCursors(ts, s, w);
      PublishBlocked(ts, s, w);
    }
  }

  lemma {:induction false} LeaveCounted(ts: seq<Task>, s: State, w: nat)
    requires Shape(ts, s) && Placed(ts, s) && BlockedExact(s) && Counted(ts, s) && w < |s.pcs| && s.pcs[w].Leaving?
    requires s.pcs[w].task < |ts| && Shape(ts, StepLeave(s, w))
    ensures BlockedExact(StepLeave(s, w)) && Counted(ts, StepLeave(s, w))
  {
    LeaveCursors(ts, s, w);
    assert s.loc[s.pcs[w].task] == Active(w);
  }

  // Setting a flag or moving one program counter touches no counter.
  lemma {:induction false} AdmitCounted(ts: seq<Task>, s: State, w: nat)
    requires Shape(ts, s) && Placed(ts, s) && BlockedExact(s) && Counted(ts, s) && w < |s.pcs| && s.pcs[w].Admitting?
    requires Shape(ts, StepAdmit(ts, s, w)) && Placed(ts, StepAdmit(ts, s, w))
    ensures BlockedExact(StepAdmit(ts, s, w)) && Counted(ts, StepAdmit(ts, s, w))
  {
    SameCursors(ts, s, StepAdmit(ts, s, w));
  }

  lemma {:induction false} OneCellCounted(ts: seq<Task>, s: State, w: nat, ok: bool)
    requires Shape(ts, s) && Placed(ts, s) && BlockedExact(s) && Counted(ts, s)
    requires w < |s.pcs| && OneCell(s.pcs[w]) && PcOk(ts, s.pcs[w])
    requires Shape(ts, StepOneCell(ts, s, w, ok)) && Placed(ts, StepOneCell(ts, s, w, ok))
    ensures BlockedExact(StepOneCell(ts, s, w, ok)) && Counted(ts, StepOneCell(ts, s, w, ok))
  {
    SameCursors(ts, s, StepOneCell(ts, s, w, ok));
  }

  lemma {:induction false} StepCounted(ts: seq<Task>, s: State, w: nat, ok: bool)
    requires CanStep(ts, s, w) && Placed(ts, s) && BlockedExact(s) && Counted(ts, s)
    requires Shape(ts, Step(ts, s, w, ok)) && Placed(ts, Step(ts, s, w, ok))
    ensures BlockedExact(Step(ts, s, w, ok)) && Counted(ts, Step(ts, s, w, ok))
  {
    assert PcOk(ts, s.pcs[w]);
    if s.pcs[w].Holding? {
      assert s.queue != [] ==> s.queue[0] in s.queue;
      TakeCounted(ts, s, w);
    } else if s.pcs[w].Admitting? {
      AdmitCounted(ts, s, w);
    } else if s.pcs[w].Decrementing? {
      FinishCounted(ts, s, w);
    } else if s.pcs[w].Leaving? {
      LeaveCounted(ts, s, w);
    } else {
      OneCellCounted(ts, s, w, ok);
    }
  }

  // ----- counts, waiting and the lock -----

  lemma {:induction false} HoldersUpdate(pcs: seq<Pc>, w: nat, pc: Pc)
    requires w < |pcs|
    ensures HasTask(pcs[w]) == HasTask(pc) ==> |Holders(pcs[w := pc])| == |Holders(pcs)|
    ensures !HasTask(pcs[w]) && HasTask(pc) ==> |Holders(pcs[w := pc])| == |Holders(pcs)| + 1
    ensures HasTask(pcs[w]) && !HasTask(pc) ==> |Holders(pcs[w := pc])| == |Holders(pcs)| - 1
    ensures |Holders(NotifyAll(pcs)[w := pc])| == |Holders(pcs[w := pc])|
    ensures HasTask(pcs[w]) ==> |Holders(pcs)| > 0
  {
    var a, b := Holders(pcs), Holders(pcs[w := pc]);
    assert w in a <==> HasTask(pcs[w]);
    forall v: nat ensures v in b <==> if v == w then HasTask(pc) else v in a {}
    FlipOne(a, b, w);
    assert Holders(NotifyAll(pcs)[w := pc]) == b;
  }

  // Sets that differ in at most `x`.
  lemma {:induction false} FlipOne(a: set<nat>, b: set<nat>, x: nat)
    requires forall v: nat :: v != x ==> (v in a <==> v in b)
    ensures |a| - (if x in a then 1 else 0) == |b| - (if x in b then 1 else 0) >= 0
  {
    assert a - {x} == b - {x};
    assert x in a ==> a == (a - {x}) + {x};
    assert x in b ==> b == (b - {x}) + {x};
    assert x !in a ==> a == a - {x};
    assert x !in b ==> b == b - {x};
  }

  lemma {:induction false} TakeCounts(ts: seq<Task>, s: State, w: nat)
    requires Shape(ts, s) && Placed(ts, s) && CountsRight(s) && w < |s.pcs| && s.pcs[w].Holding?
    requires s.queue != [] ==> s.queue[0] < |ts|
    ensures CountsRight(StepTake(s, w))
  {
    var s' := StepTake(s, w);
    HoldersUpdate(s.pcs, w, s'.pcs[w]);
    if s.queue != [] {
      assert s.queue[0] in s.queue;
      assert DoneSet(s'.loc) == DoneSet(s.loc);
    }
  }

  lemma {:induction false} DecrementCounts(ts: seq<Task>, s: State, w: nat)
    requires Shape(ts, s) && Placed(ts, s) && BlockedExact(s) && CountsRight(s) && w < |s.pcs| && s.pcs[w].Decrementing?
    requires s.pcs[w].k < |Dependents(DepsOf(ts), s.pcs[w].task)|
    ensures CountsRight(StepFinish(ts, s, w))
  {
    var s' := StepFinish(ts, s, w);
    NextDependent(ts, s.pcs[w]);
    HoldersUpdate(s.pcs, w, s'.pcs[w]);
    assert DoneSet(s'.loc) == DoneSet(s.loc);
  }

  lemma {:induction false} PublishCounts(ts: seq<Task>, s: State, w: nat)
    requires Shape(ts, s) && Placed(ts, s) && CountsRight(s) && w < |s.pcs| && s.pcs[w].Decrementing?
    requires s.pcs[w].k >= |Dependents(DepsOf(ts), s.pcs[w].task)|
    ensures CountsRight(StepFinish(ts, s, w))
  {
    var s' := StepFinish(ts, s, w);
    var t := s.pcs[w].task;
    assert PcOk(ts, s.pcs[w]);
    HoldersUpdate(s.pcs, w, s'.pcs[w]);
    assert s.loc[t] == Active(w);
    forall i | 0 <= i < |ts| && i in s.pcs[w].newly ensures s.loc[i] == Held(w) {
      assert InNewly(s.pcs[w], i);
    }
    assert DoneSet(s'.loc) == DoneSet(s.loc) + {t};
  }

  lemma {:induction false} LeaveCounts(ts: seq<Task>, s: State, w: nat)
    requires Shape(ts, s) && Placed(ts, s) && CountsRight(s) && w < |s.pcs| && s.pcs[w].Leaving? && s.pcs[w].task < |ts|
    ensures CountsRight(StepLeave(s, w))
  {
    HoldersUpdate(s.pcs, w, Returned);
    assert s.loc[s.pcs[w].task] == Active(w);
    assert DoneSet(StepLeave(s, w).loc) == DoneSet(s.loc);
  }

  lemma {:induction false} OneCellCounts(ts: seq<Task>, s: State, w: nat, ok: bool)
    requires w < |s.pcs| && OneCell(s.pcs[w]) && PcOk(ts, s.pcs[w]) && CountsRight(s)
    ensures CountsRight(StepOneCell(ts, s, w, ok))
  {
    HoldersUpdate(s.pcs, w, StepOneCell(ts, s, w, ok).pcs[w]);
  }

  lemma {:induction false} StepCounts(ts: seq<Task>, s: State, w: nat, ok: bool)
    requires CanStep(ts, s, w) && Placed(ts, s) && BlockedExact(s) && CountsRight(s)
    ensures CountsRight(Step(ts, s, w, ok))
  {
    assert PcOk(ts, s.pcs[w]);
    if s.pcs[w].Holding? {
      assert s.queue != [] ==> s.queue[0] in s.queue;
      TakeCounts(ts, s, w);
    } else if s.pcs[w].Admitting? {
      HoldersUpdate(s.pcs, w, StepAdmit(ts, s, w).pcs[w]);
    } else if s.pcs[w].Decrementing? {
      if s.pcs[w].k < |Dependents(DepsOf(ts), s.pcs[w].task)| {
        DecrementCounts(ts, s, w);
      } else {
        PublishCounts(ts, s, w);
      }
    } else if s.pcs[w].Leaving? {
      LeaveCounts(ts, s, w);
    } else {
      OneCellCounts(ts, s, w, ok);
    }
  }

  lemma {:induction false} FinishWakeful(ts: seq<Task>, s: State, w: nat)
    requires Shape(ts, s) && CountsRight(s) && Wakeful(s) && w < |s.pcs| && s.pcs[w].Decrementing?
    ensures Wakeful(StepFinish(ts, s, w))
  {
    HoldersUpdate(s.pcs, w, Acquire);
    assert PcOk(ts, s.pcs[w]);
    if s.pcs[w].k < |Dependents(DepsOf(ts), s.pcs[w].task)| {
      NextDependent(ts, s.pcs[w]);
    } else {
      var s' := StepFinish(ts, s, w);
      assert forall v :: 0 <= v < |s.pcs| && s'.pcs[v].Returned? ==> s.pcs[v].Returned?;
      assert forall v :: 0 <= v < |s.pcs| ==> !s'.pcs[v].Waiting?;
    }
  }

  lemma {:induction false} LeaveWakeful(ts: seq<Task>, s: State, w: nat)
    requires FailSlot(s) && w < |s.pcs| && s.pcs[w].Leaving? && s.pcs[w].task < |s.loc|
    ensures Wakeful(StepLeave(s, w))
  {
    assert forall v :: 0 <= v < |s.pcs| ==> !StepLeave(s, w).pcs[v].Waiting?;
  }

  lemma {:induction false} TakeWakeful(s: State, w: nat)
    requires w < |s.pcs| && (s.queue != [] ==> s.queue[0] < |s.loc|)
    requires CountsRight(s) && Wakeful(s) && s.pcs[w].Holding?
    ensures Wakeful(StepTake(s, w))
  {
    var s' := StepTake(s, w);
    if s.queue == [] && s.inFlight == 0 {
      assert forall v :: 0 <= v < |s.pcs| ==> !s'.pcs[v].Waiting?;
    } else {
      assert forall v :: 0 <= v < |s.pcs| && v != w ==> s'.pcs[v] == s.pcs[v];
    }
  }

  lemma {:induction false} OneCellWakeful(ts: seq<Task>, s: State, w: nat, ok: bool)
    requires w < |s.pcs| && OneCell(s.pcs[w]) && PcOk(ts, s.pcs[w]) && Wakeful(s) && (s.cancelled ==> s.failure.Some?)
    ensures Wakeful(StepOneCell(ts, s, w, ok))
  {
    var s' := StepOneCell(ts, s, w, ok);
    assert forall v :: 0 <= v < |s.pcs| && v != w ==> s'.pcs[v] == s.pcs[v];
  }

  lemma {:induction false} StepWakeful(ts: seq<Task>, s: State, w: nat, ok: bool)
    requires CanStep(ts, s, w) && CountsRight(s) && Wakeful(s) && FailSlot(s)
    ensures Wakeful(Step(ts, s, w, ok))
  {
    assert PcOk(ts, s.pcs[w]);
    if s.pcs[w].Holding? {
      assert s.queue != [] ==> s.queue[0] in s.queue;
      TakeWakeful(s, w);
    } else if s.pcs[w].Admitting? {
    } else if s.pcs[w].Decrementing? {
      FinishWakeful(ts, s, w);
    } else if s.pcs[w].Leaving? {
      LeaveWakeful(ts, s, w);
    } else {
      OneCellWakeful(ts, s, w, ok);
    }
  }

  lemma {:induction false} StepOneHolder(ts: seq<Task>, s: State, w: nat, ok: bool)
    requires CanStep(ts, s, w) && OneHolder(s.pcs)
    ensures OneHolder(Step(ts, s, w, ok).pcs)
  {
    assert PcOk(ts, s.pcs[w]);
    var pcs' := Step(ts, s, w, ok).pcs;
    StepHolders(ts, s, w, ok);
    assert pcs'[w].Holding? ==> LockFree(s, w);
  }

  // A step makes nobody else a holder, and only an acquisition makes a holder at all.
  lemma {:induction false} StepHolders(ts: seq<Task>, s: State, w: nat, ok: bool)
    requires CanStep(ts, s, w)
    ensures var pcs' := Step(ts, s, w, ok).pcs;
            && |pcs'| == |s.pcs|
            && (forall v :: 0 <= v < |s.pcs| && v != w && pcs'[v].Holding? ==> s.pcs[v].Holding?)
            && (pcs'[w].Holding? ==> s.pcs[w].Acquire?)
  {
    assert PcOk(ts, s.pcs[w]);
  }

  // ----- admission -----

  // When a task is taken from the queue, everything it waits for has been checked and published its decrements.
  lemma {:induction false} ReadyMeansServed(ts: seq<Task>, s: State, i: nat, d: nat)
    requires Shape(ts, s) && Placed(ts, s) && BlockedExact(s) && Counted(ts, s)
    requires i < |ts| && s.loc[i] != Blocked && d in ts[i].deps
    ensures d < |ts| && (s.loc[d].Done? || (s.loc[d].Active? && s.pcs[s.loc[d].w].Decrementing?))
  {
    var g, cur := DepsOf(ts), Cursors(ts, s);
    var m :| 0 <= m < |g[i]| && g[i][m] == d;
    assert |Unserved(g, cur, i)| == 0;
    assert m !in Unserved(g, cur, i);
    assert Served(g, cur, i, m);
    assert cur[d] > 0;
  }

  lemma {:induction false} TakePassed(ts: seq<Task>, s: State, w: nat, i: nat)
    requires Shape(ts, s) && Placed(ts, s) && w < |s.pcs| && s.pcs[w].Holding?
    requires (s.queue != [] ==> s.queue[0] < |ts|) && Shape(ts, StepTake(s, w)) && i < |ts|
    ensures Passed(StepTake(s, w), i) ==> Passed(s, i)
  {
    assert s.queue != [] ==> s.queue[0] in s.queue;
    assert s.loc[i] != Active(w);
  }

  lemma {:induction false} TakeAdmission(ts: seq<Task>, s: State, w: nat)
    requires Shape(ts, s) && Placed(ts, s) && Admission(ts, s) && w < |s.pcs| && s.pcs[w].Holding?
    requires (s.queue != [] ==> s.queue[0] < |ts|) && Shape(ts, StepTake(s, w))
    ensures Admission(ts, StepTake(s, w))
  {
    var s' := StepTake(s, w);
    forall i | 0 <= i < |ts| && Passed(s', i) ensures Admitted(ts, s', i) {
      TakePassed(ts, s, w, i);
      assert Admitted(ts, s, i);
    }
  }

  lemma {:induction false} AdmitAdmission(ts: seq<Task>, s: State, w: nat)
    requires Shape(ts, s) && Placed(ts, s) && Admission(ts, s) && w < |s.pcs| && s.pcs[w].Admitting?
    requires Shape(ts, StepAdmit(ts, s, w))
    ensures Admission(ts, StepAdmit(ts, s, w))
  {
    var s' := StepAdmit(ts, s, w);
    var t, k := s.pcs[w].task, s.pcs[w].k;
    assert s.loc[t] == Active(w);
    var a := ts[t].admits;
    if k < |a| {
      assert a[..k + 1] == a[..k] + [a[k]];
    } else {
      assert a[..k] == a;
    }
    forall i | 0 <= i < |ts| && Passed(s', i) ensures Admitted(ts, s', i) {
      if i != t {
        if s.loc[i].Active? { assert s.loc[i] == Active(w) <==> HasTask(s.pcs[w]) && s.pcs[w].task == i; }
        assert Passed(s, i);
        assert Admitted(ts, s, i);
      }
    }
  }

  lemma {:induction false} FinishPassed(ts: seq<Task>, s: State, w: nat, i: nat)
    requires Shape(ts, s) && Placed(ts, s) && BlockedExact(s) && Counted(ts, s)
    requires w < |s.pcs| && s.pcs[w].Decrementing? && Shape(ts, StepFinish(ts, s, w))
    requires i < |ts| && Passed(StepFinish(ts, s, w), i)
    ensures Passed(s, i)
  {
    var s' := StepFinish(ts, s, w);
    assert PcOk(ts, s.pcs[w]);
    if s.pcs[w].k < |Dependents(DepsOf(ts), s.pcs[w].task)| { NextDependent(ts, s.pcs[w]); }
    assert s.loc[s.pcs[w].task] == Active(w);
    if s.loc[i].Active? { assert s.loc[i] == Active(w) <==> HasTask(s.pcs[w]) && s.pcs[w].task == i; }
    if i in s.pcs[w].newly { assert InNewly(s.pcs[w], i); }
  }

  lemma {:induction false} FinishAdmission(ts: seq<Task>, s: State, w: nat)
    requires Shape(ts, s) && Placed(ts, s) && BlockedExact(s) && Counted(ts, s) && Admission(ts, s)
    requires w < |s.pcs| && s.pcs[w].Decrementing? && Shape(ts, StepFinish(ts, s, w))
    ensures Admission(ts, StepFinish(ts, s, w))
  {
    var s' := StepFinish(ts, s, w);
    assert PcOk(ts, s.pcs[w]);
    if s.pcs[w].k < |Dependents(DepsOf(ts), s.pcs[w].task)| { NextDependent(ts, s.pcs[w]); }
    forall i | 0 <= i < |ts| && Passed(s', i) ensures Admitted(ts, s', i) {
      FinishPassed(ts, s, w, i);
      assert Admitted(ts, s, i);
    }
  }

  lemma {:induction false} OneCellPassed(ts: seq<Task>, s: State, w: nat, ok: bool, i: nat)
    requires Shape(ts, s) && Placed(ts, s) && w < |s.pcs| && OneCell(s.pcs[w]) && PcOk(ts, s.pcs[w])
    requires Shape(ts, StepOneCell(ts, s, w, ok)) && i < |ts|
    ensures Passed(StepOneCell(ts, s, w, ok), i) ==> Passed(s, i)
  {
    if s.loc[i].Active? { assert s.loc[i] == Active(w) <==> HasTask(s.pcs[w]) && s.pcs[w].task == i; }
  }

  lemma {:induction false} OneCellAdmission(ts: seq<Task>, s: State, w: nat, ok: bool)
    requires Shape(ts, s) && Placed(ts, s) && BlockedExact(s) && Counted(ts, s) && Admission(ts, s)
    requires w < |s.pcs| && OneCell(s.pcs[w]) && PcOk(ts, s.pcs[w]) && Shape(ts, StepOneCell(ts, s, w, ok))
    ensures Admission(ts, StepOneCell(ts, s, w, ok))
  {
    var s' := StepOneCell(ts, s, w, ok);
    forall i | 0 <= i < |ts| && Passed(s', i) ensures Admitted(ts, s', i) {
      OneCellPassed(ts, s, w, ok, i);
      assert Admitted(ts, s, i);
    }
    if s.pcs[w].Starting? && QuotDep(ts, s.pcs[w].task) {
      var t := s.pcs[w].task;
      var d :| d in ts[t].deps && d < |ts| && PublishesQuot(ts[d].kind);
      assert s.loc[t] == Active(w);
      ReadyMeansServed(ts, s, t, d);
      assert Passed(s, d);
      assert Admitted(ts, s, d);
    }
  }

  lemma {:induction false} LeaveAdmission(ts: seq<Task>, s: State, w: nat)
    requires Shape(ts, s) && Placed(ts, s) && Admission(ts, s) && w < |s.pcs| && s.pcs[w].Leaving?
    requires s.pcs[w].task < |ts| && Shape(ts, StepLeave(s, w))
    ensures Admission(ts, StepLeave(s, w))
  {
    var s' := StepLeave(s, w);
    forall i | 0 <= i < |ts| && Passed(s', i) ensures Admitted(ts, s', i) {
      assert Passed(s, i);
    }
  }

  lemma {:induction false} StepAdmission(ts: seq<Task>, s: State, w: nat, ok: bool)
    requires CanStep(ts, s, w) && Placed(ts, s) && BlockedExact(s) && Counted(ts, s) && Admission(ts, s)
    requires Shape(ts, Step(ts, s, w, ok))
    ensures Admission(ts, Step(ts, s, w, ok))
  {
    assert PcOk(ts, s.pcs[w]);
    if s.pcs[w].Holding? {
      assert s.queue != [] ==> s.queue[0] in s.queue;
      TakeAdmission(ts, s, w);
    } else if s.pcs[w].Admitting? {
      AdmitAdmission(ts, s, w);
    } else if s.pcs[w].Decrementing? {
      FinishAdmission(ts, s, w);
    } else if s.pcs[w].Leaving? {
      LeaveAdmission(ts, s, w);
    } else {
      OneCellAdmission(ts, s, w, ok);
    }
  }

  // ----- order -----

  lemma {:induction false} TakeOrdered(ts: seq<Task>, s: State, w: nat)
    requires Shape(ts, s) && Placed(ts, s) && BlockedExact(s) && Counted(ts, s) && Ordered(ts, s)
    requires w < |s.pcs| && s.pcs[w].Holding? && s.queue != [] && s.queue[0] < |ts| && Shape(ts, StepTake(s, w))
    ensures Ordered(ts, StepTake(s, w))
  {
    var s' := StepTake(s, w);
    var t := s.queue[0];
    assert t in s.queue && s.loc[t] == Queued && t !in s.order;
    forall i: nat ensures i in s'.order <==> i < |ts| && Popped(s'.loc[i]) {
      assert i in s'.order <==> i in s.order || i == t;
    }
    forall j, d | 0 <= j < |s'.order| && s'.order[j] < |ts| && d in ts[s'.order[j]].deps ensures d in s'.order[..j] {
      if j < |s.order| {
        assert s'.order[..j] == s.order[..j];
      } else {
        ReadyMeansServed(ts, s, t, d);
        assert s'.order[..j] == s.order;
      }
    }
  }

  lemma {:induction false} StepOrdered(ts: seq<Task>, s: State, w: nat, ok: bool)
    requires CanStep(ts, s, w) && Placed(ts, s) && BlockedExact(s) && Counted(ts, s) && Ordered(ts, s)
    requires Shape(ts, Step(ts, s, w, ok))
    ensures Ordered(ts, Step(ts, s, w, ok))
  {
    assert PcOk(ts, s.pcs[w]);
    if s.pcs[w].Holding? && s.queue != [] {
      assert s.queue[0] in s.queue;
      TakeOrdered(ts, s, w);
    } else {
      SamePopped(ts, s, w, ok);
    }
  }

  lemma {:induction false} SamePopped(ts: seq<Task>, s: State, w: nat, ok: bool)
    requires CanStep(ts, s, w) && Placed(ts, s) && BlockedExact(s) && !(s.pcs[w].Holding? && s.queue != [])
    ensures Step(ts, s, w, ok).order == s.order && |Step(ts, s, w, ok).loc| == |ts|
    ensures forall i :: 0 <= i < |ts| ==> Popped(Step(ts, s, w, ok).loc[i]) == Popped(s.loc[i])
  {
    assert PcOk(ts, s.pcs[w]);
    StepShape(ts, s, w, ok);
    if s.pcs[w].Decrementing? {
      if s.pcs[w].k < |Dependents(DepsOf(ts), s.pcs[w].task)| { NextDependent(ts, s.pcs[w]); }
      forall i | 0 <= i < |ts| && i in s.pcs[w].newly ensures s.loc[i] == Held(w) {
        assert InNewly(s.pcs[w], i);
      }
    }
    assert HasTask(s.pcs[w]) ==> s.loc[s.pcs[w].task] == Active(w);
  }

  // ----- the checked count -----

  lemma {:induction false} TallyFrame(ts: seq<Task>, s: State, s': State, t: nat, n: nat)
    requires n <= |ts| == |s.loc| == |s'.loc|
    requires t < |ts|
    requires forall i :: 0 <= i < |ts| && i != t ==> Tallied(s', i) == Tallied(s, i)
    ensures Tallied(s', t) == Tallied(s, t) ==> TallySum(ts, s', n) == TallySum(ts, s, n)
    ensures Tallied(s', t) && !Tallied(s, t) ==>
              TallySum(ts, s', n) == TallySum(ts, s, n) + if t < n then CheckedCount(ts[t].kind) else 0
  {
    if n > 0 { TallyFrame(ts, s, s', t, n - 1); }
  }

  // The worker a task is with is the only one that can change whether it is tallied.
  lemma {:induction false} SameTallied(ts: seq<Task>, s: State, s': State, w: nat, i: nat)
    requires Shape(ts, s) && Placed(ts, s) && |s'.pcs| == |s.pcs| && |s'.loc| == |ts| && w < |s.pcs| && i < |ts|
    requires forall v :: 0 <= v < |s.pcs| && v != w ==> s'.pcs[v].Decrementing? == s.pcs[v].Decrementing?
    requires s'.loc[i] == s.loc[i]
    requires HasTask(s.pcs[w]) && s.pcs[w].task == i ==> s'.pcs[w].Decrementing? == s.pcs[w].Decrementing?
    ensures Tallied(s', i) == Tallied(s, i)
  {
    assert s.loc[i] == Active(w) <==> HasTask(s.pcs[w]) && s.pcs[w].task == i;
  }

  lemma {:induction false} FinishTallied(ts: seq<Task>, s: State, w: nat, i: nat)
    requires Shape(ts, s) && Placed(ts, s) && BlockedExact(s) && w < |s.pcs| && s.pcs[w].Decrementing? && i < |ts|
    requires Shape(ts, StepFinish(ts, s, w))
    ensures Tallied(StepFinish(ts, s, w), i) == Tallied(s, i)
  {
    var s' := StepFinish(ts, s, w);
    assert PcOk(ts, s.pcs[w]);
    assert s.loc[s.pcs[w].task] == Active(w);
    if s.pcs[w].k < |Dependents(DepsOf(ts), s.pcs[w].task)| { NextDependent(ts, s.pcs[w]); }
    if i in s.pcs[w].newly { assert InNewly(s.pcs[w], i); }
    if s'.loc[i] == s.loc[i] {
      SameTallied(ts, s, s', w, i);
    }
  }

  lemma {:induction false} TakeTallied(ts: seq<Task>, s: State, w: nat, i: nat)
    requires Shape(ts, s) && Placed(ts, s) && w < |s.pcs| && s.pcs[w].Holding? && i < |ts|
    requires s.queue != [] ==> s.queue[0] < |s.loc|
    ensures |StepTake(s, w).loc| == |ts| && Tallied(StepTake(s, w), i) == Tallied(s, i)
  {
    if s.queue != [] { assert s.queue[0] in s.queue; }
    assert s.loc[i] != Active(w);
  }

  lemma {:induction false} OneCellTallied(ts: seq<Task>, s: State, w: nat, ok: bool, i: nat)
    requires Shape(ts, s) && Placed(ts, s) && w < |s.pcs| && OneCell(s.pcs[w]) && PcOk(ts, s.pcs[w]) && i < |ts|
    ensures |StepOneCell(ts, s, w, ok).loc| == |ts|
    ensures if s.pcs[w].Tally? && i == s.pcs[w].task then !Tallied(s, i) && Tallied(StepOneCell(ts, s, w, ok), i)
            else Tallied(StepOneCell(ts, s, w, ok), i) == Tallied(s, i)
  {
    var s' := StepOneCell(ts, s, w, ok);
    if s.pcs[w].Tally? && i == s.pcs[w].task {
      assert s.loc[i] == Active(w);
    } else {
      SameTallied(ts, s, s', w, i);
    }
  }

  lemma {:induction false} LeaveTallied(ts: seq<Task>, s: State, w: nat, i: nat)
    requires Shape(ts, s) && Placed(ts, s) && w < |s.pcs| && s.pcs[w].Leaving? && s.pcs[w].task < |s.loc| && i < |ts|
    ensures |StepLeave(s, w).loc| == |ts| && Tallied(StepLeave(s, w), i) == Tallied(s, i)
  {
    assert s.loc[s.pcs[w].task] == Active(w);
    if i != s.pcs[w].task {
      SameTallied(ts, s, StepLeave(s, w), w, i);
    }
  }

  lemma {:induction false} StepTallied(ts: seq<Task>, s: State, w: nat, ok: bool, i: nat)
    requires CanStep(ts, s, w) && Placed(ts, s) && BlockedExact(s) && i < |ts|
    requires Shape(ts, Step(ts, s, w, ok))
    ensures if s.pcs[w].Tally? && i == s.pcs[w].task then !Tallied(s, i) && Tallied(Step(ts, s, w, ok), i)
            else Tallied(Step(ts, s, w, ok), i) == Tallied(s, i)
  {
    assert PcOk(ts, s.pcs[w]);
    if s.pcs[w].Decrementing? {
      FinishTallied(ts, s, w, i);
    } else if s.pcs[w].Holding? {
      assert s.queue != [] ==> s.queue[0] in s.queue;
      TakeTallied(ts, s, w, i);
    } else if s.pcs[w].Admitting? {
      SameTallied(ts, s, StepAdmit(ts, s, w), w, i);
    } else if s.pcs[w].Leaving? {
      LeaveTallied(ts, s, w, i);
    } else {
      OneCellTallied(ts, s, w, ok, i);
    }
  }

  lemma {:induction false} StepChecked(ts: seq<Task>, s: State, w: nat, ok: bool)
    requires CanStep(ts, s, w) && Placed(ts, s) && BlockedExact(s) && s.checked == TallySum(ts, s, |ts|)
    requires Shape(ts, Step(ts, s, w, ok)) && Placed(ts, Step(ts, s, w, ok))
    ensures Step(ts, s, w, ok).checked == TallySum(ts, Step(ts, s, w, ok), |ts|)
  {
    forall i | 0 <= i < |ts|
      ensures if s.pcs[w].Tally? && i == s.pcs[w].task then !Tallied(s, i) && Tallied(Step(ts, s, w, ok), i)
              else Tallied(Step(ts, s, w, ok), i) == Tallied(s, i)
    {
      StepTallied(ts, s, w, ok, i);
    }
    assert PcOk(ts, s.pcs[w]);
    if s.pcs[w].Tally? {
      TallyFrame(ts, s, Step(ts, s, w, ok), s.pcs[w].task, |ts|);
    } else if ts != [] {
      TallyFrame(ts, s, Step(ts, s, w, ok), 0, |ts|);
    }
  }

  // ----- the failure slot -----

  lemma {:induction false} TakeFailSlot(ts: seq<Task>, s: State, w: nat)
    requires Shape(ts, s) && Placed(ts, s) && FailSlot(s) && w < |s.pcs| && s.pcs[w].Holding?
    requires s.queue != [] ==> s.queue[0] < |ts|
    ensures FailSlot(StepTake(s, w))
  {
    assert s.queue != [] ==> s.queue[0] in s.queue;
  }

  lemma {:induction false} DecrementFailSlot(ts: seq<Task>, s: State, w: nat)
    requires Shape(ts, s) && Placed(ts, s) && BlockedExact(s) && FailSlot(s) && w < |s.pcs| && s.pcs[w].Decrementing?
    requires s.pcs[w].k < |Dependents(DepsOf(ts), s.pcs[w].task)|
    ensures FailSlot(StepFinish(ts, s, w))
  {
    assert PcOk(ts, s.pcs[w]);
    assert s.loc[s.pcs[w].task] == Active(w);
    NextDependent(ts, s.pcs[w]);
  }

  lemma {:induction false} PublishFailSlot(ts: seq<Task>, s: State, w: nat)
    requires Shape(ts, s) && Placed(ts, s) && FailSlot(s) && w < |s.pcs| && s.pcs[w].Decrementing?
    requires s.pcs[w].k >= |Dependents(DepsOf(ts), s.pcs[w].task)|
    ensures FailSlot(StepFinish(ts, s, w))
  {
    assert PcOk(ts, s.pcs[w]);
    assert s.loc[s.pcs[w].task] == Active(w);
    if s.failure.Some? {
      assert !InNewly(s.pcs[w], s.failure.value);
    }
  }

  lemma {:induction false} LeaveFailSlot(ts: seq<Task>, s: State, w: nat)
    requires Shape(ts, s) && Placed(ts, s) && FailSlot(s) && w < |s.pcs| && s.pcs[w].Leaving? && s.pcs[w].task < |ts|
    ensures FailSlot(StepLeave(s, w))
  {
    assert s.loc[s.pcs[w].task] == Active(w);
  }

  lemma {:induction false} OneCellFailSlot(ts: seq<Task>, s: State, w: nat, ok: bool)
    requires Shape(ts, s) && Placed(ts, s) && FailSlot(s) && w < |s.pcs| && OneCell(s.pcs[w]) && PcOk(ts, s.pcs[w])
    ensures FailSlot(StepOneCell(ts, s, w, ok))
  {
    assert HasTask(s.pcs[w]) ==> s.loc[s.pcs[w].task] == Active(w);
  }

  lemma {:induction false} StepFailSlot(ts: seq<Task>, s: State, w: nat, ok: bool)
    requires CanStep(ts, s, w) && Placed(ts, s) && BlockedExact(s) && FailSlot(s)
    ensures FailSlot(Step(ts, s, w, ok))
  {
    assert PcOk(ts, s.pcs[w]);
    if s.pcs[w].Holding? {
      assert s.queue != [] ==> s.queue[0] in s.queue;
      TakeFailSlot(ts, s, w);
    } else if s.pcs[w].Admitting? {
    } else if s.pcs[w].Decrementing? {
      if s.pcs[w].k < |Dependents(DepsOf(ts), s.pcs[w].task)| {
        DecrementFailSlot(ts, s, w);
      } else {
        PublishFailSlot(ts, s, w);
      }
    } else if s.pcs[w].Leaving? {
      LeaveFailSlot(ts, s, w);
    } else {
      OneCellFailSlot(ts, s, w, ok);
    }
  }

  // ----- together -----

  lemma {:induction false} StepInv(ts: seq<Task>, s: State, w: nat, ok: bool)
    requires Inv(ts, s) && CanStep(ts, s, w)
    ensures Inv(ts, Step(ts, s, w, ok))
  {
    StepPlaced(ts, s, w, ok);
    StepCounted(ts, s, w, ok);
    StepCounts(ts, s, w, ok);
    StepWakeful(ts, s, w, ok);
    StepOneHolder(ts, s, w, ok);
    StepAdmission(ts, s, w, ok);
    StepOrdered(ts, s, w, ok);
    StepChecked(ts, s, w, ok);
    StepFailSlot(ts, s, w, ok);
  }

  lemma {:induction false} WakeAdmission(ts: seq<Task>, s: State, w: nat)
    requires Shape(ts, s) && Placed(ts, s) && Admission(ts, s) && s.checked == TallySum(ts, s, |ts|)
    requires CanWake(s, w) && Shape(ts, Set(s, w, Acquire))
    ensures Admission(ts, Set(s, w, Acquire)) && s.checked == TallySum(ts, Set(s, w, Acquire), |ts|)
  {
    var s' := Set(s, w, Acquire);
    forall i | 0 <= i < |ts| ensures Tallied(s', i) == Tallied(s, i) && (Passed(s', i) ==> Passed(s, i)) {
      SameTallied(ts, s, s', w, i);
      assert s.loc[i] == Active(w) <==> HasTask(s.pcs[w]) && s.pcs[w].task == i;
    }
    if ts != [] { TallyFrame(ts, s, s', 0, |ts|); }
    forall i | 0 <= i < |ts| && Passed(s', i) ensures Admitted(ts, s', i) {
      assert Admitted(ts, s, i);
    }
  }

  lemma {:induction false} WakeCounts(ts: seq<Task>, s: State, w: nat)
    requires Inv(ts, s) && CanWake(s, w)
    ensures var s' := Set(s, w, Acquire);
            Shape(ts, s') && Placed(ts, s') && BlockedExact(s') && Counted(ts, s') && CountsRight(s')
  {
    var s' := Set(s, w, Acquire);
    SamePlaces(ts, s, s');
    SameCursors(ts, s, s');
    HoldersUpdate(s.pcs, w, Acquire);
  }

  lemma {:induction false} WakeInv(ts: seq<Task>, s: State, w: nat)
    requires Inv(ts, s) && CanWake(s, w)
    ensures Inv(ts, Set(s, w, Acquire))
  {
    WakeCounts(ts, s, w);
    WakeAdmission(ts, s, w);
    WakeFailSlot(ts, s, w);
  }

  lemma {:induction false} WakeFailSlot(ts: seq<Task>, s: State, w: nat)
    requires Shape(ts, s) && FailSlot(s) && CanWake(s, w)
    ensures FailSlot(Set(s, w, Acquire))
  {
  }

  // A run: any finite interleaving, spurious wake-ups included.
  ghost predicate Run(ts: seq<Task>, jobs: nat, run: seq<State>) {
    && |run| >= 1 && run[0] == Init(ts, jobs)
    && forall k :: 0 <= k < |run| - 1 ==> Next(ts, run[k], run[k + 1])
  }

  lemma {:induction false} RunInv(ts: seq<Task>, jobs: nat, run: seq<State>, k: nat)
    requires Run(ts, jobs, run) && k < |run|
    ensures Inv(ts, run[k])
  {
    if k == 0 {
      InitInv(ts, jobs);
    } else {
      RunInv(ts, jobs, run, k - 1);
      var s, s' := run[k - 1], run[k];
      assert Next(ts, s, run[k - 1 + 1]);
      if w, ok :| CanStep(ts, s, w) && s' == Step(ts, s, w, ok) {
        StepInv(ts, s, w, ok);
      } else {
        var w :| CanWake(s, w) && s' == Set(s, w, Acquire);
        WakeInv(ts, s, w);
      }
    }
  }
}
