/** The pool's invariant holds at the start and is kept by every step. */
module PoolInvariant {
  import opened Digraph
  import opened Counters
  import opened Pool

  // ----- success: what settling does to the counters -----

  lemma {:induction false} SettleSuccess(g: Graph, s: State, w: nat)
    requires CanStep(g, s, w) && s.pcs[w].Running? && Placed(g, s) && Counted(g, s)
    ensures var i := s.pcs[w].item; var ds := DependentIds(g, i); var freed := Freed(s.remaining, ds);
            && NoDup(freed)
            && (forall j: nat :: j < |g| ==>
                Settle(s.remaining, ds)[j] == Open(g[j], DoneSet(s.loc) + {i}) <= s.remaining[j])
            && (forall j: nat :: j < |g| ==> (j in freed <==> s.remaining[j] > 0 && Settle(s.remaining, ds)[j] == 0))
  {
    assert s.loc[s.pcs[w].item] == Active(w);
    CloseOne(g, s.remaining, DoneSet(s.loc), s.pcs[w].item);
  }

  lemma {:induction false} SucceedDoneSet(g: Graph, s: State, w: nat)
    requires CanStep(g, s, w) && s.pcs[w].Running? && Placed(g, s) && Counted(g, s)
    ensures DoneSet(StepSucceed(g, s, w).loc) == DoneSet(s.loc) + {s.pcs[w].item}
    ensures s.pcs[w].item !in DoneSet(s.loc) && s.remaining[s.pcs[w].item] == 0
    ensures s.pcs[w].item !in Freed(s.remaining, DependentIds(g, s.pcs[w].item))
  {
    var i := s.pcs[w].item;
    var freed := Freed(s.remaining, DependentIds(g, i));
    SettleSuccess(g, s, w);
    assert s.loc[i] == Active(w);
    forall j: nat | j < |g| && j in freed ensures s.loc[j] == Blocked {}
    var loc' := MarkReady(s.loc, freed)[i := Done];
    forall j: nat | j < |g| ensures loc'[j].Done? <==> s.loc[j].Done? || j == i {}
  }

  // ----- one predicate at a time -----

  lemma {:induction false} StepShape(g: Graph, s: State, w: nat, ok: bool)
    requires CanStep(g, s, w) && |s.tickets| == s.done
    ensures Shape(g, Step(g, s, w, ok))
  {
  }

  lemma {:induction false} StepPlaced(g: Graph, s: State, w: nat, ok: bool)
    requires CanStep(g, s, w) && Placed(g, s) && Counted(g, s)
    ensures Placed(g, Step(g, s, w, ok))
  {
    var s' := Step(g, s, w, ok);
    match s.pcs[w]
    case Acquire =>
      if !s.cancelled && s.done != |g| && s.ready != [] {
        PopPlaced(g, s, w);
      }
    case Running(i) =>
      assert s.loc[i] == Active(w);
      if ok {
        SucceedPlaced(g, s, w);
      }
    case _ =>
  }

  lemma {:induction false} PopPlaced(g: Graph, s: State, w: nat)
    requires CanStep(g, s, w) && Placed(g, s) && s.pcs[w].Acquire? && !s.cancelled && s.done != |g| && s.ready != []
    ensures Placed(g, StepAcquire(g, s, w))
  {
    var s' := StepAcquire(g, s, w);
    var t := s.ready[0];
    assert s.ready == [t] + s'.ready;
    assert t !in s'.ready;
    forall i, v | 0 <= i < |g| && 0 <= v < |s.pcs| ensures s'.loc[i] == Active(v) <==> s'.pcs[v] == Running(i) {
      assert s.loc[i] == Active(v) <==> s.pcs[v] == Running(i);
    }
  }

  lemma {:induction false} SucceedPlaced(g: Graph, s: State, w: nat)
    requires CanStep(g, s, w) && s.pcs[w].Running? && Placed(g, s) && Counted(g, s)
    ensures Placed(g, StepSucceed(g, s, w))
  {
    var s' := StepSucceed(g, s, w);
    var i := s.pcs[w].item;
    var freed := Freed(s.remaining, DependentIds(g, i));
    SettleSuccess(g, s, w);
    SucceedDoneSet(g, s, w);
    forall j: nat | j < |g| && j in freed ensures s.loc[j] == Blocked {}
    assert s'.ready == s.ready + freed;
    forall a, b | 0 <= a < b < |s'.ready| ensures s'.ready[a] != s'.ready[b] {
      if a < |s.ready| <= b {
        assert s.ready[a] in s.ready && s'.ready[b] in freed;
      }
    }
    forall j, v | 0 <= j < |g| && 0 <= v < |s.pcs| ensures s'.loc[j] == Active(v) <==> s'.pcs[v] == Running(j) {
      assert s.loc[j] == Active(v) <==> s.pcs[v] == Running(j);
    }
  }

  lemma {:induction false} SucceedCounted(g: Graph, s: State, w: nat)
    requires CanStep(g, s, w) && s.pcs[w].Running? && Placed(g, s) && Counted(g, s)
    ensures Counted(g, StepSucceed(g, s, w))
  {
    var s' := StepSucceed(g, s, w);
    SettleSuccess(g, s, w);
    SucceedDoneSet(g, s, w);
    BlockedAfter(s.remaining, s'.remaining, s.loc, Freed(s.remaining, DependentIds(g, s.pcs[w].item)), s.pcs[w].item);
  }

  lemma {:induction false} BlockedAfter(before: seq<int>, after: seq<int>, loc: seq<Loc>, freed: seq<nat>, i: nat)
    requires |before| == |after| == |loc| && i < |loc| && before[i] == 0
    requires forall j :: 0 <= j < |loc| ==> (loc[j] == Blocked <==> before[j] > 0)
    requires forall j :: 0 <= j < |loc| ==> 0 <= after[j] <= before[j]
    requires forall j: nat :: j < |loc| ==> (j in freed <==> before[j] > 0 && after[j] == 0)
    ensures forall j :: 0 <= j < |loc| ==> (MarkReady(loc, freed)[i := Done][j] == Blocked <==> after[j] > 0)
  {
  }

  lemma {:induction false} SameDoneCounted(g: Graph, s: State, s': State)
    requires Counted(g, s) && s'.remaining == s.remaining && |s'.loc| == |s.loc|
    requires forall i :: 0 <= i < |s.loc| ==>
               (s.loc[i] == Blocked <==> s'.loc[i] == Blocked) && (s.loc[i].Done? <==> s'.loc[i].Done?)
    ensures Counted(g, s') && DoneSet(s'.loc) == DoneSet(s.loc)
  {
    assert DoneSet(s'.loc) == DoneSet(s.loc);
  }

  lemma {:induction false} StepCounted(g: Graph, s: State, w: nat, ok: bool)
    requires CanStep(g, s, w) && Placed(g, s) && Counted(g, s)
    ensures Counted(g, Step(g, s, w, ok))
    ensures !(s.pcs[w].Running? && ok) ==> DoneSet(Step(g, s, w, ok).loc) == DoneSet(s.loc)
  {
    if s.pcs[w].Running? && ok {
      SucceedCounted(g, s, w);
    } else {
      if s.pcs[w].Running? { assert s.loc[s.pcs[w].item] == Active(w); }
      if s.ready != [] { assert s.ready[0] in s.ready; }
      SameDoneCounted(g, s, Step(g, s, w, ok));
    }
  }

  lemma {:induction false} BusyUpdate(pcs: seq<Pc>, w: nat, pc: Pc)
    requires w < |pcs|
    ensures |Busy(pcs[w := pc])| ==
              |Busy(pcs)| + (if pc.Running? then 1 else 0) - (if pcs[w].Running? then 1 else 0)
    ensures Busy(Waken(pcs)) == Busy(pcs)
  {
    var a := Busy(pcs);
    if pc.Running? {
      assert Busy(pcs[w := pc]) == a + {w};
    } else {
      assert Busy(pcs[w := pc]) == a - {w};
    }
  }

  lemma {:induction false} StepCounts(g: Graph, s: State, w: nat, ok: bool)
    requires CanStep(g, s, w) && Placed(g, s) && Counted(g, s) && CountsRight(s)
    ensures CountsRight(Step(g, s, w, ok))
  {
    var s' := Step(g, s, w, ok);
    BusyUpdate(s.pcs, w, s'.pcs[w]);
    BusyUpdate(Waken(s.pcs), w, s'.pcs[w]);
    StepCounted(g, s, w, ok);
    if s.pcs[w].Running? && ok {
      SucceedDoneSet(g, s, w);
    }
  }

  lemma {:induction false} StepWakeful(g: Graph, s: State, w: nat, ok: bool)
    requires CanStep(g, s, w) && CountsRight(s) && Wakeful(g, s) && FailSlot(g, s) && Placed(g, s) && Counted(g, s)
    requires |DoneSet(s.loc)| <= |g|
    ensures Wakeful(g, Step(g, s, w, ok))
  {
    var s' := Step(g, s, w, ok);
    match s.pcs[w]
    case Acquire =>
      forall v | 0 <= v < |s'.pcs| && s'.pcs[v].Waiting?
        ensures (s'.ready == [] && s'.inFlight > 0) || SomeNotifier(s'.pcs)
      {
        if v != w && SomeNotifier(s.pcs) {
          var n :| 0 <= n < |s.pcs| && Notifier(s.pcs[n]);
          assert Notifier(s'.pcs[n]);
        }
      }
    case Running(i) =>
      assert Notifier(s'.pcs[w]);
      assert w in Busy(s.pcs);
      if ok {
        SucceedDoneSet(g, s, w);
        SubsetBound(DoneSet(s.loc) + {i}, |g|);
      }
    case Calling(_, _) =>
      if SomeNotifier(s.pcs) {
        var n :| 0 <= n < |s.pcs| && Notifier(s.pcs[n]);
        assert Notifier(s'.pcs[n]);
      }
    case _ =>
  }

  lemma {:induction false} FinishedExact(g: Graph, s: State, w: nat)
    requires CanStep(g, s, w) && Placed(g, s) && Counted(g, s) && Ordered(g, s) && s.pcs[w].Running?
    ensures var s' := Step(g, s, w, true);
            NoDup(s'.finished) && forall j: nat :: j in s'.finished <==> j < |g| && s'.loc[j].Done?
  {
    var s' := Step(g, s, w, true);
    assert s.loc[s.pcs[w].item] == Active(w);
    SucceedDoneSet(g, s, w);
    forall j: nat ensures j in s'.finished <==> j < |g| && s'.loc[j].Done? {
      assert j < |g| ==> (j in DoneSet(s'.loc) <==> s'.loc[j].Done?);
      assert j < |g| ==> (j in DoneSet(s.loc) <==> s.loc[j].Done?);
    }
  }

  lemma {:induction false} FinishedAfterDependencies(g: Graph, s: State, w: nat, k: nat, d: nat)
    requires CanStep(g, s, w) && Placed(g, s) && Counted(g, s) && Ordered(g, s) && s.pcs[w].Running?
    requires var f := Step(g, s, w, true).finished; k < |f| && f[k] < |g| && d in g[f[k]]
    ensures d in Step(g, s, w, true).finished[..k]
  {
    var s' := Step(g, s, w, true);
    var i := s.pcs[w].item;
    if k == |s.finished| {
      assert s.loc[i] == Active(w);
      OpenBounds(g[i], DoneSet(s.loc));
      assert d in DoneSet(s.loc);
      assert s'.finished[..k] == s.finished;
    } else {
      assert s'.finished[..k] == s.finished[..k];
    }
  }

  lemma {:induction false} StepOrdered(g: Graph, s: State, w: nat, ok: bool)
    requires CanStep(g, s, w) && Placed(g, s) && Counted(g, s) && Ordered(g, s)
    ensures Ordered(g, Step(g, s, w, ok))
  {
    var s' := Step(g, s, w, ok);
    if s.pcs[w].Running? && ok {
      FinishedExact(g, s, w);
      forall k, d | 0 <= k < |s'.finished| && s'.finished[k] < |g| && d in g[s'.finished[k]]
        ensures d in s'.finished[..k]
      {
        FinishedAfterDependencies(g, s, w, k, d);
      }
    } else if s.pcs[w].Running? {
      assert s.loc[s.pcs[w].item] == Active(w);
    } else if s.ready != [] {
      assert s.ready[0] in s.ready;
    }
  }

  lemma {:induction false} StepFailSlot(g: Graph, s: State, w: nat, ok: bool)
    requires CanStep(g, s, w) && Placed(g, s) && Counted(g, s) && FailSlot(g, s)
    ensures FailSlot(g, Step(g, s, w, ok))
  {
    if s.pcs[w].Running? {
      assert s.loc[s.pcs[w].item] == Active(w);
      if ok { SettleSuccess(g, s, w); }
    } else if s.ready != [] {
      assert s.ready[0] in s.ready;
    }
  }

  predicate SameReport(a: Pc, b: Pc) {
    && ((a.Notifying? || a.Calling?) <==> (b.Notifying? || b.Calling?))
    && (a.Notifying? || a.Calling? ==> a.item == b.item && a.count == b.count)
  }

  lemma {:induction false} HandedFrame(s: State, s': State)
    requires Handed(s) && s'.tickets == s.tickets && s'.finished == s.finished && s'.calls == s.calls
    requires |s'.pcs| == |s.pcs| && forall v :: 0 <= v < |s.pcs| ==> SameReport(s.pcs[v], s'.pcs[v])
    ensures Handed(s')
  {
    forall k, v | 0 <= k < |s.tickets| && 0 <= v < |s.pcs|
      ensures s'.tickets[k] == With(v) <==> Reports(s'.pcs[v], k)
    {
      assert SameReport(s.pcs[v], s'.pcs[v]);
      assert s.tickets[k] == With(v) <==> Reports(s.pcs[v], k);
    }
    forall v | 0 <= v < |s.pcs| && (s'.pcs[v].Notifying? || s'.pcs[v].Calling?)
      ensures 0 < s'.pcs[v].count <= |s.finished| && s.finished[s'.pcs[v].count - 1] == s'.pcs[v].item
    {
      assert SameReport(s.pcs[v], s'.pcs[v]);
    }
  }

  lemma {:induction false} StepHanded(g: Graph, s: State, w: nat, ok: bool)
    requires CanStep(g, s, w) && Handed(s) && |s.finished| == s.done
    ensures Handed(Step(g, s, w, ok))
  {
    if s.pcs[w].Calling? {
      CallHanded(g, s, w);
    } else if s.pcs[w].Running? && ok {
      SucceedHanded(g, s, w);
    } else {
      HandedFrame(s, Step(g, s, w, ok));
    }
  }

  lemma {:induction false} SucceedHanded(g: Graph, s: State, w: nat)
    requires CanStep(g, s, w) && s.pcs[w].Running? && Handed(s) && |s.finished| == s.done
    ensures Handed(StepSucceed(g, s, w))
  {
    var s' := StepSucceed(g, s, w);
    forall k, v | 0 <= k < |s'.tickets| && 0 <= v < |s.pcs|
      ensures s'.tickets[k] == With(v) <==> Reports(s'.pcs[v], k)
    {
      assert k < |s.tickets| ==> (s.tickets[k] == With(v) <==> Reports(s.pcs[v], k));
    }
  }

  lemma {:induction false} CallHanded(g: Graph, s: State, w: nat)
    requires CanStep(g, s, w) && s.pcs[w].Calling? && Handed(s)
    ensures Handed(Step(g, s, w, true))
  {
    var s' := Step(g, s, w, true);
    var c := s.pcs[w].count;
    assert Reports(s.pcs[w], c - 1);
    assert s.tickets[c - 1] == With(w);
    forall k, v | 0 <= k < |s'.tickets| && 0 <= v < |s.pcs|
      ensures s'.tickets[k] == With(v) <==> Reports(s'.pcs[v], k)
    {
      assert s.tickets[k] == With(v) <==> Reports(s.pcs[v], k);
    }
    forall k, j | 0 <= k < |s'.tickets| && 0 <= j < |s'.calls|
      ensures s'.tickets[k] == Called(j) <==> s'.calls[j].1 == k + 1
    {
      if j < |s.calls| {
        assert s.tickets[k] == Called(j) <==> s.calls[j].1 == k + 1;
        assert s.tickets[c - 1] == Called(j) <==> s.calls[j].1 == c;
      }
    }
  }

  lemma {:induction false} StepInv(g: Graph, s: State, w: nat, ok: bool)
    requires Inv(g, s) && CanStep(g, s, w)
    ensures Inv(g, Step(g, s, w, ok))
  {
    SubsetBound(DoneSet(s.loc), |g|);
    StepShape(g, s, w, ok);
    StepPlaced(g, s, w, ok);
    StepCounted(g, s, w, ok);
    StepCounts(g, s, w, ok);
    StepWakeful(g, s, w, ok);
    StepOrdered(g, s, w, ok);
    StepHanded(g, s, w, ok);
    StepFailSlot(g, s, w, ok);
  }

  lemma {:induction false} WakePlaced(g: Graph, s: State, w: nat)
    requires Placed(g, s) && CanWake(s, w)
    ensures Placed(g, Wake(s, w))
  {
    var s' := Wake(s, w);
    forall i, v | 0 <= i < |g| && 0 <= v < |s.pcs| ensures s'.loc[i] == Active(v) <==> s'.pcs[v] == Running(i) {
      assert s.loc[i] == Active(v) <==> s.pcs[v] == Running(i);
    }
  }

  lemma {:induction false} WakeWakeful(g: Graph, s: State, w: nat)
    requires Wakeful(g, s) && CanWake(s, w)
    ensures Wakeful(g, Wake(s, w))
  {
    var s' := Wake(s, w);
    if SomeNotifier(s.pcs) {
      var n :| 0 <= n < |s.pcs| && Notifier(s.pcs[n]);
      assert Notifier(s'.pcs[n]);
    }
  }

  lemma {:induction false} WakeInv(g: Graph, s: State, w: nat)
    requires Inv(g, s) && CanWake(s, w)
    ensures Inv(g, Wake(s, w))
  {
    var s' := Wake(s, w);
    WakePlaced(g, s, w);
    WakeWakeful(g, s, w);
    BusyUpdate(s.pcs, w, Acquire);
    HandedFrame(s, s');
    assert Counted(g, s') && CountsRight(s') && Ordered(g, s') && FailSlot(g, s');
  }

  lemma {:induction false} InitInv(g: Graph, jobs: nat)
    requires InRange(g)
    ensures Inv(g, Init(g, jobs))
  {
    var s := Init(g, jobs);
    assert DoneSet(s.loc) == {} && Busy(s.pcs) == {};
    forall i | 0 <= i < |g| ensures s.remaining[i] == Open(g[i], {}) {
      OpenBounds(g[i], {});
    }
    assert forall k :: 0 <= k < |s.ready| ==> s.ready[k] in s.ready;
  }
}
