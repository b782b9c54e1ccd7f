/** Dependency counters: how many entries of a dependency list are still open, and what closing one node does. */
module Counters {
  import opened Digraph

  // How many entries of `ds` are not in `done`.
  function Open(ds: seq<nat>, done: set<nat>): nat {
    if ds == [] then 0 else Open(ds[..|ds| - 1], done) + if ds[|ds| - 1] in done then 0 else 1
  }

  function DependentIds(g: Graph, d: nat): (r: seq<nat>)
    ensures Within(r, |g|)
  {
    DependentsExact(g, d);
    assert forall k :: 0 <= k < |Dependents(g, d)| ==> IsOcc(g, d, Dependents(g, d)[k]);
    Firsts(Dependents(g, d))
  }

  predicate Within(ids: seq<nat>, n: nat) {
    forall k :: 0 <= k < |ids| ==> ids[k] < n
  }

  // The counters after every entry of `ds` was decremented.
  function Settle(remaining: seq<int>, ds: seq<nat>): (r: seq<int>)
    requires Within(ds, |remaining|)
    ensures |r| == |remaining|
  {
    if ds == [] then remaining else
      var r, d := Settle(remaining, ds[..|ds| - 1]), ds[|ds| - 1];
      r[d := r[d] - 1]
  }

  // The items whose counter reached zero on the way, in that order.
  function Freed(remaining: seq<int>, ds: seq<nat>): (r: seq<nat>)
    requires Within(ds, |remaining|)
    ensures Within(r, |remaining|)
  {
    if ds == [] then [] else
      Freed(remaining, ds[..|ds| - 1]) + if Settle(remaining, ds)[ds[|ds| - 1]] == 0 then [ds[|ds| - 1]] else []
  }

  // The loop over the dependents of a finished node.
  method SettleLoop(remaining: seq<int>, ready: seq<nat>, ds: seq<nat>) returns (remaining': seq<int>, ready': seq<nat>)
    requires Within(ds, |remaining|)
    ensures remaining' == Settle(remaining, ds) && ready' == ready + Freed(remaining, ds)
  {
    remaining', ready' := remaining, ready;
    for k := 0 to |ds|
      invariant remaining' == Settle(remaining, ds[..k])
      invariant ready' == ready + Freed(remaining, ds[..k])
    {
      assert ds[..k + 1][..k] == ds[..k];
      remaining' := remaining'[ds[k] := remaining'[ds[k]] - 1];
      if remaining'[ds[k]] == 0 {
        ready' := ready' + [ds[k]];
      }
    }
    assert ds[..|ds|] == ds;
  }

  // ----- what closing a node does -----

  lemma {:induction false} OpenBounds(ds: seq<nat>, done: set<nat>)
    ensures Open(ds, done) == 0 <==> forall d :: d in ds ==> d in done
    ensures done == {} ==> Open(ds, done) == |ds|
  {
    if ds != [] {
      OpenBounds(ds[..|ds| - 1], done);
      assert ds == ds[..|ds| - 1] + [ds[|ds| - 1]];
    }
  }

  lemma {:induction false} OpenAfter(ds: seq<nat>, done: set<nat>, d: nat)
    requires d !in done
    ensures Open(ds, done) == Open(ds, done + {d}) + multiset(ds)[d]
  {
    if ds != [] {
      OpenAfter(ds[..|ds| - 1], done, d);
      assert ds == ds[..|ds| - 1] + [ds[|ds| - 1]];
    }
  }

  lemma {:induction false} OccInCount(ds: seq<nat>, i: nat, d: nat)
    ensures |OccIn(ds, i, d)| == multiset(ds)[d]
    ensures Firsts(OccIn(ds, i, d)) == seq(|OccIn(ds, i, d)|, _ => i)
  {
    if ds != [] {
      OccInCount(ds[..|ds| - 1], i, d);
      assert ds == ds[..|ds| - 1] + [ds[|ds| - 1]];
    }
    OccInExact(ds, i, d);
    forall k | 0 <= k < |OccIn(ds, i, d)| ensures OccIn(ds, i, d)[k].0 == i {
      assert OccIn(ds, i, d)[k] in OccIn(ds, i, d);
    }
  }

  lemma {:induction false} CountConstant(n: nat, x: nat, y: nat)
    ensures multiset(seq(n, _ => x))[y] == if x == y then n else 0
  {
    if n > 0 {
      CountConstant(n - 1, x, y);
      assert seq(n, _ => x) == seq(n - 1, _ => x) + [x];
    } else {
      assert seq(0, _ => x) == [];
    }
  }

  // Item `i` is a dependent of `d` as often as `d` occurs in its list.
  lemma {:induction false} DependentCount(g: Graph, d: nat, i: nat)
    ensures multiset(Firsts(Dependents(g, d)))[i] == if i < |g| then multiset(g[i])[d] else 0
  {
    if g == [] {
      assert Firsts(Dependents(g, d)) == [];
    } else {
      var n := |g| - 1;
      DependentCount(g[..n], d, i);
      OccInCount(g[n], n, d);
      CountConstant(|OccIn(g[n], n, d)|, n, i);
      assert Firsts(Dependents(g, d)) == Firsts(Dependents(g[..n], d)) + Firsts(OccIn(g[n], n, d));
    }
  }

  lemma {:induction false} SettleAt(remaining: seq<int>, ds: seq<nat>, i: nat)
    requires Within(ds, |remaining|) && i < |remaining|
    ensures Settle(remaining, ds)[i] == remaining[i] - multiset(ds)[i]
  {
    if ds != [] {
      SettleAt(remaining, ds[..|ds| - 1], i);
      assert ds == ds[..|ds| - 1] + [ds[|ds| - 1]];
    }
  }

  // An item is pushed once, exactly when the last of its open dependencies closes.
  lemma {:induction false} FreedExact(remaining: seq<int>, ds: seq<nat>)
    requires Within(ds, |remaining|)
    requires forall i: nat :: i < |remaining| ==> remaining[i] >= multiset(ds)[i]
    ensures NoDup(Freed(remaining, ds))
    ensures forall i: nat :: i < |remaining| ==>
              (i in Freed(remaining, ds) <==> i in ds && remaining[i] == multiset(ds)[i])
  {
    if ds != [] {
      var init: seq<nat> := ds[..|ds| - 1];
      var last := ds[|ds| - 1];
      assert ds == init + [last];
      forall i: nat | i < |remaining| ensures remaining[i] >= multiset(init)[i] {}
      FreedExact(remaining, init);
      SettleAt(remaining, ds, last);
      assert multiset(ds) == multiset(init) + multiset{last};
      assert remaining[last] > multiset(init)[last];
      assert last !in Freed(remaining, init);
    }
  }

  // Closing `i`: every counter again counts the open entries, and exactly the nodes that lost their last one are freed.
  lemma {:induction false} CloseOne(g: Graph, remaining: seq<int>, done: set<nat>, i: nat)
    requires |remaining| == |g| && i !in done
    requires forall j: nat :: j < |g| ==> remaining[j] == Open(g[j], done)
    ensures var ds := DependentIds(g, i); var after := Settle(remaining, ds);
            && NoDup(Freed(remaining, ds))
            && (forall j: nat :: j < |g| ==> after[j] == Open(g[j], done + {i}) <= remaining[j])
            && (forall j: nat :: j < |g| ==> (j in Freed(remaining, ds) <==> remaining[j] > 0 && after[j] == 0))
  {
    var ds: seq<nat> := DependentIds(g, i);
    forall j: nat | j < |g|
      ensures remaining[j] >= multiset(ds)[j] && Settle(remaining, ds)[j] == Open(g[j], done + {i})
      ensures Settle(remaining, ds)[j] == remaining[j] - multiset(ds)[j]
    {
      DependentCount(g, i, j);
      OpenAfter(g[j], done, i);
      SettleAt(remaining, ds, j);
    }
    FreedExact(remaining, ds);
  }
}
