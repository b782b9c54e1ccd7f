/** Kahn's algorithm into waves, with a witness cycle when it gets stuck. */
module Waves {
  import opened Digraph
  import opened Counters

  datatype Result = Ok(waves: seq<seq<nat>>) | ImportCycle(cycle: seq<nat>)

  ghost predicate Ascending(s: seq<nat>) {
    forall i, j :: 0 <= i < j < |s| ==> s[i] < s[j]
  }

  ghost predicate InSomeWave(waves: seq<seq<nat>>, i: nat) {
    exists k :: 0 <= k < |waves| && i in waves[k]
  }

  // `waves` lists every id below `n` exactly once.
  ghost predicate Partitions(waves: seq<seq<nat>>, n: nat) {
    && (forall k, i: nat :: 0 <= k < |waves| && i in waves[k] ==> i < n)
    && (forall i: nat {:trigger InSomeWave(waves, i)} :: i < n ==> InSomeWave(waves, i))
    && (forall j, k, i: nat :: 0 <= j < k < |waves| && i in waves[j] ==> i !in waves[k])
    && (forall k :: 0 <= k < |waves| ==> Ascending(waves[k]))
  }

  // The longest chain of dependencies from `i` has `k` edges.
  ghost predicate LongestChain(g: Graph, i: nat, k: nat) {
    && (exists p :: Walk(g, p) && p[0] == i && |p| == k + 1)
    && (forall p :: Walk(g, p) && p[0] == i ==> |p| <= k + 1)
  }

  // ----- sorting a wave -----

  function InsertId(x: nat, s: seq<nat>): seq<nat> {
    if s == [] || x <= s[0] then [x] + s else [s[0]] + InsertId(x, s[1..])
  }

  function SortIds(s: seq<nat>): seq<nat> {
    if s == [] then [] else InsertId(s[0], SortIds(s[1..]))
  }

  lemma {:induction false} InsertIdAscends(x: nat, s: seq<nat>)
    requires Ascending(s) && x !in s
    ensures Ascending(InsertId(x, s)) && forall y :: y in InsertId(x, s) <==> y == x || y in s
    ensures |InsertId(x, s)| == |s| + 1
  {
    if s != [] && x > s[0] {
      InsertIdAscends(x, s[1..]);
      var r := InsertId(x, s[1..]);
      assert s == [s[0]] + s[1..];
      forall i, j | 0 <= i < j < |r| + 1 ensures ([s[0]] + r)[i] < ([s[0]] + r)[j] {
        if i == 0 {
          assert r[j - 1] in r;
        }
      }
    }
  }

  lemma {:induction false} SortIdsAscends(s: seq<nat>)
    requires NoDup(s)
    ensures Ascending(SortIds(s)) && |SortIds(s)| == |s| && forall y :: y in SortIds(s) <==> y in s
  {
    if s != [] {
      SortIdsAscends(s[1..]);
      assert s == [s[0]] + s[1..];
      InsertIdAscends(s[0], SortIds(s[1..]));
    }
  }

  // ----- what can be built in `k` waves -----

  // The nodes below `n` whose dependencies all lie in `u`.
  ghost function Buildable(g: Graph, u: set<nat>, n: nat): set<nat>
    requires n <= |g|
  {
    if n == 0 then {} else Buildable(g, u, n - 1) + if Open(g[n - 1], u) == 0 then {n - 1} else {}
  }

  ghost function Closed(g: Graph, k: nat): set<nat> {
    if k == 0 then {} else Buildable(g, Closed(g, k - 1), |g|)
  }

  lemma {:induction false} InBuildable(g: Graph, u: set<nat>, n: nat, i: nat)
    requires n <= |g|
    ensures i in Buildable(g, u, n) <==> i < n && Open(g[i], u) == 0
  {
    if n > 0 { InBuildable(g, u, n - 1, i); }
  }

  lemma {:induction false} InClosed(g: Graph, k: nat, i: nat)
    ensures i in Closed(g, k) ==> i < |g|
    ensures i < |g| ==> (i in Closed(g, k + 1) <==> Open(g[i], Closed(g, k)) == 0)
    ensures i < |g| ==> (i in Closed(g, k + 1) <==> forall d :: d in g[i] ==> d in Closed(g, k))
  {
    InBuildable(g, Closed(g, k), |g|, i);
    if k > 0 { InBuildable(g, Closed(g, k - 1), |g|, i); }
    if i < |g| { OpenBounds(g[i], Closed(g, k)); }
  }

  lemma {:induction false} ClosedBelow(g: Graph, k: nat)
    ensures forall i :: i in Closed(g, k) ==> i < |g|
    ensures |Closed(g, k)| <= |g|
  {
    forall i | i in Closed(g, k) ensures i < |g| {
      InClosed(g, k, i);
    }
    SubsetBound(Closed(g, k), |g|);
  }

  lemma {:induction false} ClosedGrows(g: Graph, k: nat)
    ensures Closed(g, k) <= Closed(g, k + 1)
  {
    if k > 0 {
      ClosedGrows(g, k - 1);
      forall i | i in Closed(g, k) ensures i in Closed(g, k + 1) {
        InClosed(g, k, i);
        InClosed(g, k - 1, i);
      }
    }
  }

  lemma {:induction false} ClosedWithin(g: Graph, j: nat, k: nat)
    requires j <= k
    ensures Closed(g, j) <= Closed(g, k)
  {
    if j < k {
      ClosedWithin(g, j, k - 1);
      ClosedGrows(g, k - 1);
    }
  }

  // Every dependency chain from a node of `Closed(g, k)` has at most `k` nodes.
  lemma {:induction false} ClosedBounds(g: Graph, k: nat, p: seq<nat>)
    requires Walk(g, p) && p[0] in Closed(g, k)
    ensures |p| <= k
  {
    if |p| > 1 {
      assert Edge(g, p[0], p[0 + 1]);
      WalkSlice(g, p, 1, |p|);
      InClosed(g, k - 1, p[0]);
      ClosedBounds(g, k - 1, p[1..|p|]);
    }
  }

  // And some chain from any other node has more.
  lemma {:induction false} OpenHasChain(g: Graph, k: nat, i: nat) returns (p: seq<nat>)
    requires InRange(g) && i < |g| && i !in Closed(g, k)
    ensures Walk(g, p) && p[0] == i && |p| == k + 1
  {
    p := [i];
    if k > 0 {
      InClosed(g, k - 1, i);
      var d :| d in g[i] && d !in Closed(g, k - 1);
      var m :| 0 <= m < |g[i]| && g[i][m] == d;
      var q := OpenHasChain(g, k - 1, d);
      p := [i] + q;
      forall j | 0 <= j < |p| - 1 ensures Edge(g, p[j], p[j + 1]) {
        if j > 0 {
          assert Edge(g, q[j - 1], q[j - 1 + 1]);
        }
      }
    }
  }

  ghost predicate Fresh(g: Graph, k: nat, s: seq<nat>) {
    forall i: nat :: i in s <==> i in Closed(g, k + 1) && i !in Closed(g, k)
  }

  // The nodes that become buildable in wave `k`, listed in ascending order.
  ghost predicate IsWave(g: Graph, k: nat, wave: seq<nat>) {
    Ascending(wave) && Fresh(g, k, wave)
  }

  ghost predicate AreWaves(g: Graph, waves: seq<seq<nat>>) {
    forall k {:trigger IsWave(g, k, waves[k])} :: 0 <= k < |waves| ==> IsWave(g, k, waves[k])
  }

  lemma {:induction false} WaveIsChainLength(g: Graph, waves: seq<seq<nat>>, k: nat, i: nat)
    requires InRange(g) && AreWaves(g, waves) && k < |waves| && i in waves[k]
    ensures i < |g| && LongestChain(g, i, k)
  {
    assert IsWave(g, k, waves[k]);
    ClosedBelow(g, k + 1);
    var p := OpenHasChain(g, k, i);
    forall q | Walk(g, q) && q[0] == i ensures |q| <= k + 1 {
      ClosedBounds(g, k + 1, q);
    }
  }

  // The wave of a node that is buildable within `n` waves.
  ghost function WaveOf(g: Graph, n: nat, i: nat): (k: nat)
    requires i in Closed(g, n)
    ensures k < n && i in Closed(g, k + 1) && i !in Closed(g, k)
  {
    if i in Closed(g, n - 1) then WaveOf(g, n - 1, i) else n - 1
  }

  lemma {:induction false} WavesPartition(g: Graph, waves: seq<seq<nat>>)
    requires InRange(g) && AreWaves(g, waves) && forall i: nat :: i < |g| ==> i in Closed(g, |waves|)
    ensures Partitions(waves, |g|)
  {
    forall k, i: nat | 0 <= k < |waves| && i in waves[k] ensures i < |g| {
      WaveIsChainLength(g, waves, k, i);
    }
    forall i: nat {:trigger InSomeWave(waves, i)} | i < |g| ensures InSomeWave(waves, i) {
      var k := WaveOf(g, |waves|, i);
      assert IsWave(g, k, waves[k]);
    }
    forall j, k, i: nat | 0 <= j < k < |waves| && i in waves[j] ensures i !in waves[k] {
      assert IsWave(g, j, waves[j]) && IsWave(g, k, waves[k]);
      ClosedWithin(g, j + 1, k);
    }
    forall k | 0 <= k < |waves| ensures Ascending(waves[k]) {
      assert IsWave(g, k, waves[k]);
    }
  }

  lemma {:induction false} ClosedIsAcyclic(g: Graph, n: nat)
    requires InRange(g) && forall i: nat :: i < |g| ==> i in Closed(g, n)
    ensures Acyclic(g)
  {
    forall c | ClosedWalk(g, c) ensures false {
      assert Edge(g, c[0], c[0 + 1]);
      WaveDropsOnWalk(g, n, c, |c| - 1);
    }
  }

  lemma {:induction false} WaveDropsOnWalk(g: Graph, n: nat, p: seq<nat>, m: nat)
    requires Walk(g, p) && 0 < m < |p| && p[0] in Closed(g, n)
    ensures p[m] in Closed(g, WaveOf(g, n, p[0]))
  {
    var k := WaveOf(g, n, p[0]);
    if m == 1 {
      InClosed(g, k, p[0]);
      assert Edge(g, p[0], p[0 + 1]);
    } else {
      WaveDropsOnWalk(g, n, p, m - 1);
      InClosed(g, k - 1, p[m - 1]);
      assert Edge(g, p[m - 1], p[m - 1 + 1]);
      ClosedWithin(g, k - 1, k);
    }
  }

  // ----- one round -----

  ghost predicate CountersOf(g: Graph, remaining: seq<int>, done: set<nat>) {
    |remaining| == |g| && forall j: nat :: j < |g| ==> remaining[j] == Open(g[j], done)
  }

  // `next` is what became free between `done` and `done'`.
  ghost predicate FreedBetween(g: Graph, next: seq<nat>, done: set<nat>, done': set<nat>) {
    && (forall j :: j in next ==> j < |g|)
    && (forall j: nat :: j < |g| ==> (j in next <==> Open(g[j], done) > 0 && Open(g[j], done') == 0))
  }

  lemma {:induction false} RoundStep(g: Graph, remaining: seq<int>, next: seq<nat>, done: set<nat>, mid: set<nat>,
                                     i: nat)
    requires CountersOf(g, remaining, mid) && FreedBetween(g, next, done, mid) && NoDup(next) && i !in mid && i < |g|
             && done <= mid
    ensures var ds := DependentIds(g, i);
            && CountersOf(g, Settle(remaining, ds), mid + {i})
            && FreedBetween(g, next + Freed(remaining, ds), done, mid + {i})
            && NoDup(next + Freed(remaining, ds))
  {
    CloseOne(g, remaining, mid, i);
    var freed := Freed(remaining, DependentIds(g, i));
    var all := next + freed;
    forall j: nat | j < |g| ensures Open(g[j], mid) <= Open(g[j], done) {
      OpenShrinks(g[j], done, mid);
    }
    forall a, b | 0 <= a < b < |all| ensures all[a] != all[b] {
      if a < |next| <= b {
        assert all[a] in next && all[b] in freed;
      }
    }
    forall k | 0 <= k < |freed| ensures freed[k] < |g| {}
  }

  lemma {:induction false} OpenShrinks(ds: seq<nat>, done: set<nat>, more: set<nat>)
    requires done <= more
    ensures Open(ds, more) <= Open(ds, done)
  {
    if ds != [] { OpenShrinks(ds[..|ds| - 1], done, more); }
  }

  method Round(g: Graph, dependents: seq<seq<nat>>, remaining: seq<int>, wave: seq<nat>, ghost done: set<nat>,
               ghost done': set<nat>)
    returns (remaining': seq<int>, next: seq<nat>)
    requires |dependents| == |g| && forall d :: 0 <= d < |g| ==> dependents[d] == DependentIds(g, d)
    requires CountersOf(g, remaining, done) && NoDup(wave)
    requires forall i :: i in wave ==> i < |g| && i !in done
    requires forall i: nat :: i in done' <==> i in done || i in wave
    ensures CountersOf(g, remaining', done')
    ensures FreedBetween(g, next, done, done') && NoDup(next)
  {
    remaining', next := remaining, [];
    ghost var mid := done;
    for k := 0 to |wave|
      invariant forall i: nat :: i in mid <==> i in done || i in wave[..k]
      invariant CountersOf(g, remaining', mid) && FreedBetween(g, next, done, mid) && NoDup(next)
    {
      var i := wave[k];
      assert i in wave;
      RoundStep(g, remaining', next, done, mid, i);
      remaining', next := SettleLoop(remaining', next, dependents[i]);
      mid := mid + {i};
    }
    assert wave[..|wave|] == wave;
    assert mid == done';
  }

  // ----- the loop over waves -----

  // What is free after wave `k` is wave `k + 1`.
  lemma {:induction false} FreedIsNextWave(g: Graph, k: nat, next: seq<nat>)
    requires FreedBetween(g, next, Closed(g, k), Closed(g, k + 1))
    ensures Fresh(g, k + 1, next)
  {
    ClosedBelow(g, k + 2);
    forall i: nat ensures i in next <==> i in Closed(g, k + 2) && i !in Closed(g, k + 1) {
      if i < |g| {
        InClosed(g, k, i);
        InClosed(g, k + 1, i);
      }
    }
  }

  // Once a wave is empty, whatever is left waits for something left.
  lemma {:induction false} LeftIsStuck(g: Graph, k: nat, left: set<nat>)
    requires InRange(g) && Fresh(g, k, [])
    requires forall i: nat :: i in left <==> i < |g| && i !in Closed(g, k)
    ensures Stuck(g, left)
  {
    forall a | a in left ensures a < |g| && WaitsInside(g, left, a) {
      InClosed(g, k, a);
      var d :| d in g[a] && d !in Closed(g, k);
      var m :| 0 <= m < |g[a]| && g[a][m] == d;
      assert Edge(g, a, d) && d in left;
    }
  }

  lemma {:induction false} InitialCounters(g: Graph, remaining: seq<int>)
    requires |remaining| == |g| && forall i :: 0 <= i < |g| ==> remaining[i] == |g[i]|
    ensures CountersOf(g, remaining, {})
    ensures forall i: nat :: i < |g| && remaining[i] == 0 <==> i in Closed(g, 1)
  {
    forall j: nat | j < |g| ensures remaining[j] == Open(g[j], {}) {
      OpenBounds(g[j], {});
    }
    ClosedBelow(g, 1);
    forall i: nat ensures i < |g| && remaining[i] == 0 <==> i in Closed(g, 1) {
      if i < |g| { InClosed(g, 0, i); }
    }
  }

  function SourcesBelow(remaining: seq<int>, n: nat): (r: seq<nat>)
    requires n <= |remaining|
    ensures Ascending(r) && forall i: nat :: i in r <==> i < n && remaining[i] == 0
  {
    if n == 0 then [] else
      var r := SourcesBelow(remaining, n - 1);
      assert forall k :: 0 <= k < |r| ==> r[k] in r;
      if remaining[n - 1] == 0 then r + [n - 1] else r
  }

  ghost predicate LeftOf(remaining: seq<int>, left: set<nat>) {
    forall i: nat :: i in left <==> i < |remaining| && remaining[i] > 0
  }

  method FirstPositive(remaining: seq<int>, ghost left: set<nat>) returns (start: nat)
    requires LeftOf(remaining, left) && left != {}
    ensures start in left
  {
    start := 0;
    ghost var some :| some in left;
    while remaining[start] <= 0
      invariant start <= some && forall i :: 0 <= i < start ==> remaining[i] <= 0
      decreases some - start
    {
      start := start + 1;
    }
  }

  method FirstLeft(ds: seq<nat>, remaining: seq<int>) returns (next: nat)
    requires Within(ds, |remaining|) && exists d :: d in ds && d < |remaining| && remaining[d] > 0
    ensures next in ds && next < |remaining| && remaining[next] > 0
  {
    for k := 0 to |ds|
      invariant forall j :: 0 <= j < k ==> remaining[ds[j]] <= 0
    {
      if remaining[ds[k]] > 0 {
        return ds[k];
      }
    }
    assert false;
  }

  // The walk among the leftover nodes: the lookup never fails, and it ends within as many steps as there are nodes.
  method WitnessCycle(g: Graph, remaining: seq<int>, ghost left: set<nat>, start: nat) returns (cycle: seq<nat>)
    requires InRange(g) && |remaining| == |g| && Stuck(g, left) && start in left
    requires LeftOf(remaining, left)
    ensures ClosedWalk(g, cycle) && |cycle| <= |g| + 1
  {
    var path := [start];
    var seen: map<nat, nat> := map[start := 0];
    SubsetBound(left, |g|);
    while true
      invariant |path| >= 1 && Walk(g, path) && NoDup(path) && forall k :: 0 <= k < |path| ==> path[k] in left
      invariant forall x :: x in seen <==> x in path
      invariant forall x :: x in seen ==> seen[x] < |path| && path[seen[x]] == x
      decreases |g| - |path|
    {
      var cur := path[|path| - 1];
      assert WaitsInside(g, left, cur);
      var next := FirstLeft(g[cur], remaining);
      WalkExtend(g, path, next);
      DistinctFits(path, left);
      if next in seen {
        var at := seen[next];
        cycle := path[at..] + [next];
        WalkSlice(g, path + [next], at, |path| + 1);
        assert cycle == (path + [next])[at..|path| + 1];
        return;
      }
      DistinctFits(path + [next], left);
      seen := seen[next := |path|];
      path := path + [next];
    }
  }

  lemma {:induction false} FreshIds(g: Graph, k: nat, wave: seq<nat>)
    requires NoDup(wave) && Fresh(g, k, wave)
    ensures forall i: nat :: i in Closed(g, k + 1) <==> i in Closed(g, k) || i in wave
    ensures forall i :: i in wave ==> i < |g|
    ensures |Closed(g, k + 1)| == |Closed(g, k)| + |wave| <= |g|
  {
    IdsSize(wave);
    ClosedGrows(g, k);
    ClosedBelow(g, k + 1);
    assert Closed(g, k + 1) == Closed(g, k) + Ids(wave);
    assert Closed(g, k) !! Ids(wave);
  }

  method Peel(g: Graph) returns (waves: seq<seq<nat>>, remaining: seq<int>, done: nat)
    requires InRange(g)
    ensures AreWaves(g, waves) && CountersOf(g, remaining, Closed(g, |waves|))
    ensures Fresh(g, |waves|, []) && done == |Closed(g, |waves|)|
  {
    var adjacency := ReverseAdjacency(g);
    remaining := seq(|g|, i requires 0 <= i < |g| => |g[i]|);
    waves, done := [], 0;
    var ready := SourcesBelow(remaining, |g|);
    InitialCounters(g, remaining);
    while ready != []
      invariant CountersOf(g, remaining, Closed(g, |waves|))
      invariant AreWaves(g, waves)
      invariant NoDup(ready) && Fresh(g, |waves|, ready)
      invariant done == |Closed(g, |waves|)| <= |g|
      decreases |g| - done
    {
      var wave;
      wave, remaining, ready := NextWave(g, adjacency, remaining, ready, |waves|);
      waves, done := waves + [wave], done + |wave|;
    }
  }

  // Place everything that is ready and close it.
  method NextWave(g: Graph, adjacency: seq<seq<nat>>, remaining: seq<int>, ready: seq<nat>, ghost k: nat)
    returns (wave: seq<nat>, remaining': seq<int>, ready': seq<nat>)
    requires |adjacency| == |g| && forall d :: 0 <= d < |g| ==> adjacency[d] == DependentIds(g, d)
    requires CountersOf(g, remaining, Closed(g, k)) && NoDup(ready) && Fresh(g, k, ready)
    ensures IsWave(g, k, wave) && |wave| == |ready| && |Closed(g, k + 1)| == |Closed(g, k)| + |wave| <= |g|
    ensures CountersOf(g, remaining', Closed(g, k + 1)) && NoDup(ready') && Fresh(g, k + 1, ready')
  {
    SortIdsAscends(ready);
    wave := SortIds(ready);
    FreshIds(g, k, wave);
    remaining', ready' := Round(g, adjacency, remaining, wave, Closed(g, k), Closed(g, k + 1));
    FreedIsNextWave(g, k, ready');
  }

  lemma {:induction false} AllBuilt(g: Graph, waves: seq<seq<nat>>)
    requires InRange(g) && AreWaves(g, waves) && |Closed(g, |waves|)| >= |g|
    ensures Acyclic(g) && Partitions(waves, |g|)
    ensures forall k, i: nat :: 0 <= k < |waves| && i in waves[k] ==> LongestChain(g, i, k)
  {
    ClosedBelow(g, |waves|);
    IdsFill(Closed(g, |waves|), |g|);
    WavesPartition(g, waves);
    ClosedIsAcyclic(g, |waves|);
    forall k, i: nat | 0 <= k < |waves| && i in waves[k] ensures LongestChain(g, i, k) {
      WaveIsChainLength(g, waves, k, i);
    }
  }

  // At the end a counter is positive exactly for what could not be built.
  lemma {:induction false} Leftover(g: Graph, remaining: seq<int>, k: nat) returns (left: set<nat>)
    requires InRange(g) && CountersOf(g, remaining, Closed(g, k)) && Fresh(g, k, [])
    requires |Closed(g, k)| < |g|
    ensures Stuck(g, left) && LeftOf(remaining, left) && left != {}
  {
    left := set i | 0 <= i < |g| && i !in Closed(g, k);
    LeftIsStuck(g, k, left);
    ClosedGrows(g, k);
    forall i: nat | i < |g| ensures remaining[i] > 0 <==> i !in Closed(g, k) {
      InClosed(g, k, i);
    }
    ClosedBelow(g, k);
    IdsFill(Closed(g, k), |g|);
    var i: nat :| i < |g| && i !in Closed(g, k);
    assert i in left;
  }

  /** `topo_waves` on a closed graph. */
  method TopoWaves(g: Graph) returns (r: Result)
    requires InRange(g)
    ensures r.Ok? <==> Acyclic(g)
    ensures r.Ok? ==> Partitions(r.waves, |g|)
    ensures r.Ok? ==> forall k, i: nat :: 0 <= k < |r.waves| && i in r.waves[k] ==> LongestChain(g, i, k)
    ensures r.ImportCycle? ==> ClosedWalk(g, r.cycle) && |r.cycle| <= |g| + 1
  {
    var waves, remaining, done := Peel(g);
    if done < |g| {
      ghost var left := Leftover(g, remaining, |waves|);
      var start := FirstPositive(remaining, left);
      var cycle := WitnessCycle(g, remaining, left, start);
      return ImportCycle(cycle);
    }
    AllBuilt(g, waves);
    return Ok(waves);
  }
}
