/** Dependency graphs as the schedulers see them: node `i` waits for every entry of `g[i]`.
    Entries may repeat and, in a forged graph, may name no node at all. */
module Digraph {

  type Graph = seq<seq<nat>>

  ghost predicate NoDup<T>(s: seq<T>) {
    forall i, j :: 0 <= i < j < |s| ==> s[i] != s[j]
  }

  ghost predicate InRange(g: Graph) {
    forall i, k :: 0 <= i < |g| && 0 <= k < |g[i]| ==> g[i][k] < |g|
  }

  // `a` waits for `b`.
  ghost predicate Edge(g: Graph, a: nat, b: nat) {
    a < |g| && b in g[a]
  }

  ghost predicate Walk(g: Graph, p: seq<nat>) {
    && |p| >= 1
    && forall k :: 0 <= k < |p| - 1 ==> Edge(g, p[k], p[k + 1])
  }

  ghost predicate ClosedWalk(g: Graph, p: seq<nat>) {
    |p| >= 2 && p[0] == p[|p| - 1] && Walk(g, p)
  }

  ghost predicate Acyclic(g: Graph) {
    forall p :: !ClosedWalk(g, p)
  }

  ghost predicate Reaches(g: Graph, a: nat, b: nat) {
    exists p :: Walk(g, p) && p[0] == a && p[|p| - 1] == b
  }

  ghost predicate OnCycle(g: Graph, i: nat) {
    exists c: seq<nat> :: ClosedWalk(g, c) && i in c
  }

  ghost predicate Dangling(g: Graph, i: nat) {
    i < |g| && exists d :: d in g[i] && d >= |g|
  }

  ghost predicate ReachesCycle(g: Graph, i: nat) {
    exists c: seq<nat> :: ClosedWalk(g, c) && Reaches(g, i, c[0])
  }

  ghost predicate ReachesDangling(g: Graph, i: nat) {
    exists j: nat :: Reaches(g, i, j) && Dangling(g, j)
  }

  // No schedule can start the node: a matter of the graph alone.
  ghost predicate Doomed(g: Graph, i: nat) {
    ReachesCycle(g, i) || ReachesDangling(g, i)
  }

  lemma {:induction false} ReachesItself(g: Graph, i: nat)
    ensures Reaches(g, i, i)
  {
    assert Walk(g, [i]) && [i][0] == i && [i][|[i]| - 1] == i;
  }

  lemma {:induction false} SoundHasNoDoomed(g: Graph)
    requires Acyclic(g) && InRange(g)
    ensures forall i: nat :: !Doomed(g, i)
  {
    forall j: nat ensures !Dangling(g, j) {}
  }

  // A numbering that drops along every edge.
  ghost predicate Ranked(g: Graph, rank: seq<nat>) {
    && |rank| == |g|
    && forall a: nat, b: nat :: Edge(g, a, b) ==> b < |g| && rank[b] < rank[a]
  }

  lemma {:induction false} DistinctFits(p: seq<nat>, u: set<nat>)
    requires NoDup(p)
    requires forall k :: 0 <= k < |p| ==> p[k] in u
    ensures |p| <= |u|
  {
    if p != [] {
      var init := p[..|p| - 1];
      DistinctFits(init, u - {p[|p| - 1]});
    }
  }

  // ----- sets of ids below a bound -----

  function Ids(s: seq<nat>): set<nat> {
    set i | i in s
  }

  lemma {:induction false} IdsSize(s: seq<nat>)
    requires NoDup(s)
    ensures |Ids(s)| == |s|
  {
    if s == [] {
      assert Ids(s) == {};
    } else {
      var init := s[..|s| - 1];
      IdsSize(init);
      assert s == init + [s[|s| - 1]];
      assert Ids(s) == Ids(init) + {s[|s| - 1]};
    }
  }

  lemma {:induction false} SubsetSize<T>(a: set<T>, b: set<T>)
    requires a <= b
    ensures |a| <= |b|
  {
    if a != {} {
      var x :| x in a;
      SubsetSize(a - {x}, b - {x});
    }
  }

  lemma {:induction false} SubsetBound(u: set<nat>, n: nat)
    requires forall i :: i in u ==> i < n
    ensures |u| <= n
  {
    if n > 0 {
      SubsetBound(u - {n - 1}, n - 1);
    } else {
      assert u == {};
    }
  }

  lemma {:induction false} AllIds(u: set<nat>, n: nat)
    requires forall i: nat :: i in u <==> i < n
    ensures |u| == n
  {
    if n > 0 {
      AllIds(u - {n - 1}, n - 1);
    } else {
      assert u == {};
    }
  }

  // A set of ids below `n` is full exactly when it has `n` members.
  lemma {:induction false} IdsFill(u: set<nat>, n: nat)
    requires forall i :: i in u ==> i < n
    ensures |u| <= n
    ensures |u| == n <==> forall i: nat :: i < n ==> i in u
  {
    SubsetBound(u, n);
    if i: nat :| i < n && i !in u {
      SubsetBound(u + {i}, n);
    } else {
      AllIds(u, n);
    }
  }

  // The members in ascending order.
  method SortedIds(ids: set<nat>) returns (list: seq<nat>)
    ensures NoDup(list) && forall n :: n in list <==> n in ids
    ensures forall i, j :: 0 <= i < j < |list| ==> list[i] < list[j]
  {
    list := [];
    var left := ids;
    while left != {}
      invariant left <= ids && forall n :: n in list <==> n in ids && n !in left
      invariant forall i, j :: 0 <= i < j < |list| ==> list[i] < list[j]
      invariant forall n, m :: n in list && m in left ==> n < m
    {
      var least :| least in left;
      var rest := left - {least};
      while rest != {}
        invariant rest <= left && least in left && least !in rest
        invariant forall m :: m in left && m !in rest ==> least <= m
        decreases |rest|
      {
        var m :| m in rest;
        rest := rest - {m};
        if m < least {
          least := m;
        }
      }
      ghost var before := list;
      list, left := list + [least], left - {least};
      forall a, b | 0 <= a < b < |list| ensures list[a] < list[b] {
        assert before[a] in before;
      }
    }
  }

  lemma {:induction false} RankDropsAlong(g: Graph, rank: seq<nat>, p: seq<nat>, k: nat)
    requires Ranked(g, rank) && Walk(g, p) && 0 < k < |p|
    ensures p[0] < |g| && p[k] < |g| && rank[p[k]] < rank[p[0]]
  {
    assert Edge(g, p[k - 1], p[k]);
    if k > 1 {
      RankDropsAlong(g, rank, p, k - 1);
    }
  }

  lemma {:induction false} RankedIsAcyclic(g: Graph, rank: seq<nat>)
    requires Ranked(g, rank)
    ensures Acyclic(g) && InRange(g)
  {
    forall p | ClosedWalk(g, p) ensures false {
      RankDropsAlong(g, rank, p, |p| - 1);
    }
    forall i, k | 0 <= i < |g| && 0 <= k < |g[i]| ensures g[i][k] < |g| {
      assert Edge(g, i, g[i][k]);
    }
  }

  ghost function IndexOf(s: seq<nat>, x: nat): (k: nat)
    requires x in s
    ensures k < |s| && s[k] == x
  {
    var k :| 0 <= k < |s| && s[k] == x;
    k
  }

  // An order of all nodes in which dependencies come first numbers them.
  lemma {:induction false} OrderRanks(g: Graph, order: seq<nat>)
    requires NoDup(order) && (forall i: nat :: i < |g| ==> i in order) && forall i :: i in order ==> i < |g|
    requires forall k, d :: 0 <= k < |order| && order[k] < |g| && d in g[order[k]] ==> d in order[..k]
    ensures Acyclic(g) && InRange(g)
  {
    var rank := seq(|g|, i requires 0 <= i < |g| => IndexOf(order, i));
    forall a: nat, b: nat | Edge(g, a, b) ensures b < |g| && rank[b] < rank[a] {
      var j := IndexOf(order, a);
      assert b in order[..j];
      var k: nat :| k < j && order[k] == b;
      assert b in order;
      assert IndexOf(order, b) == k;
    }
    RankedIsAcyclic(g, rank);
  }

  ghost predicate WaitsInside(g: Graph, u: set<nat>, a: nat) {
    exists b :: b in u && Edge(g, a, b)
  }

  // Every node of `u` waits for another node of `u`.
  ghost predicate Stuck(g: Graph, u: set<nat>) {
    forall a {:trigger WaitsInside(g, u, a)} :: a in u ==> a < |g| && WaitsInside(g, u, a)
  }

  lemma {:induction false} WalkExtend(g: Graph, p: seq<nat>, b: nat)
    requires Walk(g, p) && Edge(g, p[|p| - 1], b)
    ensures Walk(g, p + [b])
  {
    var q := p + [b];
    forall k | 0 <= k < |q| - 1 ensures Edge(g, q[k], q[k + 1]) {
      if k < |p| - 1 {
        assert Edge(g, p[k], p[k + 1]);
        assert q[k] == p[k] && q[k + 1] == p[k + 1];
      }
    }
  }

  lemma {:induction false} WalkSlice(g: Graph, p: seq<nat>, i: nat, j: nat)
    requires Walk(g, p) && i < j <= |p|
    ensures Walk(g, p[i..j])
  {
    var q := p[i..j];
    forall k | 0 <= k < |q| - 1 ensures Edge(g, q[k], q[k + 1]) {
      assert Edge(g, p[i + k], p[i + k + 1]);
      assert q[k] == p[i + k] && q[k + 1] == p[i + k + 1];
    }
  }

  // A walk that stays in a stuck set can be prolonged until it bites its own tail.
  lemma {:induction false} WalkBitesTail(g: Graph, u: set<nat>, p: seq<nat>) returns (q: seq<nat>, at: nat)
    requires Stuck(g, u)
    requires Walk(g, p) && NoDup(p)
    requires forall k :: 0 <= k < |p| ==> p[k] in u
    ensures p <= q && Walk(g, q) && at < |q| - 1 && q[at] == q[|q| - 1]
    decreases |u| + 1 - |p|
  {
    DistinctFits(p, u);
    assert WaitsInside(g, u, p[|p| - 1]);
    var b :| b in u && Edge(g, p[|p| - 1], b);
    WalkExtend(g, p, b);
    if b in p {
      at :| 0 <= at < |p| && p[at] == b;
      q := p + [b];
    } else {
      q, at := WalkBitesTail(g, u, p + [b]);
    }
  }

  lemma {:induction false} StuckHasCycle(g: Graph, u: set<nat>, a: nat) returns (c: seq<nat>)
    requires Stuck(g, u) && a in u
    ensures ClosedWalk(g, c) && Reaches(g, a, c[0])
    ensures !Acyclic(g)
  {
    var q, at := WalkBitesTail(g, u, [a]);
    c := q[at..|q|];
    WalkSlice(g, q, at, |q|);
    WalkSlice(g, q, 0, at + 1);
    assert q[0..at + 1][at] == c[0];
    assert ClosedWalk(g, c);
  }

  // ----- reverse adjacency -----

  // The `e.1`-th entry of `g[e.0]` is `d`.
  ghost predicate IsOcc(g: Graph, d: nat, e: (nat, nat)) {
    e.0 < |g| && e.1 < |g[e.0]| && g[e.0][e.1] == d
  }

  function OccIn(ds: seq<nat>, i: nat, d: nat): seq<(nat, nat)> {
    if ds == [] then [] else
      OccIn(ds[..|ds| - 1], i, d) + if ds[|ds| - 1] == d then [(i, |ds| - 1)] else []
  }

  // Every occurrence of `d`, in node order and then in list order.
  function Dependents(g: Graph, d: nat): seq<(nat, nat)> {
    if g == [] then [] else
      Dependents(g[..|g| - 1], d) + OccIn(g[|g| - 1], |g| - 1, d)
  }

  lemma {:induction false} OccInExact(ds: seq<nat>, i: nat, d: nat)
    ensures NoDup(OccIn(ds, i, d))
    ensures forall e :: e in OccIn(ds, i, d) <==> e.0 == i && e.1 < |ds| && ds[e.1] == d
  {
    if ds != [] {
      OccInExact(ds[..|ds| - 1], i, d);
    }
  }

  lemma {:induction false} DependentsExact(g: Graph, d: nat)
    ensures NoDup(Dependents(g, d))
    ensures forall e :: e in Dependents(g, d) <==> IsOcc(g, d, e)
  {
    if g != [] {
      var h := g[..|g| - 1];
      DependentsExact(h, d);
      OccInExact(g[|g| - 1], |g| - 1, d);
      var a, b := Dependents(h, d), OccIn(g[|g| - 1], |g| - 1, d);
      assert forall e :: e in a ==> e.0 < |h|;
      assert Dependents(g, d) == a + b;
      forall e ensures e in Dependents(g, d) <==> IsOcc(g, d, e) {
        assert e in a + b <==> e in a || e in b;
        assert IsOcc(h, d, e) ==> IsOcc(g, d, e);
      }
    }
  }

  function Firsts(es: seq<(nat, nat)>): (r: seq<nat>)
    ensures |r| == |es| && forall k :: 0 <= k < |es| ==> r[k] == es[k].0
  {
    seq(|es|, k requires 0 <= k < |es| => es[k].0)
  }

  // The loop all three schedulers open with; an entry that names no node is skipped.
  method ReverseAdjacency(g: Graph) returns (dependents: seq<seq<nat>>)
    ensures |dependents| == |g|
    ensures forall d :: 0 <= d < |g| ==> dependents[d] == Firsts(Dependents(g, d))
  {
    dependents := seq(|g|, _ => []);
    for i := 0 to |g|
      invariant |dependents| == |g|
      invariant forall d :: 0 <= d < |g| ==> dependents[d] == Firsts(Dependents(g[..i], d))
    {
      ghost var before := dependents;
      for k := 0 to |g[i]|
        invariant |dependents| == |g|
        invariant forall d :: 0 <= d < |g| ==> dependents[d] == before[d] + Firsts(OccIn(g[i][..k], i, d))
      {
        var d := g[i][k];
        assert g[i][..k + 1][..k] == g[i][..k];
        if d < |g| {
          dependents := dependents[d := dependents[d] + [i]];
        }
      }
      assert g[i][..|g[i]|] == g[i];
      assert g[..i + 1][..i] == g[..i];
    }
    assert g[..|g|] == g;
  }
}
