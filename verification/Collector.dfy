/** Auto-bound implicits: the worklist that puts the metavariables of a type before whatever needs them. */
module Collector {
  import opened Options
  import opened MVars

  // A collected argument: a metavariable, or a local (an auto-bound implicit or an explicit binder).
  datatype Entry = Meta(m: MVarId) | Local(x: nat)

  // What the collector reads: for each declared metavariable, `get_mvars` of its type; and the assigned ones.
  datatype Context = Context(deps: map<MVarId, seq<MVarId>>, solved: set<MVarId>)

  datatype Result<+T> = Ok(value: T) | UndeclaredMVar(m: MVarId)

  function Metas(es: seq<Entry>): (r: set<MVarId>)
    ensures forall m :: m in r <==> Meta(m) in es
  {
    set e | e in es && e.Meta? :: e.m
  }

  ghost predicate Step(cx: Context, a: MVarId, b: MVarId) {
    a in cx.deps && b in cx.deps[a]
  }

  // `a` needs `b`, in one step or more.
  ghost predicate Leads(cx: Context, a: MVarId, b: MVarId) {
    exists p: seq<MVarId> :: Trail(cx, p) && p[0] == a && p[|p| - 1] == b
  }

  ghost predicate Trail(cx: Context, p: seq<MVarId>) {
    |p| >= 2 && forall k :: 0 <= k < |p| - 1 ==> Step(cx, p[k], p[k + 1])
  }

  lemma {:induction false} LeadsOnce(cx: Context, a: MVarId, b: MVarId)
    requires Step(cx, a, b)
    ensures Leads(cx, a, b)
  {
    var p := [a, b];
    assert Trail(cx, p) && p[0] == a && p[|p| - 1] == b;
  }

  lemma {:induction false} LeadsOn(cx: Context, a: MVarId, b: MVarId, c: MVarId)
    requires Leads(cx, a, b) && Step(cx, b, c)
    ensures Leads(cx, a, c)
  {
    var p :| Trail(cx, p) && p[0] == a && p[|p| - 1] == b;
    var q := p + [c];
    forall k | 0 <= k < |q| - 1 ensures Step(cx, q[k], q[k + 1]) {
      if k < |p| - 1 { assert Step(cx, p[k], p[k + 1]); }
    }
    assert Trail(cx, q) && q[0] == a && q[|q| - 1] == c;
  }

  // ----- the specification -----

  // Unassigned and not collected before.
  predicate Wanted(cx: Context, prior: set<MVarId>, m: MVarId) {
    m !in cx.solved && m !in prior
  }

  ghost predicate DepsIn(cx: Context, m: MVarId, c: set<MVarId>) {
    m in cx.deps ==> forall d :: d in cx.deps[m] ==> d in c
  }

  // `c` holds the roots and the dependencies of its wanted members.
  ghost predicate ClosedSet(cx: Context, prior: set<MVarId>, roots: seq<MVarId>, c: set<MVarId>) {
    && (forall m :: m in roots ==> m in c)
    && (forall m {:trigger DepsIn(cx, m, c)} :: m in c && Wanted(cx, prior, m) ==> DepsIn(cx, m, c))
  }

  // `m` is needed: no closed set does without it.
  ghost predicate Needed(cx: Context, prior: set<MVarId>, roots: seq<MVarId>, m: MVarId) {
    forall c: set<MVarId> {:trigger ClosedSet(cx, prior, roots, c)} :: ClosedSet(cx, prior, roots, c) ==> m in c
  }

  // At `k`, everything the entry depends on is assigned, earlier, or depends on the entry itself.
  ghost predicate DepsBefore(cx: Context, es: seq<Entry>, k: nat)
    requires k < |es|
  {
    es[k].Meta? && es[k].m in cx.deps ==>
      forall d :: d in cx.deps[es[k].m] ==> d in cx.solved || Meta(d) in es[..k] || Leads(cx, d, es[k].m)
  }

  ghost predicate NoRepeat(es: seq<Entry>) {
    forall i, j :: 0 <= i < j < |es| && es[i].Meta? ==> es[i] != es[j]
  }

  ghost predicate Collected(cx: Context, prior: seq<Entry>, roots: seq<MVarId>, es: seq<Entry>) {
    && prior <= es
    && (NoRepeat(prior) ==> NoRepeat(es))
    && (forall k :: |prior| <= k < |es| ==> es[k].Meta? && Wanted(cx, Metas(prior), es[k].m) && es[k].m in cx.deps)
    && (forall k :: |prior| <= k < |es| ==> DepsBefore(cx, es, k))
    && (forall m :: m in roots ==> m in cx.solved || Meta(m) in es)
    && (forall k, d :: |prior| <= k < |es| && d in cx.deps[es[k].m] ==> d in cx.solved || Meta(d) in es)
    && (forall k :: |prior| <= k < |es| ==> Needed(cx, Metas(prior), roots, es[k].m))
  }

  // ----- the loop -----

  // Popped but waiting for its dependencies.
  predicate Pending(cx: Context, visited: set<MVarId>, out: seq<Entry>, m: MVarId) {
    m in visited && m !in cx.solved && Meta(m) !in out
  }

  predicate DepsQueued(cx: Context, visited: set<MVarId>, m: MVarId, before: seq<MVarId>) {
    m in cx.deps ==> forall d :: d in cx.deps[m] ==> d in visited || d in before
  }

  // Wherever a pending metavariable is queued, its dependencies are visited or queued before it.
  ghost predicate Ready(cx: Context, visited: set<MVarId>, out: seq<Entry>, todo: seq<MVarId>) {
    forall k {:trigger todo[k]} :: 0 <= k < |todo| && Pending(cx, visited, out, todo[k]) ==>
      DepsQueued(cx, visited, todo[k], todo[..k])
  }

  ghost predicate AtDepth(cx: Context, todo: seq<MVarId>, g: MVarId, k: nat) {
    k < |todo| && todo[k] == g && forall j :: 0 <= j < k ==> Leads(cx, g, todo[j])
  }

  // A pending metavariable is queued behind nothing but what it needs.
  ghost predicate Stacked(cx: Context, visited: set<MVarId>, out: seq<Entry>, todo: seq<MVarId>) {
    forall g {:trigger Pending(cx, visited, out, g)} :: Pending(cx, visited, out, g) ==>
      exists k :: AtDepth(cx, todo, g, k)
  }

  ghost predicate AllNeeded(cx: Context, prior: seq<Entry>, roots: seq<MVarId>, ms: set<MVarId>) {
    forall m {:trigger Needed(cx, Metas(prior), roots, m)} :: m in ms ==>
        Needed(cx, Metas(prior), roots, m) || m in Metas(prior)
  }

  ghost predicate Emitted(cx: Context, prior: seq<Entry>, visited: set<MVarId>, out: seq<Entry>) {
    && prior <= out
    && (NoRepeat(prior) ==> NoRepeat(out))
    && (forall k :: 0 <= k < |out| && out[k].Meta? ==> out[k].m in visited)
    && (forall k :: |prior| <= k < |out| ==>
         out[k].Meta? && Wanted(cx, Metas(prior), out[k].m) && out[k].m in cx.deps && DepsIn(cx, out[k].m, visited))
    && (forall k :: |prior| <= k < |out| ==> DepsBefore(cx, out, k))
  }

  function Fresh(ds: seq<MVarId>, visited: set<MVarId>): (r: seq<MVarId>)
    ensures forall d :: d in r <==> d in ds && d !in visited
  {
    if ds == [] then [] else
      (if ds[0] in visited then [] else [ds[0]]) + Fresh(ds[1..], visited)
  }

  // Popping an entry that is not pending.
  lemma {:induction false} DropReady(cx: Context, visited: set<MVarId>, out: seq<Entry>, out': seq<Entry>,
                                     todo: seq<MVarId>)
    requires todo != [] && Ready(cx, visited, out, todo) && out <= out'
    requires cx.solved >= {todo[0]} || Meta(todo[0]) in out'
    ensures Ready(cx, visited + {todo[0]}, out', todo[1..])
  {
    var m, rest, visited' := todo[0], todo[1..], visited + {todo[0]};
    forall k {:trigger rest[k]} | 0 <= k < |rest| && Pending(cx, visited', out', rest[k])
      ensures DepsQueued(cx, visited', rest[k], rest[..k])
    {
      assert Pending(cx, visited, out, todo[k + 1]);
      assert todo[..k + 1] == [m] + rest[..k];
    }
  }

  lemma {:induction false} DropStacked(cx: Context, visited: set<MVarId>, out: seq<Entry>, out': seq<Entry>,
                                       todo: seq<MVarId>)
    requires todo != [] && Stacked(cx, visited, out, todo) && out <= out'
    requires cx.solved >= {todo[0]} || Meta(todo[0]) in out'
    ensures Stacked(cx, visited + {todo[0]}, out', todo[1..])
  {
    var m, rest, visited' := todo[0], todo[1..], visited + {todo[0]};
    forall g {:trigger Pending(cx, visited', out', g)} | Pending(cx, visited', out', g)
      ensures exists k :: AtDepth(cx, rest, g, k)
    {
      assert Pending(cx, visited, out, g);
      var k: nat :| AtDepth(cx, todo, g, k);
      assert AtDepth(cx, rest, g, k - 1);
    }
  }

  // Putting an entry back behind its fresh dependencies.
  lemma {:induction false} PushReady(cx: Context, visited: set<MVarId>, out: seq<Entry>, todo: seq<MVarId>,
                                     news: seq<MVarId>)
    requires todo != [] && Ready(cx, visited, out, todo)
    requires todo[0] in cx.deps && forall d :: d in cx.deps[todo[0]] ==> d in visited + {todo[0]} || d in news
    requires forall d :: d in news ==> d !in visited + {todo[0]}
    ensures Ready(cx, visited + {todo[0]}, out, news + todo)
  {
    var m, todo', visited' := todo[0], news + todo, visited + {todo[0]};
    assert forall j :: 0 <= j < |news| ==> news[j] in news;
    forall k {:trigger todo'[k]} | 0 <= k < |todo'| && Pending(cx, visited', out, todo'[k])
      ensures DepsQueued(cx, visited', todo'[k], todo'[..k])
    {
      var j := k - |news|;
      assert todo'[k] == todo[j];
      assert todo'[..k] == news + todo[..j];
    }
  }

  lemma {:induction false} PushStacked(cx: Context, visited: set<MVarId>, out: seq<Entry>, todo: seq<MVarId>,
                                       news: seq<MVarId>)
    requires todo != [] && Stacked(cx, visited, out, todo)
    requires forall d :: d in news ==> Step(cx, todo[0], d)
    ensures Stacked(cx, visited + {todo[0]}, out, news + todo)
  {
    var m, todo', visited' := todo[0], news + todo, visited + {todo[0]};
    forall g {:trigger Pending(cx, visited', out, g)} | Pending(cx, visited', out, g)
      ensures exists k :: AtDepth(cx, todo', g, k)
    {
      if g == m {
        PushedSelf(cx, todo, news);
      } else {
        assert Pending(cx, visited, out, g);
        var k :| AtDepth(cx, todo, g, k);
        PushedOther(cx, todo, news, g, k);
      }
    }
  }

  lemma {:induction false} PushedSelf(cx: Context, todo: seq<MVarId>, news: seq<MVarId>)
    requires todo != [] && forall d :: d in news ==> Step(cx, todo[0], d)
    ensures AtDepth(cx, news + todo, todo[0], |news|)
  {
    forall j | 0 <= j < |news| ensures Leads(cx, todo[0], (news + todo)[j]) {
      assert news[j] in news;
      LeadsOnce(cx, todo[0], news[j]);
    }
  }

  lemma {:induction false} PushedOther(cx: Context, todo: seq<MVarId>, news: seq<MVarId>, g: MVarId, k: nat)
    requires todo != [] && (forall d :: d in news ==> Step(cx, todo[0], d)) && AtDepth(cx, todo, g, k) && g != todo[0]
    ensures AtDepth(cx, news + todo, g, |news| + k)
  {
    assert Leads(cx, g, todo[0]);
    forall j | 0 <= j < |news| + k ensures Leads(cx, g, (news + todo)[j]) {
      if j < |news| {
        assert news[j] in news;
        LeadsOn(cx, g, todo[0], news[j]);
      } else {
        assert Leads(cx, g, todo[j - |news|]);
      }
    }
  }

  // Emitting an entry all of whose dependencies are visited.
  lemma {:induction false} EmitEntry(cx: Context, prior: seq<Entry>, visited: set<MVarId>, out: seq<Entry>,
                                     todo: seq<MVarId>)
    requires todo != [] && Emitted(cx, prior, visited, out) && Stacked(cx, visited, out, todo)
    requires Wanted(cx, Metas(prior), todo[0]) && Meta(todo[0]) !in out && todo[0] in cx.deps
    requires forall d :: d in cx.deps[todo[0]] ==> d in visited + {todo[0]}
    ensures Emitted(cx, prior, visited + {todo[0]}, out + [Meta(todo[0])])
  {
    var m := todo[0];
    var out' := out + [Meta(m)];
    forall d | d in cx.deps[m] ensures d in cx.solved || Meta(d) in out || Leads(cx, d, m) {
      if d !in cx.solved && Meta(d) !in out {
        if d == m {
          LeadsOnce(cx, m, m);
        } else {
          assert Pending(cx, visited, out, d);
          var k :| AtDepth(cx, todo, d, k);
          assert Leads(cx, d, todo[0]);
        }
      }
    }
    forall k | |prior| <= k < |out'| ensures DepsBefore(cx, out', k) {
      if k < |out| {
        assert DepsBefore(cx, out, k);
        assert out'[..k] == out[..k];
      } else {
        assert out'[..k] == out;
      }
    }
  }

  function GrowsBy(visited: set<MVarId>, m: MVarId): set<MVarId> {
    visited + {m}
  }

  // All dependencies a context mentions, and the roots.
  ghost predicate Universe(cx: Context, u: set<MVarId>) {
    forall m, d :: m in cx.deps && d in cx.deps[m] ==> d in u
  }

  ghost predicate Looping(cx: Context, prior: seq<Entry>, roots: seq<MVarId>, u: set<MVarId>,
                          visited: set<MVarId>, todo: seq<MVarId>, out: seq<Entry>) {
    && Emitted(cx, prior, visited, out)
    && Ready(cx, visited, out, todo)
    && Stacked(cx, visited, out, todo)
    && Metas(prior) <= visited
    && (forall m :: m in roots ==> m in visited || m in todo)
    && (forall m :: m in todo ==> m in u)
    && AllNeeded(cx, prior, roots, visited) && AllNeeded(cx, prior, roots, SetOf(todo))
  }

  lemma {:induction false} NeededSteps(cx: Context, prior: seq<Entry>, roots: seq<MVarId>, m: MVarId, d: MVarId)
    requires Needed(cx, Metas(prior), roots, m) && Wanted(cx, Metas(prior), m) && Step(cx, m, d)
    ensures Needed(cx, Metas(prior), roots, d)
  {
    forall c: set<MVarId> {:trigger ClosedSet(cx, Metas(prior), roots, c)} | ClosedSet(cx, Metas(prior), roots, c)
      ensures d in c
    {
      assert DepsIn(cx, m, c);
    }
  }

  lemma {:induction false} DropStep(cx: Context, prior: seq<Entry>, roots: seq<MVarId>, u: set<MVarId>,
                                    visited: set<MVarId>, todo: seq<MVarId>, out: seq<Entry>)
    requires todo != [] && Looping(cx, prior, roots, u, visited, todo, out)
    requires todo[0] in cx.solved || Meta(todo[0]) in out
    ensures Looping(cx, prior, roots, u, GrowsBy(visited, todo[0]), todo[1..], out)
  {
    DropReady(cx, visited, out, out, todo);
    DropStacked(cx, visited, out, out, todo);
    DropNeeded(cx, prior, roots, visited, todo);
    assert forall m :: m in todo ==> m == todo[0] || m in todo[1..];
  }

  lemma {:induction false} DropNeeded(cx: Context, prior: seq<Entry>, roots: seq<MVarId>, visited: set<MVarId>,
                                      todo: seq<MVarId>)
    requires todo != [] && AllNeeded(cx, prior, roots, visited) && AllNeeded(cx, prior, roots, SetOf(todo))
    ensures AllNeeded(cx, prior, roots, GrowsBy(visited, todo[0])) && AllNeeded(cx, prior, roots, SetOf(todo[1..]))
  {
    assert todo[0] in SetOf(todo);
    assert SetOf(todo[1..]) <= SetOf(todo);
  }

  lemma {:induction false} EmitStep(cx: Context, prior: seq<Entry>, roots: seq<MVarId>, u: set<MVarId>,
                                    visited: set<MVarId>, todo: seq<MVarId>, out: seq<Entry>)
    requires todo != [] && Looping(cx, prior, roots, u, visited, todo, out)
    requires todo[0] !in cx.solved && Meta(todo[0]) !in out && todo[0] in cx.deps
    requires forall d :: d in cx.deps[todo[0]] ==> d in GrowsBy(visited, todo[0])
    ensures Looping(cx, prior, roots, u, GrowsBy(visited, todo[0]), todo[1..], out + [Meta(todo[0])])
  {
    EmitEntry(cx, prior, visited, out, todo);
    DropReady(cx, visited, out, out + [Meta(todo[0])], todo);
    DropStacked(cx, visited, out, out + [Meta(todo[0])], todo);
    DropNeeded(cx, prior, roots, visited, todo);
    assert forall m :: m in todo ==> m == todo[0] || m in todo[1..];
  }

  lemma {:induction false} PushStep(cx: Context, prior: seq<Entry>, roots: seq<MVarId>, u: set<MVarId>,
                                    visited: set<MVarId>, todo: seq<MVarId>, out: seq<Entry>, news: seq<MVarId>)
    requires todo != [] && Looping(cx, prior, roots, u, visited, todo, out) && Universe(cx, u)
    requires todo[0] !in cx.solved && Meta(todo[0]) !in out && todo[0] in cx.deps
    requires news == Fresh(cx.deps[todo[0]], GrowsBy(visited, todo[0]))
    ensures Looping(cx, prior, roots, u, GrowsBy(visited, todo[0]), news + todo, out)
  {
    PushReady(cx, visited, out, todo, news);
    PushStacked(cx, visited, out, todo, news);
    DropNeeded(cx, prior, roots, visited, todo);
    PushNeeded(cx, prior, roots, todo, news);
    forall m | m in news + todo ensures m in u {
      assert m in news || m in todo;
    }
    PushEmitted(cx, prior, visited, out, todo[0]);
  }

  lemma {:induction false} PushEmitted(cx: Context, prior: seq<Entry>, visited: set<MVarId>, out: seq<Entry>, m: MVarId)
    requires Emitted(cx, prior, visited, out)
    ensures Emitted(cx, prior, GrowsBy(visited, m), out)
  {
  }

  lemma {:induction false} PushNeeded(cx: Context, prior: seq<Entry>, roots: seq<MVarId>, todo: seq<MVarId>,
                                      news: seq<MVarId>)
    requires todo != [] && AllNeeded(cx, prior, roots, SetOf(todo)) && Wanted(cx, Metas(prior), todo[0])
    requires forall d :: d in news ==> Step(cx, todo[0], d)
    ensures AllNeeded(cx, prior, roots, SetOf(news + todo))
  {
    assert todo[0] in SetOf(todo);
    forall m {:trigger Needed(cx, Metas(prior), roots, m)} | m in SetOf(news + todo)
      ensures Needed(cx, Metas(prior), roots, m) || m in Metas(prior)
    {
      if m in news {
        NeededSteps(cx, prior, roots, todo[0], m);
      } else {
        assert m in SetOf(todo);
      }
    }
  }

  lemma {:induction false} AllVisited(cx: Context, prior: seq<Entry>, roots: seq<MVarId>, u: set<MVarId>,
                                      visited: set<MVarId>, out: seq<Entry>)
    requires Looping(cx, prior, roots, u, visited, [], out)
    ensures Collected(cx, prior, roots, out)
  {
    forall m | m in visited ensures m in cx.solved || Meta(m) in out {
      assert forall k: nat :: !AtDepth(cx, [], m, k);
      assert !Pending(cx, visited, out, m);
    }
    forall k | |prior| <= k < |out| ensures Needed(cx, Metas(prior), roots, out[k].m) {
      assert out[k].m in visited;
    }
    forall k, d | |prior| <= k < |out| && d in cx.deps[out[k].m] ensures d in cx.solved || Meta(d) in out {
      assert DepsIn(cx, out[k].m, visited);
    }
  }

  /** `collect_unassigned_mvars` once the metavariables of the type are known. */
  method Collect(cx: Context, roots: seq<MVarId>, prior: seq<Entry>, ghost u: set<MVarId>)
    returns (r: Result<seq<Entry>>)
    requires Universe(cx, u) && forall m :: m in roots ==> m in u
    ensures r.Ok? ==> Collected(cx, prior, roots, r.value)
    ensures r.UndeclaredMVar? ==>
              Needed(cx, Metas(prior), roots, r.m) && Wanted(cx, Metas(prior), r.m) && r.m !in cx.deps
  {
    var todo, out, visited := roots, prior, Metas(prior);
    StartLooping(cx, prior, roots, u);
    while todo != []
      invariant Looping(cx, prior, roots, u, visited, todo, out)
      decreases |u - visited|, |todo|
    {
      var m := todo[0];
      VisitedShrinks(u, visited, m);
      if m in cx.solved || Meta(m) in out {
        DropStep(cx, prior, roots, u, visited, todo, out);
        visited, todo := GrowsBy(visited, m), todo[1..];
        continue;
      }
      if m !in cx.deps {
        UndeclaredNeeded(cx, prior, roots, u, visited, todo, out);
        return UndeclaredMVar(m);
      }
      var news := Fresh(cx.deps[m], GrowsBy(visited, m));
      if news == [] {
        NoFresh(cx.deps[m], GrowsBy(visited, m));
        EmitStep(cx, prior, roots, u, visited, todo, out);
        visited, todo, out := GrowsBy(visited, m), todo[1..], out + [Meta(m)];
      } else {
        FirstVisit(cx, prior, roots, u, visited, todo, out);
        PushStep(cx, prior, roots, u, visited, todo, out, news);
        visited, todo := GrowsBy(visited, m), news + todo;
      }
    }
    AllVisited(cx, prior, roots, u, visited, out);
    return Ok(out);
  }

  lemma {:induction false} NoFresh(ds: seq<MVarId>, visited: set<MVarId>)
    requires Fresh(ds, visited) == []
    ensures forall d :: d in ds ==> d in visited
  {
    forall d | d in ds ensures d in visited {
      assert d !in Fresh(ds, visited);
    }
  }

  lemma {:induction false} StartLooping(cx: Context, prior: seq<Entry>, roots: seq<MVarId>, u: set<MVarId>)
    requires forall m :: m in roots ==> m in u
    ensures Looping(cx, prior, roots, u, Metas(prior), roots, prior)
  {
    forall m {:trigger Needed(cx, Metas(prior), roots, m)} | m in SetOf(roots)
      ensures Needed(cx, Metas(prior), roots, m)
    {
    }
  }

  lemma {:induction false} VisitedShrinks(u: set<MVarId>, visited: set<MVarId>, m: MVarId)
    ensures |u - GrowsBy(visited, m)| <= |u - visited|
    ensures m in u && m !in visited ==> |u - GrowsBy(visited, m)| < |u - visited|
  {
    var a, b := u - visited, u - GrowsBy(visited, m);
    assert b == a - {m};
  }

  // Only a first visit can find fresh dependencies.
  lemma {:induction false} FirstVisit(cx: Context, prior: seq<Entry>, roots: seq<MVarId>, u: set<MVarId>,
                                      visited: set<MVarId>, todo: seq<MVarId>, out: seq<Entry>)
    requires todo != [] && Looping(cx, prior, roots, u, visited, todo, out)
    requires todo[0] !in cx.solved && Meta(todo[0]) !in out && todo[0] in cx.deps
    requires Fresh(cx.deps[todo[0]], GrowsBy(visited, todo[0])) != []
    ensures todo[0] in u && todo[0] !in visited
  {
    var news := Fresh(cx.deps[todo[0]], GrowsBy(visited, todo[0]));
    assert news[0] in news;
    assert todo[0] in visited ==> DepsQueued(cx, visited, todo[0], todo[..0]) by {
      assert todo[0] in visited ==> Pending(cx, visited, out, todo[0]);
    }
  }

  lemma {:induction false} UndeclaredNeeded(cx: Context, prior: seq<Entry>, roots: seq<MVarId>, u: set<MVarId>,
                                            visited: set<MVarId>, todo: seq<MVarId>, out: seq<Entry>)
    requires todo != [] && Looping(cx, prior, roots, u, visited, todo, out)
    requires todo[0] !in cx.solved && Meta(todo[0]) !in out
    ensures Needed(cx, Metas(prior), roots, todo[0]) && Wanted(cx, Metas(prior), todo[0])
  {
    assert todo[0] in SetOf(todo);
    assert forall e :: e in prior ==> e in out;
  }

  // ----- repeated calls sharing one result -----

  ghost predicate AcyclicDeps(cx: Context) {
    forall m :: !Leads(cx, m, m)
  }

  // Every collected metavariable's dependencies are solved or collected too, before it when `ordered`.
  ghost predicate Good(cx: Context, es: seq<Entry>, ordered: bool) {
    && NoRepeat(es)
    && forall k {:trigger es[k]} :: 0 <= k < |es| && es[k].Meta? && es[k].m in cx.deps ==>
         forall d :: d in cx.deps[es[k].m] ==> d in cx.solved || Meta(d) in if ordered then es[..k] else es
  }

  // Closure is kept on every graph, and order on every acyclic one.
  lemma {:induction false} CollectedKeepsGood(cx: Context, prior: seq<Entry>, roots: seq<MVarId>, es: seq<Entry>,
                                              ordered: bool)
    requires Collected(cx, prior, roots, es) && Good(cx, prior, ordered)
    requires ordered ==> AcyclicDeps(cx)
    ensures Good(cx, es, ordered)
  {
    forall k, d | 0 <= k < |es| && es[k].Meta? && es[k].m in cx.deps && d in cx.deps[es[k].m]
      ensures d in cx.solved || Meta(d) in if ordered then es[..k] else es
    {
      if k < |prior| {
        assert es[k] == prior[k];
        assert es[..k] == prior[..k];
      } else if ordered {
        assert DepsBefore(cx, es, k);
        if Leads(cx, d, es[k].m) {
          LeadsOn(cx, d, es[k].m, d);
        }
      }
    }
  }

  datatype Outcome =
    | Bound(args: seq<Entry>)
    | Undeclared(m: MVarId)
    | NoLocalDecl(auto: nat)
    | DependsOnExplicit(auto: nat, x: nat)

  // Every auto-bound local is preceded by the unsolved metavariables of its type.
  ghost predicate TypesFirst(cx: Context, typeMVars: map<nat, seq<MVarId>>, es: seq<Entry>) {
    forall k {:trigger es[k]} :: 0 <= k < |es| && es[k].Local? && es[k].x in typeMVars ==>
      forall m :: m in typeMVars[es[k].x] ==> m in cx.solved || Meta(m) in es[..k]
  }

  function Locals(es: seq<Entry>): seq<nat> {
    if es == [] then [] else
      Locals(es[..|es| - 1]) + if es[|es| - 1].Local? then [es[|es| - 1].x] else []
  }

  lemma {:induction false} LocalsAppend(a: seq<Entry>, b: seq<Entry>)
    ensures Locals(a + b) == Locals(a) + Locals(b)
  {
    if b == [] {
      assert a + b == a;
    } else {
      assert (a + b)[..|a + b| - 1] == a + b[..|b| - 1];
      LocalsAppend(a, b[..|b| - 1]);
    }
  }

  lemma {:induction false} OnlyMetas(es: seq<Entry>)
    requires forall k :: 0 <= k < |es| ==> es[k].Meta?
    ensures Locals(es) == []
  {
    if es != [] { OnlyMetas(es[..|es| - 1]); }
  }

  lemma {:induction false} LocalInLocals(es: seq<Entry>, k: nat)
    requires k < |es| && es[k].Local?
    ensures es[k].x in Locals(es)
  {
    if k < |es| - 1 { LocalInLocals(es[..|es| - 1], k); }
  }

  // The first of `xs` that `fvars` mentions.
  method FirstMentioned(fvars: set<nat>, xs: seq<nat>) returns (r: Option<nat>)
    ensures r.Some? ==> r.value in xs && r.value in fvars
    ensures r.None? <==> forall x :: x in xs ==> x !in fvars
  {
    for k := 0 to |xs|
      invariant forall x :: x in xs[..k] ==> x !in fvars
    {
      if xs[k] in fvars {
        return Some(xs[k]);
      }
    }
    return None;
  }

  ghost predicate AutosGood(cx: Context, typeMVars: map<nat, seq<MVarId>>, autos: seq<Entry>) {
    && Good(cx, autos, false)
    && (AcyclicDeps(cx) ==> Good(cx, autos, true))
    && TypesFirst(cx, typeMVars, autos)
  }

  function AsLocals(xs: seq<nat>): (r: seq<Entry>)
    ensures |r| == |xs| && forall k :: 0 <= k < |xs| ==> r[k] == Local(xs[k])
  {
    seq(|xs|, k requires 0 <= k < |xs| => Local(xs[k]))
  }

  // Resolving the auto's type leads to `m`, past what `prior` already holds.
  ghost predicate NeededFor(cx: Context, prior: seq<Entry>, typeMVars: map<nat, seq<MVarId>>, auto: nat, m: MVarId) {
    auto in typeMVars && Needed(cx, Metas(prior), typeMVars[auto], m)
  }

  // Some auto's type needs `m`, where the collection has got as far as the autos before it.
  ghost predicate NeededByAuto(cx: Context, bound: seq<nat>, typeMVars: map<nat, seq<MVarId>>, m: MVarId) {
    exists i, prior :: 0 <= i < |bound| && Locals(prior) == bound[..i] && AutosGood(cx, typeMVars, prior)
                       && NeededFor(cx, prior, typeMVars, bound[i], m)
  }

  // The metavariable at `k` stands after the autos before the one whose type needs it, and before that one: the segment
  // that begins at `p` was collected for `bound[i]`.
  ghost predicate StandsFor(cx: Context, bound: seq<nat>, typeMVars: map<nat, seq<MVarId>>, autos: seq<Entry>,
                            k: nat, i: nat, p: nat)
    requires k < |autos| && autos[k].Meta?
  {
    && p <= k && i < |bound| && (p == 0 || autos[p - 1].Local?)
    && Locals(autos[..p]) == bound[..i] && Locals(autos[..k]) == bound[..i]
    && NeededFor(cx, autos[..p], typeMVars, bound[i], autos[k].m)
  }

  ghost predicate Belongs(cx: Context, bound: seq<nat>, typeMVars: map<nat, seq<MVarId>>, autos: seq<Entry>, k: nat)
    requires k < |autos| && autos[k].Meta?
  {
    && Wanted(cx, {}, autos[k].m) && autos[k].m in cx.deps
    && exists i: nat, p: nat :: StandsFor(cx, bound, typeMVars, autos, k, i, p)
  }

  // Nothing is collected that is not needed, and nothing out of place; in particular nothing follows the last auto.
  ghost predicate OnlyNeeded(cx: Context, bound: seq<nat>, typeMVars: map<nat, seq<MVarId>>, autos: seq<Entry>) {
    forall k: nat {:trigger Belongs(cx, bound, typeMVars, autos, k)} :: k < |autos| && autos[k].Meta? ==>
      Belongs(cx, bound, typeMVars, autos, k)
  }

  lemma {:induction false} OldBelongs(cx: Context, bound: seq<nat>, typeMVars: map<nat, seq<MVarId>>,
                                      prior: seq<Entry>, next: seq<Entry>, k: nat)
    requires prior <= next && k < |prior| && prior[k].Meta? && Belongs(cx, bound, typeMVars, prior, k)
    ensures Belongs(cx, bound, typeMVars, next, k)
  {
    var i: nat, p: nat :| StandsFor(cx, bound, typeMVars, prior, k, i, p);
    assert next[..p] == prior[..p] && next[..k] == prior[..k];
    assert StandsFor(cx, bound, typeMVars, next, k, i, p);
  }

  lemma {:induction false} NewBelongs(cx: Context, bound: seq<nat>, typeMVars: map<nat, seq<MVarId>>,
                                      prior: seq<Entry>, es: seq<Entry>, i: nat, k: nat)
    requires i < |bound| && bound[i] in typeMVars && Collected(cx, prior, typeMVars[bound[i]], es)
    requires Locals(prior) == bound[..i] && (prior == [] || prior[|prior| - 1].Local?) && |prior| <= k < |es|
    ensures es[k].Meta? && Belongs(cx, bound, typeMVars, es, k)
  {
    assert es[..|prior|] == prior;
    assert es[..k] == prior + es[|prior|..k];
    OnlyMetas(es[|prior|..k]);
    LocalsAppend(prior, es[|prior|..k]);
    assert StandsFor(cx, bound, typeMVars, es, k, i, |prior|);
  }

  lemma {:induction false} NeededNext(cx: Context, bound: seq<nat>, typeMVars: map<nat, seq<MVarId>>,
                                      prior: seq<Entry>, es: seq<Entry>, i: nat)
    requires i < |bound| && bound[i] in typeMVars && Collected(cx, prior, typeMVars[bound[i]], es)
    requires Locals(prior) == bound[..i] && (prior == [] || prior[|prior| - 1].Local?)
    requires OnlyNeeded(cx, bound, typeMVars, prior)
    ensures OnlyNeeded(cx, bound, typeMVars, es + [Local(bound[i])])
  {
    var next := es + [Local(bound[i])];
    forall k: nat {:trigger Belongs(cx, bound, typeMVars, next, k)} | k < |next| && next[k].Meta?
      ensures Belongs(cx, bound, typeMVars, next, k)
    {
      if k < |prior| {
        assert prior[k] == next[k];
        OldBelongs(cx, bound, typeMVars, prior, next, k);
      } else {
        NewBelongs(cx, bound, typeMVars, prior, es, i, k);
        OldBelongs(cx, bound, typeMVars, es, next, k);
      }
    }
  }

  method CollectAutos(cx: Context, bound: seq<nat>, typeMVars: map<nat, seq<MVarId>>, ghost u: set<MVarId>)
    returns (r: Result<seq<Entry>>)
    requires Universe(cx, u) && forall a, m :: a in typeMVars && m in typeMVars[a] ==> m in u
    requires forall a :: a in bound ==> a in typeMVars
    ensures r.Ok? ==> Locals(r.value) == bound && AutosGood(cx, typeMVars, r.value)
    ensures r.Ok? ==> OnlyNeeded(cx, bound, typeMVars, r.value)
    ensures r.UndeclaredMVar? ==> r.m !in cx.deps && r.m !in cx.solved && NeededByAuto(cx, bound, typeMVars, r.m)
  {
    var autos: seq<Entry> := [];
    for i := 0 to |bound|
      invariant Locals(autos) == bound[..i] && AutosGood(cx, typeMVars, autos)
      invariant (autos == [] || autos[|autos| - 1].Local?) && OnlyNeeded(cx, bound, typeMVars, autos)
    {
      var auto := bound[i];
      assert auto in bound;
      var collected := Collect(cx, typeMVars[auto], autos, u);
      if collected.UndeclaredMVar? {
        assert NeededFor(cx, autos, typeMVars, auto, collected.m);
        return collected;
      }
      AddAuto(cx, typeMVars, autos, collected.value, auto);
      NeededNext(cx, bound, typeMVars, autos, collected.value, i);
      assert bound[..i + 1] == bound[..i] + [auto];
      autos := collected.value + [Local(auto)];
    }
    assert bound[..|bound|] == bound;
    return Ok(autos);
  }

  // No auto-bound local's declared type mentions an explicit one.
  predicate Separate(locals: seq<nat>, declFVars: map<nat, set<nat>>, xs: seq<nat>) {
    forall a :: a in locals ==> a in declFVars && forall x :: x in xs ==> x !in declFVars[a]
  }

  /** `add_auto_bound_implicits`: `typeMVars` gives the metavariables of each auto's type, `declFVars` the locals its
      declared type mentions. */
  method AddAutoBoundImplicits(cx: Context, bound: seq<nat>, typeMVars: map<nat, seq<MVarId>>,
                               declFVars: map<nat, set<nat>>, xs: seq<nat>, ghost u: set<MVarId>)
    returns (r: Outcome, ghost autos: seq<Entry>)
    requires Universe(cx, u) && forall a, m :: a in typeMVars && m in typeMVars[a] ==> m in u
    requires forall a :: a in bound ==> a in typeMVars
    ensures r.Bound? ==> r.args == autos + AsLocals(xs) && Locals(autos) == bound && AutosGood(cx, typeMVars, autos)
    ensures r.Bound? ==> OnlyNeeded(cx, bound, typeMVars, autos)
    ensures r.Bound? ==> Separate(bound, declFVars, xs)
    ensures r.DependsOnExplicit? ==> r.auto in bound && r.x in xs && r.auto in declFVars && r.x in declFVars[r.auto]
    ensures r.NoLocalDecl? ==> r.auto in bound && r.auto !in declFVars
    ensures r.Undeclared? ==> r.m !in cx.deps && r.m !in cx.solved && NeededByAuto(cx, bound, typeMVars, r.m)
  {
    var collected := CollectAutos(cx, bound, typeMVars, u);
    if collected.UndeclaredMVar? {
      return Undeclared(collected.m), [];
    }
    autos := collected.value;
    r := CheckExplicit(collected.value, declFVars, xs);
  }

  method CheckExplicit(autos: seq<Entry>, declFVars: map<nat, set<nat>>, xs: seq<nat>) returns (r: Outcome)
    ensures !r.Undeclared?
    ensures r.Bound? ==> r.args == autos + AsLocals(xs) && Separate(Locals(autos), declFVars, xs)
    ensures r.DependsOnExplicit? ==>
              r.auto in Locals(autos) && r.x in xs && r.auto in declFVars && r.x in declFVars[r.auto]
    ensures r.NoLocalDecl? ==> r.auto in Locals(autos) && r.auto !in declFVars
  {
    for i := 0 to |autos|
      invariant Separate(Locals(autos[..i]), declFVars, xs)
    {
      assert autos[..i + 1][..i] == autos[..i];
      if autos[i].Local? {
        LocalInLocals(autos, i);
        if autos[i].x !in declFVars {
          return NoLocalDecl(autos[i].x);
        }
        var hit := FirstMentioned(declFVars[autos[i].x], xs);
        if hit.Some? {
          return DependsOnExplicit(autos[i].x, hit.value);
        }
      }
    }
    assert autos[..|autos|] == autos;
    return Bound(autos + AsLocals(xs));
  }

  lemma {:induction false} AddAuto(cx: Context, typeMVars: map<nat, seq<MVarId>>, prior: seq<Entry>, es: seq<Entry>,
                                   auto: nat)
    requires auto in typeMVars && Collected(cx, prior, typeMVars[auto], es)
    requires Good(cx, prior, false) && (AcyclicDeps(cx) ==> Good(cx, prior, true)) && TypesFirst(cx, typeMVars, prior)
    ensures var next := es + [Local(auto)];
            && Locals(next) == Locals(prior) + [auto]
            && Good(cx, next, false) && (AcyclicDeps(cx) ==> Good(cx, next, true))
            && TypesFirst(cx, typeMVars, next)
  {
    CollectedKeepsGood(cx, prior, typeMVars[auto], es, false);
    AddLocalGood(cx, es, auto, false);
    if AcyclicDeps(cx) {
      CollectedKeepsGood(cx, prior, typeMVars[auto], es, true);
      AddLocalGood(cx, es, auto, true);
    }
    assert es == prior + es[|prior|..];
    OnlyMetas(es[|prior|..]);
    LocalsAppend(prior, es[|prior|..]);
    LocalsAppend(es, [Local(auto)]);
    assert [Local(auto)][..0] == [];
    AddLocalTypes(cx, typeMVars, prior, es, auto);
  }

  lemma {:induction false} AddLocalGood(cx: Context, es: seq<Entry>, auto: nat, ordered: bool)
    requires Good(cx, es, ordered)
    ensures Good(cx, es + [Local(auto)], ordered)
  {
    var next := es + [Local(auto)];
    forall k, d | 0 <= k < |next| && next[k].Meta? && next[k].m in cx.deps && d in cx.deps[next[k].m]
      ensures d in cx.solved || Meta(d) in if ordered then next[..k] else next
    {
      assert next[k] == es[k];
      assert next[..k] == es[..k];
    }
  }

  lemma {:induction false} AddLocalTypes(cx: Context, typeMVars: map<nat, seq<MVarId>>, prior: seq<Entry>,
                                         es: seq<Entry>, auto: nat)
    requires auto in typeMVars && Collected(cx, prior, typeMVars[auto], es) && TypesFirst(cx, typeMVars, prior)
    ensures TypesFirst(cx, typeMVars, es + [Local(auto)])
  {
    var next := es + [Local(auto)];
    forall k {:trigger next[k]} | 0 <= k < |next| && next[k].Local? && next[k].x in typeMVars
      ensures forall m :: m in typeMVars[next[k].x] ==> m in cx.solved || Meta(m) in next[..k]
    {
      if k < |prior| {
        assert next[k] == prior[k];
        assert next[..k] == prior[..k];
      } else {
        assert k == |es|;
        assert next[..k] == es;
      }
    }
  }
}
