/** How a table of decoded constants is cut into tasks, and the edges between them. */
module DepGraph {
  import opened Options
  import opened Digraph
  import opened Tasks

  // What `build_graph` reads of a constant; `used` is the raw list of constants its terms mention.
  datatype Const =
    | Induct(all: seq<Name>, ctors: seq<Name>, used: seq<Name>)
    | Ctor(induct: Name, used: seq<Name>)
    | Rec(all: seq<Name>, used: seq<Name>)
    | Quotient(used: seq<Name>)
    | Other(used: seq<Name>)

  type Table = map<Name, Const>
  type Owners = map<Name, nat>

  datatype Built = Built(tasks: seq<Task>, owner: Owners)
  datatype Result<+T> = Ok(value: T) | MissingConstant(name: Name)

  // ----- what a good graph is -----

  predicate Grouped(t: Table, owner: Owners, n: Name) {
    n in t && n in owner
  }

  // A constant of task `a` mentions a constant of another task `b`.
  ghost predicate Mentions(t: Table, owner: Owners, a: nat, b: nat) {
    a != b && exists n, d :: Grouped(t, owner, n) && owner[n] == a && d in t[n].used && d in owner && owner[d] == b
  }

  // Quotient initialisation needs `Eq` whether or not a quotient constant mentions it.
  ghost predicate NeedsEq(ts: seq<Task>, owner: Owners, a: nat, b: nat) {
    a != b && a < |ts| && ts[a].kind.Quot? && ts[a].kind.eq in owner && owner[ts[a].kind.eq] == b
  }

  ghost predicate Covers(t: Table, eq: Name, ts: seq<Task>, owner: Owners) {
    && (forall i :: 0 <= i < |ts| ==> ts[i].id == i)
    && (forall n :: n in owner ==> owner[n] < |ts| && n in ts[owner[n]].admits)
    && (forall i :: 0 <= i < |ts| && ts[i].kind.Quot? ==> ts[i].kind.names != [] && ts[i].kind.names <= ts[i].admits)
    && (forall i :: 0 <= i < |ts| && ts[i].kind.Quot? ==> ts[i].kind.eq == eq && eq in t)
  }

  predicate IsInduct(t: Table, n: Name) {
    n in t && t[n].Induct?
  }

  // How often the inductives among `ms` list `c` as a constructor.
  function Listings(t: Table, ms: seq<Name>, c: Name): nat {
    if ms == [] then 0 else
      var m := ms[|ms| - 1];
      Listings(t, ms[..|ms| - 1], c) + if IsInduct(t, m) then multiset(t[m].ctors)[c] else 0
  }

  lemma {:induction false} ListingsExact(t: Table, ms: seq<Name>, c: Name)
    ensures Listings(t, ms, c) > 0 <==> exists m :: m in ms && IsInduct(t, m) && c in t[m].ctors
  {
    if ms != [] {
      ListingsExact(t, ms[..|ms| - 1], c);
      assert ms == ms[..|ms| - 1] + [ms[|ms| - 1]];
    }
  }

  // What a task says it stands for, whatever the table: one constant of its own; the members of one inductive's block
  // with all their constructors, each as often as they list it; or all quotient constants. It admits these first.
  ghost predicate Described(t: Table, task: Task) {
    match task.kind
    case Simple(n) => n in t && t[n].Other? && [n] <= task.admits
    case InductiveBlock(members, ctors) =>
      && (exists n :: IsInduct(t, n) && members == t[n].all)
      && (forall m :: m in members ==> IsInduct(t, m))
      && (forall c :: multiset(ctors)[c] == Listings(t, members, c))
      && members + ctors <= task.admits
    case Quot(names, _) =>
      NoDup(names) && names <= task.admits && forall q :: q in names <==> q in t && t[q].Quotient?
  }

  ghost predicate AllDescribed(t: Table, ts: seq<Task>) {
    forall i {:trigger Described(t, ts[i])} :: 0 <= i < |ts| ==> Described(t, ts[i])
  }

  // The graph every successful build returns, whatever the table.
  ghost predicate Sound(t: Table, eq: Name, b: Built) {
    && Covers(t, eq, b.tasks, b.owner)
    && AllDescribed(t, b.tasks)
    && t.Keys <= b.owner.Keys
    && (forall n, d :: n in t && d in t[n].used ==> d in b.owner)
    && (forall i :: 0 <= i < |b.tasks| ==> NoDup(b.tasks[i].deps))
    && (forall i, j :: 0 <= i < |b.tasks| ==>
         (j in b.tasks[i].deps <==> Mentions(t, b.owner, i, j) || NeedsEq(b.tasks, b.owner, i, j)))
  }

  // ----- well-formed tables -----

  ghost predicate BlockOk(t: Table, n: Name)
    requires IsInduct(t, n)
  {
    && n in t[n].all && NoDup(t[n].all) && NoDup(t[n].ctors)
    && (forall m :: m in t[n].all ==> IsInduct(t, m) && t[m].all == t[n].all)
    && (forall c :: c in t[n].ctors ==> c in t && t[c].Ctor? && t[c].induct == n)
  }

  ghost predicate WellFormed(t: Table, eq: Name) {
    && (forall n :: IsInduct(t, n) ==> BlockOk(t, n))
    && (forall n :: n in t && t[n].Ctor? ==> IsInduct(t, t[n].induct))
    && (forall n :: n in t && t[n].Rec? ==> t[n].all != [] && IsInduct(t, t[n].all[0]))
    && (forall n, d :: n in t && d in t[n].used ==> d in t)
    && (forall n :: n in t && t[n].Quotient? ==> eq in t)
  }

  // The admission unit a constant belongs to, read off the table alone.
  datatype Group = Block(all: seq<Name>) | Quotients | Alone(name: Name)

  function GroupOf(t: Table, n: Name): Group
    requires n in t
  {
    match t[n]
    case Induct(all, _, _) => Block(all)
    case Ctor(i, _) => if IsInduct(t, i) then Block(t[i].all) else Alone(n)
    case Rec(all, _) => if all != [] && IsInduct(t, all[0]) then Block(t[all[0]].all) else Alone(n)
    case Quotient(_) => Quotients
    case Other(_) => Alone(n)
  }

  function GroupOfTask(kind: TaskKind): Group {
    match kind
    case Simple(n) => Alone(n)
    case InductiveBlock(members, _) => Block(members)
    case Quot(_, _) => Quotients
  }

  // What pass 1 must have claimed for a task that stands for a whole group.
  ghost predicate Whole(t: Table, task: Task) {
    match task.kind
    case Simple(n) => n in task.admits
    case InductiveBlock(members, _) => forall m :: m in members ==> m in task.admits
    case Quot(names, _) => NoDup(names) && names <= task.admits && forall q :: q in names <==> q in t && t[q].Quotient?
  }

  // Each name in exactly one task, once, and one task per group.
  ghost predicate Partition(t: Table, ts: seq<Task>, owner: Owners) {
    && owner.Keys <= t.Keys
    && (forall i :: 0 <= i < |ts| ==> NoDup(ts[i].admits) && ts[i].admits != [] && Whole(t, ts[i]))
    && (forall i, n :: 0 <= i < |ts| && n in ts[i].admits ==> n in owner && owner[n] == i)
    && (forall n :: n in owner && n in t ==> owner[n] < |ts| && GroupOf(t, n) == GroupOfTask(ts[owner[n]].kind))
    && (forall i, j :: 0 <= i < j < |ts| ==> GroupOfTask(ts[i].kind) != GroupOfTask(ts[j].kind))
  }

  // ----- pass 1 -----

  function ClaimAll(owner: Owners, names: seq<Name>, id: nat): Owners {
    owner + map n | n in names :: id
  }

  function AllCtors(t: Table, ms: seq<Name>): seq<Name> {
    if ms == [] then [] else
      var m := ms[|ms| - 1];
      AllCtors(t, ms[..|ms| - 1]) + if IsInduct(t, m) then t[m].ctors else []
  }

  lemma {:induction false} AllCtorsCount(t: Table, ms: seq<Name>, c: Name)
    ensures multiset(AllCtors(t, ms))[c] == Listings(t, ms, c)
  {
    if ms != [] { AllCtorsCount(t, ms[..|ms| - 1], c); }
  }

  method GatherBlock(t: Table, all: seq<Name>) returns (r: Result<seq<Name>>)
    ensures r.Ok? <==> forall m :: m in all ==> IsInduct(t, m)
    ensures r.Ok? ==> r.value == AllCtors(t, all)
  {
    var ctors := [];
    for k := 0 to |all|
      invariant forall m :: m in all[..k] ==> IsInduct(t, m)
      invariant ctors == AllCtors(t, all[..k])
    {
      var m := all[k];
      if m !in t || !t[m].Induct? {
        assert m in all && !IsInduct(t, m);
        return MissingConstant(m);
      }
      ctors := ctors + t[m].ctors;
      assert all[..k + 1][..k] == all[..k];
    }
    assert all[..|all|] == all;
    return Ok(ctors);
  }

  method QuotientNames(t: Table, names: seq<Name>) returns (qs: seq<Name>)
    requires NoDup(names)
    ensures NoDup(qs) && forall q :: q in qs <==> q in names && q in t && t[q].Quotient?
  {
    qs := [];
    for k := 0 to |names|
      invariant NoDup(qs)
      invariant forall q :: q in qs <==> q in names[..k] && q in t && t[q].Quotient?
    {
      if names[k] in t && t[names[k]].Quotient? {
        qs := qs + [names[k]];
      }
    }
  }

  lemma {:induction false} NoDupConcat<T>(a: seq<T>, b: seq<T>)
    requires NoDup(a) && NoDup(b) && forall x :: x in a ==> x !in b
    ensures NoDup(a + b)
  {
    var c := a + b;
    forall i, j | 0 <= i < j < |c| ensures c[i] != c[j] {
      assert i < |a| ==> c[i] in a;
      assert j >= |a| ==> c[j] in b;
    }
  }

  lemma {:induction false} AllCtorsOf(t: Table, ms: seq<Name>)
    requires NoDup(ms) && forall m :: m in ms ==> IsInduct(t, m) && BlockOk(t, m)
    ensures NoDup(AllCtors(t, ms))
    ensures forall c :: c in AllCtors(t, ms) ==> c in t && t[c].Ctor? && t[c].induct in ms
  {
    if ms != [] {
      var init := ms[..|ms| - 1];
      AllCtorsOf(t, init);
      var m := ms[|ms| - 1];
      assert m !in init && m in ms;
      assert BlockOk(t, m);
      NoDupConcat(AllCtors(t, init), t[m].ctors);
    }
  }

  // Appending a task keeps every name where it is claimed, even if it takes over claimed names.
  lemma {:induction false} CoversNew(t: Table, eq: Name, ts: seq<Task>, owner: Owners, task: Task)
    requires Covers(t, eq, ts, owner) && task.id == |ts|
    requires task.kind.Quot? ==>
               task.kind.names != [] && task.kind.names <= task.admits && task.kind.eq == eq && eq in t
    ensures Covers(t, eq, ts + [task], ClaimAll(owner, task.admits, |ts|))
  {
  }

  // Each name stays with the task that admits it.
  lemma {:induction false} OwnersNew(t: Table, eq: Name, ts: seq<Task>, owner: Owners, task: Task)
    requires Partition(t, ts, owner) && forall n :: n in task.admits ==> n in t && n !in owner
    ensures ClaimAll(owner, task.admits, |ts|).Keys <= t.Keys
    ensures forall i, n :: 0 <= i < |ts + [task]| && n in (ts + [task])[i].admits ==>
              n in ClaimAll(owner, task.admits, |ts|) && ClaimAll(owner, task.admits, |ts|)[n] == i
  {
    var owner' := ClaimAll(owner, task.admits, |ts|);
    forall i, n | 0 <= i < |ts + [task]| && n in (ts + [task])[i].admits ensures n in owner' && owner'[n] == i {
      if i < |ts| { assert n in ts[i].admits; }
    }
  }

  lemma {:induction false} GroupsNew(t: Table, eq: Name, ts: seq<Task>, owner: Owners, task: Task)
    requires Partition(t, ts, owner)
    requires forall n :: n in task.admits ==> n in t && GroupOf(t, n) == GroupOfTask(task.kind) && n !in owner
    ensures var owner' := ClaimAll(owner, task.admits, |ts|);
            forall n :: n in owner' && n in t ==>
              owner'[n] < |ts| + 1 && GroupOf(t, n) == GroupOfTask((ts + [task])[owner'[n]].kind)
  {
    var owner', ts' := ClaimAll(owner, task.admits, |ts|), ts + [task];
    forall n | n in owner' && n in t ensures owner'[n] < |ts'| && GroupOf(t, n) == GroupOfTask(ts'[owner'[n]].kind) {
      if n in owner { assert owner[n] < |ts|; }
    }
  }

  lemma {:induction false} ApartNew(ts: seq<Task>, task: Task)
    requires forall i, j :: 0 <= i < j < |ts| ==> GroupOfTask(ts[i].kind) != GroupOfTask(ts[j].kind)
    requires forall i :: 0 <= i < |ts| ==> GroupOfTask(ts[i].kind) != GroupOfTask(task.kind)
    ensures forall i, j :: 0 <= i < j < |ts + [task]| ==>
              GroupOfTask((ts + [task])[i].kind) != GroupOfTask((ts + [task])[j].kind)
  {
  }

  lemma {:induction false} PartitionNew(t: Table, eq: Name, ts: seq<Task>, owner: Owners, task: Task)
    requires Partition(t, ts, owner)
    requires NoDup(task.admits) && task.admits != [] && Whole(t, task)
    requires forall n :: n in task.admits ==> n in t && GroupOf(t, n) == GroupOfTask(task.kind) && n !in owner
    requires forall i :: 0 <= i < |ts| ==> GroupOfTask(ts[i].kind) != GroupOfTask(task.kind)
    ensures Partition(t, ts + [task], ClaimAll(owner, task.admits, |ts|))
  {
    var ts' := ts + [task];
    OwnersNew(t, eq, ts, owner, task);
    GroupsNew(t, eq, ts, owner, task);
    forall i | 0 <= i < |ts'| ensures NoDup(ts'[i].admits) && ts'[i].admits != [] && Whole(t, ts'[i]) {
      assert i < |ts| ==> ts'[i] == ts[i] && Whole(t, ts[i]);
    }
    ApartNew(ts, task);
  }

  // A group whose head is still unclaimed has no task yet, and none of its names is claimed.
  lemma {:induction false} FreshGroup(t: Table, eq: Name, ts: seq<Task>, owner: Owners, n: Name)
    requires WellFormed(t, eq) && Partition(t, ts, owner) && Covers(t, eq, ts, owner)
    requires n in t && n !in owner && !t[n].Ctor? && !t[n].Rec?
    ensures forall i :: 0 <= i < |ts| ==> GroupOfTask(ts[i].kind) != GroupOf(t, n)
    ensures forall m :: m in t && GroupOf(t, m) == GroupOf(t, n) ==> m !in owner
  {
    assert IsInduct(t, n) ==> BlockOk(t, n);
    assert forall i :: 0 <= i < |ts| ==> Whole(t, ts[i]);
  }

  // What a new task for the still unclaimed `n` must satisfy.
  ghost predicate FitsNew(t: Table, n: Name, task: Task)
    requires n in t
  {
    && NoDup(task.admits) && n in task.admits && Whole(t, task)
    && GroupOfTask(task.kind) == GroupOf(t, n)
    && forall m :: m in task.admits ==> m in t && GroupOf(t, m) == GroupOf(t, n)
  }

  method MakeTask(t: Table, eq: Name, names: seq<Name>, n: Name, id: nat) returns (r: Result<Task>)
    requires NoDup(names) && forall n :: n in names <==> n in t
    requires n in t && !t[n].Ctor? && !t[n].Rec?
    ensures r.Ok? ==> r.value.id == id && r.value.deps == [] && Described(t, r.value)
    ensures r.Ok? && r.value.kind.Quot? ==>
              var kind := r.value.kind; kind.names != [] && kind.names <= r.value.admits && kind.eq == eq && eq in t
    ensures WellFormed(t, eq) ==> r.Ok? && FitsNew(t, n, r.value)
  {
    if t[n].Induct? {
      var all := t[n].all;
      if WellFormed(t, eq) {
        BlockFits(t, eq, n);
        assert BlockOk(t, n);
      }
      var gathered := GatherBlock(t, all);
      if gathered.MissingConstant? {
        return MissingConstant(gathered.name);
      }
      forall c ensures multiset(gathered.value)[c] == Listings(t, all, c) {
        AllCtorsCount(t, all, c);
      }
      return Ok(Task(id, InductiveBlock(all, gathered.value), all + gathered.value, []));
    } else if t[n].Quotient? {
      if eq !in names {
        return MissingConstant(eq);
      }
      var qs := QuotientNames(t, names);
      assert n in qs;
      return Ok(Task(id, Quot(qs, eq), qs, []));
    } else {
      return Ok(Task(id, TaskKind.Simple(n), [n], []));
    }
  }

  predicate Heads(t: Table, n: Name) {
    n in t && !t[n].Ctor? && !t[n].Rec?
  }

  // Pass 1 after it has visited `seen`.
  ghost predicate Claimed(t: Table, eq: Name, ts: seq<Task>, owner: Owners, seen: set<Name>) {
    && Covers(t, eq, ts, owner) && AllDescribed(t, ts)
    && (forall i :: 0 <= i < |ts| ==> ts[i].deps == [])
    && (WellFormed(t, eq) ==> Partition(t, ts, owner) && forall n :: n in seen && Heads(t, n) ==> n in owner)
  }

  lemma {:induction false} DescribedNew(t: Table, ts: seq<Task>, task: Task)
    requires AllDescribed(t, ts) && Described(t, task)
    ensures AllDescribed(t, ts + [task])
  {
    var ts' := ts + [task];
    forall i {:trigger Described(t, ts'[i])} | 0 <= i < |ts'| ensures Described(t, ts'[i]) {
      if i < |ts| { assert Described(t, ts[i]); }
    }
  }

  // More admitted names, or other dependencies, leave what a task stands for as it is.
  lemma {:induction false} StillDescribed(t: Table, a: Task, b: Task)
    requires Described(t, a) && b.kind == a.kind && a.admits <= b.admits
    ensures Described(t, b)
  {
  }

  lemma {:induction false} AllStillDescribed(t: Table, ts: seq<Task>, ts': seq<Task>)
    requires AllDescribed(t, ts) && |ts'| == |ts|
    requires forall i :: 0 <= i < |ts| ==> ts'[i].kind == ts[i].kind && ts[i].admits <= ts'[i].admits
    ensures AllDescribed(t, ts')
  {
    forall i {:trigger Described(t, ts'[i])} | 0 <= i < |ts'| ensures Described(t, ts'[i]) {
      assert Described(t, ts[i]);
      StillDescribed(t, ts[i], ts'[i]);
    }
  }

  lemma {:induction false} ClaimedNew(t: Table, eq: Name, ts: seq<Task>, owner: Owners, seen: set<Name>, n: Name,
                                      task: Task)
    requires Claimed(t, eq, ts, owner, seen) && Heads(t, n) && n !in owner
    requires task.id == |ts| && task.deps == [] && Described(t, task)
    requires task.kind.Quot? ==>
               task.kind.names != [] && task.kind.names <= task.admits && task.kind.eq == eq && eq in t
    requires WellFormed(t, eq) ==> FitsNew(t, n, task)
    ensures Claimed(t, eq, ts + [task], ClaimAll(owner, task.admits, |ts|), seen + {n})
  {
    CoversNew(t, eq, ts, owner, task);
    DescribedNew(t, ts, task);
    if WellFormed(t, eq) { PartitionFresh(t, eq, ts, owner, n, task); }
  }

  lemma {:induction false} PartitionFresh(t: Table, eq: Name, ts: seq<Task>, owner: Owners, n: Name, task: Task)
    requires WellFormed(t, eq) && Partition(t, ts, owner) && Covers(t, eq, ts, owner)
    requires Heads(t, n) && n !in owner && FitsNew(t, n, task)
    ensures Partition(t, ts + [task], ClaimAll(owner, task.admits, |ts|)) && n in task.admits
  {
    FreshGroup(t, eq, ts, owner, n);
    PartitionNew(t, eq, ts, owner, task);
  }

  method Pass1(t: Table, eq: Name, names: seq<Name>) returns (r: Result<Built>)
    requires NoDup(names) && forall n :: n in names <==> n in t
    ensures WellFormed(t, eq) ==> r.Ok?
    ensures r.Ok? ==> Claimed(t, eq, r.value.tasks, r.value.owner, t.Keys)
  {
    var tasks: seq<Task>, owner: Owners := [], map[];
    ghost var seen: set<Name> := {};
    for i := 0 to |names|
      invariant seen == set n | n in names[..i]
      invariant Claimed(t, eq, tasks, owner, seen)
    {
      var n := names[i];
      ghost var before := seen;
      seen := seen + {n};
      if n in owner || t[n].Ctor? || t[n].Rec? {
        continue;
      }
      var made := MakeTask(t, eq, names, n, |tasks|);
      if made.MissingConstant? {
        return MissingConstant(made.name);
      }
      var task := made.value;
      ClaimedNew(t, eq, tasks, owner, before, n, task);
      tasks, owner := tasks + [task], ClaimAll(owner, task.admits, |tasks|);
    }
    assert seen == t.Keys;
    return Ok(Built(tasks, owner));
  }

  lemma {:induction false} BlockFits(t: Table, eq: Name, n: Name)
    requires WellFormed(t, eq) && IsInduct(t, n)
    ensures var ns := t[n].all + AllCtors(t, t[n].all);
            && NoDup(ns) && n in ns
            && forall m :: m in ns ==> m in t && GroupOf(t, m) == Block(t[n].all)
  {
    assert BlockOk(t, n);
    forall m | m in t[n].all ensures IsInduct(t, m) && BlockOk(t, m) {}
    AllCtorsOf(t, t[n].all);
    NoDupConcat(t[n].all, AllCtors(t, t[n].all));
  }

  // ----- pass 1b -----

  // The inductive a stray constructor or recursor belongs to.
  predicate BelongsTo(t: Table, n: Name, m: Name)
    requires n in t
  {
    (t[n].Ctor? && t[n].induct == m) || (t[n].Rec? && t[n].all != [] && t[n].all[0] == m)
  }

  // Goes to the task that owns that inductive, and only to that one.
  function ResolveBlock(t: Table, owner: Owners, n: Name): (r: Result<nat>)
    requires n in t
    ensures r.Ok? <==> exists m :: BelongsTo(t, n, m) && m in owner
    ensures forall m :: BelongsTo(t, n, m) && m in owner ==> r == Ok(owner[m])
    ensures r.MissingConstant? ==> r.name == if t[n].Ctor? then t[n].induct else n
  {
    match t[n]
    case Ctor(i, _) => if i in owner then Ok(owner[i]) else MissingConstant(i)
    case Rec(all, _) => if all != [] && all[0] in owner then Ok(owner[all[0]]) else MissingConstant(n)
    case _ => MissingConstant(n)
  }

  lemma {:induction false} CoversClaim(t: Table, eq: Name, ts: seq<Task>, owner: Owners, n: Name, b: nat)
    requires Covers(t, eq, ts, owner) && b < |ts|
    ensures Covers(t, eq, ts[b := ts[b].(admits := ts[b].admits + [n])], owner[n := b])
  {
    var ts' := ts[b := ts[b].(admits := ts[b].admits + [n])];
    var owner' := owner[n := b];
    forall m | m in owner' ensures owner'[m] < |ts'| && m in ts'[owner'[m]].admits {
    }
  }

  lemma {:induction false} PartitionClaim(t: Table, ts: seq<Task>, owner: Owners, n: Name, b: nat)
    requires Partition(t, ts, owner) && b < |ts| && n in t && n !in owner
    requires GroupOf(t, n) == GroupOfTask(ts[b].kind)
    ensures Partition(t, ts[b := ts[b].(admits := ts[b].admits + [n])], owner[n := b])
  {
    var ts' := ts[b := ts[b].(admits := ts[b].admits + [n])];
    assert forall i :: 0 <= i < |ts| ==> ts'[i].kind == ts[i].kind;
    assert n !in ts[b].admits;
    forall i | 0 <= i < |ts'| ensures NoDup(ts'[i].admits) && ts'[i].admits != [] && Whole(t, ts'[i]) {
      assert Whole(t, ts[i]);
      if i == b { AdmitOne(t, ts[b], n); }
    }
  }

  lemma {:induction false} ClaimKeeps(t: Table, eq: Name, ts: seq<Task>, owner: Owners, n: Name, b: nat)
    requires Covers(t, eq, ts, owner) && AllDescribed(t, ts) && b < |ts| && n in t && n !in owner
    requires WellFormed(t, eq) ==> Partition(t, ts, owner) && GroupOf(t, n) == GroupOfTask(ts[b].kind)
    ensures var ts', owner' := ts[b := ts[b].(admits := ts[b].admits + [n])], owner[n := b];
            && Covers(t, eq, ts', owner') && AllDescribed(t, ts')
            && (WellFormed(t, eq) ==> Partition(t, ts', owner'))
  {
    CoversClaim(t, eq, ts, owner, n, b);
    AllStillDescribed(t, ts, ts[b := ts[b].(admits := ts[b].admits + [n])]);
    if WellFormed(t, eq) { PartitionClaim(t, ts, owner, n, b); }
  }

  lemma {:induction false} AdmitOne(t: Table, task: Task, n: Name)
    requires NoDup(task.admits) && Whole(t, task) && n !in task.admits
    ensures var task' := task.(admits := task.admits + [n]);
            NoDup(task'.admits) && task'.admits != [] && Whole(t, task')
  {
  }

  lemma {:induction false} BlockOfStray(t: Table, eq: Name, ts: seq<Task>, owner: Owners, n: Name)
    requires WellFormed(t, eq) && Partition(t, ts, owner)
    requires forall m :: m in t && !t[m].Ctor? && !t[m].Rec? ==> m in owner
    requires n in t && n !in owner
    ensures var r := ResolveBlock(t, owner, n);
            r.Ok? && r.value < |ts| && GroupOf(t, n) == GroupOfTask(ts[r.value].kind)
  {
    var m := if t[n].Ctor? then t[n].induct else t[n].all[0];
    assert IsInduct(t, m) && BelongsTo(t, n, m) && m in owner;
    assert GroupOf(t, n) == GroupOf(t, m);
  }

  method Pass1b(t: Table, eq: Name, names: seq<Name>, b: Built) returns (r: Result<Built>)
    requires forall n :: n in names <==> n in t
    requires Claimed(t, eq, b.tasks, b.owner, t.Keys)
    ensures WellFormed(t, eq) ==> r.Ok?
    ensures r.Ok? ==> Covers(t, eq, r.value.tasks, r.value.owner) && t.Keys <= r.value.owner.Keys
    ensures r.Ok? ==> AllDescribed(t, r.value.tasks)
    ensures r.Ok? ==> forall i :: 0 <= i < |r.value.tasks| ==> r.value.tasks[i].deps == []
    ensures r.Ok? && WellFormed(t, eq) ==> Partition(t, r.value.tasks, r.value.owner)
  {
    var tasks, owner := b.tasks, b.owner;
    for i := 0 to |names|
      invariant Covers(t, eq, tasks, owner) && b.owner.Keys <= owner.Keys && AllDescribed(t, tasks)
      invariant forall j :: 0 <= j < |tasks| ==> tasks[j].deps == []
      invariant forall n :: n in names[..i] ==> n in owner
      invariant WellFormed(t, eq) ==> Partition(t, tasks, owner)
    {
      var n := names[i];
      if n in owner {
        continue;
      }
      if WellFormed(t, eq) {
        BlockOfStray(t, eq, tasks, owner, n);
      }
      var block := ResolveBlock(t, owner, n);
      if block.MissingConstant? {
        return MissingConstant(block.name);
      }
      var id := block.value;
      ClaimKeeps(t, eq, tasks, owner, n, id);
      tasks, owner := tasks[id := tasks[id].(admits := tasks[id].admits + [n])], owner[n := id];
    }
    return Ok(Built(tasks, owner));
  }

  // ----- pass 2 -----

  type Edges = set<(nat, nat)>

  // `seen` is exactly the edges pushed so far, each once.
  ghost predicate Recorded(ts: seq<Task>, seen: Edges) {
    && (forall e :: e in seen ==> e.0 < |ts|)
    && (forall i, j :: 0 <= i < |ts| ==> (j in ts[i].deps <==> (i, j) in seen))
    && (forall i :: 0 <= i < |ts| ==> NoDup(ts[i].deps))
  }

  // Two task lists that differ in their dependency lists only.
  ghost predicate SameBut(a: seq<Task>, b: seq<Task>) {
    |a| == |b| && forall i :: 0 <= i < |a| ==> a[i].(deps := []) == b[i].(deps := [])
  }

  method Push(tasks: seq<Task>, seen: Edges, a: nat, b: nat) returns (tasks': seq<Task>, seen': Edges)
    requires Recorded(tasks, seen) && a < |tasks|
    ensures Recorded(tasks', seen') && SameBut(tasks, tasks')
    ensures seen' == if a == b then seen else seen + {(a, b)}
  {
    tasks', seen' := tasks, seen;
    if b != a && (a, b) !in seen {
      tasks', seen' := tasks[a := tasks[a].(deps := tasks[a].deps + [b])], seen + {(a, b)};
    }
  }

  function EdgesOf(owner: Owners, a: nat, used: seq<Name>): Edges {
    set d | d in used && d in owner && owner[d] != a :: (a, owner[d])
  }

  function EdgesOfAll(t: Table, owner: Owners, names: seq<Name>): Edges {
    if names == [] then {} else
      var n := names[|names| - 1];
      EdgesOfAll(t, owner, names[..|names| - 1])
      + if Grouped(t, owner, n) then EdgesOf(owner, owner[n], t[n].used) else {}
  }

  lemma {:induction false} EdgesAreMentions(t: Table, owner: Owners, names: seq<Name>, e: (nat, nat))
    ensures e in EdgesOfAll(t, owner, names) <==> exists n, d ::
              n in names && Grouped(t, owner, n) && d in t[n].used && d in owner
              && owner[d] != owner[n] && e == (owner[n], owner[d])
  {
    if names != [] {
      EdgesAreMentions(t, owner, names[..|names| - 1], e);
      assert names == names[..|names| - 1] + [names[|names| - 1]];
    }
  }

  method LinkName(owner: Owners, a: nat, used: seq<Name>, tasks: seq<Task>, seen: Edges)
    returns (missing: Option<Name>, tasks': seq<Task>, seen': Edges)
    requires Recorded(tasks, seen) && a < |tasks|
    ensures missing.None? <==> forall d :: d in used ==> d in owner
    ensures missing.None? ==> Recorded(tasks', seen') && SameBut(tasks, tasks')
    ensures missing.None? ==> seen' == seen + EdgesOf(owner, a, used)
  {
    missing, tasks', seen' := None, tasks, seen;
    for k := 0 to |used|
      invariant forall d :: d in used[..k] ==> d in owner
      invariant Recorded(tasks', seen') && SameBut(tasks, tasks')
      invariant seen' == seen + EdgesOf(owner, a, used[..k])
    {
      var d := used[k];
      if d !in owner {
        return Some(d), tasks', seen';
      }
      tasks', seen' := Push(tasks', seen', a, owner[d]);
      assert EdgesOf(owner, a, used[..k + 1]) == EdgesOf(owner, a, used[..k])
             + (if owner[d] == a then {} else {(a, owner[d])});
    }
    assert used[..|used|] == used;
  }

  method Pass2(t: Table, eq: Name, names: seq<Name>, b: Built) returns (r: Result<seq<Task>>, seen: Edges)
    requires forall n :: n in names <==> n in t
    requires Covers(t, eq, b.tasks, b.owner) && t.Keys <= b.owner.Keys
    requires forall i :: 0 <= i < |b.tasks| ==> b.tasks[i].deps == []
    ensures r.Ok? <==> forall n, d :: n in t && d in t[n].used ==> d in b.owner
    ensures r.Ok? ==> Recorded(r.value, seen) && SameBut(b.tasks, r.value)
    ensures r.Ok? ==> seen == EdgesOfAll(t, b.owner, names)
  {
    var tasks := b.tasks;
    seen := {};
    for i := 0 to |names|
      invariant Recorded(tasks, seen) && SameBut(b.tasks, tasks)
      invariant seen == EdgesOfAll(t, b.owner, names[..i])
      invariant forall n, d :: n in names[..i] && d in t[n].used ==> d in b.owner
    {
      var n := names[i];
      var missing, tasks', seen' := LinkName(b.owner, b.owner[n], t[n].used, tasks, seen);
      if missing.Some? {
        return MissingConstant(missing.value), seen;
      }
      assert names[..i + 1][..i] == names[..i];
      tasks, seen := tasks', seen';
    }
    assert names[..|names|] == names;
    return Ok(tasks), seen;
  }

  // The edges the quotient tasks among the first `n` add.
  ghost predicate EqEdge(ts: seq<Task>, owner: Owners, n: nat, e: (nat, nat)) {
    e.0 < n && NeedsEq(ts, owner, e.0, e.1)
  }

  // The lookup of `Eq` cannot fail here: pass 1 only makes a quotient task when the table holds `Eq`.
  method Pass2b(t: Table, eq: Name, b: Built, seen: Edges) returns (tasks: seq<Task>, seen': Edges)
    requires Covers(t, eq, b.tasks, b.owner) && t.Keys <= b.owner.Keys && Recorded(b.tasks, seen)
    ensures Recorded(tasks, seen') && SameBut(b.tasks, tasks)
    ensures forall e :: e in seen' <==> e in seen || EqEdge(b.tasks, b.owner, |b.tasks|, e)
  {
    tasks, seen' := b.tasks, seen;
    for i := 0 to |tasks|
      invariant Recorded(tasks, seen') && SameBut(b.tasks, tasks)
      invariant forall e :: e in seen' <==> e in seen || EqEdge(b.tasks, b.owner, i, e)
    {
      assert b.tasks[i].(deps := []) == tasks[i].(deps := []);
      if tasks[i].kind.Quot? {
        var eq := tasks[i].kind.eq;
        assert eq in b.owner;
        tasks, seen' := Push(tasks, seen', i, b.owner[eq]);
      }
    }
  }

  // ----- the whole build -----

  lemma {:induction false} CarryOver(t: Table, eq: Name, ts: seq<Task>, ts': seq<Task>, owner: Owners)
    requires SameBut(ts, ts')
    ensures Covers(t, eq, ts, owner) ==> Covers(t, eq, ts', owner)
    ensures Partition(t, ts, owner) ==> Partition(t, ts', owner)
    ensures AllDescribed(t, ts) ==> AllDescribed(t, ts')
    ensures forall a, b :: NeedsEq(ts, owner, a, b) <==> NeedsEq(ts', owner, a, b)
  {
    forall i | 0 <= i < |ts|
      ensures ts'[i].id == ts[i].id && ts'[i].kind == ts[i].kind && ts'[i].admits == ts[i].admits
    {
      assert ts[i].(deps := []) == ts'[i].(deps := []);
    }
    if Partition(t, ts, owner) {
      CarryPartition(t, ts, ts', owner);
    }
    if AllDescribed(t, ts) { AllStillDescribed(t, ts, ts'); }
  }

  lemma {:induction false} CarryPartition(t: Table, ts: seq<Task>, ts': seq<Task>, owner: Owners)
    requires Partition(t, ts, owner) && |ts| == |ts'|
    requires forall i :: 0 <= i < |ts| ==> ts'[i].kind == ts[i].kind && ts'[i].admits == ts[i].admits
    ensures Partition(t, ts', owner)
  {
    forall i | 0 <= i < |ts| ensures NoDup(ts'[i].admits) && ts'[i].admits != [] && Whole(t, ts'[i]) {
      assert Whole(t, ts[i]);
    }
  }

  lemma {:induction false} SoundEdges(t: Table, names: seq<Name>, b: Built, seen: Edges, seen': Edges)
    requires forall n :: n in names <==> n in t
    requires seen == EdgesOfAll(t, b.owner, names) && Recorded(b.tasks, seen')
    requires forall e :: e in seen' <==> e in seen || EqEdge(b.tasks, b.owner, |b.tasks|, e)
    ensures forall i, j :: 0 <= i < |b.tasks| ==>
              (j in b.tasks[i].deps <==> Mentions(t, b.owner, i, j) || NeedsEq(b.tasks, b.owner, i, j))
  {
    forall i: nat, j: nat | i < |b.tasks|
      ensures j in b.tasks[i].deps <==> Mentions(t, b.owner, i, j) || NeedsEq(b.tasks, b.owner, i, j)
    {
      EdgesAreMentions(t, b.owner, names, (i, j));
      assert j in b.tasks[i].deps <==> (i, j) in seen';
      if Mentions(t, b.owner, i, j) {
        var n, d :| Grouped(t, b.owner, n) && b.owner[n] == i && d in t[n].used && d in b.owner && b.owner[d] == j;
        assert n in names;
      }
    }
  }

  /** `build_graph`; `eq` is the id of the name `Eq`. */
  method BuildGraph(t: Table, eq: Name) returns (r: Result<Built>)
    ensures WellFormed(t, eq) ==> r.Ok?
    ensures r.Ok? ==> Sound(t, eq, r.value)
    ensures r.Ok? && WellFormed(t, eq) ==> Partition(t, r.value.tasks, r.value.owner)
  {
    var names := SortedIds(t.Keys);
    var one := Pass1(t, eq, names);
    if one.MissingConstant? { return one; }
    var grouped := Pass1b(t, eq, names, one.value);
    if grouped.MissingConstant? { return grouped; }
    var b := grouped.value;
    var two, seen := Pass2(t, eq, names, b);
    if two.MissingConstant? { return MissingConstant(two.name); }
    CarryOver(t, eq, b.tasks, two.value, b.owner);
    var linked, seen' := Pass2b(t, eq, Built(two.value, b.owner), seen);
    CarryOver(t, eq, two.value, linked, b.owner);
    r := Ok(Built(linked, b.owner));
    forall e ensures EqEdge(two.value, b.owner, |two.value|, e) <==> EqEdge(linked, b.owner, |linked|, e) {
      assert NeedsEq(two.value, b.owner, e.0, e.1) <==> NeedsEq(linked, b.owner, e.0, e.1);
    }
    SoundEdges(t, names, r.value, seen, seen');
  }
}
