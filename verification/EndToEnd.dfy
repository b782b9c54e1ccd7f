/** The task builder under the scheduler: what a constant's checker can see, and what a full check counts. */
module EndToEnd {
  import opened Options
  import opened Digraph
  import opened Tasks
  import opened Scheduler
  import opened SchedulerTheorems
  import opened SchedulerVerdicts
  import opened SchedulerJoin
  import DepGraph

  /** The declaration table with one-way admitted flags; only the flags ever change. */
  class CheckedConstants {
    const table: DepGraph.Table
    var admitted: set<Name>

    ghost predicate Valid() reads this {
      admitted <= table.Keys
    }

    constructor (t: DepGraph.Table)
      ensures Valid() && table == t && admitted == {}
    {
      table, admitted := t, {};
    }

    method Admit(n: Name)
      requires Valid()
      modifies this`admitted
      ensures Valid()
      ensures admitted == old(admitted) + (if n in table then {n} else {})
    {
      if n in table {
        admitted := admitted + {n};
      }
    }

    method Get(n: Name) returns (r: Option<DepGraph.Const>)
      requires Valid()
      ensures r == if Visible(table, admitted, n) then Some(table[n]) else None
    {
      r := if n in admitted then Some(table[n]) else None;
    }

    // These flags are those of the pool's state, as far as the table has them.
    ghost predicate Shows(s: State) reads this {
      Valid() && forall n :: n in admitted <==> n in table && n in s.admitted
    }

    // `admit` is called exactly where a worker sets a flag, so the table follows the pool step by step.
    method Follow(ts: seq<Task>, s: State, w: nat, ok: bool)
      requires Shows(s) && CanStep(ts, s, w)
      modifies this`admitted
      ensures Shows(Step(ts, s, w, ok))
    {
      assert PcOk(ts, s.pcs[w]);
      if s.pcs[w].Admitting? && s.pcs[w].k < |ts[s.pcs[w].task].admits| {
        Admit(ts[s.pcs[w].task].admits[s.pcs[w].k]);
      } else {
        AdmitsNothing(ts, s, w, ok);
      }
    }

    // What the kernel finds while worker `w` checks `n` and asks for a constant `d` that `n` mentions.
    method Consult(eq: Name, b: DepGraph.Built, jobs: nat, s: State, w: nat, n: Name, d: Name)
      returns (r: Option<DepGraph.Const>)
      requires Shows(s) && DepGraph.Sound(table, eq, b) && Checks(table, b, jobs, s, w, n) && d in table[n].used
      ensures d in b.owner
      ensures b.owner[d] != b.owner[n] && d in table ==> r == Some(table[d])
      ensures r.Some? ==> d in table && r.value == table[d] && FromAccepted(b.tasks, s, d)
      ensures DepGraph.Partition(table, b.tasks, b.owner) ==> (r.Some? <==> b.owner[d] != b.owner[n])
    {
      UsesAreAdmitted(table, eq, b, jobs, s, w, n, d);
      r := Get(d);
      if r.Some? {
        AdmittedWasAccepted(b.tasks, jobs, s, d);
      }
      if DepGraph.Partition(table, b.tasks, b.owner) && b.owner[d] == b.owner[n] {
        OwnNamesAreHidden(table, b, jobs, s, w, d);
      }
    }
  }

  // Worker `w` is inside the kernel with the task that owns `n`.
  ghost predicate Checks(t: DepGraph.Table, b: DepGraph.Built, jobs: nat, s: State, w: nat, n: Name) {
    && Reachable(b.tasks, jobs, s) && w < |s.pcs| && s.pcs[w].Running?
    && n in t && n in b.owner && b.owner[n] == s.pcs[w].task
  }

  // While a task is being checked none of its own names is visible.
  lemma {:induction false} OwnNamesAreHidden(t: DepGraph.Table, b: DepGraph.Built, jobs: nat, s: State, w: nat, d: Name)
    requires DepGraph.Partition(t, b.tasks, b.owner) && Reachable(b.tasks, jobs, s)
    requires w < |s.pcs| && s.pcs[w].Running? && d in b.owner && b.owner[d] == s.pcs[w].task
    ensures d !in s.admitted
  {
    ReachableInv(b.tasks, jobs, s);
    RunningIsNotAccepted(b.tasks, s, w);
    assert !FromAccepted(b.tasks, s, d);
    if d in s.admitted {
      AdmittedWasAccepted(b.tasks, jobs, s, d);
    }
  }

  lemma {:induction false} RunningIsNotAccepted(ts: seq<Task>, s: State, w: nat)
    requires Inv(ts, s) && w < |s.pcs| && s.pcs[w].Running?
    ensures !Accepted(s, s.pcs[w].task)
  {
    assert PcOk(ts, s.pcs[w]);
    var i := s.pcs[w].task;
    assert s.loc[i] == Active(w);
    forall v: nat | v < |s.pcs| && AfterCheck(s.pcs[v]) ensures s.pcs[v].task != i {
      assert s.loc[i] == Active(v) <==> HasTask(s.pcs[v]) && s.pcs[v].task == i;
    }
  }

  // The task that initialises quotients is itself checked without them.
  lemma {:induction false} QuotInitIsBlind(t: DepGraph.Table, b: DepGraph.Built, jobs: nat, s: State, w: nat)
    requires DepGraph.Partition(t, b.tasks, b.owner) && Reachable(b.tasks, jobs, s)
    requires w < |s.pcs| && s.pcs[w].Running? && s.pcs[w].task < |b.tasks| && b.tasks[s.pcs[w].task].kind.Quot?
    ensures !s.quotInit && !s.pcs[w].quot
  {
    ReachableInv(b.tasks, jobs, s);
    RunningIsNotAccepted(b.tasks, s, w);
    QuotWasAccepted(b.tasks, jobs, s);
    OneQuotTask(t, b, s.pcs[w].task);
    assert !QuotAccepted(b.tasks, s);
  }

  lemma {:induction false} OneQuotTask(t: DepGraph.Table, b: DepGraph.Built, x: nat)
    requires DepGraph.Partition(t, b.tasks, b.owner) && x < |b.tasks| && b.tasks[x].kind.Quot?
    ensures forall i: nat :: i < |b.tasks| && b.tasks[i].kind.Quot? ==> i == x
  {
    forall i: nat | i < |b.tasks| && b.tasks[i].kind.Quot? ensures i == x {
      assert DepGraph.GroupOfTask(b.tasks[i].kind) == DepGraph.GroupOfTask(b.tasks[x].kind);
    }
  }

  // The gated lookup answers for `n` once the flags in `admitted` are set.
  predicate Visible(t: DepGraph.Table, admitted: set<Name>, n: Name) {
    n in t && n in admitted
  }

  // While the kernel checks a task, every constant a name of that task mentions belongs to the same task or is
  // already admitted; a quotient constant of another task also comes with the quotient flag.
  lemma {:induction false} UsesAreAdmitted(t: DepGraph.Table, eq: Name, b: DepGraph.Built, jobs: nat, s: State, w: nat,
                                           n: Name, d: Name)
    requires DepGraph.Sound(t, eq, b) && Checks(t, b, jobs, s, w, n) && d in t[n].used
    ensures d in b.owner && (b.owner[d] == b.owner[n] || d in s.admitted)
    ensures b.owner[d] != b.owner[n] && d in t ==> Visible(t, s.admitted, d)
    ensures DepGraph.WellFormed(t, eq) || b.owner.Keys <= t.Keys ==> d in t
    ensures b.owner[d] != b.owner[n] && b.tasks[b.owner[d]].kind.Quot? ==> s.pcs[w].quot
  {
    var x, y := b.owner[n], b.owner[d];
    if y != x {
      assert DepGraph.Grouped(t, b.owner, n);
      assert DepGraph.Mentions(t, b.owner, x, y);
      assert y in b.tasks[x].deps;
      StartsAfterDependencies(b.tasks, jobs, s, w, y);
    }
  }

  // Before quotient initialisation is checked, `Eq` is admitted.
  lemma {:induction false} EqBeforeQuot(t: DepGraph.Table, eq: Name, b: DepGraph.Built, jobs: nat, s: State, w: nat)
    requires DepGraph.Sound(t, eq, b) && Reachable(b.tasks, jobs, s)
    requires w < |s.pcs| && s.pcs[w].Running? && s.pcs[w].task < |b.tasks| && b.tasks[s.pcs[w].task].kind.Quot?
    ensures eq in t && eq in b.owner && (b.owner[eq] == s.pcs[w].task || eq in s.admitted)
  {
    var x, y := s.pcs[w].task, b.owner[eq];
    if y != x {
      assert DepGraph.NeedsEq(b.tasks, b.owner, x, y);
      assert y in b.tasks[x].deps;
      StartsAfterDependencies(b.tasks, jobs, s, w, y);
    }
  }

  // In a well-formed table two constants share a task exactly when the table puts them in one group.
  lemma {:induction false} OneTaskPerGroup(t: DepGraph.Table, eq: Name, b: DepGraph.Built, m: Name, n: Name)
    requires DepGraph.Sound(t, eq, b) && DepGraph.Partition(t, b.tasks, b.owner)
    requires m in t && n in t
    ensures m in b.owner && n in b.owner
    ensures b.owner[m] == b.owner[n] <==> DepGraph.GroupOf(t, m) == DepGraph.GroupOf(t, n)
    ensures forall i :: 0 <= i < |b.tasks| ==> (n in b.tasks[i].admits <==> i == b.owner[n])
  {
    var i, j := b.owner[m], b.owner[n];
    if i < j {
      assert DepGraph.GroupOfTask(b.tasks[i].kind) != DepGraph.GroupOfTask(b.tasks[j].kind);
    } else if j < i {
      assert DepGraph.GroupOfTask(b.tasks[j].kind) != DepGraph.GroupOfTask(b.tasks[i].kind);
    }
  }

  // ----- the count, read off the table -----

  function Groups(t: DepGraph.Table): set<DepGraph.Group> {
    set n | n in t && DepGraph.GroupOf(t, n) != DepGraph.Quotients :: DepGraph.GroupOf(t, n)
  }

  function QuotientsOf(t: DepGraph.Table): set<Name> {
    set n | n in t && t[n].Quotient?
  }

  // One unit a group, except that each quotient constant is a unit of its own.
  function Units(t: DepGraph.Table): nat {
    |Groups(t)| + |QuotientsOf(t)|
  }

  lemma {:induction false} NamesFill(names: seq<Name>, u: set<Name>)
    requires NoDup(names) && forall n :: n in names <==> n in u
    ensures |names| == |u|
  {
    if names == [] {
      assert u == {};
    } else {
      NamesFill(names[..|names| - 1], u - {names[|names| - 1]});
    }
  }

  // The groups among the first `n` tasks.
  function TaskGroups(ts: seq<Task>, n: nat): set<DepGraph.Group>
    requires n <= |ts|
  {
    if n == 0 then {} else
      TaskGroups(ts, n - 1) + if ts[n - 1].kind.Quot? then {} else {DepGraph.GroupOfTask(ts[n - 1].kind)}
  }

  function NameSet(names: seq<Name>): set<Name> {
    set n | n in names
  }

  // The quotient constants among the first `n` tasks.
  function TaskQuotients(ts: seq<Task>, n: nat): set<Name>
    requires n <= |ts|
  {
    if n == 0 then {} else
      TaskQuotients(ts, n - 1) + if ts[n - 1].kind.Quot? then NameSet(ts[n - 1].kind.names) else {}
  }

  lemma {:induction false} InTaskGroups(ts: seq<Task>, n: nat, g: DepGraph.Group)
    requires n <= |ts|
    ensures g in TaskGroups(ts, n) <==>
              exists i :: 0 <= i < |ts| && i < n && !ts[i].kind.Quot? && DepGraph.GroupOfTask(ts[i].kind) == g
  {
    if n > 0 { InTaskGroups(ts, n - 1, g); }
  }

  lemma {:induction false} InTaskQuotients(ts: seq<Task>, n: nat, q: Name)
    requires n <= |ts|
    ensures q in TaskQuotients(ts, n) <==>
              exists i :: 0 <= i < |ts| && i < n && ts[i].kind.Quot? && q in ts[i].kind.names
  {
    if n > 0 { InTaskQuotients(ts, n - 1, q); }
  }

  ghost predicate Apart(ts: seq<Task>) {
    forall i, j :: 0 <= i < j < |ts| ==> DepGraph.GroupOfTask(ts[i].kind) != DepGraph.GroupOfTask(ts[j].kind)
  }

  lemma {:induction false} CountGroups(ts: seq<Task>, n: nat)
    requires n <= |ts| && Apart(ts)
    requires forall i :: 0 <= i < |ts| && ts[i].kind.Quot? ==> NoDup(ts[i].kind.names)
    ensures TotalCount(ts, n) == |TaskGroups(ts, n)| + |TaskQuotients(ts, n)|
  {
    if n > 0 {
      CountGroups(ts, n - 1);
      if ts[n - 1].kind.Quot? {
        FirstQuotient(ts, n - 1);
        CountQuotient(ts, n - 1);
      } else {
        NewGroup(ts, n - 1);
        CountGroup(ts, n - 1);
      }
    }
  }

  lemma {:induction false} CountQuotient(ts: seq<Task>, n: nat)
    requires n < |ts| && ts[n].kind.Quot? && NoDup(ts[n].kind.names) && TaskQuotients(ts, n) == {}
    ensures TaskGroups(ts, n + 1) == TaskGroups(ts, n)
    ensures |TaskQuotients(ts, n + 1)| == |ts[n].kind.names|
            && TotalCount(ts, n + 1) == TotalCount(ts, n) + |ts[n].kind.names|
  {
    NamesFill(ts[n].kind.names, NameSet(ts[n].kind.names));
    assert TaskQuotients(ts, n + 1) == NameSet(ts[n].kind.names);
  }

  lemma {:induction false} CountGroup(ts: seq<Task>, n: nat)
    requires n < |ts| && !ts[n].kind.Quot? && DepGraph.GroupOfTask(ts[n].kind) !in TaskGroups(ts, n)
    ensures TaskQuotients(ts, n + 1) == TaskQuotients(ts, n)
    ensures |TaskGroups(ts, n + 1)| == |TaskGroups(ts, n)| + 1 && TotalCount(ts, n + 1) == TotalCount(ts, n) + 1
  {
  }

  lemma {:induction false} NewGroup(ts: seq<Task>, n: nat)
    requires n < |ts| && Apart(ts)
    ensures DepGraph.GroupOfTask(ts[n].kind) !in TaskGroups(ts, n)
  {
    InTaskGroups(ts, n, DepGraph.GroupOfTask(ts[n].kind));
  }

  lemma {:induction false} FirstQuotient(ts: seq<Task>, n: nat)
    requires n < |ts| && Apart(ts) && ts[n].kind.Quot?
    ensures TaskQuotients(ts, n) == {}
  {
    forall i | 0 <= i < n ensures !ts[i].kind.Quot? {
      assert DepGraph.GroupOfTask(ts[i].kind) != DepGraph.GroupOfTask(ts[n].kind);
    }
    NoQuotients(ts, n);
  }

  lemma {:induction false} NoQuotients(ts: seq<Task>, n: nat)
    requires n <= |ts| && forall i :: 0 <= i < n ==> !ts[i].kind.Quot?
    ensures TaskQuotients(ts, n) == {}
  {
    if n > 0 { NoQuotients(ts, n - 1); }
  }

  predicate InItsTask(t: DepGraph.Table, b: DepGraph.Built, n: Name)
    requires n in t
  {
    n in b.owner && b.owner[n] < |b.tasks| && DepGraph.GroupOf(t, n) == DepGraph.GroupOfTask(b.tasks[b.owner[n]].kind)
  }

  ghost predicate NamesPlaced(t: DepGraph.Table, b: DepGraph.Built) {
    forall n {:trigger InItsTask(t, b, n)} :: n in t ==> InItsTask(t, b, n)
  }

  ghost predicate TasksFilled(t: DepGraph.Table, ts: seq<Task>) {
    forall i :: 0 <= i < |ts| ==>
      ts[i].admits != [] && ts[i].admits[0] in t
        && DepGraph.GroupOf(t, ts[i].admits[0]) == DepGraph.GroupOfTask(ts[i].kind)
  }

  ghost predicate QuotFilled(t: DepGraph.Table, ts: seq<Task>) {
    forall i :: 0 <= i < |ts| && ts[i].kind.Quot? ==>
      NoDup(ts[i].kind.names) && NameSet(ts[i].kind.names) == QuotientsOf(t)
  }

  lemma {:induction false} PartitionFaithful(t: DepGraph.Table, eq: Name, b: DepGraph.Built)
    requires DepGraph.Sound(t, eq, b) && DepGraph.Partition(t, b.tasks, b.owner)
    ensures NamesPlaced(t, b) && TasksFilled(t, b.tasks) && QuotFilled(t, b.tasks) && Apart(b.tasks)
  {
    TasksAreFilled(t, b.tasks, b.owner);
    forall n {:trigger InItsTask(t, b, n)} | n in t ensures InItsTask(t, b, n) {
    }
  }

  lemma {:induction false} TasksAreFilled(t: DepGraph.Table, ts: seq<Task>, owner: DepGraph.Owners)
    requires DepGraph.Partition(t, ts, owner)
    ensures TasksFilled(t, ts) && QuotFilled(t, ts)
  {
    forall i | 0 <= i < |ts|
      ensures ts[i].admits != [] && ts[i].admits[0] in t
      ensures DepGraph.GroupOf(t, ts[i].admits[0]) == DepGraph.GroupOfTask(ts[i].kind)
    {
      assert ts[i].admits[0] in ts[i].admits;
    }
    forall i | 0 <= i < |ts| && ts[i].kind.Quot?
      ensures NoDup(ts[i].kind.names) && NameSet(ts[i].kind.names) == QuotientsOf(t)
    {
      assert DepGraph.Whole(t, ts[i]);
    }
  }

  lemma {:induction false} CountIsUnits(t: DepGraph.Table, eq: Name, b: DepGraph.Built)
    requires DepGraph.Sound(t, eq, b) && DepGraph.Partition(t, b.tasks, b.owner)
    ensures TotalCount(b.tasks, |b.tasks|) == Units(t)
  {
    PartitionFaithful(t, eq, b);
    CountFaithful(t, b);
  }

  lemma {:induction false} CountFaithful(t: DepGraph.Table, b: DepGraph.Built)
    requires NamesPlaced(t, b) && TasksFilled(t, b.tasks) && QuotFilled(t, b.tasks) && Apart(b.tasks)
    ensures TotalCount(b.tasks, |b.tasks|) == Units(t)
  {
    CountGroups(b.tasks, |b.tasks|);
    TaskGroupsWithin(t, b.tasks);
    GroupsWithin(t, b);
    assert TaskGroups(b.tasks, |b.tasks|) == Groups(t);
    QuotientsWithin(t, b);
    TaskQuotientsWithin(t, b.tasks);
    assert TaskQuotients(b.tasks, |b.tasks|) == QuotientsOf(t);
  }

  lemma {:induction false} TaskGroupsWithin(t: DepGraph.Table, ts: seq<Task>)
    requires TasksFilled(t, ts)
    ensures TaskGroups(ts, |ts|) <= Groups(t)
  {
    forall g | g in TaskGroups(ts, |ts|) ensures g in Groups(t) {
      InTaskGroups(ts, |ts|, g);
    }
  }

  lemma {:induction false} GroupsWithin(t: DepGraph.Table, b: DepGraph.Built)
    requires NamesPlaced(t, b)
    ensures Groups(t) <= TaskGroups(b.tasks, |b.tasks|)
  {
    forall g | g in Groups(t) ensures g in TaskGroups(b.tasks, |b.tasks|) {
      var n :| n in t && DepGraph.GroupOf(t, n) == g;
      InTaskGroups(b.tasks, |b.tasks|, g);
      assert InItsTask(t, b, n);
      assert DepGraph.GroupOfTask(b.tasks[b.owner[n]].kind) == g;
    }
  }

  lemma {:induction false} QuotientsWithin(t: DepGraph.Table, b: DepGraph.Built)
    requires NamesPlaced(t, b) && QuotFilled(t, b.tasks)
    ensures QuotientsOf(t) <= TaskQuotients(b.tasks, |b.tasks|)
  {
    forall q | q in QuotientsOf(t) ensures q in TaskQuotients(b.tasks, |b.tasks|) {
      InTaskQuotients(b.tasks, |b.tasks|, q);
      assert InItsTask(t, b, q);
      assert q in NameSet(b.tasks[b.owner[q]].kind.names);
    }
  }

  lemma {:induction false} TaskQuotientsWithin(t: DepGraph.Table, ts: seq<Task>)
    requires QuotFilled(t, ts)
    ensures TaskQuotients(ts, |ts|) <= QuotientsOf(t)
  {
    forall q | q in TaskQuotients(ts, |ts|) ensures q in QuotientsOf(t) {
      InTaskQuotients(ts, |ts|, q);
      var i :| 0 <= i < |ts| && ts[i].kind.Quot? && q in ts[i].kind.names;
      assert q in NameSet(ts[i].kind.names);
    }
  }

  // ----- both together -----

  datatype Verdict = MissingConstant(name: Name) | Ran(outcome: Outcome)

  // Every constant comes after the constants it mentions, or together with them.
  ghost predicate ReplayOrder(t: DepGraph.Table, owner: DepGraph.Owners, order: seq<nat>) {
    && NoDup(order)
    && forall n, d :: n in t && d in t[n].used && n in owner && d in owner && owner[d] != owner[n] ==>
         exists j, k :: 0 <= j < k < |order| && order[j] == owner[d] && order[k] == owner[n]
  }

  lemma {:induction false} CompleteRunReplays(t: DepGraph.Table, eq: Name, b: DepGraph.Built, s: State)
    requires DepGraph.Sound(t, eq, b) && Inv(b.tasks, s) && forall i :: 0 <= i < |b.tasks| ==> i in s.order
    ensures ReplayOrder(t, b.owner, s.order)
  {
    forall n, d | n in t && d in t[n].used && n in b.owner && d in b.owner && b.owner[d] != b.owner[n]
      ensures exists j, k :: 0 <= j < k < |s.order| && s.order[j] == b.owner[d] && s.order[k] == b.owner[n]
    {
      assert DepGraph.Grouped(t, b.owner, n);
      assert DepGraph.Mentions(t, b.owner, b.owner[n], b.owner[d]);
      assert b.owner[d] in b.tasks[b.owner[n]].deps;
      var k := IndexOf(s.order, b.owner[n]);
      assert b.owner[d] in s.order[..k];
      var j :| 0 <= j < k && s.order[..k][j] == b.owner[d];
    }
  }

  lemma {:induction false} SomeoneToBlame(ts: seq<Task>, blame: Option<Name>)
    requires RightBlame(ts, blame) && forall i :: 0 <= i < |ts| ==> ts[i].admits != []
    ensures exists i: nat :: Blamed(ts, i) && blame == Some(ts[i].admits[0])
  {
  }

  /** Build, then check in parallel; `judge` is the kernel's verdict on each task. */
  method CheckTable(t: DepGraph.Table, eq: Name, jobs: nat, judge: Verdicts, spurious: nat)
    returns (v: Verdict, ghost b: DepGraph.Built, ghost end: State)
    ensures DepGraph.WellFormed(t, eq) ==> v.Ran?
    ensures v.Ran? ==> DepGraph.Sound(t, eq, b) && ReachableUnder(b.tasks, jobs, judge, end) && AllReturned(end)
    ensures v.Ran? ==> Reachable(b.tasks, jobs, end)
    ensures v.Ran? && DepGraph.WellFormed(t, eq) ==> DepGraph.Partition(t, b.tasks, b.owner)
    ensures v.Ran? ==> (v.outcome.Failed? <==> end.failure.Some?)
    ensures v.Ran? ==> (v.outcome.Failed? <==> Rejects(b.tasks, judge))
    ensures v.Ran? && v.outcome.Failed? ==>
              v.outcome.task < |b.tasks| && v.outcome.task in end.order && !judge(v.outcome.task)
    ensures v.Ran? ==>
              (v.outcome.Checked? <==> Acyclic(DepsOf(b.tasks)) && forall i: nat :: i < |b.tasks| ==> judge(i))
    ensures v.Ran? && v.outcome.Checked? ==> forall n :: n in t ==> judge(b.owner[n])
    ensures v.Ran? ==> forall n {:trigger n in end.admitted} :: n in end.admitted ==>
              exists i: nat :: i < |b.tasks| && n in b.tasks[i].admits && judge(i)
    ensures v.Ran? && end.failure.None? ==> (v.outcome.Checked? <==> Acyclic(DepsOf(b.tasks)))
    ensures v.Ran? && DepGraph.WellFormed(t, eq) && v.outcome.DependencyCycle? ==>
              exists i: nat :: Blamed(b.tasks, i) && v.outcome.blame == Some(b.tasks[i].admits[0])
    ensures v.Ran? && v.outcome.Checked? ==>
              && t.Keys <= end.admitted
              && ReplayOrder(t, b.owner, end.order)
              && (DepGraph.WellFormed(t, eq) ==> v.outcome.count == Units(t))
  {
    var built := DepGraph.BuildGraph(t, eq);
    if built.MissingConstant? {
      v, b, end := MissingConstant(built.name), DepGraph.Built([], map[]), Init([], jobs);
      return;
    }
    b := built.value;
    var outcome;
    outcome, end := CheckParallel(built.value.tasks, jobs, judge, spurious);
    VerdictsDecide(b.tasks, jobs, judge, end);
    v := Ran(outcome);
    DepsInRange(t, eq, b);
    if outcome.DependencyCycle? && DepGraph.WellFormed(t, eq) {
      SomeoneToBlame(b.tasks, outcome.blame);
    }
    if outcome.Checked? {
      ReachableInv(b.tasks, jobs, end);
      CompleteRunReplays(t, eq, b, end);
      forall n | n in t ensures n in end.admitted {
        assert n in b.tasks[b.owner[n]].admits;
        assert Admitted(b.tasks, end, b.owner[n]);
      }
      if DepGraph.WellFormed(t, eq) {
        CountIsUnits(t, eq, b);
      }
    }
  }

  lemma {:induction false} DepsInRange(t: DepGraph.Table, eq: Name, b: DepGraph.Built)
    requires DepGraph.Sound(t, eq, b)
    ensures InRange(DepsOf(b.tasks))
    ensures forall i :: 0 <= i < |b.tasks| ==> i !in b.tasks[i].deps
  {
    var g := DepsOf(b.tasks);
    forall i, k | 0 <= i < |g| && 0 <= k < |g[i]| ensures g[i][k] < |g| {
      var j := g[i][k];
      assert j in b.tasks[i].deps;
      assert DepGraph.Mentions(t, b.owner, i, j) || DepGraph.NeedsEq(b.tasks, b.owner, i, j);
    }
  }
}
