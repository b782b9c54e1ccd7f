/** The worker pool of the parallel kernel check as a sequentially consistent transition system.
    One step is one access to shared state: a critical section of the ready-queue mutex, one atomic
    load, store or decrement, or one write under the failure mutex. */
module Scheduler {
  import opened Options
  import opened Digraph
  import opened Tasks

  const USIZE_MAX: nat := 0xFFFF_FFFF_FFFF_FFFF

  // What a worker does next.
  datatype Pc =
    | Acquire                                            // lock the ready queue, load `cancelled`
    | Holding                                            // holds the lock, saw `cancelled` false
    | Waiting                                            // parked on the condition variable
    | Starting(task: nat)                                // popped; about to load the quotient flag
    | Running(task: nat, quot: bool)                     // the kernel is checking; the view saw `quot`
    | Admitting(task: nat, k: nat)                       // checked; flags of admits[..k] are set
    | Tally(task: nat)                                   // about to add to `checked`
    | Decrementing(task: nat, k: nat, newly: seq<nat>)   // dependents[..k] decremented, no lock held
    | Progress(count: nat)                               // published; calling `progress`
    | Recording(task: nat)                               // failed; about to fill the failure slot
    | Cancelling(task: nat)                              // about to store `cancelled`
    | Leaving(task: nat)                                 // about to lock, un-count itself and return
    | Returned

  predicate HasTask(pc: Pc) {
    pc.Starting? || pc.Running? || pc.Admitting? || pc.Tally? || pc.Decrementing? ||
    pc.Recording? || pc.Cancelling? || pc.Leaving?
  }

  // Where a task is; follows from the rest of the state and is kept to say so.
  datatype Loc = Blocked | Held(w: nat) | Queued | Active(w: nat) | Done | Dropped

  datatype State = State(
    pending: seq<nat>,         // per-task atomic counters
    queue: seq<nat>,           // ready queue, under the mutex
    inFlight: int,             // under the mutex
    done: nat,                 // under the mutex
    cancelled: bool,           // atomic
    failure: Option<nat>,      // under its own mutex; the failed task
    checked: nat,              // atomic
    admitted: set<Name>,       // per-name atomic flags
    quotInit: bool,            // atomic
    pcs: seq<Pc>,              // one per worker
    loc: seq<Loc>,             // history: where each task is
    order: seq<nat>            // history: tasks in the order they were popped
  )

  // ----- steps -----

  function FetchSub(x: nat): nat {
    if x == 0 then USIZE_MAX else x - 1
  }

  function NotifyAll(pcs: seq<Pc>): (r: seq<Pc>)
    ensures |r| == |pcs|
    ensures forall w :: 0 <= w < |pcs| ==> r[w] == if pcs[w].Waiting? then Acquire else pcs[w]
  {
    seq(|pcs|, w requires 0 <= w < |pcs| => if pcs[w].Waiting? then Acquire else pcs[w])
  }

  function Enqueue(loc: seq<Loc>, newly: seq<nat>): (r: seq<Loc>)
    ensures |r| == |loc|
    ensures forall i :: 0 <= i < |loc| ==> r[i] == if i in newly then Queued else loc[i]
  {
    seq(|loc|, i requires 0 <= i < |loc| => if i in newly then Queued else loc[i])
  }

  predicate PcOk(ts: seq<Task>, pc: Pc) {
    && (HasTask(pc) ==> pc.task < |ts|)
    && (pc.Admitting? ==> pc.k <= |ts[pc.task].admits|)
    && (pc.Decrementing? ==> pc.k <= |Dependents(DepsOf(ts), pc.task)|)
    && (pc.Decrementing? ==> forall i :: i in pc.newly ==> i < |ts|)
  }

  predicate Shape(ts: seq<Task>, s: State) {
    && |s.pending| == |ts| && |s.loc| == |ts| && |s.pcs| >= 1
    && (forall w :: 0 <= w < |s.pcs| ==> PcOk(ts, s.pcs[w]))
    && (forall i :: i in s.queue ==> i < |ts|)
  }

  function Set(s: State, w: nat, pc: Pc): State
    requires w < |s.pcs|
  {
    s.(pcs := s.pcs[w := pc])
  }

  function StepTake(s: State, w: nat): State
    requires w < |s.pcs| && (s.queue != [] ==> s.queue[0] < |s.loc|)
  {
    if s.queue != [] then
      var t := s.queue[0];
      Set(s, w, Starting(t)).(queue := s.queue[1..], inFlight := s.inFlight + 1,
                              loc := s.loc[t := Active(w)], order := s.order + [t])
    else if s.inFlight == 0 then
      s.(pcs := NotifyAll(s.pcs)[w := Returned])
    else
      Set(s, w, Waiting)
  }

  predicate PublishesQuot(kind: TaskKind) {
    kind.Quot? && kind.names != []
  }

  function StepAdmit(ts: seq<Task>, s: State, w: nat): State
    requires Shape(ts, s) && w < |s.pcs| && s.pcs[w].Admitting?
  {
    var t, k := s.pcs[w].task, s.pcs[w].k;
    if k < |ts[t].admits| then
      Set(s, w, Admitting(t, k + 1)).(admitted := s.admitted + {ts[t].admits[k]})
    else
      Set(s, w, Tally(t)).(quotInit := s.quotInit || PublishesQuot(ts[t].kind))
  }

  function StepFinish(ts: seq<Task>, s: State, w: nat): State
    requires Shape(ts, s) && w < |s.pcs| && s.pcs[w].Decrementing?
  {
    var t, k, newly := s.pcs[w].task, s.pcs[w].k, s.pcs[w].newly;
    var dependents := Dependents(DepsOf(ts), t);
    if k < |dependents| then
      var i := dependents[k].0;
      DependentsExact(DepsOf(ts), t); assert IsOcc(DepsOf(ts), t, dependents[k]);
      var ready := s.pending[i] == 1;
      Set(s, w, Decrementing(t, k + 1, if ready then newly + [i] else newly)).(
        pending := s.pending[i := FetchSub(s.pending[i])],
        loc := if ready then s.loc[i := Held(w)] else s.loc)
    else
      s.(queue := s.queue + newly, inFlight := s.inFlight - 1, done := s.done + 1,
         pcs := NotifyAll(s.pcs)[w := Progress(s.done + 1)],
         loc := Enqueue(s.loc, newly)[t := Done])
  }

  function StepLeave(s: State, w: nat): State
    requires w < |s.pcs| && s.pcs[w].Leaving? && s.pcs[w].task < |s.loc|
  {
    s.(inFlight := s.inFlight - 1, pcs := NotifyAll(s.pcs)[w := Returned], loc := s.loc[s.pcs[w].task := Dropped])
  }

  predicate OneCell(pc: Pc) {
    pc.Acquire? || pc.Starting? || pc.Running? || pc.Tally? || pc.Progress? || pc.Recording? || pc.Cancelling?
  }

  // Steps that touch one flag, one counter or the failure slot.
  function StepOneCell(ts: seq<Task>, s: State, w: nat, ok: bool): State
    requires w < |s.pcs| && OneCell(s.pcs[w]) && PcOk(ts, s.pcs[w])
  {
    match s.pcs[w]
    case Acquire => Set(s, w, if s.cancelled then Returned else Holding)
    case Starting(t) => Set(s, w, Running(t, s.quotInit))
    case Running(t, _) => Set(s, w, if ok then Admitting(t, 0) else Recording(t))
    case Tally(t) => Set(s, w, Decrementing(t, 0, [])).(checked := s.checked + CheckedCount(ts[t].kind))
    case Recording(t) => Set(s, w, Cancelling(t)).(failure := if s.failure.None? then Some(t) else s.failure)
    case Cancelling(t) => Set(s, w, Leaving(t)).(cancelled := true)
    case Progress(_) => Set(s, w, Acquire)
  }

  predicate LockFree(s: State, w: nat) {
    forall v :: 0 <= v < |s.pcs| && v != w ==> !s.pcs[v].Holding?
  }

  predicate NeedsLock(ts: seq<Task>, pc: Pc) {
    pc.Acquire? || pc.Leaving? || (pc.Decrementing? && pc.k >= |Dependents(DepsOf(ts), pc.task)|)
  }

  // Worker `w` is neither parked nor gone, and nobody else holds a lock it needs.
  predicate CanStep(ts: seq<Task>, s: State, w: nat) {
    && Shape(ts, s) && w < |s.pcs|
    && !s.pcs[w].Waiting? && !s.pcs[w].Returned?
    && (NeedsLock(ts, s.pcs[w]) ==> LockFree(s, w))
  }

  // `ok` is the kernel's verdict and matters only while running.
  function Step(ts: seq<Task>, s: State, w: nat, ok: bool): State
    requires CanStep(ts, s, w)
  {
    assert s.queue != [] ==> s.queue[0] in s.queue;
    assert PcOk(ts, s.pcs[w]);
    if s.pcs[w].Holding? then StepTake(s, w)
    else if s.pcs[w].Admitting? then StepAdmit(ts, s, w)
    else if s.pcs[w].Decrementing? then StepFinish(ts, s, w)
    else if s.pcs[w].Leaving? then StepLeave(s, w)
    else StepOneCell(ts, s, w, ok)
  }

  // A condition variable may also wake a worker for no reason.
  predicate CanWake(s: State, w: nat) {
    w < |s.pcs| && s.pcs[w].Waiting?
  }

  ghost predicate Next(ts: seq<Task>, s: State, s': State) {
    || (exists w, ok :: CanStep(ts, s, w) && s' == Step(ts, s, w, ok))
    || (exists w :: CanWake(s, w) && s' == Set(s, w, Acquire))
  }

  function ReadyIds(ts: seq<Task>, n: nat): seq<nat>
    requires n <= |ts|
  {
    if n == 0 then [] else
      ReadyIds(ts, n - 1) + if ts[n - 1].deps == [] then [n - 1] else []
  }

  function Init(ts: seq<Task>, jobs: nat): State {
    State(seq(|ts|, i requires 0 <= i < |ts| => |ts[i].deps|), ReadyIds(ts, |ts|), 0, 0, false, None, 0, {}, false,
          seq(if jobs == 0 then 1 else jobs, _ => Acquire),
          seq(|ts|, i requires 0 <= i < |ts| => if ts[i].deps == [] then Queued else Blocked), [])
  }

  // ----- the invariant -----

  // How many occurrences of `d` in dependency lists have been decremented.
  function Cursor(ts: seq<Task>, s: State, d: nat): nat
    requires Shape(ts, s) && d < |ts|
  {
    match s.loc[d]
    case Done => |Dependents(DepsOf(ts), d)|
    case Active(w) => if w < |s.pcs| && s.pcs[w].Decrementing? && s.pcs[w].task == d then s.pcs[w].k else 0
    case _ => 0
  }

  function Cursors(ts: seq<Task>, s: State): (r: seq<nat>)
    requires Shape(ts, s)
    ensures |r| == |ts| && forall d :: 0 <= d < |ts| ==> r[d] == Cursor(ts, s, d)
  {
    seq(|ts|, d requires 0 <= d < |ts| => Cursor(ts, s, d))
  }

  predicate Served(g: Graph, cur: seq<nat>, i: nat, m: nat)
    requires |cur| == |g| && i < |g| && m < |g[i]|
  {
    var d := g[i][m];
    d < |g| && cur[d] <= |Dependents(g, d)| && (i, m) in Dependents(g, d)[..cur[d]]
  }

  function Unserved(g: Graph, cur: seq<nat>, i: nat): set<nat>
    requires |cur| == |g| && i < |g|
  {
    set m | 0 <= m < |g[i]| && !Served(g, cur, i, m)
  }

  predicate InNewly(pc: Pc, i: nat) {
    pc.Decrementing? && i in pc.newly
  }

  ghost predicate Placed(ts: seq<Task>, s: State)
    requires Shape(ts, s)
  {
    && NoDup(s.queue)
    && (forall i :: 0 <= i < |ts| ==> (s.loc[i] == Queued <==> i in s.queue))
    && (forall w :: 0 <= w < |s.pcs| && s.pcs[w].Decrementing? ==> NoDup(s.pcs[w].newly))
    && (forall i, w :: 0 <= i < |ts| && 0 <= w < |s.pcs| ==> (s.loc[i] == Held(w) <==> InNewly(s.pcs[w], i)))
    && (forall i, w :: 0 <= i < |ts| && 0 <= w < |s.pcs| ==>
         (s.loc[i] == Active(w) <==> HasTask(s.pcs[w]) && s.pcs[w].task == i))
    && (forall i :: 0 <= i < |ts| && (s.loc[i].Held? || s.loc[i].Active?) ==> s.loc[i].w < |s.pcs|)
  }

  // A task is blocked exactly while its counter is positive.
  ghost predicate BlockedExact(s: State) {
    && |s.loc| == |s.pending|
    && forall i :: 0 <= i < |s.loc| ==> (s.loc[i] == Blocked <==> s.pending[i] > 0)
  }

  // Each counter is the number of its task's dependencies not yet decremented.
  ghost predicate Counted(ts: seq<Task>, s: State)
    requires Shape(ts, s)
  {
    CountedAt(DepsOf(ts), Cursors(ts, s), s.pending)
  }

  ghost predicate CountedAt(g: Graph, cur: seq<nat>, pending: seq<nat>) {
    && |cur| == |pending| == |g|
    && forall i :: 0 <= i < |g| ==> pending[i] == |Unserved(g, cur, i)|
  }

  function Holders(pcs: seq<Pc>): set<nat> {
    set w | 0 <= w < |pcs| && HasTask(pcs[w])
  }

  function DoneSet(loc: seq<Loc>): set<nat> {
    set i | 0 <= i < |loc| && loc[i].Done?
  }

  ghost predicate CountsRight(s: State) {
    && s.inFlight == |Holders(s.pcs)|
    && s.done == |DoneSet(s.loc)|
  }

  // A parked worker has work in flight that will wake it; a worker that left without a failure left nothing behind.
  ghost predicate Wakeful(s: State) {
    && (forall w :: 0 <= w < |s.pcs| && s.pcs[w].Waiting? ==> s.queue == [] && s.inFlight > 0)
    && (forall w :: 0 <= w < |s.pcs| && s.pcs[w].Returned? && !s.cancelled ==> s.queue == [] && s.inFlight == 0)
  }

  ghost predicate OneHolder(pcs: seq<Pc>) {
    forall v, w :: 0 <= v < w < |pcs| ==> !(pcs[v].Holding? && pcs[w].Holding?)
  }

  // The task's admitted flags are all set and, for the quotient task, the quotient flag as well.
  predicate Admitted(ts: seq<Task>, s: State, i: nat)
    requires i < |ts|
  {
    && (forall n :: n in ts[i].admits ==> n in s.admitted)
    && (PublishesQuot(ts[i].kind) ==> s.quotInit)
  }

  // The task has been checked and has set its flags.
  predicate Passed(s: State, i: nat)
    requires i < |s.loc|
  {
    || s.loc[i].Done?
    || (s.loc[i].Active? && s.loc[i].w < |s.pcs| && (s.pcs[s.loc[i].w].Tally? || s.pcs[s.loc[i].w].Decrementing?))
  }

  predicate QuotDep(ts: seq<Task>, t: nat) {
    t < |ts| && exists d :: d in ts[t].deps && d < |ts| && PublishesQuot(ts[d].kind)
  }

  ghost predicate Admission(ts: seq<Task>, s: State)
    requires Shape(ts, s)
  {
    && (forall i :: 0 <= i < |ts| && Passed(s, i) ==> Admitted(ts, s, i))
    && (forall w :: 0 <= w < |s.pcs| && s.pcs[w].Admitting? ==>
         forall n :: n in ts[s.pcs[w].task].admits[..s.pcs[w].k] ==> n in s.admitted)
    && (forall w :: 0 <= w < |s.pcs| && s.pcs[w].Running? && QuotDep(ts, s.pcs[w].task) ==> s.pcs[w].quot)
  }

  predicate Popped(loc: Loc) {
    loc.Active? || loc.Done? || loc.Dropped?
  }

  ghost predicate Ordered(ts: seq<Task>, s: State)
    requires Shape(ts, s)
  {
    && NoDup(s.order)
    && (forall i: nat :: i in s.order <==> i < |ts| && Popped(s.loc[i]))
    && (forall j, d :: 0 <= j < |s.order| && s.order[j] < |ts| && d in ts[s.order[j]].deps ==> d in s.order[..j])
  }

  predicate Tallied(s: State, i: nat)
    requires i < |s.loc|
  {
    || s.loc[i].Done?
    || (s.loc[i].Active? && s.loc[i].w < |s.pcs| && s.pcs[s.loc[i].w].Decrementing?)
  }

  function TallySum(ts: seq<Task>, s: State, n: nat): nat
    requires n <= |ts| == |s.loc|
  {
    if n == 0 then 0 else
      TallySum(ts, s, n - 1) + if Tallied(s, n - 1) then CheckedCount(ts[n - 1].kind) else 0
  }

  ghost predicate FailSlot(s: State) {
    && (s.cancelled ==> s.failure.Some?)
    && (forall i :: 0 <= i < |s.loc| && s.loc[i].Dropped? ==> s.failure.Some? && s.cancelled)
    && (forall w :: 0 <= w < |s.pcs| && (s.pcs[w].Cancelling? || s.pcs[w].Leaving?) ==> s.failure.Some?)
    && (forall w :: 0 <= w < |s.pcs| && s.pcs[w].Leaving? ==> s.cancelled)
    && (s.failure.Some? ==>
         var t := s.failure.value;
         t < |s.loc| && (s.loc[t].Dropped? || (s.loc[t].Active? && s.loc[t].w < |s.pcs| &&
                           (s.pcs[s.loc[t].w].Cancelling? || s.pcs[s.loc[t].w].Leaving?))))
  }

  ghost predicate Inv(ts: seq<Task>, s: State) {
    && Shape(ts, s)
    && Placed(ts, s)
    && BlockedExact(s)
    && Counted(ts, s)
    && CountsRight(s)
    && Wakeful(s)
    && OneHolder(s.pcs)
    && Admission(ts, s)
    && Ordered(ts, s)
    && s.checked == TallySum(ts, s, |ts|)
    && FailSlot(s)
  }
}
