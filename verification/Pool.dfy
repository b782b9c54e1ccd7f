/** The build pool: one mutex around all scheduler state, one condition variable, and a notification that is
    sent only after the mutex has been dropped. One step is one critical section, one `notify_all`, or one call
    of `on_done`. */
module Pool {
  import opened Options
  import opened Digraph
  import opened Counters

  datatype Pc =
    | Acquire                              // at the top of the wait loop, wants the lock
    | Waiting                              // parked on the condition variable
    | Running(item: nat)                   // popped; the job runs without the lock
    | Notifying(item: nat, count: nat)     // settled and unlocked; about to notify
    | Calling(item: nat, count: nat)       // about to call `on_done`
    | NotifyingLeave                       // recorded a failure and unlocked; about to notify and return
    | Returned

  // Where an item is; history.
  datatype Loc = Blocked | Ready | Active(w: nat) | Done | Failed

  // Who has, or who had, the `k`-th completion to report; history.
  datatype Ticket = With(w: nat) | Called(j: nat)

  datatype State = State(
    ready: seq<nat>,
    remaining: seq<int>,
    inFlight: int,
    done: nat,
    cancelled: bool,
    failure: Option<nat>,
    pcs: seq<Pc>,
    loc: seq<Loc>,
    finished: seq<nat>,            // history: items in completion order
    tickets: seq<Ticket>,          // history: one per completion
    calls: seq<(nat, nat)>         // history: the arguments of every `on_done` so far
  )

  // ----- steps -----

  function Waken(pcs: seq<Pc>): (r: seq<Pc>)
    ensures |r| == |pcs|
    ensures forall w :: 0 <= w < |pcs| ==> r[w] == if pcs[w].Waiting? then Acquire else pcs[w]
  {
    seq(|pcs|, w requires 0 <= w < |pcs| => if pcs[w].Waiting? then Acquire else pcs[w])
  }

  function MarkReady(loc: seq<Loc>, freed: seq<nat>): (r: seq<Loc>)
    ensures |r| == |loc|
    ensures forall i :: 0 <= i < |loc| ==> r[i] == if i in freed then Ready else loc[i]
  {
    seq(|loc|, i requires 0 <= i < |loc| => if i in freed then Ready else loc[i])
  }

  predicate Shape(g: Graph, s: State) {
    && |s.remaining| == |g| && |s.loc| == |g| && |s.pcs| >= 1
    && (forall w :: 0 <= w < |s.pcs| && s.pcs[w].Running? ==> s.pcs[w].item < |g|)
    && (forall w :: 0 <= w < |s.pcs| && (s.pcs[w].Notifying? || s.pcs[w].Calling?) ==>
        0 < s.pcs[w].count <= |s.tickets|)
    && Within(s.ready, |g|)
  }

  predicate CanStep(g: Graph, s: State, w: nat) {
    Shape(g, s) && w < |s.pcs| && !s.pcs[w].Waiting? && !s.pcs[w].Returned?
  }

  function StepAcquire(g: Graph, s: State, w: nat): State
    requires CanStep(g, s, w)
  {
    if s.cancelled || s.done == |g| then
      s.(pcs := s.pcs[w := Returned])
    else if s.ready != [] then
      var i := s.ready[0];
      assert i in s.ready;
      s.(ready := s.ready[1..], inFlight := s.inFlight + 1, pcs := s.pcs[w := Running(i)], loc := s.loc[i := Active(w)])
    else if s.inFlight == 0 then
      s.(pcs := s.pcs[w := Returned])
    else
      s.(pcs := s.pcs[w := Waiting])
  }

  function StepSucceed(g: Graph, s: State, w: nat): State
    requires CanStep(g, s, w) && s.pcs[w].Running?
  {
    var i := s.pcs[w].item;
    var ds := DependentIds(g, i);
    var freed := Freed(s.remaining, ds);
    s.(inFlight := s.inFlight - 1, done := s.done + 1,
       remaining := Settle(s.remaining, ds), ready := s.ready + freed,
       pcs := s.pcs[w := Notifying(i, s.done + 1)],
       loc := MarkReady(s.loc, freed)[i := Done],
       finished := s.finished + [i], tickets := s.tickets + [With(w)])
  }

  function StepFail(g: Graph, s: State, w: nat): State
    requires CanStep(g, s, w) && s.pcs[w].Running?
  {
    var i := s.pcs[w].item;
    s.(inFlight := s.inFlight - 1, failure := if s.failure.None? then Some(i) else s.failure, cancelled := true,
       pcs := s.pcs[w := NotifyingLeave], loc := s.loc[i := Failed])
  }

  // `ok` is the job's outcome and matters only while running.
  function Step(g: Graph, s: State, w: nat, ok: bool): State
    requires CanStep(g, s, w)
  {
    match s.pcs[w]
    case Acquire => StepAcquire(g, s, w)
    case Running(_) => if ok then StepSucceed(g, s, w) else StepFail(g, s, w)
    case Notifying(i, c) => s.(pcs := Waken(s.pcs)[w := Calling(i, c)])
    case Calling(i, c) =>
      s.(pcs := s.pcs[w := Acquire], calls := s.calls + [(i, c)], tickets := s.tickets[c - 1 := Called(|s.calls|)])
    case NotifyingLeave => s.(pcs := Waken(s.pcs)[w := Returned])
  }

  predicate CanWake(s: State, w: nat) {
    w < |s.pcs| && s.pcs[w].Waiting?
  }

  function Wake(s: State, w: nat): State
    requires CanWake(s, w)
  {
    s.(pcs := s.pcs[w := Acquire])
  }

  // A worker steps, or a parked worker wakes for no reason.
  ghost predicate Next(g: Graph, s: State, s': State) {
    || (exists w, ok :: CanStep(g, s, w) && s' == Step(g, s, w, ok))
    || (exists w :: CanWake(s, w) && s' == Wake(s, w))
  }

  function ReadyAtStart(g: Graph, n: nat): (r: seq<nat>)
    requires n <= |g|
    ensures NoDup(r) && forall i: nat :: i in r <==> i < n && g[i] == []
  {
    if n == 0 then [] else ReadyAtStart(g, n - 1) + if g[n - 1] == [] then [n - 1] else []
  }

  function Max(a: nat, b: nat): nat { if a < b then b else a }
  function Min(a: nat, b: nat): nat { if a < b then a else b }

  function Workers(g: Graph, jobs: nat): (n: nat)
    ensures 1 <= n <= Max(jobs, 1) && n <= Max(|g|, 1)
    ensures n == Max(jobs, 1) || n == Max(|g|, 1)
  {
    Min(Max(jobs, 1), Max(|g|, 1))
  }

  function Init(g: Graph, jobs: nat): State {
    State(ReadyAtStart(g, |g|), seq(|g|, i requires 0 <= i < |g| => |g[i]|), 0, 0, false, None,
          seq(Workers(g, jobs), _ => Acquire),
          seq(|g|, i requires 0 <= i < |g| => if g[i] == [] then Ready else Blocked), [], [], [])
  }

  // ----- the invariant -----

  function DoneSet(loc: seq<Loc>): set<nat> {
    set i | 0 <= i < |loc| && loc[i].Done?
  }

  ghost predicate Placed(g: Graph, s: State) {
    && |s.loc| == |g|
    && NoDup(s.ready)
    && (forall i :: 0 <= i < |g| ==> (s.loc[i] == Ready <==> i in s.ready))
    && (forall i, w :: 0 <= i < |g| && 0 <= w < |s.pcs| ==> (s.loc[i] == Active(w) <==> s.pcs[w] == Running(i)))
    && (forall i :: 0 <= i < |g| && s.loc[i].Active? ==> s.loc[i].w < |s.pcs|)
  }

  ghost predicate Counted(g: Graph, s: State) {
    && |s.loc| == |g| == |s.remaining|
    && (forall i :: 0 <= i < |g| ==> s.remaining[i] == Open(g[i], DoneSet(s.loc)))
    && (forall i :: 0 <= i < |g| ==> (s.loc[i] == Blocked <==> s.remaining[i] > 0))
  }

  function Busy(pcs: seq<Pc>): set<nat> {
    set w | 0 <= w < |pcs| && pcs[w].Running?
  }

  ghost predicate CountsRight(s: State) {
    s.inFlight == |Busy(s.pcs)| && s.done == |DoneSet(s.loc)|
  }

  predicate Notifier(pc: Pc) {
    pc.Notifying? || pc.NotifyingLeave?
  }

  ghost predicate SomeNotifier(pcs: seq<Pc>) {
    exists v :: 0 <= v < |pcs| && Notifier(pcs[v])
  }

  // A parked worker either has nothing to take and a job in flight, or a notification is on its way.
  ghost predicate Wakeful(g: Graph, s: State) {
    && (forall w :: 0 <= w < |s.pcs| && s.pcs[w].Waiting? ==> (s.ready == [] && s.inFlight > 0) || SomeNotifier(s.pcs))
    && (forall w :: 0 <= w < |s.pcs| && s.pcs[w].Returned? && !s.cancelled ==>
         s.done == |g| || (s.ready == [] && s.inFlight == 0))
  }

  // Completion order respects dependencies.
  ghost predicate Ordered(g: Graph, s: State) {
    && |s.loc| == |g|
    && NoDup(s.finished) && |s.finished| == s.done
    && (forall i: nat :: i in s.finished <==> i < |g| && s.loc[i].Done?)
    && (forall k, d :: 0 <= k < |s.finished| && s.finished[k] < |g| && d in g[s.finished[k]] ==> d in s.finished[..k])
  }

  predicate Reports(pc: Pc, k: nat) {
    (pc.Notifying? || pc.Calling?) && pc.count == k + 1
  }

  // Each completion is held by one worker or was handed to one call.
  ghost predicate Handed(s: State) {
    && |s.tickets| == |s.finished|
    && (forall k, w :: 0 <= k < |s.tickets| && 0 <= w < |s.pcs| ==> (s.tickets[k] == With(w) <==> Reports(s.pcs[w], k)))
    && (forall k :: 0 <= k < |s.tickets| && s.tickets[k].With? ==> s.tickets[k].w < |s.pcs|)
    && (forall k, j :: 0 <= k < |s.tickets| && 0 <= j < |s.calls| ==>
        (s.tickets[k] == Called(j) <==> s.calls[j].1 == k + 1))
    && (forall k :: 0 <= k < |s.tickets| && s.tickets[k].Called? ==> s.tickets[k].j < |s.calls|)
    && (forall w :: 0 <= w < |s.pcs| && (s.pcs[w].Notifying? || s.pcs[w].Calling?) ==>
         0 < s.pcs[w].count <= |s.finished| && s.finished[s.pcs[w].count - 1] == s.pcs[w].item)
    && (forall j :: 0 <= j < |s.calls| ==>
        0 < s.calls[j].1 <= |s.finished| && s.finished[s.calls[j].1 - 1] == s.calls[j].0)
  }

  ghost predicate FailSlot(g: Graph, s: State) {
    && |s.loc| == |g|
    && (s.cancelled <==> s.failure.Some?)
    && (forall w :: 0 <= w < |s.pcs| && s.pcs[w].NotifyingLeave? ==> s.cancelled)
    && (s.failure.Some? ==> s.failure.value < |g| && s.loc[s.failure.value].Failed?)
    && (forall i :: 0 <= i < |g| && s.loc[i].Failed? ==> s.failure.Some?)
  }

  ghost predicate Inv(g: Graph, s: State) {
    && Shape(g, s) && Placed(g, s) && Counted(g, s) && CountsRight(s)
    && Wakeful(g, s) && Ordered(g, s) && Handed(s) && FailSlot(g, s)
  }
}
