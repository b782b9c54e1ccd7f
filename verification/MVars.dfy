/** Which metavariables a term mentions: the explicit-stack traversal and its closure over delayed assignments. */
module MVars {
  import opened Digraph

  type MVarId = nat

  // An instantiated term; `tag` tells node kinds and their other fields apart, and `kids` are in visiting order
  // (function before argument, binder type before body, type before value before body).
  datatype Expr = MVar(id: MVarId) | Leaf(tag: nat) | Node(tag: nat, kids: seq<Expr>)

  function Size(e: Expr): (n: nat)
    ensures n > 0
  {
    if e.Node? then 1 + SizeAll(e.kids) else 1
  }

  function SizeAll(es: seq<Expr>): nat {
    if es == [] then 0 else Size(es[0]) + SizeAll(es[1..])
  }

  // Every mention, in pre-order.
  function Mentions(e: Expr): seq<MVarId> {
    match e
    case MVar(id) => [id]
    case Leaf(_) => []
    case Node(_, kids) => MentionsAll(kids)
  }

  function MentionsAll(es: seq<Expr>): seq<MVarId> {
    if es == [] then [] else Mentions(es[0]) + MentionsAll(es[1..])
  }

  // The cached flag.
  predicate HasMVar(e: Expr) {
    match e
    case MVar(_) => true
    case Leaf(_) => false
    case Node(_, kids) => AnyMVar(kids)
  }

  predicate AnyMVar(es: seq<Expr>) {
    es != [] && (HasMVar(es[0]) || AnyMVar(es[1..]))
  }

  // `out` with each new mention appended at its first occurrence.
  function AddNew(out: seq<MVarId>, ms: seq<MVarId>): seq<MVarId>
    decreases |ms|
  {
    if ms == [] then out else AddNew(if ms[0] in out then out else out + [ms[0]], ms[1..])
  }

  lemma {:induction false} AddNewExact(out: seq<MVarId>, ms: seq<MVarId>)
    ensures out <= AddNew(out, ms)
    ensures forall m: nat :: m in AddNew(out, ms) <==> m in out || m in ms
    ensures NoDup(out) ==> NoDup(AddNew(out, ms))
    decreases |ms|
  {
    if ms != [] {
      assert ms == [ms[0]] + ms[1..];
      AddNewExact(if ms[0] in out then out else out + [ms[0]], ms[1..]);
    }
  }

  lemma {:induction false} AddNewAppend(out: seq<MVarId>, a: seq<MVarId>, b: seq<MVarId>)
    ensures AddNew(out, a + b) == AddNew(AddNew(out, a), b)
    decreases |a|
  {
    if a == [] {
      assert a + b == b;
    } else {
      assert (a + b)[1..] == a[1..] + b;
      AddNewAppend(if a[0] in out then out else out + [a[0]], a[1..], b);
    }
  }

  lemma {:induction false} AddNothing(out: seq<MVarId>, ms: seq<MVarId>)
    requires forall k :: 0 <= k < |ms| ==> ms[k] in out
    ensures AddNew(out, ms) == out
  {
    if ms != [] { AddNothing(out, ms[1..]); }
  }

  lemma {:induction false} FlagExact(e: Expr)
    ensures HasMVar(e) <==> Mentions(e) != []
  {
    if e.Node? { FlagExactAll(e.kids); }
  }

  lemma {:induction false} FlagExactAll(es: seq<Expr>)
    ensures AnyMVar(es) <==> MentionsAll(es) != []
  {
    if es != [] {
      FlagExact(es[0]);
      FlagExactAll(es[1..]);
    }
  }

  lemma {:induction false} AllAppend(a: seq<Expr>, b: seq<Expr>)
    ensures MentionsAll(a + b) == MentionsAll(a) + MentionsAll(b) && SizeAll(a + b) == SizeAll(a) + SizeAll(b)
  {
    if a == [] {
      assert a + b == b;
    } else {
      assert (a + b)[1..] == a[1..] + b;
      AllAppend(a[1..], b);
    }
  }

  // ----- the traversal -----

  predicate Within(t: Expr, e: Expr) {
    t == e || (e.Node? && WithinAny(t, e.kids))
  }

  predicate WithinAny(t: Expr, es: seq<Expr>) {
    es != [] && (Within(t, es[0]) || WithinAny(t, es[1..]))
  }

  lemma {:induction false} WithinShrinks(t: Expr, e: Expr)
    requires Within(t, e)
    ensures Size(t) <= Size(e)
  {
    if t != e { WithinShrinksAny(t, e.kids); }
  }

  lemma {:induction false} WithinShrinksAny(t: Expr, es: seq<Expr>)
    requires WithinAny(t, es)
    ensures Size(t) <= SizeAll(es)
  {
    if Within(t, es[0]) { WithinShrinks(t, es[0]); } else { WithinShrinksAny(t, es[1..]); }
  }

  lemma {:induction false} KidSize(es: seq<Expr>, k: nat)
    requires k < |es|
    ensures Size(es[k]) <= SizeAll(es)
  {
    if k > 0 { KidSize(es[1..], k - 1); }
  }

  lemma {:induction false} WithinKid(t: Expr, es: seq<Expr>, k: nat)
    requires k < |es| && Within(t, es[k])
    ensures WithinAny(t, es)
  {
    if k > 0 { WithinKid(t, es[1..], k - 1); }
  }

  predicate Found(ms: seq<MVarId>, out: seq<MVarId>, more: seq<MVarId>) {
    forall m :: m in ms ==> m in out || m in more
  }

  // Wherever a visited term still occurs on the stack, all it mentions is already out or comes out before.
  ghost predicate Settled(seen: set<Expr>, stack: seq<Expr>, out: seq<MVarId>) {
    forall t, k {:trigger Within(t, stack[k])} :: t in seen && 0 <= k < |stack| && Within(t, stack[k]) ==>
      Found(Mentions(t), out, MentionsAll(stack[..k]))
  }

  lemma {:induction false} SettledSkip(seen: set<Expr>, stack: seq<Expr>, out: seq<MVarId>)
    requires stack != [] && Settled(seen, stack, out) && Found(Mentions(stack[0]), out, [])
    ensures Settled(seen, stack[1..], out)
  {
    var rest := stack[1..];
    forall t, k {:trigger Within(t, rest[k])} | t in seen && 0 <= k < |rest| && Within(t, rest[k])
      ensures Found(Mentions(t), out, MentionsAll(rest[..k]))
    {
      assert Within(t, stack[k + 1]);
      assert stack[..k + 1][1..] == rest[..k];
    }
  }

  lemma {:induction false} SettledOpen(seen: set<Expr>, stack: seq<Expr>, out: seq<MVarId>)
    requires stack != [] && stack[0].Node? && Settled(seen, stack, out)
    ensures Settled(seen + {stack[0]}, stack[0].kids + stack[1..], out)
  {
    var kids, rest := stack[0].kids, stack[1..];
    var stack' := kids + rest;
    forall t, k {:trigger Within(t, stack'[k])} | t in seen + {stack[0]} && 0 <= k < |stack'| && Within(t, stack'[k])
      ensures Found(Mentions(t), out, MentionsAll(stack'[..k]))
    {
      if k < |kids| {
        WithinKid(t, kids, k);
        WithinShrinks(t, kids[k]);
        KidSize(kids, k);
        assert Within(t, stack[0]);
        assert MentionsAll(stack[..0]) == [];
      } else {
        var j := k - |kids|;
        assert stack'[..k] == kids + rest[..j];
        AllAppend(kids, rest[..j]);
        assert stack[..j + 1][1..] == rest[..j];
        assert MentionsAll(stack[..j + 1]) == Mentions(stack[0]) + MentionsAll(rest[..j]);
        assert Within(t, stack[j + 1]);
      }
    }
  }

  lemma {:induction false} SettledEmit(seen: set<Expr>, stack: seq<Expr>, out: seq<MVarId>, out': seq<MVarId>)
    requires stack != [] && !stack[0].Node? && Settled(seen, stack, out)
    requires (forall m :: m in out ==> m in out') && Found(Mentions(stack[0]), out', [])
    ensures Settled(seen + {stack[0]}, stack[1..], out')
  {
    var rest := stack[1..];
    forall t, k {:trigger Within(t, rest[k])} | t in seen + {stack[0]} && 0 <= k < |rest| && Within(t, rest[k])
      ensures Found(Mentions(t), out', MentionsAll(rest[..k]))
    {
      assert Within(t, stack[k + 1]);
      assert stack[..k + 1][1..] == rest[..k];
    }
  }

  /** The loop of `collect_mvars`: skipping marked and closed terms loses nothing and keeps first-occurrence order. */
  method Traverse(e: Expr, out: seq<MVarId>) returns (out': seq<MVarId>)
    ensures out' == AddNew(out, Mentions(e))
  {
    out' := out;
    var seen: set<Expr> := {};
    var stack := [e];
    assert [e][1..] == [];
    assert MentionsAll([e]) == Mentions(e);
    while stack != []
      invariant AddNew(out', MentionsAll(stack)) == AddNew(out, Mentions(e))
      invariant Settled(seen, stack, out')
      decreases SizeAll(stack)
    {
      var t := stack[0];
      ghost var was := stack;
      assert MentionsAll(stack) == Mentions(t) + MentionsAll(stack[1..])
             && SizeAll(stack) == Size(t) + SizeAll(stack[1..]);
      AddNewAppend(out', Mentions(t), MentionsAll(stack[1..]));
      stack := stack[1..];
      if !HasMVar(t) || t in seen {
        if t in seen {
          assert Within(t, was[0]);
          assert MentionsAll(was[..0]) == [];
        }
        FlagExact(t);
        SettledSkip(seen, was, out');
        AddNothing(out', Mentions(t));
        continue;
      }
      match t {
        case MVar(id) =>
          ghost var before := out';
          if id !in out' {
            out' := out' + [id];
          }
          SettledEmit(seen, was, before, out');
          assert AddNew(before, [id]) == out' by { assert [id][1..] == []; }
        case Leaf(_) =>
        case Node(_, kids) =>
          SettledOpen(seen, was, out');
          AllAppend(kids, stack);
          stack := kids + stack;
      }
      seen := seen + {t};
    }
  }

  // ----- delayed assignments -----

  // For a delayed-assigned metavariable, the instantiated form of its pending one.
  type Pending = map<MVarId, Expr>

  ghost predicate FollowsPending(pending: Pending, c: set<MVarId>, m: MVarId) {
    m in pending ==> forall n :: n in Mentions(pending[m]) ==> n in c
  }

  // `c` holds what `e` mentions and what the pendings of its members mention.
  ghost predicate ClosedFor(pending: Pending, e: Expr, c: set<MVarId>) {
    && (forall m :: m in Mentions(e) ==> m in c)
    && (forall m {:trigger FollowsPending(pending, c, m)} :: m in c ==> FollowsPending(pending, c, m))
  }

  ghost predicate Universe(pending: Pending, u: set<MVarId>) {
    forall m, n :: m in pending && n in Mentions(pending[m]) ==> n in u
  }

  function SetOf(ms: seq<MVarId>): set<MVarId> {
    set m | m in ms
  }

  ghost predicate NewFollow(pending: Pending, out: seq<MVarId>, out': seq<MVarId>) {
    forall m {:trigger FollowsPending(pending, SetOf(out'), m)} :: m in out' && m !in out ==>
        FollowsPending(pending, SetOf(out'), m)
  }

  // `out'` adds nothing that a set closed for `e` could miss.
  ghost predicate Least(pending: Pending, e: Expr, out: seq<MVarId>, out': seq<MVarId>) {
    forall c: set<MVarId> {:trigger ClosedFor(pending, e, c)} :: ClosedFor(pending, e, c) ==>
      forall m :: m in out' ==> m in out || m in c
  }

  lemma {:induction false} LeastStep(pending: Pending, e: Expr, out: seq<MVarId>, mid: seq<MVarId>, out': seq<MVarId>,
                                     m: MVarId)
    requires Least(pending, e, out, mid) && m in mid && m !in out && m in pending
    requires Least(pending, pending[m], mid, out')
    ensures Least(pending, e, out, out')
  {
    forall c: set<MVarId> {:trigger ClosedFor(pending, e, c)} | ClosedFor(pending, e, c)
      ensures forall n :: n in out' ==> n in out || n in c
    {
      assert FollowsPending(pending, c, m);
      assert ClosedFor(pending, pending[m], c);
    }
  }

  ghost predicate ListFollow(pending: Pending, ms: seq<MVarId>, out: seq<MVarId>) {
    forall m {:trigger FollowsPending(pending, SetOf(out), m)} :: m in ms ==> FollowsPending(pending, SetOf(out), m)
  }

  lemma {:induction false} KeepFollowing(pending: Pending, start: seq<MVarId>, ms: seq<MVarId>, mid: seq<MVarId>,
                                         out: seq<MVarId>)
    requires start <= mid <= out && NewFollow(pending, start, mid) && NewFollow(pending, mid, out)
    requires ListFollow(pending, ms, mid)
    ensures NewFollow(pending, start, out) && ListFollow(pending, ms, out)
  {
    forall m {:trigger FollowsPending(pending, SetOf(out), m)} | m in mid && FollowsPending(pending, SetOf(mid), m)
      ensures FollowsPending(pending, SetOf(out), m)
    {
    }
    assert forall m :: m in ms ==> FollowsPending(pending, SetOf(mid), m);
  }

  // What one visited metavariable adds to the invariant of the loop below.
  lemma {:induction false} Visited(pending: Pending, e: Expr, out: seq<MVarId>, start: seq<MVarId>, ms: seq<MVarId>,
                                   mid: seq<MVarId>, m: MVarId, out': seq<MVarId>)
    requires start <= mid && NewFollow(pending, start, mid) && ListFollow(pending, ms, mid)
    requires Least(pending, e, out, mid) && m in mid && m !in out && m in pending
    requires mid <= out' && NewFollow(pending, mid, out') && Least(pending, pending[m], mid, out')
    requires forall n :: n in Mentions(pending[m]) ==> n in out'
    ensures start <= out' && NewFollow(pending, start, out') && ListFollow(pending, ms + [m], out')
    ensures Least(pending, e, out, out')
  {
    LeastStep(pending, e, out, mid, out', m);
    KeepFollowing(pending, start, ms, mid, out');
    assert FollowsPending(pending, SetOf(out'), m);
  }

  lemma {:induction false} Unconstrained(pending: Pending, ms: seq<MVarId>, m: MVarId, out: seq<MVarId>)
    requires ListFollow(pending, ms, out) && m !in pending
    ensures ListFollow(pending, ms + [m], out)
  {
  }

  // What holds once the mentions of `e` are out and no pending has been visited.
  lemma {:induction false} Opening(pending: Pending, e: Expr, out: seq<MVarId>, u: set<MVarId>)
    requires NoDup(out) && forall m :: m in Mentions(e) ==> m in u
    ensures var start := AddNew(out, Mentions(e));
      && out <= start && NoDup(start) && (forall m :: m in Mentions(e) ==> m in start)
      && (forall m :: m in start[|out|..] ==> m in start && m !in out && m in u)
      && Least(pending, e, out, start)
  {
    AddNewExact(out, Mentions(e));
  }

  /** `collect_mvars`: keeps what is out, adds what `e` mentions, closes over pendings, and adds nothing else. */
  method CollectMVars(pending: Pending, e: Expr, out: seq<MVarId>, ghost u: set<MVarId>) returns (out': seq<MVarId>)
    requires NoDup(out) && Universe(pending, u) && forall m :: m in Mentions(e) ==> m in u
    ensures out <= out' && NoDup(out') && forall m :: m in Mentions(e) ==> m in out'
    ensures NewFollow(pending, out, out')
    ensures Least(pending, e, out, out')
    decreases |u - SetOf(out)|
  {
    out' := Traverse(e, out);
    Opening(pending, e, out, u);
    var added := out'[|out|..];
    ghost var start := out';
    for k := 0 to |added|
      invariant start <= out' && NoDup(out')
      invariant NewFollow(pending, start, out')
      invariant ListFollow(pending, added[..k], out')
      invariant Least(pending, e, out, out')
    {
      var m := added[k];
      assert added[..k + 1] == added[..k] + [m];
      if m in pending {
        ghost var before := out';
        Smaller(out, out', m, u);
        out' := CollectMVars(pending, pending[m], out', u);
        Visited(pending, e, out, start, added[..k], before, m, out');
      } else {
        Unconstrained(pending, added[..k], m, out');
      }
    }
    FollowAdded(pending, out, start, out');
  }

  lemma {:induction false} FollowAdded(pending: Pending, out: seq<MVarId>, start: seq<MVarId>, out': seq<MVarId>)
    requires out <= start <= out' && NewFollow(pending, start, out') && ListFollow(pending, start[|out|..], out')
    ensures NewFollow(pending, out, out')
  {
    forall m {:trigger FollowsPending(pending, SetOf(out'), m)} | m in out' && m !in out
      ensures FollowsPending(pending, SetOf(out'), m)
    {
      if m in start { assert m in start[|out|..]; }
    }
  }

  lemma {:induction false} Smaller(out: seq<MVarId>, out': seq<MVarId>, m: MVarId, u: set<MVarId>)
    requires out <= out' && m in out' && m !in out && m in u
    ensures |u - SetOf(out')| < |u - SetOf(out)|
  {
    var a, b := u - SetOf(out), u - SetOf(out');
    assert b <= a - {m};
    assert |b| <= |a - {m}| by { SubsetSize(b, a - {m}); }
  }

  /** `get_mvars`: exactly what `e` reaches through pendings, each once. */
  method GetMVars(pending: Pending, e: Expr, ghost u: set<MVarId>) returns (out: seq<MVarId>)
    requires Universe(pending, u) && forall m :: m in Mentions(e) ==> m in u
    ensures NoDup(out) && ClosedFor(pending, e, SetOf(out))
    ensures forall c: set<MVarId> {:trigger ClosedFor(pending, e, c)} :: ClosedFor(pending, e, c) ==> SetOf(out) <= c
  {
    out := CollectMVars(pending, e, [], u);
    forall m {:trigger FollowsPending(pending, SetOf(out), m)} | m in SetOf(out)
      ensures FollowsPending(pending, SetOf(out), m)
    {
      assert m in out;
    }
  }

  // ----- what is mentioned, and in what order -----

  // The mentions are the metavariables that occur in the term.
  lemma {:induction false} MentionsExact(e: Expr, m: MVarId)
    ensures m in Mentions(e) <==> Within(MVar(m), e)
  {
    if e.Node? { MentionsExactAll(e.kids, m); }
  }

  lemma {:induction false} MentionsExactAll(es: seq<Expr>, m: MVarId)
    ensures m in MentionsAll(es) <==> WithinAny(MVar(m), es)
  {
    if es != [] {
      MentionsExact(es[0], m);
      MentionsExactAll(es[1..], m);
    }
  }

  // Each new mention is appended where it first occurs.
  lemma {:induction false} AddNewNext(out: seq<MVarId>, ms: seq<MVarId>, m: MVarId)
    ensures AddNew(out, ms + [m]) == AddNew(out, ms) + if m in out || m in ms then [] else [m]
  {
    AddNewAppend(out, ms, [m]);
    AddNewExact(out, ms);
    assert [m][1..] == [];
  }
}
