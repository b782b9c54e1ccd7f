/** Constants over the two-region store: the single field walk, read-only resolution against decoded twins, and
    admission into an environment whose every id is persistent. */
module Environment {
  import opened Options
  import opened TermStore

  // Constants over any kind of leaf: ids, or the terms they stand for. `data` stands for the fields that hold no id.
  datatype Val<I> = Val(name: I, levelParams: seq<I>, ty: I)

  datatype Rule<I> = Rule(ctor: I, nfields: nat, rhs: I)

  datatype Info<I> =
    | Axiom(val: Val<I>, data: nat)
    | Defn(val: Val<I>, value: I, data: nat, all: seq<I>)
    | Thm(val: Val<I>, value: I, all: seq<I>)
    | Opaque(val: Val<I>, value: I, data: nat, all: seq<I>)
    | Quot(val: Val<I>, data: nat)
    | Induct(val: Val<I>, data: nat, all: seq<I>, ctors: seq<I>)
    | Ctor(val: Val<I>, induct: I, data: nat)
    | Rec(val: Val<I>, all: seq<I>, data: nat, rules: seq<Rule<I>>)

  // ----- the field walk -----

  function ValFields<I>(v: Val<I>): seq<I> {
    [v.name] + v.levelParams + [v.ty]
  }

  function RuleFields<I>(rules: seq<Rule<I>>): (r: seq<I>)
    ensures |r| == 2 * |rules|
  {
    if rules == [] then [] else [rules[0].ctor, rules[0].rhs] + RuleFields(rules[1..])
  }

  // Every id of a constant, in the order the walk visits them.
  function Fields<I>(ci: Info<I>): seq<I> {
    match ci
    case Axiom(v, _) => ValFields(v)
    case Defn(v, value, _, all) => ValFields(v) + [value] + all
    case Thm(v, value, all) => ValFields(v) + [value] + all
    case Opaque(v, value, _, all) => ValFields(v) + [value] + all
    case Quot(v, _) => ValFields(v)
    case Induct(v, _, all, ctors) => ValFields(v) + all + ctors
    case Ctor(v, induct, _) => ValFields(v) + [induct]
    case Rec(v, all, _, rules) => ValFields(v) + all + RuleFields(rules)
  }

  function ValWith<I, J>(v: Val<I>, ids: seq<J>): (r: Val<J>)
    requires |ids| == |ValFields(v)|
    ensures ValFields(r) == ids && |r.levelParams| == |v.levelParams|
  {
    Val(ids[0], ids[1..|ids| - 1], ids[|ids| - 1])
  }

  function RulesWith<I, J>(rules: seq<Rule<I>>, ids: seq<J>): (r: seq<Rule<J>>)
    requires |ids| == 2 * |rules|
    ensures |r| == |rules| && RuleFields(r) == ids
  {
    if rules == [] then [] else
      var rest := RulesWith(rules[1..], ids[2..]);
      var r := [Rule(ids[0], rules[0].nfields, ids[1])] + rest;
      assert r[1..] == rest;
      assert ids == [ids[0], ids[1]] + ids[2..];
      r
  }

  // The same constant with other ids in the same places.
  function With<I, J>(ci: Info<I>, ids: seq<J>): (r: Info<J>)
    requires |ids| == |Fields(ci)|
    ensures Fields(r) == ids
  {
    var n := |ValFields(ci.val)|;
    WithParts(ci, ValWith(ci.val, ids[..n]), ids[..n], ids[n..], ids)
  }

  function WithParts<I, J>(ci: Info<I>, val: Val<J>, head: seq<J>, rest: seq<J>, ghost ids: seq<J>): (r: Info<J>)
    requires head == ValFields(val) && ids == head + rest
    requires |ids| == |Fields(ci)| && |head| == |ValFields(ci.val)|
    ensures Fields(r) == ids && r.val == val
  {
    match ci
    case Axiom(_, d) => assert rest == []; Axiom(val, d)
    case Defn(_, _, d, _) => FrontAndBack(head, rest, ids); Defn(val, rest[0], d, rest[1..])
    case Thm(_, _, _) => FrontAndBack(head, rest, ids); Thm(val, rest[0], rest[1..])
    case Opaque(_, _, d, _) => FrontAndBack(head, rest, ids); Opaque(val, rest[0], d, rest[1..])
    case Quot(_, d) => assert rest == []; Quot(val, d)
    case Induct(_, d, all, _) => CutAt(head, rest, ids, |all|); Induct(val, d, rest[..|all|], rest[|all|..])
    case Ctor(_, _, d) => assert rest == [rest[0]]; Ctor(val, rest[0], d)
    case Rec(_, all, d, rules) =>
      CutAt(head, rest, ids, |all|);
      Rec(val, rest[..|all|], d, RulesWith(rules, rest[|all|..]))
  }

  lemma {:induction false} FrontAndBack<J>(head: seq<J>, rest: seq<J>, ids: seq<J>)
    requires rest != [] && ids == head + rest
    ensures head + [rest[0]] + rest[1..] == ids
  {
  }

  lemma {:induction false} CutAt<J>(head: seq<J>, rest: seq<J>, ids: seq<J>, k: nat)
    requires k <= |rest| && ids == head + rest
    ensures head + rest[..k] + rest[k..] == ids
  {
  }

  // Everything but the ids: the kind, the copied data, and how many ids sit where.
  function Shape<I>(ci: Info<I>): Info<()> {
    var v := Val((), Blank(|ci.val.levelParams|), ());
    match ci
    case Axiom(_, d) => Axiom(v, d)
    case Defn(_, _, d, all) => Defn(v, (), d, Blank(|all|))
    case Thm(_, _, all) => Thm(v, (), Blank(|all|))
    case Opaque(_, _, d, all) => Opaque(v, (), d, Blank(|all|))
    case Quot(_, d) => Quot(v, d)
    case Induct(_, d, all, ctors) => Induct(v, d, Blank(|all|), Blank(|ctors|))
    case Ctor(_, _, d) => Ctor(v, (), d)
    case Rec(_, all, d, rules) => Rec(v, Blank(|all|), d, BlankRules(rules))
  }

  function Blank(n: nat): (r: seq<()>)
    ensures |r| == n
  {
    seq(n, _ => ())
  }

  function BlankRules<I>(rules: seq<Rule<I>>): (r: seq<Rule<()>>)
    ensures |r| == |rules|
    ensures forall k :: 0 <= k < |rules| ==> r[k].nfields == rules[k].nfields
  {
    seq(|rules|, k requires 0 <= k < |rules| => Rule((), rules[k].nfields, ()))
  }

  lemma {:induction false} RuleFieldsAt<I>(rules: seq<Rule<I>>, k: nat)
    requires k < |rules|
    ensures RuleFields(rules)[2 * k] == rules[k].ctor && RuleFields(rules)[2 * k + 1] == rules[k].rhs
  {
    if k > 0 { RuleFieldsAt(rules[1..], k - 1); }
  }

  lemma {:induction false} RulesDetermined<I>(a: seq<Rule<I>>, b: seq<Rule<I>>)
    requires RuleFields(a) == RuleFields(b) && BlankRules(a) == BlankRules(b)
    ensures a == b
  {
    assert |BlankRules(a)| == |a| && |BlankRules(b)| == |b|;
    forall k | 0 <= k < |a| ensures a[k] == b[k] {
      RuleFieldsAt(a, k);
      RuleFieldsAt(b, k);
      assert BlankRules(a)[k] == BlankRules(b)[k];
    }
  }

  lemma {:induction false} ValDetermined<I>(a: Val<I>, b: Val<I>)
    requires ValFields(a) == ValFields(b)
    ensures a == b
  {
    var x, y := ValFields(a), ValFields(b);
    assert x[1..|x| - 1] == a.levelParams && y[1..|y| - 1] == b.levelParams;
    assert x[|x| - 1] == a.ty && y[|y| - 1] == b.ty;
    assert x[0] == a.name && y[0] == b.name;
  }

  // No field is skipped: a constant is its ids and its shape.
  lemma {:induction false} FieldsDetermine<I>(a: Info<I>, b: Info<I>)
    requires Fields(a) == Fields(b) && Shape(a) == Shape(b)
    ensures a == b
  {
    SameVal(a, b);
    var n := |ValFields(a.val)|;
    var x, y := Fields(a)[n..], Fields(b)[n..];
    match a
    case Axiom(_, _) =>
    case Quot(_, _) =>
    case Ctor(_, i, _) => assert x == [i] && y == [b.induct]; assert x[0] == y[0];
    case Defn(_, v, _, all) => TailSplit(v, all, b.value, b.all, x, y);
    case Thm(_, v, all) => TailSplit(v, all, b.value, b.all, x, y);
    case Opaque(_, v, _, all) => TailSplit(v, all, b.value, b.all, x, y);
    case Induct(_, _, _, _) => SameInduct(a, b);
    case Rec(_, _, _, _) => SameRec(a, b);
  }

  lemma {:induction false} SameVal<I>(a: Info<I>, b: Info<I>)
    requires Fields(a) == Fields(b) && Shape(a).val == Shape(b).val
    ensures a.val == b.val
  {
    assert |Shape(a).val.levelParams| == |a.val.levelParams| && |Shape(b).val.levelParams| == |b.val.levelParams|;
    var n := |ValFields(a.val)|;
    assert n == |ValFields(b.val)|;
    assert Fields(a)[..n] == ValFields(a.val) && Fields(b)[..n] == ValFields(b.val);
    ValDetermined(a.val, b.val);
  }

  lemma {:induction false} Halves<I>(a: seq<I>, b: seq<I>, c: seq<I>, d: seq<I>)
    requires a + b == c + d && |a| == |c|
    ensures a == c && b == d
  {
    assert (a + b)[..|a|] == a && (c + d)[..|c|] == c && (a + b)[|a|..] == b && (c + d)[|c|..] == d;
  }

  lemma {:induction false} SameInduct<I>(a: Info<I>, b: Info<I>)
    requires a.Induct? && b.Induct? && Fields(a) == Fields(b) && Shape(a) == Shape(b) && a.val == b.val
    ensures a == b
  {
    assert |Shape(a).all| == |a.all| && |Shape(b).all| == |b.all|;
    var v := ValFields(a.val);
    assert v + a.all + a.ctors == v + (a.all + a.ctors) && v + b.all + b.ctors == v + (b.all + b.ctors);
    Halves(v, a.all + a.ctors, v, b.all + b.ctors);
    Halves(a.all, a.ctors, b.all, b.ctors);
  }

  lemma {:induction false} SameRec<I>(a: Info<I>, b: Info<I>)
    requires a.Rec? && b.Rec? && Fields(a) == Fields(b) && Shape(a) == Shape(b) && a.val == b.val
    ensures a == b
  {
    assert |Shape(a).all| == |a.all| && |Shape(b).all| == |b.all|;
    var v, x, y := ValFields(a.val), RuleFields(a.rules), RuleFields(b.rules);
    assert v + a.all + x == v + (a.all + x) && v + b.all + y == v + (b.all + y);
    Halves(v, a.all + x, v, b.all + y);
    Halves(a.all, x, b.all, y);
    RulesDetermined(a.rules, b.rules);
  }

  lemma {:induction false} TailSplit<I>(v: I, all: seq<I>, w: I, all': seq<I>, x: seq<I>, y: seq<I>)
    requires x == [v] + all && y == [w] + all' && x == y
    ensures v == w && all == all'
  {
    assert x[0] == v && y[0] == w && x[1..] == all && y[1..] == all';
  }

  lemma {:induction false} WithShape<I, J>(ci: Info<I>, ids: seq<J>)
    requires |ids| == |Fields(ci)|
    ensures Shape(With(ci, ids)) == Shape(ci)
  {
    var r := With(ci, ids);
    match ci
    case Rec(_, _, _, rules) => RulesWithShape(rules, RuleFields(r.rules));
    case _ =>
  }

  lemma {:induction false} RulesWithShape<I, J>(rules: seq<Rule<I>>, ids: seq<J>)
    requires |ids| == 2 * |rules|
    ensures BlankRules(RulesWith(rules, ids)) == BlankRules(rules)
  {
    if rules != [] {
      RulesWithShape(rules[1..], ids[2..]);
      var r := RulesWith(rules, ids);
      assert r[1..] == RulesWith(rules[1..], ids[2..]);
      forall k | 0 <= k < |rules| ensures r[k].nfields == rules[k].nfields {
        if k > 0 {
          assert BlankRules(r[1..])[k - 1] == BlankRules(rules[1..])[k - 1];
        }
      }
    }
  }

  // ----- meanings -----

  ghost predicate InStore(r: Rows, ci: Info<Id>) {
    forall k :: 0 <= k < |Fields(ci)| ==> Has(r, Fields(ci)[k])
  }

  predicate Persistent(ci: Info<Id>) {
    forall k :: 0 <= k < |Fields(ci)| ==> Fields(ci)[k].Base?
  }

  // A constant up to the choice of ids: its shape, and the terms its ids stand for. By `FieldsDetermine` that is all.
  datatype Sense = Sense(shape: Info<()>, terms: seq<Tree>)

  ghost function Meaning(r: Rows, ci: Info<Id>): Sense
    requires Closed(r) && InStore(r, ci)
  {
    Sense(Shape(ci), DenoteAll(r, Fields(ci)))
  }

  // A translation of every id keeps the meaning.
  lemma {:induction false} SameMeaning(r: Rows, ci: Info<Id>, r': Rows, ids: seq<Id>)
    requires Closed(r) && InStore(r, ci) && Closed(r') && |ids| == |Fields(ci)|
    requires KidsDenote(r', ids, DenoteAll(r, Fields(ci)))
    ensures InStore(r', With(ci, ids)) && Meaning(r', With(ci, ids)) == Meaning(r, ci)
  {
    var out := With(ci, ids);
    assert DenoteAll(r', Fields(out)) == DenoteAll(r, Fields(ci));
    WithShape(ci, ids);
  }

  lemma {:induction false} MeaningGrows(r: Rows, r': Rows, ci: Info<Id>)
    requires Closed(r) && Closed(r') && Grows(r, r') && InStore(r, ci)
    ensures InStore(r', ci) && Meaning(r', ci) == Meaning(r, ci)
  {
    KidsDenoteGrows(r, r', Fields(ci), DenoteAll(r, Fields(ci)));
    assert DenoteAll(r', Fields(ci)) == DenoteAll(r, Fields(ci));
  }

  // In one hash-consed store, constants with persistent ids are equal exactly when they mean the same: what
  // `constant_info_eq` decides.
  lemma {:induction false} EqualIdsEqualMeaning(base: seq<Row>, a: Info<Id>, b: Info<Id>)
    requires Frozen(base) && InStore(Rows(base, []), a) && InStore(Rows(base, []), b)
    ensures a == b <==> Meaning(Rows(base, []), a) == Meaning(Rows(base, []), b)
  {
    var r := Rows(base, []);
    if Meaning(r, a) == Meaning(r, b) {
      var x, y := DenoteAll(r, Fields(a)), DenoteAll(r, Fields(b));
      assert x == y;
      assert |x| == |Fields(a)| && |y| == |Fields(b)|;
      forall k | 0 <= k < |x| ensures Fields(a)[k] == Fields(b)[k] {
        DenoteInjective(r, Fields(a)[k], Fields(b)[k]);
      }
      FieldsDetermine(a, b);
    }
  }

  // ----- read-only resolution -----

  ghost predicate AllInterned(r: Rows, ids: seq<Id>)
    requires Closed(r) && Frozen(r.base)
  {
    forall k :: 0 <= k < |ids| ==> Has(r, ids[k]) && Interned(r.base, Denote(r, ids[k]))
  }

  /** `resolve_constant_info`: a hit exactly when every term of the constant is interned already; the result means the
      same, all in persistent ids. */
  method Resolve(r: Rows, ci: Info<Id>) returns (out: Option<Info<Id>>)
    requires Closed(r) && Frozen(r.base) && InStore(r, ci)
    ensures out.Some? <==> AllInterned(r, Fields(ci))
    ensures out.Some? ==> Persistent(out.value) && InStore(r, out.value) && Meaning(r, out.value) == Meaning(r, ci)
  {
    var ids := Fields(ci);
    var found: seq<Id> := [];
    ghost var ts := DenoteAll(r, ids);
    for k := 0 to |ids|
      invariant AllInterned(r, ids[..k])
      invariant (forall j :: 0 <= j < |found| ==> found[j].Base?) && KidsDenote(r, found, ts[..k])
    {
      var hit := Lookup(r, ids[k]);
      if hit.None? {
        assert !Interned(r.base, Denote(r, ids[k]));
        return None;
      }
      found := found + [hit.value];
    }
    assert ids[..|ids|] == ids && ts[..|ids|] == ts;
    SameMeaning(r, ci, r, found);
    out := Some(With(ci, found));
  }

  // The decoded table: persistent constants under their own names.
  ghost predicate TableOk(base: seq<Row>, table: map<Id, Info<Id>>) {
    forall n :: n in table ==> Persistent(table[n]) && InStore(Rows(base, []), table[n]) && table[n].val.name == n
  }

  // Some decoded constant means what `ci` means.
  ghost predicate HasTwin(r: Rows, table: map<Id, Info<Id>>, ci: Info<Id>)
    requires Closed(r) && Frozen(r.base) && InStore(r, ci)
  {
    exists n :: n in table && InStore(Rows(r.base, []), table[n])
                && Meaning(Rows(r.base, []), table[n]) == Meaning(r, ci)
  }

  lemma {:induction false} DownToBase(r: Rows, ci: Info<Id>)
    requires Closed(r) && Frozen(r.base) && InStore(r, ci) && Persistent(ci)
    ensures InStore(Rows(r.base, []), ci) && Meaning(Rows(r.base, []), ci) == Meaning(r, ci)
  {
    var b := Rows(r.base, []);
    forall k | 0 <= k < |Fields(ci)| ensures Has(b, Fields(ci)[k]) {}
    MeaningGrows(b, r, ci);
  }

  // A twin makes resolution hit, and the hit is the twin.
  lemma {:induction false} TwinResolves(r: Rows, table: map<Id, Info<Id>>, ci: Info<Id>, n: Id)
    requires Closed(r) && Frozen(r.base) && InStore(r, ci) && TableOk(r.base, table) && n in table
    requires Meaning(Rows(r.base, []), table[n]) == Meaning(r, ci)
    ensures AllInterned(r, Fields(ci))
  {
    var b := Rows(r.base, []);
    var x, y := DenoteAll(b, Fields(table[n])), DenoteAll(r, Fields(ci));
    assert x == y;
    forall k | 0 <= k < |Fields(ci)| ensures Interned(r.base, Denote(r, Fields(ci)[k])) {
      assert |x| == |Fields(table[n])| && |y| == |Fields(ci)|;
      assert Denote(b, Fields(table[n])[k]) == Denote(r, Fields(ci)[k]);
      assert Has(b, Fields(table[n])[k]) && Fields(table[n])[k].Base?;
      assert Denote(b, Base(Fields(table[n])[k].i)) == Denote(r, Fields(ci)[k]);
    }
  }

  lemma {:induction false} TwinsResolve(r: Rows, table: map<Id, Info<Id>>, ci: Info<Id>)
    requires Closed(r) && Frozen(r.base) && InStore(r, ci) && TableOk(r.base, table)
    ensures HasTwin(r, table, ci) ==> AllInterned(r, Fields(ci))
  {
    if HasTwin(r, table, ci) {
      var n :| n in table && InStore(Rows(r.base, []), table[n])
        && Meaning(Rows(r.base, []), table[n]) == Meaning(r, ci);
      TwinResolves(r, table, ci, n);
    }
  }

  ghost predicate AllInStore(r: Rows, infos: seq<Info<Id>>) {
    infos == [] || (AllInStore(r, infos[..|infos| - 1]) && InStore(r, infos[|infos| - 1]))
  }

  ghost predicate AllHaveTwins(r: Rows, table: map<Id, Info<Id>>, infos: seq<Info<Id>>)
    requires Closed(r) && Frozen(r.base) && AllInStore(r, infos)
  {
    infos == [] || (AllHaveTwins(r, table, infos[..|infos| - 1]) && HasTwin(r, table, infos[|infos| - 1]))
  }

  ghost predicate AllAccepted(r: Rows, table: map<Id, Info<Id>>, infos: seq<Info<Id>>, names: seq<Id>)
    requires Closed(r) && Frozen(r.base) && AllInStore(r, infos)
  {
    && |names| == |infos|
    && (infos == [] || (AllAccepted(r, table, infos[..|infos| - 1], names[..|infos| - 1])
                        && Accepted(r, table, infos[|infos| - 1], names[|infos| - 1])))
  }

  lemma {:induction false} AcceptedAt(r: Rows, table: map<Id, Info<Id>>, infos: seq<Info<Id>>, names: seq<Id>, i: nat)
    requires Closed(r) && Frozen(r.base) && AllInStore(r, infos) && AllAccepted(r, table, infos, names) && i < |infos|
    ensures InStore(r, infos[i]) && Accepted(r, table, infos[i], names[i])
  {
    if i < |infos| - 1 { AcceptedAt(r, table, infos[..|infos| - 1], names[..|infos| - 1], i); }
  }

  lemma {:induction false} InStoreUpto(r: Rows, infos: seq<Info<Id>>, k: nat)
    requires AllInStore(r, infos) && k <= |infos|
    ensures AllInStore(r, infos[..k]) && (k < |infos| ==> InStore(r, infos[k]))
  {
    if k < |infos| {
      InStoreUpto(r, infos[..|infos| - 1], k);
      assert infos[..|infos| - 1][..k] == infos[..k];
    } else {
      assert infos[..k] == infos;
    }
  }

  lemma {:induction false} OneWithout(r: Rows, table: map<Id, Info<Id>>, infos: seq<Info<Id>>, k: nat)
    requires Closed(r) && Frozen(r.base) && AllInStore(r, infos) && k < |infos|
    requires InStore(r, infos[k]) && !HasTwin(r, table, infos[k])
    ensures !AllHaveTwins(r, table, infos)
  {
    if k < |infos| - 1 { OneWithout(r, table, infos[..|infos| - 1], k); }
  }

  lemma {:induction false} AcceptedHaveTwins(r: Rows, table: map<Id, Info<Id>>, infos: seq<Info<Id>>, names: seq<Id>)
    requires Closed(r) && Frozen(r.base) && AllInStore(r, infos) && AllAccepted(r, table, infos, names)
    ensures AllHaveTwins(r, table, infos)
  {
    if infos != [] {
      AcceptedHaveTwins(r, table, infos[..|infos| - 1], names[..|infos| - 1]);
      assert Accepted(r, table, infos[|infos| - 1], names[|infos| - 1]);
    }
  }

  lemma {:induction false} AcceptOneMore(r: Rows, table: map<Id, Info<Id>>, infos: seq<Info<Id>>, k: nat,
                                         names: seq<Id>, n: Id)
    requires Closed(r) && Frozen(r.base) && AllInStore(r, infos) && k < |infos|
    requires AllInStore(r, infos[..k]) && AllAccepted(r, table, infos[..k], names)
    requires InStore(r, infos[k]) && Accepted(r, table, infos[k], n)
    ensures AllInStore(r, infos[..k + 1]) && AllAccepted(r, table, infos[..k + 1], names + [n])
  {
    var upto := infos[..k + 1];
    assert upto[..|upto| - 1] == infos[..k] && (names + [n])[..k] == names;
  }

  /** `resolve_and_compare`: accepts exactly when every regenerated constant means what some decoded one means. */
  method ResolveAndCompare(r: Rows, table: map<Id, Info<Id>>, survivors: seq<Info<Id>>) returns (names: Option<seq<Id>>)
    requires Closed(r) && Frozen(r.base) && TableOk(r.base, table) && AllInStore(r, survivors)
    ensures names.Some? <==> AllHaveTwins(r, table, survivors)
    ensures names.Some? ==> AllAccepted(r, table, survivors, names.value)
  {
    var out: seq<Id> := [];
    for i := 0 to |survivors|
      invariant AllInStore(r, survivors[..i]) && AllAccepted(r, table, survivors[..i], out)
    {
      InStoreUpto(r, survivors, i);
      var n := CompareOne(r, table, survivors[i]);
      if n.None? {
        OneWithout(r, table, survivors, i);
        return None;
      }
      AcceptOneMore(r, table, survivors, i, out, n.value);
      out := out + [n.value];
    }
    assert survivors[..|survivors|] == survivors;
    AcceptedHaveTwins(r, table, survivors, out);
    return Some(out);
  }

  // `n` names a decoded constant that means what `ci` means.
  ghost predicate Accepted(r: Rows, table: map<Id, Info<Id>>, ci: Info<Id>, n: Id)
    requires Closed(r) && Frozen(r.base) && InStore(r, ci)
  {
    n in table && n.Base? && InStore(Rows(r.base, []), table[n])
      && Meaning(Rows(r.base, []), table[n]) == Meaning(r, ci)
  }

  method CompareOne(r: Rows, table: map<Id, Info<Id>>, ci: Info<Id>) returns (name: Option<Id>)
    requires Closed(r) && Frozen(r.base) && TableOk(r.base, table) && InStore(r, ci)
    ensures name.Some? <==> HasTwin(r, table, ci)
    ensures name.Some? ==> Accepted(r, table, ci, name.value)
  {
    TwinsResolve(r, table, ci);
    var resolved := Resolve(r, ci);
    if resolved.None? {
      return None;
    }
    var found := resolved.value;
    DownToBase(r, found);
    OnlyTwin(r, table, ci, found);
    var n := found.val.name;
    if n !in table || table[n] != found {
      return None;
    }
    assert Fields(found)[0] == n;
    return Some(n);
  }

  // Any twin is the resolved constant itself, under its own name.
  lemma {:induction false} OnlyTwin(r: Rows, table: map<Id, Info<Id>>, ci: Info<Id>, found: Info<Id>)
    requires Closed(r) && Frozen(r.base) && TableOk(r.base, table) && InStore(r, ci)
    requires InStore(Rows(r.base, []), found) && Meaning(Rows(r.base, []), found) == Meaning(r, ci)
    ensures HasTwin(r, table, ci) ==> found.val.name in table && table[found.val.name] == found
  {
    forall n | n in table && Meaning(Rows(r.base, []), table[n]) == Meaning(r, ci)
      ensures table[n] == found && n == found.val.name
    {
      EqualIdsEqualMeaning(r.base, table[n], found);
    }
  }

  // ----- admission -----

  datatype Verdict = Rejected | Survivors(scratch: seq<Row>, infos: seq<Info<Id>>)

  // The kernel: given the persistent rows and the declaration's persistent ids, reject or hand back what to admit, with
  // ids in the persistent region or in a scratch region of its own.
  type Kernel = (seq<Row>, seq<Id>) -> Verdict

  ghost predicate VerdictOk(base: seq<Row>, v: Verdict) {
    v.Survivors? ==>
      Closed(Rows(base, v.scratch)) && AllInStore(Rows(base, v.scratch), v.infos)
  }

  ghost predicate KernelOk(kernel: Kernel) {
    forall base: seq<Row>, ids: seq<Id> {:trigger kernel(base, ids)} :: Frozen(base) ==>
        VerdictOk(base, kernel(base, ids))
  }

  datatype Outcome = Admitted | CheckFailed | BankExhausted(inserted: nat)

  /** `promote_constant_info` */
  method PromoteInfo(r: Rows, ci: Info<Id>, cap: nat) returns (done: Option<Info<Id>>, r': Rows)
    requires Closed(r) && Frozen(r.base) && InStore(r, ci)
    ensures Closed(r') && Frozen(r'.base) && Grows(r, r') && r'.scratch == r.scratch
    ensures done.Some? ==>
              Persistent(done.value) && InStore(r', done.value) && Meaning(r', done.value) == Meaning(r, ci)
    ensures done.Some? <==> Fits(r.base, Meaning(r, ci).terms, cap)
    ensures done.Some? ==> Holds(r.base, Meaning(r, ci).terms, r'.base)
    ensures done.None? ==> |r'.base| >= cap
  {
    var ok, ids;
    ok, ids, r' := PromoteAll(r, Fields(ci), cap, Bound(Fields(ci)));
    if !ok {
      return None, r';
    }
    SameMeaning(r, ci, r', ids);
    done := Some(With(ci, ids));
  }

  lemma {:induction false} NameIsPersistent(ci: Info<Id>)
    requires Persistent(ci)
    ensures ci.val.name.Base?
  {
    assert Fields(ci)[0] == ci.val.name;
  }

  class Env {
    var base: seq<Row>
    var constants: map<Id, Info<Id>>
    const cap: nat

    ghost predicate Valid() reads this {
      Frozen(base) && TableOk(base, constants)
    }

    constructor (cap: nat)
      ensures Valid() && base == [] && constants == map[] && this.cap == cap
    {
      this.cap, base, constants := cap, [], map[];
      new;
      assert Frozen([]);
    }

    /** `add_core`: promote one constant and insert it under its promoted name. */
    method AddCore(scratch: seq<Row>, ci: Info<Id>) returns (name: Option<Id>)
      requires Valid() && Closed(Rows(base, scratch)) && InStore(Rows(base, scratch), ci)
      modifies this
      ensures Valid() && Closed(Rows(base, scratch)) && old(base) <= base
      ensures name.None? ==> constants == old(constants) && |base| >= cap
      ensures name.Some? <==> Fits(old(base), Meaning(Rows(old(base), scratch), ci).terms, cap)
      ensures name.Some? ==> Holds(old(base), Meaning(Rows(old(base), scratch), ci).terms, base)
      ensures name.Some? ==> name.value in constants && constants == old(constants)[name.value := constants[name.value]]
      ensures name.Some? ==> Meaning(Rows(base, []), constants[name.value]) == old(Meaning(Rows(base, scratch), ci))
      ensures forall n :: n in old(constants) ==>
                && InStore(Rows(base, []), old(constants)[n])
                && Meaning(Rows(base, []), old(constants)[n]) == old(Meaning(Rows(base, []), constants[n]))
    {
      var r := Rows(base, scratch);
      var promoted, r' := PromoteInfo(r, ci, cap);
      GrownTable(r.base, r'.base, constants);
      base := r'.base;
      if promoted.None? {
        return None;
      }
      DownToBase(r', promoted.value);
      NameIsPersistent(promoted.value);
      constants := constants[promoted.value.val.name := promoted.value];
      name := Some(promoted.value.val.name);
    }

    /** `add_decl_in`: promote the declaration's ids, check, then admit every survivor. What fits decides the outcome;
        when the store fills up midway the survivors inserted so far stay. */
    method AddDeclIn(kernel: Kernel, scratch: seq<Row>, decl: seq<Id>)
      returns (r: Outcome, ghost added: seq<Info<Id>>, ghost v: Verdict, ghost asked: (seq<Row>, seq<Id>))
      requires Valid() && KernelOk(kernel) && Closed(Rows(base, scratch))
      requires forall k :: 0 <= k < |decl| ==> Has(Rows(base, scratch), decl[k])
      modifies this
      ensures Valid() && old(base) <= asked.0 <= base
      ensures RightOutcome(old(base), DenoteAll(Rows(old(base), scratch), decl), cap, base, v, r)
      ensures Consulted(old(base), DenoteAll(Rows(old(base), scratch), decl), cap, kernel, asked, v)
      ensures r.BankExhausted? ==> |base| >= cap
      ensures |added| == Inserted(r, v) && constants == InsertAll(old(constants), added)
      ensures v.Survivors? ==> SameSenses(base, added, v.scratch, v.infos)
      ensures (forall k :: 0 <= k < |added| ==> added[k].val.name !in old(constants)) ==>
                (constants == old(constants) <==> Inserted(r, v) == 0)
    {
      added, v, asked := [], Rejected, (base, []);
      var rows := Rows(base, scratch);
      ghost var ds := DenoteAll(rows, decl);
      var ok, ids, rows' := PromoteAll(rows, decl, cap, Bound(decl));
      GrownTable(rows.base, rows'.base, constants);
      base := rows'.base;
      if !ok {
        return BankExhausted(0), added, v, asked;
      }
      KidsDown(rows', ids, ds);
      var verdict := kernel(base, ids);
      v, asked := verdict, (base, ids);
      if verdict.Rejected? {
        return CheckFailed, added, v, asked;
      }
      assert VerdictOk(base, v);
      StartFilling(rows.base, ds, cap, base, v.scratch);
      ghost var before := constants;
      r, added := AdmitSurvivors(verdict, rows.base, ds);
      if added != [] { InsertedStays(before, added, 0); }
    }

    // The loop over the survivors; `start` is the region before the declaration with terms `ds` went in.
    method AdmitSurvivors(v: Verdict, ghost start: seq<Row>, ghost ds: seq<Tree>)
      returns (r: Outcome, ghost added: seq<Info<Id>>)
      requires Valid() && v.Survivors? && AllInStore(Rows(base, v.scratch), v.infos)
      requires Filled(start, ds, cap, base, v.scratch, [])
      modifies this
      ensures Valid() && old(base) <= base && !r.CheckFailed?
      ensures RightOutcome(start, ds, cap, base, v, r)
      ensures r.BankExhausted? ==> |base| >= cap
      ensures |added| == Inserted(r, v) && constants == InsertAll(old(constants), added)
      ensures SameSenses(base, added, v.scratch, v.infos)
    {
      added := [];
      for i := 0 to |v.infos|
        invariant Valid() && old(base) <= base && |added| == i && constants == InsertAll(old(constants), added)
        invariant AllInStore(Rows(base, v.scratch), v.infos)
        invariant Filled(start, ds, cap, base, v.scratch, v.infos[..i])
        invariant SameSenses(base, added, v.scratch, v.infos)
      {
        var name := AdmitOne(v, i, start, ds, added);
        if name.None? {
          return BankExhausted(i), added;
        }
        InsertNext(old(constants), added, constants[name.value]);
        added := added + [constants[name.value]];
      }
      AllIn(start, ds, cap, base, v);
      r := Admitted;
    }

    // The next survivor: in, or the first one for which there is no room.
    method AdmitOne(v: Verdict, i: nat, ghost start: seq<Row>, ghost ds: seq<Tree>, ghost added: seq<Info<Id>>)
      returns (name: Option<Id>)
      requires Valid() && v.Survivors? && |added| == i < |v.infos| && AllInStore(Rows(base, v.scratch), v.infos)
      requires Filled(start, ds, cap, base, v.scratch, v.infos[..i]) && SameSenses(base, added, v.scratch, v.infos)
      modifies this
      ensures Valid() && old(base) <= base
      ensures Closed(Rows(base, v.scratch)) && AllInStore(Rows(base, v.scratch), v.infos)
      ensures name.Some? ==>
                && name.value in constants && constants[name.value].val.name == name.value
                && constants == old(constants)[name.value := constants[name.value]]
                && Filled(start, ds, cap, base, v.scratch, v.infos[..i + 1])
                && SameSenses(base, added + [constants[name.value]], v.scratch, v.infos)
      ensures name.None? ==>
                && constants == old(constants) && |base| >= cap
                && RightOutcome(start, ds, cap, base, v, BankExhausted(i))
                && SameSenses(base, added, v.scratch, v.infos)
    {
      InStoreUpto(Rows(base, v.scratch), v.infos, i);
      name := AddCore(v.scratch, v.infos[i]);
      StillInStore(old(base), base, v.scratch, v.infos);
      SensesStay(old(base), base, added, v.scratch, v.infos);
      if name.None? {
        NoRoomNext(start, ds, cap, old(base), base, v, i);
      } else {
        FillHolds(start, ds, cap, old(base), base, v.scratch, v.infos, i);
        MeaningGrows(Rows(old(base), v.scratch), Rows(base, v.scratch), v.infos[i]);
        SensesNext(base, added, v.scratch, v.infos, constants[name.value]);
      }
    }
  }

  // The loop ran through.
  lemma {:induction false} AllIn(start: seq<Row>, ds: seq<Tree>, cap: nat, base: seq<Row>, v: Verdict)
    requires v.Survivors? && Filled(start, ds, cap, base, v.scratch, v.infos[..|v.infos|])
    ensures RightOutcome(start, ds, cap, base, v, Admitted)
  {
    assert v.infos[..|v.infos|] == v.infos;
  }

  // ----- what decides the outcome -----

  // How many survivors went in.
  function Inserted(r: Outcome, v: Verdict): nat {
    match r
    case Admitted => if v.Survivors? then |v.infos| else 0
    case CheckFailed => 0
    case BankExhausted(k) => k
  }

  // The terms the constants are built from.
  ghost function InfoTerms(r: Rows, infos: seq<Info<Id>>): seq<Tree>
    requires Closed(r) && AllInStore(r, infos)
  {
    if infos == [] then [] else
      InfoTerms(r, infos[..|infos| - 1]) + Meaning(r, infos[|infos| - 1]).terms
  }

  // The region now holds the declaration and the first survivors, all of which fit.
  ghost predicate Filled(start: seq<Row>, ds: seq<Tree>, cap: nat, base: seq<Row>, scratch: seq<Row>,
                         infos: seq<Info<Id>>)
  {
    && Frozen(start) && Frozen(base) && start <= base
    && Closed(Rows(base, scratch)) && AllInStore(Rows(base, scratch), infos)
    && Fits(start, ds + InfoTerms(Rows(base, scratch), infos), cap)
    && Holds(start, ds + InfoTerms(Rows(base, scratch), infos), base)
  }

  // The declaration and the first `k` survivors fit into what was free at the start.
  ghost predicate SurvivorsFit(start: seq<Row>, ds: seq<Tree>, cap: nat, base: seq<Row>, v: Verdict, k: nat)
    requires Frozen(start) && v.Survivors? && k <= |v.infos|
  {
    && Closed(Rows(base, v.scratch)) && AllInStore(Rows(base, v.scratch), v.infos[..k])
    && Fits(start, ds + InfoTerms(Rows(base, v.scratch), v.infos[..k]), cap)
  }

  // Admitted exactly when everything fits; out of room exactly at the first survivor that does not. `v` counts as a
  // rejection when the kernel was not asked.
  ghost predicate RightOutcome(start: seq<Row>, ds: seq<Tree>, cap: nat, base: seq<Row>, v: Verdict, r: Outcome)
    requires Frozen(start)
  {
    && (v.Survivors? ==> Closed(Rows(base, v.scratch)) && AllInStore(Rows(base, v.scratch), v.infos))
    && match r
       case Admitted => v.Survivors? && SurvivorsFit(start, ds, cap, base, v, |v.infos|)
       case CheckFailed => v.Rejected? && Fits(start, ds, cap)
       case BankExhausted(k) =>
         if v.Rejected? then k == 0 && !Fits(start, ds, cap)
         else k < |v.infos| && SurvivorsFit(start, ds, cap, base, v, k) && !SurvivorsFit(start, ds, cap, base, v, k + 1)
  }

  // When the declaration fits, `v` is what the kernel says of it, asked in persistent ids of the very same terms.
  ghost predicate Consulted(start: seq<Row>, ds: seq<Tree>, cap: nat, kernel: Kernel, asked: (seq<Row>, seq<Id>),
                            v: Verdict)
    requires Frozen(start)
  {
    if Fits(start, ds, cap) then
      && Frozen(asked.0) && Holds(start, ds, asked.0) && KidsDenote(Rows(asked.0, []), asked.1, ds)
      && v == kernel(asked.0, asked.1)
    else v == Rejected
  }

  lemma {:induction false} StartFilling(start: seq<Row>, ds: seq<Tree>, cap: nat, base: seq<Row>, scratch: seq<Row>)
    requires Frozen(start) && Frozen(base) && start <= base && Closed(Rows(base, scratch))
    requires Fits(start, ds, cap) && Holds(start, ds, base)
    ensures Filled(start, ds, cap, base, scratch, [])
  {
    assert ds + [] == ds;
  }

  lemma {:induction false} InfoTermsGrow(base: seq<Row>, base': seq<Row>, scratch: seq<Row>, infos: seq<Info<Id>>)
    requires base <= base' && Closed(Rows(base, scratch)) && Closed(Rows(base', scratch))
    requires AllInStore(Rows(base, scratch), infos)
    ensures AllInStore(Rows(base', scratch), infos)
    ensures InfoTerms(Rows(base', scratch), infos) == InfoTerms(Rows(base, scratch), infos)
  {
    if infos != [] {
      InfoTermsGrow(base, base', scratch, infos[..|infos| - 1]);
      MeaningGrows(Rows(base, scratch), Rows(base', scratch), infos[|infos| - 1]);
    }
  }

  lemma {:induction false} InfoTermsNext(r: Rows, infos: seq<Info<Id>>, i: nat)
    requires Closed(r) && i < |infos| && AllInStore(r, infos[..i]) && InStore(r, infos[i])
    ensures AllInStore(r, infos[..i + 1])
    ensures InfoTerms(r, infos[..i + 1]) == InfoTerms(r, infos[..i]) + Meaning(r, infos[i]).terms
  {
    assert infos[..i + 1][..i] == infos[..i];
  }

  // The next survivor goes in exactly when it fits together with everything before it.
  lemma {:induction false} FillFits(start: seq<Row>, ds: seq<Tree>, cap: nat, base: seq<Row>, base': seq<Row>,
                                    scratch: seq<Row>, infos: seq<Info<Id>>, i: nat)
    requires i < |infos| && Filled(start, ds, cap, base, scratch, infos[..i]) && InStore(Rows(base, scratch), infos[i])
    requires Frozen(base') && base <= base' && Closed(Rows(base', scratch))
    ensures AllInStore(Rows(base', scratch), infos[..i + 1]) && AllInStore(Rows(base', scratch), infos[..i])
    ensures Fits(start, ds + InfoTerms(Rows(base', scratch), infos[..i]), cap)
    ensures Fits(base, Meaning(Rows(base, scratch), infos[i]).terms, cap) <==>
              Fits(start, ds + InfoTerms(Rows(base', scratch), infos[..i + 1]), cap)
  {
    var first, ts := ds + InfoTerms(Rows(base, scratch), infos[..i]), Meaning(Rows(base, scratch), infos[i]).terms;
    TermsAfter(ds, base, base', scratch, infos, i);
    FitsInTwo(start, first, base, ts, cap);
  }

  lemma {:induction false} TermsAfter(ds: seq<Tree>, base: seq<Row>, base': seq<Row>, scratch: seq<Row>,
                                      infos: seq<Info<Id>>, i: nat)
    requires i < |infos| && base <= base' && Closed(Rows(base, scratch)) && Closed(Rows(base', scratch))
    requires AllInStore(Rows(base, scratch), infos[..i]) && InStore(Rows(base, scratch), infos[i])
    ensures AllInStore(Rows(base', scratch), infos[..i + 1]) && AllInStore(Rows(base', scratch), infos[..i])
    ensures InfoTerms(Rows(base', scratch), infos[..i]) == InfoTerms(Rows(base, scratch), infos[..i])
    ensures ds + InfoTerms(Rows(base', scratch), infos[..i + 1]) ==
              ds + InfoTerms(Rows(base, scratch), infos[..i]) + Meaning(Rows(base, scratch), infos[i]).terms
  {
    InfoTermsNext(Rows(base, scratch), infos, i);
    InfoTermsGrow(base, base', scratch, infos[..i]);
    InfoTermsGrow(base, base', scratch, infos[..i + 1]);
  }

  lemma {:induction false} FillHolds(start: seq<Row>, ds: seq<Tree>, cap: nat, base: seq<Row>, base': seq<Row>,
                                     scratch: seq<Row>, infos: seq<Info<Id>>, i: nat)
    requires i < |infos| && Filled(start, ds, cap, base, scratch, infos[..i]) && InStore(Rows(base, scratch), infos[i])
    requires Frozen(base') && base <= base' && Closed(Rows(base', scratch))
    requires Fits(base, Meaning(Rows(base, scratch), infos[i]).terms, cap)
    requires Holds(base, Meaning(Rows(base, scratch), infos[i]).terms, base')
    ensures Filled(start, ds, cap, base', scratch, infos[..i + 1])
  {
    var first, ts := ds + InfoTerms(Rows(base, scratch), infos[..i]), Meaning(Rows(base, scratch), infos[i]).terms;
    FillFits(start, ds, cap, base, base', scratch, infos, i);
    TermsAfter(ds, base, base', scratch, infos, i);
    HoldsInTwo(start, first, base, ts, base');
  }

  lemma {:induction false} NoRoomNext(start: seq<Row>, ds: seq<Tree>, cap: nat, base: seq<Row>, base': seq<Row>,
                                      v: Verdict, i: nat)
    requires v.Survivors? && i < |v.infos| && Filled(start, ds, cap, base, v.scratch, v.infos[..i])
    requires AllInStore(Rows(base, v.scratch), v.infos) && InStore(Rows(base, v.scratch), v.infos[i])
    requires Frozen(base') && base <= base' && Closed(Rows(base', v.scratch))
    requires !Fits(base, Meaning(Rows(base, v.scratch), v.infos[i]).terms, cap)
    ensures RightOutcome(start, ds, cap, base', v, BankExhausted(i))
  {
    StillInStore(base, base', v.scratch, v.infos);
    FillFits(start, ds, cap, base, base', v.scratch, v.infos, i);
  }

  // ----- what was inserted -----

  // The constants with `added` inserted in order, each under its name.
  function InsertAll(start: map<Id, Info<Id>>, added: seq<Info<Id>>): map<Id, Info<Id>> {
    if added == [] then start else
      var one := added[|added| - 1];
      InsertAll(start, added[..|added| - 1])[one.val.name := one]
  }

  lemma {:induction false} InsertNext(start: map<Id, Info<Id>>, added: seq<Info<Id>>, one: Info<Id>)
    ensures InsertAll(start, added + [one]) == InsertAll(start, added)[one.val.name := one]
  {
    assert (added + [one])[..|added|] == added;
  }

  lemma {:induction false} InsertedStays(start: map<Id, Info<Id>>, added: seq<Info<Id>>, k: nat)
    requires k < |added|
    ensures added[k].val.name in InsertAll(start, added)
  {
    if k < |added| - 1 { InsertedStays(start, added[..|added| - 1], k); }
  }

  // Under an inserted name is the last constant inserted under it; nothing else changes.
  lemma {:induction false} InsertedLast(start: map<Id, Info<Id>>, added: seq<Info<Id>>, k: nat)
    requires k < |added| && Unnamed(added[k + 1..], added[k].val.name)
    ensures added[k].val.name in InsertAll(start, added) && InsertAll(start, added)[added[k].val.name] == added[k]
  {
    var n := |added| - 1;
    if k < n {
      assert added[k + 1..][n - k - 1] == added[n];
      assert added[..n][k + 1..] == added[k + 1..][..n - k - 1];
      UnnamedUpto(added[k + 1..], added[k].val.name, n - k - 1);
      InsertedLast(start, added[..n], k);
    }
  }

  lemma {:induction false} OthersKept(start: map<Id, Info<Id>>, added: seq<Info<Id>>, n: Id)
    requires Unnamed(added, n)
    ensures n in InsertAll(start, added) <==> n in start
    ensures n in start ==> InsertAll(start, added)[n] == start[n]
  {
    if added != [] {
      UnnamedUpto(added, n, |added| - 1);
      OthersKept(start, added[..|added| - 1], n);
    }
  }

  predicate Unnamed(added: seq<Info<Id>>, n: Id) {
    forall k :: 0 <= k < |added| ==> added[k].val.name != n
  }

  lemma {:induction false} UnnamedUpto(added: seq<Info<Id>>, n: Id, k: nat)
    requires Unnamed(added, n) && k <= |added|
    ensures Unnamed(added[..k], n)
  {
  }

  // A persistent constant and a survivor mean the same.
  ghost predicate SameSense(base: seq<Row>, one: Info<Id>, scratch: seq<Row>, info: Info<Id>) {
    && Closed(Rows(base, [])) && Closed(Rows(base, scratch))
    && InStore(Rows(base, []), one) && InStore(Rows(base, scratch), info)
    && Meaning(Rows(base, []), one) == Meaning(Rows(base, scratch), info)
  }

  // The inserted constants live in the persistent region and mean, one by one, what the first survivors mean.
  ghost predicate SameSenses(base: seq<Row>, added: seq<Info<Id>>, scratch: seq<Row>, infos: seq<Info<Id>>) {
    added == [] || (|added| <= |infos| && SameSenses(base, added[..|added| - 1], scratch, infos)
                    && SameSense(base, added[|added| - 1], scratch, infos[|added| - 1]))
  }

  lemma {:induction false} SensesAt(base: seq<Row>, added: seq<Info<Id>>, scratch: seq<Row>, infos: seq<Info<Id>>,
                                    k: nat)
    requires SameSenses(base, added, scratch, infos) && k < |added|
    ensures k < |infos| && SameSense(base, added[k], scratch, infos[k])
  {
    if k < |added| - 1 { SensesAt(base, added[..|added| - 1], scratch, infos, k); }
  }

  lemma {:induction false} SenseStays(base: seq<Row>, base': seq<Row>, one: Info<Id>, scratch: seq<Row>, info: Info<Id>)
    requires SameSense(base, one, scratch, info) && base <= base'
    requires Closed(Rows(base', [])) && Closed(Rows(base', scratch))
    ensures SameSense(base', one, scratch, info)
  {
    MeaningGrows(Rows(base, scratch), Rows(base', scratch), info);
    MeaningGrows(Rows(base, []), Rows(base', []), one);
  }

  lemma {:induction false} SensesStay(base: seq<Row>, base': seq<Row>, added: seq<Info<Id>>, scratch: seq<Row>,
                                      infos: seq<Info<Id>>)
    requires SameSenses(base, added, scratch, infos) && base <= base'
    requires Closed(Rows(base', [])) && Closed(Rows(base', scratch))
    ensures SameSenses(base', added, scratch, infos)
  {
    if added != [] {
      SensesStay(base, base', added[..|added| - 1], scratch, infos);
      SenseStays(base, base', added[|added| - 1], scratch, infos[|added| - 1]);
    }
  }

  lemma {:induction false} SensesNext(base: seq<Row>, added: seq<Info<Id>>, scratch: seq<Row>, infos: seq<Info<Id>>,
                                      one: Info<Id>)
    requires SameSenses(base, added, scratch, infos) && |added| < |infos|
    requires SameSense(base, one, scratch, infos[|added|])
    ensures SameSenses(base, added + [one], scratch, infos)
  {
    var all := added + [one];
    assert all[..|all| - 1] == added && all[|all| - 1] == one && |all| - 1 == |added|;
  }

  lemma {:induction false} StillInStore(base: seq<Row>, base': seq<Row>, scratch: seq<Row>, infos: seq<Info<Id>>)
    requires base <= base' && AllInStore(Rows(base, scratch), infos)
    ensures AllInStore(Rows(base', scratch), infos)
  {
    if infos != [] {
      StillInStore(base, base', scratch, infos[..|infos| - 1]);
      var last := infos[|infos| - 1];
      forall k | 0 <= k < |Fields(last)| ensures Has(Rows(base', scratch), Fields(last)[k]) {
        assert Has(Rows(base, scratch), Fields(last)[k]);
      }
    }
  }

  function Bound(ids: seq<Id>): (b: nat)
    ensures forall k :: 0 <= k < |ids| ==> Depth(ids[k]) < b
  {
    if ids == [] then 0 else
      var rest := Bound(ids[..|ids| - 1]);
      if Depth(ids[|ids| - 1]) < rest then rest else Depth(ids[|ids| - 1]) + 1
  }

  lemma {:induction false} GrownTable(base: seq<Row>, base': seq<Row>, table: map<Id, Info<Id>>)
    requires Frozen(base) && Frozen(base') && base <= base' && TableOk(base, table)
    ensures TableOk(base', table)
    ensures forall n :: n in table ==> Meaning(Rows(base', []), table[n]) == Meaning(Rows(base, []), table[n])
  {
    forall n | n in table
      ensures InStore(Rows(base', []), table[n])
              && Meaning(Rows(base', []), table[n]) == Meaning(Rows(base, []), table[n])
    {
      MeaningGrows(Rows(base, []), Rows(base', []), table[n]);
    }
  }
}
