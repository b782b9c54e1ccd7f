/** A two-region hash-consing store of terms: persistent rows, scratch rows on top, and the two ways to bring a scratch
    term down: appending what is missing, or only looking it up. */
module TermStore {
  import opened Options
  import Digraph

  datatype Id = Base(i: nat) | Scratch(i: nat)

  // A node of a name, a level or an expression: what it is, and the ids it refers to.
  datatype Row = Row(tag: nat, kids: seq<Id>)

  datatype Tree = Tree(tag: nat, kids: seq<Tree>)

  datatype Rows = Rows(base: seq<Row>, scratch: seq<Row>)

  predicate Has(r: Rows, id: Id) {
    match id
    case Base(i) => i < |r.base|
    case Scratch(i) => i < |r.scratch|
  }

  function At(r: Rows, id: Id): Row
    requires Has(r, id)
  {
    match id
    case Base(i) => r.base[i]
    case Scratch(i) => r.scratch[i]
  }

  function Rank(r: Rows, id: Id): nat {
    match id
    case Base(i) => i
    case Scratch(i) => |r.base| + i
  }

  predicate KidsOk(r: Rows, id: Id)
    requires Has(r, id)
  {
    forall k :: 0 <= k < |At(r, id).kids| ==>
      var kid := At(r, id).kids[k];
      Has(r, kid) && Rank(r, kid) < Rank(r, id) && (id.Base? ==> kid.Base?)
  }

  // Rows refer to earlier rows, persistent rows to persistent ones.
  ghost predicate Closed(r: Rows) {
    forall id {:trigger KidsOk(r, id)} :: Has(r, id) ==> KidsOk(r, id)
  }

  predicate NotTwice(r: Rows, a: Id, b: Id)
    requires Has(r, a) && Has(r, b)
  {
    At(r, a) == At(r, b) ==> a == b
  }

  // No row twice, in either region or across them.
  ghost predicate HashConsed(r: Rows) {
    forall a, b {:trigger NotTwice(r, a, b)} :: Has(r, a) && Has(r, b) ==> NotTwice(r, a, b)
  }

  // The term an id stands for.
  ghost function Denote(r: Rows, id: Id): Tree
    requires Closed(r) && Has(r, id)
    decreases Rank(r, id)
  {
    var row := At(r, id);
    assert KidsOk(r, id);
    Tree(row.tag, seq(|row.kids|, k requires 0 <= k < |row.kids| => Denote(r, row.kids[k])))
  }

  lemma {:induction false} DenoteInjective(r: Rows, a: Id, b: Id)
    requires Closed(r) && HashConsed(r) && Has(r, a) && Has(r, b)
    ensures Denote(r, a) == Denote(r, b) <==> a == b
    decreases Rank(r, a)
  {
    if Denote(r, a) == Denote(r, b) {
      var x, y := At(r, a), At(r, b);
      assert KidsOk(r, a) && KidsOk(r, b);
      assert |x.kids| == |Denote(r, a).kids| && |y.kids| == |Denote(r, b).kids|;
      forall k | 0 <= k < |x.kids| ensures x.kids[k] == y.kids[k] {
        assert Denote(r, a).kids[k] == Denote(r, b).kids[k];
        DenoteInjective(r, x.kids[k], y.kids[k]);
      }
      assert x.kids == y.kids;
      assert NotTwice(r, a, b);
    }
  }

  // More persistent rows, other scratch rows kept: earlier ids still stand for the same terms.
  predicate Grows(r: Rows, r': Rows) {
    r.base <= r'.base && r.scratch <= r'.scratch
  }

  lemma {:induction false} GrowsKeeps(r: Rows, r': Rows, id: Id)
    requires Closed(r) && Closed(r') && Grows(r, r') && Has(r, id)
    ensures Has(r', id) && Denote(r', id) == Denote(r, id)
    decreases Rank(r, id)
  {
    var row := At(r, id);
    assert At(r', id) == row;
    assert KidsOk(r, id) && KidsOk(r', id);
    forall k | 0 <= k < |row.kids| ensures Denote(r', row.kids[k]) == Denote(r, row.kids[k]) {
      GrowsKeeps(r, r', row.kids[k]);
    }
    assert Denote(r', id).kids == Denote(r, id).kids;
  }

  ghost predicate KidsDenote(r: Rows, kids: seq<Id>, ts: seq<Tree>)
    requires Closed(r)
  {
    |kids| == |ts| && forall k :: 0 <= k < |kids| ==> Has(r, kids[k]) && Denote(r, kids[k]) == ts[k]
  }

  lemma {:induction false} KidsDenoteGrows(r: Rows, r': Rows, kids: seq<Id>, ts: seq<Tree>)
    requires Closed(r) && Closed(r') && Grows(r, r') && KidsDenote(r, kids, ts)
    ensures KidsDenote(r', kids, ts)
  {
    forall k | 0 <= k < |kids| ensures Has(r', kids[k]) && Denote(r', kids[k]) == ts[k] {
      GrowsKeeps(r, r', kids[k]);
    }
  }

  lemma {:induction false} RowDenotes(r: Rows, id: Id, ts: seq<Tree>)
    requires Closed(r) && Has(r, id) && KidsDenote(r, At(r, id).kids, ts)
    ensures Denote(r, id) == Tree(At(r, id).tag, ts)
  {
    assert Denote(r, id).kids == ts;
  }

  // ----- adding rows -----

  lemma {:induction false} AddScratch(r: Rows, row: Row)
    requires Closed(r) && forall k :: 0 <= k < |row.kids| ==> Has(r, row.kids[k])
    ensures var r' := r.(scratch := r.scratch + [row]); Closed(r') && Grows(r, r')
    ensures HashConsed(r) && (forall id {:trigger At(r, id)} :: Has(r, id) ==> At(r, id) != row) ==>
              HashConsed(r.(scratch := r.scratch + [row]))
  {
    var r' := r.(scratch := r.scratch + [row]);
    var last := Scratch(|r.scratch|);
    forall id {:trigger KidsOk(r', id)} | Has(r', id) ensures KidsOk(r', id) {
      if id != last {
        assert At(r', id) == At(r, id);
        assert KidsOk(r, id);
      }
    }
    if HashConsed(r) && forall id {:trigger At(r, id)} :: Has(r, id) ==> At(r, id) != row {
      forall a, b {:trigger NotTwice(r', a, b)} | Has(r', a) && Has(r', b) ensures NotTwice(r', a, b) {
        assert a != last ==> At(r', a) == At(r, a);
        assert b != last ==> At(r', b) == At(r, b);
        assert a != last && b != last ==> NotTwice(r, a, b);
      }
    }
  }

  // Appending a persistent row keeps the persistent region closed and duplicate-free. Scratch rows may now duplicate
  // it: after a promotion the scratch region is only good for being promoted or dropped.
  lemma {:induction false} AddBase(r: Rows, row: Row)
    requires Closed(r) && HashConsed(Rows(r.base, [])) && Closed(Rows(r.base, []))
    requires forall k :: 0 <= k < |row.kids| ==> row.kids[k].Base? && Has(r, row.kids[k])
    requires forall i :: 0 <= i < |r.base| ==> r.base[i] != row
    ensures var r' := r.(base := r.base + [row]);
            Closed(r') && Grows(r, r') && HashConsed(Rows(r'.base, [])) && Closed(Rows(r'.base, []))
  {
    var r' := r.(base := r.base + [row]);
    AddBaseClosed(r, row);
    AddBaseClosed(Rows(r.base, []), row);
    var p, p' := Rows(r.base, []), Rows(r'.base, []);
    var last := Base(|r.base|);
    forall a, b {:trigger NotTwice(p', a, b)} | Has(p', a) && Has(p', b) ensures NotTwice(p', a, b) {
      assert a != last ==> At(p', a) == At(p, a);
      assert b != last ==> At(p', b) == At(p, b);
      assert a != last && b != last ==> NotTwice(p, a, b);
    }
  }

  lemma {:induction false} AddBaseClosed(r: Rows, row: Row)
    requires Closed(r) && forall k :: 0 <= k < |row.kids| ==> row.kids[k].Base? && Has(r, row.kids[k])
    ensures Closed(r.(base := r.base + [row]))
  {
    var r' := r.(base := r.base + [row]);
    forall id {:trigger KidsOk(r', id)} | Has(r', id) ensures KidsOk(r', id) {
      if id != Base(|r.base|) {
        assert At(r', id) == At(r, id);
        assert KidsOk(r, id);
      }
    }
  }

  method FindRow(rows: seq<Row>, row: Row) returns (at: Option<nat>)
    ensures at.Some? ==> at.value < |rows| && rows[at.value] == row
    ensures at.None? ==> forall i :: 0 <= i < |rows| ==> rows[i] != row
  {
    for i := 0 to |rows|
      invariant forall j :: 0 <= j < i ==> rows[j] != row
    {
      if rows[i] == row {
        return Some(i);
      }
    }
    return None;
  }

  // ----- reading back, interning, looking up -----

  method ToTree(r: Rows, id: Id) returns (t: Tree)
    requires Closed(r) && Has(r, id)
    ensures t == Denote(r, id)
    decreases Rank(r, id)
  {
    var row := At(r, id);
    assert KidsOk(r, id);
    var kids: seq<Tree> := [];
    for k := 0 to |row.kids|
      invariant KidsDenote(r, row.kids[..k], kids)
    {
      var kid := ToTree(r, row.kids[k]);
      kids := kids + [kid];
    }
    assert row.kids[..|row.kids|] == row.kids;
    RowDenotes(r, id, kids);
    t := Tree(row.tag, kids);
  }

  // Interning through the persistent region: its row if there is one, else the scratch one, else a new scratch row.
  method InternTree(r: Rows, t: Tree) returns (r': Rows, id: Id)
    requires Closed(r) && HashConsed(r)
    ensures Closed(r') && HashConsed(r') && Grows(r, r') && r'.base == r.base
    ensures Has(r', id) && Denote(r', id) == t
    decreases t
  {
    r' := r;
    var kids: seq<Id> := [];
    for k := 0 to |t.kids|
      invariant Closed(r') && HashConsed(r') && Grows(r, r') && r'.base == r.base
      invariant KidsDenote(r', kids, t.kids[..k])
    {
      ghost var before := r';
      var kid;
      r', kid := InternTree(r', t.kids[k]);
      KidsDenoteGrows(before, r', kids, t.kids[..k]);
      kids := kids + [kid];
    }
    assert t.kids[..|t.kids|] == t.kids;
    var row := Row(t.tag, kids);
    var inBase := FindRow(r'.base, row);
    if inBase.Some? {
      id := Base(inBase.value);
      assert At(r', id) == row;
      RowDenotes(r', id, t.kids);
      return;
    }
    var inScratch := FindRow(r'.scratch, row);
    if inScratch.Some? {
      id := Scratch(inScratch.value);
      assert At(r', id) == row;
      RowDenotes(r', id, t.kids);
      return;
    }
    forall x {:trigger At(r', x)} | Has(r', x) ensures At(r', x) != row {}
    AddScratch(r', row);
    ghost var before := r';
    r' := r'.(scratch := r'.scratch + [row]);
    KidsDenoteGrows(before, r', kids, t.kids);
    id := Scratch(|r'.scratch| - 1);
    assert At(r', id) == row;
    RowDenotes(r', id, t.kids);
  }

  // The persistent region on its own.
  ghost predicate Frozen(base: seq<Row>) {
    Closed(Rows(base, [])) && HashConsed(Rows(base, []))
  }

  ghost predicate Interned(base: seq<Row>, t: Tree)
    requires Frozen(base)
  {
    exists i :: 0 <= i < |base| && Denote(Rows(base, []), Base(i)) == t
  }

  /** The read-only leaf: rebuild the term, intern it into a throwaway region over the persistent one, and see where it
      lands. A hit is exact, and so is a miss; nothing persistent changes. */
  method Lookup(r: Rows, id: Id) returns (hit: Option<Id>)
    requires Closed(r) && Frozen(r.base) && Has(r, id)
    ensures hit.Some? ==> hit.value.Base? && Has(r, hit.value) && Denote(r, hit.value) == Denote(r, id)
    ensures hit.Some? <==> Interned(r.base, Denote(r, id))
  {
    var frozen := Rows(r.base, []);
    if id.Base? {
      GrowsKeeps(frozen, r, id);
      return Some(id);
    }
    var t := ToTree(r, id);
    var probe, pid := InternTree(frozen, t);
    LandsWhere(r.base, probe, pid, t);
    if pid.Scratch? {
      return None;
    }
    GrowsKeeps(frozen, r, pid);
    return Some(pid);
  }

  lemma {:induction false} LandsWhere(base: seq<Row>, probe: Rows, pid: Id, t: Tree)
    requires Frozen(base) && Closed(probe) && HashConsed(probe) && probe.base == base
    requires Has(probe, pid) && Denote(probe, pid) == t
    ensures pid.Base? <==> Interned(base, t)
    ensures pid.Base? ==> Denote(Rows(base, []), pid) == t
  {
    var frozen := Rows(base, []);
    if pid.Base? {
      GrowsKeeps(frozen, probe, pid);
    }
    if Interned(base, t) {
      var i :| 0 <= i < |base| && Denote(frozen, Base(i)) == t;
      GrowsKeeps(frozen, probe, Base(i));
      DenoteInjective(probe, pid, Base(i));
    }
  }

  // ----- room -----

  // Every term a term is built from, itself included.
  ghost function Subterms(t: Tree): set<Tree> {
    {t} + SubtermsAll(t.kids)
  }

  ghost function SubtermsAll(ts: seq<Tree>): set<Tree> {
    if ts == [] then {} else SubtermsAll(ts[..|ts| - 1]) + Subterms(ts[|ts| - 1])
  }

  lemma {:induction false} SubtermsUpto(ts: seq<Tree>, k: nat)
    requires k <= |ts|
    ensures SubtermsAll(ts[..k]) <= SubtermsAll(ts)
    ensures k < |ts| ==> SubtermsAll(ts[..k + 1]) == SubtermsAll(ts[..k]) + Subterms(ts[k])
  {
    if k == |ts| {
      assert ts[..k] == ts;
    } else {
      SubtermsUpto(ts[..|ts| - 1], k);
      assert ts[..|ts| - 1][..k] == ts[..k];
      assert ts[..k + 1][..k] == ts[..k];
      if k < |ts| - 1 { assert ts[..|ts| - 1][..k + 1] == ts[..k + 1]; }
    }
  }

  lemma {:induction false} SubtermsConcat(a: seq<Tree>, b: seq<Tree>)
    ensures SubtermsAll(a + b) == SubtermsAll(a) + SubtermsAll(b)
  {
    if b == [] {
      assert a + b == a;
    } else {
      SubtermsConcat(a, b[..|b| - 1]);
      assert (a + b)[..|a + b| - 1] == a + b[..|b| - 1];
    }
  }

  // The terms of the persistent region, row by row.
  ghost function TermsUpto(base: seq<Row>, n: nat): set<Tree>
    requires Frozen(base) && n <= |base|
  {
    if n == 0 then {} else TermsUpto(base, n - 1) + {Denote(Rows(base, []), Base(n - 1))}
  }

  ghost function Terms(base: seq<Row>): set<Tree>
    requires Frozen(base)
  {
    TermsUpto(base, |base|)
  }

  lemma {:induction false} TermsExact(base: seq<Row>, n: nat, t: Tree)
    requires Frozen(base) && n <= |base|
    ensures t in TermsUpto(base, n) <==> exists i: nat :: i < n && Denote(Rows(base, []), Base(i)) == t
  {
    if n > 0 { TermsExact(base, n - 1, t); }
  }

  // One row a term.
  lemma {:induction false} TermsCount(base: seq<Row>, n: nat)
    requires Frozen(base) && n <= |base|
    ensures |TermsUpto(base, n)| == n
  {
    if n > 0 {
      TermsCount(base, n - 1);
      var t := Denote(Rows(base, []), Base(n - 1));
      TermsExact(base, n - 1, t);
      forall i: nat | i < n - 1 ensures Denote(Rows(base, []), Base(i)) != t {
        DenoteInjective(Rows(base, []), Base(i), Base(n - 1));
      }
    }
  }

  lemma {:induction false} TermsGrow(base: seq<Row>, base': seq<Row>, n: nat)
    requires Frozen(base) && Frozen(base') && base <= base' && n <= |base|
    ensures TermsUpto(base', n) == TermsUpto(base, n)
  {
    if n > 0 {
      TermsGrow(base, base', n - 1);
      GrowsKeeps(Rows(base, []), Rows(base', []), Base(n - 1));
    }
  }

  lemma {:induction false} TermsAppend(base: seq<Row>, row: Row)
    requires Frozen(base) && Frozen(base + [row])
    ensures Terms(base + [row]) == Terms(base) + {Denote(Rows(base + [row], []), Base(|base|))}
  {
    TermsGrow(base, base + [row], |base|);
  }

  // With a persistent id come all terms below it.
  lemma {:induction false} BaseHoldsSubterms(r: Rows, id: Id)
    requires Closed(r) && Frozen(r.base) && Has(r, id) && id.Base?
    ensures Subterms(Denote(r, id)) <= Terms(r.base)
    decreases Rank(r, id), 1, 0
  {
    var row := At(r, id);
    assert KidsOk(r, id);
    GrowsKeeps(Rows(r.base, []), r, id);
    TermsExact(r.base, |r.base|, Denote(r, id));
    var ts := DenoteAll(r, row.kids);
    RowDenotes(r, id, ts);
    BaseHoldsKids(r, id, |row.kids|);
    assert ts[..|row.kids|] == ts;
  }

  lemma {:induction false} BaseHoldsKids(r: Rows, id: Id, n: nat)
    requires Closed(r) && Frozen(r.base) && Has(r, id) && id.Base? && n <= |At(r, id).kids|
    requires KidsOk(r, id)
    ensures SubtermsAll(DenoteAll(r, At(r, id).kids)[..n]) <= Terms(r.base)
    decreases Rank(r, id), 0, n
  {
    if n > 0 {
      BaseHoldsKids(r, id, n - 1);
      BaseHoldsSubterms(r, At(r, id).kids[n - 1]);
      SubtermsUpto(DenoteAll(r, At(r, id).kids), n - 1);
    }
  }

  // The terms that would have to be appended.
  ghost function Missing(base: seq<Row>, ts: seq<Tree>): set<Tree>
    requires Frozen(base)
  {
    SubtermsAll(ts) - Terms(base)
  }

  // What is missing fits into the region.
  ghost predicate Fits(base: seq<Row>, ts: seq<Tree>, cap: nat)
    requires Frozen(base)
  {
    Missing(base, ts) == {} || |base| + |Missing(base, ts)| <= cap
  }

  // The region holds what it held and everything the terms are built from.
  ghost predicate Holds(base: seq<Row>, ts: seq<Tree>, base': seq<Row>)
    requires Frozen(base) && Frozen(base')
  {
    Terms(base') == Terms(base) + SubtermsAll(ts)
  }

  lemma {:induction false} FitsCount(base: seq<Row>, ts: seq<Tree>, cap: nat)
    requires Frozen(base)
    ensures Fits(base, ts, cap) <==> |Terms(base) + SubtermsAll(ts)| <= if cap < |base| then |base| else cap
    ensures |Terms(base)| == |base|
  {
    TermsCount(base, |base|);
    var a, b := Terms(base), SubtermsAll(ts);
    assert a + b == a + Missing(base, ts);
    assert a !! Missing(base, ts);
  }

  lemma {:induction false} SubsetFits(base: seq<Row>, ts: seq<Tree>, us: seq<Tree>, cap: nat)
    requires Frozen(base) && SubtermsAll(ts) <= SubtermsAll(us) && Fits(base, us, cap)
    ensures Fits(base, ts, cap)
  {
    Digraph.SubsetSize(Missing(base, ts), Missing(base, us));
  }

  // After the first terms went in, the next ones fit exactly when all fit from the start.
  lemma {:induction false} FitsInTwo(base: seq<Row>, ts: seq<Tree>, base': seq<Row>, us: seq<Tree>, cap: nat)
    requires Frozen(base) && Frozen(base') && Holds(base, ts, base') && Fits(base, ts, cap)
    ensures Fits(base', us, cap) <==> Fits(base, ts + us, cap)
  {
    SubtermsConcat(ts, us);
    FitsCount(base, ts, cap);
    FitsCount(base, ts + us, cap);
    FitsCount(base', us, cap);
    assert Terms(base') + SubtermsAll(us) == Terms(base) + SubtermsAll(ts + us);
    Digraph.SubsetSize(Terms(base), Terms(base'));
  }

  lemma {:induction false} HoldsInTwo(base: seq<Row>, ts: seq<Tree>, base': seq<Row>, us: seq<Tree>, base'': seq<Row>)
    requires Frozen(base) && Frozen(base') && Frozen(base'') && Holds(base, ts, base') && Holds(base', us, base'')
    ensures Holds(base, ts + us, base'')
  {
    SubtermsConcat(ts, us);
  }

  // Nothing fits less than nothing.
  lemma {:induction false} NothingFits(base: seq<Row>, cap: nat)
    requires Frozen(base)
    ensures Fits(base, [], cap) && Holds(base, [], base)
  {
  }

  lemma {:induction false} AloneSubterms(t: Tree)
    ensures SubtermsAll([t]) == Subterms(t)
  {
    assert [t][..0] == [];
  }

  // A persistent id needs no room.
  lemma {:induction false} BaseFits(r: Rows, id: Id, cap: nat)
    requires Closed(r) && Frozen(r.base) && Has(r, id) && id.Base?
    ensures Fits(r.base, [Denote(r, id)], cap) && Holds(r.base, [Denote(r, id)], r.base)
  {
    BaseHoldsSubterms(r, id);
    AloneSubterms(Denote(r, id));
  }

  // A term whose kids do not fit does not fit.
  lemma {:induction false} KidsFitFirst(base: seq<Row>, t: Tree, cap: nat)
    requires Frozen(base) && Fits(base, [t], cap)
    ensures Fits(base, t.kids, cap)
  {
    AloneSubterms(t);
    SubsetFits(base, t.kids, [t], cap);
  }

  // With the kids in place a term is there exactly when its row is.
  lemma {:induction false} RowIsTerm(base: seq<Row>, row: Row, t: Tree)
    requires Frozen(base) && row.tag == t.tag && KidsDenote(Rows(base, []), row.kids, t.kids)
    ensures t in Terms(base) <==> row in base
  {
    var r := Rows(base, []);
    TermsExact(base, |base|, t);
    if t in Terms(base) {
      var i: nat :| i < |base| && Denote(r, Base(i)) == t;
      assert KidsOk(r, Base(i));
      var kids := base[i].kids;
      assert |Denote(r, Base(i)).kids| == |kids|;
      forall k | 0 <= k < |kids| ensures kids[k] == row.kids[k] {
        assert Denote(r, Base(i)).kids[k] == t.kids[k];
        DenoteInjective(r, kids[k], row.kids[k]);
      }
      assert base[i] == row;
    }
    if i: nat :| i < |base| && base[i] == row {
      assert At(r, Base(i)) == row;
      RowDenotes(r, Base(i), t.kids);
    }
  }

  // The kids are in, and the row is found.
  lemma {:induction false} FoundFits(base: seq<Row>, t: Tree, base': seq<Row>, cap: nat)
    requires Frozen(base) && Frozen(base') && Fits(base, t.kids, cap) && Holds(base, t.kids, base') && t in Terms(base')
    ensures Fits(base, [t], cap) && Holds(base, [t], base')
  {
    AloneSubterms(t);
    FitsCount(base, t.kids, cap);
    FitsCount(base, [t], cap);
    assert Terms(base) + SubtermsAll([t]) == Terms(base');
  }

  // The kids are in, and the row takes one more place.
  lemma {:induction false} OneMoreFits(base: seq<Row>, t: Tree, base': seq<Row>, cap: nat)
    requires Frozen(base) && Frozen(base') && Fits(base, t.kids, cap) && Holds(base, t.kids, base')
             && t !in Terms(base')
    requires |base| <= |base'|
    ensures Fits(base, [t], cap) <==> |base'| < cap
  {
    AloneSubterms(t);
    FitsCount(base, [t], cap);
    FitsCount(base', [], cap);
    assert Terms(base) + SubtermsAll([t]) == Terms(base') + {t};
  }

  lemma {:induction false} AppendHolds(base: seq<Row>, t: Tree, base': seq<Row>, row: Row)
    requires Frozen(base) && Frozen(base') && Holds(base, t.kids, base') && Frozen(base' + [row])
    requires Denote(Rows(base' + [row], []), Base(|base'|)) == t
    ensures Holds(base, [t], base' + [row])
  {
    AloneSubterms(t);
    TermsAppend(base', row);
  }

  // Persistent ids stand for the same terms without the scratch region.
  lemma {:induction false} KidsDown(r: Rows, kids: seq<Id>, ts: seq<Tree>)
    requires Closed(r) && Frozen(r.base) && KidsDenote(r, kids, ts) && forall k :: 0 <= k < |kids| ==> kids[k].Base?
    ensures KidsDenote(Rows(r.base, []), kids, ts)
  {
    forall k | 0 <= k < |kids|
      ensures Has(Rows(r.base, []), kids[k]) && Denote(Rows(r.base, []), kids[k]) == ts[k]
    {
      GrowsKeeps(Rows(r.base, []), r, kids[k]);
    }
  }

  /** The appending leaf: kids first, then the row unless it is there. It succeeds exactly when the missing terms fit,
      and then the region holds those and nothing else in addition. */
  method Promote(r: Rows, id: Id, cap: nat) returns (done: Option<Id>, r': Rows)
    requires Closed(r) && Frozen(r.base) && Has(r, id)
    ensures Closed(r') && Frozen(r'.base) && Grows(r, r') && r'.scratch == r.scratch
    ensures done.Some? ==> done.value.Base? && Has(r', done.value) && Denote(r', done.value) == Denote(r, id)
    ensures done.Some? <==> Fits(r.base, [Denote(r, id)], cap)
    ensures done.Some? ==> Holds(r.base, [Denote(r, id)], r'.base)
    ensures done.None? ==> |r'.base| >= cap
    decreases Depth(id), 1
  {
    if id.Base? {
      BaseFits(r, id, cap);
      return Some(id), r;
    }
    var row := At(r, id);
    assert KidsOk(r, id);
    ghost var ts := DenoteAll(r, row.kids);
    RowDenotes(r, id, ts);
    var all, kids;
    all, kids, r' := PromoteAll(r, row.kids, cap, Depth(id));
    if !all {
      if Fits(r.base, [Denote(r, id)], cap) { KidsFitFirst(r.base, Denote(r, id), cap); }
      return None, r';
    }
    done, r' := PlaceRow(r.base, r', Row(row.tag, kids), Denote(r, id), cap);
  }

  // The last step of a promotion: the row itself.
  method PlaceRow(ghost start: seq<Row>, r: Rows, want: Row, ghost t: Tree, cap: nat)
    returns (done: Option<Id>, r': Rows)
    requires Closed(r) && Frozen(r.base) && Frozen(start) && start <= r.base
    requires forall k :: 0 <= k < |want.kids| ==> want.kids[k].Base?
    requires want.tag == t.tag && KidsDenote(r, want.kids, t.kids)
    requires Fits(start, t.kids, cap) && Holds(start, t.kids, r.base)
    ensures Closed(r') && Frozen(r'.base) && Grows(r, r') && r'.scratch == r.scratch
    ensures done.Some? ==> done.value.Base? && Has(r', done.value) && Denote(r', done.value) == t
    ensures done.Some? <==> Fits(start, [t], cap)
    ensures done.Some? ==> Holds(start, [t], r'.base)
    ensures done.None? ==> |r'.base| >= cap
  {
    KidsDown(r, want.kids, t.kids);
    RowIsTerm(r.base, want, t);
    var found := FindRow(r.base, want);
    if found.Some? {
      var b := Base(found.value);
      assert At(r, b) == want;
      RowDenotes(r, b, t.kids);
      FoundFits(start, t, r.base, cap);
      return Some(b), r;
    }
    OneMoreFits(start, t, r.base, cap);
    if |r.base| >= cap {
      return None, r;
    }
    r' := AppendRow(start, r, want, t);
    done := Some(Base(|r.base|));
  }

  method AppendRow(ghost start: seq<Row>, r: Rows, want: Row, ghost t: Tree) returns (r': Rows)
    requires Closed(r) && Frozen(r.base) && Frozen(start) && Holds(start, t.kids, r.base)
    requires forall k :: 0 <= k < |want.kids| ==> want.kids[k].Base?
    requires want !in r.base && want.tag == t.tag && KidsDenote(r, want.kids, t.kids)
    ensures r' == r.(base := r.base + [want]) && Closed(r') && Frozen(r'.base)
    ensures Denote(r', Base(|r.base|)) == t && Holds(start, [t], r'.base)
  {
    AddBase(r, want);
    r' := r.(base := r.base + [want]);
    KidsDenoteGrows(r, r', want.kids, t.kids);
    var b := Base(|r.base|);
    assert At(r', b) == want;
    RowDenotes(r', b, t.kids);
    GrowsKeeps(Rows(r'.base, []), r', b);
    AppendHolds(start, t, r.base, want);
  }

  function Depth(id: Id): nat {
    if id.Base? then 0 else id.i + 1
  }

  ghost function DenoteAll(r: Rows, ids: seq<Id>): (ts: seq<Tree>)
    requires Closed(r) && forall k :: 0 <= k < |ids| ==> Has(r, ids[k])
    ensures KidsDenote(r, ids, ts)
  {
    seq(|ids|, k requires 0 <= k < |ids| => Denote(r, ids[k]))
  }

  lemma {:induction false} NextFits(base: seq<Row>, ts: seq<Tree>, k: nat, base': seq<Row>, base'': seq<Row>, cap: nat)
    requires k < |ts| && Frozen(base) && Frozen(base') && Frozen(base'')
    requires Fits(base, ts[..k], cap) && Holds(base, ts[..k], base')
    ensures Fits(base', [ts[k]], cap) <==> Fits(base, ts[..k + 1], cap)
    ensures !Fits(base', [ts[k]], cap) ==> !Fits(base, ts, cap)
    ensures Holds(base', [ts[k]], base'') ==> Holds(base, ts[..k + 1], base'')
  {
    assert ts[..k + 1] == ts[..k] + [ts[k]];
    FitsInTwo(base, ts[..k], base', [ts[k]], cap);
    SubtermsUpto(ts, k + 1);
    if Fits(base, ts, cap) { SubsetFits(base, ts[..k + 1], ts, cap); }
    if Holds(base', [ts[k]], base'') { HoldsInTwo(base, ts[..k], base', [ts[k]], base''); }
  }

  /** The same for a list of ids, sharing what they have in common. */
  method PromoteAll(r: Rows, ids: seq<Id>, cap: nat, ghost bound: nat) returns (done: bool, kids: seq<Id>, r': Rows)
    requires Closed(r) && Frozen(r.base)
    requires forall k :: 0 <= k < |ids| ==> Has(r, ids[k]) && Depth(ids[k]) < bound
    ensures Closed(r') && Frozen(r'.base) && Grows(r, r') && r'.scratch == r.scratch
    ensures done ==> (forall k :: 0 <= k < |kids| ==> kids[k].Base?) && KidsDenote(r', kids, DenoteAll(r, ids))
    ensures done <==> Fits(r.base, DenoteAll(r, ids), cap)
    ensures done ==> Holds(r.base, DenoteAll(r, ids), r'.base)
    ensures !done ==> |r'.base| >= cap
    decreases bound, 0
  {
    kids, r', done := [], r, true;
    ghost var ts := DenoteAll(r, ids);
    NothingFits(r.base, cap);
    for k := 0 to |ids|
      invariant Closed(r') && Frozen(r'.base) && Grows(r, r') && r'.scratch == r.scratch
      invariant (forall j :: 0 <= j < |kids| ==> kids[j].Base?) && KidsDenote(r', kids, ts[..k])
      invariant Fits(r.base, ts[..k], cap) && Holds(r.base, ts[..k], r'.base)
    {
      GrowsKeeps(r, r', ids[k]);
      ghost var before := r';
      var kid;
      kid, r' := Promote(r', ids[k], cap);
      NextFits(r.base, ts, k, before.base, r'.base, cap);
      if kid.None? {
        return false, kids, r';
      }
      KidsDenoteGrows(before, r', kids, ts[..k]);
      kids := kids + [kid.value];
    }
    assert ts[..|ids|] == ts;
  }
}
