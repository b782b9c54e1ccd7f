/** A run of `add_decl_in` that fails and leaves part of a declaration behind: the store has room for the declaration
    and the first survivor but not for the second. */
module HalfAdmission {
  import opened TermStore
  import opened Environment

  function Leaf(tag: nat): Tree { Tree(tag, []) }

  // The kernel's own region: the name of a second constant, which the persistent region does not have.
  const OWN: seq<Row> := [Row(3, [])]

  predicate Persists(base: seq<Row>, id: Id) {
    id.Base? && id.i < |base|
  }

  // The constant it was asked about, in the ids it was asked with, and a generated one of the same type.
  function TwoAxioms(name: Id, ty: Id): (r: seq<Info<Id>>)
    ensures |r| == 2
  {
    [Axiom(Val(name, [], ty), 0), Axiom(Val(Scratch(0), [], ty), 0)]
  }

  function Generates(base: seq<Row>, ids: seq<Id>): Verdict {
    if |ids| == 2 && Persists(base, ids[0]) && Persists(base, ids[1]) && OWN[0] !in base
    then Survivors(OWN, TwoAxioms(ids[0], ids[1]))
    else Rejected
  }

  // Its region is one that interning through the persistent region can make: closed, and no row twice.
  lemma {:induction false} OwnRegion(base: seq<Row>)
    requires Frozen(base)
    ensures Closed(Rows(base, OWN)) && (OWN[0] !in base ==> HashConsed(Rows(base, OWN)))
  {
    var r := Rows(base, []);
    AddScratch(r, OWN[0]);
    assert r.scratch + [OWN[0]] == OWN;
    if OWN[0] !in base {
      forall id {:trigger At(r, id)} | Has(r, id) ensures At(r, id) != OWN[0] {}
    }
  }

  lemma {:induction false} AxiomsInStore(base: seq<Row>, name: Id, ty: Id)
    requires Frozen(base) && Persists(base, name) && Persists(base, ty)
    ensures Closed(Rows(base, OWN)) && AllInStore(Rows(base, OWN), TwoAxioms(name, ty))
    ensures AllInStore(Rows(base, OWN), TwoAxioms(name, ty)[..1])
    ensures InStore(Rows(base, OWN), TwoAxioms(name, ty)[0]) && InStore(Rows(base, OWN), TwoAxioms(name, ty)[1])
  {
    OwnRegion(base);
    var r, infos := Rows(base, OWN), TwoAxioms(name, ty);
    assert infos[..2] == infos && infos[..1] == [infos[0]] && [infos[0]][..0] == [];
    assert InStore(r, infos[0]) && InStore(r, infos[1]);
    assert AllInStore(r, []);
    assert AllInStore(r, [infos[0]]);
  }

  lemma {:induction false} GeneratesOk()
    ensures KernelOk(Generates)
  {
    forall base: seq<Row>, ids: seq<Id> {:trigger Generates(base, ids)} | Frozen(base)
      ensures VerdictOk(base, Generates(base, ids))
    {
      if Generates(base, ids).Survivors? { AxiomsInStore(base, ids[0], ids[1]); }
    }
  }

  // ----- what must be appended -----

  lemma {:induction false} Leaves(a: nat, b: nat)
    ensures SubtermsAll([Leaf(a), Leaf(b)]) == {Leaf(a), Leaf(b)}
  {
    assert [Leaf(a), Leaf(b)][..1] == [Leaf(a)];
    AloneSubterms(Leaf(a));
  }

  lemma {:induction false} AxiomTerms(r: Rows, ci: Info<Id>, name: Id, ty: Id, a: nat, b: nat)
    requires Closed(r) && InStore(r, ci) && Fields(ci) == [name, ty]
    requires Has(r, name) && Has(r, ty) && Denote(r, name) == Leaf(a) && Denote(r, ty) == Leaf(b)
    ensures SubtermsAll(Meaning(r, ci).terms) == {Leaf(a), Leaf(b)}
  {
    assert Meaning(r, ci).terms == [Leaf(a), Leaf(b)];
    Leaves(a, b);
  }

  lemma {:induction false} RoomGrows(r: Rows, ds: seq<Tree>, infos: seq<Info<Id>>, k: nat)
    requires Closed(r) && k < |infos| && AllInStore(r, infos[..k]) && InStore(r, infos[k])
    ensures AllInStore(r, infos[..k + 1])
    ensures SubtermsAll(ds + InfoTerms(r, infos[..k + 1])) ==
              SubtermsAll(ds + InfoTerms(r, infos[..k])) + SubtermsAll(Meaning(r, infos[k]).terms)
  {
    InfoTermsNext(r, infos, k);
    SubtermsConcat(ds, InfoTerms(r, infos[..k]));
    SubtermsConcat(ds, InfoTerms(r, infos[..k + 1]));
    SubtermsConcat(InfoTerms(r, infos[..k]), Meaning(r, infos[k]).terms);
  }

  // The ids stand for the two terms of the declaration.
  ghost predicate Asked(base: seq<Row>, name: Id, ty: Id) {
    && Frozen(base) && Persists(base, name) && Persists(base, ty)
    && Denote(Rows(base, []), name) == Leaf(1) && Denote(Rows(base, []), ty) == Leaf(2)
  }

  lemma {:induction false} AskedInOwn(base: seq<Row>, name: Id, ty: Id)
    requires Asked(base, name, ty)
    ensures var r := Rows(base, OWN);
            && Closed(r) && Has(r, name) && Has(r, ty) && Has(r, Scratch(0))
            && Denote(r, name) == Leaf(1) && Denote(r, ty) == Leaf(2) && Denote(r, Scratch(0)) == Leaf(3)
  {
    OwnRegion(base);
    GrowsKeeps(Rows(base, []), Rows(base, OWN), name);
    GrowsKeeps(Rows(base, []), Rows(base, OWN), ty);
    RowDenotes(Rows(base, OWN), Scratch(0), []);
  }

  lemma {:induction false} SurvivorRoom(base: seq<Row>, name: Id, ty: Id, k: nat)
    requires k < 2 && Asked(base, name, ty)
    ensures var r, infos := Rows(base, OWN), TwoAxioms(name, ty);
            && Closed(r) && InStore(r, infos[k])
            && SubtermsAll(Meaning(r, infos[k]).terms) == if k == 0 then {Leaf(1), Leaf(2)} else {Leaf(3), Leaf(2)}
  {
    AskedInOwn(base, name, ty);
    AxiomsInStore(base, name, ty);
    var r, infos := Rows(base, OWN), TwoAxioms(name, ty);
    if k == 0 { AxiomTerms(r, infos[0], name, ty, 1, 2); } else { AxiomTerms(r, infos[1], Scratch(0), ty, 3, 2); }
  }

  // What must be there for the declaration, and for one or both of its survivors.
  lemma {:induction false} RoomNeeded(base: seq<Row>, name: Id, ty: Id, k: nat)
    requires k <= 2 && Asked(base, name, ty)
    ensures var r, infos := Rows(base, OWN), TwoAxioms(name, ty);
            && Closed(r) && AllInStore(r, infos[..k])
            && SubtermsAll([Leaf(1), Leaf(2)] + InfoTerms(r, infos[..k])) ==
               if k == 2 then {Leaf(1), Leaf(2), Leaf(3)} else {Leaf(1), Leaf(2)}
  {
    if k > 0 {
      RoomNeeded(base, name, ty, k - 1);
      SurvivorRoom(base, name, ty, k - 1);
      RoomGrows(Rows(base, OWN), [Leaf(1), Leaf(2)], TwoAxioms(name, ty), k - 1);
    } else {
      OwnRegion(base);
      Leaves(1, 2);
      assert [Leaf(1), Leaf(2)] + [] == [Leaf(1), Leaf(2)];
    }
  }

  lemma {:induction false} NothingThere()
    ensures Frozen([]) && Terms([]) == {}
  {
  }

  // Two places are enough for the first survivor and not for the second.
  lemma {:induction false} SurvivorFits(base: seq<Row>, name: Id, ty: Id, k: nat)
    requires Frozen([]) && k <= 2 && Asked(base, name, ty)
    ensures SurvivorsFit([], [Leaf(1), Leaf(2)], 2, base, Survivors(OWN, TwoAxioms(name, ty)), k) <==> k < 2
  {
    NothingThere();
    RoomNeeded(base, name, ty, k);
    assert |{Leaf(1), Leaf(2), Leaf(3)}| == 3;
  }

  lemma {:induction false} DeclarationFits()
    ensures Frozen([]) && Fits([], [Leaf(1), Leaf(2)], 2)
  {
    NothingThere();
    Leaves(1, 2);
  }

  // ----- the run -----

  // After the declaration went in, the kernel is asked in two persistent ids and does not find the third row.
  lemma {:induction false} KernelAnswers(asked: (seq<Row>, seq<Id>))
    requires Frozen([]) && Frozen(asked.0) && Holds([], [Leaf(1), Leaf(2)], asked.0)
    requires KidsDenote(Rows(asked.0, []), asked.1, [Leaf(1), Leaf(2)])
    ensures |asked.1| == 2 && Asked(asked.0, asked.1[0], asked.1[1])
    ensures Generates(asked.0, asked.1) == Survivors(OWN, TwoAxioms(asked.1[0], asked.1[1]))
  {
    NothingThere();
    Leaves(1, 2);
    RowIsTerm(asked.0, OWN[0], Leaf(3));
  }

  lemma {:induction false} AskedStays(base: seq<Row>, base': seq<Row>, name: Id, ty: Id)
    requires Asked(base, name, ty) && Frozen(base') && base <= base'
    ensures Asked(base', name, ty)
  {
    GrowsKeeps(Rows(base, []), Rows(base', []), name);
    GrowsKeeps(Rows(base, []), Rows(base', []), ty);
  }

  lemma {:induction false} OnlyOneFits(base: seq<Row>, v: Verdict, asked: (seq<Row>, seq<Id>), r: Outcome)
    requires Frozen([]) && Frozen(base) && asked.0 <= base && RightOutcome([], [Leaf(1), Leaf(2)], 2, base, v, r)
    requires Consulted([], [Leaf(1), Leaf(2)], 2, Generates, asked, v)
    ensures r == BankExhausted(1)
  {
    DeclarationFits();
    KernelAnswers(asked);
    AskedStays(asked.0, base, asked.1[0], asked.1[1]);
    SurvivorFits(base, asked.1[0], asked.1[1], 0);
    SurvivorFits(base, asked.1[0], asked.1[1], 1);
    SurvivorFits(base, asked.1[0], asked.1[1], 2);
  }

  /** With room for two terms the first survivor goes in, the second does not, and the first one stays. */
  method Stays() returns (e: Env, r: Outcome, ghost before: map<Id, Info<Id>>)
    ensures r == BankExhausted(1) && before == map[] && e.constants != before
  {
    e := new Env(2);
    before := e.constants;
    GeneratesOk();
    var scratch := [Row(1, []), Row(2, [])];
    var decl := [Scratch(0), Scratch(1)];
    ghost var rows := Rows([], scratch);
    forall id {:trigger KidsOk(rows, id)} | Has(rows, id) ensures KidsOk(rows, id) {}
    RowDenotes(rows, Scratch(0), []);
    RowDenotes(rows, Scratch(1), []);
    assert DenoteAll(rows, decl) == [Leaf(1), Leaf(2)];
    ghost var added, v, asked;
    r, added, v, asked := e.AddDeclIn(Generates, scratch, decl);
    OnlyOneFits(e.base, v, asked, r);
    InsertedStays(before, added, 0);
  }
}
