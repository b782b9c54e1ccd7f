/** Structural and binder-blind equality of expressions under a recursion budget, and the application spine. */
module ExprEq {
  import opened ExprData

  const MAX_REC_DEPTH: nat := 1_000_000

  datatype Answer = Ok(equal: bool) | DeepRecursion

  // ----- the reference: erase, then compare -----

  // A term without cached words; with `binders` false also without binder names, binder infos and let names.
  datatype Term =
    | Leaf(node: Node)
    | One(kind: nat, a: nat, b: nat, t: Term)
    | Two(kind: nat, a: nat, b: nat, t: Term, u: Term)
    | Three(kind: nat, a: nat, b: nat, t: Term, u: Term, v: Term)

  function Tag(keep: bool, x: nat): nat {
    if keep then x else 0
  }

  function Erase(e: Expr, binders: bool): Term {
    match e.node
    case App(f, a) => Two(0, 0, 0, Erase(f, binders), Erase(a, binders))
    case Lam(n, t, b, i) => Two(1, Tag(binders, n), Tag(binders, i), Erase(t, binders), Erase(b, binders))
    case ForallE(n, t, b, i) => Two(2, Tag(binders, n), Tag(binders, i), Erase(t, binders), Erase(b, binders))
    case LetE(n, t, v, b, d) =>
      Three(0, Tag(binders, n), if d then 1 else 0, Erase(t, binders), Erase(v, binders), Erase(b, binders))
    case MData(kv, x) => One(0, kv, 0, Erase(x, binders))
    case Proj(tn, idx, x) => One(1, tn, idx, Erase(x, binders))
    case _ => Leaf(e.node)
  }

  ghost predicate Same(a: Expr, b: Expr, binders: bool) {
    Erase(a, binders) == Erase(b, binders)
  }

  // ----- cached words, as far as equality relies on them -----

  type Word = Node -> nat

  predicate SyncedBy(word: Word, e: Expr) {
    && e.data == word(e.node)
    && match e.node
       case App(f, a) => SyncedBy(word, f) && SyncedBy(word, a)
       case Lam(_, t, b, _) => SyncedBy(word, t) && SyncedBy(word, b)
       case ForallE(_, t, b, _) => SyncedBy(word, t) && SyncedBy(word, b)
       case LetE(_, t, v, b, _) => SyncedBy(word, t) && SyncedBy(word, v) && SyncedBy(word, b)
       case MData(_, x) => SyncedBy(word, x)
       case Proj(_, _, x) => SyncedBy(word, x)
       case _ => true
  }

  function Stub(e: Expr): Expr { Expr(e.data, Lit(0)) }

  // What a smart constructor may look at: the children's words, and no binder name or info.
  function Skin(n: Node): Node {
    match n
    case App(f, a) => App(Stub(f), Stub(a))
    case Lam(_, t, b, _) => Lam(0, Stub(t), Stub(b), 0)
    case ForallE(_, t, b, _) => ForallE(0, Stub(t), Stub(b), 0)
    case LetE(_, t, v, b, d) => LetE(0, Stub(t), Stub(v), Stub(b), d)
    case MData(kv, x) => MData(kv, Stub(x))
    case Proj(tn, i, x) => Proj(tn, i, Stub(x))
    case _ => n
  }

  ghost predicate Blind(word: Word) {
    forall m, n {:trigger Skin(m), Skin(n)} :: Skin(m) == Skin(n) ==> word(m) == word(n)
  }

  function PackedWord(h: Hashing): Word {
    n => DataFor(h, n)
  }

  // The packed words are such words, for any mixer and any leaf hashes.
  lemma {:induction false} PackedIsBlind(h: Hashing)
    ensures Blind(PackedWord(h))
  {
    forall m, n {:trigger Skin(m), Skin(n)} | Skin(m) == Skin(n) ensures PackedWord(h)(m) == PackedWord(h)(n) {
      SkinSuffices(h, m);
      SkinSuffices(h, n);
    }
  }

  lemma {:induction false} SkinSuffices(h: Hashing, n: Node)
    ensures FieldsFor(h, n) == FieldsFor(h, Skin(n))
  {
    match n
    case App(f, a) => assert Stub(f).data == f.data && Stub(a).data == a.data;
    case Lam(_, t, b, _) => assert Stub(t).data == t.data && Stub(b).data == b.data;
    case ForallE(_, t, b, _) => assert Stub(t).data == t.data && Stub(b).data == b.data;
    case LetE(_, t, v, b, _) => assert Stub(t).data == t.data && Stub(v).data == v.data && Stub(b).data == b.data;
    case MData(_, x) => assert Stub(x).data == x.data;
    case Proj(_, _, x) => assert Stub(x).data == x.data;
    case _ =>
  }

  lemma {:induction false} PackedIsSynced(h: Hashing, e: Expr)
    ensures Synced(h, e) <==> SyncedBy(PackedWord(h), e)
  {
    match e.node
    case App(f, a) => PackedIsSynced(h, f); PackedIsSynced(h, a);
    case Lam(_, t, b, _) => PackedIsSynced(h, t); PackedIsSynced(h, b);
    case ForallE(_, t, b, _) => PackedIsSynced(h, t); PackedIsSynced(h, b);
    case LetE(_, t, v, b, _) => PackedIsSynced(h, t); PackedIsSynced(h, v); PackedIsSynced(h, b);
    case MData(_, x) => PackedIsSynced(h, x);
    case Proj(_, _, x) => PackedIsSynced(h, x);
    case _ =>
  }

  // The cached word never tells equal terms apart, whatever is mixed and however leaves are hashed: not even when
  // they agree only up to binder names and infos.
  lemma {:induction false} WordIgnoresBinders(word: Word, a: Expr, b: Expr)
    requires Blind(word) && SyncedBy(word, a) && SyncedBy(word, b) && Same(a, b, false)
    ensures a.data == b.data
  {
    assert Skin(a.node) == Skin(b.node) ==> a.data == b.data;
    match a.node
    case App(f, g) =>
      WordIgnoresBinders(word, f, b.node.f);
      WordIgnoresBinders(word, g, b.node.arg);
    case Lam(_, t, c, _) =>
      WordIgnoresBinders(word, t, b.node.binderType);
      WordIgnoresBinders(word, c, b.node.body);
    case ForallE(_, t, c, _) =>
      WordIgnoresBinders(word, t, b.node.binderType);
      WordIgnoresBinders(word, c, b.node.body);
    case LetE(_, t, v, c, _) =>
      WordIgnoresBinders(word, t, b.node.ty);
      WordIgnoresBinders(word, v, b.node.value);
      WordIgnoresBinders(word, c, b.node.body);
    case MData(_, e) =>
      WordIgnoresBinders(word, e, b.node.expr);
    case Proj(_, _, e) =>
      WordIgnoresBinders(word, e, b.node.structure);
    case _ =>
  }

  // Equality with binders is finer than equality without.
  lemma {:induction false} BindersRefine(a: Expr, b: Expr)
    requires Same(a, b, true)
    ensures Same(a, b, false)
  {
    match a.node
    case App(f, g) =>
      BindersRefine(f, b.node.f);
      BindersRefine(g, b.node.arg);
    case Lam(_, t, c, _) =>
      BindersRefine(t, b.node.binderType);
      BindersRefine(c, b.node.body);
    case ForallE(_, t, c, _) =>
      BindersRefine(t, b.node.binderType);
      BindersRefine(c, b.node.body);
    case LetE(_, t, v, c, _) =>
      BindersRefine(t, b.node.ty);
      BindersRefine(v, b.node.value);
      BindersRefine(c, b.node.body);
    case MData(_, e) =>
      BindersRefine(e, b.node.expr);
    case Proj(_, _, e) =>
      BindersRefine(e, b.node.structure);
    case _ =>
  }

  // The term with every binder name, binder info and let name blanked, and its words recomputed; nothing else touched.
  function Anonymous(word: Word, e: Expr): Expr {
    var n := match e.node
      case App(f, a) => e.node.(f := Anonymous(word, f), arg := Anonymous(word, a))
      case Lam(_, t, b, _) =>
        e.node.(binderName := 0, info := 0, binderType := Anonymous(word, t), body := Anonymous(word, b))
      case ForallE(_, t, b, _) =>
        e.node.(binderName := 0, info := 0, binderType := Anonymous(word, t), body := Anonymous(word, b))
      case LetE(_, t, v, b, _) =>
        e.node.(declName := 0, ty := Anonymous(word, t), value := Anonymous(word, v), body := Anonymous(word, b))
      case MData(_, x) => e.node.(expr := Anonymous(word, x))
      case Proj(_, _, x) => e.node.(structure := Anonymous(word, x))
      case _ => e.node;
    Expr(word(n), n)
  }

  // Binder-blind equality is equality once these are blanked.
  lemma {:induction false} BlankedAlike(word: Word, a: Expr, b: Expr)
    ensures Same(a, b, false) <==> Anonymous(word, a) == Anonymous(word, b)
  {
    match (a.node, b.node)
    case (App(f, x), App(g, y)) => BlankedAlike(word, f, g); BlankedAlike(word, x, y);
    case (Lam(_, t, c, _), Lam(_, u, d, _)) => BlankedAlike(word, t, u); BlankedAlike(word, c, d);
    case (ForallE(_, t, c, _), ForallE(_, u, d, _)) => BlankedAlike(word, t, u); BlankedAlike(word, c, d);
    case (LetE(_, t, v, c, _), LetE(_, u, w, d, _)) =>
      BlankedAlike(word, t, u); BlankedAlike(word, v, w); BlankedAlike(word, c, d);
    case (MData(_, x), MData(_, y)) => BlankedAlike(word, x, y);
    case (Proj(_, _, x), Proj(_, _, y)) => BlankedAlike(word, x, y);
    case _ =>
  }

  // ----- budgets -----

  // Guarded frames a comparison of this level, or of this term, may open.
  function LevelCost(l: Level): nat {
    match l
    case Succ(a) => 1 + LevelCost(a)
    case LMax(a, b) => 1 + Max(LevelCost(a), LevelCost(b))
    case LIMax(a, b) => 1 + Max(LevelCost(a), LevelCost(b))
    case _ => 0
  }

  function LevelsCost(ls: seq<Level>): nat {
    if ls == [] then 0 else Max(LevelCost(ls[0]), LevelsCost(ls[1..]))
  }

  lemma {:induction false} LevelsCostAt(ls: seq<Level>, k: nat)
    requires k < |ls|
    ensures LevelCost(ls[k]) <= LevelsCost(ls)
  {
    if k > 0 { LevelsCostAt(ls[1..], k - 1); }
  }

  function Cost(e: Expr): nat {
    match e.node
    case Sort(l) => LevelCost(l)
    case Const(_, ls) => LevelsCost(ls)
    case App(f, a) => 1 + Max(Cost(f), Cost(a))
    case Lam(_, t, b, _) => 1 + Max(Cost(t), Cost(b))
    case ForallE(_, t, b, _) => 1 + Max(Cost(t), Cost(b))
    case LetE(_, t, v, b, _) => 1 + Max(Max(Cost(t), Cost(v)), Cost(b))
    case MData(_, x) => 1 + Cost(x)
    case Proj(_, _, x) => 1 + Cost(x)
    case _ => 0
  }

  /** The recursion budget shared by every recursive kernel function. */
  class RecGuard {
    var depth: nat

    constructor ()
      ensures depth == 0
    {
      depth := 0;
    }

    ghost predicate Valid() reads this {
      depth <= MAX_REC_DEPTH
    }

    // `Level::structural_eq`; a shared pointer is a shortcut that may be taken only for equal levels.
    method LevelEq(a: Level, b: Level) returns (r: Answer)
      requires Valid()
      modifies this
      ensures Valid() && depth == old(depth)
      ensures r.Ok? ==> (r.equal <==> a == b)
      ensures depth + Min(LevelCost(a), LevelCost(b)) <= MAX_REC_DEPTH ==> r.Ok?
      decreases a
    {
      var shared: bool :| shared ==> a == b;
      if shared {
        return Ok(true);
      }
      match (a, b) {
        case (Succ(x), Succ(y)) =>
          if depth >= MAX_REC_DEPTH { return DeepRecursion; }
          depth := depth + 1;
          r := LevelEq(x, y);
          depth := depth - 1;
        case (LMax(x, x'), LMax(y, y')) =>
          if depth >= MAX_REC_DEPTH { return DeepRecursion; }
          depth := depth + 1;
          r := LevelEq(x, y);
          if r == Ok(true) {
            r := LevelEq(x', y');
          }
          depth := depth - 1;
        case (LIMax(x, x'), LIMax(y, y')) =>
          if depth >= MAX_REC_DEPTH { return DeepRecursion; }
          depth := depth + 1;
          r := LevelEq(x, y);
          if r == Ok(true) {
            r := LevelEq(x', y');
          }
          depth := depth - 1;
        case (Zero, Zero) => return Ok(true);
        case (Param(m), Param(n)) => return Ok(m == n);
        case (LMVar(m), LMVar(n)) => return Ok(m == n);
        case _ => return Ok(false);
      }
    }

    method LevelsEq(xs: seq<Level>, ys: seq<Level>) returns (r: Answer)
      requires Valid()
      modifies this
      ensures Valid() && depth == old(depth)
      ensures r.Ok? ==> (r.equal <==> xs == ys)
      ensures depth + Min(LevelsCost(xs), LevelsCost(ys)) <= MAX_REC_DEPTH ==> r.Ok?
    {
      if |xs| != |ys| {
        return Ok(false);
      }
      for k := 0 to |xs|
        invariant Valid() && depth == old(depth)
        invariant xs[..k] == ys[..k]
      {
        LevelsCostAt(xs, k);
        LevelsCostAt(ys, k);
        var eq := LevelEq(xs[k], ys[k]);
        if eq != Ok(true) {
          return eq;
        }
      }
      return Ok(true);
    }

    /** `eq_impl`; `binders` tells `structural_eq` from `alpha_eq`. Every `Ok` is right, the budget is restored on
        every exit, and it runs out only if both terms are deeper than what is left of it. */
    method EqImpl(ghost word: Word, a: Expr, b: Expr, binders: bool) returns (r: Answer)
      requires Valid() && Blind(word) && SyncedBy(word, a) && SyncedBy(word, b)
      modifies this
      ensures Valid() && depth == old(depth)
      ensures r.Ok? ==> (r.equal <==> Same(a, b, binders))
      ensures depth + Min(Cost(a), Cost(b)) <= MAX_REC_DEPTH ==> r.Ok?
      decreases Height(a), 2
    {
      var shared: bool :| shared ==> a == b;
      if shared {
        return Ok(true);
      }
      if a.data != b.data {
        WordReject(word, a, b, binders);
        return Ok(false);
      }
      if a.node.Lam? || a.node.ForallE? {
        r := EqBinder(word, a, b, binders);
      } else if a.node.App? || a.node.LetE? {
        r := EqAppOrLet(word, a, b, binders);
      } else if a.node.MData? || a.node.Proj? {
        r := EqWrapper(word, a, b, binders);
      } else {
        r := EqLeaf(a, b, binders);
      }
    }

    /** `structural_eq`: on expressions from the smart constructors it decides identity. */
    method StructuralEq(ghost h: Hashing, a: Expr, b: Expr) returns (r: Answer)
      requires Valid() && Synced(h, a) && Synced(h, b)
      modifies this
      ensures Valid() && depth == old(depth)
      ensures r.Ok? ==> (r.equal <==> a == b)
      ensures depth + Min(Cost(a), Cost(b)) <= MAX_REC_DEPTH ==> r.Ok?
    {
      ghost var word := PackedWord(h);
      PackedIsBlind(h);
      PackedIsSynced(h, a);
      PackedIsSynced(h, b);
      r := EqImpl(word, a, b, true);
      if r == Ok(true) {
        StructuralIsIdentity(word, a, b);
      }
    }

    /** `alpha_eq`: equality up to binder names, binder infos and let names. */
    method AlphaEq(ghost h: Hashing, a: Expr, b: Expr) returns (r: Answer)
      requires Valid() && Synced(h, a) && Synced(h, b)
      modifies this
      ensures Valid() && depth == old(depth)
      ensures r.Ok? ==> (r.equal <==> Same(a, b, false))
      ensures r.Ok? ==> (r.equal <==> Anonymous(PackedWord(h), a) == Anonymous(PackedWord(h), b))
      ensures depth + Min(Cost(a), Cost(b)) <= MAX_REC_DEPTH ==> r.Ok?
    {
      BlankedAlike(PackedWord(h), a, b);
      PackedIsBlind(h);
      PackedIsSynced(h, a);
      PackedIsSynced(h, b);
      r := EqImpl(PackedWord(h), a, b, false);
    }

    // The arms of the match, by kind of node.
    method EqLeaf(a: Expr, b: Expr, binders: bool) returns (r: Answer)
      requires Valid() && Erase(a, binders).Leaf?
      modifies this
      ensures Valid() && depth == old(depth)
      ensures r.Ok? ==> (r.equal <==> Same(a, b, binders))
      ensures depth + Min(Cost(a), Cost(b)) <= MAX_REC_DEPTH ==> r.Ok?
    {
      match (a.node, b.node) {
        case (BVar(i), BVar(j)) => return Ok(i == j);
        case (FVar(m), FVar(n)) => return Ok(m == n);
        case (MVar(m), MVar(n)) => return Ok(m == n);
        case (Sort(k), Sort(l)) => r := LevelEq(k, l);
        case (Const(m, ks), Const(n, ls)) =>
          if m != n {
            return Ok(false);
          }
          r := LevelsEq(ks, ls);
        case (Lit(l), Lit(m)) => return Ok(l == m);
        case _ => return Ok(false);
      }
    }

    method EqBinder(ghost word: Word, a: Expr, b: Expr, binders: bool) returns (r: Answer)
      requires Valid() && Blind(word) && SyncedBy(word, a) && SyncedBy(word, b) && (a.node.Lam? || a.node.ForallE?)
      modifies this
      ensures Valid() && depth == old(depth)
      ensures r.Ok? ==> (r.equal <==> Same(a, b, binders))
      ensures depth + Min(Cost(a), Cost(b)) <= MAX_REC_DEPTH ==> r.Ok?
      decreases Height(a), 1
    {
      match (a.node, b.node) {
        case (Lam(m, t, x, i), Lam(n, u, y, j)) =>
          if binders && (m != n || i != j) {
            return Ok(false);
          }
          r := EqTwo(word, Height(a), t, u, x, y, binders);
        case (ForallE(m, t, x, i), ForallE(n, u, y, j)) =>
          if binders && (m != n || i != j) {
            return Ok(false);
          }
          r := EqTwo(word, Height(a), t, u, x, y, binders);
        case _ => return Ok(false);
      }
    }

    method EqAppOrLet(ghost word: Word, a: Expr, b: Expr, binders: bool) returns (r: Answer)
      requires Valid() && Blind(word) && SyncedBy(word, a) && SyncedBy(word, b) && (a.node.App? || a.node.LetE?)
      modifies this
      ensures Valid() && depth == old(depth)
      ensures r.Ok? ==> (r.equal <==> Same(a, b, binders))
      ensures depth + Min(Cost(a), Cost(b)) <= MAX_REC_DEPTH ==> r.Ok?
      decreases Height(a), 1
    {
      match (a.node, b.node) {
        case (App(f, x), App(g, y)) => r := EqTwo(word, Height(a), f, g, x, y, binders);
        case (LetE(m, t, v, x, c), LetE(n, u, w, y, d)) =>
          if c != d || (binders && m != n) {
            return Ok(false);
          }
          r := EqThree(word, Height(a), t, u, v, w, x, y, binders);
        case _ => return Ok(false);
      }
    }

    method EqWrapper(ghost word: Word, a: Expr, b: Expr, binders: bool) returns (r: Answer)
      requires Valid() && Blind(word) && SyncedBy(word, a) && SyncedBy(word, b) && (a.node.MData? || a.node.Proj?)
      modifies this
      ensures Valid() && depth == old(depth)
      ensures r.Ok? ==> (r.equal <==> Same(a, b, binders))
      ensures depth + Min(Cost(a), Cost(b)) <= MAX_REC_DEPTH ==> r.Ok?
      decreases Height(a), 1
    {
      match (a.node, b.node) {
        case (MData(c, x), MData(d, y)) =>
          if c != d {
            return Ok(false);
          }
          r := EqOne(word, Height(a), x, y, binders);
        case (Proj(m, i, x), Proj(n, j, y)) =>
          if m != n || i != j {
            return Ok(false);
          }
          r := EqOne(word, Height(a), x, y, binders);
        case _ => return Ok(false);
      }
    }

    // One guarded frame around one, two or three comparisons.
    method EqOne(ghost word: Word, ghost n: nat, a: Expr, b: Expr, binders: bool) returns (r: Answer)
      requires Valid() && Blind(word) && SyncedBy(word, a) && SyncedBy(word, b)
      requires Height(a) < n
      modifies this
      ensures Valid() && depth == old(depth)
      ensures r.Ok? ==> (r.equal <==> Same(a, b, binders))
      ensures depth + 1 + Min(Cost(a), Cost(b)) <= MAX_REC_DEPTH ==> r.Ok?
      decreases n, 0
    {
      if depth >= MAX_REC_DEPTH { return DeepRecursion; }
      depth := depth + 1;
      r := EqImpl(word, a, b, binders);
      depth := depth - 1;
    }

    method EqTwo(ghost word: Word, ghost n: nat, a: Expr, b: Expr, x: Expr, y: Expr, binders: bool) returns (r: Answer)
      requires Valid() && Blind(word) && SyncedBy(word, a) && SyncedBy(word, b) && SyncedBy(word, x)
               && SyncedBy(word, y)
      requires Height(a) < n && Height(x) < n
      modifies this
      ensures Valid() && depth == old(depth)
      ensures r.Ok? ==> (r.equal <==> Same(a, b, binders) && Same(x, y, binders))
      ensures depth + 1 + Min(Max(Cost(a), Cost(x)), Max(Cost(b), Cost(y))) <= MAX_REC_DEPTH ==> r.Ok?
      decreases n, 0
    {
      if depth >= MAX_REC_DEPTH { return DeepRecursion; }
      depth := depth + 1;
      r := EqImpl(word, a, b, binders);
      if r == Ok(true) {
        r := EqImpl(word, x, y, binders);
      }
      depth := depth - 1;
    }

    method EqThree(ghost word: Word, ghost n: nat, a: Expr, b: Expr, v: Expr, w: Expr, x: Expr, y: Expr, binders: bool)
      returns (r: Answer)
      requires Valid() && Blind(word) && SyncedBy(word, a) && SyncedBy(word, b) && SyncedBy(word, v)
               && SyncedBy(word, w) && SyncedBy(word, x) && SyncedBy(word, y)
      requires Height(a) < n && Height(v) < n && Height(x) < n
      modifies this
      ensures Valid() && depth == old(depth)
      ensures r.Ok? ==> (r.equal <==> Same(a, b, binders) && Same(v, w, binders) && Same(x, y, binders))
      ensures var left, right := Max(Max(Cost(a), Cost(v)), Cost(x)), Max(Max(Cost(b), Cost(w)), Cost(y));
              depth + 1 + Min(left, right) <= MAX_REC_DEPTH ==> r.Ok?
      decreases n, 0
    {
      if depth >= MAX_REC_DEPTH { return DeepRecursion; }
      depth := depth + 1;
      r := EqImpl(word, a, b, binders);
      if r == Ok(true) {
        r := EqImpl(word, v, w, binders);
        if r == Ok(true) {
          r := EqImpl(word, x, y, binders);
        }
      }
      depth := depth - 1;
    }
  }

  // Different words, different terms, with or without binders.
  lemma {:induction false} WordReject(word: Word, a: Expr, b: Expr, binders: bool)
    requires Blind(word) && SyncedBy(word, a) && SyncedBy(word, b) && a.data != b.data
    ensures !Same(a, b, binders)
  {
    if Same(a, b, binders) {
      if binders { BindersRefine(a, b); }
      WordIgnoresBinders(word, a, b);
    }
  }

  // With binders compared, equal means identical, cached words included.
  lemma {:induction false} StructuralIsIdentity(word: Word, a: Expr, b: Expr)
    requires Blind(word) && SyncedBy(word, a) && SyncedBy(word, b) && Same(a, b, true)
    ensures a == b
  {
    BindersRefine(a, b);
    WordIgnoresBinders(word, a, b);
    match a.node
    case App(f, g) =>
      StructuralIsIdentity(word, f, b.node.f);
      StructuralIsIdentity(word, g, b.node.arg);
    case Lam(_, t, c, _) =>
      StructuralIsIdentity(word, t, b.node.binderType);
      StructuralIsIdentity(word, c, b.node.body);
    case ForallE(_, t, c, _) =>
      StructuralIsIdentity(word, t, b.node.binderType);
      StructuralIsIdentity(word, c, b.node.body);
    case LetE(_, t, v, c, _) =>
      StructuralIsIdentity(word, t, b.node.ty);
      StructuralIsIdentity(word, v, b.node.value);
      StructuralIsIdentity(word, c, b.node.body);
    case MData(_, e) =>
      StructuralIsIdentity(word, e, b.node.expr);
    case Proj(_, _, e) =>
      StructuralIsIdentity(word, e, b.node.structure);
    case _ =>
  }

  // ----- the application spine -----

  function AppOf(word: Word, f: Expr, arg: Expr): Expr {
    Expr(word(App(f, arg)), App(f, arg))
  }

  function Spine(word: Word, f: Expr, args: seq<Expr>): Expr {
    if args == [] then f else AppOf(word, Spine(word, f, args[..|args| - 1]), args[|args| - 1])
  }

  function AppFn(e: Expr): Expr {
    if e.node.App? then AppFn(e.node.f) else e
  }

  method GetAppFn(e: Expr) returns (f: Expr)
    ensures f == AppFn(e)
  {
    f := e;
    while f.node.App?
      invariant AppFn(f) == AppFn(e)
      decreases f
    {
      f := f.node.f;
    }
  }

  // The arguments, first to last; with the head they rebuild the very same expression.
  method GetAppArgs(ghost word: Word, e: Expr) returns (args: seq<Expr>)
    requires SyncedBy(word, e)
    ensures Spine(word, AppFn(e), args) == e && !AppFn(e).node.App?
  {
    var rev: seq<Expr> := [];
    var cur := e;
    while cur.node.App?
      invariant SyncedBy(word, cur) && AppFn(cur) == AppFn(e)
      invariant Spine(word, cur, Reverse(rev)) == e
      decreases cur
    {
      ghost var before := cur;
      rev := rev + [cur.node.arg];
      cur := cur.node.f;
      assert rev[..|rev| - 1] + [rev[|rev| - 1]] == rev;
      SpinePush(word, cur, before.node.arg, Reverse(rev[..|rev| - 1]));
    }
    AppFnIsHead(e);
    args := Reverse(rev);
  }

  lemma {:induction false} AppFnIsHead(e: Expr)
    ensures !AppFn(e).node.App?
  {
    if e.node.App? { AppFnIsHead(e.node.f); }
  }

  function Reverse(s: seq<Expr>): seq<Expr> {
    if s == [] then [] else [s[|s| - 1]] + Reverse(s[..|s| - 1])
  }

  lemma {:induction false} SpinePush(word: Word, f: Expr, x: Expr, args: seq<Expr>)
    ensures Spine(word, AppOf(word, f, x), args) == Spine(word, f, [x] + args)
  {
    if args == [] {
      assert [x] + args == [x];
      assert [x][..0] == [];
    } else {
      SpinePush(word, f, x, args[..|args| - 1]);
      assert ([x] + args)[..|args|] == [x] + args[..|args| - 1];
    }
  }

  method MkAppSpine(word: Word, f: Expr, args: seq<Expr>) returns (r: Expr)
    ensures r == Spine(word, f, args)
  {
    r := f;
    for k := 0 to |args|
      invariant r == Spine(word, f, args[..k])
    {
      assert args[..k + 1][..k] == args[..k];
      r := AppOf(word, r, args[k]);
    }
    assert args[..|args|] == args;
  }

  // Taking the spine of what `mk_app_spine` built gives back head and arguments.
  lemma {:induction false} SpineRoundTrip(word: Word, f: Expr, args: seq<Expr>, g: Expr, args': seq<Expr>)
    requires !f.node.App? && !g.node.App? && Spine(word, f, args) == Spine(word, g, args')
    ensures f == g && args == args'
    decreases |args|
  {
    if args != [] && args' != [] {
      SpineRoundTrip(word, f, args[..|args| - 1], g, args'[..|args'| - 1]);
      assert args == args[..|args| - 1] + [args[|args| - 1]];
      assert args' == args'[..|args'| - 1] + [args'[|args'| - 1]];
    }
  }
}
