/** Kernel expressions with their cached metadata word, and what the word says about the term. */
module ExprData {

  // ----- bits of natural numbers -----

  predicate IsPow2(p: nat) {
    p == 1 || (p > 1 && p % 2 == 0 && IsPow2(p / 2))
  }

  // Bitwise or.
  function Or(x: nat, y: nat): nat {
    if x == 0 && y == 0 then 0 else
      2 * Or(x / 2, y / 2) + if x % 2 == 1 || y % 2 == 1 then 1 else 0
  }

  lemma {:induction false} OrZero(x: nat)
    ensures Or(x, 0) == x && Or(0, x) == x
  {
    if x > 0 { OrZero(x / 2); }
  }

  // Bits that do not overlap add up; `y * p` is `y` shifted left.
  lemma {:induction false} OrDisjoint(x: nat, y: nat, p: nat)
    requires IsPow2(p) && x < p
    ensures Or(x, y * p) == x + y * p
  {
    if p == 1 {
      OrZero(y);
    } else {
      var q := p / 2;
      assert y * p == 2 * (y * q);
      OrDisjoint(x / 2, y, q);
    }
  }

  lemma {:induction false} DivMod(x: nat, y: nat, p: nat)
    requires x < p
    ensures (x + y * p) / p == y && (x + y * p) % p == x
  {
    var n := x + y * p;
    var q, r := n / p, n % p;
    assert n == q * p + r;
    assert (q - y) * p == x - r;
    if q > y {
      assert (q - y) * p >= p by { Grows(q - y, p); }
    } else if q < y {
      assert (y - q) * p >= p by { Grows(y - q, p); }
    }
  }

  lemma {:induction false} Grows(k: nat, p: nat)
    requires k >= 1
    ensures k * p >= p
  {
    if k > 1 { Grows(k - 1, p); assert k * p == (k - 1) * p + p; }
  }

  // Reading the field of size `s` that starts at bit weight `p`.
  lemma {:induction false} FieldAt(lo: nat, f: nat, rest: nat, p: nat, s: nat, w: nat)
    requires lo < p && f < s && w == lo + (f + rest * s) * p
    ensures w / p % s == f
  {
    DivMod(lo, f + rest * s, p);
    DivMod(f, rest, s);
  }

  // ----- the packed word -----

  const SAT: nat := 0xF_FFFF

  type U64 = n: nat | n < 0x1_0000_0000_0000_0000

  datatype Flags = Flags(fvar: bool, exprMVar: bool, levelMVar: bool, levelParam: bool)

  datatype Fields = Fields(hash: U64, range: nat, depth: nat, flags: Flags)

  function Min(a: nat, b: nat): nat { if a < b then a else b }
  function Max(a: nat, b: nat): nat { if a < b then b else a }

  function Bit(b: bool): nat { if b then 1 else 0 }

  function SetIf(w: nat, b: bool, p: nat): nat {
    if b then Or(w, 1 * p) else w
  }

  function SetFlags(w1: nat, flags: Flags): nat {
    var w2 := SetIf(w1, flags.fvar, 0x100_0000_0000);
    var w3 := SetIf(w2, flags.exprMVar, 0x200_0000_0000);
    var w4 := SetIf(w3, flags.levelMVar, 0x400_0000_0000);
    SetIf(w4, flags.levelParam, 0x800_0000_0000)
  }

  // As the source builds it, one `|=` at a time.
  function Pack(f: Fields): nat {
    Or(SetFlags(Or(f.hash % 0x1_0000_0000, f.depth * 0x1_0000_0000), f.flags), Min(f.range, SAT) * 0x1000_0000_0000)
  }

  // The accessors: shift and mask.
  function Read(w: nat): Fields {
    Fields(w % 0x1_0000_0000,
           w / 0x1000_0000_0000 % 0x1_0000_0000,
           w / 0x1_0000_0000 % 256,
           Flags(w / 0x100_0000_0000 % 2 == 1, w / 0x200_0000_0000 % 2 == 1,
                 w / 0x400_0000_0000 % 2 == 1, w / 0x800_0000_0000 % 2 == 1))
  }

  function Exp2(k: nat): (r: nat)
    ensures r > 0
  {
    if k == 0 then 1 else 2 * Exp2(k - 1)
  }

  lemma {:induction false} Exp2IsPow2(k: nat)
    ensures IsPow2(Exp2(k))
  {
    if k > 0 { Exp2IsPow2(k - 1); }
  }

  lemma {:induction false} FieldWeights()
    ensures IsPow2(0x1_0000_0000) && IsPow2(0x100_0000_0000) && IsPow2(0x200_0000_0000)
    ensures IsPow2(0x400_0000_0000) && IsPow2(0x800_0000_0000) && IsPow2(0x1000_0000_0000)
  {
    assert Exp2(8) == 0x100;
    assert Exp2(16) == 0x1_0000;
    assert Exp2(24) == 0x100_0000;
    assert Exp2(32) == 0x1_0000_0000;
    assert Exp2(40) == 0x100_0000_0000;
    assert Exp2(41) == 0x200_0000_0000;
    assert Exp2(42) == 0x400_0000_0000;
    assert Exp2(43) == 0x800_0000_0000;
    assert Exp2(44) == 0x1000_0000_0000;
    Exp2IsPow2(32); Exp2IsPow2(40); Exp2IsPow2(41); Exp2IsPow2(42); Exp2IsPow2(43); Exp2IsPow2(44);
  }

  lemma {:induction false} SetIfAdds(w: nat, b: bool, p: nat)
    requires IsPow2(p) && w < p
    ensures SetIf(w, b, p) == w + Bit(b) * p
  {
    if b { OrDisjoint(w, 1, p); }
  }

  lemma {:induction false} PackSum(f: Fields)
    requires f.depth < 256
    ensures Pack(f) == f.hash % 0x1_0000_0000 + f.depth * 0x1_0000_0000
                       + Bit(f.flags.fvar) * 0x100_0000_0000 + Bit(f.flags.exprMVar) * 0x200_0000_0000
                       + Bit(f.flags.levelMVar) * 0x400_0000_0000 + Bit(f.flags.levelParam) * 0x800_0000_0000
                       + Min(f.range, SAT) * 0x1000_0000_0000
  {
    FieldWeights();
    var w0 := f.hash % 0x1_0000_0000;
    OrDisjoint(w0, f.depth, 0x1_0000_0000);
    var w1 := w0 + f.depth * 0x1_0000_0000;
    var w5 := FlagsSum(w1, f.flags);
    OrDisjoint(w5, Min(f.range, SAT), 0x1000_0000_0000);
  }

  lemma {:induction false} FlagsSum(w1: nat, flags: Flags) returns (w5: nat)
    requires w1 < 0x100_0000_0000
    ensures w5 == w1 + Bit(flags.fvar) * 0x100_0000_0000 + Bit(flags.exprMVar) * 0x200_0000_0000
                  + Bit(flags.levelMVar) * 0x400_0000_0000 + Bit(flags.levelParam) * 0x800_0000_0000
    ensures w5 == SetFlags(w1, flags) < 0x1000_0000_0000
  {
    FieldWeights();
    SetIfAdds(w1, flags.fvar, 0x100_0000_0000);
    var w2 := w1 + Bit(flags.fvar) * 0x100_0000_0000;
    assert w2 < 0x200_0000_0000;
    SetIfAdds(w2, flags.exprMVar, 0x200_0000_0000);
    var w3 := w2 + Bit(flags.exprMVar) * 0x200_0000_0000;
    assert w3 < 0x400_0000_0000;
    SetIfAdds(w3, flags.levelMVar, 0x400_0000_0000);
    var w4 := w3 + Bit(flags.levelMVar) * 0x400_0000_0000;
    assert w4 < 0x800_0000_0000;
    SetIfAdds(w4, flags.levelParam, 0x800_0000_0000);
    w5 := w4 + Bit(flags.levelParam) * 0x800_0000_0000;
  }

  // Packing loses only what lies outside the fields: high hash bits and a range beyond the cap.
  lemma {:induction false} PackLossless(f: Fields)
    requires f.depth < 256
    ensures Pack(f) < 0x1_0000_0000_0000_0000
    ensures Read(Pack(f)) == Fields(f.hash % 0x1_0000_0000, Min(f.range, SAT), f.depth, f.flags)
  {
    PackSum(f);
    var h, r := f.hash % 0x1_0000_0000, Min(f.range, SAT);
    var a, b, c, d := Bit(f.flags.fvar), Bit(f.flags.exprMVar), Bit(f.flags.levelMVar), Bit(f.flags.levelParam);
    Unstack(h, f.depth, a, b, c, d, r, Pack(f));
  }

  lemma {:induction false} Unstack(h: nat, depth: nat, a: nat, b: nat, c: nat, d: nat, r: nat, w: nat)
    requires h < 0x1_0000_0000 && depth < 256 && a < 2 && b < 2 && c < 2 && d < 2 && r <= SAT
    requires w == h + depth * 0x1_0000_0000 + a * 0x100_0000_0000 + b * 0x200_0000_0000
                    + c * 0x400_0000_0000 + d * 0x800_0000_0000 + r * 0x1000_0000_0000
    ensures w < 0x1_0000_0000_0000_0000
    ensures w % 0x1_0000_0000 == h && w / 0x1_0000_0000 % 256 == depth
    ensures w / 0x100_0000_0000 % 2 == a && w / 0x200_0000_0000 % 2 == b
    ensures w / 0x400_0000_0000 % 2 == c && w / 0x800_0000_0000 % 2 == d
    ensures w / 0x1000_0000_0000 % 0x1_0000_0000 == r
  {
    var l1 := h + depth * 0x1_0000_0000;
    var l2 := l1 + a * 0x100_0000_0000;
    var l3 := l2 + b * 0x200_0000_0000;
    var l4 := l3 + c * 0x400_0000_0000;
    var l5 := l4 + d * 0x800_0000_0000;
    DivMod(h, depth + a * 256 + b * 512 + c * 1024 + d * 2048 + r * 4096, 0x1_0000_0000);
    FieldAt(h, depth, a + b * 2 + c * 4 + d * 8 + r * 16, 0x1_0000_0000, 256, w);
    FieldAt(l1, a, b + c * 2 + d * 4 + r * 8, 0x100_0000_0000, 2, w);
    FieldAt(l2, b, c + d * 2 + r * 4, 0x200_0000_0000, 2, w);
    FieldAt(l3, c, d + r * 2, 0x400_0000_0000, 2, w);
    FieldAt(l4, d, r, 0x800_0000_0000, 2, w);
    FieldAt(l5, r, 0, 0x1000_0000_0000, 0x1_0000_0000, w);
  }

  // ----- terms -----

  // Names, literals, metadata maps and binder infos only matter up to equality.
  type Id = nat

  datatype Level =
    | Zero
    | Succ(l: Level)
    | LMax(a: Level, b: Level)
    | LIMax(a: Level, b: Level)
    | Param(n: Id)
    | LMVar(n: Id)

  datatype Expr = Expr(data: nat, node: Node)

  datatype Node =
    | BVar(idx: nat)
    | FVar(id: Id)
    | MVar(id: Id)
    | Sort(level: Level)
    | Const(name: Id, levels: seq<Level>)
    | App(f: Expr, arg: Expr)
    | Lam(binderName: Id, binderType: Expr, body: Expr, info: Id)
    | ForallE(binderName: Id, binderType: Expr, body: Expr, info: Id)
    | LetE(declName: Id, ty: Expr, value: Expr, body: Expr, nonDep: bool)
    | Lit(lit: Id)
    | MData(kv: Id, expr: Expr)
    | Proj(typeName: Id, idx: nat, structure: Expr)

  // Any mixer and any leaf hashes.
  datatype Hashing = Hashing(mix: (U64, U64) -> U64, id: Id -> U64, level: Level -> U64, lossy: nat -> U64)

  predicate LevelHas(l: Level, mvar: bool) {
    match l
    case Zero => false
    case Succ(a) => LevelHas(a, mvar)
    case LMax(a, b) => LevelHas(a, mvar) || LevelHas(b, mvar)
    case LIMax(a, b) => LevelHas(a, mvar) || LevelHas(b, mvar)
    case Param(_) => !mvar
    case LMVar(_) => mvar
  }

  predicate AnyLevelHas(ls: seq<Level>, mvar: bool) {
    ls != [] && (LevelHas(ls[0], mvar) || AnyLevelHas(ls[1..], mvar))
  }

  function LevelsHash(h: Hashing, ls: seq<Level>): U64 {
    if ls == [] then 0 else h.mix(LevelsHash(h, ls[..|ls| - 1]), h.level(ls[|ls| - 1]))
  }

  function BVarRange(idx: nat): nat {
    if idx + 1 < SAT then idx + 1 else SAT
  }

  function CloseOne(range: nat): nat {
    if range >= SAT then SAT else if range == 0 then 0 else range - 1
  }

  // One more than the deepest child, in eight saturating bits.
  function DepthAbove(childrenMax: nat): nat {
    Min(childrenMax + 1, 255)
  }

  function Union(a: Flags, b: Flags): Flags {
    Flags(a.fvar || b.fvar, a.exprMVar || b.exprMVar, a.levelMVar || b.levelMVar, a.levelParam || b.levelParam)
  }

  const NONE := Flags(false, false, false, false)

  function LeafFlags(n: Node): Flags {
    match n
    case FVar(_) => NONE.(fvar := true)
    case MVar(_) => NONE.(exprMVar := true)
    case Sort(l) => Flags(false, false, LevelHas(l, true), LevelHas(l, false))
    case Const(_, ls) => Flags(false, false, AnyLevelHas(ls, true), AnyLevelHas(ls, false))
    case _ => NONE
  }

  // The smart constructors: what is packed for a node, from its children's words.
  function FieldsFor(h: Hashing, n: Node): (r: Fields)
    ensures r.depth < 256
  {
    match n
    case BVar(idx) => Fields(h.mix(7, h.lossy(idx)), BVarRange(idx), 1, NONE)
    case FVar(id) => Fields(h.mix(13, h.id(id)), 0, 1, LeafFlags(n))
    case MVar(id) => Fields(h.mix(17, h.id(id)), 0, 1, LeafFlags(n))
    case Sort(l) => Fields(h.mix(11, h.level(l)), 0, 1, LeafFlags(n))
    case Const(name, ls) => Fields(h.mix(5, h.mix(h.id(name), LevelsHash(h, ls))), 0, 1, LeafFlags(n))
    case Lit(l) => Fields(h.mix(3, h.id(l)), 0, 1, NONE)
    case App(f, a) =>
      var x, y := Read(f.data), Read(a.data);
      var depth := DepthAbove(Max(x.depth, y.depth));
      Fields(h.mix(depth, h.mix(x.hash, y.hash)), Max(x.range, y.range), depth, Union(x.flags, y.flags))
    case Lam(_, t, b, _) => BinderFields(h, Read(t.data), Read(b.data))
    case ForallE(_, t, b, _) => BinderFields(h, Read(t.data), Read(b.data))
    case LetE(_, t, v, b, _) =>
      var x, y, z := Read(t.data), Read(v.data), Read(b.data);
      var depth := DepthAbove(Max(Max(x.depth, y.depth), z.depth));
      Fields(h.mix(depth, h.mix(x.hash, h.mix(y.hash, z.hash))),
             Max(Max(x.range, y.range), CloseOne(z.range)), depth, Union(Union(x.flags, y.flags), z.flags))
    case MData(_, e) =>
      var x := Read(e.data);
      var depth := DepthAbove(x.depth);
      x.(hash := h.mix(depth, x.hash), depth := depth)
    case Proj(tn, i, e) =>
      var x := Read(e.data);
      var depth := DepthAbove(x.depth);
      x.(hash := h.mix(depth, h.mix(h.id(tn), h.mix(h.lossy(i), x.hash))), depth := depth)
  }

  function BinderFields(h: Hashing, x: Fields, y: Fields): (r: Fields)
    ensures r.depth < 256
  {
    var depth := DepthAbove(Max(x.depth, y.depth));
    Fields(h.mix(depth, h.mix(x.hash, y.hash)), Max(x.range, CloseOne(y.range)), depth, Union(x.flags, y.flags))
  }

  function DataFor(h: Hashing, n: Node): nat {
    Pack(FieldsFor(h, n))
  }

  // Built by the smart constructors all the way down.
  predicate Synced(h: Hashing, e: Expr) {
    && e.data == DataFor(h, e.node)
    && match e.node
       case App(f, a) => Synced(h, f) && Synced(h, a)
       case Lam(_, t, b, _) => Synced(h, t) && Synced(h, b)
       case ForallE(_, t, b, _) => Synced(h, t) && Synced(h, b)
       case LetE(_, t, v, b, _) => Synced(h, t) && Synced(h, v) && Synced(h, b)
       case MData(_, x) => Synced(h, x)
       case Proj(_, _, x) => Synced(h, x)
       case _ => true
  }

  // ----- what the word is supposed to say -----

  function Under(range: nat): nat { if range == 0 then 0 else range - 1 }

  // One more than the largest loose bound variable, zero if closed.
  function LooseRange(e: Expr): nat {
    match e.node
    case BVar(idx) => idx + 1
    case App(f, a) => Max(LooseRange(f), LooseRange(a))
    case Lam(_, t, b, _) => Max(LooseRange(t), Under(LooseRange(b)))
    case ForallE(_, t, b, _) => Max(LooseRange(t), Under(LooseRange(b)))
    case LetE(_, t, v, b, _) => Max(Max(LooseRange(t), LooseRange(v)), Under(LooseRange(b)))
    case MData(_, x) => LooseRange(x)
    case Proj(_, _, x) => LooseRange(x)
    case _ => 0
  }

  // Some bound variable, loose or not, is too far out for the field.
  predicate HasHugeBVar(e: Expr) {
    match e.node
    case BVar(idx) => idx + 1 >= SAT
    case App(f, a) => HasHugeBVar(f) || HasHugeBVar(a)
    case Lam(_, t, b, _) => HasHugeBVar(t) || HasHugeBVar(b)
    case ForallE(_, t, b, _) => HasHugeBVar(t) || HasHugeBVar(b)
    case LetE(_, t, v, b, _) => HasHugeBVar(t) || HasHugeBVar(v) || HasHugeBVar(b)
    case MData(_, x) => HasHugeBVar(x)
    case Proj(_, _, x) => HasHugeBVar(x)
    case _ => false
  }

  function Height(e: Expr): (n: nat)
    ensures n > 0
  {
    match e.node
    case App(f, a) => 1 + Max(Height(f), Height(a))
    case Lam(_, t, b, _) => 1 + Max(Height(t), Height(b))
    case ForallE(_, t, b, _) => 1 + Max(Height(t), Height(b))
    case LetE(_, t, v, b, _) => 1 + Max(Max(Height(t), Height(v)), Height(b))
    case MData(_, x) => 1 + Height(x)
    case Proj(_, _, x) => 1 + Height(x)
    case _ => 1
  }

  function Mentioned(e: Expr): Flags {
    match e.node
    case App(f, a) => Union(Mentioned(f), Mentioned(a))
    case Lam(_, t, b, _) => Union(Mentioned(t), Mentioned(b))
    case ForallE(_, t, b, _) => Union(Mentioned(t), Mentioned(b))
    case LetE(_, t, v, b, _) => Union(Union(Mentioned(t), Mentioned(v)), Mentioned(b))
    case MData(_, x) => Mentioned(x)
    case Proj(_, _, x) => Mentioned(x)
    case _ => LeafFlags(e.node)
  }

  function TrueRange(e: Expr): nat {
    if HasHugeBVar(e) then SAT else LooseRange(e)
  }

  ghost predicate FieldsRight(f: Fields, e: Expr) {
    && Min(f.range, SAT) == TrueRange(e)
    && (!HasHugeBVar(e) ==> LooseRange(e) < SAT)
    && f.depth == Min(255, Height(e))
    && f.flags == Mentioned(e)
  }

  // The cached word is right on every term: the range is vouched for exactly when every variable is within reach of
  // the field, and otherwise it is stuck at the cap, where it may still be the true number; depth is the height cut
  // at 255; the flags are what occurs.
  lemma {:induction false} WordIsRight(h: Hashing, e: Expr)
    requires Synced(h, e)
    ensures ReadsRight(Read(e.data), e)
    ensures Read(e.data).range < SAT <==> !HasHugeBVar(e)
    ensures Read(e.data).range < SAT ==> Read(e.data).range == LooseRange(e)
    ensures Read(e.data).range == LooseRange(e) <==> !HasHugeBVar(e) || LooseRange(e) == SAT
    ensures Read(e.data).range >= Min(LooseRange(e), SAT)
    decreases e, 1
  {
    FieldsAreRight(h, e);
    PackLossless(FieldsFor(h, e.node));
  }

  ghost predicate ReadsRight(w: Fields, e: Expr) {
    && w.range == TrueRange(e) && (!HasHugeBVar(e) ==> LooseRange(e) < SAT)
    && w.depth == Min(255, Height(e)) && w.flags == Mentioned(e)
  }

  lemma {:induction false} FieldsAreRight(h: Hashing, e: Expr)
    requires Synced(h, e)
    ensures FieldsRight(FieldsFor(h, e.node), e)
    decreases e, 0
  {
    match e.node
    case App(f, a) =>
      WordIsRight(h, f); WordIsRight(h, a);
      AppRight(h, e, Read(f.data), Read(a.data));
    case Lam(_, t, b, _) =>
      WordIsRight(h, t); WordIsRight(h, b);
      BinderRight(h, e, t, b, Read(t.data), Read(b.data));
    case ForallE(_, t, b, _) =>
      WordIsRight(h, t); WordIsRight(h, b);
      BinderRight(h, e, t, b, Read(t.data), Read(b.data));
    case LetE(_, t, v, b, _) =>
      WordIsRight(h, t); WordIsRight(h, v); WordIsRight(h, b);
      LetRight(h, e, Read(t.data), Read(v.data), Read(b.data));
    case MData(_, x) => WordIsRight(h, x);
    case Proj(_, _, x) => WordIsRight(h, x);
    case _ =>
  }

  lemma {:induction false} AppRight(h: Hashing, e: Expr, x: Fields, y: Fields)
    requires e.node.App? && x == Read(e.node.f.data) && y == Read(e.node.arg.data)
    requires ReadsRight(x, e.node.f) && ReadsRight(y, e.node.arg)
    ensures FieldsRight(FieldsFor(h, e.node), e)
  {
  }

  lemma {:induction false} BinderRight(h: Hashing, e: Expr, t: Expr, b: Expr, x: Fields, y: Fields)
    requires e.node.Lam? || e.node.ForallE?
    requires t == e.node.binderType && b == e.node.body && x == Read(t.data) && y == Read(b.data)
    requires ReadsRight(x, t) && ReadsRight(y, b)
    ensures FieldsRight(FieldsFor(h, e.node), e)
  {
  }

  lemma {:induction false} LetRight(h: Hashing, e: Expr, x: Fields, y: Fields, z: Fields)
    requires e.node.LetE? && x == Read(e.node.ty.data) && y == Read(e.node.value.data) && z == Read(e.node.body.data)
    requires ReadsRight(x, e.node.ty) && ReadsRight(y, e.node.value) && ReadsRight(z, e.node.body)
    ensures FieldsRight(FieldsFor(h, e.node), e)
  {
  }

  // ----- what range, depth and flags mean -----

  // The parts of a node, and whether they stand under its binder.
  function Kids(n: Node): seq<(Expr, bool)> {
    match n
    case App(f, a) => [(f, false), (a, false)]
    case Lam(_, t, b, _) => [(t, false), (b, true)]
    case ForallE(_, t, b, _) => [(t, false), (b, true)]
    case LetE(_, t, v, b, _) => [(t, false), (v, false), (b, true)]
    case MData(_, x) => [(x, false)]
    case Proj(_, _, x) => [(x, false)]
    case _ => []
  }

  // Some occurrence of variable `k`, counted from outside the term, is loose.
  predicate LooseAt(e: Expr, k: nat) {
    if e.node.BVar? then e.node.idx == k else
      exists i :: 0 <= i < |Kids(e.node)| && LooseAt(Kids(e.node)[i].0, k + if Kids(e.node)[i].1 then 1 else 0)
  }

  // The range is one more than the largest loose variable.
  lemma {:induction false} RangeExact(e: Expr)
    ensures forall k: nat :: LooseAt(e, k) ==> k < LooseRange(e)
    ensures LooseRange(e) > 0 ==> LooseAt(e, LooseRange(e) - 1)
  {
    var kids := Kids(e.node);
    forall i | 0 <= i < |kids|
      ensures forall k: nat :: LooseAt(kids[i].0, k) ==> k < LooseRange(kids[i].0)
      ensures LooseRange(kids[i].0) > 0 ==> LooseAt(kids[i].0, LooseRange(kids[i].0) - 1)
    {
      RangeExact(kids[i].0);
    }
    RangeOfKids(e);
    forall k: nat | LooseAt(e, k) ensures k < LooseRange(e) {
      LooseBelow(e, k);
    }
    if LooseRange(e) > 0 { LooseReached(e); }
  }

  function KidRange(kid: (Expr, bool)): nat {
    if kid.1 then Under(LooseRange(kid.0)) else LooseRange(kid.0)
  }

  lemma {:induction false} RangeOfKids(e: Expr)
    ensures forall i :: 0 <= i < |Kids(e.node)| ==> KidRange(Kids(e.node)[i]) <= LooseRange(e)
    ensures !e.node.BVar? && LooseRange(e) > 0 ==>
              exists i :: 0 <= i < |Kids(e.node)| && KidRange(Kids(e.node)[i]) == LooseRange(e)
  {
    var kids := Kids(e.node);
    match e.node
    case App(_, _) => assert KidRange(kids[0]) >= KidRange(kids[1]) || KidRange(kids[1]) >= KidRange(kids[0]);
    case Lam(_, _, _, _) => assert KidRange(kids[0]) >= KidRange(kids[1]) || KidRange(kids[1]) >= KidRange(kids[0]);
    case ForallE(_, _, _, _) => assert KidRange(kids[0]) >= KidRange(kids[1]) || KidRange(kids[1]) >= KidRange(kids[0]);
    case LetE(_, _, _, _, _) => assert KidRange(kids[0]) + KidRange(kids[1]) + KidRange(kids[2]) >= 0;
    case MData(_, _) => assert KidRange(kids[0]) == LooseRange(e);
    case Proj(_, _, _) => assert KidRange(kids[0]) == LooseRange(e);
    case _ =>
  }

  lemma {:induction false} LooseBelow(e: Expr, k: nat)
    requires LooseAt(e, k)
    requires forall i :: 0 <= i < |Kids(e.node)| ==> KidRange(Kids(e.node)[i]) <= LooseRange(e)
    requires forall i :: 0 <= i < |Kids(e.node)| ==>
               forall j: nat :: LooseAt(Kids(e.node)[i].0, j) ==> j < LooseRange(Kids(e.node)[i].0)
    ensures k < LooseRange(e)
  {
    if !e.node.BVar? {
      var i :| 0 <= i < |Kids(e.node)| && LooseAt(Kids(e.node)[i].0, k + if Kids(e.node)[i].1 then 1 else 0);
      assert KidRange(Kids(e.node)[i]) <= LooseRange(e);
    }
  }

  lemma {:induction false} LooseReached(e: Expr)
    requires LooseRange(e) > 0
    requires !e.node.BVar? ==> exists i :: 0 <= i < |Kids(e.node)| && KidRange(Kids(e.node)[i]) == LooseRange(e)
    requires forall i :: 0 <= i < |Kids(e.node)| && LooseRange(Kids(e.node)[i].0) > 0 ==>
               LooseAt(Kids(e.node)[i].0, LooseRange(Kids(e.node)[i].0) - 1)
    ensures LooseAt(e, LooseRange(e) - 1)
  {
    if !e.node.BVar? {
      var i :| 0 <= i < |Kids(e.node)| && KidRange(Kids(e.node)[i]) == LooseRange(e);
      var x := Kids(e.node)[i];
      assert LooseAt(x.0, LooseRange(x.0) - 1);
      assert LooseRange(e) - 1 + (if x.1 then 1 else 0) == LooseRange(x.0) - 1;
    }
  }

  // A term is one higher than its highest part.
  lemma {:induction false} HeightExact(e: Expr)
    ensures forall i :: 0 <= i < |Kids(e.node)| ==> Height(Kids(e.node)[i].0) < Height(e)
    ensures Kids(e.node) == [] ==> Height(e) == 1
    ensures Kids(e.node) != [] ==>
              exists i :: 0 <= i < |Kids(e.node)| && Height(e) == 1 + Height(Kids(e.node)[i].0)
  {
    var kids := Kids(e.node);
    if |kids| > 0 { assert Height(kids[0].0) > 0; }
    if |kids| > 1 { assert Height(kids[1].0) > 0; }
    if |kids| > 2 { assert Height(kids[2].0) > 0; }
  }

  // Some node of the term, at any depth, has one of the four things the flags are about.
  datatype Kind = AnFVar | AnExprMVar | ALevelMVar | ALevelParam

  predicate IsLeaf(n: Node, k: Kind) {
    match k
    case AnFVar => n.FVar?
    case AnExprMVar => n.MVar?
    case ALevelMVar => (n.Sort? && LevelOccurs(n.level, true)) || (n.Const? && SomeLevel(n.levels, true))
    case ALevelParam => (n.Sort? && LevelOccurs(n.level, false)) || (n.Const? && SomeLevel(n.levels, false))
  }

  predicate SomeLevel(ls: seq<Level>, mvar: bool) {
    exists i :: 0 <= i < |ls| && LevelOccurs(ls[i], mvar)
  }

  function LevelKids(l: Level): seq<Level> {
    match l
    case Succ(a) => [a]
    case LMax(a, b) => [a, b]
    case LIMax(a, b) => [a, b]
    case _ => []
  }

  predicate LevelOccurs(l: Level, mvar: bool) {
    (if mvar then l.LMVar? else l.Param?) || exists i :: 0 <= i < |LevelKids(l)| && LevelOccurs(LevelKids(l)[i], mvar)
  }

  predicate Occurs(e: Expr, k: Kind) {
    IsLeaf(e.node, k) || exists i :: 0 <= i < |Kids(e.node)| && Occurs(Kids(e.node)[i].0, k)
  }

  lemma {:induction false} LevelHasExact(l: Level, mvar: bool)
    ensures LevelHas(l, mvar) <==> LevelOccurs(l, mvar)
  {
    var kids := LevelKids(l);
    match l
    case Succ(a) => LevelHasExact(a, mvar); assert kids[0] == a;
    case LMax(a, b) => LevelHasExact(a, mvar); LevelHasExact(b, mvar); assert kids[0] == a && kids[1] == b;
    case LIMax(a, b) => LevelHasExact(a, mvar); LevelHasExact(b, mvar); assert kids[0] == a && kids[1] == b;
    case _ =>
  }

  lemma {:induction false} AnyLevelHasExact(ls: seq<Level>, mvar: bool)
    ensures AnyLevelHas(ls, mvar) <==> SomeLevel(ls, mvar)
  {
    if ls != [] {
      LevelHasExact(ls[0], mvar);
      AnyLevelHasExact(ls[1..], mvar);
      if i :| 0 <= i < |ls| && LevelOccurs(ls[i], mvar) {
        assert i > 0 ==> ls[1..][i - 1] == ls[i];
      }
      if i :| 0 <= i < |ls[1..]| && LevelOccurs(ls[1..][i], mvar) {
        assert ls[i + 1] == ls[1..][i];
      }
    }
  }

  function FlagOf(f: Flags, k: Kind): bool {
    match k
    case AnFVar => f.fvar
    case AnExprMVar => f.exprMVar
    case ALevelMVar => f.levelMVar
    case ALevelParam => f.levelParam
  }

  // Each flag says whether such a leaf occurs anywhere.
  lemma {:induction false} FlagsExact(e: Expr, k: Kind)
    ensures FlagOf(Mentioned(e), k) <==> Occurs(e, k)
  {
    var kids := Kids(e.node);
    if |kids| > 0 { FlagsExact(kids[0].0, k); }
    if |kids| > 1 { FlagsExact(kids[1].0, k); }
    if |kids| > 2 { FlagsExact(kids[2].0, k); }
    match e.node
    case Sort(l) => LevelHasExact(l, true); LevelHasExact(l, false);
    case Const(_, ls) => AnyLevelHasExact(ls, true); AnyLevelHasExact(ls, false);
    case _ =>
  }
}
