/** Parser descriptions: an interpreter that inlines references to other parsers over a possibly cyclic table. */
module Descr {
  import opened Options

  type Name = nat

  // An argument that must be a literal.
  datatype Literal<+T> = Good(value: T) | Ill

  // The decoded constructor tree; `Other` is any head or arity the interpreter does not know.
  datatype Desc =
    | Const(alias: Literal<Name>)
    | Unary(alias: Literal<Name>, inner: Desc)
    | Binary(alias: Literal<Name>, a: Desc, b: Desc)
    | NodeOf(kind: Literal<Name>, prec: Literal<nat>, body: Desc)
    | TrailingNodeOf(kind: Literal<Name>, prec: Literal<nat>, lhsPrec: Literal<nat>, body: Desc)
    | SymbolOf(s: Literal<string>)
    | NonReservedOf(s: Literal<string>)
    | Cat(name: Literal<Name>, rbp: Literal<nat>)
    | ParserRef(target: Literal<Name>)
    | NodeWithAntiquot(kind: Literal<Name>, body: Desc)
    | SepBy(one: bool, item: Desc, sep: Literal<string>, allowTrailing: Literal<bool>)
    | UnicodeSymbol(uni: Literal<string>, ascii: Literal<string>)
    | Other

  datatype Prim =
    | Alias(name: Name)
    | Empty
    | Apply1(name: Name, p: Prim)
    | Apply2(name: Name, p: Prim, q: Prim)
    | Node(kind: Name, prec: Option<nat>, body: Prim)
    | TrailingNode(kind: Name, tprec: nat, lhsPrec: nat, body: Prim)
    | Symbol(s: string)
    | NonReservedSymbol(s: string)
    | Category(name: Name, rbp: nat)
    | SepList(one: bool, item: Prim, sep: string, allowTrailing: bool)
    | Either(l: Prim, r: Prim)

  datatype AliasKind = AConst | AEpsilon | AUnary | ATransparent | ABinary

  datatype TypeHead = Leading | Trailing | RawParser | OtherType

  // A constant: `value` is read only from definitions.
  datatype Decl = Decl(isDef: bool, ty: TypeHead, value: Desc)

  datatype Skip = MissingConstant | UnsupportedShape | UnknownAlias(name: Name) | RawParserDecl | Cycle

  datatype Result<+T> = Ok(value: T) | Err(skip: Skip)

  datatype Table = Table(consts: map<Name, Decl>, aliases: map<Name, AliasKind>, trim: string -> string)

  // ----- the reference: inline every reference, `n` deep -----

  function Wrap1(t: Table, alias: Name, p: Prim): Option<Prim> {
    if alias in t.aliases && t.aliases[alias].AUnary? then Some(Apply1(alias, p))
    else if alias in t.aliases && t.aliases[alias].ATransparent? then Some(p)
    else None
  }

  function Inline(t: Table, d: Desc, n: nat): Option<Prim>
    decreases n, 1, d
  {
    match d
    case Const(Good(a)) =>
      if a in t.aliases && t.aliases[a].AConst? then Some(Alias(a))
      else if a in t.aliases && t.aliases[a].AEpsilon? then Some(Empty)
      else None
    case Unary(Good(a), inner) =>
      var p := Inline(t, inner, n);
      if p.Some? then Wrap1(t, a, p.value) else None
    case Binary(Good(a), x, y) =>
      var p, q := Inline(t, x, n), Inline(t, y, n);
      if p.Some? && q.Some? && a in t.aliases && t.aliases[a].ABinary? then Some(Apply2(a, p.value, q.value)) else None
    case NodeOf(Good(k), Good(prec), body) =>
      var p := Inline(t, body, n);
      if p.Some? then Some(Node(k, Some(prec), p.value)) else None
    case TrailingNodeOf(Good(k), Good(prec), Good(lhs), body) =>
      var p := Inline(t, body, n);
      if p.Some? then Some(TrailingNode(k, prec, lhs, p.value)) else None
    case SymbolOf(Good(s)) => Some(Symbol(t.trim(s)))
    case NonReservedOf(Good(s)) => Some(NonReservedSymbol(t.trim(s)))
    case Cat(Good(name), Good(rbp)) => Some(Category(name, rbp))
    case ParserRef(Good(target)) => InlineDecl(t, target, n)
    case NodeWithAntiquot(Good(k), body) =>
      var p := Inline(t, body, n);
      if p.Some? then Some(Node(k, None, p.value)) else None
    case SepBy(one, item, Good(sep), Good(trailing)) =>
      var p := Inline(t, item, n);
      if p.Some? then Some(SepList(one, p.value, t.trim(sep), trailing)) else None
    case UnicodeSymbol(Good(u), Good(a)) => Some(Either(Symbol(t.trim(u)), Symbol(t.trim(a))))
    case _ => None
  }

  function InlineDecl(t: Table, c: Name, n: nat): Option<Prim>
    decreases n, 0
  {
    if n == 0 || c !in t.consts || !t.consts[c].isDef
      || !(t.consts[c].ty.Leading? || t.consts[c].ty.Trailing?) then None
    else Inline(t, t.consts[c].value, n - 1)
  }

  lemma {:induction false} InlineMore(t: Table, d: Desc, m: nat, n: nat)
    requires m <= n && Inline(t, d, m).Some?
    ensures Inline(t, d, n) == Inline(t, d, m)
    decreases m, d
  {
    match d
    case Unary(_, x) => InlineMore(t, x, m, n);
    case Binary(_, x, y) => InlineMore(t, x, m, n); InlineMore(t, y, m, n);
    case NodeOf(_, _, x) => InlineMore(t, x, m, n);
    case TrailingNodeOf(_, _, _, x) => InlineMore(t, x, m, n);
    case NodeWithAntiquot(_, x) => InlineMore(t, x, m, n);
    case SepBy(_, x, _, _) => InlineMore(t, x, m, n);
    case ParserRef(Good(c)) => InlineMore(t, t.consts[c].value, m - 1, n - 1);
    case _ =>
  }

  lemma {:induction false} BothInline(t: Table, a: Name, x: Desc, y: Desc, m: nat, n: nat)
    requires Inline(t, x, m).Some? && Inline(t, y, n).Some? && a in t.aliases && t.aliases[a].ABinary?
    ensures Inline(t, Binary(Good(a), x, y), m + n) == Some(Apply2(a, Inline(t, x, m).value, Inline(t, y, n).value))
  {
    InlineMore(t, x, m, m + n);
    InlineMore(t, y, n, m + n);
  }

  // ----- the reference graph -----

  function RefsOf(d: Desc): set<Name> {
    match d
    case Unary(_, x) => RefsOf(x)
    case Binary(_, x, y) => RefsOf(x) + RefsOf(y)
    case NodeOf(_, _, x) => RefsOf(x)
    case TrailingNodeOf(_, _, _, x) => RefsOf(x)
    case NodeWithAntiquot(_, x) => RefsOf(x)
    case SepBy(_, x, _, _) => RefsOf(x)
    case ParserRef(Good(c)) => {c}
    case _ => {}
  }

  ghost predicate Refers(t: Table, a: Name, b: Name) {
    a in t.consts && b in RefsOf(t.consts[a].value)
  }

  ghost predicate Chain(t: Table, p: seq<Name>) {
    forall k :: 0 <= k < |p| - 1 ==> Refers(t, p[k], p[k + 1])
  }

  ghost predicate OnCycle(t: Table, c: Name) {
    exists p :: Chain(t, p) && |p| >= 2 && p[0] == c && p[|p| - 1] == c
  }

  // Whatever a description refers to must inline, one level less deep.
  lemma {:induction false} RefsInline(t: Table, d: Desc, n: nat, c: Name)
    requires Inline(t, d, n).Some? && c in RefsOf(d)
    ensures InlineDecl(t, c, n).Some?
  {
    match d
    case Unary(_, x) => RefsInline(t, x, n, c);
    case Binary(_, x, y) => if c in RefsOf(x) { RefsInline(t, x, n, c); } else { RefsInline(t, y, n, c); }
    case NodeOf(_, _, x) => RefsInline(t, x, n, c);
    case TrailingNodeOf(_, _, _, x) => RefsInline(t, x, n, c);
    case NodeWithAntiquot(_, x) => RefsInline(t, x, n, c);
    case SepBy(_, x, _, _) => RefsInline(t, x, n, c);
    case ParserRef(_) =>
  }

  lemma {:induction false} ChainInlines(t: Table, p: seq<Name>, n: nat, k: nat)
    requires Chain(t, p) && k < |p| && InlineDecl(t, p[0], n).Some?
    ensures k < n && InlineDecl(t, p[k], n - k).Some?
  {
    if k > 0 {
      ChainInlines(t, p, n, k - 1);
      assert Refers(t, p[k - 1], p[k - 1 + 1]);
      RefsInline(t, t.consts[p[k - 1]].value, n - k, p[k]);
    }
  }

  // Nothing on a reference cycle inlines, however deep one goes.
  lemma {:induction false} CycleNeverInlines(t: Table, c: Name, n: nat)
    requires OnCycle(t, c)
    ensures InlineDecl(t, c, n).None?
    decreases n
  {
    if InlineDecl(t, c, n).Some? {
      var p :| Chain(t, p) && |p| >= 2 && p[0] == c && p[|p| - 1] == c;
      ChainInlines(t, p, n, |p| - 1);
      CycleNeverInlines(t, c, n - (|p| - 1));
    }
  }

  // A description that inlines reaches no reference cycle.
  lemma {:induction false} InlineIsAcyclic(t: Table, d: Desc, n: nat, p: seq<Name>)
    requires Inline(t, d, n).Some? && Chain(t, p) && p != [] && p[0] in RefsOf(d)
    ensures !OnCycle(t, p[|p| - 1])
  {
    RefsInline(t, d, n, p[0]);
    ChainInlines(t, p, n, |p| - 1);
    if OnCycle(t, p[|p| - 1]) {
      CycleNeverInlines(t, p[|p| - 1], n - (|p| - 1));
    }
  }

  // ----- the interpreter -----

  ghost predicate NeverInlines(t: Table, d: Desc) {
    forall n: nat :: Inline(t, d, n).None?
  }

  ghost predicate NeverInlinesDecl(t: Table, c: Name) {
    forall n: nat :: InlineDecl(t, c, n).None?
  }

  // A reference cycle that can be reached from one of `roots`.
  ghost predicate ReachesCycle(t: Table, roots: set<Name>) {
    exists p :: Chain(t, p) && p != [] && p[0] in roots && OnCycle(t, p[|p| - 1])
  }

  // ----- why an interpretation fails -----

  function AliasesOf(d: Desc): set<Name> {
    match d
    case Const(Good(a)) => {a}
    case Unary(a, x) => (if a.Good? then {a.value} else {}) + AliasesOf(x)
    case Binary(a, x, y) => (if a.Good? then {a.value} else {}) + AliasesOf(x) + AliasesOf(y)
    case NodeOf(_, _, x) => AliasesOf(x)
    case TrailingNodeOf(_, _, _, x) => AliasesOf(x)
    case NodeWithAntiquot(_, x) => AliasesOf(x)
    case SepBy(_, x, _, _) => AliasesOf(x)
    case _ => {}
  }

  // The alias is known, but takes another number of arguments.
  predicate WrongArity(t: Table, alias: Literal<Name>, args: nat) {
    alias.Ill? || (alias.value in t.aliases && match t.aliases[alias.value]
                                               case AConst => args != 0
                                               case AEpsilon => args != 0
                                               case AUnary => args != 1
                                               case ATransparent => args != 1
                                               case ABinary => args != 2)
  }

  // Some part of the description itself is not of a shape that can be interpreted.
  predicate BadShape(t: Table, d: Desc) {
    match d
    case Const(a) => WrongArity(t, a, 0)
    case Unary(a, x) => WrongArity(t, a, 1) || BadShape(t, x)
    case Binary(a, x, y) => WrongArity(t, a, 2) || BadShape(t, x) || BadShape(t, y)
    case NodeOf(k, p, x) => k.Ill? || p.Ill? || BadShape(t, x)
    case TrailingNodeOf(k, p, l, x) => k.Ill? || p.Ill? || l.Ill? || BadShape(t, x)
    case SymbolOf(x) => x.Ill?
    case NonReservedOf(x) => x.Ill?
    case Cat(n, p) => n.Ill? || p.Ill?
    case ParserRef(c) => c.Ill?
    case NodeWithAntiquot(k, x) => k.Ill? || BadShape(t, x)
    case SepBy(_, x, sep, trailing) => sep.Ill? || trailing.Ill? || BadShape(t, x)
    case UnicodeSymbol(u, a) => u.Ill? || a.Ill?
    case Other => true
  }

  // The description itself is to blame.
  predicate HereReason(t: Table, d: Desc, e: Skip) {
    match e
    case UnknownAlias(a) => a in AliasesOf(d) && a !in t.aliases
    case UnsupportedShape => BadShape(t, d)
    case _ => false
  }

  // The constant, if it is one, is to blame.
  ghost predicate ConstReason(t: Table, c: Name, e: Skip) {
    match e
    case MissingConstant => c !in t.consts
    case RawParserDecl => c in t.consts && t.consts[c].isDef && t.consts[c].ty.RawParser?
    case UnsupportedShape =>
      c in t.consts && (!t.consts[c].isDef || t.consts[c].ty.OtherType? || HereReason(t, t.consts[c].value, e))
    case UnknownAlias(_) => c in t.consts && HereReason(t, t.consts[c].value, e)
    case Cycle => OnCycle(t, c)
  }

  ghost predicate ReachesBlame(t: Table, roots: set<Name>, e: Skip) {
    exists p :: Chain(t, p) && p != [] && p[0] in roots && ConstReason(t, p[|p| - 1], e)
  }

  // An error is about the description or about a constant it refers to, directly or through others.
  ghost predicate Justified(t: Table, d: Desc, e: Skip) {
    HereReason(t, d, e) || ReachesBlame(t, RefsOf(d), e)
  }

  lemma {:induction false} PartToBlame(t: Table, part: Desc, d: Desc, e: Skip)
    requires Justified(t, part, e) && RefsOf(part) <= RefsOf(d) && AliasesOf(part) <= AliasesOf(d)
    requires BadShape(t, part) ==> BadShape(t, d)
    ensures Justified(t, d, e)
  {
  }

  lemma {:induction false} BinaryPartFails(t: Table, a: Name, x: Desc, y: Desc, left: bool, e: Skip)
    requires var part := if left then x else y; NeverInlines(t, part) && Justified(t, part, e)
    ensures NeverInlines(t, Binary(Good(a), x, y)) && Justified(t, Binary(Good(a), x, y), e)
  {
    PartToBlame(t, if left then x else y, Binary(Good(a), x, y), e);
  }

  lemma {:induction false} BinaryAliasFails(t: Table, a: Name, x: Desc, y: Desc)
    requires a !in t.aliases || !t.aliases[a].ABinary?
    ensures NeverInlines(t, Binary(Good(a), x, y))
    ensures Justified(t, Binary(Good(a), x, y), if a in t.aliases then UnsupportedShape else UnknownAlias(a))
  {
  }

  lemma {:induction false} BlameThrough(t: Table, c: Name, e: Skip)
    requires c in t.consts && t.consts[c].isDef && Justified(t, t.consts[c].value, e)
    ensures ReachesBlame(t, {c}, e)
  {
    if HereReason(t, t.consts[c].value, e) {
      BlameHere(t, c, e);
    } else {
      var p :| Chain(t, p) && p != [] && p[0] in RefsOf(t.consts[c].value) && ConstReason(t, p[|p| - 1], e);
      var q := [c] + p;
      forall k | 0 <= k < |q| - 1 ensures Refers(t, q[k], q[k + 1]) {
        if k > 0 { assert Refers(t, p[k - 1], p[k - 1 + 1]); }
      }
      assert Chain(t, q) && q[0] in {c} && q[|q| - 1] == p[|p| - 1];
    }
  }

  lemma {:induction false} BlameHere(t: Table, c: Name, e: Skip)
    requires ConstReason(t, c, e)
    ensures ReachesBlame(t, {c}, e)
  {
    var p := [c];
    assert Chain(t, p) && p != [] && p[0] in {c} && p[|p| - 1] == c;
  }

  lemma {:induction false} CycleBlame(t: Table, roots: set<Name>)
    ensures ReachesCycle(t, roots) <==> ReachesBlame(t, roots, Cycle)
  {
    if ReachesCycle(t, roots) {
      var p :| Chain(t, p) && p != [] && p[0] in roots && OnCycle(t, p[|p| - 1]);
      assert ConstReason(t, p[|p| - 1], Cycle);
    }
  }

  class Cx {
    const t: Table
    var visiting: set<Name>

    constructor (t: Table)
      ensures this.t == t && visiting == {}
    {
      this.t, visiting := t, {};
    }

    // `chain` is how the interpreter got here: the constants being interpreted, outermost first.
    ghost predicate Here(chain: seq<Name>, refs: set<Name>) reads this {
      && Chain(t, chain)
      && (forall c :: c in visiting <==> c in chain)
      && (chain != [] ==> chain[|chain| - 1] in t.consts && refs <= RefsOf(t.consts[chain[|chain| - 1]].value))
    }

    ghost predicate Answers(d: Desc, r: Result<Prim>, n: nat) reads this {
      match r
      case Ok(p) => Inline(t, d, n) == Some(p)
      case Err(e) => NeverInlines(t, d) && Justified(t, d, e)
    }

    /** `descr`: an `Ok` is the full inlining, an `Err` means there is none, `visiting` is restored either way. */
    method Interpret(d: Desc, ghost chain: seq<Name>) returns (r: Result<Prim>, ghost n: nat)
      requires Here(chain, RefsOf(d))
      modifies this
      ensures visiting == old(visiting) && Answers(d, r, n)
      decreases |t.consts.Keys - visiting|, 1, d, 1
    {
      n := 0;
      match d {
        case Const(alias) =>
          if alias.Ill? { return Err(UnsupportedShape), n; }
          var a := alias.value;
          if a !in t.aliases { return Err(UnknownAlias(a)), n; }
          match t.aliases[a] {
            case AConst => return Ok(Alias(a)), n;
            case AEpsilon => return Ok(Empty), n;
            case _ => return Err(UnsupportedShape), n;
          }
        case Unary(alias, inner) =>
          r, n := InterpretUnary(alias, inner, chain);
        case Binary(alias, x, y) =>
          r, n := InterpretBinary(alias, x, y, chain);
        case NodeOf(kind, prec, body) =>
          if kind.Ill? || prec.Ill? { return Err(UnsupportedShape), n; }
          r, n := Interpret(body, chain);
          if r.Ok? { r := Ok(Node(kind.value, Some(prec.value), r.value)); } else { PartToBlame(t, body, d, r.skip); }
        case TrailingNodeOf(kind, prec, lhs, body) =>
          if kind.Ill? || prec.Ill? || lhs.Ill? { return Err(UnsupportedShape), n; }
          r, n := Interpret(body, chain);
          if r.Ok? { r := Ok(TrailingNode(kind.value, prec.value, lhs.value, r.value)); }
            else { PartToBlame(t, body, d, r.skip); }
        case SymbolOf(s) =>
          return if s.Ill? then Err(UnsupportedShape) else Ok(Symbol(t.trim(s.value))), n;
        case NonReservedOf(s) =>
          return if s.Ill? then Err(UnsupportedShape) else Ok(NonReservedSymbol(t.trim(s.value))), n;
        case Cat(name, rbp) =>
          return if name.Ill? || rbp.Ill? then Err(UnsupportedShape) else Ok(Category(name.value, rbp.value)), n;
        case ParserRef(target) =>
          if target.Ill? { return Err(UnsupportedShape), n; }
          r, n := Follow(target.value, chain);
        case NodeWithAntiquot(kind, body) =>
          if kind.Ill? { return Err(UnsupportedShape), n; }
          r, n := Interpret(body, chain);
          if r.Ok? { r := Ok(Node(kind.value, None, r.value)); } else { PartToBlame(t, body, d, r.skip); }
        case SepBy(one, item, sep, trailing) =>
          r, n := Interpret(item, chain);
          if r.Ok? {
            if sep.Ill? || trailing.Ill? { return Err(UnsupportedShape), n; }
            r := Ok(SepList(one, r.value, t.trim(sep.value), trailing.value));
          } else {
            PartToBlame(t, item, d, r.skip);
          }
        case UnicodeSymbol(uni, ascii) =>
          if uni.Ill? || ascii.Ill? { return Err(UnsupportedShape), n; }
          return Ok(Either(Symbol(t.trim(uni.value)), Symbol(t.trim(ascii.value)))), n;
        case Other => return Err(UnsupportedShape), n;
      }
    }

    method InterpretUnary(alias: Literal<Name>, inner: Desc, ghost chain: seq<Name>)
      returns (r: Result<Prim>, ghost n: nat)
      requires Here(chain, RefsOf(inner))
      modifies this
      ensures visiting == old(visiting) && Answers(Unary(alias, inner), r, n)
      decreases |t.consts.Keys - visiting|, 1, Unary(alias, inner), 0
    {
      n := 0;
      if alias.Ill? { return Err(UnsupportedShape), n; }
      var a := alias.value;
      assert RefsOf(Unary(alias, inner)) == RefsOf(inner);
      r, n := Interpret(inner, chain);
      if r.Err? {
        PartToBlame(t, inner, Unary(alias, inner), r.skip);
        return;
      }
      if a !in t.aliases { return Err(UnknownAlias(a)), n; }
      match t.aliases[a] {
        case AUnary => return Ok(Apply1(a, r.value)), n;
        case ATransparent => return r, n;
        case _ => return Err(UnsupportedShape), n;
      }
    }

    method InterpretBinary(alias: Literal<Name>, x: Desc, y: Desc, ghost chain: seq<Name>)
      returns (r: Result<Prim>, ghost n: nat)
      requires Here(chain, RefsOf(x) + RefsOf(y))
      modifies this
      ensures visiting == old(visiting) && Answers(Binary(alias, x, y), r, n)
      decreases |t.consts.Keys - visiting|, 1, Binary(alias, x, y), 0
    {
      n := 0;
      if alias.Ill? { return Err(UnsupportedShape), n; }
      var a := alias.value;
      var p, q;
      ghost var m;
      p, m := Interpret(x, chain);
      if p.Err? {
        BinaryPartFails(t, a, x, y, true, p.skip);
        return p, n;
      }
      q, n := Interpret(y, chain);
      if q.Err? {
        BinaryPartFails(t, a, x, y, false, q.skip);
        return q, n;
      }
      if a in t.aliases && t.aliases[a].ABinary? {
        BothInline(t, a, x, y, m, n);
        return Ok(Apply2(a, p.value, q.value)), m + n;
      }
      BinaryAliasFails(t, a, x, y);
      return Err(if a in t.aliases then UnsupportedShape else UnknownAlias(a)), n;
    }

    // The `parser` arm: refuse a constant that is being interpreted, and take it off again afterwards.
    method Follow(target: Name, ghost chain: seq<Name>) returns (r: Result<Prim>, ghost n: nat)
      requires Here(chain, {target})
      modifies this
      ensures visiting == old(visiting) && Answers(ParserRef(Good(target)), r, n)
      decreases |t.consts.Keys - visiting|, 0
    {
      n := 0;
      assert RefsOf(ParserRef(Good(target))) == {target};
      if target !in t.consts {
        BlameHere(t, target, MissingConstant);
        return Err(MissingConstant), n;
      }
      if target in visiting {
        BackEdge(chain, target);
        return Err(Cycle), n;
      }
      Extend(chain, target);
      Fewer(t.consts.Keys, visiting, target);
      visiting := visiting + {target};
      r, n := InterpretDecl(target, chain + [target]);
      visiting := visiting - {target};
    }

    ghost predicate AnswersDecl(c: Name, r: Result<Prim>, n: nat) reads this {
      match r
      case Ok(p) => InlineDecl(t, c, n) == Some(p)
      case Err(e) => NeverInlinesDecl(t, c) && ReachesBlame(t, {c}, e)
    }

    /** `decl`: leading and trailing descriptions are interpreted, everything else is skipped. */
    method InterpretDecl(c: Name, ghost chain: seq<Name>) returns (r: Result<Prim>, ghost n: nat)
      requires Chain(t, chain) && (forall x :: x in visiting <==> x in chain)
               && (chain == [] || chain[|chain| - 1] == c)
      modifies this
      ensures visiting == old(visiting) && AnswersDecl(c, r, n)
      decreases |t.consts.Keys - visiting|, 2
    {
      n := 0;
      if c !in t.consts {
        BlameHere(t, c, MissingConstant);
        return Err(MissingConstant), n;
      }
      var decl := t.consts[c];
      if !decl.isDef {
        BlameHere(t, c, UnsupportedShape);
        return Err(UnsupportedShape), n;
      }
      match decl.ty {
        case RawParser =>
          BlameHere(t, c, RawParserDecl);
          return Err(RawParserDecl), n;
        case OtherType =>
          BlameHere(t, c, UnsupportedShape);
          return Err(UnsupportedShape), n;
        case _ =>
          r, n := Interpret(decl.value, chain);
          if r.Err? { BlameThrough(t, c, r.skip); }
          DeclInlines(c);
          n := n + 1;
      }
    }

    lemma {:induction false} DeclInlines(c: Name)
      requires c in t.consts && t.consts[c].isDef && (t.consts[c].ty.Leading? || t.consts[c].ty.Trailing?)
      ensures NeverInlines(t, t.consts[c].value) ==> NeverInlinesDecl(t, c)
    {
    }

    lemma {:induction false} Extend(chain: seq<Name>, target: Name)
      requires Here(chain, {target})
      ensures Chain(t, chain + [target])
    {
      var p := chain + [target];
      forall k | 0 <= k < |p| - 1 ensures Refers(t, p[k], p[k + 1]) {
        if k < |chain| - 1 { assert Refers(t, chain[k], chain[k + 1]); }
      }
    }

    lemma {:induction false} Fewer(keys: set<Name>, seen: set<Name>, target: Name)
      requires target in keys && target !in seen
      ensures |keys - (seen + {target})| < |keys - seen|
    {
      assert keys - (seen + {target}) == (keys - seen) - {target};
    }

    lemma {:induction false} BackEdge(chain: seq<Name>, target: Name)
      requires Here(chain, {target}) && target in visiting
      ensures OnCycle(t, target) && ReachesBlame(t, {target}, Cycle) && NeverInlines(t, ParserRef(Good(target)))
    {
      var i :| 0 <= i < |chain| && chain[i] == target;
      var p := chain[i..] + [target];
      forall k | 0 <= k < |p| - 1 ensures Refers(t, p[k], p[k + 1]) {
        if k < |p| - 2 {
          assert Refers(t, chain[i + k], chain[i + k + 1]);
        }
      }
      assert Chain(t, p) && |p| >= 2 && p[0] == target && p[|p| - 1] == target;
      forall n: nat ensures InlineDecl(t, target, n).None? {
        CycleNeverInlines(t, target, n);
      }
      BlameHere(t, target, Cycle);
    }
  }

  // The parser goes where the constant's type says.
  datatype Interpreted = AsLeading(p: Prim) | AsTrailing(p: Prim)

  function Placed(ty: TypeHead, p: Prim): Interpreted {
    if ty.Leading? then AsLeading(p) else AsTrailing(p)
  }

  /** `interpret`, from an empty visiting set. */
  method InterpretConstant(t: Table, c: Name) returns (r: Result<Interpreted>, ghost n: nat)
    ensures r.Ok? ==> c in t.consts && InlineDecl(t, c, n) == Some(r.value.p)
    ensures r.Ok? ==> (r.value.AsLeading? <==> t.consts[c].ty.Leading?)
    ensures r.Ok? ==> (r.value.AsTrailing? <==> t.consts[c].ty.Trailing?)
    ensures r.Ok? ==> forall m, p :: InlineDecl(t, c, m) == Some(p) ==> p == r.value.p
    ensures r.Ok? ==> !ReachesCycle(t, {c})
    ensures r.Err? ==> NeverInlinesDecl(t, c) && ReachesBlame(t, {c}, r.skip)
    ensures r == Err(Cycle) ==> ReachesCycle(t, {c})
  {
    var cx := new Cx(t);
    var answer;
    answer, n := cx.InterpretDecl(c, []);
    CycleBlame(t, {c});
    if answer.Err? {
      return Err(answer.skip), n;
    }
    UniqueInline(t, c, n);
    NoCycleBehind(t, c, n);
    r := Ok(Placed(t.consts[c].ty, answer.value));
  }

  lemma {:induction false} UniqueInline(t: Table, c: Name, n: nat)
    requires InlineDecl(t, c, n).Some?
    ensures forall m, p :: InlineDecl(t, c, m) == Some(p) ==> Some(p) == InlineDecl(t, c, n)
  {
    forall m: nat, p | InlineDecl(t, c, m) == Some(p) ensures Some(p) == InlineDecl(t, c, n) {
      if m <= n {
        InlineMore(t, t.consts[c].value, m - 1, n - 1);
      } else {
        InlineMore(t, t.consts[c].value, n - 1, m - 1);
      }
    }
  }

  lemma {:induction false} NoCycleBehind(t: Table, c: Name, n: nat)
    requires InlineDecl(t, c, n).Some?
    ensures !ReachesCycle(t, {c})
  {
    if ReachesCycle(t, {c}) {
      var p :| Chain(t, p) && p != [] && p[0] in {c} && OnCycle(t, p[|p| - 1]);
      ChainInlines(t, p, n, |p| - 1);
      CycleNeverInlines(t, p[|p| - 1], n - (|p| - 1));
    }
  }

  // ----- parsers and their descriptions -----

  // What a description without references can say: aliases of the right number of arguments, trimmed symbols, and a
  // choice only between two symbols.
  predicate Expressible(t: Table, p: Prim) {
    match p
    case Alias(a) => a in t.aliases && t.aliases[a].AConst?
    case Empty => exists a :: a in t.aliases && t.aliases[a].AEpsilon?
    case Apply1(a, x) => a in t.aliases && t.aliases[a].AUnary? && Expressible(t, x)
    case Apply2(a, x, y) => a in t.aliases && t.aliases[a].ABinary? && Expressible(t, x) && Expressible(t, y)
    case Node(_, _, x) => Expressible(t, x)
    case TrailingNode(_, _, _, x) => Expressible(t, x)
    case Symbol(x) => t.trim(x) == x
    case NonReservedSymbol(x) => t.trim(x) == x
    case Category(_, _) => true
    case SepList(_, x, sep, _) => t.trim(sep) == sep && Expressible(t, x)
    case Either(l, r) => l.Symbol? && r.Symbol? && t.trim(l.s) == l.s && t.trim(r.s) == r.s
  }

  // A description of the parser; `nothing` is an alias for the empty one.
  function Describe(p: Prim, nothing: Name): Desc {
    match p
    case Alias(a) => Const(Good(a))
    case Empty => Const(Good(nothing))
    case Apply1(a, x) => Unary(Good(a), Describe(x, nothing))
    case Apply2(a, x, y) => Binary(Good(a), Describe(x, nothing), Describe(y, nothing))
    case Node(kind, prec, x) =>
      if prec.Some? then NodeOf(Good(kind), Good(prec.value), Describe(x, nothing))
      else NodeWithAntiquot(Good(kind), Describe(x, nothing))
    case TrailingNode(kind, tprec, lhsPrec, x) =>
      TrailingNodeOf(Good(kind), Good(tprec), Good(lhsPrec), Describe(x, nothing))
    case Symbol(x) => SymbolOf(Good(x))
    case NonReservedSymbol(x) => NonReservedOf(Good(x))
    case Category(name, rbp) => Cat(Good(name), Good(rbp))
    case SepList(one, x, sep, trailing) => SepBy(one, Describe(x, nothing), Good(sep), Good(trailing))
    case Either(Symbol(l), Symbol(r)) => UnicodeSymbol(Good(l), Good(r))
    case Either(_, _) => Other
  }

  // Reading back what describes a parser gives the parser.
  lemma {:induction false} DescribeReads(t: Table, p: Prim, nothing: Name, n: nat)
    requires Expressible(t, p) && nothing in t.aliases && t.aliases[nothing].AEpsilon?
    ensures Inline(t, Describe(p, nothing), n) == Some(p)
  {
    match p
    case Apply1(_, x) => DescribeReads(t, x, nothing, n);
    case Apply2(_, x, y) => DescribeReads(t, x, nothing, n); DescribeReads(t, y, nothing, n);
    case Node(_, _, x) => DescribeReads(t, x, nothing, n);
    case TrailingNode(_, _, _, x) => DescribeReads(t, x, nothing, n);
    case SepList(_, x, _, _) => DescribeReads(t, x, nothing, n);
    case _ =>
  }

  // And whatever is read can be described: the answer of an interpretation is its own normal form.
  lemma {:induction false} ReadIsExpressible(t: Table, d: Desc, n: nat)
    requires Inline(t, d, n).Some? && forall s :: t.trim(t.trim(s)) == t.trim(s)
    ensures Expressible(t, Inline(t, d, n).value)
    decreases n, d
  {
    match d
    case Unary(_, x) => ReadIsExpressible(t, x, n);
    case Binary(_, x, y) => ReadIsExpressible(t, x, n); ReadIsExpressible(t, y, n);
    case NodeOf(_, _, x) => ReadIsExpressible(t, x, n);
    case TrailingNodeOf(_, _, _, x) => ReadIsExpressible(t, x, n);
    case NodeWithAntiquot(_, x) => ReadIsExpressible(t, x, n);
    case SepBy(_, x, _, _) => ReadIsExpressible(t, x, n);
    case ParserRef(Good(c)) => ReadIsExpressible(t, t.consts[c].value, n - 1);
    case _ =>
  }

  /** A constant that describes a parser is interpreted as that parser. */
  method InterpretDescribed(t: Table, c: Name, p: Prim, nothing: Name) returns (r: Result<Interpreted>)
    requires Expressible(t, p) && nothing in t.aliases && t.aliases[nothing].AEpsilon?
    requires c in t.consts && t.consts[c].isDef && t.consts[c].value == Describe(p, nothing)
    ensures t.consts[c].ty.Leading? ==> r == Ok(AsLeading(p))
    ensures t.consts[c].ty.Trailing? ==> r == Ok(AsTrailing(p))
  {
    ghost var n;
    r, n := InterpretConstant(t, c);
    DescribeReads(t, p, nothing, 0);
    assert t.consts[c].ty.Leading? || t.consts[c].ty.Trailing? ==> InlineDecl(t, c, 1) == Some(p);
  }

  // The description without padding around symbols and without aliases that stand for what they are applied to.
  function Plain(t: Table, d: Desc): Desc {
    match d
    case Unary(a, x) =>
      if a.Good? && a.value in t.aliases && t.aliases[a.value].ATransparent? then Plain(t, x) else Unary(a, Plain(t, x))
    case Binary(a, x, y) => Binary(a, Plain(t, x), Plain(t, y))
    case NodeOf(k, p, x) => NodeOf(k, p, Plain(t, x))
    case TrailingNodeOf(k, p, l, x) => TrailingNodeOf(k, p, l, Plain(t, x))
    case SymbolOf(Good(s)) => SymbolOf(Good(t.trim(s)))
    case NonReservedOf(Good(s)) => NonReservedOf(Good(t.trim(s)))
    case NodeWithAntiquot(k, x) => NodeWithAntiquot(k, Plain(t, x))
    case SepBy(one, x, Good(sep), trailing) => SepBy(one, Plain(t, x), Good(t.trim(sep)), trailing)
    case UnicodeSymbol(Good(u), Good(a)) => UnicodeSymbol(Good(t.trim(u)), Good(t.trim(a)))
    case _ => d
  }

  // Neither makes a difference.
  lemma {:induction false} PlainReads(t: Table, d: Desc, n: nat)
    requires forall s :: t.trim(t.trim(s)) == t.trim(s)
    ensures Inline(t, Plain(t, d), n) == Inline(t, d, n)
  {
    match d
    case Unary(_, x) => PlainReads(t, x, n);
    case Binary(_, x, y) => PlainReads(t, x, n); PlainReads(t, y, n);
    case NodeOf(_, _, x) => PlainReads(t, x, n);
    case TrailingNodeOf(_, _, _, x) => PlainReads(t, x, n);
    case NodeWithAntiquot(_, x) => PlainReads(t, x, n);
    case SepBy(_, x, _, _) => PlainReads(t, x, n);
    case _ =>
  }

  // ----- references -----

  // Every reference to `c` replaced by `v`.
  function Unfold(d: Desc, c: Name, v: Desc): Desc {
    match d
    case Unary(a, x) => Unary(a, Unfold(x, c, v))
    case Binary(a, x, y) => Binary(a, Unfold(x, c, v), Unfold(y, c, v))
    case NodeOf(k, p, x) => NodeOf(k, p, Unfold(x, c, v))
    case TrailingNodeOf(k, p, l, x) => TrailingNodeOf(k, p, l, Unfold(x, c, v))
    case NodeWithAntiquot(k, x) => NodeWithAntiquot(k, Unfold(x, c, v))
    case SepBy(one, x, sep, trailing) => SepBy(one, Unfold(x, c, v), sep, trailing)
    case ParserRef(Good(b)) => if b == c then v else d
    case _ => d
  }

  // A parser constant's references mean its description.
  lemma {:induction false} UnfoldReads(t: Table, d: Desc, c: Name, n: nat)
    requires c in t.consts && t.consts[c].isDef && (t.consts[c].ty.Leading? || t.consts[c].ty.Trailing?)
    ensures Inline(t, d, n).Some? ==> Inline(t, Unfold(d, c, t.consts[c].value), n) == Inline(t, d, n)
    ensures Inline(t, Unfold(d, c, t.consts[c].value), n).Some? ==>
              Inline(t, d, n + 1) == Inline(t, Unfold(d, c, t.consts[c].value), n)
  {
    var v := t.consts[c].value;
    match d
    case Unary(_, x) => UnfoldReads(t, x, c, n);
    case Binary(_, x, y) => UnfoldReads(t, x, c, n); UnfoldReads(t, y, c, n);
    case NodeOf(_, _, x) => UnfoldReads(t, x, c, n);
    case TrailingNodeOf(_, _, _, x) => UnfoldReads(t, x, c, n);
    case NodeWithAntiquot(_, x) => UnfoldReads(t, x, c, n);
    case SepBy(_, x, _, _) => UnfoldReads(t, x, c, n);
    case ParserRef(Good(b)) =>
      assert Inline(t, d, n) == InlineDecl(t, b, n);
      DeeperReads(t, d, n);
      if n > 0 { DeeperReads(t, v, n - 1); }
    case _ => DeeperReads(t, d, n);
  }

  lemma {:induction false} DeeperReads(t: Table, d: Desc, n: nat)
    ensures Inline(t, d, n).Some? ==> Inline(t, d, n + 1) == Inline(t, d, n)
  {
    if Inline(t, d, n).Some? { InlineMore(t, d, n, n + 1); }
  }
}
