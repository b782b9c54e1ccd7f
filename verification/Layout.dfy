/** The pretty-printer: an explicit-stack machine against a printer that decides each group once. */
module Layout {

  // Indentation is a 16-bit number and wraps around like one.
  type U16 = n: nat | n < 0x1_0000

  datatype Doc =
    | Nil
    | Text(s: string)
    | Line
    | Hardline
    | Nest(n: U16, inner: Doc)
    | Group(inner: Doc)
    | Concat(ds: seq<Doc>)

  function Wrap(indent: U16, n: U16): U16 {
    (indent + n) % 0x1_0000
  }

  predicate ContainsHardline(d: Doc) {
    match d
    case Hardline => true
    case Nest(_, inner) => ContainsHardline(inner)
    case Group(inner) => ContainsHardline(inner)
    case Concat(ds) => AnyHardline(ds)
    case _ => false
  }

  predicate AnyHardline(ds: seq<Doc>) {
    ds != [] && (ContainsHardline(ds[0]) || AnyHardline(ds[1..]))
  }

  // ----- the reference printer -----

  // The document on one line.
  function Flat(d: Doc): string {
    match d
    case Nil => ""
    case Text(s) => s
    case Line => " "
    case Hardline => "\n"
    case Nest(_, inner) => Flat(inner)
    case Group(inner) => Flat(inner)
    case Concat(ds) => FlatAll(ds)
  }

  function FlatAll(ds: seq<Doc>): string {
    if ds == [] then "" else Flat(ds[0]) + FlatAll(ds[1..])
  }

  // It fits on the rest of a line that has `remaining` columns left.
  predicate FitsFlat(d: Doc, remaining: int) {
    !ContainsHardline(d) && |Flat(d)| <= remaining
  }

  function Spaces(n: nat): (r: string)
    ensures |r| == n && forall k :: 0 <= k < n ==> r[k] == ' '
  {
    if n == 0 then "" else Spaces(n - 1) + " "
  }

  datatype Printed = Printed(text: string, col: nat)

  // Every group is decided where it starts, and a flat one is flat all the way down.
  function Pretty(d: Doc, indent: U16, col: nat, width: nat): Printed {
    match d
    case Nil => Printed("", col)
    case Text(s) => Printed(s, col + |s|)
    case Line => Printed("\n" + Spaces(indent), indent)
    case Hardline => Printed("\n" + Spaces(indent), indent)
    case Nest(n, inner) => Pretty(inner, Wrap(indent, n), col, width)
    case Group(inner) =>
      if FitsFlat(inner, width - col) then Printed(Flat(inner), col + |Flat(inner)|)
      else Pretty(inner, indent, col, width)
    case Concat(ds) => PrettyAll(ds, indent, col, width)
  }

  function PrettyAll(ds: seq<Doc>, indent: U16, col: nat, width: nat): Printed {
    if ds == [] then Printed("", col) else
      var first := Pretty(ds[0], indent, col, width);
      var rest := PrettyAll(ds[1..], indent, first.col, width);
      Printed(first.text + rest.text, rest.col)
  }

  // ----- fits -----

  function Size(d: Doc): (n: nat)
    ensures n > 0
  {
    match d
    case Nest(_, inner) => 1 + Size(inner)
    case Group(inner) => 1 + Size(inner)
    case Concat(ds) => 1 + SizeAll(ds)
    case _ => 1
  }

  function SizeAll(ds: seq<Doc>): nat {
    if ds == [] then 0 else Size(ds[0]) + SizeAll(ds[1..])
  }

  // Stacks are kept with the top first.
  lemma {:induction false} AllAppend(a: seq<Doc>, b: seq<Doc>)
    ensures FlatAll(a + b) == FlatAll(a) + FlatAll(b)
    ensures AnyHardline(a + b) <==> AnyHardline(a) || AnyHardline(b)
    ensures SizeAll(a + b) == SizeAll(a) + SizeAll(b)
  {
    if a == [] {
      assert a + b == b;
    } else {
      assert (a + b)[1..] == a[1..] + b;
      AllAppend(a[1..], b);
    }
  }

  lemma {:induction false} Single(d: Doc)
    ensures FlatAll([d]) == Flat(d) && (AnyHardline([d]) <==> ContainsHardline(d)) && SizeAll([d]) == Size(d)
  {
    assert [d][1..] == [];
    assert FlatAll([d]) == Flat(d) + "";
  }

  method Fits(d: Doc, width: int) returns (r: bool)
    ensures r == FitsFlat(d, width)
  {
    var remaining := width;
    var stack := [d];
    Single(d);
    while stack != []
      invariant FitsFlat(d, width) <==> !AnyHardline(stack) && |FlatAll(stack)| <= remaining
      decreases SizeAll(stack)
    {
      var top := stack[0];
      if remaining < 0 {
        return false;
      }
      ghost var rest := stack[1..];
      assert FlatAll(stack) == Flat(top) + FlatAll(rest) && SizeAll(stack) == Size(top) + SizeAll(rest);
      stack := stack[1..];
      match top {
        case Nil =>
        case Text(s) => remaining := remaining - |s|;
        case Line => remaining := remaining - 1;
        case Hardline => return false;
        case Nest(_, inner) =>
          AllAppend([inner], rest);
          Single(inner);
          stack := [inner] + stack;
        case Group(inner) =>
          AllAppend([inner], rest);
          Single(inner);
          stack := [inner] + stack;
        case Concat(ds) =>
          AllAppend(ds, rest);
          assert Flat(top) == FlatAll(ds) && Size(top) == 1 + SizeAll(ds);
          stack := ds + stack;
      }
    }
    return remaining >= 0;
  }

  // ----- the machine -----

  datatype Frame = Frame(indent: U16, flat: bool, doc: Doc)

  function Frames(indent: U16, flat: bool, ds: seq<Doc>): (r: seq<Frame>)
    ensures |r| == |ds|
  {
    if ds == [] then [] else [Frame(indent, flat, ds[0])] + Frames(indent, flat, ds[1..])
  }

  function Load(stack: seq<Frame>): nat {
    if stack == [] then 0 else Size(stack[0].doc) + Load(stack[1..])
  }

  // What the frames still have to print.
  function Rest(stack: seq<Frame>, col: nat, width: nat): string {
    if stack == [] then "" else
      var f := stack[0];
      if f.flat then Flat(f.doc) + Rest(stack[1..], col + |Flat(f.doc)|, width)
      else
        var p := Pretty(f.doc, f.indent, col, width);
        p.text + Rest(stack[1..], p.col, width)
  }

  // The flat frames on top come from one group that fits; below them nothing is flat.
  ghost predicate Consistent(stack: seq<Frame>, col: nat, width: nat) {
    stack != [] ==>
      if stack[0].flat then
        !ContainsHardline(stack[0].doc) && col + |Flat(stack[0].doc)| <= width
        && Consistent(stack[1..], col + |Flat(stack[0].doc)|, width)
      else
        NoneFlat(stack)
  }

  predicate NoneFlat(stack: seq<Frame>) {
    stack == [] || (!stack[0].flat && NoneFlat(stack[1..]))
  }

  lemma {:induction false} FlatFramesConsistent(indent: U16, ds: seq<Doc>, rest: seq<Frame>, col: nat, width: nat)
    requires !AnyHardline(ds) && col + |FlatAll(ds)| <= width && Consistent(rest, col + |FlatAll(ds)|, width)
    ensures Consistent(Frames(indent, true, ds) + rest, col, width)
  {
    var stack := Frames(indent, true, ds) + rest;
    if ds == [] {
      assert stack == rest;
    } else {
      assert stack[1..] == Frames(indent, true, ds[1..]) + rest;
      assert |FlatAll(ds)| == |Flat(ds[0])| + |FlatAll(ds[1..])|;
      FlatFramesConsistent(indent, ds[1..], rest, col + |Flat(ds[0])|, width);
    }
  }

  lemma {:induction false} PushFlat(indent: U16, ds: seq<Doc>, rest: seq<Frame>, col: nat, width: nat)
    ensures Rest(Frames(indent, true, ds) + rest, col, width) == FlatAll(ds) + Rest(rest, col + |FlatAll(ds)|, width)
    ensures Load(Frames(indent, true, ds) + rest) == SizeAll(ds) + Load(rest)
  {
    var stack := Frames(indent, true, ds) + rest;
    if ds == [] {
      assert stack == rest;
    } else {
      assert stack[1..] == Frames(indent, true, ds[1..]) + rest;
      assert stack[0] == Frame(indent, true, ds[0]);
      assert |FlatAll(ds)| == |Flat(ds[0])| + |FlatAll(ds[1..])|;
      PushFlat(indent, ds[1..], rest, col + |Flat(ds[0])|, width);
    }
  }

  lemma {:induction false} PushBroken(indent: U16, ds: seq<Doc>, rest: seq<Frame>, col: nat, width: nat)
    requires NoneFlat(rest)
    ensures NoneFlat(Frames(indent, false, ds) + rest)
    ensures Load(Frames(indent, false, ds) + rest) == SizeAll(ds) + Load(rest)
    ensures Rest(Frames(indent, false, ds) + rest, col, width) ==
              PrettyAll(ds, indent, col, width).text + Rest(rest, PrettyAll(ds, indent, col, width).col, width)
  {
    var stack := Frames(indent, false, ds) + rest;
    if ds == [] {
      assert stack == rest;
    } else {
      var first, more := Pretty(ds[0], indent, col, width), Frames(indent, false, ds[1..]) + rest;
      assert stack[1..] == more && stack[0] == Frame(indent, false, ds[0]);
      PushBroken(indent, ds[1..], rest, first.col, width);
      var tail := PrettyAll(ds[1..], indent, first.col, width);
      Associative(first.text, tail.text, Rest(rest, tail.col, width));
    }
  }

  // One document is a list of one.
  lemma {:induction false} One(d: Doc, indent: U16, flat: bool, col: nat, width: nat)
    ensures Frames(indent, flat, [d]) == [Frame(indent, flat, d)]
    ensures PrettyAll([d], indent, col, width) == Pretty(d, indent, col, width)
    ensures FlatAll([d]) == Flat(d) && (AnyHardline([d]) <==> ContainsHardline(d)) && SizeAll([d]) == Size(d)
  {
    Single(d);
    assert [d][1..] == [];
    assert Pretty(d, indent, col, width).text + "" == Pretty(d, indent, col, width).text;
  }

  lemma {:induction false} BelowIsConsistent(rest: seq<Frame>, col: nat, width: nat)
    requires NoneFlat(rest)
    ensures Consistent(rest, col, width)
  {
  }

  method BreakLine(out: string, indent: nat) returns (r: string)
    ensures r == out + ("\n" + Spaces(indent))
  {
    r := out + "\n";
    for k := 0 to indent
      invariant r == out + ("\n" + Spaces(k))
    {
      r := r + " ";
    }
  }

  // What is printed plus what is left is the whole text.
  ghost predicate Going(out: string, stack: seq<Frame>, col: nat, width: nat, goal: string) {
    && out + Rest(stack, col, width) == goal
    && Consistent(stack, col, width)
  }

  // Taking a frame off and putting what it stands for back on.
  lemma {:induction false} Expand(out: string, stack: seq<Frame>, col: nat, width: nat, goal: string,
                                  indent: U16, flat: bool, ds: seq<Doc>)
    requires stack != [] && Going(out, stack, col, width, goal)
    requires flat ==> !AnyHardline(ds) && col + |FlatAll(ds)| <= width
    requires stack[0].flat ==> flat && FlatAll(ds) == Flat(stack[0].doc)
    requires !stack[0].flat && flat ==>
               Pretty(stack[0].doc, stack[0].indent, col, width) == Printed(FlatAll(ds), col + |FlatAll(ds)|)
    requires !stack[0].flat && !flat ==>
               Pretty(stack[0].doc, stack[0].indent, col, width) == PrettyAll(ds, indent, col, width)
    requires SizeAll(ds) < Size(stack[0].doc)
    ensures Going(out, Frames(indent, flat, ds) + stack[1..], col, width, goal)
    ensures Load(Frames(indent, flat, ds) + stack[1..]) < Load(stack)
  {
    var rest := stack[1..];
    if flat && !stack[0].flat { BelowIsConsistent(rest, col + |FlatAll(ds)|, width); }
    Push(indent, flat, ds, rest, col, width);
    ExpandRest(stack, col, width, indent, flat, ds);
    SizeTop(stack);
  }

  lemma {:induction false} SizeTop(stack: seq<Frame>)
    requires stack != []
    ensures Load(stack) == Size(stack[0].doc) + Load(stack[1..])
  {
  }

  lemma {:induction false} ExpandRest(stack: seq<Frame>, col: nat, width: nat, indent: U16, flat: bool, ds: seq<Doc>)
    requires stack != []
    requires stack[0].flat ==> flat && FlatAll(ds) == Flat(stack[0].doc)
    requires !stack[0].flat && flat ==>
               Pretty(stack[0].doc, stack[0].indent, col, width) == Printed(FlatAll(ds), col + |FlatAll(ds)|)
    requires !stack[0].flat && !flat ==>
               Pretty(stack[0].doc, stack[0].indent, col, width) == PrettyAll(ds, indent, col, width)
    ensures Rest(stack, col, width) ==
              if flat then FlatAll(ds) + Rest(stack[1..], col + |FlatAll(ds)|, width)
              else PrettyAll(ds, indent, col, width).text
                   + Rest(stack[1..], PrettyAll(ds, indent, col, width).col, width)
  {
    if flat {
      RestAfter(stack, col, width, FlatAll(ds), col + |FlatAll(ds)|);
    } else {
      var p := PrettyAll(ds, indent, col, width);
      RestAfter(stack, col, width, p.text, p.col);
    }
  }

  lemma {:induction false} Emit(out: string, stack: seq<Frame>, col: nat, width: nat, goal: string, s: string,
                                col': nat)
    requires stack != [] && Going(out, stack, col, width, goal)
    requires stack[0].flat ==> s == Flat(stack[0].doc) && col' == col + |s|
    requires !stack[0].flat ==> Pretty(stack[0].doc, stack[0].indent, col, width) == Printed(s, col')
    ensures Going(out + s, stack[1..], col', width, goal) && Load(stack[1..]) < Load(stack)
  {
    if !stack[0].flat { BelowIsConsistent(stack[1..], col', width); }
    RestAfter(stack, col, width, s, col');
    Associative(out, s, Rest(stack[1..], col', width));
  }

  lemma {:induction false} RestAfter(stack: seq<Frame>, col: nat, width: nat, s: string, col': nat)
    requires stack != []
    requires stack[0].flat ==> s == Flat(stack[0].doc) && col' == col + |s|
    requires !stack[0].flat ==> Pretty(stack[0].doc, stack[0].indent, col, width) == Printed(s, col')
    ensures Rest(stack, col, width) == s + Rest(stack[1..], col', width) && Load(stack[1..]) < Load(stack)
  {
    PopLowers(stack);
    if stack[0].flat { RestAfterFlat(stack, col, width); }
  }

  lemma {:induction false} RestAfterFlat(stack: seq<Frame>, col: nat, width: nat)
    requires stack != [] && stack[0].flat
    ensures var s := Flat(stack[0].doc); Rest(stack, col, width) == s + Rest(stack[1..], col + |s|, width)
  {
  }

  lemma {:induction false} PopLowers(stack: seq<Frame>)
    requires stack != []
    ensures Load(stack[1..]) < Load(stack)
  {
  }

  lemma {:induction false} Associative(a: string, b: string, c: string)
    ensures a + (b + c) == (a + b) + c
  {
  }

  // Replacing the top frame by one frame: a nest's inner document, or a group laid out flat or broken.
  lemma {:induction false} ExpandOne(out: string, stack: seq<Frame>, col: nat, width: nat, goal: string,
                                     indent: U16, flat: bool, inner: Doc)
    requires stack != [] && Going(out, stack, col, width, goal) && Size(inner) < Size(stack[0].doc)
    requires flat ==> !ContainsHardline(inner) && col + |Flat(inner)| <= width
    requires stack[0].flat ==> flat && Flat(inner) == Flat(stack[0].doc)
    requires !stack[0].flat ==>
               Pretty(stack[0].doc, stack[0].indent, col, width) ==
               if flat then Printed(Flat(inner), col + |Flat(inner)|) else Pretty(inner, indent, col, width)
    ensures Going(out, [Frame(indent, flat, inner)] + stack[1..], col, width, goal)
    ensures Load([Frame(indent, flat, inner)] + stack[1..]) < Load(stack)
  {
    One(inner, indent, flat, col, width);
    Expand(out, stack, col, width, goal, indent, flat, [inner]);
  }

  lemma {:induction false} ExpandNest(out: string, stack: seq<Frame>, col: nat, width: nat, goal: string)
    requires stack != [] && Going(out, stack, col, width, goal) && stack[0].doc.Nest?
    ensures var f := stack[0];
            var stack' := [Frame(Wrap(f.indent, f.doc.n), f.flat, f.doc.inner)] + stack[1..];
            Going(out, stack', col, width, goal) && Load(stack') < Load(stack)
  {
    var Frame(indent, flat, doc) := stack[0];
    ExpandOne(out, stack, col, width, goal, Wrap(indent, doc.n), flat, doc.inner);
  }

  lemma {:induction false} ExpandConcat(out: string, stack: seq<Frame>, col: nat, width: nat, goal: string)
    requires stack != [] && Going(out, stack, col, width, goal) && stack[0].doc.Concat?
    ensures var f := stack[0];
            var stack' := Frames(f.indent, f.flat, f.doc.ds) + stack[1..];
            Going(out, stack', col, width, goal) && Load(stack') < Load(stack)
  {
    Expand(out, stack, col, width, goal, stack[0].indent, stack[0].flat, stack[0].doc.ds);
  }

  lemma {:induction false} ExpandGroup(out: string, stack: seq<Frame>, col: nat, width: nat, goal: string, flat: bool)
    requires stack != [] && Going(out, stack, col, width, goal) && stack[0].doc.Group?
    requires var inner := stack[0].doc.inner; flat <==> !ContainsHardline(inner) && FitsFlat(inner, width - col)
    ensures var stack' := [Frame(stack[0].indent, flat, stack[0].doc.inner)] + stack[1..];
            Going(out, stack', col, width, goal) && Load(stack') < Load(stack)
  {
    ExpandOne(out, stack, col, width, goal, stack[0].indent, flat, stack[0].doc.inner);
  }

  lemma {:induction false} EmitText(out: string, stack: seq<Frame>, col: nat, width: nat, goal: string)
    requires stack != [] && Going(out, stack, col, width, goal)
    requires stack[0].doc.Nil? || stack[0].doc.Text? || (stack[0].doc.Line? && stack[0].flat)
    ensures var s := Flat(stack[0].doc);
            Going(out + s, stack[1..], col + |s|, width, goal) && Load(stack[1..]) < Load(stack)
  {
    Emit(out, stack, col, width, goal, Flat(stack[0].doc), col + |Flat(stack[0].doc)|);
  }

  // A line that breaks; inside a flat frame there is no hard line.
  lemma {:induction false} EmitBreak(out: string, stack: seq<Frame>, col: nat, width: nat, goal: string)
    requires stack != [] && Going(out, stack, col, width, goal)
    requires stack[0].doc.Hardline? || (stack[0].doc.Line? && !stack[0].flat)
    ensures Going(out + ("\n" + Spaces(stack[0].indent)), stack[1..], stack[0].indent, width, goal)
    ensures Load(stack[1..]) < Load(stack)
  {
    Emit(out, stack, col, width, goal, "\n" + Spaces(stack[0].indent), stack[0].indent);
  }

  // One turn of the loop on a group: decided where it is met, in a flat surrounding as well.
  method TurnGroup(out: string, stack: seq<Frame>, col: nat, width: nat, ghost goal: string)
    returns (stack': seq<Frame>)
    requires stack != [] && Going(out, stack, col, width, goal) && stack[0].doc.Group?
    ensures Going(out, stack', col, width, goal) && Load(stack') < Load(stack)
  {
    var inner := stack[0].doc.inner;
    var fits := Fits(inner, width - col);
    var flat := !ContainsHardline(inner) && fits;
    ExpandGroup(out, stack, col, width, goal, flat);
    stack' := [Frame(stack[0].indent, flat, inner)] + stack[1..];
  }

  // One turn on a document that holds others.
  method TurnInner(out: string, stack: seq<Frame>, col: nat, width: nat, ghost goal: string)
    returns (stack': seq<Frame>)
    requires stack != [] && Going(out, stack, col, width, goal)
    requires stack[0].doc.Nest? || stack[0].doc.Concat? || stack[0].doc.Group?
    ensures Going(out, stack', col, width, goal) && Load(stack') < Load(stack)
  {
    var Frame(indent, flat, top) := stack[0];
    match top {
      case Nest(n, inner) =>
        ExpandNest(out, stack, col, width, goal);
        stack' := [Frame(Wrap(indent, n), flat, inner)] + stack[1..];
      case Concat(ds) =>
        ExpandConcat(out, stack, col, width, goal);
        stack' := Frames(indent, flat, ds) + stack[1..];
      case Group(inner) =>
        stack' := TurnGroup(out, stack, col, width, goal);
    }
  }

  // One turn on a document that prints something.
  method TurnLeaf(out: string, stack: seq<Frame>, col: nat, width: nat, ghost goal: string)
    returns (out': string, col': nat)
    requires stack != [] && Going(out, stack, col, width, goal)
    requires !stack[0].doc.Nest? && !stack[0].doc.Concat? && !stack[0].doc.Group?
    ensures Going(out', stack[1..], col', width, goal) && Load(stack[1..]) < Load(stack)
  {
    var Frame(indent, flat, top) := stack[0];
    if top.Hardline? || (top.Line? && !flat) {
      EmitBreak(out, stack, col, width, goal);
      out' := BreakLine(out, indent);
      col' := indent;
    } else {
      EmitText(out, stack, col, width, goal);
      var s := if top.Text? then top.s else if top.Line? then " " else "";
      out', col' := out + s, col + |s|;
    }
  }

  /** `layout`: the machine decides every nested group again, and prints what the reference prints. */
  method Layout(doc: Doc, width: nat) returns (out: string)
    ensures out == Pretty(doc, 0, 0, width).text
  {
    ghost var goal := Pretty(doc, 0, 0, width).text;
    out := "";
    var col: nat := 0;
    var stack := [Frame(0, false, doc)];
    StartGoing(doc, width);
    while stack != []
      invariant Going(out, stack, col, width, goal)
      decreases Load(stack)
    {
      if stack[0].doc.Nest? || stack[0].doc.Concat? || stack[0].doc.Group? {
        stack := TurnInner(out, stack, col, width, goal);
      } else {
        out, col := TurnLeaf(out, stack, col, width, goal);
        stack := stack[1..];
      }
    }
  }

  lemma {:induction false} StartGoing(doc: Doc, width: nat)
    ensures Going("", [Frame(0, false, doc)], 0, width, Pretty(doc, 0, 0, width).text)
  {
    var stack := [Frame(0, false, doc)];
    assert stack[1..] == [];
    var p := Pretty(doc, 0, 0, width);
    assert Rest(stack, 0, width) == p.text + "";
  }

  lemma {:induction false} Push(indent: U16, flat: bool, ds: seq<Doc>, rest: seq<Frame>, col: nat, width: nat)
    requires flat ==> !AnyHardline(ds) && col + |FlatAll(ds)| <= width && Consistent(rest, col + |FlatAll(ds)|, width)
    requires !flat ==> NoneFlat(rest)
    ensures var stack := Frames(indent, flat, ds) + rest;
            && Consistent(stack, col, width)
            && Load(stack) == SizeAll(ds) + Load(rest)
            && Rest(stack, col, width) ==
                 if flat then FlatAll(ds) + Rest(rest, col + |FlatAll(ds)|, width)
                 else PrettyAll(ds, indent, col, width).text + Rest(rest, PrettyAll(ds, indent, col, width).col, width)
  {
    if flat {
      FlatFramesConsistent(indent, ds, rest, col, width);
      PushFlat(indent, ds, rest, col, width);
    } else {
      PushBroken(indent, ds, rest, col, width);
      BelowIsConsistent(Frames(indent, flat, ds) + rest, col, width);
    }
  }
}
