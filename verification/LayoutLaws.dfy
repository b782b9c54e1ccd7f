/** What the printed text promises, whatever the width. */
module LayoutLaws {
  import opened Layout

  // No text smuggles a line break in.
  predicate Clean(d: Doc) {
    match d
    case Text(s) => '\n' !in s
    case Nest(_, inner) => Clean(inner)
    case Group(inner) => Clean(inner)
    case Concat(ds) => AllClean(ds)
    case _ => true
  }

  predicate AllClean(ds: seq<Doc>) {
    ds == [] || (Clean(ds[0]) && AllClean(ds[1..]))
  }

  // ----- a flat group is one line within the width -----

  lemma {:induction false} FlatBreaks(d: Doc)
    requires Clean(d)
    ensures '\n' in Flat(d) <==> ContainsHardline(d)
  {
    match d
    case Nest(_, inner) => FlatBreaks(inner);
    case Group(inner) => FlatBreaks(inner);
    case Concat(ds) => FlatBreaksAll(ds);
    case _ =>
  }

  lemma {:induction false} FlatBreaksAll(ds: seq<Doc>)
    requires AllClean(ds)
    ensures '\n' in FlatAll(ds) <==> AnyHardline(ds)
  {
    if ds != [] {
      FlatBreaks(ds[0]);
      FlatBreaksAll(ds[1..]);
    }
  }

  // A group that starts at `col` ends on the same line and within the width exactly when its flat form has no
  // break and fits; then the flat form is what is printed. (`text` is what the layout prints for it.)
  lemma {:induction false} FlatGroupOneLine(inner: Doc, indent: U16, col: nat, width: nat)
    requires Clean(inner)
    ensures var p := Pretty(Group(inner), indent, col, width);
            ('\n' !in Flat(inner) && col + |Flat(inner)| <= width) ==>
              p.text == Flat(inner) && '\n' !in p.text && p.col == col + |p.text| <= width
    ensures var p := Pretty(Group(inner), indent, col, width);
            ('\n' !in p.text && col + |p.text| <= width) ==> p.text == Flat(inner)
  {
    FlatBreaks(inner);
    var p := Pretty(Group(inner), indent, col, width);
    if '\n' !in p.text && !FitsFlat(inner, width - col) {
      UnbrokenIsFlat(inner, indent, col, width);
    }
  }

  // Broken or not, text without a line break is the flat form.
  lemma {:induction false} UnbrokenIsFlat(d: Doc, indent: U16, col: nat, width: nat)
    ensures '\n' !in Pretty(d, indent, col, width).text ==> Pretty(d, indent, col, width).text == Flat(d)
  {
    match d
    case Line => assert Pretty(d, indent, col, width).text[0] == '\n';
    case Hardline => assert Pretty(d, indent, col, width).text[0] == '\n';
    case Nest(n, inner) => UnbrokenIsFlat(inner, Wrap(indent, n), col, width);
    case Group(inner) => UnbrokenIsFlat(inner, indent, col, width);
    case Concat(ds) => UnbrokenIsFlatAll(ds, indent, col, width);
    case _ =>
  }

  lemma {:induction false} UnbrokenIsFlatAll(ds: seq<Doc>, indent: U16, col: nat, width: nat)
    ensures '\n' !in PrettyAll(ds, indent, col, width).text ==> PrettyAll(ds, indent, col, width).text == FlatAll(ds)
  {
    if ds != [] {
      var first := Pretty(ds[0], indent, col, width);
      UnbrokenIsFlat(ds[0], indent, col, width);
      UnbrokenIsFlatAll(ds[1..], indent, first.col, width);
    }
  }

  // ----- the column counter -----

  // The column after printing `s` from column `col`.
  function ColumnAfter(col: nat, s: string): nat {
    if s == "" then col else if s[|s| - 1] == '\n' then 0 else ColumnAfter(col, s[..|s| - 1]) + 1
  }

  lemma {:induction false} ColumnAfterAppend(col: nat, a: string, b: string)
    ensures ColumnAfter(col, a + b) == ColumnAfter(ColumnAfter(col, a), b)
  {
    if b == "" {
      assert a + b == a;
    } else {
      assert (a + b)[..|a + b| - 1] == a + b[..|b| - 1];
      ColumnAfterAppend(col, a, b[..|b| - 1]);
    }
  }

  lemma {:induction false} ColumnAfterLine(col: nat, s: string)
    requires '\n' !in s
    ensures ColumnAfter(col, s) == col + |s|
  {
    if s != "" { ColumnAfterLine(col, s[..|s| - 1]); }
  }

  lemma {:induction false} ColumnAfterBreak(col: nat, n: nat)
    ensures ColumnAfter(col, "\n" + Spaces(n)) == n
  {
    ColumnAfterAppend(col, "\n", Spaces(n));
    assert "\n"[..0] == "";
    ColumnAfterLine(0, Spaces(n));
  }

  // The counter the machine compares with the width is the real column.
  lemma {:induction false} ColumnTracks(d: Doc, indent: U16, col: nat, width: nat)
    requires Clean(d)
    ensures Pretty(d, indent, col, width).col == ColumnAfter(col, Pretty(d, indent, col, width).text)
  {
    match d
    case Nil =>
    case Text(s) => ColumnAfterLine(col, s);
    case Line => ColumnAfterBreak(col, indent);
    case Hardline => ColumnAfterBreak(col, indent);
    case Nest(n, inner) => ColumnTracks(inner, Wrap(indent, n), col, width);
    case Group(inner) =>
      if FitsFlat(inner, width - col) {
        FlatBreaks(inner);
        ColumnAfterLine(col, Flat(inner));
      } else {
        ColumnTracks(inner, indent, col, width);
      }
    case Concat(ds) => ColumnTracksAll(ds, indent, col, width);
  }

  lemma {:induction false} ColumnTracksAll(ds: seq<Doc>, indent: U16, col: nat, width: nat)
    requires AllClean(ds)
    ensures PrettyAll(ds, indent, col, width).col == ColumnAfter(col, PrettyAll(ds, indent, col, width).text)
  {
    if ds != [] {
      var first := Pretty(ds[0], indent, col, width);
      ColumnTracks(ds[0], indent, col, width);
      ColumnTracksAll(ds[1..], indent, first.col, width);
      ColumnAfterAppend(col, first.text, PrettyAll(ds[1..], indent, first.col, width).text);
    }
  }

  // ----- the width only moves white space -----

  function Ink(s: string): string {
    if s == "" then "" else
      Ink(s[..|s| - 1]) + if s[|s| - 1] == ' ' || s[|s| - 1] == '\n' then "" else [s[|s| - 1]]
  }

  lemma {:induction false} InkAppend(a: string, b: string)
    ensures Ink(a + b) == Ink(a) + Ink(b)
  {
    if b == "" {
      assert a + b == a;
    } else {
      assert (a + b)[..|a + b| - 1] == a + b[..|b| - 1];
      InkAppend(a, b[..|b| - 1]);
    }
  }

  lemma {:induction false} NoInkInBreak(n: nat)
    ensures Ink("\n" + Spaces(n)) == ""
  {
    InkAppend("\n", Spaces(n));
    assert "\n"[..0] == "";
    if n > 0 {
      NoInkInBreak(n - 1);
      InkAppend("\n", Spaces(n - 1));
      assert Spaces(n)[..n - 1] == Spaces(n - 1);
    }
  }

  lemma {:induction false} InkConserved(d: Doc, indent: U16, col: nat, width: nat)
    ensures Ink(Pretty(d, indent, col, width).text) == Ink(Flat(d))
  {
    match d
    case Nil =>
    case Text(_) =>
    case Line => NoInkInBreak(indent); assert " "[..0] == "";
    case Hardline => NoInkInBreak(indent); assert "\n"[..0] == "";
    case Nest(n, inner) => InkConserved(inner, Wrap(indent, n), col, width);
    case Group(inner) => InkConserved(inner, indent, col, width);
    case Concat(ds) => InkConservedAll(ds, indent, col, width);
  }

  lemma {:induction false} InkConservedAll(ds: seq<Doc>, indent: U16, col: nat, width: nat)
    ensures Ink(PrettyAll(ds, indent, col, width).text) == Ink(FlatAll(ds))
  {
    if ds != [] {
      var first := Pretty(ds[0], indent, col, width);
      InkConserved(ds[0], indent, col, width);
      InkConservedAll(ds[1..], indent, first.col, width);
      InkAppend(first.text, PrettyAll(ds[1..], indent, first.col, width).text);
      InkAppend(Flat(ds[0]), FlatAll(ds[1..]));
    }
  }

  // ----- nesting -----

  predicate NoGroups(d: Doc) {
    match d
    case Nest(_, inner) => NoGroups(inner)
    case Group(_) => false
    case Concat(ds) => NoGroupsAll(ds)
    case _ => true
  }

  predicate NoGroupsAll(ds: seq<Doc>) {
    ds == [] || (NoGroups(ds[0]) && NoGroupsAll(ds[1..]))
  }

  // The deepest indentation a document adds.
  function Deepest(d: Doc): nat {
    match d
    case Nest(n, inner) => n + Deepest(inner)
    case Group(inner) => Deepest(inner)
    case Concat(ds) => DeepestAll(ds)
    case _ => 0
  }

  function DeepestAll(ds: seq<Doc>): nat {
    if ds == [] then 0 else
      var a, b := Deepest(ds[0]), DeepestAll(ds[1..]);
      if a < b then b else a
  }

  // `n` more spaces at the start of every line but the first.
  function Indented(s: string, n: nat): string {
    if s == "" then "" else
      Indented(s[..|s| - 1], n) + if s[|s| - 1] == '\n' then "\n" + Spaces(n) else [s[|s| - 1]]
  }

  lemma {:induction false} IndentedAppend(a: string, b: string, n: nat)
    ensures Indented(a + b, n) == Indented(a, n) + Indented(b, n)
  {
    if b == "" {
      assert a + b == a;
    } else {
      assert (a + b)[..|a + b| - 1] == a + b[..|b| - 1];
      IndentedAppend(a, b[..|b| - 1], n);
    }
  }

  lemma {:induction false} IndentedLine(s: string, n: nat)
    requires '\n' !in s
    ensures Indented(s, n) == s
  {
    if s != "" {
      IndentedLine(s[..|s| - 1], n);
      assert s == s[..|s| - 1] + [s[|s| - 1]];
    }
  }

  lemma {:induction false} SpacesAdd(a: nat, b: nat)
    ensures Spaces(a + b) == Spaces(a) + Spaces(b)
  {
    if b > 0 { SpacesAdd(a, b - 1); }
  }

  lemma {:induction false} IndentedBreak(k: nat, n: nat)
    ensures Indented("\n" + Spaces(k), n) == "\n" + Spaces(k + n)
  {
    IndentedAppend("\n", Spaces(k), n);
    IndentedLine(Spaces(k), n);
    assert "\n"[..0] == "";
    SpacesAdd(n, k);
  }

  // What is laid out at the deeper indentation is what is laid out, indented.
  ghost predicate Deeper(d: Doc, indent: U16, n: nat, col: nat, col': nat, width: nat)
    requires indent + n < 0x1_0000
  {
    Pretty(d, indent + n, col', width).text == Indented(Pretty(d, indent, col, width).text, n)
  }

  lemma {:induction false} LeafDeeper(d: Doc, indent: U16, n: nat, col: nat, col': nat, width: nat)
    requires Clean(d) && indent + n < 0x1_0000 && (d.Nil? || d.Text? || d.Line? || d.Hardline?)
    ensures Deeper(d, indent, n, col, col', width)
  {
    if d.Text? { IndentedLine(d.s, n); } else { IndentedBreak(indent, n); }
  }

  lemma {:induction false} NestDeeper(m: U16, inner: Doc, indent: U16, n: nat, col: nat, col': nat, width: nat)
    requires indent + n + m < 0x1_0000 && Deeper(inner, indent + m, n, col, col', width)
    ensures Deeper(Nest(m, inner), indent, n, col, col', width)
  {
    assert Wrap(indent, m) == indent + m && Wrap(indent + n, m) == indent + m + n;
  }

  // Where every break is taken, laying out at a deeper indentation is indenting what is laid out.
  lemma {:induction false} DeeperIndents(d: Doc, indent: U16, n: nat, col: nat, col': nat, width: nat)
    requires Clean(d) && NoGroups(d) && indent + n + Deepest(d) < 0x1_0000
    ensures Deeper(d, indent, n, col, col', width)
  {
    match d
    case Nest(m, inner) =>
      DeeperIndents(inner, indent + m, n, col, col', width);
      NestDeeper(m, inner, indent, n, col, col', width);
    case Concat(ds) => DeeperIndentsAll(ds, indent, n, col, col', width);
    case _ => LeafDeeper(d, indent, n, col, col', width);
  }

  lemma {:induction false} DeeperIndentsAll(ds: seq<Doc>, indent: U16, n: nat, col: nat, col': nat, width: nat)
    requires AllClean(ds) && NoGroupsAll(ds) && indent + n + DeepestAll(ds) < 0x1_0000
    ensures PrettyAll(ds, indent + n, col', width).text == Indented(PrettyAll(ds, indent, col, width).text, n)
  {
    if ds != [] {
      var a, b := Pretty(ds[0], indent, col, width), Pretty(ds[0], indent + n, col', width);
      DeeperIndents(ds[0], indent, n, col, col', width);
      DeeperIndentsAll(ds[1..], indent, n, a.col, b.col, width);
      IndentedAppend(a.text, PrettyAll(ds[1..], indent, a.col, width).text, n);
    }
  }

  // A nest indents the lines of what it holds, and nothing else.
  lemma {:induction false} NestIndents(n: U16, inner: Doc, col: nat, width: nat)
    requires Clean(inner) && NoGroups(inner) && n + Deepest(inner) < 0x1_0000
    ensures Pretty(Nest(n, inner), 0, col, width).text == Indented(Pretty(inner, 0, col, width).text, n)
  {
    DeeperIndents(inner, 0, n, col, col, width);
    assert Wrap(0, n) == n;
  }
}
