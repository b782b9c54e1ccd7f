/** A two-region hash-consing table of names: persistent rows below, scratch rows above, no row twice. */
module NameStore {
  import opened Options
  import opened Names

  datatype Id = Base(i: nat) | Scratch(i: nat)

  // A row is a component on top of its parent; the anonymous name is no id at all.
  datatype Row = Row(parent: Option<Id>, comp: Comp)

  datatype Rows = Rows(base: seq<Row>, scratch: seq<Row>)

  predicate Has(r: Rows, id: Id) {
    match id
    case Base(i) => i < |r.base|
    case Scratch(i) => i < |r.scratch|
  }

  function At(r: Rows, id: Id): Row
    requires Has(r, id)
  {
    match id
    case Base(i) => r.base[i]
    case Scratch(i) => r.scratch[i]
  }

  function Rank(r: Rows, id: Id): nat {
    match id
    case Base(i) => i
    case Scratch(i) => |r.base| + i
  }

  predicate ParentOk(r: Rows, id: Id)
    requires Has(r, id)
  {
    var p := At(r, id).parent;
    p.Some? ==> Has(r, p.value) && Rank(r, p.value) < Rank(r, id) && (id.Base? ==> p.value.Base?)
  }

  // Parents come first, persistent rows refer to persistent rows, and no row occurs twice in either region or in both.
  ghost predicate Valid(r: Rows) {
    && (forall id {:trigger ParentOk(r, id)} :: Has(r, id) ==> ParentOk(r, id))
    && (forall a, b {:trigger At(r, a), At(r, b)} :: Has(r, a) && Has(r, b) && At(r, a) == At(r, b) ==> a == b)
  }

  predicate HasName(r: Rows, n: Option<Id>) {
    n.Some? ==> Has(r, n.value)
  }

  function RankOf(r: Rows, n: Option<Id>): nat {
    if n.None? then 0 else Rank(r, n.value) + 1
  }

  // The name an id stands for.
  ghost function Denote(r: Rows, n: Option<Id>): Name
    requires Valid(r) && HasName(r, n)
    decreases RankOf(r, n)
  {
    if n.None? then [] else
      var row := At(r, n.value);
      assert ParentOk(r, n.value);
      Denote(r, row.parent) + [row.comp]
  }

  // Equal names, equal ids: whichever regions they were interned in.
  lemma {:induction false} DenoteInjective(r: Rows, a: Option<Id>, b: Option<Id>)
    requires Valid(r) && HasName(r, a) && HasName(r, b)
    ensures Denote(r, a) == Denote(r, b) <==> a == b
    decreases RankOf(r, a)
  {
    if a.Some? && b.Some? {
      var x, y := At(r, a.value), At(r, b.value);
      assert ParentOk(r, a.value) && ParentOk(r, b.value);
      DenoteInjective(r, x.parent, y.parent);
      var m, n := Denote(r, x.parent), Denote(r, y.parent);
      assert (m + [x.comp])[..|m|] == m && (n + [y.comp])[..|n|] == n;
      assert (m + [x.comp])[|m|] == x.comp && (n + [y.comp])[|n|] == y.comp;
    }
  }

  // Later rows change nothing about earlier ids.
  predicate Grows(r: Rows, r': Rows) {
    r.base == r'.base && r.scratch <= r'.scratch
  }

  lemma {:induction false} GrowsKeeps(r: Rows, r': Rows, n: Option<Id>)
    requires Valid(r) && Valid(r') && Grows(r, r') && HasName(r, n)
    ensures HasName(r', n) && Denote(r', n) == Denote(r, n)
    decreases RankOf(r, n)
  {
    if n.Some? {
      assert At(r', n.value) == At(r, n.value);
      assert ParentOk(r, n.value);
      GrowsKeeps(r, r', At(r, n.value).parent);
    }
  }

  lemma {:induction false} AddRow(r: Rows, row: Row)
    requires Valid(r) && HasName(r, row.parent)
    requires forall id {:trigger At(r, id)} :: Has(r, id) ==> At(r, id) != row
    ensures var r' := r.(scratch := r.scratch + [row]);
            Valid(r') && Grows(r, r')
  {
    var r' := r.(scratch := r.scratch + [row]);
    var last := Scratch(|r.scratch|);
    forall id {:trigger ParentOk(r', id)} | Has(r', id) ensures ParentOk(r', id) {
      if id != last {
        assert At(r', id) == At(r, id);
        assert ParentOk(r, id);
      }
    }
    forall a, b {:trigger At(r', a), At(r', b)} | Has(r', a) && Has(r', b) && At(r', a) == At(r', b) ensures a == b {
      assert a != last ==> At(r', a) == At(r, a);
      assert b != last ==> At(r', b) == At(r, b);
    }
  }

  class Store {
    var rows: Rows

    ghost predicate Ok() reads this {
      Valid(rows)
    }

    constructor (base: seq<Row>)
      requires Valid(Rows(base, []))
      ensures Ok() && rows == Rows(base, [])
    {
      rows := Rows(base, []);
    }

    ghost function Name(n: Option<Id>): Names.Name
      reads this
      requires Ok() && HasName(rows, n)
    {
      Denote(rows, n)
    }

    // What every operation that may intern keeps.
    twostate predicate Kept() reads this {
      Ok() && Grows(old(rows), rows)
    }

    /** `name_str` and `name_num`: the persistent row if there is one, else the scratch row, else a new scratch row. */
    method Intern(parent: Option<Id>, comp: Comp) returns (id: Id)
      requires Ok() && HasName(rows, parent)
      modifies this
      ensures Kept() && Has(rows, id) && At(rows, id) == Row(parent, comp)
      ensures Name(Some(id)) == old(Name(parent)) + [comp]
      ensures (exists b {:trigger At(old(rows), b)} :: Has(old(rows), b) && At(old(rows), b) == Row(parent, comp)) ==>
                rows == old(rows)
    {
      var row := Row(parent, comp);
      for i := 0 to |rows.base|
        invariant rows == old(rows)
        invariant forall j {:trigger rows.base[j]} :: 0 <= j < i ==> rows.base[j] != row
      {
        if rows.base[i] == row {
          assert At(rows, Base(i)) == row;
          return Base(i);
        }
      }
      for i := 0 to |rows.scratch|
        invariant rows == old(rows)
        invariant forall j {:trigger rows.scratch[j]} :: 0 <= j < i ==> rows.scratch[j] != row
      {
        if rows.scratch[i] == row {
          assert At(rows, Scratch(i)) == row;
          return Scratch(i);
        }
      }
      forall b {:trigger At(rows, b)} | Has(rows, b) ensures At(rows, b) != row {
        if b.Base? { assert rows.base[b.i] != row; } else { assert rows.scratch[b.i] != row; }
      }
      AddRow(rows, row);
      ghost var before := rows;
      rows := rows.(scratch := rows.scratch + [row]);
      GrowsKeeps(before, rows, parent);
      id := Scratch(|rows.scratch| - 1);
      assert At(rows, id) == row;
    }

    // The components of `n`, innermost first.
    method Components(n: Option<Id>) returns (comps: seq<Comp>)
      requires Ok() && HasName(rows, n)
      ensures Reversed(comps) == Name(n)
    {
      comps := [];
      var cur := n;
      while cur.Some?
        invariant HasName(rows, cur) && Name(cur) + Reversed(comps) == Name(n)
        decreases RankOf(rows, cur)
      {
        var row := At(rows, cur.value);
        assert ParentOk(rows, cur.value);
        assert (comps + [row.comp])[..|comps|] == comps;
        comps, cur := comps + [row.comp], row.parent;
      }
    }

    // Components given innermost first, rebuilt on top of `start`.
    method Rebuild(start: Option<Id>, comps: seq<Comp>) returns (out: Option<Id>)
      requires Ok() && HasName(rows, start)
      modifies this
      ensures Kept() && HasName(rows, out) && HasName(rows, start)
      ensures Name(out) == old(Name(start)) + Reversed(comps)
      ensures comps != [] ==> out.Some?
      ensures comps == [] ==> out == start
    {
      out := start;
      var k: nat := |comps|;
      assert comps[|comps|..] == [];
      while k > 0
        invariant k <= |comps| && Kept() && HasName(rows, out) && HasName(rows, start)
        invariant Name(out) == old(Name(start)) + Reversed(comps[k..])
        invariant k < |comps| ==> out.Some?
        invariant k == |comps| ==> out == start
      {
        k := k - 1;
        ReversedFront(comps, k);
        ghost var before := rows;
        var id := Intern(out, comps[k]);
        GrowsKeeps(before, rows, start);
        out := Some(id);
      }
      assert comps[0..] == comps;
    }

    /** `append` */
    method Append(a: Option<Id>, b: Option<Id>) returns (out: Option<Id>)
      requires Ok() && HasName(rows, a) && HasName(rows, b)
      modifies this
      ensures Kept() && HasName(rows, out) && Name(out) == old(Name(a)) + old(Name(b))
    {
      var comps := Components(b);
      out := Rebuild(a, comps);
    }

    /** `is_prefix_of`: a walk that compares ids, which is comparing names. */
    method IsPrefixOf(p: Option<Id>, n: Option<Id>) returns (r: bool)
      requires Ok() && HasName(rows, p) && HasName(rows, n)
      ensures r <==> Name(p) <= Name(n)
    {
      var cur := n;
      while true
        invariant HasName(rows, cur) && Name(cur) <= Name(n)
        invariant Name(p) <= Name(n) ==> |Name(p)| <= |Name(cur)|
        decreases RankOf(rows, cur)
      {
        if cur == p {
          return true;
        }
        DenoteInjective(rows, cur, p);
        if cur.None? {
          return false;
        }
        assert ParentOk(rows, cur.value);
        PrefixShrinks(Name(p), Name(At(rows, cur.value).parent), At(rows, cur.value).comp, Name(n));
        cur := At(rows, cur.value).parent;
      }
      r := false;
    }

    /** `is_suffix_of`: component by component from the end. */
    method IsSuffixOf(s: Option<Id>, n: Option<Id>) returns (r: bool)
      requires Ok() && HasName(rows, s) && HasName(rows, n)
      ensures r <==> IsSuffix(Name(s), Name(n))
    {
      var x, y := s, n;
      while x.Some?
        invariant HasName(rows, x) && HasName(rows, y)
        invariant IsSuffix(Name(s), Name(n)) <==> IsSuffix(Name(x), Name(y))
        decreases RankOf(rows, x)
      {
        if y.None? {
          return false;
        }
        var a, b := At(rows, x.value), At(rows, y.value);
        assert ParentOk(rows, x.value) && ParentOk(rows, y.value);
        SuffixStep(Name(a.parent), a.comp, Name(b.parent), b.comp);
        if a.comp != b.comp {
          return false;
        }
        x, y := a.parent, b.parent;
      }
      assert Name(x) == [];
      return true;
    }

    // Up from `n` to the ancestor `p`, or to the root; the components passed, innermost first.
    method WalkUp(n: Option<Id>, p: Option<Id>) returns (cur: Option<Id>, comps: seq<Comp>)
      requires Ok() && HasName(rows, n) && HasName(rows, p)
      ensures HasName(rows, cur) && Name(cur) + Reversed(comps) == Name(n)
      ensures cur == p || cur.None?
      ensures cur == p <==> Name(p) <= Name(n)
    {
      comps, cur := [], n;
      while cur.Some? && cur != p
        invariant HasName(rows, cur) && Name(cur) + Reversed(comps) == Name(n)
        invariant Name(p) <= Name(n) ==> |Name(p)| <= |Name(cur)|
        decreases RankOf(rows, cur)
      {
        DenoteInjective(rows, cur, p);
        var row := At(rows, cur.value);
        assert ParentOk(rows, cur.value);
        PrefixShrinks(Name(p), Name(row.parent), row.comp, Name(n));
        assert (comps + [row.comp])[..|comps|] == comps;
        comps, cur := comps + [row.comp], row.parent;
      }
      DenoteInjective(rows, cur, p);
    }

    /** `replace_prefix` */
    method Replace(n: Option<Id>, p: Option<Id>, q: Option<Id>) returns (out: Option<Id>)
      requires Ok() && HasName(rows, n) && HasName(rows, p) && HasName(rows, q)
      modifies this
      ensures Kept() && HasName(rows, out)
      ensures Name(out) == ReplacePrefix(old(Name(n)), old(Name(p)), old(Name(q)))
    {
      var cur, comps := WalkUp(n, p);
      if cur == p {
        assert Name(n)[|Name(p)|..] == Reversed(comps);
      }
      out := Rebuild(if cur == p then q else None, comps);
    }

    // The innermost walk shared by the private-name tests: is the root component the header, all others strings?
    method RootsAtHeader(n: Option<Id>, stringsOnly: bool) returns (r: bool)
      requires Ok() && HasName(rows, n)
      ensures r <==> IsPrivate(Name(n)) && (stringsOnly ==> AllStr(Name(n)))
    {
      var cur := n;
      while cur.Some?
        invariant HasName(rows, cur)
        invariant IsPrivate(Name(n)) && (stringsOnly ==> AllStr(Name(n))) <==>
                  IsPrivate(Name(cur)) && (stringsOnly ==> AllStr(Name(cur)))
        decreases RankOf(rows, cur)
      {
        var row := At(rows, cur.value);
        assert ParentOk(rows, cur.value);
        assert Name(cur) == Name(row.parent) + [row.comp];
        if stringsOnly && row.comp.Num? {
          assert !Name(cur)[|Name(cur)| - 1].Str?;
          return false;
        }
        if row.parent.None? {
          return row.comp == HEADER;
        }
        DenoteInjective(rows, row.parent, None);
        AllStrSnoc(Name(row.parent), row.comp);
        cur := row.parent;
      }
      return false;
    }

    /** `is_private_prefix` */
    method IsPrivatePrefixId(n: Id) returns (r: bool)
      requires Ok() && Has(rows, n)
      ensures r <==> IsPrivatePrefix(Name(Some(n)))
    {
      var row := At(rows, n);
      assert ParentOk(rows, n);
      ghost var full, up := Name(Some(n)), Name(row.parent);
      assert full[..|full| - 1] == up && full[|full| - 1] == row.comp;
      if row.comp != Num(0) {
        return false;
      }
      r := RootsAtHeader(row.parent, true);
    }

    // Up from `n` to its private prefix, or to the root; the components passed, innermost first.
    method WalkToPrefix(n: Option<Id>) returns (comps: seq<Comp>)
      requires Ok() && HasName(rows, n)
      ensures Reversed(comps) == Strip(Name(n), |Name(n)|)
    {
      comps := [];
      var cur := n;
      ghost var name := Name(n);
      assert name[..|name|] == name;
      while cur.Some?
        invariant HasName(rows, cur) && Name(cur) + Reversed(comps) == name
        invariant Strip(name, |Name(cur)|) == Strip(name, |name|)
        decreases RankOf(rows, cur)
      {
        assert name[..|Name(cur)|] == Name(cur);
        var stop := IsPrivatePrefixId(cur.value);
        if stop {
          break;
        }
        var row := At(rows, cur.value);
        assert ParentOk(rows, cur.value);
        assert (comps + [row.comp])[..|comps|] == comps;
        comps, cur := comps + [row.comp], row.parent;
      }
      assert Reversed(comps) == name[|Name(cur)|..];
    }

    /** `private_to_user_name` */
    method PrivateToUserName(n: Option<Id>) returns (out: Option<Id>)
      requires Ok() && HasName(rows, n)
      modifies this
      ensures Kept() && HasName(rows, out) && Name(out) == PrivateToUser(old(Name(n)))
    {
      var private := RootsAtHeader(n, false);
      if !private {
        return n;
      }
      var comps := WalkToPrefix(n);
      out := Rebuild(None, comps);
    }

    method PrivatePrefixId(main: Option<Id>) returns (pre: Id)
      requires Ok() && HasName(rows, main)
      modifies this
      ensures Kept() && Has(rows, pre) && Name(Some(pre)) == PrivatePrefix(old(Name(main)))
    {
      ghost var start := rows;
      var header := Intern(None, HEADER);
      GrowsKeeps(start, rows, main);
      var path := Append(Some(header), main);
      pre := Intern(path, Num(0));
    }

    /** `mk_private_name` */
    method MkPrivateName(main: Option<Id>, n: Id) returns (out: Option<Id>)
      requires Ok() && HasName(rows, main) && Has(rows, n)
      modifies this
      ensures Kept() && HasName(rows, out) && out.Some?
      ensures Name(out) == MkPrivate(old(Name(main)), old(Name(Some(n))))
    {
      ghost var start := rows;
      var pre := PrivatePrefixId(main);
      GrowsKeeps(start, rows, Some(n));
      ghost var mid := rows;
      var user := PrivateToUserName(Some(n));
      GrowsKeeps(mid, rows, Some(pre));
      out := Append(Some(pre), user);
    }
  }

  lemma {:induction false} AllStrSnoc(m: Names.Name, c: Comp)
    ensures AllStr(m + [c]) <==> AllStr(m) && c.Str?
    ensures m != [] ==> (IsPrivate(m + [c]) <==> IsPrivate(m))
  {
    if AllStr(m + [c]) {
      forall k | 0 <= k < |m| ensures m[k].Str? {
        assert (m + [c])[k] == m[k];
      }
      assert (m + [c])[|m|] == c;
    }
  }

  function Reversed(s: seq<Comp>): seq<Comp> {
    if s == [] then [] else [s[|s| - 1]] + Reversed(s[..|s| - 1])
  }

  lemma {:induction false} ReversedFront(s: seq<Comp>, k: nat)
    requires k < |s|
    ensures Reversed(s[k..]) == Reversed(s[k + 1..]) + [s[k]]
  {
    assert s[k..] == [s[k]] + s[k + 1..];
    ReversedCons(s[k], s[k + 1..]);
  }

  lemma {:induction false} ReversedCons(x: Comp, s: seq<Comp>)
    ensures Reversed([x] + s) == Reversed(s) + [x]
  {
    if s == [] {
      assert [x] + s == [x];
      assert [x][..0] == [];
    } else {
      assert ([x] + s)[..|s|] == [x] + s[..|s| - 1];
      ReversedCons(x, s[..|s| - 1]);
    }
  }

  lemma {:induction false} PrefixShrinks(p: Names.Name, m: Names.Name, c: Comp, n: Names.Name)
    requires m + [c] <= n && p != m + [c] && (p <= n ==> |p| <= |m + [c]|)
    ensures m <= n && (p <= n ==> |p| <= |m|)
  {
    assert (m + [c])[..|m|] == m;
    assert n[..|m| + 1] == m + [c];
    assert p <= n ==> p == n[..|p|];
  }

  lemma {:induction false} SuffixStep(a: Names.Name, x: Comp, b: Names.Name, y: Comp)
    ensures IsSuffix(a + [x], b + [y]) <==> x == y && IsSuffix(a, b)
  {
    if |a| <= |b| {
      var d := |b| - |a|;
      assert (b + [y])[d..] == b[d..] + [y];
      if b[d..] + [y] == a + [x] {
        assert (b[d..] + [y])[..|a|] == b[d..] && (a + [x])[..|a|] == a;
        assert (b[d..] + [y])[|a|] == y && (a + [x])[|a|] == x;
      }
    }
  }
}
