/** Byte strings: fixed-width little-endian numbers, length-prefixed fields, and the lexicographic order. */
module ByteOrder {

  type Byte = b: int | 0 <= b < 256

  const U64: nat := 0x1_0000_0000_0000_0000

  // The `k` low-order bytes of `n`, lowest first.
  function LittleEndian(n: nat, k: nat): (r: seq<Byte>)
    ensures |r| == k
  {
    if k == 0 then [] else [n % 256] + LittleEndian(n / 256, k - 1)
  }

  function Pow256(k: nat): (r: nat)
    ensures r > 0
  {
    if k == 0 then 1 else 256 * Pow256(k - 1)
  }

  // What the bytes say, lowest first.
  function Value(bytes: seq<Byte>): nat {
    if bytes == [] then 0 else bytes[0] + 256 * Value(bytes[1..])
  }

  lemma {:induction false} LittleEndianValue(n: nat, k: nat)
    requires n < Pow256(k)
    ensures Value(LittleEndian(n, k)) == n
  {
    if k > 0 {
      assert LittleEndian(n, k)[1..] == LittleEndian(n / 256, k - 1);
      LittleEndianValue(n / 256, k - 1);
    }
  }

  lemma {:induction false} LittleEndianInjective(m: nat, n: nat, k: nat)
    requires m < Pow256(k) && n < Pow256(k) && LittleEndian(m, k) == LittleEndian(n, k)
    ensures m == n
  {
    if k > 0 {
      assert LittleEndian(m, k)[1..] == LittleEndian(m / 256, k - 1);
      assert LittleEndian(n, k)[1..] == LittleEndian(n / 256, k - 1);
      assert LittleEndian(m, k)[0] == m % 256 && LittleEndian(n, k)[0] == n % 256;
      LittleEndianInjective(m / 256, n / 256, k - 1);
    }
  }

  lemma {:induction false} U64Is8Bytes()
    ensures Pow256(8) == U64
  {
    assert Pow256(4) == 0x1_0000_0000;
  }

  // ----- length-prefixed fields -----

  // A field's length is a machine word.
  predicate Sized(field: seq<Byte>) {
    |field| < U64
  }

  function Put(field: seq<Byte>): (r: seq<Byte>)
    requires Sized(field)
    ensures |r| == 8 + |field|
  {
    LittleEndian(|field|, 8) + field
  }

  predicate AllSized(fields: seq<seq<Byte>>) {
    forall k :: 0 <= k < |fields| ==> Sized(fields[k])
  }

  function PutAll(fields: seq<seq<Byte>>): seq<Byte>
    requires AllSized(fields)
  {
    if fields == [] then [] else PutAll(fields[..|fields| - 1]) + Put(fields[|fields| - 1])
  }

  lemma {:induction false} PutAllFront(fields: seq<seq<Byte>>)
    requires AllSized(fields) && fields != []
    ensures PutAll(fields) == Put(fields[0]) + PutAll(fields[1..])
  {
    if |fields| == 1 {
      assert fields[..0] == [] && fields[1..] == [];
      assert PutAll(fields) == [] + Put(fields[0]);
    } else {
      var init, rest, last := fields[..|fields| - 1], fields[1..], Put(fields[|fields| - 1]);
      PutAllFront(init);
      assert init[1..] == rest[..|rest| - 1];
      Associative(Put(fields[0]), PutAll(init[1..]), last);
    }
  }

  lemma {:induction false} Associative(a: seq<Byte>, b: seq<Byte>, c: seq<Byte>)
    ensures (a + b) + c == a + (b + c)
  {
  }

  // A stream of length-prefixed fields determines the fields, even their number.
  lemma {:induction false} PutAllInjective(a: seq<seq<Byte>>, b: seq<seq<Byte>>)
    requires AllSized(a) && AllSized(b) && PutAll(a) == PutAll(b)
    ensures a == b
    decreases |a|
  {
    if a != [] && b != [] {
      PutAllFront(a);
      PutAllFront(b);
      var x, y := PutAll(a), PutAll(b);
      var f, g := a[0], b[0];
      assert x[..8] == LittleEndian(|f|, 8) && y[..8] == LittleEndian(|g|, 8);
      U64Is8Bytes();
      LittleEndianInjective(|f|, |g|, 8);
      assert x[8..8 + |f|] == f && y[8..8 + |g|] == g;
      assert x[8 + |f|..] == PutAll(a[1..]) && y[8 + |g|..] == PutAll(b[1..]);
      PutAllInjective(a[1..], b[1..]);
      assert a == [f] + a[1..] && b == [g] + b[1..];
    } else if a != [] {
      PutAllFront(a);
    } else if b != [] {
      PutAllFront(b);
    }
  }

  // ----- sorting byte strings -----

  predicate Le(a: seq<Byte>, b: seq<Byte>) {
    a == [] || (b != [] && (a[0] < b[0] || (a[0] == b[0] && Le(a[1..], b[1..]))))
  }

  lemma {:induction false} LeTotal(a: seq<Byte>, b: seq<Byte>)
    ensures Le(a, b) || Le(b, a)
  {
    if a != [] && b != [] { LeTotal(a[1..], b[1..]); }
  }

  lemma {:induction false} LeAntisymmetric(a: seq<Byte>, b: seq<Byte>)
    requires Le(a, b) && Le(b, a)
    ensures a == b
  {
    if a != [] && b != [] {
      LeAntisymmetric(a[1..], b[1..]);
      assert a == [a[0]] + a[1..] && b == [b[0]] + b[1..];
    }
  }

  lemma {:induction false} LeTransitive(a: seq<Byte>, b: seq<Byte>, c: seq<Byte>)
    requires Le(a, b) && Le(b, c)
    ensures Le(a, c)
  {
    if a != [] && a[0] == b[0] == c[0] { LeTransitive(a[1..], b[1..], c[1..]); }
  }

  function Insert(x: seq<Byte>, s: seq<seq<Byte>>): seq<seq<Byte>> {
    if s == [] || Le(x, s[0]) then [x] + s else [s[0]] + Insert(x, s[1..])
  }

  function Sort(s: seq<seq<Byte>>): seq<seq<Byte>> {
    if s == [] then [] else Insert(s[0], Sort(s[1..]))
  }

  // The head is least, and so on.
  predicate Sorted(s: seq<seq<Byte>>) {
    s != [] ==> Sorted(s[1..]) && forall k :: 0 <= k < |s| ==> Le(s[0], s[k])
  }

  lemma {:induction false} InsertSorted(x: seq<Byte>, s: seq<seq<Byte>>)
    requires Sorted(s)
    ensures Sorted(Insert(x, s))
  {
    LeTotal(x, x);
    if s == [] {
    } else if Le(x, s[0]) {
      assert ([x] + s)[1..] == s;
      forall k | 0 <= k < |s| ensures Le(x, s[k]) {
        LeTransitive(x, s[0], s[k]);
      }
    } else {
      InsertSorted(x, s[1..]);
      var rest := Insert(x, s[1..]);
      assert ([s[0]] + rest)[1..] == rest;
      LeTotal(x, s[0]);
      LeTotal(s[0], s[0]);
      forall k | 0 <= k < |rest| ensures Le(s[0], rest[k]) {
        InsertBag(x, s[1..]);
        assert rest[k] in multiset(rest);
        assert rest[k] == x || rest[k] in s[1..];
      }
    }
  }

  lemma {:induction false} InsertBag(x: seq<Byte>, s: seq<seq<Byte>>)
    ensures multiset(Insert(x, s)) == multiset(s) + multiset{x}
  {
    if s != [] && !Le(x, s[0]) {
      InsertBag(x, s[1..]);
      assert s == [s[0]] + s[1..];
    }
  }

  lemma {:induction false} TailBag(s: seq<seq<Byte>>)
    requires s != []
    ensures s == [s[0]] + s[1..] && multiset(s[1..]) == multiset(s) - multiset{s[0]}
  {
    assert s == [s[0]] + s[1..];
  }

  lemma {:induction false} SortSorts(s: seq<seq<Byte>>)
    ensures Sorted(Sort(s)) && multiset(Sort(s)) == multiset(s)
  {
    if s != [] {
      SortSorts(s[1..]);
      InsertSorted(s[0], Sort(s[1..]));
      InsertBag(s[0], Sort(s[1..]));
      TailBag(s);
    }
  }

  lemma {:induction false} SortedIsCanonical(a: seq<seq<Byte>>, b: seq<seq<Byte>>)
    requires Sorted(a) && Sorted(b) && multiset(a) == multiset(b)
    ensures a == b
  {
    if a == [] {
      assert |multiset(b)| == 0;
    } else {
      assert a[0] in multiset(b) && |multiset(a)| == |a| && |multiset(b)| == |b|;
      assert b[0] in multiset(a);
      LeAntisymmetric(a[0], b[0]);
      TailBag(a);
      TailBag(b);
      SortedIsCanonical(a[1..], b[1..]);
    }
  }

  // Sorting forgets the order and nothing else.
  lemma {:induction false} SortExact(a: seq<seq<Byte>>, b: seq<seq<Byte>>)
    ensures Sort(a) == Sort(b) <==> multiset(a) == multiset(b)
  {
    SortSorts(a);
    SortSorts(b);
    if multiset(a) == multiset(b) {
      SortedIsCanonical(Sort(a), Sort(b));
    }
  }

  // ----- names -----

  const DOT: Byte := 46

  // A dotted name as displayed: components joined with `.` and nothing quoted.
  function Render(parts: seq<seq<Byte>>): seq<Byte> {
    if parts == [] then [] else if |parts| == 1 then parts[0] else parts[0] + [DOT] + Render(parts[1..])
  }

  // The pieces of one component between its dots.
  function Cut(c: seq<Byte>): (r: seq<seq<Byte>>)
    ensures r != []
  {
    if c == [] then [[]]
    else if c[0] == DOT then [[]] + Cut(c[1..])
    else var r := Cut(c[1..]); [[c[0]] + r[0]] + r[1..]
  }

  // The pieces of all components, in order: what a reader of the display can recover.
  function CutAll(parts: seq<seq<Byte>>): seq<seq<Byte>> {
    if parts == [] then [] else Cut(parts[0]) + CutAll(parts[1..])
  }

  lemma {:induction false} CutJoin(a: seq<Byte>, b: seq<Byte>)
    ensures Cut(a + [DOT] + b) == Cut(a) + Cut(b)
  {
    var c := a + [DOT] + b;
    if a == [] {
      assert c[1..] == b;
    } else {
      assert c[1..] == a[1..] + [DOT] + b;
      CutJoin(a[1..], b);
    }
  }

  // Cutting the display cuts the components.
  lemma {:induction false} CutRender(parts: seq<seq<Byte>>)
    requires parts != []
    ensures Cut(Render(parts)) == CutAll(parts)
  {
    if |parts| > 1 {
      CutRender(parts[1..]);
      CutJoin(parts[0], Render(parts[1..]));
    } else {
      assert CutAll(parts[1..]) == [];
    }
  }

  lemma {:induction false} RenderCut(c: seq<Byte>)
    ensures Render(Cut(c)) == c
  {
    if c != [] {
      RenderCut(c[1..]);
      var r := Cut(c[1..]);
      if c[0] == DOT {
        assert ([[]] + r)[1..] == r;
      } else if |r| > 1 {
        assert ([[c[0]] + r[0]] + r[1..])[1..] == r[1..];
      }
    }
  }

  // Two names are displayed alike exactly when they have the same pieces.
  lemma {:induction false} RenderExact(a: seq<seq<Byte>>, b: seq<seq<Byte>>)
    requires a != [] && b != []
    ensures Render(a) == Render(b) <==> CutAll(a) == CutAll(b)
  {
    CutRender(a);
    CutRender(b);
    RenderCut(Render(a));
    RenderCut(Render(b));
  }

  ghost predicate Dotless(parts: seq<seq<Byte>>) {
    forall k :: 0 <= k < |parts| ==> DOT !in parts[k]
  }

  lemma {:induction false} CutDotless(c: seq<Byte>)
    ensures DOT !in c <==> Cut(c) == [c]
  {
    if c != [] {
      CutDotless(c[1..]);
      var r := Cut(c[1..]);
      assert c == [c[0]] + c[1..];
      if c[0] != DOT && Cut(c) == [c] {
        assert Cut(c)[0][1..] == r[0] && Cut(c)[1..] == r[1..];
        assert r == [r[0]] + r[1..];
      }
    }
  }

  // A name is its own pieces exactly when no component contains a dot.
  lemma {:induction false} CutAllDotless(parts: seq<seq<Byte>>)
    ensures Dotless(parts) <==> CutAll(parts) == parts
    ensures |CutAll(parts)| >= |parts|
  {
    if parts != [] {
      CutAllDotless(parts[1..]);
      CutDotless(parts[0]);
      var c, rest := Cut(parts[0]), CutAll(parts[1..]);
      assert Dotless(parts) <==> DOT !in parts[0] && Dotless(parts[1..]) by {
        assert parts == [parts[0]] + parts[1..];
      }
      assert parts == [parts[0]] + parts[1..];
      if c + rest == parts {
        assert |c| == 1;
        assert (c + rest)[1..] == rest;
      }
    }
  }

  // Display tells dot-free names apart, and a dot-free name is displayed like just those it is the pieces of.
  lemma {:induction false} RenderInjective(a: seq<seq<Byte>>, b: seq<seq<Byte>>)
    requires a != [] && b != [] && Dotless(a)
    ensures Render(a) == Render(b) <==> a == CutAll(b)
    ensures Render(a) == Render(b) && Dotless(b) ==> a == b
  {
    RenderExact(a, b);
    CutAllDotless(a);
    CutAllDotless(b);
  }

  // Every name with a dot in a component is displayed like another name.
  lemma {:induction false} DottedHasTwin(a: seq<seq<Byte>>)
    requires a != [] && !Dotless(a)
    ensures CutAll(a) != a && CutAll(a) != [] && Render(CutAll(a)) == Render(a)
  {
    CutAllDotless(a);
    CutRender(a);
    RenderCut(Render(a));
  }

  // `«a.b»` and `a.b` look the same.
  lemma {:induction false} RenderAmbiguous(n: seq<Byte>, m: seq<Byte>)
    ensures Render([n, m]) == Render([n + [DOT] + m]) && [n, m] != [n + [DOT] + m]
  {
    assert [n, m][1..] == [m];
  }
}
