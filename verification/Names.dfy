/** Hierarchical names: the algebra on component lists, and the same operations on ids of a two-region hash-consing
    store, where equal names have equal ids. */
module Names {

  datatype Comp = Str(s: string) | Num(n: nat)

  // Root first; the anonymous name is empty.
  type Name = seq<Comp>

  // ----- the algebra -----

  predicate IsSuffix(s: Name, n: Name) {
    |s| <= |n| && n[|n| - |s|..] == s
  }

  function ReplacePrefix(n: Name, p: Name, q: Name): Name {
    if p <= n then q + n[|p|..] else n
  }

  const HEADER := Str("_private")

  predicate IsPrivate(n: Name) {
    n != [] && n[0] == HEADER
  }

  predicate AllStr(n: Name) {
    forall k :: 0 <= k < |n| ==> n[k].Str?
  }

  predicate IsPrivatePrefix(p: Name) {
    |p| >= 2 && p[|p| - 1] == Num(0) && AllStr(p[..|p| - 1]) && p[0] == HEADER
  }

  // The components below the longest private prefix of the first `k`; all of them if there is none.
  function Strip(n: Name, k: nat): Name
    requires k <= |n|
  {
    if k == 0 then n else if IsPrivatePrefix(n[..k]) then n[k..] else Strip(n, k - 1)
  }

  function PrivateToUser(n: Name): Name {
    if IsPrivate(n) then Strip(n, |n|) else n
  }

  function PrivatePrefix(main: Name): Name {
    [HEADER] + main + [Num(0)]
  }

  function MkPrivate(main: Name, n: Name): Name {
    PrivatePrefix(main) + PrivateToUser(n)
  }

  // Prefix and suffix tests decide whether the complement exists.
  lemma {:induction false} PrefixIsComplement(p: Name, n: Name)
    ensures p <= n <==> exists s: Name :: p + s == n
  {
    if p <= n { assert p + n[|p|..] == n; }
  }

  lemma {:induction false} SuffixIsComplement(s: Name, n: Name)
    ensures IsSuffix(s, n) <==> exists p: Name :: p + s == n
  {
    if IsSuffix(s, n) { assert n[..|n| - |s|] + s == n; }
    if p: Name :| p + s == n {
      assert n[|p|..] == s;
    }
  }

  // Replacing the prefix of a composite name; replacing nothing; undoing a replacement.
  lemma {:induction false} ReplacePrefixLaws(p: Name, q: Name, s: Name, n: Name)
    ensures ReplacePrefix(p + s, p, q) == q + s
    ensures !(p <= n) ==> ReplacePrefix(n, p, q) == n
    ensures ReplacePrefix(ReplacePrefix(p + s, p, q), q, p) == p + s
    ensures ReplacePrefix(n, [], q) == q + n
  {
    assert (p + s)[|p|..] == s && (q + s)[|q|..] == s;
    assert n[0..] == n;
  }

  // A name has at most one private prefix: the one that ends at its first number.
  lemma {:induction false} OnePrivatePrefix(n: Name, j: nat, k: nat)
    requires j <= |n| && k <= |n| && IsPrivatePrefix(n[..j]) && IsPrivatePrefix(n[..k])
    ensures j == k
  {
    FirstNumEnds(n, j);
    FirstNumEnds(n, k);
  }

  lemma {:induction false} FirstNumEnds(n: Name, m: nat)
    requires m <= |n| && IsPrivatePrefix(n[..m])
    ensures m > 0 && n[m - 1] == Num(0) && forall i :: 0 <= i < m - 1 ==> n[i].Str?
  {
    assert n[..m][m - 1] == n[m - 1];
    forall i | 0 <= i < m - 1 ensures n[i].Str? {
      assert n[..m][..m - 1][i] == n[i];
    }
  }

  lemma {:induction false} StripAt(n: Name, m: nat, k: nat)
    requires m <= k <= |n| && IsPrivatePrefix(n[..m])
    ensures Strip(n, k) == n[m..]
  {
    if m < k {
      if IsPrivatePrefix(n[..k]) { OnePrivatePrefix(n, m, k); }
      StripAt(n, m, k - 1);
    }
  }

  lemma {:induction false} StripNone(n: Name, k: nat)
    requires k <= |n| && forall m :: 0 < m <= k ==> !IsPrivatePrefix(n[..m])
    ensures Strip(n, k) == n
  {
    if k > 0 { StripNone(n, k - 1); }
  }

  // Stripping what was made private gives back exactly what stripping gave before, if and only if every component of
  // the main module's name is a string.
  lemma {:induction false} StripMake(main: Name, n: Name)
    ensures PrivateToUser(MkPrivate(main, n)) == PrivateToUser(n) <==> AllStr(main)
  {
    var u, pre := PrivateToUser(n), PrivatePrefix(main);
    var full := pre + u;
    assert full[0] == HEADER;
    if AllStr(main) {
      assert full[..|pre|] == pre;
      assert pre[..|pre| - 1] == [HEADER] + main;
      StripAt(full, |pre|, |full|);
      assert full[|pre|..] == u;
    } else {
      StripLonger(main, u);
    }
  }

  lemma {:induction false} StripLonger(main: Name, u: Name)
    requires !AllStr(main)
    ensures |Strip(PrivatePrefix(main) + u, |PrivatePrefix(main)| + |u|)| > |u|
  {
    var j := FirstNum(main);
    var full := PrivatePrefix(main) + u;
    assert full[j + 1] == main[j];
    forall m | j + 2 < m <= |full| ensures !IsPrivatePrefix(full[..m]) {
      assert full[..m][..m - 1][j + 1] == main[j];
    }
    forall m | 0 < m < j + 2 ensures !IsPrivatePrefix(full[..m]) {
      assert m > 1 ==> full[..m][m - 1] == main[m - 2];
    }
    StripFrom(full, j + 2, |full|);
  }

  // With the only candidate at `m`, stripping removes at most `m` components.
  lemma {:induction false} StripFrom(n: Name, m: nat, k: nat)
    requires m <= k <= |n|
    requires forall i :: 0 < i <= k && i != m ==> !IsPrivatePrefix(n[..i])
    ensures |Strip(n, k)| >= |n| - m
  {
    if k > m {
      StripFrom(n, m, k - 1);
    } else if k > 0 && !IsPrivatePrefix(n[..k]) {
      StripNone(n, k - 1);
    }
  }

  lemma {:induction false} FirstNum(n: Name) returns (j: nat)
    requires !AllStr(n)
    ensures j < |n| && n[j].Num? && forall i :: 0 <= i < j ==> n[i].Str?
  {
    if n[0].Num? {
      j := 0;
    } else {
      assert forall k :: 0 < k < |n| ==> n[k] == n[1..][k - 1];
      var i := FirstNum(n[1..]);
      j := i + 1;
      forall k | 0 <= k < j ensures n[k].Str? {
        if k > 0 { assert n[1..][k - 1].Str?; }
      }
    }
  }

  // Making a private name twice is making it once, under the same condition.
  lemma {:induction false} MakeTwice(main: Name, n: Name)
    ensures MkPrivate(main, MkPrivate(main, n)) == MkPrivate(main, n) <==> AllStr(main)
  {
    StripMake(main, n);
    var pre, a, b := PrivatePrefix(main), PrivateToUser(MkPrivate(main, n)), PrivateToUser(n);
    assert (pre + a)[|pre|..] == a && (pre + b)[|pre|..] == b;
  }
}
