/** Global name resolution: which constants an identifier can mean, and how many trailing components are fields. */
module Resolve {
  import opened Options
  import opened Names

  datatype OpenDecl = Simple(ns: Name, except: seq<Name>) | Explicit(id: Name, decl: Name)

  // Declared constants, the protected ones, alias tables, the current namespace, the main module, the open
  // declarations.
  datatype Context = Context(consts: set<Name>, guarded: set<Name>, aliases: map<Name, seq<Name>>,
                             ns: Name, main: Name, opens: seq<OpenDecl>)

  // ----- one step, as functions -----

  function Unprotected(c: Context, es: seq<Name>): (r: seq<Name>)
    ensures forall x :: x in r <==> x in es && x !in c.guarded
  {
    if es == [] then [] else (if es[0] in c.guarded then [] else [es[0]]) + Unprotected(c, es[1..])
  }

  function GetAliases(c: Context, a: Name, skipProtected: bool): seq<Name> {
    if a !in c.aliases then [] else if skipProtected then Unprotected(c, c.aliases[a]) else c.aliases[a]
  }

  function IsAtomic(n: Name): bool { |n| <= 1 }

  function PrivateOf(c: Context, n: Name): Option<Name> {
    if MkPrivate(c.main, n) in c.consts then Some(MkPrivate(c.main, n)) else None
  }

  function AsList(o: Option<Name>): seq<Name> {
    if o.Some? then [o.value] else []
  }

  // `ns ++ id`, or its private name, after nothing; then the aliases of `ns ++ id`.
  function Qualified(c: Context, ns: Name, id: Name): seq<Name> {
    var full := ns + id;
    var atomic := IsAtomic(id);
    (if atomic && full in c.guarded then [] else if full in c.consts then [full] else AsList(PrivateOf(c, full)))
    + GetAliases(c, full, atomic)
  }

  const ROOT := Str("_root_")

  // A non-atomic `id` with a leading `_root_` dropped, or its private name.
  function Exact(c: Context, id: Name): Option<Name> {
    if IsAtomic(id) then None else
      var n := ReplacePrefix(id, [ROOT], []);
      if n == [] then None else if n in c.consts then Some(n) else PrivateOf(c, n)
  }

  function Opened(c: Context, id: Name, d: OpenDecl): seq<Name> {
    match d
    case Simple(ns, except) => if id in except then [] else Qualified(c, ns, id)
    case Explicit(o, decl) =>
      if o == id then [decl]
      else if o <= id && ReplacePrefix(id, o, decl) in c.consts && ReplacePrefix(id, o, decl) != [] then
        [ReplacePrefix(id, o, decl)]
      else []
  }

  // Each later open declaration goes in front.
  function OpenedAll(c: Context, id: Name, n: nat): seq<Name>
    requires n <= |c.opens|
  {
    if n == 0 then [] else Opened(c, id, c.opens[n - 1]) + OpenedAll(c, id, n - 1)
  }

  // What is found outside the namespaces, with nothing exact.
  function Outside(c: Context, id: Name): seq<Name> {
    GetAliases(c, id, IsAtomic(id)) + OpenedAll(c, id, |c.opens|) + AsList(PrivateOf(c, id))
      + if id in c.consts then [id] else []
  }

  // Everything `id` itself can mean; the innermost enclosing namespace with a hit is the first `hit` components of the
  // current one, none if zero.
  function Candidates(c: Context, id: Name, hit: nat): seq<Name>
    requires hit <= |c.ns|
  {
    if hit > 0 then Qualified(c, c.ns[..hit], id)
    else if Exact(c, id).Some? then [Exact(c, id).value]
    else Outside(c, id)
  }

  // ----- the innermost namespace -----

  predicate Misses(c: Context, id: Name, k: nat)
    requires k <= |c.ns|
  {
    Qualified(c, c.ns[..k], id) == []
  }

  // The first `k` components are the current namespace or a parent of it, with no numeric component in between.
  predicate Encloses(c: Context, k: nat) {
    0 < k <= |c.ns| && forall m :: k - 1 <= m < |c.ns| ==> c.ns[m].Str?
  }

  ghost predicate Innermost(c: Context, id: Name, hit: nat) {
    && hit <= |c.ns|
    && (hit > 0 ==> Encloses(c, hit) && !Misses(c, id, hit))
    && (forall k: nat {:trigger Misses(c, id, k)} :: k <= |c.ns| && hit < k && Encloses(c, k) ==> Misses(c, id, k))
  }

  // There is exactly one innermost hit, or none.
  lemma {:induction false} InnermostUnique(c: Context, id: Name, a: nat, b: nat)
    requires Innermost(c, id, a) && Innermost(c, id, b)
    ensures a == b
  {
    var atA, atB := Misses(c, id, a), Misses(c, id, b);
  }

  // The namespaces longer than `n` all enclose and all miss.
  ghost predicate MissedAbove(c: Context, id: Name, n: nat) {
    && n <= |c.ns|
    && (forall m :: n <= m < |c.ns| ==> c.ns[m].Str?)
    && (forall k: nat {:trigger Misses(c, id, k)} :: k <= |c.ns| && n < k ==> Misses(c, id, k))
  }

  lemma {:induction false} HitHere(c: Context, id: Name, n: nat)
    requires MissedAbove(c, id, n) && 0 < n && c.ns[n - 1].Str?
    ensures if Misses(c, id, n) then MissedAbove(c, id, n - 1) else Innermost(c, id, n)
  {
  }

  lemma {:induction false} NoneFurther(c: Context, id: Name, n: nat)
    requires MissedAbove(c, id, n) && (n > 0 ==> !c.ns[n - 1].Str?)
    ensures Innermost(c, id, 0)
  {
    forall k: nat {:trigger Misses(c, id, k)} | k <= |c.ns| && 0 < k && Encloses(c, k) ensures Misses(c, id, k) {
      assert n < k;
    }
  }

  /** `resolve_using_namespace`: inside out, stopping at the first hit or at a numeric component. */
  method UsingNamespace(c: Context, id: Name) returns (found: seq<Name>, ghost hit: nat)
    ensures Innermost(c, id, hit) && found == (if hit == 0 then [] else Qualified(c, c.ns[..hit], id))
    ensures found != [] <==> hit != 0
  {
    var n: nat := |c.ns|;
    while n > 0 && c.ns[n - 1].Str?
      invariant MissedAbove(c, id, n)
    {
      found := Qualified(c, c.ns[..n], id);
      HitHere(c, id, n);
      if found != [] {
        hit := n;
        return;
      }
      n := n - 1;
    }
    found, hit := [], 0;
    NoneFurther(c, id, n);
  }

  /** `resolve_open_decls`, each hit in front of what is there. */
  method OpenDecls(c: Context, id: Name, start: seq<Name>) returns (resolved: seq<Name>)
    ensures resolved == OpenedAll(c, id, |c.opens|) + start
  {
    resolved := start;
    for k := 0 to |c.opens|
      invariant resolved == OpenedAll(c, id, k) + start
    {
      resolved := OpenOne(c, id, c.opens[k], resolved);
    }
  }

  method OpenOne(c: Context, id: Name, d: OpenDecl, resolved: seq<Name>) returns (r: seq<Name>)
    ensures r == Opened(c, id, d) + resolved
  {
    r := resolved;
    match d {
      case Simple(ns, except) =>
        if id !in except {
          r := Qualified(c, ns, id) + resolved;
        }
      case Explicit(o, decl) =>
        if o == id {
          r := [decl] + resolved;
        } else if o <= id {
          var n := ReplacePrefix(id, o, decl);
          if n != [] && n in c.consts {
            r := [n] + resolved;
          }
        }
    }
  }

  // ----- the whole search -----

  ghost predicate NoRepeat<T>(s: seq<T>) {
    forall i, j :: 0 <= i < j < |s| ==> s[i] != s[j]
  }

  // The candidates of the first `k` components.
  ghost predicate Means(c: Context, ident: Name, k: nat, names: seq<Name>) {
    k <= |ident| && exists hit :: Innermost(c, ident[..k], hit) && names == Candidates(c, ident[..k], hit)
  }

  ghost predicate Nothing(c: Context, ident: Name, k: nat) {
    Means(c, ident, k, [])
  }

  // No prefix longer than `k` components means anything.
  ghost predicate NothingAbove(c: Context, ident: Name, k: nat) {
    forall m: nat {:trigger Nothing(c, ident, m)} :: k < m <= |ident| ==> Nothing(c, ident, m)
  }

  // `r` is what the longest prefix with any candidate means, once each, with the rest as fields.
  ghost predicate Resolves(c: Context, ident: Name, r: seq<(Name, nat)>) {
    if r == [] then NothingAbove(c, ident, 0)
    else exists k: nat, names :: LongestMeans(c, ident, k, names) && SameOnce(r, names, |ident| - k)
  }

  ghost predicate LongestMeans(c: Context, ident: Name, k: nat, names: seq<Name>) {
    0 < k <= |ident| && Means(c, ident, k, names) && names != [] && NothingAbove(c, ident, k)
  }

  ghost predicate Listed(r: seq<(Name, nat)>, x: Name) {
    exists i :: 0 <= i < |r| && r[i].0 == x
  }

  ghost predicate SameOnce(r: seq<(Name, nat)>, names: seq<Name>, fields: int) {
    && NoRepeat(r)
    && (forall i :: 0 <= i < |r| ==> r[i].1 == fields && r[i].0 in names)
    && (forall x {:trigger Listed(r, x)} :: x in names ==> Listed(r, x))
  }

  /** `resolve_global_name` */
  method ResolveGlobalName(c: Context, ident: Name) returns (r: seq<(Name, nat)>)
    ensures Resolves(c, ident, r)
  {
    var k: nat := |ident|;
    while k > 0
      invariant k <= |ident| && NothingAbove(c, ident, k)
    {
      var names := OneStep(c, ident, k);
      if names != [] {
        r := EraseDups(names, |ident| - k);
        assert LongestMeans(c, ident, k, names);
        return;
      }
      OneLess(c, ident, k);
      k := k - 1;
    }
    r := [];
  }

  lemma {:induction false} OneLess(c: Context, ident: Name, k: nat)
    requires 0 < k <= |ident| && NothingAbove(c, ident, k) && Means(c, ident, k, [])
    ensures NothingAbove(c, ident, k - 1)
  {
    assert Nothing(c, ident, k);
  }

  method OneStep(c: Context, ident: Name, k: nat) returns (names: seq<Name>)
    requires 0 < k <= |ident|
    ensures Means(c, ident, k, names)
  {
    var id := ident[..k];
    ghost var hit;
    names, hit := UsingNamespace(c, id);
    if names != [] {
      return;
    }
    var exact := Exact(c, id);
    if exact.Some? {
      assert Candidates(c, id, hit) == [exact.value];
      return [exact.value];
    }
    var found: seq<Name> := if id in c.consts then [id] else [];
    var private := PrivateOf(c, id);
    if private.Some? {
      found := [private.value] + found;
    }
    found := OpenDecls(c, id, found);
    names := GetAliases(c, id, IsAtomic(id)) + found;
    assert names == Outside(c, id);
  }

  method EraseDups(names: seq<Name>, fields: nat) returns (r: seq<(Name, nat)>)
    requires names != []
    ensures SameOnce(r, names, fields) && r != []
  {
    r := [];
    for i := 0 to |names|
      invariant NoRepeat(r) && (forall j :: 0 <= j < |r| ==> r[j].1 == fields && r[j].0 in names)
      invariant forall x {:trigger Listed(r, x)} :: x in names[..i] ==> Listed(r, x)
      invariant i > 0 ==> r != []
    {
      ghost var before := r;
      if (names[i], fields) !in r {
        r := r + [(names[i], fields)];
      }
      assert before <= r;
      forall x {:trigger Listed(r, x)} | x in names[..i + 1] ensures Listed(r, x) {
        if x == names[i] {
          var j :| 0 <= j < |r| && r[j] == (x, fields);
        } else {
          assert Listed(before, x);
          var j :| 0 <= j < |before| && before[j].0 == x;
          assert r[j].0 == x;
        }
      }
    }
    assert names[..|names|] == names;
  }

  // ----- what a candidate can be -----

  ghost predicate Justified(c: Context, x: Name) {
    || x in c.consts
    || (exists a :: a in c.aliases && x in c.aliases[a])
    || (exists k :: 0 <= k < |c.opens| && c.opens[k].Explicit? && c.opens[k].decl == x)
  }

  lemma {:induction false} QualifiedJustified(c: Context, ns: Name, id: Name, x: Name)
    requires x in Qualified(c, ns, id)
    ensures x in c.consts || (ns + id in c.aliases && x in c.aliases[ns + id])
    ensures Justified(c, x)
  {
  }

  lemma {:induction false} OpenedJustified(c: Context, id: Name, n: nat, x: Name)
    requires n <= |c.opens| && x in OpenedAll(c, id, n)
    ensures Justified(c, x)
  {
    var d := c.opens[n - 1];
    if x in Opened(c, id, d) {
      if d.Simple? { QualifiedJustified(c, d.ns, id, x); }
    } else {
      OpenedJustified(c, id, n - 1, x);
    }
  }

  // Every candidate is declared, an alias target, or the target of an explicit `open`.
  lemma {:induction false} CandidatesJustified(c: Context, id: Name, hit: nat, x: Name)
    requires hit <= |c.ns| && x in Candidates(c, id, hit)
    ensures Justified(c, x)
  {
    if hit > 0 {
      QualifiedJustified(c, c.ns[..hit], id, x);
    } else if Exact(c, id).None? && x in OpenedAll(c, id, |c.opens|) {
      OpenedJustified(c, id, |c.opens|, x);
    }
  }

  lemma {:induction false} ResolvesJustified(c: Context, ident: Name, r: seq<(Name, nat)>, i: nat, j: nat)
    requires Resolves(c, ident, r) && i < |r| && j < |r|
    ensures Justified(c, r[i].0) && r[i].1 == r[j].1 < |ident|
    ensures i != j ==> r[i].0 != r[j].0
  {
    var k: nat, names :| LongestMeans(c, ident, k, names) && SameOnce(r, names, |ident| - k);
    assert 0 < k <= |ident|;
    var hit :| Innermost(c, ident[..k], hit) && names == Candidates(c, ident[..k], hit);
    CandidatesJustified(c, ident[..k], hit, r[i].0);
  }

  // A namespace hit is never mixed with anything from the root, from open declarations or from root aliases.
  lemma {:induction false} NamespaceHitIsPure(c: Context, ident: Name, r: seq<(Name, nat)>, k: nat, hit: nat, i: nat)
    requires Resolves(c, ident, r) && i < |r| && 0 < k <= |ident| && r[i].1 == |ident| - k
    requires hit > 0 && Innermost(c, ident[..k], hit)
    ensures r[i].0 in Qualified(c, c.ns[..hit], ident[..k])
  {
    var m: nat, names :| LongestMeans(c, ident, m, names) && SameOnce(r, names, |ident| - m);
    assert m == k;
    MeansByHit(c, ident, k, names, hit);
  }

  lemma {:induction false} MeansByHit(c: Context, ident: Name, k: nat, names: seq<Name>, hit: nat)
    requires Means(c, ident, k, names) && Innermost(c, ident[..k], hit)
    ensures names == Candidates(c, ident[..k], hit)
  {
    var other :| Innermost(c, ident[..k], other) && names == Candidates(c, ident[..k], other);
    InnermostUnique(c, ident[..k], hit, other);
  }

  // ----- protected names -----

  // `full` is neither protected nor declared, but its private name is: protection reads the public name.
  predicate PrivateHit(c: Context, full: Name, x: Name) {
    full !in c.guarded && full !in c.consts && PrivateOf(c, full) == Some(x)
  }

  // An open declaration leads from `id` to the protected `x`: an explicit one names it, or a private name hides it.
  ghost predicate OpenEscape(c: Context, id: Name, d: OpenDecl, x: Name) {
    match d
    case Simple(ns, except) => id !in except && PrivateHit(c, ns + id, x)
    case Explicit(o, decl) =>
      if o == id then x == decl else o <= id && x == ReplacePrefix(id, o, decl) && x in c.consts && x != []
  }

  // One of the first `n` open declarations does.
  ghost predicate AnyOpenEscape(c: Context, id: Name, n: nat, x: Name)
    requires n <= |c.opens|
  {
    n > 0 && (OpenEscape(c, id, c.opens[n - 1], x) || AnyOpenEscape(c, id, n - 1, x))
  }

  lemma {:induction false} AnyOpenEscapeExact(c: Context, id: Name, n: nat, x: Name)
    requires n <= |c.opens|
    ensures AnyOpenEscape(c, id, n, x) <==> exists k :: 0 <= k < n && OpenEscape(c, id, c.opens[k], x)
  {
    if n > 0 { AnyOpenEscapeExact(c, id, n - 1, x); }
  }

  // Everything that leads from one component to a protected name.
  ghost predicate Escapes(c: Context, id: Name, hit: nat, x: Name)
    requires hit <= |c.ns|
  {
    if hit > 0 then PrivateHit(c, c.ns[..hit] + id, x) else
      || (x == id && id in c.consts)
      || PrivateOf(c, id) == Some(x)
      || AnyOpenEscape(c, id, |c.opens|, x)
  }

  lemma {:induction false} QualifiedEscape(c: Context, ns: Name, id: Name, x: Name)
    requires IsAtomic(id) && x in c.guarded
    ensures x in Qualified(c, ns, id) <==> PrivateHit(c, ns + id, x)
  {
  }

  lemma {:induction false} OneOpenEscape(c: Context, id: Name, d: OpenDecl, x: Name)
    requires IsAtomic(id) && x in c.guarded
    ensures x in Opened(c, id, d) <==> OpenEscape(c, id, d, x)
  {
    if d.Simple? { QualifiedEscape(c, d.ns, id, x); }
  }

  lemma {:induction false} OpenedEscape(c: Context, id: Name, n: nat, x: Name)
    requires n <= |c.opens| && IsAtomic(id) && x in c.guarded
    ensures x in OpenedAll(c, id, n) <==> AnyOpenEscape(c, id, n, x)
  {
    if n > 0 {
      OpenedEscape(c, id, n - 1, x);
      OneOpenEscape(c, id, c.opens[n - 1], x);
      InEither(x, Opened(c, id, c.opens[n - 1]), OpenedAll(c, id, n - 1));
    }
  }

  lemma {:induction false} InEither(x: Name, a: seq<Name>, b: seq<Name>)
    ensures x in a + b <==> x in a || x in b
  {
  }

  lemma {:induction false} CandidatesEscape(c: Context, id: Name, hit: nat, x: Name)
    requires hit <= |c.ns| && IsAtomic(id) && x in c.guarded
    ensures x in Candidates(c, id, hit) <==> Escapes(c, id, hit, x)
  {
    if hit > 0 {
      QualifiedEscape(c, c.ns[..hit], id, x);
    } else {
      OpenedEscape(c, id, |c.opens|, x);
    }
  }

  // When no longer prefix means anything, one component resolves to a protected name exactly by the escapes; through a
  // namespace, an alias or a plain `open` of the namespace it is never found under its own name.
  lemma {:induction false} ProtectedNeedsQualification(c: Context, ident: Name, r: seq<(Name, nat)>, hit: nat, x: Name)
    requires Resolves(c, ident, r) && ident != [] && NothingAbove(c, ident, 1)
    requires Innermost(c, ident[..1], hit) && x in c.guarded
    ensures Listed(r, x) <==> Escapes(c, ident[..1], hit, x)
  {
    CandidatesEscape(c, ident[..1], hit, x);
    ListsCandidates(c, ident, r, hit, x);
  }

  lemma {:induction false} ListsCandidates(c: Context, ident: Name, r: seq<(Name, nat)>, hit: nat, x: Name)
    requires Resolves(c, ident, r) && ident != [] && NothingAbove(c, ident, 1) && Innermost(c, ident[..1], hit)
    ensures Listed(r, x) <==> x in Candidates(c, ident[..1], hit)
  {
    if r == [] {
      assert Nothing(c, ident, 1);
      MeansByHit(c, ident, 1, [], hit);
    } else {
      var k: nat, names :| LongestMeans(c, ident, k, names) && SameOnce(r, names, |ident| - k);
      LongestIsOne(c, ident, k, names);
      MeansByHit(c, ident, 1, names, hit);
    }
  }

  lemma {:induction false} LongestIsOne(c: Context, ident: Name, k: nat, names: seq<Name>)
    requires LongestMeans(c, ident, k, names) && NothingAbove(c, ident, 1)
    ensures k == 1
  {
    if k > 1 {
      assert Nothing(c, ident, k);
      MeansOnce(c, ident, k, names, []);
    }
  }

  lemma {:induction false} MeansOnce(c: Context, ident: Name, k: nat, names: seq<Name>, other: seq<Name>)
    requires Means(c, ident, k, names) && Means(c, ident, k, other)
    ensures names == other
  {
    var hit :| Innermost(c, ident[..k], hit) && names == Candidates(c, ident[..k], hit);
    MeansByHit(c, ident, k, other, hit);
  }

  // A protected name of several components is out of reach of its last one when nothing is private to the module and
  // no `open` names a constant.
  lemma {:induction false} ProtectedIsHidden(c: Context, ident: Name, r: seq<(Name, nat)>, hit: nat, x: Name)
    requires Resolves(c, ident, r) && ident != [] && NothingAbove(c, ident, 1)
    requires Innermost(c, ident[..1], hit) && x in c.guarded && |x| > 1
    requires forall n: Name :: MkPrivate(c.main, n) !in c.consts
    requires forall k :: 0 <= k < |c.opens| ==> c.opens[k].Simple?
    ensures !Listed(r, x)
  {
    ProtectedNeedsQualification(c, ident, r, hit, x);
    AnyOpenEscapeExact(c, ident[..1], |c.opens|, x);
  }

  // ----- what is found -----

  // Written as one component, a protected name is hidden; written with several it is not.
  predicate Hidden(c: Context, id: Name, x: Name) {
    |id| <= 1 && x in c.guarded
  }

  // `full`, which is some namespace followed by `id`, is declared, private to the main module, or an
  // alias of something.
  predicate Meaningful(c: Context, id: Name, full: Name) {
    || (!Hidden(c, id, full) && (full in c.consts || MkPrivate(c.main, full) in c.consts))
    || (full in c.aliases && exists a :: a in c.aliases[full] && !Hidden(c, id, a))
  }

  predicate MayMean(c: Context, full: Name, x: Name) {
    x == full || x == MkPrivate(c.main, full) || (full in c.aliases && x in c.aliases[full])
  }

  // `r` holds what `full` means with no fields left over: itself if declared, else its private name, and its aliases.
  ghost predicate Finds(c: Context, id: Name, full: Name, r: seq<(Name, nat)>) {
    && (full in c.consts && !Hidden(c, id, full) ==> (full, 0) in r)
    && (full !in c.consts && MkPrivate(c.main, full) in c.consts && !Hidden(c, id, full) ==>
          (MkPrivate(c.main, full), 0) in r)
    && (full in c.aliases ==> forall a :: a in c.aliases[full] && !Hidden(c, id, a) ==> (a, 0) in r)
  }

  lemma {:induction false} QualifiedFinds(c: Context, ns: Name, id: Name, x: Name)
    ensures x in Qualified(c, ns, id) ==>
              Meaningful(c, id, ns + id) && MayMean(c, ns + id, x)
    ensures ns + id in c.consts && !Hidden(c, id, ns + id) ==> ns + id in Qualified(c, ns, id)
    ensures ns + id !in c.consts && MkPrivate(c.main, ns + id) in c.consts && !Hidden(c, id, ns + id) ==>
              MkPrivate(c.main, ns + id) in Qualified(c, ns, id)
    ensures ns + id in c.aliases ==>
              forall a :: a in c.aliases[ns + id] && !Hidden(c, id, a) ==> a in Qualified(c, ns, id)
  {
  }

  lemma {:induction false} MissIsMeaningless(c: Context, id: Name, k: nat)
    requires k <= |c.ns|
    ensures Misses(c, id, k) <==> !Meaningful(c, id, c.ns[..k] + id)
  {
    var q := Qualified(c, c.ns[..k], id);
    if q != [] {
      QualifiedFinds(c, c.ns[..k], id, q[0]);
    } else {
      QualifiedFinds(c, c.ns[..k], id, []);
    }
  }

  // Everything an identifier means as a whole is listed, without fields, before any prefix of it is tried.
  lemma {:induction false} WholeFirst(c: Context, ident: Name, r: seq<(Name, nat)>, hit: nat)
    requires Resolves(c, ident, r) && ident != [] && Innermost(c, ident, hit) && Candidates(c, ident, hit) != []
    ensures forall x :: x in Candidates(c, ident, hit) <==> (x, 0) in r
    ensures forall e :: e in r ==> e.1 == 0
    ensures r != []
  {
    assert ident[..|ident|] == ident;
    if r == [] {
      assert Nothing(c, ident, |ident|);
      MeansByHit(c, ident, |ident|, [], hit);
      assert false;
    }
    var k: nat, names :| LongestMeans(c, ident, k, names) && SameOnce(r, names, |ident| - k);
    if k < |ident| {
      assert Nothing(c, ident, |ident|);
      MeansByHit(c, ident, |ident|, [], hit);
      assert false;
    }
    MeansByHit(c, ident, k, names, hit);
    forall x | x in names ensures (x, 0) in r {
      assert Listed(r, x);
      var i :| 0 <= i < |r| && r[i].0 == x;
      assert r[i] == (x, 0);
    }
  }

  // The innermost enclosing namespace in which the identifier means anything decides, and everything it means there is
  // found: protected names too, unless the identifier is a single component.
  lemma {:induction false} NamespaceFinds(c: Context, ident: Name, r: seq<(Name, nat)>, k: nat)
    requires Resolves(c, ident, r) && ident != [] && Encloses(c, k) && Meaningful(c, ident, c.ns[..k] + ident)
    requires forall m: nat :: k < m <= |c.ns| && Encloses(c, m) ==> !Meaningful(c, ident, c.ns[..m] + ident)
    ensures Finds(c, ident, c.ns[..k] + ident, r)
    ensures forall e :: e in r ==> e.1 == 0 && MayMean(c, c.ns[..k] + ident, e.0)
  {
    MissIsMeaningless(c, ident, k);
    forall m: nat {:trigger Misses(c, ident, m)} | m <= |c.ns| && k < m && Encloses(c, m) ensures Misses(c, ident, m) {
      MissIsMeaningless(c, ident, m);
    }
    assert Innermost(c, ident, k);
    WholeFirst(c, ident, r, k);
    QualifiedFinds(c, c.ns[..k], ident, []);
    forall e | e in r ensures e.1 == 0 && MayMean(c, c.ns[..k] + ident, e.0) {
      assert (e.0, 0) in r;
      QualifiedFinds(c, c.ns[..k], ident, e.0);
    }
  }

  // No enclosing namespace gives the identifier a meaning.
  ghost predicate NoNamespace(c: Context, ident: Name) {
    forall k: nat :: k <= |c.ns| && Encloses(c, k) ==> !Meaningful(c, ident, c.ns[..k] + ident)
  }

  lemma {:induction false} NoNamespaceHit(c: Context, ident: Name)
    requires NoNamespace(c, ident)
    ensures Innermost(c, ident, 0)
  {
    forall k: nat {:trigger Misses(c, ident, k)} | k <= |c.ns| && 0 < k && Encloses(c, k) ensures Misses(c, ident, k) {
      MissIsMeaningless(c, ident, k);
    }
  }

  // `_root_.n` is `n` and nothing else, whatever is opened or aliased.
  lemma {:induction false} RootFinds(c: Context, n: Name, r: seq<(Name, nat)>)
    requires n != [] && n in c.consts && NoNamespace(c, [ROOT] + n) && Resolves(c, [ROOT] + n, r)
    ensures r == [(n, 0)]
  {
    var ident := [ROOT] + n;
    assert ReplacePrefix(ident, [ROOT], []) == n;
    ExactFinds(c, ident, n, r);
  }

  // A declared name of several components that no enclosing namespace captures is itself and nothing else.
  lemma {:induction false} DeclaredFinds(c: Context, ident: Name, r: seq<(Name, nat)>)
    requires |ident| >= 2 && ident in c.consts && ident[0] != ROOT && NoNamespace(c, ident) && Resolves(c, ident, r)
    ensures r == [(ident, 0)]
  {
    ExactFinds(c, ident, ident, r);
  }

  lemma {:induction false} ExactFinds(c: Context, ident: Name, n: Name, r: seq<(Name, nat)>)
    requires |ident| >= 2 && n != [] && n in c.consts && ReplacePrefix(ident, [ROOT], []) == n
    requires NoNamespace(c, ident) && Resolves(c, ident, r)
    ensures r == [(n, 0)]
  {
    NoNamespaceHit(c, ident);
    assert Candidates(c, ident, 0) == [n];
    WholeFirst(c, ident, r, 0);
    assert (n, 0) in r;
    forall i | 0 <= i < |r| ensures r[i] == (n, 0) {
      assert r[i] in r && r[i].1 == 0;
      assert (r[i].0, 0) in r;
    }
    OnlyOne(c, ident, r, (n, 0));
  }

  lemma {:induction false} OnlyOne(c: Context, ident: Name, r: seq<(Name, nat)>, e: (Name, nat))
    requires Resolves(c, ident, r) && r != [] && forall i :: 0 <= i < |r| ==> r[i] == e
    ensures r == [e]
  {
    var k: nat, names :| LongestMeans(c, ident, k, names) && SameOnce(r, names, |ident| - k);
    var first, last := r[0], r[|r| - 1];
    assert |r| > 1 ==> first != last;
  }

  lemma {:induction false} OpenedHas(c: Context, id: Name, n: nat, j: nat, x: Name)
    requires j < n <= |c.opens| && x in Opened(c, id, c.opens[j])
    ensures x in OpenedAll(c, id, n)
  {
    if j < n - 1 { OpenedHas(c, id, n - 1, j, x); }
    OpenedSplit(c, id, n, x);
  }

  lemma {:induction false} OpenedSplit(c: Context, id: Name, n: nat, x: Name)
    requires 0 < n <= |c.opens|
    ensures x in OpenedAll(c, id, n) <==> x in Opened(c, id, c.opens[n - 1]) || x in OpenedAll(c, id, n - 1)
  {
    InEither(x, Opened(c, id, c.opens[n - 1]), OpenedAll(c, id, n - 1));
  }

  // Outside every namespace, and with nothing exact, everything the identifier means in an opened namespace is found:
  // again protected names too unless it is a single component.
  lemma {:induction false} OpenFinds(c: Context, ident: Name, r: seq<(Name, nat)>, j: nat)
    requires Resolves(c, ident, r) && ident != [] && NoNamespace(c, ident) && Exact(c, ident).None?
    requires j < |c.opens| && c.opens[j].Simple? && ident !in c.opens[j].except
    requires Meaningful(c, ident, c.opens[j].ns + ident)
    ensures Finds(c, ident, c.opens[j].ns + ident, r)
  {
    var ns := c.opens[j].ns;
    NoNamespaceHit(c, ident);
    QualifiedFinds(c, ns, ident, []);
    forall x | x in Qualified(c, ns, ident) ensures x in Candidates(c, ident, 0) {
      OpenedHas(c, ident, |c.opens|, j, x);
    }
    OpenMeans(c, ns, ident);
    WholeFirst(c, ident, r, 0);
  }

  lemma {:induction false} OpenMeans(c: Context, ns: Name, id: Name)
    requires Meaningful(c, id, ns + id)
    ensures Qualified(c, ns, id) != []
  {
    QualifiedFinds(c, ns, id, []);
  }

  // The target of an explicit `open`, too, whether or not it is protected.
  lemma {:induction false} ExplicitFinds(c: Context, ident: Name, r: seq<(Name, nat)>, j: nat)
    requires Resolves(c, ident, r) && ident != [] && NoNamespace(c, ident) && Exact(c, ident).None?
    requires j < |c.opens| && c.opens[j].Explicit? && c.opens[j].id == ident
    ensures (c.opens[j].decl, 0) in r
  {
    NoNamespaceHit(c, ident);
    OpenedHas(c, ident, |c.opens|, j, c.opens[j].decl);
    assert c.opens[j].decl in Candidates(c, ident, 0);
    WholeFirst(c, ident, r, 0);
  }

  // Or what lies below it.
  lemma {:induction false} BelowExplicitFinds(c: Context, o: Name, rest: Name, r: seq<(Name, nat)>, j: nat)
    requires o != [] && rest != [] && Resolves(c, o + rest, r) && NoNamespace(c, o + rest) && Exact(c, o + rest).None?
    requires j < |c.opens| && c.opens[j].Explicit? && c.opens[j].id == o && c.opens[j].decl + rest in c.consts
    ensures (c.opens[j].decl + rest, 0) in r
  {
    var ident, x := o + rest, c.opens[j].decl + rest;
    NoNamespaceHit(c, ident);
    assert ident[..|o|] == o && ident[|o|..] == rest;
    assert Opened(c, ident, c.opens[j]) == [x];
    OpenedHas(c, ident, |c.opens|, j, x);
    assert x in Candidates(c, ident, 0);
    WholeFirst(c, ident, r, 0);
  }

  lemma {:induction false} SameMeans(c: Context, ident: Name, k: nat, m: nat, names: seq<Name>)
    requires m <= k <= |ident|
    ensures Means(c, ident[..k], m, names) <==> Means(c, ident, m, names)
    ensures Nothing(c, ident[..k], m) <==> Nothing(c, ident, m)
  {
    assert ident[..k][..m] == ident[..m];
  }

  // The longest prefix that means anything is one and the same however it is found.
  lemma {:induction false} LongestOnce(c: Context, ident: Name, j: nat, a: seq<Name>, k: nat, b: seq<Name>)
    requires LongestMeans(c, ident, j, a) && LongestMeans(c, ident, k, b)
    ensures j == k && a == b
  {
    if j < k {
      assert Nothing(c, ident, k);
      MeansOnce(c, ident, k, b, []);
    } else if k < j {
      assert Nothing(c, ident, j);
      MeansOnce(c, ident, j, a, []);
    } else {
      MeansOnce(c, ident, k, a, b);
    }
  }

  // When nothing longer than its first `k` components means anything, an identifier means what those mean, with the
  // components left over counted as fields in addition.
  lemma {:induction false} RestAreFields(c: Context, ident: Name, k: nat, r: seq<(Name, nat)>, p: seq<(Name, nat)>)
    requires k <= |ident| && NothingAbove(c, ident, k) && Resolves(c, ident, r) && Resolves(c, ident[..k], p)
    ensures forall x, n: nat :: (x, n) in p <==> (x, n + |ident| - k) in r
    ensures p == [] <==> r == []
  {
    if r != [] {
      var j: nat, names :| LongestMeans(c, ident, j, names) && SameOnce(r, names, |ident| - j);
      ShorterLongest(c, ident, k, j, names);
      MatchFields(c, ident, k, j, names, r, p);
    } else {
      forall m: nat {:trigger Nothing(c, ident[..k], m)} | 0 < m <= k ensures Nothing(c, ident[..k], m) {
        assert Nothing(c, ident, m);
        SameMeans(c, ident, k, m, []);
      }
      NothingIsEmpty(c, ident[..k], p);
    }
  }

  lemma {:induction false} NothingIsEmpty(c: Context, ident: Name, p: seq<(Name, nat)>)
    requires Resolves(c, ident, p) && NothingAbove(c, ident, 0)
    ensures p == []
  {
    if p != [] {
      var j: nat, names :| LongestMeans(c, ident, j, names) && SameOnce(p, names, |ident| - j);
      assert Nothing(c, ident, j);
      MeansOnce(c, ident, j, names, []);
    }
  }

  lemma {:induction false} ShorterLongest(c: Context, ident: Name, k: nat, j: nat, names: seq<Name>)
    requires k <= |ident| && NothingAbove(c, ident, k) && LongestMeans(c, ident, j, names)
    ensures j <= k && LongestMeans(c, ident[..k], j, names)
  {
    if j > k {
      assert Nothing(c, ident, j);
      MeansOnce(c, ident, j, names, []);
    }
    SameMeans(c, ident, k, j, names);
    forall m: nat {:trigger Nothing(c, ident[..k], m)} | j < m <= k ensures Nothing(c, ident[..k], m) {
      assert Nothing(c, ident, m);
      SameMeans(c, ident, k, m, []);
    }
  }

  lemma {:induction false} MatchFields(c: Context, ident: Name, k: nat, j: nat, names: seq<Name>,
                                       r: seq<(Name, nat)>, p: seq<(Name, nat)>)
    requires j <= k <= |ident| && LongestMeans(c, ident[..k], j, names) && SameOnce(r, names, |ident| - j)
    requires Resolves(c, ident[..k], p)
    ensures forall x, n: nat :: (x, n) in p <==> (x, n + |ident| - k) in r
    ensures p != []
  {
    ListsLongest(c, ident[..k], j, names, p);
    InSameOnce(r, names, |ident| - j);
    InSameOnce(p, names, k - j);
  }

  lemma {:induction false} ListsLongest(c: Context, ident: Name, j: nat, names: seq<Name>, p: seq<(Name, nat)>)
    requires LongestMeans(c, ident, j, names) && Resolves(c, ident, p)
    ensures p != [] && SameOnce(p, names, |ident| - j)
  {
    if p == [] {
      assert Nothing(c, ident, j);
      MeansOnce(c, ident, j, names, []);
    } else {
      var i: nat, others :| LongestMeans(c, ident, i, others) && SameOnce(p, others, |ident| - i);
      LongestOnce(c, ident, j, names, i, others);
    }
  }

  lemma {:induction false} InSameOnce(r: seq<(Name, nat)>, names: seq<Name>, fields: nat)
    requires SameOnce(r, names, fields)
    ensures forall x, n: nat :: (x, n) in r <==> x in names && n == fields
  {
    forall x, n: nat ensures (x, n) in r <==> x in names && n == fields {
      if x in names {
        assert Listed(r, x);
        var i :| 0 <= i < |r| && r[i].0 == x;
        assert r[i] == (x, fields);
      }
    }
  }
}
