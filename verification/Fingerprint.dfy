/** Content-Merkle fingerprints of modules: what is hashed, in what order it is computed, and what equality of two
    fingerprints says about everything behind them. */
module Fingerprint {
  import opened Digraph
  import opened ByteOrder
  import opened Waves

  const FP_LEN := 64

  // A printed digest: fixed width.
  type Fp = s: seq<Byte> | |s| == FP_LEN witness seq(FP_LEN, _ => 48)

  // Any byte string an input can be: no longer than half the address space.
  type Bytes = s: seq<Byte> | |s| < 0x8000_0000_0000_0000

  type Hash = seq<Byte> -> Fp

  datatype Env = Env(leanrVersion: Bytes, toolchainId: Bytes, platform: Bytes)

  // A pinned revision, or the serialised declared inputs of a root or path package.
  datatype Provenance = Rev(rev: Bytes) | Inputs(decls: Bytes)

  // A module's name is its components; there is at least one.
  type ModuleName = parts: seq<seq<Byte>> | parts != [] && |Render(parts)| < 0x8000_0000_0000_0000 witness [[]]

  function Display(name: ModuleName): Bytes { Render(name) }

  datatype Module = Module(name: ModuleName, provenance: Provenance, source: Bytes, setup: Bytes, deps: seq<nat>)

  type Workspace = seq<Module>

  function Ascii(s: string): (r: seq<Byte>)
    ensures |r| == |s| && forall k :: 0 <= k < |s| ==> r[k] == s[k] as int % 256
  {
    seq(|s|, k requires 0 <= k < |s| => s[k] as int % 256)
  }

  function ProvenanceBytes(p: Provenance): (r: seq<Byte>)
    ensures Sized(r)
  {
    match p
    case Rev(rev) => Ascii("rev\0") + rev
    case Inputs(decls) => Ascii("inputs\0") + decls
  }

  lemma {:induction false} ProvenanceInjective(p: Provenance, q: Provenance)
    requires ProvenanceBytes(p) == ProvenanceBytes(q)
    ensures p == q
  {
    var x, y := ProvenanceBytes(p), ProvenanceBytes(q);
    assert x[0] == (if p.Rev? then 'r' else 'i') as int;
    assert y[0] == (if q.Rev? then 'r' else 'i') as int;
    if p.Rev? {
      assert x[4..] == p.rev && y[4..] == q.rev;
    } else {
      assert x[7..] == p.decls && y[7..] == q.decls;
    }
  }

  // ----- one module -----

  // How an import enters its importer: displayed name, a zero byte, fingerprint.
  function ImportString(name: Bytes, fp: Fp): (r: seq<Byte>)
    ensures Sized(r)
  {
    name + [0] + fp
  }

  lemma {:induction false} ImportStringInjective(m: Bytes, f: Fp, n: Bytes, g: Fp)
    requires ImportString(m, f) == ImportString(n, g)
    ensures m == n && f == g
  {
    var x := ImportString(m, f);
    assert |m| == |n|;
    assert x[..|m|] == m && x[..|n|] == n;
    assert x[|m| + 1..] == f && x[|n| + 1..] == g;
  }

  function Fields(env: Env, m: Module, imports: seq<seq<Byte>>): (r: seq<seq<Byte>>)
    requires AllSized(imports)
    ensures AllSized(r)
  {
    [ Ascii("leanr-m2d-fingerprint-v2"), Display(m.name), env.leanrVersion, env.toolchainId, env.platform,
      ProvenanceBytes(m.provenance), m.source, m.setup, LittleEndian(|imports|, 8) ] + imports
  }

  function Stream(env: Env, m: Module, imports: seq<seq<Byte>>): seq<Byte>
    requires AllSized(imports)
  {
    PutAll(Fields(env, m, imports))
  }

  // The local inputs of two modules agree; a name counts by its pieces between dots.
  predicate SameInputs(m: Module, n: Module) {
    && CutAll(m.name) == CutAll(n.name)
    && m.provenance == n.provenance && m.source == n.source && m.setup == n.setup
  }

  // The stream determines every ambient and local input, the name up to its display, and the list of import strings.
  lemma {:induction false} StreamInjective(env: Env, m: Module, imports: seq<seq<Byte>>,
                                           env': Env, m': Module, imports': seq<seq<Byte>>)
    requires AllSized(imports) && AllSized(imports')
    ensures Stream(env, m, imports) == Stream(env', m', imports') <==>
              env == env' && SameInputs(m, m') && imports == imports'
  {
    RenderExact(m.name, m'.name);
    if Stream(env, m, imports) == Stream(env', m', imports') {
      var a, b := Fields(env, m, imports), Fields(env', m', imports');
      PutAllInjective(a, b);
      assert a[1] == b[1] && a[2] == b[2] && a[3] == b[3] && a[4] == b[4] && a[5] == b[5] && a[6] == b[6]
             && a[7] == b[7];
      assert a[9..] == imports && b[9..] == imports';
      ProvenanceInjective(m.provenance, m'.provenance);
    }
  }

  // The hasher as the source feeds it, field by field.
  method HashModule(hash: Hash, env: Env, m: Module, imports: seq<seq<Byte>>) returns (fp: Fp)
    requires AllSized(imports)
    ensures fp == hash(Stream(env, m, imports))
  {
    var h := Put(Ascii("leanr-m2d-fingerprint-v2"));
    h := h + Put(Display(m.name));
    h := h + Put(env.leanrVersion) + Put(env.toolchainId) + Put(env.platform);
    h := h + Put(ProvenanceBytes(m.provenance)) + Put(m.source) + Put(m.setup);
    h := h + Put(LittleEndian(|imports|, 8));
    ghost var fields := Fields(env, m, imports);
    HeaderStream(env, m, imports);
    for k := 0 to |imports|
      invariant h == PutAll(fields[..9 + k])
    {
      assert fields[..9 + k + 1][..9 + k] == fields[..9 + k];
      h := h + Put(imports[k]);
    }
    assert fields[..9 + |imports|] == fields;
    fp := hash(h);
  }

  lemma {:induction false} HeaderStream(env: Env, m: Module, imports: seq<seq<Byte>>)
    requires AllSized(imports)
    ensures PutAll(Fields(env, m, imports)[..9]) ==
              Put(Ascii("leanr-m2d-fingerprint-v2")) + Put(Display(m.name))
              + Put(env.leanrVersion) + Put(env.toolchainId) + Put(env.platform)
              + Put(ProvenanceBytes(m.provenance)) + Put(m.source) + Put(m.setup) + Put(LittleEndian(|imports|, 8))
  {
    var f := Fields(env, m, imports);
    FirstFive(env, m, imports);
    PrefixStep(f, 5); PrefixStep(f, 6); PrefixStep(f, 7); PrefixStep(f, 8);
  }

  lemma {:induction false} FirstFive(env: Env, m: Module, imports: seq<seq<Byte>>)
    requires AllSized(imports)
    ensures AllSized(Fields(env, m, imports)[..5])
    ensures PutAll(Fields(env, m, imports)[..5]) ==
              Put(Ascii("leanr-m2d-fingerprint-v2")) + Put(Display(m.name))
              + Put(env.leanrVersion) + Put(env.toolchainId) + Put(env.platform)
  {
    var f := Fields(env, m, imports);
    PrefixStep(f, 0); PrefixStep(f, 1); PrefixStep(f, 2); PrefixStep(f, 3); PrefixStep(f, 4);
    assert f[..0] == [];
  }

  lemma {:induction false} PrefixStep(f: seq<seq<Byte>>, k: nat)
    requires AllSized(f) && k < |f|
    ensures AllSized(f[..k]) && AllSized(f[..k + 1]) && PutAll(f[..k + 1]) == PutAll(f[..k]) + Put(f[k])
  {
    assert f[..k + 1][..k] == f[..k];
  }

  // ----- the whole workspace -----

  function DepsOf(ws: Workspace): (g: Graph)
    ensures |g| == |ws| && forall i :: 0 <= i < |ws| ==> g[i] == ws[i].deps
  {
    seq(|ws|, i requires 0 <= i < |ws| => ws[i].deps)
  }

  ghost predicate WellFounded(ws: Workspace) {
    Acyclic(DepsOf(ws)) && InRange(DepsOf(ws))
  }

  // Every node of an acyclic graph is built within as many waves as there are nodes.
  lemma {:induction false} AcyclicCloses(g: Graph, i: nat)
    requires Acyclic(g) && InRange(g) && i < |g|
    ensures i in Closed(g, |g|)
  {
    if i !in Closed(g, |g|) {
      var p := OpenHasChain(g, |g|, i);
      forall k | 0 <= k < |p| ensures p[k] < |g| {
        if k > 0 {
          assert Edge(g, p[k - 1], p[k - 1 + 1]);
          var j :| 0 <= j < |g[p[k - 1]]| && g[p[k - 1]][j] == p[k];
        }
      }
      if NoDup(p) {
        IdsSize(p);
        SubsetBound(Ids(p), |g|);
      }
      var x, y :| 0 <= x < y < |p| && p[x] == p[y];
      WalkSlice(g, p, x, y + 1);
      assert ClosedWalk(g, p[x..y + 1]);
    }
  }

  // Depth of a module in the import graph: the measure that makes the Merkle recursion well-founded.
  ghost function Depth(ws: Workspace, i: nat): nat
    requires WellFounded(ws) && i < |ws|
  {
    AcyclicCloses(DepsOf(ws), i);
    WaveOf(DepsOf(ws), |ws|, i)
  }

  lemma {:induction false} DepthDrops(ws: Workspace, i: nat, k: nat)
    requires WellFounded(ws) && i < |ws| && k < |ws[i].deps|
    ensures ws[i].deps[k] < |ws| && Depth(ws, ws[i].deps[k]) < Depth(ws, i)
  {
    var g, d := DepsOf(ws), ws[i].deps[k];
    assert g[i][k] == d;
    AcyclicCloses(g, i);
    AcyclicCloses(g, d);
    var n := WaveOf(g, |g|, i);
    InClosed(g, n, i);
    assert d in g[i];
    if n <= WaveOf(g, |g|, d) {
      ClosedWithin(g, n, WaveOf(g, |g|, d));
    }
  }

  // The fingerprint by recursion over imports, without any waves.
  ghost function FpOf(hash: Hash, env: Env, ws: Workspace, i: nat): Fp
    requires WellFounded(ws) && i < |ws|
    decreases Depth(ws, i), 1, 0
  {
    hash(StreamOf(hash, env, ws, i))
  }

  ghost function StreamOf(hash: Hash, env: Env, ws: Workspace, i: nat): seq<Byte>
    requires WellFounded(ws) && i < |ws|
    decreases Depth(ws, i), 0, |ws[i].deps| + 1
  {
    SortKeepsSizes(ImportStrings(hash, env, ws, i, |ws[i].deps|));
    Stream(env, ws[i], Sort(ImportStrings(hash, env, ws, i, |ws[i].deps|)))
  }

  // The import strings of the first `n` imports, unsorted.
  ghost function ImportStrings(hash: Hash, env: Env, ws: Workspace, i: nat, n: nat): (r: seq<seq<Byte>>)
    requires WellFounded(ws) && i < |ws| && n <= |ws[i].deps|
    ensures |r| == n && AllSized(r)
    decreases Depth(ws, i), 0, n
  {
    if n == 0 then [] else
      DepthDrops(ws, i, n - 1);
      var d := ws[i].deps[n - 1];
      ImportStrings(hash, env, ws, i, n - 1) + [ImportString(Display(ws[d].name), FpOf(hash, env, ws, d))]
  }

  lemma {:induction false} SortKeepsSizes(s: seq<seq<Byte>>)
    requires AllSized(s)
    ensures AllSized(Sort(s))
  {
    SortSorts(s);
    forall k | 0 <= k < |Sort(s)| ensures Sized(Sort(s)[k]) {
      assert Sort(s)[k] in multiset(Sort(s));
      assert Sort(s)[k] in s;
    }
  }

  lemma {:induction false} ImportStringsAt(hash: Hash, env: Env, ws: Workspace, i: nat, n: nat, k: nat)
    requires WellFounded(ws) && i < |ws| && k < n <= |ws[i].deps|
    ensures ws[i].deps[k] < |ws|
    ensures ImportStrings(hash, env, ws, i, n)[k] ==
              ImportString(Display(ws[ws[i].deps[k]].name), FpOf(hash, env, ws, ws[i].deps[k]))
  {
    DepthDrops(ws, i, k);
    if k < n - 1 { ImportStringsAt(hash, env, ws, i, n - 1, k); }
  }

  // ----- what a fingerprint stands for -----

  // Everything behind a module, the name as the pieces between its dots; imports form a bag, since neither their order
  // nor their ids matter.
  datatype Tree = Node(name: seq<seq<Byte>>, provenance: Provenance, source: Bytes, setup: Bytes,
                       imports: multiset<Tree>)

  ghost function TreeOf(ws: Workspace, i: nat): Tree
    requires WellFounded(ws) && i < |ws|
    decreases Depth(ws, i), 1, 0
  {
    var m := ws[i];
    Node(CutAll(m.name), m.provenance, m.source, m.setup, multiset(TreesOf(ws, i, |m.deps|)))
  }

  ghost function TreesOf(ws: Workspace, i: nat, n: nat): (r: seq<Tree>)
    requires WellFounded(ws) && i < |ws| && n <= |ws[i].deps|
    ensures |r| == n
    decreases Depth(ws, i), 0, n
  {
    if n == 0 then [] else
      DepthDrops(ws, i, n - 1);
      TreesOf(ws, i, n - 1) + [TreeOf(ws, ws[i].deps[n - 1])]
  }

  lemma {:induction false} TreesOfAt(ws: Workspace, i: nat, n: nat, k: nat)
    requires WellFounded(ws) && i < |ws| && k < n <= |ws[i].deps|
    ensures ws[i].deps[k] < |ws| && TreesOf(ws, i, n)[k] == TreeOf(ws, ws[i].deps[k])
  {
    DepthDrops(ws, i, k);
    if k < n - 1 { TreesOfAt(ws, i, n - 1, k); }
  }

  function Without<T>(s: seq<T>, l: nat): (r: seq<T>)
    requires l < |s|
    ensures |r| == |s| - 1
    ensures forall k :: 0 <= k < |r| ==> r[k] == s[if k < l then k else k + 1]
  {
    s[..l] + s[l + 1..]
  }

  lemma {:induction false} WithoutBag<T>(s: seq<T>, l: nat)
    requires l < |s|
    ensures multiset(s) == multiset(Without(s, l)) + multiset{s[l]}
  {
    assert s == s[..l] + [s[l]] + s[l + 1..];
  }

  // If equal labels have equal images, equal bags of labels have equal bags of images.
  lemma {:induction false} BagsTransfer<S, T>(xs: seq<S>, ys: seq<S>, ts: seq<T>, us: seq<T>)
    requires |xs| == |ts| && |ys| == |us| && multiset(xs) == multiset(ys)
    requires forall k, l :: 0 <= k < |xs| && 0 <= l < |ys| && xs[k] == ys[l] ==> ts[k] == us[l]
    ensures multiset(ts) == multiset(us)
  {
    if xs == [] {
      assert |multiset(ys)| == 0;
      assert us == [];
    } else {
      assert xs[0] in multiset(ys);
      var l :| 0 <= l < |ys| && ys[l] == xs[0];
      WithoutBag(xs, 0);
      WithoutBag(ys, l);
      assert multiset(Without(xs, 0)) == multiset(xs) - multiset{xs[0]};
      assert multiset(Without(ys, l)) == multiset(ys) - multiset{xs[0]};
      BagsTransfer(Without(xs, 0), Without(ys, l), Without(ts, 0), Without(us, l));
      WithoutBag(ts, 0);
      WithoutBag(us, l);
    }
  }

  // The hash does not collide on what these two workspaces feed it.
  ghost predicate NoCollision(hash: Hash, env: Env, ws: Workspace, env': Env, ws': Workspace)
    requires WellFounded(ws) && WellFounded(ws')
  {
    forall i: nat, j: nat :: i < |ws| && j < |ws'| ==>
      (hash(StreamOf(hash, env, ws, i)) == hash(StreamOf(hash, env', ws', j)) ==>
        StreamOf(hash, env, ws, i) == StreamOf(hash, env', ws', j))
  }

  // Two modules, of one workspace or of two, have the same fingerprint exactly when the environments agree and
  // everything behind the modules does.
  lemma {:induction false} FingerprintExact(hash: Hash, env: Env, ws: Workspace, i: nat, env': Env, ws': Workspace,
                                            j: nat)
    requires WellFounded(ws) && WellFounded(ws') && i < |ws| && j < |ws'|
    requires NoCollision(hash, env, ws, env', ws')
    ensures FpOf(hash, env, ws, i) == FpOf(hash, env', ws', j) <==> env == env' && TreeOf(ws, i) == TreeOf(ws', j)
    decreases Depth(ws, i)
  {
    var m, m' := ws[i], ws'[j];
    var xs, ys := ImportStrings(hash, env, ws, i, |m.deps|), ImportStrings(hash, env', ws', j, |m'.deps|);
    var ts, us := TreesOf(ws, i, |m.deps|), TreesOf(ws', j, |m'.deps|);
    SortKeepsSizes(xs);
    SortKeepsSizes(ys);
    StreamInjective(env, m, Sort(xs), env', m', Sort(ys));
    assert FpOf(hash, env, ws, i) == FpOf(hash, env', ws', j) <==>
           env == env' && SameInputs(m, m') && Sort(xs) == Sort(ys);
    SortExact(xs, ys);
    if env == env' {
      forall k, l | 0 <= k < |xs| && 0 <= l < |ys| ensures xs[k] == ys[l] <==> ts[k] == us[l] {
        ImportMatches(hash, env, ws, i, k, env', ws', j, l);
      }
      if Sort(xs) == Sort(ys) {
        BagsTransfer(xs, ys, ts, us);
      }
      if multiset(ts) == multiset(us) {
        BagsTransfer(ts, us, xs, ys);
      }
    }
  }

  lemma {:induction false} ImportMatches(hash: Hash, env: Env, ws: Workspace, i: nat, k: nat,
                                         env': Env, ws': Workspace, j: nat, l: nat)
    requires WellFounded(ws) && WellFounded(ws') && i < |ws| && j < |ws'| && k < |ws[i].deps| && l < |ws'[j].deps|
    requires NoCollision(hash, env, ws, env', ws') && env == env'
    ensures ImportStrings(hash, env, ws, i, |ws[i].deps|)[k] == ImportStrings(hash, env', ws', j, |ws'[j].deps|)[l] <==>
              TreesOf(ws, i, |ws[i].deps|)[k] == TreesOf(ws', j, |ws'[j].deps|)[l]
    decreases Depth(ws, i), 0
  {
    DepthDrops(ws, i, k);
    DepthDrops(ws', j, l);
    var d, e := ws[i].deps[k], ws'[j].deps[l];
    ImportStringsAt(hash, env, ws, i, |ws[i].deps|, k);
    ImportStringsAt(hash, env', ws', j, |ws'[j].deps|, l);
    TreesOfAt(ws, i, |ws[i].deps|, k);
    TreesOfAt(ws', j, |ws'[j].deps|, l);
    FingerprintExact(hash, env, ws, d, env', ws', e);
    var x, y := Display(ws[d].name), Display(ws'[e].name);
    RenderExact(ws[d].name, ws'[e].name);
    if ImportString(x, FpOf(hash, env, ws, d)) == ImportString(y, FpOf(hash, env', ws', e)) {
      ImportStringInjective(x, FpOf(hash, env, ws, d), y, FpOf(hash, env', ws', e));
    }
  }

  // ----- distinct modules -----

  // Two modules of one workspace share a fingerprint exactly when their names have the same pieces and everything else
  // that is hashed agrees as well.
  lemma {:induction false} DistinctModulesDiffer(hash: Hash, env: Env, ws: Workspace, i: nat, j: nat)
    requires WellFounded(ws) && i < |ws| && j < |ws| && NoCollision(hash, env, ws, env, ws)
    ensures FpOf(hash, env, ws, i) == FpOf(hash, env, ws, j) <==>
              SameInputs(ws[i], ws[j]) &&
              multiset(TreesOf(ws, i, |ws[i].deps|)) == multiset(TreesOf(ws, j, |ws[j].deps|))
  {
    FingerprintExact(hash, env, ws, i, env, ws, j);
  }

  // The documented promise for one workspace.
  ghost predicate NeverShared(hash: Hash, env: Env, ws: Workspace)
    requires WellFounded(ws)
  {
    forall i: nat, j: nat :: i < j < |ws| ==> FpOf(hash, env, ws, i) != FpOf(hash, env, ws, j)
  }

  // A condition on names alone: no two have the same pieces.
  ghost predicate ToldApart(names: seq<ModuleName>) {
    forall i: nat, j: nat :: i < j < |names| ==> CutAll(names[i]) != CutAll(names[j])
  }

  ghost predicate Named(ws: Workspace, names: seq<ModuleName>) {
    |ws| == |names| && forall i :: 0 <= i < |ws| ==> ws[i].name == names[i]
  }

  // Modules that are byte-identical but for their names, such as deprecation stubs.
  function Stubs(names: seq<ModuleName>): (ws: Workspace)
    ensures Named(ws, names) && forall i :: 0 <= i < |ws| ==> ws[i] == Module(names[i], Inputs([]), [], [], [])
  {
    seq(|names|, i requires 0 <= i < |names| => Module(names[i], Inputs([]), [], [], []))
  }

  lemma {:induction false} StubsWellFounded(names: seq<ModuleName>)
    ensures WellFounded(Stubs(names))
  {
    var g := DepsOf(Stubs(names));
    RankedIsAcyclic(g, seq(|g|, _ => 0));
  }

  // Stubs whose names have the same pieces share a fingerprint, whatever the hash.
  lemma {:induction false} StubsShare(hash: Hash, env: Env, names: seq<ModuleName>, i: nat, j: nat)
    requires i < |names| && j < |names| && CutAll(names[i]) == CutAll(names[j])
    ensures WellFounded(Stubs(names)) && FpOf(hash, env, Stubs(names), i) == FpOf(hash, env, Stubs(names), j)
  {
    StubsWellFounded(names);
    var ws := Stubs(names);
    StreamInjective(env, ws[i], Sort([]), env, ws[j], Sort([]));
  }

  // Exactly when the names tell each other apart does no workspace with these names hold two modules that share a
  // fingerprint; distinct names are not enough.
  lemma {:induction false} PromiseExact(hash: Hash, env: Env, names: seq<ModuleName>)
    requires WellFounded(Stubs(names)) && NoCollision(hash, env, Stubs(names), env, Stubs(names))
    ensures ToldApart(names) <==>
              forall ws :: Named(ws, names) && WellFounded(ws) && NoCollision(hash, env, ws, env, ws) ==>
                NeverShared(hash, env, ws)
  {
    if ToldApart(names) {
      forall ws | Named(ws, names) && WellFounded(ws) && NoCollision(hash, env, ws, env, ws)
        ensures NeverShared(hash, env, ws)
      {
        forall i: nat, j: nat | i < j < |ws| ensures FpOf(hash, env, ws, i) != FpOf(hash, env, ws, j) {
          DistinctModulesDiffer(hash, env, ws, i, j);
        }
      }
    } else {
      var i: nat, j: nat :| i < j < |names| && CutAll(names[i]) == CutAll(names[j]);
      StubsShare(hash, env, names, i, j);
      assert Named(Stubs(names), names) && !NeverShared(hash, env, Stubs(names));
    }
  }

  // Two modules, `A.B` and `«A.B»`, with one fingerprint under every hash.
  lemma {:induction false} SharedFingerprint(hash: Hash, env: Env) returns (ws: Workspace)
    ensures |ws| == 2 && ws[0].name == [[65], [66]] && ws[1].name == [[65, DOT, 66]]
    ensures WellFounded(ws) && FpOf(hash, env, ws, 0) == FpOf(hash, env, ws, 1)
  {
    RenderAmbiguous([65], [66]);
    RenderExact([[65], [66]], [[65, DOT, 66]]);
    assert [65] + [DOT] + [66] == [65, DOT, 66];
    var names: seq<ModuleName> := [[[65], [66]], [[65, DOT, 66]]];
    StubsShare(hash, env, names, 0, 1);
    ws := Stubs(names);
  }

  // ----- the computation over waves -----

  // What `topo_waves` promises of its waves.
  ghost predicate Topological(g: Graph, waves: seq<seq<nat>>) {
    && Partitions(waves, |g|)
    && forall k, i: nat :: 0 <= k < |waves| && i in waves[k] ==> LongestChain(g, i, k)
  }

  lemma {:induction false} DepInEarlierWave(g: Graph, waves: seq<seq<nat>>, k: nat, i: nat, d: nat) returns (j: nat)
    requires Topological(g, waves) && k < |waves| && i in waves[k] && i < |g| && d in g[i] && d < |g|
    ensures j < k && d in waves[j]
  {
    assert InSomeWave(waves, d);
    j :| 0 <= j < |waves| && d in waves[j];
    var p :| Walk(g, p) && p[0] == d && |p| == j + 1;
    var q := [i] + p;
    forall m | 0 <= m < |q| - 1 ensures Edge(g, q[m], q[m + 1]) {
      if m > 0 { assert Edge(g, p[m - 1], p[m - 1 + 1]); }
    }
    assert Walk(g, q) && q[0] == i;
    assert LongestChain(g, i, k);
  }

  datatype Slot = Empty | Filled(fp: Fp)

  // Slots that hold anything hold the recursive fingerprint.
  ghost predicate SlotsRight(hash: Hash, env: Env, ws: Workspace, fps: seq<Slot>)
    requires WellFounded(ws)
  {
    |fps| == |ws| && forall i: nat :: i < |ws| && fps[i].Filled? ==> fps[i].fp == FpOf(hash, env, ws, i)
  }

  // The loop body for one module: no import is missing.
  method FingerprintOne(hash: Hash, env: Env, ws: Workspace, fps: seq<Slot>, i: nat) returns (fp: Fp)
    requires WellFounded(ws) && i < |ws| && SlotsRight(hash, env, ws, fps)
    requires forall k :: 0 <= k < |ws[i].deps| ==> ws[i].deps[k] < |ws| && fps[ws[i].deps[k]].Filled?
    ensures fp == FpOf(hash, env, ws, i)
  {
    var deps := ws[i].deps;
    var imports: seq<seq<Byte>> := [];
    for k := 0 to |deps|
      invariant imports == ImportStrings(hash, env, ws, i, k)
    {
      var d := deps[k];
      imports := imports + [ImportString(Display(ws[d].name), fps[d].fp)];
    }
    SortKeepsSizes(imports);
    fp := HashModule(hash, env, ws[i], Sort(imports));
  }

  ghost predicate WavesFilled(waves: seq<seq<nat>>, k: nat, fps: seq<Slot>) {
    forall j, i: nat {:trigger i in waves[j]} :: 0 <= j < |waves| && j < k && i in waves[j] ==>
        i < |fps| && fps[i].Filled?
  }

  ghost predicate Earlier(waves: seq<seq<nat>>, k: nat, d: nat) {
    exists j :: 0 <= j < |waves| && j < k && d in waves[j]
  }

  // Every import of every module of wave `k` is in a wave before it.
  ghost predicate ImportsEarlier(ws: Workspace, waves: seq<seq<nat>>, k: nat)
    requires k < |waves|
  {
    forall n {:trigger waves[k][n]} :: 0 <= n < |waves[k]| ==>
      && waves[k][n] < |ws|
      && forall d {:trigger Earlier(waves, k, d)} :: d in ws[waves[k][n]].deps ==> Earlier(waves, k, d)
  }

  lemma {:induction false} TopologicalEarlier(ws: Workspace, waves: seq<seq<nat>>, k: nat)
    requires WellFounded(ws) && Topological(DepsOf(ws), waves) && k < |waves|
    ensures ImportsEarlier(ws, waves, k)
  {
    var g := DepsOf(ws);
    forall n | 0 <= n < |waves[k]|
      ensures waves[k][n] < |ws|
      ensures forall d {:trigger Earlier(waves, k, d)} :: d in ws[waves[k][n]].deps ==> Earlier(waves, k, d)
    {
      var i := waves[k][n];
      assert i in waves[k];
      forall d {:trigger Earlier(waves, k, d)} | d in ws[i].deps ensures Earlier(waves, k, d) {
        var a :| 0 <= a < |g[i]| && g[i][a] == d;
        var j := DepInEarlierWave(g, waves, k, i, d);
      }
    }
  }

  // One wave: whatever its modules import was filled by an earlier wave.
  method FingerprintWave(hash: Hash, env: Env, ws: Workspace, waves: seq<seq<nat>>, k: nat, fps: seq<Slot>)
    returns (fps': seq<Slot>)
    requires WellFounded(ws) && k < |waves| && ImportsEarlier(ws, waves, k)
    requires SlotsRight(hash, env, ws, fps) && WavesFilled(waves, k, fps)
    ensures SlotsRight(hash, env, ws, fps') && WavesFilled(waves, k + 1, fps')
  {
    fps' := fps;
    for n := 0 to |waves[k]|
      invariant SlotsRight(hash, env, ws, fps') && WavesFilled(waves, k, fps')
      invariant forall i: nat :: i in waves[k][..n] ==> i < |ws| && fps'[i].Filled?
    {
      var i := waves[k][n];
      ImportsFilled(ws[i].deps, waves, k, fps');
      var fp := FingerprintOne(hash, env, ws, fps', i);
      fps' := fps'[i := Filled(fp)];
    }
  }

  lemma {:induction false} ImportsFilled(deps: seq<nat>, waves: seq<seq<nat>>, k: nat, fps: seq<Slot>)
    requires WavesFilled(waves, k, fps)
    requires forall d {:trigger Earlier(waves, k, d)} :: d in deps ==> Earlier(waves, k, d)
    ensures forall a :: 0 <= a < |deps| ==> deps[a] < |fps| && fps[deps[a]].Filled?
  {
    forall a | 0 <= a < |deps| ensures deps[a] < |fps| && fps[deps[a]].Filled? {
      assert deps[a] in deps;
      assert Earlier(waves, k, deps[a]);
      var j :| 0 <= j < |waves| && j < k && deps[a] in waves[j];
    }
  }

  /** `fingerprint_all`: with topological waves every lookup succeeds, and every module gets its recursive
      fingerprint. */
  method FingerprintAll(hash: Hash, env: Env, ws: Workspace, waves: seq<seq<nat>>) returns (result: seq<Fp>)
    requires WellFounded(ws) && Topological(DepsOf(ws), waves)
    ensures |result| == |ws| && forall i :: 0 <= i < |ws| ==> result[i] == FpOf(hash, env, ws, i)
  {
    var fps: seq<Slot> := seq(|ws|, _ => Empty);
    for k := 0 to |waves|
      invariant SlotsRight(hash, env, ws, fps) && WavesFilled(waves, k, fps)
    {
      TopologicalEarlier(ws, waves, k);
      fps := FingerprintWave(hash, env, ws, waves, k, fps);
    }
    forall i: nat | i < |ws| ensures fps[i].Filled? {
      assert InSomeWave(waves, i);
    }
    result := Collect(hash, env, ws, fps);
  }

  method Collect(ghost hash: Hash, ghost env: Env, ghost ws: Workspace, fps: seq<Slot>) returns (result: seq<Fp>)
    requires WellFounded(ws) && SlotsRight(hash, env, ws, fps) && forall i: nat :: i < |fps| ==> fps[i].Filled?
    ensures |result| == |ws| && forall i :: 0 <= i < |ws| ==> result[i] == FpOf(hash, env, ws, i)
  {
    result := seq(|fps|, i requires 0 <= i < |fps| => fps[i].fp);
  }

  datatype Outcome = Done(fps: seq<Fp>) | Cycle(path: seq<nat>)

  /** Waves, then fingerprints, on any closed module graph. */
  method FingerprintWorkspace(hash: Hash, env: Env, ws: Workspace) returns (r: Outcome)
    requires InRange(DepsOf(ws))
    ensures r.Done? <==> Acyclic(DepsOf(ws))
    ensures r.Done? ==> |r.fps| == |ws| && forall i :: 0 <= i < |ws| ==> r.fps[i] == FpOf(hash, env, ws, i)
    ensures r.Cycle? ==> ClosedWalk(DepsOf(ws), r.path)
  {
    var waves := TopoWaves(DepsOf(ws));
    if waves.ImportCycle? {
      return Cycle(waves.cycle);
    }
    var fps := FingerprintAll(hash, env, ws, waves.waves);
    return Done(fps);
  }
}
