/** The import graph: breadth-first closure of the targets, and the name-sorted node table. */
module ImportGraph {
  import opened Options
  import opened Digraph

  // Module names, in their own order.
  type Name = nat

  datatype Header = Header(imports: seq<Name>, prelude: bool, isModule: bool)

  // A workspace file that resolves: its header, or a read error.
  datatype File = Readable(header: Header) | Unreadable

  // What the resolver finds in the workspace, what the toolchain holds, and the name `Init`.
  datatype World = World(files: map<Name, File>, toolchain: set<Name>, init: Name)

  datatype Importer = Target | Module(name: Name)

  datatype ModuleInfo = ModuleInfo(name: Name, imports: seq<Name>, deps: seq<nat>, prelude: bool, isModule: bool)

  datatype Result =
    | Ok(modules: seq<ModuleInfo>, index: map<Name, nat>)
    | UnresolvedImport(name: Name, importer: Importer)
    | Io(name: Name)

  // ----- chunks of a round -----

  function ScanChunkSize(len: nat, parallelism: nat): (r: nat)
    ensures r >= 1
  {
    var p := if parallelism == 0 then 1 else parallelism;
    if len == 0 then 1 else
      var c := (len + p - 1) / p;
      if c == 0 then 1 else c
  }

  function Chunks<T>(s: seq<T>, size: nat): seq<seq<T>>
    requires size >= 1
    decreases |s|
  {
    if s == [] then [] else if |s| <= size then [s] else [s[..size]] + Chunks(s[size..], size)
  }

  function Flatten<T>(ss: seq<seq<T>>): seq<T> {
    if ss == [] then [] else ss[0] + Flatten(ss[1..])
  }

  // At most `parallelism` threads are started, and together they scan the round once, in order.
  lemma {:induction false} ChunkingIsFair<T>(s: seq<T>, parallelism: nat)
    ensures var chunks := Chunks(s, ScanChunkSize(|s|, parallelism));
            Flatten(chunks) == s && |chunks| <= if parallelism == 0 then 1 else parallelism
  {
    var p := if parallelism == 0 then 1 else parallelism;
    var c := ScanChunkSize(|s|, parallelism);
    if s != [] {
      CeilingCovers(|s|, p);
    }
    ChunksCover(s, c, p);
  }

  lemma {:induction false} CeilingCovers(len: nat, p: nat)
    requires len > 0 && p > 0
    ensures (len + p - 1) / p >= 1 && (len + p - 1) / p * p >= len
  {
    var q, r := (len + p - 1) / p, (len + p - 1) % p;
    assert len + p - 1 == p * q + r;
    assert q * p == p * q;
    assert q == 0 ==> p * q == 0;
  }

  lemma {:induction false} ChunksCover<T>(s: seq<T>, size: nat, n: nat)
    requires size >= 1 && size * n >= |s|
    ensures Flatten(Chunks(s, size)) == s && |Chunks(s, size)| <= n
    decreases |s|
  {
    assert n == 0 ==> size * n == 0;
    if s == [] {
    } else if |s| <= size {
      assert [s][1..] == [];
      assert s + [] == s;
    } else {
      assert size * (n - 1) == size * n - size;
      ChunksCover(s[size..], size, n - 1);
      var rest := Chunks(s[size..], size);
      assert ([s[..size]] + rest)[1..] == rest;
    }
  }

  // ----- the specification -----

  function AddImplicitInit(h: Header, init: Name): (r: seq<Name>) {
    if h.prelude || init in h.imports then h.imports else h.imports + [init]
  }

  // The imports of a workspace module, the implicit one included.
  function ImportsOf(w: World, m: Name): seq<Name>
    requires m in w.files
  {
    if w.files[m].Unreadable? then [] else AddImplicitInit(w.files[m].header, w.init)
  }

  ghost predicate ImportsIn(w: World, m: Name, c: set<Name>) {
    m in w.files ==> forall i :: i in ImportsOf(w, m) && i in w.files ==> i in c
  }

  // `c` holds the resolved seeds and the resolved imports of its members.
  ghost predicate Closed(w: World, seeds: seq<Name>, c: set<Name>) {
    && (forall s :: s in seeds && s in w.files ==> s in c)
    && (forall m {:trigger ImportsIn(w, m, c)} :: m in c ==> ImportsIn(w, m, c))
  }

  // Everything in `u` is in every closed set.
  ghost predicate Least(w: World, seeds: seq<Name>, u: set<Name>) {
    forall c: set<Name> {:trigger Closed(w, seeds, c)} :: Closed(w, seeds, c) ==> u <= c
  }

  predicate Known(w: World, c: set<Name>, m: Name) {
    m in c || (m in w.toolchain && m !in w.files)
  }

  // `m` is imported from `src`: a target, or an import of a module of `c`.
  ghost predicate ImportedBy(w: World, seeds: seq<Name>, c: set<Name>, m: Name, src: Importer) {
    match src
    case Target => m in seeds
    case Module(n) => n in c && n in w.files && m in ImportsOf(w, n)
  }

  // The node table of a set of modules.
  ghost predicate TableOf(w: World, nodes: set<Name>, ms: seq<ModuleInfo>, index: map<Name, nat>) {
    && (forall i, j :: 0 <= i < j < |ms| ==> ms[i].name < ms[j].name)
    && index.Keys == nodes
    && (forall i :: 0 <= i < |ms| ==> ms[i].name in nodes && index[ms[i].name] == i)
    && (forall m :: m in nodes ==> index[m] < |ms| && ms[index[m]].name == m)
    && (forall i :: 0 <= i < |ms| ==> ms[i].name in w.files && ms[i].imports == ImportsOf(w, ms[i].name))
    && (forall i :: 0 <= i < |ms| ==> DepsExact(index, ms[i]))
    && (forall i :: 0 <= i < |ms| ==> FromHeader(w, ms[i]))
  }

  // The module's flags are its header's, its imports are the header's in order, and unless it is a prelude `Init` is
  // among them, put last if the header does not name it.
  predicate FromHeader(w: World, m: ModuleInfo) {
    && m.name in w.files && w.files[m.name].Readable?
    && var h := w.files[m.name].header;
       && m.prelude == h.prelude && m.isModule == h.isModule
       && (h.prelude ==> m.imports == h.imports)
       && (!h.prelude ==> w.init in m.imports && h.imports <= m.imports)
       && (!h.prelude && w.init in h.imports ==> m.imports == h.imports)
       && (!h.prelude && w.init !in h.imports ==>
             |m.imports| == |h.imports| + 1 && m.imports[|h.imports|] == w.init)
  }

  ghost predicate DepsExact(index: map<Name, nat>, m: ModuleInfo) {
    && (forall a, b :: 0 <= a < b < |m.deps| ==> m.deps[a] < m.deps[b])
    && (forall d: nat :: d in m.deps <==> exists i :: i in m.imports && i in index && index[i] == d)
  }

  // ----- the frontier loop -----

  type Frontier = set<(Name, Importer)>

  predicate Queued(frontier: Frontier, m: Name) {
    exists e :: e in frontier && e.0 == m
  }

  // A name is settled: scanned, external, or still queued.
  ghost predicate Settled(scanned: set<Name>, external: set<Name>, frontier: Frontier, m: Name) {
    m in scanned || m in external || Queued(frontier, m)
  }

  ghost predicate ImportsSettled(w: World, scanned: set<Name>, external: set<Name>, frontier: Frontier, m: Name) {
    m in w.files ==> forall i {:trigger Settled(scanned, external, frontier, i)} ::
      i in ImportsOf(w, m) ==> Settled(scanned, external, frontier, i)
  }

  ghost predicate Walking(w: World, seeds: seq<Name>, scanned: set<Name>, external: set<Name>, frontier: Frontier) {
    && scanned <= w.files.Keys && external <= w.toolchain && external !! w.files.Keys
    && (forall m {:trigger w.files[m]} :: m in scanned ==> w.files[m].Readable?)
    && Least(w, seeds, scanned)
    && (forall e :: e in frontier ==> ImportedBy(w, seeds, scanned, e.0, e.1))
    && (forall s {:trigger Settled(scanned, external, frontier, s)} :: s in seeds ==>
        Settled(scanned, external, frontier, s))
    && (forall m {:trigger ImportsSettled(w, scanned, external, frontier, m)} ::
         m in scanned ==> ImportsSettled(w, scanned, external, frontier, m))
  }

  datatype Sorted = Classified(toScan: seq<Name>, external: set<Name>) | Unresolved(name: Name, importer: Importer)

  // The sorted frontier's first entry, up to the importer.
  method LeastEntry(left: Frontier) returns (e: (Name, Importer))
    requires left != {}
    ensures e in left && forall x :: x in left ==> e.0 <= x.0
  {
    e :| e in left;
    var rest := left - {e};
    while rest != {}
      invariant rest <= left && e in left
      invariant forall x :: x in left && x !in rest ==> e.0 <= x.0
      decreases |rest|
    {
      var x :| x in rest;
      rest := rest - {x};
      if x.0 < e.0 {
        e := x;
      }
    }
  }

  predicate Resolvable(w: World, scanned: set<Name>, m: Name) {
    m in scanned || m in w.files || m in w.toolchain
  }

  // Resolve and classify one frontier in the order of names; a module reached through two importers is listed twice.
  method Classify(w: World, scanned: set<Name>, external: set<Name>, frontier: Frontier) returns (r: Sorted)
    requires external <= w.toolchain && external !! w.files.Keys
    ensures r.Unresolved? ==> (r.name, r.importer) in frontier && r.name !in w.files && r.name !in w.toolchain
    ensures r.Unresolved? <==> exists e :: e in frontier && !Resolvable(w, scanned, e.0)
    ensures r.Unresolved? ==> forall e :: e in frontier && !Resolvable(w, scanned, e.0) ==> r.name <= e.0
    ensures r.Classified? ==> external <= r.external <= w.toolchain && r.external !! w.files.Keys
    ensures r.Classified? ==> forall m :: m in r.toScan ==> m in w.files && m !in scanned && Queued(frontier, m)
    ensures r.Classified? ==> forall m :: Queued(frontier, m) ==> m in scanned || m in r.external || m in r.toScan
  {
    var toScan: seq<Name>, ext, left := [], external, frontier;
    while left != {}
      invariant left <= frontier && external <= ext <= w.toolchain && ext !! w.files.Keys
      invariant forall m :: m in toScan ==> m in w.files && m !in scanned && Queued(frontier, m)
      invariant forall e :: e in frontier && e !in left ==> e.0 in scanned || e.0 in ext || e.0 in toScan
      decreases |left|
    {
      var e := LeastEntry(left);
      left := left - {e};
      var m := e.0;
      if m in scanned || m in ext {
      } else if m in w.files {
        assert Queued(frontier, m);
        toScan := toScan + [m];
      } else if m in w.toolchain {
        ext := ext + {m};
      } else {
        assert !Resolvable(w, scanned, m);
        return Unresolved(e.0, e.1);
      }
    }
    return Classified(toScan, ext);
  }

  function EntriesOf(w: World, m: Name): Frontier
    requires m in w.files
  {
    set i | i in ImportsOf(w, m) :: (i, Module(m))
  }

  // Scan what was listed: all imports go to the next frontier.
  method ScanAll(w: World, scanned: set<Name>, toScan: seq<Name>)
    returns (bad: Option<Name>, scanned': set<Name>, frontier: Frontier)
    requires forall m :: m in toScan ==> m in w.files
    ensures bad.Some? ==> bad.value in toScan && w.files[bad.value].Unreadable?
    ensures bad.None? ==> scanned' == scanned + Ids(toScan)
    ensures bad.None? ==> forall m :: m in toScan ==> w.files[m].Readable? && EntriesOf(w, m) <= frontier
    ensures bad.None? ==> forall e :: e in frontier ==>
              e.1.Module? && e.1.name in toScan && e.0 in ImportsOf(w, e.1.name)
  {
    bad, scanned', frontier := None, scanned, {};
    for k := 0 to |toScan|
      invariant scanned' == scanned + Ids(toScan[..k])
      invariant forall m :: m in toScan[..k] ==> w.files[m].Readable? && EntriesOf(w, m) <= frontier
      invariant forall e :: e in frontier ==> e.1.Module? && e.1.name in toScan && e.0 in ImportsOf(w, e.1.name)
    {
      var m := toScan[k];
      assert m in toScan;
      if w.files[m].Unreadable? {
        return Some(m), scanned', frontier;
      }
      frontier := frontier + EntriesOf(w, m);
      scanned' := scanned' + {m};
      assert toScan[..k + 1] == toScan[..k] + [m];
    }
    assert toScan[..|toScan|] == toScan;
  }

  lemma {:induction false} LeastGrows(w: World, seeds: seq<Name>, scanned: set<Name>, toScan: seq<Name>,
                                      frontier: Frontier)
    requires Least(w, seeds, scanned) && forall e :: e in frontier ==> ImportedBy(w, seeds, scanned, e.0, e.1)
    requires forall m :: m in toScan ==> m in w.files && Queued(frontier, m)
    ensures Least(w, seeds, scanned + Ids(toScan))
  {
    forall c: set<Name> {:trigger Closed(w, seeds, c)} | Closed(w, seeds, c) ensures scanned + Ids(toScan) <= c {
      forall m | m in toScan ensures m in c {
        var e :| e in frontier && e.0 == m;
        assert ImportedBy(w, seeds, scanned, e.0, e.1);
        if e.1.Module? {
          assert ImportsIn(w, e.1.name, c);
        }
      }
    }
  }

  lemma {:induction false} RoundKeeps(w: World, seeds: seq<Name>, scanned: set<Name>, external: set<Name>,
                                      frontier: Frontier,
                                      toScan: seq<Name>, external': set<Name>, frontier': Frontier)
    requires Walking(w, seeds, scanned, external, frontier)
    requires external <= external' <= w.toolchain && external' !! w.files.Keys
    requires forall m :: m in toScan ==>
               m in w.files && Queued(frontier, m) && w.files[m].Readable? && EntriesOf(w, m) <= frontier'
    requires forall m :: Queued(frontier, m) ==> m in scanned || m in external' || m in toScan
    requires forall e :: e in frontier' ==> e.1.Module? && e.1.name in toScan && e.0 in ImportsOf(w, e.1.name)
    ensures Walking(w, seeds, scanned + Ids(toScan), external', frontier')
  {
    var scanned' := scanned + Ids(toScan);
    LeastGrows(w, seeds, scanned, toScan, frontier);
    forall m {:trigger Settled(scanned', external', frontier', m)} | Settled(scanned, external, frontier, m)
      ensures Settled(scanned', external', frontier', m)
    {
    }
    forall m {:trigger ImportsSettled(w, scanned', external', frontier', m)} | m in scanned'
      ensures ImportsSettled(w, scanned', external', frontier', m)
    {
      if m in scanned {
        assert ImportsSettled(w, scanned, external, frontier, m);
      } else {
        forall i {:trigger Settled(scanned', external', frontier', i)} | i in ImportsOf(w, m)
          ensures Settled(scanned', external', frontier', i)
        {
          assert (i, Module(m)) in EntriesOf(w, m);
        }
      }
    }
  }

  /** `build_graph`: terminates because finitely many names resolve. */
  method BuildGraph(w: World, seeds: seq<Name>) returns (r: Result, ghost nodes: set<Name>)
    ensures r.Ok? ==> Closed(w, seeds, nodes) && Least(w, seeds, nodes) && TableOf(w, nodes, r.modules, r.index)
    ensures r.Ok? ==> forall s :: s in seeds ==> Known(w, nodes, s)
    ensures r.Ok? ==> forall k, i :: 0 <= k < |r.modules| && i in r.modules[k].imports ==> Known(w, nodes, i)
    ensures r.UnresolvedImport? ==> Least(w, seeds, nodes) && ImportedBy(w, seeds, nodes, r.name, r.importer)
                                    && r.name !in w.files && r.name !in w.toolchain
    ensures r.Io? ==> Least(w, seeds, nodes) && r.name in nodes && r.name in w.files && w.files[r.name].Unreadable?
  {
    var scanned: set<Name>, external: set<Name> := {}, {};
    var frontier: Frontier := set s | s in seeds :: (s, Target);
    StartWalking(w, seeds, frontier);
    while frontier != {}
      invariant Walking(w, seeds, scanned, external, frontier)
      decreases |w.files.Keys - scanned|, |frontier|
    {
      var sorted := Classify(w, scanned, external, frontier);
      if sorted.Unresolved? {
        nodes := scanned;
        return UnresolvedImport(sorted.name, sorted.importer), nodes;
      }
      var toScan := sorted.toScan;
      var bad, scanned', frontier' := ScanAll(w, scanned, toScan);
      if bad.Some? {
        LeastGrows(w, seeds, scanned, toScan, frontier);
        nodes := scanned + Ids(toScan);
        return Io(bad.value), nodes;
      }
      RoundKeeps(w, seeds, scanned, external, frontier, toScan, sorted.external, frontier');
      RoundProgress(w, scanned, toScan, frontier');
      scanned, external, frontier := scanned', sorted.external, frontier';
    }
    nodes := scanned;
    FinishWalking(w, seeds, scanned, external);
    var modules, index := Tabulate(w, scanned);
    r := Ok(modules, index);
  }

  lemma {:induction false} StartWalking(w: World, seeds: seq<Name>, frontier: Frontier)
    requires frontier == set s | s in seeds :: (s, Target)
    ensures Walking(w, seeds, {}, {}, frontier)
  {
    forall s {:trigger Settled({}, {}, frontier, s)} | s in seeds ensures Settled({}, {}, frontier, s) {
      assert (s, Target) in frontier;
    }
  }

  lemma {:induction false} RoundProgress(w: World, scanned: set<Name>, toScan: seq<Name>, frontier: Frontier)
    requires forall m :: m in toScan ==> m in w.files && m !in scanned
    requires forall e :: e in frontier ==> e.1.Module? && e.1.name in toScan
    ensures |w.files.Keys - (scanned + Ids(toScan))| <= |w.files.Keys - scanned|
    ensures toScan != [] ==> |w.files.Keys - (scanned + Ids(toScan))| < |w.files.Keys - scanned|
    ensures toScan == [] ==> frontier == {} && scanned + Ids(toScan) == scanned
  {
    var a, b := w.files.Keys - scanned, w.files.Keys - (scanned + Ids(toScan));
    SubsetSize(b, a);
    if toScan != [] {
      assert toScan[0] in toScan;
      assert toScan[0] in a;
      SubsetSize(b, a - {toScan[0]});
    }
  }

  lemma {:induction false} FinishWalking(w: World, seeds: seq<Name>, scanned: set<Name>, external: set<Name>)
    requires Walking(w, seeds, scanned, external, {})
    ensures Closed(w, seeds, scanned) && scanned <= w.files.Keys
    ensures forall s :: s in seeds ==> Known(w, scanned, s)
    ensures forall m, i :: m in scanned && i in ImportsOf(w, m) ==> Known(w, scanned, i)
    ensures forall m {:trigger w.files[m]} :: m in scanned ==> w.files[m].Readable?
  {
    forall s | s in seeds ensures Known(w, scanned, s) {
      assert Settled(scanned, external, {}, s);
    }
    forall m, i | m in scanned && i in ImportsOf(w, m) ensures Known(w, scanned, i) {
      assert ImportsSettled(w, scanned, external, {}, m);
      assert Settled(scanned, external, {}, i);
    }
    forall m {:trigger ImportsIn(w, m, scanned)} | m in scanned ensures ImportsIn(w, m, scanned) {
      forall i | i in ImportsOf(w, m) && i in w.files ensures i in scanned {
        assert Known(w, scanned, i);
      }
    }
  }

  // The node table: names ascending, indices the other way round, edges from the imports that are nodes.
  method Tabulate(w: World, nodes: set<Name>) returns (ms: seq<ModuleInfo>, index: map<Name, nat>)
    requires nodes <= w.files.Keys && forall m {:trigger w.files[m]} :: m in nodes ==> w.files[m].Readable?
    ensures TableOf(w, nodes, ms, index)
  {
    var names := SortedIds(nodes);
    index := IndexOf(nodes, names);
    ms := [];
    for i := 0 to |names|
      invariant |ms| == i && forall j :: 0 <= j < i ==> ms[j].name == names[j]
      invariant forall j :: 0 <= j < i ==> ms[j].imports == ImportsOf(w, names[j])
      invariant forall j :: 0 <= j < i ==> DepsExact(index, ms[j]) && FromHeader(w, ms[j])
    {
      assert names[i] in nodes;
      var info := MakeInfo(w, names[i], index);
      ms := ms + [info];
    }
    forall m | m in nodes ensures index[m] < |ms| && ms[index[m]].name == m {
      assert m in names;
    }
  }

  method MakeInfo(w: World, m: Name, index: map<Name, nat>) returns (info: ModuleInfo)
    requires m in w.files && w.files[m].Readable?
    ensures info.name == m && info.imports == ImportsOf(w, m) && DepsExact(index, info) && FromHeader(w, info)
  {
    var header := w.files[m].header;
    var imports := ImportsOf(w, m);
    var deps := SortedIds(set x | x in imports && x in index :: index[x]);
    info := ModuleInfo(m, imports, deps, header.prelude, header.isModule);
  }

  method IndexOf(nodes: set<Name>, names: seq<Name>) returns (index: map<Name, nat>)
    requires NoDup(names) && forall n :: n in names <==> n in nodes
    ensures index.Keys == nodes && forall i :: 0 <= i < |names| ==> names[i] in index && index[names[i]] == i
  {
    index := map[];
    for i := 0 to |names|
      invariant forall n :: n in index <==> n in names[..i]
      invariant forall j :: 0 <= j < i ==> names[j] in index && index[names[j]] == j
    {
      index := index[names[i] := i];
    }
    assert names[..|names|] == names;
    assert index.Keys == nodes;
  }
}
