/** The content-addressed artifact cache: its file operations as atomic steps of many writers, and the local store,
    remote ingestion and build job that perform them. */
module Cache {
  import opened Options
  import opened Digraph

  type Bytes = seq<nat>
  type Key = seq<nat>
  type Name = nat
  type Path = nat

  datatype Entry = Entry(name: Name, blob: Key)
  type Manifest = seq<Entry>

  // A manifest file is well-formed or it is not.
  datatype ManifestFile = Parsed(m: Manifest) | Malformed

  datatype Blob = Blob(bytes: Bytes, mtime: nat)

  // Names of blob files are keys; names of manifest files are fingerprints.
  datatype Disk = Disk(blobs: map<Key, Blob>, manifests: map<Key, ManifestFile>)

  // ----- atomic steps -----

  // Each is one rename or one removal; a reader sees either no file or a complete one.
  datatype Step =
    | PutBlob(bytes: Bytes, now: nat)                              // skipped if the key is taken
    | PutManifest(fp: Key, m: Manifest, overwrite: bool)           // kept unless told to overwrite
    | RemoveBlob(key: Key)

  type Hash = Bytes -> Key

  function Apply(h: Hash, d: Disk, s: Step): Disk {
    match s
    case PutBlob(bytes, now) =>
      if h(bytes) in d.blobs then d else d.(blobs := d.blobs[h(bytes) := Blob(bytes, now)])
    case PutManifest(fp, m, overwrite) =>
      if fp in d.manifests && !overwrite then d else d.(manifests := d.manifests[fp := Parsed(m)])
    case RemoveBlob(key) => d.(blobs := d.blobs - {key})
  }

  function Run(h: Hash, d: Disk, steps: seq<Step>): Disk {
    if steps == [] then d else Apply(h, Run(h, d, steps[..|steps| - 1]), steps[|steps| - 1])
  }

  lemma {:induction false} RunAppend(h: Hash, d: Disk, a: seq<Step>, b: seq<Step>)
    ensures Run(h, d, a + b) == Run(h, Run(h, d, a), b)
  {
    if b == [] {
      assert a + b == a;
    } else {
      assert (a + b)[..|a + b| - 1] == a + b[..|b| - 1];
      RunAppend(h, d, a, b[..|b| - 1]);
    }
  }

  // ----- invariants over every interleaving -----

  // Every blob hashes to its own name.
  ghost predicate Sound(h: Hash, d: Disk) {
    forall k :: k in d.blobs ==> h(d.blobs[k].bytes) == k
  }

  // Whoever writes, in whatever order: blobs keep hashing to their names.
  lemma {:induction false} SoundAlways(h: Hash, d: Disk, steps: seq<Step>)
    requires Sound(h, d)
    ensures Sound(h, Run(h, d, steps))
  {
    if steps != [] {
      SoundAlways(h, d, steps[..|steps| - 1]);
    }
  }

  predicate Keeps(s: Step, keys: set<Key>) {
    s.RemoveBlob? ==> s.key !in keys
  }

  // A blob that no step removes stays what it was: it is never rewritten.
  lemma {:induction false} BlobStays(h: Hash, d: Disk, steps: seq<Step>, keys: set<Key>, k: Key)
    requires k in d.blobs && k in keys && forall i :: 0 <= i < |steps| ==> Keeps(steps[i], keys)
    ensures k in Run(h, d, steps).blobs && Run(h, d, steps).blobs[k] == d.blobs[k]
  {
    if steps != [] {
      BlobStays(h, d, steps[..|steps| - 1], keys, k);
    }
  }

  predicate Overwrites(s: Step, fp: Key) {
    s.PutManifest? && s.fp == fp && s.overwrite
  }

  // A manifest only changes through a verified insert: what a remote sends never replaces it.
  lemma {:induction false} ManifestStays(h: Hash, d: Disk, steps: seq<Step>, fp: Key)
    requires fp in d.manifests && forall i :: 0 <= i < |steps| ==> !Overwrites(steps[i], fp)
    ensures fp in Run(h, d, steps).manifests && Run(h, d, steps).manifests[fp] == d.manifests[fp]
  {
    if steps != [] {
      ManifestStays(h, d, steps[..|steps| - 1], fp);
    }
  }

  function KeysOf(m: Manifest): set<Key> {
    set e | e in m :: e.blob
  }

  lemma {:induction false} KeysOfNext(m: Manifest, i: nat)
    requires i < |m|
    ensures KeysOf(m[..i + 1]) == KeysOf(m[..i]) + {m[i].blob} && m[i].blob in KeysOf(m)
  {
    assert m[..i + 1] == m[..i] + [m[i]];
    assert m[i] in m;
  }

  // One of the first `n` entries names `k`.
  predicate ListedUpto(m: Manifest, n: nat, k: Key)
    requires n <= |m|
  {
    n > 0 && (ListedUpto(m, n - 1, k) || m[n - 1].blob == k)
  }

  lemma {:induction false} ListedExact(m: Manifest, n: nat, k: Key)
    requires n <= |m|
    ensures ListedUpto(m, n, k) <==> k in KeysOf(m[..n])
  {
    if n > 0 {
      ListedExact(m, n - 1, k);
      KeysOfNext(m, n - 1);
    }
  }

  // How many distinct blobs of the first `n` entries are not on the disk.
  function NewUpto(d: Disk, m: Manifest, n: nat): nat
    requires n <= |m|
  {
    if n == 0 then 0 else
      var k := m[n - 1].blob;
      NewUpto(d, m, n - 1) + if k in d.blobs || ListedUpto(m, n - 1, k) then 0 else 1
  }

  lemma {:induction false} NewCount(d: Disk, m: Manifest, n: nat, keys: set<Key>)
    requires n <= |m| && forall k :: k in keys <==> ListedUpto(m, n, k)
    ensures NewUpto(d, m, n) == |keys - d.blobs.Keys|
  {
    if n == 0 {
      assert keys == {};
    } else {
      var k := m[n - 1].blob;
      if ListedUpto(m, n - 1, k) {
        NewCount(d, m, n - 1, keys);
      } else {
        NewCount(d, m, n - 1, keys - {k});
        CountOneLess(keys, d.blobs.Keys, k);
      }
    }
  }

  lemma {:induction false} CountOneLess(a: set<Key>, there: set<Key>, k: Key)
    requires k in a
    ensures |a - there| == |a - {k} - there| + if k in there then 0 else 1
  {
    if k in there {
      assert a - {k} - there == a - there;
    } else {
      assert a - there == (a - {k} - there) + {k};
    }
  }

  // What `lookup` answers: a well-formed manifest all of whose blobs are there.
  function Lookup(d: Disk, fp: Key): Option<Manifest> {
    if fp in d.manifests && d.manifests[fp].Parsed? && KeysOf(d.manifests[fp].m) <= d.blobs.Keys
    then Some(d.manifests[fp].m)
    else None
  }

  // A hit can be materialised later, whatever other writers did since, as long as its blobs were not collected; and
  // the bytes hash to what the manifest says.
  lemma {:induction false} HitSurvives(h: Hash, d: Disk, fp: Key, steps: seq<Step>)
    requires Sound(h, d) && Lookup(d, fp).Some?
    requires forall i :: 0 <= i < |steps| ==> Keeps(steps[i], KeysOf(Lookup(d, fp).value))
    ensures var m, d' := Lookup(d, fp).value, Run(h, d, steps);
            forall i :: 0 <= i < |m| ==> m[i].blob in d'.blobs && h(d'.blobs[m[i].blob].bytes) == m[i].blob
  {
    var m := Lookup(d, fp).value;
    SoundAlways(h, d, steps);
    forall i | 0 <= i < |m| ensures m[i].blob in Run(h, d, steps).blobs {
      assert m[i] in m;
      BlobStays(h, d, steps, KeysOf(m), m[i].blob);
    }
  }

  // The manifest fits the module: right number of artifacts, right name in each slot.
  predicate Fits(m: Manifest, dests: seq<Path>, nameOf: Path -> Name) {
    |m| == |dests| && forall i :: 0 <= i < |m| ==> m[i].name == nameOf(dests[i])
  }

  // The next build will hit.
  ghost predicate Primed(d: Disk, fp: Key, dests: seq<Path>, nameOf: Path -> Name) {
    Lookup(d, fp).Some? && Fits(Lookup(d, fp).value, dests, nameOf)
  }

  // A step another worker may take between two builds: anything but a collection, and no verified insert under this
  // fingerprint that does not fit or whose blobs are not there.
  ghost predicate Friendly(d: Disk, s: Step, fp: Key, dests: seq<Path>, nameOf: Path -> Name) {
    && !s.RemoveBlob?
    && (Overwrites(s, fp) ==> Fits(s.m, dests, nameOf) && KeysOf(s.m) <= d.blobs.Keys)
  }

  // Every step is friendly when it is taken.
  ghost predicate AllFriendly(h: Hash, d: Disk, steps: seq<Step>, fp: Key, dests: seq<Path>, nameOf: Path -> Name) {
    forall i :: 0 <= i < |steps| ==> Friendly(Run(h, d, steps[..i]), steps[i], fp, dests, nameOf)
  }

  predicate NeverOverwrites(steps: seq<Step>, fp: Key) {
    forall i :: 0 <= i < |steps| ==> !Overwrites(steps[i], fp)
  }

  lemma {:induction false} PrimedStays(h: Hash, d: Disk, steps: seq<Step>, fp: Key, dests: seq<Path>,
                                       nameOf: Path -> Name)
    requires Primed(d, fp, dests, nameOf)
    requires AllFriendly(h, d, steps, fp, dests, nameOf)
    ensures Primed(Run(h, d, steps), fp, dests, nameOf)
  {
    if steps != [] {
      var init := steps[..|steps| - 1];
      forall i | 0 <= i < |init| ensures Friendly(Run(h, d, init[..i]), init[i], fp, dests, nameOf) {
        assert init[..i] == steps[..i];
      }
      PrimedStays(h, d, init, fp, dests, nameOf);
      assert Friendly(Run(h, d, init), steps[|steps| - 1], fp, dests, nameOf);
    }
  }

  // ----- looking and linking while others work -----

  // What other workers do before this one's `i`-th access.
  type Others = nat -> seq<Step>

  function Upto(o: Others, n: nat): seq<Step> {
    if n == 0 then [] else Upto(o, n - 1) + o(n - 1)
  }

  // The disk at the `i`-th access.
  function Amid(h: Hash, d: Disk, o: Others, i: nat): Disk {
    Run(h, d, Upto(o, i + 1))
  }

  // Each of the first `n` blobs of the manifest is there when it is its turn.
  ghost predicate PresentUpto(h: Hash, d: Disk, m: Manifest, o: Others, n: nat)
    requires n <= |m|
  {
    n == 0 || (PresentUpto(h, d, m, o, n - 1) && m[n - 1].blob in Amid(h, d, o, n - 1).blobs)
  }

  ghost predicate PresentAmid(h: Hash, d: Disk, m: Manifest, o: Others) {
    PresentUpto(h, d, m, o, |m|)
  }

  lemma {:induction false} PresentEach(h: Hash, d: Disk, m: Manifest, o: Others, n: nat, i: nat)
    requires i < n <= |m| && PresentUpto(h, d, m, o, n)
    ensures m[i].blob in Amid(h, d, o, i).blobs
  {
    if i < n - 1 { PresentEach(h, d, m, o, n - 1, i); }
  }

  lemma {:induction false} AbsentAt(h: Hash, d: Disk, m: Manifest, o: Others, i: nat)
    requires i < |m| && m[i].blob !in Amid(h, d, o, i).blobs
    ensures !PresentAmid(h, d, m, o)
  {
    if PresentAmid(h, d, m, o) { PresentEach(h, d, m, o, |m|, i); }
  }

  // `lookup` answers the manifest it read: each blob was there when it was tested.
  ghost predicate HitAmid(h: Hash, d: Disk, fp: Key, o: Others) {
    fp in d.manifests && d.manifests[fp].Parsed? && PresentAmid(h, d, d.manifests[fp].m, o)
  }

  ghost predicate Silent(o: Others) {
    forall n :: o(n) == []
  }

  lemma {:induction false} SilentUpto(o: Others, n: nat)
    requires Silent(o)
    ensures Upto(o, n) == []
  {
    if n > 0 { SilentUpto(o, n - 1); }
  }

  lemma {:induction false} SilentUptoPresent(h: Hash, d: Disk, m: Manifest, o: Others, n: nat)
    requires Silent(o) && n <= |m|
    ensures PresentUpto(h, d, m, o, n) <==> KeysOf(m[..n]) <= d.blobs.Keys
  {
    if n > 0 {
      SilentUptoPresent(h, d, m, o, n - 1);
      SilentUpto(o, n);
      KeysOfNext(m, n - 1);
    }
  }

  // With nobody else at work a blob is there at its turn exactly when it is there.
  lemma {:induction false} SilentPresent(h: Hash, d: Disk, m: Manifest, o: Others)
    requires Silent(o)
    ensures PresentAmid(h, d, m, o) <==> KeysOf(m) <= d.blobs.Keys
  {
    SilentUptoPresent(h, d, m, o, |m|);
    assert m[..|m|] == m;
  }

  lemma {:induction false} InUpto(o: Others, n: nat, s: Step)
    ensures s in Upto(o, n) <==> exists i: nat :: i < n && s in o(i)
  {
    if n > 0 { InUpto(o, n - 1, s); }
  }

  ghost predicate Spared(o: Others, n: nat, keys: set<Key>) {
    forall i: nat, s :: i < n && s in o(i) ==> Keeps(s, keys)
  }

  lemma {:induction false} SparedBlobStays(h: Hash, d: Disk, o: Others, n: nat, keys: set<Key>, k: Key)
    requires k in d.blobs && k in keys && Spared(o, n, keys)
    ensures k in Run(h, d, Upto(o, n)).blobs
  {
    var steps := Upto(o, n);
    forall i | 0 <= i < |steps| ensures Keeps(steps[i], keys) {
      InUpto(o, n, steps[i]);
    }
    BlobStays(h, d, steps, keys, k);
  }

  // A manifest that was hit can be linked later unless one of its blobs is collected before the end.
  lemma {:induction false} UncollectedIsPresent(h: Hash, d: Disk, m: Manifest, o: Others, n: nat)
    requires KeysOf(m) <= d.blobs.Keys && n <= |m| && Spared(o, n, KeysOf(m))
    ensures PresentUpto(h, d, m, o, n)
  {
    if n > 0 {
      UncollectedIsPresent(h, d, m, o, n - 1);
      KeysOfNext(m, n - 1);
      SparedBlobStays(h, d, o, n, KeysOf(m), m[n - 1].blob);
    }
  }

  // A blob collected just before its turn makes linking fail, although the lookup was a hit.
  lemma {:induction false} CollectedIsAbsent(h: Hash, d: Disk, m: Manifest, o: Others, i: nat)
    requires i < |m| && o(i) != [] && o(i)[|o(i)| - 1] == RemoveBlob(m[i].blob)
    ensures !PresentAmid(h, d, m, o)
  {
    var steps := Upto(o, i + 1);
    assert steps[|steps| - 1] == RemoveBlob(m[i].blob);
    AbsentAt(h, d, m, o, i);
  }

  // ----- blobs first, manifest last -----

  // What a writer of a whole entry does: blobs, then the manifest.
  predicate BlobsFirst(steps: seq<Step>, fp: Key, m: Manifest, overwrite: bool) {
    && steps != [] && steps[|steps| - 1] == PutManifest(fp, m, overwrite)
    && forall i :: 0 <= i < |steps| - 1 ==> steps[i].PutBlob?
  }

  // A manifest that names a blob which is not there.
  predicate Dangling(d: Disk, g: Key) {
    g in d.manifests && d.manifests[g].Parsed? && !(KeysOf(d.manifests[g].m) <= d.blobs.Keys)
  }

  lemma {:induction false} BlobsOnly(h: Hash, d: Disk, steps: seq<Step>)
    requires forall i :: 0 <= i < |steps| ==> steps[i].PutBlob?
    ensures Run(h, d, steps).manifests == d.manifests && d.blobs.Keys <= Run(h, d, steps).blobs.Keys
  {
    if steps != [] { BlobsOnly(h, d, steps[..|steps| - 1]); }
  }

  // Why the order matters: wherever the writer is stopped, what hit before still hits, and no manifest is left dangling
  // that was not so before.
  lemma {:induction false} StoppedAnywhere(h: Hash, d: Disk, steps: seq<Step>, fp: Key, m: Manifest, overwrite: bool,
                                           k: nat, g: Key)
    requires BlobsFirst(steps, fp, m, overwrite) && k <= |steps|
    requires KeysOf(m) <= Run(h, d, steps).blobs.Keys
    ensures Lookup(d, g).Some? ==> Lookup(Run(h, d, steps[..k]), g).Some?
    ensures Dangling(Run(h, d, steps[..k]), g) ==> Dangling(d, g)
  {
    if k < |steps| {
      BlobsOnly(h, d, steps[..k]);
    } else {
      BlobsOnly(h, d, steps[..|steps| - 1]);
      assert steps[..k] == steps;
    }
  }

  // Other workers' steps before each of one's own.
  function Woven(own: seq<Step>, o: Others, n: nat): seq<Step>
    requires n <= |own|
  {
    if n == 0 then [] else Woven(own, o, n - 1) + (o(n - 1) + [own[n - 1]])
  }

  lemma {:induction false} WovenTurn(h: Hash, d: Disk, own: seq<Step>, o: Others, n: nat)
    requires n < |own|
    ensures Run(h, d, Woven(own, o, n + 1)) == Apply(h, Run(h, Run(h, d, Woven(own, o, n)), o(n)), own[n])
  {
    RunAppend(h, d, Woven(own, o, n), o(n) + [own[n]]);
    assert (o(n) + [own[n]])[..|o(n)|] == o(n);
  }

  predicate Puts(h: Hash, s: Step, key: Key) {
    s.PutBlob? && h(s.bytes) == key
  }

  lemma {:induction false} WovenNextKeeps(h: Hash, d: Disk, own: seq<Step>, o: Others, n: nat, keys: set<Key>, key: Key)
    requires n < |own| && Spared(o, |own|, keys) && key in keys && !own[n].RemoveBlob?
    requires key in Run(h, d, Woven(own, o, n)).blobs || Puts(h, own[n], key)
    ensures key in Run(h, d, Woven(own, o, n + 1)).blobs
  {
    WovenTurn(h, d, own, o, n);
    var mid := Run(h, d, Woven(own, o, n));
    if key in mid.blobs { SparedTurn(h, mid, o, n, |own|, keys, key); }
    OwnKeeps(h, Run(h, mid, o(n)), own[n], key);
  }

  // Blobs that are there, or are put by the writer's own steps, are there after `n` turns if others spare them.
  lemma {:induction false} WovenKeeps(h: Hash, d: Disk, own: seq<Step>, o: Others, n: nat, keys: set<Key>, key: Key)
    requires n <= |own| && Spared(o, |own|, keys) && key in keys && forall s :: s in own ==> !s.RemoveBlob?
    requires key in d.blobs || PutBefore(h, own, n, key)
    ensures key in Run(h, d, Woven(own, o, n)).blobs
  {
    if n > 0 {
      assert own[n - 1] in own;
      if key in d.blobs || PutBefore(h, own, n - 1, key) { WovenKeeps(h, d, own, o, n - 1, keys, key); }
      WovenNextKeeps(h, d, own, o, n - 1, keys, key);
    }
  }

  lemma {:induction false} OwnKeeps(h: Hash, d: Disk, s: Step, key: Key)
    requires !s.RemoveBlob? && (key in d.blobs || Puts(h, s, key))
    ensures key in Apply(h, d, s).blobs
  {
  }

  lemma {:induction false} SparedTurn(h: Hash, d: Disk, o: Others, i: nat, n: nat, keys: set<Key>, key: Key)
    requires i < n && Spared(o, n, keys) && key in keys && key in d.blobs
    ensures key in Run(h, d, o(i)).blobs
  {
    var turn := o(i);
    forall j | 0 <= j < |turn| ensures Keeps(turn[j], keys) {
      assert turn[j] in turn;
    }
    BlobStays(h, d, turn, keys, key);
  }

  ghost predicate PutBefore(h: Hash, own: seq<Step>, n: nat, key: Key)
    requires n <= |own|
  {
    n > 0 && (PutBefore(h, own, n - 1, key) || Puts(h, own[n - 1], key))
  }

  // A whole entry written while others work: unless they collect one of its blobs, all of these are there at the end
  // under some manifest; one that may replace others is then what the next lookup answers.
  lemma {:induction false} WovenEntry(h: Hash, d: Disk, own: seq<Step>, fp: Key, m: Manifest, overwrite: bool,
                                      o: Others)
    requires BlobsFirst(own, fp, m, overwrite) && Spared(o, |own|, KeysOf(m))
    requires forall key :: key in KeysOf(m) ==> key in d.blobs || PutBefore(h, own, |own|, key)
    ensures var d' := Run(h, d, Woven(own, o, |own|)); KeysOf(m) <= d'.blobs.Keys && fp in d'.manifests
    ensures overwrite ==> Lookup(Run(h, d, Woven(own, o, |own|)), fp) == Some(m)
  {
    assert forall s :: s in own ==> !s.RemoveBlob?;
    forall key | key in KeysOf(m) ensures key in Run(h, d, Woven(own, o, |own|)).blobs {
      WovenKeeps(h, d, own, o, |own|, KeysOf(m), key);
    }
    WovenTurn(h, d, own, o, |own| - 1);
  }

  lemma {:induction false} PutAt(h: Hash, own: seq<Step>, n: nat, i: nat)
    requires i < n <= |own| && own[i].PutBlob?
    ensures PutBefore(h, own, n, h(own[i].bytes))
  {
    if i < n - 1 { PutAt(h, own, n - 1, i); }
  }

  // What an insert does, step by step.
  predicate InsertSteps(h: Hash, steps: seq<Step>, fp: Key, artifacts: seq<(Name, Bytes)>, now: nat, m: Manifest) {
    && BlobsFirst(steps, fp, m, true) && |steps| == |artifacts| + 1 == |m| + 1
    && (forall i :: 0 <= i < |m| ==> steps[i] == PutBlob(artifacts[i].1, now))
    && forall i :: 0 <= i < |m| ==> m[i] == Entry(artifacts[i].0, h(artifacts[i].1))
  }

  // With other workers' steps before each of its own, an insert makes the next lookup answer its manifest unless one
  // of its blobs is collected meanwhile.
  lemma {:induction false} WovenInsert(h: Hash, d: Disk, own: seq<Step>, fp: Key, artifacts: seq<(Name, Bytes)>,
                                       now: nat, m: Manifest, o: Others)
    requires InsertSteps(h, own, fp, artifacts, now, m) && Spared(o, |own|, KeysOf(m))
    ensures Lookup(Run(h, d, Woven(own, o, |own|)), fp) == Some(m)
  {
    forall key | key in KeysOf(m) ensures PutBefore(h, own, |own|, key) {
      var i :| 0 <= i < |m| && m[i].blob == key;
      PutAt(h, own, |own|, i);
    }
    WovenEntry(h, d, own, fp, m, true, o);
  }

  // ----- garbage collection -----

  datatype Candidate = Candidate(key: Key, len: nat, mtime: nat)

  function Total(cs: seq<Candidate>): nat {
    if cs == [] then 0 else Total(cs[..|cs| - 1]) + cs[|cs| - 1].len
  }

  lemma {:induction false} TotalSplit(a: seq<Candidate>, b: seq<Candidate>)
    ensures Total(a + b) == Total(a) + Total(b)
  {
    if b == [] {
      assert a + b == a;
    } else {
      assert (a + b)[..|a + b| - 1] == a + b[..|b| - 1];
      TotalSplit(a, b[..|b| - 1]);
    }
  }

  function InsertByAge(c: Candidate, cs: seq<Candidate>): seq<Candidate> {
    if cs == [] || c.mtime <= cs[0].mtime then [c] + cs else [cs[0]] + InsertByAge(c, cs[1..])
  }

  function SortByAge(cs: seq<Candidate>): seq<Candidate> {
    if cs == [] then [] else InsertByAge(cs[0], SortByAge(cs[1..]))
  }

  ghost predicate OldestFirst(cs: seq<Candidate>) {
    forall i, j :: 0 <= i < j < |cs| ==> cs[i].mtime <= cs[j].mtime
  }

  lemma {:induction false} InsertByAgeKeeps(c: Candidate, cs: seq<Candidate>)
    ensures multiset(InsertByAge(c, cs)) == multiset(cs) + multiset{c}
    ensures Total(InsertByAge(c, cs)) == Total(cs) + c.len
  {
    if cs == [] || c.mtime <= cs[0].mtime {
      TotalFront(c, cs);
    } else {
      InsertByAgeKeeps(c, cs[1..]);
      assert cs == [cs[0]] + cs[1..];
      TotalFront(cs[0], cs[1..]);
      TotalFront(cs[0], InsertByAge(c, cs[1..]));
    }
  }

  lemma {:induction false} TotalFront(c: Candidate, cs: seq<Candidate>)
    ensures Total([c] + cs) == c.len + Total(cs)
  {
    assert [c][..0] == [];
    TotalSplit([c], cs);
  }

  lemma {:induction false} InsertByAgeSorts(c: Candidate, cs: seq<Candidate>)
    requires OldestFirst(cs)
    ensures OldestFirst(InsertByAge(c, cs))
  {
    if cs != [] && c.mtime > cs[0].mtime {
      InsertByAgeSorts(c, cs[1..]);
      InsertByAgeKeeps(c, cs[1..]);
      var rest := InsertByAge(c, cs[1..]);
      forall j | 0 <= j < |rest| ensures cs[0].mtime <= rest[j].mtime {
        assert rest[j] in multiset(rest);
        assert rest[j] == c || rest[j] in cs[1..];
      }
    }
  }

  lemma {:induction false} SortByAgeSorts(cs: seq<Candidate>)
    ensures OldestFirst(SortByAge(cs)) && multiset(SortByAge(cs)) == multiset(cs) && Total(SortByAge(cs)) == Total(cs)
  {
    if cs != [] {
      SortByAgeSorts(cs[1..]);
      InsertByAgeSorts(cs[0], SortByAge(cs[1..]));
      InsertByAgeKeeps(cs[0], SortByAge(cs[1..]));
      FrontAndRest(cs);
    }
  }

  lemma {:induction false} FrontAndRest(cs: seq<Candidate>)
    requires cs != []
    ensures multiset(cs) == multiset(cs[1..]) + multiset{cs[0]} && Total(cs) == cs[0].len + Total(cs[1..])
  {
    assert cs == [cs[0]] + cs[1..];
    TotalFront(cs[0], cs[1..]);
  }

  datatype GcReport = GcReport(removed: nat, freed: nat, kept: nat)

  // `r` says to remove the first `removed` of `cs`: enough, no more than enough, and nothing lost in the sums.
  ghost predicate ShortestPrefix(cs: seq<Candidate>, max: nat, r: GcReport) {
    && r.removed <= |cs|
    && r.freed == Total(cs[..r.removed]) && r.kept == Total(cs[r.removed..])
    && r.kept + r.freed == Total(cs)
    && r.kept <= max
    && (forall n :: 0 <= n < r.removed ==> Total(cs[n..]) > max)
  }

  function Removals(cs: seq<Candidate>): (r: seq<Step>)
    ensures |r| == |cs| && forall i :: 0 <= i < |cs| ==> r[i] == RemoveBlob(cs[i].key)
  {
    seq(|cs|, i requires 0 <= i < |cs| => RemoveBlob(cs[i].key))
  }

  // After removing `n` blobs of the list.
  ghost predicate Removed(cs: seq<Candidate>, max: nat, n: nat, kept: int, freed: int) {
    && n <= |cs|
    && kept == Total(cs[n..]) && freed == Total(cs[..n]) && kept + freed == Total(cs)
    && forall m :: 0 <= m < n ==> Total(cs[m..]) > max
  }

  lemma {:induction false} RemoveNext(cs: seq<Candidate>, max: nat, n: nat, kept: int, freed: int)
    requires Removed(cs, max, n, kept, freed) && n < |cs| && kept > max
    ensures Removed(cs, max, n + 1, kept - cs[n].len, freed + cs[n].len)
  {
    assert cs[n..] == [cs[n]] + cs[n + 1..];
    TotalFront(cs[n], cs[n + 1..]);
    assert cs[..n + 1][..n] == cs[..n];
  }

  /** The loop of `gc` over the blobs sorted by age. */
  method Collect(cs: seq<Candidate>, max: nat) returns (r: GcReport, steps: seq<Step>)
    ensures ShortestPrefix(SortByAge(cs), max, r)
    ensures OldestFirst(SortByAge(cs)) && multiset(SortByAge(cs)) == multiset(cs)
    ensures steps == Removals(SortByAge(cs)[..r.removed])
  {
    var sorted := SortByAge(cs);
    SortByAgeSorts(cs);
    var total := Total(cs);
    StartRemoving(sorted, max);
    if total <= max {
      return GcReport(0, 0, total), [];
    }
    var kept, removed, freed := total, 0, 0;
    steps := [];
    while removed < |sorted| && kept > max
      invariant Removed(sorted, max, removed, kept, freed)
      invariant steps == Removals(sorted[..removed])
      decreases |sorted| - removed
    {
      RemoveNext(sorted, max, removed, kept, freed);
      RemovalsNext(sorted, removed);
      var c := sorted[removed];
      kept, freed, removed, steps := kept - c.len, freed + c.len, removed + 1, steps + [RemoveBlob(c.key)];
    }
    assert removed == |sorted| ==> sorted[removed..] == [];
    r := GcReport(removed, freed, kept);
  }

  lemma {:induction false} StartRemoving(cs: seq<Candidate>, max: nat)
    ensures Removed(cs, max, 0, Total(cs), 0) && Removals(cs[..0]) == []
  {
    assert cs[0..] == cs && cs[..0] == [];
  }

  lemma {:induction false} RemovalsNext(cs: seq<Candidate>, n: nat)
    requires n < |cs|
    ensures Removals(cs[..n + 1]) == Removals(cs[..n]) + [RemoveBlob(cs[n].key)]
  {
  }

  // ----- the local store and the remote tier -----

  datatype GetError = Transport | Status | TooLarge

  datatype Answer<+T> = Got(value: T) | NotFound | Failed(error: GetError)

  // What a remote serves; a blob that does not decompress is `None`.
  datatype Remote = Remote(manifests: map<Key, Answer<ManifestFile>>, blobs: map<Key, Answer<Option<Bytes>>>)

  datatype FetchOutcome = Hit(downloaded: nat) | Miss | Degraded

  ghost predicate Additive(s: Step, fp: Key) {
    s.PutBlob? || (s.PutManifest? && s.fp == fp && !s.overwrite)
  }

  class LocalStore {
    const hash: Hash
    const isBlobKey: Key -> bool
    var disk: Disk
    var tripped: bool

    constructor (hash: Hash, isBlobKey: Key -> bool)
      ensures this.hash == hash && disk == Disk(map[], map[]) && !tripped
    {
      this.hash, this.isBlobKey := hash, isBlobKey;
      disk, tripped := Disk(map[], map[]), false;
    }

    method StoreBlob(bytes: Bytes, now: nat) returns (key: Key)
      modifies this`disk
      ensures key == hash(bytes) && disk == Apply(hash, old(disk), PutBlob(bytes, now)) && key in disk.blobs
    {
      key := hash(bytes);
      if key !in disk.blobs {
        disk := disk.(blobs := disk.blobs[key := Blob(bytes, now)]);
      }
    }

    /** `insert`: blobs first, then the manifest, which always wins. */
    method Insert(fp: Key, artifacts: seq<(Name, Bytes)>, now: nat) returns (m: Manifest, ghost steps: seq<Step>)
      modifies this`disk
      ensures disk == Run(hash, old(disk), steps)
      ensures forall i :: 0 <= i < |steps| ==> !steps[i].RemoveBlob? && (steps[i].PutManifest? ==> steps[i].fp == fp)
      ensures |m| == |artifacts| && forall i :: 0 <= i < |m| ==> m[i] == Entry(artifacts[i].0, hash(artifacts[i].1))
      ensures InsertSteps(hash, steps, fp, artifacts, now, m)
      ensures Lookup(disk, fp) == Some(m)
    {
      m, steps := [], [];
      for i := 0 to |artifacts|
        invariant disk == Run(hash, old(disk), steps) && disk.manifests == old(disk.manifests)
        invariant |steps| == i && forall j :: 0 <= j < i ==> steps[j] == PutBlob(artifacts[j].1, now)
        invariant |m| == i && forall j :: 0 <= j < i ==> m[j] == Entry(artifacts[j].0, hash(artifacts[j].1))
        invariant KeysOf(m) <= disk.blobs.Keys
      {
        ghost var put := PutBlob(artifacts[i].1, now);
        assert (steps + [put])[..|steps|] == steps;
        var key := StoreBlob(artifacts[i].1, now);
        m, steps := m + [Entry(artifacts[i].0, key)], steps + [put];
      }
      ghost var put := PutManifest(fp, m, true);
      assert (steps + [put])[..|steps|] == steps;
      disk := disk.(manifests := disk.manifests[fp := Parsed(m)]);
      steps := steps + [put];
    }

    method InsertManifest(fp: Key, m: Manifest)
      modifies this`disk
      ensures disk == Apply(hash, old(disk), PutManifest(fp, m, false))
    {
      if fp !in disk.manifests {
        disk := disk.(manifests := disk.manifests[fp := Parsed(m)]);
      }
    }

    // ----- what decides a fetch -----

    ghost predicate ServesManifest(remote: Remote, fp: Key) {
      && fp in remote.manifests && remote.manifests[fp].Got? && remote.manifests[fp].value.Parsed?
      && ServedOk(remote, fp, remote.manifests[fp].value.m)
    }

    // The blob is there already, or the remote serves bytes that hash to its key.
    predicate Available(remote: Remote, d: Disk, key: Key) {
      || key in d.blobs
      || (key in remote.blobs && remote.blobs[key].Got? && remote.blobs[key].value.Some?
          && hash(remote.blobs[key].value.value) == key)
    }

    predicate AvailableUpto(remote: Remote, d: Disk, m: Manifest, n: nat)
      requires n <= |m|
    {
      n == 0 || (AvailableUpto(remote, d, m, n - 1) && Available(remote, d, m[n - 1].blob))
    }

    ghost predicate FetchHits(remote: Remote, off: bool, d: Disk, fp: Key) {
      !off && ServesManifest(remote, fp)
      && AvailableUpto(remote, d, remote.manifests[fp].value.m, |remote.manifests[fp].value.m|)
    }

    // The first blob that cannot be had fails in transport.
    ghost predicate BlobTrips(remote: Remote, d: Disk, m: Manifest) {
      exists i: nat :: TripsAt(remote, d, m, i)
    }

    ghost predicate TripsAt(remote: Remote, d: Disk, m: Manifest, i: nat) {
      && i < |m| && AvailableUpto(remote, d, m, i) && !Available(remote, d, m[i].blob)
      && m[i].blob in remote.blobs && remote.blobs[m[i].blob] == Failed(Transport)
    }

    ghost predicate Trips(remote: Remote, d: Disk, fp: Key) {
      fp in remote.manifests &&
        (remote.manifests[fp] == Failed(Transport)
         || (ServesManifest(remote, fp) && BlobTrips(remote, d, remote.manifests[fp].value.m)))
    }

    lemma {:induction false} AvailableEach(remote: Remote, d: Disk, m: Manifest, n: nat, i: nat)
      requires i < n <= |m| && AvailableUpto(remote, d, m, n)
      ensures Available(remote, d, m[i].blob) && AvailableUpto(remote, d, m, i)
    {
      if i < n - 1 { AvailableEach(remote, d, m, n - 1, i); }
    }

    // All blobs can be had, so none is the first that cannot.
    lemma {:induction false} CompleteNeverTrips(remote: Remote, d: Disk, m: Manifest)
      requires AvailableUpto(remote, d, m, |m|)
      ensures !BlobTrips(remote, d, m)
    {
      forall i: nat ensures !TripsAt(remote, d, m, i) {
        if i < |m| { AvailableEach(remote, d, m, |m|, i); }
      }
    }

    // The first blob that cannot be had decides.
    lemma {:induction false} StoppedAt(remote: Remote, d: Disk, m: Manifest, i: nat)
      requires i < |m| && AvailableUpto(remote, d, m, i) && !Available(remote, d, m[i].blob)
      ensures !AvailableUpto(remote, d, m, |m|)
      ensures BlobTrips(remote, d, m) <==> TripsAt(remote, d, m, i)
    {
      if AvailableUpto(remote, d, m, |m|) { AvailableEach(remote, d, m, |m|, i); }
      forall j: nat | TripsAt(remote, d, m, j) ensures j == i {
        if i < j { AvailableEach(remote, d, m, j, i); }
        if j < i { AvailableEach(remote, d, m, i, j); }
      }
    }

    /** `fetch`: verify every blob before storing it, write the manifest last, never replace one; a transport failure
        trips the breaker for good. */
    method Fetch(remote: Remote, fp: Key, now: nat) returns (r: FetchOutcome, ghost steps: seq<Step>)
      modifies this
      ensures disk == Run(hash, old(disk), steps) && forall i :: 0 <= i < |steps| ==> Additive(steps[i], fp)
      ensures old(tripped) ==> r == Miss && steps == [] && tripped
      ensures fp in old(disk.manifests) ==> fp in disk.manifests && disk.manifests[fp] == old(disk.manifests)[fp]
      ensures !r.Hit? ==> disk.manifests == old(disk.manifests)
      ensures r.Hit? ==> fp in disk.manifests && exists m :: ServedOk(remote, fp, m) && KeysOf(m) <= disk.blobs.Keys
                                                      && (fp !in old(disk.manifests) ==>
                                                          disk.manifests[fp] == Parsed(m))
      ensures tripped <==> old(tripped) || Trips(remote, old(disk), fp)
      ensures r.Hit? <==> FetchHits(remote, old(tripped), old(disk), fp)
      ensures r.Miss? <==> old(tripped) || fp !in remote.manifests || remote.manifests[fp].NotFound?
                           || remote.manifests[fp] == Failed(Transport)
      ensures r.Hit? ==> var m := remote.manifests[fp].value.m;
                         && BlobsFirst(steps, fp, m, false)
                         && r.downloaded == |KeysOf(m) - old(disk).blobs.Keys|
                         && disk.blobs.Keys == old(disk).blobs.Keys + KeysOf(m)
      ensures forall i :: 0 <= i < |steps| ==> FromRemote(remote, fp, steps[i])
    {
      steps := [];
      if tripped {
        return Miss, steps;
      }
      if fp !in remote.manifests || remote.manifests[fp].NotFound? {
        return Miss, steps;
      }
      var answer := remote.manifests[fp];
      if answer.Failed? {
        if answer.error.Transport? {
          tripped := true;
          return Miss, steps;
        }
        return Degraded, steps;
      }
      if answer.value.Malformed? {
        return Degraded, steps;
      }
      var m := answer.value.m;
      var valid := AllBlobKeys(m);
      if !valid {
        return Degraded, steps;
      }
      assert ServedOk(remote, fp, m);
      r, steps := Ingest(remote, fp, m, now);
    }

    // A served manifest: its blobs, then the manifest itself.
    method Ingest(remote: Remote, fp: Key, m: Manifest, now: nat) returns (r: FetchOutcome, ghost steps: seq<Step>)
      requires ServedOk(remote, fp, m) && !tripped
      modifies this
      ensures disk == Run(hash, old(disk), steps) && !r.Miss?
      ensures forall j :: 0 <= j < |steps| ==> Additive(steps[j], fp) && FromRemote(remote, fp, steps[j])
      ensures tripped <==> BlobTrips(remote, old(disk), m)
      ensures r.Hit? <==> AvailableUpto(remote, old(disk), m, |m|)
      ensures disk.manifests == if r.Hit? && fp !in old(disk).manifests then old(disk).manifests[fp := Parsed(m)]
                                else old(disk).manifests
      ensures r.Hit? ==>
                && BlobsFirst(steps, fp, m, false) && !tripped
                && r.downloaded == |KeysOf(m) - old(disk).blobs.Keys|
                && disk.blobs.Keys == old(disk).blobs.Keys + KeysOf(m)
    {
      var complete, downloaded;
      complete, downloaded, steps := FetchBlobs(remote, fp, m, now);
      if !complete {
        return Degraded, steps;
      }
      ghost var put := PutManifest(fp, m, false);
      assert (steps + [put])[..|steps|] == steps;
      InsertManifest(fp, m);
      steps := steps + [put];
      return Hit(downloaded), steps;
    }

    // Every missing blob of the manifest, up to the first that cannot be had.
    method FetchBlobs(remote: Remote, fp: Key, m: Manifest, now: nat)
      returns (complete: bool, downloaded: nat, ghost steps: seq<Step>)
      requires ServedOk(remote, fp, m) && !tripped
      modifies this
      ensures disk == Run(hash, old(disk), steps) && disk.manifests == old(disk.manifests)
      ensures forall j :: 0 <= j < |steps| ==> steps[j].PutBlob? && FromRemote(remote, fp, steps[j])
      ensures complete <==> AvailableUpto(remote, old(disk), m, |m|)
      ensures tripped <==> BlobTrips(remote, old(disk), m)
      ensures complete ==> disk.blobs.Keys == old(disk).blobs.Keys + KeysOf(m) && !tripped
      ensures complete ==> downloaded == |KeysOf(m) - old(disk).blobs.Keys|
    {
      steps, downloaded := [], 0;
      for i := 0 to |m|
        invariant disk == Run(hash, old(disk), steps) && disk.manifests == old(disk.manifests)
        invariant forall j :: 0 <= j < |steps| ==> steps[j].PutBlob? && FromRemote(remote, fp, steps[j])
        invariant FetchedUpto(remote, old(disk), m, i, disk, downloaded) && !tripped
      {
        assert m[i] in m;
        ghost var before := disk;
        var ok, isNew, more := FetchBlob(remote, fp, m, m[i].blob, now);
        RunAppend(hash, old(disk), steps, more);
        steps := steps + more;
        SameAvailable(remote, old(disk), m, i, before, downloaded);
        if !ok {
          StoppedAt(remote, old(disk), m, i);
          return false, downloaded, steps;
        }
        FetchedNext(remote, old(disk), m, i, before, downloaded, disk, isNew);
        downloaded := downloaded + if isNew then 1 else 0;
      }
      FetchedAll(remote, old(disk), m, disk, downloaded);
      complete := true;
    }

    // The first `n` entries could be had and are there; `downloaded` counts the distinct ones that were not before.
    ghost predicate FetchedUpto(remote: Remote, d: Disk, m: Manifest, n: nat, d': Disk, downloaded: nat) {
      && n <= |m| && AvailableUpto(remote, d, m, n) && downloaded == NewUpto(d, m, n)
      && forall k :: k in d'.blobs <==> k in d.blobs || ListedUpto(m, n, k)
    }

    lemma {:induction false} FetchedNext(remote: Remote, d: Disk, m: Manifest, n: nat, d': Disk, downloaded: nat,
                                         d'': Disk, isNew: bool)
      requires FetchedUpto(remote, d, m, n, d', downloaded) && n < |m| && Available(remote, d, m[n].blob)
      requires forall k :: k in d''.blobs <==> k in d'.blobs || k == m[n].blob
      requires isNew <==> m[n].blob !in d'.blobs
      ensures FetchedUpto(remote, d, m, n + 1, d'', downloaded + if isNew then 1 else 0)
    {
    }

    // A blob put by the fetch itself could be had from the start.
    lemma {:induction false} SameAvailable(remote: Remote, d: Disk, m: Manifest, n: nat, d': Disk, downloaded: nat)
      requires FetchedUpto(remote, d, m, n, d', downloaded) && n < |m|
      ensures Available(remote, d', m[n].blob) <==> Available(remote, d, m[n].blob)
    {
      if ListedUpto(m, n, m[n].blob) { ListedAvailable(remote, d, m, n, m[n].blob); }
    }

    lemma {:induction false} ListedAvailable(remote: Remote, d: Disk, m: Manifest, n: nat, k: Key)
      requires n <= |m| && AvailableUpto(remote, d, m, n) && ListedUpto(m, n, k)
      ensures Available(remote, d, k)
    {
      if m[n - 1].blob != k { ListedAvailable(remote, d, m, n - 1, k); }
    }

    lemma {:induction false} FetchedAll(remote: Remote, d: Disk, m: Manifest, d': Disk, downloaded: nat)
      requires FetchedUpto(remote, d, m, |m|, d', downloaded)
      ensures AvailableUpto(remote, d, m, |m|) && !BlobTrips(remote, d, m)
      ensures d'.blobs.Keys == d.blobs.Keys + KeysOf(m) && downloaded == |KeysOf(m) - d.blobs.Keys|
    {
      CompleteNeverTrips(remote, d, m);
      assert m[..|m|] == m;
      forall k ensures k in KeysOf(m) <==> ListedUpto(m, |m|, k) {
        ListedExact(m, |m|, k);
      }
      NewCount(d, m, |m|, KeysOf(m));
    }

    // One entry: skipped if the blob is there, else downloaded and verified before it is stored.
    method FetchBlob(remote: Remote, fp: Key, ghost m: Manifest, key: Key, now: nat)
      returns (ok: bool, isNew: bool, ghost steps: seq<Step>)
      requires ServedOk(remote, fp, m) && key in KeysOf(m) && !tripped
      modifies this
      ensures disk == Run(hash, old(disk), steps) && disk.manifests == old(disk.manifests)
      ensures forall j :: 0 <= j < |steps| ==> steps[j].PutBlob? && FromRemote(remote, fp, steps[j])
      ensures ok <==> Available(remote, old(disk), key)
      ensures tripped <==> !ok && key in remote.blobs && remote.blobs[key] == Failed(Transport)
      ensures ok ==> forall k :: k in disk.blobs <==> k in old(disk).blobs || k == key
      ensures ok ==> (isNew <==> key !in old(disk).blobs)
      ensures !ok ==> disk == old(disk)
    {
      steps, isNew := [], false;
      if key in disk.blobs {
        return true, isNew, steps;
      }
      if key !in remote.blobs || remote.blobs[key].NotFound? {
        return false, isNew, steps;
      }
      var got := remote.blobs[key];
      if got.Failed? {
        tripped := got.error.Transport?;
        return false, isNew, steps;
      }
      if got.value.None? || hash(got.value.value) != key {
        return false, isNew, steps;
      }
      assert Verified(remote, fp, got.value.value, m, key);
      var stored := StoreBlob(got.value.value, now);
      steps := [PutBlob(got.value.value, now)];
      assert steps[..0] == [];
      return true, true, steps;
    }

    method AllBlobKeys(m: Manifest) returns (ok: bool)
      ensures ok <==> forall i :: 0 <= i < |m| ==> isBlobKey(m[i].blob)
    {
      for i := 0 to |m|
        invariant forall j :: 0 <= j < i ==> isBlobKey(m[j].blob)
      {
        if !isBlobKey(m[i].blob) {
          return false;
        }
      }
      return true;
    }

    // Bytes the remote serves for a key of the manifest it serves, and which hash to that key.
    ghost predicate Verified(remote: Remote, fp: Key, bytes: Bytes, m: Manifest, key: Key) {
      && ServedOk(remote, fp, m) && key in KeysOf(m)
      && key in remote.blobs && remote.blobs[key] == Got(Some(bytes)) && hash(bytes) == key
    }

    // A step a fetch may take: nothing unverified is ever stored, whatever the fetch comes to.
    ghost predicate FromRemote(remote: Remote, fp: Key, s: Step) {
      match s
      case PutBlob(bytes, _) => exists m, key :: Verified(remote, fp, bytes, m, key)
      case PutManifest(at, m, overwrite) => at == fp && !overwrite && ServedOk(remote, fp, m)
      case RemoveBlob(_) => false
    }

    ghost predicate ServedOk(remote: Remote, fp: Key, m: Manifest) {
      && fp in remote.manifests && remote.manifests[fp] == Got(Parsed(m))
      && forall i :: 0 <= i < |m| ==> isBlobKey(m[i].blob)
    }

    // Before the `i`-th access other workers' steps happen.
    method Turn(others: Others, i: nat, ghost start: Disk)
      requires disk == Run(hash, start, Upto(others, i))
      modifies this`disk
      ensures disk == Amid(hash, start, others, i) == Run(hash, start, Upto(others, i + 1))
    {
      RunAppend(hash, start, Upto(others, i), others(i));
      disk := Run(hash, disk, others(i));
    }

    /** `lookup`: reads the manifest, then tests for one blob after the other while others work. */
    method LookupAmid(fp: Key, others: Others) returns (hit: Option<Manifest>, ghost n: nat)
      modifies this`disk
      ensures disk == Run(hash, old(disk), Upto(others, n))
      ensures hit.Some? <==> HitAmid(hash, old(disk), fp, others)
      ensures hit.Some? ==> hit.value == old(disk).manifests[fp].m && n == |hit.value|
      ensures hit.None? ==> MissedAt(hash, old(disk), fp, others, n)
    {
      n := 0;
      if fp !in disk.manifests || disk.manifests[fp].Malformed? {
        return None, n;
      }
      var m := disk.manifests[fp].m;
      for i := 0 to |m|
        invariant n == i && disk == Run(hash, old(disk), Upto(others, i))
        invariant PresentUpto(hash, old(disk), m, others, i)
      {
        n := i + 1;
        Turn(others, i, old(disk));
        if m[i].blob !in disk.blobs {
          AbsentAt(hash, old(disk), m, others, i);
          return None, n;
        }
      }
      hit := Some(m);
    }

    // The old file goes first; the link fails if the blob is gone.
    method LinkOne(key: Key, dest: Path, files: map<Path, Bytes>) returns (ok: bool, files': map<Path, Bytes>)
      ensures ok <==> key in disk.blobs
      ensures files' == if ok then files[dest := disk.blobs[key].bytes] else files - {dest}
    {
      files' := files - {dest};
      if key !in disk.blobs {
        return false, files';
      }
      files' := files'[dest := disk.blobs[key].bytes];
      assert files' == files[dest := disk.blobs[key].bytes];
      ok := true;
    }

    /** `materialize`: fails on a wrong number of destinations or at the first blob that was collected, else every
        destination holds what its slot's blob held when it was linked. */
    method Materialize(m: Manifest, dests: seq<Path>, files: map<Path, Bytes>, others: Others)
      returns (ok: bool, files': map<Path, Bytes>, ghost n: nat)
      requires NoDup(dests)
      modifies this`disk
      ensures disk == Run(hash, old(disk), Upto(others, n))
      ensures ok <==> |m| == |dests| && PresentAmid(hash, old(disk), m, others)
      ensures SameElsewhere(files, files', dests)
      ensures ok ==> Linked(hash, old(disk), m, dests, others, files', |m|)
    {
      files', n := files, 0;
      if |m| != |dests| {
        return false, files', n;
      }
      for i := 0 to |m|
        invariant n == i && disk == Run(hash, old(disk), Upto(others, i))
        invariant SameElsewhere(files, files', dests)
        invariant PresentUpto(hash, old(disk), m, others, i)
        invariant Linked(hash, old(disk), m, dests, others, files', i)
      {
        n := i + 1;
        Turn(others, i, old(disk));
        ghost var before := files';
        var linked;
        linked, files' := LinkOne(m[i].blob, dests[i], files');
        assert dests[i] in dests;
        if !linked {
          AbsentAt(hash, old(disk), m, others, i);
          return false, files', n;
        }
        LinkedNext(hash, old(disk), m, dests, others, before, files', i);
      }
      ok := true;
    }

    // What the lookups before a compiler run answer: the local manifest; else, after a fetch that hit, the one then
    // under the fingerprint; else nothing. `at` is the disk at the end.
    ghost predicate Answered(d: Disk, off: bool, fp: Key, remote: Option<Remote>, w: World, t: Trace,
                             hit: Option<Manifest>, outcome: Outcome, at: Disk)
    {
      var before := Run(hash, d, Upto(w.first, t.turns));
      var mid := Run(hash, before, t.fetched);
      if HitAmid(hash, d, fp, w.first) then
        && hit == Some(d.manifests[fp].m) && outcome == Cached && t == Trace(|hit.value|, []) && at == before
      else
        && MissedAt(hash, d, fp, w.first, t.turns)
        && if remote.None? then hit.None? && t.fetched == [] else
             && (forall i :: 0 <= i < |t.fetched| ==> FromRemote(remote.value, fp, t.fetched[i]))
             && (hit.Some? <==> FetchHits(remote.value, off, before, fp) && HitAmid(hash, mid, fp, w.again))
             && (hit.Some? ==>
                   && hit.value == mid.manifests[fp].m && outcome == Downloaded
                   && BlobsFirst(t.fetched, fp, remote.value.manifests[fp].value.m, false)
                   && at == Run(hash, mid, Upto(w.again, |hit.value|)))
    }

    // The remote was asked, after a local miss, and failed in transport.
    ghost predicate TripsAfter(d: Disk, fp: Key, remote: Option<Remote>, w: World, t: Trace) {
      && !HitAmid(hash, d, fp, w.first) && remote.Some?
      && Trips(remote.value, Run(hash, d, Upto(w.first, t.turns)), fp)
    }

    // Up to and including a second lookup after a fetch that hit.
    method FindHit(fp: Key, remote: Option<Remote>, now: nat, w: World)
      returns (hit: Option<Manifest>, outcome: Outcome, ghost steps: seq<Step>, ghost t: Trace)
      modifies this
      ensures disk == Run(hash, old(disk), steps) && !outcome.Built?
      ensures forall i :: 0 <= i < |steps| && steps[i].RemoveBlob? ==> ByOthers(w, steps[i])
      ensures Answered(old(disk), old(tripped), fp, remote, w, t, hit, outcome, disk)
      ensures tripped <==> old(tripped) || TripsAfter(old(disk), fp, remote, w, t)
      ensures Quiet(w) && hit.Some? ==> hit == Lookup(disk, fp)
    {
      outcome := Cached;
      ghost var n;
      hit, n := LookupAmid(fp, w.first);
      steps, t := Upto(w.first, n), Trace(n, []);
      RemovedByOthers(w, w.first, n);
      if Quiet(w) { QuietLookup(hash, old(disk), fp, w.first, n); }
      if hit.None? && remote.Some? {
        var fetched, more := Fetch(remote.value, fp, now);
        RunAppend(hash, old(disk), steps, more);
        steps, t := steps + more, Trace(n, more);
        if fetched.Hit? {
          ghost var mid := disk;
          hit, n := LookupAmid(fp, w.again);
          RemovedByOthers(w, w.again, n);
          if Quiet(w) { QuietLookup(hash, mid, fp, w.again, n); }
          RunAppend(hash, old(disk), steps, Upto(w.again, n));
          steps := steps + Upto(w.again, n);
          outcome := Downloaded;
        }
      }
    }

    /** One module of `build_workspace`, cache on: look up, fetch, check the shape, then materialise or run the
        compiler (`compiled` is what it produces, `None` if it fails). `w` is what other workers and collectors do
        meanwhile. What the lookups answered decides: a fitting manifest is materialised or, if a blob of it is
        collected before its turn, the job fails; anything else, or `force`, is the compiler's. `at` is the disk when
        materialising began. */
    method BuildModule(fp: Key, dests: seq<Path>, nameOf: Path -> Name, remote: Option<Remote>, force: bool,
                       compiled: Option<seq<Bytes>>, now: nat, files: map<Path, Bytes>, w: World)
      returns (r: JobResult, files': map<Path, Bytes>, ghost steps: seq<Step>,
               ghost hit: Option<Manifest>, ghost outcome: Outcome, ghost at: Disk, ghost t: Trace)
      requires NoDup(dests) && (compiled.Some? ==> |compiled.value| == |dests|)
      modifies this
      ensures disk == Run(hash, old(disk), steps)
      ensures forall i :: 0 <= i < |steps| && steps[i].RemoveBlob? ==> ByOthers(w, steps[i])
      ensures SameElsewhere(files, files', dests)
      ensures if force then hit.None? else Answered(old(disk), old(tripped), fp, remote, w, t, hit, outcome, at)
      ensures tripped <==> old(tripped) || (!force && TripsAfter(old(disk), fp, remote, w, t))
      ensures r == Decided(hash, hit, outcome, dests, nameOf, compiled, w, at)
      ensures r == Done(Built) ==> Primed(disk, fp, dests, nameOf)
      ensures r == Done(Built) ==> forall i :: 0 <= i < |dests| ==>
                dests[i] in files' && files'[dests[i]] == compiled.value[i]
      ensures r == Done(Built) ==> Lookup(disk, fp) == Some(Entries(hash, dests, nameOf, compiled.value))
      ensures r.Done? && !r.outcome.Built? ==> Linked(hash, at, hit.value, dests, w.linking, files', |hit.value|)
      ensures r.Done? && !r.outcome.Built? ==> !force && hit.Some? && |hit.value| == |dests|
      ensures r.Done? && !r.outcome.Built? ==> forall i :: 0 <= i < |dests| ==> hit.value[i].name == nameOf(dests[i])
      ensures r.JobFailed? ==> forall p :: p in dests ==> p !in files'
      ensures Quiet(w) && r.Done? ==> Primed(disk, fp, dests, nameOf)
      ensures Quiet(w) && r.Done? && !r.outcome.Built? ==>
                hit == Lookup(disk, fp) && FilesAre(files', dests, hit.value, disk)
      ensures Quiet(w) && r.JobFailed? ==> compiled.None?
    {
      steps, hit, at, t := [], None, disk, Trace(0, []);
      outcome := Cached;
      var useHit, found, how := false, None, Cached;
      if !force {
        found, how, steps, t := FindHit(fp, remote, now, w);
        hit, outcome, at := found, how, disk;
        useHit := found.Some? && Fits(found.value, dests, nameOf);
      }
      ghost var earlier, more := steps, [];
      if useHit {
        r, files', more := UseHit(found.value, dests, nameOf, how, files, w);
      } else {
        r, files', more := Compile(fp, dests, nameOf, compiled, now, files);
      }
      RunAppend(hash, old(disk), earlier, more);
      steps := earlier + more;
    }

    // A fitting hit: link it, or clean up and fail.
    method UseHit(m: Manifest, dests: seq<Path>, ghost nameOf: Path -> Name, outcome: Outcome,
                  files: map<Path, Bytes>, w: World)
      returns (r: JobResult, files': map<Path, Bytes>, ghost steps: seq<Step>)
      requires NoDup(dests) && Fits(m, dests, nameOf)
      modifies this`disk
      ensures disk == Run(hash, old(disk), steps)
      ensures forall i :: 0 <= i < |steps| ==> ByOthers(w, steps[i])
      ensures SameElsewhere(files, files', dests)
      ensures r == if PresentAmid(hash, old(disk), m, w.linking) then Done(outcome) else JobFailed
      ensures r.Done? ==> Linked(hash, old(disk), m, dests, w.linking, files', |m|)
      ensures r.JobFailed? ==> forall p :: p in dests ==> p !in files'
      ensures Silent(w.linking) ==> disk == old(disk) && (r.Done? <==> KeysOf(m) <= disk.blobs.Keys)
      ensures Silent(w.linking) && r.Done? ==> FilesAre(files', dests, m, disk)
    {
      var ok;
      ghost var n;
      ok, files', n := Materialize(m, dests, files, w.linking);
      steps := Upto(w.linking, n);
      RemovedByOthers(w, w.linking, n);
      if Silent(w.linking) { QuietLinks(hash, old(disk), m, dests, w.linking, files', n); }
      if !ok {
        files' := CleanUp(dests, files');
        return JobFailed, files', steps;
      }
      r := Done(outcome);
    }

    // No fitting hit: the compiler runs, and its artifacts are inserted if it succeeds.
    method Compile(fp: Key, dests: seq<Path>, nameOf: Path -> Name, compiled: Option<seq<Bytes>>, now: nat,
                   files: map<Path, Bytes>)
      returns (r: JobResult, files': map<Path, Bytes>, ghost steps: seq<Step>)
      requires NoDup(dests) && (compiled.Some? ==> |compiled.value| == |dests|)
      modifies this`disk
      ensures disk == Run(hash, old(disk), steps) && forall i :: 0 <= i < |steps| ==> !steps[i].RemoveBlob?
      ensures SameElsewhere(files, files', dests)
      ensures r == if compiled.Some? then Done(Built) else JobFailed
      ensures r.JobFailed? ==> disk == old(disk) && forall p :: p in dests ==> p !in files'
      ensures r.Done? ==> Lookup(disk, fp) == Some(Entries(hash, dests, nameOf, compiled.value))
      ensures r.Done? ==> forall i :: 0 <= i < |dests| ==> dests[i] in files' && files'[dests[i]] == compiled.value[i]
    {
      if compiled.None? {
        files' := CleanUp(dests, files);
        return JobFailed, files', [];
      }
      files' := WriteAll(dests, compiled.value, files);
      var artifacts := seq(|dests|, i requires 0 <= i < |dests| => (nameOf(dests[i]), compiled.value[i]));
      var m;
      m, steps := Insert(fp, artifacts, now);
      assert m == Entries(hash, dests, nameOf, compiled.value);
      r := Done(Built);
    }

    /** A manifest that does not fit is rebuilt once: the first build runs the compiler, and after any friendly steps of
        other workers the next one takes its artifacts from the cache, whatever the compiler would say. */
    method RebuiltOnce(fp: Key, dests: seq<Path>, nameOf: Path -> Name, remote: Option<Remote>, contents: seq<Bytes>,
                       now: nat, files: map<Path, Bytes>, w: World, between: seq<Step>, compiled: Option<seq<Bytes>>,
                       w': World)
      returns (first: JobResult, second: JobResult, files': map<Path, Bytes>, ghost mid: Disk)
      requires NoDup(dests) && |contents| == |dests| && (compiled.Some? ==> |compiled.value| == |dests|)
      requires Sound(hash, disk) && Quiet(w')
      requires HitAmid(hash, disk, fp, w.first) && !Fits(disk.manifests[fp].m, dests, nameOf)
      modifies this
      ensures first == Done(Built) && Primed(mid, fp, dests, nameOf)
      ensures AllFriendly(hash, mid, between, fp, dests, nameOf) ==> second == Done(Cached)
      ensures AllFriendly(hash, mid, between, fp, dests, nameOf) && NeverOverwrites(between, fp) ==>
                forall i :: 0 <= i < |dests| ==> dests[i] in files' && hash(files'[dests[i]]) == hash(contents[i])
    {
      ghost var start := disk;
      var built;
      ghost var steps, hit, outcome, at, t;
      first, built, steps, hit, outcome, at, t :=
        BuildModule(fp, dests, nameOf, remote, false, Some(contents), now, files, w);
      SoundAlways(hash, start, steps);
      mid := disk;
      disk := Run(hash, disk, between);
      second, files' := SecondBuild(fp, dests, nameOf, remote, contents, compiled, now, built, mid, between, w');
    }

    method SecondBuild(fp: Key, dests: seq<Path>, nameOf: Path -> Name, remote: Option<Remote>,
                       ghost contents: seq<Bytes>, compiled: Option<seq<Bytes>>, now: nat, files: map<Path, Bytes>,
                       ghost mid: Disk, ghost between: seq<Step>, w: World)
      returns (r: JobResult, files': map<Path, Bytes>)
      requires NoDup(dests) && |contents| == |dests| && (compiled.Some? ==> |compiled.value| == |dests|)
      requires Sound(hash, mid) && Quiet(w) && disk == Run(hash, mid, between)
      requires Primed(mid, fp, dests, nameOf) && Lookup(mid, fp) == Some(Entries(hash, dests, nameOf, contents))
      modifies this
      ensures AllFriendly(hash, mid, between, fp, dests, nameOf) ==> r == Done(Cached)
      ensures AllFriendly(hash, mid, between, fp, dests, nameOf) && NeverOverwrites(between, fp) ==>
                forall i :: 0 <= i < |dests| ==> dests[i] in files' && hash(files'[dests[i]]) == hash(contents[i])
    {
      ghost var d := disk;
      QuietLookup(hash, d, fp, w.first, 0);
      SoundAlways(hash, mid, between);
      ghost var steps, hit, outcome, at, t;
      r, files', steps, hit, outcome, at, t :=
        BuildModule(fp, dests, nameOf, remote, false, compiled, now, files, w);
      if AllFriendly(hash, mid, between, fp, dests, nameOf) {
        PrimedStays(hash, mid, between, fp, dests, nameOf);
        SilentUpto(w.first, |hit.value|);
        SilentPresent(hash, d, hit.value, w.linking);
        LinkedIsSound(hash, d, hit.value, dests, w.linking, files');
        if NeverOverwrites(between, fp) {
          ManifestStays(hash, mid, between, fp);
          assert hit.value == Entries(hash, dests, nameOf, contents);
        }
      }
    }

    // A failed job leaves nothing a later run could trust.
    method CleanUp(dests: seq<Path>, files: map<Path, Bytes>) returns (files': map<Path, Bytes>)
      ensures SameElsewhere(files, files', dests) && forall p :: p in dests ==> p !in files'
    {
      files' := files;
      for i := 0 to |dests|
        invariant SameElsewhere(files, files', dests) && forall p :: p in dests[..i] ==> p !in files'
      {
        assert dests[i] in dests;
        files' := files' - {dests[i]};
      }
    }

    method WriteAll(dests: seq<Path>, contents: seq<Bytes>, files: map<Path, Bytes>) returns (files': map<Path, Bytes>)
      requires NoDup(dests) && |contents| == |dests|
      ensures SameElsewhere(files, files', dests)
      ensures forall i :: 0 <= i < |dests| ==> dests[i] in files' && files'[dests[i]] == contents[i]
    {
      files' := files;
      for i := 0 to |dests|
        invariant SameElsewhere(files, files', dests)
        invariant forall j :: 0 <= j < i ==> dests[j] in files' && files'[dests[j]] == contents[j]
      {
        assert dests[i] in dests;
        files' := files'[dests[i] := contents[i]];
      }
    }

    /** `gc`: the shortest oldest-first prefix whose removal brings the store under the cap. */
    method Gc(max: nat) returns (r: GcReport, ghost cs: seq<Candidate>)
      modifies this`disk
      ensures Lists(cs, old(disk)) && ShortestPrefix(SortByAge(cs), max, r)
      ensures disk == Run(hash, old(disk), Removals(SortByAge(cs)[..r.removed]))
      ensures disk.manifests == old(disk.manifests)
    {
      var found := WalkBlobs();
      cs := found;
      var steps;
      r, steps := Collect(found, max);
      RemoveAll(steps);
    }

    method RemoveAll(steps: seq<Step>)
      requires forall i :: 0 <= i < |steps| ==> steps[i].RemoveBlob?
      modifies this`disk
      ensures disk == Run(hash, old(disk), steps) && disk.manifests == old(disk.manifests)
    {
      for i := 0 to |steps|
        invariant disk == Run(hash, old(disk), steps[..i]) && disk.manifests == old(disk.manifests)
      {
        assert steps[..i + 1][..i] == steps[..i];
        disk := disk.(blobs := disk.blobs - {steps[i].key});
      }
      assert steps[..|steps|] == steps;
    }

    // Every blob once, in any order.
    method WalkBlobs() returns (cs: seq<Candidate>)
      ensures Lists(cs, disk)
    {
      cs := [];
      var left := disk.blobs.Keys;
      while left != {}
        invariant left <= disk.blobs.Keys
        invariant forall i :: 0 <= i < |cs| ==> Describes(cs[i], disk) && cs[i].key !in left
        invariant forall i, j :: 0 <= i < j < |cs| ==> cs[i].key != cs[j].key
        invariant forall k :: k in disk.blobs && k !in left ==> exists i :: 0 <= i < |cs| && cs[i].key == k
      {
        var k :| k in left;
        left := left - {k};
        ghost var before := cs;
        cs := cs + [Candidate(k, |disk.blobs[k].bytes|, disk.blobs[k].mtime)];
        forall x | x in disk.blobs && x !in left ensures exists i :: 0 <= i < |cs| && cs[i].key == x {
          if x == k {
            assert cs[|before|].key == k;
          } else {
            var i :| 0 <= i < |before| && before[i].key == x;
            assert cs[i].key == x;
          }
        }
      }
    }
  }

  predicate Describes(c: Candidate, d: Disk) {
    c.key in d.blobs && c.len == |d.blobs[c.key].bytes| && c.mtime == d.blobs[c.key].mtime
  }

  ghost predicate Lists(cs: seq<Candidate>, d: Disk) {
    && (forall i :: 0 <= i < |cs| ==> Describes(cs[i], d))
    && (forall i, j :: 0 <= i < j < |cs| ==> cs[i].key != cs[j].key)
    && (forall k :: k in d.blobs ==> exists i :: 0 <= i < |cs| && cs[i].key == k)
  }

  datatype Outcome = Built | Cached | Downloaded

  datatype JobResult = Done(outcome: Outcome) | JobFailed

  // What a job's lookups went through: how many turns the first one took, and what a fetch then did.
  datatype Trace = Trace(turns: nat, fetched: seq<Step>)

  // Where a lookup gave up: at once without a well-formed manifest, else at the first blob that was not there.
  ghost predicate MissedAt(h: Hash, d: Disk, fp: Key, o: Others, n: nat) {
    if fp !in d.manifests || d.manifests[fp].Malformed? then n == 0 else
      var m := d.manifests[fp].m;
      0 < n <= |m| && PresentUpto(h, d, m, o, n - 1) && m[n - 1].blob !in Amid(h, d, o, n - 1).blobs
  }

  // How a job ends, given what its lookups answered.
  ghost function Decided(h: Hash, hit: Option<Manifest>, outcome: Outcome, dests: seq<Path>, nameOf: Path -> Name,
                         compiled: Option<seq<Bytes>>, w: World, at: Disk): JobResult
  {
    if hit.Some? && Fits(hit.value, dests, nameOf) then
      if PresentAmid(h, at, hit.value, w.linking) then Done(outcome) else JobFailed
    else if compiled.Some? then Done(Built) else JobFailed
  }

  // The manifest of freshly compiled artifacts.
  function Entries(h: Hash, dests: seq<Path>, nameOf: Path -> Name, contents: seq<Bytes>): (m: Manifest)
    requires |contents| == |dests|
    ensures |m| == |dests| && forall i :: 0 <= i < |m| ==> m[i] == Entry(nameOf(dests[i]), h(contents[i]))
  {
    seq(|dests|, i requires 0 <= i < |dests| => Entry(nameOf(dests[i]), h(contents[i])))
  }

  // What others do while a job looks up, looks up again after a fetch, and links.
  datatype World = World(first: Others, again: Others, linking: Others)

  ghost predicate Quiet(w: World) {
    Silent(w.first) && Silent(w.again) && Silent(w.linking)
  }

  ghost predicate ByOthers(w: World, s: Step) {
    exists n: nat :: s in w.first(n) || s in w.again(n) || s in w.linking(n)
  }

  lemma {:induction false} RemovedByOthers(w: World, o: Others, n: nat)
    requires o == w.first || o == w.again || o == w.linking
    ensures forall i :: 0 <= i < |Upto(o, n)| ==> ByOthers(w, Upto(o, n)[i])
  {
    var steps := Upto(o, n);
    forall i | 0 <= i < |steps| ensures ByOthers(w, steps[i]) {
      InUpto(o, n, steps[i]);
    }
  }

  lemma {:induction false} QuietLookup(h: Hash, d: Disk, fp: Key, o: Others, n: nat)
    requires Silent(o)
    ensures Upto(o, n) == [] && (HitAmid(h, d, fp, o) <==> Lookup(d, fp).Some?)
  {
    SilentUpto(o, n);
    if fp in d.manifests && d.manifests[fp].Parsed? { SilentPresent(h, d, d.manifests[fp].m, o); }
  }

  // The first `n` destinations hold what the blobs of their slots held at their turns.
  ghost predicate Linked(h: Hash, d: Disk, m: Manifest, dests: seq<Path>, o: Others, files: map<Path, Bytes>, n: nat) {
    && n <= |m| == |dests|
    && (n > 0 ==> Linked(h, d, m, dests, o, files, n - 1) && LinkedAt(h, d, m, dests, o, files, n - 1))
  }

  predicate LinkedAt(h: Hash, d: Disk, m: Manifest, dests: seq<Path>, o: Others, files: map<Path, Bytes>, i: nat)
    requires i < |m| == |dests|
  {
    && m[i].blob in Amid(h, d, o, i).blobs && dests[i] in files
    && files[dests[i]] == Amid(h, d, o, i).blobs[m[i].blob].bytes
  }

  lemma {:induction false} LinkedStays(h: Hash, d: Disk, m: Manifest, dests: seq<Path>, o: Others,
                                       files: map<Path, Bytes>, files': map<Path, Bytes>, n: nat)
    requires Linked(h, d, m, dests, o, files, n)
    requires forall i :: 0 <= i < n && dests[i] in files ==> dests[i] in files' && files'[dests[i]] == files[dests[i]]
    ensures Linked(h, d, m, dests, o, files', n)
  {
    if n > 0 { LinkedStays(h, d, m, dests, o, files, files', n - 1); }
  }

  lemma {:induction false} LinkedNext(h: Hash, d: Disk, m: Manifest, dests: seq<Path>, o: Others,
                                      files: map<Path, Bytes>, files': map<Path, Bytes>, n: nat)
    requires NoDup(dests) && Linked(h, d, m, dests, o, files, n) && n < |m| && m[n].blob in Amid(h, d, o, n).blobs
    requires files' == files[dests[n] := Amid(h, d, o, n).blobs[m[n].blob].bytes]
    ensures Linked(h, d, m, dests, o, files', n + 1)
  {
    LinkedStays(h, d, m, dests, o, files, files', n);
    assert LinkedAt(h, d, m, dests, o, files', n);
  }

  lemma {:induction false} LinkedEach(h: Hash, d: Disk, m: Manifest, dests: seq<Path>, o: Others,
                                      files: map<Path, Bytes>, n: nat, i: nat)
    requires Linked(h, d, m, dests, o, files, n) && i < n
    ensures LinkedAt(h, d, m, dests, o, files, i)
  {
    if i < n - 1 { LinkedEach(h, d, m, dests, o, files, n - 1, i); }
  }

  // Whenever they were linked, the files hash to what the manifest says.
  lemma {:induction false} LinkedIsSound(h: Hash, d: Disk, m: Manifest, dests: seq<Path>, o: Others,
                                         files: map<Path, Bytes>)
    requires Sound(h, d) && Linked(h, d, m, dests, o, files, |m|)
    ensures forall i :: 0 <= i < |m| ==> dests[i] in files && h(files[dests[i]]) == m[i].blob
  {
    forall i | 0 <= i < |m| ensures dests[i] in files && h(files[dests[i]]) == m[i].blob {
      SoundAlways(h, d, Upto(o, i + 1));
      LinkedEach(h, d, m, dests, o, files, |m|, i);
    }
  }

  lemma {:induction false} SilentLink(h: Hash, d: Disk, m: Manifest, dests: seq<Path>, o: Others,
                                      files: map<Path, Bytes>, i: nat)
    requires Silent(o) && Linked(h, d, m, dests, o, files, |m|) && i < |m|
    ensures dests[i] in files && m[i].blob in d.blobs && files[dests[i]] == d.blobs[m[i].blob].bytes
  {
    SilentUpto(o, i + 1);
    LinkedEach(h, d, m, dests, o, files, |m|, i);
  }

  lemma {:induction false} QuietLinks(h: Hash, d: Disk, m: Manifest, dests: seq<Path>, o: Others,
                                      files: map<Path, Bytes>, n: nat)
    requires Silent(o)
    ensures Upto(o, n) == [] && (PresentAmid(h, d, m, o) <==> KeysOf(m) <= d.blobs.Keys)
    ensures Linked(h, d, m, dests, o, files, |m|) ==> FilesAre(files, dests, m, d)
  {
    SilentUpto(o, n);
    SilentPresent(h, d, m, o);
    if Linked(h, d, m, dests, o, files, |m|) {
      forall i | 0 <= i < |m|
        ensures dests[i] in files && m[i].blob in d.blobs && files[dests[i]] == d.blobs[m[i].blob].bytes
      {
        SilentLink(h, d, m, dests, o, files, i);
      }
    }
  }

  ghost predicate SameElsewhere(files: map<Path, Bytes>, files': map<Path, Bytes>, dests: seq<Path>) {
    forall p :: p !in dests ==> (p in files' <==> p in files) && (p in files ==> files'[p] == files[p])
  }

  // Each destination holds the blob its slot names.
  ghost predicate FilesAre(files: map<Path, Bytes>, dests: seq<Path>, m: Manifest, d: Disk) {
    && |m| == |dests|
    && forall i :: 0 <= i < |m| ==>
         dests[i] in files && m[i].blob in d.blobs && files[dests[i]] == d.blobs[m[i].blob].bytes
  }
}
