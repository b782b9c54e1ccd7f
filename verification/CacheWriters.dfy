/** How the cache's files are written: many writers, each locking the path, testing for the file, filling a temporary
    sibling piece by piece and renaming it, while a collector removes blobs without taking any lock. Every published
    file is complete, and what the writers do amounts to the atomic steps of `Cache`. */
module CacheWriters {
  import opened Cache

  datatype File = BlobFile(key: Key) | ManifestOf(fp: Key)

  // The hash, and how manifests are laid out in files.
  datatype Codec = Codec(hash: Hash, encode: Manifest -> Bytes, decode: Bytes -> ManifestFile)

  ghost predicate CodecOk(c: Codec) {
    forall m {:trigger c.encode(m)} :: c.decode(c.encode(m)) == Parsed(m)
  }

  // One call of `write_atomic_readonly`: from `store_blob`, from `insert` or from `insert_manifest`.
  datatype Job = StoreBlob(blob: Bytes) | StoreManifest(fp: Key, m: Manifest, overwrite: bool)

  function FileOf(c: Codec, j: Job): File {
    match j
    case StoreBlob(bytes) => BlobFile(c.hash(bytes))
    case StoreManifest(fp, _, _) => ManifestOf(fp)
  }

  function BytesOf(c: Codec, j: Job): Bytes {
    match j
    case StoreBlob(bytes) => bytes
    case StoreManifest(_, m, _) => c.encode(m)
  }

  predicate MayReplace(j: Job) {
    j.StoreManifest? && j.overwrite
  }

  // What a writer does next.
  datatype Pc =
    | Locking              // waits for the path's lock
    | Testing              // holds the lock, about to look for the file
    | Opening              // about to create or truncate the temporary sibling
    | Writing(k: nat)      // the first `k` bytes are in the sibling
    | Renaming             // sealed, about to be renamed
    | Unlocking
    | Gone

  datatype Writer = Writer(job: Job, pc: Pc)

  datatype Content = Content(bytes: Bytes, mtime: nat)

  // The sibling and the lock of a path belong to that path alone, but to all its writers.
  datatype State = State(published: map<File, Content>, temps: map<File, Content>, locks: map<File, nat>,
                         writers: seq<Writer>)

  datatype Act =
    | Spawn(job: Job)
    | Move(w: nat, more: nat, now: nat)   // the writer's next step; a write adds up to `more` bytes and one
    | Abandon(w: nat)                     // the writer fails or its process dies: the lock goes, the sibling stays
    | Collect(key: Key)                   // removes a blob, whoever holds its lock

  // ----- steps -----

  predicate Holds(pc: Pc) {
    !pc.Locking? && !pc.Gone?
  }

  predicate CanDo(c: Codec, s: State, a: Act) {
    match a
    case Spawn(_) => true
    case Collect(_) => true
    case Abandon(w) => w < |s.writers|
    case Move(w, _, _) =>
      && w < |s.writers| && !s.writers[w].pc.Gone?
      && (s.writers[w].pc.Locking? ==> FileOf(c, s.writers[w].job) !in s.locks)
      && (s.writers[w].pc.Writing? || s.writers[w].pc.Renaming? ==> FileOf(c, s.writers[w].job) in s.temps)
  }

  function At(s: State, w: nat, pc: Pc): State
    requires w < |s.writers|
  {
    s.(writers := s.writers[w := s.writers[w].(pc := pc)])
  }

  // Where a write that adds up to `more` bytes and one stops.
  function Stop(len: nat, k: nat, more: nat): (n: nat)
    requires k < len
    ensures k < n <= len
  {
    if k + more + 1 < len then k + more + 1 else len
  }

  function DoWrite(c: Codec, s: State, w: nat, more: nat, now: nat): State
    requires w < |s.writers| && s.writers[w].pc.Writing? && FileOf(c, s.writers[w].job) in s.temps
  {
    var f, bytes, k := FileOf(c, s.writers[w].job), BytesOf(c, s.writers[w].job), s.writers[w].pc.k;
    if k < |bytes| then
      var n := Stop(|bytes|, k, more);
      At(s, w, Writing(n)).(temps := s.temps[f := Content(s.temps[f].bytes + bytes[k..n], now)])
    else
      At(s, w, Renaming)
  }

  function DoMove(c: Codec, s: State, w: nat, more: nat, now: nat): State
    requires CanDo(c, s, Move(w, more, now))
  {
    var f := FileOf(c, s.writers[w].job);
    match s.writers[w].pc
    case Locking => At(s, w, Testing).(locks := s.locks[f := w])
    case Testing => At(s, w, if f in s.published && !MayReplace(s.writers[w].job) then Unlocking else Opening)
    case Opening => At(s, w, Writing(0)).(temps := s.temps[f := Content([], now)])
    case Writing(_) => DoWrite(c, s, w, more, now)
    case Renaming => At(s, w, Unlocking).(published := s.published[f := s.temps[f]], temps := s.temps - {f})
    case Unlocking => At(s, w, Gone).(locks := s.locks - {f})
  }

  function Do(c: Codec, s: State, a: Act): State
    requires CanDo(c, s, a)
  {
    match a
    case Spawn(job) => s.(writers := s.writers + [Writer(job, Locking)])
    case Collect(key) => s.(published := s.published - {BlobFile(key)})
    case Abandon(w) =>
      if Holds(s.writers[w].pc) then At(s, w, Gone).(locks := s.locks - {FileOf(c, s.writers[w].job)})
      else At(s, w, Gone)
    case Move(w, more, now) => DoMove(c, s, w, more, now)
  }

  // ----- the invariant -----

  // A file is complete and is what its name says.
  ghost predicate Whole(c: Codec, f: File, bytes: Bytes) {
    match f
    case BlobFile(key) => c.hash(bytes) == key
    case ManifestOf(_) => exists m :: bytes == c.encode(m)
  }

  ghost predicate AllWhole(c: Codec, s: State) {
    forall f :: f in s.published ==> Whole(c, f, s.published[f].bytes)
  }

  // A writer between lock and unlock is the one its path's lock is given to.
  ghost predicate Owns(c: Codec, s: State, w: nat)
    requires w < |s.writers|
  {
    var f := FileOf(c, s.writers[w].job);
    Holds(s.writers[w].pc) ==> f in s.locks && s.locks[f] == w
  }

  // Its sibling holds exactly what it has written.
  ghost predicate TempRight(c: Codec, s: State, w: nat)
    requires w < |s.writers|
  {
    var f, bytes, pc := FileOf(c, s.writers[w].job), BytesOf(c, s.writers[w].job), s.writers[w].pc;
    && (pc.Writing? ==> pc.k <= |bytes| && f in s.temps && s.temps[f].bytes == bytes[..pc.k])
    && (pc.Renaming? ==> f in s.temps && s.temps[f].bytes == bytes)
  }

  // Past the test, the file is still absent unless it may be replaced.
  ghost predicate StillAbsent(c: Codec, s: State, w: nat)
    requires w < |s.writers|
  {
    var pc := s.writers[w].pc;
    (pc.Opening? || pc.Writing? || pc.Renaming?) && !MayReplace(s.writers[w].job) ==>
      FileOf(c, s.writers[w].job) !in s.published
  }

  ghost predicate WriterOk(c: Codec, s: State, w: nat)
    requires w < |s.writers|
  {
    Owns(c, s, w) && TempRight(c, s, w) && StillAbsent(c, s, w)
  }

  // A lock that is taken is held by a writer of the path.
  ghost predicate Taken(c: Codec, s: State, f: File)
    requires f in s.locks
  {
    var w := s.locks[f];
    w < |s.writers| && Holds(s.writers[w].pc) && FileOf(c, s.writers[w].job) == f
  }

  ghost predicate Inv(c: Codec, s: State) {
    && AllWhole(c, s)
    && (forall w {:trigger WriterOk(c, s, w)} :: 0 <= w < |s.writers| ==> WriterOk(c, s, w))
    && (forall f {:trigger Taken(c, s, f)} :: f in s.locks ==> Taken(c, s, f))
  }

  // Whatever an earlier crash left in temporary siblings, with whole files and no writers.
  ghost predicate Start(c: Codec, s: State) {
    s.writers == [] && s.locks == map[] && AllWhole(c, s)
  }

  // Two writers of one path are never both between lock and unlock.
  lemma {:induction false} OneHolder(c: Codec, s: State, v: nat, w: nat)
    requires Inv(c, s) && v < |s.writers| && w < |s.writers| && Holds(s.writers[v].pc) && Holds(s.writers[w].pc)
    requires FileOf(c, s.writers[v].job) == FileOf(c, s.writers[w].job)
    ensures v == w
  {
    assert WriterOk(c, s, v) && WriterOk(c, s, w);
  }

  // ----- every step keeps it -----

  lemma {:induction false} JobIsWhole(c: Codec, j: Job)
    ensures Whole(c, FileOf(c, j), BytesOf(c, j))
  {
  }

  // Another writer is not disturbed: its path differs, or it holds no lock.
  lemma {:induction false} OtherWriterOk(c: Codec, s: State, w: nat, more: nat, now: nat, v: nat)
    requires Inv(c, s) && CanDo(c, s, Move(w, more, now)) && v < |s.writers| && v != w
    ensures var s' := DoMove(c, s, w, more, now); |s'.writers| == |s.writers| && WriterOk(c, s', v)
  {
    assert WriterOk(c, s, v) && WriterOk(c, s, w);
    assert s.writers[w].pc.Locking? ==>
             !(Holds(s.writers[v].pc) && FileOf(c, s.writers[v].job) == FileOf(c, s.writers[w].job));
  }

  lemma {:induction false} MovedWriterOk(c: Codec, s: State, w: nat, more: nat, now: nat)
    requires Inv(c, s) && CanDo(c, s, Move(w, more, now))
    ensures var s' := DoMove(c, s, w, more, now); |s'.writers| == |s.writers| && WriterOk(c, s', w)
  {
    assert WriterOk(c, s, w);
    var bytes, pc := BytesOf(c, s.writers[w].job), s.writers[w].pc;
    if pc.Writing? && pc.k < |bytes| {
      var n := Stop(|bytes|, pc.k, more);
      assert bytes[..pc.k] + bytes[pc.k..n] == bytes[..n];
    } else if pc.Writing? {
      assert bytes[..pc.k] == bytes;
    }
  }

  lemma {:induction false} MoveKeepsWhole(c: Codec, s: State, w: nat, more: nat, now: nat)
    requires Inv(c, s) && CanDo(c, s, Move(w, more, now))
    ensures AllWhole(c, DoMove(c, s, w, more, now))
  {
    assert WriterOk(c, s, w);
    JobIsWhole(c, s.writers[w].job);
  }

  lemma {:induction false} MoveKeepsTaken(c: Codec, s: State, w: nat, more: nat, now: nat, f: File)
    requires Inv(c, s) && CanDo(c, s, Move(w, more, now)) && f in DoMove(c, s, w, more, now).locks
    ensures Taken(c, DoMove(c, s, w, more, now), f)
  {
    assert f in s.locks ==> Taken(c, s, f);
    assert WriterOk(c, s, w);
  }

  lemma {:induction false} MoveKeeps(c: Codec, s: State, w: nat, more: nat, now: nat)
    requires Inv(c, s) && CanDo(c, s, Move(w, more, now))
    ensures Inv(c, DoMove(c, s, w, more, now))
  {
    var s' := DoMove(c, s, w, more, now);
    MoveKeepsWhole(c, s, w, more, now);
    MovedWriterOk(c, s, w, more, now);
    forall v {:trigger WriterOk(c, s', v)} | 0 <= v < |s'.writers| ensures WriterOk(c, s', v) {
      if v != w { OtherWriterOk(c, s, w, more, now, v); }
    }
    forall f {:trigger Taken(c, s', f)} | f in s'.locks ensures Taken(c, s', f) {
      MoveKeepsTaken(c, s, w, more, now, f);
    }
  }

  lemma {:induction false} AbandonKeeps(c: Codec, s: State, w: nat)
    requires Inv(c, s) && w < |s.writers|
    ensures Inv(c, Do(c, s, Abandon(w)))
  {
    var s' := Do(c, s, Abandon(w));
    assert WriterOk(c, s, w);
    forall v {:trigger WriterOk(c, s', v)} | 0 <= v < |s'.writers| ensures WriterOk(c, s', v) {
      assert WriterOk(c, s, v);
    }
    forall f {:trigger Taken(c, s', f)} | f in s'.locks ensures Taken(c, s', f) {
      assert Taken(c, s, f);
    }
  }

  lemma {:induction false} OthersKeep(c: Codec, s: State, a: Act)
    requires Inv(c, s) && (a.Spawn? || a.Collect?)
    ensures Inv(c, Do(c, s, a))
  {
    var s' := Do(c, s, a);
    forall v {:trigger WriterOk(c, s', v)} | 0 <= v < |s'.writers| ensures WriterOk(c, s', v) {
      if v < |s.writers| { assert WriterOk(c, s, v); }
    }
    forall f {:trigger Taken(c, s', f)} | f in s'.locks ensures Taken(c, s', f) {
      assert Taken(c, s, f);
    }
  }

  lemma {:induction false} DoKeeps(c: Codec, s: State, a: Act)
    requires Inv(c, s) && CanDo(c, s, a)
    ensures Inv(c, Do(c, s, a))
  {
    match a
    case Move(w, more, now) => MoveKeeps(c, s, w, more, now);
    case Abandon(w) => AbandonKeeps(c, s, w);
    case _ => OthersKeep(c, s, a);
  }

  // ----- runs -----

  predicate CanRun(c: Codec, s: State, acts: seq<Act>)
    decreases |acts|, 0
  {
    acts == [] || (CanRun(c, s, acts[..|acts| - 1]) && CanDo(c, After(c, s, acts[..|acts| - 1]), acts[|acts| - 1]))
  }

  // The state after a run; a run is any interleaving of any number of writers with the collector.
  function After(c: Codec, s: State, acts: seq<Act>): State
    requires CanRun(c, s, acts)
    decreases |acts|, 1
  {
    if acts == [] then s else Do(c, After(c, s, acts[..|acts| - 1]), acts[|acts| - 1])
  }

  // In every reachable state every published file is complete and is what its name says.
  lemma {:induction false} PublishedIsWhole(c: Codec, s: State, acts: seq<Act>)
    requires Start(c, s) && CanRun(c, s, acts)
    ensures Inv(c, After(c, s, acts)) && AllWhole(c, After(c, s, acts))
  {
    if acts != [] {
      PublishedIsWhole(c, s, acts[..|acts| - 1]);
      DoKeeps(c, After(c, s, acts[..|acts| - 1]), acts[|acts| - 1]);
    }
  }

  // A writer about to unlock has done its job: the file is there, and it is this writer's if it may replace one.
  ghost predicate Delivered(c: Codec, s: State, w: nat)
    requires w < |s.writers|
  {
    var f := FileOf(c, s.writers[w].job);
    s.writers[w].pc.Unlocking? ==>
      f in s.published && (MayReplace(s.writers[w].job) ==> s.published[f].bytes == BytesOf(c, s.writers[w].job))
  }

  // No step removes the file.
  predicate Spares(acts: seq<Act>, f: File) {
    acts == [] || (Spares(acts[..|acts| - 1], f) && !(acts[|acts| - 1].Collect? && BlobFile(acts[|acts| - 1].key) == f))
  }

  lemma {:induction false} JobStays(c: Codec, s: State, a: Act, w: nat)
    requires CanDo(c, s, a) && w < |s.writers|
    ensures w < |Do(c, s, a).writers| && Do(c, s, a).writers[w].job == s.writers[w].job
  {
  }

  lemma {:induction false} DoDelivers(c: Codec, s: State, a: Act, w: nat)
    requires Inv(c, s) && CanDo(c, s, a) && w < |s.writers| && Delivered(c, s, w)
    requires a.Collect? ==> BlobFile(a.key) != FileOf(c, s.writers[w].job)
    ensures w < |Do(c, s, a).writers| && Delivered(c, Do(c, s, a), w)
  {
    assert WriterOk(c, s, w);
    if a.Move? { assert WriterOk(c, s, a.w); }
  }

  // Unless its blob is collected meanwhile, the file a writer was asked for is there when the writer is about to
  // unlock; a manifest that may replace one has replaced it.
  lemma {:induction false} WritersDeliver(c: Codec, s: State, acts: seq<Act>, w: nat)
    requires Start(c, s) && CanRun(c, s, acts) && w < |After(c, s, acts).writers|
    requires Spares(acts, FileOf(c, After(c, s, acts).writers[w].job))
    ensures Delivered(c, After(c, s, acts), w)
  {
    if acts != [] {
      var init, last := acts[..|acts| - 1], acts[|acts| - 1];
      var mid := After(c, s, init);
      PublishedIsWhole(c, s, init);
      if w < |mid.writers| {
        JobStays(c, mid, last, w);
        WritersDeliver(c, s, init, w);
        DoDelivers(c, mid, last, w);
      }
    }
  }

  // As long as some writer is not gone some writer can move: no writer waits for itself or for one that left.
  lemma {:induction false} SomeWriterCanMove(c: Codec, s: State, w: nat) returns (v: nat)
    requires Inv(c, s) && w < |s.writers| && !s.writers[w].pc.Gone?
    ensures CanDo(c, s, Move(v, 0, 0))
  {
    var f := FileOf(c, s.writers[w].job);
    v := if s.writers[w].pc.Locking? && f in s.locks then s.locks[f] else w;
    assert f in s.locks ==> Taken(c, s, f);
    assert v < |s.writers| ==> WriterOk(c, s, v);
  }

  // ----- the atomic steps behind it -----

  // `d` is what a reader of the published files sees.
  ghost predicate Sees(c: Codec, s: State, d: Disk) {
    SeesBlobs(s, d.blobs) && SeesManifests(c, s, d.manifests)
  }

  ghost predicate SeesBlobs(s: State, blobs: map<Key, Blob>) {
    && (forall k :: k in blobs <==> BlobFile(k) in s.published)
    && (forall k :: k in blobs ==> blobs[k] == Blob(s.published[BlobFile(k)].bytes, s.published[BlobFile(k)].mtime))
  }

  ghost predicate SeesManifests(c: Codec, s: State, manifests: map<Key, ManifestFile>) {
    && (forall k :: k in manifests <==> ManifestOf(k) in s.published)
    && (forall k :: k in manifests ==> manifests[k] == c.decode(s.published[ManifestOf(k)].bytes))
  }

  // Only a rename and a removal can be seen.
  function Effect(c: Codec, s: State, a: Act): seq<Step>
    requires CanDo(c, s, a)
  {
    match a
    case Collect(key) => [RemoveBlob(key)]
    case Move(w, _, _) =>
      if !s.writers[w].pc.Renaming? then [] else
        match s.writers[w].job {
          case StoreBlob(bytes) => [PutBlob(bytes, s.temps[FileOf(c, s.writers[w].job)].mtime)]
          case StoreManifest(fp, m, overwrite) => [PutManifest(fp, m, overwrite)]
        }
    case _ => []
  }

  function Effects(c: Codec, s: State, acts: seq<Act>): seq<Step>
    requires CanRun(c, s, acts)
  {
    if acts == [] then [] else
      var init := acts[..|acts| - 1];
      Effects(c, s, init) + Effect(c, After(c, s, init), acts[|acts| - 1])
  }

  lemma {:induction false} RunOne(h: Hash, d: Disk, step: Step)
    ensures Run(h, d, [step]) == Apply(h, d, step)
  {
    assert [step][..0] == [];
  }

  lemma {:induction false} RenameIsAtomic(c: Codec, s: State, w: nat, more: nat, now: nat, d: Disk)
    requires CodecOk(c) && Inv(c, s) && CanDo(c, s, Move(w, more, now)) && s.writers[w].pc.Renaming? && Sees(c, s, d)
    ensures Sees(c, DoMove(c, s, w, more, now), Run(c.hash, d, Effect(c, s, Move(w, more, now))))
  {
    assert WriterOk(c, s, w);
    RunOne(c.hash, d, Effect(c, s, Move(w, more, now))[0]);
  }

  // Each step of each writer is one atomic step or cannot be seen at all. In particular a blob is never put where one
  // is, and a manifest that may not replace one never does.
  lemma {:induction false} DoIsAtomic(c: Codec, s: State, a: Act, d: Disk)
    requires CodecOk(c) && Inv(c, s) && CanDo(c, s, a) && Sees(c, s, d)
    ensures Sees(c, Do(c, s, a), Run(c.hash, d, Effect(c, s, a)))
  {
    if a.Move? && s.writers[a.w].pc.Renaming? {
      RenameIsAtomic(c, s, a.w, a.more, a.now, d);
    } else if a.Collect? {
      RunOne(c.hash, d, RemoveBlob(a.key));
    } else {
      OnlyRenamesPublish(c, s, a);
    }
  }

  lemma {:induction false} OnlyRenamesPublish(c: Codec, s: State, a: Act)
    requires CanDo(c, s, a) && !a.Collect? && !(a.Move? && s.writers[a.w].pc.Renaming?)
    ensures Do(c, s, a).published == s.published && Effect(c, s, a) == []
  {
  }

  // So every interleaving is seen as a sequence of atomic steps, and what holds of all of these holds of all
  // interleavings.
  lemma {:induction false} RunIsAtomic(c: Codec, s: State, acts: seq<Act>, d: Disk)
    requires CodecOk(c) && Start(c, s) && CanRun(c, s, acts) && Sees(c, s, d)
    ensures Sees(c, After(c, s, acts), Run(c.hash, d, Effects(c, s, acts)))
  {
    if acts != [] {
      var init := acts[..|acts| - 1];
      RunIsAtomic(c, s, init, d);
      PublishedIsWhole(c, s, init);
      DoIsAtomic(c, After(c, s, init), acts[|acts| - 1], Run(c.hash, d, Effects(c, s, init)));
      RunAppend(c.hash, d, Effects(c, s, init), Effect(c, After(c, s, init), acts[|acts| - 1]));
    }
  }
}
