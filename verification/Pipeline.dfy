// The durable state behind one cartridge - its directory, the bucket, the job
// rows with their chunk ledgers, the catalog cache - and every single effect the
// export, evict and import jobs have on it. A crash is simply no further effect.
module Pipeline {
  import opened Options
  import opened Streams
  import opened Names
  import opened Chunking
  import opened Tar
  import opened Manifests

  // What stays fixed: codec, tar framing, and the cart's label.
  datatype Env = Env(codec: Codec, t: Framing, cart: string) {
    ghost predicate Lawful() {
      codec.Lawful() && t.Lawful() && cart != ""
    }
  }

  datatype Kind = Export | Evict | Import
  datatype State =
    | Detected | Queued | Quiescing | Chunking | Uploading | Verifying | Unvaulting
    | Evicting | Fetching | Unpacking | Slotting | Done | Failed | Cancelled

  // The cart directory: regular files plus the eviction marker file.
  datatype Dir = Dir(files: Files, marker: Option<Gen>)
  // How an import was asked for: another system's export, a chosen target library.
  datatype Way = Way(foreign: bool, targeted: bool)
  // A job row together with its export_chunk rows.
  datatype Job = Job(kind: Kind, way: Way, state: State, gen: Option<Gen>, total: nat, ledger: seq<ChunkRow>)

  // `c` is the chunk size the daemon runs with. `cut` is not kept by the program: it
  // remembers the size each generation's chunks were last uploaded with.
  datatype Disk = Disk(
    dir: Option<Dir>, aside: Option<Dir>, stage: Option<Files>,
    bucket: Bucket, jobs: map<nat, Job>, catalog: map<Gen, Manifest>,
    evicted: bool, lastGen: Option<Gen>, c: Size, cut: map<Gen, Size>)

  predicate Unmarked(d: Disk) {
    d.dir.Some? && d.dir.value.marker.None?
  }

  // export_chunk's INSERT .. ON CONFLICT(job_id, idx) DO UPDATE, ordered by idx.
  function Upsert(rows: seq<ChunkRow>, r: ChunkRow): seq<ChunkRow> {
    if rows == [] || r.idx < rows[0].idx then [r] + rows
    else if r.idx == rows[0].idx then [r] + rows[1..]
    else [rows[0]] + Upsert(rows[1..], r)
  }

  lemma {:induction false} UpsertAppends(rows: seq<ChunkRow>, r: ChunkRow)
    requires forall i :: 0 <= i < |rows| ==> rows[i].idx < r.idx
    ensures Upsert(rows, r) == rows + [r]
  {
    if rows != [] {
      UpsertAppends(rows[1..], r);
    }
  }

  // The row is there afterwards, in order, instead of one of its index; the others stay.
  lemma {:induction false} UpsertPuts(rows: seq<ChunkRow>, r: ChunkRow)
    requires forall i, j :: 0 <= i < j < |rows| ==> rows[i].idx < rows[j].idx
    ensures var out := Upsert(rows, r);
            && (forall x :: x in out <==> x == r || (x in rows && x.idx != r.idx))
            && forall i, j :: 0 <= i < j < |out| ==> out[i].idx < out[j].idx
  {
    if rows != [] {
      assert rows == [rows[0]] + rows[1..];
      if r.idx > rows[0].idx { UpsertPuts(rows[1..], r); }
    }
  }

  // The manifest's file entries for a directory, in tar order.
  ghost function EntryOf(codec: Codec, name: string, f: File): FileEntry {
    FileEntry(name, |f.data|, f.meta.mode, f.meta.mtime, codec.sum(f.data))
  }

  ghost function Entries(codec: Codec, names: seq<string>, files: Files): (e: seq<FileEntry>)
    requires forall n :: n in names ==> n in files
    ensures |e| == |names| && forall i :: 0 <= i < |e| ==> e[i] == EntryOf(codec, names[i], files[names[i]])
  {
    seq(|names|, i requires 0 <= i < |names| => EntryOf(codec, names[i], files[names[i]]))
  }

  // runImport's comparison of extracted files with the manifest.
  predicate Matches(codec: Codec, m: Manifest, got: Files) {
    && |got| == |m.files|
    && forall i :: 0 <= i < |m.files| ==>
         && m.files[i].name in got
         && |got[m.files[i].name].data| == m.files[i].size
         && codec.sum(got[m.files[i].name].data) == m.files[i].sum
  }

  // `s` is what extracting manifest m's chunks yields, and it passed the checks.
  ghost predicate Extracted(env: Env, objects: map<ChunkKey, Bytes>, m: Manifest, s: Files) {
    && (forall i :: 0 <= i < |m.chunks| ==> Checked(env.codec, objects, m.chunks[i]))
    && Matches(env.codec, m, s)
    && var u := Unpack(env.t, Plain(env.codec, objects, m.chunks, |m.chunks|), 0);
       u.Some? && Staged(u.value) == s
  }

  ghost predicate Known(b: Bucket, catalog: map<Gen, Manifest>, m: Manifest) {
    || (exists g :: g in b.manifests && b.manifests[g] == m)
    || (exists g :: g in catalog && catalog[g] == m)
  }

  predicate ChunksPresent(b: Bucket, rows: seq<ChunkRow>) {
    forall i :: 0 <= i < |rows| ==> rows[i].key in b.chunks && |b.chunks[rows[i].key]| == rows[i].stored
  }

  // The totals block: tar size, sum of object sizes, number of chunks.
  predicate TotalsRight(m: Manifest, logical: nat) {
    m.logical == logical && m.stored == StoredSum(m.chunks) && m.count == |m.chunks|
  }

  predicate MediaFile(n: string) {
    "data." <= n || "indx." <= n || "meta." <= n
  }

  datatype Action =
    | Restart(c: Size)   // a daemon restart, perhaps with another -chunk-bytes
    | CreateJob(id: nat, kind: Kind, way: Way, gen: Option<Gen>)
    | SetState(id: nat, state: State)
    | SetGen(id: nat, g: Gen)
    | SetTotal(id: nat, total: nat)
    | ClearLedger(id: nat)
    | PutChunk(g: Gen, i: nat, blob: Bytes)
    | Record(id: nat, row: ChunkRow)
    | PutManifest(id: nat, m: Manifest)
    | CacheManifest(m: Manifest)
    | SetLocal(isEvicted: bool, g: Gen)
    | WriteMarker(g: Gen)
    | Delete(name: string)
    | ResetStage
    | StageFile(name: string, file: File)
    | DropStage
    | DropOld
    | SetAside(m: Manifest)
    | SwapIn(m: Manifest)
    | Restore

  // The staging directory holds what the manifest's checked chunks extract to.
  ghost predicate Ready(env: Env, m: Manifest, d: Disk) {
    d.stage.Some? && Known(d.bucket, d.catalog, m) && Extracted(env, d.bucket.chunks, m, d.stage.value)
  }

  // What the code has established by the time it performs the effect, in terms
  // of the state as it stands - never of what the state ought to be.
  ghost predicate Enabled(env: Env, a: Action, d: Disk)
  {
    match a
    case Restart(_) => true
    case CreateJob(id, _, _, gen) => id !in d.jobs && (gen.Some? ==> gen.value != "")
    case SetState(id, _) => id in d.jobs
    case SetGen(id, g) => id in d.jobs && d.jobs[id].gen.None? && g != ""
    case SetTotal(id, _) => id in d.jobs
    case ClearLedger(id) => id in d.jobs
    case PutChunk(g, i, blob) =>
      && Unmarked(d)
      && var tar := TarOf(env.t, d.dir.value.files);
         i < Count(|tar|, d.c) && At(i, d.c) <= |tar| && blob == ResultOf(env.codec, tar, d.c, i).staged
    case Record(id, row) =>
      && Unmarked(d) && id in d.jobs && d.jobs[id].gen.Some? && row.idx == |d.jobs[id].ledger|
      && var g, tar := d.jobs[id].gen.value, TarOf(env.t, d.dir.value.files);
         && row.idx < Count(|tar|, d.c) && At(row.idx, d.c) <= |tar| && row == RowFor(env.codec, tar, d.c, g, row.idx)
         && row.key in d.bucket.chunks && d.bucket.chunks[row.key] == ResultOf(env.codec, tar, d.c, row.idx).staged
         && g in d.cut && d.cut[g] == d.c
    case PutManifest(id, m) =>
      && Unmarked(d) && id in d.jobs && d.jobs[id].gen == Some(m.gen) && Decodes(m) && m.cart == env.cart
      && m.chunks == d.jobs[id].ledger && |m.chunks| == Count(|TarOf(env.t, d.dir.value.files)|, d.c)
      && ChunksPresent(d.bucket, m.chunks) && TotalsRight(m, |TarOf(env.t, d.dir.value.files)|)
      && var files := d.dir.value.files; m.files == Entries(env.codec, Sorted(files.Keys), files)
    case CacheManifest(m) => exists g :: g in d.bucket.manifests && d.bucket.manifests[g] == m
    case SetLocal(_, _) => true
    case WriteMarker(g) =>
      && Unmarked(d) && g in d.bucket.manifests && ChunksPresent(d.bucket, d.bucket.manifests[g].chunks)
      && forall i :: 0 <= i < |d.bucket.manifests[g].files| ==>
           var e := d.bucket.manifests[g].files[i];
           (if e.name in d.dir.value.files then |d.dir.value.files[e.name].data| else 0) == e.size
    case Delete(name) =>
      d.dir.Some? && d.dir.value.marker.Some? && MediaFile(name) && name in d.dir.value.files
    case ResetStage => true
    case StageFile(_, _) => d.stage.Some?
    case DropStage => true
    case DropOld => true
    case SetAside(m) => d.dir.Some? && Ready(env, m, d)
    case SwapIn(m) => d.dir.None? && Ready(env, m, d)
    case Restore => d.dir.None? && d.aside.Some?
  }

  function Apply(env: Env, a: Action, d: Disk): Disk
    requires Enabled(env, a, d)
  {
    match a
    case Restart(c) => d.(c := c)
    case CreateJob(id, kind, way, gen) =>
      d.(jobs := d.jobs[id := Job(kind, way, if kind == Export then Detected else Queued, gen, 0, [])])
    case SetState(id, s) => d.(jobs := d.jobs[id := d.jobs[id].(state := s)])
    case SetGen(id, g) => d.(jobs := d.jobs[id := d.jobs[id].(gen := Some(g))])
    case SetTotal(id, n) => d.(jobs := d.jobs[id := d.jobs[id].(total := n)])
    case ClearLedger(id) => d.(jobs := d.jobs[id := d.jobs[id].(ledger := [])])
    case PutChunk(g, i, o) =>
      d.(bucket := d.bucket.(chunks := d.bucket.chunks[ChunkKey(g, i) := o]), cut := d.cut[g := d.c])
    case Record(id, row) => d.(jobs := d.jobs[id := d.jobs[id].(ledger := Upsert(d.jobs[id].ledger, row))])
    case PutManifest(_, m) => d.(bucket := d.bucket.(manifests := d.bucket.manifests[m.gen := m]))
    case CacheManifest(m) => d.(catalog := d.catalog[m.gen := m])
    case SetLocal(e, g) => d.(evicted := e, lastGen := Some(g))
    case WriteMarker(g) => d.(dir := Some(d.dir.value.(marker := Some(g))))
    case Delete(n) => d.(dir := Some(d.dir.value.(files := d.dir.value.files - {n})))
    case ResetStage => d.(stage := Some(map[]))
    case StageFile(n, f) => d.(stage := Some(d.stage.value[n := f]))
    case DropStage => d.(stage := None)
    case DropOld => d.(aside := None)
    case SetAside(_) => d.(aside := d.dir, dir := None)
    case SwapIn(_) => d.(dir := Some(Dir(d.stage.value, None)), stage := None)
    case Restore => d.(dir := d.aside, aside := None)
  }

  // ------------------------------------------------------------ invariant ----

  // F is the cart's original media. Everything below is about one F.
  ghost predicate LocalGood(F: Files, x: Option<Dir>) {
    x.Some? && x.value.marker.None? ==> x.value.files == F
  }

  // Rows of generation g are an exact prefix of the partition by the size g was cut
  // with, and every object they name is there with its window's content.
  ghost predicate RowsBacked(env: Env, cut: map<Gen, Size>, tar: Bytes, g: Gen, rows: seq<ChunkRow>,
                             objects: map<ChunkKey, Bytes>) {
    rows != [] ==>
      g in cut && RowsOf(env.codec, tar, cut[g], g, rows) && ObjectsOf(env.codec, tar, cut[g], g, objects, |rows|)
  }

  ghost predicate ManifestGood(env: Env, F: Files, cut: map<Gen, Size>, g: Gen, m: Manifest,
                               objects: map<ChunkKey, Bytes>) {
    var tar := TarOf(env.t, F);
    && m.gen == g && Decodes(m) && m.cart == env.cart
    && m.files == Entries(env.codec, Sorted(F.Keys), F)
    && RowsBacked(env, cut, tar, g, m.chunks, objects) && |m.chunks| == Count(|tar|, cut[g])
    && TotalsRight(m, |tar|)
  }

  ghost predicate ManifestsGood(env: Env, F: Files, cut: map<Gen, Size>, b: Bucket) {
    forall g :: g in b.manifests ==> ManifestGood(env, F, cut, g, b.manifests[g], b.chunks)
  }

  ghost predicate JobGood(env: Env, F: Files, cut: map<Gen, Size>, j: Job, objects: map<ChunkKey, Bytes>) {
    && (j.gen.Some? ==> j.gen.value != "" && RowsBacked(env, cut, TarOf(env.t, F), j.gen.value, j.ledger, objects))
    && (j.gen.None? ==> j.ledger == [])
  }

  ghost predicate Inv(env: Env, F: Files, d: Disk) {
    && LocalGood(F, d.dir) && LocalGood(F, d.aside)
    && ManifestsGood(env, F, d.cut, d.bucket)
    && (forall g :: g in d.catalog ==>
          g in d.bucket.manifests && ManifestGood(env, F, d.cut, g, d.catalog[g], d.bucket.chunks))
    && (forall id :: id in d.jobs ==> JobGood(env, F, d.cut, d.jobs[id], d.bucket.chunks))
    && (!Unmarked(d) ==> d.bucket.manifests != map[])
  }

  // Nothing is recorded under a generation: no manifest, no cached one, no ledger row.
  predicate Unused(d: Disk, g: Gen) {
    && g !in d.bucket.manifests && g !in d.catalog
    && forall id :: id in d.jobs && d.jobs[id].gen == Some(g) ==> d.jobs[id].ledger == []
  }

  predicate MayPut(d: Disk, g: Gen) {
    (g in d.cut && d.cut[g] == d.c) || Unused(d, g)
  }

  // The effects that can harm what is recorded, and when they do not: a chunk goes under
  // a generation cut with the same size or not in use, and a manifest lists all of the
  // partition its chunks were cut by. The program checks neither.
  ghost predicate Harmless(env: Env, a: Action, d: Disk)
    requires Enabled(env, a, d)
  {
    match a
    case PutChunk(g, _, _) => MayPut(d, g)
    case PutManifest(_, m) =>
      m.gen in d.cut && |m.chunks| == Count(|TarOf(env.t, d.dir.value.files)|, d.cut[m.gen])
    case _ => true
  }

  // The state a cart starts from: media in place, nothing exported.
  ghost predicate Init(F: Files, d: Disk) {
    && d.dir == Some(Dir(F, None)) && d.aside.None?
    && d.bucket == Bucket(map[], map[]) && d.catalog == map[] && d.jobs == map[] && d.cut == map[]
  }

  // A manifest in the bucket from which the original files can be restored.
  ghost predicate Restores(env: Env, F: Files, b: Bucket, g: Gen) {
    g in b.manifests && Decodes(b.manifests[g]) && Extracted(env, b.chunks, b.manifests[g], F)
  }

  ghost predicate Recoverable(env: Env, F: Files, d: Disk) {
    || (d.dir.Some? && forall n :: n in F ==> n in d.dir.value.files && d.dir.value.files[n] == F[n])
    || exists g :: Restores(env, F, d.bucket, g)
  }

  ghost predicate Original(env: Env, F: Files) {
    env.Lawful() && forall n :: n in F ==> NoSlash(n)
  }

  // --------------------------------------------------- round trip in the bucket ----

  lemma EntriesMatch(codec: Codec, F: Files, m: Manifest)
    requires m.files == Entries(codec, Sorted(F.Keys), F)
    ensures Matches(codec, m, F)
  {
    var names := Sorted(F.Keys);
    assert forall i :: 0 <= i < |names| ==> names[i] in F;
    assert |F.Keys| == |F|;
  }

  // Export/import round trip: a good manifest restores exactly the original.
  lemma GoodManifestRestores(env: Env, F: Files, cut: map<Gen, Size>, g: Gen, m: Manifest,
                             objects: map<ChunkKey, Bytes>)
    requires Original(env, F) && ManifestGood(env, F, cut, g, m, objects)
    ensures Extracted(env, objects, m, F)
    ensures Plain(env.codec, objects, m.chunks, |m.chunks|) == TarOf(env.t, F)
  {
    CompleteDecodes(env.codec, TarOf(env.t, F), cut[g], g, objects, m.chunks);
    EntriesMatch(env.codec, F, m);
    UnpackTar(env.t, F);
    StagedAll(F);
  }

  lemma InvRecoverable(env: Env, F: Files, d: Disk)
    requires Original(env, F) && Inv(env, F, d)
    ensures Recoverable(env, F, d)
  {
    if !Unmarked(d) {
      var g :| g in d.bucket.manifests;
      GoodManifestRestores(env, F, d.cut, g, d.bucket.manifests[g], d.bucket.chunks);
      assert Restores(env, F, d.bucket, g);
    }
  }

  // ------------------------------------------------------------ preservation ----

  lemma RowsKept(env: Env, cut: map<Gen, Size>, cut': map<Gen, Size>, tar: Bytes, g: Gen, rows: seq<ChunkRow>,
                 objects: map<ChunkKey, Bytes>, objects': map<ChunkKey, Bytes>)
    requires RowsBacked(env, cut, tar, g, rows, objects)
    requires rows != [] ==> g in cut && g in cut' && cut'[g] == cut[g]
    requires forall i: nat :: i < |rows| && ChunkKey(g, i) in objects ==>
               ChunkKey(g, i) in objects' && objects'[ChunkKey(g, i)] == objects[ChunkKey(g, i)]
    ensures RowsBacked(env, cut', tar, g, rows, objects')
  {
  }

  // Uploading a chunk leaves whatever it may not touch as it is.
  lemma PutKeepsRows(env: Env, d: Disk, a: Action, g: Gen, rows: seq<ChunkRow>, tar: Bytes)
    requires a.PutChunk? && Enabled(env, a, d) && Harmless(env, a, d)
    requires tar == TarOf(env.t, d.dir.value.files) && RowsBacked(env, d.cut, tar, g, rows, d.bucket.chunks)
    requires g == a.g && Unused(d, g) ==> rows == []
    ensures RowsBacked(env, Apply(env, a, d).cut, tar, g, rows, Apply(env, a, d).bucket.chunks)
  {
    hide TarOf, Count, At, RowFor, Unused;
    var e := Apply(env, a, d);
    if rows != [] {
      assert e.cut[g] == d.cut[g];
      RowsKept(env, d.cut, e.cut, tar, g, rows, d.bucket.chunks, e.bucket.chunks);
    }
  }

  lemma PutKeepsManifest(env: Env, F: Files, d: Disk, a: Action, g: Gen, m: Manifest)
    requires a.PutChunk? && Enabled(env, a, d) && Harmless(env, a, d) && d.dir.value.files == F
    requires ManifestGood(env, F, d.cut, g, m, d.bucket.chunks) && !(g == a.g && Unused(d, g))
    ensures ManifestGood(env, F, Apply(env, a, d).cut, g, m, Apply(env, a, d).bucket.chunks)
  {
    hide TarOf, Count, RowsBacked, Entries, TotalsRight;
    PutKeepsRows(env, d, a, g, m.chunks, TarOf(env.t, F));
    InCut(env, F, d.cut, g, m, d.bucket.chunks);
  }

  lemma InCut(env: Env, F: Files, cut: map<Gen, Size>, g: Gen, m: Manifest, objects: map<ChunkKey, Bytes>)
    requires ManifestGood(env, F, cut, g, m, objects)
    ensures g in cut
  {
    hide TarOf, RowsOf, ObjectsOf;
  }

  lemma PutChunkStep(env: Env, F: Files, d: Disk, a: Action)
    requires Inv(env, F, d) && a.PutChunk? && Enabled(env, a, d) && Harmless(env, a, d)
    ensures Inv(env, F, Apply(env, a, d))
  {
    hide TarOf, ManifestGood, RowsBacked;
    var e := Apply(env, a, d);
    forall g | g in d.bucket.manifests ensures ManifestGood(env, F, e.cut, g, d.bucket.manifests[g], e.bucket.chunks) {
      PutKeepsManifest(env, F, d, a, g, d.bucket.manifests[g]);
    }
    forall g | g in d.catalog ensures ManifestGood(env, F, e.cut, g, d.catalog[g], e.bucket.chunks) {
      PutKeepsManifest(env, F, d, a, g, d.catalog[g]);
    }
    forall id | id in d.jobs ensures JobGood(env, F, e.cut, d.jobs[id], e.bucket.chunks) {
      assert JobGood(env, F, d.cut, d.jobs[id], d.bucket.chunks);
      if d.jobs[id].gen.Some? {
        PutKeepsRows(env, d, a, d.jobs[id].gen.value, d.jobs[id].ledger, TarOf(env.t, F));
      }
    }
  }

  lemma JobStep(env: Env, F: Files, d: Disk, id: nat, j: Job)
    requires Inv(env, F, d) && JobGood(env, F, d.cut, j, d.bucket.chunks)
    ensures Inv(env, F, d.(jobs := d.jobs[id := j]))
  {
    hide JobGood, ManifestsGood, ManifestGood, LocalGood;
  }

  lemma LedgerExtends(env: Env, cut: map<Gen, Size>, tar: Bytes, g: Gen, rows: seq<ChunkRow>,
                      objects: map<ChunkKey, Bytes>, row: ChunkRow)
    requires RowsBacked(env, cut, tar, g, rows, objects) && g in cut && |rows| < Count(|tar|, cut[g])
    requires At(|rows|, cut[g]) <= |tar| && row == RowFor(env.codec, tar, cut[g], g, |rows|)
    requires row.key in objects && objects[row.key] == ResultOf(env.codec, tar, cut[g], |rows|).staged
    ensures RowsBacked(env, cut, tar, g, rows + [row], objects)
  {
    RowsMore(env.codec, tar, cut[g], g, rows, row);
    ObjectsMore(env.codec, tar, cut[g], g, rows, row, objects);
  }

  lemma RowsMore(codec: Codec, tar: Bytes, c: Size, g: Gen, rows: seq<ChunkRow>, row: ChunkRow)
    requires rows != [] ==> RowsOf(codec, tar, c, g, rows)
    requires |rows| < Count(|tar|, c) && At(|rows|, c) <= |tar| && row == RowFor(codec, tar, c, g, |rows|)
    ensures RowsOf(codec, tar, c, g, rows + [row])
  {
    hide Count, At, RowFor;
    var more := rows + [row];
    forall i | 0 <= i < |more| ensures At(i, c) <= |tar| && more[i] == RowFor(codec, tar, c, g, i) {
      if i < |rows| { assert more[i] == rows[i]; }
    }
  }

  lemma ObjectsMore(codec: Codec, tar: Bytes, c: Size, g: Gen, rows: seq<ChunkRow>, row: ChunkRow,
                    objects: map<ChunkKey, Bytes>)
    requires rows != [] ==> ObjectsOf(codec, tar, c, g, objects, |rows|)
    requires At(|rows|, c) <= |tar| && row == RowFor(codec, tar, c, g, |rows|)
    requires row.key in objects && objects[row.key] == ResultOf(codec, tar, c, |rows|).staged
    ensures ObjectsOf(codec, tar, c, g, objects, |rows + [row]|)
  {
    hide At, ResultOf;
  }

  lemma RecordStep(env: Env, F: Files, d: Disk, a: Action)
    requires Inv(env, F, d) && a.Record? && Enabled(env, a, d)
    ensures Inv(env, F, Apply(env, a, d))
    ensures Apply(env, a, d).jobs[a.id].ledger == d.jobs[a.id].ledger + [a.row]
  {
    hide ManifestsGood, ManifestGood, TarOf, Count;
    var j := d.jobs[a.id];
    assert JobGood(env, F, d.cut, j, d.bucket.chunks);
    RowsIndexed(env, d.cut, TarOf(env.t, F), j.gen.value, j.ledger, d.bucket.chunks);
    UpsertAppends(j.ledger, a.row);
    LedgerExtends(env, d.cut, TarOf(env.t, F), j.gen.value, j.ledger, d.bucket.chunks, a.row);
    JobStep(env, F, d, a.id, j.(ledger := j.ledger + [a.row]));
  }

  lemma RowsIndexed(env: Env, cut: map<Gen, Size>, tar: Bytes, g: Gen, rows: seq<ChunkRow>,
                    objects: map<ChunkKey, Bytes>)
    requires RowsBacked(env, cut, tar, g, rows, objects)
    ensures forall i :: 0 <= i < |rows| ==> rows[i].idx == i
  {
    hide At, Count, Window;
  }

  lemma NewManifestGood(env: Env, F: Files, d: Disk, a: Action)
    requires Inv(env, F, d) && a.PutManifest? && Enabled(env, a, d) && Harmless(env, a, d)
    ensures ManifestGood(env, F, d.cut, a.m.gen, a.m, d.bucket.chunks)
  {
    hide ManifestsGood, RowsBacked, TarOf, Count, TotalsRight;
    assert JobGood(env, F, d.cut, d.jobs[a.id], d.bucket.chunks);
  }

  lemma PutManifestStep(env: Env, F: Files, d: Disk, a: Action)
    requires Inv(env, F, d) && a.PutManifest? && Enabled(env, a, d) && Harmless(env, a, d)
    ensures Inv(env, F, Apply(env, a, d))
  {
    hide LocalGood, TarOf, ManifestGood, JobGood;
    NewManifestGood(env, F, d, a);
  }

  lemma KnownGood(env: Env, F: Files, d: Disk, m: Manifest)
    requires Inv(env, F, d) && Known(d.bucket, d.catalog, m)
    ensures ManifestGood(env, F, d.cut, m.gen, m, d.bucket.chunks) && m.gen in d.bucket.manifests
  {
    if g :| g in d.bucket.manifests && d.bucket.manifests[g] == m {
      assert ManifestGood(env, F, d.cut, g, m, d.bucket.chunks);
    } else {
      var g :| g in d.catalog && d.catalog[g] == m;
      assert ManifestGood(env, F, d.cut, g, m, d.bucket.chunks);
    }
  }

  lemma CacheStep(env: Env, F: Files, d: Disk, a: Action)
    requires Inv(env, F, d) && a.CacheManifest? && Enabled(env, a, d)
    ensures Inv(env, F, Apply(env, a, d))
  {
    hide ManifestsGood, ManifestGood, JobGood, LocalGood;
    KnownGood(env, F, d, a.m);
  }

  lemma ExtractedUnique(env: Env, objects: map<ChunkKey, Bytes>, m: Manifest, s: Files, s': Files)
    requires Extracted(env, objects, m, s) && Extracted(env, objects, m, s')
    ensures s == s'
  {
    hide Matches, Checked, Unpack, Plain, Staged;
  }

  lemma SwapStep(env: Env, F: Files, d: Disk, a: Action)
    requires Original(env, F) && Inv(env, F, d) && (a.SetAside? || a.SwapIn?) && Enabled(env, a, d)
    ensures Inv(env, F, Apply(env, a, d))
  {
    hide ManifestsGood, ManifestGood, JobGood, TarOf, Extracted;
    KnownGood(env, F, d, a.m);
    GoodManifestRestores(env, F, d.cut, a.m.gen, a.m, d.bucket.chunks);
    ExtractedUnique(env, d.bucket.chunks, a.m, F, d.stage.value);
  }

  lemma JobActionStep(env: Env, F: Files, d: Disk, a: Action)
    requires Inv(env, F, d) && Enabled(env, a, d)
    requires a.CreateJob? || a.SetState? || a.SetGen? || a.SetTotal? || a.ClearLedger?
    ensures Inv(env, F, Apply(env, a, d))
  {
    assert a.id in d.jobs ==> JobGood(env, F, d.cut, d.jobs[a.id], d.bucket.chunks);
    JobStep(env, F, d, a.id, Apply(env, a, d).jobs[a.id]);
  }

  lemma LocalActionStep(env: Env, F: Files, d: Disk, a: Action)
    requires Inv(env, F, d) && Enabled(env, a, d)
    requires a.WriteMarker? || a.Delete? || a.ResetStage? || a.StageFile? || a.DropStage? || a.DropOld? || a.Restore?
             || a.SetLocal? || a.Restart?
    ensures Inv(env, F, Apply(env, a, d))
  {
    hide ManifestsGood, ManifestGood, JobGood, TarOf;
  }

  lemma InvPreserved(env: Env, F: Files, d: Disk, a: Action)
    requires Original(env, F) && Inv(env, F, d) && Enabled(env, a, d) && Harmless(env, a, d)
    ensures Inv(env, F, Apply(env, a, d))
  {
    if a.PutChunk? {
      PutChunkStep(env, F, d, a);
    } else if a.Record? {
      RecordStep(env, F, d, a);
    } else if a.PutManifest? {
      PutManifestStep(env, F, d, a);
    } else if a.SetAside? || a.SwapIn? {
      SwapStep(env, F, d, a);
    } else if a.CacheManifest? {
      CacheStep(env, F, d, a);
    } else if a.CreateJob? || a.SetState? || a.SetGen? || a.SetTotal? || a.ClearLedger? {
      JobActionStep(env, F, d, a);
    } else {
      LocalActionStep(env, F, d, a);
    }
  }

  // ------------------------------------------------------------------- runs ----

  // One effect at a time; every element of a run is a state some crash leaves.
  ghost predicate Next(env: Env, d: Disk, e: Disk) {
    exists a :: Enabled(env, a, d) && e == Apply(env, a, d)
  }

  ghost predicate IsRun(env: Env, h: seq<Disk>) {
    |h| > 0 && forall k :: 0 < k < |h| ==> Next(env, h[k - 1], h[k])
  }

  // A run in which no change of the chunk size harms anything.
  ghost predicate CarefulNext(env: Env, d: Disk, e: Disk) {
    exists a :: Enabled(env, a, d) && Harmless(env, a, d) && e == Apply(env, a, d)
  }

  ghost predicate IsCareful(env: Env, h: seq<Disk>) {
    |h| > 0 && forall k :: 0 < k < |h| ==> CarefulNext(env, h[k - 1], h[k])
  }

  lemma NextInv(env: Env, F: Files, d: Disk, e: Disk)
    requires Original(env, F) && CarefulNext(env, d, e) && Inv(env, F, d)
    ensures Inv(env, F, e)
  {
    var a :| Enabled(env, a, d) && Harmless(env, a, d) && e == Apply(env, a, d);
    InvPreserved(env, F, d, a);
  }

  lemma {:induction false} InvOverRun(env: Env, F: Files, h: seq<Disk>, k: nat)
    requires Original(env, F) && IsCareful(env, h) && Inv(env, F, h[0]) && k < |h|
    ensures Inv(env, F, h[k])
  {
    if k > 0 {
      InvOverRun(env, F, h, k - 1);
      assert CarefulNext(env, h[k - 1], h[k]);
      NextInv(env, F, h[k - 1], h[k]);
    }
  }

  lemma InitInv(env: Env, F: Files, d: Disk)
    requires Init(F, d)
    ensures Inv(env, F, d)
  {
  }

  // Recoverability: from a cart's first day, in every state any interleaving of
  // export, evict and import effects and restarts can reach - so after a crash at any
  // point - the original files are all in place or some bucket manifest restores them,
  // as long as no change of the chunk size does harm.
  lemma Recoverability(env: Env, F: Files, h: seq<Disk>)
    requires Original(env, F) && IsCareful(env, h) && Init(F, h[0])
    ensures forall k :: 0 <= k < |h| ==> Recoverable(env, F, h[k])
  {
    InitInv(env, F, h[0]);
    forall k | 0 <= k < |h| ensures Recoverable(env, F, h[k]) {
      InvOverRun(env, F, h, k);
      InvRecoverable(env, F, h[k]);
    }
  }

  // Each job's ledger is a prefix of one fixed partition of the tar, with every object
  // it names in place, and every manifest lists exactly the whole of its partition.
  ghost predicate Partitioned(env: Env, F: Files, d: Disk) {
    && (forall id :: id in d.jobs && d.jobs[id].gen.Some? ==>
          RowsBacked(env, d.cut, TarOf(env.t, F), d.jobs[id].gen.value, d.jobs[id].ledger, d.bucket.chunks))
    && forall g :: g in d.bucket.manifests ==>
         && g in d.cut && RowsBacked(env, d.cut, TarOf(env.t, F), g, d.bucket.manifests[g].chunks, d.bucket.chunks)
         && |d.bucket.manifests[g].chunks| == Count(|TarOf(env.t, F)|, d.cut[g])
  }

  lemma InvPartitioned(env: Env, F: Files, d: Disk)
    requires Inv(env, F, d)
    ensures Partitioned(env, F, d)
  {
    hide RowsBacked, TarOf, Count;
    forall id | id in d.jobs && d.jobs[id].gen.Some?
      ensures RowsBacked(env, d.cut, TarOf(env.t, F), d.jobs[id].gen.value, d.jobs[id].ledger, d.bucket.chunks)
    {
      assert JobGood(env, F, d.cut, d.jobs[id], d.bucket.chunks);
    }
    forall g | g in d.bucket.manifests
      ensures g in d.cut && RowsBacked(env, d.cut, TarOf(env.t, F), g, d.bucket.manifests[g].chunks, d.bucket.chunks)
           && |d.bucket.manifests[g].chunks| == Count(|TarOf(env.t, F)|, d.cut[g])
    {
      InCut(env, F, d.cut, g, d.bucket.manifests[g], d.bucket.chunks);
      assert ManifestGood(env, F, d.cut, g, d.bucket.manifests[g], d.bucket.chunks);
    }
  }

  // Resume correctness: so in every reachable state, however many attempts were cut
  // off and wherever.
  lemma LedgerIsPrefix(env: Env, F: Files, h: seq<Disk>)
    requires Original(env, F) && IsCareful(env, h) && Init(F, h[0])
    ensures forall k :: 0 <= k < |h| ==> Partitioned(env, F, h[k])
  {
    hide Partitioned, Inv;
    assert Inv(env, F, h[0]) by { InitInv(env, F, h[0]); }
    forall k | 0 <= k < |h| ensures Partitioned(env, F, h[k]) {
      InvOverRun(env, F, h, k);
      InvPartitioned(env, F, h[k]);
    }
  }

  // ------------------------------------------------- a chunk size that never changes ----

  ghost predicate CutAlike(d: Disk) {
    forall g :: g in d.cut ==> d.cut[g] == d.c
  }

  lemma AlikeMayPut(env: Env, F: Files, d: Disk, g: Gen)
    requires Inv(env, F, d) && CutAlike(d)
    ensures MayPut(d, g)
  {
    hide TarOf, RowsOf, ObjectsOf, Count;
    if g !in d.cut {
      if g in d.bucket.manifests { InCut(env, F, d.cut, g, d.bucket.manifests[g], d.bucket.chunks); }
      forall id | id in d.jobs && d.jobs[id].gen == Some(g) ensures d.jobs[id].ledger == [] {
        assert JobGood(env, F, d.cut, d.jobs[id], d.bucket.chunks);
      }
    }
  }

  lemma AlikeHarmless(env: Env, F: Files, d: Disk, a: Action)
    requires Inv(env, F, d) && CutAlike(d) && Enabled(env, a, d)
    ensures Harmless(env, a, d)
    ensures Apply(env, a, d).c == d.c ==> CutAlike(Apply(env, a, d))
  {
    hide TarOf, RowsOf, ObjectsOf;
    if a.PutChunk? { AlikeMayPut(env, F, d, a.g); }
    if a.PutManifest? {
      assert JobGood(env, F, d.cut, d.jobs[a.id], d.bucket.chunks);
    }
  }

  // With one chunk size throughout, every run is careful.
  lemma OneSizeIsCareful(env: Env, F: Files, h: seq<Disk>)
    requires Original(env, F) && IsRun(env, h) && Init(F, h[0])
    requires forall k :: 0 <= k < |h| ==> h[k].c == h[0].c
    ensures IsCareful(env, h)
  {
    hide Inv, CutAlike, Original, Init;
    forall k | 0 < k < |h| ensures CarefulNext(env, h[k - 1], h[k]) { OneSizeStep(env, F, h, k); }
  }

  lemma {:induction false} OneSizeStep(env: Env, F: Files, h: seq<Disk>, k: nat)
    requires Original(env, F) && IsRun(env, h) && Init(F, h[0]) && k < |h|
    requires forall k :: 0 <= k < |h| ==> h[k].c == h[0].c
    ensures k > 0 ==> CarefulNext(env, h[k - 1], h[k])
    ensures CutAlike(h[k]) && Inv(env, F, h[k])
  {
    hide Inv, CutAlike, Original, Init, Enabled, Apply, Harmless;
    if k == 0 {
      InitInv(env, F, h[0]);
      InitAlike(F, h[0]);
    } else {
      OneSizeStep(env, F, h, k - 1);
      assert Next(env, h[k - 1], h[k]);
      var a :| Enabled(env, a, h[k - 1]) && h[k] == Apply(env, a, h[k - 1]);
      AlikeHarmless(env, F, h[k - 1], a);
      InvPreserved(env, F, h[k - 1], a);
    }
  }

  lemma InitAlike(F: Files, d: Disk)
    requires Init(F, d)
    ensures CutAlike(d)
  {
  }
}
