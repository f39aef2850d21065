// evict.go: the pool pressure valve.
module Evictions {
  import opened Options
  import opened Streams
  import opened Names
  import opened Tar
  import opened Manifests
  import opened Pipeline
  import opened Runners
  import Exports

  // What is left of the media once the names in `gone` are deleted.
  function Without(files: Files, gone: set<string>): Files {
    files - gone
  }

  function MediaNames(names: seq<string>): set<string> {
    set n | n in names && MediaFile(n)
  }

  // The stub keeps its identity: mam is never deleted, every partition file is.
  lemma StubKeepsMam(names: seq<string>)
    ensures "mam" !in MediaNames(names)
    ensures forall n :: n in names && (exists k :: n == "data." + k || n == "indx." + k || n == "meta." + k) ==>
              n in MediaNames(names)
  {
    assert "mam"[1] == 'a' && "mam"[2] == 'm' && "meta."[1] == 'e';
    forall n, k | n in names && (n == "data." + k || n == "indx." + k || n == "meta." + k)
      ensures n in MediaNames(names)
    {
      assert MediaFile(n);
    }
  }

  // The generation to evict: the job's own, else the last one exported.
  function Chosen(d: Disk, id: nat): Option<Gen>
    requires id in d.jobs
  {
    if d.jobs[id].gen.Some? then d.jobs[id].gen
    else if d.lastGen.None? || d.lastGen.value == "" then None else d.lastGen
  }

  method ChooseGeneration(r: Runner, id: nat) returns (g: Gen, ok: bool)
    requires r.Valid() && id in r.d.jobs
    modifies r`d, r`hist, r`faults
    ensures r.Valid() && (old(r.Sound()) ==> r.Sound()) && r.Steady()
    ensures id in r.d.jobs && r.d == old(r.d).(jobs := r.d.jobs)
    ensures ok ==> Some(g) == Chosen(old(r.d), id)
    ensures ok ==> Some(g) == if old(r.d.jobs[id].gen) == None then old(r.d.lastGen) else old(r.d.jobs[id].gen)
    ensures r.faults >= old(r.faults) && (r.faults == old(r.faults) ==> (ok <==> Chosen(old(r.d), id).Some?))
  {
    hide Inv, IsRun, IsCareful, Original;
    if r.d.jobs[id].gen.Some? {
      return r.d.jobs[id].gen.value, true;
    }
    if r.d.lastGen.None? || r.d.lastGen.value == "" {
      return "", false;
    }
    g := r.d.lastGen.value;
    ok := r.Commit(SetGen(id, g));
  }

  // The sizes of the listed files are those the manifest promises.
  method SizesAgree(files: Files, entries: seq<FileEntry>) returns (ok: bool)
    ensures ok <==> forall i :: 0 <= i < |entries| ==>
              (if entries[i].name in files then |files[entries[i].name].data| else 0) == entries[i].size
  {
    var i := 0;
    while i < |entries|
      invariant i <= |entries|
      invariant forall k :: 0 <= k < i ==>
              (if entries[k].name in files then |files[entries[k].name].data| else 0) == entries[k].size
    {
      if (if entries[i].name in files then |files[entries[i].name].data| else 0) != entries[i].size {
        return false;
      }
      i := i + 1;
    }
    ok := true;
  }

  // The safety gate: every check that must pass before a byte goes. It has no
  // effect of its own.
  method Gate(r: Runner, g: Gen) returns (names: seq<string>, ok: bool)
    requires r.Valid()
    modifies r`faults
    ensures ok ==>
              && Enabled(r.env, WriteMarker(g), r.d)
              && names == Sorted(r.d.dir.value.files.Keys) && r.d.dir.value.files != map[]
    ensures r.faults >= old(r.faults)
    // The same written out: an unmarked directory, a manifest of version 2 with chunks,
    // each of its objects at its size, and each of its files at its size.
    ensures ok ==>
              && r.d.dir.Some? && r.d.dir.value.marker == None && g in r.d.bucket.manifests
              && var m, files := r.d.bucket.manifests[g], r.d.dir.value.files;
                 && m.version == 2 && m.cart != "" && m.gen != "" && m.chunks != []
                 && (forall i :: 0 <= i < |m.chunks| ==>
                       && m.chunks[i].key in r.d.bucket.chunks
                       && |r.d.bucket.chunks[m.chunks[i].key]| == m.chunks[i].stored)
                 && forall i :: 0 <= i < |m.files| && m.files[i].size > 0 ==>
                      m.files[i].name in files && |files[m.files[i].name].data| == m.files[i].size
    ensures r.faults == old(r.faults) ==>
              (ok <==> Enabled(r.env, WriteMarker(g), r.d) && Decodes(r.d.bucket.manifests[g])
                       && r.d.dir.value.files != map[])
  {
    hide Inv, IsRun, IsCareful, Original;
    names := [];
    ok := r.Io();   // the bucket answers
    if !ok { return; }
    if g !in r.d.bucket.manifests || !Decodes(r.d.bucket.manifests[g]) {
      return names, false;
    }
    var m := r.d.bucket.manifests[g];
    var stored;
    stored, ok := Exports.VerifyObjects(r, m.chunks);
    if !ok { return; }
    ok := r.Io();   // the cart is idle
    if !ok { return; }
    if r.d.dir.None? || r.d.dir.value.marker.Some? {
      return names, false;
    }
    names := List(r.d.dir.value.files.Keys);
    Exports.ListedAny(r.d.dir.value.files, names);
    if names == [] {
      return names, false;
    }
    ok := SizesAgree(r.d.dir.value.files, m.files);
  }

  // The gate on a sound history: it opens for resident media and a generation the
  // bucket holds, and then that generation restores the media.
  method Pass(r: Runner, g: Gen) returns (names: seq<string>, ok: bool)
    requires r.Sound()
    modifies r`faults
    ensures r.Sound() && r.faults >= old(r.faults)
    ensures ok ==> Enabled(r.env, WriteMarker(g), r.d) && Restores(r.env, r.F, r.d.bucket, g)
                   && r.d.dir == Some(Dir(r.F, None)) && names == Sorted(r.F.Keys)
    ensures ok ==> Unmarked(r.d) && r.F != map[] && g in r.d.bucket.manifests
    ensures r.faults == old(r.faults) && Unmarked(r.d) && r.F != map[] && g in r.d.bucket.manifests ==> ok
  {
    hide Inv, IsRun, IsCareful, Original, MediaFile, Restores, ChunksPresent;
    if Unmarked(r.d) && g in r.d.bucket.manifests { GateOpens(r.env, r.F, r.d, g); }
    names, ok := Gate(r, g);
    if !ok { return; }
    BackedUp(r.env, r.F, r.d, g);
  }

  // Files of F may be missing, but only partition files; the rest is as it was.
  ghost predicate Stub(F: Files, g: Gen, x: Option<Dir>) {
    && x.Some? && x.value.marker == Some(g)
    && (forall n :: n in x.value.files ==> n in F && x.value.files[n] == F[n])
    && forall n :: n in F && n !in x.value.files ==> MediaFile(n)
  }

  // Every durable state since `old` has the directory it found, or a stub of it.
  twostate predicate Leaving(r: Runner, g: Gen)
    reads r
  {
    && old(r.hist) <= r.hist
    && forall k :: |old(r.hist)| <= k < |r.hist| ==> r.hist[k].dir == old(r.d.dir) || Stub(r.F, g, r.hist[k].dir)
  }

  // One file of the marked directory.
  method DeleteOne(r: Runner, g: Gen, n: string) returns (ok: bool)
    requires r.Sound() && Stub(r.F, g, r.d.dir) && MediaFile(n) && n in r.d.dir.value.files
    modifies r`d, r`hist, r`faults
    ensures r.Sound() && r.d == old(r.d).(dir := r.d.dir) && Stub(r.F, g, r.d.dir)
    ensures r.hist == old(r.hist) || r.hist == old(r.hist) + [r.d]
    ensures ok ==> r.d.dir.value.files == old(r.d.dir.value.files) - {n}
    ensures r.faults >= old(r.faults) && (r.faults == old(r.faults) ==> ok)
  {
    hide Inv, IsRun, IsCareful, Original, MediaFile;
    ok := r.Commit(Delete(n));
  }

  // Deletes data.*, indx.* and meta.* of the listed files, one at a time.
  method DeleteMedia(r: Runner, g: Gen, names: seq<string>) returns (ok: bool)
    requires r.Sound() && Stub(r.F, g, r.d.dir)
    requires Ascending(names) && forall n :: n in names ==> n in r.d.dir.value.files
    modifies r`d, r`hist, r`faults
    ensures r.Sound() && Leaving(r, g) && r.d == old(r.d).(dir := r.d.dir)
    ensures Stub(r.F, g, r.d.dir)
    ensures ok ==> r.d.dir.value.files == Without(old(r.d.dir.value.files), MediaNames(names))
    ensures r.faults >= old(r.faults) && (r.faults == old(r.faults) ==> ok)
  {
    hide Inv, IsRun, IsCareful, Original, MediaFile, Without, Ascending, MediaNames;
    AscendingDistinct(names);
    MediaOf(names, r.d.dir.value.files);
    var i := 0;
    while i < |names|
      invariant i <= |names| && r.Sound() && Leaving(r, g) && r.d == old(r.d).(dir := r.d.dir)
      invariant Stub(r.F, g, r.d.dir) && r.d.dir.Some? && r.faults >= old(r.faults)
      invariant r.d.dir.value.files == Without(old(r.d.dir.value.files), MediaNames(names[..i]))
    {
      OneMoreGone(names, i, old(r.d.dir.value.files));
      if MediaFile(names[i]) {
        ok := DeleteOne(r, g, names[i]);
        if !ok { return; }
      }
      i := i + 1;
    }
    assert names[..i] == names;
    ok := true;
  }

  lemma MediaOf(names: seq<string>, files: Files)
    ensures Without(files, MediaNames(names[..0])) == files
  {
  }

  // What deleting the next name, if it is media, leaves.
  lemma OneMoreGone(names: seq<string>, i: nat, files: Files)
    requires i < |names| && (forall j, k :: 0 <= j < k < |names| ==> names[j] != names[k]) && names[i] in files
    ensures var so := Without(files, MediaNames(names[..i]));
            && names[i] in so
            && Without(files, MediaNames(names[..i + 1])) == if MediaFile(names[i]) then so - {names[i]} else so
  {
    hide MediaFile;
    assert names[..i + 1] == names[..i] + [names[i]];
    assert names[i] !in names[..i];
  }

  method PlaceMarker(r: Runner, g: Gen) returns (ok: bool)
    requires r.Sound() && Enabled(r.env, WriteMarker(g), r.d)
    modifies r`d, r`hist, r`faults
    ensures r.Sound() && old(r.hist) <= r.hist && r.d == old(r.d).(dir := r.d.dir)
    ensures forall k :: |old(r.hist)| <= k < |r.hist| ==> r.hist[k].dir == r.d.dir
    ensures r.d.dir == old(r.d.dir) ||
            (r.d.dir.Some? && r.d.dir.value.marker == Some(g) && old(r.d.dir) == Some(Dir(r.d.dir.value.files, None)))
    ensures ok ==> r.d.dir != old(r.d.dir)
    ensures r.faults >= old(r.faults) && (r.faults == old(r.faults) ==> ok)
  {
    hide Inv, IsRun, IsCareful, Original, MediaFile, ChunksPresent;
    ok := r.Commit(WriteMarker(g));
  }

  // Cart row and job row.
  method MarkEvicted(r: Runner, id: nat, g: Gen) returns (ok: bool)
    requires r.Sound() && id in r.d.jobs
    modifies r
    ensures r.Sound() && id in r.d.jobs && r.Steady()
    ensures ok ==> r.d.lastGen == Some(g) && r.d.evicted && r.d.jobs[id].state == Done
    ensures r.faults >= old(r.faults) && (r.faults == old(r.faults) ==> ok)
    ensures Along(old(r.trail), [Done], r.trail, ok)
  {
    hide Inv, IsRun, IsCareful, Original, MediaFile;
    ok := r.Commit(SetLocal(true, g));
    if !ok { return; }
    ok := r.Transition(id, Done);
  }

  // Marker first, then the deletions, then the rows.
  method Evacuate(r: Runner, id: nat, g: Gen, names: seq<string>) returns (ok: bool)
    requires r.Sound() && id in r.d.jobs && Enabled(r.env, WriteMarker(g), r.d)
    requires r.d.dir == Some(Dir(r.F, None)) && names == Sorted(r.F.Keys)
    modifies r
    ensures r.Sound() && Leaving(r, g) && id in r.d.jobs && r.d.bucket == old(r.d.bucket)
    ensures r.d.dir != old(r.d.dir) ==> r.d.dir.Some? && r.d.dir.value.marker == Some(g)
    ensures ok ==> r.d.dir == Some(Dir(Without(r.F, MediaNames(names)), Some(g)))
                   && r.d.lastGen == Some(g) && r.d.evicted && r.d.jobs[id].state == Done
    ensures r.faults >= old(r.faults) && (r.faults == old(r.faults) ==> ok)
    ensures Along(old(r.trail), [Done], r.trail, ok)
  {
    hide Inv, IsRun, IsCareful, Original, MediaFile, ChunksPresent, Without, MediaNames;
    ok := PlaceMarker(r, g);
    if !ok { return; }
    ok := DeleteMedia(r, g, names);
    if !ok { return; }
    ok := MarkEvicted(r, id, g);
  }

  // The gate, then the evacuation.
  method EvictCart(r: Runner, id: nat) returns (ok: bool, ghost g: Gen)
    requires r.Sound() && id in r.d.jobs
    modifies r
    ensures r.Sound() && Leaving(r, g) && id in r.d.jobs && r.d.bucket == old(r.d.bucket)
    ensures r.d.dir != old(r.d.dir) ==>
              && old(r.d.dir) == Some(Dir(r.F, None)) && r.d.dir.Some? && r.d.dir.value.marker == Some(g)
              && Restores(r.env, r.F, r.d.bucket, g)
              && Some(g) == if old(r.d.jobs[id].gen) == None then old(r.d.lastGen) else old(r.d.jobs[id].gen)
    ensures ok ==> r.d.dir == Some(Dir(Without(r.F, MediaNames(Sorted(r.F.Keys))), Some(g)))
                   && r.d.lastGen == Some(g) && r.d.evicted && r.d.jobs[id].state == Done
    ensures r.faults >= old(r.faults)
    ensures r.faults == old(r.faults) ==>
              (ok <==> old(Unmarked(r.d)) && r.F != map[] && Chosen(old(r.d), id).Some?
                       && Chosen(old(r.d), id).value in old(r.d.bucket.manifests))
    ensures Along(old(r.trail), [Evicting, Done], r.trail, ok)
  {
    hide Inv, IsRun, IsCareful, Original, Restores, ChunksPresent, Enabled, MediaNames, MediaFile, Without, Along, Stub;
    g := "";
    ghost var trail0 := r.trail;
    ok := r.Transition(id, Evicting);
    ghost var trail1 := r.trail;
    StepTaken(trail0, Evicting, trail1, ok);
    StopShort(trail0, [Evicting], trail1, [Done], ok);
    assert [Evicting] + [Done] == [Evicting, Done];
    if !ok { return; }
    var gen, names;
    gen, ok := ChooseGeneration(r, id);
    g := gen;
    if !ok { return; }
    names, ok := Pass(r, gen);
    if !ok { return; }
    ok := Evacuate(r, id, gen, names);
    GoOn(trail0, [Evicting], trail1, [Done], r.trail, ok);
  }

  // An eviction never touches the directory unless some bucket manifest restores
  // the original files; a completed one leaves exactly the identity files.
  method RunEvict(r: Runner, id: nat) returns (ok: bool)
    requires r.Sound() && id in r.d.jobs
    modifies r
    ensures r.Sound() && old(r.hist) <= r.hist && id in r.d.jobs && r.d.bucket == old(r.d.bucket)
    ensures r.d.dir != old(r.d.dir) ==>
              && old(r.d.dir) == Some(Dir(r.F, None)) && r.d.dir.Some? && r.d.dir.value.marker.Some?
              && Restores(r.env, r.F, r.d.bucket, r.d.dir.value.marker.value)
    ensures r.d.dir != old(r.d.dir) ==>
              r.d.dir.value.marker == if old(r.d.jobs[id].gen) == None then old(r.d.lastGen) else old(r.d.jobs[id].gen)
    // At every point on the way the directory is the one found, or a marked one from
    // which nothing but partition files is missing.
    ensures forall k :: |old(r.hist)| <= k < |r.hist| && r.hist[k].dir != old(r.d.dir) ==>
              && r.hist[k].dir.Some? && r.hist[k].dir.value.marker.Some?
              && var files := r.hist[k].dir.value.files;
                 && (forall n :: n in files ==> n in r.F && files[n] == r.F[n])
                 && forall n :: n in r.F && n !in files ==> "data." <= n || "indx." <= n || "meta." <= n
    // A completed eviction removed all of those, and only those.
    ensures ok ==> r.d.dir.Some? && forall n :: n in r.F ==>
              && (n in r.d.dir.value.files <==> !("data." <= n) && !("indx." <= n) && !("meta." <= n))
              && (n in r.d.dir.value.files ==> r.d.dir.value.files[n] == r.F[n])
    ensures ok ==> r.d.dir.value.files.Keys <= r.F.Keys
    ensures ok ==> r.d.dir.Some? && r.d.dir.value.files == Without(r.F, MediaNames(Sorted(r.F.Keys)))
                   && r.d.dir.value.marker.Some? && r.d.lastGen == r.d.dir.value.marker && r.d.evicted
                   && r.d.jobs[id].state == Done
    // Nothing failing, it succeeds exactly for resident media and a generation the
    // bucket holds.
    ensures r.faults >= old(r.faults)
    ensures r.faults == old(r.faults) ==>
              (ok <==> old(Unmarked(r.d)) && r.F != map[] && Chosen(old(r.d), id).Some?
                       && Chosen(old(r.d), id).value in old(r.d.bucket.manifests))
    ensures Along(old(r.trail), [Evicting, Done], r.trail, ok)
  {
    hide Inv, IsRun, IsCareful, Original, Restores, ChunksPresent, Enabled, MediaNames, MediaFile, Without, Stub;
    ghost var g;
    ok, g := EvictCart(r, id);
    StubNames(r.F);
    LeavingIs(r.F, g, r.hist, |old(r.hist)|, old(r.d.dir));
  }

  // The names a completed stub holds, and its files.
  lemma StubNames(F: Files)
    ensures forall n :: n in Without(F, MediaNames(Sorted(F.Keys))) <==>
              n in F && !("data." <= n) && !("indx." <= n) && !("meta." <= n)
    ensures forall n :: n in Without(F, MediaNames(Sorted(F.Keys))) ==>
              Without(F, MediaNames(Sorted(F.Keys)))[n] == F[n]
  {
  }

  // The states on the way, by the names.
  lemma LeavingIs(F: Files, g: Gen, hist: seq<Disk>, from: nat, dir: Option<Dir>)
    requires forall k :: from <= k < |hist| ==> hist[k].dir == dir || Stub(F, g, hist[k].dir)
    ensures forall k :: from <= k < |hist| && hist[k].dir != dir ==>
              && hist[k].dir.Some? && hist[k].dir.value.marker.Some?
              && var files := hist[k].dir.value.files;
                 && (forall n :: n in files ==> n in F && files[n] == F[n])
                 && forall n :: n in F && n !in files ==> "data." <= n || "indx." <= n || "meta." <= n
  {
  }

  // On a sound history every bucket manifest passes the gate for resident media.
  lemma GateOpens(env: Env, F: Files, d: Disk, g: Gen)
    requires Original(env, F) && Inv(env, F, d) && Unmarked(d) && g in d.bucket.manifests
    ensures Enabled(env, WriteMarker(g), d) && Decodes(d.bucket.manifests[g]) && d.dir.value.files == F
  {
    hide TarOf, RowsBacked, ChunksPresent, JobGood, Decodes, TotalsRight, Entries, EntryOf;
    var m := d.bucket.manifests[g];
    assert ManifestGood(env, F, d.cut, g, m, d.bucket.chunks);
    Exports.RowsStored(env, d.cut, TarOf(env.t, F), g, m.chunks, d.bucket);
    EntriesSized(env.codec, F, m.files);
  }

  lemma EntriesSized(codec: Codec, F: Files, entries: seq<FileEntry>)
    requires entries == Entries(codec, Sorted(F.Keys), F)
    ensures forall i :: 0 <= i < |entries| ==>
              (if entries[i].name in F then |F[entries[i].name].data| else 0) == entries[i].size
  {
    var names := Sorted(F.Keys);
    assert forall i :: 0 <= i < |names| ==> names[i] in F;
  }

  lemma BackedUp(env: Env, F: Files, d: Disk, g: Gen)
    requires Original(env, F) && Inv(env, F, d) && g in d.bucket.manifests
    ensures Restores(env, F, d.bucket, g)
    ensures Unmarked(d) ==> d.dir.value.files == F
  {
    assert ManifestGood(env, F, d.cut, g, d.bucket.manifests[g], d.bucket.chunks);
    GoodManifestRestores(env, F, d.cut, g, d.bucket.manifests[g], d.bucket.chunks);
  }
}
