// export.go: runExport, resumable and manifest-last, with tarchunk.go's tar writer.
module Exports {
  import opened Options
  import opened Streams
  import opened Names
  import opened Chunking
  import opened Tar
  import opened Manifests
  import opened Pipeline
  import opened Runners
  import opened Chunkers

  // sumBytes: the total size of the listed files.
  function SumSizes(names: seq<string>, files: Files): nat
    requires forall n :: n in names ==> n in files
  {
    if names == [] then 0 else |files[names[0]].data| + SumSizes(names[1..], files)
  }

  ghost function MediaBytes(files: Files): nat {
    SumSizes(Sorted(files.Keys), files)
  }

  lemma {:induction false} SumSizesSplit(front: seq<string>, n: string, back: seq<string>, files: Files)
    requires forall x :: x in front + [n] + back ==> x in files
    ensures (forall x :: x in front + back ==> x in files)
    ensures SumSizes(front + [n] + back, files) == SumSizes(front + back, files) + |files[n].data|
  {
    var all, rest := front + [n] + back, front + back;
    assert forall x :: x in rest ==> x in all;
    if front == [] {
      assert all == [n] + back && all[1..] == back && rest == back;
    } else {
      assert all[1..] == front[1..] + [n] + back && rest[1..] == front[1..] + back;
      SumSizesSplit(front[1..], n, back, files);
    }
  }

  lemma {:induction false} SumSizesLocal(names: seq<string>, a: Files, b: Files)
    requires forall n :: n in names ==> n in a && n in b && a[n] == b[n]
    ensures SumSizes(names, a) == SumSizes(names, b)
  {
    if names != [] { SumSizesLocal(names[1..], a, b); }
  }

  lemma LeftOut(names: seq<string>, i: nat)
    requires Ascending(names) && i < |names|
    ensures var rest := names[..i] + names[i + 1..];
            Ascending(rest) && Elements(rest) == Elements(names) - {names[i]}
  {
    AscendingDistinct(names);
    var rest := names[..i] + names[i + 1..];
    assert names == names[..i] + [names[i]] + names[i + 1..];
    forall j, k | 0 <= j < k < |rest| ensures Before(rest[j], rest[k]) {
      assert rest[j] == names[if j < i then j else j + 1] && rest[k] == names[if k < i then k else k + 1];
    }
    forall x ensures x in rest <==> x in names && x != names[i] {
      if x in names && x != names[i] {
        var k :| 0 <= k < |names| && names[k] == x;
        assert rest[if k < i then k else k - 1] == x;
      }
    }
  }

  // The total is every file's size, once.
  lemma MediaBytesIs(files: Files, n: string)
    requires n in files
    ensures MediaBytes(files) == MediaBytes(files - {n}) + |files[n].data| && MediaBytes(map[]) == 0
  {
    var names := Sorted(files.Keys);
    var i :| 0 <= i < |names| && names[i] == n;
    var front, back := names[..i], names[i + 1..];
    assert names == front + [n] + back;
    SumSizesSplit(front, n, back, files);
    var rest := front + back;
    LeftOut(names, i);
    hide Ascending;
    AscendingUnique(rest, Sorted((files - {n}).Keys));
    SumSizesLocal(rest, files, files - {n});
  }

  lemma {:induction false} PackLonger(t: Framing, names: seq<string>, files: Files)
    requires forall n :: n in names ==> n in files
    ensures |Pack(t, names, files)| >= SumSizes(names, files) + 2 * BLOCK
  {
    if names != [] { PackLonger(t, names[1..], files); }
  }

  // The total recorded before streaming (file bytes) and the one recorded after
  // it (tar bytes) always differ, so an attempt that fails after its stream
  // completed is never resumed: the next one clears the ledger.
  lemma StreamedTotalForcesRestart(env: Env, files: Files)
    ensures |TarOf(env.t, files)| > MediaBytes(files)
  {
    PackLonger(env.t, Sorted(files.Keys), files);
  }

  method ComputeSum(names: seq<string>, files: Files) returns (sum: nat)
    requires forall n :: n in names ==> n in files
    ensures sum == SumSizes(names, files)
  {
    sum := 0;
    var i := 0;
    while i < |names|
      invariant i <= |names| && sum + SumSizes(names[i..], files) == SumSizes(names, files)
    {
      assert names[i..][0] == names[i] && names[i..][1..] == names[i + 1..];
      sum := sum + |files[names[i]].data|;
      i := i + 1;
    }
  }

  // Contiguous recorded chunks from 0.
  method ResumePoint(ledger: seq<ChunkRow>) returns (skip: nat)
    ensures skip <= |ledger| && forall i :: 0 <= i < skip ==> ledger[i].idx == i
    ensures skip < |ledger| ==> ledger[skip].idx != skip
  {
    skip := 0;
    while skip < |ledger| && ledger[skip].idx == skip
      invariant skip <= |ledger| && forall i :: 0 <= i < skip ==> ledger[i].idx == i
    {
      skip := skip + 1;
    }
  }

  // io.Copy of one file into the tar writer, in pieces of any size.
  method CopyContent(ck: Chunker, up: Upload, data: Bytes) returns (ok: bool)
    requires Joined(ck, up) && ck.seen + data <= up.tar
    modifies ck, up.r`d, up.r`hist, up.r`faults
    ensures Tied(ck, up) && up.Elsewhere()
    ensures up.r.faults == old(up.r.faults) ==> ok
    ensures ok ==> Joined(ck, up) && ck.seen == old(ck.seen) + data
  {
    hide Inv, IsRun, IsCareful, TarOf, Original, Count, At, Mixed, Fit, FullChunks;
    var off := 0;
    while off < |data|
      invariant off <= |data| && Joined(ck, up) && ck.seen == old(ck.seen) + data[..off] && up.Elsewhere()
    {
      var n: nat :| 0 < n <= |data| - off;
      var piece := data[off..off + n];
      assert data[..off] + piece == data[..off + n];
      assert old(ck.seen) + data == ck.seen + piece + data[off + n..];
      var written;
      written, ok := Write(ck, up, piece);
      if !ok {
        return;
      }
      off := off + n;
    }
    assert data[..off] == data;
    ok := true;
  }

  // One member: header, content, padding.
  method WriteMember(ck: Chunker, up: Upload, name: string, f: File) returns (ok: bool)
    requires Joined(ck, up)
    requires ck.seen + up.r.env.t.header(MemberOf(name, f)) + f.data + Zeros(Padding(|f.data|)) <= up.tar
    modifies ck, up.r`d, up.r`hist, up.r`faults
    ensures Tied(ck, up) && up.Elsewhere()
    ensures up.r.faults == old(up.r.faults) ==> ok
    ensures ok ==> Joined(ck, up)
    ensures ok ==> ck.seen == old(ck.seen) + up.r.env.t.header(MemberOf(name, f)) + f.data + Zeros(Padding(|f.data|))
  {
    hide Inv, IsRun, IsCareful, TarOf, Original, Count, At, Mixed, Fit, FullChunks;
    var written;
    written, ok := Write(ck, up, up.r.env.t.header(MemberOf(name, f)));
    if !ok { return; }
    ok := up.r.Io();   // the file is there
    if !ok { return; }
    ok := CopyContent(ck, up, f.data);
    if !ok { return; }
    written, ok := Write(ck, up, Zeros(Padding(|f.data|)));
  }

  // The next file of the listing, at its place in the stream.
  method WriteNext(ck: Chunker, up: Upload, names: seq<string>, i: nat, files: Files) returns (ok: bool)
    requires i < |names| && (forall n :: n in names ==> n in files)
    requires Joined(ck, up) && ck.seen + Pack(up.r.env.t, names[i..], files) == up.tar
    modifies ck, up.r`d, up.r`hist, up.r`faults
    ensures Tied(ck, up) && up.Elsewhere()
    ensures up.r.faults == old(up.r.faults) ==> ok
    ensures ok ==> Joined(ck, up) && ck.seen + Pack(up.r.env.t, names[i + 1..], files) == up.tar
  {
    hide Inv, IsRun, IsCareful, TarOf, Original, Count, At, Mixed, Fit, FullChunks, Unmarked, Padding;
    var name := names[i];
    var f := files[name];
    ghost var t := up.r.env.t;
    ghost var more := Pack(t, names[i + 1..], files);
    assert names[i..][0] == name && names[i..][1..] == names[i + 1..];
    ghost var member := t.header(MemberOf(name, f)) + f.data + Zeros(Padding(|f.data|));
    assert ck.seen + (member + more) == (ck.seen + member) + more;
    assert ck.seen + member == ck.seen + t.header(MemberOf(name, f)) + f.data + Zeros(Padding(|f.data|));
    ok := WriteMember(ck, up, name, f);
  }

  // writeCartTar: every file in order, then the trailer.
  method WriteCartTar(ck: Chunker, up: Upload, names: seq<string>, files: Files)
    returns (entries: seq<FileEntry>, ok: bool)
    requires Joined(ck, up) && ck.seen == []
    requires (forall n :: n in names ==> n in files) && up.tar == Pack(up.r.env.t, names, files)
    modifies ck, up.r`d, up.r`hist, up.r`faults
    ensures Tied(ck, up) && up.Elsewhere()
    ensures up.r.faults == old(up.r.faults) ==> ok
    ensures ok ==> Joined(ck, up) && ck.seen == up.tar && entries == Entries(up.r.env.codec, names, files)
  {
    hide Inv, IsRun, IsCareful, TarOf, Original, Count, At, Mixed, Fit, FullChunks, Unmarked, Pack;
    var codec := up.r.env.codec;
    entries, ok := [], true;
    var i := 0;
    assert names[0..] == names;
    while i < |names|
      invariant i <= |names| && Joined(ck, up) && ck.seen + Pack(up.r.env.t, names[i..], files) == up.tar
      invariant |entries| == i && forall j :: 0 <= j < i ==> entries[j] == EntryOf(codec, names[j], files[names[j]])
      invariant up.Elsewhere()
    {
      var name := names[i];
      var f := files[name];
      ok := WriteNext(ck, up, names, i, files);
      if !ok { return; }
      entries := entries + [FileEntry(name, |f.data|, f.meta.mode, f.meta.mtime, codec.sum(f.data))];
      i := i + 1;
    }
    assert names[i..] == [];
    PackNothing(up.r.env.t, files);
    var written;
    written, ok := Write(ck, up, Zeros(2 * BLOCK));
  }

  lemma PackNothing(t: Framing, files: Files)
    ensures Pack(t, [], files) == Zeros(2 * BLOCK)
  {
  }

  // Where an attempt starts cutting: after the recorded prefix, or from zero when
  // the recorded total says the cart changed.
  ghost function StartOf(j: Job, F: Files): nat {
    if j.ledger != [] && j.total != MediaBytes(F) then 0 else |j.ledger|
  }

  // The generation an attempt works on; `stamp` is what a new one would be called.
  function GenOf(j: Job, stamp: string): Gen {
    if j.gen.Some? then j.gen.value else stamp + "Z"
  }

  // A new generation is named by its stamp alone, and a kept one not at all.
  lemma StampsApart(j: Job, s: string, t: string)
    ensures GenOf(j, s) == GenOf(j, t) <==> j.gen.Some? || s == t
    ensures GenOf(j, s) != "" <==> j.gen != Some("")
  {
    assert (s + "Z")[..|s|] == s && (t + "Z")[..|t|] == t;
  }

  // A ledger without gaps.
  predicate Indexed(rows: seq<ChunkRow>) {
    forall i :: 0 <= i < |rows| ==> rows[i].idx == i
  }

  // The generation is chosen once and kept by every later attempt.
  method EnsureGeneration(r: Runner, id: nat, stamp: string) returns (g: Gen, ok: bool)
    requires r.Valid() && id in r.d.jobs
    modifies r`d, r`hist, r`faults
    ensures r.Valid() && (old(r.Sound()) ==> r.Sound())
    ensures old(r.hist) <= r.hist && r.d == old(r.d).(jobs := r.d.jobs) && id in r.d.jobs
    ensures r.d.jobs == old(r.d.jobs)[id := r.d.jobs[id]]
    ensures r.d.jobs[id] == old(r.d.jobs[id]).(gen := r.d.jobs[id].gen)
    ensures g == GenOf(old(r.d.jobs[id]), stamp) && (ok ==> r.d.jobs[id].gen == Some(g))
    ensures r.d.jobs[id].gen == old(r.d.jobs[id].gen) || r.d.jobs[id].gen == Some(g)
    ensures r.faults >= old(r.faults) && (r.faults == old(r.faults) ==> ok)
  {
    hide Inv, IsRun, IsCareful, Original;
    if r.d.jobs[id].gen.Some? {
      return r.d.jobs[id].gen.value, true;
    }
    g := stamp + "Z";   // NewGeneration: a UTC timestamp
    ok := r.Commit(SetGen(id, g));
  }

  // The resume decision: keep the recorded prefix, or clear it when the recorded
  // total is not today's file total; then record today's total.
  method EnsureLedger(r: Runner, id: nat, sum: nat) returns (skip: nat, ok: bool)
    requires r.Valid() && id in r.d.jobs && Indexed(r.d.jobs[id].ledger)
    modifies r`d, r`hist, r`faults
    ensures r.Valid() && (old(r.Sound()) ==> r.Sound())
    ensures old(r.hist) <= r.hist && r.d == old(r.d).(jobs := r.d.jobs) && id in r.d.jobs
    ensures r.d.jobs == old(r.d.jobs)[id := r.d.jobs[id]] && r.d.jobs[id].gen == old(r.d.jobs[id].gen)
    ensures r.d.jobs[id].total == old(r.d.jobs[id].total) || r.d.jobs[id].total == sum
    ensures var j := old(r.d.jobs[id]);
            var restart := j.ledger != [] && j.total != sum;
            && (r.d.jobs[id].ledger == j.ledger || (restart && r.d.jobs[id].ledger == []))
            && (ok ==> r.d.jobs[id].total == sum && r.d.jobs[id].ledger == (if restart then [] else j.ledger)
                       && skip == |r.d.jobs[id].ledger|)
    ensures r.faults >= old(r.faults) && (r.faults == old(r.faults) ==> ok)
  {
    hide IsRun, IsCareful, Original, Inv;
    var j := r.d.jobs[id];
    skip := ResumePoint(j.ledger);
    assert skip == |j.ledger|;
    if skip > 0 && j.total != sum {
      skip := 0;
      ok := r.Commit(ClearLedger(id));
      if !ok { return; }
    }
    ok := r.Commit(SetTotal(id, sum));
  }

  // quiesceCheck, the marker check and the listing.
  method OpenMedia(r: Runner) returns (names: seq<string>, ok: bool)
    requires r.Valid() && LocalGood(r.F, r.d.dir)
    modifies r`faults
    ensures r.Valid() && (old(r.Sound()) ==> r.Sound()) && r.faults >= old(r.faults)
    ensures ok ==> Unmarked(r.d) && r.d.dir.value.files == r.F && names == Sorted(r.F.Keys) && names != []
    ensures r.faults == old(r.faults) ==> (ok <==> Unmarked(r.d) && r.F != map[])
  {
    names := [];
    ok := r.Io();   // the cart is idle
    if !ok { return; }
    if r.d.dir.None? || r.d.dir.value.marker.Some? {
      return [], false;
    }
    names := List(r.d.dir.value.files.Keys);
    ListedAny(r.F, names);
    ok := names != [];
  }

  lemma ListedAny(files: Files, names: seq<string>)
    requires forall n :: n in names <==> n in files
    ensures names != [] <==> files != map[]
  {
    if names != [] {
      assert names[0] in files;
    } else {
      assert files.Keys == {};
    }
  }

  // Generation and resume point.
  method Resume(r: Runner, id: nat, stamp: string, sum: nat) returns (g: Gen, skip: nat, ok: bool)
    requires r.Valid() && id in r.d.jobs && Indexed(r.d.jobs[id].ledger)
    modifies r`d, r`hist, r`faults
    ensures r.Valid() && (old(r.Sound()) ==> r.Sound())
    ensures old(r.hist) <= r.hist && r.d == old(r.d).(jobs := r.d.jobs) && id in r.d.jobs
    ensures r.d.jobs == old(r.d.jobs)[id := r.d.jobs[id]]
    ensures r.d.jobs[id].total == old(r.d.jobs[id].total) || r.d.jobs[id].total == sum
    ensures var j := old(r.d.jobs[id]);
            var k := if j.ledger != [] && j.total != sum then 0 else |j.ledger|;
            && g == GenOf(j, stamp) && (r.d.jobs[id].gen == j.gen || r.d.jobs[id].gen == Some(g))
            && (r.d.jobs[id].ledger == j.ledger || (k == 0 && r.d.jobs[id].ledger == []))
            && (ok ==> skip == k && r.d.jobs[id].ledger == j.ledger[..k]
                       && r.d.jobs[id].gen == Some(g) && r.d.jobs[id].total == sum)
    ensures r.faults >= old(r.faults) && (r.faults == old(r.faults) ==> ok)
  {
    hide Inv, IsRun, IsCareful, Original;
    skip := 0;
    g, ok := EnsureGeneration(r, id, stamp);
    if !ok { return; }
    skip, ok := EnsureLedger(r, id, sum);
  }

  // The cart idle, its media opened.
  method Quiesce(r: Runner, id: nat) returns (names: seq<string>, ok: bool)
    requires r.Valid() && LocalGood(r.F, r.d.dir) && id in r.d.jobs
    modifies r
    ensures r.Valid() && (old(r.Sound()) ==> r.Sound())
    ensures old(r.hist) <= r.hist && id in r.d.jobs && r.d == old(r.d).(jobs := r.d.jobs)
    ensures r.d.jobs == old(r.d.jobs)[id := r.d.jobs[id]]
    ensures r.d.jobs[id] == old(r.d.jobs[id]).(state := r.d.jobs[id].state)
    ensures ok ==> r.d.dir == Some(Dir(r.F, None)) && names == Sorted(r.F.Keys) && names != []
    ensures r.faults >= old(r.faults) && (r.faults == old(r.faults) ==> (ok <==> old(Unmarked(r.d)) && r.F != map[]))
    ensures Along(old(r.trail), [Quiescing], r.trail, ok)
  {
    hide Inv, IsRun, IsCareful, Original;
    names := [];
    ok := r.Transition(id, Quiescing);
    if !ok { return; }
    names, ok := OpenMedia(r);
  }

  // The part of runExport before any chunk is cut.
  method Prepare(r: Runner, id: nat, stamp: string) returns (g: Gen, names: seq<string>, skip: nat, ok: bool)
    requires r.Valid() && LocalGood(r.F, r.d.dir) && id in r.d.jobs && Indexed(r.d.jobs[id].ledger)
    modifies r
    ensures r.Valid() && (old(r.Sound()) ==> r.Sound())
    ensures old(r.hist) <= r.hist && id in r.d.jobs && r.d == old(r.d).(jobs := r.d.jobs)
    ensures r.d.jobs == old(r.d.jobs)[id := r.d.jobs[id]]
    ensures r.d.jobs[id].total == old(r.d.jobs[id].total) || r.d.jobs[id].total == MediaBytes(r.F)
    ensures var j := old(r.d.jobs[id]);
            && (r.d.jobs[id].gen == j.gen || r.d.jobs[id].gen == Some(GenOf(j, stamp)))
            && (r.d.jobs[id].ledger == j.ledger || (StartOf(j, r.F) == 0 && r.d.jobs[id].ledger == []))
    ensures ok ==>
              && r.d.dir == Some(Dir(r.F, None)) && names == Sorted(r.F.Keys) && names != []
              && g == GenOf(old(r.d.jobs[id]), stamp) && r.d.jobs[id].gen == Some(g)
              && r.d.jobs[id].total == MediaBytes(r.F)
              && skip == StartOf(old(r.d.jobs[id]), r.F) && r.d.jobs[id].ledger == old(r.d.jobs[id].ledger)[..skip]
    ensures r.faults >= old(r.faults) && (r.faults == old(r.faults) ==> (ok <==> old(Unmarked(r.d)) && r.F != map[]))
    ensures Along(old(r.trail), [Quiescing, State.Chunking], r.trail, ok)
  {
    hide Inv, IsRun, IsCareful, Original, SumSizes, Along;
    g, names, skip := "", [], 0;
    ghost var trail0 := r.trail;
    names, ok := Quiesce(r, id);
    ghost var trail1 := r.trail;
    StopShort(trail0, [Quiescing], trail1, [State.Chunking], ok);
    assert [Quiescing] + [State.Chunking] == [Quiescing, State.Chunking];
    if !ok { return; }
    var sum := ComputeSum(names, r.d.dir.value.files);
    g, skip, ok := Resume(r, id, stamp, sum);
    if !ok { return; }
    ok := r.Transition(id, State.Chunking);
    StepTaken(trail1, State.Chunking, r.trail, ok);
    GoOn(trail0, [Quiescing], trail1, [State.Chunking], r.trail, ok);
  }

  // The verify pass: every ledger row's object is in the bucket at its size.
  method VerifyObjects(r: Runner, ledger: seq<ChunkRow>) returns (stored: nat, ok: bool)
    modifies r`faults
    ensures r.faults >= old(r.faults) && (r.faults == old(r.faults) ==> (ok <==> ChunksPresent(r.d.bucket, ledger)))
    ensures ok ==> ChunksPresent(r.d.bucket, ledger) && stored == StoredSum(ledger)
    ensures ok ==>
              && stored == |Objects(r.d.bucket.chunks, ledger)|
              && forall i :: 0 <= i < |ledger| ==>
                   && ledger[i].key in r.d.bucket.chunks
                   && |r.d.bucket.chunks[ledger[i].key]| == ledger[i].stored
  {
    stored := 0;
    var i := 0;
    while i < |ledger|
      invariant i <= |ledger| && ChunksPresent(r.d.bucket, ledger[..i]) && stored == StoredSum(ledger[..i])
      invariant r.faults >= old(r.faults)
    {
      ok := r.Io();   // the bucket answers
      if !ok { return; }
      if ledger[i].key !in r.d.bucket.chunks || |r.d.bucket.chunks[ledger[i].key]| != ledger[i].stored {
        return stored, false;
      }
      stored := stored + ledger[i].stored;
      assert ledger[..i + 1] == ledger[..i] + [ledger[i]];
      assert ledger[..i + 1][..i] == ledger[..i];
      i := i + 1;
    }
    assert ledger[..i] == ledger;
    StoredIs(r.d.bucket.chunks, ledger);
    ok := true;
  }

  // A finished export: its manifest, listing the ledger's rows and the original files,
  // is in the bucket and cached.
  ghost predicate Announced(env: Env, F: Files, d: Disk, id: nat, g: Gen) {
    && id in d.jobs && d.jobs[id].gen == Some(g) && d.jobs[id].state == Done && d.jobs[id].total == |TarOf(env.t, F)|
    && g in d.bucket.manifests && g in d.catalog && d.catalog[g] == d.bucket.manifests[g]
    && d.lastGen == Some(g) && !d.evicted
    && var m := d.bucket.manifests[g];
       && Decodes(m) && m.gen == g && m.cart == env.cart && m.files == Entries(env.codec, Sorted(F.Keys), F)
       && m.chunks == d.jobs[id].ledger && TotalsRight(m, |TarOf(env.t, F)|)
  }

  // And the manifest lists one whole partition over intact objects.
  ghost predicate Exported(env: Env, F: Files, d: Disk, id: nat, g: Gen) {
    Announced(env, F, d, id, g) && ManifestGood(env, F, d.cut, g, d.bucket.manifests[g], d.bucket.chunks)
  }

  method PutLast(r: Runner, id: nat, m: Manifest) returns (ok: bool)
    requires r.Valid() && Enabled(r.env, PutManifest(id, m), r.d)
    modifies r`d, r`hist, r`faults
    ensures r.Valid() && (old(r.Sound() && Harmless(r.env, PutManifest(id, m), r.d)) ==> r.Sound())
    ensures old(r.hist) <= r.hist && r.d == old(r.d).(bucket := r.d.bucket)
    ensures r.d.bucket.chunks == old(r.d.bucket.chunks)
    ensures ok ==> m.gen in r.d.bucket.manifests && r.d.bucket.manifests[m.gen] == m
    ensures r.faults >= old(r.faults) && (r.faults == old(r.faults) ==> ok)
  {
    hide Inv, IsRun, IsCareful, Original, TarOf, Count, ChunksPresent, TotalsRight, Decodes, Entries, RowFor;
    ok := r.Commit(PutManifest(id, m));
  }

  method CacheIt(r: Runner, m: Manifest) returns (ok: bool)
    requires r.Valid() && m.gen in r.d.bucket.manifests && r.d.bucket.manifests[m.gen] == m
    modifies r`d, r`hist, r`faults
    ensures r.Valid() && (old(r.Sound()) ==> r.Sound())
    ensures old(r.hist) <= r.hist && r.d.jobs == old(r.d.jobs) && r.d.bucket == old(r.d.bucket)
    ensures r.d.dir == old(r.d.dir)
    ensures r.d.c == old(r.d.c) && r.d.cut == old(r.d.cut)
    ensures ok ==> m.gen in r.d.catalog && r.d.catalog[m.gen] == m && r.d.lastGen == Some(m.gen) && !r.d.evicted
    ensures r.faults >= old(r.faults) && (r.faults == old(r.faults) ==> ok)
  {
    hide Inv, IsRun, IsCareful, Original;
    ok := r.Commit(CacheManifest(m));
    if !ok { return; }
    ok := r.Commit(SetLocal(false, m.gen));
  }

  // Manifest upload, cache row, cart row - in that order.
  method Announce(r: Runner, id: nat, m: Manifest) returns (ok: bool)
    requires r.Valid() && Enabled(r.env, PutManifest(id, m), r.d)
    modifies r`d, r`hist, r`faults
    ensures r.Valid() && (old(r.Sound() && Harmless(r.env, PutManifest(id, m), r.d)) ==> r.Sound())
    ensures old(r.hist) <= r.hist && r.d.jobs == old(r.d.jobs) && r.d.bucket.chunks == old(r.d.bucket.chunks)
    ensures r.d.c == old(r.d.c) && r.d.cut == old(r.d.cut) && r.d.dir == old(r.d.dir)
    ensures ok ==> m.gen in r.d.bucket.manifests && r.d.bucket.manifests[m.gen] == m
    ensures ok ==> m.gen in r.d.catalog && r.d.catalog[m.gen] == m && r.d.lastGen == Some(m.gen) && !r.d.evicted
    ensures r.faults >= old(r.faults) && (r.faults == old(r.faults) ==> ok)
  {
    hide Inv, IsRun, IsCareful, Original, Enabled, Harmless;
    ok := PutLast(r, id, m);
    if !ok { return; }
    ok := CacheIt(r, m);
  }

  // Returning a vaulted cart to its slot, then done.
  method Unvault(r: Runner, id: nat) returns (ok: bool)
    requires r.Valid() && id in r.d.jobs
    modifies r
    ensures r.Valid() && (old(r.Sound()) ==> r.Sound()) && old(r.hist) <= r.hist
    ensures id in r.d.jobs && r.d.jobs[id] == old(r.d.jobs[id]).(state := r.d.jobs[id].state)
    ensures r.d == old(r.d).(jobs := r.d.jobs)
    ensures ok ==> r.d.jobs[id].state == Done
    ensures r.faults >= old(r.faults) && (r.faults == old(r.faults) ==> ok)
    ensures Along(old(r.trail), [Unvaulting, Done], r.trail, ok)
  {
    hide Inv, IsRun, IsCareful, Original;
    ok := r.Transition(id, Unvaulting);
    if !ok { return; }
    ok := r.Io();   // the move, if one is needed
    if !ok { return; }
    ok := r.Transition(id, Done);
  }

  // From the end of streaming to the verified chunk list.
  method Seal(r: Runner, id: nat, logical: nat, count: nat) returns (stored: nat, ok: bool)
    requires r.Valid() && id in r.d.jobs
    modifies r
    ensures r.Valid() && (old(r.Sound()) ==> r.Sound()) && old(r.hist) <= r.hist
    ensures id in r.d.jobs && r.d == old(r.d).(jobs := r.d.jobs)
    ensures r.d.jobs == old(r.d.jobs)[id := r.d.jobs[id]]
    ensures r.d.jobs[id].ledger == old(r.d.jobs[id].ledger) && r.d.jobs[id].gen == old(r.d.jobs[id].gen)
    ensures r.d.jobs[id].total == old(r.d.jobs[id].total) || r.d.jobs[id].total == logical
    ensures ok ==> r.d.jobs[id].total == logical && |r.d.jobs[id].ledger| == count
                   && ChunksPresent(r.d.bucket, r.d.jobs[id].ledger) && stored == StoredSum(r.d.jobs[id].ledger)
    ensures ok ==> forall i :: 0 <= i < |r.d.jobs[id].ledger| ==>
              var row := r.d.jobs[id].ledger[i];
              row.key in r.d.bucket.chunks && |r.d.bucket.chunks[row.key]| == row.stored
    ensures r.faults >= old(r.faults)
    ensures r.faults == old(r.faults) ==>
              (ok <==> old(|r.d.jobs[id].ledger| == count && ChunksPresent(r.d.bucket, r.d.jobs[id].ledger)))
    ensures Along(old(r.trail), [Verifying], r.trail, ok)
  {
    hide Inv, IsRun, IsCareful, Original;
    stored := 0;
    ok := r.Commit(SetTotal(id, logical));
    if !ok { return; }
    ok := r.Transition(id, Verifying);
    if !ok { return; }
    if |r.d.jobs[id].ledger| != count {
      return 0, false;
    }
    stored, ok := VerifyObjects(r, r.d.jobs[id].ledger);
  }

  // Totals, verify pass, manifest last.
  method Publish(r: Runner, id: nat, g: Gen, entries: seq<FileEntry>, logical: nat, count: nat, ghost fit: bool)
    returns (ok: bool)
    requires r.Valid() && r.env.cart != "" && id in r.d.jobs && r.d.jobs[id].gen == Some(g) && g != ""
    requires r.d.dir == Some(Dir(r.F, None))
    requires entries == Entries(r.env.codec, Sorted(r.F.Keys), r.F)
    requires logical == |TarOf(r.env.t, r.F)| && count == Count(logical, r.d.c)
    requires ChunksPresent(r.d.bucket, r.d.jobs[id].ledger)
    requires fit ==>
              r.Sound() && (|r.d.jobs[id].ledger| == count ==> g in r.d.cut && count == Count(logical, r.d.cut[g]))
    modifies r
    ensures r.Valid() && (fit ==> r.Sound()) && old(r.hist) <= r.hist
    ensures id in r.d.jobs && r.d.jobs[id].ledger == old(r.d.jobs[id].ledger) && r.d.jobs[id].gen == Some(g)
    ensures r.d.jobs[id].total == old(r.d.jobs[id].total) || r.d.jobs[id].total == logical
    ensures r.d.bucket.chunks == old(r.d.bucket.chunks) && r.d.dir == old(r.d.dir)
    ensures r.d.c == old(r.d.c) && r.d.cut == old(r.d.cut)
    ensures ok ==> |r.d.jobs[id].ledger| == count && Announced(r.env, r.F, r.d, id, g)
    ensures r.faults >= old(r.faults) && (r.faults == old(r.faults) ==> (ok <==> old(|r.d.jobs[id].ledger|) == count))
    ensures Along(old(r.trail), [Verifying, Unvaulting, Done], r.trail, ok)
  {
    hide Inv, IsRun, IsCareful, Original, TarOf, Count, ChunksPresent, StoredSum;
    var stored;
    stored, ok := Seal(r, id, logical, count);
    if !ok { return; }
    CountPositive(logical, r.d.c, r.env.t, r.F);
    var at: int := *;
    var m := Manifest(MANIFEST_VERSION, r.env.cart, g, at, entries, r.d.jobs[id].ledger, logical, stored, count);
    ok := Announce(r, id, m);
    if !ok { return; }
    ok := Unvault(r, id);
  }

  // The announced manifest written out: one entry per file, in byte order, each with its
  // file's name, size, mode, time and hash; and the totals of what was read and stored.
  ghost predicate Accounted(env: Env, F: Files, d: Disk, g: Gen) {
    && g in d.bucket.manifests
    && var m := d.bucket.manifests[g];
       && m.version == 2 && m.gen == g && m.cart == env.cart && m.chunks != []
       && m.logical == |TarOf(env.t, F)| && m.count == |m.chunks|
       && m.stored == |Objects(d.bucket.chunks, m.chunks)|
       && RawSum(m.chunks, |m.chunks|) == |Plain(env.codec, d.bucket.chunks, m.chunks, |m.chunks|)|
       && |m.files| == |F| && (forall i, j :: 0 <= i < j < |m.files| ==> Before(m.files[i].name, m.files[j].name))
       && forall i :: 0 <= i < |m.files| ==>
            m.files[i].name in F && Describes(env.codec, m.files[i], F[m.files[i].name])
  }

  ghost predicate Describes(codec: Codec, e: FileEntry, f: File) {
    e.size == |f.data| && e.mode == f.meta.mode && e.mtime == f.meta.mtime && e.sum == codec.sum(f.data)
  }

  lemma AnnouncedAccounted(env: Env, F: Files, d: Disk, id: nat, g: Gen, cs: seq<Size>)
    requires env.codec.Lawful() && Announced(env, F, d, id, g)
    requires Mixed(env.codec, TarOf(env.t, F), g, cs, d.c, d.bucket.manifests[g].chunks, d.bucket.chunks)
    ensures Accounted(env, F, d, g)
  {
    hide Count, At, Plain, RawSum, Pieces, TarOf, Window;
    var m, names := d.bucket.manifests[g], Sorted(F.Keys);
    MixedDecodes(env.codec, TarOf(env.t, F), g, cs, d.c, m.chunks, d.bucket.chunks);
    MixedStored(env.codec, TarOf(env.t, F), g, cs, d.c, m.chunks, d.bucket.chunks);
    assert |F.Keys| == |F|;
    assert forall i :: 0 <= i < |names| ==> names[i] in F;
  }

  lemma MixedStored(codec: Codec, s: Bytes, g: Gen, cs: seq<Size>, c: Size, rows: seq<ChunkRow>,
                    objects: map<ChunkKey, Bytes>)
    requires Mixed(codec, s, g, cs, c, rows, objects)
    ensures StoredSum(rows) == |Objects(objects, rows)|
  {
    hide At, Window;
    forall i | 0 <= i < |rows| ensures rows[i].key in objects && |objects[rows[i].key]| == rows[i].stored {
      assert RowCut(codec, s, SizeAt(cs, c, i), g, i, rows[i], objects);
    }
    StoredIs(objects, rows);
  }

  lemma CountPositive(logical: nat, c: Size, t: Framing, F: Files)
    requires logical == |TarOf(t, F)|
    ensures Count(logical, c) > 0
  {
    CountBounds(logical, c, 0);
  }

  // What a ledger names is in the bucket, at the size the ledger says.
  lemma LedgerStored(env: Env, F: Files, d: Disk, id: nat)
    requires Inv(env, F, d) && id in d.jobs && d.jobs[id].gen.Some?
    ensures ChunksPresent(d.bucket, d.jobs[id].ledger)
  {
    hide TarOf, ManifestGood, Count;
    assert JobGood(env, F, d.cut, d.jobs[id], d.bucket.chunks);
    RowsStored(env, d.cut, TarOf(env.t, F), d.jobs[id].gen.value, d.jobs[id].ledger, d.bucket);
  }

  lemma RowsStored(env: Env, cut: map<Gen, Size>, tar: Bytes, g: Gen, rows: seq<ChunkRow>, b: Bucket)
    requires RowsBacked(env, cut, tar, g, rows, b.chunks)
    ensures ChunksPresent(b, rows)
  {
    hide Count, At, Window;
    forall i | 0 <= i < |rows| ensures rows[i].key in b.chunks && |b.chunks[rows[i].key]| == rows[i].stored {
      assert rows[i] == RowFor(env.codec, tar, cut[g], g, i);
    }
  }

  // The size the recorded rows of a job were cut with.
  function CutOf(d: Disk, g: Gen): Size {
    if g in d.cut then d.cut[g] else d.c
  }

  // On a sound history a ledger was cut with one size.
  lemma KeptRows(env: Env, F: Files, d: Disk, id: nat, g: Gen)
    requires Inv(env, F, d) && id in d.jobs && d.jobs[id].gen == Some(g)
    ensures var rows := d.jobs[id].ledger;
            && g != "" && (rows != [] ==> g in d.cut) && |rows| <= Count(|TarOf(env.t, F)|, CutOf(d, g))
            && Mixed(env.codec, TarOf(env.t, F), g, Same(CutOf(d, g), |rows|), d.c, rows, d.bucket.chunks)
  {
    hide TarOf, ManifestGood, Count, At;
    assert JobGood(env, F, d.cut, d.jobs[id], d.bucket.chunks);
    var rows, tar := d.jobs[id].ledger, TarOf(env.t, F);
    forall i | 0 <= i < |rows| ensures RowCut(env.codec, tar, CutOf(d, g), g, i, rows[i], d.bucket.chunks) {
      assert rows[i] == RowFor(env.codec, tar, d.cut[g], g, i);
    }
  }

  // A complete ledger of a fitting attempt lists its generation's whole partition.
  lemma Complete(env: Env, d: Disk, id: nat, g: Gen, tar: Bytes, cs: seq<Size>)
    requires id in d.jobs && d.jobs[id].gen == Some(g) && |tar| > 0
    requires Mixed(env.codec, tar, g, cs, d.c, d.jobs[id].ledger, d.bucket.chunks)
    ensures ChunksPresent(d.bucket, d.jobs[id].ledger)
    ensures Fit(d, g, |cs|, |tar|) && |d.jobs[id].ledger| == Count(|tar|, d.c) ==>
              g in d.cut && Count(|tar|, d.c) == Count(|tar|, d.cut[g])
  {
    hide Mixed, Count;
    MixedIndexed(env.codec, tar, g, cs, d.c, d.jobs[id].ledger, d.bucket.chunks);
    CountBounds(|tar|, d.c, 0);
  }

  lemma PublishedIsGood(env: Env, F: Files, d: Disk, g: Gen)
    requires Inv(env, F, d) && g in d.bucket.manifests
    ensures ManifestGood(env, F, d.cut, g, d.bucket.manifests[g], d.bucket.chunks)
  {
  }

  // newChunker, writeCartTar, Close: regenerate the tar and upload what is missing.
  method Stream(r: Runner, id: nat, g: Gen, names: seq<string>, skip: nat, ghost cs: seq<Size>, ghost fit: bool)
    returns (entries: seq<FileEntry>, logical: nat, count: nat, ok: bool, ghost sent: seq<ChunkResult>)
    requires r.Valid() && id in r.d.jobs && r.d.jobs[id].gen == Some(g) && skip == |r.d.jobs[id].ledger| == |cs|
    requires r.d.dir == Some(Dir(r.F, None)) && names == Sorted(r.F.Keys)
    requires Mixed(r.env.codec, TarOf(r.env.t, r.F), g, cs, r.d.c, r.d.jobs[id].ledger, r.d.bucket.chunks)
    requires fit ==> r.Sound() && Fit(r.d, g, skip, |TarOf(r.env.t, r.F)|)
    modifies r`d, r`hist, r`faults
    ensures r.Valid() && old(r.hist) <= r.hist && r.d.dir == old(r.d.dir) && r.d.c == old(r.d.c)
    ensures id in r.d.jobs && r.d.jobs[id].gen == Some(g) && old(r.d.jobs[id].ledger) <= r.d.jobs[id].ledger
    ensures r.d.jobs[id].total == old(r.d.jobs[id].total)
    ensures Mixed(r.env.codec, TarOf(r.env.t, r.F), g, cs, r.d.c, r.d.jobs[id].ledger, r.d.bucket.chunks)
    ensures fit ==> r.Sound() && Fit(r.d, g, skip, |TarOf(r.env.t, r.F)|)
    ensures ChunksOf(r.env.codec, TarOf(r.env.t, r.F), r.d.c, skip, sent)
    ensures ok ==> entries == Entries(r.env.codec, Sorted(r.F.Keys), r.F) && logical == |TarOf(r.env.t, r.F)|
    ensures ok ==>
              && count == Count(logical, r.d.c)
              && skip + |sent| == |r.d.jobs[id].ledger| == if count < skip then skip else count
    ensures r.faults >= old(r.faults) && (r.faults == old(r.faults) ==> ok)
  {
    hide Inv, IsRun, IsCareful, Original, Count, At, ChunksOf, FullChunks, Mixed, Fit;
    entries, logical, count := [], 0, 0;
    ghost var tar := TarOf(r.env.t, r.F);
    var up := new Upload(r, id, g, tar, cs, fit);
    var ck := new Chunker(r.env.codec, r.d.c, skip);
    entries, ok := WriteCartTar(ck, up, names, r.d.dir.value.files);
    sent := ck.calls;
    SentSoFar(ck, up);
    if !ok { return; }
    logical, count := ck.rawSeen, ck.idx + (if ck.curRaw > 0 then 1 else 0);
    ok := Close(ck, up);
    sent := ck.calls;
  }

  lemma NoChunksYet(codec: Codec, s: Bytes, c: Size, from: nat)
    ensures ChunksOf(codec, s, c, from, [])
  {
  }

  // The attempt does no harm: its size is the one its generation was cut with, or
  // nothing is recorded under it by anyone once the attempt has started, or nothing is
  // left to upload because both sizes cut the stream into just the chunks recorded.
  ghost predicate Fitting(d: Disk, id: nat, g: Gen, F: Files, n: nat)
    requires id in d.jobs
  {
    var k, j := StartOf(d.jobs[id], F), d.jobs[id];
    Fit(d.(jobs := d.jobs[id := j.(gen := Some(g), ledger := if k == 0 then [] else j.ledger)]), g, k, n)
  }

  lemma FittingIs(d0: Disk, d: Disk, id: nat, g: Gen, F: Files, n: nat)
    requires id in d0.jobs && id in d.jobs && d == d0.(jobs := d0.jobs[id := d.jobs[id]]) && d.jobs[id].gen == Some(g)
    requires d.jobs[id].ledger == d0.jobs[id].ledger[..StartOf(d0.jobs[id], F)]
    ensures Fitting(d0, id, g, F, n) <==> Fit(d, g, StartOf(d0.jobs[id], F), n)
  {
    hide Count, MediaBytes;
    var k, j := StartOf(d0.jobs[id], F), d0.jobs[id];
    var a := d0.(jobs := d0.jobs[id := j.(gen := Some(g), ledger := if k == 0 then [] else j.ledger)]);
    assert a.jobs[id].ledger == d.jobs[id].ledger;
    SameUse(a, d, g);
  }

  lemma SameUse(a: Disk, d: Disk, g: Gen)
    requires a.bucket == d.bucket && a.catalog == d.catalog && a.jobs.Keys == d.jobs.Keys
    requires forall id :: id in a.jobs ==> a.jobs[id].gen == d.jobs[id].gen && a.jobs[id].ledger == d.jobs[id].ledger
    ensures Unused(a, g) <==> Unused(d, g)
  {
  }

  // The published manifest decodes to the pieces its rows were cut to.
  ghost predicate Assembled(env: Env, d: Disk, g: Gen, tar: Bytes, sizes: seq<Size>) {
    && g in d.bucket.manifests && |d.bucket.manifests[g].chunks| == |sizes|
    && var rows := d.bucket.manifests[g].chunks;
       Plain(env.codec, d.bucket.chunks, rows, |rows|) == Pieces(tar, sizes, |sizes|)
  }

  // With two sizes: to what the resumed attempt made of the stream.
  ghost predicate Decoded(env: Env, d: Disk, g: Gen, tar: Bytes, c1: Size, k: nat) {
    && g in d.bucket.manifests && k <= Count(|tar|, c1)
    && var rows := d.bucket.manifests[g].chunks;
       && ResumedStream(tar, c1, d.c, k) == Some(Plain(env.codec, d.bucket.chunks, rows, |rows|))
       && (Plain(env.codec, d.bucket.chunks, rows, |rows|) == tar <==> Seamless(|tar|, c1, d.c, k))
  }

  // From the resume point on.
  method Attempt(r: Runner, id: nat, g: Gen, names: seq<string>, skip: nat, ghost cs: seq<Size>, ghost fit: bool)
    returns (ok: bool, ghost sent: seq<ChunkResult>)
    requires r.Valid() && r.env.codec.Lawful() && r.env.cart != "" && g != ""
    requires id in r.d.jobs && r.d.jobs[id].gen == Some(g) && skip == |r.d.jobs[id].ledger| == |cs|
    requires r.d.dir == Some(Dir(r.F, None)) && names == Sorted(r.F.Keys)
    requires Mixed(r.env.codec, TarOf(r.env.t, r.F), g, cs, r.d.c, r.d.jobs[id].ledger, r.d.bucket.chunks)
    requires fit ==> r.Sound() && Fit(r.d, g, skip, |TarOf(r.env.t, r.F)|)
    modifies r
    ensures r.Valid() && (fit ==> r.Sound()) && old(r.hist) <= r.hist && r.d.c == old(r.d.c)
    ensures id in r.d.jobs && r.d.jobs[id].gen == Some(g) && old(r.d.jobs[id].ledger) <= r.d.jobs[id].ledger
    ensures Mixed(r.env.codec, TarOf(r.env.t, r.F), g, cs, r.d.c, r.d.jobs[id].ledger, r.d.bucket.chunks)
    ensures r.d.dir == old(r.d.dir)
    ensures r.d.jobs[id].total == old(r.d.jobs[id].total) || r.d.jobs[id].total == |TarOf(r.env.t, r.F)|
    ensures ChunksOf(r.env.codec, TarOf(r.env.t, r.F), r.d.c, skip, sent)
    ensures ok ==> skip + |sent| == Count(|TarOf(r.env.t, r.F)|, r.d.c) == |r.d.jobs[id].ledger|
    ensures ok ==> Announced(r.env, r.F, r.d, id, g)
    ensures ok ==>
              Assembled(r.env, r.d, g, TarOf(r.env.t, r.F), Sizes(cs, r.d.c, Count(|TarOf(r.env.t, r.F)|, r.d.c)))
    ensures ok ==> Accounted(r.env, r.F, r.d, g)
    ensures ok && fit ==> Exported(r.env, r.F, r.d, id, g)
    ensures r.faults >= old(r.faults)
    ensures r.faults == old(r.faults) ==> (ok <==> skip <= Count(|TarOf(r.env.t, r.F)|, r.d.c))
    ensures Along(old(r.trail), [Verifying, Unvaulting, Done], r.trail, ok)
  {
    hide Inv, IsRun, IsCareful, Original, Count, At, ChunksOf, FullChunks, Mixed, Fit, Plain, TotalsRight, Decodes;
    hide Pieces, Accounted;
    ghost var tar := TarOf(r.env.t, r.F);
    var entries, logical, count;
    entries, logical, count, ok, sent := Stream(r, id, g, names, skip, cs, fit);
    if !ok { return; }
    Complete(r.env, r.d, id, g, tar, cs);
    ok := Publish(r, id, g, entries, logical, count, fit);
    if ok {
      MixedDecodes(r.env.codec, tar, g, cs, r.d.c, r.d.jobs[id].ledger, r.d.bucket.chunks);
      AnnouncedAccounted(r.env, r.F, r.d, id, g, cs);
      if fit { PublishedIsGood(r.env, r.F, r.d, g); }
    }
  }

  // What an attempt finds: the media resident or refused, and a ledger cut with the
  // sizes `cs`, its objects in place.
  ghost predicate Resumable(env: Env, F: Files, d: Disk, id: nat, cs: seq<Size>) {
    && LocalGood(F, d.dir) && id in d.jobs && |d.jobs[id].ledger| == |cs|
    && match d.jobs[id].gen
       case None => cs == []
       case Some(g) => g != "" && Mixed(env.codec, TarOf(env.t, F), g, cs, d.c, d.jobs[id].ledger, d.bucket.chunks)
  }

  lemma ResumableIndexed(env: Env, F: Files, d: Disk, id: nat, cs: seq<Size>)
    requires Resumable(env, F, d, id, cs)
    ensures Indexed(d.jobs[id].ledger)
  {
    hide Mixed;
    if d.jobs[id].gen.Some? {
      var g := d.jobs[id].gen.value;
      MixedIndexed(env.codec, TarOf(env.t, F), g, cs, d.c, d.jobs[id].ledger, d.bucket.chunks);
    }
  }

  // A job whose rows stay, or go, is as resumable as it was.
  lemma StillResumable(env: Env, F: Files, d0: Disk, d: Disk, id: nat, cs: seq<Size>, k: nat)
    requires Resumable(env, F, d0, id, cs) && id in d.jobs && d == d0.(jobs := d.jobs) && k <= |cs|
    requires d.jobs[id].ledger == d0.jobs[id].ledger[..k]
    requires || d.jobs[id].gen == d0.jobs[id].gen
             || (d0.jobs[id].gen.None? && d.jobs[id].gen.Some? && d.jobs[id].gen.value != "")
    ensures Resumable(env, F, d, id, cs[..k])
  {
    hide RowCut, TarOf;
    if d0.jobs[id].gen.Some? {
      var g, tar, rows := d0.jobs[id].gen.value, TarOf(env.t, F), d0.jobs[id].ledger;
      forall i | 0 <= i < k
        ensures RowCut(env.codec, tar, SizeAt(cs[..k], d.c, i), g, i, rows[..k][i], d.bucket.chunks)
      {
        assert RowCut(env.codec, tar, SizeAt(cs, d.c, i), g, i, rows[i], d0.bucket.chunks);
      }
    }
  }

  // One attempt, whatever sizes its ledger was cut with before; `sizes` are those after
  // it. `sent` is what the chunker handed to the sink: consecutive chunks from the resume
  // point, and all the missing ones when it succeeds. A published manifest decodes to
  // just the pieces those sizes make.
  method AnyExport(r: Runner, id: nat, stamp: string, ghost cs: seq<Size>)
    returns (ok: bool, ghost sent: seq<ChunkResult>, ghost sizes: seq<Size>)
    requires r.Valid() && Original(r.env, r.F) && Resumable(r.env, r.F, r.d, id, cs)
    modifies r
    ensures r.Valid() && old(r.hist) <= r.hist && r.d.c == old(r.d.c) && r.d.dir == old(r.d.dir)
    ensures Resumable(r.env, r.F, r.d, id, sizes) && id in r.d.jobs && |r.d.jobs[id].ledger| == |sizes|
    ensures old(r.d.jobs[id].gen).Some? ==> r.d.jobs[id].gen == old(r.d.jobs[id].gen)
    ensures || sizes == Sizes(cs, r.d.c, |sizes|)
            || (StartOf(old(r.d.jobs[id]), r.F) == 0 && sizes == Same(r.d.c, |sizes|))
    ensures var k, n := StartOf(old(r.d.jobs[id]), r.F), |TarOf(r.env.t, r.F)|;
            && ChunksOf(r.env.codec, TarOf(r.env.t, r.F), r.d.c, k, sent)
            && (ok ==> k + |sent| == Count(n, r.d.c) == |r.d.jobs[id].ledger|)
            && (ok ==> sizes == Sizes(cs[..k], r.d.c, |sizes|))
            && (old(r.d.jobs[id].ledger) <= r.d.jobs[id].ledger || k == 0)
    ensures ok ==>
              var g := GenOf(old(r.d.jobs[id]), stamp);
              && Announced(r.env, r.F, r.d, id, g) && Assembled(r.env, r.d, g, TarOf(r.env.t, r.F), sizes)
              && Accounted(r.env, r.F, r.d, g)
    // The resume point: a ledger recorded under today's total is kept and continued, any
    // other is cleared and the stream sent from its first chunk.
    ensures var j := old(r.d.jobs[id]);
            && (j.ledger == [] || j.total == MediaBytes(r.F) ==>
                  j.ledger <= r.d.jobs[id].ledger
                  && forall i :: 0 <= i < |sent| ==>
                       Sent(r.env.codec, TarOf(r.env.t, r.F), r.d.c, |j.ledger| + i, sent[i]))
            && (j.ledger != [] && j.total != MediaBytes(r.F) ==>
                  forall i :: 0 <= i < |sent| ==> Sent(r.env.codec, TarOf(r.env.t, r.F), r.d.c, i, sent[i]))
    ensures (old(r.Sound())
             && (!old(Unmarked(r.d))
                 || Fitting(old(r.d), id, GenOf(old(r.d.jobs[id]), stamp), r.F, |TarOf(r.env.t, r.F)|))) ==>
              r.Sound() && (ok ==> Exported(r.env, r.F, r.d, id, GenOf(old(r.d.jobs[id]), stamp)))
    // The total recorded after the stream is never the one asked for before it: an
    // attempt that ended after its stream completed is never resumed.
    ensures r.d.jobs[id].total == |TarOf(r.env.t, r.F)| ==> StartOf(r.d.jobs[id], r.F) == 0
    // Nothing failing, an attempt succeeds exactly on a cart with unevicted media and no
    // more chunks recorded than the present size makes.
    ensures r.faults >= old(r.faults)
    ensures r.faults == old(r.faults) ==>
              (ok <==> old(Unmarked(r.d)) && r.F != map[]
                       && StartOf(old(r.d.jobs[id]), r.F) <= Count(|TarOf(r.env.t, r.F)|, r.d.c))
    ensures Along(old(r.trail), [Quiescing, State.Chunking, Verifying, Unvaulting, Done], r.trail, ok)
  {
    hide Inv, IsRun, IsCareful, Count, At, ChunksOf, FullChunks, Mixed, Fit, Plain, Pieces;
    hide Announced, Assembled, Fitting, Exported, Accounted, Sent;
    sent, sizes := [], cs;
    ghost var d0, k, n := r.d, StartOf(r.d.jobs[id], r.F), |TarOf(r.env.t, r.F)|;
    NoChunksYet(r.env.codec, TarOf(r.env.t, r.F), r.d.c, k);
    StreamedTotalForcesRestart(r.env, r.F);
    ResumableIndexed(r.env, r.F, r.d, id, cs);
    var g, names, skip;
    g, names, skip, ok := Prepare(r, id, stamp);
    ghost var kept := |r.d.jobs[id].ledger|;
    StillResumable(r.env, r.F, d0, r.d, id, cs, kept);
    sizes := cs[..kept];
    if !ok { return; }
    FittingIs(d0, r.d, id, g, r.F, n);
    ok, sent := Attempt(r, id, g, names, skip, sizes, old(r.Sound()) && Fit(r.d, g, skip, n));
    ChunksAre(r.env.codec, TarOf(r.env.t, r.F), r.d.c, skip, sent);
    MixedNow(r.env.codec, TarOf(r.env.t, r.F), g, sizes, r.d.c, r.d.jobs[id].ledger, r.d.bucket.chunks, r.d.c);
    sizes := Sizes(sizes, r.d.c, |r.d.jobs[id].ledger|);
  }

  // On a sound history the ledger was cut with one size: a published manifest decodes to
  // the tar exactly when the seam fits, and a fitting attempt leaves the history sound.
  method RunExport(r: Runner, id: nat, stamp: string) returns (ok: bool, ghost sent: seq<ChunkResult>)
    requires r.Sound() && id in r.d.jobs
    modifies r
    ensures r.Valid() && old(r.hist) <= r.hist && id in r.d.jobs && r.d.c == old(r.d.c)
    ensures var k, n := StartOf(old(r.d.jobs[id]), r.F), |TarOf(r.env.t, r.F)|;
            && ChunksOf(r.env.codec, TarOf(r.env.t, r.F), r.d.c, k, sent)
            && (ok ==> k + |sent| == Count(n, r.d.c) == |r.d.jobs[id].ledger|)
            && (old(r.d.jobs[id].ledger) <= r.d.jobs[id].ledger || k == 0)
    ensures ok ==>
              var g, k := GenOf(old(r.d.jobs[id]), stamp), StartOf(old(r.d.jobs[id]), r.F);
              && Announced(r.env, r.F, r.d, id, g) && Accounted(r.env, r.F, r.d, g) && (k == 0 || g in old(r.d.cut))
              && Decoded(r.env, r.d, g, TarOf(r.env.t, r.F), CutOf(old(r.d), g), k)
    ensures (!old(Unmarked(r.d))
             || Fitting(old(r.d), id, GenOf(old(r.d.jobs[id]), stamp), r.F, |TarOf(r.env.t, r.F)|)) ==>
              r.Sound() && (ok ==> Exported(r.env, r.F, r.d, id, GenOf(old(r.d.jobs[id]), stamp)))
    ensures r.d.jobs[id].total == |TarOf(r.env.t, r.F)| ==> StartOf(r.d.jobs[id], r.F) == 0
    ensures r.faults >= old(r.faults)
    ensures r.faults == old(r.faults) ==>
              (ok <==> old(Unmarked(r.d)) && r.F != map[]
                       && StartOf(old(r.d.jobs[id]), r.F) <= Count(|TarOf(r.env.t, r.F)|, r.d.c))
    // The job's states come in this order, and none is left out of a finished export.
    ensures Along(old(r.trail), [Quiescing, State.Chunking, Verifying, Unvaulting, Done], r.trail, ok)
  {
    hide Inv, IsRun, IsCareful, Count, At, ChunksOf;
    hide Announced, Assembled, Decoded, Fitting, Exported, Resumable, Pieces, Accounted;
    ghost var d0, k, g := r.d, StartOf(r.d.jobs[id], r.F), GenOf(r.d.jobs[id], stamp);
    SoundResumable(r.env, r.F, r.d, id, g);
    ghost var sizes;
    ok, sent, sizes := AnyExport(r, id, stamp, Same(CutOf(d0, g), |d0.jobs[id].ledger|));
    if ok { OneSizeBefore(r.env, r.d, g, TarOf(r.env.t, r.F), CutOf(d0, g), k, |d0.jobs[id].ledger|, sizes); }
  }

  lemma SoundResumable(env: Env, F: Files, d: Disk, id: nat, g: Gen)
    requires Inv(env, F, d) && id in d.jobs && (d.jobs[id].gen.Some? ==> d.jobs[id].gen == Some(g))
    ensures Resumable(env, F, d, id, Same(CutOf(d, g), |d.jobs[id].ledger|))
    ensures |d.jobs[id].ledger| <= Count(|TarOf(env.t, F)|, CutOf(d, g))
    ensures d.jobs[id].ledger != [] ==> g in d.cut
  {
    hide TarOf, ManifestGood, RowsBacked, Mixed, Count;
    assert JobGood(env, F, d.cut, d.jobs[id], d.bucket.chunks);
    if d.jobs[id].gen.Some? { KeptRows(env, F, d, id, g); }
  }

  lemma OneSizeBefore(env: Env, d: Disk, g: Gen, tar: Bytes, c1: Size, k: nat, m: nat, sizes: seq<Size>)
    requires Assembled(env, d, g, tar, sizes) && k <= m <= Count(|tar|, c1) && k <= |sizes| == Count(|tar|, d.c)
    requires sizes == Sizes(Same(c1, m)[..k], d.c, |sizes|)
    ensures Decoded(env, d, g, tar, c1, k)
  {
    hide Count, Pieces, Plain;
    assert Same(c1, m)[..k] == Same(c1, k);
    TwoSizesDecode(tar, c1, d.c, k);
  }

  // Any number of attempts, each under another size, of a job with whatever was recorded
  // before: the sizes a published manifest's chunks were cut with are all among those, and
  // it decodes to the tar when every chunk starts where the one before it ended, the end
  // of the tar counting as a chunk of the last size - and only then, if the size only ever
  // went one way.
  method Attempts(r: Runner, id: nat, stamp: string, daemons: seq<Size>, ghost cs: seq<Size>)
    returns (ok: bool, ghost g: Gen, ghost sizes: seq<Size>)
    requires r.Valid() && Original(r.env, r.F) && Resumable(r.env, r.F, r.d, id, cs)
    modifies r
    ensures r.Valid() && old(r.hist) <= r.hist && Resumable(r.env, r.F, r.d, id, sizes)
    ensures forall i :: 0 <= i < |sizes| ==> sizes[i] in cs + daemons
    ensures ok ==>
              var tar := TarOf(r.env.t, r.F);
              && Announced(r.env, r.F, r.d, id, g) && Assembled(r.env, r.d, g, tar, sizes)
              && var rows, all := r.d.bucket.manifests[g].chunks, sizes + [r.d.c];
                 var plain := Plain(r.env.codec, r.d.bucket.chunks, rows, |rows|);
                 && (Seams(|tar|, all, |all|) ==> plain == tar)
                 && (OneWay(all) ==> (plain == tar <==> Seams(|tar|, all, |all|)))
  {
    hide IsRun, IsCareful, Original, Announced, Assembled, Resumable, Pieces, Seams, TarOf, Plain, Count;
    ok, g, sizes := false, "", cs;
    var i := 0;
    while i < |daemons|
      invariant i <= |daemons| && r.Valid() && old(r.hist) <= r.hist && Original(r.env, r.F)
      invariant Resumable(r.env, r.F, r.d, id, sizes)
      invariant forall j :: 0 <= j < |sizes| ==> sizes[j] in cs + daemons
    {
      SizeForgotten(r.env, r.F, r.d, id, sizes, daemons[i]);
      var restarted := r.Commit(Restart(daemons[i]));
      if restarted {
        g := GenOf(r.d.jobs[id], stamp);
        ghost var sent;
        ok, sent, sizes := AnyExport(r, id, stamp, sizes);
        if ok {
          Reaches(r.env, r.d, g, TarOf(r.env.t, r.F), sizes);
          return;
        }
      }
      i := i + 1;
    }
  }

  // With every row's size known, the daemon's own no longer matters.
  lemma SizeForgotten(env: Env, F: Files, d: Disk, id: nat, cs: seq<Size>, c: Size)
    requires Resumable(env, F, d, id, cs)
    ensures Resumable(env, F, d.(c := c), id, cs) && id in d.jobs
  {
    hide RowCut, TarOf;
    var j, tar := d.jobs[id], TarOf(env.t, F);
    if j.gen.Some? {
      forall i | 0 <= i < |j.ledger|
        ensures RowCut(env.codec, tar, SizeAt(cs, c, i), j.gen.value, i, j.ledger[i], d.bucket.chunks)
      {
        assert RowCut(env.codec, tar, SizeAt(cs, d.c, i), j.gen.value, i, j.ledger[i], d.bucket.chunks);
      }
    }
  }

  lemma Reaches(env: Env, d: Disk, g: Gen, tar: Bytes, sizes: seq<Size>)
    requires Assembled(env, d, g, tar, sizes) && |sizes| == Count(|tar|, d.c)
    ensures var rows, all := d.bucket.manifests[g].chunks, sizes + [d.c];
            var plain := Plain(env.codec, d.bucket.chunks, rows, |rows|);
            && (Seams(|tar|, all, |all|) ==> plain == tar)
            && (OneWay(all) ==> (plain == tar <==> Seams(|tar|, all, |all|)))
  {
    hide Pieces, Seams, Plain, Count, OneWay;
    PiecesIntact(tar, sizes, d.c);
  }
}
