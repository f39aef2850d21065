// What a change of -chunk-bytes between two attempts of one export can cost.
module ChunkSizes {
  import opened Options
  import opened Streams
  import opened Names
  import opened Chunking
  import opened Tar
  import opened Manifests
  import opened Pipeline

  // The day: a job records one chunk of one byte; the daemon comes back with chunks of
  // all bytes but one; the job resumes at chunk 1, the last byte, and publishes; the
  // cart is evicted, its media file f first.
  datatype Day = Day(env: Env, F: Files, g: Gen, total: nat, f: string) {
    ghost predicate Possible() {
      Original(env, F) && g != "" && f in F && MediaFile(f)
    }

    ghost function Stream(): (s: Bytes)
      ensures |s| >= 2 * BLOCK
    {
      TarOf(env.t, F)
    }

    ghost function Coarse(): Size {
      |Stream()| - 1
    }

    ghost function First(): ChunkRow {
      RowFor(env.codec, Stream(), 1, g, 0)
    }

    ghost function Last(): ChunkRow
      requires At(1, Coarse()) <= |Stream()|
    {
      RowFor(env.codec, Stream(), Coarse(), g, 1)
    }

    ghost function Objects(): map<ChunkKey, Bytes>
      requires At(1, Coarse()) <= |Stream()|
    {
      map[ChunkKey(g, 0) := ResultOf(env.codec, Stream(), 1, 0).staged,
          ChunkKey(g, 1) := ResultOf(env.codec, Stream(), Coarse(), 1).staged]
    }

    ghost function Listing(): Manifest
      requires At(1, Coarse()) <= |Stream()|
    {
      var rows := [First(), Last()];
      var files := Entries(env.codec, Sorted(F.Keys), F);
      Manifest(MANIFEST_VERSION, env.cart, g, 0, files, rows, |Stream()|, StoredSum(rows), 2)
    }

    ghost function Fresh(): Disk {
      Disk(Some(Dir(F, None)), None, None, Bucket(map[], map[]), map[], map[], false, None, 1, map[])
    }

    ghost function Row(ledger: seq<ChunkRow>): Job {
      Job(Export, Way(false, false), Detected, Some(g), total, ledger)
    }

    ghost function Recorded(): Disk {
      Fresh().(bucket := Bucket(map[ChunkKey(g, 0) := ResultOf(env.codec, Stream(), 1, 0).staged], map[]),
               jobs := map[0 := Row([First()])], cut := map[g := 1])
    }

    ghost function Finished(): Disk
      requires At(1, Coarse()) <= |Stream()|
    {
      Fresh().(bucket := Bucket(Objects(), map[]), jobs := map[0 := Row([First(), Last()])],
               c := Coarse(), cut := map[g := Coarse()])
    }

    ghost function Published(): Disk
      requires At(1, Coarse()) <= |Stream()|
    {
      Finished().(bucket := Bucket(Objects(), map[g := Listing()]))
    }

    ghost function Gone(): Disk
      requires At(1, Coarse()) <= |Stream()|
    {
      Published().(dir := Some(Dir(F - {f}, Some(g))))
    }
  }

  lemma TwoChunks(day: Day)
    ensures At(1, day.Coarse()) == day.Coarse() && Count(|day.Stream()|, day.Coarse()) == 2
    ensures Count(|day.Stream()|, 1) > 1
  {
    var n, c := |day.Stream()|, day.Coarse();
    assert At(1, c) == c && At(2, c) == At(1, c) + c && At(1, 1) == 1;
    CountBounds(n, c, 1);
    CountBounds(n, c, 2);
    CountBounds(n, 1, 1);
  }

  lemma Joined(env: Env, a: seq<Disk>, b: seq<Disk>)
    requires IsRun(env, a) && IsRun(env, b) && Next(env, a[|a| - 1], b[0])
    ensures IsRun(env, a + b)
  {
    hide Next;
    var h := a + b;
    forall k | 0 < k < |h| ensures Next(env, h[k - 1], h[k]) {
      if k < |a| {
        assert h[k - 1] == a[k - 1] && h[k] == a[k];
      } else if k > |a| {
        assert h[k - 1] == b[k - 1 - |a|] && h[k] == b[k - |a|];
      }
    }
  }

  lemma Step(env: Env, a: Action, d: Disk, e: Disk)
    requires Enabled(env, a, d) && e == Apply(env, a, d)
    ensures Next(env, d, e)
  {
  }

  // From the first day to the first recorded chunk.
  lemma FirstAttempt(day: Day) returns (h: seq<Disk>)
    requires day.Possible()
    ensures IsRun(day.env, h) && h[0] == day.Fresh() && h[|h| - 1] == day.Recorded()
  {
    hide TarOf, Count, Next;
    var env, g, d0 := day.env, day.g, day.Fresh();
    var d1 := d0.(jobs := map[0 := Job(Export, Way(false, false), Detected, None, 0, [])]);
    Step(env, CreateJob(0, Export, Way(false, false), None), d0, d1);
    var d2 := d0.(jobs := map[0 := Job(Export, Way(false, false), Detected, Some(g), 0, [])]);
    Step(env, SetGen(0, g), d1, d2);
    var d3 := d0.(jobs := map[0 := day.Row([])]);
    Step(env, SetTotal(0, day.total), d2, d3);
    var d4 := FirstChunk(day, d3);
    h := [d0, d1, d2, d3, d4, day.Recorded()];
  }

  lemma FirstChunk(day: Day, d3: Disk) returns (d4: Disk)
    requires day.Possible() && d3 == day.Fresh().(jobs := map[0 := day.Row([])])
    ensures Next(day.env, d3, d4) && Next(day.env, d4, day.Recorded())
  {
    hide TarOf, Count, Window;
    TwoChunks(day);
    var env, g := day.env, day.g;
    var blob := ResultOf(env.codec, day.Stream(), 1, 0).staged;
    d4 := d3.(bucket := Bucket(map[ChunkKey(g, 0) := blob], map[]), cut := map[g := 1]);
    assert d3.bucket.chunks[ChunkKey(g, 0) := blob] == map[ChunkKey(g, 0) := blob];
    Step(env, PutChunk(g, 0, blob), d3, d4);
    assert Upsert([], day.First()) == [day.First()];
    assert d4.jobs[0 := day.Row([day.First()])] == map[0 := day.Row([day.First()])];
    Step(env, Record(0, day.First()), d4, day.Recorded());
  }

  // From the restart to the last recorded chunk.
  lemma SecondAttempt(day: Day) returns (h: seq<Disk>)
    requires day.Possible() && At(1, day.Coarse()) <= |day.Stream()|
    ensures IsRun(day.env, h) && h[|h| - 1] == day.Finished()
    ensures Next(day.env, day.Recorded(), h[0])
  {
    hide TarOf, Count, Window;
    TwoChunks(day);
    var env, g, c := day.env, day.g, day.Coarse();
    var d5 := day.Recorded();
    var d6 := d5.(c := c);
    Step(env, Restart(c), d5, d6);
    var blob := ResultOf(env.codec, day.Stream(), c, 1).staged;
    var d7 := d6.(bucket := Bucket(day.Objects(), map[]), cut := map[g := c]);
    assert d6.bucket.chunks[ChunkKey(g, 1) := blob] == day.Objects();
    assert d6.cut[g := c] == map[g := c];
    Step(env, PutChunk(g, 1, blob), d6, d7);
    assert Upsert([day.First()], day.Last()) == [day.First(), day.Last()] by {
      UpsertAppends([day.First()], day.Last());
    }
    Step(env, Record(0, day.Last()), d7, day.Finished());
    h := [d6, d7, day.Finished()];
  }

  lemma Publication(day: Day)
    requires day.Possible() && At(1, day.Coarse()) <= |day.Stream()|
    ensures Next(day.env, day.Finished(), day.Published())
  {
    hide TarOf, Count, Window, Entries, RowFor;
    TwoChunks(day);
    Present(day);
    var m, d := day.Listing(), day.Finished();
    assert d.jobs[0].gen == Some(m.gen) && m.chunks == d.jobs[0].ledger;
    assert d.dir.value.files == day.F && TotalsRight(m, |day.Stream()|);
    assert |m.chunks| == Count(|TarOf(day.env.t, d.dir.value.files)|, d.c);
    assert map[][day.g := m] == map[day.g := m];
    Step(day.env, PutManifest(0, m), d, day.Published());
  }

  lemma Present(day: Day)
    requires At(1, day.Coarse()) <= |day.Stream()|
    ensures ChunksPresent(Bucket(day.Objects(), map[]), day.Listing().chunks)
  {
    hide TarOf, Window;
  }

  // The gate passes and the media file goes.
  lemma Eviction(day: Day) returns (h: seq<Disk>)
    requires day.Possible() && At(1, day.Coarse()) <= |day.Stream()|
    ensures IsRun(day.env, h) && Next(day.env, day.Published(), h[0]) && h[|h| - 1] == day.Gone()
  {
    hide TarOf, Count, Window, RowFor, MediaFile;
    var d9 := day.Published();
    Present(day);
    Sized(day.env.codec, day.F);
    var d10 := d9.(dir := Some(Dir(day.F, Some(day.g))));
    Step(day.env, WriteMarker(day.g), d9, d10);
    Step(day.env, Delete(day.f), d10, day.Gone());
    h := [d10, day.Gone()];
  }

  lemma Sized(codec: Codec, F: Files)
    ensures var e := Entries(codec, Sorted(F.Keys), F);
            forall i :: 0 <= i < |e| ==> (if e[i].name in F then |F[e[i].name].data| else 0) == e[i].size
  {
    var names := Sorted(F.Keys);
    assert forall i :: 0 <= i < |names| ==> names[i] in F;
  }

  // Two bytes are no archive.
  lemma TooShort(t: Framing, s: Bytes)
    requires 0 < |s| < BLOCK
    ensures Unpack(t, s, 0) == None
  {
  }

  // What the published chunks decode to.
  lemma TwoBytes(day: Day)
    requires day.Possible() && At(1, day.Coarse()) <= |day.Stream()|
    ensures |Plain(day.env.codec, day.Objects(), day.Listing().chunks, 2)| == 2
  {
    hide TarOf;
    var codec, s, c := day.env.codec, day.Stream(), day.Coarse();
    var rows, objects := day.Listing().chunks, day.Objects();
    TwoChunks(day);
    assert At(1, 1) == 1 && At(2, c) == 2 * c;
    assert codec.dec(codec.enc(Window(s, 1, 0))) == Decoded(Window(s, 1, 0), true);
    assert codec.dec(codec.enc(Window(s, c, 1))) == Decoded(Window(s, c, 1), true);
    assert Plain(codec, objects, rows, 2) == Plain(codec, objects, rows, 1) + Window(s, c, 1);
    assert Plain(codec, objects, rows, 1) == Plain(codec, objects, rows, 0) + Window(s, 1, 0);
  }

  lemma NothingLeft(day: Day)
    requires day.Possible() && At(1, day.Coarse()) <= |day.Stream()|
    ensures !Recoverable(day.env, day.F, day.Gone())
  {
    hide TarOf, Plain, RowFor, Window, Unpack, Staged, Matches, Checked;
    TwoBytes(day);
    TooShort(day.env.t, Plain(day.env.codec, day.Objects(), day.Listing().chunks, 2));
  }

  // For every cart with a media file there is such a run: every effect enabled by the
  // program's own checks, starting with the media in place, and nothing left at the end
  // that could restore them.
  lemma CarelessRunLosesMedia(day: Day)
    requires day.Possible()
    ensures exists h :: IsRun(day.env, h) && Init(day.F, h[0]) && !Recoverable(day.env, day.F, h[|h| - 1])
  {
    hide IsRun, Next, TarOf, Recoverable;
    TwoChunks(day);
    var a := FirstAttempt(day);
    var b := SecondAttempt(day);
    Publication(day);
    var c := Eviction(day);
    NothingLeft(day);
    Together(day.env, a, b, day.Published(), c);
    var h := a + b + [day.Published()] + c;
    assert IsRun(day.env, h) && Init(day.F, h[0]) && !Recoverable(day.env, day.F, h[|h| - 1]);
  }

  lemma Together(env: Env, a: seq<Disk>, b: seq<Disk>, d: Disk, c: seq<Disk>)
    requires IsRun(env, a) && IsRun(env, b) && IsRun(env, c)
    requires Next(env, a[|a| - 1], b[0]) && Next(env, b[|b| - 1], d) && Next(env, d, c[0])
    ensures IsRun(env, a + b + [d] + c) && |a| > 0 && |c| > 0
  {
    hide Next;
    Joined(env, a, b);
    Joined(env, a + b, [d]);
    Joined(env, a + b + [d], c);
  }
}
