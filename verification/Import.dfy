// import.go: runImport, for the cart's own export or another system's, back into its
// place or into a chosen library.
module Imports {
  import opened Options
  import opened Streams
  import opened Tar
  import opened Manifests
  import opened ChunkStreams
  import opened Pipeline
  import opened Runners
  import opened Chunking

  datatype Got = Got(size: nat, sum: Digest)

  // The manifest an import goes by: catalog cache first, and for this system's exports
  // the bucket as fallback.
  function Source(d: Disk, g: Gen, foreign: bool): Option<Manifest> {
    var m := if g in d.catalog then Some(d.catalog[g])
             else if !foreign && g in d.bucket.manifests then Some(d.bucket.manifests[g]) else None;
    if m.Some? && Decodes(m.value) then m else None
  }

  method FetchManifest(r: Runner, g: Gen, foreign: bool) returns (m: Option<Manifest>)
    requires r.Valid()
    modifies r`d, r`hist, r`faults
    ensures r.Valid() && (old(r.Sound()) ==> r.Sound()) && r.Steady()
    ensures r.d == old(r.d).(catalog := r.d.catalog)
    ensures m.Some? ==> Known(r.d.bucket, r.d.catalog, m.value) && Decodes(m.value) && m == Source(old(r.d), g, foreign)
    ensures r.faults >= old(r.faults) && (r.faults == old(r.faults) ==> m == Source(old(r.d), g, foreign))
    // What came from the bucket is cached; nothing else is.
    ensures r.faults == old(r.faults) ==>
              r.d.catalog == if m.Some? && g !in old(r.d.catalog) then old(r.d.catalog)[m.value.gen := m.value]
                             else old(r.d.catalog)
  {
    hide Inv, IsRun, IsCareful, Original;
    if g in r.d.catalog {
      var cached := r.d.catalog[g];
      return if Decodes(cached) then Some(cached) else None;
    }
    if foreign { return None; }   // rebuild the catalog first
    var reachable := r.Io();
    if !reachable || g !in r.d.bucket.manifests || !Decodes(r.d.bucket.manifests[g]) {
      return None;
    }
    var fetched := r.d.bucket.manifests[g];
    var cachedOk := r.Commit(CacheManifest(fetched));   // best effort
    assert g in r.d.bucket.manifests && r.d.bucket.manifests[g] == fetched;
    m := Some(fetched);
  }

  // Every listed file is there with its size and hash, and no other file is.
  ghost predicate AsListed(codec: Codec, m: Manifest, files: Files) {
    && |files| == |m.files| && (forall n :: n in files ==> '/' !in n)
    && forall i :: 0 <= i < |m.files| ==>
         var e := m.files[i];
         e.name in files && |files[e.name].data| == e.size && codec.sum(files[e.name].data) == e.sum
  }

  lemma ExtractedListed(env: Env, objects: map<ChunkKey, Bytes>, m: Manifest, files: Files)
    requires Extracted(env, objects, m, files)
    ensures AsListed(env.codec, m, files)
  {
    hide Unpack, Staged, Plain, Checked;
    var plain := Plain(env.codec, objects, m.chunks, |m.chunks|);
    UnpackedPlain(env.t, plain, 0);
    StagedNames(Unpack(env.t, plain, 0).value);
  }

  // The entry's file did not come out as it says.
  ghost predicate Differs(codec: Codec, e: FileEntry, files: Files) {
    e.name !in files || |files[e.name].data| != e.size || codec.sum(files[e.name].data) != e.sum
  }

  // What an import must never let through: no generation, no manifest to be had, one of
  // another version or cart, resident media in the way, a chunk missing or spoilt, or
  // chunks that unpack to anything but the files listed.
  ghost predicate Refused(env: Env, d: Disk, id: nat)
    requires id in d.jobs
  {
    var way := d.jobs[id].way;
    match d.jobs[id].gen
    case None => true
    case Some(g) =>
      || (g !in d.catalog && (way.foreign || g !in d.bucket.manifests))
      || (d.dir.Some? && !way.targeted && d.dir.value.marker == None
          && exists n :: n in d.dir.value.files && "data." <= n && d.dir.value.files[n].data != [])
      || Unfit(env, d.bucket.chunks, if g in d.catalog then d.catalog[g] else d.bucket.manifests[g])
  }

  ghost predicate Unfit(env: Env, objects: map<ChunkKey, Bytes>, m: Manifest) {
    || m.version != 2 || m.cart == "" || m.cart != env.cart || m.gen == "" || m.chunks == []
    || (exists i :: 0 <= i < |m.chunks| && Spoilt(env.codec, objects, m.chunks[i]))
    || match Unpack(env.t, Plain(env.codec, objects, m.chunks, |m.chunks|), 0)
       case None => true
       case Some(es) =>
         |Staged(es)| != |m.files| || exists i :: 0 <= i < |m.files| && Differs(env.codec, m.files[i], Staged(es))
  }

  ghost predicate Spoilt(codec: Codec, objects: map<ChunkKey, Bytes>, row: ChunkRow) {
    row.key !in objects || codec.sum(objects[row.key]) != row.sum
  }

  // A manifest that is admitted and extracts is none of that.
  lemma NotRefused(env: Env, d: Disk, id: nat, m: Manifest, files: Files)
    requires id in d.jobs && d.jobs[id].gen.Some?
    requires Some(m) == Source(d, d.jobs[id].gen.value, d.jobs[id].way.foreign) && m.cart == env.cart
    requires d.dir.Some? ==> d.jobs[id].way.targeted || !Resident(d.dir.value)
    requires Extracted(env, d.bucket.chunks, m, files)
    ensures !Refused(env, d, id)
  {
    hide Unpack, Staged, Plain;
  }

  // Resident data refuses an import: a non-empty data.* file without a marker.
  predicate Resident(x: Dir) {
    x.marker.None? && exists n :: n in x.files && "data." <= n && |x.files[n].data| > 0
  }

  // What the extraction bookkeeping says about the staged files.
  predicate Agrees(codec: Codec, got: map<string, Got>, s: Files) {
    got.Keys == s.Keys && forall n :: n in s ==> got[n] == Got(|s[n].data|, codec.sum(s[n].data))
  }

  lemma AgreesAfter(codec: Codec, got: map<string, Got>, s: Files, n: string, f: File)
    requires Agrees(codec, got, s)
    ensures Agrees(codec, got[n := Got(|f.data|, codec.sum(f.data))], s[n := f])
  {
  }

  datatype Turned = ArchiveDone | StagedOne | Broken

  // What a turn makes of a stream that starts with a member's header.
  lemma MemberRead(t: Framing, s: Bytes, pad: nat, m: Member, body: Bytes)
    requires pad <= |s|
    requires var h := ScanHeader(t, s[pad..], 0); h.Found? && h.member == m && body == s[pad..][h.used..]
    ensures ReadMember(t, s, pad) ==
            if !m.regular || '/' in m.name || m.size > |body| then Turn.Failed
            else Took(Extract(m, body[..m.size]), body[m.size..], Padding(m.size))
  {
    hide ScanHeader, Padding;
  }

  // The next member, whole, or the end of the archive.
  method TakeMember(tr: TarReader) returns (st: Turned, e: Extract)
    requires tr.Valid()
    modifies tr, tr.cs
    ensures st == ArchiveDone ==> tr.Valid() && ReadMember(tr.t, old(tr.Rest()), old(tr.pad)) == AtEnd(tr.Rest())
    ensures st == StagedOne ==>
              tr.Valid() && ReadMember(tr.t, old(tr.Rest()), old(tr.pad)) == Took(e, tr.Rest(), tr.pad)
    ensures tr.cs.faults >= old(tr.cs.faults)
    ensures st == Broken && tr.cs.faults == old(tr.cs.faults) && tr.cs.Intact() ==>
              ReadMember(tr.t, old(tr.Rest()), old(tr.pad)) == Turn.Failed
  {
    hide ScanHeader, Plain, Padding, IntactRows, ReadMember;
    ghost var s, pad := tr.Rest(), tr.pad;
    st, e := Broken, Extract(Tar.Member("", 0, true, Meta(0, 0, 0, 0)), []);
    var next := tr.Next();
    if next == HeaderError { return; }
    if next == ArchiveEnd {
      st := ArchiveDone;
      return;
    }
    var h := next.member;
    ghost var body := tr.Rest();
    MemberRead(tr.t, s, pad, h, body);
    if !h.regular || '/' in h.name { return; }
    var data, ok := tr.Content(h.size);
    if !ok { return; }
    e := Extract(h, data);
    st := StagedOne;
  }

  // One turn of the extraction loop: read a member, stage it, note size and hash.
  method ExtractOne(r: Runner, tr: TarReader, got: map<string, Got>)
    returns (got': map<string, Got>, st: Turned, ghost e: Extract)
    requires r.Valid() && tr.Valid() && tr.t == r.env.t
    requires r.d.stage.Some? && Agrees(r.env.codec, got, r.d.stage.value)
    modifies r`d, r`hist, r`faults, tr, tr.cs
    ensures r.Valid() && (old(r.Sound()) ==> r.Sound()) && r.Steady() && r.d == old(r.d).(stage := r.d.stage)
    ensures st == ArchiveDone ==> tr.Valid() && got' == got && r.d == old(r.d)
                                  && ReadMember(tr.t, old(tr.Rest()), old(tr.pad)) == AtEnd(tr.Rest())
    ensures st == StagedOne ==>
              && tr.Valid() && ReadMember(tr.t, old(tr.Rest()), old(tr.pad)) == Took(e, tr.Rest(), tr.pad)
              && r.d.stage == Some(old(r.d.stage).value[e.member.name := File(e.member.meta, e.data)])
              && Agrees(r.env.codec, got', r.d.stage.value)
    ensures r.faults >= old(r.faults) && tr.cs.faults >= old(tr.cs.faults)
    ensures st == Broken && r.faults == old(r.faults) && tr.cs.faults == old(tr.cs.faults) && tr.cs.Intact() ==>
              ReadMember(tr.t, old(tr.Rest()), old(tr.pad)) == Turn.Failed
  {
    hide Inv, IsRun, IsCareful, Original, ReadMember, Plain, Padding, Agrees, IntactRows;
    var took;
    st, took := TakeMember(tr);
    got', e := got, took;
    if st != StagedOne { return; }
    var f := File(took.member.meta, took.data);
    var ok := r.Commit(StageFile(took.member.name, f));
    if !ok {
      st := Broken;
      return;
    }
    AgreesAfter(r.env.codec, got, old(r.d.stage).value, took.member.name, f);
    got' := got[took.member.name := Got(|took.data|, r.env.codec.sum(took.data))];
  }

  // The extraction loop, from the start of the stream to the end of the archive.
  method ExtractMembers(r: Runner, tr: TarReader) returns (got: map<string, Got>, ok: bool)
    requires r.Valid() && r.d.stage == Some(map[]) && tr.Valid() && tr.t == r.env.t && tr.pad == 0
    modifies r`d, r`hist, r`faults, tr, tr.cs
    ensures r.Valid() && (old(r.Sound()) ==> r.Sound()) && r.Steady() && r.d == old(r.d).(stage := r.d.stage)
    ensures ok ==> tr.Valid() && r.d.stage.Some? && Agrees(r.env.codec, got, r.d.stage.value)
    ensures ok ==> var u := Unpack(r.env.t, old(tr.Rest()), 0); u.Some? && Staged(u.value) == r.d.stage.value
    ensures ok && Drains(r.env.t, old(tr.Rest()), 0) ==> tr.Rest() == []
    ensures r.faults >= old(r.faults) && tr.cs.faults >= old(tr.cs.faults)
    ensures (r.faults == old(r.faults) && tr.cs.faults == old(tr.cs.faults)
             && tr.cs.Intact() && Drains(r.env.t, old(tr.Rest()), 0)) ==> ok
  {
    hide Inv, IsRun, IsCareful, Original, ReadMember, Plain, Agrees;
    hide ScanHeader, Unpack, After, Drains, IntactRows, Staged, Underway;
    got := map[];
    AgreesEmpty(r.env.codec);
    ghost var es: seq<Extract> := [];
    ghost var whole := tr.Rest();
    Starting(r.env.t, whole);
    while true
      invariant r.Valid() && (old(r.Sound()) ==> r.Sound()) && r.Steady() && r.d == old(r.d).(stage := r.d.stage)
      invariant tr.Valid() && r.faults >= old(r.faults) && tr.cs.faults >= old(tr.cs.faults)
      invariant r.d.stage == Some(Staged(es)) && Agrees(r.env.codec, got, Staged(es))
      invariant Underway(r.env.t, whole, es, tr.Rest(), tr.pad)
      decreases |tr.Rest()|
    {
      var st;
      ghost var e;
      ghost var rest, pad := tr.Rest(), tr.pad;
      got, st, e := ExtractOne(r, tr, got);
      TurnEnds(r.env.t, whole, es, rest, pad);
      if st == Broken {
        return got, false;
      }
      if st == ArchiveDone {
        return got, true;
      }
      TurnTaken(r.env.t, whole, es, rest, pad, e, tr.Rest(), tr.pad);
      es := es + [e];
    }
  }

  // Extraction into the staging directory. It succeeds only at the end of an
  // archive all of whose chunks were opened and hash-checked, and then the
  // staging directory holds exactly what the manifest's chunks unpack to.
  method ExtractAll(r: Runner, m: Manifest) returns (got: map<string, Got>, ok: bool)
    requires r.Valid() && r.d.stage == Some(map[])
    modifies r`d, r`hist, r`faults
    ensures r.Valid() && (old(r.Sound()) ==> r.Sound()) && r.Steady()
    ensures r.d == old(r.d).(stage := r.d.stage)
    ensures ok ==> r.d.stage.Some? && Agrees(r.env.codec, got, r.d.stage.value)
    ensures ok ==> forall i :: 0 <= i < |m.chunks| ==> Checked(r.env.codec, r.d.bucket.chunks, m.chunks[i])
    ensures ok ==> var u := Unpack(r.env.t, Plain(r.env.codec, r.d.bucket.chunks, m.chunks, |m.chunks|), 0);
                   u.Some? && Staged(u.value) == r.d.stage.value
    ensures r.faults >= old(r.faults)
    ensures (r.faults == old(r.faults) && IntactRows(r.env.codec, r.d.bucket.chunks, m.chunks)
             && Drains(r.env.t, Plain(r.env.codec, r.d.bucket.chunks, m.chunks, |m.chunks|), 0)) ==> ok
  {
    hide Inv, IsRun, IsCareful, Original, Plain, Agrees, Checked, Unpack, Staged, Drains, IntactRows;
    var cs := new ChunkStream(r.env.codec, m.chunks, r.d.bucket.chunks);
    cs.DeliveredIsPrefix();
    var tr := new TarReader(r.env.t, cs);
    assert tr.Rest() == cs.Whole();
    got, ok := ExtractMembers(r, tr);
    if ok {
      ok := cs.Finish();
    }
    r.faults := r.faults + cs.faults;
  }

  // `es` are the members taken off `whole`; `rest` and `pad` what is still to be read.
  ghost predicate Underway(t: Framing, whole: Bytes, es: seq<Extract>, rest: Bytes, pad: nat) {
    && Unpack(t, whole, 0) == After(es, Unpack(t, rest, pad))
    && (Drains(t, whole, 0) ==> Drains(t, rest, pad))
  }

  lemma Starting(t: Framing, whole: Bytes)
    ensures Underway(t, whole, [], whole, 0) && Staged([]) == map[]
  {
    hide Unpack, Drains;
    AfterNothing(Unpack(t, whole, 0));
  }

  // When a turn ends the loop.
  lemma TurnEnds(t: Framing, whole: Bytes, es: seq<Extract>, rest: Bytes, pad: nat)
    requires Underway(t, whole, es, rest, pad)
    ensures ReadMember(t, rest, pad).AtEnd? ==> Unpack(t, whole, 0) == Some(es)
    ensures ReadMember(t, rest, pad).AtEnd? && Drains(t, whole, 0) ==> ReadMember(t, rest, pad).left == []
    ensures ReadMember(t, rest, pad).Failed? ==> !Drains(t, whole, 0)
  {
    hide ReadMember;
    assert es + [] == es;
  }

  lemma AgreesEmpty(codec: Codec)
    ensures Agrees(codec, map[], map[])
  {
  }

  lemma AfterNothing(more: Option<seq<Extract>>)
    ensures After([], more) == more
  {
    if more.Some? {
      assert [] + more.value == more.value;
    }
  }

  // A turn that took a member moves it from what is left to what is done.
  lemma TurnTaken(t: Framing, whole: Bytes, es: seq<Extract>, s: Bytes, pad: nat, e: Extract, rest: Bytes, owed: nat)
    requires Underway(t, whole, es, s, pad) && ReadMember(t, s, pad) == Took(e, rest, owed)
    ensures Underway(t, whole, es + [e], rest, owed)
    ensures Staged(es + [e]) == Staged(es)[e.member.name := File(e.member.meta, e.data)]
    ensures |rest| < |s|
  {
    hide ReadMember;
    assert (es + [e])[..|es|] == es;
    var more := Unpack(t, rest, owed);
    if more.Some? {
      assert es + ([e] + more.value) == (es + [e]) + more.value;
    }
  }

  // The comparison with the manifest: count first, then every file's size and hash.
  method Verify(codec: Codec, m: Manifest, got: map<string, Got>, ghost s: Files) returns (ok: bool)
    requires Agrees(codec, got, s)
    ensures ok <==> Matches(codec, m, s)
    ensures ok <==>
              && |s| == |m.files|
              && forall i :: 0 <= i < |m.files| ==>
                   var e := m.files[i];
                   e.name in s && |s[e.name].data| == e.size && codec.sum(s[e.name].data) == e.sum
  {
    assert |got| == |got.Keys| == |s.Keys| == |s|;
    if |got| != |m.files| {
      return false;
    }
    var i := 0;
    while i < |m.files|
      invariant i <= |m.files|
      invariant forall k :: 0 <= k < i ==>
        && m.files[k].name in s && |s[m.files[k].name].data| == m.files[k].size
        && codec.sum(s[m.files[k].name].data) == m.files[k].sum
    {
      var f := m.files[i];
      if f.name !in got || got[f.name].size != f.size || got[f.name].sum != f.sum {
        return false;
      }
      i := i + 1;
    }
    ok := true;
  }

  // With distinct names in the manifest, passing the comparison means the staged
  // names are exactly the manifest's.
  lemma MatchesExactly(codec: Codec, m: Manifest, s: Files)
    requires Matches(codec, m, s)
    requires forall i, j :: 0 <= i < j < |m.files| ==> m.files[i].name != m.files[j].name
    ensures s.Keys == set i | 0 <= i < |m.files| :: m.files[i].name
  {
    DistinctNames(m.files, |m.files|);
    var names := set i | 0 <= i < |m.files| :: m.files[i].name;
    assert names <= s.Keys;
    assert |names| == |s| == |s.Keys|;
    SubsetOfSameSize(names, s.Keys);
  }

  lemma {:induction false} DistinctNames(files: seq<FileEntry>, k: nat)
    requires k <= |files| && forall i, j :: 0 <= i < j < |files| ==> files[i].name != files[j].name
    ensures |set i | 0 <= i < k :: files[i].name| == k
  {
    if k > 0 {
      DistinctNames(files, k - 1);
      assert (set i | 0 <= i < k :: files[i].name) == (set i | 0 <= i < k - 1 :: files[i].name) + {files[k - 1].name};
    }
  }

  lemma SubsetOfSameSize(a: set<string>, b: set<string>)
    requires a <= b && |a| == |b|
    ensures a == b
  {
    assert b == a + (b - a);
    assert |b| == |a| + |b - a|;
  }

  // x is an unmarked directory extracted from manifest m's hash-checked chunks and
  // matching its names, sizes and hashes.
  ghost predicate Restored(env: Env, m: Manifest, x: Option<Dir>, b: Bucket) {
    x.Some? && x.value.marker.None? && Extracted(env, b.chunks, m, x.value.files)
  }

  // The cart's final path holds the old directory in full, nothing, or a fully
  // verified new one.
  ghost predicate SwapSafe(env: Env, before: Option<Dir>, m: Manifest, e: Disk) {
    e.dir == before || e.dir.None? || Restored(env, m, e.dir, e.bucket)
  }

  // Since `old`, every durable state kept the path safe with respect to `before`.
  twostate predicate Swapping(r: Runner, before: Option<Dir>, m: Manifest)
    reads r
  {
    && old(r.hist) <= r.hist && r.d.bucket == old(r.d.bucket) && r.d.catalog == old(r.d.catalog)
    && r.d.jobs == old(r.d.jobs) && SwapSafe(r.env, before, m, r.d)
    && forall k :: |old(r.hist)| <= k < |r.hist| ==> SwapSafe(r.env, before, m, r.hist[k])
  }

  ghost predicate Staging(r: Runner, m: Manifest)
    reads r
  {
    r.Valid() && r.d.stage.Some? && Known(r.d.bucket, r.d.catalog, m)
    && Extracted(r.env, r.d.bucket.chunks, m, r.d.stage.value)
  }

  // Remove whatever an earlier swap left aside (errors ignored).
  method DropAside(r: Runner)
    requires r.Valid()
    modifies r`d, r`hist, r`faults
    ensures r.Valid() && (old(r.Sound()) ==> r.Sound()) && r.Steady() && r.d == old(r.d).(aside := r.d.aside)
    ensures r.faults >= old(r.faults) && (r.faults == old(r.faults) ==> r.d.aside == None)
  {
    hide Inv, IsRun, IsCareful, Original;
    var dropped := r.Commit(DropOld);
  }

  // Move the old directory out of the way.
  method MoveAside(r: Runner, m: Manifest) returns (ok: bool)
    requires Staging(r, m) && r.d.dir.Some?
    modifies r`d, r`hist, r`faults
    ensures r.Valid() && (old(r.Sound()) ==> r.Sound()) && Swapping(r, old(r.d.dir), m)
    ensures ok ==> Staging(r, m) && r.d.stage == old(r.d.stage) && r.d.dir.None? && r.d.aside == old(r.d.dir)
    ensures r.faults >= old(r.faults) && (r.faults == old(r.faults) ==> ok)
  {
    hide Inv, IsRun, IsCareful, Original, Extracted, Known, Restored, ChunksPresent, TarOf;
    DropAside(r);
    if r.d.aside.Some? {
      return false;   // the rename onto it would fail
    }
    ok := r.Commit(SetAside(m));
  }

  // Rename the staged directory into place.
  method MoveIn(r: Runner, m: Manifest, ghost before: Option<Dir>) returns (ok: bool)
    requires Staging(r, m) && r.d.dir.None?
    modifies r`d, r`hist, r`faults
    ensures r.Valid() && (old(r.Sound()) ==> r.Sound()) && Swapping(r, before, m)
    ensures ok ==> Restored(r.env, m, r.d.dir, r.d.bucket) && r.d.dir.value.files == old(r.d.stage.value)
    ensures r.d.aside == old(r.d.aside)
    ensures r.faults >= old(r.faults) && (r.faults == old(r.faults) ==> ok)
  {
    hide Inv, IsRun, IsCareful, Original, Extracted, Known;
    ok := r.Commit(SwapIn(m));
  }

  // Rename the old directory back after a failed swap.
  method MoveBack(r: Runner, ghost m: Manifest)
    requires r.Valid() && r.d.dir.None? && r.d.aside.Some?
    modifies r`d, r`hist, r`faults
    ensures r.Valid() && (old(r.Sound()) ==> r.Sound()) && Swapping(r, old(r.d.aside), m) && r.faults >= old(r.faults)
  {
    hide Inv, IsRun, IsCareful, Original, Restored;
    var restored := r.Commit(Restore);
  }

  // Remove the old directory after a successful swap (errors ignored).
  method CleanUp(r: Runner, ghost before: Option<Dir>, ghost m: Manifest)
    requires r.Valid() && Restored(r.env, m, r.d.dir, r.d.bucket)
    modifies r`d, r`hist, r`faults
    ensures r.Valid() && (old(r.Sound()) ==> r.Sound()) && r.d.dir == old(r.d.dir)
    ensures Restored(r.env, m, r.d.dir, r.d.bucket)
    ensures Swapping(r, before, m) && r.faults >= old(r.faults)
    ensures r.faults == old(r.faults) ==> r.d.aside == None
  {
    hide Inv, IsRun, IsCareful, Original, Known, Extracted;
    DropAside(r);
  }

  // Put the verified staging directory in place by renames.
  method Swap(r: Runner, m: Manifest) returns (ok: bool)
    requires Staging(r, m)
    modifies r`d, r`hist, r`faults
    ensures r.Valid() && (old(r.Sound()) ==> r.Sound()) && Swapping(r, old(r.d.dir), m)
    ensures ok ==> Restored(r.env, m, r.d.dir, r.d.bucket) && r.d.dir.value.files == old(r.d.stage.value)
    ensures r.faults >= old(r.faults) && (r.faults == old(r.faults) ==> ok)
    ensures r.faults == old(r.faults) && old(r.d.dir).Some? ==> r.d.aside == None
  {
    hide Inv, IsRun, IsCareful, Original, Extracted, Known, Restored;
    if r.d.dir.None? {
      ok := MoveIn(r, m, None);
      return;
    }
    ghost var before := r.d.dir;
    ok := MoveAside(r, m);
    if !ok { return; }
    ok := MoveIn(r, m, before);
    if ok {
      CleanUp(r, before, m);
    } else if r.d.dir.None? {
      MoveBack(r, m);
    }
  }

  // Totals, state, an empty staging directory.
  method OpenStage(r: Runner, id: nat, m: Manifest) returns (ok: bool)
    requires r.Valid() && id in r.d.jobs
    modifies r
    ensures r.Valid() && (old(r.Sound()) ==> r.Sound()) && r.Steady() && id in r.d.jobs
    ensures r.d.catalog == old(r.d.catalog) && r.d.jobs[id].gen == old(r.d.jobs[id].gen)
    ensures ok ==> r.d.stage == Some(map[]) && r.d.jobs[id].total == m.logical
    ensures r.faults >= old(r.faults) && (r.faults == old(r.faults) ==> ok)
    ensures Along(old(r.trail), [Fetching], r.trail, ok) && r.d.jobs[id].way == old(r.d.jobs[id].way)
  {
    hide Inv, IsRun, IsCareful, Original;
    ok := r.Commit(SetTotal(id, m.logical));
    if !ok { return; }
    ok := r.Transition(id, Fetching);
    if !ok { return; }
    ok := ClearStage(r);
  }

  method ClearStage(r: Runner) returns (ok: bool)
    requires r.Valid()
    modifies r`d, r`hist, r`faults
    ensures r.Valid() && (old(r.Sound()) ==> r.Sound()) && r.Steady() && r.d == old(r.d).(stage := r.d.stage)
    ensures ok ==> r.d.stage == Some(map[])
    ensures r.faults >= old(r.faults) && (r.faults == old(r.faults) ==> ok)
  {
    hide Inv, IsRun, IsCareful, Original;
    ok := r.Commit(ResetStage);
  }

  // Manifest m's chunks are all there and good, unpack to the end, and give the files
  // it lists.
  ghost predicate Importable(env: Env, objects: map<ChunkKey, Bytes>, m: Manifest) {
    var plain := Plain(env.codec, objects, m.chunks, |m.chunks|);
    && IntactRows(env.codec, objects, m.chunks) && Drains(env.t, plain, 0)
    && var u := Unpack(env.t, plain, 0); u.Some? && Matches(env.codec, m, Staged(u.value))
  }

  // Nothing an operator has to do first: the job names a generation whose manifest is
  // this cart's and can be had, and no resident media is in the way of an import that
  // was not sent to a library of its own.
  ghost predicate Ready(env: Env, d: Disk, id: nat)
    requires id in d.jobs
  {
    && (d.dir.Some? && !d.jobs[id].way.targeted ==> !Resident(d.dir.value)) && d.jobs[id].gen.Some?
    && var m := Source(d, d.jobs[id].gen.value, d.jobs[id].way.foreign);
       m.Some? && m.value.cart == env.cart && Importable(env, d.bucket.chunks, m.value)
  }

  // The guards and the manifest.
  method Admit(r: Runner, id: nat) returns (m: Manifest, ok: bool)
    requires r.Valid() && id in r.d.jobs
    modifies r`d, r`hist, r`faults
    ensures r.Valid() && (old(r.Sound()) ==> r.Sound()) && r.Steady() && r.d == old(r.d).(catalog := r.d.catalog)
    ensures ok ==> Known(r.d.bucket, r.d.catalog, m) && m.cart == r.env.cart
    ensures ok ==>
              && old(r.d.jobs[id].gen.Some?)
              && Some(m) == Source(old(r.d), old(r.d.jobs[id].gen.value), old(r.d.jobs[id].way.foreign))
    ensures ok && old(r.d.dir.Some?) ==> old(r.d.jobs[id].way.targeted || !Resident(r.d.dir.value))
    ensures r.faults >= old(r.faults) && (r.faults == old(r.faults) && Ready(r.env, old(r.d), id) ==> ok)
  {
    hide Inv, IsRun, IsCareful, Original, Known, Importable, Resident;
    m := Manifest(0, "", "", 0, [], [], 0, 0, 0);
    if r.d.jobs[id].gen.None? {
      return m, false;
    }
    var fetched := FetchManifest(r, r.d.jobs[id].gen.value, r.d.jobs[id].way.foreign);
    if fetched.None? || fetched.value.cart != r.env.cart {
      return m, false;
    }
    m := fetched.value;
    if r.d.dir.Some? {
      ok := r.Io();   // the cart is not in a drive
      if !ok { return; }
      if !r.d.jobs[id].way.targeted && Resident(r.d.dir.value) {
        return m, false;
      }
    }
    ok := true;
  }

  // Staging, extraction and comparison. When it succeeds the staging directory holds
  // exactly the manifest's files.
  method StageAndVerify(r: Runner, id: nat, m: Manifest) returns (ok: bool)
    requires r.Valid() && id in r.d.jobs && Known(r.d.bucket, r.d.catalog, m)
    modifies r
    ensures r.Valid() && (old(r.Sound()) ==> r.Sound()) && r.Steady() && id in r.d.jobs
    ensures r.d.jobs[id].gen == old(r.d.jobs[id].gen)
    ensures ok ==> Staging(r, m) && r.d.jobs[id].total == m.logical
    ensures r.faults >= old(r.faults) && (r.faults == old(r.faults) && Importable(r.env, r.d.bucket.chunks, m) ==> ok)
    ensures Along(old(r.trail), [Fetching, Verifying, Unpacking], r.trail, ok)
    ensures r.d.jobs[id].way == old(r.d.jobs[id].way)
  {
    hide Inv, IsRun, IsCareful, Original, Extracted, Known, Plain, Along;
    hide Unpack, Staged, Checked, Matches, Agrees, Drains, IntactRows;
    ghost var trail0 := r.trail;
    ok := OpenStage(r, id, m);
    ghost var trail1 := r.trail;
    assert [Fetching] + [Verifying, Unpacking] == [Fetching, Verifying, Unpacking];
    StopShort(trail0, [Fetching], trail1, [Verifying, Unpacking], ok);
    if !ok { return; }
    var got;
    got, ok := ExtractAll(r, m);
    if !ok { return; }
    ok := CompareStaged(r, id, m, got);
    GoOn(trail0, [Fetching], trail1, [Verifying, Unpacking], r.trail, ok);
    if ok { ExtractedIntro(r.env, r.d.bucket.chunks, m, r.d.stage.value); }
  }

  // The comparison, between its two states.
  method CompareStaged(r: Runner, id: nat, m: Manifest, got: map<string, Got>) returns (ok: bool)
    requires r.Valid() && id in r.d.jobs && r.d.stage.Some? && Agrees(r.env.codec, got, r.d.stage.value)
    modifies r
    ensures r.Valid() && (old(r.Sound()) ==> r.Sound()) && r.Steady() && id in r.d.jobs
    ensures r.d == old(r.d).(jobs := r.d.jobs) && r.d.jobs[id] == old(r.d.jobs[id]).(state := r.d.jobs[id].state)
    ensures ok ==> Matches(r.env.codec, m, r.d.stage.value)
    ensures r.faults >= old(r.faults)
    ensures r.faults == old(r.faults) ==> (ok <==> Matches(r.env.codec, m, r.d.stage.value))
    ensures Along(old(r.trail), [Verifying, Unpacking], r.trail, ok)
  {
    hide Inv, IsRun, IsCareful, Original, Matches, Agrees;
    ok := r.Transition(id, Verifying);
    if !ok { return; }
    ok := Verify(r.env.codec, m, got, r.d.stage.value);
    if !ok { return; }
    ok := r.Transition(id, Unpacking);
  }

  // Everything before the swap.
  method FetchAndVerify(r: Runner, id: nat) returns (m: Manifest, ok: bool)
    requires r.Valid() && id in r.d.jobs
    modifies r
    ensures r.Valid() && (old(r.Sound()) ==> r.Sound()) && r.Steady() && id in r.d.jobs
    ensures r.d.jobs[id].gen == old(r.d.jobs[id].gen)
    ensures ok ==> Staging(r, m) && m.cart == r.env.cart && r.d.jobs[id].total == m.logical
    ensures ok ==>
              && old(r.d.jobs[id].gen.Some?)
              && Some(m) == Source(old(r.d), old(r.d.jobs[id].gen.value), old(r.d.jobs[id].way.foreign))
    ensures ok && old(r.d.dir.Some?) ==> old(r.d.jobs[id].way.targeted || !Resident(r.d.dir.value))
    ensures old(Refused(r.env, r.d, id)) ==> !ok
    ensures r.faults >= old(r.faults) && (r.faults == old(r.faults) && Ready(r.env, old(r.d), id) ==> ok)
    ensures Along(old(r.trail), [Fetching, Verifying, Unpacking], r.trail, ok)
    ensures r.d.jobs[id].way == old(r.d.jobs[id].way)
  {
    hide Inv, IsRun, IsCareful, Original, Extracted, Known, Importable, Resident, Refused;
    m, ok := Admit(r, id);
    if !ok { return; }
    ok := StageAndVerify(r, id, m);
    if ok { NotRefused(r.env, old(r.d), id, m, r.d.stage.value); }
  }

  lemma ExtractedIntro(env: Env, objects: map<ChunkKey, Bytes>, m: Manifest, s: Files)
    requires forall i :: 0 <= i < |m.chunks| ==> Checked(env.codec, objects, m.chunks[i])
    requires Matches(env.codec, m, s)
    requires var u := Unpack(env.t, Plain(env.codec, objects, m.chunks, |m.chunks|), 0);
             u.Some? && Staged(u.value) == s
    ensures Extracted(env, objects, m, s)
  {
  }

  // On a sound history: the bucket has the job's generation, the cache too when it is
  // another system's, and no resident media is in the way.
  ghost predicate Wanted(r: Runner, id: nat)
    reads r
  {
    && r.Sound() && id in r.d.jobs && r.d.jobs[id].gen.Some? && r.d.jobs[id].gen.value in r.d.bucket.manifests
    && (r.d.jobs[id].way.foreign ==> r.d.jobs[id].gen.value in r.d.catalog)
    && (r.d.dir.Some? && !r.d.jobs[id].way.targeted && r.d.dir.value.marker == None ==>
          forall n :: n in r.d.dir.value.files && "data." <= n ==> r.d.dir.value.files[n].data == [])
  }

  function Phases(way: Way): seq<State> {
    [Fetching, Verifying, Unpacking] + if way.targeted then [Slotting, Done] else [Done]
  }

  // Fetch and verify, swap, record; the staging directory is still there afterwards.
  method Bring(r: Runner, id: nat) returns (m: Manifest, ok: bool)
    requires r.Valid() && id in r.d.jobs
    modifies r
    ensures r.Valid() && (old(r.Sound()) ==> r.Sound()) && id in r.d.jobs
    ensures old(r.hist) <= r.hist && r.d.bucket == old(r.d.bucket)
    ensures forall k :: |old(r.hist)| <= k < |r.hist| ==> SwapSafe(r.env, old(r.d.dir), m, r.hist[k])
    ensures old(r.d.dir.Some? && Resident(r.d.dir.value) && !r.d.jobs[id].way.targeted) ==>
              !ok && r.d.dir == old(r.d.dir)
    ensures old(Refused(r.env, r.d, id)) ==>
              && !ok && r.d.dir == old(r.d.dir)
              && forall k :: |old(r.hist)| <= k < |r.hist| ==> r.hist[k].dir == old(r.d.dir)
    ensures ok ==> Known(r.d.bucket, r.d.catalog, m) && m.cart == r.env.cart && r.d.jobs[id].total == m.logical
    ensures ok ==> old(r.d.jobs[id].gen.Some?) && r.d.lastGen == old(r.d.jobs[id].gen)
    ensures ok && r.faults == old(r.faults) && old(r.d.dir).Some? ==> r.d.aside == None
    ensures ok ==> Some(m) == Source(old(r.d), old(r.d.jobs[id].gen.value), old(r.d.jobs[id].way.foreign))
    ensures ok ==> Restored(r.env, m, r.d.dir, r.d.bucket) && r.d.jobs[id].state == Done && !r.d.evicted
    ensures r.faults >= old(r.faults) && (r.faults == old(r.faults) && Ready(r.env, old(r.d), id) ==> ok)
    ensures Along(old(r.trail), Phases(old(r.d.jobs[id].way)), r.trail, ok)
  {
    hide Inv, IsRun, IsCareful, Original, Extracted, Known, Ready, Refused, Source, Resident;
    ghost var trail0 := r.trail;
    m, ok := FetchAndVerify(r, id);
    ghost var trail1, last := r.trail, if r.d.jobs[id].way.targeted then [Slotting, Done] else [Done];
    StopShort(trail0, [Fetching, Verifying, Unpacking], trail1, last, ok);
    if !ok { return; }
    ok := Swap(r, m);
    if ok {
      ok := Record(r, id);
      GoOn(trail0, [Fetching, Verifying, Unpacking], trail1, last, r.trail, ok);
    }
  }

  // An import, whatever the bucket holds: after every effect the cart's path is
  // the old directory, absent, or a directory extracted from the hash-checked
  // chunks of the job's manifest and matching its names, sizes and hashes.
  method RunImport(r: Runner, id: nat) returns (ok: bool, ghost m: Manifest)
    requires r.Valid() && id in r.d.jobs
    modifies r
    ensures r.Valid() && (old(r.Sound()) ==> r.Sound()) && id in r.d.jobs
    ensures old(r.hist) <= r.hist && r.d.bucket == old(r.d.bucket)
    ensures forall k :: |old(r.hist)| <= k < |r.hist| ==> SwapSafe(r.env, old(r.d.dir), m, r.hist[k])
    ensures old(r.d.dir.Some? && Resident(r.d.dir.value) && !r.d.jobs[id].way.targeted) ==>
              !ok && r.d.dir == old(r.d.dir)
    ensures ok ==> Known(r.d.bucket, r.d.catalog, m) && m.cart == r.env.cart
    ensures ok ==> Restored(r.env, m, r.d.dir, r.d.bucket) && r.d.jobs[id].state == Done && !r.d.evicted
    ensures ok && old(r.Sound()) ==> r.d.dir == Some(Dir(r.F, None))
    // Whatever directory appears at the path, and the one a finished import leaves, holds
    // the files the manifest lists and no others: by name, by size and by hash.
    ensures forall k :: |old(r.hist)| <= k < |r.hist| && r.hist[k].dir != old(r.d.dir) && r.hist[k].dir.Some? ==>
              r.hist[k].dir.value.marker == None && AsListed(r.env.codec, m, r.hist[k].dir.value.files)
    ensures ok ==>
              && r.d.dir.Some? && r.d.dir.value.marker == None && |r.d.dir.value.files| == |m.files|
              && (forall n :: n in r.d.dir.value.files ==> '/' !in n)
              && forall i :: 0 <= i < |m.files| ==>
                   var e, files := m.files[i], r.d.dir.value.files;
                   && e.name in files && |files[e.name].data| == e.size
                   && r.env.codec.sum(files[e.name].data) == e.sum
    // The manifest is the cached one, else the bucket's; the cart row gets the job's own
    // generation.
    ensures ok ==>
              && old(r.d.jobs[id].gen).Some? && r.d.lastGen == old(r.d.jobs[id].gen)
              && var g := old(r.d.jobs[id].gen).value;
                 && (g in old(r.d.catalog) ==> m == old(r.d.catalog)[g])
                 && (g !in old(r.d.catalog) ==>
                       !old(r.d.jobs[id].way.foreign) && g in old(r.d.bucket.manifests)
                       && m == old(r.d.bucket.manifests)[g])
    ensures ok ==> r.d.jobs[id].total == m.logical
    // Nothing failing, no staging directory and no old one is left over.
    ensures r.faults == old(r.faults) ==> r.d.stage == None && (ok && old(r.d.dir).Some? ==> r.d.aside == None)
    // What must be refused never reaches the path, not even for a moment.
    ensures old(Refused(r.env, r.d, id)) ==>
              && !ok && r.d.dir == old(r.d.dir)
              && forall k :: |old(r.hist)| <= k < |r.hist| ==> r.hist[k].dir == old(r.d.dir)
    // Nothing failing, a ready import succeeds.
    ensures r.faults >= old(r.faults) && (r.faults == old(r.faults) && Ready(r.env, old(r.d), id) ==> ok)
    ensures r.faults == old(r.faults) && old(Wanted(r, id)) ==> ok
    // The job's states come in this order, and none is left out of a finished import.
    ensures Along(old(r.trail),
                  if old(r.d.jobs[id].way.targeted) then [Fetching, Verifying, Unpacking, Slotting, Done]
                  else [Fetching, Verifying, Unpacking, Done], r.trail, ok)
  {
    hide Inv, IsRun, IsCareful, Original, Extracted, Known, Ready, Refused, AsListed;
    if Wanted(r, id) { GoodImportable(r.env, r.F, r.d, id); }
    m, ok := Bring(r, id);
    Discard(r);
    forall k | |old(r.hist)| <= k < |r.hist| && r.hist[k].dir != old(r.d.dir) && r.hist[k].dir.Some?
      ensures r.hist[k].dir.value.marker == None && AsListed(r.env.codec, m, r.hist[k].dir.value.files)
    {
      ExtractedListed(r.env, r.hist[k].bucket.chunks, m, r.hist[k].dir.value.files);
    }
    if ok {
      FinishedListed(r.env, r.d, m);
      if Original(r.env, r.F) && Inv(r.env, r.F, r.d) {
        RestoredIsOriginal(r.env, r.F, r.d, m);
      }
    }
  }

  lemma FinishedListed(env: Env, d: Disk, m: Manifest)
    requires Restored(env, m, d.dir, d.bucket)
    ensures d.dir.Some? && |d.dir.value.files| == |m.files| && (forall n :: n in d.dir.value.files ==> '/' !in n)
    ensures forall i :: 0 <= i < |m.files| ==>
              var e, files := m.files[i], d.dir.value.files;
              e.name in files && |files[e.name].data| == e.size && env.codec.sum(files[e.name].data) == e.sum
  {
    hide Extracted;
    ExtractedListed(env, d.bucket.chunks, m, d.dir.value.files);
  }

  // A slot in the target library if one was chosen, the cart row, the job's end.
  method Record(r: Runner, id: nat) returns (ok: bool)
    requires r.Valid() && id in r.d.jobs && r.d.jobs[id].gen.Some?
    modifies r
    ensures r.Valid() && (old(r.Sound()) ==> r.Sound()) && r.Steady() && id in r.d.jobs
    ensures r.d.catalog == old(r.d.catalog)
    ensures ok ==> r.d.jobs[id].state == Done && !r.d.evicted && r.d.lastGen == old(r.d.jobs[id].gen)
    ensures r.d.jobs[id].total == old(r.d.jobs[id].total) && r.d.aside == old(r.d.aside)
    ensures r.faults >= old(r.faults) && (r.faults == old(r.faults) ==> ok)
    ensures Along(old(r.trail), if old(r.d.jobs[id].way.targeted) then [Slotting, Done] else [Done], r.trail, ok)
  {
    hide Inv, IsRun, IsCareful, Original, Along;
    ghost var trail0 := r.trail;
    if r.d.jobs[id].way.targeted {
      ok := AssignSlot(r, id);
      ghost var trail1 := r.trail;
      assert [Slotting] + [Done] == [Slotting, Done];
      StopShort(trail0, [Slotting], trail1, [Done], ok);
      if !ok { return; }
      ok := MarkResident(r, id);
      GoOn(trail0, [Slotting], trail1, [Done], r.trail, ok);
    } else {
      ok := MarkResident(r, id);
    }
  }

  // The chosen library takes the cart in.
  method AssignSlot(r: Runner, id: nat) returns (ok: bool)
    requires r.Valid() && id in r.d.jobs
    modifies r
    ensures r.Valid() && (old(r.Sound()) ==> r.Sound()) && r.Steady() && id in r.d.jobs
    ensures r.d == old(r.d).(jobs := r.d.jobs) && r.d.jobs[id] == old(r.d.jobs[id]).(state := r.d.jobs[id].state)
    ensures r.faults >= old(r.faults) && (r.faults == old(r.faults) ==> ok)
    ensures Along(old(r.trail), [Slotting], r.trail, ok)
  {
    hide Inv, IsRun, IsCareful, Original;
    ok := r.Transition(id, Slotting);
    if !ok { return; }
    ok := r.Io();   // AdoptCart
  }

  method MarkResident(r: Runner, id: nat) returns (ok: bool)
    requires r.Valid() && id in r.d.jobs && r.d.jobs[id].gen.Some?
    modifies r
    ensures r.Valid() && (old(r.Sound()) ==> r.Sound()) && r.Steady() && id in r.d.jobs
    ensures r.d.catalog == old(r.d.catalog) && r.d.aside == old(r.d.aside)
    ensures ok ==> r.d.jobs[id].state == Done && !r.d.evicted && r.d.lastGen == old(r.d.jobs[id].gen)
    ensures r.d.jobs[id].total == old(r.d.jobs[id].total)
    ensures r.faults >= old(r.faults) && (r.faults == old(r.faults) ==> ok)
    ensures Along(old(r.trail), [Done], r.trail, ok)
  {
    hide Inv, IsRun, IsCareful, Original;
    ok := r.Commit(SetLocal(false, r.d.jobs[id].gen.value));
    if !ok { return; }
    ok := r.Transition(id, Done);
  }

  // The deferred removal of the staging directory.
  method Discard(r: Runner)
    requires r.Valid()
    modifies r`d, r`hist, r`faults
    ensures r.Valid() && (old(r.Sound()) ==> r.Sound()) && r.Steady()
    ensures r.d == old(r.d).(stage := r.d.stage) && r.faults >= old(r.faults)
    ensures r.faults == old(r.faults) ==> r.d.stage == None
  {
    hide Inv, IsRun, IsCareful, Original;
    var dropped := r.Commit(DropStage);
  }

  // On a cart whose history is sound, a finished import has restored exactly the
  // original media.
  lemma RestoredIsOriginal(env: Env, F: Files, d: Disk, m: Manifest)
    requires Original(env, F) && Inv(env, F, d) && Restored(env, m, d.dir, d.bucket)
    ensures d.dir == Some(Dir(F, None))
  {
  }

  // On a cart whose history is sound, every generation the bucket holds is ready.
  lemma GoodImportable(env: Env, F: Files, d: Disk, id: nat)
    requires Original(env, F) && Inv(env, F, d) && id in d.jobs && d.jobs[id].gen.Some?
    requires d.jobs[id].gen.value in d.bucket.manifests
    requires (d.jobs[id].way.foreign ==> d.jobs[id].gen.value in d.catalog)
    requires d.dir.Some? && !d.jobs[id].way.targeted ==> !Resident(d.dir.value)
    ensures Ready(env, d, id)
  {
    hide TarOf, RowsBacked, TotalsRight, JobGood, Plain, Drains, IntactRows, Matches, Unpack, Resident;
    var g := d.jobs[id].gen.value;
    assert ManifestGood(env, F, d.cut, g, d.bucket.manifests[g], d.bucket.chunks);
    var m := Source(d, g, d.jobs[id].way.foreign).value;
    assert ManifestGood(env, F, d.cut, g, m, d.bucket.chunks);
    GoodManifestRestores(env, F, d.cut, g, m, d.bucket.chunks);
    UnpackTar(env.t, F);
    StagedAll(F);
    RowsIntact(env, F, d.cut, g, m, d.bucket.chunks);
  }

  lemma RowsIntact(env: Env, F: Files, cut: map<Gen, Size>, g: Gen, m: Manifest, objects: map<ChunkKey, Bytes>)
    requires Original(env, F) && ManifestGood(env, F, cut, g, m, objects)
    ensures IntactRows(env.codec, objects, m.chunks)
  {
    hide TarOf, Entries, EntryOf;
    forall k | 0 <= k < |m.chunks|
      ensures Checked(env.codec, objects, m.chunks[k])
      ensures env.codec.dec(objects[m.chunks[k].key]).clean && env.codec.dec(objects[m.chunks[k].key]).out != []
    {
      RowIntact(env, cut, TarOf(env.t, F), g, m.chunks, objects, k);
    }
  }

  lemma RowIntact(env: Env, cut: map<Gen, Size>, tar: Bytes, g: Gen, rows: seq<ChunkRow>,
                  objects: map<ChunkKey, Bytes>, k: nat)
    requires env.Lawful() && RowsBacked(env, cut, tar, g, rows, objects) && k < |rows|
    ensures Checked(env.codec, objects, rows[k])
    ensures var d := env.codec.dec(objects[rows[k].key]); d.clean && d.out != []
  {
    var c := cut[g];
    CountBounds(|tar|, c, k);
    assert rows[k] == RowFor(env.codec, tar, c, g, k) && ChunkKey(g, k) in objects;
    assert env.codec.dec(env.codec.enc(Window(tar, c, k))) == Decoded(Window(tar, c, k), true);
  }
}
