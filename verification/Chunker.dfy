// tarchunk.go: the chunker, and the upload sink runExport gives it.
module Chunkers {
  import opened Options
  import opened Streams
  import opened Chunking
  import opened Tar
  import opened Manifests
  import opened Pipeline
  import opened Runners

  // ----------------------------------------------------------------- the chunker ----

  ghost predicate IsChunk(codec: Codec, s: Bytes, c: Size, i: nat, call: ChunkResult) {
    At(i, c) <= |s| && call == ResultOf(codec, s, c, i)
  }

  // calls[j] is chunk from+j of stream s: right index, right window, in order.
  ghost predicate ChunksOf(codec: Codec, s: Bytes, c: Size, from: nat, calls: seq<ChunkResult>) {
    && (calls != [] ==> from + |calls| <= Count(|s|, c))
    && forall j :: 0 <= j < |calls| ==> IsChunk(codec, s, c, from + j, calls[j])
  }

  // Written out: chunk i is the encoded window of c bytes from byte i * c on, the last one
  // cut short, and the hash is that of the encoded bytes.
  lemma ChunksAre(codec: Codec, s: Bytes, c: Size, from: nat, calls: seq<ChunkResult>)
    requires ChunksOf(codec, s, c, from, calls)
    ensures forall j :: 0 <= j < |calls| ==> Sent(codec, s, c, from + j, calls[j])
    ensures |calls| == (if Count(|s|, c) < from then 0 else Count(|s|, c) - from) ==> (from + |calls|) * c >= |s|
  {
    hide Count;
    forall j | 0 <= j < |calls| ensures Sent(codec, s, c, from + j, calls[j]) {
      assert IsChunk(codec, s, c, from + j, calls[j]);
      CountBounds(|s|, c, from + j);
      SentIs(codec, s, c, from + j, calls[j]);
    }
    CountBounds(|s|, c, from + |calls|);
    AtIsProduct(from + |calls|, c);
  }

  lemma SentIs(codec: Codec, s: Bytes, c: Size, i: nat, call: ChunkResult)
    requires IsChunk(codec, s, c, i, call) && At(i, c) < |s|
    ensures Sent(codec, s, c, i, call)
  {
    AtIsProduct(i, c);
    var at := At(i, c);
    assert at == i * c && At(i + 1, c) == at + c;
    assert Window(s, c, i) == if at + c <= |s| then s[at..at + c] else s[at..];
  }

  ghost predicate Sent(codec: Codec, s: Bytes, c: nat, i: nat, call: ChunkResult) {
    i * c < |s| &&
    var w := if i * c + c <= |s| then s[i * c..i * c + c] else s[i * c..];
    call == ChunkResult(i, codec.enc(w), |w|, codec.sum(codec.enc(w)))
  }

  // The same, of full windows only, which no later byte can change.
  ghost predicate FullChunks(codec: Codec, s: Bytes, c: Size, from: nat, calls: seq<ChunkResult>) {
    forall j :: 0 <= j < |calls| ==> IsFull(codec, s, c, from + j, calls[j])
  }

  ghost predicate IsFull(codec: Codec, s: Bytes, c: Size, i: nat, call: ChunkResult) {
    At(i, c) + c <= |s| && call == ResultOf(codec, s, c, i)
  }

  lemma StillFull(codec: Codec, s: Bytes, s': Bytes, c: Size, from: nat, calls: seq<ChunkResult>)
    requires FullChunks(codec, s, c, from, calls) && s <= s'
    ensures FullChunks(codec, s', c, from, calls)
  {
    forall j | 0 <= j < |calls| ensures IsFull(codec, s', c, from + j, calls[j]) {
      assert IsFull(codec, s, c, from + j, calls[j]);
      SameWindow(s, s', c, from + j);
    }
  }

  lemma SameWindow(s: Bytes, s': Bytes, c: Size, i: nat)
    requires At(i, c) + c <= |s| && s <= s'
    ensures Window(s, c, i) == Window(s', c, i)
  {
    var at := At(i, c);
    assert At(i + 1, c) == at + c;
    assert s'[..|s|] == s && s'[at..at + c] == s'[..|s|][at..at + c];
  }

  lemma FullIsChunks(codec: Codec, s: Bytes, c: Size, from: nat, calls: seq<ChunkResult>)
    requires FullChunks(codec, s, c, from, calls)
    ensures ChunksOf(codec, s, c, from, calls)
  {
    hide Window, Count;
    if calls != [] {
      assert IsFull(codec, s, c, from + |calls| - 1, calls[|calls| - 1]);
      CountBounds(|s|, c, from + |calls| - 1);
    }
    forall j | 0 <= j < |calls| ensures IsChunk(codec, s, c, from + j, calls[j]) {
      assert IsFull(codec, s, c, from + j, calls[j]);
    }
  }

  // Cuts any stream, written in pieces of any size, into chunks; the first `skip` are
  // counted but neither encoded nor handed out.
  class Chunker {
    const codec: Codec
    const c: Size
    const skip: nat            // skipUntil
    var idx: nat
    var curRaw: nat
    var rawSeen: nat
    var buf: Option<Bytes>     // raw bytes fed to the open staging file's encoder
    ghost var seen: Bytes      // all bytes written so far
    ghost var calls: seq<ChunkResult>   // every chunk handed to the sink

    // However the stream was split, everything is a function of the bytes seen.
    ghost predicate Valid()
      reads this
    {
      && rawSeen == |seen| == At(idx, c) + curRaw && curRaw < c
      && buf == (if curRaw > 0 && idx >= skip then Some(seen[At(idx, c)..]) else None)
      && |calls| == (if idx < skip then 0 else idx - skip)
      && FullChunks(codec, seen, c, skip, calls)
    }

    constructor (codec: Codec, c: Size, skip: nat)
      ensures Valid() && this.codec == codec && this.c == c && this.skip == skip && seen == [] && calls == []
      ensures idx == 0
    {
      this.codec, this.c, this.skip := codec, c, skip;
      idx, curRaw, rawSeen, buf, seen, calls := 0, 0, 0, None, [], [];
    }

    // Flush the open frame into a result for the sink.
    method CloseChunk() returns (res: ChunkResult)
      requires buf.Some?
      modifies this`buf
      ensures buf == None
      ensures var frame := codec.enc(old(buf).value); res == ChunkResult(idx, frame, curRaw, codec.sum(frame))
    {
      var frame := codec.enc(buf.value);
      buf := None;
      res := ChunkResult(idx, frame, curRaw, codec.sum(frame));
    }

    // One turn of the write loop: feed what fits the current window, and close it when
    // it is full.
    method Take(p: Bytes) returns (n: nat, full: Option<ChunkResult>)
      requires Valid() && p != []
      modifies this
      ensures Valid() && 0 < n <= |p| && seen == old(seen) + p[..n]
      ensures calls == old(calls) + (if full.Some? then [full.value] else [])
    {
      hide FullChunks, Window;
      n := if |p| > c - curRaw then c - curRaw else |p|;
      ghost var start, before := At(idx, c), seen;
      StillFull(codec, seen, seen + p[..n], c, skip, calls);
      assert (before + p[..n])[start..] == before[start..] + p[..n];
      seen := seen + p[..n];
      if idx >= skip {
        buf := Some((if buf.None? then [] else buf.value) + p[..n]);
      }
      curRaw, rawSeen := curRaw + n, rawSeen + n;
      full := None;
      if curRaw == c {
        if idx >= skip {
          var res := CloseChunk();
          Closed(codec, seen, c, skip, idx, calls, res);
          full := Some(res);
          calls := calls + [res];
        }
        idx, curRaw := idx + 1, 0;
      }
    }

    // Close: the final partial chunk. All chunks from `skip` on have been handed out.
    method Finish() returns (last: Option<ChunkResult>)
      requires Valid()
      modifies this`buf, this`calls
      ensures ChunksOf(codec, seen, c, skip, calls)
      ensures calls == old(calls) + (if last.Some? then [last.value] else [])
      ensures last.Some? ==>
                idx >= skip && last.value.idx == idx < Count(|seen|, c) && IsChunk(codec, seen, c, idx, last.value)
      ensures Count(|seen|, c) == idx + (if curRaw > 0 then 1 else 0)
      ensures |calls| == (if Count(|seen|, c) < skip then 0 else Count(|seen|, c) - skip)
    {
      hide FullChunks;
      last := None;
      CountIs(idx, curRaw, c);
      FullIsChunks(codec, seen, c, skip, calls);
      if curRaw > 0 && idx >= skip {
        var res := CloseChunk();
        assert At(idx + 1, c) == At(idx, c) + c;
        assert Window(seen, c, idx) == seen[At(idx, c)..];
        ChunksAppend(codec, seen, c, skip, calls, res);
        last := Some(res);
        calls := calls + [res];
      }
    }
  }

  lemma Closed(codec: Codec, s: Bytes, c: Size, skip: nat, idx: nat, calls: seq<ChunkResult>, res: ChunkResult)
    requires |s| == At(idx, c) + c && skip <= idx && |calls| == idx - skip && FullChunks(codec, s, c, skip, calls)
    requires var frame := codec.enc(s[At(idx, c)..]); res == ChunkResult(idx, frame, c, codec.sum(frame))
    ensures FullChunks(codec, s, c, skip, calls + [res])
  {
    assert At(idx + 1, c) == |s|;
    assert Window(s, c, idx) == s[At(idx, c)..];
    var more := calls + [res];
    forall j | 0 <= j < |more| ensures IsFull(codec, s, c, skip + j, more[j]) {
      if j < |calls| {
        assert IsFull(codec, s, c, skip + j, calls[j]) && more[j] == calls[j];
      }
    }
  }

  lemma ChunksAppend(codec: Codec, s: Bytes, c: Size, from: nat, calls: seq<ChunkResult>, res: ChunkResult)
    requires ChunksOf(codec, s, c, from, calls) && from + |calls| < Count(|s|, c)
    requires At(from + |calls|, c) <= |s| && res == ResultOf(codec, s, c, from + |calls|)
    ensures ChunksOf(codec, s, c, from, calls + [res])
  {
    var more := calls + [res];
    forall j | 0 <= j < |more| ensures IsChunk(codec, s, c, from + j, more[j]) {
      if j < |calls| {
        assert more[j] == calls[j];
      }
    }
  }

  function Concat(pieces: seq<Bytes>): Bytes {
    if pieces == [] then [] else Concat(pieces[..|pieces| - 1]) + pieces[|pieces| - 1]
  }

  // The chunker on its own: any stream in any pieces, any size, any skip count.
  method CutStream(codec: Codec, c: Size, skip: nat, pieces: seq<Bytes>) returns (sent: seq<ChunkResult>)
    ensures ChunksOf(codec, Concat(pieces), c, skip, sent)
    ensures |sent| == (if Count(|Concat(pieces)|, c) < skip then 0 else Count(|Concat(pieces)|, c) - skip)
    // Written out: the windows of c bytes from the skipped ones on, to the end.
    ensures forall i :: 0 <= i < |sent| ==> Sent(codec, Concat(pieces), c, skip + i, sent[i])
    ensures (skip + |sent|) * c >= |Concat(pieces)|
  {
    hide ChunksOf, FullChunks, Count, Sent;
    var ck := new Chunker(codec, c, skip);
    sent := [];
    for i := 0 to |pieces|
      invariant ck.Valid() && fresh(ck) && ck.codec == codec && ck.c == c && ck.skip == skip
      invariant ck.seen == Concat(pieces[..i]) && ck.calls == sent
    {
      assert pieces[..i + 1][..i] == pieces[..i];
      var rest := pieces[i];
      while rest != []
        invariant ck.Valid() && fresh(ck) && ck.codec == codec && ck.c == c && ck.skip == skip
        invariant ck.seen + rest == Concat(pieces[..i]) + pieces[i] && ck.calls == sent
        decreases |rest|
      {
        var n, full := ck.Take(rest);
        assert rest == rest[..n] + rest[n..];
        rest := rest[n..];
        if full.Some? { sent := sent + [full.value]; }
      }
    }
    assert pieces[..|pieces|] == pieces;
    var last := ck.Finish();
    if last.Some? { sent := sent + [last.value]; }
    assert ck.calls == sent;
    ChunksAre(codec, Concat(pieces), c, skip, sent);
  }

  // --------------------------------------------------------------------- the sink ----

  // The state a chunk may be uploaded in without harm, or in which none will be.
  predicate Fit(d: Disk, g: Gen, k: nat, n: nat) {
    MayPut(d, g) || (g in d.cut && k == Count(n, d.cut[g]) == Count(n, d.c))
  }

  // The closure runExport hands to newChunker, for an attempt that resumes after chunks
  // cut with the sizes `cs`.
  class Upload {
    const r: Runner
    const id: nat
    const g: Gen
    ghost const tar: Bytes                 // the stream this attempt regenerates
    ghost const cs: seq<Size>
    ghost const fit: bool

    constructor (r: Runner, id: nat, g: Gen, ghost tar: Bytes, ghost cs: seq<Size>, ghost fit: bool)
      ensures this.r == r && this.id == id && this.g == g
      ensures this.tar == tar && this.cs == cs && this.fit == fit
    {
      this.r, this.id, this.g, this.tar, this.cs, this.fit := r, id, g, tar, cs, fit;
    }

    ghost predicate Ready()
      reads this, r
    {
      && r.Valid() && Unmarked(r.d) && tar == TarOf(r.env.t, r.d.dir.value.files)
      && id in r.d.jobs && r.d.jobs[id].gen == Some(g) && |cs| <= |Ledger()|
      && Mixed(r.env.codec, tar, g, cs, r.d.c, Ledger(), r.d.bucket.chunks)
      && (fit ==> r.Sound() && Fit(r.d, g, |cs|, |tar|))
    }

    ghost function Ledger(): seq<ChunkRow>
      reads this, r
      requires id in r.d.jobs
    {
      r.d.jobs[id].ledger
    }

    // What a chunk upload leaves alone.
    twostate predicate Elsewhere()
      reads this, r
    {
      && old(r.hist) <= r.hist && r.d.dir == old(r.d.dir) && r.d.c == old(r.d.c) && r.faults >= old(r.faults)
      && old(id in r.d.jobs) && id in r.d.jobs && r.d.jobs[id].total == old(r.d.jobs[id].total)
      && old(Ledger()) <= Ledger()
    }

    method Mark(s: State) returns (ok: bool)
      requires Ready()
      modifies r`d, r`hist, r`faults
      ensures Ready() && Elsewhere() && Ledger() == old(Ledger()) && r.d.bucket == old(r.d.bucket)
      ensures r.d.cut == old(r.d.cut)
      ensures r.faults == old(r.faults) ==> ok
    {
      hide Inv, IsRun, IsCareful, TarOf, Original, Mixed, Count;
      if fit { MarkKeeps(r.d, id, s, g, |cs|, |tar|); }
      ok := r.Commit(SetState(id, s));
    }

    method Put(res: ChunkResult) returns (ok: bool)
      requires Ready() && res.idx == |Ledger()| && res.idx < Count(|tar|, r.d.c)
      requires At(res.idx, r.d.c) <= |tar| && res == ResultOf(r.env.codec, tar, r.d.c, res.idx)
      modifies r`d, r`hist, r`faults
      ensures Ready() && Elsewhere() && Ledger() == old(Ledger())
      ensures ok ==> ChunkKey(g, res.idx) in r.d.bucket.chunks && r.d.bucket.chunks[ChunkKey(g, res.idx)] == res.staged
      ensures ok ==> g in r.d.cut && r.d.cut[g] == r.d.c
      ensures r.faults == old(r.faults) ==> ok
    {
      hide Inv, IsRun, IsCareful, TarOf, Original, Count, At, ResultOf, Mixed, Unused;
      MixedKept(r.env.codec, tar, g, cs, r.d.c, Ledger(), r.d.bucket.chunks, res.idx, res.staged);
      ok := r.Commit(PutChunk(g, res.idx, res.staged));
    }

    method RecordRow(res: ChunkResult) returns (ok: bool)
      requires Ready() && res.idx == |Ledger()| && res.idx < Count(|tar|, r.d.c)
      requires At(res.idx, r.d.c) <= |tar| && res == ResultOf(r.env.codec, tar, r.d.c, res.idx)
      requires ChunkKey(g, res.idx) in r.d.bucket.chunks && r.d.bucket.chunks[ChunkKey(g, res.idx)] == res.staged
      requires g in r.d.cut && r.d.cut[g] == r.d.c
      modifies r`d, r`hist, r`faults
      ensures Ready() && Elsewhere()
      ensures r.faults == old(r.faults) ==> ok
      ensures ok ==> |Ledger()| == old(|Ledger()|) + 1
    {
      hide Inv, IsRun, IsCareful, TarOf, Original, Count, At, Window, Mixed;
      var row := ChunkRow(res.idx, ChunkKey(g, res.idx), res.raw, |res.staged|, res.sum);
      MixedIndexed(r.env.codec, tar, g, cs, r.d.c, Ledger(), r.d.bucket.chunks);
      UpsertAppends(Ledger(), row);
      MixedGrows(r.env.codec, tar, g, cs, r.d.c, Ledger(), r.d.bucket.chunks, row);
      ok := r.Commit(Record(id, row));
    }

    // Upload one chunk, then record it: the two effects between which an attempt
    // may be cut off.
    method Accept(res: ChunkResult) returns (ok: bool)
      requires Ready() && res.idx == |Ledger()| && res.idx < Count(|tar|, r.d.c)
      requires At(res.idx, r.d.c) <= |tar| && res == ResultOf(r.env.codec, tar, r.d.c, res.idx)
      modifies r`d, r`hist, r`faults
      ensures Ready() && Elsewhere()
      ensures r.faults == old(r.faults) ==> ok
      ensures ok ==> |Ledger()| == old(|Ledger()|) + 1
    {
      hide Inv, IsRun, IsCareful, TarOf, Original, Count, At, ResultOf, Mixed, Fit, MayPut;
      ok := r.Io();   // cancelled?
      if !ok {
        return;
      }
      ok := Mark(Uploading);
      if !ok {
        return;
      }
      ok := r.Io();   // the staging file
      if !ok {
        return;
      }
      ok := Put(res);
      if !ok {
        return;
      }
      ok := RecordRow(res);
      if !ok {
        return;
      }
      ok := Mark(State.Chunking);
    }
  }

  lemma MarkKeeps(d: Disk, id: nat, s: State, g: Gen, k: nat, n: nat)
    requires id in d.jobs && Fit(d, g, k, n)
    ensures Fit(d.(jobs := d.jobs[id := d.jobs[id].(state := s)]), g, k, n)
  {
    hide Count;
  }

  lemma MixedIndexed(codec: Codec, s: Bytes, g: Gen, cs: seq<Size>, c: Size, rows: seq<ChunkRow>,
                     objects: map<ChunkKey, Bytes>)
    requires Mixed(codec, s, g, cs, c, rows, objects)
    ensures forall i :: 0 <= i < |rows| ==>
              rows[i].idx == i && rows[i].key in objects && |objects[rows[i].key]| == rows[i].stored
  {
    hide At, Window;
    forall i | 0 <= i < |rows|
      ensures rows[i].idx == i && rows[i].key in objects && |objects[rows[i].key]| == rows[i].stored
    {
      assert RowCut(codec, s, SizeAt(cs, c, i), g, i, rows[i], objects);
    }
  }

  // ------------------------------------------------------------------ both together ----

  // A chunker that cuts the upload's stream.
  ghost predicate Tied(ck: Chunker, up: Upload)
    reads ck, up, up.r
  {
    && ck.Valid() && up.Ready() && ck.codec == up.r.env.codec && ck.c == up.r.d.c && ck.skip == |up.cs|
    && ck.seen <= up.tar
  }

  // And whose finished chunks are all recorded.
  ghost predicate Joined(ck: Chunker, up: Upload)
    reads ck, up, up.r
  {
    Tied(ck, up) && |up.Ledger()| == (if ck.idx < ck.skip then ck.skip else ck.idx)
  }

  lemma NextChunk(ck: Chunker, tar: Bytes, before: seq<ChunkResult>, res: ChunkResult)
    requires ck.Valid() && ck.seen <= tar && ck.calls == before + [res]
    ensures ck.idx > ck.skip && res.idx == ck.idx - 1 && res.idx < Count(|tar|, ck.c)
    ensures At(res.idx, ck.c) <= |tar| && res == ResultOf(ck.codec, tar, ck.c, res.idx)
  {
    hide Window, Count;
    StillFull(ck.codec, ck.seen, tar, ck.c, ck.skip, ck.calls);
    assert IsFull(ck.codec, tar, ck.c, ck.skip + |before|, ck.calls[|before|]);
    CountBounds(|tar|, ck.c, ck.idx - 1);
  }

  lemma SentSoFar(ck: Chunker, up: Upload)
    requires Tied(ck, up)
    ensures ChunksOf(up.r.env.codec, up.tar, up.r.d.c, |up.cs|, ck.calls)
  {
    hide Inv, IsRun, IsCareful, TarOf, Original, Mixed, Fit, FullChunks, ChunksOf;
    StillFull(ck.codec, ck.seen, up.tar, ck.c, ck.skip, ck.calls);
    FullIsChunks(ck.codec, up.tar, ck.c, ck.skip, ck.calls);
  }

  // chunker.Write with its sink: cut p at chunk boundaries, upload what is finished.
  method Write(ck: Chunker, up: Upload, p: Bytes) returns (n: nat, ok: bool)
    requires Joined(ck, up) && ck.seen + p <= up.tar
    modifies ck, up.r`d, up.r`hist, up.r`faults
    ensures Tied(ck, up) && up.Elsewhere() && n <= |p|
    ensures ok ==> Joined(ck, up) && n == |p| && ck.seen == old(ck.seen) + p
    ensures up.r.faults == old(up.r.faults) ==> ok
  {
    hide Inv, IsRun, IsCareful, TarOf, Original, Count, At, Mixed, Fit, FullChunks;
    ok := up.r.Io();   // cancelled?
    if !ok {
      return 0, false;
    }
    var rest := p;
    while rest != []
      invariant Joined(ck, up) && |rest| <= |p| && up.Elsewhere()
      invariant ck.seen + rest == old(ck.seen) + p
      decreases |rest|
    {
      ok := up.r.Io();   // staging file and encoder
      if !ok {
        return |p| - |rest|, false;
      }
      ghost var calls, seen := ck.calls, ck.seen;
      var m, full := ck.Take(rest);
      assert seen + rest == (seen + rest[..m]) + rest[m..];
      rest := rest[m..];
      if full.Some? {
        NextChunk(ck, up.tar, calls, full.value);
        ok := up.Accept(full.value);
        if !ok {
          return |p| - |rest|, false;
        }
      }
    }
    n, ok := |p|, true;
  }

  // chunker.Close with its sink.
  method Close(ck: Chunker, up: Upload) returns (ok: bool)
    requires Joined(ck, up) && ck.seen == up.tar
    modifies ck`buf, ck`calls, up.r`d, up.r`hist, up.r`faults
    ensures up.Ready() && up.Elsewhere()
    ensures ChunksOf(up.r.env.codec, up.tar, up.r.d.c, |up.cs|, ck.calls)
    ensures Count(|up.tar|, up.r.d.c) == ck.idx + (if ck.curRaw > 0 then 1 else 0)
    ensures ok ==> |up.Ledger()| == (if Count(|up.tar|, up.r.d.c) < |up.cs| then |up.cs| else Count(|up.tar|, up.r.d.c))
    ensures |ck.calls| == (if Count(|up.tar|, up.r.d.c) < |up.cs| then 0 else Count(|up.tar|, up.r.d.c) - |up.cs|)
    ensures up.r.faults == old(up.r.faults) ==> ok
  {
    hide Inv, IsRun, IsCareful, TarOf, Original, Mixed, Fit, FullChunks;
    var last := ck.Finish();
    ok := up.r.Io();   // flush and stat
    if !ok {
      return;
    }
    if last.Some? {
      ok := up.Accept(last.value);
    }
  }
}
