// import.go's chunkStream: the chunk objects read back as one tar stream, each
// object hash-checked as it drains; and the tar reader on top of it.
module ChunkStreams {
  import opened Streams
  import opened Manifests
  import opened Tar

  datatype ReadStatus = Ok | Eof | Err

  // Every object is there, hashes right, decodes to its frame's end, and is not empty.
  ghost predicate IntactRows(codec: Codec, objects: map<ChunkKey, Bytes>, rows: seq<ChunkRow>) {
    forall k :: 0 <= k < |rows| ==>
      && Checked(codec, objects, rows[k])
      && codec.dec(objects[rows[k].key]).clean && codec.dec(objects[rows[k].key]).out != []
  }

  class ChunkStream {
    const codec: Codec
    const rows: seq<ChunkRow>
    const objects: map<ChunkKey, Bytes>
    var obj: Bytes      // the open object
    var pos: nat        // decoded bytes of it already delivered
    var next: nat
    var done: nat
    var inFrame: bool
    ghost var delivered: Bytes
    ghost var faults: nat   // reads that failed for no reason in the chunks

    ghost predicate Intact() {
      IntactRows(codec, objects, rows)
    }

    ghost predicate Valid()
      reads this
    {
      && done <= next <= |rows|
      && (forall k :: 0 <= k < done ==> Checked(codec, objects, rows[k]) && codec.dec(objects[rows[k].key]).clean)
      && (if inFrame then
            && next == done + 1
            && rows[done].key in objects && obj == objects[rows[done].key]
            && pos <= |codec.dec(obj).out|
            && delivered == Plain(codec, objects, rows, done) + codec.dec(obj).out[..pos]
          else
            next == done && delivered == Plain(codec, objects, rows, done))
    }

    // The concatenation of all decoded chunks.
    ghost function Whole(): Bytes {
      Plain(codec, objects, rows, |rows|)
    }

    lemma DeliveredIsPrefix()
      requires Valid()
      ensures delivered <= Whole()
    {
      PlainGrows(codec, objects, rows, next, |rows|);
    }

    // An unopened chunk still has bytes to deliver.
    lemma Unopened()
      requires Valid() && Intact() && next < |rows|
      ensures |delivered| < |Whole()|
    {
      PlainGrows(codec, objects, rows, next, next + 1);
      PlainGrows(codec, objects, rows, next + 1, |rows|);
      assert |Plain(codec, objects, rows, next + 1)| > |Plain(codec, objects, rows, next)|;
    }

    constructor (codec: Codec, rows: seq<ChunkRow>, objects: map<ChunkKey, Bytes>)
      ensures Valid() && fresh(this) && delivered == []
      ensures this.codec == codec && this.rows == rows && this.objects == objects && faults == 0
    {
      this.codec, this.rows, this.objects := codec, rows, objects;
      obj, pos, next, done, inFrame, delivered, faults := [], 0, 0, 0, false, [], 0;
    }

    // Opening an object can fail: it may be missing, or the network may.
    method Advance() returns (st: ReadStatus)
      requires Valid() && !inFrame
      modifies this
      ensures Valid() && delivered == old(delivered)
      ensures st == Ok ==> inFrame && next == old(next) + 1
      ensures st == Eof <==> old(next) == |rows|
      ensures st != Ok ==> !inFrame && next == old(next)
      ensures faults >= old(faults) && (faults == old(faults) && Intact() ==> st != Err)
    {
      if next >= |rows| {
        return Eof;
      }
      var reachable: bool := *;
      var key := rows[next].key;
      if !reachable {
        faults := faults + 1;
        return Err;
      }
      if key !in objects {
        return Err;
      }
      obj, pos, inFrame, next := objects[key], 0, true, next + 1;
      st := Ok;
    }

    // Drains the open object, compares its hash, closes it.
    method EndChunk() returns (ok: bool)
      requires Valid() && inFrame
      modifies this
      ensures next == old(next) && faults >= old(faults) && (faults == old(faults) && Intact() ==> ok)
      ensures ok ==> !inFrame && done == next && Checked(codec, objects, rows[done - 1])
      ensures ok ==> codec.sum(old(obj)) == rows[done - 1].sum
      ensures ok ==> forall k :: 0 <= k < done ==> Checked(codec, objects, rows[k])
      ensures ok && old(pos) == |codec.dec(old(obj)).out| && codec.dec(old(obj)).clean ==>
                Valid() && delivered == old(delivered)
    {
      var drained: bool := *;
      if !drained {
        faults := faults + 1;
        return false;
      }
      if codec.sum(obj) != rows[next - 1].sum {
        return false;
      }
      inFrame, done := false, done + 1;
      ok := true;
    }

    // zstd's Read: some of the remaining decoded bytes, end-of-frame or an error.
    method Decode(max: nat) returns (p: Bytes, st: ReadStatus)
      requires Valid() && inFrame
      modifies this`pos, this`delivered, this`faults
      ensures Valid() && |p| <= max && delivered == old(delivered) + p
      ensures st == Eof ==> pos == |codec.dec(obj).out| && codec.dec(obj).clean
      ensures st == Ok && max > 0 ==> |p| > 0
      ensures faults >= old(faults) && (faults == old(faults) && Intact() ==> st != Err)
    {
      var d := codec.dec(obj);
      var left := |d.out| - pos;
      var broken: bool := *;
      var n: nat :| n <= max && n <= left && (max > 0 && left > 0 && !broken ==> n > 0);
      p := d.out[pos..pos + n];
      assert d.out[..pos + n] == d.out[..pos] + p;
      pos, delivered := pos + n, delivered + p;
      var early: bool := *;
      if broken {
        faults := faults + 1;
        st := Err;
      } else if pos == |d.out| && (early || n == 0) {
        st := if d.clean then Eof else Err;
      } else if n == 0 && max > 0 {
        st := Err;
      } else {
        st := Ok;
      }
    }

    // Delivered bytes are always a prefix of the decoded chunks; end of file
    // comes only after every chunk was opened, drained and hash-checked.
    method Read(max: nat) returns (p: Bytes, st: ReadStatus)
      requires Valid()
      modifies this
      ensures |p| <= max && (st != Err ==> Valid() && delivered == old(delivered) + p)
      ensures st == Ok && max > 0 ==> |p| > 0
      ensures st == Eof ==> p == [] && !inFrame && done == next == |rows| && delivered == Whole()
      ensures st == Eof ==> forall k :: 0 <= k < |rows| ==>
                && rows[k].key in objects && codec.sum(objects[rows[k].key]) == rows[k].sum
                && codec.dec(objects[rows[k].key]).clean
      ensures faults >= old(faults) && (faults == old(faults) && Intact() ==> st != Err)
    {
      p := [];
      while true
        invariant Valid() && delivered == old(delivered) && p == [] && faults >= old(faults)
        decreases 2 * (|rows| - next) + (if inFrame then 1 else 0)
      {
        if !inFrame {
          st := Advance();
          if st != Ok {
            return;
          }
        }
        p, st := Decode(max);
        if st == Eof {
          var ok := EndChunk();
          if !ok {
            st := Err;
            return;
          }
          if |p| > 0 {
            st := Ok;
            return;
          }
        } else {
          return;
        }
      }
    }

    // finish succeeds only when every chunk was opened and its hash checked.
    method Finish() returns (ok: bool)
      requires Valid()
      modifies this
      ensures ok ==> next == done == |rows| && forall k :: 0 <= k < |rows| ==> Checked(codec, objects, rows[k])
      ensures ok ==> forall k :: 0 <= k < |rows| ==>
                rows[k].key in objects && codec.sum(objects[rows[k].key]) == rows[k].sum
      ensures faults >= old(faults) && (faults == old(faults) && Intact() && old(delivered) == Whole() ==> ok)
    {
      if Intact() && next < |rows| { Unopened(); }
      if inFrame {
        ok := EndChunk();
        if !ok {
          return;
        }
      }
      ok := next == |rows|;
    }

    // tryReadFull: n bytes, or fewer and the end of file.
    method TryReadFull(n: nat) returns (p: Bytes, st: ReadStatus)
      requires Valid()
      modifies this
      ensures st != Err ==> Valid() && delivered == old(delivered) + p && |p| <= n
      ensures st == Ok ==> |p| == n
      ensures st == Eof ==> |p| < n && delivered == Whole()
      ensures faults >= old(faults) && (faults == old(faults) && Intact() ==> st != Err)
    {
      hide Plain, Checked, Intact;
      p, st := [], Ok;
      while |p| < n
        invariant |p| <= n && Valid() && delivered == old(delivered) + p && faults >= old(faults)
        decreases n - |p|
      {
        var q;
        q, st := Read(n - |p|);
        if st != Ok { return; }
        p := p + q;
      }
      st := Ok;
    }

    // io.ReadFull: exactly n bytes, or end of file before the first byte.
    method ReadFull(n: nat) returns (p: Bytes, st: ReadStatus)
      requires Valid()
      modifies this
      ensures st != Err ==> Valid() && delivered == old(delivered) + p
      ensures st == Ok ==> |p| == n
      ensures st == Eof ==> n > 0 && p == [] && delivered == Whole()
      ensures faults >= old(faults)
      ensures faults == old(faults) && Intact() && st == Err ==> |old(delivered)| < |Whole()| < |old(delivered)| + n
    {
      hide Plain, Checked, Intact;
      p, st := [], Ok;
      while |p| < n
        invariant |p| <= n && Valid() && delivered == old(delivered) + p && faults >= old(faults)
        decreases n - |p|
      {
        var q;
        q, st := Read(n - |p|);
        if st == Err || (st == Eof && p != []) {
          st := Err;
          return;
        }
        if st == Eof {
          return;
        }
        p := p + q;
      }
      st := Ok;
    }
  }

  datatype NextResult = HeaderError | ArchiveEnd | Header(member: Member)

  // archive/tar's Reader over a ChunkStream.
  class TarReader {
    const t: Framing
    const cs: ChunkStream
    var pad: nat   // padding owed by the last member

    constructor (t: Framing, cs: ChunkStream)
      requires cs.Valid()
      ensures fresh(this) && this.t == t && this.cs == cs && pad == 0
    {
      this.t, this.cs, pad := t, cs, 0;
    }

    // The part of the stream not yet read.
    ghost function Rest(): Bytes
      reads this, cs
      requires |cs.delivered| <= |cs.Whole()|
    {
      cs.Whole()[|cs.delivered|..]
    }

    ghost predicate Valid()
      reads this, cs
    {
      cs.Valid() && cs.delivered <= cs.Whole()
    }

    // Exactly n bytes of the remaining stream.
    method Take(n: nat) returns (p: Bytes, st: ReadStatus)
      requires Valid()
      modifies cs
      ensures st != Err ==> Valid()
      ensures st == Ok ==> n <= |old(Rest())| && p == old(Rest())[..n] && Rest() == old(Rest())[n..]
      ensures st == Eof ==> n > 0 && old(Rest()) == [] == Rest()
      ensures cs.faults >= old(cs.faults)
      ensures cs.faults == old(cs.faults) && cs.Intact() && st == Err ==> 0 < |old(Rest())| < n
    {
      ghost var before := cs.delivered;
      p, st := cs.ReadFull(n);
      if st != Err {
        cs.DeliveredIsPrefix();
        assert cs.Whole()[|before|..|before| + |p|] == p;
      }
    }

    // tryReadFull of the padding: the end of input, wherever, is an end of file.
    method SkipPadding() returns (st: ReadStatus)
      requires Valid()
      modifies cs
      ensures st != Err ==> Valid()
      ensures st == Ok ==> pad <= |old(Rest())| && Rest() == old(Rest())[pad..]
      ensures st == Eof ==> |old(Rest())| < pad && Rest() == []
      ensures cs.faults >= old(cs.faults) && (cs.faults == old(cs.faults) && cs.Intact() ==> st != Err)
    {
      ghost var before := cs.delivered;
      var p;
      p, st := cs.TryReadFull(pad);
      if st != Err {
        cs.DeliveredIsPrefix();
        assert cs.Whole()[|before|..|before| + |p|] == p;
      }
    }

    method Next() returns (r: NextResult)
      requires Valid()
      modifies this, cs
      ensures r != HeaderError ==> Valid()
      ensures r == ArchiveEnd ==> ReadMember(t, old(Rest()), old(pad)) == AtEnd(Rest())
      ensures r.Header? ==>
                && old(pad) <= |old(Rest())|
                && var rest := old(Rest())[old(pad)..];
                   var h := ScanHeader(t, rest, 0);
                   h.Found? && h.member == r.member && Rest() == rest[h.used..]
      ensures cs.faults >= old(cs.faults)
      ensures cs.faults == old(cs.faults) && cs.Intact() && r == HeaderError ==>
                ReadMember(t, old(Rest()), old(pad)) == Failed
    {
      hide Plain, Padding, ScanHeader, IntactRows;
      var st := SkipPadding();
      if st == Eof { return ArchiveEnd; }
      if st == Err { return HeaderError; }
      r := ReadHeader();
    }

    // readHeader: blocks until they make a header, the trailer, or nonsense.
    method ReadHeader() returns (r: NextResult)
      requires Valid()
      modifies cs
      ensures r != HeaderError ==> Valid()
      ensures r == ArchiveEnd ==>
                ScanHeader(t, old(Rest()), 0).Finished? && Rest() == old(Rest())[ScanHeader(t, old(Rest()), 0).used..]
      ensures r.Header? ==>
                var h := ScanHeader(t, old(Rest()), 0);
                h.Found? && h.member == r.member && Rest() == old(Rest())[h.used..]
      ensures cs.faults >= old(cs.faults)
      ensures cs.faults == old(cs.faults) && cs.Intact() && r == HeaderError ==>
                ScanHeader(t, old(Rest()), 0).Malformed?
    {
      hide Plain, IntactRows;
      ghost var rest := Rest();
      var head: Bytes := [];
      while true
        invariant Valid() && |head| <= |rest| && head == rest[..|head|] && Rest() == rest[|head|..]
        invariant ScanHeader(t, rest, 0) == ScanHeader(t, rest, |head|) && cs.faults >= old(cs.faults)
        decreases |rest| - |head|
      {
        var block, st := Take(BLOCK);
        if st == Eof { return ArchiveEnd; }
        if st == Err { return HeaderError; }
        assert rest[..|head| + BLOCK] == head + block;
        head := head + block;
        match t.parse(head) {
          case More =>
          case Bad => return HeaderError;
          case End => return ArchiveEnd;
          case Entry(m) => return Header(m);
        }
      }
    }

    // io.Copy of one member's content.
    method Content(size: nat) returns (data: Bytes, ok: bool)
      requires Valid()
      modifies this, cs
      ensures ok ==> Valid() && size <= |old(Rest())| && data == old(Rest())[..size]
                     && Rest() == old(Rest())[size..] && pad == Padding(size)
      ensures cs.faults >= old(cs.faults)
      ensures (cs.faults == old(cs.faults) && cs.Intact() && !ok ==> size > |old(Rest())|)
    {
      var st;
      data, st := Take(size);
      ok := st == Ok;
      pad := Padding(size);
    }
  }
}
