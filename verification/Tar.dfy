// Byte streams, the compression codec and hash as parameters, and the tar
// framing of a cart directory.
module Streams {

  newtype Byte = x: int | 0 <= x < 256
  type Bytes = seq<Byte>
  type Digest = Bytes

  // What a zstd decoder yields for an object: the bytes it can deliver, and
  // whether it then reaches end-of-frame (true) or a corruption error (false).
  datatype Decoded = Decoded(out: Bytes, clean: bool)

  // zstd and SHA-256. The only law is the round trip; hashes may collide.
  datatype Codec = Codec(enc: Bytes -> Bytes, dec: Bytes -> Decoded, sum: Bytes -> Digest) {
    ghost predicate Lawful() {
      forall b :: dec(enc(b)) == Decoded(b, true)
    }
  }

  function Zeros(n: nat): (z: Bytes)
    ensures |z| == n
  {
    seq(n, _ => 0)
  }

  function Min(a: nat, b: nat): nat {
    if a < b then a else b
  }
}

module Tar {
  import opened Options
  import opened Streams
  import opened Names

  const BLOCK: nat := 512

  datatype Meta = Meta(mode: nat, mtime: int, uid: nat, gid: nat)
  datatype File = File(meta: Meta, data: Bytes)
  type Files = map<string, File>
  datatype Member = Member(name: string, size: nat, regular: bool, meta: Meta)
  datatype Extract = Extract(member: Member, data: Bytes)

  // Header recognition is incremental: `parse` is asked after each 512-byte
  // block (a PAX record makes a header longer than one block).
  datatype Parsed = More | Bad | End | Entry(member: Member)
  datatype Framing = Framing(header: Member -> Bytes, parse: Bytes -> Parsed) {
    ghost predicate Lawful() {
      && (forall m :: HeaderLawful(m))
      && parse(Zeros(BLOCK)) == More
      && parse(Zeros(2 * BLOCK)) == End
    }

    ghost predicate HeaderLawful(m: Member) {
      var h := header(m);
      && BLOCK <= |h| && |h| % BLOCK == 0
      && parse(h) == Entry(m)
      && forall k :: 0 < k < |h| && k % BLOCK == 0 ==> parse(h[..k]) == More
    }
  }

  function Padding(size: nat): nat {
    (BLOCK - size % BLOCK) % BLOCK
  }

  function MemberOf(name: string, f: File): Member {
    Member(name, |f.data|, true, f.meta)
  }

  // The tar stream of the files called `names`, in that order.
  function Pack(t: Framing, names: seq<string>, files: Files): (s: Bytes)
    requires forall n :: n in names ==> n in files
    ensures |s| >= 2 * BLOCK
  {
    if names == [] then Zeros(2 * BLOCK)
    else
      var f := files[names[0]];
      t.header(MemberOf(names[0], f)) + f.data + Zeros(Padding(|f.data|)) + Pack(t, names[1..], files)
  }

  // Every member and the trailer fill whole 512-byte blocks.
  lemma {:induction false} PackAligned(t: Framing, names: seq<string>, files: Files)
    requires t.Lawful() && forall n :: n in names ==> n in files
    ensures |Pack(t, names, files)| % 512 == 0
  {
    if names != [] {
      var f := files[names[0]];
      var m := MemberOf(names[0], f);
      assert t.HeaderLawful(m);
      PackAligned(t, names[1..], files);
      Blocks(|t.header(m)|, |f.data|, |Pack(t, names[1..], files)|);
    }
  }

  lemma Blocks(header: nat, size: nat, rest: nat)
    requires header % BLOCK == 0 && rest % BLOCK == 0
    ensures (header + size + Padding(size) + rest) % BLOCK == 0 && Padding(size) < BLOCK
  {
    assert (size + Padding(size)) % BLOCK == 0;
  }

  function Extracts(names: seq<string>, files: Files): (e: seq<Extract>)
    requires forall n :: n in names ==> n in files
    ensures |e| == |names|
    ensures forall i :: 0 <= i < |e| ==> e[i] == Extract(MemberOf(names[i], files[names[i]]), files[names[i]].data)
  {
    seq(|names|, i requires 0 <= i < |names| =>
      Extract(MemberOf(names[i], files[names[i]]), files[names[i]].data))
  }

  // The tar stream writeCartTar produces for a directory's regular files.
  ghost function TarOf(t: Framing, files: Files): Bytes {
    Pack(t, Sorted(files.Keys), files)
  }

  ghost predicate NoSlash(name: string) {
    '/' !in name
  }

  // One archive/tar Reader.Next header scan over the remaining stream `s`, of
  // which `have` bytes are already taken. End of input on a block boundary
  // reads as end of archive; anywhere else it is a truncation.
  datatype HeaderScan = Finished(used: nat) | Malformed | Found(member: Member, used: nat)

  function ScanHeader(t: Framing, s: Bytes, have: nat): (r: HeaderScan)
    requires have <= |s|
    ensures r.Found? ==> have + BLOCK <= r.used <= |s|
    ensures r.Finished? ==> have <= r.used <= |s|
    decreases |s| - have
  {
    if have == |s| then Finished(have)
    else if have + BLOCK > |s| then Malformed
    else
      match t.parse(s[..have + BLOCK])
      case More => ScanHeader(t, s, have + BLOCK)
      case Bad => Malformed
      case End => Finished(have + BLOCK)
      case Entry(m) => Found(m, have + BLOCK)
  }

  // One turn of runImport's extraction loop on the remaining stream, `pad` bytes
  // of padding being still owed by the previous member.
  datatype Turn = AtEnd(left: Bytes) | Failed | Took(e: Extract, rest: Bytes, pad: nat)

  function ReadMember(t: Framing, s: Bytes, pad: nat): (r: Turn)
    ensures r.Took? ==> |r.rest| < |s|
  {
    if |s| < pad then AtEnd([])   // tryReadFull takes any end of input for the end
    else
      match ScanHeader(t, s[pad..], 0)
      case Finished(used) => AtEnd(s[pad..][used..])
      case Malformed => Failed
      case Found(m, used) =>
        var body := s[pad..][used..];
        if !m.regular || '/' in m.name || m.size > |body| then Failed
        else Took(Extract(m, body[..m.size]), body[m.size..], Padding(m.size))
  }

  // The whole loop: Some(members) when it reaches end of archive, None when it
  // returns an error.
  function Unpack(t: Framing, s: Bytes, pad: nat): Option<seq<Extract>>
    decreases |s|
  {
    match ReadMember(t, s, pad)
    case AtEnd(_) => Some([])
    case Failed => None
    case Took(e, rest, owed) => After([e], Unpack(t, rest, owed))
  }

  // The loop reaches end of archive with nothing behind the trailer.
  predicate Drains(t: Framing, s: Bytes, pad: nat)
    decreases |s|
  {
    match ReadMember(t, s, pad)
    case AtEnd(left) => left == []
    case Failed => false
    case Took(_, rest, owed) => Drains(t, rest, owed)
  }

  lemma {:induction false} DrainsUnpacks(t: Framing, s: Bytes, pad: nat)
    requires Drains(t, s, pad)
    ensures Unpack(t, s, pad).Some?
    decreases |s|
  {
    hide ReadMember;
    match ReadMember(t, s, pad)
    case AtEnd(_) =>
    case Took(_, rest, owed) => DrainsUnpacks(t, rest, owed);
  }

  function After(done: seq<Extract>, more: Option<seq<Extract>>): Option<seq<Extract>> {
    match more
    case None => None
    case Some(es) => Some(done + es)
  }

  // Only regular files with plain names are taken, each with as much content as its
  // header says.
  lemma {:induction false} UnpackedPlain(t: Framing, s: Bytes, pad: nat)
    requires Unpack(t, s, pad).Some?
    ensures forall e :: e in Unpack(t, s, pad).value ==>
              e.member.regular && '/' !in e.member.name && |e.data| == e.member.size
    decreases |s|
  {
    if ReadMember(t, s, pad).Took? {
      UnpackedPlain(t, ReadMember(t, s, pad).rest, ReadMember(t, s, pad).pad);
    }
  }

  lemma {:induction false} StagedNames(es: seq<Extract>)
    ensures forall n :: n in Staged(es) ==> exists i :: 0 <= i < |es| && es[i].member.name == n
  {
    if es != [] { StagedNames(es[..|es| - 1]); }
  }

  // The files an extraction leaves on disk: later members replace earlier ones.
  function Staged(es: seq<Extract>): Files {
    if es == [] then map[]
    else
      var e := es[|es| - 1];
      Staged(es[..|es| - 1])[e.member.name := File(e.member.meta, e.data)]
  }

  lemma {:induction false} ScanHeaderFinds(t: Framing, m: Member, rest: Bytes, have: nat)
    requires t.HeaderLawful(m) && have < |t.header(m)| && have % BLOCK == 0
    ensures ScanHeader(t, t.header(m) + rest, have) == Found(m, |t.header(m)|)
    decreases |t.header(m)| - have
  {
    var h := t.header(m);
    assert have + BLOCK <= |h|;
    if have + BLOCK < |h| {
      assert (h + rest)[..have + BLOCK] == h[..have + BLOCK];
      ScanHeaderFinds(t, m, rest, have + BLOCK);
    } else {
      assert (h + rest)[..have + BLOCK] == h;
    }
  }

  lemma ScanTrailer(t: Framing)
    requires t.Lawful()
    ensures ScanHeader(t, Zeros(2 * BLOCK), 0) == Finished(2 * BLOCK)
  {
    var z := Zeros(2 * BLOCK);
    assert z[..BLOCK] == Zeros(BLOCK);
    assert z[..2 * BLOCK] == z;
    assert ScanHeader(t, z, BLOCK) == Finished(2 * BLOCK);
  }

  lemma ReadPacked(t: Framing, name: string, f: File, pad: nat, tail: Bytes)
    requires t.Lawful() && NoSlash(name)
    ensures var m := MemberOf(name, f);
            ReadMember(t, Zeros(pad) + t.header(m) + f.data + tail, pad) ==
            Took(Extract(m, f.data), tail, Padding(m.size))
  {
    hide ScanHeader, Padding;
    var m := MemberOf(name, f);
    var h := t.header(m);
    var s := Zeros(pad) + h + f.data + tail;
    assert s[pad..] == h + (f.data + tail);
    assert t.HeaderLawful(m);
    ScanHeaderFinds(t, m, f.data + tail, 0);
    assert s[pad..][|h|..] == f.data + tail;
    assert (f.data + tail)[..m.size] == f.data && (f.data + tail)[m.size..] == tail;
  }

  // Unpacking a packed directory yields exactly its files, in order.
  lemma {:induction false} UnpackPack(t: Framing, names: seq<string>, files: Files, pad: nat)
    requires t.Lawful()
    requires forall n :: n in names ==> n in files && NoSlash(n)
    ensures Unpack(t, Zeros(pad) + Pack(t, names, files), pad) == Some(Extracts(names, files))
    ensures Drains(t, Zeros(pad) + Pack(t, names, files), pad)
  {
    hide ScanHeader, Padding, Extracts;
    var s := Zeros(pad) + Pack(t, names, files);
    if names == [] {
      assert s[pad..] == Zeros(2 * BLOCK);
      ScanTrailer(t);
      ExtractsSplit(names, files);
    } else {
      var f := files[names[0]];
      var tail := Zeros(Padding(|f.data|)) + Pack(t, names[1..], files);
      assert s == Zeros(pad) + t.header(MemberOf(names[0], f)) + f.data + tail;
      ReadPacked(t, names[0], f, pad, tail);
      UnpackPack(t, names[1..], files, Padding(|f.data|));
      ExtractsSplit(names, files);
    }
  }

  lemma ExtractsSplit(names: seq<string>, files: Files)
    requires forall n :: n in names ==> n in files
    ensures names == [] ==> Extracts(names, files) == []
    ensures names != [] ==>
      var f := files[names[0]];
      Extracts(names, files) == [Extract(MemberOf(names[0], f), f.data)] + Extracts(names[1..], files)
  {
  }

  lemma {:induction false} StagedExtracts(names: seq<string>, files: Files, k: nat)
    requires k <= |names| && (forall n :: n in names ==> n in files)
    ensures Staged(Extracts(names, files)[..k]) == map n | n in names[..k] :: files[n]
  {
    var e := Extracts(names, files);
    if k > 0 {
      StagedExtracts(names, files, k - 1);
      assert e[..k][..k - 1] == e[..k - 1];
      assert names[..k] == names[..k - 1] + [names[k - 1]];
    }
  }

  lemma UnpackTar(t: Framing, files: Files)
    requires t.Lawful() && (forall n :: n in files ==> NoSlash(n))
    ensures Unpack(t, TarOf(t, files), 0) == Some(Extracts(Sorted(files.Keys), files))
    ensures Drains(t, TarOf(t, files), 0)
  {
    UnpackPack(t, Sorted(files.Keys), files, 0);
    assert Zeros(0) + TarOf(t, files) == TarOf(t, files);
  }

  lemma StagedAll(files: Files)
    ensures Staged(Extracts(Sorted(files.Keys), files)) == files
  {
    hide Staged;
    var names := Sorted(files.Keys);
    var e := Extracts(names, files);
    StagedExtracts(names, files, |names|);
    assert e[..|names|] == e && names[..|names|] == names;
    assert (map n | n in names :: files[n]) == files;
  }
}
