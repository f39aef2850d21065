// The manifest and the bucket as one cart sees it. Object keys are structured
// here; Keys.dfy shows that their printed form is injective.
module Manifests {
  import opened Options
  import opened Streams
  import opened Chunking

  type Gen = string

  datatype ChunkKey = ChunkKey(gen: Gen, idx: nat)
  // One ledger row and, with the same fields, one manifest chunk entry.
  datatype ChunkRow = ChunkRow(idx: nat, key: ChunkKey, raw: nat, stored: nat, sum: Digest)
  datatype FileEntry = FileEntry(name: string, size: nat, mode: nat, mtime: int, sum: Digest)
  datatype Manifest = Manifest(
    version: int, cart: string, gen: Gen, exportedAt: int,
    files: seq<FileEntry>, chunks: seq<ChunkRow>,
    logical: nat, stored: nat, count: nat)

  datatype Bucket = Bucket(chunks: map<ChunkKey, Bytes>, manifests: map<Gen, Manifest>)

  const MANIFEST_VERSION := 2

  // catalog.Decode's checks.
  predicate Decodes(m: Manifest) {
    m.version == MANIFEST_VERSION && m.cart != "" && m.gen != "" && |m.chunks| > 0
  }

  // The decoded bytes of the first k chunk objects, glued.
  function Plain(codec: Codec, objects: map<ChunkKey, Bytes>, rows: seq<ChunkRow>, k: nat): Bytes
    requires k <= |rows|
  {
    if k == 0 then []
    else
      Plain(codec, objects, rows, k - 1) +
      (if rows[k - 1].key in objects then codec.dec(objects[rows[k - 1].key]).out else [])
  }

  lemma {:induction false} PlainGrows(codec: Codec, objects: map<ChunkKey, Bytes>, rows: seq<ChunkRow>, j: nat, k: nat)
    requires j <= k <= |rows|
    ensures Plain(codec, objects, rows, j) <= Plain(codec, objects, rows, k)
  {
    if j < k { PlainGrows(codec, objects, rows, j, k - 1); }
  }

  // The object behind row k is present and hashes to what the row says.
  predicate Checked(codec: Codec, objects: map<ChunkKey, Bytes>, row: ChunkRow) {
    row.key in objects && codec.sum(objects[row.key]) == row.sum
  }

  // The ledger rows of an uninterrupted export of stream s as generation g.
  function RowFor(codec: Codec, s: Bytes, c: nat, g: Gen, i: nat): ChunkRow
    requires At(i, c) <= |s|
  {
    var r := ResultOf(codec, s, c, i);
    ChunkRow(i, ChunkKey(g, i), r.raw, |r.staged|, r.sum)
  }

  ghost predicate RowsOf(codec: Codec, s: Bytes, c: Size, g: Gen, rows: seq<ChunkRow>) {
    && |rows| <= Count(|s|, c)
    && forall i :: 0 <= i < |rows| ==> At(i, c) <= |s| && rows[i] == RowFor(codec, s, c, g, i)
  }

  // Every row's object is in the bucket with the content its window demands.
  ghost predicate ObjectsOf(codec: Codec, s: Bytes, c: Size, g: Gen, objects: map<ChunkKey, Bytes>, k: nat) {
    forall i: nat :: i < k && At(i, c) <= |s| ==>
      ChunkKey(g, i) in objects && objects[ChunkKey(g, i)] == ResultOf(codec, s, c, i).staged
  }

  // Decoding the objects behind a prefix of the rows yields that prefix of the stream.
  lemma {:induction false} PlainIsGlue(codec: Codec, s: Bytes, c: Size, g: Gen, objects: map<ChunkKey, Bytes>,
                                       rows: seq<ChunkRow>, k: nat)
    requires codec.Lawful() && RowsOf(codec, s, c, g, rows) && k <= |rows|
    requires ObjectsOf(codec, s, c, g, objects, k)
    ensures Plain(codec, objects, rows, k) == Glue(s, c, 0, k)
  {
    if k > 0 {
      PlainIsGlue(codec, s, c, g, objects, rows, k - 1);
      CountBounds(|s|, c, k - 1);
      assert rows[k - 1] == RowFor(codec, s, c, g, k - 1);
      assert ChunkKey(g, k - 1) in objects;
      assert codec.dec(codec.enc(Window(s, c, k - 1))) == Decoded(Window(s, c, k - 1), true);
    }
  }

  // A complete row list over intact objects decodes to the whole stream.
  lemma CompleteDecodes(codec: Codec, s: Bytes, c: Size, g: Gen, objects: map<ChunkKey, Bytes>, rows: seq<ChunkRow>)
    requires codec.Lawful() && RowsOf(codec, s, c, g, rows) && |rows| == Count(|s|, c)
    requires ObjectsOf(codec, s, c, g, objects, |rows|)
    ensures Plain(codec, objects, rows, |rows|) == s
    ensures forall i :: 0 <= i < |rows| ==> Checked(codec, objects, rows[i])
  {
    PlainIsGlue(codec, s, c, g, objects, rows, |rows|);
    GlueAll(s, c);
  }

  // ---------------------------------------------------------------- accounting ----

  // The objects behind the rows, one after the other.
  ghost function Objects(objects: map<ChunkKey, Bytes>, rows: seq<ChunkRow>): Bytes {
    if rows == [] then []
    else
      var row := rows[|rows| - 1];
      Objects(objects, rows[..|rows| - 1]) + (if row.key in objects then objects[row.key] else [])
  }

  function StoredSum(rows: seq<ChunkRow>): nat {
    if rows == [] then 0 else StoredSum(rows[..|rows| - 1]) + rows[|rows| - 1].stored
  }

  function RawSum(rows: seq<ChunkRow>, k: nat): nat
    requires k <= |rows|
  {
    if k == 0 then 0 else RawSum(rows, k - 1) + rows[k - 1].raw
  }

  // The stored total is what the bucket holds for these rows.
  lemma {:induction false} StoredIs(objects: map<ChunkKey, Bytes>, rows: seq<ChunkRow>)
    requires forall i :: 0 <= i < |rows| ==> rows[i].key in objects && |objects[rows[i].key]| == rows[i].stored
    ensures StoredSum(rows) == |Objects(objects, rows)|
  {
    if rows != [] { StoredIs(objects, rows[..|rows| - 1]); }
  }

  // ------------------------------------------------------------ several chunk sizes ----

  // Row i of generation g, cut with size c, and its object.
  ghost predicate RowCut(codec: Codec, s: Bytes, c: Size, g: Gen, i: nat, row: ChunkRow,
                         objects: map<ChunkKey, Bytes>)
  {
    && At(i, c) <= |s| && row == RowFor(codec, s, c, g, i)
    && row.key in objects && objects[row.key] == ResultOf(codec, s, c, i).staged
  }

  // The first rows were cut with the sizes cs, the others with c.
  ghost predicate Mixed(codec: Codec, s: Bytes, g: Gen, cs: seq<Size>, c: Size, rows: seq<ChunkRow>,
                        objects: map<ChunkKey, Bytes>)
  {
    forall i :: 0 <= i < |rows| ==> RowCut(codec, s, SizeAt(cs, c, i), g, i, rows[i], objects)
  }

  lemma RowDecodes(codec: Codec, s: Bytes, c: Size, g: Gen, i: nat, row: ChunkRow, objects: map<ChunkKey, Bytes>)
    requires codec.Lawful() && RowCut(codec, s, c, g, i, row, objects)
    ensures At(i, c) <= |s| && row.key in objects && codec.dec(objects[row.key]).out == Window(s, c, i)
  {
    assert codec.dec(codec.enc(Window(s, c, i))) == Decoded(Window(s, c, i), true);
  }

  lemma {:induction false} PlainPieces(codec: Codec, s: Bytes, g: Gen, sizes: seq<Size>, rows: seq<ChunkRow>,
                                       objects: map<ChunkKey, Bytes>, j: nat)
    requires codec.Lawful() && |sizes| == |rows| && j <= |rows|
    requires forall i :: 0 <= i < |rows| ==> RowCut(codec, s, sizes[i], g, i, rows[i], objects)
    ensures Plain(codec, objects, rows, j) == Pieces(s, sizes, j)
  {
    hide RowCut, Window, At;
    if j > 0 {
      PlainPieces(codec, s, g, sizes, rows, objects, j - 1);
      RowDecodes(codec, s, sizes[j - 1], g, j - 1, rows[j - 1], objects);
    }
  }

  // The raw sizes recorded are those of the pieces.
  lemma {:induction false} RawPieces(codec: Codec, s: Bytes, g: Gen, sizes: seq<Size>, rows: seq<ChunkRow>,
                                     objects: map<ChunkKey, Bytes>, j: nat)
    requires codec.Lawful() && |sizes| == |rows| && j <= |rows|
    requires forall i :: 0 <= i < |rows| ==> RowCut(codec, s, sizes[i], g, i, rows[i], objects)
    ensures RawSum(rows, j) == |Plain(codec, objects, rows, j)|
  {
    hide At;
    if j > 0 {
      RawPieces(codec, s, g, sizes, rows, objects, j - 1);
      RowDecodes(codec, s, sizes[j - 1], g, j - 1, rows[j - 1], objects);
    }
  }

  // Rows cut with any sizes decode to just those pieces of the stream, every hash
  // checking.
  lemma MixedDecodes(codec: Codec, s: Bytes, g: Gen, cs: seq<Size>, c: Size, rows: seq<ChunkRow>,
                     objects: map<ChunkKey, Bytes>)
    requires codec.Lawful() && Mixed(codec, s, g, cs, c, rows, objects)
    ensures Plain(codec, objects, rows, |rows|) == Pieces(s, Sizes(cs, c, |rows|), |rows|)
    ensures forall i :: 0 <= i < |rows| ==> Checked(codec, objects, rows[i])
    ensures RawSum(rows, |rows|) == |Plain(codec, objects, rows, |rows|)|
  {
    var sizes := Sizes(cs, c, |rows|);
    forall i | 0 <= i < |rows|
      ensures RowCut(codec, s, sizes[i], g, i, rows[i], objects) && Checked(codec, objects, rows[i])
    {
      assert RowCut(codec, s, SizeAt(cs, c, i), g, i, rows[i], objects);
    }
    PlainPieces(codec, s, g, sizes, rows, objects, |rows|);
    RawPieces(codec, s, g, sizes, rows, objects, |rows|);
  }

  // With two sizes: the resumed stream, and the stream exactly when the seam fits.
  lemma TwoSizesDecode(s: Bytes, c1: Size, c2: Size, k: nat)
    requires k <= Count(|s|, c1) && k <= Count(|s|, c2)
    ensures var n := Count(|s|, c2);
            var pieces := Pieces(s, Sizes(Same(c1, k), c2, n), n);
            ResumedStream(s, c1, c2, k) == Some(pieces) && (pieces == s <==> Seamless(|s|, c1, c2, k))
  {
    hide Glue, Count, At, Window, Pieces;
    var n := Count(|s|, c2);
    PiecesTwo(s, c1, c2, k, Sizes(Same(c1, k), c2, n), n);
    if n == k {
      NoGlue(s, c2, k);
      assert Glue(s, c1, 0, k) + [] == Glue(s, c1, 0, k);
    }
    ResumedStreamIntact(s, c1, c2, k);
  }

  lemma MixedGrows(codec: Codec, s: Bytes, g: Gen, cs: seq<Size>, c: Size, rows: seq<ChunkRow>,
                   objects: map<ChunkKey, Bytes>, row: ChunkRow)
    requires Mixed(codec, s, g, cs, c, rows, objects) && |cs| <= |rows|
    requires RowCut(codec, s, c, g, |rows|, row, objects)
    ensures Mixed(codec, s, g, cs, c, rows + [row], objects)
  {
    hide RowCut;
    var more := rows + [row];
    forall i | 0 <= i < |more| ensures RowCut(codec, s, SizeAt(cs, c, i), g, i, more[i], objects) {
      if i < |rows| { assert more[i] == rows[i]; }
    }
  }

  // An object put behind the last row leaves the rows as they are.
  lemma MixedKept(codec: Codec, s: Bytes, g: Gen, cs: seq<Size>, c: Size, rows: seq<ChunkRow>,
                  objects: map<ChunkKey, Bytes>, i: nat, blob: Bytes)
    requires Mixed(codec, s, g, cs, c, rows, objects) && |rows| <= i
    ensures Mixed(codec, s, g, cs, c, rows, objects[ChunkKey(g, i) := blob])
  {
    hide At, Window;
  }

  // The sizes so far, written out, and whatever comes next.
  lemma MixedNow(codec: Codec, s: Bytes, g: Gen, cs: seq<Size>, c: Size, rows: seq<ChunkRow>,
                 objects: map<ChunkKey, Bytes>, next: Size)
    requires Mixed(codec, s, g, cs, c, rows, objects)
    ensures Mixed(codec, s, g, Sizes(cs, c, |rows|), next, rows, objects)
  {
    hide RowCut;
    var sizes := Sizes(cs, c, |rows|);
    assert forall i :: 0 <= i < |rows| ==> SizeAt(sizes, next, i) == SizeAt(cs, c, i);
  }
}
