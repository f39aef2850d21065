// The fixed-boundary partition of a raw stream: chunk i is the window
// [i*c, (i+1)*c) of the stream, the last one cut short.
module Chunking {
  import opened Options
  import opened Streams

  // A chunk size: the daemon's -chunk-bytes.
  type Size = c: nat | c > 0 witness 1

  // i * c, by addition so that the solver stays linear.
  function At(i: nat, c: nat): nat {
    if i == 0 then 0 else At(i - 1, c) + c
  }

  lemma {:induction false} AtIsProduct(i: nat, c: nat)
    ensures At(i, c) == i * c
  {
    if i > 0 { AtIsProduct(i - 1, c); }
  }

  lemma {:induction false} AtMonotone(i: nat, j: nat, c: nat)
    requires i <= j
    ensures At(i, c) <= At(j, c)
    decreases j
  {
    if i < j { AtMonotone(i, j - 1, c); }
  }

  function Window(s: Bytes, c: nat, i: nat): Bytes
    requires At(i, c) <= |s|
  {
    s[At(i, c)..Min(At(i + 1, c), |s|)]
  }

  // The number of chunks, as export.go:137 computes it.
  function Count(total: nat, c: Size): nat {
    (total + c - 1) / c
  }

  lemma CountIs(i: nat, r: nat, c: nat)
    requires r < c
    ensures Count(At(i, c) + r, c) == i + (if r > 0 then 1 else 0)
  {
    AtIsProduct(i, c);
    if r > 0 {
      assert At(i, c) + r + c - 1 == (i + 1) * c + (r - 1);
      Quotient(i + 1, c, r - 1);
    } else {
      Quotient(i, c, c - 1);
    }
  }

  lemma Quotient(q: nat, c: nat, r: nat)
    requires r < c
    ensures (q * c + r) / c == q
  {
    var d := (q * c + r) / c;
    var m := (q * c + r) % c;
    assert d * c + m == q * c + r;
    if d < q {
      ProductGap(d, q, c);
    } else if q < d {
      ProductGap(q, d, c);
    }
  }

  lemma ProductGap(a: nat, b: nat, c: nat)
    requires a < b
    ensures a * c + c <= b * c
  {
    AtMonotone(a + 1, b, c);
    AtIsProduct(a, c);
    AtIsProduct(b, c);
  }

  // i is a chunk index exactly when its window is non-empty.
  lemma CountBounds(total: nat, c: Size, i: nat)
    ensures i < Count(total, c) <==> At(i, c) < total
  {
    var q, r := total / c, total % c;
    AtIsProduct(q, c);
    assert total == At(q, c) + r;
    CountIs(q, r, c);
    if i < q { AtMonotone(i + 1, q, c); }
    if q < i { AtMonotone(q + 1, i, c); }
  }

  // Windows from..upto glued together.
  function Glue(s: Bytes, c: Size, from: nat, upto: nat): Bytes
    requires from <= upto <= Count(|s|, c)
    decreases upto
  {
    if from == upto then []
    else
      CountBounds(|s|, c, upto - 1);
      Glue(s, c, from, upto - 1) + Window(s, c, upto - 1)
  }

  lemma {:induction false} GlueIsSlice(s: Bytes, c: Size, from: nat, upto: nat)
    requires from <= upto <= Count(|s|, c)
    ensures Min(At(from, c), |s|) <= Min(At(upto, c), |s|)
    ensures Glue(s, c, from, upto) == s[Min(At(from, c), |s|)..Min(At(upto, c), |s|)]
    decreases upto
  {
    AtMonotone(from, upto, c);
    if from < upto {
      CountBounds(|s|, c, upto - 1);
      CountBounds(|s|, c, from);
      GlueIsSlice(s, c, from, upto - 1);
    }
  }

  // The partition loses nothing and repeats nothing.
  lemma GlueAll(s: Bytes, c: Size)
    ensures Glue(s, c, 0, Count(|s|, c)) == s
  {
    GlueIsSlice(s, c, 0, Count(|s|, c));
    CountBounds(|s|, c, Count(|s|, c));
    assert s[0..|s|] == s;
  }

  // What an export decodes to when k chunks were recorded with chunk size c1 and the
  // daemon was then restarted with c2: the resume point counts ledger rows and never
  // looks at their size. None: the ledger has more rows than the new size has chunks,
  // and the export refuses.
  function ResumedStream(s: Bytes, c1: Size, c2: Size, k: nat): Option<Bytes>
    requires k <= Count(|s|, c1)
  {
    if k > Count(|s|, c2) then None else Some(Glue(s, c1, 0, k) + Glue(s, c2, k, Count(|s|, c2)))
  }

  // Such an export is intact exactly when nothing was recorded, the size is unchanged,
  // or both sizes cut the stream into the k chunks already recorded.
  predicate Seamless(n: nat, c1: Size, c2: Size, k: nat) {
    k == 0 || c1 == c2 || k == Count(n, c1) == Count(n, c2)
  }

  lemma ResumedStreamIntact(s: Bytes, c1: Size, c2: Size, k: nat)
    requires k <= Count(|s|, c1)
    ensures ResumedStream(s, c1, c2, k) == Some(s) <==> Seamless(|s|, c1, c2, k)
  {
    var n := |s|;
    if k <= Count(n, c2) {
      GlueIsSlice(s, c1, 0, k);
      GlueIsSlice(s, c2, k, Count(n, c2));
      CountBounds(n, c2, Count(n, c2));
      var a, b := Min(At(k, c1), n), Min(At(k, c2), n);
      assert ResumedStream(s, c1, c2, k) == Some(s[..a] + s[b..n]);
      if a == b {
        assert s[..a] + s[b..n] == s;
      } else {
        assert |s[..a] + s[b..n]| != |s|;
      }
      SeamlessMeets(n, c1, c2, k);
    }
  }

  lemma SeamlessMeets(n: nat, c1: Size, c2: Size, k: nat)
    requires k <= Count(n, c1) && k <= Count(n, c2)
    ensures Seamless(n, c1, c2, k) <==> Min(At(k, c1), n) == Min(At(k, c2), n)
  {
    CountBounds(n, c1, k);
    CountBounds(n, c2, k);
    AtIsProduct(k, c1);
    AtIsProduct(k, c2);
    ProductsDiffer(k, c1, c2);
  }

  lemma ProductsDiffer(k: nat, a: nat, b: nat)
    ensures k * a == k * b <==> k == 0 || a == b
  {
    if k > 0 && a < b {
      assert k * b == k * a + k * (b - a);
      assert k * (b - a) > 0;
    } else if k > 0 && b < a {
      assert k * a == k * b + k * (a - b);
      assert k * (a - b) > 0;
    }
  }

  // A concrete loss: a 5-byte stream, one 2-byte chunk recorded, then size 3.
  lemma ResumedStreamLosesBytes()
    ensures ResumedStream([1, 2, 3, 4, 5], 2, 3, 1) == Some([1, 2, 4, 5])
  {
    var s: Bytes := [1, 2, 3, 4, 5];
    assert |s| == 5 && Count(5, 3) == 2 && Count(5, 2) == 3;
    GlueIsSlice(s, 2, 0, 1);
    GlueIsSlice(s, 3, 1, 2);
    assert Glue(s, 2, 0, 1) == [1, 2] && Glue(s, 3, 1, 2) == [4, 5];
    assert Glue(s, 2, 0, 1) + Glue(s, 3, 1, 2) == [1, 2, 4, 5];
    assert At(1, 2) == 2 && At(1, 3) == 3 && At(2, 3) == 6;
  }

  // ------------------------------------------------------------- any number of sizes ----

  // Chunk i of size c, if the stream reaches that far.
  function Piece(s: Bytes, c: Size, i: nat): Bytes {
    if At(i, c) <= |s| then Window(s, c, i) else []
  }

  lemma PieceIsSlice(s: Bytes, c: Size, i: nat)
    ensures Min(At(i, c), |s|) <= Min(At(i + 1, c), |s|)
    ensures Piece(s, c, i) == s[Min(At(i, c), |s|)..Min(At(i + 1, c), |s|)]
  {
  }

  // Chunk i cut with sizes[i], the first j of them glued together.
  function Pieces(s: Bytes, sizes: seq<Size>, j: nat): Bytes
    requires j <= |sizes|
  {
    if j == 0 then []
    else Pieces(s, sizes, j - 1) + Piece(s, sizes[j - 1], j - 1)
  }

  // Where chunk i would start, and where the chunk before it ends.
  function StartAt(n: nat, sizes: seq<Size>, i: nat): nat
    requires i < |sizes|
  {
    Min(At(i, sizes[i]), n)
  }

  function EndBefore(n: nat, sizes: seq<Size>, i: nat): nat
    requires i <= |sizes|
  {
    if i == 0 then 0 else Min(At(i, sizes[i - 1]), n)
  }

  // Every chunk starts where the one before it ended.
  predicate Seams(n: nat, sizes: seq<Size>, j: nat)
    requires j <= |sizes|
  {
    forall i :: 0 <= i < j ==> StartAt(n, sizes, i) == EndBefore(n, sizes, i)
  }

  // What the seams lose, less what they repeat.
  function Gaps(n: nat, sizes: seq<Size>, j: nat): int
    requires j <= |sizes|
  {
    if j == 0 then 0 else Gaps(n, sizes, j - 1) + StartAt(n, sizes, j - 1) - EndBefore(n, sizes, j - 1)
  }

  lemma {:induction false} PiecesLength(s: Bytes, sizes: seq<Size>, j: nat)
    requires j <= |sizes|
    ensures |Pieces(s, sizes, j)| == EndBefore(|s|, sizes, j) - Gaps(|s|, sizes, j)
  {
    hide Piece, Pieces, EndBefore, StartAt, Gaps, At, Window;
    if j == 0 {
      NoPieces(s, sizes);
    } else {
      PiecesLength(s, sizes, j - 1);
      PiecesNext(s, sizes, j);
      PieceLength(s, sizes, j);
    }
  }

  lemma PieceLength(s: Bytes, sizes: seq<Size>, j: nat)
    requires 0 < j <= |sizes|
    ensures |Piece(s, sizes[j - 1], j - 1)| == EndBefore(|s|, sizes, j) - StartAt(|s|, sizes, j - 1)
    ensures Gaps(|s|, sizes, j) ==
            Gaps(|s|, sizes, j - 1) + StartAt(|s|, sizes, j - 1) - EndBefore(|s|, sizes, j - 1)
  {
    hide Piece, At;
    PieceIsSlice(s, sizes[j - 1], j - 1);
  }

  lemma {:induction false} SeamsGlue(s: Bytes, sizes: seq<Size>, j: nat)
    requires j <= |sizes| && Seams(|s|, sizes, j)
    ensures EndBefore(|s|, sizes, j) <= |s| && Pieces(s, sizes, j) == s[..EndBefore(|s|, sizes, j)]
  {
    hide Piece, Seams, Pieces, EndBefore, StartAt, At, Window;
    if j == 0 {
      NoPieces(s, sizes);
    } else {
      SeamBefore(|s|, sizes, j);
      SeamsGlue(s, sizes, j - 1);
      PiecesNext(s, sizes, j);
      PieceAtSeam(s, sizes, j);
      SlicesJoin(s, EndBefore(|s|, sizes, j - 1), EndBefore(|s|, sizes, j));
    }
  }

  lemma NoPieces(s: Bytes, sizes: seq<Size>)
    ensures Pieces(s, sizes, 0) == [] && EndBefore(|s|, sizes, 0) == 0 && Gaps(|s|, sizes, 0) == 0
  {
  }

  lemma PieceAtSeam(s: Bytes, sizes: seq<Size>, j: nat)
    requires 0 < j <= |sizes| && StartAt(|s|, sizes, j - 1) == EndBefore(|s|, sizes, j - 1)
    ensures EndBefore(|s|, sizes, j - 1) <= EndBefore(|s|, sizes, j) <= |s|
    ensures Piece(s, sizes[j - 1], j - 1) == s[EndBefore(|s|, sizes, j - 1)..EndBefore(|s|, sizes, j)]
  {
    hide Piece, At;
    PieceIsSlice(s, sizes[j - 1], j - 1);
  }

  lemma SeamBefore(n: nat, sizes: seq<Size>, j: nat)
    requires 0 < j <= |sizes| && Seams(n, sizes, j)
    ensures Seams(n, sizes, j - 1) && StartAt(n, sizes, j - 1) == EndBefore(n, sizes, j - 1)
  {
  }

  lemma PiecesNext(s: Bytes, sizes: seq<Size>, j: nat)
    requires 0 < j <= |sizes|
    ensures Pieces(s, sizes, j) == Pieces(s, sizes, j - 1) + Piece(s, sizes[j - 1], j - 1)
  {
  }

  lemma SlicesJoin(s: Bytes, a: nat, b: nat)
    requires a <= b <= |s|
    ensures s[..a] + s[a..b] == s[..b]
  {
  }

  // The size never went down, or never up.
  predicate OneWay(sizes: seq<Size>) {
    || (forall i :: 0 < i < |sizes| ==> sizes[i - 1] <= sizes[i])
    || (forall i :: 0 < i < |sizes| ==> sizes[i - 1] >= sizes[i])
  }

  lemma {:induction false} AtMonotoneInSize(i: nat, a: nat, b: nat)
    requires a <= b
    ensures At(i, a) <= At(i, b)
  {
    if i > 0 { AtMonotoneInSize(i - 1, a, b); }
  }

  lemma {:induction false} GapsAddUp(n: nat, sizes: seq<Size>, j: nat, growing: bool)
    requires j <= |sizes|
    requires forall i :: 0 < i < |sizes| ==> if growing then sizes[i - 1] <= sizes[i] else sizes[i - 1] >= sizes[i]
    ensures if growing then Gaps(n, sizes, j) >= 0 else Gaps(n, sizes, j) <= 0
    ensures Gaps(n, sizes, j) == 0 ==> Seams(n, sizes, j)
  {
    if j > 0 {
      GapsAddUp(n, sizes, j - 1, growing);
      if j > 1 {
        if growing { AtMonotoneInSize(j - 1, sizes[j - 2], sizes[j - 1]); }
        else { AtMonotoneInSize(j - 1, sizes[j - 1], sizes[j - 2]); }
      }
    }
  }

  lemma {:induction false} PiecesPrefix(s: Bytes, sizes: seq<Size>, more: seq<Size>, j: nat)
    requires j <= |sizes|
    ensures Pieces(s, sizes + more, j) == Pieces(s, sizes, j)
  {
    hide Piece;
    if j > 0 { PiecesPrefix(s, sizes, more, j - 1); }
  }

  // A list of as many chunks as the last attempt's size makes. It is the stream when
  // every seam fits, the end counting as one; and when the size only ever went one way,
  // only then.
  lemma PiecesIntact(s: Bytes, sizes: seq<Size>, c: Size)
    requires |sizes| == Count(|s|, c)
    ensures var all := sizes + [c];
            && (Seams(|s|, all, |all|) ==> Pieces(s, sizes, |sizes|) == s)
            && (OneWay(all) ==> (Pieces(s, sizes, |sizes|) == s <==> Seams(|s|, all, |all|)))
  {
    var all, k := sizes + [c], |sizes|;
    CountBounds(|s|, c, k);
    hide Pieces, At, Count, EndBefore;
    PiecesPrefix(s, sizes, [c], k);
    PiecesLength(s, all, k);
    assert StartAt(|s|, all, k) == |s|;
    assert Gaps(|s|, all, k + 1) == |s| - |Pieces(s, sizes, k)|;
    if Seams(|s|, all, k + 1) {
      SeamsGlue(s, all, k);
      assert StartAt(|s|, all, k) == EndBefore(|s|, all, k);
      assert s[..|s|] == s;
    } else if OneWay(all) {
      GapsAddUp(|s|, all, k + 1, forall i :: 0 < i < |all| ==> all[i - 1] <= all[i]);
    }
  }

  // A size that went up and down again: a gap and an overlap of the same length, which
  // six equal bytes do not show and six different ones do.
  lemma UpAndDown()
    ensures var sizes: seq<Size> := [1, 3, 2];
            && !Seams(6, sizes + [2], 4) && |sizes| == Count(6, 2)
            && Pieces([0, 0, 0, 0, 0, 0], sizes, 3) == [0, 0, 0, 0, 0, 0]
            && Pieces([1, 2, 3, 4, 5, 6], sizes, 3) == [1, 4, 5, 6, 5, 6]
  {
    var sizes: seq<Size> := [1, 3, 2];
    assert At(1, 1) == 1 && At(1, 3) == 3 && At(2, 3) == 6 && At(1, 2) == 2 && At(2, 2) == 4 && At(3, 2) == 6;
    assert StartAt(6, sizes + [2], 1) == 3 && EndBefore(6, sizes + [2], 1) == 1;
    SixBytes([0, 0, 0, 0, 0, 0]);
    SixBytes([1, 2, 3, 4, 5, 6]);
  }

  lemma SixBytes(s: Bytes)
    requires |s| == 6
    ensures Pieces(s, [1, 3, 2], 3) == [s[0], s[3], s[4], s[5], s[4], s[5]]
  {
    var sizes: seq<Size> := [1, 3, 2];
    assert At(1, 1) == 1 && At(1, 3) == 3 && At(2, 3) == 6 && At(1, 2) == 2 && At(2, 2) == 4 && At(3, 2) == 6;
    PieceIsSlice(s, 1, 0);
    PieceIsSlice(s, 3, 1);
    PieceIsSlice(s, 2, 2);
    hide At, Piece, Pieces;
    NoPieces(s, sizes);
    PiecesNext(s, sizes, 1);
    PiecesNext(s, sizes, 2);
    PiecesNext(s, sizes, 3);
    SixJoined(s);
  }

  lemma SixJoined(s: Bytes)
    requires |s| == 6
    ensures [] + s[0..1] + s[3..6] + s[4..6] == [s[0], s[3], s[4], s[5], s[4], s[5]]
  {
  }

  function Same(c: Size, k: nat): seq<Size> {
    seq(k, _ => c)
  }

  // Size c follows the sizes given.
  function SizeAt(cs: seq<Size>, c: Size, i: nat): Size {
    if i < |cs| then cs[i] else c
  }

  function Sizes(cs: seq<Size>, c: Size, k: nat): (sizes: seq<Size>)
    ensures |sizes| == k && forall i :: 0 <= i < k ==> sizes[i] == SizeAt(cs, c, i)
  {
    seq(k, i requires 0 <= i < k => SizeAt(cs, c, i))
  }

  // Two sizes in a row are the resumed stream.
  lemma {:induction false} PiecesTwo(s: Bytes, c1: Size, c2: Size, k: nat, sizes: seq<Size>, j: nat)
    requires sizes == Sizes(Same(c1, k), c2, |sizes|) && j <= |sizes|
    requires k <= Count(|s|, c1) && (j > k ==> j <= Count(|s|, c2))
    ensures Pieces(s, sizes, j) == if j <= k then Glue(s, c1, 0, j) else Glue(s, c1, 0, k) + Glue(s, c2, k, j)
  {
    hide Window, At, Count;
    if j > 0 {
      PiecesTwo(s, c1, c2, k, sizes, j - 1);
      CountBounds(|s|, sizes[j - 1], j - 1);
      if j == k + 1 {
        NoGlue(s, c2, k);
        assert [] + Window(s, c2, k) == Window(s, c2, k);
      }
    }
  }

  lemma NoGlue(s: Bytes, c: Size, k: nat)
    requires k <= Count(|s|, c)
    ensures Glue(s, c, k, k) == []
  {
  }

  // A finished chunk as the chunker hands it to its sink.
  datatype ChunkResult = ChunkResult(idx: nat, staged: Bytes, raw: nat, sum: Digest)

  function ResultOf(codec: Codec, s: Bytes, c: nat, i: nat): ChunkResult
    requires At(i, c) <= |s|
  {
    var w := Window(s, c, i);
    ChunkResult(i, codec.enc(w), |w|, codec.sum(codec.enc(w)))
  }
}
