/** The reference's tiled matmul: wrapped blocks, transcripts, and the first winning tile. */
module TiledMatmul {
  import opened Words
  import opened Ring
  import opened Transcript
  import opened Search

  /** np.bitwise_xor.reduce over the flattened th x tw tile at (y0, x0) of a block. */
  function InnerHashTile(c: Mat, y0: nat, x0: nat, th: nat, tw: nat): Word
    requires tw > 0
  {
    XorRange(p => AsWord(At(c, y0 + p / tw, x0 + p % tw)), th * tw)
  }

  /** c holds the wrapped partial sums of the block at (i, j) after hi columns. */
  ghost predicate HoldsPartial(z: Job, c: Mat, i: nat, j: nat, bh: nat, bw: nat, hi: nat) {
    IsMat(c, bh, bw) && forall y, x :: 0 <= y < bh && 0 <= x < bw ==> c[y][x] == Wrap32(Dot(z.a, z.b, i + y, j + x, 0, hi))
  }

  lemma InnerHashTileIsTileHash(z: Job, c: Mat, i: nat, j: nat, bh: nat, bw: nat, hi: nat, y0: nat, x0: nat)
    requires HoldsPartial(z, c, i, j, bh, bw, hi) && z.tw > 0 && y0 + z.th <= bh && x0 + z.tw <= bw
    ensures InnerHashTile(c, y0, x0, z.th, z.tw) == TileHash(z.a, z.b, i + y0, j + x0, z.th, z.tw, hi)
  {
    hide Dot, Wrap32, XorRange, XorGrid, Xor;
    var f: int -> Word := p => AsWord(At(c, y0 + p / z.tw, x0 + p % z.tw));
    var g: (int, int) -> Word := (y, x) => CellWord(z.a, z.b, (i + y0) + y, (j + x0) + x, hi);
    forall y, x | 0 <= y < z.th && 0 <= x < z.tw
      ensures g(y, x) == f(y * z.tw + x)
    {
      var p := y * z.tw + x;
      Bits.DivModUnique(p, z.tw, y, x);
      assert f(p) == AsWord(At(c, y0 + y, x0 + x));
      assert g(y, x) == CellWord(z.a, z.b, (i + y0) + y, (j + x0) + x, hi);
      assert CellWord(z.a, z.b, (i + y0) + y, (j + x0) + x, hi) == AsWord(Wrap32(Dot(z.a, z.b, (i + y0) + y, (j + x0) + x, 0, hi)));
      assert At(c, y0 + y, x0 + x) == c[y0 + y][x0 + x] == Wrap32(Dot(z.a, z.b, i + (y0 + y), j + (x0 + x), 0, hi));
    }
    XorGridFlat(f, g, z.th, z.tw, z.th * z.tw);
  }

  /** C_block + A[i:i_max, p:p_max] @ B[p:p_max, j:j_max], wrapped to int32. */
  function AddChunk(z: Job, c: Mat, i: nat, j: nat, p: nat, pMax: nat): Mat {
    seq(|c|, y requires 0 <= y < |c| =>
      seq(|c[y]|, x requires 0 <= x < |c[y]| => Wrap32(c[y][x] + Dot(z.a, z.b, i + y, j + x, p, pMax))))
  }

  lemma AddChunkHolds(z: Job, c: Mat, i: nat, j: nat, bh: nat, bw: nat, p: nat, pMax: nat)
    requires HoldsPartial(z, c, i, j, bh, bw, p) && p <= pMax
    ensures HoldsPartial(z, AddChunk(z, c, i, j, p, pMax), i, j, bh, bw, pMax)
  {
    hide Dot, Wrap32;
    var c' := AddChunk(z, c, i, j, p, pMax);
    forall y, x | 0 <= y < bh && 0 <= x < bw
      ensures c'[y][x] == Wrap32(Dot(z.a, z.b, i + y, j + x, 0, pMax))
    {
      DotSplit(z.a, z.b, i + y, j + x, 0, p, pMax);
      WrapAdd(Dot(z.a, z.b, i + y, j + x, 0, p), Dot(z.a, z.b, i + y, j + x, p, pMax));
    }
  }

  /** transcripts[hi][wi] for the tiles of one block. */
  type Transcripts = seq<seq<Block>>

  /** Transcript of tile (hi, wi) of the block at (i, j) after c reductions. */
  function TileWords(z: Job, i: nat, j: nat, hi: nat, wi: nat, c: nat): Block {
    TileTranscript(z.a, z.b, i + hi * z.th, j + wi * z.tw, z.th, z.tw, z.r, c)
  }

  /** The transcripts of tile row hi of the block at (i, j) have taken c reductions. */
  ghost predicate RowReduced(z: Job, row: seq<Block>, i: nat, j: nat, hi: nat, ntw: nat, c: nat) {
    |row| == ntw && forall wi :: 0 <= wi < ntw ==> row[wi] == TileWords(z, i, j, hi, wi, c)
  }

  ghost predicate Reduced(z: Job, t: Transcripts, i: nat, j: nat, nth: nat, ntw: nat, c: nat) {
    |t| == nth && forall hi :: 0 <= hi < nth ==> RowReduced(z, t[hi], i, j, hi, ntw, c)
  }

  method FoldRow(z: Job, row: seq<Block>, c: Mat, i: nat, j: nat, bh: nat, bw: nat, reduction: nat, hi: nat)
      returns (row': seq<Block>)
    requires z.th > 0 && z.tw > 0 && HoldsPartial(z, c, i, j, bh, bw, z.r * (reduction + 1))
    requires hi < bh / z.th && RowReduced(z, row, i, j, hi, bw / z.tw, reduction)
    ensures RowReduced(z, row', i, j, hi, bw / z.tw, reduction + 1)
  {
    var ntw := bw / z.tw;
    row' := row;
    for wi := 0 to ntw
      invariant |row'| == ntw
      invariant forall x :: 0 <= x < wi ==> row'[x] == TileWords(z, i, j, hi, x, reduction + 1)
      invariant forall x :: wi <= x < ntw ==> row'[x] == row[x]
    {
      hide TileWords, InnerHashTile, HoldsPartial, Fold;
      var h := InnerHashTile(c, hi * z.th, wi * z.tw, z.th, z.tw);
      FoldStep(z, c, i, j, bh, bw, reduction, hi, wi);
      row' := row'[wi := Fold(row'[wi], reduction, h)];
    }
  }

  /** Fold the inner hash of every tile into slot reduction % 16 of its transcript. */
  method FoldBlock(z: Job, t: Transcripts, c: Mat, i: nat, j: nat, bh: nat, bw: nat, reduction: nat)
      returns (t': Transcripts)
    requires z.th > 0 && z.tw > 0 && HoldsPartial(z, c, i, j, bh, bw, z.r * (reduction + 1))
    requires Reduced(z, t, i, j, bh / z.th, bw / z.tw, reduction)
    ensures Reduced(z, t', i, j, bh / z.th, bw / z.tw, reduction + 1)
  {
    hide RowReduced, HoldsPartial;
    var nth, ntw := bh / z.th, bw / z.tw;
    t' := t;
    for hi := 0 to nth
      invariant |t'| == nth
      invariant forall y :: 0 <= y < hi ==> RowReduced(z, t'[y], i, j, y, ntw, reduction + 1)
      invariant forall y :: hi <= y < nth ==> t'[y] == t[y]
    {
      var row := FoldRow(z, t'[hi], c, i, j, bh, bw, reduction, hi);
      t' := t'[hi := row];
    }
  }

  lemma FoldStep(z: Job, c: Mat, i: nat, j: nat, bh: nat, bw: nat, reduction: nat, hi: nat, wi: nat)
    requires z.th > 0 && z.tw > 0 && HoldsPartial(z, c, i, j, bh, bw, z.r * (reduction + 1))
    requires hi < bh / z.th && wi < bw / z.tw
    ensures Fold(TileWords(z, i, j, hi, wi, reduction), reduction, InnerHashTile(c, hi * z.th, wi * z.tw, z.th, z.tw))
         == TileWords(z, i, j, hi, wi, reduction + 1)
  {
    hide Dot, XorRange, TileHash, InnerHashTile, HoldsPartial, Fold;
    TileFits(bh, z.th, hi);
    TileFits(bw, z.tw, wi);
    InnerHashTileIsTileHash(z, c, i, j, bh, bw, z.r * (reduction + 1), hi * z.th, wi * z.tw);
  }

  lemma TileFits(extent: nat, size: nat, index: nat)
    requires size > 0
    ensures index < extent / size <==> (index + 1) * size <= extent
  {
    var q, rest := extent / size, extent % size;
    assert extent == q * size + rest;
    if index < q {
      assert (index + 1) * size <= q * size;
    } else {
      assert (index + 1) * size >= (q + 1) * size == q * size + size;
    }
  }

  // ---------- one block ----------

  function ZeroMat(rows: nat, cols: nat): (c: Mat)
    ensures IsMat(c, rows, cols)
    ensures forall y, x :: 0 <= y < rows && 0 <= x < cols ==> c[y][x] == 0
  {
    Tabulate(rows, cols, (_, _) => 0)
  }

  function ZeroTranscripts(nth: nat, ntw: nat): Transcripts {
    seq(nth, _ => seq(ntw, _ => Zeros()))
  }

  /** p is where chunk number `chunk` starts, or the end of a last, ragged chunk. */
  predicate Started(p: nat, chunk: nat, r: nat, k: nat) {
    p == chunk * r && (p <= k || (chunk > 0 && (chunk - 1) * r < k))
  }

  lemma StartedNext(p: nat, chunk: nat, r: nat, k: nat)
    requires Started(p, chunk, r, k) && p < k
    ensures Started(p + r, chunk + 1, r, k) && r * (chunk + 1) == p + r
  {
    assert (chunk + 1) * r == chunk * r + r;
  }

  lemma StartedEnd(p: nat, chunk: nat, r: nat, k: nat)
    requires Started(p, chunk, r, k) && k <= p && r > 0
    ensures k / r == if p <= k then chunk else chunk - 1
    ensures p > k ==> chunk > 0
    ensures k >= r <==> k / r > 0
  {
    if p == k {
      Bits.DivModUnique(k, r, chunk, 0);
    } else {
      assert chunk * r == (chunk - 1) * r + r;
      Bits.DivModUnique(k, r, chunk - 1, k - (chunk - 1) * r);
    }
    TileFits(k, r, 0);
  }

  /** The k loop of one block: its wrapped product and, if it was ever reduced, its transcripts. */
  method RunBlock(z: Job, i: nat, j: nat, bh: nat, bw: nat)
      returns (c: Mat, t: Transcripts, hasFull: bool)
    requires WellFormed(z)
    ensures HoldsPartial(z, c, i, j, bh, bw, z.k)
    ensures hasFull <==> bh >= z.th && bw >= z.tw && z.k >= z.r
    ensures hasFull ==> Reduced(z, t, i, j, bh / z.th, bw / z.tw, z.k / z.r)
  {
    hide HoldsPartial, Reduced, Started, AddChunk, ZeroMat, ZeroTranscripts;
    var hashed := bh >= z.th && bw >= z.tw;
    t := ZeroTranscripts(bh / z.th, bw / z.tw);
    c := ZeroMat(bh, bw);
    StartBlock(z, i, j, bh, bw);
    var reduction := 0;
    hasFull := false;
    var p := 0;
    ghost var chunk := 0;
    assert Started(0, 0, z.r, z.k) by { StartedAtZero(z.r, z.k); }
    while p < z.k
      invariant Started(p, chunk, z.r, z.k)
      invariant HoldsPartial(z, c, i, j, bh, bw, Min(p, z.k))
      invariant Reduced(z, t, i, j, bh / z.th, bw / z.tw, reduction)
      invariant hashed && p <= z.k ==> reduction == chunk
      invariant hashed && p > z.k ==> reduction == chunk - 1
      invariant !hashed ==> reduction == 0
      invariant hasFull <==> reduction > 0
      decreases z.k - p
    {
      var pMax := Min(p + z.r, z.k);
      AddChunkHolds(z, c, i, j, bh, bw, p, pMax);
      c := AddChunk(z, c, i, j, p, pMax);
      StartedNext(p, chunk, z.r, z.k);
      if bh >= z.th && bw >= z.tw && pMax - p == z.r {
        t := FoldBlock(z, t, c, i, j, bh, bw, reduction);
        reduction := reduction + 1;
        hasFull := true;
      }
      p := p + z.r;
      chunk := chunk + 1;
    }
    StartedEnd(p, chunk, z.r, z.k);
  }

  lemma StartedAtZero(r: nat, k: nat)
    ensures Started(0, 0, r, k)
  {}

  lemma StartBlock(z: Job, i: nat, j: nat, bh: nat, bw: nat)
    requires z.th > 0 && z.tw > 0
    ensures HoldsPartial(z, ZeroMat(bh, bw), i, j, bh, bw, 0)
    ensures Reduced(z, ZeroTranscripts(bh / z.th, bw / z.tw), i, j, bh / z.th, bw / z.tw, 0)
  {}
}
