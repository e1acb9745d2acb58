/** The reference NoisyGemm object: tiled search with an opened block, and the full run. */
module Reference {
  import opened Bits
  import opened Words
  import opened Ring
  import opened Transcript
  import opened Search
  import opened TiledMatmul
  import opened Denoise

  /** The scan over one block's transcripts: first (hi, wi) in row-major order that meets the target. */
  method ScanBlock(z: Job, t: Transcripts, nth: nat, ntw: nat) returns (hit: bool, hi: nat, wi: nat)
    requires |t| == nth && forall y :: 0 <= y < nth ==> |t[y]| == ntw
    ensures hit ==> hi < nth && wi < ntw && MeetsTarget(z, t[hi][wi])
    ensures hit ==> forall y, x :: 0 <= y < nth && 0 <= x < ntw && (y < hi || (y == hi && x < wi)) ==> !MeetsTarget(z, t[y][x])
    ensures !hit ==> forall y, x :: 0 <= y < nth && 0 <= x < ntw ==> !MeetsTarget(z, t[y][x])
  {
    hit, hi, wi := false, 0, 0;
    while hi < nth
      invariant 0 <= hi <= nth && !hit
      invariant forall y, x :: 0 <= y < hi && 0 <= x < ntw ==> !MeetsTarget(z, t[y][x])
    {
      wi := 0;
      while wi < ntw
        invariant 0 <= wi <= ntw && !hit
        invariant forall x :: 0 <= x < wi ==> !MeetsTarget(z, t[hi][x])
      {
        if MeetsTarget(z, t[hi][wi]) {
          hit := true;
          return;
        }
        wi := wi + 1;
      }
      hi := hi + 1;
    }
  }

  /** C[i:i_max, j:j_max] = C_block */
  function Paste(c: Mat, i: nat, j: nat, blk: Mat, bh: nat, bw: nat): Mat {
    seq(|c|, y requires 0 <= y < |c| =>
      seq(|c[y]|, x requires 0 <= x < |c[y]| => if i <= y < i + bh && j <= x < j + bw then At(blk, y - i, x - j) else c[y][x]))
  }

  /** Tiles of blocks before block (bi, bj) in scan order. */
  predicate Covered(t: Tile, bi: nat, bj: nat) {
    t.bi < bi || (t.bi == bi && t.bj < bj)
  }

  /** found and the opened block are right as far as blocks before (bi, bj) go. */
  ghost predicate SoFar(z: Job, bi: nat, bj: nat, found: bool, block: Option<Opened>)
    requires z.r > 0
  {
    if found then exists t :: FirstWinner(z, t) && block == Some(OpenedAt(z, t))
    else forall t :: Covered(t, bi, bj) ==> !Wins(z, t)
  }

  /** The cells of the blocks before (bi, bj) are final. */
  ghost predicate Filled(z: Job, c: Mat, rowsDone: int, rowsBusy: int, colsDone: int) {
    IsMat(c, z.m, z.n) && forall y, x :: 0 <= y < z.m && 0 <= x < z.n && (y < rowsDone || (y < rowsBusy && x < colsDone)) ==>
      c[y][x] == Wrap32(Dot(z.a, z.b, y, x, 0, z.k))
  }

  lemma PasteFills(z: Job, c: Mat, i: nat, j: nat, blk: Mat, bh: nat, bw: nat)
    requires i + bh <= z.m && j + bw <= z.n
    requires Filled(z, c, i, i + bh, j) && HoldsPartial(z, blk, i, j, bh, bw, z.k)
    ensures Filled(z, Paste(c, i, j, blk, bh, bw), i, i + bh, j + bw)
  {
    hide Dot, Wrap32;
    var c' := Paste(c, i, j, blk, bh, bw);
    forall y, x | 0 <= y < z.m && 0 <= x < z.n && (y < i || (y < i + bh && x < j + bw))
      ensures c'[y][x] == Wrap32(Dot(z.a, z.b, y, x, 0, z.k))
    {
      if i <= y < i + bh && j <= x < j + bw {
        assert blk[y - i][x - j] == Wrap32(Dot(z.a, z.b, i + (y - i), j + (x - j), 0, z.k));
      }
    }
  }

  lemma TileOfBlock(z: Job, bi: nat, bj: nat, hi: nat, wi: nat)
    requires WellFormed(z) && bi * z.r < z.m && bj * z.r < z.n
    ensures IsTile(z, Tile(bi, bj, hi, wi))
       <==> hi < Extent(bi * z.r, z.r, z.m) / z.th && wi < Extent(bj * z.r, z.r, z.n) / z.tw
  {
    TileFits(Extent(bi * z.r, z.r, z.m), z.th, hi);
    TileFits(Extent(bj * z.r, z.r, z.n), z.tw, wi);
  }

  /** A hit in the current block is the first winner of the whole search. */
  lemma HitIsFirst(z: Job, bi: nat, bj: nat, t: Transcripts, nth: nat, ntw: nat, hi: nat, wi: nat, block: Option<Opened>)
    requires WellFormed(z) && bi * z.r < z.m && bj * z.r < z.n && z.k >= z.r
    requires nth == Extent(bi * z.r, z.r, z.m) / z.th && ntw == Extent(bj * z.r, z.r, z.n) / z.tw
    requires Reduced(z, t, bi * z.r, bj * z.r, nth, ntw, z.k / z.r)
    requires SoFar(z, bi, bj, false, block)
    requires hi < nth && wi < ntw && MeetsTarget(z, t[hi][wi])
    requires forall y, x :: 0 <= y < nth && 0 <= x < ntw && (y < hi || (y == hi && x < wi)) ==> !MeetsTarget(z, t[y][x])
    ensures FirstWinner(z, Tile(bi, bj, hi, wi)) && t[hi][wi] == Words16(z, Tile(bi, bj, hi, wi))
  {
    hide TileTranscript, IsTile, MeetsTarget;
    var w := Tile(bi, bj, hi, wi);
    BlockWords(z, bi, bj, t, nth, ntw, hi, wi);
    TileOfBlock(z, bi, bj, hi, wi);
    forall u | Wins(z, u)
      ensures u == w || Before(w, u)
    {
      if u.bi == bi && u.bj == bj {
        TileOfBlock(z, bi, bj, u.hi, u.wi);
        BlockWords(z, bi, bj, t, nth, ntw, u.hi, u.wi);
      } else {
        assert !Covered(u, bi, bj);
      }
    }
  }

  lemma BlockWords(z: Job, bi: nat, bj: nat, t: Transcripts, nth: nat, ntw: nat, hi: nat, wi: nat)
    requires z.r > 0 && Reduced(z, t, bi * z.r, bj * z.r, nth, ntw, z.k / z.r) && hi < nth && wi < ntw
    ensures |t| == nth && |t[hi]| == ntw && t[hi][wi] == Words16(z, Tile(bi, bj, hi, wi))
  {
    hide TileTranscript;
    assert RowReduced(z, t[hi], bi * z.r, bj * z.r, hi, ntw, z.k / z.r);
  }

  ghost predicate NoneMeets(z: Job, t: Transcripts, nth: nat, ntw: nat) {
    forall y, x :: 0 <= y < nth && 0 <= x < ntw ==> |t| == nth && |t[y]| == ntw && !MeetsTarget(z, t[y][x])
  }

  /** Without a hit, no tile of the block wins. */
  lemma BlockMissed(z: Job, bi: nat, bj: nat, i: nat, j: nat, t: Transcripts, nth: nat, ntw: nat, hasFull: bool, block: Option<Opened>)
    requires WellFormed(z) && i == bi * z.r < z.m && j == bj * z.r < z.n
    requires nth == Extent(i, z.r, z.m) / z.th && ntw == Extent(j, z.r, z.n) / z.tw
    requires hasFull ==> Reduced(z, t, i, j, nth, ntw, z.k / z.r)
    requires hasFull ==> NoneMeets(z, t, nth, ntw)
    requires !hasFull ==> nth == 0 || ntw == 0 || z.k < z.r
    requires SoFar(z, bi, bj, false, block)
    ensures SoFar(z, bi, bj + 1, false, block)
  {
    hide TileTranscript, IsTile, MeetsTarget;
    forall u | Covered(u, bi, bj + 1) && Wins(z, u)
      ensures false
    {
      if Covered(u, bi, bj) {
      } else {
        TileOfBlock(z, bi, bj, u.hi, u.wi);
        if hasFull {
          BlockWords(z, bi, bj, t, nth, ntw, u.hi, u.wi);
        }
      }
    }
  }

  /** Past the last block column, the block row is done. */
  lemma RowDone(z: Job, bi: nat, bj: nat, found: bool, block: Option<Opened>)
    requires z.r > 0 && SoFar(z, bi, bj, found, block) && bj * z.r >= z.n
    ensures SoFar(z, bi + 1, 0, found, block)
  {
    hide TileTranscript, MeetsTarget;
    if !found {
      forall u | Covered(u, bi + 1, 0) && Wins(z, u)
        ensures false
      {
        if u.bi == bi && u.bj >= bj {
          TimesMonotone(bj, u.bj, z.r);
        }
      }
    }
  }

  lemma AllDone(z: Job, bi: nat, found: bool, block: Option<Opened>)
    requires z.r > 0 && SoFar(z, bi, 0, found, block) && bi * z.r >= z.m
    ensures Reports(z, found, block)
  {
    hide TileTranscript, MeetsTarget;
    if !found {
      forall u
        ensures !Wins(z, u)
      {
        if u.bi >= bi {
          TimesMonotone(bi, u.bi, z.r);
        }
      }
    }
  }

  class NoisyGemm {
    const noiseRange: int
    const noiseRank: nat
    const tileH: nat
    const tileW: nat
    const matmulH: nat
    const matmulW: nat
    var block: Option<Opened>   // self.opened_block

    /** __init__, with its checks; null where it raises ValueError. */
    static method Create(noiseRange: int, noiseRank: nat, tileH: nat, tileW: nat, matmulH: nat, matmulW: nat) returns (g: NoisyGemm?)
      ensures g == null <==> noiseRange > 128 || matmulH < tileH || matmulW < tileW
      ensures g != null ==> fresh(g) && g.noiseRange == noiseRange && g.noiseRank == noiseRank && g.tileH == tileH && g.tileW == tileW
      ensures g != null ==> g.matmulH == matmulH && g.matmulW == matmulW && g.block == None
    {
      if noiseRange > 128 {
        return null;
      }
      if matmulH < tileH || matmulW < tileW {
        return null;
      }
      g := new NoisyGemm(noiseRange, noiseRank, tileH, tileW, matmulH, matmulW);
    }

    constructor (noiseRange: int, noiseRank: nat, tileH: nat, tileW: nat, matmulH: nat, matmulW: nat)
      requires noiseRange <= 128 && matmulH >= tileH && matmulW >= tileW
      ensures this.noiseRange == noiseRange && this.noiseRank == noiseRank && this.tileH == tileH && this.tileW == tileW
      ensures this.matmulH == matmulH && this.matmulW == matmulW && block == None
    {
      this.noiseRange, this.noiseRank, this.tileH, this.tileW := noiseRange, noiseRank, tileH, tileW;
      this.matmulH, this.matmulW, block := matmulH, matmulW, None;
    }

    /** _validate_matrix_range */
    predicate InRange(a: Mat) {
      forall i | 0 <= i < |a| :: forall j | 0 <= j < |a[i]| :: Lo(noiseRange) <= a[i][j] <= Hi(noiseRange)
    }

    predicate RankAndTileOk() {
      noiseRank > 0 && tileH > 0 && tileW > 0
    }

    /** One block of the search: its wrapped product, and the scan of its transcripts if nothing was
        found before. */
    method SearchBlock(z: Job, bi: nat, bj: nat, i: nat, iMax: nat, j: nat, jMax: nat, found: bool)
        returns (cBlock: Mat, found': bool)
      requires WellFormed(z) && z.th == tileH && z.tw == tileW
      requires i == bi * z.r < z.m && j == bj * z.r < z.n && iMax == Min(i + z.r, z.m) && jMax == Min(j + z.r, z.n)
      requires SoFar(z, bi, bj, found, block)
      modifies this`block
      ensures HoldsPartial(z, cBlock, i, j, iMax - i, jMax - j, z.k)
      ensures SoFar(z, bi, bj + 1, found', block)
      ensures !found' ==> !found && block == old(block)
    {
      hide SoFar, HoldsPartial, Reduced, TileTranscript, FirstWinner, MeetsTarget;
      var bh, bw := iMax - i, jMax - j;
      var t, hasFull;
      cBlock, t, hasFull := RunBlock(z, i, j, bh, bw);
      found' := found;
      if !found && hasFull {
        ReducedShape(z, t, i, j, bh / tileH, bw / tileW, z.k / z.r);
        var hit, hi, wi := ScanBlock(z, t, bh / tileH, bw / tileW);
        if hit {
          HitIsFirst(z, bi, bj, t, bh / tileH, bw / tileW, hi, wi, block);
          OpenedIsFirst(z, Tile(bi, bj, hi, wi), bi, bj + 1);
          block := Some(Opened(seq(tileH, y => i + hi * tileH + y), seq(tileW, x => j + wi * tileW + x), t[hi][wi]));
          assert block.value == OpenedAt(z, Tile(bi, bj, hi, wi));
          found' := true;
        } else {
          BlockMissed(z, bi, bj, i, j, t, bh / tileH, bw / tileW, hasFull, block);
        }
      } else {
        SkippedBlock(z, bi, bj, i, j, t, bh, bw, hasFull, found, block);
      }
    }

    /** The search over noised operands: the wrapped product, whether a tile met the target, and the
        first such tile left in opened_block. */
    method TiledMatmul(a: Mat, b: Mat, m: nat, k: nat, n: nat, blake: Blake, key: Digest, target: nat)
        returns (res: Result<(Mat, bool)>)
      requires RankAndTileOk() && IsMat(a, m, k) && IsMat(b, k, n)
      modifies this`block
      ensures res == ValueError <==> m < tileH || n < tileW || noiseRank < Min(tileH, tileW)
      ensures res == ValueError ==> block == old(block)
      ensures res.Ok? ==> SearchResult(Job(a, b, m, k, n, noiseRank, tileH, tileW, blake, key, target),
                                       res.value.0, res.value.1, block, old(block))
    {
      if m < tileH || n < tileW || noiseRank < Min(tileH, tileW) {
        return ValueError;
      }
      var z := Job(a, b, m, k, n, noiseRank, tileH, tileW, blake, key, target);
      var c, found := SearchBlocks(z);
      return Ok((c, found));
    }

    method SearchBlocks(z: Job) returns (c: Mat, found: bool)
      requires WellFormed(z) && z.th == tileH && z.tw == tileW
      modifies this`block
      ensures SearchResult(z, c, found, block, old(block))
    {
      hide SoFar, Filled, HoldsPartial, Paste, Product32, FirstWinner, Reports;
      c, found := ZeroMat(z.m, z.n), false;
      var i, bi := 0, 0;
      Start(z, c, block);
      while i < z.m
        invariant i == bi * z.r && SoFar(z, bi, 0, found, block) && Filled(z, c, i, i, 0)
        invariant !found ==> block == old(block)
        decreases z.m - i
      {
        var iMax := Min(i + z.r, z.m);
        var j, bj := 0, 0;
        FilledRow(z, c, i, iMax);
        while j < z.n
          invariant j == bj * z.r && SoFar(z, bi, bj, found, block) && Filled(z, c, i, iMax, j)
          invariant !found ==> block == old(block)
          decreases z.n - j
        {
          var jMax := Min(j + z.r, z.n);
          var cBlock, found' := SearchBlock(z, bi, bj, i, iMax, j, jMax, found);
          found := found';
          PasteFills(z, c, i, j, cBlock, iMax - i, jMax - j);
          c := Paste(c, i, j, cBlock, iMax - i, jMax - j);
          FilledColumns(z, c, i, iMax, jMax, j + z.r);
          NextBlock(bj, z.r);
          j, bj := j + z.r, bj + 1;
        }
        RowDone(z, bi, bj, found, block);
        FilledRows(z, c, i, iMax, j, i + z.r);
        NextBlock(bi, z.r);
        i, bi := i + z.r, bi + 1;
      }
      AllDone(z, bi, found, block);
      FilledAll(z, c, i);
    }

    /** The full noisy GEMM on int8 inputs. */
    method Run(a: Mat, b: Mat, f: Factors, m: nat, k: nat, n: nat, blake: Blake, key: Digest, target: int)
        returns (res: Result<(Mat, bool)>)
      requires RankAndTileOk() && matmulH >= tileH && matmulW >= tileW
      requires IsMat(a, m, k) && IsMat(b, k, n)
      requires IsMat(f.eal, m, noiseRank) && IsMat(f.ear, noiseRank, k) && IsMat(f.ebl, k, noiseRank) && IsMat(f.ebr, noiseRank, n)
      modifies this`block
      ensures res == ValueError <==> !Admissible(a, b, m, k, n, target) || noiseRank < Min(tileH, tileW)
      ensures !Admissible(a, b, m, k, n, target) ==> block == old(block)
      ensures res.Ok? ==>
        && Reports(NoisedJob(a, b, f, m, k, n, blake, key, target), res.value.1, block)
        && (res.value.1 ==> block.Some? && |block.value.rows| == tileH && |block.value.cols| == tileW)
        && (res.value.1 ==> forall y :: 0 <= y < tileH ==> 0 <= block.value.rows[y] < m)
        && (res.value.1 ==> forall x :: 0 <= x < tileW ==> 0 <= block.value.cols[x] < n)
        && (!res.value.1 ==> block == None)
        && res.value.0 == RunProduct(a, b, f, m, k, n)
    {
      if !InRange(a) || !InRange(b) {
        return ValueError;
      }
      if !(0 <= target < ShlLimbs(1, 8)) {
        return ValueError;
      }
      if m < matmulH || k < noiseRank || n < matmulW {
        return ValueError;
      }
      hide ShlLimbs, LowRank, Noised, Product32, Subtract32, Reports, InRange, Dot;
      block := None;
      var aNoised := NoisedA(a, f, m, k, noiseRank);
      var bNoised := NoisedB(b, f, k, n, noiseRank);
      var searched := TiledMatmul(aNoised, bNoised, m, k, n, blake, key, target);
      if searched.ValueError? {
        return ValueError;
      }
      var cNoised, found := searched.value.0, searched.value.1;
      if found {
        OpenedInside(NoisedJob(a, b, f, m, k, n, blake, key, target), block);
      }
      return Ok((Denoised(cNoised, a, bNoised, f, m, k, n, noiseRank), found));
    }

    /** The checks of run, except that of the tile against the rank. */
    predicate Admissible(a: Mat, b: Mat, m: nat, k: nat, n: nat, target: int) {
      && InRange(a) && InRange(b)
      && 0 <= target < ShlLimbs(1, 8)
      && m >= matmulH && k >= noiseRank && n >= matmulW
    }

    function NoisedJob(a: Mat, b: Mat, f: Factors, m: nat, k: nat, n: nat, blake: Blake, key: Digest, target: int): Job
      requires target >= 0
    {
      JobOfRun(a, b, f, m, k, n, noiseRank, tileH, tileW, blake, key, target)
    }

    /** The matrix a run returns. */
    function RunProduct(a: Mat, b: Mat, f: Factors, m: nat, k: nat, n: nat): Mat {
      var bn := NoisedB(b, f, k, n, noiseRank);
      Denoised(Product32(NoisedA(a, f, m, k, noiseRank), bn, m, k, n), a, bn, f, m, k, n, noiseRank)
    }
  }

  /** The wrapped product, found, and the opened block (untouched when nothing is found). */
  ghost predicate SearchResult(z: Job, c: Mat, found: bool, block: Option<Opened>, before: Option<Opened>)
    requires z.r > 0
  {
    c == Product32(z.a, z.b, z.m, z.k, z.n) && Reports(z, found, block) && (!found ==> block == before)
  }

  lemma Start(z: Job, c: Mat, block: Option<Opened>)
    requires z.r > 0 && IsMat(c, z.m, z.n)
    ensures SoFar(z, 0, 0, false, block) && Filled(z, c, 0, 0, 0)
  {}

  lemma NextBlock(x: nat, r: nat)
    ensures (x + 1) * r == x * r + r
  {}

  lemma ReducedShape(z: Job, t: Transcripts, i: nat, j: nat, nth: nat, ntw: nat, c: nat)
    requires Reduced(z, t, i, j, nth, ntw, c)
    ensures |t| == nth && forall y :: 0 <= y < nth ==> |t[y]| == ntw
  {}

  lemma OpenedIsFirst(z: Job, t: Tile, bi: nat, bj: nat)
    requires z.r > 0 && FirstWinner(z, t)
    ensures SoFar(z, bi, bj, true, Some(OpenedAt(z, t)))
  {}

  lemma SkippedBlock(z: Job, bi: nat, bj: nat, i: nat, j: nat, t: Transcripts, bh: nat, bw: nat, hasFull: bool, found: bool, block: Option<Opened>)
    requires WellFormed(z) && i == bi * z.r < z.m && j == bj * z.r < z.n
    requires bh == Extent(i, z.r, z.m) && bw == Extent(j, z.r, z.n)
    requires hasFull <==> bh >= z.th && bw >= z.tw && z.k >= z.r
    requires (found || !hasFull) && SoFar(z, bi, bj, found, block)
    ensures SoFar(z, bi, bj + 1, found, block)
  {
    hide TileTranscript, MeetsTarget, IsTile, Reduced;
    if !found {
      hide SoFar;
      TileFits(bh, z.th, 0);
      TileFits(bw, z.tw, 0);
      BlockMissed(z, bi, bj, i, j, t, bh / z.th, bw / z.tw, hasFull, block);
    }
  }

  // Moving the frontier of final cells past the edge of the matrix changes nothing.

  lemma FilledRow(z: Job, c: Mat, i: nat, iMax: nat)
    requires Filled(z, c, i, i, 0)
    ensures Filled(z, c, i, iMax, 0)
  {}

  lemma FilledColumns(z: Job, c: Mat, i: nat, iMax: nat, jMax: nat, j: nat)
    requires Filled(z, c, i, iMax, jMax) && jMax == Min(j, z.n)
    ensures Filled(z, c, i, iMax, j)
  {}

  lemma FilledRows(z: Job, c: Mat, i: nat, iMax: nat, j: nat, iNext: nat)
    requires Filled(z, c, i, iMax, j) && j >= z.n && iMax == Min(iNext, z.m)
    ensures Filled(z, c, iNext, iNext, 0)
  {}

  lemma FilledAll(z: Job, c: Mat, i: nat)
    requires Filled(z, c, i, i, 0) && i >= z.m
    ensures c == Product32(z.a, z.b, z.m, z.k, z.n)
  {
    hide Dot, Wrap32;
    var p := Product32(z.a, z.b, z.m, z.k, z.n);
    forall y | 0 <= y < z.m
      ensures c[y] == p[y]
    {
      forall x | 0 <= x < z.n
        ensures c[y][x] == p[y][x]
      {}
    }
  }

  ghost predicate FitsInt32(a: Mat, b: Mat, m: nat, k: nat, n: nat) {
    forall i, j :: 0 <= i < m && 0 <= j < n ==> Int32(Dot(a, b, i, j, 0, k))
  }

  /** With exact int8 casts, what a run returns is A B modulo 2^32, and A B itself exactly when A B
      fits int32. */
  lemma RunReturnsProduct(g: NoisyGemm, a: Mat, b: Mat, f: Factors, m: nat, k: nat, n: nat)
    requires IsMat(a, m, k) && IsMat(b, k, n)
    requires Lossless(a, f.eal, f.ear, m, k, g.noiseRank) && Lossless(b, f.ebl, f.ebr, k, n, g.noiseRank)
    ensures g.RunProduct(a, b, f, m, k, n) == Product32(a, b, m, k, n)
    ensures g.RunProduct(a, b, f, m, k, n) == Product(a, b, m, k, n)
       <==> FitsInt32(a, b, m, k, n)
  {
    hide Dot, Lossless, NoisedA, NoisedB, Denoised, Wrap32;
    var c := g.RunProduct(a, b, f, m, k, n);
    var bn := NoisedB(b, f, k, n, g.noiseRank);
    var noised := Product32(NoisedA(a, f, m, k, g.noiseRank), bn, m, k, n);
    assert IsMat(c, m, n) by { DenoisedShape(noised, a, bn, f, m, k, n, g.noiseRank); }
    forall i, j | 0 <= i < m && 0 <= j < n
      ensures c[i][j] == Wrap32(Dot(a, b, i, j, 0, k))
      ensures c[i][j] == Dot(a, b, i, j, 0, k) <==> Int32(Dot(a, b, i, j, 0, k))
    {
      DenoiseExact(a, b, f, noised, m, k, n, g.noiseRank, i, j);
    }
    SameEntries(c, Product32(a, b, m, k, n), m, n);
    if FitsInt32(a, b, m, k, n) {
      SameEntries(c, Product(a, b, m, k, n), m, n);
    } else {
      var i, j :| 0 <= i < m && 0 <= j < n && !Int32(Dot(a, b, i, j, 0, k));
      assert c[i][j] != Product(a, b, m, k, n)[i][j];
    }
  }

  lemma DenoisedShape(c: Mat, a: Mat, bn: Mat, f: Factors, m: nat, k: nat, n: nat, r: nat)
    ensures IsMat(Denoised(c, a, bn, f, m, k, n, r), m, n)
  {}

  lemma SameEntries(x: Mat, y: Mat, m: nat, n: nat)
    requires IsMat(x, m, n) && IsMat(y, m, n)
    requires forall i, j :: 0 <= i < m && 0 <= j < n ==> x[i][j] == y[i][j]
    ensures x == y
  {
    forall i | 0 <= i < m
      ensures x[i] == y[i]
    {}
  }
}
