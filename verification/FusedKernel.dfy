/** A whole launch: every block's threads interleave freely and share the transcript buffer. */
module FusedKernel {
  import opened Bits
  import opened Words
  import opened Ring
  import opened Transcript
  import opened Fragments
  import opened Pipeline
  import opened PipelineSafety
  import opened RegisterHash

  // ---------- which tile a warp updates, and where its transcript lives ----------

  function TileH(u: Launch): nat { if u.kernel == Mine2 then 2 else 16 }

  function TileW(u: Launch): nat { if u.kernel == Mine2 then 64 else 16 }

  /** Hash tiles in the 32x64 region of a warp. */
  function WarpTiles(u: Launch): nat {
    match u.kernel case Mine2 => 16 case Mine => 8 case Gemm => 0
  }

  // k_mine2: tile q = mrow*8 + half*4 + a is row srb + 4*half + a with srb = (br>>1) + wr*16 + mrow*8,
  // column (bc>>6) + wc. k_mine: tile q = mrow*4 + hcol is row br/16 + wr*2 + mrow, column
  // bc/16 + wc*4 + hcol.

  function TileRow(u: Launch, b: BlockId, w: nat, q: nat): nat {
    if u.kernel == Mine2 then b.bi * 64 + (w / 2) * 16 + q / 8 * 8 + (q / 4) % 2 * 4 + q % 4
    else b.bi * 8 + (w / 2) * 2 + q / 4
  }

  function TileCol(u: Launch, b: BlockId, w: nat, q: nat): nat {
    if u.kernel == Mine2 then b.bj * 2 + w % 2 else b.bj * 8 + (w % 2) * 4 + q % 4
  }

  function TileRows(u: Launch): nat { u.m / TileH(u) }

  /** ST_cols */
  function TileCols(u: Launch): nat { u.n / TileW(u) }

  function PerAttempt(u: Launch): nat { TileRows(u) * TileCols(u) }

  function Flat(u: Launch, att: nat, row: nat, col: nat): nat {
    att * PerAttempt(u) + (row * TileCols(u) + col)
  }

  function Address(u: Launch, b: BlockId, w: nat, q: nat): nat {
    Flat(u, b.att, TileRow(u, b, w, q), TileCol(u, b, w, q))
  }

  lemma FlatInBuffer(u: Launch, att: nat, row: nat, col: nat)
    requires att < u.natt && row < TileRows(u) && col < TileCols(u)
    ensures Flat(u, att, row, col) < u.natt * PerAttempt(u)
  {
    hide TileRows, TileCols;
    NestBelow(row, TileRows(u), TileCols(u), col);
    NestBelow(att, u.natt, PerAttempt(u), row * TileCols(u) + col);
  }

  lemma FlatUnique(u: Launch, att: nat, row: nat, col: nat, att': nat, row': nat, col': nat)
    requires row < TileRows(u) && col < TileCols(u) && row' < TileRows(u) && col' < TileCols(u)
    requires Flat(u, att, row, col) == Flat(u, att', row', col')
    ensures att == att' && row == row' && col == col'
  {
    hide TileRows, TileCols;
    var rows, cols := TileRows(u), TileCols(u);
    var x, x' := row * cols + col, row' * cols + col';
    FlatDigits(rows, cols, rows * cols, att, row, col, x, att', row', col', x');
  }

  lemma FlatDigits(rows: nat, cols: nat, per: nat, att: nat, row: nat, col: nat, x: nat, att': nat, row': nat, col': nat, x': nat)
    requires per == rows * cols && row < rows && col < cols && row' < rows && col' < cols
    requires x == row * cols + col && x' == row' * cols + col' && att * per + x == att' * per + x'
    ensures att == att' && row == row' && col == col'
  {
    NestBelow(row, rows, cols, col);
    NestBelow(row', rows, cols, col');
    NestUnique(att, x, att', x', per);
    NestUnique(row, col, row', col', cols);
  }

  /** The tiles of a warp lie in the buffer's grid. */
  lemma TileInGrid(u: Launch, b: BlockId, w: nat, q: nat)
    requires ValidLaunch(u) && InGrid(u, b) && w < 8 && q < WarpTiles(u)
    ensures TileRow(u, b, w, q) < TileRows(u) && TileCol(u, b, w, q) < TileCols(u)
    ensures Address(u, b, w, q) < u.natt * PerAttempt(u)
  {
    TileDigits(u, b, w, q);
    FlatInBuffer(u, b.att, TileRow(u, b, w, q), TileCol(u, b, w, q));
  }

  lemma TileDigits(u: Launch, b: BlockId, w: nat, q: nat)
    requires ValidLaunch(u) && InGrid(u, b) && w < 8 && q < WarpTiles(u)
    ensures TileRow(u, b, w, q) < TileRows(u) && TileCol(u, b, w, q) < TileCols(u)
  {
    if u.kernel == Mine2 {
      assert q == q / 8 * 8 + (q / 4) % 2 * 4 + q % 4;
    }
  }

  /** Every transcript has exactly one writer: distinct (block, warp, tile) write distinct addresses. */
  lemma OneWriter(u: Launch, b: BlockId, w: nat, q: nat, b': BlockId, w': nat, q': nat)
    requires ValidLaunch(u) && InGrid(u, b) && InGrid(u, b') && w < 8 && w' < 8 && q < WarpTiles(u) && q' < WarpTiles(u)
    requires Address(u, b, w, q) == Address(u, b', w', q')
    ensures b == b' && w == w' && q == q'
  {
    TileDigits(u, b, w, q);
    TileDigits(u, b', w', q');
    FlatUnique(u, b.att, TileRow(u, b, w, q), TileCol(u, b, w, q), b'.att, TileRow(u, b', w', q'), TileCol(u, b', w', q'));
    TileOwner(u, b, w, q);
    TileOwner(u, b', w', q');
  }

  /** The block, warp and tile number can be read off the tile's position. */
  lemma TileOwner(u: Launch, b: BlockId, w: nat, q: nat)
    requires u.kernel != Gemm && w < 8 && q < WarpTiles(u)
    ensures var r, c := TileRow(u, b, w, q), TileCol(u, b, w, q);
            if u.kernel == Mine2
            then b.bi == r / 16 / 4 && b.bj == c / 2 && w == (r / 16) % 4 * 2 + c % 2 && q == r % 16
            else b.bi == r / 2 / 4 && b.bj == c / 4 / 2 && w == (r / 2) % 4 * 2 + (c / 4) % 2 && q == r % 2 * 4 + c % 4
  {
    if u.kernel == Mine2 {
      SixteenDigits(q);
      OwnerMine2(b.bi, w / 2, q, b.bj, w % 2);
    } else {
      OwnerMine(b.bi, w / 2, q / 4, b.bj, w % 2, q % 4);
    }
  }

  lemma OwnerMine2(bi: nat, wr: nat, q: nat, bj: nat, wc: nat)
    requires wr < 4 && q < 16 && wc < 2
    ensures var r, c := bi * 64 + wr * 16 + q, bj * 2 + wc;
            bi == r / 16 / 4 && bj == c / 2 && wr == (r / 16) % 4 && wc == c % 2 && q == r % 16
  {
    assert (bi * 64 + wr * 16 + q) / 16 == 4 * bi + wr;
  }

  lemma OwnerMine(bi: nat, wr: nat, mrow: nat, bj: nat, wc: nat, hcol: nat)
    requires wr < 4 && mrow < 2 && wc < 2 && hcol < 4
    ensures var r, c := bi * 8 + wr * 2 + mrow, bj * 8 + wc * 4 + hcol;
            && bi == r / 2 / 4 && wr == (r / 2) % 4 && mrow == r % 2
            && bj == c / 4 / 2 && wc == (c / 4) % 2 && hcol == c % 4
  {
    OwnerMineRow(bi, wr, mrow);
    OwnerMineCol(bj, wc, hcol);
  }

  lemma OwnerMineRow(bi: nat, wr: nat, mrow: nat)
    requires wr < 4 && mrow < 2
    ensures var r := bi * 8 + wr * 2 + mrow; bi == r / 2 / 4 && wr == (r / 2) % 4 && mrow == r % 2
  {
    assert (bi * 8 + wr * 2 + mrow) / 2 == 4 * bi + wr;
  }

  lemma OwnerMineCol(bj: nat, wc: nat, hcol: nat)
    requires wc < 2 && hcol < 4
    ensures var c := bj * 8 + wc * 4 + hcol; bj == c / 4 / 2 && wc == (c / 4) % 2 && hcol == c % 4
  {
    assert (bj * 8 + wc * 4 + hcol) / 4 == 2 * bj + wc;
  }

  // ---------- the hash of a tile, from the registers ----------

  /** The accumulators of warp w, seen as uint32. */
  function Registers(s: State, w: nat): WarpRegisters
    requires |s.acc| == 256 && w < 8
  {
    (lane, y) => RegisterWord(s, w, lane, y)
  }

  function RegisterWord(s: State, w: nat, lane: int, y: int): Word
    requires |s.acc| == 256 && w < 8
  {
    if 0 <= lane < 32 then AsWord(Byte(s.acc[32 * w + lane], y)) else 0
  }

  function WarpHash(u: Launch, s: State, w: nat, q: nat): Word
    requires |s.acc| == 256 && w < 8
  {
    if u.kernel == Mine2 then Mine2Hash(Registers(s, w), q / 8, (q / 4) % 2, q % 4)
    else MineHash(Registers(s, w), q / 4, q % 4)
  }

  /** The hash of tile q of warp w after hi columns, by its definition. */
  function TrueHash(u: Launch, b: BlockId, w: nat, q: nat, hi: int): Word
    requires b.att < |u.an| && b.att < |u.bn|
  {
    TileHash(u.an[b.att], u.bn[b.att], TileRow(u, b, w, q) * TileH(u), TileCol(u, b, w, q) * TileW(u), TileH(u), TileW(u), hi)
  }

  /** Cell (row, col) of the warp's region as the reference sees it. */
  function RegionCell(u: Launch, b: BlockId, w: nat, hi: int, row: int, col: int): Word
    requires b.att < |u.an| && b.att < |u.bn|
  {
    CellWord(u.an[b.att], u.bn[b.att], b.bi * 128 + (w / 2 * 32 + row), b.bj * 128 + (w % 2 * 64 + col), hi)
  }

  lemma RegisterIsCell(u: Launch, b: BlockId, s: State, w: nat, lane: nat, y: nat)
    requires Inv(u, b, s) && s.phase == Fill && w < 8 && lane < 32 && y < 64
    ensures RegisterWord(s, w, lane, y)
         == RegionCell(u, b, w, 32 * s.ks, (y / 32) * 16 + CRow(lane, y % 4), (y / 4) % 8 * 8 + CCol(lane, y % 4))
  {
    hide Dot, Wrap32, AsWord, CRow, CCol, SharedA, SharedB, FlightOk, Restaged, Fragmented, Byte;
    var tid := 32 * w + lane;
    assert tid / 32 == w && Lane(tid) == lane;
    assert Byte(s.acc[tid], y) == Partial(u, b, tid, y, Done(s, tid, y / 32));
  }

  lemma RegistersHoldRegion(u: Launch, b: BlockId, s: State, w: nat)
    requires Inv(u, b, s) && s.phase == Fill && w < 8
    ensures HoldsRegion(Registers(s, w), (row, col) => RegionCell(u, b, w, 32 * s.ks, row, col))
  {
    hide RegisterWord, RegionCell, CRow, CCol, SharedA, SharedB, FlightOk, Restaged, Fragmented, Accumulated;
    forall lane, y | 0 <= lane < 32 && 0 <= y < 64
      ensures Registers(s, w)(lane, y)
           == RegionCell(u, b, w, 32 * s.ks, (y / 32) * 16 + CRow(lane, y % 4), (y / 4) % 8 * 8 + CCol(lane, y % 4))
    {
      RegisterIsCell(u, b, s, w, lane, y);
    }
  }

  /** What the warp computes from its registers is the hash of the tile. */
  lemma WarpHashIsTrueHash(u: Launch, b: BlockId, s: State, w: nat, q: nat)
    requires Inv(u, b, s) && s.phase == Fill && w < 8 && q < WarpTiles(u)
    ensures WarpHash(u, s, w, q) == TrueHash(u, b, w, q, 32 * s.ks)
  {
    hide Inv, CellWord, Mine2Hash, MineHash, Registers, HoldsRegion, XorGrid, TileRow, TileCol, RegionCell, Mine2Row;
    assert b.att < |u.an| && b.att < |u.bn| && |s.acc| == 256 by { InvSizes(u, b, s); }
    RegistersHoldRegion(u, b, s, w);
    var cell := (row: int, col: int) => RegionCell(u, b, w, 32 * s.ks, row, col);
    var i0, j0 := TileRow(u, b, w, q) * TileH(u), TileCol(u, b, w, q) * TileW(u);
    var tile := (y: int, x: int) => CellWord(u.an[b.att], u.bn[b.att], i0 + y, j0 + x, 32 * s.ks);
    if u.kernel == Mine2 {
      forall y, x | 0 <= y < 2 && 0 <= x < 64
        ensures tile(y, x) == cell(Mine2Row(q / 8, (q / 4) % 2, q % 4, y), x)
      {
        Mine2TileCell(u, b, w, q, 32 * s.ks, y, x);
      }
      Mine2HashIsTile(Registers(s, w), cell, q / 8, (q / 4) % 2, q % 4, tile);
    } else {
      forall y, x | 0 <= y < 16 && 0 <= x < 16
        ensures tile(y, x) == cell(q / 4 * 16 + y, q % 4 * 16 + x)
      {
        MineTileCell(u, b, w, q, 32 * s.ks, y, x);
      }
      MineHashIsTile(Registers(s, w), cell, q / 4, q % 4, tile);
    }
  }

  lemma Mine2TileCell(u: Launch, b: BlockId, w: nat, q: nat, hi: int, y: int, x: int)
    requires b.att < |u.an| && b.att < |u.bn| && u.kernel == Mine2 && w < 8 && q < 16
    ensures CellWord(u.an[b.att], u.bn[b.att], TileRow(u, b, w, q) * 2 + y, TileCol(u, b, w, q) * 64 + x, hi)
         == RegionCell(u, b, w, hi, Mine2Row(q / 8, (q / 4) % 2, q % 4, y), x)
  {
    hide CellWord;
  }

  lemma MineTileCell(u: Launch, b: BlockId, w: nat, q: nat, hi: int, y: int, x: int)
    requires b.att < |u.an| && b.att < |u.bn| && u.kernel != Mine2 && w < 8 && q < 8
    ensures CellWord(u.an[b.att], u.bn[b.att], TileRow(u, b, w, q) * 16 + y, TileCol(u, b, w, q) * 16 + x, hi)
         == RegionCell(u, b, w, hi, q / 4 * 16 + y, q % 4 * 16 + x)
  {
    hide CellWord;
  }

  // ---------- the grid ----------

  datatype Grid = Grid(blocks: map<BlockId, State>, tr: seq<Block>)

  /** Chunks already folded by warp w. */
  function Chunks(u: Launch, s: State, w: nat): nat
    requires |s.pc| == 256 && w < 8
  {
    if s.phase == Fill && HashStep(u, s.ks) && s.pc[32 * w] == 0 then s.ks / 4 - 1 else s.ks / 4
  }

  /** The 16 or 8 transcript updates of a warp at the end of a chunk, tile after tile. */
  ghost function FoldWarp(u: Launch, b: BlockId, s: State, w: nat, tr: seq<Block>, count: nat): (r: seq<Block>)
    requires ValidLaunch(u) && InGrid(u, b) && |s.acc| == 256 && w < 8 && count <= WarpTiles(u) && s.ks >= 4
    requires |tr| == u.natt * PerAttempt(u)
    ensures |r| == |tr|
  {
    hide Fold, WarpHash, Address, TileRow, TileCol;
    if count == 0 then tr
    else
      TileInGrid(u, b, w, count - 1);
      var before, x := FoldWarp(u, b, s, w, tr, count - 1), Address(u, b, w, count - 1);
      before[x := Fold(before[x], s.ks / 4 - 1, WarpHash(u, s, w, count - 1))]
  }

  ghost predicate GridEnabled(u: Launch, g: Grid, b: BlockId, e: Event) {
    InGrid(u, b) && b in g.blocks && Sized(g.blocks[b]) && Enabled(u, g.blocks[b], e)
  }

  ghost function GridApply(u: Launch, g: Grid, b: BlockId, e: Event): Grid
    requires ValidLaunch(u) && |g.tr| == u.natt * PerAttempt(u) && GridEnabled(u, g, b, e)
  {
    var s := g.blocks[b];
    Grid(g.blocks[b := Apply(u, b, s, e)],
         if e.Hash? then FoldWarp(u, b, s, e.warp, g.tr, WarpTiles(u)) else g.tr)
  }

  /** Hash number z of tile q of warp w. */
  function Hashes(u: Launch, b: BlockId, w: nat, q: nat): int -> Word
    requires b.att < |u.an| && b.att < |u.bn|
  {
    z => TrueHash(u, b, w, q, 128 * (z + 1))
  }

  /** Every transcript of the block holds its initial contents folded with the chunks done so far. */
  ghost predicate Transcribed(u: Launch, tr0: seq<Block>, b: BlockId, s: State, tr: seq<Block>)
    requires ValidLaunch(u) && InGrid(u, b) && |s.pc| == 256 && |tr| == |tr0| == u.natt * PerAttempt(u)
  {
    forall w, q :: 0 <= w < 8 && 0 <= q < WarpTiles(u) ==> TileTranscribed(u, tr0, b, s, tr, w, q)
  }

  ghost predicate TileTranscribed(u: Launch, tr0: seq<Block>, b: BlockId, s: State, tr: seq<Block>, w: nat, q: nat)
    requires ValidLaunch(u) && InGrid(u, b) && |s.pc| == 256 && |tr| == |tr0| == u.natt * PerAttempt(u)
    requires w < 8 && q < WarpTiles(u)
  {
    TileInGrid(u, b, w, q);
    var x := Address(u, b, w, q);
    tr[x] == Folds(tr0[x], Hashes(u, b, w, q), Chunks(u, s, w))
  }

  ghost predicate GridInv(u: Launch, tr0: seq<Block>, g: Grid) {
    && ValidLaunch(u) && |tr0| == |g.tr| == u.natt * PerAttempt(u)
    && forall b :: InGrid(u, b) ==> b in g.blocks && Inv(u, b, g.blocks[b]) && Transcribed(u, tr0, b, g.blocks[b], g.tr)
  }

  lemma {:induction false} FoldWarpUpdates(u: Launch, b: BlockId, s: State, w: nat, tr: seq<Block>, count: nat, q: nat)
    requires ValidLaunch(u) && InGrid(u, b) && |s.acc| == 256 && w < 8 && q < count <= WarpTiles(u) && s.ks >= 4
    requires |tr| == u.natt * PerAttempt(u)
    ensures Address(u, b, w, q) < |tr|
    ensures var x := Address(u, b, w, q);
            FoldWarp(u, b, s, w, tr, count)[x] == Fold(tr[x], s.ks / 4 - 1, WarpHash(u, s, w, q))
  {
    hide WarpHash, Fold, Address;
    TileInGrid(u, b, w, q);
    TileInGrid(u, b, w, count - 1);
    if q == count - 1 {
      FoldWarpKeeps(u, b, s, w, tr, count - 1, b, w, q);
    } else {
      FoldWarpUpdates(u, b, s, w, tr, count - 1, q);
      if Address(u, b, w, q) == Address(u, b, w, count - 1) {
        OneWriter(u, b, w, q, b, w, count - 1);
      }
    }
  }

  /** Transcripts of other blocks, other warps and later tiles are left alone. */
  lemma {:induction false} FoldWarpKeeps(u: Launch, b: BlockId, s: State, w: nat, tr: seq<Block>, count: nat,
                                         b': BlockId, w': nat, q': nat)
    requires ValidLaunch(u) && InGrid(u, b) && |s.acc| == 256 && w < 8 && count <= WarpTiles(u) && s.ks >= 4
    requires |tr| == u.natt * PerAttempt(u)
    requires InGrid(u, b') && w' < 8 && q' < WarpTiles(u) && (b' != b || w' != w || q' >= count)
    ensures Address(u, b', w', q') < |tr|
    ensures FoldWarp(u, b, s, w, tr, count)[Address(u, b', w', q')] == tr[Address(u, b', w', q')]
  {
    hide WarpHash, Fold, Address;
    TileInGrid(u, b', w', q');
    if count > 0 {
      FoldWarpKeeps(u, b, s, w, tr, count - 1, b', w', q');
      TileInGrid(u, b, w, count - 1);
      if Address(u, b', w', q') == Address(u, b, w, count - 1) {
        OneWriter(u, b', w', q', b, w, count - 1);
      }
    }
  }

  /** Only hashing changes the number of chunks folded. */
  lemma ChunksKept(u: Launch, b: BlockId, s: State, e: Event, w: nat)
    requires Inv(u, b, s) && Enabled(u, s, e) && w < 8 && e != Hash(w) && u.kernel != Gemm
    ensures |Apply(u, b, s, e).pc| == 256 && Chunks(u, Apply(u, b, s, e), w) == Chunks(u, s, w)
  {
    hide SharedA, SharedB, Restaged, Fragmented, Accumulated, FlightOk;
  }

  lemma ChunksHash(u: Launch, b: BlockId, s: State, w: nat)
    requires Inv(u, b, s) && Enabled(u, s, Hash(w))
    ensures s.ks >= 4 && Chunks(u, s, w) == s.ks / 4 - 1
    ensures |Apply(u, b, s, Hash(w)).pc| == 256 && Chunks(u, Apply(u, b, s, Hash(w)), w) == s.ks / 4
  {
    hide SharedA, SharedB, Restaged, Fragmented, Accumulated, FlightOk;
  }

  /** The hashing warp's own transcripts advance by one chunk. */
  lemma HashTranscribes(u: Launch, tr0: seq<Block>, b: BlockId, s: State, tr: seq<Block>, w: nat, q: nat)
    requires Inv(u, b, s) && Enabled(u, s, Hash(w)) && |tr| == |tr0| == u.natt * PerAttempt(u)
    requires q < WarpTiles(u) && TileTranscribed(u, tr0, b, s, tr, w, q)
    ensures s.ks >= 4 && |Apply(u, b, s, Hash(w)).pc| == 256
    ensures TileTranscribed(u, tr0, b, Apply(u, b, s, Hash(w)), FoldWarp(u, b, s, w, tr, WarpTiles(u)), w, q)
  {
    hide Inv, Apply, Chunks, FoldWarp, Fold, TrueHash, WarpHash, Address;
    InvSizes(u, b, s);
    ChunksHash(u, b, s, w);
    TileInGrid(u, b, w, q);
    FoldWarpUpdates(u, b, s, w, tr, WarpTiles(u), q);
    WarpHashIsTrueHash(u, b, s, w, q);
    var c := s.ks / 4;
    assert 128 * (c - 1 + 1) == 32 * s.ks;
  }

  /** A step of one block keeps the transcripts of every block at their chunk counts. */
  lemma StepTranscribes(u: Launch, tr0: seq<Block>, g: Grid, b: BlockId, e: Event, b': BlockId, w: nat, q: nat)
    requires GridInv(u, tr0, g) && GridEnabled(u, g, b, e) && InGrid(u, b') && w < 8 && q < WarpTiles(u)
    ensures var g' := GridApply(u, g, b, e);
            && b' in g'.blocks && |g'.blocks[b'].pc| == 256
            && TileTranscribed(u, tr0, b', g'.blocks[b'], g'.tr, w, q)
  {
    hide Inv, Apply, Chunks, FoldWarp, Fold, Hashes, Address;
    var s := g.blocks[b];
    InvSizes(u, b', g.blocks[b']);
    TileInGrid(u, b', w, q);
    assert TileTranscribed(u, tr0, b', g.blocks[b'], g.tr, w, q);
    if e.Hash? {
      ChunksHash(u, b, s, e.warp);
      if b' == b && w == e.warp {
        HashTranscribes(u, tr0, b, s, g.tr, w, q);
      } else {
        InvSizes(u, b, s);
        FoldWarpKeeps(u, b, s, e.warp, g.tr, WarpTiles(u), b', w, q);
        if b' == b {
          ChunksKept(u, b, s, e, w);
        }
      }
    } else if b' == b {
      ChunksKept(u, b, s, e, w);
    }
  }

  lemma GridStepKeeps(u: Launch, tr0: seq<Block>, g: Grid, b: BlockId, e: Event)
    requires GridInv(u, tr0, g) && GridEnabled(u, g, b, e)
    ensures GridInv(u, tr0, GridApply(u, g, b, e))
  {
    hide Inv, TileTranscribed, FoldWarp, Apply, ValidLaunch, Enabled;
    var g' := GridApply(u, g, b, e);
    StepKeeps(u, b, g.blocks[b], e);
    forall b' | InGrid(u, b')
      ensures b' in g'.blocks && Inv(u, b', g'.blocks[b']) && |g'.blocks[b'].pc| == 256
      ensures Transcribed(u, tr0, b', g'.blocks[b'], g'.tr)
    {
      InvSizes(u, b', g'.blocks[b']);
      forall w, q | 0 <= w < 8 && 0 <= q < WarpTiles(u)
        ensures TileTranscribed(u, tr0, b', g'.blocks[b'], g'.tr, w, q)
      {
        StepTranscribes(u, tr0, g, b, e, b', w, q);
      }
    }
  }

  // ---------- runs ----------

  /** A schedule names, step by step, the block that moves and what it does. */
  type Schedule = seq<(BlockId, Event)>

  ghost predicate Executable(u: Launch, g: Grid, sched: Schedule)
    requires ValidLaunch(u) && |g.tr| == u.natt * PerAttempt(u)
    decreases |sched|
  {
    sched == [] ||
    (GridEnabled(u, g, sched[0].0, sched[0].1) && Executable(u, GridApply(u, g, sched[0].0, sched[0].1), sched[1..]))
  }

  ghost function Run(u: Launch, g: Grid, sched: Schedule): Grid
    requires ValidLaunch(u) && |g.tr| == u.natt * PerAttempt(u) && Executable(u, g, sched)
    decreases |sched|
  {
    if sched == [] then g else Run(u, GridApply(u, g, sched[0].0, sched[0].1), sched[1..])
  }

  /** The launch: every block at its start, shared memory arbitrary, transcripts tr0. */
  ghost predicate InitialGrid(u: Launch, tr0: seq<Block>, g: Grid) {
    && ValidLaunch(u) && |tr0| == u.natt * PerAttempt(u) && g.tr == tr0
    && forall b :: InGrid(u, b) ==> b in g.blocks && Initial(g.blocks[b])
  }

  lemma InitialGridInv(u: Launch, tr0: seq<Block>, g: Grid)
    requires InitialGrid(u, tr0, g)
    ensures GridInv(u, tr0, g)
  {
    hide Inv, Address;
    forall b | InGrid(u, b)
      ensures b in g.blocks && Inv(u, b, g.blocks[b]) && Transcribed(u, tr0, b, g.blocks[b], g.tr)
    {
      InitInv(u, b, g.blocks[b]);
    }
  }

  lemma {:induction false} RunKeeps(u: Launch, tr0: seq<Block>, g: Grid, sched: Schedule)
    requires GridInv(u, tr0, g) && Executable(u, g, sched)
    ensures GridInv(u, tr0, Run(u, g, sched))
    decreases |sched|
  {
    hide Inv, GridApply, GridEnabled;
    if sched != [] {
      GridStepKeeps(u, tr0, g, sched[0].0, sched[0].1);
      RunKeeps(u, tr0, GridApply(u, g, sched[0].0, sched[0].1), sched[1..]);
    }
  }

  predicate Finished(u: Launch, s: State) {
    |s.pc| == 256 && s.ks == Steps(u) && s.phase == Fill && forall t :: 0 <= t < 256 ==> s.pc[t] == 1
  }

  ghost predicate AllFinished(u: Launch, g: Grid) {
    forall b :: InGrid(u, b) ==> b in g.blocks && Finished(u, g.blocks[b])
  }

  /** The block, warp and tile number that own a transcript. */
  lemma Owner(u: Launch, att: nat, row: nat, col: nat) returns (b: BlockId, w: nat, q: nat)
    requires ValidLaunch(u) && u.kernel != Gemm && att < u.natt && row < TileRows(u) && col < TileCols(u)
    ensures InGrid(u, b) && b.att == att && w < 8 && q < WarpTiles(u)
    ensures TileRow(u, b, w, q) == row && TileCol(u, b, w, q) == col
  {
    if u.kernel == Mine2 {
      var wr, wc := (row / 16) % 4, col % 2;
      b, w, q := BlockId(att, row / 16 / 4, col / 2), wr * 2 + wc, row % 16;
      WarpDigits(wr, wc);
      SixteenDigits(q);
      TwoDigits(row, 16, 4, u.m / 128, u.m / 2);
      TwoDigits(col, 1, 2, u.n / 128, u.n / 64);
    } else {
      var wr, wc := (row / 2) % 4, (col / 4) % 2;
      b, w, q := BlockId(att, row / 2 / 4, col / 4 / 2), wr * 2 + wc, row % 2 * 4 + col % 4;
      WarpDigits(wr, wc);
      TwoDigits(row, 2, 4, u.m / 128, u.m / 16);
      TwoDigits(col, 4, 2, u.n / 128, u.n / 16);
    }
  }

  lemma WarpDigits(wr: nat, wc: nat)
    requires wr < 4 && wc < 2
    ensures wr * 2 + wc < 8 && (wr * 2 + wc) / 2 == wr && (wr * 2 + wc) % 2 == wc
  {}

  lemma SixteenDigits(q: nat)
    requires q < 16
    ensures q == q / 8 * 8 + (q / 4) % 2 * 4 + q % 4
  {}

  /** x below blocks*per*inner, split into a block number, a number below per and one below inner. */
  lemma TwoDigits(x: nat, inner: nat, per: nat, blocks: nat, total: nat)
    requires inner > 0 && per > 0 && total == blocks * (per * inner) && x < total
    ensures x == x / inner / per * (per * inner) + (x / inner) % per * inner + x % inner
    ensures x / inner / per < blocks
  {
    var a := x / inner;
    var d := a / per;
    assert x == a * inner + x % inner;
    assert a == d * per + a % per;
    assert a * inner == d * (per * inner) + a % per * inner;
  }

  /** The hashes of the tile at (row, col) of attempt att, one per 128-wide chunk. */
  function ChunkHashes(u: Launch, att: nat, row: nat, col: nat): int -> Word
    requires att < |u.an| && att < |u.bn|
  {
    z => TileHash(u.an[att], u.bn[att], row * TileH(u), col * TileW(u), TileH(u), TileW(u), 128 * (z + 1))
  }

  /** Whatever the interleaving, a launch that has run to its end leaves in every transcript its former
      contents folded with the hashes of that tile after each 128-wide chunk of the product. */
  lemma FusedRefinesFolds(u: Launch, tr0: seq<Block>, g: Grid, sched: Schedule, att: nat, row: nat, col: nat)
    requires InitialGrid(u, tr0, g) && Executable(u, g, sched) && AllFinished(u, Run(u, g, sched))
    requires u.kernel != Gemm && att < u.natt && row < TileRows(u) && col < TileCols(u)
    ensures Flat(u, att, row, col) < |tr0| == |Run(u, g, sched).tr|
    ensures Run(u, g, sched).tr[Flat(u, att, row, col)]
         == Folds(tr0[Flat(u, att, row, col)], ChunkHashes(u, att, row, col), u.k / 128)
  {
    hide Inv, Executable, Run, TileRow, TileCol, TileHash, Flat;
    InitialGridInv(u, tr0, g);
    RunKeeps(u, tr0, g, sched);
    var g' := Run(u, g, sched);
    var b, w, q := Owner(u, att, row, col);
    var s := g'.blocks[b];
    InvSizes(u, b, s);
    assert TileTranscribed(u, tr0, b, s, g'.tr, w, q);
    TileInGrid(u, b, w, q);
    assert Chunks(u, s, w) == u.k / 128;
    FoldsEq(tr0[Flat(u, att, row, col)], Hashes(u, b, w, q), ChunkHashes(u, att, row, col), u.k / 128);
  }

  /** From zeroed transcripts the launch leaves exactly the reference's transcripts. */
  lemma FusedRefinesReference(u: Launch, tr0: seq<Block>, g: Grid, sched: Schedule, att: nat, row: nat, col: nat)
    requires InitialGrid(u, tr0, g) && Executable(u, g, sched) && AllFinished(u, Run(u, g, sched))
    requires forall x :: 0 <= x < |tr0| ==> tr0[x] == Zeros()
    requires u.kernel != Gemm && att < u.natt && row < TileRows(u) && col < TileCols(u)
    ensures Flat(u, att, row, col) < |Run(u, g, sched).tr|
    ensures Run(u, g, sched).tr[Flat(u, att, row, col)]
         == TileTranscript(u.an[att], u.bn[att], row * TileH(u), col * TileW(u), TileH(u), TileW(u), 128, u.k / 128)
  {
    hide Executable, Run, TileHash, Flat, AllFinished;
    FusedRefinesFolds(u, tr0, g, sched, att, row, col);
    var i0, j0 := row * TileH(u), col * TileW(u);
    TileTranscriptIsFolds(u.an[att], u.bn[att], i0, j0, TileH(u), TileW(u), 128, u.k / 128);
    FoldsEq(Zeros(), ChunkHashes(u, att, row, col),
            z => TileHash(u.an[att], u.bn[att], i0, j0, TileH(u), TileW(u), 128 * (z + 1)), u.k / 128);
  }

  /** k_mma_gemm_cpasync: at the end every cell of C is held by an accumulator of the grid, and that
      accumulator is the full wrapped dot product. GemmCellUnique: by one accumulator only. */
  lemma GemmCell(u: Launch, tr0: seq<Block>, g: Grid, sched: Schedule, att: nat, i: nat, j: nat)
      returns (b: BlockId, tid: nat, y: nat)
    requires InitialGrid(u, tr0, g) && Executable(u, g, sched) && AllFinished(u, Run(u, g, sched))
    requires att < u.natt && i < u.m && j < u.n
    ensures InGrid(u, b) && b.att == att && tid < 256 && y < 64
    ensures b.bi * 128 + CellRow(tid, y) == i && b.bj * 128 + CellCol(tid, y) == j
    ensures b in Run(u, g, sched).blocks && Sized(Run(u, g, sched).blocks[b])
    ensures Byte(Run(u, g, sched).blocks[b].acc[tid], y) == Wrap32(Dot(u.an[att], u.bn[att], i, j, 0, u.k))
  {
    hide Inv, Executable, Run, CellThread, CellSlot, CellRow, CellCol, Dot, Wrap32, Byte, ValidLaunch, InGrid, Transcribed;
    InitialGridInv(u, tr0, g);
    RunKeeps(u, tr0, g, sched);
    CellOnto(i % 128, j % 128);
    b := BlockHolding(u, att, i, j);
    tid, y := CellThread(i % 128, j % 128), CellSlot(i % 128, j % 128);
    FinishedAccumulator(u, b, Run(u, g, sched).blocks[b], tid, y);
  }

  lemma BlockHolding(u: Launch, att: nat, i: nat, j: nat) returns (b: BlockId)
    requires ValidLaunch(u) && att < u.natt && i < u.m && j < u.n
    ensures InGrid(u, b) && b.att == att && b.bi * 128 + i % 128 == i && b.bj * 128 + j % 128 == j
  {
    hide Layout;
    b := BlockId(att, i / 128, j / 128);
  }

  lemma FinishedAccumulator(u: Launch, b: BlockId, s: State, tid: nat, y: nat)
    requires Inv(u, b, s) && Finished(u, s) && tid < 256 && y < 64
    ensures Sized(s) && b.att < |u.an| && b.att < |u.bn|
    ensures Byte(s.acc[tid], y)
         == Wrap32(Dot(u.an[b.att], u.bn[b.att], b.bi * 128 + CellRow(tid, y), b.bj * 128 + CellCol(tid, y), 0, u.k))
  {
    hide CellRow, CellCol, SharedA, SharedB, Restaged, Fragmented, FlightOk, Dot, Wrap32;
    assert Byte(s.acc[tid], y) == Partial(u, b, tid, y, Done(s, tid, y / 32));
    assert 32 * Steps(u) == u.k;
  }

  lemma GemmCellUnique(u: Launch, b: BlockId, tid: nat, y: nat, i: nat, j: nat)
    requires tid < 256 && y < 64 && i == b.bi * 128 + CellRow(tid, y) && j == b.bj * 128 + CellCol(tid, y)
    ensures b.bi == i / 128 && b.bj == j / 128 && tid == CellThread(i % 128, j % 128) && y == CellSlot(i % 128, j % 128)
  {
    hide CellThread, CellSlot, CellRow, CellCol;
    CellBijection(tid, y);
  }
}
