/** XOR-reducing hash tiles straight from the accumulator registers with warp shuffles. */
module RegisterHash {
  import opened Bits
  import opened Words
  import opened Fragments

  /** One word per lane of a warp. */
  type Lanes = int -> Word

  /** v ^= __shfl_down_sync(0xffffffff, v, off); a lane with no lane off above it reads itself. */
  function ShflDownXor(v: Lanes, off: nat): Lanes {
    l => Xor(v(l), if l + off < 32 then v(l + off) else v(l))
  }

  /** v ^= __shfl_xor_sync(0xffffffff, v, off) */
  function ShflXorXor(v: Lanes, off: nat): Lanes {
    l => Xor(v(l), if 0 <= l then v(BXor(l, off)) else v(l))
  }

  /** for (off = 2^(k-1); off >= 1; off >>= 1) with either shuffle. */
  function ReduceDown(v: Lanes, k: nat): Lanes {
    if k == 0 then v else ReduceDown(ShflDownXor(v, Pow2(k - 1)), k - 1)
  }

  function ReduceXor(v: Lanes, k: nat): Lanes {
    if k == 0 then v else ReduceXor(ShflXorXor(v, Pow2(k - 1)), k - 1)
  }

  /** Folding the upper half of a run of lanes onto its lower half keeps the XOR of the run. */
  lemma HalvingKeepsXor(r: Lanes, r': Lanes, half: nat)
    requires forall l :: 0 <= l < half ==> r'(l) == Xor(r(l), r(l + half))
    ensures XorRange(r', half) == XorRange(r, half + half)
  {
    hide Xor;
    XorRangeSplit(r, half, half);
    XorRangeMerge(r, x => r(half + x), r', half);
  }

  lemma OneLane(r: Lanes)
    ensures XorRange(r, 1) == r(0)
  {
    XorZero(r(0));
    assert XorRange(r, 0) == 0;
  }

  /** Shuffling down reduces the 2^k lanes from base on; r lists them. */
  lemma {:induction false} ReduceDownIsXor(v: Lanes, k: nat, base: nat, r: Lanes)
    requires base + Pow2(k) <= 32 && forall l :: 0 <= l < Pow2(k) ==> r(l) == v(base + l)
    ensures ReduceDown(v, k)(base) == XorRange(r, Pow2(k))
  {
    hide Xor, XorRange, ShflDownXor;
    if k == 0 {
      OneLane(r);
    } else {
      var half := Pow2(k - 1);
      var r': Lanes := l => ShflDownXor(v, half)(base + l);
      ReduceDownIsXor(ShflDownXor(v, half), k - 1, base, r');
      forall l | 0 <= l < half
        ensures r'(l) == Xor(r(l), r(l + half))
      {
        StepDown(v, half, base, l);
      }
      HalvingKeepsXor(r, r', half);
    }
  }

  lemma StepDown(v: Lanes, half: nat, base: nat, l: nat)
    requires base + l + half < 32
    ensures ShflDownXor(v, half)(base + l) == Xor(v(base + l), v(base + (l + half)))
  {
    hide Xor;
    assert base + l + half == base + (l + half);
  }

  lemma XorIsSum(l: nat, k: nat)
    requires l < Pow2(k)
    ensures BXor(l, Pow2(k)) == l + Pow2(k)
  {
    BXorSplit(0, l, 1, 0, k);
    ShlZero(k);
    ShlOne(k);
    BXorZero(1);
    BXorZero(l);
  }

  /** The butterfly leaves the XOR of the 2^k lanes in lane 0. */
  lemma {:induction false} ReduceXorIsXor(v: Lanes, k: nat)
    ensures ReduceXor(v, k)(0) == XorRange(v, Pow2(k))
  {
    hide Xor, BXor, XorRange;
    if k == 0 {
      OneLane(v);
    } else {
      var half := Pow2(k - 1);
      var v' := ShflXorXor(v, half);
      ReduceXorIsXor(v', k - 1);
      forall l | 0 <= l < half
        ensures v'(l) == Xor(v(l), v(l + half))
      {
        XorIsSum(l, k - 1);
      }
      HalvingKeepsXor(v, v', half);
    }
  }

  // ---------- a row of cells, lane by lane ----------

  /** The two neighbouring cells a lane with the given tig holds of column fragment ncol. */
  function Pair(f: int -> Word, ncol: int, t: int): Word {
    Xor(f(8 * ncol + 2 * t), f(8 * ncol + 2 * t + 1))
  }

  /** The part of a row of 8n cells held by lanes with the given tig. */
  function LanePart(f: int -> Word, n: nat, t: int): Word {
    XorRange(ncol => Pair(f, ncol, t), n)
  }

  lemma EightCells(g: int -> Word, p: int -> Word)
    requires forall t :: 0 <= t < 4 ==> p(t) == Xor(g(2 * t), g(2 * t + 1))
    ensures XorRange(g, 8) == XorRange(p, 4)
  {
    hide Xor, XorRange;
    NothingToReduce(g);
    NothingToReduce(p);
    TwoMore(g, p, 0);
    TwoMore(g, p, 1);
    TwoMore(g, p, 2);
    TwoMore(g, p, 3);
  }

  lemma NothingToReduce(f: int -> Word)
    ensures XorRange(f, 0) == 0
  {}

  lemma TwoMore(g: int -> Word, p: int -> Word, t: nat)
    requires p(t) == Xor(g(2 * t), g(2 * t + 1)) && XorRange(g, 2 * t) == XorRange(p, t)
    ensures XorRange(g, 2 * t + 2) == XorRange(p, t + 1)
  {
    hide Xor;
    XorAssoc(XorRange(g, 2 * t), g(2 * t), g(2 * t + 1));
    assert XorRange(g, 2 * t + 1) == Xor(XorRange(g, 2 * t), g(2 * t));
  }

  /** A row of 8n cells is covered exactly once by the four tigs; parts lists what each tig holds. */
  lemma RowByLanes(f: int -> Word, n: nat, parts: int -> Word)
    requires forall t :: 0 <= t < 4 ==> parts(t) == LanePart(f, n, t)
    ensures XorRange(f, 8 * n) == XorRange(parts, 4)
  {
    hide Xor, XorRange, XorGrid;
    var cells, pairs := (ncol: int, x: int) => f(ncol * 8 + x), (ncol: int, t: int) => Pair(f, ncol, t);
    XorGridFlat(f, cells, n, 8, 8 * n);
    GridOfPairs(f, n, cells, pairs);
    var turned := (t: int, ncol: int) => pairs(ncol, t);
    XorGridTranspose(pairs, turned, n, 4);
    forall t | 0 <= t < 4
      ensures parts(t) == XorRange(ncol => turned(t, ncol), n)
    {
      XorRangeEq(ncol => Pair(f, ncol, t), ncol => turned(t, ncol), n);
    }
    GridIsRange(turned, parts, 4, n);
  }

  lemma {:induction false} GridOfPairs(f: int -> Word, n: nat, cells: (int, int) -> Word, pairs: (int, int) -> Word)
    requires forall ncol, x :: 0 <= ncol < n && 0 <= x < 8 ==> cells(ncol, x) == f(ncol * 8 + x)
    requires forall ncol, t :: 0 <= ncol < n && 0 <= t < 4 ==> pairs(ncol, t) == Pair(f, ncol, t)
    ensures XorGrid(cells, n, 8) == XorGrid(pairs, n, 4)
  {
    hide Xor, XorRange;
    if n > 0 {
      GridOfPairs(f, n - 1, cells, pairs);
      EightCells(x => cells(n - 1, x), t => pairs(n - 1, t));
    }
  }

  lemma {:induction false} GridIsRange(f: (int, int) -> Word, g: int -> Word, n: nat, w: nat)
    requires forall i :: 0 <= i < n ==> g(i) == XorRange(j => f(i, j), w)
    ensures XorGrid(f, n, w) == XorRange(g, n)
  {
    hide Xor;
    if n > 0 {
      GridIsRange(f, g, n - 1, w);
    }
  }

  // ---------- the accumulators of one warp ----------

  /** Accumulator y of a lane, seen as uint32. */
  type WarpRegisters = (int, int) -> Word

  /** cell(row, col) is the 32x64 region of the warp; the registers hold it in the mma layout. */
  ghost predicate HoldsRegion(acc: WarpRegisters, cell: (int, int) -> Word) {
    forall lane, y :: 0 <= lane < 32 && 0 <= y < 64 ==>
      acc(lane, y) == cell((y / 32) * 16 + CRow(lane, y % 4), (y / 4) % 8 * 8 + CCol(lane, y % 4))
  }

  lemma RegionAt(acc: WarpRegisters, cell: (int, int) -> Word, g: int, t: int, mrow: int, ncol: int, half: int, odd: int)
    requires HoldsRegion(acc, cell)
    requires 0 <= g < 8 && 0 <= t < 4 && 0 <= mrow < 2 && 0 <= ncol < 8 && 0 <= half < 2 && 0 <= odd < 2
    ensures acc(4 * g + t, (mrow * 8 + ncol) * 4 + 2 * half + odd) == cell(mrow * 16 + (g + 8 * half), 8 * ncol + 2 * t + odd)
  {
    hide Group, Tig;
    LaneParts(g, t);
    SlotDigits(mrow, ncol, half, odd);
    var lane, y := 4 * g + t, (mrow * 8 + ncol) * 4 + 2 * half + odd;
    assert acc(lane, y) == cell((y / 32) * 16 + CRow(lane, y % 4), (y / 4) % 8 * 8 + CCol(lane, y % 4));
  }

  // k_mine2: 2x64 tiles. pe (half 0) gathers c[0], c[1] and po (half 1) gathers c[2], c[3] of the
  // eight column fragments; after the shuffles lane 8a holds the XOR of lanes 8a .. 8a+7.

  function Mine2Pair(acc: WarpRegisters, lane: int, mrow: int, half: int, ncol: int): Word {
    Xor(acc(lane, (mrow * 8 + ncol) * 4 + 2 * half), acc(lane, (mrow * 8 + ncol) * 4 + 2 * half + 1))
  }

  function Mine2Lane(acc: WarpRegisters, mrow: int, half: int): Lanes {
    lane => XorRange(ncol => Mine2Pair(acc, lane, mrow, half, ncol), 8)
  }

  function Mine2Hash(acc: WarpRegisters, mrow: int, half: int, a: int): Word {
    ReduceDown(Mine2Lane(acc, mrow, half), 3)(8 * a)
  }

  /** Row of the warp's region in line yy of the tile that lane 8a then updates. */
  function Mine2Row(mrow: int, half: int, a: int, yy: int): int {
    mrow * 16 + half * 8 + 2 * a + yy
  }

  lemma Mine2LaneHolds(acc: WarpRegisters, cell: (int, int) -> Word, mrow: int, half: int, a: int, yy: int, t: int)
    requires HoldsRegion(acc, cell)
    requires 0 <= mrow < 2 && 0 <= half < 2 && 0 <= a < 4 && 0 <= yy < 2 && 0 <= t < 4
    ensures Mine2Lane(acc, mrow, half)(8 * a + 4 * yy + t) == LanePart(x => cell(Mine2Row(mrow, half, a, yy), x), 8, t)
  {
    hide Xor, XorRange, HoldsRegion, Pair;
    var row := Mine2Row(mrow, half, a, yy);
    assert row == mrow * 16 + (2 * a + yy + 8 * half);
    var f := x => cell(row, x);
    var p: int -> Word := ncol => Mine2Pair(acc, 8 * a + 4 * yy + t, mrow, half, ncol);
    forall ncol | 0 <= ncol < 8
      ensures p(ncol) == Pair(f, ncol, t)
    {
      Mine2PairHolds(acc, cell, mrow, half, 2 * a + yy, t, ncol, row, f);
      assert 4 * (2 * a + yy) + t == 8 * a + 4 * yy + t;
    }
    XorRangeEq(p, ncol => Pair(f, ncol, t), 8);
  }

  lemma Mine2PairHolds(acc: WarpRegisters, cell: (int, int) -> Word, mrow: int, half: int, g: int, t: int, ncol: int, row: int, f: int -> Word)
    requires HoldsRegion(acc, cell)
    requires 0 <= mrow < 2 && 0 <= half < 2 && 0 <= g < 8 && 0 <= t < 4 && 0 <= ncol < 8
    requires row == mrow * 16 + (g + 8 * half) && forall x :: f(x) == cell(row, x)
    ensures Mine2Pair(acc, 4 * g + t, mrow, half, ncol) == Pair(f, ncol, t)
  {
    hide Xor, HoldsRegion;
    RegionAt(acc, cell, g, t, mrow, ncol, half, 0);
    RegionAt(acc, cell, g, t, mrow, ncol, half, 1);
  }

  /** Lane 8a ends up with the hash of exactly one 2x64 tile per half. */
  lemma Mine2HashIsTile(acc: WarpRegisters, cell: (int, int) -> Word, mrow: int, half: int, a: int, tile: (int, int) -> Word)
    requires HoldsRegion(acc, cell)
    requires 0 <= mrow < 2 && 0 <= half < 2 && 0 <= a < 4
    requires forall yy, x :: 0 <= yy < 2 && 0 <= x < 64 ==> tile(yy, x) == cell(Mine2Row(mrow, half, a, yy), x)
    ensures Mine2Hash(acc, mrow, half, a) == XorGrid(tile, 2, 64)
  {
    hide Xor, XorRange, XorGrid, Mine2Lane, Mine2Row, HoldsRegion, ReduceDown;
    var v := Mine2Lane(acc, mrow, half);
    var r: Lanes := l => v(8 * a + l);
    assert Pow2(3) == 8;
    ReduceDownIsXor(v, 3, 8 * a, r);
    var lanes: (int, int) -> Word := (yy, t) => r(yy * 4 + t);
    XorGridFlat(r, lanes, 2, 4, 8);
    var rows: Lanes := yy => XorRange(t => lanes(yy, t), 4);
    forall yy | 0 <= yy < 2
      ensures rows(yy) == XorRange(x => tile(yy, x), 64)
    {
      Mine2RowHash(acc, cell, mrow, half, a, yy, x => tile(yy, x), t => lanes(yy, t));
    }
    GridIsRange(lanes, rows, 2, 4);
    GridIsRange(tile, rows, 2, 64);
  }

  lemma Mine2RowHash(acc: WarpRegisters, cell: (int, int) -> Word, mrow: int, half: int, a: int, yy: int,
                     f: int -> Word, lanes: Lanes)
    requires HoldsRegion(acc, cell)
    requires 0 <= mrow < 2 && 0 <= half < 2 && 0 <= a < 4 && 0 <= yy < 2
    requires forall x :: 0 <= x < 64 ==> f(x) == cell(Mine2Row(mrow, half, a, yy), x)
    requires forall t :: 0 <= t < 4 ==> lanes(t) == Mine2Lane(acc, mrow, half)(8 * a + (yy * 4 + t))
    ensures XorRange(lanes, 4) == XorRange(f, 64)
  {
    hide Xor, XorRange, Mine2Lane, Mine2Row, HoldsRegion, LanePart;
    var c := x => cell(Mine2Row(mrow, half, a, yy), x);
    forall t | 0 <= t < 4
      ensures lanes(t) == LanePart(c, 8, t)
    {
      Mine2LaneHolds(acc, cell, mrow, half, a, yy, t);
      assert 8 * a + (yy * 4 + t) == 8 * a + 4 * yy + t;
    }
    RowByLanes(c, 8, lanes);
    XorRangeEq(f, c, 64);
  }

  // k_mine: 16x16 tiles. Each lane XORs its eight accumulators of two neighbouring column fragments
  // and the butterfly over all 32 lanes leaves the tile's hash in lane 0.

  /** ca[0] ^ ca[1] ^ ca[2] ^ ca[3] ^ cb[0] ^ cb[1] ^ cb[2] ^ cb[3], ca at p and cb at q. */
  function EightXor(acc: WarpRegisters, lane: int, p: int, q: int): Word {
    Xor(Xor(Xor(Xor(Xor(Xor(Xor(acc(lane, p), acc(lane, p + 1)), acc(lane, p + 2)), acc(lane, p + 3)),
                    acc(lane, q)), acc(lane, q + 1)), acc(lane, q + 2)), acc(lane, q + 3))
  }

  function MineLane(acc: WarpRegisters, mrow: int, hcol: int): Lanes {
    lane => EightXor(acc, lane, (mrow * 8 + 2 * hcol) * 4, (mrow * 8 + 2 * hcol + 1) * 4)
  }

  function MineHash(acc: WarpRegisters, mrow: int, hcol: int): Word {
    ReduceXor(MineLane(acc, mrow, hcol), 5)(0)
  }

  lemma EightTerms(c0: Word, c1: Word, c2: Word, c3: Word, d0: Word, d1: Word, d2: Word, d3: Word)
    ensures Xor(Xor(Xor(Xor(Xor(Xor(Xor(c0, c1), c2), c3), d0), d1), d2), d3)
         == Xor(Xor(Xor(c0, c1), Xor(d0, d1)), Xor(Xor(c2, c3), Xor(d2, d3)))
  {
    hide Xor;
    var a, b, c, d := Xor(c0, c1), Xor(c2, c3), Xor(d0, d1), Xor(d2, d3);
    XorAssoc(a, c2, c3);
    XorAssoc(Xor(a, b), d0, d1);
    XorAssoc(Xor(Xor(a, b), c), d2, d3);
    XorAssoc(Xor(a, b), c, d);
    XorShuffle(a, b, c, d);
  }

  lemma TwoPairs(f: int -> Word, t: int)
    ensures LanePart(f, 2, t) == Xor(Pair(f, 0, t), Pair(f, 1, t))
  {
    hide Xor;
    var p := ncol => Pair(f, ncol, t);
    assert XorRange(p, 2) == Xor(XorRange(p, 1), p(1));
    OneLane(p);
  }

  lemma MineLaneHolds(acc: WarpRegisters, cell: (int, int) -> Word, mrow: int, hcol: int, g: int, t: int,
                      f: int -> Word, f8: int -> Word)
    requires HoldsRegion(acc, cell)
    requires 0 <= mrow < 2 && 0 <= hcol < 4 && 0 <= g < 8 && 0 <= t < 4
    requires forall x :: 0 <= x < 16 ==> f(x) == cell(mrow * 16 + g, hcol * 16 + x)
    requires forall x :: 0 <= x < 16 ==> f8(x) == cell(mrow * 16 + (g + 8), hcol * 16 + x)
    ensures MineLane(acc, mrow, hcol)(4 * g + t) == Xor(LanePart(f, 2, t), LanePart(f8, 2, t))
  {
    hide Xor, LanePart, HoldsRegion, Pair, EightXor;
    EightXorTerms(acc, 4 * g + t, (mrow * 8 + 2 * hcol) * 4, (mrow * 8 + 2 * hcol + 1) * 4);
    MinePairs(acc, cell, mrow, hcol, 0, g, t, f, f8);
    MinePairs(acc, cell, mrow, hcol, 1, g, t, f, f8);
    TwoPairs(f, t);
    TwoPairs(f8, t);
  }

  lemma EightXorTerms(acc: WarpRegisters, lane: int, p: int, q: int)
    ensures EightXor(acc, lane, p, q)
         == Xor(Xor(Xor(acc(lane, p), acc(lane, p + 1)), Xor(acc(lane, q), acc(lane, q + 1))),
                Xor(Xor(acc(lane, p + 2), acc(lane, p + 3)), Xor(acc(lane, q + 2), acc(lane, q + 3))))
  {
    hide Xor;
    EightTerms(acc(lane, p), acc(lane, p + 1), acc(lane, p + 2), acc(lane, p + 3),
               acc(lane, q), acc(lane, q + 1), acc(lane, q + 2), acc(lane, q + 3));
  }

  /** The four accumulators of column fragment 2*hcol + i are a pair of row g and a pair of row g + 8. */
  lemma MinePairs(acc: WarpRegisters, cell: (int, int) -> Word, mrow: int, hcol: int, i: int, g: int, t: int,
                  f: int -> Word, f8: int -> Word)
    requires HoldsRegion(acc, cell)
    requires 0 <= mrow < 2 && 0 <= hcol < 4 && 0 <= i < 2 && 0 <= g < 8 && 0 <= t < 4
    requires forall x :: 0 <= x < 16 ==> f(x) == cell(mrow * 16 + g, hcol * 16 + x)
    requires forall x :: 0 <= x < 16 ==> f8(x) == cell(mrow * 16 + (g + 8), hcol * 16 + x)
    ensures var lane, p := 4 * g + t, (mrow * 8 + 2 * hcol + i) * 4;
            && Xor(acc(lane, p), acc(lane, p + 1)) == Pair(f, i, t)
            && Xor(acc(lane, p + 2), acc(lane, p + 3)) == Pair(f8, i, t)
  {
    hide Xor, HoldsRegion;
    RegionAt(acc, cell, g, t, mrow, 2 * hcol + i, 0, 0);
    RegionAt(acc, cell, g, t, mrow, 2 * hcol + i, 0, 1);
    RegionAt(acc, cell, g, t, mrow, 2 * hcol + i, 1, 0);
    RegionAt(acc, cell, g, t, mrow, 2 * hcol + i, 1, 1);
  }

  lemma MineHashIsTile(acc: WarpRegisters, cell: (int, int) -> Word, mrow: int, hcol: int, tile: (int, int) -> Word)
    requires HoldsRegion(acc, cell)
    requires 0 <= mrow < 2 && 0 <= hcol < 4
    requires forall yy, x :: 0 <= yy < 16 && 0 <= x < 16 ==> tile(yy, x) == cell(mrow * 16 + yy, hcol * 16 + x)
    ensures MineHash(acc, mrow, hcol) == XorGrid(tile, 16, 16)
  {
    hide Xor, XorRange, XorGrid, MineLane, HoldsRegion, ReduceXor;
    var v := MineLane(acc, mrow, hcol);
    assert Pow2(5) == 32;
    ReduceXorIsXor(v, 5);
    var lanes: (int, int) -> Word := (g, t) => v(g * 4 + t);
    XorGridFlat(v, lanes, 8, 4, 32);
    MineGrid(acc, cell, mrow, hcol, tile, lanes, yy => XorRange(x => tile(yy, x), 16), g => XorRange(t => lanes(g, t), 4));
  }

  lemma MineGrid(acc: WarpRegisters, cell: (int, int) -> Word, mrow: int, hcol: int,
                 tile: (int, int) -> Word, lanes: (int, int) -> Word, rows: Lanes, pairs: Lanes)
    requires HoldsRegion(acc, cell)
    requires 0 <= mrow < 2 && 0 <= hcol < 4
    requires forall yy, x :: 0 <= yy < 16 && 0 <= x < 16 ==> tile(yy, x) == cell(mrow * 16 + yy, hcol * 16 + x)
    requires forall g, t :: 0 <= g < 8 && 0 <= t < 4 ==> lanes(g, t) == MineLane(acc, mrow, hcol)(g * 4 + t)
    requires forall yy :: 0 <= yy < 16 ==> rows(yy) == XorRange(x => tile(yy, x), 16)
    requires forall g :: 0 <= g < 8 ==> pairs(g) == XorRange(t => lanes(g, t), 4)
    ensures XorGrid(lanes, 8, 4) == XorGrid(tile, 16, 16)
  {
    hide Xor, XorRange, XorGrid, MineLane, HoldsRegion;
    forall g | 0 <= g < 8
      ensures pairs(g) == Xor(rows(g), rows(g + 8))
    {
      MineRowPair(acc, cell, mrow, hcol, g, x => tile(g, x), x => tile(g + 8, x), t => lanes(g, t));
    }
    GridIsRange(lanes, pairs, 8, 4);
    HalvingKeepsXor(rows, pairs, 8);
    GridIsRange(tile, rows, 16, 16);
  }

  lemma MineRowPair(acc: WarpRegisters, cell: (int, int) -> Word, mrow: int, hcol: int, g: int,
                    f: int -> Word, f8: int -> Word, lanes: Lanes)
    requires HoldsRegion(acc, cell)
    requires 0 <= mrow < 2 && 0 <= hcol < 4 && 0 <= g < 8
    requires forall x :: 0 <= x < 16 ==> f(x) == cell(mrow * 16 + g, hcol * 16 + x)
    requires forall x :: 0 <= x < 16 ==> f8(x) == cell(mrow * 16 + (g + 8), hcol * 16 + x)
    requires forall t :: 0 <= t < 4 ==> lanes(t) == MineLane(acc, mrow, hcol)(g * 4 + t)
    ensures XorRange(lanes, 4) == Xor(XorRange(f, 16), XorRange(f8, 16))
  {
    hide Xor, XorRange, MineLane, LanePart, HoldsRegion;
    forall t | 0 <= t < 4
      ensures lanes(t) == Xor(LanePart(f, 2, t), LanePart(f8, 2, t))
    {
      MineLaneHolds(acc, cell, mrow, hcol, g, t, f, f8);
      assert g * 4 + t == 4 * g + t;
    }
    XorRangeMerge(t => LanePart(f, 2, t), t => LanePart(f8, 2, t), lanes, 4);
    RowByLanes(f, 2, t => LanePart(f, 2, t));
    RowByLanes(f8, 2, t => LanePart(f8, 2, t));
  }
}
