/** Register fragments of mma.sync.m16n8k32 and the loads that fill them. */
module Fragments {
  import opened Ring

  // A lane is 8*4: groupID = lane / 4 selects rows, tig = lane % 4 selects columns.

  function Group(lane: int): int { lane / 4 }

  function Tig(lane: int): int { lane % 4 }

  // Byte x of A register q of a lane holds element (ARow, ACol) of the 16x32 operand.
  function ARow(lane: int, q: int): int { Group(lane) + 8 * (q % 2) }

  function ACol(lane: int, q: int, x: int): int { Tig(lane) * 4 + 16 * (q / 2) + x }

  // Byte x of B register q of a lane holds element (BRow, BCol) of the 32x8 operand.
  function BRow(lane: int, q: int, x: int): int { Tig(lane) * 4 + 16 * q + x }

  function BCol(lane: int): int { Group(lane) }

  // Accumulator e of a lane holds element (CRow, CCol) of the 16x8 result.
  function CRow(lane: int, e: int): int { Group(lane) + 8 * (e / 2) }

  function CCol(lane: int, e: int): int { Tig(lane) * 2 + e % 2 }

  /** What one warp-wide mma adds to accumulator e of a lane: the row-by-column product, each factor
      taken from the register of the lane that holds it. */
  function MmaSum(a: (int, int, int) -> int, b: (int, int, int) -> int, lane: int, e: int): int {
    var row, col := CRow(lane, e), CCol(lane, e);
    Sum(kk => a((row % 8) * 4 + (kk % 16) / 4, row / 8 + 2 * (kk / 16), kk % 4)
            * b(col * 4 + (kk % 16) / 4, kk / 16, kk % 4), 0, 32)
  }

  /** When the registers hold the operands as the layout says, the mma adds the true product. */
  lemma MmaIsProduct(a: (int, int, int) -> int, b: (int, int, int) -> int, lane: int, e: int,
                     left: (int, int) -> int, right: (int, int) -> int, f: int -> int)
    requires 0 <= lane < 32 && 0 <= e < 4
    requires forall l, q, x :: 0 <= l < 32 && 0 <= q < 4 && 0 <= x < 4 ==> a(l, q, x) == left(ARow(l, q), ACol(l, q, x))
    requires forall l, q, x :: 0 <= l < 32 && 0 <= q < 2 && 0 <= x < 4 ==> b(l, q, x) == right(BRow(l, q, x), BCol(l))
    requires forall kk :: 0 <= kk < 32 ==> f(kk) == left(CRow(lane, e), kk) * right(kk, CCol(lane, e))
    ensures MmaSum(a, b, lane, e) == Sum(f, 0, 32)
  {
    var row, col := CRow(lane, e), CCol(lane, e);
    var g := kk => a((row % 8) * 4 + (kk % 16) / 4, row / 8 + 2 * (kk / 16), kk % 4)
                 * b(col * 4 + (kk % 16) / 4, kk / 16, kk % 4);
    forall kk | 0 <= kk < 32
      ensures g(kk) == f(kk)
    {
      AHolder(row, kk);
      BHolder(kk, col);
    }
    SumEq(g, f, 0, 32);
  }

  /** Every element of the 16x32 operand sits in exactly one register byte. */
  lemma AHolder(row: int, kk: int)
    requires 0 <= row < 16 && 0 <= kk < 32
    ensures var l, q, x := (row % 8) * 4 + (kk % 16) / 4, row / 8 + 2 * (kk / 16), kk % 4;
            0 <= l < 32 && 0 <= q < 4 && 0 <= x < 4 && ARow(l, q) == row && ACol(l, q, x) == kk
  {
    var g, h, t, u, x := row % 8, row / 8, (kk % 16) / 4, kk / 16, kk % 4;
    assert kk == 16 * u + 4 * t + x;
    LaneParts(g, t);
    assert (h + 2 * u) % 2 == h && (h + 2 * u) / 2 == u;
  }

  lemma LaneParts(g: int, t: int)
    requires 0 <= g < 8 && 0 <= t < 4
    ensures Group(g * 4 + t) == g && Tig(g * 4 + t) == t
  {}

  lemma BHolder(kk: int, col: int)
    requires 0 <= kk < 32 && 0 <= col < 8
    ensures var l, q, x := col * 4 + (kk % 16) / 4, kk / 16, kk % 4;
            0 <= l < 32 && 0 <= q < 2 && 0 <= x < 4 && BRow(l, q, x) == kk && BCol(l) == col
  {
    var t, u, x := (kk % 16) / 4, kk / 16, kk % 4;
    assert kk == 16 * u + 4 * t + x;
    LaneParts(col, t);
  }

  lemma AHolderUnique(l: int, q: int, x: int)
    requires 0 <= l < 32 && 0 <= q < 4 && 0 <= x < 4
    ensures var row, kk := ARow(l, q), ACol(l, q, x);
            && 0 <= row < 16 && 0 <= kk < 32
            && l == (row % 8) * 4 + (kk % 16) / 4 && q == row / 8 + 2 * (kk / 16) && x == kk % 4
  {
    var g, t, u, v := l / 4, l % 4, q % 2, q / 2;
    assert (g + 8 * u) % 8 == g && (g + 8 * u) / 8 == u;
    AColDigits(t, v, x);
  }

  lemma AColDigits(t: int, v: int, x: int)
    requires 0 <= t < 4 && 0 <= v < 2 && 0 <= x < 4
    ensures var kk := t * 4 + 16 * v + x; 0 <= kk < 32 && (kk % 16) / 4 == t && kk / 16 == v && kk % 4 == x
  {
    var low := t * 4 + x;
    assert low / 4 == t && low % 4 == x;
    if v == 1 {
      assert (low + 16) / 16 == 1 && (low + 16) % 16 == low && (low + 16) % 4 == x;
    }
  }

  // ---------- loads from shared memory ----------

  /** A byte of a buffer; 0 beyond its end. */
  function Byte(mem: seq<int>, i: int): int {
    if 0 <= i < |mem| then mem[i] else 0
  }

  /** ldmatrix.x4: lanes 8i .. 8i+7 give the row addresses of 8x8 matrix i of 16-bit elements; lane L
      receives elements 2*(L%4) and 2*(L%4)+1, that is four bytes, of row L/4 of each matrix. */
  function LdMatrix(mem: seq<int>, rowAddress: int -> int, lane: int, i: int, x: int): int {
    Byte(mem, rowAddress(8 * i + lane / 4) + 4 * (lane % 4) + x)
  }

  /** The row addresses k_mine2 hands to ldmatrix. */
  function Mine2RowAddress(arow: int, lane: int): int {
    var alo := if lane < 16 then lane else lane - 16;
    var akoff := if lane < 16 then 0 else 16;
    (arow + alo) * 32 + akoff
  }

  /** The direct four-byte loads of k_mine and k_mma_gemm_cpasync. */
  function DirectA(mem: seq<int>, arow: int, lane: int, q: int, x: int): int {
    Byte(mem, (arow + Group(lane) + (if q % 2 == 1 then 8 else 0)) * 32 + Tig(lane) * 4 + (if q >= 2 then 16 else 0) + x)
  }

  /** The row that lane 8q + lane/4 points ldmatrix at is the fragment's row, and its half of columns. */
  lemma RowAddressOf(arow: int, g: int, h: int, v: int)
    requires 0 <= g < 8 && 0 <= h < 2 && 0 <= v < 2
    ensures Mine2RowAddress(arow, 8 * (2 * v + h) + g) == (arow + (g + 8 * h)) * 32 + 16 * v
  {
    if v == 0 {
      assert 8 * (2 * v + h) + g < 16;
    } else {
      assert 8 * (2 * v + h) + g >= 16;
    }
  }

  /** Both addresses are those of the fragment element. */
  lemma LoadAddresses(arow: int, lane: int, q: int, x: int)
    requires 0 <= lane < 32 && 0 <= q < 4
    ensures Mine2RowAddress(arow, 8 * q + lane / 4) + 4 * (lane % 4) + x == (arow + ARow(lane, q)) * 32 + ACol(lane, q, x)
    ensures (arow + Group(lane) + (if q % 2 == 1 then 8 else 0)) * 32 + Tig(lane) * 4 + (if q >= 2 then 16 else 0) + x
         == (arow + ARow(lane, q)) * 32 + ACol(lane, q, x)
  {
    hide Mine2RowAddress;
    RowAddressOf(arow, lane / 4, q % 2, q / 2);
    assert 2 * (q / 2) + q % 2 == q;
  }

  /** Both ways of loading give the A fragment the mma expects. */
  lemma LoadsAreFragments(mem: seq<int>, arow: int, lane: int, q: int, x: int)
    requires 0 <= lane < 32 && 0 <= q < 4 && 0 <= x < 4
    ensures LdMatrix(mem, l => Mine2RowAddress(arow, l), lane, q, x)
         == Byte(mem, (arow + ARow(lane, q)) * 32 + ACol(lane, q, x))
    ensures DirectA(mem, arow, lane, q, x) == Byte(mem, (arow + ARow(lane, q)) * 32 + ACol(lane, q, x))
  {
    hide Byte, Mine2RowAddress, ARow, ACol, Group, Tig;
    LoadAddresses(arow, lane, q, x);
  }

  // ---------- the 128x128 block tile of eight warps ----------

  // Thread tid is lane tid % 32 of warp tid / 32; warps form a 4x2 grid of 32x64 regions.
  function Lane(tid: int): int { tid % 32 }

  function WarpRow(tid: int): int { (tid / 32) / 2 }

  function WarpCol(tid: int): int { (tid / 32) % 2 }

  // Accumulator x = (mrow*8 + ncol)*4 + e of a thread holds this cell of the block tile.
  function CellRow(tid: int, x: int): int {
    WarpRow(tid) * 32 + (x / 32) * 16 + CRow(Lane(tid), x % 4)
  }

  function CellCol(tid: int, x: int): int {
    WarpCol(tid) * 64 + ((x / 4) % 8) * 8 + CCol(Lane(tid), x % 4)
  }

  /** The thread and accumulator that hold cell (row, col). */
  function CellThread(row: int, col: int): int {
    ((row / 32) * 2 + col / 64) * 32 + (row % 8) * 4 + (col % 8) / 2
  }

  function CellSlot(row: int, col: int): int {
    ((row % 32) / 16 * 8 + (col % 64) / 8) * 4 + (row % 16) / 8 * 2 + col % 2
  }

  // Mixed-radix digits of the four coordinates, with their ranges.

  lemma ThreadDigits(wr: int, wc: int, g: int, t: int)
    requires 0 <= wr < 4 && 0 <= wc < 2 && 0 <= g < 8 && 0 <= t < 4
    ensures var tid := (wr * 2 + wc) * 32 + g * 4 + t;
            0 <= tid < 256 && WarpRow(tid) == wr && WarpCol(tid) == wc && Group(Lane(tid)) == g && Tig(Lane(tid)) == t
  {}

  lemma SlotDigits(mrow: int, ncol: int, half: int, odd: int)
    requires 0 <= mrow < 2 && 0 <= ncol < 8 && 0 <= half < 2 && 0 <= odd < 2
    ensures var x := (mrow * 8 + ncol) * 4 + half * 2 + odd;
            0 <= x < 64 && x / 32 == mrow && (x / 4) % 8 == ncol && (x % 4) / 2 == half && (x % 4) % 2 == odd
  {}

  lemma RowDigits(wr: int, mrow: int, half: int, g: int)
    requires 0 <= wr < 4 && 0 <= mrow < 2 && 0 <= half < 2 && 0 <= g < 8
    ensures var row := wr * 32 + mrow * 16 + (g + 8 * half);
            0 <= row < 128 && row / 32 == wr && (row % 32) / 16 == mrow && (row % 16) / 8 == half && row % 8 == g
  {}

  lemma ColDigits(wc: int, ncol: int, t: int, odd: int)
    requires 0 <= wc < 2 && 0 <= ncol < 8 && 0 <= t < 4 && 0 <= odd < 2
    ensures var col := wc * 64 + ncol * 8 + (t * 2 + odd);
            0 <= col < 128 && col / 64 == wc && (col % 64) / 8 == ncol && (col % 8) / 2 == t && col % 2 == odd
  {}

  lemma ThreadOfDigits(tid: int) returns (wr: int, wc: int, g: int, t: int)
    requires 0 <= tid < 256
    ensures 0 <= wr < 4 && 0 <= wc < 2 && 0 <= g < 8 && 0 <= t < 4 && tid == (wr * 2 + wc) * 32 + g * 4 + t
  {
    wr, wc, g, t := (tid / 32) / 2, (tid / 32) % 2, (tid % 32) / 4, (tid % 32) % 4;
  }

  lemma SlotOfDigits(x: int) returns (mrow: int, ncol: int, half: int, odd: int)
    requires 0 <= x < 64
    ensures 0 <= mrow < 2 && 0 <= ncol < 8 && 0 <= half < 2 && 0 <= odd < 2
    ensures x == (mrow * 8 + ncol) * 4 + half * 2 + odd
  {
    mrow, ncol, half, odd := (x / 4) / 8, (x / 4) % 8, (x % 4) / 2, (x % 4) % 2;
  }

  lemma RowOfDigits(row: int) returns (wr: int, mrow: int, half: int, g: int)
    requires 0 <= row < 128
    ensures 0 <= wr < 4 && 0 <= mrow < 2 && 0 <= half < 2 && 0 <= g < 8
    ensures row == wr * 32 + mrow * 16 + (g + 8 * half)
  {
    wr, mrow, half, g := row / 32, (row % 32) / 16, ((row % 32) % 16) / 8, ((row % 32) % 16) % 8;
  }

  lemma ColOfDigits(col: int) returns (wc: int, ncol: int, t: int, odd: int)
    requires 0 <= col < 128
    ensures 0 <= wc < 2 && 0 <= ncol < 8 && 0 <= t < 4 && 0 <= odd < 2
    ensures col == wc * 64 + ncol * 8 + (t * 2 + odd)
  {
    wc, ncol, t, odd := col / 64, (col % 64) / 8, ((col % 64) % 8) / 2, ((col % 64) % 8) % 2;
  }

  lemma CellOfDigits(tid: int, x: int, row: int, col: int,
                     wr: int, wc: int, g: int, t: int, mrow: int, ncol: int, half: int, odd: int)
    requires 0 <= wr < 4 && 0 <= wc < 2 && 0 <= g < 8 && 0 <= t < 4
    requires 0 <= mrow < 2 && 0 <= ncol < 8 && 0 <= half < 2 && 0 <= odd < 2
    requires tid == (wr * 2 + wc) * 32 + g * 4 + t && x == (mrow * 8 + ncol) * 4 + half * 2 + odd
    requires row == wr * 32 + mrow * 16 + (g + 8 * half) && col == wc * 64 + ncol * 8 + (t * 2 + odd)
    ensures 0 <= tid < 256 && 0 <= x < 64 && 0 <= row < 128 && 0 <= col < 128
    ensures CellRow(tid, x) == row && CellCol(tid, x) == col
    ensures CellThread(row, col) == tid && CellSlot(row, col) == x
  {
    ThreadDigits(wr, wc, g, t);
    SlotDigits(mrow, ncol, half, odd);
    RowDigits(wr, mrow, half, g);
    ColDigits(wc, ncol, t, odd);
  }

  /** (thread, accumulator) and cells of the 128x128 tile correspond one to one. */
  lemma CellBijection(tid: int, x: int)
    requires 0 <= tid < 256 && 0 <= x < 64
    ensures 0 <= CellRow(tid, x) < 128 && 0 <= CellCol(tid, x) < 128
    ensures CellThread(CellRow(tid, x), CellCol(tid, x)) == tid
    ensures CellSlot(CellRow(tid, x), CellCol(tid, x)) == x
  {
    var wr, wc, g, t := ThreadOfDigits(tid);
    var mrow, ncol, half, odd := SlotOfDigits(x);
    var row, col := wr * 32 + mrow * 16 + (g + 8 * half), wc * 64 + ncol * 8 + (t * 2 + odd);
    CellOfDigits(tid, x, row, col, wr, wc, g, t, mrow, ncol, half, odd);
  }

  lemma CellOnto(row: int, col: int)
    requires 0 <= row < 128 && 0 <= col < 128
    ensures 0 <= CellThread(row, col) < 256 && 0 <= CellSlot(row, col) < 64
    ensures CellRow(CellThread(row, col), CellSlot(row, col)) == row
    ensures CellCol(CellThread(row, col), CellSlot(row, col)) == col
  {
    var wr, mrow, half, g := RowOfDigits(row);
    var wc, ncol, t, odd := ColOfDigits(col);
    var tid, x := (wr * 2 + wc) * 32 + g * 4 + t, (mrow * 8 + ncol) * 4 + half * 2 + odd;
    CellOfDigits(tid, x, row, col, wr, wc, g, t, mrow, ncol, half, odd);
  }
}
