/** Tensor-core GEMM kernels: one warp per 16x8 tile, and the double-buffered 128x128 blocks of the
    pipeline. */
module MmaGemm {
  import opened Bits
  import opened Ring
  import opened Transcript
  import opened Denoise
  import opened Fragments
  import opened Pipeline
  import opened FusedKernel
  import opened Mining
  import opened Scan

  // ---------- one mma step of a 16x8 tile ----------

  /** Accumulators of a warp for one tile: 32 lanes, four each. */
  type Tile16x8 = s: seq<seq<int>> | |s| == 32 && forall l :: 0 <= l < 32 ==> |s[l]| == 4 witness seq(32, _ => seq(4, _ => 0))

  function StepTile(acc: Tile16x8, fa: (int, int, int) -> int, fb: (int, int, int) -> int): Tile16x8 {
    seq(32, l requires 0 <= l < 32 => seq(4, e requires 0 <= e < 4 => Wrap32(acc[l][e] + MmaSum(fa, fb, l, e))))
  }

  /** The tile at (row0, col0) after hi columns. */
  ghost predicate TileHolds(acc: Tile16x8, a: Mat, b: Mat, row0: nat, col0: nat, hi: nat) {
    forall l, e :: 0 <= l < 32 && 0 <= e < 4 ==> acc[l][e] == Wrap32(Dot(a, b, row0 + CRow(l, e), col0 + CCol(l, e), 0, hi))
  }

  ghost predicate FragmentA(fa: (int, int, int) -> int, a: Mat, row0: nat, k0: nat) {
    forall l, q, x :: 0 <= l < 32 && 0 <= q < 4 && 0 <= x < 4 ==> fa(l, q, x) == At(a, row0 + ARow(l, q), k0 + ACol(l, q, x))
  }

  ghost predicate FragmentB(fb: (int, int, int) -> int, b: Mat, k0: nat, col0: nat) {
    forall l, q, x :: 0 <= l < 32 && 0 <= q < 2 && 0 <= x < 4 ==> fb(l, q, x) == At(b, k0 + BRow(l, q, x), col0 + BCol(l))
  }

  lemma StepHolds(acc: Tile16x8, a: Mat, b: Mat, row0: nat, col0: nat, k0: nat, fa: (int, int, int) -> int, fb: (int, int, int) -> int)
    requires TileHolds(acc, a, b, row0, col0, k0) && FragmentA(fa, a, row0, k0) && FragmentB(fb, b, k0, col0)
    ensures TileHolds(StepTile(acc, fa, fb), a, b, row0, col0, k0 + 32)
  {
    hide Dot, Wrap32, MmaSum, CRow, CCol, FragmentA, FragmentB;
    forall l, e | 0 <= l < 32 && 0 <= e < 4
      ensures StepTile(acc, fa, fb)[l][e] == Wrap32(Dot(a, b, row0 + CRow(l, e), col0 + CCol(l, e), 0, k0 + 32))
    {
      MmaStep(a, b, row0, col0, k0, fa, fb, l, e);
    }
  }

  lemma MmaStep(a: Mat, b: Mat, row0: nat, col0: nat, k0: nat, fa: (int, int, int) -> int, fb: (int, int, int) -> int, l: int, e: int)
    requires 0 <= l < 32 && 0 <= e < 4 && FragmentA(fa, a, row0, k0) && FragmentB(fb, b, k0, col0)
    ensures Wrap32(Wrap32(Dot(a, b, row0 + CRow(l, e), col0 + CCol(l, e), 0, k0)) + MmaSum(fa, fb, l, e))
         == Wrap32(Dot(a, b, row0 + CRow(l, e), col0 + CCol(l, e), 0, k0 + 32))
  {
    hide Dot, Wrap32, MmaSum, CRow, CCol, ARow, ACol, BRow, BCol, Sum;
    var i, j := row0 + CRow(l, e), col0 + CCol(l, e);
    var left: (int, int) -> int := (row, kk) => At(a, row0 + row, k0 + kk);
    var right: (int, int) -> int := (kk, col) => At(b, k0 + kk, col0 + col);
    var f: int -> int := kk => At(a, i, k0 + kk) * At(b, k0 + kk, j);
    MmaIsProduct(fa, fb, l, e, left, right, f);
    var g: int -> int := p => At(a, i, p) * At(b, p, j);
    SumShift(f, g, 0, 32, k0);
    DotIsSum(a, b, i, j, k0, k0 + 32, g);
    DotSplit(a, b, i, j, 0, k0, k0 + 32);
    WrapAdd(Dot(a, b, i, j, 0, k0), MmaSum(fa, fb, l, e));
  }

  function ZeroTile(): Tile16x8 { seq(32, _ => seq(4, _ => 0)) }

  lemma ZeroHolds(a: Mat, b: Mat, row0: nat, col0: nat)
    ensures TileHolds(ZeroTile(), a, b, row0, col0, 0)
  {
    hide CRow, CCol;
  }

  // ---------- C ----------

  /** Cell (row, col) of a tile is held by this lane and accumulator, and by no other. */
  lemma CHolder(row: int, col: int)
    requires 0 <= row < 16 && 0 <= col < 8
    ensures var l, e := (row % 8) * 4 + col / 2, row / 8 * 2 + col % 2;
            && 0 <= l < 32 && 0 <= e < 4 && CRow(l, e) == row && CCol(l, e) == col
            && forall l', e' :: 0 <= l' < 32 && 0 <= e' < 4 && CRow(l', e') == row && CCol(l', e') == col ==> l' == l && e' == e
  {
    LaneParts(row % 8, col / 2);
    forall l', e' | 0 <= l' < 32 && 0 <= e' < 4 && CRow(l', e') == row && CCol(l', e') == col
      ensures l' == (row % 8) * 4 + col / 2 && e' == row / 8 * 2 + col % 2
    {
      CPlace(l', e');
    }
  }

  lemma CPlace(l: int, e: int)
    requires 0 <= l < 32 && 0 <= e < 4
    ensures l == (CRow(l, e) % 8) * 4 + CCol(l, e) / 2 && e == CRow(l, e) / 8 * 2 + CCol(l, e) % 2
  {
    var g, t := l / 4, l % 4;
    assert (g + 8 * (e / 2)) % 8 == g && (g + 8 * (e / 2)) / 8 == e / 2;
    assert (t * 2 + e % 2) / 2 == t && (t * 2 + e % 2) % 2 == e % 2;
  }

  lemma CInTile(l: int, e: int)
    requires 0 <= l < 32 && 0 <= e < 4
    ensures 0 <= CRow(l, e) < 16 && 0 <= CCol(l, e) < 8
  {}

  /** Tile (ti, tj) of C, in tiles of 16x8, is the wrapped product. */
  ghost predicate TileShown(c: seq<int>, p: Mat, n: nat, ti: nat, tj: nat) {
    forall i: nat, j: nat :: i < |p| && j < |p[i]| && i / 16 == ti && j / 8 == tj ==> ShowsCell(c, Position(n, i, j), p[i][j])
  }

  /** C is touched only where the tile (ti, tj) lies, and only with its values. */
  ghost predicate OnlyTile(before: seq<int>, c: seq<int>, p: Mat, n: nat, ti: nat, tj: nat) {
    |before| == |c| &&
    forall x :: 0 <= x < |c| && c[x] != before[x] ==>
      exists i: nat, j: nat :: IsCell(p, n, i, j, x, c[x]) && i / 16 == ti && j / 8 == tj
  }

  ghost predicate IsCell(p: Mat, n: nat, i: nat, j: nat, x: int, v: int) {
    i < |p| && j < |p[i]| && x == Position(n, i, j) && v == p[i][j]
  }

  lemma OtherTileShown(before: seq<int>, c: seq<int>, p: Mat, m: nat, n: nat, ti: nat, tj: nat, ti': nat, tj': nat)
    requires IsMat(p, m, n) && OnlyTile(before, c, p, n, ti, tj) && TileShown(before, p, n, ti', tj')
    ensures TileShown(c, p, n, ti', tj')
  {
    hide Position;
    forall i: nat, j: nat | i < |p| && j < |p[i]| && i / 16 == ti' && j / 8 == tj'
      ensures ShowsCell(c, Position(n, i, j), p[i][j])
    {
      var x := Position(n, i, j);
      assert ShowsCell(before, x, p[i][j]);
      if c[x] != before[x] {
        var i': nat, j': nat :| IsCell(p, n, i', j', x, c[x]) && i' / 16 == ti && j' / 8 == tj;
        PositionsDistinct(n, i, j, i', j');
      }
    }
  }

  /** Each lane writes its four accumulators: C[rm+g][rn+2t], [+1], and eight rows below. */
  method StoreTile(acc: Tile16x8, c: array<int>, ghost a: Mat, ghost b: Mat, m: nat, k: nat, n: nat, ti: nat, tj: nat)
    requires c.Length == m * n && ti * 16 + 16 <= m && tj * 8 + 8 <= n && TileHolds(acc, a, b, ti * 16, tj * 8, k)
    modifies c
    ensures TileShown(c[..], Product32(a, b, m, k, n), n, ti, tj)
    ensures OnlyTile(old(c[..]), c[..], Product32(a, b, m, k, n), n, ti, tj)
  {
    hide Dot, Wrap32, Product32, Position, CRow, CCol, TileShown, OnlyTile;
    ghost var p := Product32(a, b, m, k, n);
    NothingStored(c[..], p, n, ti, tj);
    for l := 0 to 32
      invariant OnlyTile(old(c[..]), c[..], p, n, ti, tj) && LanesStored(c[..], p, n, ti, tj, l, 0)
    {
      for e := 0 to 4
        invariant OnlyTile(old(c[..]), c[..], p, n, ti, tj) && LanesStored(c[..], p, n, ti, tj, l, e)
      {
        CInTile(l, e);
        var i, j := ti * 16 + CRow(l, e), tj * 8 + CCol(l, e);
        CellInC(m, n, i, j);
        ghost var before := c[..];
        c[Position(n, i, j)] := acc[l][e];
        assert c[..] == before[Position(n, i, j) := p[i][j]];
        OneStored(old(c[..]), before, p, m, n, ti, tj, l, e);
      }
    }
    AllStored(c[..], p, m, n, ti, tj);
  }

  lemma CellInC(m: nat, n: nat, i: nat, j: nat)
    requires i < m && j < n
    ensures 0 <= Position(n, i, j) < m * n
  {
    NestBelow(i, m, n, j);
  }

  /** Lanes below l, and accumulators below e of lane l, have been written. */
  ghost predicate LanesStored(c: seq<int>, p: Mat, n: nat, ti: nat, tj: nat, l: int, e: int) {
    forall l', e' :: 0 <= l' < 32 && 0 <= e' < 4 && (l' < l || (l' == l && e' < e)) ==> Stored(c, p, n, ti, tj, l', e')
  }

  ghost predicate Stored(c: seq<int>, p: Mat, n: nat, ti: nat, tj: nat, l: int, e: int) {
    var i, j := ti * 16 + CRow(l, e), tj * 8 + CCol(l, e);
    0 <= i < |p| && 0 <= j < |p[i]| && ShowsCell(c, Position(n, i, j), p[i][j])
  }

  lemma NothingStored(c: seq<int>, p: Mat, n: nat, ti: nat, tj: nat)
    ensures OnlyTile(c, c, p, n, ti, tj) && LanesStored(c, p, n, ti, tj, 0, 0)
  {}

  lemma OneStored(start: seq<int>, before: seq<int>, p: Mat, m: nat, n: nat, ti: nat, tj: nat, l: nat, e: nat)
    requires IsMat(p, m, n) && |before| == m * n && l < 32 && e < 4 && ti * 16 + 16 <= m && tj * 8 + 8 <= n
    requires OnlyTile(start, before, p, n, ti, tj) && LanesStored(before, p, n, ti, tj, l, e)
    ensures ti * 16 + CRow(l, e) < m && tj * 8 + CCol(l, e) < n && 0 <= Position(n, ti * 16 + CRow(l, e), tj * 8 + CCol(l, e)) < |before|
    ensures var i, j := ti * 16 + CRow(l, e), tj * 8 + CCol(l, e);
            var c := before[Position(n, i, j) := p[i][j]];
            OnlyTile(start, c, p, n, ti, tj) && LanesStored(c, p, n, ti, tj, l, e + 1)
  {
    hide Position, CRow, CCol;
    CInTile(l, e);
    var i, j := ti * 16 + CRow(l, e), tj * 8 + CCol(l, e);
    CellInC(m, n, i, j);
    var c := before[Position(n, i, j) := p[i][j]];
    OnlyThat(start, before, p, n, ti, tj, i, j);
    forall l', e' | 0 <= l' < 32 && 0 <= e' < 4 && (l' < l || (l' == l && e' < e + 1))
      ensures Stored(c, p, n, ti, tj, l', e')
    {
      StoredStays(before, p, m, n, ti, tj, l, e, l', e');
    }
  }

  lemma StoredStays(before: seq<int>, p: Mat, m: nat, n: nat, ti: nat, tj: nat, l: nat, e: nat, l': int, e': int)
    requires IsMat(p, m, n) && |before| == m * n && l < 32 && e < 4 && 0 <= l' < 32 && 0 <= e' < 4 && ti * 16 + 16 <= m && tj * 8 + 8 <= n
    requires Stored(before, p, n, ti, tj, l', e') || (l' == l && e' == e)
    requires 0 <= ti * 16 + CRow(l, e) < m && 0 <= tj * 8 + CCol(l, e) < n && 0 <= Position(n, ti * 16 + CRow(l, e), tj * 8 + CCol(l, e)) < |before|
    ensures var i, j := ti * 16 + CRow(l, e), tj * 8 + CCol(l, e);
            Stored(before[Position(n, i, j) := p[i][j]], p, n, ti, tj, l', e')
  {
    hide Position, CRow, CCol;
    CInTile(l', e');
    var i, j := ti * 16 + CRow(l, e), tj * 8 + CCol(l, e);
    var i', j' := ti * 16 + CRow(l', e'), tj * 8 + CCol(l', e');
    if Position(n, i, j) == Position(n, i', j') {
      PositionsDistinct(n, i, j, i', j');
    }
  }

  lemma OnlyThat(start: seq<int>, before: seq<int>, p: Mat, n: nat, ti: nat, tj: nat, i: nat, j: nat)
    requires OnlyTile(start, before, p, n, ti, tj) && i < |p| && j < |p[i]| && i / 16 == ti && j / 8 == tj
    requires 0 <= Position(n, i, j) < |before|
    ensures OnlyTile(start, before[Position(n, i, j) := p[i][j]], p, n, ti, tj)
  {
    hide Position;
    var at := Position(n, i, j);
    var c := before[at := p[i][j]];
    forall x | 0 <= x < |c| && c[x] != start[x]
      ensures exists i': nat, j': nat :: IsCell(p, n, i', j', x, c[x]) && i' / 16 == ti && j' / 8 == tj
    {
      if x == at {
        assert IsCell(p, n, i, j, x, c[x]);
      } else {
        assert before[x] != start[x];
      }
    }
  }

  lemma AllStored(c: seq<int>, p: Mat, m: nat, n: nat, ti: nat, tj: nat)
    requires LanesStored(c, p, n, ti, tj, 32, 0)
    ensures TileShown(c, p, n, ti, tj)
  {
    hide Position, CRow, CCol;
    forall i: nat, j: nat | i < |p| && j < |p[i]| && i / 16 == ti && j / 8 == tj
      ensures ShowsCell(c, Position(n, i, j), p[i][j])
    {
      var row, col := i % 16, j % 8;
      CHolder(row, col);
      assert ti * 16 + row == i && tj * 8 + col == j;
      assert Stored(c, p, n, ti, tj, (row % 8) * 4 + col / 2, row / 8 * 2 + col % 2);
    }
  }

  /** Once every tile is shown, C is the wrapped product. */
  lemma AllTilesShown(c: seq<int>, p: Mat, m: nat, n: nat)
    requires |c| == m * n && IsMat(p, m, n)
    requires forall ti: nat, tj: nat :: ti * 16 < m && tj * 8 < n ==> TileShown(c, p, n, ti, tj)
    ensures View(c, 0, m, n) == p
  {
    hide View, Position;
    forall i, j | 0 <= i < m && 0 <= j < n
      ensures 0 <= 0 + Position(n, i, j) < |c| && c[0 + Position(n, i, j)] == p[i][j]
    {
      var ti, tj := i / 16, j / 8;
      assert TileShown(c, p, n, ti, tj);
      assert ShowsCell(c, Position(n, i, j), p[i][j]);
    }
    ViewOf(c, 0, m, n, p);
  }

  ghost predicate ShownBut(c: seq<int>, p: Mat, m: nat, n: nat, rows: nat, cols: nat, pending: set<(nat, nat)>)
    requires rows > 0 && cols > 0
  {
    forall ti: nat, tj: nat :: ti * 16 < m && tj * 8 < n && (ti / rows, tj / cols) !in pending ==> TileShown(c, p, n, ti, tj)
  }

  function Blocks(rows: nat, cols: nat): set<(nat, nat)> {
    set i, j | i in Threads(rows) && j in Threads(cols) :: (i, j)
  }

  // ---------- k_mma_gemm ----------

  /** Byte x of A register q of a lane, read from global memory. */
  function GlobalFragmentA(an: seq<int>, k: nat, rm: nat, k0: nat, l: int, q: int, x: int): int {
    Load(an, Position(k, rm + Group(l) + (if q % 2 == 1 then 8 else 0), k0 + Tig(l) * 4 + (if q >= 2 then 16 else 0) + x))
  }

  function GlobalFragmentB(bn: seq<int>, n: nat, rn: nat, k0: nat, l: int, q: int, x: int): int {
    Load(bn, Position(n, k0 + Tig(l) * 4 + (if q == 1 then 16 else 0) + x, rn + Group(l)))
  }

  /** The kernels' address arithmetic follows the fragment layout. */
  lemma AIndex(l: int, q: int, x: int)
    requires 0 <= l < 32 && 0 <= q < 4 && 0 <= x < 4
    ensures Group(l) + (if q % 2 == 1 then 8 else 0) == ARow(l, q) && Tig(l) * 4 + (if q >= 2 then 16 else 0) + x == ACol(l, q, x)
    ensures 0 <= ARow(l, q) < 16 && 0 <= ACol(l, q, x) < 32
  {}

  lemma BIndex(l: int, q: int, x: int)
    requires 0 <= l < 32 && 0 <= q < 2 && 0 <= x < 4
    ensures Tig(l) * 4 + (if q == 1 then 16 else 0) + x == BRow(l, q, x) && Group(l) == BCol(l)
    ensures 0 <= BRow(l, q, x) < 32 && 0 <= BCol(l) < 8
  {}

  lemma GlobalByteA(an: seq<int>, m: nat, k: nat, rm: nat, k0: nat, l: int, q: int, x: int)
    requires |an| == m * k && rm + 16 <= m && k0 + 32 <= k && 0 <= l < 32 && 0 <= q < 4 && 0 <= x < 4
    ensures GlobalFragmentA(an, k, rm, k0, l, q, x) == At(View(an, 0, m, k), rm + ARow(l, q), k0 + ACol(l, q, x))
  {
    hide View, Position, Load, Group, Tig, ARow, ACol;
    AIndex(l, q, x);
    ViewLoad(an, m, k, rm + ARow(l, q), k0 + ACol(l, q, x));
  }

  lemma GlobalByteB(bn: seq<int>, k: nat, n: nat, rn: nat, k0: nat, l: int, q: int, x: int)
    requires |bn| == k * n && rn + 8 <= n && k0 + 32 <= k && 0 <= l < 32 && 0 <= q < 2 && 0 <= x < 4
    ensures GlobalFragmentB(bn, n, rn, k0, l, q, x) == At(View(bn, 0, k, n), k0 + BRow(l, q, x), rn + BCol(l))
  {
    hide View, Position, Load, Group, Tig, BRow, BCol;
    BIndex(l, q, x);
    ViewLoad(bn, k, n, k0 + BRow(l, q, x), rn + BCol(l));
  }

  lemma GlobalFragments(an: seq<int>, bn: seq<int>, m: nat, k: nat, n: nat, ti: nat, tj: nat, k0: nat)
    requires |an| == m * k && |bn| == k * n && ti * 16 + 16 <= m && tj * 8 + 8 <= n && k0 + 32 <= k
    ensures FragmentA((l, q, x) => GlobalFragmentA(an, k, ti * 16, k0, l, q, x), View(an, 0, m, k), ti * 16, k0)
    ensures FragmentB((l, q, x) => GlobalFragmentB(bn, n, tj * 8, k0, l, q, x), View(bn, 0, k, n), k0, tj * 8)
  {
    hide View, GlobalFragmentA, GlobalFragmentB, ARow, ACol, BRow, BCol, At;
    forall l, q, x | 0 <= l < 32 && 0 <= q < 4 && 0 <= x < 4
      ensures GlobalFragmentA(an, k, ti * 16, k0, l, q, x) == At(View(an, 0, m, k), ti * 16 + ARow(l, q), k0 + ACol(l, q, x))
    {
      GlobalByteA(an, m, k, ti * 16, k0, l, q, x);
    }
    forall l, q, x | 0 <= l < 32 && 0 <= q < 2 && 0 <= x < 4
      ensures GlobalFragmentB(bn, n, tj * 8, k0, l, q, x) == At(View(bn, 0, k, n), k0 + BRow(l, q, x), tj * 8 + BCol(l))
    {
      GlobalByteB(bn, k, n, tj * 8, k0, l, q, x);
    }
  }

  lemma ViewLoad(buf: seq<int>, rows: nat, cols: nat, i: nat, j: nat)
    requires |buf| == rows * cols && i < rows && j < cols
    ensures Load(buf, Position(cols, i, j)) == At(View(buf, 0, rows, cols), i, j)
  {
    hide View, Position;
    var v := View(buf, 0, rows, cols);
    assert v[i][j] == buf[0 + Position(cols, i, j)];
  }

  /** One warp's tile. */
  method WarpTile(an: seq<int>, bn: seq<int>, m: nat, k: nat, n: nat, ti: nat, tj: nat) returns (acc: Tile16x8)
    requires |an| == m * k && |bn| == k * n && ti * 16 + 16 <= m && tj * 8 + 8 <= n && k % 32 == 0
    ensures TileHolds(acc, View(an, 0, m, k), View(bn, 0, k, n), ti * 16, tj * 8, k)
  {
    hide View, TileHolds, FragmentA, FragmentB, StepTile, GlobalFragmentA, GlobalFragmentB;
    ghost var a, b := View(an, 0, m, k), View(bn, 0, k, n);
    ZeroHolds(a, b, ti * 16, tj * 8);
    acc := ZeroTile();
    var k0 := 0;
    while k0 < k
      invariant 0 <= k0 <= k && k0 % 32 == 0 && TileHolds(acc, a, b, ti * 16, tj * 8, k0)
      decreases k - k0
    {
      GlobalFragments(an, bn, m, k, n, ti, tj, k0);
      var fa: (int, int, int) -> int := (l, q, x) => GlobalFragmentA(an, k, ti * 16, k0, l, q, x);
      var fb: (int, int, int) -> int := (l, q, x) => GlobalFragmentB(bn, n, tj * 8, k0, l, q, x);
      StepHolds(acc, a, b, ti * 16, tj * 8, k0, fa, fb);
      acc := StepTile(acc, fa, fb);
      k0 := k0 + 32;
    }
  }

  /** k_mma_gemm over its grid, warps in any order. */
  method MmaGemmKernel(an: seq<int>, bn: seq<int>, c: array<int>, m: nat, k: nat, n: nat)
    requires |an| == m * k && |bn| == k * n && c.Length == m * n && m % 16 == 0 && n % 8 == 0 && k % 32 == 0
    modifies c
    ensures View(c[..], 0, m, n) == Product32(View(an, 0, m, k), View(bn, 0, k, n), m, k, n)
  {
    hide View, TileHolds, TileShown, OnlyTile, Product32, ShownBut;
    ghost var a, b := View(an, 0, m, k), View(bn, 0, k, n);
    ghost var p := Product32(a, b, m, k, n);
    var pending := Blocks(m / 16, n / 8);
    NothingShown(c[..], p, m, n, 1, 1);
    while pending != {}
      invariant pending <= Blocks(m / 16, n / 8) && ShownBut(c[..], p, m, n, 1, 1, pending)
      decreases |pending|
    {
      var t :| t in pending;
      var acc := WarpTile(an, bn, m, k, n, t.0, t.1);
      ghost var before := c[..];
      StoreTile(acc, c, a, b, m, k, n, t.0, t.1);
      OneTileMore(before, c[..], p, m, n, pending, t);
      pending := pending - {t};
    }
    AllShown(c[..], p, m, n, 1, 1);
  }

  lemma NothingShown(c: seq<int>, p: Mat, m: nat, n: nat, rows: nat, cols: nat)
    requires rows > 0 && cols > 0 && m % (16 * rows) == 0 && n % (8 * cols) == 0
    ensures ShownBut(c, p, m, n, rows, cols, Blocks(m / (16 * rows), n / (8 * cols)))
  {
    hide TileShown;
    forall ti: nat, tj: nat | ti * 16 < m && tj * 8 < n
      ensures (ti / rows, tj / cols) in Blocks(m / (16 * rows), n / (8 * cols))
    {
      TileBlock(m, 16, rows, ti);
      TileBlock(n, 8, cols, tj);
    }
  }

  lemma TileBlock(m: nat, size: nat, rows: nat, ti: nat)
    requires size > 0 && rows > 0 && size * rows > 0 && m % (size * rows) == 0 && ti * size < m
    ensures ti / rows < m / (size * rows)
  {
    var blocks := m / (size * rows);
    assert m == blocks * (size * rows);
    assert blocks * (size * rows) == (blocks * rows) * size;
    assert ti < blocks * rows;
    QuotientBelow(ti, blocks, rows);
  }

  lemma OneTileMore(before: seq<int>, c: seq<int>, p: Mat, m: nat, n: nat, pending: set<(nat, nat)>, t: (nat, nat))
    requires IsMat(p, m, n) && ShownBut(before, p, m, n, 1, 1, pending)
    requires OnlyTile(before, c, p, n, t.0, t.1) && TileShown(c, p, n, t.0, t.1)
    ensures ShownBut(c, p, m, n, 1, 1, pending - {t})
  {
    hide TileShown, OnlyTile;
    forall ti: nat, tj: nat | ti * 16 < m && tj * 8 < n && (ti / 1, tj / 1) !in pending - {t}
      ensures TileShown(c, p, n, ti, tj)
    {
      if ti != t.0 || tj != t.1 {
        assert TileShown(before, p, n, ti, tj);
        OtherTileShown(before, c, p, m, n, t.0, t.1, ti, tj);
      }
    }
  }

  lemma AllShown(c: seq<int>, p: Mat, m: nat, n: nat, rows: nat, cols: nat)
    requires rows > 0 && cols > 0 && |c| == m * n && IsMat(p, m, n) && ShownBut(c, p, m, n, rows, cols, {})
    ensures View(c, 0, m, n) == p
  {
    hide TileShown, View;
    AllTilesShown(c, p, m, n);
  }

  // ---------- blocks of several warps ----------

  // Tiles of a block of nw warps in a grid of two columns, each with two rows of nc tiles: tile number
  // s = (warp*2 + mrow)*nc + ncol sits in this row and column of tiles.

  function SubRow(nc: nat, s: nat): nat requires nc > 0 { s / nc / 2 / 2 * 2 + s / nc % 2 }

  function SubCol(nc: nat, s: nat): nat requires nc > 0 { s / nc / 2 % 2 * nc + s % nc }

  predicate BlockShape(nw: nat, nc: nat) { (nw == 4 && nc == 4) || (nw == 8 && nc == 8) }

  lemma SubInBlock(nw: nat, nc: nat, s: nat)
    requires BlockShape(nw, nc) && s < nw * 2 * nc
    ensures SubRow(nc, s) < nw && SubCol(nc, s) < 2 * nc
  {}

  /** The number of the tile in row r and column c of the block. */
  function SubAt(nc: nat, r: nat, c: nat): nat requires nc > 0 { ((r / 2 * 2 + c / nc) * 2 + r % 2) * nc + c % nc }

  lemma SubOfNumber(nw: nat, nc: nat, s: nat)
    requires BlockShape(nw, nc) && s < nw * 2 * nc
    ensures SubAt(nc, SubRow(nc, s), SubCol(nc, s)) == s
  {
    var h := s / nc;
    var x, y := h / 2 / 2, h / 2 % 2;
    assert (x * 2 + h % 2) / 2 == x && (x * 2 + h % 2) % 2 == h % 2;
    if nc == 4 {
      assert (y * 4 + s % 4) / 4 == y && (y * 4 + s % 4) % 4 == s % 4;
    } else {
      assert (y * 8 + s % 8) / 8 == y && (y * 8 + s % 8) % 8 == s % 8;
    }
  }

  lemma SubOfPlace(nw: nat, nc: nat, r: nat, c: nat)
    requires BlockShape(nw, nc) && r < nw && c < 2 * nc
    ensures SubAt(nc, r, c) < nw * 2 * nc && SubRow(nc, SubAt(nc, r, c)) == r && SubCol(nc, SubAt(nc, r, c)) == c
  {
    hide SubRow, SubCol;
    var x, y, z, d := r / 2, c / nc, r % 2, c % nc;
    var h := (x * 2 + y) * 2 + z;
    assert SubAt(nc, r, c) == h * nc + d;
    if nc == 4 {
      PlaceOf4(x, y, z, d);
    } else {
      PlaceOf8(x, y, z, d);
    }
  }

  lemma PlaceOf4(x: nat, y: nat, z: nat, d: nat)
    requires x < 2 && y < 2 && z < 2 && d < 4
    ensures var s := ((x * 2 + y) * 2 + z) * 4 + d; s < 32 && SubRow(4, s) == x * 2 + z && SubCol(4, s) == y * 4 + d
  {
    var h := (x * 2 + y) * 2 + z;
    assert (h * 4 + d) / 4 == h && (h * 4 + d) % 4 == d;
  }

  lemma PlaceOf8(x: nat, y: nat, z: nat, d: nat)
    requires x < 4 && y < 2 && z < 2 && d < 8
    ensures var s := ((x * 2 + y) * 2 + z) * 8 + d; s < 128 && SubRow(8, s) == x * 2 + z && SubCol(8, s) == y * 8 + d
  {
    var h := (x * 2 + y) * 2 + z;
    assert (h * 8 + d) / 8 == h && (h * 8 + d) % 8 == d;
  }

  /** Every tile of the block has exactly one number. */
  lemma SubNumber(nw: nat, nc: nat, r: nat, c: nat) returns (s: nat)
    requires BlockShape(nw, nc) && r < nw && c < 2 * nc
    ensures s < nw * 2 * nc && SubRow(nc, s) == r && SubCol(nc, s) == c
    ensures forall s': nat :: s' < nw * 2 * nc && SubRow(nc, s') == r && SubCol(nc, s') == c ==> s' == s
  {
    hide SubRow, SubCol, SubAt;
    SubOfPlace(nw, nc, r, c);
    s := SubAt(nc, r, c);
    forall s': nat | s' < nw * 2 * nc && SubRow(nc, s') == r && SubCol(nc, s') == c
      ensures s' == s
    {
      SubOfNumber(nw, nc, s');
    }
  }

  ghost predicate StillShown(before: seq<int>, c: seq<int>, p: Mat, n: nat) {
    forall ti: nat, tj: nat :: TileShown(before, p, n, ti, tj) ==> TileShown(c, p, n, ti, tj)
  }

  lemma StoredTileKeeps(start: seq<int>, before: seq<int>, c: seq<int>, p: Mat, m: nat, n: nat, ti: nat, tj: nat)
    requires IsMat(p, m, n) && StillShown(start, before, p, n) && OnlyTile(before, c, p, n, ti, tj) && TileShown(c, p, n, ti, tj)
    ensures StillShown(start, c, p, n) && StillShown(before, c, p, n)
  {
    hide TileShown, OnlyTile;
    forall ti': nat, tj': nat | TileShown(before, p, n, ti', tj')
      ensures TileShown(c, p, n, ti', tj')
    {
      OtherTileShown(before, c, p, m, n, ti, tj, ti', tj');
    }
  }

  ghost predicate SubsShown(c: seq<int>, p: Mat, n: nat, bi: nat, bj: nat, nw: nat, nc: nat, count: nat)
    requires nc > 0
  {
    forall s: nat :: s < count ==> TileShown(c, p, n, bi * nw + SubRow(nc, s), bj * (2 * nc) + SubCol(nc, s))
  }

  ghost predicate BlockHolds(accs: seq<Tile16x8>, a: Mat, b: Mat, bi: nat, bj: nat, nw: nat, nc: nat, hi: nat)
    requires nc > 0
  {
    forall s: nat :: s < |accs| ==> SubHolds(accs, a, b, bi, bj, nw, nc, s, hi)
  }

  ghost predicate SubHolds(accs: seq<Tile16x8>, a: Mat, b: Mat, bi: nat, bj: nat, nw: nat, nc: nat, s: nat, hi: nat)
    requires nc > 0 && s < |accs|
  {
    TileHolds(accs[s], a, b, (bi * nw + SubRow(nc, s)) * 16, (bj * (2 * nc) + SubCol(nc, s)) * 8, hi)
  }

  /** The write-out of a block. */
  method StoreBlock(accs: seq<Tile16x8>, c: array<int>, ghost a: Mat, ghost b: Mat, m: nat, k: nat, n: nat, bi: nat, bj: nat, nw: nat, nc: nat)
    requires BlockShape(nw, nc) && |accs| == nw * 2 * nc && c.Length == m * n
    requires (bi + 1) * (16 * nw) <= m && (bj + 1) * (16 * nc) <= n && BlockHolds(accs, a, b, bi, bj, nw, nc, k)
    modifies c
    ensures StillShown(old(c[..]), c[..], Product32(a, b, m, k, n), n)
    ensures SubsShown(c[..], Product32(a, b, m, k, n), n, bi, bj, nw, nc, nw * 2 * nc)
  {
    hide TileHolds, TileShown, OnlyTile, Product32, StillShown, SubRow, SubCol;
    ghost var p := Product32(a, b, m, k, n);
    StillItself(c[..], p, n);
    for s := 0 to nw * 2 * nc
      invariant StillShown(old(c[..]), c[..], p, n) && SubsShown(c[..], p, n, bi, bj, nw, nc, s)
    {
      SubInBlock(nw, nc, s);
      assert SubHolds(accs, a, b, bi, bj, nw, nc, s, k);
      ghost var before := c[..];
      var ti, tj := bi * nw + SubRow(nc, s), bj * (2 * nc) + SubCol(nc, s);
      StoreTile(accs[s], c, a, b, m, k, n, ti, tj);
      StoredTileKeeps(old(c[..]), before, c[..], p, m, n, ti, tj);
      OneSubMore(before, c[..], p, n, bi, bj, nw, nc, s);
    }
  }

  lemma StillItself(c: seq<int>, p: Mat, n: nat)
    ensures StillShown(c, c, p, n)
  {}

  lemma OneSubMore(before: seq<int>, c: seq<int>, p: Mat, n: nat, bi: nat, bj: nat, nw: nat, nc: nat, s: nat)
    requires nc > 0 && SubsShown(before, p, n, bi, bj, nw, nc, s) && StillShown(before, c, p, n)
    requires TileShown(c, p, n, bi * nw + SubRow(nc, s), bj * (2 * nc) + SubCol(nc, s))
    ensures SubsShown(c, p, n, bi, bj, nw, nc, s + 1)
  {
    hide TileShown, SubRow, SubCol;
  }

  lemma BlockMore(before: seq<int>, c: seq<int>, p: Mat, m: nat, n: nat, nw: nat, nc: nat, pending: set<(nat, nat)>, t: (nat, nat))
    requires BlockShape(nw, nc) && ShownBut(before, p, m, n, nw, 2 * nc, pending) && StillShown(before, c, p, n)
    requires SubsShown(c, p, n, t.0, t.1, nw, nc, nw * 2 * nc)
    ensures ShownBut(c, p, m, n, nw, 2 * nc, pending - {t})
  {
    hide TileShown, SubRow, SubCol;
    forall ti: nat, tj: nat | ti * 16 < m && tj * 8 < n && (ti / nw, tj / (2 * nc)) !in pending - {t}
      ensures TileShown(c, p, n, ti, tj)
    {
      if (ti / nw, tj / (2 * nc)) == t {
        var s := SubNumber(nw, nc, ti % nw, tj % (2 * nc));
        assert TileShown(c, p, n, t.0 * nw + SubRow(nc, s), t.1 * (2 * nc) + SubCol(nc, s));
      } else {
        assert TileShown(before, p, n, ti, tj);
      }
    }
  }

  lemma BlockInC(m: nat, size: nat, bi: nat)
    requires size > 0 && bi < m / size
    ensures (bi + 1) * size <= m
  {
    TimesMonotone(bi + 1, m / size, size);
  }

  // ---------- the write-out of k_mma_gemm_cpasync ----------

  /** The accumulators of a finished block of the pipeline, tile by tile. */
  function TilesOf(s: State): (accs: seq<Tile16x8>)
    requires |s.acc| == 256
    ensures |accs| == 128
  {
    seq(128, t requires 0 <= t < 128 => TileOf(s, t))
  }

  function TileOf(s: State, t: nat): Tile16x8
    requires |s.acc| == 256 && t < 128
  {
    seq(32, l requires 0 <= l < 32 => seq(4, e requires 0 <= e < 4 => Byte(s.acc[t / 16 * 32 + l], t % 16 * 4 + e)))
  }

  /** Accumulator (mrow, ncol, e) of a thread is cell (l, e) of its warp's tile (mrow, ncol). */
  lemma CellOfTile(b: BlockId, t: nat, l: nat, e: nat)
    requires t < 128 && l < 32 && e < 4
    ensures var tid, y := t / 16 * 32 + l, t % 16 * 4 + e;
            && tid < 256 && y < 64
            && b.bi * 128 + CellRow(tid, y) == (b.bi * 8 + SubRow(8, t)) * 16 + CRow(l, e)
            && b.bj * 128 + CellCol(tid, y) == (b.bj * 16 + SubCol(8, t)) * 8 + CCol(l, e)
  {
    hide CRow, CCol;
    var w, y := t / 16, t % 16 * 4 + e;
    var tid := w * 32 + l;
    assert tid / 32 == w && tid % 32 == l;
    assert y / 4 == t % 16 && y % 4 == e && y / 32 == t % 16 / 8;
    assert t / 8 / 2 == w && t / 8 % 2 == t % 16 / 8 && t % 8 == t % 16 % 8;
  }

  lemma FinishedTiles(u: Launch, b: BlockId, s: State)
    requires PipelineSafety.Inv(u, b, s) && Finished(u, s)
    ensures |s.acc| == 256 && b.att < |u.an| && b.att < |u.bn|
    ensures BlockHolds(TilesOf(s), u.an[b.att], u.bn[b.att], b.bi, b.bj, 8, 8, u.k)
  {
    hide Dot, Wrap32, CRow, CCol, SubRow, SubCol, CellRow, CellCol, PipelineSafety.Inv, Finished;
    PipelineSafety.InvSizes(u, b, s);
    forall t: nat | t < 128
      ensures SubHolds(TilesOf(s), u.an[b.att], u.bn[b.att], b.bi, b.bj, 8, 8, t, u.k)
    {
      forall l, e | 0 <= l < 32 && 0 <= e < 4
        ensures TilesOf(s)[t][l][e]
             == Wrap32(Dot(u.an[b.att], u.bn[b.att], (b.bi * 8 + SubRow(8, t)) * 16 + CRow(l, e),
                           (b.bj * 16 + SubCol(8, t)) * 8 + CCol(l, e), 0, u.k))
      {
        CellOfTile(b, t, l, e);
        FinishedAccumulator(u, b, s, t / 16 * 32 + l, t % 16 * 4 + e);
      }
    }
  }

  /** After any complete run of the double-buffered kernel its blocks write the whole product. */
  method CpAsyncStore(u: Launch, ghost tr0: seq<Block>, g: Grid, ghost g0: Grid, ghost sched: Schedule, c: array<int>)
    requires u.kernel == Gemm && InitialGrid(u, tr0, g0) && Executable(u, g0, sched) && g == Run(u, g0, sched) && AllFinished(u, g)
    requires c.Length == u.m * u.n
    modifies c
    ensures |u.an| == 1 && |u.bn| == 1
    ensures View(c[..], 0, u.m, u.n) == Product32(u.an[0], u.bn[0], u.m, u.k, u.n)
  {
    hide View, BlockHolds, TileShown, Product32, ShownBut, StillShown, SubsShown, TilesOf, Executable, Run, PipelineSafety.Inv, Finished;
    InitialGridInv(u, tr0, g0);
    RunKeeps(u, tr0, g0, sched);
    ghost var p := Product32(u.an[0], u.bn[0], u.m, u.k, u.n);
    var pending := Blocks(u.m / 128, u.n / 128);
    NothingShown(c[..], p, u.m, u.n, 8, 16);
    while pending != {}
      invariant pending <= Blocks(u.m / 128, u.n / 128) && ShownBut(c[..], p, u.m, u.n, 8, 16, pending)
      decreases |pending|
    {
      var t :| t in pending;
      BlockInC(u.m, 128, t.0);
      BlockInC(u.n, 128, t.1);
      var b := BlockId(0, t.0, t.1);
      FinishedTiles(u, b, g.blocks[b]);
      ghost var before := c[..];
      StoreBlock(TilesOf(g.blocks[b]), c, u.an[0], u.bn[0], u.m, u.k, u.n, t.0, t.1, 8, 8);
      BlockMore(before, c[..], p, u.m, u.n, 8, 8, pending, t);
      pending := pending - {t};
    }
    AllShown(c[..], p, u.m, u.n, 8, 16);
  }
}
