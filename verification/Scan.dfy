/** The GPU proof-of-work scan: flat tile indices, atomicMin over threads in any order, and emission. */
module Scan {
  import opened Bits
  import opened Search

  /** The integer arguments of the scan kernels. */
  datatype Shape = Shape(m: nat, n: nat, r: nat, th: nat, tw: nat) {

    /** What the host entry points guarantee. */
    predicate Even() {
      r > 0 && th > 0 && tw > 0 && m % r == 0 && n % r == 0 && r % th == 0 && r % tw == 0
    }

    function TI(): nat requires r > 0 { Div(m, r) }

    function TJ(): nat requires r > 0 { Div(n, r) }

    function SH(): nat requires th > 0 { Div(r, th) }

    function SW(): nat requires tw > 0 { Div(r, tw) }

    function STCols(): nat requires tw > 0 { Div(n, tw) }

    function Total(): nat requires r > 0 && th > 0 && tw > 0 { Times(Times(Times(TI(), TJ()), SH()), SW()) }
  }

  /** The thread numbers of a launch. */
  function Threads(n: nat): (ts: set<nat>)
    ensures forall t :: t in ts <==> 0 <= t < n
  {
    if n == 0 then {} else Threads(n - 1) + {n - 1}
  }

  function Times(x: nat, y: nat): nat { x * y }

  function Div(x: nat, d: nat): nat requires d > 0 { x / d }

  lemma SliceInBuffer(att: nat, natt: nat, per: nat)
    requires att < natt
    ensures Times(att, per) + per <= natt * per
  {
    TimesMonotone(att + 1, natt, per);
  }

  /** A block number and a place inside the block are determined by their position. */
  lemma PlaceUnique(b: nat, y: nat, b': nat, y': nat, size: nat)
    requires y < size && y' < size && Times(b, size) + y == Times(b', size) + y'
    ensures b == b' && y == y'
  {
    NestUnique(b, y, b', y', size);
  }

  /** pow_scan_index_to_tile: the four digits of a flat index. */
  function IndexToTile(idx: nat, TJ: nat, SH: nat, SW: nat): Tile
    requires TJ > 0 && SH > 0 && SW > 0
  {
    var wi := idx % SW;
    var i1 := Div(idx, SW);
    var hi := i1 % SH;
    var i2 := Div(i1, SH);
    Tile(Div(i2, TJ), i2 % TJ, hi, wi)
  }

  function TileToIndex(t: Tile, TJ: nat, SH: nat, SW: nat): nat {
    ((t.bi * TJ + t.bj) * SH + t.hi) * SW + t.wi
  }

  predicate Digits(t: Tile, TI: nat, TJ: nat, SH: nat, SW: nat) {
    t.bi < TI && t.bj < TJ && t.hi < SH && t.wi < SW
  }

  /** The decode is a bijection between flat indices below the total and tiles. */
  lemma DecodeEncode(t: Tile, TI: nat, TJ: nat, SH: nat, SW: nat)
    requires Digits(t, TI, TJ, SH, SW)
    ensures TileToIndex(t, TJ, SH, SW) < TI * TJ * SH * SW
    ensures IndexToTile(TileToIndex(t, TJ, SH, SW), TJ, SH, SW) == t
  {
    var a := t.bi * TJ + t.bj;
    var b := a * SH + t.hi;
    NestBelow(t.bi, TI, TJ, t.bj);
    NestBelow(a, TI * TJ, SH, t.hi);
    NestBelow(b, TI * TJ * SH, SW, t.wi);
    Nest(t.bi, TJ, t.bj);
    Nest(a, SH, t.hi);
    Nest(b, SW, t.wi);
  }

  lemma EncodeDecode(idx: nat, TI: nat, TJ: nat, SH: nat, SW: nat)
    requires TJ > 0 && SH > 0 && SW > 0 && idx < TI * TJ * SH * SW
    ensures Digits(IndexToTile(idx, TJ, SH, SW), TI, TJ, SH, SW)
    ensures TileToIndex(IndexToTile(idx, TJ, SH, SW), TJ, SH, SW) == idx
  {
    var i1 := idx / SW;
    var i2 := i1 / SH;
    QuotientBelow(idx, TI * TJ * SH, SW);
    QuotientBelow(i1, TI * TJ, SH);
    QuotientBelow(i2, TI, TJ);
  }

  /** Flat order is the reference's scan order. */
  lemma DecodeKeepsOrder(t: Tile, u: Tile, TI: nat, TJ: nat, SH: nat, SW: nat)
    requires Digits(t, TI, TJ, SH, SW) && Digits(u, TI, TJ, SH, SW)
    ensures TileToIndex(t, TJ, SH, SW) < TileToIndex(u, TJ, SH, SW) <==> Before(t, u)
  {
    NestOrder(t.bi, t.bj, u.bi, u.bj, TJ);
    NestOrder(t.bi * TJ + t.bj, t.hi, u.bi * TJ + u.bj, u.hi, SH);
    NestOrder((t.bi * TJ + t.bj) * SH + t.hi, t.wi, (u.bi * TJ + u.bj) * SH + u.hi, u.wi, SW);
  }

  lemma NestOrder(x: nat, dx: nat, y: nat, dy: nat, d: nat)
    requires dx < d && dy < d
    ensures x * d + dx < y * d + dy <==> x < y || (x == y && dx < dy)
    ensures x * d + dx == y * d + dy <==> x == y && dx == dy
  {
    if x < y {
      TimesMonotone(x + 1, y, d);
    } else if y < x {
      TimesMonotone(y + 1, x, d);
    }
  }

  /** With dimensions divisible all the way down, the tiles of the reference are exactly the digits. */
  lemma TilesAreDigits(z: Job, s: Shape, t: Tile)
    requires s.Even() && s == Shape(z.m, z.n, z.r, z.th, z.tw)
    ensures IsTile(z, t) <==> Digits(t, s.TI(), s.TJ(), s.SH(), s.SW())
  {
    EvenBlocks(z.m, z.r, t.bi);
    EvenBlocks(z.n, z.r, t.bj);
    EvenTiles(z.r, z.th, t.hi);
    EvenTiles(z.r, z.tw, t.wi);
  }

  lemma EvenBlocks(m: nat, r: nat, b: nat)
    requires r > 0 && m % r == 0
    ensures b * r < m <==> b < m / r
    ensures b * r < m ==> Extent(b * r, r, m) == r
  {
    var q := m / r;
    assert m == q * r;
    if b < q {
      TimesMonotone(b + 1, q, r);
    } else {
      TimesMonotone(q, b, r);
    }
  }

  lemma EvenTiles(r: nat, th: nat, h: nat)
    requires th > 0 && r % th == 0
    ensures (h + 1) * th <= r <==> h < r / th
  {
    var q := r / th;
    assert r == q * th;
    if h < q {
      TimesMonotone(h + 1, q, th);
    } else {
      TimesMonotone(q + 1, h + 1, th);
    }
  }
}
