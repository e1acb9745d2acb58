/** The integer-core path: one block per r x r output tile accumulating in global memory, then a
    single-threaded scan. Blocks, and the elements of a phase, run in any order. */
module Naive {
  import opened Bits
  import opened Words
  import opened Ring
  import opened Transcript
  import opened Search
  import opened Denoise
  import opened Scan
  import opened ScanKernels
  import opened Mining
  import opened Schedules

  /** The launch: the search it serves, and its noised operands as the flat buffers the kernel reads. */
  datatype Setup = Setup(z: Job, an: seq<int>, bn: seq<int>) {
    function S(): Shape { Shape(z.m, z.n, z.r, z.th, z.tw) }

    /** The divisibility prl_naive_run checks, on non-empty operands. */
    predicate Ok() {
      && Live(S()) && z.k > 0 && z.k % z.r == 0 && |an| == z.m * z.k && |bn| == z.k * z.n
      && z.a == View(an, 0, z.m, z.k) && z.b == View(bn, 0, z.k, z.n)
    }

    function Chunks(): nat requires z.r > 0 { Div(z.k, z.r) }
  }

  datatype BlockXY = BlockXY(ti: nat, tj: nat)

  predicate InGrid(g: Setup, b: BlockXY)
    requires g.z.r > 0
  {
    b.ti < g.S().TI() && b.tj < g.S().TJ()
  }

  // Between barriers a block zeroes its part of Cscr, adds a chunk to it, or hashes its tiles.
  datatype Phase = Zeroing | Adding | Hashing | Over

  /** Where a block is: the phase, the chunk (pc), and the elements or tiles the phase has yet to treat. */
  datatype Where = Where(phase: Phase, chunk: nat, pending: set<nat>)

  // ---------- addresses ----------

  function Row(g: Setup, b: BlockXY, y: nat): nat { Times(b.ti, g.z.r) + y }

  function Col(g: Setup, b: BlockXY, x: nat): nat { Times(b.tj, g.z.r) + x }

  function CellAt(g: Setup, b: BlockXY, y: nat, x: nat): int { Position(g.z.n, Row(g, b, y), Col(g, b, x)) }

  function TileRowOf(g: Setup, b: BlockXY, hi: nat): nat requires g.z.th > 0 { Times(b.ti, g.S().SH()) + hi }

  function TileColOf(g: Setup, b: BlockXY, wi: nat): nat requires g.z.tw > 0 { Times(b.tj, g.S().SW()) + wi }

  function TileSlot(g: Setup, b: BlockXY, hi: nat, wi: nat): int
    requires g.z.th > 0 && g.z.tw > 0
  {
    Position(g.S().STCols(), TileRowOf(g, b, hi), TileColOf(g, b, wi))
  }

  /** Numbers split into a block and a place inside it stay in range and determine both. */
  lemma Split(b: nat, blocks: nat, size: nat, y: nat, total: nat)
    requires b < blocks && y < size && total == blocks * size
    ensures Times(b, size) + y < total
  {
    NestBelow(b, blocks, size, y);
  }

  lemma CellInRange(g: Setup, b: BlockXY, y: nat, x: nat)
    requires g.Ok() && InGrid(g, b) && y < g.z.r && x < g.z.r
    ensures Row(g, b, y) < g.z.m && Col(g, b, x) < g.z.n && 0 <= CellAt(g, b, y, x) < g.z.m * g.z.n
  {
    hide Times, Div;
    PlaceInRange(b.ti, y, g.z.m, g.z.r);
    PlaceInRange(b.tj, x, g.z.n, g.z.r);
    NestBelow(Row(g, b, y), g.z.m, g.z.n, Col(g, b, x));
  }

  lemma PlaceInRange(b: nat, y: nat, m: nat, r: nat)
    requires r > 0 && m % r == 0 && b < Div(m, r) && y < r
    ensures Times(b, r) + y < m
  {
    EvenProduct(m, r);
    Split(b, Div(m, r), r, y, m);
  }

  lemma EvenProduct(m: nat, r: nat)
    requires r > 0 && m % r == 0
    ensures m == Div(m, r) * r
  {}

  lemma CellUnique(g: Setup, b: BlockXY, y: nat, x: nat, b': BlockXY, y': nat, x': nat)
    requires g.Ok() && InGrid(g, b) && InGrid(g, b') && y < g.z.r && x < g.z.r && y' < g.z.r && x' < g.z.r
    requires CellAt(g, b, y, x) == CellAt(g, b', y', x')
    ensures b == b' && y == y' && x == x'
  {
    hide Times, Position;
    CellInRange(g, b, y, x);
    CellInRange(g, b', y', x');
    PositionsDistinct(g.z.n, Row(g, b, y), Col(g, b, x), Row(g, b', y'), Col(g, b', x'));
    PlaceUnique(b.ti, y, b'.ti, y', g.z.r);
    PlaceUnique(b.tj, x, b'.tj, x', g.z.r);
  }

  lemma TileInRange(g: Setup, b: BlockXY, hi: nat, wi: nat)
    requires g.Ok() && InGrid(g, b) && hi < g.S().SH() && wi < g.S().SW()
    ensures TileColOf(g, b, wi) < g.S().STCols() && 0 <= TileSlot(g, b, hi, wi) < g.S().Total()
    ensures TileRowOf(g, b, hi) < g.S().TI() * g.S().SH()
  {
    var s := g.S();
    LiveDigits(s);
    SlotInRange(b.ti, s.TI(), hi, s.SH(), b.tj, s.TJ(), wi, s.SW());
  }

  lemma SlotInRange(ti: nat, TI: nat, hi: nat, SH: nat, tj: nat, TJ: nat, wi: nat, SW: nat)
    requires ti < TI && hi < SH && tj < TJ && wi < SW
    ensures Times(ti, SH) + hi < TI * SH && Times(tj, SW) + wi < Times(TJ, SW)
    ensures 0 <= Position(Times(TJ, SW), Times(ti, SH) + hi, Times(tj, SW) + wi) < TI * TJ * SH * SW
  {
    Split(ti, TI, SH, hi, TI * SH);
    Split(tj, TJ, SW, wi, TJ * SW);
    NestBelow(Times(ti, SH) + hi, TI * SH, TJ * SW, Times(tj, SW) + wi);
    Reorder(TI, TJ, SH, SW);
  }

  /** No two tiles of the grid share a transcript. */
  lemma TileUnique(g: Setup, b: BlockXY, hi: nat, wi: nat, b': BlockXY, hi': nat, wi': nat)
    requires g.Ok() && InGrid(g, b) && InGrid(g, b') && hi < g.S().SH() && wi < g.S().SW() && hi' < g.S().SH() && wi' < g.S().SW()
    requires TileSlot(g, b, hi, wi) == TileSlot(g, b', hi', wi')
    ensures b == b' && hi == hi' && wi == wi'
  {
    hide Times, Position;
    TileInRange(g, b, hi, wi);
    TileInRange(g, b', hi', wi');
    PositionsDistinct(g.S().STCols(), TileRowOf(g, b, hi), TileColOf(g, b, wi), TileRowOf(g, b', hi'), TileColOf(g, b', wi'));
    PlaceUnique(b.ti, hi, b'.ti, hi', g.S().SH());
    PlaceUnique(b.tj, wi, b'.tj, wi', g.S().SW());
  }

  // ---------- the invariant of a block ----------

  /** Columns of the product already in element e. */
  function Summed(g: Setup, w: Where, e: int): nat {
    match w.phase
    case Zeroing => 0
    case Adding => Times(g.z.r, if e in w.pending then w.chunk else w.chunk + 1)
    case _ => Times(g.z.r, w.chunk + 1)
  }

  /** Chunks already folded into the transcript of tile st. */
  function Folded(g: Setup, w: Where, st: int): nat
    requires g.z.r > 0
  {
    match w.phase
    case Zeroing => 0
    case Adding => w.chunk
    case Hashing => if st in w.pending then w.chunk else w.chunk + 1
    case Over => g.Chunks()
  }

  ghost predicate CellOk(g: Setup, cs: seq<int>, b: BlockXY, w: Where, y: nat, x: nat) {
    var at, e := CellAt(g, b, y, x), Position(g.z.r, y, x);
    0 <= at < |cs| && (w.phase != Over && !(w.phase == Zeroing && e in w.pending) ==>
      cs[at] == Wrap32(Dot(g.z.a, g.z.b, Row(g, b, y), Col(g, b, x), 0, Summed(g, w, e))))
  }

  ghost predicate TileOk(g: Setup, tr: seq<Block>, b: BlockXY, w: Where, hi: nat, wi: nat)
    requires g.Ok()
  {
    var at := TileSlot(g, b, hi, wi);
    0 <= at < |tr| && tr[at] == TileWordsAt(g, b, hi, wi, Folded(g, w, Position(g.S().SW(), hi, wi)))
  }

  /** The reference's transcript of a tile after c chunks. */
  function TileWordsAt(g: Setup, b: BlockXY, hi: nat, wi: nat, c: nat): Block {
    TileTranscript(g.z.a, g.z.b, Row(g, b, hi * g.z.th), Col(g, b, wi * g.z.tw), g.z.th, g.z.tw, g.z.r, c)
  }

  predicate WhereOk(g: Setup, w: Where)
    requires g.z.r > 0
  {
    && ((w.phase == Adding || w.phase == Hashing) ==> w.chunk < g.Chunks())
    && w.pending <= Threads(Size(g, w.phase))
  }

  /** Elements, or tiles, a phase treats. */
  function Size(g: Setup, phase: Phase): nat {
    match phase
    case Hashing => if g.z.th > 0 && g.z.tw > 0 then Times(g.S().SH(), g.S().SW()) else 0
    case Over => 0
    case _ => Times(g.z.r, g.z.r)
  }

  ghost predicate BlockInv(g: Setup, cs: seq<int>, tr: seq<Block>, b: BlockXY, w: Where)
    requires g.Ok()
  {
    && WhereOk(g, w)
    && (forall y: nat, x: nat :: y < g.z.r && x < g.z.r ==> CellOk(g, cs, b, w, y, x))
    && (forall hi: nat, wi: nat :: hi < g.S().SH() && wi < g.S().SW() ==> TileOk(g, tr, b, w, hi, wi))
  }

  ghost predicate GridInv(g: Setup, cs: seq<int>, tr: seq<Block>, at: map<BlockXY, Where>)
    requires g.Ok()
  {
    |cs| == g.z.m * g.z.n && |tr| == g.S().Total() &&
    forall b :: InGrid(g, b) ==> b in at && BlockInv(g, cs, tr, b, at[b])
  }

  /** Treating element (y, x) of block b, which ends with value v, touches nothing else. */
  lemma CellWritten(g: Setup, cs: seq<int>, tr: seq<Block>, at: map<BlockXY, Where>, b: BlockXY, y: nat, x: nat, v: int)
    requires g.Ok() && GridInv(g, cs, tr, at) && InGrid(g, b) && y < g.z.r && x < g.z.r
    requires at[b].phase == Zeroing || at[b].phase == Adding
    requires v == Wrap32(Dot(g.z.a, g.z.b, Row(g, b, y), Col(g, b, x), 0,
                             Summed(g, at[b].(pending := at[b].pending - {Position(g.z.r, y, x)}), Position(g.z.r, y, x))))
    ensures 0 <= CellAt(g, b, y, x) < |cs|
    ensures GridInv(g, cs[CellAt(g, b, y, x) := v], tr, at[b := at[b].(pending := at[b].pending - {Position(g.z.r, y, x)})])
  {
    hide Dot, Wrap32, TileOk, CellAt, Summed;
    CellInRange(g, b, y, x);
    var e := Position(g.z.r, y, x);
    var w := at[b].(pending := at[b].pending - {e});
    var cs' := cs[CellAt(g, b, y, x) := v];
    forall b' | InGrid(g, b')
      ensures BlockInv(g, cs', tr, b', at[b := w][b'])
    {
      var w' := at[b := w][b'];
      forall y': nat, x': nat | y' < g.z.r && x' < g.z.r
        ensures CellOk(g, cs', b', w', y', x')
      {
        OtherCell(g, cs, b, at[b], y, x, v, b', at[b'], y', x');
      }
      if b' == b {
        SameTiles(g, tr, b, at[b], w);
      }
    }
  }

  lemma OtherCell(g: Setup, cs: seq<int>, b: BlockXY, w: Where, y: nat, x: nat, v: int, b': BlockXY, w': Where, y': nat, x': nat)
    requires g.Ok() && InGrid(g, b) && InGrid(g, b') && y < g.z.r && x < g.z.r && y' < g.z.r && x' < g.z.r && (b == b' ==> w == w')
    requires (w.phase == Zeroing || w.phase == Adding) && 0 <= CellAt(g, b, y, x) < |cs| && CellOk(g, cs, b', w', y', x')
    requires v == Wrap32(Dot(g.z.a, g.z.b, Row(g, b, y), Col(g, b, x), 0,
                             Summed(g, w.(pending := w.pending - {Position(g.z.r, y, x)}), Position(g.z.r, y, x))))
    ensures CellOk(g, cs[CellAt(g, b, y, x) := v], b',
                   if b == b' then w.(pending := w.pending - {Position(g.z.r, y, x)}) else w', y', x')
  {
    hide Dot, Wrap32, CellAt, Position;
    if b == b' && Position(g.z.r, y, x) == Position(g.z.r, y', x') {
      PositionsDistinct(g.z.r, y, x, y', x');
    } else if CellAt(g, b, y, x) == CellAt(g, b', y', x') {
      CellUnique(g, b, y, x, b', y', x');
    }
  }

  lemma SameTiles(g: Setup, tr: seq<Block>, b: BlockXY, w: Where, w': Where)
    requires g.Ok() && w'.phase == w.phase != Hashing && w'.chunk == w.chunk
    requires forall hi: nat, wi: nat :: hi < g.S().SH() && wi < g.S().SW() ==> TileOk(g, tr, b, w, hi, wi)
    ensures forall hi: nat, wi: nat :: hi < g.S().SH() && wi < g.S().SW() ==> TileOk(g, tr, b, w', hi, wi)
  {
    hide TileSlot, TileWordsAt, Position;
    forall hi: nat, wi: nat | hi < g.S().SH() && wi < g.S().SW()
      ensures TileOk(g, tr, b, w', hi, wi)
    {
      assert TileOk(g, tr, b, w, hi, wi);
    }
  }

  /** Folding tile (hi, wi) of block b touches nothing else. */
  lemma TileWritten(g: Setup, cs: seq<int>, tr: seq<Block>, at: map<BlockXY, Where>, b: BlockXY, hi: nat, wi: nat, v: Block)
    requires g.Ok() && GridInv(g, cs, tr, at) && InGrid(g, b) && hi < g.S().SH() && wi < g.S().SW() && at[b].phase == Hashing
    requires v == TileWordsAt(g, b, hi, wi, at[b].chunk + 1)
    ensures 0 <= TileSlot(g, b, hi, wi) < |tr|
    ensures GridInv(g, cs, tr[TileSlot(g, b, hi, wi) := v], at[b := at[b].(pending := at[b].pending - {Position(g.S().SW(), hi, wi)})])
  {
    hide Dot, Wrap32, CellOk, TileSlot, TileWordsAt;
    TileInRange(g, b, hi, wi);
    var e := Position(g.S().SW(), hi, wi);
    var w := at[b].(pending := at[b].pending - {e});
    var tr' := tr[TileSlot(g, b, hi, wi) := v];
    forall b' | InGrid(g, b')
      ensures BlockInv(g, cs, tr', b', at[b := w][b'])
    {
      var w' := at[b := w][b'];
      forall hi': nat, wi': nat | hi' < g.S().SH() && wi' < g.S().SW()
        ensures TileOk(g, tr', b', w', hi', wi')
      {
        OtherTile(g, tr, b, at[b], hi, wi, v, b', at[b'], hi', wi');
      }
      if b' == b {
        SameCells(g, cs, b, at[b], w);
      }
    }
  }

  lemma OtherTile(g: Setup, tr: seq<Block>, b: BlockXY, w: Where, hi: nat, wi: nat, v: Block, b': BlockXY, w': Where, hi': nat, wi': nat)
    requires g.Ok() && InGrid(g, b) && InGrid(g, b') && hi < g.S().SH() && wi < g.S().SW() && hi' < g.S().SH() && wi' < g.S().SW()
    requires (b == b' ==> w == w') && w.phase == Hashing && 0 <= TileSlot(g, b, hi, wi) < |tr| && TileOk(g, tr, b', w', hi', wi')
    requires v == TileWordsAt(g, b, hi, wi, w.chunk + 1)
    ensures TileOk(g, tr[TileSlot(g, b, hi, wi) := v], b',
                   if b == b' then w.(pending := w.pending - {Position(g.S().SW(), hi, wi)}) else w', hi', wi')
  {
    hide TileSlot, TileWordsAt, Position;
    if b == b' && Position(g.S().SW(), hi, wi) == Position(g.S().SW(), hi', wi') {
      PositionsDistinct(g.S().SW(), hi, wi, hi', wi');
    } else if TileSlot(g, b, hi, wi) == TileSlot(g, b', hi', wi') {
      TileUnique(g, b, hi, wi, b', hi', wi');
    }
  }

  lemma SameCells(g: Setup, cs: seq<int>, b: BlockXY, w: Where, w': Where)
    requires g.Ok() && w'.phase == w.phase == Hashing && w'.chunk == w.chunk
    requires forall y: nat, x: nat :: y < g.z.r && x < g.z.r ==> CellOk(g, cs, b, w, y, x)
    ensures forall y: nat, x: nat :: y < g.z.r && x < g.z.r ==> CellOk(g, cs, b, w', y, x)
  {
    hide Dot, Wrap32, CellAt, Position;
    forall y: nat, x: nat | y < g.z.r && x < g.z.r
      ensures CellOk(g, cs, b, w', y, x)
    {
      assert CellOk(g, cs, b, w, y, x);
    }
  }

  // ---------- barriers ----------

  /** Where __syncthreads takes a block whose phase has nothing left to do. */
  function AfterBarrier(g: Setup, w: Where): Where
    requires g.z.r > 0 && g.z.th > 0 && g.z.tw > 0
  {
    match w.phase
    case Zeroing => if g.Chunks() > 0 then Where(Adding, 0, Threads(Times(g.z.r, g.z.r))) else Where(Over, 0, {})
    case Adding => Where(Hashing, w.chunk, Threads(Times(g.S().SH(), g.S().SW())))
    case Hashing => if w.chunk + 1 < g.Chunks() then Where(Adding, w.chunk + 1, Threads(Times(g.z.r, g.z.r))) else Where(Over, 0, {})
    case Over => w
  }

  lemma BarrierKeeps(g: Setup, cs: seq<int>, tr: seq<Block>, at: map<BlockXY, Where>, b: BlockXY)
    requires g.Ok() && GridInv(g, cs, tr, at) && InGrid(g, b) && at[b].pending == {}
    ensures GridInv(g, cs, tr, at[b := AfterBarrier(g, at[b])])
  {
    hide CellOk, TileOk;
    var w, w' := at[b], AfterBarrier(g, at[b]);
    forall y: nat, x: nat | y < g.z.r && x < g.z.r
      ensures CellOk(g, cs, b, w', y, x)
    {
      BarrierCell(g, cs, b, w, y, x);
    }
    forall hi: nat, wi: nat | hi < g.S().SH() && wi < g.S().SW()
      ensures TileOk(g, tr, b, w', hi, wi)
    {
      BarrierTile(g, tr, b, w, hi, wi);
    }
  }

  lemma BarrierCell(g: Setup, cs: seq<int>, b: BlockXY, w: Where, y: nat, x: nat)
    requires g.Ok() && w.pending == {} && y < g.z.r && x < g.z.r && CellOk(g, cs, b, w, y, x)
    ensures CellOk(g, cs, b, AfterBarrier(g, w), y, x)
  {
    hide Dot, Wrap32, CellAt, Times, Position, Row, Col;
    ElementNumber(g.z.r, y, x);
    TimesZero(g.z.r);
  }

  lemma BarrierTile(g: Setup, tr: seq<Block>, b: BlockXY, w: Where, hi: nat, wi: nat)
    requires g.Ok() && WhereOk(g, w) && w.pending == {} && hi < g.S().SH() && wi < g.S().SW() && TileOk(g, tr, b, w, hi, wi)
    ensures TileOk(g, tr, b, AfterBarrier(g, w), hi, wi)
  {
    hide TileSlot, TileWordsAt;
    NestBelow(hi, g.S().SH(), g.S().SW(), wi);
  }

  lemma TimesZero(r: nat)
    ensures Times(r, 0) == 0
  {}

  // ---------- one element, one tile ----------

  /** acc: the chunk's part of one element, in wrapping int32. */
  method ChunkSum(g: Setup, b: BlockXY, y: nat, x: nat, p: nat) returns (acc: int)
    requires g.Ok() && InGrid(g, b) && y < g.z.r && x < g.z.r && p + g.z.r <= g.z.k
    ensures acc == Wrap32(Dot(g.z.a, g.z.b, Row(g, b, y), Col(g, b, x), p, p + g.z.r))
  {
    hide Dot, Wrap32, Position, View, Times;
    CellInRange(g, b, y, x);
    NoTerms(g.z.a, g.z.b, Row(g, b, y), Col(g, b, x), p);
    acc := 0;
    for c := 0 to g.z.r
      invariant acc == Wrap32(Dot(g.z.a, g.z.b, Row(g, b, y), Col(g, b, x), p, p + c))
    {
      NextTerm(g, Row(g, b, y), Col(g, b, x), p, p + c);
      acc := Wrap32(acc + g.an[Position(g.z.k, Row(g, b, y), p + c)] * g.bn[Position(g.z.n, p + c, Col(g, b, x))]);
    }
  }

  lemma NoTerms(a: Mat, b: Mat, i: nat, j: nat, p: nat)
    ensures Wrap32(Dot(a, b, i, j, p, p)) == 0
  {}

  lemma NextTerm(g: Setup, i: nat, j: nat, p: nat, q: nat)
    requires g.Ok() && i < g.z.m && j < g.z.n && p <= q < g.z.k
    ensures 0 <= Position(g.z.k, i, q) < |g.an| && 0 <= Position(g.z.n, q, j) < |g.bn|
    ensures Wrap32(Wrap32(Dot(g.z.a, g.z.b, i, j, p, q)) + g.an[Position(g.z.k, i, q)] * g.bn[Position(g.z.n, q, j)])
         == Wrap32(Dot(g.z.a, g.z.b, i, j, p, q + 1))
  {
    hide View, Position;
    assert g.z.a[i][q] == g.an[0 + Position(g.z.k, i, q)] && g.z.b[q][j] == g.bn[0 + Position(g.z.n, q, j)];
    WrapAdd(Dot(g.z.a, g.z.b, i, j, p, q), g.z.a[i][q] * g.z.b[q][j]);
  }

  /** Adding a chunk to a cell that holds the columns before it. */
  lemma ChunkAdded(a: Mat, b: Mat, i: nat, j: nat, p: nat, q: nat)
    requires p <= q
    ensures Wrap32(Wrap32(Dot(a, b, i, j, 0, p)) + Wrap32(Dot(a, b, i, j, p, q))) == Wrap32(Dot(a, b, i, j, 0, q))
  {
    hide Dot, Wrap32;
    DotSplit(a, b, i, j, 0, p, q);
    WrapAdd(Dot(a, b, i, j, 0, p), Wrap32(Dot(a, b, i, j, p, q)));
    WrapAdd(Dot(a, b, i, j, p, q), Dot(a, b, i, j, 0, p));
  }

  lemma ChunkBounds(g: Setup, c: nat)
    requires g.Ok() && c < g.Chunks()
    ensures Times(g.z.r, c) + g.z.r == Times(g.z.r, c + 1) <= g.z.k
  {
    EvenProduct(g.z.k, g.z.r);
    TimesMonotone(c + 1, g.Chunks(), g.z.r);
    TimesCommutes(g.z.r, c);
    TimesCommutes(g.z.r, c + 1);
  }

  lemma TimesCommutes(x: nat, y: nat)
    ensures Times(x, y) == y * x
  {}

  /** Row a of a tile, XORed onto what the rows above it gave. */
  method RowXor(g: Setup, cs: array<int>, b: BlockXY, y0: nat, x0: nat, a: nat, start: Word,
                ghost w: Where, ghost line: int -> Word) returns (h: Word)
    requires g.Ok() && InGrid(g, b) && y0 + g.z.th <= g.z.r && x0 + g.z.tw <= g.z.r && w.phase == Hashing && a < g.z.th
    requires forall y: nat, x: nat :: y < g.z.r && x < g.z.r ==> CellOk(g, cs[..], b, w, y, x)
    requires forall x :: line(x) == CellWord(g.z.a, g.z.b, Row(g, b, y0) + a, Col(g, b, x0) + x, Times(g.z.r, w.chunk + 1))
    ensures h == Xor(start, XorRange(line, g.z.tw))
  {
    hide CellWord, CellOk, CellAt, XorRange, Xor, Row, Col, Times;
    h := start;
    EmptyRange(line, start);
    for c := 0 to g.z.tw
      invariant h == Xor(start, XorRange(line, c))
    {
      CellOfTile(g, cs[..], b, y0, x0, w, a, c);
      OneMoreWord(line, c, start);
      h := Xor(h, AsWord(cs[CellAt(g, b, y0 + a, x0 + c)]));
    }
  }

  /** h: the XOR over one tile of the block, read from Cscr. */
  method TileXor(g: Setup, cs: array<int>, b: BlockXY, y0: nat, x0: nat, ghost w: Where) returns (h: Word)
    requires g.Ok() && InGrid(g, b) && y0 + g.z.th <= g.z.r && x0 + g.z.tw <= g.z.r && w.phase == Hashing
    requires forall y: nat, x: nat :: y < g.z.r && x < g.z.r ==> CellOk(g, cs[..], b, w, y, x)
    ensures h == TileHash(g.z.a, g.z.b, Row(g, b, y0), Col(g, b, x0), g.z.th, g.z.tw, Times(g.z.r, w.chunk + 1))
  {
    hide CellWord, CellOk, CellAt, XorGrid, XorRange, Xor, Row, Col, Times;
    ghost var i0, j0, upto := Row(g, b, y0), Col(g, b, x0), Times(g.z.r, w.chunk + 1);
    ghost var f: (int, int) -> Word := (y, x) => CellWord(g.z.a, g.z.b, i0 + y, j0 + x, upto);
    h := 0;
    EmptyGrid(f, g.z.tw);
    for a := 0 to g.z.th
      invariant h == XorGrid(f, a, g.z.tw)
    {
      ghost var line: int -> Word := x => f(a, x);
      OneMoreRow(f, line, a, g.z.tw);
      h := RowXor(g, cs, b, y0, x0, a, h, w, line);
    }
    TileHashIsGrid(g, i0, j0, upto, f);
  }

  lemma EmptyGrid(f: (int, int) -> Word, w: nat)
    ensures XorGrid(f, 0, w) == 0
  {}

  lemma EmptyRange(line: int -> Word, start: Word)
    ensures Xor(start, XorRange(line, 0)) == start
  {
    XorZero(start);
  }

  lemma OneMoreWord(line: int -> Word, c: nat, start: Word)
    ensures Xor(start, XorRange(line, c + 1)) == Xor(Xor(start, XorRange(line, c)), line(c))
  {
    XorAssoc(start, XorRange(line, c), line(c));
  }

  lemma OneMoreRow(f: (int, int) -> Word, line: int -> Word, a: nat, w: nat)
    requires forall x :: 0 <= x < w ==> line(x) == f(a, x)
    ensures XorGrid(f, a + 1, w) == Xor(XorGrid(f, a, w), XorRange(line, w))
  {
    hide Xor;
    XorRangeEq(line, j => f(a, j), w);
  }

  lemma TileHashIsGrid(g: Setup, i0: nat, j0: nat, upto: nat, f: (int, int) -> Word)
    requires forall y, x :: f(y, x) == CellWord(g.z.a, g.z.b, i0 + y, j0 + x, upto)
    ensures XorGrid(f, g.z.th, g.z.tw) == TileHash(g.z.a, g.z.b, i0, j0, g.z.th, g.z.tw, upto)
  {
    hide CellWord;
    XorGridEq(f, (y, x) => CellWord(g.z.a, g.z.b, i0 + y, j0 + x, upto), g.z.th, g.z.tw);
  }

  lemma CellOfTile(g: Setup, cs: seq<int>, b: BlockXY, y: nat, x: nat, w: Where, a: nat, c: nat)
    requires g.Ok() && InGrid(g, b) && w.phase == Hashing && y + a < g.z.r && x + c < g.z.r
    requires forall y: nat, x: nat :: y < g.z.r && x < g.z.r ==> CellOk(g, cs, b, w, y, x)
    ensures 0 <= CellAt(g, b, y + a, x + c) < |cs|
    ensures AsWord(cs[CellAt(g, b, y + a, x + c)]) == CellWord(g.z.a, g.z.b, Row(g, b, y) + a, Col(g, b, x) + c, Times(g.z.r, w.chunk + 1))
  {
    hide Dot, Wrap32, CellAt, CellOk, Times, AsWord, Position;
    CellValue(g, cs, b, w, y + a, x + c);
    CellShift(g, b, y, a, x, c);
  }

  lemma CellValue(g: Setup, cs: seq<int>, b: BlockXY, w: Where, y: nat, x: nat)
    requires CellOk(g, cs, b, w, y, x) && w.phase == Hashing
    ensures 0 <= CellAt(g, b, y, x) < |cs|
    ensures cs[CellAt(g, b, y, x)] == Wrap32(Dot(g.z.a, g.z.b, Row(g, b, y), Col(g, b, x), 0, Times(g.z.r, w.chunk + 1)))
  {
    hide Dot, Wrap32, CellAt, Times, Position;
  }

  lemma CellShift(g: Setup, b: BlockXY, y: nat, a: nat, x: nat, c: nat)
    ensures Row(g, b, y + a) == Row(g, b, y) + a && Col(g, b, x + c) == Col(g, b, x) + c
  {
    hide Times;
  }

  lemma InsideTile(r: nat, size: nat, i: nat)
    requires r > 0 && size > 0 && r % size == 0 && i < Div(r, size)
    ensures i * size + size <= r
  {
    EvenProduct(r, size);
    NestBelow(i, Div(r, size), size, size - 1);
  }

  // ---------- the grid ----------

  class NaiveGrid {
    const g: Setup
    const cs: array<int>      // Cscr
    const tr: array<Block>    // transcripts
    var at: map<BlockXY, Where>

    ghost predicate Valid()
      requires g.Ok()
      reads this, cs, tr
    {
      GridInv(g, cs[..], tr[..], at)
    }

    /** The launch: Cscr arbitrary, transcripts zeroed, every block about to zero its part. */
    constructor (g: Setup, cs: array<int>, tr: array<Block>)
      requires g.Ok() && cs.Length == g.z.m * g.z.n && tr.Length == g.S().Total()
      requires forall x :: 0 <= x < tr.Length ==> tr[x] == Zeros()
      ensures this.g == g && this.cs == cs && this.tr == tr && Valid()
    {
      this.g, this.cs, this.tr := g, cs, tr;
      at := map b | b in Blocks(g) :: Where(Zeroing, 0, Threads(Times(g.z.r, g.z.r)));
      new;
      AtLaunch(g, cs[..], tr[..], at);
    }

    /** Element e of the phase of block b: Cscr[..] = 0, or Cscr[..] += acc. */
    method Element(b: BlockXY, y: nat, x: nat)
      requires g.Ok() && Valid() && InGrid(g, b) && y < g.z.r && x < g.z.r
      requires Position(g.z.r, y, x) in at[b].pending && (at[b].phase == Zeroing || at[b].phase == Adding)
      modifies this, cs
      ensures Valid() && at == Treated(old(at), b, Position(g.z.r, y, x))
    {
      hide Dot, Wrap32, CellAt, GridInv, Times;
      CellNow(g, cs[..], tr[..], at, b, y, x);
      var w, before := at[b], cs[..];
      if w.phase == Zeroing {
        NoTerms(g.z.a, g.z.b, Row(g, b, y), Col(g, b, x), 0);
        cs[CellAt(g, b, y, x)] := 0;
        CellWritten(g, before, tr[..], at, b, y, x, 0);
        assert cs[..] == before[CellAt(g, b, y, x) := 0];
      } else {
        ChunkBounds(g, w.chunk);
        var acc := ChunkSum(g, b, y, x, Times(g.z.r, w.chunk));
        ChunkAdded(g.z.a, g.z.b, Row(g, b, y), Col(g, b, x), Times(g.z.r, w.chunk), Times(g.z.r, w.chunk + 1));
        var v := Wrap32(before[CellAt(g, b, y, x)] + acc);
        cs[CellAt(g, b, y, x)] := v;
        CellWritten(g, before, tr[..], at, b, y, x, v);
        assert cs[..] == before[CellAt(g, b, y, x) := v];
      }
      at := at[b := w.(pending := w.pending - {Position(g.z.r, y, x)})];
    }

    /** Tile (hi, wi) of the hash phase of block b. */
    method Tile(b: BlockXY, hi: nat, wi: nat)
      requires g.Ok() && Valid() && InGrid(g, b) && hi < g.S().SH() && wi < g.S().SW()
      requires Position(g.S().SW(), hi, wi) in at[b].pending && at[b].phase == Hashing
      modifies this, tr
      ensures Valid() && at == Treated(old(at), b, Position(g.S().SW(), hi, wi))
    {
      hide CellOk, TileHash, GridInv, Times, TileTranscript, Fold;
      CellsNow(g, cs[..], tr[..], at, b);
      var w, before := at[b], tr[..];
      InsideTile(g.z.r, g.z.th, hi);
      InsideTile(g.z.r, g.z.tw, wi);
      var h := TileXor(g, cs, b, hi * g.z.th, wi * g.z.tw, w);
      FoldNow(g, cs[..], before, at, b, hi, wi, h);
      var v := Fold(before[TileSlot(g, b, hi, wi)], w.chunk, h);
      tr[TileSlot(g, b, hi, wi)] := v;
      TileWritten(g, cs[..], before, at, b, hi, wi, v);
      assert tr[..] == before[TileSlot(g, b, hi, wi) := v];
      at := at[b := w.(pending := w.pending - {Position(g.S().SW(), hi, wi)})];
    }

    /** __syncthreads of block b. */
    method Barrier(b: BlockXY)
      requires g.Ok() && Valid() && InGrid(g, b) && at[b].pending == {}
      modifies this
      ensures Valid() && at == old(at)[b := AfterBarrier(g, old(at)[b])]
    {
      hide GridInv;
      assert b in at by { BlockThere(g, cs[..], tr[..], at, b); }
      BarrierKeeps(g, cs[..], tr[..], at, b);
      at := at[b := AfterBarrier(g, at[b])];
    }

    /** Any interleaving: each entry of the schedule names a block and an element; entries that are not
        due are skipped. */
    method Play(schedule: seq<(BlockXY, nat, nat)>)
      requires g.Ok() && Valid()
      modifies this, cs, tr
      ensures Valid() && at == Scheduled(g, old(at), schedule)
    {
      hide GridInv, AfterBarrier, Due;
      assert schedule[..0] == [];
      for i := 0 to |schedule|
        invariant Valid() && at == Scheduled(g, old(at), schedule[..i])
      {
        assert schedule[..i + 1][..i] == schedule[..i];
        var b, y, x := schedule[i].0, schedule[i].1, schedule[i].2;
        if InGrid(g, b) {
          BlockThere(g, cs[..], tr[..], at, b);
          var w := at[b];
          if w.pending == {} {
            Barrier(b);
          } else if Due(g, w, y, x) {
            DueMeans(g, w, y, x);
            if w.phase == Hashing {
              Tile(b, y, x);
            } else {
              Element(b, y, x);
            }
          }
        }
      }
      assert schedule[..|schedule|] == schedule;
    }

    /** On to the end by arbitrary choices: some block that is not over passes its barrier, or treats one
        of the elements or tiles it has pending. */
    method RunOn()
      requires g.Ok() && Valid()
      modifies this, cs, tr
      ensures Valid() && Finished()
    {
      hide GridInv, AfterBarrier, MovesOn, Left, Running;
      ghost var bs := Listing(Blocks(g));
      while Running(g, at) != {}
        invariant Valid()
        decreases StepsLeft(Left(g, at), bs)
      {
        var b :| b in Running(g, at);
        RunningBlock(g, cs[..], tr[..], at, b);
        ghost var was := at;
        OneStep(b);
        StepCounts(g, cs[..], tr[..], was, at, b, bs);
      }
      AllOver(g, cs[..], tr[..], at);
    }

    /** A step of a block that is not over. */
    method OneStep(b: BlockXY)
      requires g.Ok() && Valid() && InGrid(g, b) && b in at && at[b].phase != Over
      modifies this, cs, tr
      ensures Valid() && b in old(at) && MovesOn(g, old(at), at, b)
    {
      hide GridInv, AfterBarrier;
      BlockThere(g, cs[..], tr[..], at, b);
      var w := at[b];
      if w.pending == {} {
        Barrier(b);
      } else {
        var e :| e in w.pending;
        PlaceOf(g, w, e);
        if w.phase == Hashing {
          Tile(b, Div(e, g.S().SW()), e % g.S().SW());
        } else {
          Element(b, Div(e, g.z.r), e % g.z.r);
        }
      }
    }

    predicate Finished()
      requires g.z.r > 0
      reads this
    {
      forall b | b in at.Keys :: InGrid(g, b) ==> at[b].phase == Over
    }
  }

  /** Element or tile e of block b has been treated. */
  function Treated(at: map<BlockXY, Where>, b: BlockXY, e: int): map<BlockXY, Where>
    requires b in at
  {
    at[b := at[b].(pending := at[b].pending - {e})]
  }

  /** Element or tile (y, x) is one the phase has yet to treat. */
  predicate Due(g: Setup, w: Where, y: nat, x: nat)
    requires g.Ok()
  {
    match w.phase
    case Hashing => y < g.S().SH() && x < g.S().SW() && Position(g.S().SW(), y, x) in w.pending
    case Over => false
    case _ => y < g.z.r && x < g.z.r && Position(g.z.r, y, x) in w.pending
  }

  lemma DueMeans(g: Setup, w: Where, y: nat, x: nat)
    requires g.Ok() && Due(g, w, y, x)
    ensures w.phase != Over
    ensures w.phase == Hashing ==> y < g.S().SH() && x < g.S().SW() && Position(g.S().SW(), y, x) in w.pending
    ensures w.phase != Hashing ==> y < g.z.r && x < g.z.r && Position(g.z.r, y, x) in w.pending
  {
    hide Position;
  }

  /** What one entry of a schedule does: a barrier if the block has nothing pending, else the element or
      tile it names if that is due. */
  function Entry(g: Setup, at: map<BlockXY, Where>, b: BlockXY, y: nat, x: nat): map<BlockXY, Where>
    requires g.Ok()
  {
    if !InGrid(g, b) || b !in at then at
    else if at[b].pending == {} then at[b := AfterBarrier(g, at[b])]
    else if Due(g, at[b], y, x) then
      Treated(at, b, if at[b].phase == Hashing then Position(g.S().SW(), y, x) else Position(g.z.r, y, x))
    else at
  }

  function Scheduled(g: Setup, at: map<BlockXY, Where>, schedule: seq<(BlockXY, nat, nat)>): map<BlockXY, Where>
    requires g.Ok()
  {
    if schedule == [] then at
    else
      var last := schedule[|schedule| - 1];
      Entry(g, Scheduled(g, at, schedule[..|schedule| - 1]), last.0, last.1, last.2)
  }

  function Blocks(g: Setup): set<BlockXY>
    requires g.z.r > 0
  {
    set ti, tj | ti in Threads(g.S().TI()) && tj in Threads(g.S().TJ()) :: BlockXY(ti, tj)
  }

  lemma AtLaunch(g: Setup, cs: seq<int>, tr: seq<Block>, at: map<BlockXY, Where>)
    requires g.Ok() && |cs| == g.z.m * g.z.n && |tr| == g.S().Total() && forall x :: 0 <= x < |tr| ==> tr[x] == Zeros()
    requires at == map b | b in Blocks(g) :: Where(Zeroing, 0, Threads(Times(g.z.r, g.z.r)))
    ensures GridInv(g, cs, tr, at)
  {
    hide Dot, Wrap32, CellAt, TileSlot, Position;
    var w := Where(Zeroing, 0, Threads(Times(g.z.r, g.z.r)));
    forall b | InGrid(g, b)
      ensures b in at && BlockInv(g, cs, tr, b, at[b])
    {
      assert b == BlockXY(b.ti, b.tj) && b in Blocks(g);
      forall y: nat, x: nat | y < g.z.r && x < g.z.r
        ensures CellOk(g, cs, b, w, y, x)
      {
        CellInRange(g, b, y, x);
        assert Position(g.z.r, y, x) in w.pending by { ElementNumber(g.z.r, y, x); }
      }
      forall hi: nat, wi: nat | hi < g.S().SH() && wi < g.S().SW()
        ensures TileOk(g, tr, b, w, hi, wi)
      {
        TileInRange(g, b, hi, wi);
      }
    }
  }

  lemma ElementNumber(r: nat, y: nat, x: nat)
    requires y < r && x < r
    ensures 0 <= Position(r, y, x) < Times(r, r)
  {
    NestBelow(y, r, r, x);
  }

  lemma BlockThere(g: Setup, cs: seq<int>, tr: seq<Block>, at: map<BlockXY, Where>, b: BlockXY)
    requires g.Ok() && GridInv(g, cs, tr, at) && InGrid(g, b)
    ensures b in at && BlockInv(g, cs, tr, b, at[b])
  {}

  lemma CellNow(g: Setup, cs: seq<int>, tr: seq<Block>, at: map<BlockXY, Where>, b: BlockXY, y: nat, x: nat)
    requires g.Ok() && GridInv(g, cs, tr, at) && InGrid(g, b) && y < g.z.r && x < g.z.r
    ensures b in at && 0 <= CellAt(g, b, y, x) < |cs| && WhereOk(g, at[b])
    ensures at[b].phase == Adding && Position(g.z.r, y, x) in at[b].pending ==>
      cs[CellAt(g, b, y, x)] == Wrap32(Dot(g.z.a, g.z.b, Row(g, b, y), Col(g, b, x), 0, Times(g.z.r, at[b].chunk)))
  {
    hide Dot, Wrap32, CellAt, TileOk;
    BlockThere(g, cs, tr, at, b);
    assert CellOk(g, cs, b, at[b], y, x);
  }

  lemma CellsNow(g: Setup, cs: seq<int>, tr: seq<Block>, at: map<BlockXY, Where>, b: BlockXY)
    requires g.Ok() && GridInv(g, cs, tr, at) && InGrid(g, b)
    ensures b in at && forall y: nat, x: nat :: y < g.z.r && x < g.z.r ==> CellOk(g, cs, b, at[b], y, x)
  {
    hide CellOk, TileOk;
  }

  /** The fold the kernel performs is the next step of the reference's transcript. */
  lemma FoldNow(g: Setup, cs: seq<int>, tr: seq<Block>, at: map<BlockXY, Where>, b: BlockXY, hi: nat, wi: nat, h: Word)
    requires g.Ok() && GridInv(g, cs, tr, at) && InGrid(g, b) && hi < g.S().SH() && wi < g.S().SW()
    requires b in at && at[b].phase == Hashing && Position(g.S().SW(), hi, wi) in at[b].pending
    requires h == TileHash(g.z.a, g.z.b, Row(g, b, hi * g.z.th), Col(g, b, wi * g.z.tw), g.z.th, g.z.tw, Times(g.z.r, at[b].chunk + 1))
    ensures 0 <= TileSlot(g, b, hi, wi) < |tr|
    ensures Fold(tr[TileSlot(g, b, hi, wi)], at[b].chunk, h) == TileWordsAt(g, b, hi, wi, at[b].chunk + 1)
  {
    hide CellOk, TileHash, Fold;
    BlockThere(g, cs, tr, at, b);
    assert TileOk(g, tr, b, at[b], hi, wi);
  }

  // ---------- every block gets to its end ----------

  /** Where element or tile e of a phase lies. */
  lemma PlaceOf(g: Setup, w: Where, e: nat)
    requires g.Ok() && WhereOk(g, w) && e in w.pending
    ensures w.phase != Over && g.z.r > 0 && g.S().SW() > 0
    ensures w.phase == Hashing ==>
      Div(e, g.S().SW()) < g.S().SH() && e % g.S().SW() < g.S().SW() && Position(g.S().SW(), Div(e, g.S().SW()), e % g.S().SW()) == e
    ensures w.phase != Hashing ==>
      Div(e, g.z.r) < g.z.r && e % g.z.r < g.z.r && Position(g.z.r, Div(e, g.z.r), e % g.z.r) == e
  {
    hide Div, Position;
    LiveDigits(g.S());
    assert e < Size(g, w.phase);
    if w.phase == Hashing {
      DigitsOf(e, g.S().SH(), g.S().SW());
    } else {
      DigitsOf(e, g.z.r, g.z.r);
    }
  }

  lemma DigitsOf(e: nat, h: nat, w: nat)
    requires w > 0 && e < Times(h, w)
    ensures Div(e, w) < h && e % w < w && Position(w, Div(e, w), e % w) == e
  {
    QuotientBelow(e, h, w);
    DivisionParts(e, w);
  }

  /** Barriers a block has yet to pass. */
  function BarriersLeft(g: Setup, w: Where): int
    requires g.z.r > 0
  {
    match w.phase
    case Zeroing => 2 * g.Chunks() + 1
    case Adding => 2 * (g.Chunks() - w.chunk)
    case Hashing => 2 * (g.Chunks() - w.chunk) - 1
    case Over => 0
  }

  /** An upper bound on the steps a block can still take. */
  function Remaining(g: Setup, w: Where): int
    requires g.z.r > 0
  {
    BarriersLeft(g, w) * (1 + Size(g, Adding) + Size(g, Hashing)) + |w.pending|
  }

  /** Every barrier and every treated element uses up some of the remaining steps. */
  lemma BarrierCounts(g: Setup, w: Where)
    requires g.Ok() && WhereOk(g, w) && w.phase != Over && w.pending == {}
    ensures 0 <= Remaining(g, AfterBarrier(g, w)) < Remaining(g, w)
  {
    hide Times, Div, Threads;
    var w' := AfterBarrier(g, w);
    ThreadCount(Times(g.z.r, g.z.r));
    ThreadCount(Times(g.S().SH(), g.S().SW()));
    OneFewer(BarriersLeft(g, w), BarriersLeft(g, w'), 1 + Size(g, Adding) + Size(g, Hashing), |w'.pending|);
  }

  lemma OneFewer(b: int, b': int, size: int, p: int)
    requires 0 <= b' < b && 0 <= p < size
    ensures 0 <= b' * size + p < b * size
  {
    assert (b' + 1) * size <= b * size;
    assert 0 <= b' * size;
  }

  lemma ElementCounts(g: Setup, w: Where, e: nat)
    requires g.z.r > 0 && e in w.pending
    ensures Remaining(g, w.(pending := w.pending - {e})) == Remaining(g, w) - 1
  {
    hide Size;
  }

  /** Block b has passed its barrier, or has one pending element or tile fewer. */
  ghost predicate MovesOn(g: Setup, was: map<BlockXY, Where>, at: map<BlockXY, Where>, b: BlockXY)
    requires g.z.r > 0 && g.z.th > 0 && g.z.tw > 0 && b in was
  {
    || (was[b].pending == {} && at == was[b := AfterBarrier(g, was[b])])
    || exists e: nat :: e in was[b].pending && at == Treated(was, b, e)
  }

  /** The steps each block can still take. */
  ghost function Left(g: Setup, at: map<BlockXY, Where>): map<BlockXY, int>
    requires g.z.r > 0
  {
    map b | b in at :: if WhereOk(g, at[b]) then Remaining(g, at[b]) else 0
  }

  lemma RemainingIsNatural(g: Setup, w: Where)
    requires g.Ok() && WhereOk(g, w)
    ensures Remaining(g, w) >= 0
  {
    hide Size, Threads;
    NotNegative(BarriersLeft(g, w), 1 + Size(g, Adding) + Size(g, Hashing));
  }

  lemma NotNegative(b: int, size: int)
    requires b >= 0 && size >= 0
    ensures b * size >= 0
  {}

  /** The blocks that are not over. */
  function Running(g: Setup, at: map<BlockXY, Where>): set<BlockXY>
    requires g.z.r > 0
  {
    set b | b in Blocks(g) && b in at && at[b].phase != Over
  }

  lemma RunningBlock(g: Setup, cs: seq<int>, tr: seq<Block>, at: map<BlockXY, Where>, b: BlockXY)
    requires g.Ok() && GridInv(g, cs, tr, at) && b in Running(g, at)
    ensures b in Blocks(g) && InGrid(g, b) && b in at && at[b].phase != Over && WhereOk(g, at[b])
  {
    hide CellOk, TileOk, WhereOk;
  }

  /** A step of any block uses up some of the remaining steps of the grid. */
  lemma StepCounts(g: Setup, cs: seq<int>, tr: seq<Block>, was: map<BlockXY, Where>, at: map<BlockXY, Where>, b: BlockXY, bs: seq<BlockXY>)
    requires g.Ok() && b in was && was[b].phase != Over && WhereOk(g, was[b]) && MovesOn(g, was, at, b)
    requires GridInv(g, cs, tr, at) && b in Blocks(g) && forall c :: c in Blocks(g) <==> c in bs
    ensures 0 <= StepsLeft(Left(g, at), bs) < StepsLeft(Left(g, was), bs)
  {
    hide Remaining, AfterBarrier, CellOk, TileOk, WhereOk;
    assert b in at && WhereOk(g, at[b]) && Remaining(g, at[b]) < Remaining(g, was[b]) by {
      if was[b].pending == {} && at == was[b := AfterBarrier(g, was[b])] {
        BarrierCounts(g, was[b]);
      } else {
        var e: nat :| e in was[b].pending && at == Treated(was, b, e);
        ElementCounts(g, was[b], e);
      }
    }
    assert Left(g, at) == Left(g, was)[b := Remaining(g, at[b])];
    FewerLeft(Left(g, was), b, Remaining(g, at[b]), bs);
    LeftNatural(g, at);
    StepsNatural(Left(g, at), bs);
  }

  lemma LeftNatural(g: Setup, at: map<BlockXY, Where>)
    requires g.Ok()
    ensures forall b :: b in Left(g, at) ==> Left(g, at)[b] >= 0
  {
    hide Remaining, WhereOk;
    forall b | b in at && WhereOk(g, at[b])
      ensures Remaining(g, at[b]) >= 0
    {
      RemainingIsNatural(g, at[b]);
    }
  }

  lemma AllOver(g: Setup, cs: seq<int>, tr: seq<Block>, at: map<BlockXY, Where>)
    requires g.Ok() && GridInv(g, cs, tr, at) && Running(g, at) == {}
    ensures forall b :: InGrid(g, b) ==> b in at && at[b].phase == Over
  {
    hide BlockInv;
    forall b | InGrid(g, b)
      ensures b in at && at[b].phase == Over
    {
      assert b == BlockXY(b.ti, b.tj) && b in Blocks(g);
      assert b !in Running(g, at);
    }
  }

  // ---------- the transcripts at the end ----------

  /** Once every block is done, the buffer holds the reference's transcript of every tile. */
  lemma NaiveTranscripts(g: Setup, cs: seq<int>, tr: seq<Block>, at: map<BlockXY, Where>)
    requires g.Ok() && GridInv(g, cs, tr, at) && forall b :: b in at.Keys && InGrid(g, b) ==> at[b].phase == Over
    ensures SliceHolds(g.z, g.S(), tr, 0)
  {
    hide GridInv, TileAt, TileAddress, Words16;
    EvenProduct(g.z.k, g.z.r);
    assert |tr| == g.S().Total() by { TrLength(g, cs, tr, at); }
    ChunkRoom(g);
    forall idx | 0 <= idx < g.S().Total()
      ensures TileBlock(g.S(), tr, 0, idx) == Words16(g.z, TileAt(g.S(), idx))
    {
      TileDone(g, cs, tr, at, idx);
    }
  }

  lemma TrLength(g: Setup, cs: seq<int>, tr: seq<Block>, at: map<BlockXY, Where>)
    requires g.Ok() && GridInv(g, cs, tr, at)
    ensures |tr| == g.S().Total()
  {}

  lemma ChunkRoom(g: Setup)
    requires g.Ok()
    ensures g.z.k >= g.z.r
  {
    if g.z.k < g.z.r {
      Bits.DivModUnique(g.z.k, g.z.r, 0, g.z.k);
      assert false;
    }
  }

  lemma TileDone(g: Setup, cs: seq<int>, tr: seq<Block>, at: map<BlockXY, Where>, idx: nat)
    requires g.Ok() && GridInv(g, cs, tr, at) && (forall b :: b in at.Keys && InGrid(g, b) ==> at[b].phase == Over)
    requires idx < g.S().Total() && |tr| == g.S().Total()
    ensures TileBlock(g.S(), tr, 0, idx) == Words16(g.z, TileAt(g.S(), idx))
  {
    hide GridInv, TileTranscript, IndexToTile, CellOk;
    var s, t := g.S(), TileAt(g.S(), idx);
    LiveDigits(s);
    EncodeDecode(idx, s.TI(), s.TJ(), s.SH(), s.SW());
    var b := BlockXY(t.bi, t.bj);
    BlockThere(g, cs, tr, at, b);
    assert TileOk(g, tr, b, at[b], t.hi, t.wi);
  }

  // ---------- k_gemm_plain ----------

  /** k_gemm_plain: C = A B in wrapping int32, threads in any order. */
  method GemmPlain(a: seq<int>, b: seq<int>, c: array<int>, m: nat, k: nat, n: nat, threads: nat)
    requires |a| == m * k && |b| == k * n && c.Length == m * n && threads >= m * n
    modifies c
    ensures View(c[..], 0, m, n) == Product32(View(a, 0, m, k), View(b, 0, k, n), m, k, n)
  {
    hide View, Product32, Dot, Wrap32;
    ghost var p := Product32(View(a, 0, m, k), View(b, 0, k, n), m, k, n);
    var pending := Threads(threads);
    NothingComputed(c[..], p, m, n, threads);
    while pending != {}
      invariant pending <= Threads(threads) && Computed(c[..], p, m, n, pending)
      decreases |pending|
    {
      var idx :| idx in pending;
      if idx < m * n {
        SplitIndex(idx, m, n);
        var i, j := Div(idx, n), idx % n;
        ghost var before := c[..];
        var acc := PlainSum(a, b, m, k, n, i, j);
        c[idx] := acc;
        assert c[..] == before[idx := acc];
        OneComputed(before, p, m, n, pending, i, j);
      } else {
        OutsideComputed(c[..], p, m, n, pending, idx);
      }
      pending := pending - {idx};
    }
    AllComputed(c[..], p, m, n);
  }

  method PlainSum(a: seq<int>, b: seq<int>, m: nat, k: nat, n: nat, i: nat, j: nat) returns (acc: int)
    requires |a| == m * k && |b| == k * n && i < m && j < n
    ensures acc == Wrap32(Dot(View(a, 0, m, k), View(b, 0, k, n), i, j, 0, k))
  {
    hide View, Dot, Wrap32, Position;
    ghost var l, t := View(a, 0, m, k), View(b, 0, k, n);
    NoTerms(l, t, i, j, 0);
    acc := 0;
    for c := 0 to k
      invariant acc == Wrap32(Dot(l, t, i, j, 0, c))
    {
      PlainTerm(a, b, m, k, n, i, j, c);
      acc := Wrap32(acc + a[Position(k, i, c)] * b[Position(n, c, j)]);
    }
  }

  lemma PlainTerm(a: seq<int>, b: seq<int>, m: nat, k: nat, n: nat, i: nat, j: nat, c: nat)
    requires |a| == m * k && |b| == k * n && i < m && j < n && c < k
    ensures 0 <= Position(k, i, c) < |a| && 0 <= Position(n, c, j) < |b|
    ensures Wrap32(Wrap32(Dot(View(a, 0, m, k), View(b, 0, k, n), i, j, 0, c)) + a[Position(k, i, c)] * b[Position(n, c, j)])
         == Wrap32(Dot(View(a, 0, m, k), View(b, 0, k, n), i, j, 0, c + 1))
  {
    hide View, Position, Wrap32;
    var l, t := View(a, 0, m, k), View(b, 0, k, n);
    assert l[i][c] == a[0 + Position(k, i, c)] && t[c][j] == b[0 + Position(n, c, j)];
    WrapAdd(Dot(l, t, i, j, 0, c), l[i][c] * t[c][j]);
  }

  ghost predicate Computed(c: seq<int>, p: Mat, m: nat, n: nat, pending: set<nat>) {
    |c| == m * n && IsMat(p, m, n) &&
    forall i: nat, j: nat :: i < m && j < n && Position(n, i, j) !in pending ==> ShowsCell(c, Position(n, i, j), p[i][j])
  }

  lemma NothingComputed(c: seq<int>, p: Mat, m: nat, n: nat, threads: nat)
    requires |c| == m * n && IsMat(p, m, n) && threads >= m * n
    ensures Computed(c, p, m, n, Threads(threads))
  {
    hide Position;
    CellsInBuffer(m, n);
  }

  lemma OneComputed(before: seq<int>, p: Mat, m: nat, n: nat, pending: set<nat>, i: nat, j: nat)
    requires Computed(before, p, m, n, pending) && i < m && j < n && 0 <= Position(n, i, j) < |before|
    ensures Computed(before[Position(n, i, j) := p[i][j]], p, m, n, pending - {Position(n, i, j)})
  {
    hide Position;
    var c := before[Position(n, i, j) := p[i][j]];
    forall i': nat, j': nat | i' < m && j' < n && Position(n, i', j') !in pending - {Position(n, i, j)}
      ensures ShowsCell(c, Position(n, i', j'), p[i'][j'])
    {
      if Position(n, i', j') == Position(n, i, j) {
        PositionsDistinct(n, i, j, i', j');
      }
    }
  }

  lemma OutsideComputed(c: seq<int>, p: Mat, m: nat, n: nat, pending: set<nat>, idx: nat)
    requires Computed(c, p, m, n, pending) && idx >= m * n
    ensures Computed(c, p, m, n, pending - {idx})
  {
    hide Position, ShowsCell;
    CellsInBuffer(m, n);
  }

  lemma AllComputed(c: seq<int>, p: Mat, m: nat, n: nat)
    requires Computed(c, p, m, n, {})
    ensures View(c, 0, m, n) == p
  {
    hide Position, View;
    forall i, j | 0 <= i < m && 0 <= j < n
      ensures 0 <= 0 + Position(n, i, j) < |c| && c[0 + Position(n, i, j)] == p[i][j]
    {
      assert ShowsCell(c, Position(n, i, j), p[i][j]);
    }
    ViewOf(c, 0, m, n, p);
  }

  // ---------- k_pow_scan ----------

  ghost predicate LostBefore(z: Job, t: Tile)
    requires z.r > 0
  {
    forall u :: Before(u, t) ==> !Wins(z, u)
  }

  /** The single-threaded scan: nested loops that return at the first winner. */
  class PowScan {
    var found: int
    var aRow: int
    var bCol: int
    var trOut: Block

    constructor ()
    {
      found, aRow, bCol, trOut := 0, 0, 0, Zeros();
    }

    method Scan(z: Job, s: Shape, tr: seq<Block>, key: Digest, target: Digest)
      requires z.r > 0 && Live(s) && |tr| == s.Total() && SliceHolds(z, s, tr, 0) && z.key == key && z.target == Num256(target)
      modifies this
      ensures Outcome(z, found, aRow, bCol, trOut)
      ensures found == 0 ==> trOut == old(trOut)
    {
      hide SliceHolds, Num256, AnnouncesTile, LimbsLe, Wins, TileAddress, Words16;
      found, aRow, bCol := 0, -1, -1;
      SliceIsJob(z, s, tr);
      LiveDigits(s);
      for ti := 0 to s.TI()
        invariant LostBefore(z, Tile(ti, 0, 0, 0)) && found == 0 && aRow == -1 && bCol == -1 && trOut == old(trOut)
      {
        for tj := 0 to s.TJ()
          invariant LostBefore(z, Tile(ti, tj, 0, 0)) && found == 0 && aRow == -1 && bCol == -1 && trOut == old(trOut)
        {
          for hi := 0 to s.SH()
            invariant LostBefore(z, Tile(ti, tj, hi, 0)) && found == 0 && aRow == -1 && bCol == -1 && trOut == old(trOut)
          {
            for wi := 0 to s.SW()
              invariant LostBefore(z, Tile(ti, tj, hi, wi)) && found == 0 && aRow == -1 && bCol == -1 && trOut == old(trOut)
            {
              var t := Tile(ti, tj, hi, wi);
              TileTested(z, s, tr, t);
              var words := tr[SlotOf(s, t)];
              if LimbsLe(z.blake(words, key), target, 8) {
                LimbsDecide(z, t, words, target);
                found, aRow, bCol := 1, (ti * s.SH() + hi) * s.th, (tj * s.SW() + wi) * s.tw;
                trOut := words;
                FoundHere(z, s, t, aRow, bCol, words);
                return;
              }
              LimbsDecide(z, t, words, target);
              NextTile(z, t);
            }
            RowOfTilesLost(z, s, ti, tj, hi);
          }
          BlockLost(z, s, ti, tj);
        }
        BlockRowLost(z, s, ti);
      }
      AllLost(z, s);
    }
  }

  /** Mining and scan one after the other. Blocks and elements run in any order: as the schedule says, and
      then by arbitrary choices to the end. The outcome is the reference's. */
  method NaiveSearch(g: Setup, cs: array<int>, tr: array<Block>, schedule: seq<(BlockXY, nat, nat)>, target: Digest)
      returns (scan: PowScan)
    requires g.Ok() && cs.Length == g.z.m * g.z.n && tr.Length == g.S().Total() && g.z.target == Num256(target)
    requires forall x :: 0 <= x < tr.Length ==> tr[x] == Zeros()
    modifies cs, tr
    ensures fresh(scan) && Outcome(g.z, scan.found, scan.aRow, scan.bCol, scan.trOut)
  {
    hide GridInv, SliceHolds, Outcome, Num256;
    var grid := new NaiveGrid(g, cs, tr);
    grid.Play(schedule);
    grid.RunOn();
    scan := new PowScan();
    NaiveTranscripts(g, cs[..], tr[..], grid.at);
    TrLength(g, cs[..], tr[..], grid.at);
    scan.Scan(g.z, g.S(), tr[..], g.z.key, target);
  }

  function SlotOf(s: Shape, t: Tile): nat
    requires s.Even()
  {
    Times(Times(t.bi, s.SH()) + t.hi, s.STCols()) + (Times(t.bj, s.SW()) + t.wi)
  }

  lemma SliceIsJob(z: Job, s: Shape, tr: seq<Block>)
    requires z.r > 0 && Live(s) && |tr| == s.Total() && SliceHolds(z, s, tr, 0)
    ensures s == Shape(z.m, z.n, z.r, z.th, z.tw) && z.k >= z.r
  {}

  /** The transcript the scan reads for tile t is that tile's. */
  lemma TileTested(z: Job, s: Shape, tr: seq<Block>, t: Tile)
    requires z.r > 0 && Live(s) && |tr| == s.Total() && SliceHolds(z, s, tr, 0) && Digits(t, s.TI(), s.TJ(), s.SH(), s.SW())
    ensures IsTile(z, t) && SlotOf(s, t) < |tr| && tr[SlotOf(s, t)] == Words16(z, t)
  {
    hide Words16, IndexToTile, IsTile;
    LiveDigits(s);
    TilesAreDigits(z, s, t);
    DecodeEncode(t, s.TI(), s.TJ(), s.SH(), s.SW());
    var idx := TileToIndex(t, s.TJ(), s.SH(), s.SW());
    AddressInRange(s, idx);
    assert TileBlock(s, tr, 0, idx) == Words16(z, TileAt(s, idx));
  }

  lemma LimbsDecide(z: Job, t: Tile, words: Block, target: Digest)
    requires z.r > 0 && z.k >= z.r && IsTile(z, t) && words == Words16(z, t) && z.target == Num256(target)
    ensures LimbsLe(z.blake(words, z.key), target, 8) <==> Wins(z, t)
  {
    hide Words16, IsTile, LimbsLe, LittleEndian;
    LimbsLeIsNumeric(z.blake(words, z.key), target, 8);
  }

  lemma FoundHere(z: Job, s: Shape, t: Tile, aRow: int, bCol: int, words: Block)
    requires z.r > 0 && Live(s) && s == Shape(z.m, z.n, z.r, z.th, z.tw) && LostBefore(z, t) && Wins(z, t) && words == Words16(z, t)
    requires aRow == (t.bi * s.SH() + t.hi) * s.th && bCol == (t.bj * s.SW() + t.wi) * s.tw
    ensures AnnouncesTile(z, aRow, bCol, words)
  {
    hide Wins, Words16;
    TileCorner(z, s, t);
    forall u | Wins(z, u)
      ensures u == t || Before(t, u)
    {
      assert !Before(u, t);
    }
    assert FirstWinner(z, t);
  }

  lemma NextTile(z: Job, t: Tile)
    requires z.r > 0 && LostBefore(z, t) && !Wins(z, t)
    ensures LostBefore(z, t.(wi := t.wi + 1))
  {
    hide Wins;
    forall u | Before(u, t.(wi := t.wi + 1))
      ensures !Wins(z, u)
    {
      assert u == t || Before(u, t);
    }
  }

  lemma WinnersAreDigits(z: Job, s: Shape, u: Tile)
    requires z.r > 0 && Live(s) && s == Shape(z.m, z.n, z.r, z.th, z.tw)
    ensures Wins(z, u) ==> Digits(u, s.TI(), s.TJ(), s.SH(), s.SW())
  {
    TilesAreDigits(z, s, u);
  }

  lemma RowOfTilesLost(z: Job, s: Shape, ti: nat, tj: nat, hi: nat)
    requires z.r > 0 && Live(s) && s == Shape(z.m, z.n, z.r, z.th, z.tw) && LostBefore(z, Tile(ti, tj, hi, s.SW()))
    ensures LostBefore(z, Tile(ti, tj, hi + 1, 0))
  {
    hide Wins;
    forall u | Before(u, Tile(ti, tj, hi + 1, 0))
      ensures !Wins(z, u)
    {
      WinnersAreDigits(z, s, u);
      assert Wins(z, u) ==> Before(u, Tile(ti, tj, hi, s.SW()));
    }
  }

  lemma BlockLost(z: Job, s: Shape, ti: nat, tj: nat)
    requires z.r > 0 && Live(s) && s == Shape(z.m, z.n, z.r, z.th, z.tw) && LostBefore(z, Tile(ti, tj, s.SH(), 0))
    ensures LostBefore(z, Tile(ti, tj + 1, 0, 0))
  {
    hide Wins;
    forall u | Before(u, Tile(ti, tj + 1, 0, 0))
      ensures !Wins(z, u)
    {
      WinnersAreDigits(z, s, u);
      assert Wins(z, u) ==> Before(u, Tile(ti, tj, s.SH(), 0));
    }
  }

  lemma BlockRowLost(z: Job, s: Shape, ti: nat)
    requires z.r > 0 && Live(s) && s == Shape(z.m, z.n, z.r, z.th, z.tw) && LostBefore(z, Tile(ti, s.TJ(), 0, 0))
    ensures LostBefore(z, Tile(ti + 1, 0, 0, 0))
  {
    hide Wins;
    forall u | Before(u, Tile(ti + 1, 0, 0, 0))
      ensures !Wins(z, u)
    {
      WinnersAreDigits(z, s, u);
      assert Wins(z, u) ==> Before(u, Tile(ti, s.TJ(), 0, 0));
    }
  }

  lemma AllLost(z: Job, s: Shape)
    requires z.r > 0 && Live(s) && s == Shape(z.m, z.n, z.r, z.th, z.tw) && LostBefore(z, Tile(s.TI(), 0, 0, 0))
    ensures NoWinner(z)
  {
    hide Wins;
    var past := Tile(s.TI(), 0, 0, 0);
    forall u
      ensures !Wins(z, u)
    {
      WinnersAreDigits(z, s, u);
      assert Wins(z, u) ==> Before(u, past);
    }
  }
}
