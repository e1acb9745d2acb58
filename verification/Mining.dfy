/** What a mining launch leaves in the transcript buffer, as a function of what it found there. */
module Mining {
  import opened Bits
  import opened Ring
  import opened Transcript
  import opened Pipeline
  import opened FusedKernel
  import opened Scan

  // ---------- flat device buffers as matrices ----------

  /** Position of cell (i, j) in a row-major buffer of rows of length cols. */
  function Position(cols: nat, i: int, j: int): int { i * cols + j }

  function Load(buf: seq<int>, x: int): int { if 0 <= x < |buf| then buf[x] else 0 }

  lemma CellsInBuffer(rows: nat, cols: nat)
    ensures forall i, j :: 0 <= i < rows && 0 <= j < cols ==> 0 <= Position(cols, i, j) < rows * cols
  {
    forall i, j | 0 <= i < rows && 0 <= j < cols
      ensures 0 <= Position(cols, i, j) < rows * cols
    {
      NestBelow(i, rows, cols, j);
    }
  }

  lemma SplitIndex(idx: nat, rows: nat, cols: nat)
    requires idx < rows * cols
    ensures cols > 0 && Div(idx, cols) < rows && idx % cols < cols && idx == Position(cols, Div(idx, cols), idx % cols)
    ensures 0 <= Position(rows, idx % cols, Div(idx, cols)) < rows * cols
  {
    QuotientBelow(idx, rows, cols);
    NestBelow(idx % cols, cols, rows, idx / cols);
  }

  lemma PositionsDistinct(cols: nat, i: nat, j: nat, i': nat, j': nat)
    requires j < cols && j' < cols && Position(cols, i, j) == Position(cols, i', j')
    ensures i == i' && j == j'
  {
    NestUnique(i, j, i', j', cols);
  }

  /** The rows x cols matrix stored row after row from position off. */
  function View(buf: seq<int>, off: nat, rows: nat, cols: nat): (a: Mat)
    requires off + rows * cols <= |buf|
    ensures IsMat(a, rows, cols)
    ensures forall i, j :: 0 <= i < rows && 0 <= j < cols ==>
      0 <= Position(cols, i, j) && off + Position(cols, i, j) < |buf| && a[i][j] == buf[off + Position(cols, i, j)]
  {
    hide Position;
    CellsInBuffer(rows, cols);
    Tabulate(rows, cols, (i, j) => Load(buf, off + Position(cols, i, j)))
  }

  /** v shows the buffer cell by cell. */
  predicate Shows(buf: seq<int>, off: int, v: Mat, rows: nat, cols: nat) {
    IsMat(v, rows, cols) && forall i, j :: 0 <= i < rows && 0 <= j < cols ==> ShowsCell(buf, off + Position(cols, i, j), v[i][j])
  }

  predicate ShowsCell(buf: seq<int>, x: int, value: int) {
    0 <= x < |buf| && buf[x] == value
  }

  lemma ViewIsLayout(buf: seq<int>, off: nat, rows: nat, cols: nat)
    requires off + rows * cols <= |buf|
    ensures Layout(buf, off, View(buf, off, rows, cols), rows, cols)
  {
    hide View, Layout, Position;
    ShowsIsLayout(buf, off, View(buf, off, rows, cols), rows, cols);
  }

  lemma ShowsIsLayout(buf: seq<int>, off: nat, v: Mat, rows: nat, cols: nat)
    requires Shows(buf, off, v, rows, cols)
    ensures Layout(buf, off, v, rows, cols)
  {
    forall i, j | 0 <= i < rows && 0 <= j < cols
      ensures 0 <= off + i * cols + j < |buf| && buf[off + i * cols + j] == v[i][j]
    {
      assert ShowsCell(buf, off + Position(cols, i, j), v[i][j]);
    }
  }

  /** Two buffers that agree cell by cell show the same matrix. */
  lemma ViewOf(buf: seq<int>, off: nat, rows: nat, cols: nat, a: Mat)
    requires off + rows * cols <= |buf| && IsMat(a, rows, cols)
    requires forall i, j :: 0 <= i < rows && 0 <= j < cols ==>
      0 <= off + Position(cols, i, j) < |buf| && buf[off + Position(cols, i, j)] == a[i][j]
    ensures View(buf, off, rows, cols) == a
  {
    var v := View(buf, off, rows, cols);
    forall i | 0 <= i < rows
      ensures v[i] == a[i]
    {
      assert forall j :: 0 <= j < cols ==> v[i][j] == a[i][j];
    }
  }

  // ---------- the launch as a function ----------

  /** Attempt, row and column of a position of the transcript buffer. */
  function AttOf(u: Launch, x: nat): nat requires PerAttempt(u) > 0 { Div(x, PerAttempt(u)) }

  function RowOf(u: Launch, x: nat): nat requires PerAttempt(u) > 0 && TileCols(u) > 0 { Div(x % PerAttempt(u), TileCols(u)) }

  function ColOf(u: Launch, x: nat): nat requires PerAttempt(u) > 0 && TileCols(u) > 0 { x % PerAttempt(u) % TileCols(u) }

  lemma GridNotEmpty(u: Launch)
    requires ValidLaunch(u)
    ensures TileRows(u) > 0 && TileCols(u) > 0 && PerAttempt(u) > 0
  {
    OneTileFits(u.m, TileH(u));
    OneTileFits(u.n, TileW(u));
    assert TileRows(u) * TileCols(u) > 0;
  }

  lemma OneTileFits(m: nat, t: nat)
    requires m > 0 && m % 128 == 0 && 0 < t <= 64
    ensures m / t > 0
  {
    assert m >= 128;
    DivAtLeast(m, t);
  }

  lemma DivAtLeast(m: nat, t: nat)
    requires 0 < t <= m
    ensures m / t > 0
  {
    QuotientBelow(m, m + 1, t);
  }

  lemma PositionDecodes(u: Launch, x: nat)
    requires ValidLaunch(u) && x < u.natt * PerAttempt(u)
    ensures PerAttempt(u) > 0 && TileCols(u) > 0
    ensures AttOf(u, x) < u.natt && RowOf(u, x) < TileRows(u) && ColOf(u, x) < TileCols(u)
    ensures Flat(u, AttOf(u, x), RowOf(u, x), ColOf(u, x)) == x
  {
    hide TileRows, TileCols;
    GridNotEmpty(u);
    QuotientBelow(x, u.natt, PerAttempt(u));
    QuotientBelow(x % PerAttempt(u), TileRows(u), TileCols(u));
  }

  lemma PositionOf(u: Launch, att: nat, row: nat, col: nat)
    requires ValidLaunch(u) && att < u.natt && row < TileRows(u) && col < TileCols(u)
    ensures Flat(u, att, row, col) < u.natt * PerAttempt(u) && PerAttempt(u) > 0
    ensures AttOf(u, Flat(u, att, row, col)) == att && RowOf(u, Flat(u, att, row, col)) == row && ColOf(u, Flat(u, att, row, col)) == col
  {
    hide TileRows, TileCols;
    GridNotEmpty(u);
    FlatInBuffer(u, att, row, col);
    NestBelow(row, TileRows(u), TileCols(u), col);
    Nest(att, PerAttempt(u), row * TileCols(u) + col);
    Nest(row, TileCols(u), col);
  }

  /** A mining launch, as the scheduler-independent function that FusedRefinesFolds justifies. */
  function Mined(u: Launch, tr0: seq<Block>): (tr: seq<Block>)
    requires ValidLaunch(u) && |tr0| == u.natt * PerAttempt(u)
    ensures |tr| == |tr0|
  {
    seq(|tr0|, x requires 0 <= x < |tr0| => MinedAt(u, tr0, x))
  }

  function MinedAt(u: Launch, tr0: seq<Block>, x: nat): Block
    requires ValidLaunch(u) && |tr0| == u.natt * PerAttempt(u) && x < |tr0|
  {
    PositionDecodes(u, x);
    Folds(tr0[x], ChunkHashes(u, AttOf(u, x), RowOf(u, x), ColOf(u, x)), u.k / 128)
  }

  /** Every complete run of every interleaving ends with the same transcripts. */
  lemma EveryScheduleMines(u: Launch, tr0: seq<Block>, g: Grid, sched: Schedule)
    requires InitialGrid(u, tr0, g) && Executable(u, g, sched) && AllFinished(u, Run(u, g, sched)) && u.kernel != Gemm
    ensures Run(u, g, sched).tr == Mined(u, tr0)
  {
    hide Executable, Run, AllFinished, ChunkHashes, Folds, Flat, Transcribed, ValidLaunch;
    InitialGridInv(u, tr0, g);
    RunKeeps(u, tr0, g, sched);
    var tr := Run(u, g, sched).tr;
    forall x | 0 <= x < |tr0|
      ensures tr[x] == Mined(u, tr0)[x]
    {
      PositionDecodes(u, x);
      FusedRefinesFolds(u, tr0, g, sched, AttOf(u, x), RowOf(u, x), ColOf(u, x));
    }
  }

  /** From zeroed transcripts: the reference's transcript at every tile of every attempt. */
  lemma MinedFromZeros(u: Launch, tr0: seq<Block>, att: nat, row: nat, col: nat)
    requires ValidLaunch(u) && |tr0| == u.natt * PerAttempt(u) && u.kernel != Gemm
    requires forall x :: 0 <= x < |tr0| ==> tr0[x] == Zeros()
    requires att < u.natt && row < TileRows(u) && col < TileCols(u)
    ensures Flat(u, att, row, col) < |tr0|
    ensures Mined(u, tr0)[Flat(u, att, row, col)]
         == TileTranscript(u.an[att], u.bn[att], row * TileH(u), col * TileW(u), TileH(u), TileW(u), 128, u.k / 128)
  {
    hide TileHash, Flat, ValidLaunch, TileRows, TileCols;
    assert |u.an| == |u.bn| == u.natt by { OperandsOf(u); }
    PositionOf(u, att, row, col);
    var i0, j0 := row * TileH(u), col * TileW(u);
    TileTranscriptIsFolds(u.an[att], u.bn[att], i0, j0, TileH(u), TileW(u), 128, u.k / 128);
    FoldsEq(Zeros(), ChunkHashes(u, att, row, col),
            z => TileHash(u.an[att], u.bn[att], i0, j0, TileH(u), TileW(u), 128 * (z + 1)), u.k / 128);
  }

  lemma OperandsOf(u: Launch)
    requires ValidLaunch(u)
    ensures |u.an| == |u.bn| == u.natt
  {}
}
