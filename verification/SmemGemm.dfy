/** The GEMM kernel that stages 64x32 and 32x64 slabs through shared memory. Its blocks, and the threads
    and warps of a block between two barriers, step in any order. */
module SmemGemm {
  import opened Ring
  import opened Denoise
  import opened Fragments
  import opened Mining
  import opened Scan
  import opened Schedules
  import opened MmaGemm

  datatype SmemLaunch = SmemLaunch(an: seq<int>, bn: seq<int>, m: nat, k: nat, n: nat) {
    predicate Ok() { |an| == m * k && |bn| == k * n && m % 64 == 0 && n % 64 == 0 && k % 32 == 0 }

    function A(): Mat requires Ok() { View(an, 0, m, k) }

    function B(): Mat requires Ok() { View(bn, 0, k, n) }

    function P(): (p: Mat)
      requires Ok()
      ensures IsMat(p, m, n)
    {
      Product32(A(), B(), m, k, n)
    }

    function Steps(): nat { k / 32 }
  }

  type BlockXY = (nat, nat)

  datatype Phase = Staging | Multiplying | Storing | Ended

  /** A block: its k-step, the two slabs of shared memory, the accumulators of its 32 tiles (eight per
      warp), and what the phase has yet to do: elements to stage, or tiles to multiply or to store. */
  datatype Smem = Smem(phase: Phase, ks: nat, sa: seq<int>, sb: seq<int>, accs: seq<Tile16x8>,
                       todoA: set<nat>, todoB: set<nat>, todo: set<nat>)

  /** One element staged, one warp-wide mma, one tile written out, or __syncthreads. */
  datatype Act = PutA(idx: nat) | PutB(idx: nat) | MulTile(s: nat) | OutTile(s: nat) | Sync

  predicate Enabled(w: Smem, e: Act) {
    match e
    case PutA(idx) => w.phase == Staging && idx in w.todoA
    case PutB(idx) => w.phase == Staging && idx in w.todoB
    case MulTile(s) => w.phase == Multiplying && s in w.todo
    case OutTile(s) => w.phase == Storing && s in w.todo
    case Sync => w.phase != Ended && w.todoA == {} && w.todoB == {} && w.todo == {}
  }

  function Apply(l: SmemLaunch, b: BlockXY, w: Smem, e: Act): Smem
    requires Enabled(w, e)
  {
    match e
    case PutA(idx) =>
      if idx < |w.sa| then
        w.(sa := w.sa[idx := Load(l.an, Position(l.k, b.0 * 64 + idx / 32, 32 * w.ks + idx % 32))], todoA := w.todoA - {idx})
      else w
    case PutB(idx) =>
      if idx < |w.sb| then
        w.(sb := w.sb[idx := Load(l.bn, Position(l.n, 32 * w.ks + idx / 64, b.1 * 64 + idx % 64))], todoB := w.todoB - {idx})
      else w
    case MulTile(s) =>
      if s < |w.accs| then w.(accs := w.accs[s := MulStep(w, s)], todo := w.todo - {s}) else w
    case OutTile(s) => w.(todo := w.todo - {s})
    case Sync => AfterSync(l, w)
  }

  /** The mma of tile s on the staged slabs. */
  function MulStep(w: Smem, s: nat): Tile16x8
    requires s < |w.accs|
  {
    StepTile(w.accs[s], (t, q, x) => SharedFragmentA(w.sa, SubRow(4, s) * 16, t, q, x),
                        (t, q, x) => SharedFragmentB(w.sb, SubCol(4, s) * 8, t, q, x))
  }

  function AfterSync(l: SmemLaunch, w: Smem): Smem {
    match w.phase
    case Staging => w.(phase := Multiplying, todo := Threads(32))
    case Multiplying => NextSlab(l, w.(ks := w.ks + 1))
    case _ => w.(phase := Ended)
  }

  /** The head of the k-loop. */
  function NextSlab(l: SmemLaunch, w: Smem): Smem {
    if w.ks < l.Steps() then w.(phase := Staging, todoA := Threads(64 * 32), todoB := Threads(32 * 64))
    else w.(phase := Storing, todo := Threads(32))
  }

  /** A block at its start, shared memory arbitrary. */
  predicate AtStart(l: SmemLaunch, w: Smem) {
    && |w.sa| == 64 * 32 && |w.sb| == 32 * 64 && |w.accs| == 32 && (forall s :: 0 <= s < 32 ==> w.accs[s] == ZeroTile())
    && w == NextSlab(l, w.(ks := 0, todoA := {}, todoB := {}, todo := {}))
  }

  // ---------- the invariant ----------

  /** A slab of shared memory holds the part of v whose corner is (row0, col0). */
  ghost predicate Slab(buf: seq<int>, v: Mat, row0: nat, col0: nat, rows: nat, cols: nat, pending: set<nat>) {
    |buf| == rows * cols &&
    forall i: nat, j: nat :: i < rows && j < cols && Position(cols, i, j) !in pending ==>
      ShowsCell(buf, Position(cols, i, j), At(v, row0 + i, col0 + j))
  }

  lemma NothingStaged(buf: seq<int>, v: Mat, row0: nat, col0: nat, h: nat, w: nat)
    requires |buf| == h * w
    ensures Slab(buf, v, row0, col0, h, w, Threads(h * w))
  {
    hide Position;
    CellsInBuffer(h, w);
  }

  lemma OneStaged(before: seq<int>, v: Mat, row0: nat, col0: nat, h: nat, w: nat, pending: set<nat>, i: nat, j: nat)
    requires Slab(before, v, row0, col0, h, w, pending) && i < h && j < w && 0 <= Position(w, i, j) < |before|
    ensures Slab(before[Position(w, i, j) := At(v, row0 + i, col0 + j)], v, row0, col0, h, w, pending - {Position(w, i, j)})
  {
    hide Position, At;
    var buf := before[Position(w, i, j) := At(v, row0 + i, col0 + j)];
    forall i': nat, j': nat | i' < h && j' < w && Position(w, i', j') !in pending - {Position(w, i, j)}
      ensures ShowsCell(buf, Position(w, i', j'), At(v, row0 + i', col0 + j'))
    {
      if Position(w, i', j') == Position(w, i, j) {
        PositionsDistinct(w, i, j, i', j');
      }
    }
  }

  function SharedFragmentA(buf: seq<int>, arow: nat, l: int, q: int, x: int): int {
    Load(buf, Position(32, arow + Group(l) + (if q % 2 == 1 then 8 else 0), Tig(l) * 4 + (if q >= 2 then 16 else 0) + x))
  }

  function SharedFragmentB(buf: seq<int>, bcol: nat, l: int, q: int, x: int): int {
    Load(buf, Position(64, Tig(l) * 4 + (if q == 1 then 16 else 0) + x, bcol + Group(l)))
  }

  lemma SharedFragments(sa: seq<int>, sb: seq<int>, a: Mat, b: Mat, br: nat, bc: nat, k0: nat, arow: nat, bcol: nat)
    requires Slab(sa, a, br, k0, 64, 32, {}) && Slab(sb, b, k0, bc, 32, 64, {}) && arow + 16 <= 64 && bcol + 8 <= 64
    ensures FragmentA((l, q, x) => SharedFragmentA(sa, arow, l, q, x), a, br + arow, k0)
    ensures FragmentB((l, q, x) => SharedFragmentB(sb, bcol, l, q, x), b, k0, bc + bcol)
  {
    hide Slab, SharedFragmentA, SharedFragmentB, At, ARow, ACol, BRow, BCol;
    forall l, q, x | 0 <= l < 32 && 0 <= q < 4 && 0 <= x < 4
      ensures SharedFragmentA(sa, arow, l, q, x) == At(a, br + arow + ARow(l, q), k0 + ACol(l, q, x))
    {
      SharedByteA(sa, a, br, k0, arow, l, q, x);
    }
    forall l, q, x | 0 <= l < 32 && 0 <= q < 2 && 0 <= x < 4
      ensures SharedFragmentB(sb, bcol, l, q, x) == At(b, k0 + BRow(l, q, x), bc + bcol + BCol(l))
    {
      SharedByteB(sb, b, bc, k0, bcol, l, q, x);
    }
  }

  lemma SharedByteA(sa: seq<int>, a: Mat, br: nat, k0: nat, arow: nat, l: int, q: int, x: int)
    requires Slab(sa, a, br, k0, 64, 32, {}) && arow + 16 <= 64 && 0 <= l < 32 && 0 <= q < 4 && 0 <= x < 4
    ensures SharedFragmentA(sa, arow, l, q, x) == At(a, br + arow + ARow(l, q), k0 + ACol(l, q, x))
  {
    hide Position, At, Group, Tig, ARow, ACol;
    AIndex(l, q, x);
    assert ShowsCell(sa, Position(32, arow + ARow(l, q), ACol(l, q, x)), At(a, br + (arow + ARow(l, q)), k0 + ACol(l, q, x)));
  }

  lemma SharedByteB(sb: seq<int>, b: Mat, bc: nat, k0: nat, bcol: nat, l: int, q: int, x: int)
    requires Slab(sb, b, k0, bc, 32, 64, {}) && bcol + 8 <= 64 && 0 <= l < 32 && 0 <= q < 2 && 0 <= x < 4
    ensures SharedFragmentB(sb, bcol, l, q, x) == At(b, k0 + BRow(l, q, x), bc + bcol + BCol(l))
  {
    hide Position, At, Group, Tig, BRow, BCol;
    BIndex(l, q, x);
    assert ShowsCell(sb, Position(64, BRow(l, q, x), bcol + BCol(l)), At(b, k0 + BRow(l, q, x), bc + (bcol + BCol(l))));
  }

  /** Tiles in `todo` have not been multiplied by the current slab yet. */
  ghost predicate AccsHold(l: SmemLaunch, b: BlockXY, accs: seq<Tile16x8>, ks: nat, todo: set<nat>)
    requires l.Ok()
  {
    |accs| == 32 && forall s: nat :: s < 32 ==> TileAhead(l, b, accs, ks, todo, s)
  }

  ghost predicate TileAhead(l: SmemLaunch, b: BlockXY, accs: seq<Tile16x8>, ks: nat, todo: set<nat>, s: nat)
    requires l.Ok() && s < |accs|
  {
    SubHolds(accs, l.A(), l.B(), b.0, b.1, 4, 4, s, 32 * if s in todo then ks else ks + 1)
  }

  ghost predicate Slabs(l: SmemLaunch, b: BlockXY, w: Smem)
    requires l.Ok()
  {
    Slab(w.sa, l.A(), b.0 * 64, 32 * w.ks, 64, 32, w.todoA) && Slab(w.sb, l.B(), 32 * w.ks, b.1 * 64, 32, 64, w.todoB)
  }

  predicate Sizes(l: SmemLaunch, w: Smem) {
    && |w.sa| == 64 * 32 && |w.sb| == 32 * 64 && |w.accs| == 32
    && w.todoA <= Threads(64 * 32) && w.todoB <= Threads(32 * 64) && w.todo <= Threads(32)
    && (w.phase != Staging ==> w.todoA == {} && w.todoB == {})
    && (w.phase == Staging || w.phase == Ended ==> w.todo == {})
    && (w.phase == Staging || w.phase == Multiplying ==> w.ks < l.Steps())
    && (w.phase == Storing || w.phase == Ended ==> w.ks == l.Steps())
  }

  ghost predicate Sound(l: SmemLaunch, b: BlockXY, w: Smem)
    requires l.Ok()
  {
    && Sizes(l, w)
    && (w.phase == Staging || w.phase == Multiplying ==> Slabs(l, b, w))
    && match w.phase
       case Multiplying => AccsHold(l, b, w.accs, w.ks, w.todo)
       case Ended => true
       case _ => AccsHold(l, b, w.accs, w.ks, Threads(32))
  }

  /** The tiles a block has written out. */
  ghost predicate Written(l: SmemLaunch, c: seq<int>, b: BlockXY, w: Smem)
    requires l.Ok()
  {
    w.phase == Storing || w.phase == Ended ==>
      forall s: nat :: s < 32 && s !in w.todo ==> SubShown(l, c, b, s)
  }

  ghost predicate SubShown(l: SmemLaunch, c: seq<int>, b: BlockXY, s: nat)
    requires l.Ok()
  {
    TileShown(c, l.P(), l.n, b.0 * 4 + SubRow(4, s), b.1 * 8 + SubCol(4, s))
  }

  predicate InGrid(l: SmemLaunch, b: BlockXY) { b.0 < l.m / 64 && b.1 < l.n / 64 }

  // ---------- what a step keeps ----------

  lemma PutASound(l: SmemLaunch, b: BlockXY, w: Smem, idx: nat)
    requires l.Ok() && InGrid(l, b) && Sound(l, b, w) && Enabled(w, PutA(idx))
    ensures Sound(l, b, Apply(l, b, w, PutA(idx)))
  {
    hide SmemLaunch.A, SmemLaunch.B, Slab, AccsHold, Position, Threads;
    StagedElement(idx, 64, 32);
    BlockInC(l.m, 64, b.0);
    StepInK(l.k, w.ks);
    ElementOfA(l, b, w, idx);
    OneStaged(w.sa, l.A(), b.0 * 64, 32 * w.ks, 64, 32, w.todoA, idx / 32, idx % 32);
  }

  lemma PutBSound(l: SmemLaunch, b: BlockXY, w: Smem, idx: nat)
    requires l.Ok() && InGrid(l, b) && Sound(l, b, w) && Enabled(w, PutB(idx))
    ensures Sound(l, b, Apply(l, b, w, PutB(idx)))
  {
    hide SmemLaunch.A, SmemLaunch.B, Slab, AccsHold, Position, Threads;
    StagedElement(idx, 32, 64);
    BlockInC(l.n, 64, b.1);
    StepInK(l.k, w.ks);
    ElementOfB(l, b, w, idx);
    OneStaged(w.sb, l.B(), 32 * w.ks, b.1 * 64, 32, 64, w.todoB, idx / 64, idx % 64);
  }

  lemma StagedElement(idx: nat, h: nat, w: nat)
    requires w > 0 && idx < h * w
    ensures idx / w < h && idx % w < w && Position(w, idx / w, idx % w) == idx
  {
    SplitIndex(idx, h, w);
  }

  lemma StepInK(k: nat, ks: nat)
    requires k % 32 == 0 && ks < k / 32
    ensures 32 * ks + 32 <= k
  {}

  lemma ElementOfA(l: SmemLaunch, b: BlockXY, w: Smem, idx: nat)
    requires l.Ok() && idx < 64 * 32 && b.0 * 64 + 64 <= l.m && 32 * w.ks + 32 <= l.k
    ensures Load(l.an, Position(l.k, b.0 * 64 + idx / 32, 32 * w.ks + idx % 32)) == At(l.A(), b.0 * 64 + idx / 32, 32 * w.ks + idx % 32)
  {
    hide Position, At;
    ViewLoad(l.an, l.m, l.k, b.0 * 64 + idx / 32, 32 * w.ks + idx % 32);
  }

  lemma ElementOfB(l: SmemLaunch, b: BlockXY, w: Smem, idx: nat)
    requires l.Ok() && idx < 32 * 64 && b.1 * 64 + 64 <= l.n && 32 * w.ks + 32 <= l.k
    ensures Load(l.bn, Position(l.n, 32 * w.ks + idx / 64, b.1 * 64 + idx % 64)) == At(l.B(), 32 * w.ks + idx / 64, b.1 * 64 + idx % 64)
  {
    hide Position, At;
    ViewLoad(l.bn, l.k, l.n, 32 * w.ks + idx / 64, b.1 * 64 + idx % 64);
  }

  /** A tile multiplied by a fully staged slab is 32 columns further; the others stay where they are. */
  lemma MulSound(l: SmemLaunch, b: BlockXY, w: Smem, s: nat)
    requires l.Ok() && Sound(l, b, w) && Enabled(w, MulTile(s))
    ensures Sound(l, b, Apply(l, b, w, MulTile(s)))
  {
    hide SmemLaunch.A, SmemLaunch.B, Slab, SubHolds, MulStep, Threads;
    var w' := Apply(l, b, w, MulTile(s));
    forall s': nat | s' < 32
      ensures TileAhead(l, b, w'.accs, w.ks, w'.todo, s')
    {
      assert TileAhead(l, b, w.accs, w.ks, w.todo, s');
      if s' == s {
        MulAhead(l, b, w, s);
      } else {
        SameTile(l, b, w.accs, w'.accs, s', 32 * if s' in w.todo then w.ks else w.ks + 1);
      }
    }
  }

  lemma SameTile(l: SmemLaunch, b: BlockXY, accs: seq<Tile16x8>, accs': seq<Tile16x8>, s: nat, hi: nat)
    requires l.Ok() && s < |accs| == |accs'| && accs'[s] == accs[s] && SubHolds(accs, l.A(), l.B(), b.0, b.1, 4, 4, s, hi)
    ensures SubHolds(accs', l.A(), l.B(), b.0, b.1, 4, 4, s, hi)
  {
    hide SmemLaunch.A, SmemLaunch.B, TileHolds, SubRow, SubCol;
  }

  lemma MulAhead(l: SmemLaunch, b: BlockXY, w: Smem, s: nat)
    requires l.Ok() && s < 32 == |w.accs| && SubHolds(w.accs, l.A(), l.B(), b.0, b.1, 4, 4, s, 32 * w.ks)
    requires Slab(w.sa, l.A(), b.0 * 64, 32 * w.ks, 64, 32, {}) && Slab(w.sb, l.B(), 32 * w.ks, b.1 * 64, 32, 64, {})
    ensures SubHolds(w.accs[s := MulStep(w, s)], l.A(), l.B(), b.0, b.1, 4, 4, s, 32 * (w.ks + 1))
  {
    hide SmemLaunch.A, SmemLaunch.B, TileHolds, StepTile, SharedFragmentA, SharedFragmentB, FragmentA, FragmentB, Slab, SubRow, SubCol;
    SubInBlock(4, 4, s);
    var fa: (int, int, int) -> int := (t, q, x) => SharedFragmentA(w.sa, SubRow(4, s) * 16, t, q, x);
    var fb: (int, int, int) -> int := (t, q, x) => SharedFragmentB(w.sb, SubCol(4, s) * 8, t, q, x);
    SharedFragments(w.sa, w.sb, l.A(), l.B(), b.0 * 64, b.1 * 64, 32 * w.ks, SubRow(4, s) * 16, SubCol(4, s) * 8);
    StepHolds(w.accs[s], l.A(), l.B(), (b.0 * 4 + SubRow(4, s)) * 16, (b.1 * 8 + SubCol(4, s)) * 8, 32 * w.ks, fa, fb);
  }

  lemma SyncSound(l: SmemLaunch, b: BlockXY, w: Smem)
    requires l.Ok() && Sound(l, b, w) && Enabled(w, Sync)
    ensures Sound(l, b, Apply(l, b, w, Sync))
  {
    hide SmemLaunch.A, SmemLaunch.B, Slab, SubHolds, Threads;
    if w.phase == Multiplying {
      AllAhead(l, b, w.accs, w.ks);
      SlabSound(l, b, w.(ks := w.ks + 1));
    }
  }

  lemma AllAhead(l: SmemLaunch, b: BlockXY, accs: seq<Tile16x8>, ks: nat)
    requires l.Ok() && AccsHold(l, b, accs, ks, {})
    ensures AccsHold(l, b, accs, ks + 1, Threads(32))
  {
    hide SmemLaunch.A, SmemLaunch.B, SubHolds, Threads;
    var next, all := ks + 1, Threads(32);
    forall s: nat | s < 32
      ensures TileAhead(l, b, accs, next, all, s)
    {
      assert TileAhead(l, b, accs, ks, {}, s);
    }
  }

  /** The head of the k-loop, reached with every accumulator at step ks. */
  lemma SlabSound(l: SmemLaunch, b: BlockXY, w: Smem)
    requires l.Ok() && |w.sa| == 64 * 32 && |w.sb| == 32 * 64 && w.ks <= l.Steps() && AccsHold(l, b, w.accs, w.ks, Threads(32))
    requires w.todoA == {} && w.todoB == {} && w.todo == {}
    ensures Sound(l, b, NextSlab(l, w))
  {
    hide SmemLaunch.A, SmemLaunch.B, Slab, AccsHold, Threads;
    assert |w.accs| == 32 by { EnoughAccs(l, b, w.accs, w.ks); }
    NothingStaged(w.sa, l.A(), b.0 * 64, 32 * w.ks, 64, 32);
    NothingStaged(w.sb, l.B(), 32 * w.ks, b.1 * 64, 32, 64);
  }

  lemma EnoughAccs(l: SmemLaunch, b: BlockXY, accs: seq<Tile16x8>, ks: nat)
    requires l.Ok() && AccsHold(l, b, accs, ks, Threads(32))
    ensures |accs| == 32
  {}

  lemma StartSound(l: SmemLaunch, b: BlockXY, w: Smem)
    requires l.Ok() && AtStart(l, w)
    ensures Sound(l, b, w)
  {
    hide SmemLaunch.A, SmemLaunch.B, Slabs, TileHolds, SubRow, SubCol, Threads;
    var none := Threads(32);
    forall s: nat | s < 32
      ensures TileAhead(l, b, w.accs, 0, none, s)
    {
      ZeroHolds(l.A(), l.B(), (b.0 * 4 + SubRow(4, s)) * 16, (b.1 * 8 + SubCol(4, s)) * 8);
    }
    SlabSound(l, b, w.(ks := 0, todoA := {}, todoB := {}, todo := {}));
  }

  /** Every step of a block keeps what its registers and shared memory hold. */
  lemma StepSound(l: SmemLaunch, b: BlockXY, w: Smem, e: Act)
    requires l.Ok() && InGrid(l, b) && Sound(l, b, w) && Enabled(w, e)
    ensures Sound(l, b, Apply(l, b, w, e))
  {
    hide Slabs, AccsHold, Threads;
    match e
    case PutA(idx) => PutASound(l, b, w, idx);
    case PutB(idx) => PutBSound(l, b, w, idx);
    case MulTile(s) => MulSound(l, b, w, s);
    case OutTile(s) => {}
    case Sync => SyncSound(l, b, w);
  }

  /** A tile about to be written is complete. */
  lemma TileComplete(l: SmemLaunch, b: BlockXY, w: Smem, s: nat)
    requires l.Ok() && InGrid(l, b) && Sound(l, b, w) && Enabled(w, OutTile(s))
    ensures s < 32 && |w.accs| == 32 && SubRow(4, s) < 4 && SubCol(4, s) < 8
    ensures (b.0 + 1) * 64 <= l.m && (b.1 + 1) * 64 <= l.n
    ensures TileHolds(w.accs[s], l.A(), l.B(), (b.0 * 4 + SubRow(4, s)) * 16, (b.1 * 8 + SubCol(4, s)) * 8, l.k)
  {
    hide SmemLaunch.A, SmemLaunch.B, TileHolds, SubRow, SubCol, Threads;
    SubInBlock(4, 4, s);
    BlockInC(l.m, 64, b.0);
    BlockInC(l.n, 64, b.1);
    assert TileAhead(l, b, w.accs, w.ks, Threads(32), s);
  }

  // ---------- every block gets to its end ----------

  /** Barriers, the end counted as one, that a block has yet to pass. */
  function SyncsLeft(l: SmemLaunch, w: Smem): int {
    match w.phase
    case Staging => 2 * (l.Steps() - w.ks) + 1
    case Multiplying => 2 * (l.Steps() - w.ks)
    case Storing => 1
    case Ended => 0
  }

  /** An upper bound on the steps a block can still take. */
  function Remaining(l: SmemLaunch, w: Smem): int {
    5000 * SyncsLeft(l, w) + |w.todoA| + |w.todoB| + |w.todo|
  }

  lemma StepCounts(l: SmemLaunch, b: BlockXY, w: Smem, e: Act)
    requires Sizes(l, w) && Enabled(w, e) && Sizes(l, Apply(l, b, w, e))
    ensures 0 <= Remaining(l, Apply(l, b, w, e)) < Remaining(l, w)
  {
    hide Threads, MulStep, Load, Position, AfterSync, Remaining;
    match e
    case PutA(idx) =>
      FewerPending(w.todoA, idx);
      FewerSteps(l, w, Apply(l, b, w, e));
    case PutB(idx) =>
      FewerPending(w.todoB, idx);
      FewerSteps(l, w, Apply(l, b, w, e));
    case MulTile(s) =>
      FewerPending(w.todo, s);
      FewerSteps(l, w, Apply(l, b, w, e));
    case OutTile(s) =>
      FewerPending(w.todo, s);
      FewerSteps(l, w, Apply(l, b, w, e));
    case Sync =>
      SyncCounts(l, w);
  }

  lemma FewerSteps(l: SmemLaunch, w: Smem, w': Smem)
    requires Sizes(l, w) && w'.phase == w.phase && w'.ks == w.ks
    requires |w'.todoA| + |w'.todoB| + |w'.todo| < |w.todoA| + |w.todoB| + |w.todo|
    ensures 0 <= Remaining(l, w') < Remaining(l, w)
  {
    hide Threads;
  }

  lemma SyncCounts(l: SmemLaunch, w: Smem)
    requires Sizes(l, w) && Enabled(w, Sync)
    ensures 0 <= Remaining(l, AfterSync(l, w)) < Remaining(l, w)
  {
    hide Threads;
    ThreadCount(32);
    ThreadCount(64 * 32);
    ThreadCount(32 * 64);
  }

  // ---------- the grid ----------

  ghost predicate GridSound(l: SmemLaunch, c: seq<int>, at: map<BlockXY, Smem>)
    requires l.Ok()
  {
    |c| == l.m * l.n && forall b :: InGrid(l, b) ==> b in at && Sound(l, b, at[b]) && Written(l, c, b, at[b])
  }

  lemma BlockThere(l: SmemLaunch, c: seq<int>, at: map<BlockXY, Smem>, b: BlockXY)
    requires l.Ok() && GridSound(l, c, at) && InGrid(l, b)
    ensures b in at && Sound(l, b, at[b]) && Written(l, c, b, at[b]) && Sizes(l, at[b])
  {
    hide Written, Slabs, AccsHold;
  }

  /** A step that leaves C alone. */
  lemma InnerStep(l: SmemLaunch, c: seq<int>, at: map<BlockXY, Smem>, b: BlockXY, e: Act)
    requires l.Ok() && GridSound(l, c, at) && InGrid(l, b) && Enabled(at[b], e) && !e.OutTile?
    ensures GridSound(l, c, at[b := Apply(l, b, at[b], e)])
  {
    hide Sound, SubShown, MulStep;
    StepSound(l, b, at[b], e);
    BlockThere(l, c, at, b);
  }

  /** A step that writes a tile: tiles already written stay written. */
  lemma OuterStep(l: SmemLaunch, before: seq<int>, c: seq<int>, at: map<BlockXY, Smem>, b: BlockXY, s: nat)
    requires l.Ok() && GridSound(l, before, at) && InGrid(l, b) && Enabled(at[b], OutTile(s))
    requires |c| == |before| && StillShown(before, c, l.P(), l.n) && SubShown(l, c, b, s)
    ensures GridSound(l, c, at[b := Apply(l, b, at[b], OutTile(s))])
  {
    hide Sound, SubShown, StillShown;
    StepSound(l, b, at[b], OutTile(s));
    var at' := at[b := Apply(l, b, at[b], OutTile(s))];
    forall b' | InGrid(l, b')
      ensures b' in at' && Sound(l, b', at'[b']) && Written(l, c, b', at'[b'])
    {
      StillWritten(l, before, c, b', at[b']);
    }
  }

  lemma StillWritten(l: SmemLaunch, before: seq<int>, c: seq<int>, b: BlockXY, w: Smem)
    requires l.Ok() && Written(l, before, b, w) && StillShown(before, c, l.P(), l.n)
    ensures Written(l, c, b, w)
  {
    hide TileShown, SmemLaunch.P, SubRow, SubCol;
    if w.phase == Storing || w.phase == Ended {
      forall s: nat | s < 32 && s !in w.todo
        ensures SubShown(l, c, b, s)
      {
        assert SubShown(l, before, b, s);
      }
    }
  }

  /** Once every block has ended, C is the product. */
  lemma AllWritten(l: SmemLaunch, c: seq<int>, at: map<BlockXY, Smem>)
    requires l.Ok() && GridSound(l, c, at) && forall b :: InGrid(l, b) && b in at ==> at[b].phase == Ended
    ensures View(c, 0, l.m, l.n) == l.P()
  {
    hide TileShown, SmemLaunch.P, View, GridSound;
    forall ti: nat, tj: nat | ti * 16 < l.m && tj * 8 < l.n
      ensures TileShown(c, l.P(), l.n, ti, tj)
    {
      TileWritten(l, c, at, ti, tj);
    }
    CSize(l, c, at);
    AllTilesShown(c, l.P(), l.m, l.n);
  }

  lemma CSize(l: SmemLaunch, c: seq<int>, at: map<BlockXY, Smem>)
    requires l.Ok() && GridSound(l, c, at)
    ensures |c| == l.m * l.n
  {}

  lemma TileWritten(l: SmemLaunch, c: seq<int>, at: map<BlockXY, Smem>, ti: nat, tj: nat)
    requires l.Ok() && GridSound(l, c, at) && (forall b :: InGrid(l, b) && b in at ==> at[b].phase == Ended)
    requires ti * 16 < l.m && tj * 8 < l.n
    ensures TileShown(c, l.P(), l.n, ti, tj)
  {
    hide TileShown, SmemLaunch.P, SubRow, SubCol, GridSound;
    var b := BlockOfTile(l, ti, tj);
    var s := SubNumber(4, 4, ti % 4, tj % 8);
    EndedShown(l, c, at, b, s);
  }

  lemma EndedShown(l: SmemLaunch, c: seq<int>, at: map<BlockXY, Smem>, b: BlockXY, s: nat)
    requires l.Ok() && GridSound(l, c, at) && (forall b :: InGrid(l, b) && b in at ==> at[b].phase == Ended) && InGrid(l, b) && s < 32
    ensures SubShown(l, c, b, s)
  {
    hide SubShown, Slabs, AccsHold, Threads;
    BlockThere(l, c, at, b);
  }

  lemma BlockOfTile(l: SmemLaunch, ti: nat, tj: nat) returns (b: BlockXY)
    requires l.m % 64 == 0 && l.n % 64 == 0 && ti * 16 < l.m && tj * 8 < l.n
    ensures InGrid(l, b) && b.0 * 4 + ti % 4 == ti && b.1 * 8 + tj % 8 == tj
  {
    TileBlock(l.m, 16, 4, ti);
    TileBlock(l.n, 8, 8, tj);
    b := (ti / 4, tj / 8);
  }

  /** Where a schedule takes the blocks. */
  function Scheduled(l: SmemLaunch, at: map<BlockXY, Smem>, schedule: seq<(BlockXY, Act)>): map<BlockXY, Smem> {
    if schedule == [] then at
    else
      var before := Scheduled(l, at, schedule[..|schedule| - 1]);
      var b, e := schedule[|schedule| - 1].0, schedule[|schedule| - 1].1;
      if InGrid(l, b) && b in before && Enabled(before[b], e) then before[b := Apply(l, b, before[b], e)] else before
  }

  class SmemGrid {
    const l: SmemLaunch
    const c: array<int>
    var at: map<BlockXY, Smem>

    ghost predicate Valid()
      requires l.Ok()
      reads this, c
    {
      GridSound(l, c[..], at)
    }

    /** The launch: C, and the shared memory of every block, arbitrary. */
    constructor (l: SmemLaunch, c: array<int>, at: map<BlockXY, Smem>)
      requires l.Ok() && c.Length == l.m * l.n && forall b :: InGrid(l, b) ==> b in at && AtStart(l, at[b])
      ensures this.l == l && this.c == c && Valid()
    {
      this.l, this.c, this.at := l, c, at;
      new;
      LaunchSound(l, c[..], at);
    }

    /** One step of one block. */
    method Step(b: BlockXY, e: Act)
      requires l.Ok() && Valid() && InGrid(l, b) && b in at && Enabled(at[b], e)
      modifies this, c
      ensures Valid() && at == old(at)[b := Apply(l, b, old(at)[b], e)]
    {
      hide GridSound, Apply, Enabled;
      if e.OutTile? {
        WriteOut(b, e.s);
      } else {
        InnerStep(l, c[..], at, b, e);
      }
      ghost var after := c[..];
      at := at[b := Apply(l, b, at[b], e)];
      assert c[..] == after;
    }

    /** The lanes of a warp write tile s of their block to C. */
    method WriteOut(b: BlockXY, s: nat)
      requires l.Ok() && Valid() && InGrid(l, b) && b in at && Enabled(at[b], OutTile(s))
      modifies c
      ensures GridSound(l, c[..], at[b := Apply(l, b, at[b], OutTile(s))])
    {
      hide GridSound, Apply, Sound, Sizes, TileHolds, TileShown, StillShown, OnlyTile, SubRow, SubCol, SmemLaunch.A, SmemLaunch.B, Enabled;
      BlockThere(l, c[..], at, b);
      TileComplete(l, b, at[b], s);
      ghost var before := c[..];
      CSize(l, before, at);
      var ti, tj := b.0 * 4 + SubRow(4, s), b.1 * 8 + SubCol(4, s);
      StoreTile(at[b].accs[s], c, l.A(), l.B(), l.m, l.k, l.n, ti, tj);
      StillItself(before, l.P(), l.n);
      StoredTileKeeps(before, before, c[..], l.P(), l.m, l.n, ti, tj);
      OuterStep(l, before, c[..], at, b, s);
    }

    /** Any interleaving: steps that are not due are skipped. */
    method Play(schedule: seq<(BlockXY, Act)>)
      requires l.Ok() && Valid()
      modifies this, c
      ensures Valid() && at == Scheduled(l, old(at), schedule)
    {
      hide GridSound, Apply, Enabled;
      assert schedule[..0] == [];
      for i := 0 to |schedule|
        invariant Valid() && at == Scheduled(l, old(at), schedule[..i])
      {
        assert schedule[..i + 1][..i] == schedule[..i];
        var b, e := schedule[i].0, schedule[i].1;
        if InGrid(l, b) && b in at && Enabled(at[b], e) {
          Step(b, e);
        }
      }
      assert schedule[..|schedule|] == schedule;
    }

    /** On to the end by arbitrary choices. */
    method RunOn()
      requires l.Ok() && Valid()
      modifies this, c
      ensures Valid() && forall b :: InGrid(l, b) && b in at ==> at[b].phase == Ended
    {
      hide GridSound, Apply, Enabled, Left, Running;
      ghost var bs := Listing(Blocks(l.m / 64, l.n / 64));
      while Running(l, at) != {}
        invariant Valid()
        decreases StepsLeft(Left(l, at), bs)
      {
        var b :| b in Running(l, at);
        RunningBlock(l, at, b);
        BlockThere(l, c[..], at, b);
        var e := AnyAct(l, at[b]);
        ghost var was := at;
        Step(b, e);
        GridCounts(l, c[..], was, at, b, e, bs);
      }
      AllEnded(l, at);
    }

    /** One of the steps a block can take. */
    method AnyAct(l: SmemLaunch, w: Smem) returns (e: Act)
      requires Sizes(l, w) && w.phase != Ended
      ensures Enabled(w, e)
    {
      if x :| x in w.todoA {
        e := PutA(x);
      } else if x :| x in w.todoB {
        e := PutB(x);
      } else if x :| x in w.todo {
        e := if w.phase == Multiplying then MulTile(x) else OutTile(x);
      } else {
        e := Sync;
      }
    }
  }

  lemma LaunchSound(l: SmemLaunch, c: seq<int>, at: map<BlockXY, Smem>)
    requires l.Ok() && |c| == l.m * l.n && forall b :: InGrid(l, b) ==> b in at && AtStart(l, at[b])
    ensures GridSound(l, c, at)
  {
    hide Sound, SubShown;
    forall b | InGrid(l, b)
      ensures Sound(l, b, at[b])
    {
      StartSound(l, b, at[b]);
    }
  }

  /** The blocks that have not ended. */
  function Running(l: SmemLaunch, at: map<BlockXY, Smem>): set<BlockXY> {
    set b | b in Blocks(l.m / 64, l.n / 64) && b in at && at[b].phase != Ended
  }

  lemma RunningBlock(l: SmemLaunch, at: map<BlockXY, Smem>, b: BlockXY)
    requires b in Running(l, at)
    ensures b in Blocks(l.m / 64, l.n / 64) && InGrid(l, b) && b in at && at[b].phase != Ended
  {}

  lemma AllEnded(l: SmemLaunch, at: map<BlockXY, Smem>)
    requires Running(l, at) == {}
    ensures forall b :: InGrid(l, b) && b in at ==> at[b].phase == Ended
  {
    forall b | InGrid(l, b) && b in at
      ensures at[b].phase == Ended
    {
      assert b == (b.0, b.1) && b in Blocks(l.m / 64, l.n / 64);
      assert b !in Running(l, at);
    }
  }

  /** The steps each block can still take. */
  ghost function Left(l: SmemLaunch, at: map<BlockXY, Smem>): map<BlockXY, int> {
    map b | b in at :: if Remaining(l, at[b]) >= 0 then Remaining(l, at[b]) else 0
  }

  lemma GridCounts(l: SmemLaunch, c: seq<int>, was: map<BlockXY, Smem>, at: map<BlockXY, Smem>, b: BlockXY, e: Act, bs: seq<BlockXY>)
    requires l.Ok() && GridSound(l, c, at) && InGrid(l, b) && b in was && b in bs && Sizes(l, was[b]) && Enabled(was[b], e)
    requires at == was[b := Apply(l, b, was[b], e)]
    ensures 0 <= StepsLeft(Left(l, at), bs) < StepsLeft(Left(l, was), bs)
  {
    hide GridSound, Apply, Remaining, Sizes, Enabled;
    BlockThere(l, c, at, b);
    StepCounts(l, b, was[b], e);
    assert Left(l, at) == Left(l, was)[b := Remaining(l, at[b])];
    FewerLeft(Left(l, was), b, Remaining(l, at[b]), bs);
    StepsNatural(Left(l, at), bs);
  }

  /** k_mma_gemm_smem: whatever the blocks, threads and warps have done so far, and however they go on, C
      ends as A B modulo 2^32. */
  method SmemGemmKernel(l: SmemLaunch, c: array<int>, start: map<BlockXY, Smem>, schedule: seq<(BlockXY, Act)>)
    requires l.Ok() && c.Length == l.m * l.n && forall b :: InGrid(l, b) ==> b in start && AtStart(l, start[b])
    modifies c
    ensures View(c[..], 0, l.m, l.n) == Product32(View(l.an, 0, l.m, l.k), View(l.bn, 0, l.k, l.n), l.m, l.k, l.n)
  {
    hide GridSound, View, Product32;
    var grid := new SmemGrid(l, c, start);
    grid.Play(schedule);
    grid.RunOn();
    AllWritten(l, c[..], grid.at);
  }
}
