/** What a NoisyGEMM search is meant to return, over arbitrary dimensions. */
module Search {
  import opened Words
  import opened Ring
  import opened Transcript

  /** One search: noised operands A (m x k) and B (k x n), block size r (the noise rank), hash tile
      th x tw, the keyed hash, the key and the target. */
  datatype Job = Job(a: Mat, b: Mat, m: nat, k: nat, n: nat, r: nat, th: nat, tw: nat,
                     blake: Blake, key: Digest, target: nat)

  predicate WellFormed(z: Job) {
    IsMat(z.a, z.m, z.k) && IsMat(z.b, z.k, z.n) && z.r > 0 && z.th > 0 && z.tw > 0
  }

  /** Hash tile (hi, wi) of the r x r block whose corner is (bi*r, bj*r). */
  datatype Tile = Tile(bi: nat, bj: nat, hi: nat, wi: nat)

  function Min(x: int, y: int): int { if x < y then x else y }

  /** Height and width of the block with corner i: r, less at the ragged edge. */
  function Extent(i: int, r: int, m: int): int { Min(i + r, m) - i }

  /** The tile lies fully inside its block. */
  predicate IsTile(z: Job, t: Tile) {
    && t.bi * z.r < z.m && t.bj * z.r < z.n
    && (t.hi + 1) * z.th <= Extent(t.bi * z.r, z.r, z.m)
    && (t.wi + 1) * z.tw <= Extent(t.bj * z.r, z.r, z.n)
  }

  function TopRow(z: Job, t: Tile): nat { t.bi * z.r + t.hi * z.th }

  function LeftCol(z: Job, t: Tile): nat { t.bj * z.r + t.wi * z.tw }

  /** The transcript after all full chunks of width r. */
  function Words16(z: Job, t: Tile): Block
    requires z.r > 0
  {
    TileTranscript(z.a, z.b, TopRow(z, t), LeftCol(z, t), z.th, z.tw, z.r, z.k / z.r)
  }

  /** _check_pow_target */
  predicate MeetsTarget(z: Job, words: Block) {
    Num256(z.blake(words, z.key)) <= z.target
  }

  predicate Wins(z: Job, t: Tile)
    requires z.r > 0
  {
    z.k >= z.r && IsTile(z, t) && MeetsTarget(z, Words16(z, t))
  }

  /** The reference's scan order: block rows, block columns, tile rows, tile columns. */
  predicate Before(t: Tile, u: Tile) {
    t.bi < u.bi || (t.bi == u.bi && (t.bj < u.bj || (t.bj == u.bj && (t.hi < u.hi || (t.hi == u.hi && t.wi < u.wi)))))
  }

  ghost predicate FirstWinner(z: Job, t: Tile)
    requires z.r > 0
  {
    Wins(z, t) && forall u :: Wins(z, u) ==> u == t || Before(t, u)
  }

  ghost predicate NoWinner(z: Job)
    requires z.r > 0
  {
    forall t :: !Wins(z, t)
  }

  lemma FirstWinnerUnique(z: Job, t: Tile, u: Tile)
    requires z.r > 0 && FirstWinner(z, t) && FirstWinner(z, u)
    ensures t == u
  {}

  /** OpenedBlock */
  datatype Opened = Opened(rows: seq<int>, cols: seq<int>, words: Block)

  function OpenedAt(z: Job, t: Tile): Opened
    requires z.r > 0
  {
    Opened(seq(z.th, y => TopRow(z, t) + y), seq(z.tw, x => LeftCol(z, t) + x), Words16(z, t))
  }

  datatype Option<+T> = None | Some(value: T)

  /** found and opened_block, as a search has to report them. */
  ghost predicate Reports(z: Job, found: bool, block: Option<Opened>)
    requires z.r > 0
  {
    if found then exists t :: FirstWinner(z, t) && block == Some(OpenedAt(z, t))
    else NoWinner(z)
  }

  /** Two searches of the same job report the same thing. */
  lemma ReportsUnique(z: Job, found: bool, block: Option<Opened>, found': bool, block': Option<Opened>)
    requires z.r > 0 && Reports(z, found, block) && Reports(z, found', block')
    ensures found == found' && (found ==> block == block')
  {
    if found && found' {
      var t :| FirstWinner(z, t) && block == Some(OpenedAt(z, t));
      var u :| FirstWinner(z, u) && block' == Some(OpenedAt(z, u));
      FirstWinnerUnique(z, t, u);
    }
  }

  /** What a search opens lies inside the operands, ragged edges included. */
  lemma OpenedInside(z: Job, block: Option<Opened>)
    requires z.r > 0 && Reports(z, true, block)
    ensures block.Some? && |block.value.rows| == z.th && |block.value.cols| == z.tw
    ensures forall y :: 0 <= y < z.th ==> 0 <= block.value.rows[y] < z.m
    ensures forall x :: 0 <= x < z.tw ==> 0 <= block.value.cols[x] < z.n
  {
    hide IsTile, Words16, MeetsTarget;
    var t :| FirstWinner(z, t) && block == Some(OpenedAt(z, t));
    TileBounds(z, t);
  }

  lemma TileBounds(z: Job, t: Tile)
    requires IsTile(z, t)
    ensures TopRow(z, t) + z.th <= z.m && LeftCol(z, t) + z.tw <= z.n
  {
    assert (t.hi + 1) * z.th == t.hi * z.th + z.th;
    assert (t.wi + 1) * z.tw == t.wi * z.tw + z.tw;
  }

  // ---------- monotonicity in the target ----------

  /** A harder job: the same with a smaller target. */
  ghost predicate Harder(z: Job, e: Job) {
    e == z.(target := e.target) && z.target <= e.target
  }

  /** Raising the target never loses a find and never moves the opened tile later in scan order. */
  lemma EasierTargetFindsSooner(z: Job, e: Job, t: Tile)
    requires z.r > 0 && Harder(z, e) && FirstWinner(z, t)
    ensures Wins(e, t)
    ensures forall u :: FirstWinner(e, u) ==> u == t || Before(u, t)
  {}

  /** There is a hash tile to look at exactly when the first block has room for one. */
  lemma SomeTile(z: Job)
    requires WellFormed(z)
    ensures (exists t :: IsTile(z, t)) <==> (Min(z.r, z.m) >= z.th && Min(z.r, z.n) >= z.tw)
  {
    hide IsTile;
    if Min(z.r, z.m) >= z.th && Min(z.r, z.n) >= z.tw {
      FirstTile(z);
    }
    if t :| IsTile(z, t) {
      TileNeedsRoom(z, t);
    }
  }

  lemma FirstTile(z: Job)
    requires WellFormed(z) && Min(z.r, z.m) >= z.th && Min(z.r, z.n) >= z.tw
    ensures IsTile(z, Tile(0, 0, 0, 0))
  {}

  lemma TileNeedsRoom(z: Job, t: Tile)
    requires WellFormed(z) && IsTile(z, t)
    ensures Min(z.r, z.m) >= z.th && Min(z.r, z.n) >= z.tw
  {
    AtLeastOne(t.hi, z.th);
    AtLeastOne(t.wi, z.tw);
  }

  lemma AtLeastOne(i: nat, s: nat)
    ensures (i + 1) * s >= s
  {
    assert (i + 1) * s == i * s + s;
  }

  /** POW_TARGET_EASIEST finds exactly when some full tile and some full chunk exist. */
  lemma EasiestTargetFinds(z: Job)
    requires WellFormed(z) && z.target == ShlLimbs(1, 8) - 1
    ensures (exists t :: Wins(z, t)) <==> (z.k >= z.r && Min(z.r, z.m) >= z.th && Min(z.r, z.n) >= z.tw)
  {
    hide IsTile, Words16, ShlLimbs, LittleEndian;
    SomeTile(z);
    forall t
      ensures MeetsTarget(z, Words16(z, t))
    {
      LittleEndianBound(z.blake(Words16(z, t), z.key), 8);
    }
    if z.k >= z.r {
      if t :| IsTile(z, t) {
        assert Wins(z, t);
      }
    }
  }
}
