/** The host searches over stacked attempts: mining launch, batched scan, emission. */
module GpuSearch {
  import opened Bits
  import opened Words
  import opened Transcript
  import opened Search
  import opened Pipeline
  import opened FusedKernel
  import opened Mining
  import opened Scan
  import opened ScanKernels

  /** The scan arguments that go with a mining launch. */
  function ShapeOf(u: Launch): Shape { Shape(u.m, u.n, 128, TileH(u), TileW(u)) }

  lemma ShapeLive(u: Launch)
    requires ValidLaunch(u)
    ensures Live(ShapeOf(u)) && ShapeOf(u).Total() == PerAttempt(u) && ShapeOf(u).STCols() == TileCols(u)
  {
    var s := ShapeOf(u);
    LiveDigits(s);
    Reorder(s.TI(), s.TJ(), s.SH(), s.SW());
  }

  /** The scan's address of a tile is the mining kernel's address of the same tile. */
  lemma TilePosition(u: Launch, att: nat, idx: nat)
    requires ValidLaunch(u) && att < u.natt && Live(ShapeOf(u)) && idx < ShapeOf(u).Total()
    ensures var s, t := ShapeOf(u), TileAt(ShapeOf(u), idx);
            var row, col := t.bi * s.SH() + t.hi, t.bj * s.SW() + t.wi;
            && row < TileRows(u) && col < TileCols(u)
            && s.TJ() > 0 && s.SH() > 0 && s.SW() > 0
            && Times(att, s.Total()) + TileAddress(s, idx) == Flat(u, att, row, col)
  {
    hide IndexToTile, TileRows, TileCols;
    var s, t := ShapeOf(u), TileAt(ShapeOf(u), idx);
    ShapeLive(u);
    LiveDigits(s);
    EncodeDecode(idx, s.TI(), s.TJ(), s.SH(), s.SW());
    NestBelow(t.bi, s.TI(), s.SH(), t.hi);
    NestBelow(t.bj, s.TJ(), s.SW(), t.wi);
    assert TileRows(u) == u.m / TileH(u) by { RowsOf(u); }
  }

  lemma RowsOf(u: Launch)
    ensures TileRows(u) == u.m / TileH(u)
  {}

  /** Job z is attempt att of the launch. */
  predicate AttemptOf(u: Launch, att: nat, z: Job) {
    && att < |u.an| && att < |u.bn| && z.a == u.an[att] && z.b == u.bn[att] && z.m == u.m && z.k == u.k && z.n == u.n
    && z.r == 128 && z.th == TileH(u) && z.tw == TileW(u)
  }

  lemma TileMined(u: Launch, tr0: seq<Block>, z: Job, att: nat, idx: nat)
    requires ValidLaunch(u) && u.kernel != Gemm && att < u.natt && AttemptOf(u, att, z)
    requires |tr0| == u.natt * PerAttempt(u) && forall x :: 0 <= x < |tr0| ==> tr0[x] == Zeros()
    requires Live(ShapeOf(u)) && idx < ShapeOf(u).Total() && Times(att, ShapeOf(u).Total()) + ShapeOf(u).Total() <= |tr0|
    ensures TileBlock(ShapeOf(u), Mined(u, tr0), Times(att, ShapeOf(u).Total()), idx) == Words16(z, TileAt(ShapeOf(u), idx))
  {
    hide IndexToTile, TileRows, TileCols, TileTranscript, ValidLaunch, Flat, PerAttempt, TileAt, Mined;
    var s, t := ShapeOf(u), TileAt(ShapeOf(u), idx);
    LiveDigits(s);
    TilePosition(u, att, idx);
    MinedFromZeros(u, tr0, att, t.bi * s.SH() + t.hi, t.bj * s.SW() + t.wi);
    TileCorner(z, s, t);
    assert Mined(u, tr0)[Times(att, s.Total()) + TileAddress(s, idx)] == Words16(z, t);
  }

  /** A launch over zeroed transcripts fills the slice of every attempt for the scan. */
  lemma SliceMined(u: Launch, tr0: seq<Block>, z: Job, att: nat)
    requires ValidLaunch(u) && u.kernel != Gemm && att < u.natt && AttemptOf(u, att, z)
    requires |tr0| == u.natt * PerAttempt(u) && forall x :: 0 <= x < |tr0| ==> tr0[x] == Zeros()
    ensures Live(ShapeOf(u)) && Times(att, ShapeOf(u).Total()) + ShapeOf(u).Total() <= |tr0|
    ensures SliceHolds(z, ShapeOf(u), Mined(u, tr0), Times(att, ShapeOf(u).Total()))
  {
    hide TileAt, Words16, TileBlock, Mined, TileRows, TileCols;
    ShapeLive(u);
    SliceInBuffer(att, u.natt, PerAttempt(u));
    var s := ShapeOf(u);
    forall idx | 0 <= idx < s.Total()
      ensures TileBlock(s, Mined(u, tr0), Times(att, s.Total()), idx) == Words16(z, TileAt(s, idx))
    {
      TileMined(u, tr0, z, att, idx);
    }
  }

  // ---------- prl_mine2_search ----------

  /** The stacked operands, keys and target handed to the search. */
  datatype Stack = Stack(an: seq<int>, bn: seq<int>, m: nat, k: nat, n: nat, keys: seq<Digest>, target: Digest) {
    predicate Sized() {
      |keys| > 0 && |an| == |keys| * (m * k) && |bn| == |keys| * (k * n)
    }

    predicate Divisible() { m % 128 == 0 && n % 128 == 0 && k % 128 == 0 }
  }

  /** Attempt q as a search job. */
  function JobOf(blake: Blake, x: Stack, q: nat): Job
    requires x.Sized() && q < |x.keys|
  {
    SliceInBuffer(q, |x.keys|, x.m * x.k);
    SliceInBuffer(q, |x.keys|, x.k * x.n);
    Job(View(x.an, Times(q, x.m * x.k), x.m, x.k), View(x.bn, Times(q, x.k * x.n), x.k, x.n),
        x.m, x.k, x.n, 128, 2, 64, blake, x.keys[q], Num256(x.target))
  }

  function JobsOf(blake: Blake, x: Stack): (jobs: seq<Job>)
    requires x.Sized()
    ensures |jobs| == |x.keys| && forall q :: 0 <= q < |jobs| ==> jobs[q] == JobOf(blake, x, q) && jobs[q].r == 128
  {
    hide View;
    seq(|x.keys|, q requires 0 <= q < |x.keys| => JobOf(blake, x, q))
  }

  /** The launch of k_mine2 over the stack. */
  function LaunchOf(blake: Blake, x: Stack): Launch
    requires x.Sized()
  {
    hide View;
    var jobs := JobsOf(blake, x);
    Launch(Mine2, |x.keys|, x.m, x.k, x.n, seq(|jobs|, q requires 0 <= q < |jobs| => jobs[q].a),
           seq(|jobs|, q requires 0 <= q < |jobs| => jobs[q].b), x.an, x.bn)
  }

  lemma LaunchIsValid(blake: Blake, x: Stack)
    requires x.Sized() && x.Divisible() && x.m > 0 && x.k > 0 && x.n > 0
    ensures ValidLaunch(LaunchOf(blake, x))
  {
    hide View, Layout, Num256;
    var u := LaunchOf(blake, x);
    forall t | 0 <= t < u.natt
      ensures Layout(u.ga, t * (u.m * u.k), u.an[t], u.m, u.k) && Layout(u.gb, t * (u.k * u.n), u.bn[t], u.k, u.n)
    {
      SliceInBuffer(t, |x.keys|, x.m * x.k);
      SliceInBuffer(t, |x.keys|, x.k * x.n);
      ViewIsLayout(x.an, Times(t, x.m * x.k), x.m, x.k);
      ViewIsLayout(x.bn, Times(t, x.k * x.n), x.k, x.n);
    }
  }

  function ZeroTranscriptBuffer(count: nat): (tr: seq<Block>)
    ensures |tr| == count && forall x :: 0 <= x < |tr| ==> tr[x] == Zeros()
  {
    seq(count, _ => Zeros())
  }

  /** Tiles of one attempt: (m/2) * (n/64). */
  function TilesPerAttempt(x: Stack): nat { (x.m / 2) * (x.n / 64) }

  lemma SlicesMined(blake: Blake, x: Stack, tr0: seq<Block>)
    requires x.Sized() && x.Divisible() && x.m > 0 && x.k > 0 && x.n > 0 && ValidLaunch(LaunchOf(blake, x))
    requires |tr0| == |x.keys| * TilesPerAttempt(x) && forall p :: 0 <= p < |tr0| ==> tr0[p] == Zeros()
    ensures |tr0| == LaunchOf(blake, x).natt * PerAttempt(LaunchOf(blake, x))
    ensures Live(Shape(x.m, x.n, 128, 2, 64)) && Shape(x.m, x.n, 128, 2, 64).Total() == TilesPerAttempt(x)
    ensures SlicesHold(JobsOf(blake, x), Shape(x.m, x.n, 128, 2, 64), Mined(LaunchOf(blake, x), tr0))
    ensures JobsMatch(blake, JobsOf(blake, x), x.keys, x.target)
  {
    hide View, Mined, SliceHolds, Num256, ValidLaunch;
    var u, jobs, s := LaunchOf(blake, x), JobsOf(blake, x), Shape(x.m, x.n, 128, 2, 64);
    ShapeLive(u);
    forall q | 0 <= q < |jobs|
      ensures SliceInside(q, |jobs|, s, Mined(u, tr0)) && SliceHolds(jobs[q], s, Mined(u, tr0), Times(q, s.Total()))
    {
      SliceMined(u, tr0, jobs[q], q);
    }
  }

  /** prl_mine2_search (natt below 1 counts as 1), for every admissible stack and every thread order: what it reports is right
      exactly when ScanSafe holds of the attempts, in particular whenever all tiles together stay within
      the sentinel. */
  method Mine2Search(mem: ScanMemory, blake: Blake, x: Stack, natt: int, threads: nat) returns (rc: int)
    requires x.m > 0 && x.k > 0 && x.n > 0 && |x.keys| == if natt < 1 then 1 else natt
    requires x.Divisible() ==> x.Sized() && threads >= |x.keys| * TilesPerAttempt(x)
    modifies mem
    ensures rc == if x.Divisible() then 0 else 2
    ensures rc == 0 ==> mem.foundAttempt >= -1 && Searchable(blake, x)
    ensures rc == 0 ==>
      (ReportRight(JobsOf(blake, x), mem.foundAttempt, mem.aRow, mem.bCol, mem.trOut) <==> ScanSafe(JobsOf(blake, x), ScanShapeOf(x)))
    ensures rc == 0 && |x.keys| * TilesPerAttempt(x) <= SENTINEL ==>
      ReportRight(JobsOf(blake, x), mem.foundAttempt, mem.aRow, mem.bCol, mem.trOut)
    ensures rc == 0 && |x.keys| * TilesPerAttempt(x) > SENTINEL && NoAttempt(JobsOf(blake, x)) ==> mem.foundAttempt >= 0
  {
    hide ReportRight, ScanSafe, NoAttempt, Mined, SlicesHold, JobsMatch, ValidLaunch, JobsOf, Searchable;
    if x.m % 128 != 0 || x.n % 128 != 0 || x.k % 128 != 0 {
      return 2;
    }
    LaunchIsValid(blake, x);
    var tr := ZeroTranscriptBuffer(|x.keys| * TilesPerAttempt(x));
    SlicesMined(blake, x, tr);
    tr := Mined(LaunchOf(blake, x), tr);
    StackIsSearchable(blake, x);
    mem.ScanBatch(blake, JobsOf(blake, x), tr, x.keys, x.target, ScanShapeOf(x), threads);
    return 0;
  }

  function ScanShapeOf(x: Stack): Shape { Shape(x.m, x.n, 128, 2, 64) }

  /** The attempts of the stack are search jobs of its shape. */
  ghost predicate Searchable(blake: Blake, x: Stack) {
    x.Sized() && Live(ScanShapeOf(x)) && Shaped(JobsOf(blake, x), ScanShapeOf(x)) && ScanShapeOf(x).Total() == TilesPerAttempt(x)
  }

  lemma StackIsSearchable(blake: Blake, x: Stack)
    requires x.Sized() && x.Divisible() && x.m > 0 && x.k > 0 && x.n > 0
    ensures Searchable(blake, x)
  {
    hide View, Num256;
    LaunchIsValid(blake, x);
    ShapeLive(LaunchOf(blake, x));
    forall z | z in JobsOf(blake, x)
      ensures z.k >= z.r && ScanShapeOf(x) == Shape(z.m, z.n, z.r, z.th, z.tw)
    {
      var q :| 0 <= q < |JobsOf(blake, x)| && JobsOf(blake, x)[q] == z;
      assert z == JobOf(blake, x, q);
    }
  }

  // ---------- exactly how many attempts a search can take ----------

  /** Operand sizes and a number of attempts a caller may ask for. */
  datatype Request = Request(m: nat, k: nat, n: nat, natt: nat) {
    predicate Admissible() { m > 0 && k > 0 && n > 0 && m % 128 == 0 && k % 128 == 0 && n % 128 == 0 && natt > 0 }

    function Tiles(): nat { natt * ((m / 2) * (n / 64)) }
  }

  predicate Serves(x: Stack, q: Request) {
    x.Sized() && x.m == q.m && x.k == q.k && x.n == q.n && |x.keys| == q.natt
  }

  /** Every search of the request is reported right, whatever the hash, operands, keys and target. */
  ghost predicate AlwaysRight(q: Request)
    requires q.Admissible()
  {
    forall blake: Blake, x: Stack :: Serves(x, q) ==> SearchedRight(blake, x)
  }

  ghost predicate SearchedRight(blake: Blake, x: Stack)
    requires x.Sized() && x.Divisible() && x.m > 0 && x.k > 0 && x.n > 0
  {
    StackIsSearchable(blake, x);
    ScanSafe(JobsOf(blake, x), ScanShapeOf(x))
  }

  /** A request is served right for all inputs if and only if its tiles stay within the sentinel. */
  lemma SentinelIsTheBound(q: Request)
    requires q.Admissible()
    ensures AlwaysRight(q) <==> q.Tiles() <= SENTINEL
  {
    hide JobsOf, ScanSafe, NoAttempt;
    if q.Tiles() <= SENTINEL {
      forall blake: Blake, x: Stack | Serves(x, q)
        ensures SearchedRight(blake, x)
      {
        StackIsSearchable(blake, x);
        SafeWithinSentinel(JobsOf(blake, x), ScanShapeOf(x));
      }
    } else {
      HopelessLoses(q);
      StackIsSearchable(NeverZero(), HopelessStack(q));
      NoWinnerUnsafe(JobsOf(NeverZero(), HopelessStack(q)), ScanShapeOf(HopelessStack(q)));
      assert !SearchedRight(NeverZero(), HopelessStack(q));
    }
  }

  lemma NoWinnerUnsafe(jobs: seq<Job>, s: Shape)
    requires Live(s) && Shaped(jobs, s) && NoAttempt(jobs)
    ensures ScanSafe(jobs, s) <==> |jobs| * s.Total() <= SENTINEL
  {}

  /** A hash that is never zero. */
  function NeverZero(): Blake {
    (_, _) => [1, 0, 0, 0, 0, 0, 0, 0]
  }

  /** Zero operands and keys under the target zero. */
  function HopelessStack(q: Request): Stack {
    Stack(seq(q.natt * (q.m * q.k), _ => 0), seq(q.natt * (q.k * q.n), _ => 0), q.m, q.k, q.n,
          seq(q.natt, _ => [0, 0, 0, 0, 0, 0, 0, 0]), [0, 0, 0, 0, 0, 0, 0, 0])
  }

  lemma HopelessLoses(q: Request)
    requires q.Admissible()
    ensures Serves(HopelessStack(q), q) && NoAttempt(JobsOf(NeverZero(), HopelessStack(q)))
  {
    hide View, Num256, NeverZero, NoWinner;
    var x := HopelessStack(q);
    var jobs := JobsOf(NeverZero(), x);
    forall p | 0 <= p < |jobs|
      ensures NoWinner(jobs[p])
    {
      assert jobs[p] == JobOf(NeverZero(), x, p);
      NothingMeets(jobs[p], x.target);
    }
  }

  lemma NothingMeets(z: Job, zero: Digest)
    requires z.r > 0 && z.blake == NeverZero() && z.target == Num256(zero) && zero == [0, 0, 0, 0, 0, 0, 0, 0]
    ensures NoWinner(z)
  {
    hide Words16, Num256, IsTile;
    OneAboveZero();
  }

  lemma OneAboveZero()
    ensures Num256([1, 0, 0, 0, 0, 0, 0, 0]) > Num256([0, 0, 0, 0, 0, 0, 0, 0])
  {
    var one: Digest, zero: Digest := [1, 0, 0, 0, 0, 0, 0, 0], [0, 0, 0, 0, 0, 0, 0, 0];
    LimbsLeIsNumeric(one, zero, 8);
    LimbsFromTop(one, zero, 7);
  }

  lemma {:induction false} LimbsFromTop(d: Digest, t: Digest, n: nat)
    requires n <= 7 && (forall i :: 1 <= i < 8 ==> d[i] == t[i]) && d[0] > t[0]
    ensures !LimbsLe(d, t, n + 1)
  {
    if n > 0 {
      LimbsFromTop(d, t, n - 1);
    }
  }

  function TooMany(): Request { Request(2048, 128, 2048, 65279) }

  /** A search at which the code fails: 65279 attempts of 2048 x 128 x 2048, which a grid of 16 x 16 x 65279
      blocks can launch, 129 tiles more than the sentinel, none of them winning, and a find reported. */
  method FalseFind(mem: ScanMemory, threads: nat) returns (rc: int)
    requires threads >= TooMany().Tiles()
    modifies mem
    ensures TooMany().Tiles() == SENTINEL + 129 && Serves(HopelessStack(TooMany()), TooMany())
    ensures rc == 0 && NoAttempt(JobsOf(NeverZero(), HopelessStack(TooMany()))) && mem.foundAttempt >= 0
  {
    hide NoAttempt, JobsOf, ReportRight, ScanSafe, Searchable, HopelessStack;
    HopelessLoses(TooMany());
    rc := Mine2Search(mem, NeverZero(), HopelessStack(TooMany()), 65279, threads);
  }

  /** What the search announces is what the reference's search of that attempt opens, and an attempt
      passed over is one the reference does not find. */
  lemma AgreesWithReference(jobs: seq<Job>, att: int, aRow: int, bCol: int, words: Block, q: nat, found: bool, block: Option<Opened>)
    requires forall z :: z in jobs ==> z.r > 0
    requires FirstAttempt(jobs, att, aRow, bCol, words) && q <= att && Reports(jobs[q], found, block)
    ensures found <==> q == att
    ensures q == att ==>
      block == Some(Opened(seq(jobs[att].th, y => aRow + y), seq(jobs[att].tw, x => bCol + x), words))
  {
    hide Wins, Words16, TileTranscript;
    if q == att {
      var z := jobs[att];
      var t :| FirstWinner(z, t) && aRow == TopRow(z, t) && bCol == LeftCol(z, t) && words == Words16(z, t);
      if found {
        var u :| FirstWinner(z, u) && block == Some(OpenedAt(z, u));
        FirstWinnerUnique(z, t, u);
        assert seq(z.th, y => TopRow(z, t) + y) == seq(z.th, y => aRow + y);
        assert seq(z.tw, x => LeftCol(z, t) + x) == seq(z.tw, x => bCol + x);
      }
    }
  }
}
