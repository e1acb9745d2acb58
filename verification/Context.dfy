/** The persistent mining context: device buffers reused by every call, key buffers that grow, and a
    recorded graph that is replayed. */
module Context {
  import opened Words
  import opened Transcript
  import opened Search
  import opened Denoise
  import opened Noise
  import opened Pipeline
  import opened FusedKernel
  import opened Mining
  import opened Scan
  import opened ScanKernels
  import opened GpuSearch
  import opened NoiseGpu

  /** "A_tensor" and "B_tensor", zero-padded to 32 bytes, as little-endian words. */
  const SEED_A: Seed := [0x65745f41, 0x726f736e, 0, 0, 0, 0, 0, 0]
  const SEED_B: Seed := [0x65745f42, 0x726f736e, 0, 0, 0, 0, 0, 0]

  /** The seeds are the ASCII letters of their names, padded with zero bytes. */
  lemma SeedsSpell(x: nat)
    requires x < 32
    ensures DigestByte(SEED_A, x) == if x < 8 then "A_tensor"[x] as int else 0
    ensures DigestByte(SEED_B, x) == if x < 8 then "B_tensor"[x] as int else 0
  {
    hide Bits.Pow2, DigestByte;
    var q, k := x / 4, x % 4;
    assert x == 4 * q + k;
    BytePowers();
    ByteOfWord(SEED_A, q, k);
    ByteOfWord(SEED_B, q, k);
    if x < 8 {
      SeedLetters(x, 8 * k);
    } else {
      PaddingIsZero(q);
      NothingOver(Bits.Pow2(8 * k));
    }
  }

  lemma PaddingIsZero(q: nat)
    requires 2 <= q < 8
    ensures SEED_A[q] == 0 && SEED_B[q] == 0
  {}

  lemma NothingOver(p: nat)
    requires p >= 1
    ensures 0 / p % 256 == 0
  {}

  /** A, B, and "_tensor" in ASCII. */
  lemma SeedLetters(x: nat, shift: nat)
    requires x < 8 && shift == 8 * (x % 4) && Bits.Pow2(0) == 1 && Bits.Pow2(8) == 0x100 && Bits.Pow2(16) == 0x1_0000 && Bits.Pow2(24) == 0x100_0000
    ensures SEED_A[x / 4] / Bits.Pow2(shift) % 256 == "A_tensor"[x] as int
    ensures SEED_B[x / 4] / Bits.Pow2(shift) % 256 == "B_tensor"[x] as int
  {
    hide Bits.Pow2;
    if x == 0 {
      assert 0x65745f41 / 1 % 256 == 'A' as int && 0x65745f42 / 1 % 256 == 'B' as int;
    } else if x == 1 {
      assert 0x65745f41 / 0x100 % 256 == '_' as int && 0x65745f42 / 0x100 % 256 == '_' as int;
    } else if x == 2 {
      assert 0x65745f41 / 0x1_0000 % 256 == 't' as int && 0x65745f42 / 0x1_0000 % 256 == 't' as int;
    } else if x == 3 {
      assert 0x65745f41 / 0x100_0000 % 256 == 'e' as int && 0x65745f42 / 0x100_0000 % 256 == 'e' as int;
    } else if x == 4 {
      assert 0x726f736e / 1 % 256 == 'n' as int;
    } else if x == 5 {
      assert 0x726f736e / 0x100 % 256 == 's' as int;
    } else if x == 6 {
      assert 0x726f736e / 0x1_0000 % 256 == 'o' as int;
    } else {
      assert x == 7 && 0x726f736e / 0x100_0000 % 256 == 'r' as int;
    }
  }

  /** Threads of a launch of 256-thread blocks that covers n threads. */
  function Launched(n: nat): (t: nat)
    ensures t >= n
  {
    (n + 255) / 256 * 256
  }

  /** The recorded graph: the attempts it runs and the key buffers whose addresses it has captured. */
  datatype BatchGraph = BatchGraph(count: nat, keysA: array<Digest>, keysB: array<Digest>)

  /** One call's operands as flat buffers. */
  datatype Inputs = Inputs(a: seq<int>, b: seq<int>)

  /** Noise factors as flat buffers. */
  datatype FlatFactors = FlatFactors(eal: seq<int>, ear: seq<int>, ebl: seq<int>, ebr: seq<int>)

  datatype Dims = Dims(m: nat, k: nat, n: nat) {

    /** What create checks. */
    predicate Divisible() { m % 128 == 0 && k % 128 == 0 && n % 128 == 0 }

    /** What a run needs on top: a non-empty grid, and tiles numbered by an int. */
    predicate Ok() {
      Divisible() && m > 0 && k > 0 && n > 0 && (m / 16) * (n / 16) < 0x8000_0000
    }

    /** The tiles of an attempt stay within the scan's sentinel. */
    predicate Safe() { Ok() && (m / 16) * (n / 16) <= SENTINEL }

    predicate Fits(x: Inputs) { |x.a| == m * k && |x.b| == k * n }

    predicate FitsFactors(f: FlatFactors) {
      |f.eal| == m * 128 && |f.ear| == 128 * k && |f.ebl| == k * 128 && |f.ebr| == 128 * n
    }

    function ScanShape(): Shape { Shape(m, n, 128, 16, 16) }
  }

  /** The search a call with explicit noise amounts to. */
  function CallJob(blake: Blake, d: Dims, x: Inputs, f: Factors, key: Digest, target: Digest): Job
    requires d.Fits(x)
  {
    JobOfRun(View(x.a, 0, d.m, d.k), View(x.b, 0, d.k, d.n), f, d.m, d.k, d.n, 128, 16, 16, blake, key, Num256(target))
  }

  function FactorsOf(d: Dims, f: FlatFactors): Factors
    requires d.FitsFactors(f)
  {
    Factors(View(f.eal, 0, d.m, 128), View(f.ear, 0, 128, d.k), View(f.ebl, 0, d.k, 128), View(f.ebr, 0, 128, d.n))
  }

  /** The reference generator's factors for a pair of keys. */
  function KeyedFactors(blake: Blake, d: Dims, keyA: Digest, keyB: Digest): Factors
    requires d.m >= 128 && d.k >= 128 && d.n >= 128
  {
    Generate(GPU, blake, SEED_A, SEED_B, keyA, keyB, d.m, d.k, d.n).value
  }

  lemma ShapeTotal(d: Dims)
    requires d.Ok()
    ensures Live(d.ScanShape()) && d.ScanShape().Total() == (d.m / 16) * (d.n / 16)
  {
    LiveDigits(d.ScanShape());
    var s := d.ScanShape();
    Reorder(s.TI(), s.TJ(), s.SH(), s.SW());
  }

  /** Within the sentinel what a run reports is the outcome of its search. */
  lemma ReportedWithin(d: Dims, z: Job, found: int, aRow: int, bCol: int, words: Block)
    requires d.Safe() && Reported(z, d.ScanShape(), found, aRow, bCol, words)
    ensures Outcome(z, found, aRow, bCol, words)
  {
    hide Outcome, ScanSafe, Shaped;
    ShapeTotal(d);
  }

  lemma BatchReportedWithin(d: Dims, jobs: seq<Job>, found: int, att: int, aRow: int, bCol: int, words: Block, stale: Block)
    requires d.Safe() && BatchReported(jobs, d.ScanShape(), found, att, aRow, bCol, words, stale)
    ensures GraphReports(jobs, |jobs|, found, att, aRow, bCol, words, stale)
  {
    hide GraphReports, ScanSafe, Shaped;
    ShapeTotal(d);
  }

  lemma AtLeast128(d: Dims)
    requires d.Ok()
    ensures d.m >= 128 && d.k >= 128 && d.n >= 128
  {}

  /** The search a keyed call amounts to: noise from the two keys, keyA again for the proof of work. */
  function KeyedJob(blake: Blake, d: Dims, x: Inputs, keyA: Digest, keyB: Digest, target: Digest): Job
    requires d.Ok() && d.Fits(x)
  {
    CallJob(blake, d, x, KeyedFactors(blake, d, keyA, keyB), keyA, target)
  }

  function KeyedJobs(blake: Blake, d: Dims, x: Inputs, keysA: seq<Digest>, keysB: seq<Digest>, count: nat, target: Digest): (jobs: seq<Job>)
    requires d.Ok() && d.Fits(x) && count <= |keysA| && count <= |keysB|
    ensures |jobs| == count
    ensures forall i :: 0 <= i < count ==> jobs[i] == KeyedJob(blake, d, x, keysA[i], keysB[i], target)
  {
    hide View, Num256;
    seq(count, i requires 0 <= i < count => KeyedJob(blake, d, x, keysA[i], keysB[i], target))
  }

  /** A replayed batch, too, is a function of its jobs. */
  lemma BatchOutcomeUnique(jobs: seq<Job>, found: int, att: int, aRow: int, bCol: int, words: Block, stale: Block,
                           found': int, att': int, aRow': int, bCol': int, words': Block, stale': Block)
    requires forall q :: 0 <= q < |jobs| ==> jobs[q].r > 0
    requires GraphReports(jobs, |jobs|, found, att, aRow, bCol, words, stale)
    requires GraphReports(jobs, |jobs|, found', att', aRow', bCol', words', stale')
    ensures found == found' && att == att' && aRow == aRow' && bCol == bCol' && (found == 1 ==> words == words')
  {
    hide AnnouncesTile, NoWinner;
    if found' == 1 {
      GraphAgreesWithBatch(jobs, found, att, aRow, bCol, words, stale, att', aRow', bCol', words');
    } else {
      GraphAgreesWithBatch(jobs, found, att, aRow, bCol, words, stale, -1, -1, -1, words');
    }
  }

  lemma BatchesAgree(d: Dims, jobs: seq<Job>, found: int, att: int, aRow: int, bCol: int, words: Block, stale: Block,
                     found': int, att': int, aRow': int, bCol': int, words': Block, stale': Block)
    requires d.Safe() && BatchReported(jobs, d.ScanShape(), found, att, aRow, bCol, words, stale)
    requires BatchReported(jobs, d.ScanShape(), found', att', aRow', bCol', words', stale')
    ensures found == found' && att == att' && aRow == aRow' && bCol == bCol' && (found == 1 ==> words == words')
  {
    hide GraphReports, ScanSafe, Shaped;
    BatchReportedWithin(d, jobs, found, att, aRow, bCol, words, stale);
    BatchReportedWithin(d, jobs, found', att', aRow', bCol', words', stale');
    BatchOutcomeUnique(jobs, found, att, aRow, bCol, words, stale, found', att', aRow', bCol', words', stale');
  }

  method Upload(dst: array<int>, src: seq<int>)
    requires dst.Length == |src|
    modifies dst
    ensures dst[..] == src
  {
    for i := 0 to |src|
      invariant dst[..i] == src[..i]
    {
      dst[i] := src[i];
    }
  }

  method UploadKeys(dst: array<Digest>, src: seq<Digest>, count: nat)
    requires count <= dst.Length && count <= |src|
    modifies dst
    ensures dst[..count] == src[..count]
  {
    for i := 0 to count
      invariant dst[..i] == src[..i]
    {
      dst[i] := src[i];
    }
  }

  method Clear(dst: array<int>)
    modifies dst
    ensures forall x :: 0 <= x < dst.Length ==> dst[x] == 0
  {
    for i := 0 to dst.Length
      invariant forall x :: 0 <= x < i ==> dst[x] == 0
    {
      dst[i] := 0;
    }
  }

  class PrlMineCtx {
    const d: Dims
    const blake: Blake
    const dA: array<int>
    const dB: array<int>
    const dEAL: array<int>
    const dEAR: array<int>
    const dEBL: array<int>
    const dEBR: array<int>
    const dAn: array<int>
    const dBn: array<int>
    const dU: array<int>
    const mem: ScanMemory       // dBest, dF, dFoundAttempt, dAR, dBC, dTrOut
    var dTr: seq<Block>
    var dKey: Digest
    var dKeyB: Digest
    var dTgt: Digest
    var dKeyBatch: array?<Digest>
    var dKeyBBatch: array?<Digest>
    var keyBatchCap: int
    var batchGraph: Option<BatchGraph>

    /** The buffers are separate allocations. */
    predicate Apart() {
      && dA !in {dB, dEAL, dEAR, dEBL, dEBR, dAn, dBn, dU}
      && dB !in {dEAL, dEAR, dEBL, dEBR, dAn, dBn, dU}
      && dEAL !in {dEAR, dEBL, dEBR, dAn, dBn, dU}
      && dEAR !in {dEBL, dEBR, dAn, dBn, dU}
      && dEBL !in {dEBR, dAn, dBn, dU}
      && dEBR !in {dAn, dBn, dU}
      && dAn !in {dBn, dU} && dBn != dU
    }

    predicate Lengths() {
      && dA.Length == d.m * d.k == dAn.Length && dB.Length == d.k * d.n == dBn.Length
      && dEAL.Length == d.m * 128 && dEAR.Length == 128 * d.k && dEBL.Length == d.k * 128
      && dEBR.Length == 128 * d.n && dU.Length == d.n * 128
    }

    /** Capacity and graph always refer to the live key buffers. */
    predicate KeysValid()
      reads this
    {
      && (keyBatchCap == 0 || (keyBatchCap > 0 && dKeyBatch != null && dKeyBBatch != null))
      && (dKeyBatch != null && dKeyBBatch != null ==> dKeyBatch != dKeyBBatch && dKeyBatch.Length >= keyBatchCap && dKeyBBatch.Length >= keyBatchCap)
      && (batchGraph.Some? ==>
        && dKeyBatch == batchGraph.value.keysA && dKeyBBatch == batchGraph.value.keysB
        && 0 < batchGraph.value.count <= keyBatchCap)
    }

    predicate Valid()
      reads this
    {
      d.Divisible() && Apart() && Lengths() && KeysValid() && |dTr| == (d.m / 16) * (d.n / 16)
    }

    ghost function Loaded(): Inputs
      reads dA, dB
    {
      Inputs(dA[..], dB[..])
    }

    /** prl_mine_ctx_create, with every allocation successful; null unless the sizes are divisible. */
    static method Create(d: Dims, blake: Blake) returns (c: PrlMineCtx?)
      ensures c == null <==> d.m % 128 != 0 || d.k % 128 != 0 || d.n % 128 != 0
      ensures c != null ==> fresh(c) && c.Valid() && c.d == d && c.blake == blake && c.KeysKept(null, null, 0, None)
    {
      if !d.Divisible() {
        return null;
      }
      c := new PrlMineCtx(d, blake);
    }

    constructor (d: Dims, blake: Blake)
      requires d.Divisible()
      ensures Valid() && this.d == d && this.blake == blake && fresh(dA) && fresh(dB) && fresh(mem)
      ensures fresh(dEAL) && fresh(dEAR) && fresh(dEBL) && fresh(dEBR) && fresh(dAn) && fresh(dBn) && fresh(dU)
      ensures KeysKept(null, null, 0, None)
    {
      this.d, this.blake := d, blake;
      dA := new int[d.m * d.k];
      dB := new int[d.k * d.n];
      dEAL := new int[d.m * 128];
      dEAR := new int[128 * d.k];
      dEBL := new int[d.k * 128];
      dEBR := new int[128 * d.n];
      dAn := new int[d.m * d.k];
      dBn := new int[d.k * d.n];
      dU := new int[d.n * 128];
      mem := new ScanMemory();
      dTr := seq((d.m / 16) * (d.n / 16), _ => Zeros());
      dKey, dKeyB, dTgt := SEED_A, SEED_A, SEED_A;
      dKeyBatch, dKeyBBatch, keyBatchCap, batchGraph := null, null, 0, None;
    }

    /** Noising and mining from what the noise buffers hold, over cleared transcripts. */
    method MineNoised(ghost z: Job)
      requires Valid() && d.Ok() && AsFlat(z)
      requires forall x :: 0 <= x < |dTr| ==> dTr[x] == Zeros()
      modifies this`dTr, dAn, dBn
      ensures Valid() && Live(d.ScanShape()) && |dTr| == d.ScanShape().Total()
      ensures SliceHolds(z, d.ScanShape(), dTr, 0)
    {
      hide View, Mined, SliceHolds, Num256, LowRank, Noised;
      NoiseKernel(dA, dEAL, dEAR, dAn, d.m, d.k, 128, Launched(d.m * d.k));
      NoiseKernel(dB, dEBL, dEBR, dBn, d.k, d.n, 128, Launched(d.k * d.n));
      var u := Launch(Mine, 1, d.m, d.k, d.n, [View(dAn[..], 0, d.m, d.k)], [View(dBn[..], 0, d.k, d.n)], dAn[..], dBn[..]);
      MineLaunchValid(d, dAn[..], dBn[..]);
      SliceOfMine(u, d, dTr, z);
      dTr := Mined(u, dTr);
    }

    /** z is the job whose noised operands the buffers describe. */
    ghost predicate AsFlat(z: Job)
      requires Lengths()
      reads dA, dB, dEAL, dEAR, dEBL, dEBR
    {
      && z.a == NoisedView(dA[..], dEAL[..], dEAR[..], d.m, d.k, 128)
      && z.b == NoisedView(dB[..], dEBL[..], dEBR[..], d.k, d.n, 128)
      && z.m == d.m && z.k == d.k && z.n == d.n && z.r == 128 && z.th == 16 && z.tw == 16
    }

    /** The generation kernels, from two keys. */
    method GenerateNoise(keyA: Digest, keyB: Digest)
      requires Valid() && d.m >= 128 && d.k >= 128 && d.n >= 128
      modifies dEAL, dEAR, dEBL, dEBR, dU
      ensures View(dEAL[..], 0, d.m, 128) == UniformMatrix(GPU, blake, SEED_A, keyA, d.m)
      ensures View(dEAR[..], 0, 128, d.k) == PermMatrix(GPU, blake, SEED_A, keyA, 128, d.k, true)
      ensures View(dEBL[..], 0, d.k, 128) == PermMatrix(GPU, blake, SEED_B, keyB, d.k, 128, false)
      ensures View(dEBR[..], 0, 128, d.n) == Transpose(UniformMatrix(GPU, blake, SEED_B, keyB, d.n), d.n, 128)
      ensures FactorsOf(d, FlatFactors(dEAL[..], dEAR[..], dEBL[..], dEBR[..])) == KeyedFactors(blake, d, keyA, keyB)
    {
      hide View, UniformMatrix, PermMatrix, Transpose;
      Clear(dEAR);
      Clear(dEBL);
      NgDense(blake, keyA, SEED_A, d.m, dEAL, Launched((d.m * 128 + 31) / 32));
      NgPerm(blake, keyA, SEED_A, true, d.k, dEAR, Launched((d.k + 7) / 8));
      NgPerm(blake, keyB, SEED_B, false, d.k, dEBL, Launched((d.k + 7) / 8));
      NgDense(blake, keyB, SEED_B, d.n, dU, Launched((d.n * 128 + 31) / 32));
      NgTranspose(dU, dEBR, d.n, 128, Launched(d.n * 128));
    }

    /** The kernels of a keyed attempt up to its transcripts. */
    method MineKeyed(keyA: Digest, keyB: Digest, ghost z: Job, ghost target: Digest)
      requires Valid() && d.Ok() && z == KeyedJob(blake, d, Loaded(), keyA, keyB, target)
      modifies this`dTr, dEAL, dEAR, dEBL, dEBR, dU, dAn, dBn
      ensures Valid() && Live(d.ScanShape()) && |dTr| == d.ScanShape().Total()
      ensures SliceHolds(z, d.ScanShape(), dTr, 0)
    {
      hide View, LowRank, Noised, SliceHolds, Num256, Generate, KeyedFactors;
      AtLeast128(d);
      dTr := seq((d.m / 16) * (d.n / 16), _ => Zeros());
      GenerateNoise(keyA, keyB);
      JobFromFactors(blake, d, Loaded(), FlatFactors(dEAL[..], dEAR[..], dEBL[..], dEBR[..]), keyA, target);
      MineNoised(z);
    }

    /** prl_mine_ctx_set_inputs */
    method SetInputs(x: Inputs)
      requires Valid() && d.Fits(x)
      modifies dA, dB
      ensures Valid() && Loaded() == x
    {
      Upload(dA, x.a);
      Upload(dB, x.b);
    }

    /** prl_mine_ctx_run: noise given. */
    method Run(x: Inputs, f: FlatFactors, key: Digest, target: Digest)
      requires Valid() && d.Ok() && d.Fits(x) && d.FitsFactors(f)
      modifies this, mem, dA, dB, dEAL, dEAR, dEBL, dEBR, dAn, dBn
      ensures Valid() && Loaded() == x && KeysKept(old(dKeyBatch), old(dKeyBBatch), old(keyBatchCap), old(batchGraph))
      ensures Reported(CallJob(blake, d, x, FactorsOf(d, f), key, target), d.ScanShape(), mem.found, mem.aRow, mem.bCol, mem.trOut)
    {
      hide View, LowRank, Noised, SliceHolds, Num256, Reported;
      Upload(dA, x.a);
      Upload(dB, x.b);
      Upload(dEAL, f.eal);
      Upload(dEAR, f.ear);
      Upload(dEBL, f.ebl);
      Upload(dEBR, f.ebr);
      dKey, dTgt := key, target;
      dTr := seq((d.m / 16) * (d.n / 16), _ => Zeros());
      ghost var z := CallJob(blake, d, x, FactorsOf(d, f), key, target);
      JobFromFactors(blake, d, x, f, key, target);
      MineNoised(z);
      ScanSingle(z);
    }

    /** The scan of a single search. */
    method ScanSingle(ghost z: Job)
      requires Valid() && d.Ok() && Live(d.ScanShape()) && |dTr| == d.ScanShape().Total() && z.r > 0 && SliceHolds(z, d.ScanShape(), dTr, 0)
      requires z.blake == blake && z.key == dKey && z.target == Num256(dTgt)
      modifies mem
      ensures Reported(z, d.ScanShape(), mem.found, mem.aRow, mem.bCol, mem.trOut)
      ensures mem.found == 0 ==> mem.trOut == old(mem.trOut)
    {
      hide SliceHolds, Num256, AnnouncesTile, NoWinner, ScanSafe, Shaped, Outcome;
      mem.ScanOne(blake, z, dKey, dTr, dTgt, d.ScanShape(), Launched((d.m / 128) * (d.n / 128) * 8 * 8));
    }

    predicate KeysKept(keysA: array?<Digest>, keysB: array?<Digest>, cap: int, graph: Option<BatchGraph>)
      reads this
    {
      dKeyBatch == keysA && dKeyBBatch == keysB && keyBatchCap == cap && batchGraph == graph
    }

    /** prl_mine_ctx_run_keyed_preloaded */
    method RunKeyedPreloaded(keyA: Digest, keyB: Digest, target: Digest)
      requires Valid() && d.Ok()
      modifies this, mem, dEAL, dEAR, dEBL, dEBR, dU, dAn, dBn
      ensures Valid() && Loaded() == old(Loaded()) && KeysKept(old(dKeyBatch), old(dKeyBBatch), old(keyBatchCap), old(batchGraph))
      ensures Reported(KeyedJob(blake, d, Loaded(), keyA, keyB, target), d.ScanShape(), mem.found, mem.aRow, mem.bCol, mem.trOut)
    {
      hide View, SliceHolds, Num256, Reported, NoisedA, NoisedB, KeyedFactors;
      dKey, dKeyB, dTgt := keyA, keyB, target;
      ghost var z := KeyedJob(blake, d, Loaded(), keyA, keyB, target);
      MineKeyed(dKey, dKeyB, z, target);
      ScanSingle(z);
    }

    /** prl_mine_ctx_run_keyed */
    method RunKeyed(x: Inputs, keyA: Digest, keyB: Digest, target: Digest)
      requires Valid() && d.Ok() && d.Fits(x)
      modifies this, mem, dA, dB, dEAL, dEAR, dEBL, dEBR, dU, dAn, dBn
      ensures Valid() && Loaded() == x && KeysKept(old(dKeyBatch), old(dKeyBBatch), old(keyBatchCap), old(batchGraph))
      ensures Reported(KeyedJob(blake, d, x, keyA, keyB, target), d.ScanShape(), mem.found, mem.aRow, mem.bCol, mem.trOut)
    {
      hide View, SliceHolds, Num256, Reported, NoisedA, NoisedB, KeyedFactors;
      SetInputs(x);
      RunKeyedPreloaded(keyA, keyB, target);
    }

    /** prl_mine_ctx_ensure_key_batch; okA and okB say whether the two allocations succeed. After a
        failure the old capacity is still there but a buffer is gone. */
    method EnsureKeyBatch(count: int, okA: bool, okB: bool) returns (rc: int)
      requires count > 0
      modifies this`dKeyBatch, this`dKeyBBatch, this`keyBatchCap, this`batchGraph
      ensures rc == if count <= old(keyBatchCap) || (okA && okB) then 0 else 4
      ensures count <= old(keyBatchCap) ==> KeysKept(old(dKeyBatch), old(dKeyBBatch), old(keyBatchCap), old(batchGraph))
      ensures count > old(keyBatchCap) && rc == 0 ==> keyBatchCap == count && batchGraph == None && fresh(dKeyBatch) && fresh(dKeyBBatch)
      ensures rc != 0 ==> keyBatchCap == old(keyBatchCap) && batchGraph == None && (dKeyBatch == null || dKeyBBatch == null)
      ensures old(Valid()) ==> (Valid() <==> rc == 0 || old(keyBatchCap) == 0)
    {
      if count <= keyBatchCap {
        return 0;
      }
      batchGraph := None;
      dKeyBatch, dKeyBBatch := null, null;
      if !okA {
        return 4;
      }
      dKeyBatch := new Digest[count](_ => SEED_A);
      if !okB {
        return 4;
      }
      dKeyBBatch := new Digest[count](_ => SEED_A);
      keyBatchCap := count;
      return 0;
    }

    /** A growth that fails, then a call that asks for no more than the old capacity: it is told that all
        is well although a key buffer is missing. */
    method AfterFailedGrowth(grow: int, okA: bool, okB: bool, count: int) returns (failed: int, rc: int)
      requires Valid() && 0 < count <= keyBatchCap < grow && !(okA && okB)
      modifies this`dKeyBatch, this`dKeyBBatch, this`keyBatchCap, this`batchGraph
      ensures failed == 4 && rc == 0 && count <= keyBatchCap && (dKeyBatch == null || dKeyBBatch == null)
    {
      failed := EnsureKeyBatch(grow, okA, okB);
      rc := EnsureKeyBatch(count, true, true);
    }

    /** prl_mine_ctx_build_batch_graph: reuse the recorded graph if it has the right count. */
    method BuildBatchGraph(count: int)
      requires Valid() && 0 < count <= keyBatchCap
      modifies this`batchGraph
      ensures Valid() && batchGraph == Some(BatchGraph(count, dKeyBatch, dKeyBBatch))
      ensures old(batchGraph).Some? && old(batchGraph).value.count == count ==> batchGraph == old(batchGraph)
    {
      if batchGraph.Some? && batchGraph.value.count == count {
        return;
      }
      batchGraph := Some(BatchGraph(count, dKeyBatch, dKeyBBatch));
    }

    /** One replay: it reads the keys through the addresses captured in the graph. */
    method LaunchGraph(g: BatchGraph, ghost x: Inputs, ghost jobs: seq<Job>)
      requires Valid() && d.Ok() && x == Loaded() && 0 < g.count <= g.keysA.Length && g.count <= g.keysB.Length && g.count <= SENTINEL
      requires jobs == KeyedJobs(blake, d, x, g.keysA[..], g.keysB[..], g.count, dTgt)
      modifies this`dTr, mem, dEAL, dEAR, dEBL, dEBR, dU, dAn, dBn
      ensures Valid() && Loaded() == x
      ensures BatchReported(jobs, d.ScanShape(), mem.found, mem.foundAttempt, mem.aRow, mem.bCol, mem.trOut, old(mem.trOut))
    {
      hide View, SliceHolds, Num256, AnnouncesTile, NoWinner, NoisedA, NoisedB, KeyedFactors, ScanSafe, Shaped;
      mem.BeginGraph();
      for i := 0 to g.count
        invariant Valid() && x == Loaded()
        invariant forall q :: 0 <= q < |jobs| ==> jobs[q].r > 0
        invariant Replayed(jobs, d.ScanShape(), i, mem.found, mem.foundAttempt, mem.aRow, mem.bCol, mem.trOut, old(mem.trOut))
      {
        MineKeyed(g.keysA[i], g.keysB[i], jobs[i], dTgt);
        mem.ScanAttempt(blake, jobs[i], g.keysA[i], dTr, dTgt, d.ScanShape(), i, Launched((d.m / 128) * (d.n / 128) * 8 * 8));
      }
    }

    /** prl_mine_ctx_run_keyed_preloaded_batch, allocations succeeding. */
    method RunBatch(keysA: seq<Digest>, keysB: seq<Digest>, count: int, target: Digest) returns (rc: int)
      requires Valid() && d.Ok() && count <= |keysA| && count <= |keysB| && count <= SENTINEL
      modifies this, mem, dEAL, dEAR, dEBL, dEBR, dU, dAn, dBn, dKeyBatch, dKeyBBatch
      ensures Valid() && Loaded() == old(Loaded())
      ensures dKeyBatch == old(dKeyBatch) || (dKeyBatch != null && fresh(dKeyBatch))
      ensures dKeyBBatch == old(dKeyBBatch) || (dKeyBBatch != null && fresh(dKeyBBatch))
      ensures rc == if count <= 0 then 2 else 0
      ensures rc == 0 ==>
        BatchReported(KeyedJobs(blake, d, Loaded(), keysA, keysB, count, target), d.ScanShape(),
                      mem.found, mem.foundAttempt, mem.aRow, mem.bCol, mem.trOut, old(mem.trOut))
    {
      hide View, Num256, BatchReported, KeyedFactors, NoisedA, NoisedB;
      if count <= 0 {
        return 2;
      }
      rc := EnsureKeyBatch(count, true, true);
      BuildBatchGraph(count);
      UploadKeys(dKeyBatch, keysA, count);
      UploadKeys(dKeyBBatch, keysB, count);
      dTgt := target;
      ghost var jobs := KeyedJobs(blake, d, Loaded(), keysA, keysB, count, target);
      LaunchGraph(batchGraph.value, Loaded(), jobs);
    }
  }

  // ---------- whole histories ----------

  datatype Call =
    | Set(x: Inputs)
    | Explicit(x: Inputs, f: FlatFactors, key: Digest, target: Digest)
    | Keyed(x: Inputs, keyA: Digest, keyB: Digest, target: Digest)
    | Preloaded(keyA: Digest, keyB: Digest, target: Digest)
    | Batch(keysA: seq<Digest>, keysB: seq<Digest>, count: int, target: Digest)
  {
    /** The buffers passed have the sizes the call reads. */
    predicate Ok(d: Dims) {
      match this
      case Set(x) => d.Fits(x)
      case Explicit(x, f, _, _) => d.Ok() && d.Fits(x) && d.FitsFactors(f)
      case Keyed(x, _, _, _) => d.Ok() && d.Fits(x)
      case Preloaded(_, _, _) => d.Ok()
      case Batch(keysA, keysB, count, _) => d.Ok() && count <= |keysA| && count <= |keysB| && count <= SENTINEL
    }

    function Leaves(before: Inputs): Inputs {
      if Set? || Explicit? || Keyed? then x else before
    }
  }

  /** A and B after a sequence of calls. */
  function LastLoaded(before: Inputs, calls: seq<Call>): Inputs {
    if calls == [] then before else calls[|calls| - 1].Leaves(LastLoaded(before, calls[..|calls| - 1]))
  }

  method Make(c: PrlMineCtx, call: Call)
    requires c.Valid() && call.Ok(c.d)
    modifies c, c.mem, c.dA, c.dB, c.dEAL, c.dEAR, c.dEBL, c.dEBR, c.dU, c.dAn, c.dBn, c.dKeyBatch, c.dKeyBBatch
    ensures c.Valid() && c.Loaded() == call.Leaves(old(c.Loaded()))
    ensures c.dKeyBatch == old(c.dKeyBatch) || (c.dKeyBatch != null && fresh(c.dKeyBatch))
    ensures c.dKeyBBatch == old(c.dKeyBBatch) || (c.dKeyBBatch != null && fresh(c.dKeyBBatch))
  {
    hide Reported, BatchReported, KeyedJob, CallJob;
    match call
    case Set(x) => c.SetInputs(x);
    case Explicit(x, f, key, target) => c.Run(x, f, key, target);
    case Keyed(x, keyA, keyB, target) => c.RunKeyed(x, keyA, keyB, target);
    case Preloaded(keyA, keyB, target) => c.RunKeyedPreloaded(keyA, keyB, target);
    case Batch(keysA, keysB, count, target) => var rc := c.RunBatch(keysA, keysB, count, target);
  }

  /** Any sequence of successful calls. */
  method Play(c: PrlMineCtx, calls: seq<Call>)
    requires c.Valid() && forall i :: 0 <= i < |calls| ==> calls[i].Ok(c.d)
    modifies c, c.mem, c.dA, c.dB, c.dEAL, c.dEAR, c.dEBL, c.dEBR, c.dU, c.dAn, c.dBn, c.dKeyBatch, c.dKeyBBatch
    ensures c.Valid() && c.Loaded() == LastLoaded(old(c.Loaded()), calls)
    ensures c.dKeyBatch == old(c.dKeyBatch) || (c.dKeyBatch != null && fresh(c.dKeyBatch))
    ensures c.dKeyBBatch == old(c.dKeyBBatch) || (c.dKeyBBatch != null && fresh(c.dKeyBBatch))
  {
    assert calls[..0] == [];
    for i := 0 to |calls|
      invariant c.Valid() && c.Loaded() == LastLoaded(old(c.Loaded()), calls[..i])
      invariant c.dKeyBatch == old(c.dKeyBatch) || (c.dKeyBatch != null && fresh(c.dKeyBatch))
      invariant c.dKeyBBatch == old(c.dKeyBBatch) || (c.dKeyBBatch != null && fresh(c.dKeyBBatch))
    {
      Make(c, calls[i]);
      assert calls[..i + 1][..i] == calls[..i];
    }
    assert calls[..|calls|] == calls;
  }

  /** After any history, a keyed call on the loaded inputs returns what a
      newly created context returns for the same arguments. */
  method LikeAFreshRun(c: PrlMineCtx, calls: seq<Call>, keyA: Digest, keyB: Digest, target: Digest) returns (other: PrlMineCtx)
    requires c.Valid() && c.d.Safe() && forall i :: 0 <= i < |calls| ==> calls[i].Ok(c.d)
    modifies c, c.mem, c.dA, c.dB, c.dEAL, c.dEAR, c.dEBL, c.dEBR, c.dU, c.dAn, c.dBn, c.dKeyBatch, c.dKeyBBatch
    ensures other.Loaded() == LastLoaded(old(c.Loaded()), calls)
    ensures c.mem.found == other.mem.found && c.mem.aRow == other.mem.aRow && c.mem.bCol == other.mem.bCol
    ensures c.mem.found == 1 ==> c.mem.trOut == other.mem.trOut
  {
    hide Outcome, Reported, KeyedJob;
    Play(c, calls);
    var x := Inputs(c.dA[..], c.dB[..]);
    c.RunKeyedPreloaded(keyA, keyB, target);
    other := new PrlMineCtx(c.d, c.blake);
    other.RunKeyed(x, keyA, keyB, target);
    var z := KeyedJob(c.blake, c.d, x, keyA, keyB, target);
    assert z.r > 0 by { KeyedRank(c.blake, c.d, x, keyA, keyB, target); }
    ReportedWithin(c.d, z, c.mem.found, c.mem.aRow, c.mem.bCol, c.mem.trOut);
    ReportedWithin(c.d, z, other.mem.found, other.mem.aRow, other.mem.bCol, other.mem.trOut);
    OutcomeUnique(z, c.mem.found, c.mem.aRow, c.mem.bCol, c.mem.trOut, other.mem.found, other.mem.aRow, other.mem.bCol, other.mem.trOut);
  }

  /** The same for a batch. */
  method LikeAFreshBatch(c: PrlMineCtx, calls: seq<Call>, keysA: seq<Digest>, keysB: seq<Digest>, count: int, target: Digest)
      returns (other: PrlMineCtx)
    requires c.Valid() && c.d.Safe() && forall i :: 0 <= i < |calls| ==> calls[i].Ok(c.d)
    requires 0 < count <= |keysA| && count <= |keysB| && count <= SENTINEL
    modifies c, c.mem, c.dA, c.dB, c.dEAL, c.dEAR, c.dEBL, c.dEBR, c.dU, c.dAn, c.dBn, c.dKeyBatch, c.dKeyBBatch
    ensures other.Loaded() == LastLoaded(old(c.Loaded()), calls)
    ensures c.mem.found == other.mem.found && c.mem.foundAttempt == other.mem.foundAttempt
    ensures c.mem.aRow == other.mem.aRow && c.mem.bCol == other.mem.bCol
    ensures c.mem.found == 1 ==> c.mem.trOut == other.mem.trOut
  {
    hide GraphReports, BatchReported, KeyedJob, KeyedJobs;
    Play(c, calls);
    var x := Inputs(c.dA[..], c.dB[..]);
    ghost var stale := c.mem.trOut;
    var rc := c.RunBatch(keysA, keysB, count, target);
    other := new PrlMineCtx(c.d, c.blake);
    other.SetInputs(x);
    ghost var stale' := other.mem.trOut;
    rc := other.RunBatch(keysA, keysB, count, target);
    ghost var jobs := KeyedJobs(c.blake, c.d, x, keysA, keysB, count, target);
    BatchesAgree(c.d, jobs, c.mem.found, c.mem.foundAttempt, c.mem.aRow, c.mem.bCol, c.mem.trOut, stale,
                 other.mem.found, other.mem.foundAttempt, other.mem.aRow, other.mem.bCol, other.mem.trOut, stale');
  }

  lemma KeyedRank(blake: Blake, d: Dims, x: Inputs, keyA: Digest, keyB: Digest, target: Digest)
    requires d.Ok() && d.Fits(x)
    ensures KeyedJob(blake, d, x, keyA, keyB, target).r == 128
  {
    hide View, KeyedFactors, NoisedA, NoisedB, Num256;
  }

  lemma MineLaunchValid(d: Dims, an: seq<int>, bn: seq<int>)
    requires d.Ok() && |an| == d.m * d.k && |bn| == d.k * d.n
    ensures ValidLaunch(Launch(Mine, 1, d.m, d.k, d.n, [View(an, 0, d.m, d.k)], [View(bn, 0, d.k, d.n)], an, bn))
  {
    hide View, Layout;
    ViewIsLayout(an, 0, d.m, d.k);
    ViewIsLayout(bn, 0, d.k, d.n);
  }

  /** The launch leaves in dTr what the scan of job z expects. */
  lemma SliceOfMine(u: Launch, d: Dims, tr0: seq<Block>, z: Job)
    requires ValidLaunch(u) && u.kernel == Mine && u.natt == 1 && u.m == d.m && u.n == d.n && AttemptOf(u, 0, z)
    requires |tr0| == (d.m / 16) * (d.n / 16) && forall x :: 0 <= x < |tr0| ==> tr0[x] == Zeros()
    ensures |tr0| == u.natt * PerAttempt(u)
    ensures Live(d.ScanShape()) && |tr0| == d.ScanShape().Total()
    ensures SliceHolds(z, d.ScanShape(), Mined(u, tr0), 0)
  {
    hide ValidLaunch, Mined, SliceHolds;
    ShapeLive(u);
    SliceMined(u, tr0, z, 0);
    assert Times(0, d.ScanShape().Total()) == 0;
  }

  lemma JobFromFactors(blake: Blake, d: Dims, x: Inputs, f: FlatFactors, key: Digest, target: Digest)
    requires d.Fits(x) && d.FitsFactors(f)
    ensures CallJob(blake, d, x, FactorsOf(d, f), key, target).a == NoisedView(x.a, f.eal, f.ear, d.m, d.k, 128)
    ensures CallJob(blake, d, x, FactorsOf(d, f), key, target).b == NoisedView(x.b, f.ebl, f.ebr, d.k, d.n, 128)
  {
    hide View, Noised, LowRank, Num256;
  }
}
