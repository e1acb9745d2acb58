/** The device context and the integer-core path against the reference, from raw operands. */
module EndToEnd {
  import opened Words
  import opened Ring
  import opened Transcript
  import opened Search
  import opened Denoise
  import opened Noise
  import opened Reference
  import opened RunTheorem
  import opened Mining
  import opened ScanKernels
  import opened NoiseGpu
  import opened Context
  import opened Gateway
  import opened Backend
  import opened Naive
  import opened NaiveRun

  /** A tile given by its corner, as the reference lists it. */
  function OpenedFrom(th: nat, tw: nat, aRow: int, bCol: int, words: Block): Opened {
    Opened(seq(th, y => aRow + y), seq(tw, x => bCol + x), words)
  }

  /** A device outcome and a reference report of the same job say the same. */
  lemma OutcomeIsReport(z: Job, found: int, aRow: int, bCol: int, words: Block, refFound: bool, block: Option<Opened>)
    requires z.r > 0 && Outcome(z, found, aRow, bCol, words) && Reports(z, refFound, block)
    ensures refFound <==> found == 1
    ensures refFound ==> block == Some(OpenedFrom(z.th, z.tw, aRow, bCol, words))
  {
    hide Wins, Words16;
    AnnouncedIsWinner(z, aRow, bCol, words);
    if refFound {
      var u :| FirstWinner(z, u) && block == Some(OpenedAt(z, u));
      assert Wins(z, u);
      var t :| FirstWinner(z, t) && aRow == TopRow(z, t) && bCol == LeftCol(z, t) && words == Words16(z, t);
      FirstWinnerUnique(z, t, u);
      assert OpenedAt(z, u).rows == seq(z.th, y => aRow + y);
      assert OpenedAt(z, u).cols == seq(z.tw, x => bCol + x);
    }
  }

  /** The reference and the context search the same job when they are given the same operands, factors,
      key and target. */
  lemma SameJob(gemm: NoisyGemm, blake: Blake, d: Dims, x: Inputs, f: Factors, key: Digest, target: Digest)
    requires d.Fits(x) && gemm.noiseRank == 128 && gemm.tileH == 16 && gemm.tileW == 16
    ensures gemm.NoisedJob(View(x.a, 0, d.m, d.k), View(x.b, 0, d.k, d.n), f, d.m, d.k, d.n, blake, key, Num256(target))
         == CallJob(blake, d, x, f, key, target)
  {
    hide View, Num256, NoisedA, NoisedB;
  }

  /** run_keyed against NoisyGemm.run with the noise the reference generates from "A_tensor" and keyA for A
      and from "B_tensor" and keyB for B: the run reports the search over that noise under keyA, the context
      has the same found flag and the same opened block, and the reference's C is A B modulo 2^32. */
  method KeyedRunsAgree(g: Generator, gemm: NoisyGemm, ctx: PrlMineCtx, x: Inputs, keyA: Digest, keyB: Digest, target: Digest)
      returns (res: Result<(Mat, bool)>)
    requires ctx.Valid() && ctx.d.Safe() && ctx.d.Fits(x) && Paired(g, gemm) && g == GPU && gemm.tileH == 16 && gemm.tileW == 16
    requires gemm.matmulH >= 16 && gemm.matmulW >= 16
    modifies gemm, ctx, ctx.mem, ctx.dA, ctx.dB, ctx.dEAL, ctx.dEAR, ctx.dEBL, ctx.dEBR, ctx.dU, ctx.dAn, ctx.dBn
    ensures ctx.Valid() && ctx.d.m >= 128 && ctx.d.k >= 128 && ctx.d.n >= 128
    ensures res.Ok? ==>
      var f := Generate(g, ctx.blake, SEED_A, SEED_B, keyA, keyB, ctx.d.m, ctx.d.k, ctx.d.n).value;
      var z := JobOfRun(View(x.a, 0, ctx.d.m, ctx.d.k), View(x.b, 0, ctx.d.k, ctx.d.n), f, ctx.d.m, ctx.d.k, ctx.d.n,
                        128, 16, 16, ctx.blake, keyA, Num256(target));
      Reports(z, res.value.1, gemm.block) && Outcome(z, ctx.mem.found, ctx.mem.aRow, ctx.mem.bCol, ctx.mem.trOut)
    ensures res.Ok? ==>
      && (res.value.1 <==> ctx.mem.found == 1)
      && (res.value.1 ==> gemm.block == Some(OpenedFrom(16, 16, ctx.mem.aRow, ctx.mem.bCol, ctx.mem.trOut)))
      && (!res.value.1 ==> gemm.block == None && ctx.mem.aRow == -1 && ctx.mem.bCol == -1)
      && res.value.0 == Product32(View(x.a, 0, ctx.d.m, ctx.d.k), View(x.b, 0, ctx.d.k, ctx.d.n), ctx.d.m, ctx.d.k, ctx.d.n)
  {
    hide View, Num256, NoisedA, NoisedB, Outcome, Reported, Reports, UniformMatrix, PermMatrix, Transpose, Product32, ShlLimbs;
    var d := ctx.d;
    AtLeast128(d);
    var a, b, f := View(x.a, 0, d.m, d.k), View(x.b, 0, d.k, d.n), KeyedFactors(ctx.blake, d, keyA, keyB);
    res := gemm.Run(a, b, f, d.m, d.k, d.n, ctx.blake, keyA, Num256(target));
    ctx.RunKeyed(x, keyA, keyB, target);
    if res.Ok? {
      var z := KeyedJob(ctx.blake, d, x, keyA, keyB, target);
      SameJob(gemm, ctx.blake, d, x, f, keyA, target);
      KeyedShape(ctx.blake, d, x, keyA, keyB, target);
      ReportedWithin(d, z, ctx.mem.found, ctx.mem.aRow, ctx.mem.bCol, ctx.mem.trOut);
      NotFoundNowhere(z, ctx.mem.found, ctx.mem.aRow, ctx.mem.bCol, ctx.mem.trOut);
      OutcomeIsReport(z, ctx.mem.found, ctx.mem.aRow, ctx.mem.bCol, ctx.mem.trOut, res.value.1, gemm.block);
      GeneratedRun(g, gemm, ctx.blake, SEED_A, SEED_B, keyA, keyB, a, b, d.m, d.k, d.n);
    }
  }

  /** prl_naive_run against NoisyGemm.run on the same operands, factors, key and target: the same found
      flag, the same opened block, and, where noising loses nothing, the same C. */
  method NaiveRunAgrees(gemm: NoisyGemm, blake: Blake, q: NaiveCall, x: Inputs, f: FlatFactors, schedule: seq<(BlockXY, nat, nat)>)
      returns (res: Result<(Mat, bool)>, rc: int, c: array<int>, scan: PowScan)
    requires q.Positive() && q.Fits(x, f) && gemm.noiseRank == q.r && gemm.tileH == q.th && gemm.tileW == q.tw
    requires gemm.matmulH >= gemm.tileH && gemm.matmulW >= gemm.tileW
    modifies gemm
    ensures rc == if q.Divisible() then 0 else 2
    ensures rc == 0 && res.Ok? ==>
      var fs := Factors(View(f.eal, 0, q.m, q.r), View(f.ear, 0, q.r, q.k), View(f.ebl, 0, q.k, q.r), View(f.ebr, 0, q.r, q.n));
      var z := JobOfRun(View(x.a, 0, q.m, q.k), View(x.b, 0, q.k, q.n), fs, q.m, q.k, q.n, q.r, q.th, q.tw, blake, q.key, Num256(q.target));
      Reports(z, res.value.1, gemm.block) && Outcome(z, scan.found, scan.aRow, scan.bCol, scan.trOut)
    ensures rc == 0 && res.Ok? ==>
      && (res.value.1 <==> scan.found == 1)
      && (res.value.1 ==> gemm.block == Some(OpenedFrom(q.th, q.tw, scan.aRow, scan.bCol, scan.trOut)))
      && (!res.value.1 ==> gemm.block == None && scan.aRow == -1 && scan.bCol == -1)
    ensures rc == 0 && res.Ok? ==>
      Lossless(View(x.a, 0, q.m, q.k), View(f.eal, 0, q.m, q.r), View(f.ear, 0, q.r, q.k), q.m, q.k, q.r) ==>
      Lossless(View(x.b, 0, q.k, q.n), View(f.ebl, 0, q.k, q.r), View(f.ebr, 0, q.r, q.n), q.k, q.n, q.r) ==>
      c.Length == q.m * q.n && View(c[..], 0, q.m, q.n) == res.value.0
  {
    hide View, Num256, NoisedA, NoisedB, Outcome, Reports, Product32, ShlLimbs, Lossless;
    var a, b, fs := View(x.a, 0, q.m, q.k), View(x.b, 0, q.k, q.n), q.FactorsIn(f);
    res := gemm.Run(a, b, fs, q.m, q.k, q.n, blake, q.key, Num256(q.target));
    rc, c, scan := PrlNaiveRun(blake, q, x, f, schedule);
    if rc == 0 && res.Ok? {
      var z := q.CalledJob(blake, x, f);
      NotFoundNowhere(z, scan.found, scan.aRow, scan.bCol, scan.trOut);
      OutcomeIsReport(z, scan.found, scan.aRow, scan.bCol, scan.trOut, res.value.1, gemm.block);
      if Lossless(a, fs.eal, fs.ear, q.m, q.k, q.r) && Lossless(b, fs.ebl, fs.ebr, q.k, q.n, q.r) {
        RunReturnsProduct(gemm, a, b, fs, q.m, q.k, q.n);
      }
    }
  }

  lemma NotFoundNowhere(z: Job, found: int, aRow: int, bCol: int, words: Block)
    requires z.r > 0 && Outcome(z, found, aRow, bCol, words)
    ensures found != 1 ==> aRow == -1 && bCol == -1
  {
    hide NoWinner, AnnouncesTile;
  }

  lemma KeyedShape(blake: Blake, d: Dims, x: Inputs, keyA: Digest, keyB: Digest, target: Digest)
    requires d.Ok() && d.Fits(x)
    ensures var z := KeyedJob(blake, d, x, keyA, keyB, target); z.r == 128 && z.th == 16 && z.tw == 16
  {
    hide View, Num256, NoisedA, NoisedB, KeyedFactors;
  }

  /** A nonce wins on the device exactly when the reference's search over the same header, keys and
      target reports a find. */
  lemma NonceWinsInReference(gemm: NoisyGemm, blake: Blake, d: Dims, src: Source, job: MiningJob, nonce: nat,
                             found: bool, block: Option<Opened>)
    requires d.Ok() && d.Fits(src.inputs(job.header)) && 0 <= job.target < ShlLimbs(1, 8)
    requires gemm.noiseRank == 128 && gemm.tileH == 16 && gemm.tileW == 16
    requires var x := src.inputs(job.header);
             var keyA, keyB := src.keyA(job.header, nonce), src.keyB(job.header, nonce);
             Reports(gemm.NoisedJob(View(x.a, 0, d.m, d.k), View(x.b, 0, d.k, d.n), KeyedFactors(blake, d, keyA, keyB),
                                    d.m, d.k, d.n, blake, keyA, job.target), found, block)
    ensures found <==> NonceWins(blake, d, src, job, nonce)
  {
    hide View, Num256, NoisedA, NoisedB, KeyedFactors, ShlLimbs, TargetWords, FirstWinner, NoWinner;
    var x, keyA, keyB := src.inputs(job.header), src.keyA(job.header, nonce), src.keyB(job.header, nonce);
    TargetRoundTrip(job.target);
    SameJob(gemm, blake, d, x, KeyedFactors(blake, d, keyA, keyB), keyA, TargetWords(job.target));
    FirstIsWinner(NonceJob(blake, d, src, job, nonce));
  }

  lemma FirstIsWinner(z: Job)
    requires z.r > 0
    ensures (exists t :: FirstWinner(z, t)) ==> !NoWinner(z)
  {
    hide Wins;
    if t :| FirstWinner(z, t) {
      assert Wins(z, t);
    }
  }
}
