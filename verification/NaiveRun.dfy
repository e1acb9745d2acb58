/** The integer-core entry point: noising kernels, plain product, naive search. */
module NaiveRun {
  import opened Words
  import opened Transcript
  import opened Search
  import opened Denoise
  import opened Mining
  import opened ScanKernels
  import opened NoiseGpu
  import opened Naive
  import opened Context

  /** What a call says besides its buffers. */
  datatype NaiveCall = NaiveCall(m: nat, k: nat, n: nat, r: nat, th: nat, tw: nat, key: Digest, target: Digest) {

    predicate Positive() { m > 0 && k > 0 && n > 0 && r > 0 && th > 0 && tw > 0 }

    /** The check of prl_naive_run. */
    predicate Divisible()
      requires Positive()
    {
      m % r == 0 && n % r == 0 && k % r == 0 && r % th == 0 && r % tw == 0
    }

    predicate Fits(x: Inputs, f: FlatFactors) {
      && |x.a| == m * k && |x.b| == k * n
      && |f.eal| == m * r && |f.ear| == r * k && |f.ebl| == k * r && |f.ebr| == r * n
    }

    function FactorsIn(f: FlatFactors): Factors
      requires |f.eal| == m * r && |f.ear| == r * k && |f.ebl| == k * r && |f.ebr| == r * n
    {
      Factors(View(f.eal, 0, m, r), View(f.ear, 0, r, k), View(f.ebl, 0, k, r), View(f.ebr, 0, r, n))
    }

    /** The search the call amounts to. */
    function CalledJob(blake: Blake, x: Inputs, f: FlatFactors): Job
      requires Fits(x, f)
    {
      JobOfRun(View(x.a, 0, m, k), View(x.b, 0, k, n), FactorsIn(f), m, k, n, r, th, tw, blake, key, Num256(target))
    }
  }

  /** prl_naive_run: C is A B modulo 2^32 and the search reports its outcome, for every order in which the
      threads of each kernel may run. */
  method PrlNaiveRun(blake: Blake, q: NaiveCall, x: Inputs, f: FlatFactors, schedule: seq<(BlockXY, nat, nat)>)
      returns (rc: int, c: array<int>, scan: PowScan)
    requires q.Positive() && q.Fits(x, f)
    ensures rc == if q.Divisible() then 0 else 2
    ensures rc == 0 ==> c.Length == q.m * q.n
    ensures rc == 0 ==>
      View(c[..], 0, q.m, q.n) == Product32(View(x.a, 0, q.m, q.k), View(x.b, 0, q.k, q.n), q.m, q.k, q.n)
    ensures rc == 0 ==> Outcome(q.CalledJob(blake, x, f), scan.found, scan.aRow, scan.bCol, scan.trOut)
  {
    hide View, Product32, Noised, LowRank, Num256, Outcome, Setup.Ok, Launched, NaiveCall.Divisible, NaiveCall.CalledJob;
    c := new int[q.m * q.n];
    scan := new PowScan();
    if !q.Divisible() {
      return 2, c, scan;
    }
    rc := 0;
    var an := NoiseOperand(x.a, f.eal, f.ear, q.m, q.k, q.r);
    var bn := NoiseOperand(x.b, f.ebl, f.ebr, q.k, q.n, q.r);
    GemmPlain(x.a, x.b, c, q.m, q.k, q.n, Launched(q.m * q.n));
    ghost var product := c[..];
    var g := SetupOf(blake, q, x, f, an, bn);
    var cscr := new int[q.m * q.n];
    var tr := new Block[TranscriptCount(g)](_ => Zeros());
    scan := NaiveSearch(g, cscr, tr, schedule, q.target);
    assert c[..] == product;
  }

  /** One operand copied to the device with its factors and noised there. */
  method NoiseOperand(x: seq<int>, left: seq<int>, right: seq<int>, rows: nat, cols: nat, r: nat) returns (out: seq<int>)
    requires |x| == rows * cols && |left| == rows * r && |right| == r * cols
    ensures |out| == rows * cols && View(out, 0, rows, cols) == NoisedView(x, left, right, rows, cols, r)
  {
    hide View, Noised, LowRank;
    var dX := OnDevice(x);
    var dLeft := OnDevice(left);
    var dRight := OnDevice(right);
    var dOut := new int[|x|];
    NoiseKernel(dX, dLeft, dRight, dOut, rows, cols, r, Launched(rows * cols));
    out := dOut[..];
  }

  method OnDevice(src: seq<int>) returns (dst: array<int>)
    ensures fresh(dst) && dst[..] == src
  {
    dst := new int[|src|];
    Upload(dst, src);
  }

  function TranscriptCount(g: Setup): (n: nat)
    requires g.Ok()
    ensures n == g.S().Total()
  {
    g.S().Total()
  }

  /** The launch of the mining kernel over noised operands. */
  function SetupOf(blake: Blake, q: NaiveCall, x: Inputs, f: FlatFactors, an: seq<int>, bn: seq<int>): (g: Setup)
    requires q.Positive() && q.Divisible() && q.Fits(x, f) && |an| == q.m * q.k && |bn| == q.k * q.n
    requires View(an, 0, q.m, q.k) == NoisedView(x.a, f.eal, f.ear, q.m, q.k, q.r)
    requires View(bn, 0, q.k, q.n) == NoisedView(x.b, f.ebl, f.ebr, q.k, q.n, q.r)
    ensures g.Ok() && g.z == q.CalledJob(blake, x, f) && g.z.target == Num256(q.target) && g.z.m == q.m && g.z.n == q.n
  {
    hide View, Num256, Noised, LowRank;
    Setup(Job(View(an, 0, q.m, q.k), View(bn, 0, q.k, q.n), q.m, q.k, q.n, q.r, q.th, q.tw, blake, q.key, Num256(q.target)), an, bn)
  }
}
