/** prl_mine2_batch_run: shared operands, stacked noise, one search over all attempts. */
module BatchRun {
  import opened Words
  import opened Ring
  import opened Transcript
  import opened Search
  import opened Scan
  import opened Mining
  import opened ScanKernels
  import opened GpuSearch
  import opened NoiseGpu
  import opened Context

  /** The arguments: A and B once, the noise factors and keys of every attempt one after the other. */
  datatype Batch = Batch(a: seq<int>, b: seq<int>, f: FlatFactors, m: nat, k: nat, n: nat, keys: seq<Digest>, target: Digest) {
    predicate Sized() {
      && |keys| > 0 && |a| == m * k && |b| == k * n
      && |f.eal| == |keys| * (m * 128) && |f.ear| == |keys| * (128 * k)
      && |f.ebl| == |keys| * (k * 128) && |f.ebr| == |keys| * (128 * n)
    }

    predicate Divisible() { m % 128 == 0 && n % 128 == 0 && k % 128 == 0 }
  }

  /** Part q of a stacked buffer. */
  function Part(buf: seq<int>, q: nat, size: nat): (p: seq<int>)
    requires Times(q, size) + size <= |buf|
    ensures |p| == size && forall y :: 0 <= y < size ==> p[y] == buf[Times(q, size) + y]
  {
    buf[Times(q, size)..Times(q, size) + size]
  }

  lemma PartsFit(x: Batch, q: nat)
    requires x.Sized() && q < |x.keys|
    ensures Times(q, x.m * 128) + x.m * 128 <= |x.f.eal| && Times(q, 128 * x.k) + 128 * x.k <= |x.f.ear|
    ensures Times(q, x.k * 128) + x.k * 128 <= |x.f.ebl| && Times(q, 128 * x.n) + 128 * x.n <= |x.f.ebr|
  {
    SliceInBuffer(q, |x.keys|, x.m * 128);
    SliceInBuffer(q, |x.keys|, 128 * x.k);
    SliceInBuffer(q, |x.keys|, x.k * 128);
    SliceInBuffer(q, |x.keys|, 128 * x.n);
  }

  ghost function NoisedAOf(x: Batch, q: nat): (y: Mat)
    requires x.Sized() && q < |x.keys|
    ensures IsMat(y, x.m, x.k)
  {
    PartsFit(x, q);
    NoisedView(x.a, Part(x.f.eal, q, x.m * 128), Part(x.f.ear, q, 128 * x.k), x.m, x.k, 128)
  }

  ghost function NoisedBOf(x: Batch, q: nat): (y: Mat)
    requires x.Sized() && q < |x.keys|
    ensures IsMat(y, x.k, x.n)
  {
    PartsFit(x, q);
    NoisedView(x.b, Part(x.f.ebl, q, x.k * 128), Part(x.f.ebr, q, 128 * x.n), x.k, x.n, 128)
  }

  /** Attempt q as a search job. */
  ghost function BatchJob(blake: Blake, x: Batch, q: nat): (z: Job)
    requires x.Sized() && q < |x.keys|
    ensures z.r == 128
  {
    Job(NoisedAOf(x, q), NoisedBOf(x, q), x.m, x.k, x.n, 128, 2, 64, blake, x.keys[q], Num256(x.target))
  }

  ghost function BatchJobs(blake: Blake, x: Batch): (jobs: seq<Job>)
    requires x.Sized()
    ensures |jobs| == |x.keys| && forall q :: 0 <= q < |jobs| ==> jobs[q] == BatchJob(blake, x, q) && jobs[q].r == 128
  {
    hide NoisedAOf, NoisedBOf;
    seq(|x.keys|, q requires 0 <= q < |x.keys| => BatchJob(blake, x, q))
  }

  /** Appending to a buffer leaves the matrices before alone and shows the appended one behind them. */
  lemma ViewAppend(buf: seq<int>, tail: seq<int>, off: nat, rows: nat, cols: nat)
    requires off + rows * cols <= |buf|
    ensures View(buf + tail, off, rows, cols) == View(buf, off, rows, cols)
  {
    hide View, Position;
    var v := View(buf, off, rows, cols);
    forall i, j | 0 <= i < rows && 0 <= j < cols
      ensures 0 <= off + Position(cols, i, j) < |buf + tail| && (buf + tail)[off + Position(cols, i, j)] == v[i][j]
    {
      assert v[i][j] == buf[off + Position(cols, i, j)];
    }
    ViewOf(buf + tail, off, rows, cols, v);
  }

  lemma ViewAppended(buf: seq<int>, tail: seq<int>, rows: nat, cols: nat)
    requires |tail| == rows * cols
    ensures View(buf + tail, |buf|, rows, cols) == View(tail, 0, rows, cols)
  {
    hide View, Position;
    var v := View(tail, 0, rows, cols);
    forall i, j | 0 <= i < rows && 0 <= j < cols
      ensures 0 <= |buf| + Position(cols, i, j) < |buf + tail| && (buf + tail)[|buf| + Position(cols, i, j)] == v[i][j]
    {
      assert v[i][j] == tail[0 + Position(cols, i, j)];
    }
    ViewOf(buf + tail, |buf|, rows, cols, v);
  }

  /** The stacked noised operands of the first j attempts. */
  ghost predicate Noised(x: Batch, an: seq<int>, bn: seq<int>, j: nat)
    requires x.Sized() && j <= |x.keys|
  {
    && |an| == Times(j, x.m * x.k) && |bn| == Times(j, x.k * x.n)
    && forall q: nat :: q < j ==> NoisedPart(x, an, bn, q)
  }

  ghost predicate NoisedPart(x: Batch, an: seq<int>, bn: seq<int>, q: nat)
    requires x.Sized() && q < |x.keys|
  {
    && Times(q, x.m * x.k) + x.m * x.k <= |an| && View(an, Times(q, x.m * x.k), x.m, x.k) == NoisedAOf(x, q)
    && Times(q, x.k * x.n) + x.k * x.n <= |bn| && View(bn, Times(q, x.k * x.n), x.k, x.n) == NoisedBOf(x, q)
  }

  lemma OneMoreAttempt(x: Batch, an: seq<int>, bn: seq<int>, j: nat, aj: seq<int>, bj: seq<int>)
    requires x.Sized() && j < |x.keys| && Noised(x, an, bn, j) && |aj| == x.m * x.k && |bj| == x.k * x.n
    requires View(aj, 0, x.m, x.k) == NoisedAOf(x, j) && View(bj, 0, x.k, x.n) == NoisedBOf(x, j)
    ensures Noised(x, an + aj, bn + bj, j + 1)
  {
    hide View, NoisedAOf, NoisedBOf, Times;
    NextPart(j, x.m * x.k);
    NextPart(j, x.k * x.n);
    forall q: nat | q < j + 1
      ensures NoisedPart(x, an + aj, bn + bj, q)
    {
      if q < j {
        assert NoisedPart(x, an, bn, q);
        ViewAppend(an, aj, Times(q, x.m * x.k), x.m, x.k);
        ViewAppend(bn, bj, Times(q, x.k * x.n), x.k, x.n);
      } else {
        ViewAppended(an, aj, x.m, x.k);
        ViewAppended(bn, bj, x.k, x.n);
      }
    }
  }

  lemma NextPart(j: nat, size: nat)
    ensures Times(j, size) + size == Times(j + 1, size) && Times(0, size) == 0
  {}

  /** k_noiseA or k_noiseB for one attempt. */
  method NoiseAttempt(x: seq<int>, left: seq<int>, right: seq<int>, rows: nat, cols: nat) returns (y: seq<int>)
    requires |x| == rows * cols && |left| == rows * 128 && |right| == 128 * cols
    ensures |y| == rows * cols && View(y, 0, rows, cols) == NoisedView(x, left, right, rows, cols, 128)
  {
    hide View, NoisedView;
    var dx, dl, dr, out := new int[|x|], new int[|left|], new int[|right|], new int[|x|];
    Upload(dx, x);
    Upload(dl, left);
    Upload(dr, right);
    NoiseKernel(dx, dl, dr, out, rows, cols, 128, Launched(rows * cols));
    NoisedViewMeans(x, left, right, rows, cols);
    y := out[..];
  }

  lemma NoisedViewMeans(x: seq<int>, left: seq<int>, right: seq<int>, rows: nat, cols: nat)
    requires |x| == rows * cols && |left| == rows * 128 && |right| == 128 * cols
    ensures NoisedView(x, left, right, rows, cols, 128)
         == Denoise.Noised(View(x, 0, rows, cols), Denoise.LowRank(View(left, 0, rows, 128), View(right, 0, 128, cols), rows, 128, cols), rows, cols)
  {}

  function BatchShape(x: Batch): Shape { Shape(x.m, x.n, 128, 2, 64) }

  ghost predicate BatchSearchable(blake: Blake, x: Batch) {
    x.Sized() && Live(BatchShape(x)) && Shaped(BatchJobs(blake, x), BatchShape(x))
  }

  /** The batched search with noising on the device: its report is right exactly when ScanSafe holds of
      the attempts, in particular within the sentinel. */
  method Mine2BatchRun(mem: ScanMemory, blake: Blake, x: Batch, natt: int, threads: nat) returns (rc: int)
    requires x.m > 0 && x.k > 0 && x.n > 0 && |x.keys| == if natt < 1 then 1 else natt
    requires x.Divisible() ==> x.Sized() && threads >= |x.keys| * ((x.m / 2) * (x.n / 64))
    modifies mem
    ensures rc == if x.Divisible() then 0 else 2
    ensures rc == 0 ==> mem.foundAttempt >= -1 && BatchSearchable(blake, x)
    ensures rc == 0 ==>
      (ReportRight(BatchJobs(blake, x), mem.foundAttempt, mem.aRow, mem.bCol, mem.trOut) <==> ScanSafe(BatchJobs(blake, x), BatchShape(x)))
    ensures rc == 0 && |x.keys| * ((x.m / 2) * (x.n / 64)) <= SENTINEL ==>
      ReportRight(BatchJobs(blake, x), mem.foundAttempt, mem.aRow, mem.bCol, mem.trOut)
    ensures rc == 0 && |x.keys| * ((x.m / 2) * (x.n / 64)) > SENTINEL && NoAttempt(BatchJobs(blake, x)) ==> mem.foundAttempt >= 0
  {
    hide ReportRight, ScanSafe, NoAttempt, View, Noised, NoisedAOf, NoisedBOf, JobsOf, BatchJobs;
    if x.m % 128 != 0 || x.n % 128 != 0 || x.k % 128 != 0 {
      return 2;
    }
    var an: seq<int>, bn: seq<int> := [], [];
    NothingNoisedYet(x);
    for j := 0 to |x.keys|
      invariant Noised(x, an, bn, j)
    {
      PartsFit(x, j);
      var aj := NoiseAttempt(x.a, Part(x.f.eal, j, x.m * 128), Part(x.f.ear, j, 128 * x.k), x.m, x.k);
      var bj := NoiseAttempt(x.b, Part(x.f.ebl, j, x.k * 128), Part(x.f.ebr, j, 128 * x.n), x.k, x.n);
      AttemptNoised(x, j, aj, bj);
      OneMoreAttempt(x, an, bn, j, aj, bj);
      an, bn := an + aj, bn + bj;
    }
    StackIsBatch(blake, x, an, bn);
    rc := Mine2Search(mem, blake, Stack(an, bn, x.m, x.k, x.n, x.keys, x.target), natt, threads);
  }

  lemma NothingNoisedYet(x: Batch)
    requires x.Sized()
    ensures Noised(x, [], [], 0)
  {
    NextPart(0, x.m * x.k);
    NextPart(0, x.k * x.n);
  }

  lemma AttemptNoised(x: Batch, j: nat, aj: seq<int>, bj: seq<int>)
    requires x.Sized() && j < |x.keys| && |aj| == x.m * x.k && |bj| == x.k * x.n
    requires Times(j, x.m * 128) + x.m * 128 <= |x.f.eal| && Times(j, 128 * x.k) + 128 * x.k <= |x.f.ear|
    requires Times(j, x.k * 128) + x.k * 128 <= |x.f.ebl| && Times(j, 128 * x.n) + 128 * x.n <= |x.f.ebr|
    requires View(aj, 0, x.m, x.k) == NoisedView(x.a, Part(x.f.eal, j, x.m * 128), Part(x.f.ear, j, 128 * x.k), x.m, x.k, 128)
    requires View(bj, 0, x.k, x.n) == NoisedView(x.b, Part(x.f.ebl, j, x.k * 128), Part(x.f.ebr, j, 128 * x.n), x.k, x.n, 128)
    ensures View(aj, 0, x.m, x.k) == NoisedAOf(x, j) && View(bj, 0, x.k, x.n) == NoisedBOf(x, j)
  {
    hide View, NoisedView;
  }

  lemma StackIsBatch(blake: Blake, x: Batch, an: seq<int>, bn: seq<int>)
    requires x.Sized() && Noised(x, an, bn, |x.keys|)
    ensures Stack(an, bn, x.m, x.k, x.n, x.keys, x.target).Sized()
    ensures JobsOf(blake, Stack(an, bn, x.m, x.k, x.n, x.keys, x.target)) == BatchJobs(blake, x)
  {
    hide View, NoisedAOf, NoisedBOf, Num256;
    var s := Stack(an, bn, x.m, x.k, x.n, x.keys, x.target);
    var jobs, batch := JobsOf(blake, s), BatchJobs(blake, x);
    forall q | 0 <= q < |jobs|
      ensures jobs[q] == batch[q]
    {
      assert NoisedPart(x, an, bn, q);
    }
  }
}
