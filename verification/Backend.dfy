/** The GPU backend: operands preloaded once per header, keyed noise per nonce. */
module Backend {
  import opened Words
  import opened Transcript
  import opened Search
  import opened ScanKernels
  import opened Context
  import opened Gateway

  /** What is synthesized from a header: the operands, and the two keys of each nonce. */
  datatype Source = Source(inputs: Header -> Inputs, keyA: (Header, nat) -> Digest, keyB: (Header, nat) -> Digest)

  datatype BackendResult = BackendResult(found: bool, workUnits: nat, attempts: nat, aRow: int, bCol: int, words: Block)

  /** The search that evaluating a nonce means: the header's own operands under the nonce's keys. */
  ghost function NonceJob(blake: Blake, d: Dims, src: Source, job: MiningJob, nonce: nat): (z: Job)
    requires d.Ok() && d.Fits(src.inputs(job.header)) && job.target >= 0
    ensures z.r == 128
  {
    hide KeyedJob;
    KeyedRank(blake, d, src.inputs(job.header), src.keyA(job.header, nonce), src.keyB(job.header, nonce), TargetWords(job.target));
    KeyedJob(blake, d, src.inputs(job.header), src.keyA(job.header, nonce), src.keyB(job.header, nonce), TargetWords(job.target))
  }

  ghost predicate NonceWins(blake: Blake, d: Dims, src: Source, job: MiningJob, nonce: nat)
    requires d.Ok() && d.Fits(src.inputs(job.header)) && job.target >= 0
  {
    !NoWinner(NonceJob(blake, d, src, job, nonce))
  }

  /** res covers the nonces from `attempt` on, res.attempts of them: only the last may win, it does if
      and only if something was found, and then res shows its first winning tile. */
  ghost predicate Answers(blake: Blake, d: Dims, src: Source, job: MiningJob, attempt: nat, res: BackendResult)
    requires d.Ok() && d.Fits(src.inputs(job.header)) && job.target >= 0
  {
    && res.attempts >= 1
    && (forall q :: attempt <= q < attempt + res.attempts - 1 ==> !NonceWins(blake, d, src, job, q))
    && (res.found <==> NonceWins(blake, d, src, job, attempt + res.attempts - 1))
    && (res.found ==> AnnouncesTile(NonceJob(blake, d, src, job, attempt + res.attempts - 1), res.aRow, res.bCol, res.words))
  }

  class CudaMineBackend {
    const src: Source
    const ctx: PrlMineCtx
    const batchSize: nat
    var preloadedHeader: Option<Header>

    ghost predicate Ok() {
      && ctx.d.Safe() && 1 <= batchSize <= SENTINEL
      && forall h :: ctx.d.Fits(src.inputs(h))
    }

    /** The header the cache remembers is the one whose operands are on the device. */
    ghost predicate Valid()
      reads this, ctx, ctx.dA, ctx.dB
    {
      Ok() && ctx.Valid() && (preloadedHeader.Some? ==> ctx.Loaded() == src.inputs(preloadedHeader.value))
    }

    constructor (src: Source, ctx: PrlMineCtx, batchSize: int)
      requires ctx.Valid() && ctx.d.Safe() && batchSize <= SENTINEL && forall h :: ctx.d.Fits(src.inputs(h))
      ensures Valid() && this.src == src && this.ctx == ctx && preloadedHeader == None
      ensures this.batchSize == if batchSize < 1 then 1 else batchSize
    {
      this.src, this.ctx, this.batchSize, preloadedHeader := src, ctx, Max1(batchSize), None;
    }

    /** Nonces evaluated together: more than one only under the hardest target. */
    function BatchFor(target: int): nat { if target == 0 then batchSize else 1 }

    /** macs: M * K * N */
    function Macs(): nat { ctx.d.m * ctx.d.k * ctx.d.n }

    ghost predicate Wins(job: MiningJob, nonce: nat)
      requires Ok() && job.target >= 0
    {
      NonceWins(ctx.blake, ctx.d, src, job, nonce)
    }

    /** blake3(hdr + nonce + b"A").digest() for `batch` nonces from `attempt` on. */
    method Keys(header: Header, attempt: nat, batch: nat) returns (keysA: seq<Digest>, keysB: seq<Digest>)
      ensures |keysA| == |keysB| == batch
      ensures forall i :: 0 <= i < batch ==> keysA[i] == src.keyA(header, attempt + i) && keysB[i] == src.keyB(header, attempt + i)
    {
      keysA, keysB := [], [];
      for i := 0 to batch
        invariant |keysA| == |keysB| == i
        invariant forall q :: 0 <= q < i ==> keysA[q] == src.keyA(header, attempt + q) && keysB[q] == src.keyB(header, attempt + q)
      {
        keysA, keysB := keysA + [src.keyA(header, attempt + i)], keysB + [src.keyB(header, attempt + i)];
      }
    }

    /** The preload, skipped when the header is the one already loaded. */
    method Preload(job: MiningJob)
      requires Valid()
      modifies this`preloadedHeader, ctx.dA, ctx.dB
      ensures Valid() && preloadedHeader == Some(job.header) && ctx.Loaded() == src.inputs(job.header)
    {
      if preloadedHeader != Some(job.header) {
        ctx.SetInputs(src.inputs(job.header));
        preloadedHeader := Some(job.header);
      }
    }

    /** Nonces up to the first winner, or a whole batch without one. */
    method Search(job: MiningJob, attempt: nat) returns (res: BackendResult)
      requires Valid() && 0 <= job.target < ShlLimbs(1, 8)
      modifies this`preloadedHeader, ctx, ctx.mem, ctx.dA, ctx.dB, ctx.dEAL, ctx.dEAR, ctx.dEBL, ctx.dEBR, ctx.dU
      modifies ctx.dAn, ctx.dBn, ctx.dKeyBatch, ctx.dKeyBBatch
      ensures Valid()
      ensures ctx.dKeyBatch == old(ctx.dKeyBatch) || (ctx.dKeyBatch != null && fresh(ctx.dKeyBatch))
      ensures ctx.dKeyBBatch == old(ctx.dKeyBBatch) || (ctx.dKeyBBatch != null && fresh(ctx.dKeyBBatch))
      ensures Answers(ctx.blake, ctx.d, src, job, attempt, res) && res.workUnits == Macs() * res.attempts
      ensures res.attempts <= BatchFor(job.target)
      ensures !res.found ==> res.attempts == BatchFor(job.target) == if job.target == 0 then batchSize else 1
    {
      hide Answers, Reported, BatchReported, Outcome, GraphReports, KeyedJob, KeyedJobs, NonceJob, ShlLimbs, TargetWords, PrlMineCtx.Valid;
      Preload(job);
      var batch := BatchFor(job.target);
      var keysA, keysB := Keys(job.header, attempt, batch);
      var target := TargetWords(job.target);
      if batch == 1 {
        ctx.RunKeyedPreloaded(keysA[0], keysB[0], target);
        res := BackendResult(ctx.mem.found == 1, Macs(), 1, ctx.mem.aRow, ctx.mem.bCol, ctx.mem.trOut);
        OneNonce(ctx.blake, ctx.d, src, job, attempt, ctx.mem.found, res);
      } else {
        ghost var stale := ctx.mem.trOut;
        var rc := ctx.RunBatch(keysA, keysB, batch, target);
        var m := ctx.mem;
        ghost var jobs := KeyedJobs(ctx.blake, ctx.d, src.inputs(job.header), keysA, keysB, batch, target);
        FoundFlag(ctx.d, jobs, m.found, m.foundAttempt, m.aRow, m.bCol, m.trOut, stale);
        if m.found == 1 {
          res := BackendResult(true, Macs() * (m.foundAttempt + 1), m.foundAttempt + 1, m.aRow, m.bCol, m.trOut);
        } else {
          res := BackendResult(false, Macs() * batch, batch, m.aRow, m.bCol, m.trOut);
        }
        BatchAnswers(ctx.blake, ctx.d, src, job, attempt, keysA, keysB, m.found, m.foundAttempt, stale, res);
      }
    }
  }

  /** max(1, n) */
  function Max1(n: int): nat { if n < 1 then 1 else n }

  /** A single call's report answers for its nonce. */
  lemma OneNonce(blake: Blake, d: Dims, src: Source, job: MiningJob, nonce: nat, found: int, res: BackendResult)
    requires d.Safe() && d.Fits(src.inputs(job.header)) && job.target >= 0
    requires Reported(KeyedJob(blake, d, src.inputs(job.header), src.keyA(job.header, nonce), src.keyB(job.header, nonce), TargetWords(job.target)),
                      d.ScanShape(), found, res.aRow, res.bCol, res.words)
    requires res.attempts == 1 && res.found == (found == 1)
    ensures Answers(blake, d, src, job, nonce, res)
  {
    hide NoWinner, AnnouncesTile, KeyedJob, Reported, TargetWords;
    var z := NonceJob(blake, d, src, job, nonce);
    ReportedWithin(d, z, found, res.aRow, res.bCol, res.words);
    AnnouncedIsWinner(z, res.aRow, res.bCol, res.words);
  }

  ghost predicate JobsAreNonces(blake: Blake, d: Dims, src: Source, job: MiningJob, attempt: nat, jobs: seq<Job>)
    requires d.Ok() && d.Fits(src.inputs(job.header)) && job.target >= 0
  {
    forall i :: 0 <= i < |jobs| ==> jobs[i] == NonceJob(blake, d, src, job, attempt + i)
  }

  lemma NoncesOfJobs(blake: Blake, d: Dims, src: Source, job: MiningJob, attempt: nat, keysA: seq<Digest>, keysB: seq<Digest>, batch: nat)
    requires d.Ok() && d.Fits(src.inputs(job.header)) && job.target >= 0 && |keysA| == |keysB| == batch
    requires forall i :: 0 <= i < batch ==> keysA[i] == src.keyA(job.header, attempt + i) && keysB[i] == src.keyB(job.header, attempt + i)
    ensures JobsAreNonces(blake, d, src, job, attempt,
                          KeyedJobs(blake, d, src.inputs(job.header), keysA, keysB, batch, TargetWords(job.target)))
  {
    hide KeyedJob, TargetWords;
  }

  lemma FoundFlag(d: Dims, jobs: seq<Job>, found: int, att: int, aRow: int, bCol: int, words: Block, stale: Block)
    requires d.Safe() && BatchReported(jobs, d.ScanShape(), found, att, aRow, bCol, words, stale)
    ensures (found == 1 && 0 <= att < |jobs|) || found == 0
  {
    hide FirstAttempt, NoWinner, Shaped, ScanSafe;
    BatchReportedWithin(d, jobs, found, att, aRow, bCol, words, stale);
  }

  /** A batch call's report answers for the nonces its keys came from. */
  lemma BatchAnswers(blake: Blake, d: Dims, src: Source, job: MiningJob, attempt: nat, keysA: seq<Digest>, keysB: seq<Digest>,
                     found: int, att: int, stale: Block, res: BackendResult)
    requires d.Safe() && d.Fits(src.inputs(job.header)) && job.target >= 0 && |keysA| == |keysB| >= 1
    requires forall i :: 0 <= i < |keysA| ==> keysA[i] == src.keyA(job.header, attempt + i) && keysB[i] == src.keyB(job.header, attempt + i)
    requires BatchReported(KeyedJobs(blake, d, src.inputs(job.header), keysA, keysB, |keysA|, TargetWords(job.target)),
                           d.ScanShape(), found, att, res.aRow, res.bCol, res.words, stale)
    requires if found == 1 then res.found && res.attempts == att + 1 else !res.found && res.attempts == |keysA|
    ensures Answers(blake, d, src, job, attempt, res)
  {
    hide GraphReports, BatchReported, KeyedJobs, TargetWords, Answers;
    var jobs := KeyedJobs(blake, d, src.inputs(job.header), keysA, keysB, |keysA|, TargetWords(job.target));
    NoncesOfJobs(blake, d, src, job, attempt, keysA, keysB, |keysA|);
    FoundFlag(d, jobs, found, att, res.aRow, res.bCol, res.words, stale);
    BatchReportedWithin(d, jobs, found, att, res.aRow, res.bCol, res.words, stale);
    JobsHaveRank(d, jobs, found, att, res.aRow, res.bCol, res.words, stale);
    if found == 1 {
      FoundInBatch(blake, d, src, job, attempt, jobs, found, att, stale, res);
    } else {
      NothingInBatch(blake, d, src, job, attempt, jobs, found, att, res.aRow, res.bCol, res.words, stale, res);
    }
  }

  lemma JobsHaveRank(d: Dims, jobs: seq<Job>, found: int, att: int, aRow: int, bCol: int, words: Block, stale: Block)
    requires BatchReported(jobs, d.ScanShape(), found, att, aRow, bCol, words, stale)
    ensures forall i :: 0 <= i < |jobs| ==> jobs[i].r > 0
  {
    hide GraphReports, ScanSafe, Shaped;
  }

  lemma FoundInBatch(blake: Blake, d: Dims, src: Source, job: MiningJob, attempt: nat, jobs: seq<Job>,
                     found: int, att: int, stale: Block, res: BackendResult)
    requires d.Ok() && d.Fits(src.inputs(job.header)) && job.target >= 0 && JobsAreNonces(blake, d, src, job, attempt, jobs)
    requires (forall i :: 0 <= i < |jobs| ==> jobs[i].r > 0) && found == 1
    requires GraphReports(jobs, |jobs|, found, att, res.aRow, res.bCol, res.words, stale)
    requires res.found && res.attempts == att + 1
    ensures Answers(blake, d, src, job, attempt, res)
  {
    hide NoWinner, AnnouncesTile, NonceJob;
    AnnouncedIsWinner(jobs[att], res.aRow, res.bCol, res.words);
    forall q | attempt <= q < attempt + att
      ensures !NonceWins(blake, d, src, job, q)
    {
      assert jobs[q - attempt] == NonceJob(blake, d, src, job, attempt + (q - attempt));
    }
  }

  lemma NothingInBatch(blake: Blake, d: Dims, src: Source, job: MiningJob, attempt: nat, jobs: seq<Job>,
                       found: int, att: int, aRow: int, bCol: int, words: Block, stale: Block, res: BackendResult)
    requires d.Ok() && d.Fits(src.inputs(job.header)) && job.target >= 0 && JobsAreNonces(blake, d, src, job, attempt, jobs)
    requires (forall i :: 0 <= i < |jobs| ==> jobs[i].r > 0) && found == 0 && |jobs| >= 1
    requires GraphReports(jobs, |jobs|, found, att, aRow, bCol, words, stale)
    requires !res.found && res.attempts == |jobs|
    ensures Answers(blake, d, src, job, attempt, res)
  {
    hide NoWinner, FirstAttempt, NonceJob;
    forall q | attempt <= q < attempt + |jobs|
      ensures !NonceWins(blake, d, src, job, q)
    {
      assert jobs[q - attempt] == NonceJob(blake, d, src, job, attempt + (q - attempt));
    }
  }
}
