/** mine_loop against the gateway, over runs of any length. */
module MineLoop {
  import opened Words
  import opened Search
  import opened Gateway
  import opened Backend

  // ---------- the environment of one turn ----------

  /** What happens to a request. */
  datatype Net = Delivered | LostRequest | LostReply

  /** A sensor value as the driver reports it. */
  datatype Reading = Missing | Unreadable | Degrees(c: real)

  datatype Device = Device(temp: Reading, vram: Reading)

  /** One turn: sensor values, the fate of its requests, getMiningInfo calls of other clients while the
      search runs and between the confirmation and the submission, and whether the submit callback
      raises. */
  datatype Turn = Turn(dev: Device, poll: Net, confirm: Net, submit: Net, during: nat, between: nat, eventRaises: bool)

  datatype Sensor = TempC | VramTempC

  predicate AtLimit(r: Reading, limit: real) { r.Degrees? && r.c >= limit }

  class SafetyMonitor {
    const maxTempC: real
    const maxVramTempC: real

    constructor (maxTempC: real, maxVramTempC: real)
      ensures this.maxTempC == maxTempC && this.maxVramTempC == maxVramTempC
    {
      this.maxTempC, this.maxVramTempC := maxTempC, maxVramTempC;
    }

    /** check_thermal: the first sensor at its limit; missing and unreadable values never throttle. */
    function CheckThermal(dev: Device): (reason: Option<Sensor>)
      ensures reason == Some(TempC) <==> dev.temp.Degrees? && dev.temp.c >= maxTempC
      ensures reason == Some(VramTempC) <==> !(dev.temp.Degrees? && dev.temp.c >= maxTempC) && dev.vram.Degrees? && dev.vram.c >= maxVramTempC
    {
      if AtLimit(dev.temp, maxTempC) then Some(TempC)
      else if AtLimit(dev.vram, maxVramTempC) then Some(VramTempC)
      else None
    }
  }

  class Metrics {
    var workUnits: nat
    var attempts: nat
    var submitted: nat
    var accepted: nat
    var rejected: nat
    var stale: nat
    var jobSwitches: nat

    predicate Fresh()
      reads this
    {
      workUnits == attempts == submitted == accepted == rejected == stale == jobSwitches == 0
    }

    constructor ()
      ensures Fresh()
    {
      workUnits, attempts, submitted, accepted, rejected, stale, jobSwitches := 0, 0, 0, 0, 0, 0, 0;
    }
  }

  // ---------- the client ----------

  datatype Info = Current(job: MiningJob) | Paused | Raises

  /** getMiningInfo calls of one request that reach the gateway. */
  function Asked(net: Net): nat { if net == LostRequest then 0 else 1 }

  /** get_mining_info: the job, MiningPaused, or an exception. */
  method GetMiningInfo(gw: MockGateway, net: Net) returns (info: Info)
    requires gw.Valid()
    modifies gw`calls, gw`epoch
    ensures gw.Valid() && old(gw.epoch) <= gw.epoch && gw.Accepted() == old(gw.Accepted())
    ensures info.Current? ==> info.job == MiningJob(gw.CurrentHeader(), gw.target) && 0 <= gw.target < ShlLimbs(1, 8)
    ensures info.Paused? <==> net == Delivered && gw.calls <= gw.pausedFirst
    ensures info.Raises? <==> net != Delivered || (gw.calls > gw.pausedFirst && !(0 <= gw.target < ShlLimbs(1, 8)))
    ensures gw.calls == old(gw.calls) + Asked(net)
  {
    if net == LostRequest {
      return Raises;
    }
    var job := gw.NextJob();
    if net == LostReply {
      return Raises;
    }
    if job.None? {
      return Paused;
    }
    if !(0 <= job.value.target < ShlLimbs(1, 8)) {
      return Raises;
    }
    return Current(job.value);
  }

  /** submit_plain_proof; false when it raises. */
  method SubmitPlainProof(gw: MockGateway, job: MiningJob, net: Net) returns (acked: bool)
    requires gw.Valid()
    modifies gw`submissions, gw`acceptedByHeader, gw`droppedStale
    ensures gw.Valid() && acked == (net == Delivered)
    ensures net == LostRequest ==> gw.submissions == old(gw.submissions) && gw.droppedStale == old(gw.droppedStale)
    ensures net != LostRequest ==> gw.submissions == old(gw.submissions) + [job]
    ensures net != LostRequest ==> gw.droppedStale == old(gw.droppedStale) + (if job.header == gw.CurrentHeader() then 0 else 1)
  {
    if net == LostRequest {
      return false;
    }
    gw.RecordSubmit(job);
    return net == Delivered;
  }

  /** JobManager */
  class JobManager {
    const gw: MockGateway
    var current: Option<MiningJob>

    constructor (gw: MockGateway)
      ensures this.gw == gw && current == None
    {
      this.gw, current := gw, None;
    }

    /** poll: the job, or none while paused; changed when the header is a new one. */
    method Poll(net: Net) returns (info: Info, changed: bool)
      requires gw.Valid()
      modifies this`current, gw`calls, gw`epoch
      ensures gw.Valid() && old(gw.epoch) <= gw.epoch && gw.Accepted() == old(gw.Accepted())
      ensures info.Current? ==>
        && info.job == MiningJob(gw.CurrentHeader(), gw.target) && 0 <= gw.target < ShlLimbs(1, 8)
        && current == Some(info.job)
        && changed == (old(current).None? || old(current).value.header != info.job.header)
      ensures !info.Current? ==> current == old(current) && !changed
      ensures info.Paused? <==> net == Delivered && gw.calls <= gw.pausedFirst
      ensures info.Raises? <==> net != Delivered || (gw.calls > gw.pausedFirst && !(0 <= gw.target < ShlLimbs(1, 8)))
      ensures gw.calls == old(gw.calls) + Asked(net)
    {
      info := GetMiningInfo(gw, net);
      changed := false;
      if info.Current? {
        changed := current.None? || info.job.header != current.value.header;
        current := Some(info.job);
      }
    }
  }

  // ---------- what a run has to account for ----------

  /** A found result, as (header, nonce). */
  datatype Report = Report(header: Header, nonce: nat)

  predicate Precedes(r: Report, s: Report) {
    r.header.epoch < s.header.epoch || (r.header == s.header && r.nonce < s.nonce)
  }

  /** Reports are strictly increasing, so nothing is reported twice. */
  predicate Ordered(log: seq<Report>) {
    forall i, j :: 0 <= i < j < |log| ==> Precedes(log[i], log[j])
  }

  /** What a submission of each report shows the gateway. */
  function Jobs(reports: seq<Report>, target: int): (jobs: seq<MiningJob>)
    ensures |jobs| == |reports|
    ensures forall i :: 0 <= i < |jobs| ==> jobs[i] == MiningJob(reports[i].header, target)
  {
    seq(|reports|, i requires 0 <= i < |reports| => MiningJob(reports[i].header, target))
  }

  /** Sent are some of the found results, each once and in order. */
  ghost predicate Sent(arrived: seq<Report>, log: seq<Report>) {
    Ordered(arrived) && forall r :: r in arrived ==> r in log
  }

  /** The latest found result is sent after all earlier ones. */
  lemma OneMoreSent(arrived: seq<Report>, log: seq<Report>, r: Report, target: int)
    requires Sent(arrived, log) && Ordered(log + [r])
    ensures Sent(arrived + [r], log + [r]) && Sent(arrived, log + [r])
    ensures Jobs(arrived + [r], target) == Jobs(arrived, target) + [MiningJob(r.header, target)]
  {
    forall i | 0 <= i < |arrived|
      ensures Precedes(arrived[i], r)
    {
      assert arrived[i] in log;
      var j :| 0 <= j < |log| && log[j] == arrived[i];
      assert (log + [r])[j] == log[j] && (log + [r])[|log|] == r;
    }
  }

  /** The nonce meets the target under the header's own operands. */
  ghost predicate Hits(b: CudaMineBackend, target: int, r: Report)
    requires b.Ok()
  {
    0 <= target && b.Wins(MiningJob(r.header, target), r.nonce)
  }

  /** Reported are exactly the winning nonces among those evaluated. */
  ghost predicate Covers(b: CudaMineBackend, target: int, log: seq<Report>, reached: map<Header, nat>)
    requires b.Ok()
  {
    forall r: Report :: r in log <==> r.header in reached && r.nonce < reached[r.header] && Hits(b, target, r)
  }

  /** Nonces of the current header were evaluated from 0 up to attempt; the other headers are older. */
  ghost predicate Placed(current: Option<MiningJob>, target: int, epoch: nat, attempt: nat, reached: map<Header, nat>) {
    && (current.None? ==> reached == map[])
    && (current.Some? ==>
      var h := current.value.header;
      && 0 <= target && current.value.target == target && h.epoch <= epoch
      && h in reached && reached[h] == attempt
      && forall g :: g in reached && g != h ==> g.epoch < h.epoch)
  }

  /** A header not seen before starts at nonce 0. */
  lemma NewHeader(b: CudaMineBackend, target: int, log: seq<Report>, reached: map<Header, nat>, was: Option<MiningJob>, job: MiningJob,
                  epoch: nat, attempt: nat)
    requires b.Ok() && Covers(b, target, log, reached) && Placed(was, target, epoch, attempt, reached)
    requires job.header == Header(epoch) && job.target == target && 0 <= target && (was.Some? ==> was.value.header != job.header)
    ensures job.header !in reached
    ensures Covers(b, target, log, reached[job.header := 0]) && Placed(Some(job), target, epoch, 0, reached[job.header := 0])
    ensures Total(reached[job.header := 0], epoch + 1) == Total(reached, epoch + 1)
    ensures |reached[job.header := 0]| == |reached| + 1
  {
    hide Hits;
    TotalSet(reached, job.header, 0, epoch + 1);
  }

  /** Evaluating res.attempts more nonces of the current header. */
  lemma MoreNonces(b: CudaMineBackend, log: seq<Report>, reached: map<Header, nat>, job: MiningJob, epoch: nat, attempt: nat, res: BackendResult)
    requires b.Ok() && job.target >= 0
    requires Covers(b, job.target, log, reached) && Placed(Some(job), job.target, epoch, attempt, reached) && Ordered(log)
    requires Answers(b.ctx.blake, b.ctx.d, b.src, job, attempt, res)
    ensures res.attempts >= 1
    ensures var next := attempt + res.attempts;
            var log' := if res.found then log + [Report(job.header, next - 1)] else log;
            var reached' := reached[job.header := next];
            && Covers(b, job.target, log', reached') && Placed(Some(job), job.target, epoch, next, reached') && Ordered(log')
            && Total(reached', epoch + 1) == Total(reached, epoch + 1) + res.attempts && |reached'| == |reached|
  {
    hide Hits, Answers, Covers, Placed, Ordered, NonceWins, CudaMineBackend.Wins, CudaMineBackend.Ok;
    AnswersMeans(b, job, attempt, res);
    var next := attempt + res.attempts;
    var log' := if res.found then log + [Report(job.header, next - 1)] else log;
    MoreCovered(b, log, log', reached, job, epoch, attempt, res);
    MorePlaced(reached, job, epoch, attempt, next);
    OrderGrows(b, log, log', reached, job, epoch, attempt, res.found, next - 1);
  }

  lemma MorePlaced(reached: map<Header, nat>, job: MiningJob, epoch: nat, attempt: nat, next: nat)
    requires Placed(Some(job), job.target, epoch, attempt, reached) && next >= attempt
    ensures Placed(Some(job), job.target, epoch, next, reached[job.header := next])
    ensures Total(reached[job.header := next], epoch + 1) == Total(reached, epoch + 1) + (next - attempt)
    ensures |reached[job.header := next]| == |reached|
  {
    TotalSet(reached, job.header, next, epoch + 1);
    var reached' := reached[job.header := next];
    assert reached'.Keys == reached.Keys;
    assert |reached'| == |reached'.Keys| == |reached|;
  }

  lemma MoreCovered(b: CudaMineBackend, log: seq<Report>, log': seq<Report>, reached: map<Header, nat>, job: MiningJob, epoch: nat,
                    attempt: nat, res: BackendResult)
    requires b.Ok() && job.target >= 0 && Covers(b, job.target, log, reached) && Placed(Some(job), job.target, epoch, attempt, reached)
    requires res.attempts >= 1 && forall q :: attempt <= q < attempt + res.attempts - 1 ==> !b.Wins(job, q)
    requires res.found <==> b.Wins(job, attempt + res.attempts - 1)
    requires log' == if res.found then log + [Report(job.header, attempt + res.attempts - 1)] else log
    ensures Covers(b, job.target, log', reached[job.header := attempt + res.attempts])
  {
    hide Hits, NonceWins, CudaMineBackend.Wins, CudaMineBackend.Ok;
    var reached' := reached[job.header := attempt + res.attempts];
    forall r: Report
      ensures r in log' <==> r.header in reached' && r.nonce < reached'[r.header] && Hits(b, job.target, r)
    {
      assert r in log <==> r.header in reached && r.nonce < reached[r.header] && Hits(b, job.target, r);
      CoveredReport(b, log, log', reached, job, epoch, attempt, res, r);
    }
  }

  lemma CoveredReport(b: CudaMineBackend, log: seq<Report>, log': seq<Report>, reached: map<Header, nat>, job: MiningJob, epoch: nat,
                      attempt: nat, res: BackendResult, r: Report)
    requires b.Ok() && job.target >= 0 && job.header in reached && reached[job.header] == attempt
    requires r in log <==> r.header in reached && r.nonce < reached[r.header] && Hits(b, job.target, r)
    requires res.attempts >= 1 && forall q :: attempt <= q < attempt + res.attempts - 1 ==> !b.Wins(job, q)
    requires res.found <==> b.Wins(job, attempt + res.attempts - 1)
    requires log' == if res.found then log + [Report(job.header, attempt + res.attempts - 1)] else log
    ensures var reached' := reached[job.header := attempt + res.attempts];
            r in log' <==> r.header in reached' && r.nonce < reached'[r.header] && Hits(b, job.target, r)
  {
    hide Hits, NonceWins, CudaMineBackend.Wins, CudaMineBackend.Ok;
    LogGrows(log, log', r, res.found, Report(job.header, attempt + res.attempts - 1));
    NonceHits(b, job, r, attempt, res);
  }

  lemma NonceHits(b: CudaMineBackend, job: MiningJob, r: Report, attempt: nat, res: BackendResult)
    requires b.Ok() && job.target >= 0 && res.attempts >= 1
    requires forall q :: attempt <= q < attempt + res.attempts - 1 ==> !b.Wins(job, q)
    requires res.found <==> b.Wins(job, attempt + res.attempts - 1)
    ensures r.header == job.header && attempt <= r.nonce < attempt + res.attempts ==>
      (Hits(b, job.target, r) <==> res.found && r.nonce == attempt + res.attempts - 1)
  {
    hide NonceWins;
    assert job == MiningJob(job.header, job.target);
  }

  lemma OrderGrows(b: CudaMineBackend, log: seq<Report>, log': seq<Report>, reached: map<Header, nat>, job: MiningJob, epoch: nat, attempt: nat,
                   found: bool, nonce: nat)
    requires b.Ok() && Covers(b, job.target, log, reached) && Placed(Some(job), job.target, epoch, attempt, reached) && Ordered(log)
    requires log' == (if found then log + [Report(job.header, nonce)] else log) && nonce >= attempt
    ensures Ordered(log')
  {
    hide Hits;
    forall i | 0 <= i < |log|
      ensures Precedes(log[i], Report(job.header, nonce))
    {
      assert log[i] in log;
    }
  }

  lemma {:induction false} TotalSet(m: map<Header, nat>, h: Header, v: nat, n: nat)
    ensures Total(m[h := v], n) == Total(m, n) + (if h.epoch < n then v - (if h in m then m[h] else 0) else 0)
  {
    if n > 0 {
      TotalSet(m, h, v, n - 1);
    }
  }

  /** What settling has to account for, and what the gateway has been sent. */
  datatype Ledger = Ledger(submitted: nat, stale: nat, accepted: nat, submissions: seq<MiningJob>) {

    /** A found result has been submitted, or dropped as stale, or neither. */
    function After(sent: bool, dropped: bool, job: MiningJob, submit: Net): Ledger {
      Ledger(if sent then submitted + 1 else submitted, if dropped then stale + 1 else stale,
             if sent && submit == Delivered then accepted + 1 else accepted,
             if sent && submit != LostRequest then submissions + [job] else submissions)
    }
  }

  class Miner {
    const gw: MockGateway
    const backend: CudaMineBackend
    const safety: SafetyMonitor
    const metrics: Metrics
    const jm: JobManager
    const staleCancel: bool
    var attempt: nat
    ghost var log: seq<Report>             // found results, in order
    ghost var reached: map<Header, nat>    // nonces evaluated for each header
    ghost var doubled: nat                 // submissions counted both ways because the callback raised
    ghost var lostReplies: nat             // submissions that arrived without an acknowledgement
    ghost var unsettled: nat               // results lost because the confirmation raised
    ghost var prior: seq<MiningJob>        // submissions the gateway had before the run
    ghost var arrived: seq<Report>         // found results whose submission reached the gateway

    /** Found results are exactly the winning ones among the nonces evaluated. */
    ghost predicate Covered()
      requires backend.Ok()
      reads this
    {
      Covers(backend, gw.target, log, reached)
    }

    ghost predicate Current()
      reads this, gw, jm
    {
      jm.gw == gw && Placed(jm.current, gw.target, gw.epoch, attempt, reached)
    }

    /** The gateway has been sent some of the found results, each at most once and in order. */
    ghost predicate Arrivals()
      reads this, gw, metrics
    {
      && gw.submissions == prior + Jobs(arrived, gw.target) && Sent(arrived, log)
      && |arrived| == metrics.accepted + lostReplies
    }

    function Booked(): Ledger
      reads gw, metrics
    {
      Ledger(metrics.submitted, metrics.stale, metrics.accepted, gw.submissions)
    }

    /** Asking as call number `calls` to confirm the result for h raises. */
    ghost predicate ConfirmRaises(confirm: Net, calls: nat) {
      staleCancel && (confirm != Delivered || (calls > gw.pausedFirst && !(0 <= gw.target < ShlLimbs(1, 8))))
    }

    /** Asking as call number `calls` shows that the result for h is stale. */
    predicate Outdated(h: Header, calls: nat) { staleCancel && !gw.StillCurrent(h, calls) }

    ghost predicate Counters()
      reads this, gw, metrics, jm
    {
      && metrics.submitted + metrics.stale + unsettled == |log|
      && metrics.accepted + metrics.rejected == metrics.submitted + doubled
      && Arrivals()
      && metrics.workUnits == backend.Macs() * metrics.attempts
      && metrics.attempts == Total(reached, gw.epoch + 1)
      && metrics.jobSwitches == |reached|
    }

    ghost predicate Books()
      reads this, gw, metrics, jm
    {
      gw.Valid() && backend.Ok() && Current() && Covered() && Ordered(log) && Counters()
    }

    ghost predicate Inv()
      reads this, gw, metrics, jm, backend, backend.ctx, backend.ctx.dA, backend.ctx.dB
    {
      backend.Valid() && Books()
    }

    constructor (gw: MockGateway, backend: CudaMineBackend, metrics: Metrics, safety: SafetyMonitor, jm: JobManager, staleCancel: bool)
      requires gw.Valid() && backend.Valid() && jm.gw == gw && jm.current == None && metrics.Fresh()
      ensures Inv() && this.gw == gw && this.backend == backend && this.metrics == metrics && this.jm == jm
      ensures this.safety == safety && this.staleCancel == staleCancel
      ensures log == [] && reached == map[] && unsettled == doubled == lostReplies == 0 && prior == gw.submissions && arrived == []
    {
      this.gw, this.backend, this.safety, this.staleCancel := gw, backend, safety, staleCancel;
      this.metrics, this.jm := metrics, jm;
      attempt, log, reached, doubled, lostReplies, unsettled, prior, arrived := 0, [], map[], 0, 0, 0, gw.submissions, [];
      new;
      hide MockGateway.Valid, CudaMineBackend.Ok, CudaMineBackend.Valid, Hits;
      BackendIsOk(backend);
      TotalBeyond(map[], 0, gw.epoch + 1);
    }

    /** Work on a header: the counter starts again when the header is new. */
    method Adopt(job: MiningJob, changed: bool, ghost was: Option<MiningJob>)
      requires backend.Ok() && Covered() && jm.gw == gw && jm.current == Some(job) && job == MiningJob(gw.CurrentHeader(), gw.target)
      requires 0 <= gw.target && Placed(was, gw.target, gw.epoch, attempt, reached)
      requires changed == (was.None? || was.value.header != job.header)
      requires metrics.attempts == Total(reached, gw.epoch + 1) && metrics.jobSwitches == |reached|
      modifies this`attempt, this`reached, metrics`jobSwitches
      ensures Current() && Covered()
      ensures metrics.attempts == Total(reached, gw.epoch + 1) && metrics.jobSwitches == |reached|
    {
      hide Covers;
      if changed {
        metrics.jobSwitches := metrics.jobSwitches + 1;
        NewHeader(backend, gw.target, log, reached, was, job, gw.epoch, attempt);
        attempt := 0;
        reached := reached[job.header := 0];
      }
    }

    /** The accounting of what a search answers. */
    method Account(job: MiningJob, res: BackendResult)
      requires backend.Ok() && jm.current == Some(job) && 0 <= job.target == gw.target && Current() && Covered() && Ordered(log)
      requires Answers(backend.ctx.blake, backend.ctx.d, backend.src, job, attempt, res) && res.workUnits == backend.Macs() * res.attempts
      requires metrics.workUnits == backend.Macs() * metrics.attempts && metrics.attempts == Total(reached, gw.epoch + 1)
      modifies this`attempt, this`log, this`reached, metrics`attempts, metrics`workUnits
      ensures Current() && Covered() && Ordered(log)
      ensures attempt == old(attempt) + res.attempts && metrics.attempts == old(metrics.attempts) + res.attempts
      ensures log == if res.found then old(log) + [Report(job.header, attempt - 1)] else old(log)
      ensures metrics.workUnits == backend.Macs() * metrics.attempts && metrics.attempts == Total(reached, gw.epoch + 1)
      ensures |reached| == old(|reached|)
    {
      hide Answers, Covers, Ordered, Placed, CudaMineBackend.Wins, CudaMineBackend.Ok, Total;
      MoreNonces(backend, log, reached, job, gw.epoch, attempt, res);
      metrics.attempts := metrics.attempts + res.attempts;
      metrics.workUnits := metrics.workUnits + res.workUnits;
      WorkAdds(backend.Macs(), metrics.attempts - res.attempts, res.attempts);
      attempt := attempt + res.attempts;
      if res.found {
        log := log + [Report(job.header, attempt - 1)];
      }
      reached := reached[job.header := attempt];
    }

    /** Other clients ask for work while this one searches. */
    method WhileSearching(n: nat)
      requires Books()
      modifies gw`calls, gw`epoch
      ensures Books() && gw.calls == old(gw.calls) + n && (n == 0 ==> gw.epoch == old(gw.epoch))
    {
      hide Ordered, Covers, Placed, MockGateway.Valid, CudaMineBackend.Ok, Total;
      if n > 0 {
        gw.OtherClients(n);
        PlacedLater(jm.current, gw.target, old(gw.epoch), gw.epoch, attempt, reached);
      }
    }

    /** Whether the header of a found result is still the current one; None when asking raises. */
    method Confirm(job: MiningJob, net: Net) returns (still: Option<bool>)
      requires gw.Valid() && Current() && jm.current == Some(job) && metrics.attempts == Total(reached, gw.epoch + 1)
      modifies gw`calls, gw`epoch
      ensures gw.Valid() && Current() && metrics.attempts == Total(reached, gw.epoch + 1)
      ensures still.Some? ==> (still.value <==> gw.calls > gw.pausedFirst && gw.CurrentHeader() == job.header)
      ensures still.None? <==> net != Delivered || (gw.calls > gw.pausedFirst && !(0 <= gw.target < ShlLimbs(1, 8)))
      ensures gw.calls == old(gw.calls) + Asked(net)
    {
      hide ShlLimbs, Placed;
      var latest := GetMiningInfo(gw, net);
      PlacedLater(jm.current, gw.target, old(gw.epoch), gw.epoch, attempt, reached);
      if latest.Raises? {
        return None;
      }
      return Some(latest.Current? && latest.job.header == job.header);
    }

    /** Submission of a confirmed result. */
    method Submit(job: MiningJob, t: Turn)
      requires gw.Valid() && Current() && jm.current == Some(job) && metrics.attempts == Total(reached, gw.epoch + 1)
      modifies gw, metrics`submitted, metrics`accepted, metrics`rejected, this`doubled, this`lostReplies
      ensures gw.Valid() && Current() && metrics.attempts == Total(reached, gw.epoch + 1)
      ensures metrics.submitted == old(metrics.submitted) + 1
      ensures metrics.accepted == old(metrics.accepted) + if t.submit == Delivered then 1 else 0
      ensures metrics.rejected == old(metrics.rejected) + if t.submit != Delivered || t.eventRaises then 1 else 0
      ensures doubled == old(doubled) + if t.submit == Delivered && t.eventRaises then 1 else 0
      ensures lostReplies == old(lostReplies) + if t.submit == LostReply then 1 else 0
      ensures gw.submissions == old(gw.submissions) + if t.submit == LostRequest then [] else [job]
      ensures gw.calls == old(gw.calls) + t.between
      ensures t.between == 0 && old(gw.CurrentHeader()) == job.header ==> gw.droppedStale == old(gw.droppedStale)
    {
      hide Placed, MockGateway.Valid, Total;
      if t.between > 0 {
        gw.OtherClients(t.between);
        PlacedLater(jm.current, gw.target, old(gw.epoch), gw.epoch, attempt, reached);
      }
      metrics.submitted := metrics.submitted + 1;
      var acked := SubmitPlainProof(gw, job, t.submit);
      if acked {
        metrics.accepted := metrics.accepted + 1;
        if t.eventRaises {
          metrics.rejected := metrics.rejected + 1;
          doubled := doubled + 1;
        }
      } else {
        metrics.rejected := metrics.rejected + 1;
        if t.submit == LostReply {
          lostReplies := lostReplies + 1;
        }
      }
    }

    /** Confirmation and submission of a found result. It is dropped as stale if and only if it has to be
        confirmed and the confirming call is paused or shows another header; otherwise it is submitted. */
    method Settle(job: MiningJob, t: Turn) returns (aborted: bool)
      requires gw.Valid() && Current() && jm.current == Some(job) && unsettled == 0 && metrics.attempts == Total(reached, gw.epoch + 1)
      requires metrics.submitted + metrics.stale + 1 == |log| && log[|log| - 1].header == job.header && job.target == gw.target
      requires Ordered(log) && Sent(arrived, log[..|log| - 1])
      requires metrics.accepted + metrics.rejected == metrics.submitted + doubled
      requires gw.submissions == prior + Jobs(arrived, gw.target) && |arrived| == metrics.accepted + lostReplies
      requires t.during == 0 ==> gw.CurrentHeader() == job.header
      modifies gw, metrics`submitted, metrics`stale, metrics`accepted, metrics`rejected
      modifies this`doubled, this`lostReplies, this`unsettled, this`arrived
      ensures gw.Valid() && Current() && metrics.attempts == Total(reached, gw.epoch + 1)
      ensures metrics.submitted + metrics.stale + unsettled == |log|
      ensures metrics.accepted + metrics.rejected == metrics.submitted + doubled && Arrivals()
      ensures aborted <==> ConfirmRaises(t.confirm, old(gw.calls) + 1)
      ensures unsettled == if aborted then 1 else 0
      ensures Booked() == old(Booked()).After(!aborted && !Outdated(job.header, old(gw.calls) + 1), !aborted && Outdated(job.header, old(gw.calls) + 1),
                                              job, t.submit)
      ensures !aborted && Outdated(job.header, old(gw.calls) + 1) ==> gw.calls <= gw.pausedFirst || gw.CurrentHeader() != job.header
      ensures arrived == old(arrived) +
        if aborted || Outdated(job.header, old(gw.calls) + 1) || t.submit == LostRequest then [] else [log[|log| - 1]]
      ensures !t.eventRaises ==> doubled == old(doubled)
      ensures t.submit != LostReply ==> lostReplies == old(lostReplies)
      ensures t.between == 0 && (staleCancel || t.during == 0) ==> gw.droppedStale == old(gw.droppedStale)
      ensures gw.calls >= old(gw.calls)
    {
      hide ShlLimbs, Placed, Ordered, Sent, Total, Jobs, MockGateway.Valid;
      assert log[..|log| - 1] + [log[|log| - 1]] == log;
      OneMoreSent(arrived, log[..|log| - 1], log[|log| - 1], gw.target);
      if staleCancel {
        var still := Confirm(job, t.confirm);
        EpochNow(gw);
        if still.None? {
          unsettled := 1;
          return true;
        }
        if !still.value {
          metrics.stale := metrics.stale + 1;
          return false;
        }
      }
      Submit(job, t);
      if t.submit != LostRequest {
        arrived := arrived + [log[|log| - 1]];
      }
      return false;
    }

    /** The head of a pass: poll, and start over on a new header. */
    method Refresh(net: Net) returns (info: Info)
      requires Books()
      modifies this`attempt, this`reached, jm`current, gw`calls, gw`epoch, metrics`jobSwitches
      ensures Books()
      ensures info.Paused? <==> net == Delivered && gw.calls <= gw.pausedFirst
      ensures info.Raises? <==> net != Delivered || (gw.calls > gw.pausedFirst && !(0 <= gw.target < ShlLimbs(1, 8)))
      ensures gw.calls == old(gw.calls) + Asked(net)
      ensures info.Current? ==> jm.current == Some(info.job) && info.job.header == gw.CurrentHeader()
      ensures info.Current? ==> 0 <= info.job.target == gw.target < ShlLimbs(1, 8)
    {
      hide ShlLimbs, Ordered, Covers, Placed, MockGateway.Valid, CudaMineBackend.Ok, Total;
      ghost var was := jm.current;
      var changed;
      info, changed := jm.Poll(net);
      PlacedLater(was, gw.target, old(gw.epoch), gw.epoch, attempt, reached);
      if info.Current? {
        Adopt(info.job, changed, was);
      }
    }

    /** The tail of a pass: account for the answer, and settle what was found. */
    method Conclude(job: MiningJob, res: BackendResult, t: Turn) returns (aborted: bool, ghost nonce: nat)
      requires Books() && unsettled == 0 && jm.current == Some(job) && 0 <= job.target == gw.target
      requires Answers(backend.ctx.blake, backend.ctx.d, backend.src, job, attempt, res) && res.workUnits == backend.Macs() * res.attempts
      requires t.during == 0 ==> gw.CurrentHeader() == job.header
      modifies this, gw, metrics
      ensures Books() && prior == old(prior)
      ensures metrics.attempts == old(metrics.attempts) + res.attempts
      ensures log == old(log) + if res.found then [Report(job.header, nonce)] else []
      ensures aborted <==> res.found && ConfirmRaises(t.confirm, old(gw.calls) + 1)
      ensures !aborted ==> unsettled == 0
      ensures var dropped := res.found && !aborted && Outdated(job.header, old(gw.calls) + 1);
              var sent := res.found && !aborted && !dropped;
              && Booked() == old(Booked()).After(sent, dropped, job, t.submit)
              && arrived == old(arrived) + if sent && t.submit != LostRequest then [Report(job.header, nonce)] else []
      ensures res.found && !aborted && Outdated(job.header, old(gw.calls) + 1) ==> gw.calls <= gw.pausedFirst || gw.CurrentHeader() != job.header
      ensures !t.eventRaises ==> doubled == old(doubled)
      ensures t.submit != LostReply ==> lostReplies == old(lostReplies)
      ensures t.between == 0 && (staleCancel || t.during == 0) ==> gw.droppedStale == old(gw.droppedStale)
      ensures gw.calls >= old(gw.calls)
    {
      hide ShlLimbs, Ordered, Sent, Jobs, Covers, Placed, Answers, MockGateway.Valid, CudaMineBackend.Ok, Total, Ledger.After, Outdated, ConfirmRaises;
      AnswersSome(backend, job, attempt, res);
      Account(job, res);
      aborted, nonce := false, attempt - 1;
      if res.found {
        assert log[..|log| - 1] == old(log);
        aborted := Settle(job, t);
      } else {
        NothingBooked(Booked(), job, t.submit);
      }
    }

    /** The rest of a pass: search, and settle what was found. */
    method Work(job: MiningJob, t: Turn) returns (aborted: bool, ghost found: bool, ghost nonce: nat)
      requires Inv() && unsettled == 0
      requires jm.current == Some(job) && job.header == gw.CurrentHeader() && 0 <= job.target == gw.target < ShlLimbs(1, 8)
      modifies this, gw, metrics
      modifies backend, backend.ctx, backend.ctx.mem, backend.ctx.dA, backend.ctx.dB, backend.ctx.dEAL, backend.ctx.dEAR
      modifies backend.ctx.dEBL, backend.ctx.dEBR, backend.ctx.dU, backend.ctx.dAn, backend.ctx.dBn, backend.ctx.dKeyBatch, backend.ctx.dKeyBBatch
      ensures backend.ctx.dKeyBatch == old(backend.ctx.dKeyBatch) || (backend.ctx.dKeyBatch != null && fresh(backend.ctx.dKeyBatch))
      ensures backend.ctx.dKeyBBatch == old(backend.ctx.dKeyBBatch) || (backend.ctx.dKeyBBatch != null && fresh(backend.ctx.dKeyBBatch))
      ensures Inv() && prior == old(prior)
      ensures old(metrics.attempts) < metrics.attempts <= old(metrics.attempts) + backend.BatchFor(gw.target)
      ensures !found ==> metrics.attempts == old(metrics.attempts) + backend.BatchFor(gw.target)
      ensures log == old(log) + if found then [Report(job.header, nonce)] else []
      ensures aborted <==> found && ConfirmRaises(t.confirm, old(gw.calls) + t.during + 1)
      ensures !aborted ==> unsettled == 0
      ensures var dropped := found && !aborted && Outdated(job.header, old(gw.calls) + t.during + 1);
              var sent := found && !aborted && !dropped;
              && Booked() == old(Booked()).After(sent, dropped, job, t.submit)
              && arrived == old(arrived) + if sent && t.submit != LostRequest then [Report(job.header, nonce)] else []
      ensures found && !aborted && Outdated(job.header, old(gw.calls) + t.during + 1) ==> gw.calls <= gw.pausedFirst || gw.CurrentHeader() != job.header
      ensures !t.eventRaises ==> doubled == old(doubled)
      ensures t.submit != LostReply ==> lostReplies == old(lostReplies)
      ensures t.between == 0 && (staleCancel || t.during == 0) ==> gw.droppedStale == old(gw.droppedStale)
      ensures gw.calls >= old(gw.calls)
    {
      hide ShlLimbs, Answers, CudaMineBackend.Valid, CudaMineBackend.Ok, Books, Ledger.After, Outdated, ConfirmRaises;
      BackendIsOk(backend);
      WhileSearching(t.during);
      var res := backend.Search(job, attempt);
      AnswersSome(backend, job, attempt, res);
      found := res.found;
      aborted, nonce := Conclude(job, res, t);
    }

    /** One pass of the loop; it aborts where mine_loop would raise. A pass that polls a job on a cool device
        searches; a result it finds is dropped if and only if the confirming call shows that it is stale,
        and submitted otherwise. */
    method OneTurn(t: Turn) returns (aborted: bool)
      requires Inv() && unsettled == 0
      modifies this, gw, jm, metrics
      modifies backend, backend.ctx, backend.ctx.mem, backend.ctx.dA, backend.ctx.dB, backend.ctx.dEAL, backend.ctx.dEAR
      modifies backend.ctx.dEBL, backend.ctx.dEBR, backend.ctx.dU, backend.ctx.dAn, backend.ctx.dBn, backend.ctx.dKeyBatch, backend.ctx.dKeyBBatch
      ensures backend.ctx.dKeyBatch == old(backend.ctx.dKeyBatch) || (backend.ctx.dKeyBatch != null && fresh(backend.ctx.dKeyBatch))
      ensures backend.ctx.dKeyBBatch == old(backend.ctx.dKeyBBatch) || (backend.ctx.dKeyBBatch != null && fresh(backend.ctx.dKeyBBatch))
      ensures Inv() && prior == old(prior) && old(log) <= log
      ensures !aborted ==> unsettled == 0 && gw.calls > old(gw.calls)
      // when it aborts
      ensures t.poll != Delivered ==> aborted
      ensures old(gw.calls) + 1 > gw.pausedFirst && !(0 <= gw.target < ShlLimbs(1, 8)) ==> aborted
      ensures aborted ==> t.poll != Delivered || (staleCancel && t.confirm != Delivered) || !(0 <= gw.target < ShlLimbs(1, 8))
      // when it searches
      ensures Searches(t, old(gw.calls)) ==>
        && old(metrics.attempts) < metrics.attempts <= old(metrics.attempts) + backend.BatchFor(gw.target)
        && (log == old(log) ==> metrics.attempts == old(metrics.attempts) + backend.BatchFor(gw.target))
      ensures !Searches(t, old(gw.calls)) ==> metrics.attempts == old(metrics.attempts) && log == old(log)
      ensures safety.CheckThermal(t.dev).Some? ==> metrics.attempts == old(metrics.attempts) && log == old(log)
      // what becomes of a found result
      ensures log == old(log) ==>
        && metrics.submitted == old(metrics.submitted) && metrics.stale == old(metrics.stale) && metrics.accepted == old(metrics.accepted)
        && gw.submissions == old(gw.submissions) && arrived == old(arrived)
      ensures log != old(log) ==>
        |log| == |old(log)| + 1 && log[|log| - 1].header == Header(EpochAt(old(gw.calls) + 1, gw.pausedFirst, gw.rotateAfter))
      ensures metrics.stale == old(metrics.stale) || metrics.stale == old(metrics.stale) + 1
      ensures metrics.stale > old(metrics.stale) <==>
        log != old(log) && !aborted && staleCancel && !gw.StillCurrent(log[|log| - 1].header, old(gw.calls) + t.during + 2)
      ensures metrics.stale > old(metrics.stale) ==>
        && (gw.calls <= gw.pausedFirst || gw.CurrentHeader() != log[|log| - 1].header)
        && metrics.submitted == old(metrics.submitted) && gw.submissions == old(gw.submissions) && arrived == old(arrived)
      ensures log != old(log) && !aborted && metrics.stale == old(metrics.stale) ==>
        && metrics.submitted == old(metrics.submitted) + 1
        && metrics.accepted == old(metrics.accepted) + (if t.submit == Delivered then 1 else 0)
        && gw.submissions == old(gw.submissions) + (if t.submit == LostRequest then [] else [MiningJob(log[|log| - 1].header, gw.target)])
        && arrived == old(arrived) + (if t.submit == LostRequest then [] else [log[|log| - 1]])
      ensures !staleCancel || gw.rotateAfter == 0 ==> metrics.stale == old(metrics.stale)
      ensures !t.eventRaises ==> doubled == old(doubled)
      ensures t.submit != LostReply ==> lostReplies == old(lostReplies)
      ensures t.between == 0 && (staleCancel || t.during == 0) ==> gw.droppedStale == old(gw.droppedStale)
    {
      hide ShlLimbs, Books, CudaMineBackend.Valid, Ledger.After, MockGateway.StillCurrent, Outdated, ConfirmRaises;
      var info := Refresh(t.poll);
      if info.Raises? {
        return true;
      }
      if info.Paused? || safety.CheckThermal(t.dev).Some? {
        return false;
      }
      BooksGateway();
      NeverRotates(gw, gw.calls + t.during + 1);
      ghost var found, nonce;
      ghost var before := Booked();
      aborted, found, nonce := Work(info.job, t);
      AfterMeans(before, info.job, t.submit);
      ConfirmMeans(info.job.header, t.confirm, old(gw.calls) + t.during + 2);
    }

    /** A pass, as far as whole runs are concerned. */
    method NextTurn(t: Turn) returns (aborted: bool)
      requires Inv() && unsettled == 0
      modifies this, gw, jm, metrics
      modifies backend, backend.ctx, backend.ctx.mem, backend.ctx.dA, backend.ctx.dB, backend.ctx.dEAL, backend.ctx.dEAR
      modifies backend.ctx.dEBL, backend.ctx.dEBR, backend.ctx.dU, backend.ctx.dAn, backend.ctx.dBn, backend.ctx.dKeyBatch, backend.ctx.dKeyBBatch
      ensures backend.ctx.dKeyBatch == old(backend.ctx.dKeyBatch) || (backend.ctx.dKeyBatch != null && fresh(backend.ctx.dKeyBatch))
      ensures backend.ctx.dKeyBBatch == old(backend.ctx.dKeyBBatch) || (backend.ctx.dKeyBBatch != null && fresh(backend.ctx.dKeyBBatch))
      ensures Inv() && prior == old(prior) && (!aborted ==> unsettled == 0)
      ensures Stepped(Rules(), t, old(Now()), Now(), aborted)
    {
      hide ShlLimbs, Books, CudaMineBackend.Valid, MockGateway.StillCurrent;
      aborted := OneTurn(t);
      assert log == old(log) || log == old(log) + [log[|log| - 1]];
    }

    /** What does not change during a run. */
    function Rules(): Fixed {
      Fixed(safety, staleCancel && gw.rotateAfter > 0, staleCancel, gw.pausedFirst, 0 <= gw.target < ShlLimbs(1, 8), backend.BatchFor(gw.target))
    }

    ghost function Now(): Snapshot
      reads this, gw, metrics
    {
      Snapshot(metrics.attempts, gw.calls, metrics.stale, gw.droppedStale, doubled, lostReplies, arrived, log)
    }

    lemma ConfirmMeans(h: Header, confirm: Net, calls: nat)
      ensures Outdated(h, calls) <==> staleCancel && !gw.StillCurrent(h, calls)
      ensures ConfirmRaises(confirm, calls) ==> staleCancel && (confirm != Delivered || !(0 <= gw.target < ShlLimbs(1, 8)))
    {
      hide ShlLimbs, MockGateway.StillCurrent;
    }

    lemma BooksGateway()
      requires Books()
      ensures gw.Valid()
    {}

    /** The turn polls a job, on a device that is not too hot. */
    ghost predicate Searches(t: Turn, calls: nat) {
      && t.poll == Delivered && calls + 1 > gw.pausedFirst && 0 <= gw.target < ShlLimbs(1, 8)
      && safety.CheckThermal(t.dev).None?
    }

    /** Any run: one turn after the other, until the script of the environment ends or a turn aborts. */
    method RunLoop(turns: seq<Turn>) returns (aborted: bool)
      requires Inv() && unsettled == 0 && doubled == 0 && lostReplies == 0 && log == [] && arrived == []
      modifies this, gw, jm, metrics
      modifies backend, backend.ctx, backend.ctx.mem, backend.ctx.dA, backend.ctx.dB, backend.ctx.dEAL, backend.ctx.dEAR
      modifies backend.ctx.dEBL, backend.ctx.dEBR, backend.ctx.dU, backend.ctx.dAn, backend.ctx.dBn, backend.ctx.dKeyBatch, backend.ctx.dKeyBBatch
      ensures Inv() && prior == old(prior)
      // every cool turn but those of the initial pause evaluates nonces
      ensures !aborted ==> metrics.attempts + gw.pausedFirst >= old(metrics.attempts) + CoolTurns(safety, turns)
      ensures metrics.attempts <= old(metrics.attempts) + Scaled(backend.BatchFor(gw.target), CoolTurns(safety, turns))
      ensures (forall t :: t in turns ==> safety.CheckThermal(t.dev).Some?) ==> metrics.attempts == old(metrics.attempts)
      // every found result is submitted or dropped, and dropped only by the confirmation of a header that can rotate
      ensures !aborted ==> |log| == metrics.submitted + metrics.stale
      ensures !staleCancel || gw.rotateAfter == 0 ==> metrics.stale == old(metrics.stale)
      ensures !aborted && (!staleCancel || gw.rotateAfter == 0) && (forall t :: t in turns ==> t.submit != LostRequest) ==> arrived == log
      // when it aborts
      ensures !aborted ==> forall t :: t in turns ==> t.poll == Delivered
      ensures 0 <= gw.target < ShlLimbs(1, 8) && (forall t :: t in turns ==> t.poll == Delivered && (staleCancel ==> t.confirm == Delivered)) ==>
        !aborted
      ensures (forall t :: t in turns ==> !t.eventRaises) ==> metrics.submitted == metrics.accepted + metrics.rejected
      ensures (forall t :: t in turns ==> t.between == 0 && (staleCancel || t.during == 0)) ==>
        gw.droppedStale == old(gw.droppedStale)
      ensures (forall t :: t in turns ==> t.between == 0 && (staleCancel || t.during == 0) && t.submit != LostReply) ==>
        gw.Accepted() + gw.droppedStale == |prior| + metrics.accepted
    {
      hide Inv, SoFar, Stepped, CoolTurns, Scaled, ShlLimbs, MockGateway.Accepted;
      aborted := false;
      var i := 0;
      Start(Rules(), turns, Now());
      while i < |turns| && !aborted
        invariant 0 <= i <= |turns| && Inv() && prior == old(prior)
        invariant !aborted ==> unsettled == 0
        invariant backend.ctx.dKeyBatch == old(backend.ctx.dKeyBatch) || (backend.ctx.dKeyBatch != null && fresh(backend.ctx.dKeyBatch))
        invariant backend.ctx.dKeyBBatch == old(backend.ctx.dKeyBBatch) || (backend.ctx.dKeyBBatch != null && fresh(backend.ctx.dKeyBBatch))
        invariant SoFar(Rules(), turns, i, old(Now()), Now(), aborted)
        decreases |turns| - i
      {
        ghost var before := Now();
        aborted := NextTurn(turns[i]);
        OneMore(Rules(), turns, i, old(Now()), before, Now(), aborted);
        i := i + 1;
      }
      AtTheEnd(Rules(), turns, i, old(Now()), Now(), aborted);
      Accounts();
    }

    lemma Accounts()
      requires Inv()
      ensures metrics.submitted + metrics.stale + unsettled == |log| && metrics.accepted + metrics.rejected == metrics.submitted + doubled
      ensures gw.Accepted() + gw.droppedStale == |prior| + metrics.accepted + lostReplies
    {
      hide Covered, Current, Sent, CudaMineBackend.Valid, Ordered, CudaMineBackend.Ok, Total;
      Balance(gw);
    }
  }

  // ---------- turns ----------

  /** The turns on a device that is not too hot. */
  function CoolTurns(safety: SafetyMonitor, turns: seq<Turn>): nat {
    if turns == [] then 0
    else CoolTurns(safety, turns[..|turns| - 1]) + if safety.CheckThermal(turns[|turns| - 1].dev).None? then 1 else 0
  }

  function Scaled(x: nat, y: nat): nat { x * y }

  /** What a run depends on: the sensors' limits, whether results can become stale, whether they are
      confirmed, the initial pause, whether the target is valid, and the nonces of a batch. */
  datatype Fixed = Fixed(safety: SafetyMonitor, canStale: bool, confirms: bool, pausedFirst: nat, validTarget: bool, batch: nat)

  /** What a turn may change. */
  datatype Snapshot = Snapshot(attempts: nat, calls: nat, stale: nat, dropped: nat, doubled: nat, lost: nat, arrived: seq<Report>, log: seq<Report>)

  function Heat(f: Fixed, t: Turn): nat { if f.safety.CheckThermal(t.dev).None? then 1 else 0 }

  predicate Undisturbed(f: Fixed, t: Turn) { t.between == 0 && (f.confirms || t.during == 0) }

  /** From s to s' by turn t. */
  predicate Stepped(f: Fixed, t: Turn, s: Snapshot, s': Snapshot, aborted: bool) {
    && (!aborted ==> s'.attempts + Min(s'.calls, f.pausedFirst) >= s.attempts + Min(s.calls, f.pausedFirst) + Heat(f, t))
    && s.attempts <= s'.attempts <= s.attempts + (if Heat(f, t) == 1 then f.batch else 0)
    && (!f.canStale ==> s'.stale == s.stale && (!aborted && t.submit != LostRequest && s.arrived == s.log ==> s'.arrived == s'.log))
    && (!aborted ==> t.poll == Delivered)
    && (aborted ==> t.poll != Delivered || (f.confirms && t.confirm != Delivered) || !f.validTarget)
    && (!t.eventRaises ==> s'.doubled == s.doubled)
    && (t.submit != LostReply ==> s'.lost == s.lost)
    && (Undisturbed(f, t) ==> s'.dropped == s.dropped)
  }

  /** From s0 to s by the first i turns. */
  ghost predicate SoFar(f: Fixed, turns: seq<Turn>, i: nat, s0: Snapshot, s: Snapshot, aborted: bool)
    requires i <= |turns|
  {
    && (!aborted ==> s.attempts + Min(s.calls, f.pausedFirst) >= s0.attempts + CoolTurns(f.safety, turns[..i]))
    && s0.attempts <= s.attempts <= s0.attempts + Scaled(f.batch, CoolTurns(f.safety, turns[..i]))
    && ((forall q :: 0 <= q < i ==> Heat(f, turns[q]) == 0) ==> s.attempts == s0.attempts)
    && (!f.canStale ==> s.stale == s0.stale)
    && (!f.canStale && !aborted && s0.arrived == s0.log && (forall q :: 0 <= q < i ==> turns[q].submit != LostRequest) ==> s.arrived == s.log)
    && (!aborted ==> forall q :: 0 <= q < i ==> turns[q].poll == Delivered)
    && (aborted ==> i > 0 && (turns[i - 1].poll != Delivered || (f.confirms && turns[i - 1].confirm != Delivered) || !f.validTarget))
    && ((forall q :: 0 <= q < i ==> !turns[q].eventRaises) ==> s.doubled == s0.doubled)
    && ((forall q :: 0 <= q < i ==> turns[q].submit != LostReply) ==> s.lost == s0.lost)
    && ((forall q :: 0 <= q < i ==> Undisturbed(f, turns[q])) ==> s.dropped == s0.dropped)
  }

  lemma Start(f: Fixed, turns: seq<Turn>, s: Snapshot)
    ensures SoFar(f, turns, 0, s, s, false)
  {}

  lemma OneMore(f: Fixed, turns: seq<Turn>, i: nat, s0: Snapshot, s: Snapshot, s': Snapshot, aborted: bool)
    requires i < |turns| && SoFar(f, turns, i, s0, s, false) && Stepped(f, turns[i], s, s', aborted)
    ensures SoFar(f, turns, i + 1, s0, s', aborted)
  {
    hide CoolTurns, Scaled;
    OneMoreTurn(f.safety, turns, i, f.batch);
  }

  lemma AtTheEnd(f: Fixed, turns: seq<Turn>, i: nat, s0: Snapshot, s: Snapshot, aborted: bool)
    requires i <= |turns| && SoFar(f, turns, i, s0, s, aborted) && (i < |turns| ==> aborted)
    ensures !aborted ==> s.attempts + f.pausedFirst >= s0.attempts + CoolTurns(f.safety, turns)
    ensures s.attempts <= s0.attempts + Scaled(f.batch, CoolTurns(f.safety, turns))
    ensures (forall t :: t in turns ==> f.safety.CheckThermal(t.dev).Some?) ==> s.attempts == s0.attempts
    ensures !f.canStale ==> s.stale == s0.stale
    ensures !f.canStale && !aborted && s0.arrived == s0.log && (forall t :: t in turns ==> t.submit != LostRequest) ==> s.arrived == s.log
    ensures !aborted ==> forall t :: t in turns ==> t.poll == Delivered
    ensures f.validTarget && (forall t :: t in turns ==> t.poll == Delivered && (f.confirms ==> t.confirm == Delivered)) ==> !aborted
    ensures (forall t :: t in turns ==> !t.eventRaises) ==> s.doubled == s0.doubled
    ensures (forall t :: t in turns ==> t.submit != LostReply) ==> s.lost == s0.lost
    ensures (forall t :: t in turns ==> Undisturbed(f, t)) ==> s.dropped == s0.dropped
  {
    hide CoolTurns, Scaled;
    FewerTurns(f.safety, turns, i, f.batch);
  }

  lemma OneMoreTurn(safety: SafetyMonitor, turns: seq<Turn>, i: nat, batch: nat)
    requires i < |turns|
    ensures CoolTurns(safety, turns[..i + 1]) == CoolTurns(safety, turns[..i]) + if safety.CheckThermal(turns[i].dev).None? then 1 else 0
    ensures Scaled(batch, CoolTurns(safety, turns[..i + 1]))
         == Scaled(batch, CoolTurns(safety, turns[..i])) + if safety.CheckThermal(turns[i].dev).None? then batch else 0
  {
    assert turns[..i + 1][..i] == turns[..i];
    OneMoreTime(batch, CoolTurns(safety, turns[..i]));
  }

  lemma OneMoreTime(x: nat, y: nat)
    ensures Scaled(x, y + 1) == Scaled(x, y) + x
  {}

  lemma {:induction false} FewerTurns(safety: SafetyMonitor, turns: seq<Turn>, i: nat, batch: nat)
    requires i <= |turns|
    ensures turns[..|turns|] == turns
    ensures CoolTurns(safety, turns[..i]) <= CoolTurns(safety, turns)
    ensures Scaled(batch, CoolTurns(safety, turns[..i])) <= Scaled(batch, CoolTurns(safety, turns))
    decreases |turns| - i
  {
    assert turns[..|turns|] == turns;
    if i < |turns| {
      OneMoreTurn(safety, turns, i, batch);
      FewerTurns(safety, turns, i + 1, batch);
    }
  }

  /** mine_loop: with fresh metrics and any environment. */
  method Mine(gw: MockGateway, backend: CudaMineBackend, metrics: Metrics, safety: SafetyMonitor, staleCancel: bool, turns: seq<Turn>)
      returns (aborted: bool, miner: Miner)
    requires gw.Valid() && backend.Valid() && metrics.Fresh()
    modifies gw, metrics
    modifies backend, backend.ctx, backend.ctx.mem, backend.ctx.dA, backend.ctx.dB, backend.ctx.dEAL, backend.ctx.dEAR
    modifies backend.ctx.dEBL, backend.ctx.dEBR, backend.ctx.dU, backend.ctx.dAn, backend.ctx.dBn, backend.ctx.dKeyBatch, backend.ctx.dKeyBBatch
    ensures miner.Inv() && miner.gw == gw && miner.backend == backend && miner.metrics == metrics
    // what was evaluated and found
    ensures backend.Ok() && Covers(backend, gw.target, miner.log, miner.reached)
    ensures forall i, j :: 0 <= i < j < |miner.log| ==>
      var r, s := miner.log[i], miner.log[j]; r.header.epoch < s.header.epoch || (r.header == s.header && r.nonce < s.nonce)
    ensures metrics.attempts == Total(miner.reached, gw.epoch + 1)
    ensures metrics.workUnits == backend.ctx.d.m * backend.ctx.d.k * backend.ctx.d.n * metrics.attempts
    ensures metrics.jobSwitches == |miner.reached|
    ensures !aborted ==> metrics.attempts + gw.pausedFirst >= CoolTurns(safety, turns)
    ensures metrics.attempts <= Scaled(backend.BatchFor(gw.target), CoolTurns(safety, turns))
    ensures (forall t :: t in turns ==> safety.CheckThermal(t.dev).Some?) ==> metrics.attempts == 0
    // what became of it
    ensures !aborted ==> |miner.log| == metrics.submitted + metrics.stale
    ensures !staleCancel || gw.rotateAfter == 0 ==> metrics.stale == 0
    ensures gw.submissions == old(gw.submissions) + Jobs(miner.arrived, gw.target) && Sent(miner.arrived, miner.log)
    ensures !aborted && (!staleCancel || gw.rotateAfter == 0) && (forall t :: t in turns ==> t.submit != LostRequest) ==>
      gw.submissions == old(gw.submissions) + Jobs(miner.log, gw.target)
    ensures (forall t :: t in turns ==> !t.eventRaises) ==> metrics.submitted == metrics.accepted + metrics.rejected
    ensures (forall t :: t in turns ==> t.between == 0 && (staleCancel || t.during == 0)) ==> gw.droppedStale == old(gw.droppedStale)
    ensures (forall t :: t in turns ==> t.between == 0 && (staleCancel || t.during == 0) && t.submit != LostReply) ==>
      gw.Accepted() == old(gw.Accepted()) + metrics.accepted
    // when it ends early
    ensures !aborted ==> forall t :: t in turns ==> t.poll == Delivered
    ensures 0 <= gw.target < ShlLimbs(1, 8) && (forall t :: t in turns ==> t.poll == Delivered && (staleCancel ==> t.confirm == Delivered)) ==>
      !aborted
  {
    hide MockGateway.Valid, CudaMineBackend.Valid, CudaMineBackend.Ok, Total, Miner.Inv, Covers, Ordered, Sent, ShlLimbs, CoolTurns, Scaled, Jobs;
    var jm := new JobManager(gw);
    miner := new Miner(gw, backend, metrics, safety, jm, staleCancel);
    Balance(gw);
    aborted := miner.RunLoop(turns);
    InvMeans(miner);
  }

  lemma InvMeans(miner: Miner)
    requires miner.Inv()
    ensures miner.backend.Ok() && Covers(miner.backend, miner.gw.target, miner.log, miner.reached)
    ensures forall i, j :: 0 <= i < j < |miner.log| ==>
      var r, s := miner.log[i], miner.log[j]; r.header.epoch < s.header.epoch || (r.header == s.header && r.nonce < s.nonce)
    ensures miner.metrics.attempts == Total(miner.reached, miner.gw.epoch + 1)
    ensures miner.metrics.workUnits == miner.backend.Macs() * miner.metrics.attempts && miner.metrics.jobSwitches == |miner.reached|
    ensures miner.gw.submissions == miner.prior + Jobs(miner.arrived, miner.gw.target) && Sent(miner.arrived, miner.log)
  {
    hide Covers, Sent, Jobs, Total;
  }

  lemma Balance(gw: MockGateway)
    requires gw.Valid()
    ensures |gw.submissions| == gw.Accepted() + gw.droppedStale
  {}

  lemma AfterMeans(was: Ledger, job: MiningJob, submit: Net)
    ensures was.After(false, false, job, submit) == was && was.After(false, true, job, submit) == was.(stale := was.stale + 1)
    ensures was.After(true, false, job, submit) ==
      Ledger(was.submitted + 1, was.stale, was.accepted + (if submit == Delivered then 1 else 0),
             was.submissions + if submit == LostRequest then [] else [job])
  {}

  lemma NothingBooked(was: Ledger, job: MiningJob, submit: Net)
    ensures was.After(false, false, job, submit) == was
  {}

  /** A gateway that never rotates shows the header it always showed. */
  lemma NeverRotates(gw: MockGateway, calls: nat)
    requires gw.Valid() && gw.calls > gw.pausedFirst && calls >= gw.calls
    ensures gw.CurrentHeader() == Header(EpochAt(gw.calls, gw.pausedFirst, gw.rotateAfter))
    ensures gw.rotateAfter == 0 ==> gw.StillCurrent(gw.CurrentHeader(), calls)
  {}

  lemma EpochNow(gw: MockGateway)
    requires gw.Valid()
    ensures gw.CurrentHeader() == Header(EpochAt(gw.calls, gw.pausedFirst, gw.rotateAfter))
  {}

  lemma BackendIsOk(b: CudaMineBackend)
    requires b.Valid()
    ensures b.Ok()
  {}

  /** Answers, in terms of the backend's Wins. */
  lemma AnswersMeans(b: CudaMineBackend, job: MiningJob, attempt: nat, res: BackendResult)
    requires b.Ok() && job.target >= 0 && Answers(b.ctx.blake, b.ctx.d, b.src, job, attempt, res)
    ensures res.attempts >= 1
    ensures forall q :: attempt <= q < attempt + res.attempts - 1 ==> !b.Wins(job, q)
    ensures res.found <==> b.Wins(job, attempt + res.attempts - 1)
  {
    hide NoWinner, NonceWins;
  }

  lemma AnswersSome(b: CudaMineBackend, job: MiningJob, attempt: nat, res: BackendResult)
    requires b.Ok() && job.target >= 0 && Answers(b.ctx.blake, b.ctx.d, b.src, job, attempt, res)
    ensures res.attempts >= 1
  {
    AnswersMeans(b, job, attempt, res);
  }

  lemma WorkAdds(macs: nat, before: nat, more: nat)
    ensures macs * before + macs * more == macs * (before + more)
  {}

  lemma LogGrows(before: seq<Report>, log: seq<Report>, r: Report, found: bool, last: Report)
    requires log == if found then before + [last] else before
    ensures r in log <==> r in before || (found && r == last)
  {}

  /** Moving to a later epoch leaves the account of the headers worked on as it is. */
  lemma PlacedLater(current: Option<MiningJob>, target: int, epoch: nat, later: nat, attempt: nat, reached: map<Header, nat>)
    requires Placed(current, target, epoch, attempt, reached) && epoch <= later
    ensures Placed(current, target, later, attempt, reached) && Total(reached, later + 1) == Total(reached, epoch + 1)
  {
    TotalBeyond(reached, epoch + 1, later + 1);
  }
}
