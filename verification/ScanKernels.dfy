/** The scan kernels over device memory: single, batched, and the stream-ordered graph. */
module ScanKernels {
  import opened Bits
  import opened Words
  import opened Ring
  import opened Transcript
  import opened Search
  import opened Scan

  /** cudaMemset(..., 0x7f, 4) */
  const SENTINEL: int := 0x7f7f7f7f

  // ---------- what a scan has to announce ----------

  ghost predicate AnnouncesTile(z: Job, aRow: int, bCol: int, words: Block)
    requires z.r > 0
  {
    exists t :: FirstWinner(z, t) && aRow == TopRow(z, t) && bCol == LeftCol(z, t) && words == Words16(z, t)
  }

  /** The first attempt that has a winner at all, and its first winning tile. */
  ghost predicate FirstAttempt(jobs: seq<Job>, att: int, aRow: int, bCol: int, words: Block)
    requires forall z :: z in jobs ==> z.r > 0
  {
    && 0 <= att < |jobs| && AnnouncesTile(jobs[att], aRow, bCol, words)
    && forall q :: 0 <= q < att ==> NoWinner(jobs[q])
  }

  ghost predicate NoAttempt(jobs: seq<Job>)
    requires forall z :: z in jobs ==> z.r > 0
  {
    forall q :: 0 <= q < |jobs| ==> NoWinner(jobs[q])
  }

  lemma FirstAttemptUnique(jobs: seq<Job>, att: int, aRow: int, bCol: int, words: Block, att': int, aRow': int, bCol': int, words': Block)
    requires forall z :: z in jobs ==> z.r > 0
    requires FirstAttempt(jobs, att, aRow, bCol, words) && FirstAttempt(jobs, att', aRow', bCol', words')
    ensures att == att' && aRow == aRow' && bCol == bCol' && words == words'
    ensures !NoAttempt(jobs)
  {
    hide TileTranscript, MeetsTarget, IsTile, Words16;
    var t :| FirstWinner(jobs[att], t) && aRow == TopRow(jobs[att], t) && bCol == LeftCol(jobs[att], t) && words == Words16(jobs[att], t);
    var u :| FirstWinner(jobs[att'], u) && aRow' == TopRow(jobs[att'], u) && bCol' == LeftCol(jobs[att'], u) && words' == Words16(jobs[att'], u);
    assert Wins(jobs[att], t) && Wins(jobs[att'], u);
    if att == att' {
      FirstWinnerUnique(jobs[att], t, u);
    }
  }

  /** What a single search returns: a winner's tile, or nothing; the words only on a find. */
  ghost predicate Outcome(z: Job, found: int, aRow: int, bCol: int, words: Block)
    requires z.r > 0
  {
    || (found == 1 && AnnouncesTile(z, aRow, bCol, words))
    || (found == 0 && NoWinner(z) && aRow == -1 && bCol == -1)
  }

  /** The outcome is a function of the job: nothing that happened before can show in it. */
  lemma OutcomeUnique(z: Job, found: int, aRow: int, bCol: int, words: Block, found': int, aRow': int, bCol': int, words': Block)
    requires z.r > 0 && Outcome(z, found, aRow, bCol, words) && Outcome(z, found', aRow', bCol', words')
    ensures found == found' && aRow == aRow' && bCol == bCol' && (found == 1 ==> words == words')
  {
    hide AnnouncesTile, NoWinner;
    AnnouncedIsWinner(z, aRow, bCol, words);
    AnnouncedIsWinner(z, aRow', bCol', words');
    if found == 1 && found' == 1 {
      AnnouncedUnique(z, aRow, bCol, words, aRow', bCol', words');
    }
  }

  lemma AnnouncedIsWinner(z: Job, aRow: int, bCol: int, words: Block)
    requires z.r > 0
    ensures AnnouncesTile(z, aRow, bCol, words) ==> !NoWinner(z)
  {
    hide Wins, Words16;
    if AnnouncesTile(z, aRow, bCol, words) {
      var t :| FirstWinner(z, t) && aRow == TopRow(z, t) && bCol == LeftCol(z, t) && words == Words16(z, t);
      assert Wins(z, t);
    }
  }

  lemma AnnouncedUnique(z: Job, aRow: int, bCol: int, words: Block, aRow': int, bCol': int, words': Block)
    requires z.r > 0 && AnnouncesTile(z, aRow, bCol, words) && AnnouncesTile(z, aRow', bCol', words')
    ensures aRow == aRow' && bCol == bCol' && words == words'
  {
    hide Wins, Words16;
    var t :| FirstWinner(z, t) && aRow == TopRow(z, t) && bCol == LeftCol(z, t) && words == Words16(z, t);
    var u :| FirstWinner(z, u) && aRow' == TopRow(z, u) && bCol' == LeftCol(z, u) && words' == Words16(z, u);
    FirstWinnerUnique(z, t, u);
  }

  // ---------- one thread ----------

  /** Position of the transcript of flat index idx: sr * ST_cols + sc. */
  function TileAddress(s: Shape, idx: nat): nat
    requires s.Even() && s.TJ() > 0 && s.SH() > 0 && s.SW() > 0
  {
    var t := IndexToTile(idx, s.TJ(), s.SH(), s.SW());
    Times(Times(t.bi, s.SH()) + t.hi, s.STCols()) + (Times(t.bj, s.SW()) + t.wi)
  }

  predicate Live(s: Shape) {
    s.Even() && s.m > 0 && s.n > 0
  }

  lemma LiveDigits(s: Shape)
    requires Live(s)
    ensures s.TI() > 0 && s.TJ() > 0 && s.SH() > 0 && s.SW() > 0
    ensures s.STCols() == Times(s.TJ(), s.SW()) && s.m / s.th == Times(s.TI(), s.SH())
  {
    EvenQuotient(s.m, s.r, s.th);
    EvenQuotient(s.n, s.r, s.tw);
  }

  lemma EvenQuotient(m: nat, r: nat, t: nat)
    requires m > 0 && r > 0 && t > 0 && m % r == 0 && r % t == 0
    ensures m / r > 0 && r / t > 0 && m / t == (m / r) * (r / t)
  {
    var q, p := m / r, r / t;
    assert m == q * r && r == p * t;
    assert q > 0 && p > 0;
    assert m == (q * p) * t;
    Bits.DivModUnique(m, t, q * p, 0);
  }

  lemma AddressInRange(s: Shape, idx: nat)
    requires Live(s) && idx < s.Total()
    ensures s.TI() > 0 && s.TJ() > 0 && s.SH() > 0 && s.SW() > 0
    ensures TileAddress(s, idx) < s.Total()
  {
    LiveDigits(s);
    EncodeDecode(idx, s.TI(), s.TJ(), s.SH(), s.SW());
    var t := IndexToTile(idx, s.TJ(), s.SH(), s.SW());
    NestBelow(t.bi, s.TI(), s.SH(), t.hi);
    NestBelow(t.bj, s.TJ(), s.SW(), t.wi);
    NestBelow(t.bi * s.SH() + t.hi, s.TI() * s.SH(), s.STCols(), t.bj * s.SW() + t.wi);
    Reorder(s.TI(), s.TJ(), s.SH(), s.SW());
  }

  lemma Reorder(a: nat, b: nat, c: nat, d: nat)
    ensures (a * c) * (b * d) == a * b * c * d
  {
    assert (a * c) * (b * d) == ((a * c) * b) * d;
    assert (a * c) * b == (a * b) * c;
  }

  /** Transcript of flat index idx in the slice of the buffer that starts at base. */
  function TileBlock(s: Shape, tr: seq<Block>, base: nat, idx: nat): Block
    requires Live(s) && idx < s.Total() && base + s.Total() <= |tr|
  {
    AddressInRange(s, idx);
    tr[base + TileAddress(s, idx)]
  }

  /** The comparison of a scan thread. */
  predicate ThreadWins(blake: Blake, s: Shape, tr: seq<Block>, base: nat, key: Digest, target: Digest, idx: nat)
    requires Live(s) && idx < s.Total() && base + s.Total() <= |tr|
  {
    LimbsLe(blake(TileBlock(s, tr, base, idx), key), target, 8)
  }

  /** The slice of tr at base holds the transcripts of job z. */
  ghost predicate SliceHolds(z: Job, s: Shape, tr: seq<Block>, base: nat)
    requires Live(s) && z.r > 0 && base + s.Total() <= |tr|
  {
    s == Shape(z.m, z.n, z.r, z.th, z.tw) && z.k >= z.r &&
    forall idx :: 0 <= idx < s.Total() ==> TileBlock(s, tr, base, idx) == Words16(z, TileAt(s, idx))
  }

  function TileAt(s: Shape, idx: nat): Tile
    requires Live(s)
  {
    LiveDigits(s);
    IndexToTile(idx, s.TJ(), s.SH(), s.SW())
  }

  /** On such a slice a thread wins exactly when its tile wins the job. */
  lemma ThreadWinsIsWins(blake: Blake, z: Job, s: Shape, tr: seq<Block>, base: nat, target: Digest, idx: nat)
    requires Live(s) && idx < s.Total() && base + s.Total() <= |tr| && z.r > 0
    requires SliceHolds(z, s, tr, base) && z.blake == blake && z.target == Num256(target)
    ensures ThreadWins(blake, s, tr, base, z.key, target, idx) <==> Wins(z, TileAt(s, idx))
  {
    hide TileTranscript, Words16, TileBlock, IndexToTile, LimbsLe, LittleEndian;
    LiveDigits(s);
    EncodeDecode(idx, s.TI(), s.TJ(), s.SH(), s.SW());
    TilesAreDigits(z, s, TileAt(s, idx));
    LimbsLeIsNumeric(blake(TileBlock(s, tr, base, idx), z.key), target, 8);
  }

  /** The smallest winning index, if any, is the first winner in the reference's order. */
  lemma LeastIndexIsFirst(z: Job, s: Shape, idx: nat)
    requires Live(s) && z.r > 0 && s == Shape(z.m, z.n, z.r, z.th, z.tw) && idx < s.Total()
    requires Wins(z, TileAt(s, idx)) && forall q :: 0 <= q < idx ==> !Wins(z, TileAt(s, q))
    ensures FirstWinner(z, TileAt(s, idx))
  {
    hide TileTranscript, Words16, MeetsTarget, IsTile;
    LiveDigits(s);
    var w := TileAt(s, idx);
    forall u | Wins(z, u)
      ensures u == w || Before(w, u)
    {
      TilesAreDigits(z, s, u);
      TilesAreDigits(z, s, w);
      DecodeEncode(u, s.TI(), s.TJ(), s.SH(), s.SW());
      DecodeKeepsOrder(u, w, s.TI(), s.TJ(), s.SH(), s.SW());
      DecodeKeepsOrder(w, u, s.TI(), s.TJ(), s.SH(), s.SW());
      EncodeDecode(idx, s.TI(), s.TJ(), s.SH(), s.SW());
      var p := TileToIndex(u, s.TJ(), s.SH(), s.SW());
      assert TileAt(s, p) == u;
    }
  }

  // ---------- the kernels ----------

  /** Whether flat number gid of a batch wins: attempt gid / per under its own key. */
  predicate BatchWins(blake: Blake, s: Shape, tr: seq<Block>, keys: seq<Digest>, target: Digest, gid: nat)
    requires Live(s) && |tr| == |keys| * s.Total()
  {
    s.Total() > 0 && gid < |keys| * s.Total() &&
    (SplitGid(gid, |keys|, s.Total());
     ThreadWins(blake, s, tr, Times(Div(gid, s.Total()), s.Total()), keys[Div(gid, s.Total())], target, gid % s.Total()))
  }

  lemma SplitGid(gid: nat, natt: nat, per: nat)
    requires per > 0 && gid < natt * per
    ensures Div(gid, per) < natt && gid % per < per && gid == Times(Div(gid, per), per) + gid % per
    ensures Times(Div(gid, per), per) + per <= natt * per
  {
    QuotientBelow(gid, natt, per);
    TimesMonotone(gid / per + 1, natt, per);
  }

  /** best after a launch: the smallest of its former value and the winning numbers, each cast to a
      32-bit int as atomicMin stores it. */
  ghost predicate LeastStored(before: int, best: int, blake: Blake, s: Shape, tr: seq<Block>, keys: seq<Digest>, target: Digest)
    requires Live(s) && |tr| == |keys| * s.Total()
  {
    && best <= before && (best == before || exists i: nat :: BatchWins(blake, s, tr, keys, target, i) && best == Wrap32(i))
    && forall i: nat :: BatchWins(blake, s, tr, keys, target, i) ==> best <= Wrap32(i)
  }

  /** The device words the scan kernels write. */
  class ScanMemory {
    var best: int
    var found: int
    var foundAttempt: int
    var aRow: int
    var bCol: int
    var trOut: Block

    constructor ()
    {
      best, found, foundAttempt, aRow, bCol, trOut := 0, 0, 0, 0, 0, Zeros();
    }

    /** One thread of k_pow_scan_find_batched (k_pow_scan_find is the batch of one): it reads only, up
        to its single atomicMin. */
    method FindThread(blake: Blake, tr: seq<Block>, keys: seq<Digest>, target: Digest, s: Shape, gid: nat)
      requires Live(s) && |tr| == |keys| * s.Total()
      modifies this`best
      ensures best == if BatchWins(blake, s, tr, keys, target, gid) then Min(old(best), Wrap32(gid)) else old(best)
    {
      if gid >= |keys| * s.Total() {
        return;
      }
      AtLeastOneTile(s);
      SplitGid(gid, |keys|, s.Total());
      var att, idx := Div(gid, s.Total()), gid % s.Total();
      var digest := blake(TileBlock(s, tr, Times(att, s.Total()), idx), keys[att]);
      if LimbsLe(digest, target, 8) {
        best := Min(best, Wrap32(gid));
      }
    }

    /** A launch of the find kernel: its threads run in any order. */
    method Find(blake: Blake, tr: seq<Block>, keys: seq<Digest>, target: Digest, s: Shape, threads: nat)
      requires Live(s) && |tr| == |keys| * s.Total() && threads >= |keys| * s.Total()
      modifies this`best
      ensures LeastStored(old(best), best, blake, s, tr, keys, target)
    {
      hide BatchWins, Wrap32;
      var pending := Threads(threads);
      while pending != {}
        invariant pending <= Threads(threads)
        invariant best <= old(best)
        invariant best == old(best) || exists i: nat :: BatchWins(blake, s, tr, keys, target, i) && best == Wrap32(i)
        invariant forall t: nat :: t < threads && t !in pending && BatchWins(blake, s, tr, keys, target, t) ==> best <= Wrap32(t)
        decreases |pending|
      {
        var t :| t in pending;
        FindThread(blake, tr, keys, target, s, t);
        pending := pending - {t};
      }
      forall i: nat | BatchWins(blake, s, tr, keys, target, i)
        ensures best <= Wrap32(i)
      {
        WinsInRange(blake, s, tr, keys, target, i);
      }
    }

    /** k_pow_scan_emit_batched */
    method EmitBatched(tr: seq<Block>, natt: nat, s: Shape)
      requires Live(s) && |tr| == natt * s.Total()
      modifies this
      ensures best == old(best)
      ensures best < 0 || best >= natt * s.Total() ==>
        foundAttempt == -1 && aRow == -1 && bCol == -1 && trOut == old(trOut)
      ensures 0 <= best < natt * s.Total() ==> EmitsGid(tr, natt, s, best, foundAttempt, aRow, bCol, trOut)
    {
      var total := natt * s.Total();
      if best < 0 || best >= total {
        foundAttempt, aRow, bCol := -1, -1, -1;
        return;
      }
      AtLeastOneTile(s);
      SplitGid(best, natt, s.Total());
      LiveDigits(s);
      var att, idx := Div(best, s.Total()), best % s.Total();
      var t := IndexToTile(idx, s.TJ(), s.SH(), s.SW());
      foundAttempt := att;
      aRow := (t.bi * s.SH() + t.hi) * s.th;
      bCol := (t.bj * s.SW() + t.wi) * s.tw;
      trOut := TileBlock(s, tr, Times(att, s.Total()), idx);
    }

    /** k_pow_scan_emit */
    method Emit(tr: seq<Block>, s: Shape)
      requires Live(s) && |tr| == s.Total() && best >= 0
      modifies this
      ensures best == old(best) && foundAttempt == old(foundAttempt)
      ensures best >= s.Total() ==> found == 0 && aRow == -1 && bCol == -1 && trOut == old(trOut)
      ensures best < s.Total() ==> found == 1 && EmitsGid(tr, 1, s, best, 0, aRow, bCol, trOut)
    {
      if best >= s.Total() {
        found, aRow, bCol := 0, -1, -1;
        return;
      }
      AddressInRange(s, best);
      OneAttempt(best, s.Total());
      var t := IndexToTile(best, s.TJ(), s.SH(), s.SW());
      found := 1;
      aRow := (t.bi * s.SH() + t.hi) * s.th;
      bCol := (t.bj * s.SW() + t.wi) * s.tw;
      trOut := TileBlock(s, tr, 0, best);
    }

    /** k_pow_scan_emit_batch: only the first attempt to find anything passes the atomicCAS. */
    method EmitOnce(tr: seq<Block>, s: Shape, attempt: nat)
      requires Live(s) && |tr| == s.Total() && best >= 0
      modifies this
      ensures best == old(best)
      ensures best >= s.Total() || old(foundAttempt) != SENTINEL ==>
        found == old(found) && foundAttempt == old(foundAttempt) && aRow == old(aRow) && bCol == old(bCol) && trOut == old(trOut)
      ensures best < s.Total() && old(foundAttempt) == SENTINEL ==>
        found == 1 && foundAttempt == attempt && EmitsGid(tr, 1, s, best, 0, aRow, bCol, trOut)
    {
      if best >= s.Total() {
        return;
      }
      if foundAttempt != SENTINEL {
        return;
      }
      foundAttempt := attempt;
      AddressInRange(s, best);
      OneAttempt(best, s.Total());
      var t := IndexToTile(best, s.TJ(), s.SH(), s.SW());
      found := 1;
      aRow := (t.bi * s.SH() + t.hi) * s.th;
      bCol := (t.bj * s.SW() + t.wi) * s.tw;
      trOut := TileBlock(s, tr, 0, best);
    }

    /** memset, find and emit for one attempt: right exactly when its tiles are safe. */
    method ScanOne(blake: Blake, ghost z: Job, key: Digest, tr: seq<Block>, target: Digest, s: Shape, threads: nat)
      requires z.r > 0 && z.blake == blake && z.key == key && z.target == Num256(target)
      requires Live(s) && |tr| == s.Total() < 0x8000_0000 && threads >= s.Total() && SliceHolds(z, s, tr, 0)
      modifies this
      ensures Shaped([z], s) && (Outcome(z, found, aRow, bCol, trOut) <==> ScanSafe([z], s))
      ensures s.Total() <= SENTINEL ==> Outcome(z, found, aRow, bCol, trOut)
      ensures found == 1 || (found == 0 && trOut == old(trOut))
      ensures foundAttempt == old(foundAttempt)
    {
      hide LeastStored, EmitsGid, Outcome, SliceHolds, SlicesHold, Shaped, StoredLeast, ScanSafe, LittleEndian;
      best := SENTINEL;
      Find(blake, tr, [key], target, s, threads);
      SingleSettled(blake, z, s, tr, target, best);
      Emit(tr, s);
      SingleExactly(z, s, tr, best, found, aRow, bCol, trOut);
      SafeWithinSentinel([z], s);
    }

    /** The scan of prl_mine2_search and prl_mine2_batch_run over natt stacked attempts. What it reports
        is right exactly when ScanSafe holds, which it does whenever the tiles of all attempts together
        do not exceed the sentinel. */
    method ScanBatch(blake: Blake, ghost jobs: seq<Job>, tr: seq<Block>, keys: seq<Digest>, target: Digest, s: Shape, threads: nat)
      requires JobsMatch(blake, jobs, keys, target) && Live(s)
      requires |tr| == |keys| * s.Total() && threads >= |keys| * s.Total() && SlicesHold(jobs, s, tr)
      modifies this
      ensures foundAttempt >= -1 && (foundAttempt < 0 ==> trOut == old(trOut))
      ensures ReportRight(jobs, foundAttempt, aRow, bCol, trOut) <==> ScanSafe(jobs, s)
      ensures |keys| * s.Total() <= SENTINEL ==> ReportRight(jobs, foundAttempt, aRow, bCol, trOut)
      ensures |keys| * s.Total() > SENTINEL && NoAttempt(jobs) ==> 0 <= foundAttempt < |keys|
    {
      hide LeastStored, EmitsGid, FirstAttempt, NoAttempt, SlicesHold, JobsMatch, ReportRight, ScanSafe, StoredLeast;
      best := SENTINEL;
      Find(blake, tr, keys, target, s, threads);
      StoredInJobs(blake, jobs, s, tr, keys, target, best);
      EmitBatched(tr, |keys|, s);
      SafeWithinSentinel(jobs, s);
      NoneStored(jobs, s, best);
      if 0 <= best < |keys| * s.Total() {
        EmitsRange(tr, |keys|, s, best, foundAttempt, aRow, bCol, trOut);
        EmittedExactly(jobs, s, tr, best, foundAttempt, aRow, bCol, trOut);
      } else {
        NothingEmittedExactly(jobs, s, best, foundAttempt, aRow, bCol, trOut);
      }
    }

    /** One attempt of the recorded graph: memset best, find, emit_batch. */
    method ScanAttempt(blake: Blake, ghost z: Job, key: Digest, tr: seq<Block>, target: Digest, s: Shape, attempt: nat, threads: nat)
      requires z.r > 0 && z.blake == blake && z.key == key && z.target == Num256(target)
      requires Live(s) && |tr| == s.Total() < 0x8000_0000 && threads >= s.Total() && SliceHolds(z, s, tr, 0)
      modifies this
      ensures Shaped([z], s)
      ensures old(foundAttempt) != SENTINEL || (NoWinner(z) && s.Total() <= SENTINEL) ==>
        found == old(found) && foundAttempt == old(foundAttempt) && aRow == old(aRow) && bCol == old(bCol) && trOut == old(trOut)
      ensures old(foundAttempt) == SENTINEL && !(NoWinner(z) && s.Total() <= SENTINEL) ==>
        found == 1 && foundAttempt == attempt && (AnnouncesTile(z, aRow, bCol, trOut) <==> ScanSafe([z], s))
      ensures s.Total() <= SENTINEL ==> ScanSafe([z], s)
    {
      hide LeastStored, EmitsGid, AnnouncesTile, NoWinner, SliceHolds, SlicesHold, Shaped, StoredLeast, ScanSafe, LittleEndian;
      best := SENTINEL;
      Find(blake, tr, [key], target, s, threads);
      SingleSettled(blake, z, s, tr, target, best);
      EmitOnce(tr, s, attempt);
      SafeWithinSentinel([z], s);
      if best < s.Total() && old(foundAttempt) == SENTINEL {
        SingleExactly(z, s, tr, best, 1, aRow, bCol, trOut);
      }
    }

    /** The memsets at the head of the recorded graph. */
    method BeginGraph()
      modifies this
      ensures foundAttempt == SENTINEL && found == 0 && aRow == -1 && bCol == -1 && trOut == old(trOut)
    {
      foundAttempt, found, aRow, bCol := SENTINEL, 0, -1, -1;
    }

    /** A replay of the recorded graph over given transcripts: the attempts one after the other. Within
        the sentinel it reports the first attempt with a winner; beyond it the first attempt always counts
        as a find, so the report is right exactly when that attempt is safe by itself. */
    method ScanGraph(blake: Blake, ghost jobs: seq<Job>, trs: seq<seq<Block>>, keys: seq<Digest>, target: Digest, s: Shape, threads: nat)
      requires Live(s) && s.Total() < 0x8000_0000 && threads >= s.Total() && |jobs| == |trs| == |keys| <= SENTINEL
      requires forall q :: 0 <= q < |jobs| ==> jobs[q].r > 0
      requires forall q :: 0 <= q < |jobs| ==> AttemptReady(blake, jobs[q], trs[q], keys[q], target, s)
      modifies this
      ensures |jobs| > 0 ==> Shaped([jobs[0]], s)
      ensures GraphReports(jobs, |jobs|, found, foundAttempt, aRow, bCol, trOut, old(trOut)) <==> |jobs| == 0 || ScanSafe([jobs[0]], s)
      ensures s.Total() <= SENTINEL ==> GraphReports(jobs, |jobs|, found, foundAttempt, aRow, bCol, trOut, old(trOut))
    {
      hide AnnouncesTile, NoWinner, SliceHolds, LittleEndian, Shaped, ScanSafe;
      BeginGraph();
      for i := 0 to |trs|
        invariant Replayed(jobs, s, i, found, foundAttempt, aRow, bCol, trOut, old(trOut))
      {
        assert AttemptReady(blake, jobs[i], trs[i], keys[i], target, s);
        ScanAttempt(blake, jobs[i], keys[i], trs[i], target, s, i, threads);
      }
    }
  }

  /** The result words of a single search: right exactly when its tiles are safe, as they are within the
      sentinel. */
  ghost predicate Reported(z: Job, s: Shape, found: int, aRow: int, bCol: int, words: Block) {
    && z.r > 0 && Live(s) && Shaped([z], s)
    && (Outcome(z, found, aRow, bCol, words) <==> ScanSafe([z], s))
    && (s.Total() <= SENTINEL ==> Outcome(z, found, aRow, bCol, words))
  }

  /** The result words of a replayed graph: right exactly when its first attempt is safe by itself. */
  ghost predicate BatchReported(jobs: seq<Job>, s: Shape, found: int, att: int, aRow: int, bCol: int, words: Block, stale: Block) {
    && |jobs| > 0 && (forall q :: 0 <= q < |jobs| ==> jobs[q].r > 0) && Live(s) && Shaped([jobs[0]], s)
    && (GraphReports(jobs, |jobs|, found, att, aRow, bCol, words, stale) <==> ScanSafe([jobs[0]], s))
    && (s.Total() <= SENTINEL ==> GraphReports(jobs, |jobs|, found, att, aRow, bCol, words, stale))
  }

  /** A replay after its first i attempts: on its way to the right report within the sentinel, and beyond
      it settled by the first attempt. */
  ghost predicate Replayed(jobs: seq<Job>, s: Shape, i: nat, found: int, att: int, aRow: int, bCol: int, words: Block, stale: Block)
    requires i <= |jobs| && (forall q :: 0 <= q < |jobs| ==> jobs[q].r > 0) && Live(s)
  {
    && (i > 0 ==> Shaped([jobs[0]], s) && (s.Total() <= SENTINEL ==> ScanSafe([jobs[0]], s)))
    && (i == 0 || s.Total() <= SENTINEL ==> GraphReports(jobs, i, found, att, aRow, bCol, words, stale))
    && (i > 0 && s.Total() > SENTINEL ==> found == 1 && att == 0 && (AnnouncesTile(jobs[0], aRow, bCol, words) <==> ScanSafe([jobs[0]], s)))
  }

  ghost predicate AttemptReady(blake: Blake, z: Job, tr: seq<Block>, key: Digest, target: Digest, s: Shape)
    requires Live(s)
  {
    z.r > 0 && z.blake == blake && z.key == key && z.target == Num256(target) && |tr| == s.Total() && SliceHolds(z, s, tr, 0)
  }

  /** What the graph's result words say after the first i attempts. */
  ghost predicate GraphReports(jobs: seq<Job>, i: nat, found: int, foundAttempt: int, aRow: int, bCol: int, trOut: Block, stale: Block)
    requires i <= |jobs| && forall q :: 0 <= q < |jobs| ==> jobs[q].r > 0
  {
    if foundAttempt == SENTINEL then
      found == 0 && aRow == -1 && bCol == -1 && trOut == stale && forall q :: 0 <= q < i ==> NoWinner(jobs[q])
    else
      found == 1 && 0 <= foundAttempt < i && FirstAttempt(jobs, foundAttempt, aRow, bCol, trOut)
  }

  /** The graph and the stacked scan of the same attempts report the same winner, or none. */
  lemma GraphAgreesWithBatch(jobs: seq<Job>, found: int, att: int, aRow: int, bCol: int, words: Block, stale: Block,
                             att': int, aRow': int, bCol': int, words': Block)
    requires forall q :: 0 <= q < |jobs| ==> jobs[q].r > 0
    requires GraphReports(jobs, |jobs|, found, att, aRow, bCol, words, stale)
    requires if att' >= 0 then FirstAttempt(jobs, att', aRow', bCol', words') else NoAttempt(jobs)
    ensures found == 1 <==> att' >= 0
    ensures found == 1 ==> att == att' && aRow == aRow' && bCol == bCol' && words == words'
  {
    hide AnnouncesTile, NoWinner;
    if found == 1 && att' >= 0 {
      FirstAttemptUnique(jobs, att, aRow, bCol, words, att', aRow', bCol', words');
    } else if found == 1 {
      FirstAttemptUnique(jobs, att, aRow, bCol, words, att, aRow, bCol, words);
    } else if att' >= 0 {
      FirstAttemptUnique(jobs, att', aRow', bCol', words', att', aRow', bCol', words');
    }
  }

  // ---------- why the least flat number is the answer ----------

  /** Keys and target of the attempts are those of the jobs. */
  ghost predicate JobsMatch(blake: Blake, jobs: seq<Job>, keys: seq<Digest>, target: Digest) {
    && |jobs| == |keys|
    && forall q :: 0 <= q < |jobs| ==> jobs[q].r > 0 && jobs[q].blake == blake && jobs[q].key == keys[q] && jobs[q].target == Num256(target)
  }

  /** Slice q of the buffer holds the transcripts of job q. */
  ghost predicate SlicesHold(jobs: seq<Job>, s: Shape, tr: seq<Block>)
    requires Live(s) && |tr| == |jobs| * s.Total() && forall z :: z in jobs ==> z.r > 0
  {
    forall q :: 0 <= q < |jobs| ==> SliceInside(q, |jobs|, s, tr) && SliceHolds(jobs[q], s, tr, Times(q, s.Total()))
  }

  predicate SliceInside(q: nat, natt: nat, s: Shape, tr: seq<Block>)
    requires Live(s)
  {
    Times(q, s.Total()) + s.Total() <= |tr|
  }

  lemma SlicesOfOne(z: Job, s: Shape, tr: seq<Block>)
    requires Live(s) && |tr| == s.Total() && z.r > 0 && SliceHolds(z, s, tr, 0)
    ensures SlicesHold([z], s, tr)
  {
    hide SliceHolds;
    assert Times(0, s.Total()) == 0;
  }

  lemma OneAttempt(idx: nat, per: nat)
    requires idx < per
    ensures Div(idx, per) == 0 && idx % per == idx && Times(0, per) == 0
  {
    Bits.DivModUnique(idx, per, 0, idx);
  }

  /** Flat number of tile idx of attempt att. */
  function FlatNumber(s: Shape, att: nat, idx: nat): nat
    requires Live(s)
  {
    Times(att, s.Total()) + idx
  }

  /** A flat number wins exactly when its tile wins the job of its attempt. */
  lemma BatchWinsIsWins(blake: Blake, jobs: seq<Job>, s: Shape, tr: seq<Block>, keys: seq<Digest>, target: Digest, att: nat, idx: nat)
    requires JobsMatch(blake, jobs, keys, target) && Live(s) && |tr| == |keys| * s.Total() && SlicesHold(jobs, s, tr)
    requires att < |jobs| && idx < s.Total()
    ensures BatchWins(blake, s, tr, keys, target, FlatNumber(s, att, idx)) <==> Wins(jobs[att], TileAt(s, idx))
  {
    hide SliceHolds, TileAt, ThreadWins, Wins, LittleEndian;
    Nest(att, s.Total(), idx);
    SliceInBuffer(att, |keys|, s.Total());
    assert SliceHolds(jobs[att], s, tr, Times(att, s.Total()));
    ThreadWinsIsWins(blake, jobs[att], s, tr, Times(att, s.Total()), target, idx);
  }

  /** The find over a single attempt, whose tiles are numbered by an int. */
  lemma SingleSettled(blake: Blake, z: Job, s: Shape, tr: seq<Block>, target: Digest, best: int)
    requires z.r > 0 && z.blake == blake && z.target == Num256(target)
    requires Live(s) && |tr| == s.Total() < 0x8000_0000 && SliceHolds(z, s, tr, 0)
    requires LeastStored(SENTINEL, best, blake, s, tr, [z.key], target)
    ensures SlicesHold([z], s, tr) && Shaped([z], s) && StoredLeast([z], s, best)
    ensures best >= 0 && (best < s.Total() <==> !NoWinner(z) || s.Total() > SENTINEL)
  {
    hide LeastStored, SliceHolds, NoWinner, LittleEndian, SlicesHold, Shaped, ScanSafe;
    SlicesOfOne(z, s, tr);
    StoredInJobs(blake, [z], s, tr, [z.key], target, best);
    NoneStored([z], s, best);
    NoAttemptOfOne(z);
    SmallNumbers(z, s, best);
  }

  lemma NoAttemptOfOne(z: Job)
    requires z.r > 0
    ensures NoAttempt([z]) <==> NoWinner(z)
  {
    hide NoWinner;
    assert [z][0] == z;
  }

  lemma SmallNumbers(z: Job, s: Shape, best: int)
    requires Live(s) && Shaped([z], s) && s.Total() < 0x8000_0000 && StoredLeast([z], s, best)
    ensures best >= 0 && (!NoAttempt([z]) ==> best < s.Total())
  {
    hide Winning, NoAttempt;
    NoneWinning([z], s);
    forall i: nat | Winning([z], s, i)
      ensures i < s.Total() && Wrap32(i) == i
    {
      WinningInRange([z], s, i);
    }
  }

  /** What a single attempt's emission reports is right exactly when its tiles are safe. */
  lemma SingleExactly(z: Job, s: Shape, tr: seq<Block>, best: int, found: int, aRow: int, bCol: int, words: Block)
    requires z.r > 0 && Live(s) && |tr| == s.Total() && SlicesHold([z], s, tr) && Shaped([z], s) && StoredLeast([z], s, best) && best >= 0
    requires best >= s.Total() ==> found == 0 && aRow == -1 && bCol == -1
    requires best < s.Total() ==> found == 1 && EmitsGid(tr, 1, s, best, 0, aRow, bCol, words)
    ensures Outcome(z, found, aRow, bCol, words) <==> ScanSafe([z], s)
  {
    hide EmitsGid, SlicesHold, Shaped, StoredLeast, ScanSafe, AnnouncesTile, NoWinner;
    NoAttemptOfOne(z);
    assert [z][0] == z;
    if best < s.Total() {
      EmittedExactly([z], s, tr, best, 0, aRow, bCol, words);
    } else {
      NothingEmittedExactly([z], s, best, -1, aRow, bCol, words);
    }
  }

  // ---------- exactly when the batched scan is right ----------

  /** What the batched scan has to leave in its result words. */
  ghost predicate ReportRight(jobs: seq<Job>, att: int, aRow: int, bCol: int, words: Block)
    requires forall z :: z in jobs ==> z.r > 0
  {
    if att >= 0 then FirstAttempt(jobs, att, aRow, bCol, words) else NoAttempt(jobs) && aRow == -1 && bCol == -1
  }

  /** The jobs are those of the shape. */
  ghost predicate Shaped(jobs: seq<Job>, s: Shape) {
    forall z :: z in jobs ==> z.r > 0 && z.k >= z.r && s == Shape(z.m, z.n, z.r, z.th, z.tw)
  }

  /** Tile i % Total of attempt i / Total wins. */
  ghost predicate Winning(jobs: seq<Job>, s: Shape, i: nat)
    requires Live(s) && Shaped(jobs, s)
  {
    s.Total() > 0 && i < |jobs| * s.Total() &&
    (SplitGid(i, |jobs|, s.Total());
     Wins(jobs[Div(i, s.Total())], TileAt(s, i % s.Total())))
  }

  ghost predicate LeastWinning(jobs: seq<Job>, s: Shape, g: nat)
    requires Live(s) && Shaped(jobs, s)
  {
    Winning(jobs, s, g) && forall i: nat :: Winning(jobs, s, i) ==> g <= i
  }

  /** Either nothing wins and the sentinel lies outside the batch, or the least winning number is at most
      the sentinel and no winning number becomes smaller than it by the cast to int. */
  ghost predicate ScanSafe(jobs: seq<Job>, s: Shape)
    requires Live(s) && Shaped(jobs, s)
  {
    if NoAttempt(jobs) then |jobs| * s.Total() <= SENTINEL
    else exists g: nat :: LeastWinning(jobs, s, g) && g <= SENTINEL && forall i: nat :: Winning(jobs, s, i) ==> g <= Wrap32(i)
  }

  /** best after the find, in terms of the jobs. */
  ghost predicate StoredLeast(jobs: seq<Job>, s: Shape, best: int)
    requires Live(s) && Shaped(jobs, s)
  {
    && best <= SENTINEL && (best == SENTINEL || exists i: nat :: Winning(jobs, s, i) && best == Wrap32(i))
    && forall i: nat :: Winning(jobs, s, i) ==> best <= Wrap32(i)
  }

  lemma StoredInJobs(blake: Blake, jobs: seq<Job>, s: Shape, tr: seq<Block>, keys: seq<Digest>, target: Digest, best: int)
    requires JobsMatch(blake, jobs, keys, target) && Live(s) && |tr| == |keys| * s.Total() && SlicesHold(jobs, s, tr)
    requires LeastStored(SENTINEL, best, blake, s, tr, keys, target)
    ensures Shaped(jobs, s) && |jobs| == |keys| && StoredLeast(jobs, s, best)
  {
    hide BatchWins, Winning, Wrap32, SliceHolds, LittleEndian;
    AllShaped(jobs, s, tr);
    forall i: nat
      ensures Winning(jobs, s, i) <==> BatchWins(blake, s, tr, keys, target, i)
    {
      WinningIsBatchWins(blake, jobs, s, tr, keys, target, i);
    }
  }

  lemma AllShaped(jobs: seq<Job>, s: Shape, tr: seq<Block>)
    requires Live(s) && (forall z :: z in jobs ==> z.r > 0) && |tr| == |jobs| * s.Total() && SlicesHold(jobs, s, tr)
    ensures Shaped(jobs, s)
  {
    forall z | z in jobs
      ensures z.k >= z.r && s == Shape(z.m, z.n, z.r, z.th, z.tw)
    {
      var q :| 0 <= q < |jobs| && jobs[q] == z;
      assert SliceHolds(jobs[q], s, tr, Times(q, s.Total()));
    }
  }

  lemma WinningIsBatchWins(blake: Blake, jobs: seq<Job>, s: Shape, tr: seq<Block>, keys: seq<Digest>, target: Digest, i: nat)
    requires JobsMatch(blake, jobs, keys, target) && Live(s) && |tr| == |keys| * s.Total() && SlicesHold(jobs, s, tr) && Shaped(jobs, s)
    ensures Winning(jobs, s, i) <==> BatchWins(blake, s, tr, keys, target, i)
  {
    hide ThreadWins, Wins, TileAt, SlicesHold, Shaped, LittleEndian;
    AtLeastOneTile(s);
    if i < |keys| * s.Total() {
      SplitGid(i, |keys|, s.Total());
      BatchWinsIsWins(blake, jobs, s, tr, keys, target, Div(i, s.Total()), i % s.Total());
    }
  }

  /** No attempt has a winner exactly when no number wins. */
  lemma NoneWinning(jobs: seq<Job>, s: Shape)
    requires Live(s) && Shaped(jobs, s)
    ensures NoAttempt(jobs) <==> forall i: nat :: !Winning(jobs, s, i)
  {
    hide Wins, NoWinner, TileAt;
    if NoAttempt(jobs) {
      forall i: nat
        ensures !Winning(jobs, s, i)
      {
        WinningHasWinner(jobs, s, i);
      }
    } else {
      var q :| 0 <= q < |jobs| && !NoWinner(jobs[q]);
      var i := NumberOfWinner(jobs, s, q);
    }
  }

  lemma WinningHasWinner(jobs: seq<Job>, s: Shape, i: nat)
    requires Live(s) && Shaped(jobs, s)
    ensures Winning(jobs, s, i) ==> s.Total() > 0 && Div(i, s.Total()) < |jobs| && !NoWinner(jobs[Div(i, s.Total())])
  {
    hide Wins, TileAt;
    if Winning(jobs, s, i) {
      SplitGid(i, |jobs|, s.Total());
      assert Wins(jobs[Div(i, s.Total())], TileAt(s, i % s.Total()));
    }
  }

  lemma NumberOfWinner(jobs: seq<Job>, s: Shape, q: nat) returns (i: nat)
    requires Live(s) && Shaped(jobs, s) && q < |jobs| && !NoWinner(jobs[q])
    ensures Winning(jobs, s, i) && s.Total() > 0 && Div(i, s.Total()) == q
  {
    hide Wins, TileAt;
    var t :| Wins(jobs[q], t);
    i := NumberOf(jobs, s, q, t);
  }

  /** The number of a winning tile. */
  lemma NumberOf(jobs: seq<Job>, s: Shape, q: nat, t: Tile) returns (i: nat)
    requires Live(s) && Shaped(jobs, s) && q < |jobs| && Wins(jobs[q], t)
    ensures s.Total() > 0 && i < |jobs| * s.Total() && Div(i, s.Total()) == q && TileAt(s, i % s.Total()) == t && Winning(jobs, s, i)
  {
    hide MeetsTarget, Words16, IndexToTile, TileToIndex, IsTile;
    AtLeastOneTile(s);
    LiveDigits(s);
    TilesAreDigits(jobs[q], s, t);
    DecodeEncode(t, s.TI(), s.TJ(), s.SH(), s.SW());
    var idx := TileToIndex(t, s.TJ(), s.SH(), s.SW());
    NestBelow(q, |jobs|, s.Total(), idx);
    Nest(q, s.Total(), idx);
    i := Times(q, s.Total()) + idx;
  }

  lemma SafeWithinSentinel(jobs: seq<Job>, s: Shape)
    requires Live(s) && Shaped(jobs, s)
    ensures |jobs| * s.Total() <= SENTINEL ==> ScanSafe(jobs, s)
  {
    hide Winning, NoAttempt;
    if |jobs| * s.Total() <= SENTINEL && !NoAttempt(jobs) {
      NoneWinning(jobs, s);
      var i: nat :| Winning(jobs, s, i);
      var g := LeastOf(jobs, s, i);
      forall i: nat | Winning(jobs, s, i)
        ensures g <= Wrap32(i)
      {
        WinningInRange(jobs, s, i);
      }
      WinningInRange(jobs, s, g);
    }
  }

  lemma WinningInRange(jobs: seq<Job>, s: Shape, i: nat)
    requires Live(s) && Shaped(jobs, s) && Winning(jobs, s, i)
    ensures i < |jobs| * s.Total()
  {}

  lemma {:induction false} LeastOf(jobs: seq<Job>, s: Shape, i: nat) returns (g: nat)
    requires Live(s) && Shaped(jobs, s) && Winning(jobs, s, i)
    ensures LeastWinning(jobs, s, g) && g <= i
  {
    hide Winning;
    if j: nat :| j < i && Winning(jobs, s, j) {
      g := LeastOf(jobs, s, j);
    } else {
      g := i;
    }
  }

  lemma NoneStored(jobs: seq<Job>, s: Shape, best: int)
    requires Live(s) && Shaped(jobs, s) && StoredLeast(jobs, s, best)
    ensures NoAttempt(jobs) ==> best == SENTINEL
  {
    hide Winning, NoAttempt, Wrap32;
    NoneWinning(jobs, s);
  }

  /** ScanSafe says exactly that best is the least winning number, or that nothing wins and best lies
      outside the batch. */
  lemma BestIsLeast(jobs: seq<Job>, s: Shape, best: int)
    requires Live(s) && Shaped(jobs, s) && StoredLeast(jobs, s, best)
    ensures ScanSafe(jobs, s) <==>
      if NoAttempt(jobs) then !(0 <= best < |jobs| * s.Total()) else best >= 0 && LeastWinning(jobs, s, best)
  {
    hide Winning, NoAttempt, Wrap32;
    NoneWinning(jobs, s);
    if !NoAttempt(jobs) {
      if best >= 0 && LeastWinning(jobs, s, best) {
        assert ScanSafe(jobs, s);
      }
      if ScanSafe(jobs, s) {
        var g: nat :| LeastWinning(jobs, s, g) && g <= SENTINEL && forall i: nat :: Winning(jobs, s, i) ==> g <= Wrap32(i);
        SmallUncast(g);
        assert Winning(jobs, s, g);
      }
    }
  }

  lemma SmallUncast(g: nat)
    requires g <= SENTINEL
    ensures Wrap32(g) == g
  {}

  /** The tile emitted for a number is the one to announce exactly when the number is the least winning one. */
  lemma EmittedExactly(jobs: seq<Job>, s: Shape, tr: seq<Block>, best: int, att: int, aRow: int, bCol: int, words: Block)
    requires Live(s) && Shaped(jobs, s) && |tr| == |jobs| * s.Total() && SlicesHold(jobs, s, tr) && StoredLeast(jobs, s, best)
    requires 0 <= best < |jobs| * s.Total() && EmitsGid(tr, |jobs|, s, best, att, aRow, bCol, words)
    ensures ReportRight(jobs, att, aRow, bCol, words) <==> ScanSafe(jobs, s)
  {
    hide LeastWinning, StoredLeast, ScanSafe, FirstAttempt, NoAttempt, EmitsGid, SlicesHold;
    BestIsLeast(jobs, s, best);
    EmitsRange(tr, |jobs|, s, best, att, aRow, bCol, words);
    FirstIsSome(jobs, att, aRow, bCol, words);
    if LeastWinning(jobs, s, best) {
      LeastIsAnnounced(jobs, s, tr, best, att, aRow, bCol, words);
    }
    if FirstAttempt(jobs, att, aRow, bCol, words) {
      AnnouncedIsLeast(jobs, s, tr, best, att, aRow, bCol, words);
    }
  }

  lemma NothingEmittedExactly(jobs: seq<Job>, s: Shape, best: int, att: int, aRow: int, bCol: int, words: Block)
    requires Live(s) && Shaped(jobs, s) && StoredLeast(jobs, s, best)
    requires !(0 <= best < |jobs| * s.Total()) && att == aRow == bCol == -1
    ensures ReportRight(jobs, att, aRow, bCol, words) <==> ScanSafe(jobs, s)
  {
    hide StoredLeast, ScanSafe, NoAttempt, Winning;
    BestIsLeast(jobs, s, best);
    if best >= 0 && LeastWinning(jobs, s, best) {
      WinningInRange(jobs, s, best);
      assert false;
    }
  }

  lemma FirstIsSome(jobs: seq<Job>, att: int, aRow: int, bCol: int, words: Block)
    requires forall z :: z in jobs ==> z.r > 0
    ensures FirstAttempt(jobs, att, aRow, bCol, words) ==> !NoAttempt(jobs)
  {
    hide AnnouncesTile, NoWinner;
    if FirstAttempt(jobs, att, aRow, bCol, words) {
      AnnouncedIsWinner(jobs[att], aRow, bCol, words);
    }
  }

  /** The least winning number names the first attempt with a winner and its first tile. */
  lemma LeastIsFirstAttempt(jobs: seq<Job>, s: Shape, g: nat)
    requires Live(s) && Shaped(jobs, s) && LeastWinning(jobs, s, g)
    ensures s.Total() > 0 && Div(g, s.Total()) < |jobs| && FirstWinner(jobs[Div(g, s.Total())], TileAt(s, g % s.Total()))
    ensures forall q :: 0 <= q < Div(g, s.Total()) ==> NoWinner(jobs[q])
  {
    hide TileAt, Wins, NoWinner, FirstWinner;
    SplitGid(g, |jobs|, s.Total());
    var att, idx := Div(g, s.Total()), g % s.Total();
    forall q | 0 <= q < att
      ensures NoWinner(jobs[q])
    {
      if !NoWinner(jobs[q]) {
        var i := NumberOfWinner(jobs, s, q);
        EarlierNumber(i, g, s.Total());
        assert false;
      }
    }
    forall p: nat | p <= idx
      ensures Wins(jobs[att], TileAt(s, p)) <==> p == idx
    {
      Nest(att, s.Total(), p);
      assert Winning(jobs, s, Times(att, s.Total()) + p) <==> Wins(jobs[att], TileAt(s, p));
    }
    LeastIndexIsFirst(jobs[att], s, idx);
  }

  lemma LeastIsAnnounced(jobs: seq<Job>, s: Shape, tr: seq<Block>, g: nat, att: int, aRow: int, bCol: int, words: Block)
    requires Live(s) && Shaped(jobs, s) && |tr| == |jobs| * s.Total() && SlicesHold(jobs, s, tr)
    requires g < |jobs| * s.Total() && LeastWinning(jobs, s, g) && EmitsGid(tr, |jobs|, s, g, att, aRow, bCol, words)
    ensures FirstAttempt(jobs, att, aRow, bCol, words)
  {
    hide TileAt, LeastWinning, Words16, NoWinner, FirstWinner;
    LeastIsFirstAttempt(jobs, s, g);
    SplitGid(g, |jobs|, s.Total());
    assert SliceHolds(jobs[att], s, tr, Times(att, s.Total()));
    TileCorner(jobs[att], s, TileAt(s, g % s.Total()));
  }

  lemma EarlierNumber(i: nat, g: nat, per: nat)
    requires per > 0 && Div(i, per) < Div(g, per)
    ensures i < g
  {
    DivisionParts(i, per);
    DivisionParts(g, per);
    NestOrder(i / per, i % per, g / per, g % per, per);
  }

  /** Conversely, announcing the right tile means the number was the least winning one. */
  lemma AnnouncedIsLeast(jobs: seq<Job>, s: Shape, tr: seq<Block>, best: nat, att: int, aRow: int, bCol: int, words: Block)
    requires Live(s) && Shaped(jobs, s) && |tr| == |jobs| * s.Total() && best < |jobs| * s.Total()
    requires EmitsGid(tr, |jobs|, s, best, att, aRow, bCol, words) && FirstAttempt(jobs, att, aRow, bCol, words)
    ensures LeastWinning(jobs, s, best)
  {
    hide TileAt, Wins, Words16, NoWinner, TileBlock;
    AtLeastOneTile(s);
    SplitGid(best, |jobs|, s.Total());
    var z, t := jobs[att], TileAt(s, best % s.Total());
    var u :| FirstWinner(z, u) && aRow == TopRow(z, u) && bCol == LeftCol(z, u) && words == Words16(z, u);
    CornerUnique(z, s, best % s.Total(), u);
    forall i: nat | Winning(jobs, s, i)
      ensures best <= i
    {
      NotBefore(jobs, s, best, att, t, i);
    }
  }

  /** Different tiles have different corners. */
  lemma CornerUnique(z: Job, s: Shape, idx: nat, u: Tile)
    requires Live(s) && z.r > 0 && s == Shape(z.m, z.n, z.r, z.th, z.tw) && idx < s.Total() && Wins(z, u)
    requires (TileAt(s, idx).bi * s.SH() + TileAt(s, idx).hi) * s.th == TopRow(z, u)
    requires (TileAt(s, idx).bj * s.SW() + TileAt(s, idx).wi) * s.tw == LeftCol(z, u)
    ensures TileAt(s, idx) == u
  {
    hide MeetsTarget, Words16, IndexToTile, IsTile, TopRow, LeftCol;
    var t := TileAt(s, idx);
    LiveDigits(s);
    EncodeDecode(idx, s.TI(), s.TJ(), s.SH(), s.SW());
    TilesAreDigits(z, s, u);
    TileCorner(z, s, u);
    ScaledDigits(t.bi, t.hi, u.bi, u.hi, s.SH(), s.th);
    ScaledDigits(t.bj, t.wi, u.bj, u.wi, s.SW(), s.tw);
  }

  lemma ScaledDigits(x: nat, dx: nat, y: nat, dy: nat, d: nat, size: nat)
    requires dx < d && dy < d && size > 0 && (x * d + dx) * size == (y * d + dy) * size
    ensures x == y && dx == dy
  {
    NestUnique(x * d + dx, 0, y * d + dy, 0, size);
    NestUnique(x, dx, y, dy, d);
  }

  lemma NotBefore(jobs: seq<Job>, s: Shape, best: nat, att: nat, t: Tile, i: nat)
    requires Live(s) && Shaped(jobs, s) && best < |jobs| * s.Total() && s.Total() > 0 && att == Div(best, s.Total()) < |jobs|
    requires t == TileAt(s, best % s.Total()) && FirstWinner(jobs[att], t) && forall q :: 0 <= q < att ==> NoWinner(jobs[q])
    requires Winning(jobs, s, i)
    ensures best <= i
  {
    hide Wins, TileAt, NoWinner;
    SplitGid(best, |jobs|, s.Total());
    SplitGid(i, |jobs|, s.Total());
    WinningHasWinner(jobs, s, i);
    var q := Div(i, s.Total());
    if q == att {
      assert TileAt(s, i % s.Total()) == t || Before(t, TileAt(s, i % s.Total()));
      LaterTile(s, best % s.Total(), i % s.Total());
    } else {
      EarlierNumber(best, i, s.Total());
    }
  }

  lemma LaterTile(s: Shape, p: nat, q: nat)
    requires Live(s) && p < s.Total() && q < s.Total()
    requires TileAt(s, q) == TileAt(s, p) || Before(TileAt(s, p), TileAt(s, q))
    ensures p <= q
  {
    hide IndexToTile, TileToIndex;
    LiveDigits(s);
    EncodeDecode(p, s.TI(), s.TJ(), s.SH(), s.SW());
    EncodeDecode(q, s.TI(), s.TJ(), s.SH(), s.SW());
    DecodeKeepsOrder(TileAt(s, p), TileAt(s, q), s.TI(), s.TJ(), s.SH(), s.SW());
  }

  lemma EmitsRange(tr: seq<Block>, natt: nat, s: Shape, gid: nat, att: int, aRow: int, bCol: int, words: Block)
    requires Live(s) && |tr| == natt * s.Total() && gid < natt * s.Total() && EmitsGid(tr, natt, s, gid, att, aRow, bCol, words)
    ensures 0 <= att < natt
  {
    hide TileAt, TileBlock;
    AtLeastOneTile(s);
    SplitGid(gid, natt, s.Total());
  }

  lemma TileCorner(z: Job, s: Shape, t: Tile)
    requires Live(s) && s == Shape(z.m, z.n, z.r, z.th, z.tw)
    ensures (t.bi * s.SH() + t.hi) * s.th == TopRow(z, t) && (t.bj * s.SW() + t.wi) * s.tw == LeftCol(z, t)
  {
    Corner(t.bi, s.SH(), t.hi, s.th, s.r);
    Corner(t.bj, s.SW(), t.wi, s.tw, s.r);
  }

  lemma Corner(b: nat, per: nat, i: nat, size: nat, r: nat)
    requires size > 0 && r % size == 0 && per == r / size
    ensures (b * per + i) * size == b * r + i * size
  {
    assert r == per * size;
    assert (b * per) * size == b * (per * size);
    assert (b * per + i) * size == (b * per) * size + i * size;
  }

  lemma AtLeastOneTile(s: Shape)
    requires Live(s)
    ensures s.Total() > 0
  {
    LiveDigits(s);
    PositiveProduct(s.TI(), s.TJ());
    PositiveProduct(s.TI() * s.TJ(), s.SH());
    PositiveProduct(s.TI() * s.TJ() * s.SH(), s.SW());
  }

  lemma PositiveProduct(x: nat, y: nat)
    requires x > 0 && y > 0
    ensures x * y > 0
  {}

  lemma WinsInRange(blake: Blake, s: Shape, tr: seq<Block>, keys: seq<Digest>, target: Digest, gid: nat)
    requires Live(s) && |tr| == |keys| * s.Total() && BatchWins(blake, s, tr, keys, target, gid)
    ensures gid < |keys| * s.Total()
  {}

  /** What the emit kernel writes for flat number gid. */
  ghost predicate EmitsGid(tr: seq<Block>, natt: nat, s: Shape, gid: nat, att: int, aRow: int, bCol: int, words: Block)
    requires Live(s) && |tr| == natt * s.Total() && gid < natt * s.Total()
  {
    AtLeastOneTile(s);
    SplitGid(gid, natt, s.Total());
    var t := TileAt(s, gid % s.Total());
    && att == Div(gid, s.Total())
    && aRow == (t.bi * s.SH() + t.hi) * s.th && bCol == (t.bj * s.SW() + t.wi) * s.tw
    && words == TileBlock(s, tr, Times(Div(gid, s.Total()), s.Total()), gid % s.Total())
  }
}
