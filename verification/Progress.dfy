/** The pipeline never deadlocks and every schedule of a block is finite. */
module Progress {
  import opened Pipeline
  import opened PipelineSafety
  import opened FusedKernel
  import opened Transcript
  import opened Schedules

  /** Lanes of a warp pass the warp-wide instructions together. */
  ghost predicate WarpsTogether(u: Launch, s: State)
    requires |s.pc| == 256
  {
    forall i, j :: 0 <= i < 256 && 0 <= j < 256 && i / 32 == j / 32 ==>
      && (s.phase == Fill && HashStep(u, s.ks) ==> (s.pc[i] == 0 <==> s.pc[j] == 0))
      && (s.phase == Multiply ==> (s.pc[i] >= 2 <==> s.pc[j] >= 2) && (s.pc[i] >= 3 <==> s.pc[j] >= 3))
  }

  lemma WarpsStayTogether(u: Launch, b: BlockId, s: State, e: Event)
    requires Inv(u, b, s) && Enabled(u, s, e) && WarpsTogether(u, s)
    ensures |Apply(u, b, s, e).pc| == 256 && WarpsTogether(u, Apply(u, b, s, e))
  {
    hide SharedA, SharedB, Restaged, Fragmented, Accumulated, FlightOk;
  }

  /** A block that is not finished can always take some step. */
  lemma NoDeadlock(u: Launch, b: BlockId, s: State) returns (e: Event)
    requires Inv(u, b, s) && WarpsTogether(u, s) && !Finished(u, s)
    ensures Enabled(u, s, e)
  {
    hide SharedA, SharedB, Restaged, Fragmented, Accumulated;
    if c :| c in s.flight {
      e := Land(c);
    } else if s.phase == Fill {
      e := FillStep(u, b, s);
    } else if s.phase == Restage {
      if tid :| 0 <= tid < 256 && s.pc[tid] < 16 {
        e := Move(tid);
      } else {
        e := Barrier;
      }
    } else {
      e := MultiplyStep(u, b, s);
    }
  }

  lemma FillStep(u: Launch, b: BlockId, s: State) returns (e: Event)
    requires Inv(u, b, s) && WarpsTogether(u, s) && !Finished(u, s) && s.phase == Fill && s.flight == {}
    ensures Enabled(u, s, e)
  {
    hide SharedA, SharedB, Restaged, Fragmented, Accumulated;
    if tid :| 0 <= tid < 256 && s.pc[tid] == 0 {
      e := if HashStep(u, s.ks) then Hash(tid / 32) else Head(tid);
    } else if s.ks == Steps(u) {
      assert false;
    } else if tid :| 0 <= tid < 256 && s.pc[tid] == 1 {
      e := Issue(tid);
    } else if tid :| 0 <= tid < 256 && s.pc[tid] == 2 {
      e := Await(tid);
    } else {
      e := Barrier;
    }
  }

  lemma MultiplyStep(u: Launch, b: BlockId, s: State) returns (e: Event)
    requires Inv(u, b, s) && WarpsTogether(u, s) && s.phase == Multiply
    ensures Enabled(u, s, e)
  {
    hide SharedA, SharedB, Restaged, Fragmented, Accumulated;
    if tid :| 0 <= tid < 256 && s.pc[tid] == 0 {
      e := Fetch(tid);
    } else if tid :| 0 <= tid < 256 && s.pc[tid] == 1 {
      e := Mma(tid / 32, 0);
    } else if tid :| 0 <= tid < 256 && s.pc[tid] == 2 {
      e := Mma(tid / 32, 1);
    } else {
      e := Barrier;
    }
  }

  // ---------- termination ----------

  /** Positions of threads 0 .. n-1, added up. */
  function Sum0(pc: seq<nat>, n: nat): nat
    requires n <= |pc|
  {
    if n == 0 then 0 else Sum0(pc, n - 1) + pc[n - 1]
  }

  lemma {:induction false} SumBounded(pc: seq<nat>, n: nat)
    requires n <= |pc| && forall t :: 0 <= t < n ==> pc[t] <= 16
    ensures Sum0(pc, n) <= 16 * n
  {
    if n > 0 {
      SumBounded(pc, n - 1);
    }
  }

  lemma {:induction false} SumGrows(pc: seq<nat>, pc': seq<nat>, n: nat, t: nat)
    requires n <= |pc| == |pc'| && t < |pc|
    requires forall i :: 0 <= i < |pc| ==> pc'[i] >= pc[i]
    requires pc'[t] > pc[t]
    ensures Sum0(pc', n) >= Sum0(pc, n) + (if t < n then 1 else 0)
  {
    if n > 0 {
      SumGrows(pc, pc', n - 1, t);
    }
  }

  /** Barriers still to be passed. */
  function BarriersLeft(u: Launch, s: State): int {
    3 * Steps(u) - (3 * s.ks + match s.phase case Fill => 0 case Restage => 1 case Multiply => 2)
  }

  /** An upper bound on the number of steps a block can still take. */
  function Remaining(u: Launch, s: State): int
    requires |s.pc| == 256
  {
    BarriersLeft(u, s) * 20000 + 3 * (4096 - Sum0(s.pc, 256)) + |s.flight|
  }

  lemma PositionsBounded(u: Launch, b: BlockId, s: State)
    requires Inv(u, b, s)
    ensures Sum0(s.pc, 256) <= 4096
  {
    hide SharedA, SharedB, Restaged, Fragmented, Accumulated, FlightOk;
    SumBounded(s.pc, 256);
  }

  lemma RemainingIsNatural(u: Launch, b: BlockId, s: State)
    requires Inv(u, b, s)
    ensures 0 <= Remaining(u, s)
  {
    hide SharedA, SharedB, Restaged, Fragmented, Accumulated, FlightOk, Sum0;
    PositionsBounded(u, b, s);
  }

  lemma LoadCounts(u: Launch, b: BlockId, s: State, e: Event)
    requires Inv(u, b, s) && Enabled(u, s, e) && (e.Head? || e.Issue?)
    ensures |Apply(u, b, s, e).pc| == 256 && Sum0(Apply(u, b, s, e).pc, 256) > Sum0(s.pc, 256)
    ensures |Apply(u, b, s, e).flight| <= |s.flight| + 2
    ensures BarriersLeft(u, Apply(u, b, s, e)) == BarriersLeft(u, s)
  {
    hide SharedA, SharedB, Restaged, Fragmented, Accumulated, FlightOk, Sum0, Store16, AfterMma, BFragment;
    var s' := Apply(u, b, s, e);
    SumGrows(s.pc, s'.pc, 256, e.tid);
    TwoMoreCopies(s.flight, CopyA(e.tid, 0), CopyB(e.tid, 0));
    TwoMoreCopies(s.flight, CopyA(e.tid, s.ks + 1), CopyB(e.tid, s.ks + 1));
  }

  lemma ThreadCounts(u: Launch, b: BlockId, s: State, e: Event)
    requires Inv(u, b, s) && Enabled(u, s, e) && (e.Await? || e.Move? || e.Fetch?)
    ensures |Apply(u, b, s, e).pc| == 256 && Sum0(Apply(u, b, s, e).pc, 256) > Sum0(s.pc, 256)
    ensures |Apply(u, b, s, e).flight| <= |s.flight| + 2
    ensures BarriersLeft(u, Apply(u, b, s, e)) == BarriersLeft(u, s)
  {
    hide SharedA, SharedB, Restaged, Fragmented, Accumulated, FlightOk, Sum0, Store16, AfterMma, BFragment;
    var s' := Apply(u, b, s, e);
    SumGrows(s.pc, s'.pc, 256, e.tid);
  }

  lemma WarpCounts(u: Launch, b: BlockId, s: State, e: Event)
    requires Inv(u, b, s) && Enabled(u, s, e) && (e.Hash? || e.Mma?)
    ensures |Apply(u, b, s, e).pc| == 256 && Sum0(Apply(u, b, s, e).pc, 256) > Sum0(s.pc, 256)
    ensures |Apply(u, b, s, e).flight| <= |s.flight| + 2
    ensures BarriersLeft(u, Apply(u, b, s, e)) == BarriersLeft(u, s)
  {
    hide SharedA, SharedB, Restaged, Fragmented, Accumulated, FlightOk, Sum0, Store16, AfterMma, BFragment;
    var s' := Apply(u, b, s, e);
    SumGrows(s.pc, s'.pc, 256, 32 * e.warp);
  }

  /** A thread or warp that moves adds to the positions and puts at most two copies in flight. */
  lemma ThreadStepCounts(u: Launch, b: BlockId, s: State, e: Event)
    requires Inv(u, b, s) && Enabled(u, s, e) && !e.Land? && !e.Barrier?
    ensures |Apply(u, b, s, e).pc| == 256 && Sum0(Apply(u, b, s, e).pc, 256) > Sum0(s.pc, 256)
    ensures |Apply(u, b, s, e).flight| <= |s.flight| + 2
    ensures BarriersLeft(u, Apply(u, b, s, e)) == BarriersLeft(u, s)
  {
    hide Apply, Inv, Sum0, BarriersLeft;
    if e.Head? || e.Issue? {
      LoadCounts(u, b, s, e);
    } else if e.Hash? || e.Mma? {
      WarpCounts(u, b, s, e);
    } else {
      ThreadCounts(u, b, s, e);
    }
  }

  lemma LandCounts(u: Launch, b: BlockId, s: State, c: Copy)
    requires Inv(u, b, s) && Enabled(u, s, Land(c))
    ensures BarriersLeft(u, Apply(u, b, s, Land(c))) == BarriersLeft(u, s)
    ensures Apply(u, b, s, Land(c)).pc == s.pc && |Apply(u, b, s, Land(c)).flight| == |s.flight| - 1
  {
    hide SharedA, SharedB, Restaged, Fragmented, Accumulated, FlightOk, Store16;
  }

  lemma BarrierCounts(u: Launch, b: BlockId, s: State)
    requires Inv(u, b, s) && Enabled(u, s, Barrier)
    ensures BarriersLeft(u, Apply(u, b, s, Barrier)) < BarriersLeft(u, s)
    ensures Apply(u, b, s, Barrier).flight == s.flight
  {
    hide SharedA, SharedB, Restaged, Fragmented, Accumulated, FlightOk;
    assert s.pc[0] == Last(s.phase);
  }

  /** Every step of a block uses up at least one of the remaining steps, which never fall below zero. */
  lemma StepsAreFinite(u: Launch, b: BlockId, s: State, e: Event)
    requires Inv(u, b, s) && Enabled(u, s, e)
    ensures |Apply(u, b, s, e).pc| == 256
    ensures 0 <= Remaining(u, Apply(u, b, s, e)) < Remaining(u, s)
  {
    hide Sum0, BarriersLeft, Store16, AfterMma, BFragment, SharedA, SharedB, Restaged, Fragmented, Accumulated, FlightOk;
    StepKeeps(u, b, s, e);
    var s' := Apply(u, b, s, e);
    RemainingIsNatural(u, b, s');
    PositionsBounded(u, b, s);
    if e.Land? {
      LandCounts(u, b, s, e.copy);
    } else if e.Barrier? {
      BarrierCounts(u, b, s);
    } else {
      ThreadStepCounts(u, b, s, e);
    }
  }

  lemma TwoMoreCopies(flight: set<Copy>, c: Copy, d: Copy)
    ensures |flight + {c, d}| <= |flight| + 2
  {
    assert flight + {c, d} == (flight + {c}) + {d};
  }

  // ---------- the whole grid can always be driven to its end ----------

  ghost predicate GridTogether(u: Launch, g: Grid) {
    forall b :: InGrid(u, b) && b in g.blocks ==> |g.blocks[b].pc| == 256 && WarpsTogether(u, g.blocks[b])
  }

  /** Two schedules one after the other. */
  lemma {:induction false} RunAppends(u: Launch, g: Grid, s1: Schedule, s2: Schedule)
    requires ValidLaunch(u) && |g.tr| == u.natt * PerAttempt(u)
    requires Executable(u, g, s1) && |Run(u, g, s1).tr| == |g.tr| && Executable(u, Run(u, g, s1), s2)
    ensures Executable(u, g, s1 + s2) && Run(u, g, s1 + s2) == Run(u, Run(u, g, s1), s2)
    decreases |s1|
  {
    hide GridApply, GridEnabled, ValidLaunch;
    if s1 == [] {
      assert s1 + s2 == s2;
    } else {
      var g' := GridApply(u, g, s1[0].0, s1[0].1);
      assert |g'.tr| == |g.tr| by { ApplyKeepsSize(u, g, s1[0].0, s1[0].1); }
      RunAppends(u, g', s1[1..], s2);
      assert (s1 + s2)[1..] == s1[1..] + s2;
    }
  }

  lemma ApplyKeepsSize(u: Launch, g: Grid, b: BlockId, e: Event)
    requires ValidLaunch(u) && |g.tr| == u.natt * PerAttempt(u) && GridEnabled(u, g, b, e)
    ensures |GridApply(u, g, b, e).tr| == |g.tr|
  {
    hide Apply, Enabled, FoldWarp;
  }

  lemma StepKeepsTogether(u: Launch, tr0: seq<Block>, g: Grid, b: BlockId, e: Event)
    requires GridInv(u, tr0, g) && GridTogether(u, g) && GridEnabled(u, g, b, e)
    ensures GridTogether(u, GridApply(u, g, b, e))
  {
    hide Inv, Transcribed, FoldWarp, Apply, ValidLaunch, Enabled, WarpsTogether;
    WarpsStayTogether(u, b, g.blocks[b], e);
  }

  /** Any block can be run to its end without moving the others. */
  lemma {:induction false} FinishBlock(u: Launch, tr0: seq<Block>, g: Grid, b: BlockId) returns (sched: Schedule)
    requires GridInv(u, tr0, g) && GridTogether(u, g) && InGrid(u, b)
    ensures Executable(u, g, sched)
    ensures var g' := Run(u, g, sched);
            && GridInv(u, tr0, g') && GridTogether(u, g') && b in g'.blocks && Finished(u, g'.blocks[b])
            && forall c :: InGrid(u, c) && c != b ==> c in g.blocks && c in g'.blocks && g'.blocks[c] == g.blocks[c]
    decreases Measure(u, g, b)
  {
    hide Inv, Transcribed, FoldWarp, Apply, ValidLaunch, Enabled, WarpsTogether, Finished, Remaining;
    if Finished(u, g.blocks[b]) {
      sched := [];
    } else {
      var e := NoDeadlock(u, b, g.blocks[b]);
      assert GridEnabled(u, g, b, e) by { InvSizes(u, b, g.blocks[b]); }
      StepsAreFinite(u, b, g.blocks[b], e);
      GridStepKeeps(u, tr0, g, b, e);
      StepKeepsTogether(u, tr0, g, b, e);
      var g1 := GridApply(u, g, b, e);
      MeasureFalls(u, tr0, g, b, e);
      var rest := FinishBlock(u, tr0, g1, b);
      sched := [(b, e)] + rest;
      assert sched[1..] == rest;
    }
  }

  /** Steps block b can still take. */
  ghost function Measure(u: Launch, g: Grid, b: BlockId): int {
    if b in g.blocks && |g.blocks[b].pc| == 256 then Remaining(u, g.blocks[b]) else 0
  }

  lemma MeasureFalls(u: Launch, tr0: seq<Block>, g: Grid, b: BlockId, e: Event)
    requires GridInv(u, tr0, g) && GridEnabled(u, g, b, e)
    ensures 0 <= Measure(u, GridApply(u, g, b, e), b) < Measure(u, g, b)
  {
    hide Inv, Transcribed, FoldWarp, Apply, ValidLaunch, Enabled, Remaining;
    StepsAreFinite(u, b, g.blocks[b], e);
  }

  ghost function GridBlocks(u: Launch): set<BlockId> {
    set att, bi, bj | 0 <= att < u.natt && 0 <= bi <= u.m && 0 <= bj <= u.n && InGrid(u, BlockId(att, bi, bj)) :: BlockId(att, bi, bj)
  }

  lemma {:induction false} FinishBlocks(u: Launch, tr0: seq<Block>, g: Grid, todo: set<BlockId>) returns (sched: Schedule)
    requires GridInv(u, tr0, g) && GridTogether(u, g)
    requires forall b :: InGrid(u, b) && b !in todo ==> b in g.blocks && Finished(u, g.blocks[b])
    ensures Executable(u, g, sched) && AllFinished(u, Run(u, g, sched))
    decreases |todo|
  {
    hide Inv, Transcribed, ValidLaunch, WarpsTogether, Finished, GridApply, GridEnabled, InGrid, Executable, Run, GridTogether;
    if todo == {} {
      sched := [];
      NothingRun(u, tr0, g);
    } else {
      var b :| b in todo;
      var first: Schedule := [];
      NothingRun(u, tr0, g);
      if InGrid(u, b) {
        first := FinishBlock(u, tr0, g, b);
      }
      var rest := FinishBlocks(u, tr0, Run(u, g, first), todo - {b});
      RunAppends(u, g, first, rest);
      sched := first + rest;
    }
  }

  lemma NothingRun(u: Launch, tr0: seq<Block>, g: Grid)
    requires GridInv(u, tr0, g)
    ensures Executable(u, g, []) && Run(u, g, []) == g
  {}

  /** From a state in which lanes are together, some schedule ends the launch. */
  lemma Completion(u: Launch, tr0: seq<Block>, g: Grid) returns (sched: Schedule)
    requires GridInv(u, tr0, g) && GridTogether(u, g)
    ensures Executable(u, g, sched) && AllFinished(u, Run(u, g, sched))
  {
    hide Inv, Transcribed, ValidLaunch, WarpsTogether, Finished, InGrid, Executable, Run, GridTogether;
    forall b | InGrid(u, b)
      ensures b in GridBlocks(u)
    {
      BlockListed(u, b);
    }
    sched := FinishBlocks(u, tr0, g, GridBlocks(u));
  }

  /** A run of any length keeps the invariant and the lanes together. */
  lemma {:induction false} RunKeepsTogether(u: Launch, tr0: seq<Block>, g: Grid, sched: Schedule)
    requires GridInv(u, tr0, g) && GridTogether(u, g) && Executable(u, g, sched)
    ensures GridInv(u, tr0, Run(u, g, sched)) && GridTogether(u, Run(u, g, sched))
    decreases |sched|
  {
    hide Inv, Transcribed, GridApply, GridEnabled, ValidLaunch, InGrid, GridTogether;
    if sched != [] {
      GridStepKeeps(u, tr0, g, sched[0].0, sched[0].1);
      StepKeepsTogether(u, tr0, g, sched[0].0, sched[0].1);
      RunKeepsTogether(u, tr0, GridApply(u, g, sched[0].0, sched[0].1), sched[1..]);
    }
  }

  /** Whatever a launch has done so far, by any interleaving, it can go on to its end. */
  lemma EveryRunCompletes(u: Launch, tr0: seq<Block>, g: Grid, sched: Schedule) returns (rest: Schedule)
    requires InitialGrid(u, tr0, g) && Executable(u, g, sched)
    ensures Executable(u, g, sched + rest) && AllFinished(u, Run(u, g, sched + rest))
  {
    hide Inv, Transcribed, ValidLaunch, InGrid, Executable, Run, GridTogether, AllFinished;
    InitialGridInv(u, tr0, g);
    LaunchTogether(u, tr0, g);
    RunKeepsTogether(u, tr0, g, sched);
    rest := Completion(u, tr0, Run(u, g, sched));
    RunAppends(u, g, sched, rest);
  }

  // ---------- and no schedule can go on for ever ----------

  /** The steps each block can still take. */
  ghost function GridLeft(u: Launch, g: Grid): map<BlockId, int> {
    map b | b in g.blocks && InGrid(u, b) && |g.blocks[b].pc| == 256 :: Remaining(u, g.blocks[b])
  }

  lemma GridLeftNatural(u: Launch, tr0: seq<Block>, g: Grid)
    requires GridInv(u, tr0, g)
    ensures forall b :: b in GridLeft(u, g) ==> GridLeft(u, g)[b] >= 0
  {
    hide Inv, Transcribed, ValidLaunch, Remaining, InGrid;
    forall b | b in GridLeft(u, g)
      ensures GridLeft(u, g)[b] >= 0
    {
      RemainingIsNatural(u, b, g.blocks[b]);
    }
  }

  lemma StepUsesUp(u: Launch, tr0: seq<Block>, g: Grid, b: BlockId, e: Event, bs: seq<BlockId>)
    requires GridInv(u, tr0, g) && GridEnabled(u, g, b, e) && b in bs
    ensures StepsLeft(GridLeft(u, GridApply(u, g, b, e)), bs) < StepsLeft(GridLeft(u, g), bs)
  {
    hide Inv, Transcribed, FoldWarp, Apply, ValidLaunch, Enabled, Remaining, InGrid;
    var g' := GridApply(u, g, b, e);
    StepsAreFinite(u, b, g.blocks[b], e);
    InvSizes(u, b, g.blocks[b]);
    assert GridLeft(u, g') == GridLeft(u, g)[b := Remaining(u, g'.blocks[b])];
    FewerLeft(GridLeft(u, g), b, Remaining(u, g'.blocks[b]), bs);
  }

  /** A run has no more steps than the grid had left at its start. */
  lemma {:induction false} RunsAreBounded(u: Launch, tr0: seq<Block>, g: Grid, sched: Schedule, bs: seq<BlockId>)
    requires GridInv(u, tr0, g) && Executable(u, g, sched) && forall b :: InGrid(u, b) ==> b in bs
    ensures |sched| <= StepsLeft(GridLeft(u, g), bs)
    decreases |sched|
  {
    hide Inv, Transcribed, ValidLaunch, InGrid, GridApply, GridLeft;
    if sched == [] {
      GridLeftNatural(u, tr0, g);
      StepsNatural(GridLeft(u, g), bs);
    } else {
      var b, e := sched[0].0, sched[0].1;
      StepUsesUp(u, tr0, g, b, e, bs);
      GridStepKeeps(u, tr0, g, b, e);
      RunsAreBounded(u, tr0, GridApply(u, g, b, e), sched[1..], bs);
    }
  }

  /** A launch has no endless run: one bound holds for all its schedules. */
  lemma LaunchIsBounded(u: Launch, tr0: seq<Block>, g: Grid) returns (bound: nat)
    requires InitialGrid(u, tr0, g)
    ensures forall sched :: Executable(u, g, sched) ==> |sched| <= bound
  {
    hide Inv, Transcribed, ValidLaunch, InGrid, Executable, GridLeft;
    InitialGridInv(u, tr0, g);
    var bs := Listing(GridBlocks(u));
    forall b | InGrid(u, b)
      ensures b in bs
    {
      BlockListed(u, b);
    }
    GridLeftNatural(u, tr0, g);
    StepsNatural(GridLeft(u, g), bs);
    bound := StepsLeft(GridLeft(u, g), bs);
    forall sched | Executable(u, g, sched)
      ensures |sched| <= bound
    {
      RunsAreBounded(u, tr0, g, sched, bs);
    }
  }

  lemma BlockListed(u: Launch, b: BlockId)
    requires InGrid(u, b)
    ensures b in GridBlocks(u)
  {
    assert b == BlockId(b.att, b.bi, b.bj);
  }

  lemma LaunchTogether(u: Launch, tr0: seq<Block>, g: Grid)
    requires InitialGrid(u, tr0, g)
    ensures GridTogether(u, g)
  {}
}
