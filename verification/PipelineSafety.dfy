/** The invariant of a block under every interleaving of its threads and of its asynchronous copies. */
module PipelineSafety {
  import opened Ring
  import opened Fragments
  import opened Pipeline

  ghost predicate Position(u: Launch, s: State) {
    && s.ks <= Steps(u)
    && (s.ks == Steps(u) ==> s.phase == Fill)
    && (s.phase == Restage ==> u.kernel == Mine2)
    && forall t :: 0 <= t < 256 && t < |s.pc| ==> s.pc[t] <= (if s.ks == Steps(u) then 1 else Last(s.phase))
  }

  predicate Waited(s: State, tid: nat)
    requires tid < |s.pc|
  {
    s.phase != Fill || s.pc[tid] >= 3
  }

  /** Copies in flight belong to the current slab or the next one; to the next one only once the
      thread has waited. */
  ghost predicate FlightOk(u: Launch, s: State)
    requires |s.pc| == 256
  {
    forall c :: c in s.flight ==>
      c.tid < 256 && s.ks <= c.slab < Issued(u, s, c.tid) && (Waited(s, c.tid) ==> c.slab > s.ks)
  }

  // The 16 bytes a thread copies of slab `slab`, at the place in shared memory it copies them to.

  ghost predicate HoldsA(u: Launch, b: BlockId, mem: seq<int>, tid: nat, slab: nat)
    requires b.att < |u.an|
  {
    var row := ARowOf(tid);
    forall x :: row * 32 + AColOf(tid) <= x < row * 32 + AColOf(tid) + 16 ==>
      Byte(mem, x) == At(u.an[b.att], b.bi * 128 + row, slab * 32 + (x - row * 32))
  }

  ghost predicate HoldsB(u: Launch, b: BlockId, mem: seq<int>, tid: nat, slab: nat)
    requires b.att < |u.bn|
  {
    var row := BRowOf(tid);
    forall x :: row * 128 + BColOf(tid) <= x < row * 128 + BColOf(tid) + 16 ==>
      Byte(mem, x) == At(u.bn[b.att], slab * 32 + row, b.bj * 128 + (x - row * 128))
  }

  /** Every issued copy of the current or next slab that has landed is in the buffer of its parity. */
  ghost predicate SharedA(u: Launch, b: BlockId, s: State)
    requires |s.pc| == 256 && |s.sa| == 2 && b.att < |u.an|
  {
    forall tid, slab :: 0 <= tid < 256 && s.ks <= slab < Issued(u, s, tid) && CopyA(tid, slab) !in s.flight
      ==> HoldsA(u, b, s.sa[slab % 2], tid, slab)
  }

  ghost predicate SharedB(u: Launch, b: BlockId, s: State)
    requires |s.pc| == 256 && |s.sb| == 2 && b.att < |u.bn|
  {
    forall tid, slab :: 0 <= tid < 256 && s.ks <= slab < Issued(u, s, tid) && CopyB(tid, slab) !in s.flight
      ==> HoldsB(u, b, s.sb[slab % 2], tid, slab)
  }

  predicate Moved(phase: Phase, pc: seq<nat>, idx: nat)
    requires |pc| == 256
  {
    phase == Multiply || (phase == Restage && idx / 256 < pc[idx % 256])
  }

  /** Element idx of slab ks of B, row idx / 128 and column idx % 128, is in place in Bst. */
  ghost predicate RestagedAt(u: Launch, b: BlockId, mem: seq<int>, ks: nat, idx: nat)
    requires b.att < |u.bn|
  {
    Byte(mem, (idx % 128) * 36 + idx / 128) == At(u.bn[b.att], ks * 32 + idx / 128, b.bj * 128 + idx % 128)
  }

  /** The elements of B restaged so far at this step. */
  ghost predicate Restaged(u: Launch, b: BlockId, s: State)
    requires |s.pc| == 256 && |s.st| == 2 && b.att < |u.bn|
  {
    u.kernel == Mine2 ==>
      forall idx :: 0 <= idx < 4096 && Moved(s.phase, s.pc, idx) ==> RestagedAt(u, b, s.st[s.ks % 2], s.ks, idx)
  }

  /** Column of the block tile that B fragment ncol of a thread covers. */
  function FragmentCol(tid: int, ncol: int): int {
    WarpCol(tid) * 64 + ncol * 8 + Group(Lane(tid))
  }

  /** What byte y of the B fragment registers of a thread must be at step ks. */
  function FragmentByte(u: Launch, b: BlockId, ks: nat, tid: int, y: int): int
    requires b.att < |u.bn|
  {
    At(u.bn[b.att], ks * 32 + BRow(Lane(tid), (y / 4) % 2, y % 4), b.bj * 128 + FragmentCol(tid, y / 8))
  }

  ghost predicate Fragmented(u: Launch, b: BlockId, s: State)
    requires |s.pc| == 256 && |s.bf| == 256 && b.att < |u.bn|
  {
    s.phase == Multiply ==>
      forall tid, y :: 0 <= tid < 256 && s.pc[tid] >= 1 && 0 <= y < 64 ==>
        Byte(s.bf[tid], y) == FragmentByte(u, b, s.ks, tid, y)
  }

  /** mma steps a thread has completed for row fragment mrow. */
  function Done(s: State, tid: nat, mrow: nat): nat
    requires tid < |s.pc|
  {
    s.ks + if s.phase == Multiply && s.pc[tid] >= 2 + mrow then 1 else 0
  }

  /** What accumulator y of a thread must hold after `steps` 32-wide steps. */
  function Partial(u: Launch, b: BlockId, tid: int, y: int, steps: int): int
    requires b.att < |u.an| && b.att < |u.bn|
  {
    Wrap32(Dot(u.an[b.att], u.bn[b.att], b.bi * 128 + CellRow(tid, y), b.bj * 128 + CellCol(tid, y), 0, 32 * steps))
  }

  ghost predicate Accumulated(u: Launch, b: BlockId, s: State)
    requires |s.pc| == 256 && |s.acc| == 256 && b.att < |u.an| && b.att < |u.bn|
  {
    forall tid, y :: 0 <= tid < 256 && 0 <= y < 64 ==> Byte(s.acc[tid], y) == Partial(u, b, tid, y, Done(s, tid, y / 32))
  }

  ghost predicate Inv(u: Launch, b: BlockId, s: State) {
    && ValidLaunch(u) && InGrid(u, b)
    && Sized(s) && Position(u, s) && FlightOk(u, s)
    && SharedA(u, b, s) && SharedB(u, b, s)
    && Restaged(u, b, s) && Fragmented(u, b, s) && Accumulated(u, b, s)
  }

  // ---------- start ----------

  /** Shared memory and fragment registers start with arbitrary contents. */
  ghost predicate Initial(s: State) {
    && Sized(s) && s.ks == 0 && s.phase == Fill && s.flight == {}
    && (forall t :: 0 <= t < 256 ==> s.pc[t] == 0)
    && (forall t, y :: 0 <= t < 256 && 0 <= y < 64 ==> s.acc[t][y] == 0)
  }

  lemma InvSizes(u: Launch, b: BlockId, s: State)
    requires Inv(u, b, s)
    ensures ValidLaunch(u) && InGrid(u, b) && b.att < |u.an| && b.att < |u.bn| && Sized(s)
  {}

  lemma InitInv(u: Launch, b: BlockId, s: State)
    requires ValidLaunch(u) && InGrid(u, b) && Initial(s)
    ensures Inv(u, b, s)
  {}

  // ---------- one step at a time ----------

  /** Issuing copies claims nothing about shared memory until they land. */
  lemma IssuingKeepsShared(u: Launch, b: BlockId, s: State, tid: nat, e: Event)
    requires Inv(u, b, s) && (e == Head(tid) || e == Issue(tid)) && Enabled(u, s, e)
    ensures SharedA(u, b, Apply(u, b, s, e)) && SharedB(u, b, Apply(u, b, s, e))
  {
    hide Restaged, Fragmented, Accumulated, HoldsA, HoldsB;
  }

  lemma HeadKeeps(u: Launch, b: BlockId, s: State, tid: nat)
    requires Inv(u, b, s) && Enabled(u, s, Head(tid))
    ensures Inv(u, b, Apply(u, b, s, Head(tid)))
  {
    hide SharedA, SharedB, Partial, RestagedAt, FragmentByte, Byte, At;
    IssuingKeepsShared(u, b, s, tid, Head(tid));
  }

  lemma HashKeeps(u: Launch, b: BlockId, s: State, w: nat)
    requires Inv(u, b, s) && Enabled(u, s, Hash(w))
    ensures Inv(u, b, Apply(u, b, s, Hash(w)))
  {
    hide Partial, HoldsA, HoldsB, RestagedAt, FragmentByte, Byte, At;
  }

  lemma IssueKeeps(u: Launch, b: BlockId, s: State, tid: nat)
    requires Inv(u, b, s) && Enabled(u, s, Issue(tid))
    ensures Inv(u, b, Apply(u, b, s, Issue(tid)))
  {
    hide SharedA, SharedB, Partial, RestagedAt, FragmentByte, Byte, At;
    IssuingKeepsShared(u, b, s, tid, Issue(tid));
  }

  lemma AwaitKeeps(u: Launch, b: BlockId, s: State, tid: nat)
    requires Inv(u, b, s) && Enabled(u, s, Await(tid))
    ensures Inv(u, b, Apply(u, b, s, Await(tid)))
  {
    hide Partial, HoldsA, HoldsB, RestagedAt, FragmentByte, Byte, At;
  }

  lemma BarrierKeeps(u: Launch, b: BlockId, s: State)
    requires Inv(u, b, s) && Enabled(u, s, Barrier)
    ensures Inv(u, b, Apply(u, b, s, Barrier))
  {
    assert s.pc[0] == Last(s.phase);
    match s.phase
    case Fill => FillBarrier(u, b, s);
    case Restage => RestageBarrier(u, b, s);
    case Multiply => MultiplyBarrier(u, b, s);
  }

  lemma FillBarrier(u: Launch, b: BlockId, s: State)
    requires Inv(u, b, s) && Enabled(u, s, Barrier) && s.phase == Fill && s.ks < Steps(u)
    ensures Inv(u, b, Apply(u, b, s, Barrier))
  {
    hide Partial, HoldsA, HoldsB, RestagedAt, FragmentByte, Byte, At;
  }

  lemma RestageBarrier(u: Launch, b: BlockId, s: State)
    requires Inv(u, b, s) && Enabled(u, s, Barrier) && s.phase == Restage
    ensures Inv(u, b, Apply(u, b, s, Barrier))
  {
    hide Partial, HoldsA, HoldsB, RestagedAt, FragmentByte, Byte, At;
    forall idx | 0 <= idx < 4096
      ensures RestagedAt(u, b, s.st[s.ks % 2], s.ks, idx)
    {
      assert s.pc[idx % 256] == 16;
      assert Moved(s.phase, s.pc, idx);
    }
  }

  lemma MultiplyBarrier(u: Launch, b: BlockId, s: State)
    requires Inv(u, b, s) && Enabled(u, s, Barrier) && s.phase == Multiply
    ensures Inv(u, b, Apply(u, b, s, Barrier))
  {
    hide Partial, HoldsA, HoldsB, RestagedAt, FragmentByte, Byte, At;
  }

  // Landing: only the copying thread's 16 bytes of the buffer of the copied slab change.

  lemma StoreAElsewhere(mem: seq<int>, tid: nat, other: nat, buf: seq<int>, src: int, x: int)
    requires |mem| == 4096 && tid < 256 && other < 256 && tid != other
    requires ARowOf(other) * 32 + AColOf(other) <= x < ARowOf(other) * 32 + AColOf(other) + 16
    ensures Byte(Store16(mem, ARowOf(tid) * 32 + AColOf(tid), buf, src), x) == Byte(mem, x)
  {}

  lemma StoreBElsewhere(mem: seq<int>, tid: nat, other: nat, buf: seq<int>, src: int, x: int)
    requires |mem| == 4096 && tid < 256 && other < 256 && tid != other
    requires BRowOf(other) * 128 + BColOf(other) <= x < BRowOf(other) * 128 + BColOf(other) + 16
    ensures Byte(Store16(mem, BRowOf(tid) * 128 + BColOf(tid), buf, src), x) == Byte(mem, x)
  {
    assert BRowOf(tid) * 128 + BColOf(tid) == tid * 16;
    assert BRowOf(other) * 128 + BColOf(other) == other * 16;
  }

  lemma GlobalA(u: Launch, b: BlockId, row: int, col: int)
    requires ValidLaunch(u) && InGrid(u, b) && 0 <= row < u.m && 0 <= col < u.k
    ensures Byte(u.ga, b.att * (u.m * u.k) + row * u.k + col) == At(u.an[b.att], row, col)
  {
    LayoutAt(u.ga, b.att * (u.m * u.k), u.an[b.att], u.m, u.k, row, col);
  }

  lemma GlobalB(u: Launch, b: BlockId, row: int, col: int)
    requires ValidLaunch(u) && InGrid(u, b) && 0 <= row < u.k && 0 <= col < u.n
    ensures Byte(u.gb, b.att * (u.k * u.n) + row * u.n + col) == At(u.bn[b.att], row, col)
  {
    LayoutAt(u.gb, b.att * (u.k * u.n), u.bn[b.att], u.k, u.n, row, col);
  }

  lemma LayoutAt(buf: seq<int>, off: int, a: Mat, rows: nat, cols: nat, i: int, j: int)
    requires Layout(buf, off, a, rows, cols) && 0 <= i < rows && 0 <= j < cols
    ensures 0 <= off + i * cols + j < |buf| && buf[off + i * cols + j] == a[i][j]
  {
    assert a[i][j] == At(a, i, j);
  }

  lemma LandedA(u: Launch, b: BlockId, mem: seq<int>, tid: nat, slab: nat)
    requires ValidLaunch(u) && InGrid(u, b) && |mem| == 4096 && tid < 256 && slab < Steps(u)
    ensures HoldsA(u, b, Store16(mem, ARowOf(tid) * 32 + AColOf(tid), u.ga, AAddress(u, b, CopyA(tid, slab))), tid, slab)
  {
    hide ValidLaunch, At, ARowOf, AColOf, Byte, Store16, AAddress;
    var row, base, src := ARowOf(tid), ARowOf(tid) * 32 + AColOf(tid), AAddress(u, b, CopyA(tid, slab));
    var mem' := Store16(mem, base, u.ga, src);
    CopyRangeA(u, b, tid, slab);
    forall x | base <= x < base + 16
      ensures Byte(mem', x) == At(u.an[b.att], b.bi * 128 + row, slab * 32 + (x - row * 32))
    {
      Stored16(mem, base, u.ga, src, x);
      GlobalA(u, b, b.bi * 128 + row, slab * 32 + (x - row * 32));
    }
  }

  /** A thread copies 16 bytes of one row of A. */
  lemma CopyRangeA(u: Launch, b: BlockId, tid: nat, slab: nat)
    requires ValidLaunch(u) && InGrid(u, b) && tid < 256 && slab < Steps(u)
    ensures AAddress(u, b, CopyA(tid, slab)) == b.att * (u.m * u.k) + (b.bi * 128 + ARowOf(tid)) * u.k + (slab * 32 + AColOf(tid))
    ensures b.att < |u.an| && ARowOf(tid) < 128 && AColOf(tid) <= 16 && b.bi * 128 + ARowOf(tid) < u.m && slab * 32 + AColOf(tid) + 16 <= u.k
  {
    hide Layout;
  }

  /** And 16 bytes of one row of B. */
  lemma CopyRangeB(u: Launch, b: BlockId, tid: nat, slab: nat)
    requires ValidLaunch(u) && InGrid(u, b) && tid < 256 && slab < Steps(u)
    ensures BAddress(u, b, CopyB(tid, slab)) == b.att * (u.k * u.n) + (slab * 32 + BRowOf(tid)) * u.n + (b.bj * 128 + BColOf(tid))
    ensures b.att < |u.bn| && BRowOf(tid) < 32 && BColOf(tid) <= 112
    ensures slab * 32 + BRowOf(tid) < u.k && b.bj * 128 + BColOf(tid) + 16 <= u.n
  {
    hide Layout;
  }

  lemma Stored16(mem: seq<int>, dst: nat, buf: seq<int>, src: int, x: int)
    requires dst <= x < dst + 16 <= |mem|
    ensures Byte(Store16(mem, dst, buf, src), x) == Byte(buf, src + (x - dst))
  {
    hide Byte;
    assert Byte(Store16(mem, dst, buf, src), x) == Store16(mem, dst, buf, src)[x] by {
      ByteInside(Store16(mem, dst, buf, src), x);
    }
  }

  lemma ByteInside(mem: seq<int>, x: int)
    requires 0 <= x < |mem|
    ensures Byte(mem, x) == mem[x]
  {}

  lemma LandedB(u: Launch, b: BlockId, mem: seq<int>, tid: nat, slab: nat)
    requires ValidLaunch(u) && InGrid(u, b) && |mem| == 4096 && tid < 256 && slab < Steps(u)
    ensures HoldsB(u, b, Store16(mem, BRowOf(tid) * 128 + BColOf(tid), u.gb, BAddress(u, b, CopyB(tid, slab))), tid, slab)
  {
    hide ValidLaunch, At, BRowOf, BColOf, Byte, Store16, BAddress;
    var row, base, src := BRowOf(tid), BRowOf(tid) * 128 + BColOf(tid), BAddress(u, b, CopyB(tid, slab));
    var mem' := Store16(mem, base, u.gb, src);
    CopyRangeB(u, b, tid, slab);
    forall x | base <= x < base + 16
      ensures Byte(mem', x) == At(u.bn[b.att], slab * 32 + row, b.bj * 128 + (x - row * 128))
    {
      Stored16(mem, base, u.gb, src, x);
      GlobalB(u, b, slab * 32 + row, b.bj * 128 + (x - row * 128));
    }
  }

  lemma HoldsAElsewhere(u: Launch, b: BlockId, mem: seq<int>, mover: nat, buf: seq<int>, src: int, tid: nat, slab: nat)
    requires b.att < |u.an| && |mem| == 4096 && mover < 256 && tid < 256 && tid != mover
    requires HoldsA(u, b, mem, tid, slab)
    ensures HoldsA(u, b, Store16(mem, ARowOf(mover) * 32 + AColOf(mover), buf, src), tid, slab)
  {
    var row, base := ARowOf(tid), ARowOf(tid) * 32 + AColOf(tid);
    var mem' := Store16(mem, ARowOf(mover) * 32 + AColOf(mover), buf, src);
    forall x | base <= x < base + 16
      ensures Byte(mem', x) == At(u.an[b.att], b.bi * 128 + row, slab * 32 + (x - row * 32))
    {
      StoreAElsewhere(mem, mover, tid, buf, src, x);
    }
  }

  lemma HoldsBElsewhere(u: Launch, b: BlockId, mem: seq<int>, mover: nat, buf: seq<int>, src: int, tid: nat, slab: nat)
    requires b.att < |u.bn| && |mem| == 4096 && mover < 256 && tid < 256 && tid != mover
    requires HoldsB(u, b, mem, tid, slab)
    ensures HoldsB(u, b, Store16(mem, BRowOf(mover) * 128 + BColOf(mover), buf, src), tid, slab)
  {
    var row, base := BRowOf(tid), BRowOf(tid) * 128 + BColOf(tid);
    var mem' := Store16(mem, BRowOf(mover) * 128 + BColOf(mover), buf, src);
    forall x | base <= x < base + 16
      ensures Byte(mem', x) == At(u.bn[b.att], slab * 32 + row, b.bj * 128 + (x - row * 128))
    {
      StoreBElsewhere(mem, mover, tid, buf, src, x);
    }
  }

  /** A landing copy disturbs no other landed copy: its buffer differs, or its 16 bytes do. */
  lemma LandKeepsA(u: Launch, b: BlockId, s: State, c: Copy, tid: nat, slab: nat)
    requires Inv(u, b, s) && Enabled(u, s, Land(c)) && c.CopyA?
    requires tid < 256 && s.ks <= slab < Issued(u, s, tid)
    requires CopyA(tid, slab) == c || CopyA(tid, slab) !in s.flight
    ensures HoldsA(u, b, Apply(u, b, s, Land(c)).sa[slab % 2], tid, slab)
  {
    hide HoldsA, AAddress, Store16, Accumulated, Fragmented, Restaged, SharedB;
    if slab == c.slab {
      if tid == c.tid {
        LandedA(u, b, s.sa[slab % 2], tid, slab);
      } else {
        HoldsAElsewhere(u, b, s.sa[slab % 2], c.tid, u.ga, AAddress(u, b, c), tid, slab);
      }
    } else {
      assert slab % 2 != c.slab % 2;
    }
  }

  lemma LandKeepsB(u: Launch, b: BlockId, s: State, c: Copy, tid: nat, slab: nat)
    requires Inv(u, b, s) && Enabled(u, s, Land(c)) && c.CopyB?
    requires tid < 256 && s.ks <= slab < Issued(u, s, tid)
    requires CopyB(tid, slab) == c || CopyB(tid, slab) !in s.flight
    ensures HoldsB(u, b, Apply(u, b, s, Land(c)).sb[slab % 2], tid, slab)
  {
    hide HoldsB, BAddress, Store16, Accumulated, Fragmented, Restaged, SharedA;
    if slab == c.slab {
      if tid == c.tid {
        LandedB(u, b, s.sb[slab % 2], tid, slab);
      } else {
        HoldsBElsewhere(u, b, s.sb[slab % 2], c.tid, u.gb, BAddress(u, b, c), tid, slab);
      }
    } else {
      assert slab % 2 != c.slab % 2;
    }
  }

  lemma LandKeeps(u: Launch, b: BlockId, s: State, c: Copy)
    requires Inv(u, b, s) && Enabled(u, s, Land(c))
    ensures Inv(u, b, Apply(u, b, s, Land(c)))
  {
    hide HoldsA, HoldsB, RestagedAt, FragmentByte, AAddress, BAddress, Store16, Partial, Byte, At;
    LandKeepsSharedA(u, b, s, c);
    LandKeepsSharedB(u, b, s, c);
  }

  lemma LandKeepsSharedA(u: Launch, b: BlockId, s: State, c: Copy)
    requires Inv(u, b, s) && Enabled(u, s, Land(c))
    ensures SharedA(u, b, Apply(u, b, s, Land(c)))
  {
    hide HoldsA, AAddress, BAddress, Store16, Accumulated, Fragmented, Restaged, SharedB;
    var s' := Apply(u, b, s, Land(c));
    forall tid, slab | 0 <= tid < 256 && s.ks <= slab < Issued(u, s, tid) && CopyA(tid, slab) !in s'.flight
      ensures HoldsA(u, b, s'.sa[slab % 2], tid, slab)
    {
      if c.CopyA? {
        LandKeepsA(u, b, s, c, tid, slab);
      }
    }
  }

  lemma LandKeepsSharedB(u: Launch, b: BlockId, s: State, c: Copy)
    requires Inv(u, b, s) && Enabled(u, s, Land(c))
    ensures SharedB(u, b, Apply(u, b, s, Land(c)))
  {
    hide HoldsB, AAddress, BAddress, Store16, Accumulated, Fragmented, Restaged, SharedA;
    var s' := Apply(u, b, s, Land(c));
    forall tid, slab | 0 <= tid < 256 && s.ks <= slab < Issued(u, s, tid) && CopyB(tid, slab) !in s'.flight
      ensures HoldsB(u, b, s'.sb[slab % 2], tid, slab)
    {
      if c.CopyB? {
        LandKeepsB(u, b, s, c, tid, slab);
      }
    }
  }

  // ---------- reads of shared memory ----------

  /** Past the wait, As[ks & 1] holds slab ks of A throughout. */
  lemma ReadA(u: Launch, b: BlockId, s: State, row: nat, kk: nat)
    requires Inv(u, b, s) && s.phase != Fill && row < 128 && kk < 32
    ensures Byte(s.sa[s.ks % 2], row * 32 + kk) == At(u.an[b.att], b.bi * 128 + row, s.ks * 32 + kk)
  {
    hide Accumulated, Fragmented, Restaged, SharedB, At, Byte;
    var tid := row * 2 + kk / 16;
    assert ARowOf(tid) == row && AColOf(tid) == kk / 16 * 16;
    assert CopyA(tid, s.ks) !in s.flight;
    assert HoldsA(u, b, s.sa[s.ks % 2], tid, s.ks);
  }

  lemma ReadB(u: Launch, b: BlockId, s: State, kk: nat, nn: nat)
    requires Inv(u, b, s) && s.phase != Fill && kk < 32 && nn < 128
    ensures Byte(s.sb[s.ks % 2], kk * 128 + nn) == At(u.bn[b.att], s.ks * 32 + kk, b.bj * 128 + nn)
  {
    hide Accumulated, Fragmented, Restaged, SharedA, At, Byte;
    var tid := kk * 8 + nn / 16;
    assert BRowOf(tid) == kk && BColOf(tid) == nn / 16 * 16;
    assert CopyB(tid, s.ks) !in s.flight;
    assert HoldsB(u, b, s.sb[s.ks % 2], tid, s.ks);
  }

  /** While a buffer is read, every copy still in flight targets the other one. */
  lemma NoOverwriteWhileRead(u: Launch, b: BlockId, s: State, c: Copy)
    requires Inv(u, b, s) && s.phase != Fill && c in s.flight
    ensures c.slab == s.ks + 1 && c.slab % 2 != s.ks % 2
  {}

  // ---------- restaging, fetching, multiplying ----------

  lemma MoveTarget(idx: nat, other: nat)
    requires idx < 4096 && other < 4096
    ensures (idx % 128) * 36 + idx / 128 < 4608
    ensures (idx % 128) * 36 + idx / 128 == (other % 128) * 36 + other / 128 ==> idx == other
  {
    var a, c, x, y := idx % 128, idx / 128, other % 128, other / 128;
    assert idx == 128 * c + a && other == 128 * y + x && c < 32 && y < 32;
  }

  lemma MoveKeeps(u: Launch, b: BlockId, s: State, tid: nat)
    requires Inv(u, b, s) && Enabled(u, s, Move(tid))
    ensures Inv(u, b, Apply(u, b, s, Move(tid)))
  {
    hide Partial, HoldsA, HoldsB, RestagedAt, FragmentByte, Byte, At;
    MoveRestages(u, b, s, tid);
  }

  lemma MoveRestages(u: Launch, b: BlockId, s: State, tid: nat)
    requires Inv(u, b, s) && Enabled(u, s, Move(tid))
    ensures Restaged(u, b, Apply(u, b, s, Move(tid)))
  {
    hide Accumulated, Fragmented, SharedA, SharedB, At;
    var s' := Apply(u, b, s, Move(tid));
    var idx := tid + s.pc[tid] * 256;
    assert idx / 256 == s.pc[tid] && idx % 256 == tid;
    ReadB(u, b, s, idx / 128, idx % 128);
    forall o | 0 <= o < 4096 && Moved(s'.phase, s'.pc, o)
      ensures RestagedAt(u, b, s'.st[s.ks % 2], s.ks, o)
    {
      MoveTarget(idx, o);
      if o != idx {
        assert o % 256 == tid ==> o / 256 != s.pc[tid];
        assert Moved(s.phase, s.pc, o);
      }
    }
  }

  /** Past the restaging, Bst[ks & 1] holds slab ks of B transposed. */
  lemma ReadBst(u: Launch, b: BlockId, s: State, kk: nat, nn: nat)
    requires Inv(u, b, s) && s.phase == Multiply && u.kernel == Mine2 && kk < 32 && nn < 128
    ensures Byte(s.st[s.ks % 2], nn * 36 + kk) == At(u.bn[b.att], s.ks * 32 + kk, b.bj * 128 + nn)
  {
    hide Accumulated, Fragmented, SharedA, SharedB, FlightOk, At, Byte;
    var idx := kk * 128 + nn;
    assert idx % 128 == nn && idx / 128 == kk;
    assert RestagedAt(u, b, s.st[s.ks % 2], s.ks, idx);
  }

  lemma FragmentRanges(tid: nat, ncol: nat, q: nat, x: nat)
    requires tid < 256 && ncol < 8 && q < 2 && x < 4
    ensures 0 <= BRow(Lane(tid), q, x) < 32 && 0 <= FragmentCol(tid, ncol) < 128
  {}

  /** The B fragment bytes a thread reads are those the mma layout asks for. */
  lemma FetchReads(u: Launch, b: BlockId, s: State, tid: nat, ncol: nat, q: nat, x: nat)
    requires Inv(u, b, s) && s.phase == Multiply && tid < 256 && ncol < 8 && q < 2 && x < 4
    ensures BFragment(u, s, tid, ncol, q, x)
         == At(u.bn[b.att], s.ks * 32 + BRow(Lane(tid), q, x), b.bj * 128 + FragmentCol(tid, ncol))
  {
    hide Accumulated, Fragmented, Restaged, SharedA, SharedB, FlightOk, At, Byte, Group, Tig, Lane, WarpCol;
    FragmentRanges(tid, ncol, q, x);
    var kk, nn := BRow(Lane(tid), q, x), FragmentCol(tid, ncol);
    if u.kernel == Mine2 {
      ReadBst(u, b, s, kk, nn);
    } else {
      ReadB(u, b, s, kk, nn);
    }
  }

  lemma FetchedRegisters(u: Launch, b: BlockId, s: State, tid: nat, y: nat)
    requires Inv(u, b, s) && Enabled(u, s, Fetch(tid)) && y < 64
    ensures Byte(Apply(u, b, s, Fetch(tid)).bf[tid], y) == FragmentByte(u, b, s.ks, tid, y)
  {
    hide Accumulated, Fragmented, Restaged, SharedA, SharedB, FlightOk, At, BFragment, FragmentCol, BRow;
    FetchReads(u, b, s, tid, y / 8, (y / 4) % 2, y % 4);
  }

  lemma FetchKeeps(u: Launch, b: BlockId, s: State, tid: nat)
    requires Inv(u, b, s) && Enabled(u, s, Fetch(tid))
    ensures Inv(u, b, Apply(u, b, s, Fetch(tid)))
  {
    hide Partial, HoldsA, HoldsB, RestagedAt, FragmentByte, BFragment, Byte, At;
    var s' := Apply(u, b, s, Fetch(tid));
    forall y | 0 <= y < 64
      ensures Byte(s'.bf[tid], y) == FragmentByte(u, b, s.ks, tid, y)
    {
      FetchedRegisters(u, b, s, tid, y);
    }
  }

  lemma AFragmentRanges(lane: nat, q: nat, x: nat)
    requires lane < 32 && q < 4 && x < 4
    ensures 0 <= ARow(lane, q) < 16 && 0 <= ACol(lane, q, x) < 32
  {}

  /** The A fragment bytes of a warp are those the mma layout asks for. */
  lemma AFragmentReads(u: Launch, b: BlockId, s: State, w: nat, mrow: nat, lane: nat, q: nat, x: nat)
    requires Inv(u, b, s) && s.phase == Multiply && w < 8 && mrow < 2 && lane < 32 && q < 4 && x < 4
    ensures AFragment(u, s, w, mrow, lane, q, x)
         == At(u.an[b.att], b.bi * 128 + ((w / 2) * 32 + mrow * 16 + ARow(lane, q)), s.ks * 32 + ACol(lane, q, x))
  {
    hide Accumulated, Fragmented, Restaged, SharedA, SharedB, At, FlightOk, LdMatrix, DirectA, Byte, ARow, ACol;
    var arow := (w / 2) * 32 + mrow * 16;
    LoadsAreFragments(s.sa[s.ks % 2], arow, lane, q, x);
    var row, kk := arow + ARow(lane, q), ACol(lane, q, x);
    AFragmentRanges(lane, q, x);
    ReadA(u, b, s, row, kk);
  }

  /** Term kk of step ks of the dot product of cell (row, col) of the block tile. */
  function StepTerm(u: Launch, b: BlockId, ks: nat, row: int, col: int, kk: int): int
    requires b.att < |u.an| && b.att < |u.bn|
  {
    At(u.an[b.att], b.bi * 128 + row, ks * 32 + kk) * At(u.bn[b.att], ks * 32 + kk, b.bj * 128 + col)
  }

  /** One mma step extends the partial dot product of an accumulator by 32 terms. */
  lemma PartialStep(u: Launch, b: BlockId, tid: int, y: int, ks: nat, f: int -> int)
    requires b.att < |u.an| && b.att < |u.bn|
    requires forall kk :: 0 <= kk < 32 ==> f(kk) == StepTerm(u, b, ks, CellRow(tid, y), CellCol(tid, y), kk)
    ensures Wrap32(Partial(u, b, tid, y, ks) + Sum(f, 0, 32)) == Partial(u, b, tid, y, ks + 1)
  {
    hide At, CellRow, CellCol, Wrap32, Sum, Dot;
    var an, bn, i, j := u.an[b.att], u.bn[b.att], b.bi * 128 + CellRow(tid, y), b.bj * 128 + CellCol(tid, y);
    var g := p => At(an, i, p) * At(bn, p, j);
    DotSplit(an, bn, i, j, 0, 32 * ks, 32 * ks + 32);
    DotIsSum(an, bn, i, j, 32 * ks, 32 * ks + 32, g);
    SumShift(f, g, 0, 32, 32 * ks);
    WrapAdd(Dot(an, bn, i, j, 0, 32 * ks), Sum(f, 0, 32));
  }

  /** What the mma adds to accumulator y of a thread of warp w, from the warp's registers. */
  lemma MmaAdds(u: Launch, b: BlockId, s: State, w: nat, mrow: nat, tid: nat, y: nat)
    requires Inv(u, b, s) && Enabled(u, s, Mma(w, mrow)) && tid < 256 && tid / 32 == w && y < 64 && y / 32 == mrow
    ensures MmaSum((l, q, x) => AFragment(u, s, w, mrow, l, q, x),
                   (l, q, x) => if 0 <= l < 32 then Byte(s.bf[32 * w + l], ((y / 4) % 8 * 2 + q) * 4 + x) else 0,
                   Lane(tid), y % 4)
         == Sum(kk => StepTerm(u, b, s.ks, CellRow(tid, y), CellCol(tid, y), kk), 0, 32)
  {
    hide Inv, Enabled, At, AFragment, Byte, MmaSum, Sum, ARow, ACol, BRow, BCol, CRow, CCol, StepTerm, CellRow, CellCol;
    hide WarpRow, WarpCol, Lane;
    InvSizes(u, b, s);
    MmaPlace(u, s, w, mrow, tid);
    var ncol := (y / 4) % 8;
    var rowBase, colBase := WarpRow(tid) * 32 + mrow * 16, WarpCol(tid) * 64 + ncol * 8;
    var left := (r, kk) => At(u.an[b.att], b.bi * 128 + (rowBase + r), s.ks * 32 + kk);
    var right := (kk, c) => At(u.bn[b.att], s.ks * 32 + kk, b.bj * 128 + (colBase + c));
    var af := (l, q, x) => AFragment(u, s, w, mrow, l, q, x);
    var bf := (l, q, x) => if 0 <= l < 32 then Byte(s.bf[32 * w + l], (ncol * 2 + q) * 4 + x) else 0;
    forall l, q, x | 0 <= l < 32 && 0 <= q < 4 && 0 <= x < 4
      ensures af(l, q, x) == left(ARow(l, q), ACol(l, q, x))
    {
      AFragmentReads(u, b, s, w, mrow, l, q, x);
    }
    forall l, q, x | 0 <= l < 32 && 0 <= q < 2 && 0 <= x < 4
      ensures bf(l, q, x) == right(BRow(l, q, x), BCol(l))
    {
      RegisterReads(u, b, s, w, mrow, l, ncol, q, x);
    }
    var f := kk => StepTerm(u, b, s.ks, CellRow(tid, y), CellCol(tid, y), kk);
    forall kk | 0 <= kk < 32
      ensures f(kk) == left(CRow(Lane(tid), y % 4), kk) * right(kk, CCol(Lane(tid), y % 4))
    {
      StepTermShape(u, b, s.ks, tid, y, kk);
    }
    MmaIsProduct(af, bf, Lane(tid), y % 4, left, right, f);
  }

  lemma MmaPlace(u: Launch, s: State, w: nat, mrow: nat, tid: nat)
    requires |s.pc| == 256 && Enabled(u, s, Mma(w, mrow)) && tid < 256 && tid / 32 == w
    ensures s.phase == Multiply && w < 8 && mrow < 2 && WarpRow(tid) == w / 2 && WarpCol(tid) == w % 2 && 0 <= Lane(tid) < 32
  {}

  lemma StepTermShape(u: Launch, b: BlockId, ks: nat, tid: nat, y: nat, kk: int)
    requires b.att < |u.an| && b.att < |u.bn| && y < 64
    ensures StepTerm(u, b, ks, CellRow(tid, y), CellCol(tid, y), kk)
         == At(u.an[b.att], b.bi * 128 + (WarpRow(tid) * 32 + y / 32 * 16 + CRow(Lane(tid), y % 4)), ks * 32 + kk)
          * At(u.bn[b.att], ks * 32 + kk, b.bj * 128 + (WarpCol(tid) * 64 + (y / 4) % 8 * 8 + CCol(Lane(tid), y % 4)))
  {
    hide At, CRow, CCol, WarpRow, WarpCol, Lane;
  }

  lemma RegisterReads(u: Launch, b: BlockId, s: State, w: nat, mrow: nat, l: nat, ncol: nat, q: nat, x: nat)
    requires Inv(u, b, s) && Enabled(u, s, Mma(w, mrow)) && l < 32 && ncol < 8 && q < 2 && x < 4
    ensures Byte(s.bf[32 * w + l], (ncol * 2 + q) * 4 + x)
         == At(u.bn[b.att], s.ks * 32 + BRow(l, q, x), b.bj * 128 + ((w % 2) * 64 + ncol * 8 + BCol(l)))
  {
    hide Accumulated, Restaged, SharedA, SharedB, FlightOk, At, Byte;
    var tid, y := 32 * w + l, (ncol * 2 + q) * 4 + x;
    assert tid / 32 == w && Lane(tid) == l;
    assert s.pc[tid] == 1 + mrow;
    assert y / 8 == ncol && (y / 4) % 2 == q && y % 4 == x;
  }

  lemma MmaChanges(u: Launch, b: BlockId, s: State, w: nat, mrow: nat, tid: nat, y: nat)
    requires Inv(u, b, s) && Enabled(u, s, Mma(w, mrow)) && tid < 256 && tid / 32 == w && y < 64 && y / 32 == mrow
    ensures Byte(AfterMma(u, s, w, mrow, tid), y) == Partial(u, b, tid, y, s.ks + 1)
  {
    hide Restaged, Fragmented, SharedA, SharedB, FlightOk, Partial, MmaSum, Sum, AFragment, StepTerm, Wrap32, CellRow, CellCol;
    MmaAdds(u, b, s, w, mrow, tid, y);
    PartialStep(u, b, tid, y, s.ks, kk => StepTerm(u, b, s.ks, CellRow(tid, y), CellCol(tid, y), kk));
    assert s.pc[tid] == 1 + mrow;
    assert Done(s, tid, mrow) == s.ks;
  }

  lemma MmaRegisters(u: Launch, b: BlockId, s: State, w: nat, mrow: nat, tid: nat, y: nat)
    requires Inv(u, b, s) && Enabled(u, s, Mma(w, mrow)) && tid < 256 && y < 64
    ensures var s' := Apply(u, b, s, Mma(w, mrow));
            Byte(s'.acc[tid], y) == Partial(u, b, tid, y, Done(s', tid, y / 32))
  {
    hide Restaged, Fragmented, SharedA, SharedB, FlightOk, Partial, MmaSum, Sum, AFragment, Wrap32;
    if tid / 32 == w {
      assert s.pc[tid] == 1 + mrow;
      if y / 32 == mrow {
        MmaChanges(u, b, s, w, mrow, tid, y);
      }
    }
  }

  lemma MmaKeeps(u: Launch, b: BlockId, s: State, w: nat, mrow: nat)
    requires Inv(u, b, s) && Enabled(u, s, Mma(w, mrow))
    ensures Inv(u, b, Apply(u, b, s, Mma(w, mrow)))
  {
    hide Partial, HoldsA, HoldsB, RestagedAt, FragmentByte, AfterMma, Byte, At;
    var s' := Apply(u, b, s, Mma(w, mrow));
    forall tid, y | 0 <= tid < 256 && 0 <= y < 64
      ensures Byte(s'.acc[tid], y) == Partial(u, b, tid, y, Done(s', tid, y / 32))
    {
      MmaRegisters(u, b, s, w, mrow, tid, y);
    }
  }

  /** The invariant survives every enabled step, whichever thread or copy takes it. */
  lemma StepKeeps(u: Launch, b: BlockId, s: State, e: Event)
    requires Inv(u, b, s) && Enabled(u, s, e)
    ensures Inv(u, b, Apply(u, b, s, e))
  {
    match e
    case Head(tid) => HeadKeeps(u, b, s, tid);
    case Hash(w) => HashKeeps(u, b, s, w);
    case Issue(tid) => IssueKeeps(u, b, s, tid);
    case Await(tid) => AwaitKeeps(u, b, s, tid);
    case Land(c) => LandKeeps(u, b, s, c);
    case Move(tid) => MoveKeeps(u, b, s, tid);
    case Fetch(tid) => FetchKeeps(u, b, s, tid);
    case Mma(w, mrow) => MmaKeeps(u, b, s, w, mrow);
    case Barrier => BarrierKeeps(u, b, s);
  }
}
