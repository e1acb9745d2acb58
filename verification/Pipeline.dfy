/** One thread block of the double-buffered tensor-core kernels, as threads stepping in any order.
    k_mine2 restages B k-contiguously before multiplying; k_mine and k_mma_gemm_cpasync do not. */
module Pipeline {
  import opened Ring
  import opened Fragments

  datatype Kernel = Mine2 | Mine | Gemm

  /** A launch over natt independent attempts: noised operands as matrices, and the flat row-major
      buffers the kernel reads them from, attempt after attempt. */
  datatype Launch = Launch(kernel: Kernel, natt: nat, m: nat, k: nat, n: nat,
                           an: seq<Mat>, bn: seq<Mat>, ga: seq<int>, gb: seq<int>)

  /** buf holds matrix a (rows x cols), row after row, from position off. */
  ghost predicate Layout(buf: seq<int>, off: int, a: Mat, rows: nat, cols: nat) {
    IsMat(a, rows, cols) && off >= 0 &&
    forall i, j :: 0 <= i < rows && 0 <= j < cols ==> 0 <= off + i * cols + j < |buf| && buf[off + i * cols + j] == a[i][j]
  }

  ghost predicate ValidLaunch(u: Launch) {
    && u.m > 0 && u.k > 0 && u.n > 0 && u.m % 128 == 0 && u.n % 128 == 0
    && u.k % (if u.kernel == Gemm then 32 else 128) == 0
    && |u.an| == |u.bn| == u.natt && (u.kernel != Mine2 ==> u.natt == 1)
    && (forall t :: 0 <= t < u.natt ==> Layout(u.ga, t * (u.m * u.k), u.an[t], u.m, u.k))
    && (forall t :: 0 <= t < u.natt ==> Layout(u.gb, t * (u.k * u.n), u.bn[t], u.k, u.n))
  }

  /** blockIdx: x (bi) selects rows, y (bj) columns, z (att) the attempt. */
  datatype BlockId = BlockId(att: nat, bi: nat, bj: nat)

  predicate InGrid(u: Launch, b: BlockId) {
    b.att < u.natt && (b.bi + 1) * 128 <= u.m && (b.bj + 1) * 128 <= u.n
  }

  /** nk = k >> 5 */
  function Steps(u: Launch): nat { u.k / 32 }

  // Between two barriers a block is in one phase: filling shared memory (after hashing the previous
  // chunk), restaging B, or multiplying.
  datatype Phase = Fill | Restage | Multiply

  /** An asynchronous 16-byte copy issued by a thread and not yet performed. */
  datatype Copy = CopyA(tid: nat, slab: nat) | CopyB(tid: nat, slab: nat)

  /** Shared memory As, Bs, Bst (two buffers each), B fragment registers and accumulators per thread,
      each thread's position within the phase, and the copies in flight. */
  datatype State = State(ks: nat, phase: Phase, pc: seq<nat>,
                         sa: seq<seq<int>>, sb: seq<seq<int>>, st: seq<seq<int>>,
                         bf: seq<seq<int>>, acc: seq<seq<int>>, flight: set<Copy>)

  /** Position at which a thread waits for the barrier that ends the phase. */
  function Last(p: Phase): nat {
    match p case Fill => 3 case Restage => 16 case Multiply => 3
  }

  /** Slabs a thread has issued so far; each commits one group. In Fill, position 0 precedes the
      prologue load (step 0) or the hash, position 1 the load of the next slab, position 2 the wait. */
  function Issued(u: Launch, s: State, tid: nat): nat
    requires tid < |s.pc|
  {
    var slabs := if s.phase != Fill || s.pc[tid] >= 2 then s.ks + 2
                 else if s.ks == 0 && s.pc[tid] == 0 then 0
                 else s.ks + 1;
    if slabs <= Steps(u) then slabs else Steps(u)
  }

  // ---------- what a copy moves ----------

  function ARowOf(tid: nat): nat { tid / 2 }

  function AColOf(tid: nat): nat { (tid % 2) * 16 }

  function BRowOf(tid: nat): nat { tid / 8 }

  function BColOf(tid: nat): nat { (tid % 8) * 16 }

  /** mem with the 16 bytes from src copied to dst. */
  function Store16(mem: seq<int>, dst: nat, buf: seq<int>, src: int): (r: seq<int>)
    ensures |r| == |mem|
  {
    seq(|mem|, i => if dst <= i < dst + 16 then Byte(buf, src + (i - dst)) else Byte(mem, i))
  }

  function AAddress(u: Launch, b: BlockId, c: Copy): int {
    b.att * (u.m * u.k) + (b.bi * 128 + ARowOf(c.tid)) * u.k + (c.slab * 32 + AColOf(c.tid))
  }

  function BAddress(u: Launch, b: BlockId, c: Copy): int {
    b.att * (u.k * u.n) + (c.slab * 32 + BRowOf(c.tid)) * u.n + (b.bj * 128 + BColOf(c.tid))
  }

  // ---------- steps ----------

  datatype Event =
    | Head(tid: nat)             // prologue load at step 0; nothing to hash at this step
    | Hash(warp: nat)            // end of a 128-wide chunk: fold the accumulators into the transcripts
    | Issue(tid: nat)            // load the next slab, if there is one, and commit
    | Await(tid: nat)            // cp.async.wait_group
    | Land(copy: Copy)           // an issued copy reaches shared memory
    | Move(tid: nat)             // one element of the restaging of B
    | Fetch(tid: nat)            // read the B fragments into registers
    | Mma(warp: nat, mrow: nat)  // load the A fragment and multiply the eight column fragments
    | Barrier                    // __syncthreads

  predicate HashStep(u: Launch, ks: nat) {
    u.kernel != Gemm && ks > 0 && ks % 4 == 0
  }

  predicate WarpAt(s: State, w: nat, p: nat) {
    |s.pc| == 256 && w < 8 && forall i :: 0 <= i < 256 && i / 32 == w ==> s.pc[i] == p
  }

  predicate Enabled(u: Launch, s: State, e: Event)
    requires |s.pc| == 256
  {
    match e
    case Head(tid) => tid < 256 && s.phase == Fill && s.pc[tid] == 0 && !HashStep(u, s.ks)
    case Hash(w) => s.phase == Fill && HashStep(u, s.ks) && WarpAt(s, w, 0)
    case Issue(tid) => tid < 256 && s.phase == Fill && s.pc[tid] == 1 && s.ks < Steps(u)
    case Await(tid) => tid < 256 && s.phase == Fill && s.pc[tid] == 2 &&
      // all but the latest group (the latest one only when a next slab was issued) have landed
      var pending := if s.ks + 1 < Steps(u) then 1 else 0;
      forall c :: c in s.flight && c.tid == tid ==> c.slab >= Issued(u, s, tid) - pending
    case Land(c) => c in s.flight
    case Move(tid) => tid < 256 && s.phase == Restage && s.pc[tid] < 16
    case Fetch(tid) => tid < 256 && s.phase == Multiply && s.pc[tid] == 0
    case Mma(w, mrow) => mrow < 2 && s.phase == Multiply && WarpAt(s, w, 1 + mrow)
    case Barrier => forall tid :: 0 <= tid < 256 ==> s.pc[tid] == Last(s.phase)
  }

  /** B fragment byte (ncol, q, x) of thread tid, as the kernel reads it from shared memory. */
  function BFragment(u: Launch, s: State, tid: int, ncol: int, q: int, x: int): int
    requires |s.sb| == 2 && |s.st| == 2
  {
    var col := WarpCol(tid) * 64 + ncol * 8 + Group(Lane(tid));
    if u.kernel == Mine2 then Byte(s.st[s.ks % 2], col * 36 + Tig(Lane(tid)) * 4 + 16 * q + x)
    else Byte(s.sb[s.ks % 2], (Tig(Lane(tid)) * 4 + 16 * q + x) * 128 + col)
  }

  /** A fragment byte (q, x) of a lane of warp w for row fragment mrow. */
  function AFragment(u: Launch, s: State, w: nat, mrow: int, lane: int, q: int, x: int): int
    requires |s.sa| == 2
  {
    var mem, arow := s.sa[s.ks % 2], (w / 2) * 32 + mrow * 16;
    if u.kernel == Mine2 then LdMatrix(mem, l => Mine2RowAddress(arow, l), lane, q, x)
    else DirectA(mem, arow, lane, q, x)
  }

  /** The accumulators of a thread after the eight mma of row fragment mrow. */
  function AfterMma(u: Launch, s: State, w: nat, mrow: nat, tid: nat): (r: seq<int>)
    requires |s.sa| == 2 && |s.bf| == 256 && |s.acc| == 256 && tid < 256 && w < 8
    ensures |r| == |s.acc[tid]|
  {
    seq(|s.acc[tid]|, y =>
      if y / 32 == mrow then
        Wrap32(Byte(s.acc[tid], y)
             + MmaSum((l, q, x) => AFragment(u, s, w, mrow, l, q, x),
                      (l, q, x) => if 0 <= l < 32 then Byte(s.bf[32 * w + l], ((y / 4) % 8 * 2 + q) * 4 + x) else 0,
                      Lane(tid), y % 4))
      else Byte(s.acc[tid], y))
  }

  function Advance(s: State, tid: nat): State
    requires tid < |s.pc|
  {
    s.(pc := s.pc[tid := s.pc[tid] + 1])
  }

  function AdvanceWarp(pc: seq<nat>, w: nat): (r: seq<nat>)
    requires |pc| == 256
    ensures |r| == 256
  {
    seq(256, i requires 0 <= i < 256 => if i / 32 == w then pc[i] + 1 else pc[i])
  }

  predicate Sized(s: State) {
    && |s.pc| == 256 && |s.sa| == 2 && |s.sb| == 2 && |s.st| == 2 && |s.bf| == 256 && |s.acc| == 256
    && (forall i :: 0 <= i < 2 ==> |s.sa[i]| == 4096 && |s.sb[i]| == 4096 && |s.st[i]| == 4608)
    && (forall t :: 0 <= t < 256 ==> |s.bf[t]| == 64 && |s.acc[t]| == 64)
  }

  function Apply(u: Launch, b: BlockId, s: State, e: Event): State
    requires Sized(s) && Enabled(u, s, e)
  {
    match e
    case Head(tid) =>
      if s.ks == 0 then Advance(s, tid).(flight := s.flight + {CopyA(tid, 0), CopyB(tid, 0)}) else Advance(s, tid)
    case Hash(w) => s.(pc := AdvanceWarp(s.pc, w))
    case Issue(tid) =>
      if s.ks + 1 < Steps(u)
      then Advance(s, tid).(flight := s.flight + {CopyA(tid, s.ks + 1), CopyB(tid, s.ks + 1)})
      else Advance(s, tid)
    case Await(tid) => Advance(s, tid)
    case Land(c) =>
      var buffer := c.slab % 2;
      (match c
       case CopyA(tid, slab) =>
         s.(flight := s.flight - {c},
            sa := s.sa[buffer := Store16(s.sa[buffer], ARowOf(tid) * 32 + AColOf(tid), u.ga, AAddress(u, b, c))])
       case CopyB(tid, slab) =>
         s.(flight := s.flight - {c},
            sb := s.sb[buffer := Store16(s.sb[buffer], BRowOf(tid) * 128 + BColOf(tid), u.gb, BAddress(u, b, c))]))
    case Move(tid) =>
      var idx := tid + s.pc[tid] * 256;
      var kk, nn, cur := idx / 128, idx % 128, s.ks % 2;
      Advance(s, tid).(st := s.st[cur := s.st[cur][nn * 36 + kk := Byte(s.sb[cur], kk * 128 + nn)]])
    case Fetch(tid) =>
      Advance(s, tid).(bf := s.bf[tid := seq(64, y => BFragment(u, s, tid, y / 8, (y / 4) % 2, y % 4))])
    case Mma(w, mrow) =>
      s.(pc := AdvanceWarp(s.pc, w),
         acc := seq(256, tid requires 0 <= tid < 256 => if tid / 32 == w then AfterMma(u, s, w, mrow, tid) else s.acc[tid]))
    case Barrier =>
      match s.phase
      case Fill => s.(phase := if u.kernel == Mine2 then Restage else Multiply, pc := seq(256, _ => 0))
      case Restage => s.(phase := Multiply, pc := seq(256, _ => 0))
      case Multiply => s.(phase := Fill, ks := s.ks + 1, pc := seq(256, _ => 0))
  }
}
