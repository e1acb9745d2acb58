/** The gateway a miner talks to: it rotates the work header and drops submissions for old ones. */
module Gateway {
  import Bits
  import opened Search

  // ---------- headers ----------

  /** Identity of an 80-byte work header; HeaderIdentity ties it to the bytes. */
  datatype Header = Header(epoch: nat)

  /** n bytes of e, least significant first. */
  function LeBytes(e: nat, n: nat): (b: seq<nat>)
    ensures |b| == n
  {
    if n == 0 then [] else [e % 256] + LeBytes(e / 256, n - 1)
  }

  function Pow256(n: nat): nat { if n == 0 then 1 else 256 * Pow256(n - 1) }

  lemma {:induction false} LeBytesInjective(e: nat, f: nat, n: nat)
    requires e < Pow256(n) && f < Pow256(n) && LeBytes(e, n) == LeBytes(f, n)
    ensures e == f
  {
    if n > 0 {
      var x, y := LeBytes(e, n), LeBytes(f, n);
      assert x[0] == e % 256 && y[0] == f % 256;
      assert x[1..] == LeBytes(e / 256, n - 1) && y[1..] == LeBytes(f / 256, n - 1);
      LeBytesInjective(e / 256, f / 256, n - 1);
    }
  }

  /** b"PEARLHDR", the epoch in eight bytes, and zeros up to 80. */
  function HeaderBytes(h: Header): seq<nat> {
    [0x50, 0x45, 0x41, 0x52, 0x4C, 0x48, 0x44, 0x52] + LeBytes(h.epoch, 8) + seq(64, _ => 0)
  }

  /** The number that bytes spell, least significant first. */
  function LeValue(b: seq<nat>): nat {
    if b == [] then 0 else b[0] + 256 * LeValue(b[1..])
  }

  lemma {:induction false} LeBytesValue(e: nat, n: nat)
    requires e < Pow256(n)
    ensures LeValue(LeBytes(e, n)) == e
  {
    if n > 0 {
      LeBytesValue(e / 256, n - 1);
      assert LeBytes(e, n)[1..] == LeBytes(e / 256, n - 1);
    }
  }

  /** A header is 80 bytes: the letters, the epoch, and zeros. */
  lemma HeaderLayout(h: Header)
    ensures |HeaderBytes(h)| == 80
    ensures forall x :: 0 <= x < 8 ==> HeaderBytes(h)[x] == "PEARLHDR"[x] as int
    ensures h.epoch < 0x1_0000_0000_0000_0000 ==> LeValue(HeaderBytes(h)[8..16]) == h.epoch
    ensures forall x :: 16 <= x < 80 ==> HeaderBytes(h)[x] == 0
  {
    assert HeaderBytes(h)[8..16] == LeBytes(h.epoch, 8);
    assert Pow256(4) == 0x1_0000_0000;
    assert Pow256(8) == 0x1_0000_0000_0000_0000;
    if h.epoch < 0x1_0000_0000_0000_0000 {
      LeBytesValue(h.epoch, 8);
    }
  }

  /** Below 2^64 rotations, headers have the same bytes exactly when they are of the same epoch. */
  lemma HeaderIdentity(h: Header, g: Header)
    requires h.epoch < 0x1_0000_0000_0000_0000 && g.epoch < 0x1_0000_0000_0000_0000
    ensures HeaderBytes(h) == HeaderBytes(g) <==> h == g
  {
    assert Pow256(4) == 0x1_0000_0000;
    assert Pow256(8) == 0x1_0000_0000_0000_0000;
    if HeaderBytes(h) == HeaderBytes(g) {
      assert HeaderBytes(h)[8..16] == LeBytes(h.epoch, 8);
      assert HeaderBytes(g)[8..16] == LeBytes(g.epoch, 8);
      LeBytesInjective(h.epoch, g.epoch, 8);
    }
  }

  datatype MiningJob = MiningJob(header: Header, target: int)

  // ---------- accounting ----------

  /** Accepted submissions for the headers of epochs below n. */
  function Total(accepted: map<Header, nat>, n: nat): nat {
    if n == 0 then 0 else Total(accepted, n - 1) + (if Header(n - 1) in accepted then accepted[Header(n - 1)] else 0)
  }

  lemma {:induction false} TotalBeyond(accepted: map<Header, nat>, n: nat, n': nat)
    requires n <= n' && forall h :: h in accepted ==> h.epoch < n
    ensures Total(accepted, n') == Total(accepted, n)
  {
    if n < n' {
      TotalBeyond(accepted, n, n' - 1);
    }
  }

  /** accepted_by_header[h] = accepted_by_header.get(h, 0) + 1 */
  function Bumped(accepted: map<Header, nat>, h: Header): map<Header, nat> {
    accepted[h := (if h in accepted then accepted[h] else 0) + 1]
  }

  lemma {:induction false} TotalBump(accepted: map<Header, nat>, h: Header, n: nat)
    ensures Total(Bumped(accepted, h), n)
         == Total(accepted, n) + (if h.epoch < n then 1 else 0)
  {
    if n > 0 {
      TotalBump(accepted, h, n - 1);
    }
  }

  /** Rotations after a number of getMiningInfo calls. */
  function EpochAt(calls: nat, pausedFirst: nat, rotateAfter: nat): nat {
    if rotateAfter == 0 || calls <= pausedFirst then 0 else (calls - pausedFirst) / rotateAfter
  }

  /** The epoch is how many times rotateAfter fits into the calls since the pause. */
  lemma EpochMeans(calls: nat, pausedFirst: nat, rotateAfter: nat)
    ensures rotateAfter > 0 && calls > pausedFirst ==>
      EpochAt(calls, pausedFirst, rotateAfter) * rotateAfter <= calls - pausedFirst < (EpochAt(calls, pausedFirst, rotateAfter) + 1) * rotateAfter
    ensures rotateAfter == 0 || calls <= pausedFirst ==> EpochAt(calls, pausedFirst, rotateAfter) == 0
  {
    if rotateAfter > 0 && calls > pausedFirst {
      EpochParts(calls - pausedFirst, rotateAfter);
    }
  }

  lemma EpochParts(x: nat, r: nat)
    requires r > 0
    ensures x / r * r <= x < (x / r + 1) * r
  {
    Bits.DivisionParts(x, r);
    assert (x / r + 1) * r == x / r * r + r;
  }

  lemma DivNext(x: nat, r: nat)
    requires r > 0
    ensures (x + 1) / r == x / r + (if (x + 1) % r == 0 then 1 else 0)
  {
    var q, d := x / r, x % r;
    assert x == q * r + d;
    if d + 1 == r {
      assert x + 1 == (q + 1) * r;
      Bits.DivModUnique(x + 1, r, q + 1, 0);
    } else {
      Bits.DivModUnique(x + 1, r, q, d + 1);
    }
  }

  class MockGateway {
    const target: int
    const rotateAfter: nat
    const pausedFirst: nat
    var calls: nat
    var epoch: nat
    var submissions: seq<MiningJob>
    var acceptedByHeader: map<Header, nat>
    var droppedStale: nat

    /** The epoch follows the calls, headers accepted are past or current ones, and every submission was
        either accepted or dropped. */
    ghost predicate Valid()
      reads this
    {
      && epoch == EpochAt(calls, pausedFirst, rotateAfter)
      && (forall h :: h in acceptedByHeader ==> h.epoch <= epoch)
      && |submissions| == Accepted() + droppedStale
    }

    /** sum(accepted_by_header.values()) */
    ghost function Accepted(): nat
      reads this
    {
      Total(acceptedByHeader, epoch + 1)
    }

    constructor (target: int, rotateAfter: nat, pausedFirst: nat)
      ensures Valid() && this.target == target && this.rotateAfter == rotateAfter && this.pausedFirst == pausedFirst
      ensures calls == 0 && submissions == [] && acceptedByHeader == map[] && droppedStale == 0
    {
      this.target, this.rotateAfter, this.pausedFirst := target, rotateAfter, pausedFirst;
      calls, epoch, submissions, acceptedByHeader, droppedStale := 0, 0, [], map[], 0;
      new;
      TotalBeyond(acceptedByHeader, 0, 1);
    }

    /** _current_header */
    function CurrentHeader(): Header
      reads this
    {
      Header(epoch)
    }

    /** A client that asks as number `calls` is shown header h. */
    predicate StillCurrent(h: Header, calls: nat) {
      calls > pausedFirst && h == Header(EpochAt(calls, pausedFirst, rotateAfter))
    }

    /** _next_job; None while paused. */
    method NextJob() returns (job: Option<MiningJob>)
      requires Valid()
      modifies this`calls, this`epoch
      ensures Valid() && calls == old(calls) + 1
      ensures job.None? <==> calls <= pausedFirst
      ensures job.Some? ==> job.value == MiningJob(CurrentHeader(), target)
      ensures old(epoch) <= epoch && Accepted() == old(Accepted())
      ensures rotateAfter > 0 && calls > pausedFirst ==> epoch * rotateAfter <= calls - pausedFirst < (epoch + 1) * rotateAfter
      ensures rotateAfter == 0 || calls <= pausedFirst ==> epoch == 0
      ensures epoch == old(epoch) + if calls > pausedFirst && rotateAfter > 0 && (calls - pausedFirst) % rotateAfter == 0 then 1 else 0
    {
      calls := calls + 1;
      EpochMeans(calls, pausedFirst, rotateAfter);
      if calls <= pausedFirst {
        return None;
      }
      if rotateAfter > 0 {
        DivNext(calls - pausedFirst - 1, rotateAfter);
        if (calls - pausedFirst) % rotateAfter == 0 {
          TotalBeyond(acceptedByHeader, epoch + 1, epoch + 2);
          epoch := epoch + 1;
        }
      }
      return Some(MiningJob(CurrentHeader(), target));
    }

    /** _record_submit */
    method RecordSubmit(job: MiningJob)
      requires Valid()
      modifies this`submissions, this`acceptedByHeader, this`droppedStale
      ensures Valid() && submissions == old(submissions) + [job]
      ensures job.header == CurrentHeader() ==>
        droppedStale == old(droppedStale) && Accepted() == old(Accepted()) + 1
        && acceptedByHeader == Bumped(old(acceptedByHeader), job.header)
      ensures job.header != CurrentHeader() ==>
        droppedStale == old(droppedStale) + 1 && acceptedByHeader == old(acceptedByHeader)
    {
      submissions := submissions + [job];
      if job.header == CurrentHeader() {
        TotalBump(acceptedByHeader, job.header, epoch + 1);
        acceptedByHeader := Bumped(acceptedByHeader, job.header);
      } else {
        droppedStale := droppedStale + 1;
      }
    }

    /** getMiningInfo calls of other clients. */
    method OtherClients(n: nat)
      requires Valid()
      modifies this`calls, this`epoch
      ensures Valid() && calls == old(calls) + n && old(epoch) <= epoch && Accepted() == old(Accepted())
    {
      for i := 0 to n
        invariant Valid() && calls == old(calls) + i && old(epoch) <= epoch && Accepted() == old(Accepted())
      {
        var job := NextJob();
      }
    }
  }
}
