/** Fixed-width integers as representatives of residue classes, matrices, and wrapped dot products. */
module Ring {
  import opened Words

  // ---------- casts ----------

  /** .astype(np.int32), and the wrap-around of int arithmetic on the device. */
  function Wrap32(x: int): (w: int)
    ensures -0x8000_0000 <= w < 0x8000_0000
  {
    (x + 0x8000_0000) % TWO32 - 0x8000_0000
  }

  /** .astype(np.int8), (int8_t) */
  function Wrap8(x: int): (w: int)
    ensures -128 <= w < 128
  {
    (x + 128) % 256 - 128
  }

  /** .view(np.uint32), (uint32_t) */
  function AsWord(x: int): Word {
    x % TWO32
  }

  predicate Int8(x: int) {
    -128 <= x < 128
  }

  predicate Int32(x: int) {
    -0x8000_0000 <= x < 0x8000_0000
  }

  lemma WrapIdentity(x: int)
    ensures Int32(x) <==> Wrap32(x) == x
    ensures Int8(x) <==> Wrap8(x) == x
  {}

  /** Congruence modulo 2^32. */
  predicate Cong(x: int, y: int) {
    (x - y) % TWO32 == 0
  }

  lemma CongIff(x: int, y: int)
    ensures Cong(x, y) <==> Wrap32(x) == Wrap32(y)
  {}

  lemma WrapCong(x: int)
    ensures Cong(Wrap32(x), x)
  {}

  lemma CongAdd(x: int, x': int, y: int, y': int)
    requires Cong(x, x') && Cong(y, y')
    ensures Cong(x + y, x' + y') && Cong(x - y, x' - y')
  {}

  lemma CongMul(x: int, x': int, c: int)
    requires Cong(x, x')
    ensures Cong(x * c, x' * c) && Cong(c * x, c * x')
  {
    var q := (x - x') / TWO32;
    assert x == x' + TWO32 * q;
    assert x * c - x' * c == TWO32 * (q * c);
    assert c * x - c * x' == TWO32 * (q * c);
  }

  lemma WrapAdd(x: int, y: int)
    ensures Wrap32(Wrap32(x) + y) == Wrap32(x + y)
  {}

  // ---------- matrices ----------

  type Mat = seq<seq<int>>

  predicate IsMat(a: Mat, rows: nat, cols: nat) {
    |a| == rows && forall i :: 0 <= i < rows ==> |a[i]| == cols
  }

  ghost predicate Within(a: Mat, lo: int, hi: int) {
    forall i, j :: 0 <= i < |a| && 0 <= j < |a[i]| ==> lo <= a[i][j] <= hi
  }

  /** A matrix given by its entries. */
  function Tabulate(rows: nat, cols: nat, f: (int, int) -> int): (a: Mat)
    ensures IsMat(a, rows, cols)
    ensures forall i, j :: 0 <= i < rows && 0 <= j < cols ==> a[i][j] == f(i, j)
  {
    seq(rows, i => seq(cols, j => f(i, j)))
  }

  /** f(lo) + ... + f(hi-1) */
  function Sum(f: int -> int, lo: int, hi: int): int
    decreases hi - lo
  {
    if hi <= lo then 0 else Sum(f, lo, hi - 1) + f(hi - 1)
  }

  lemma {:induction false} SumSplit(f: int -> int, lo: int, mid: int, hi: int)
    requires lo <= mid <= hi
    ensures Sum(f, lo, hi) == Sum(f, lo, mid) + Sum(f, mid, hi)
    decreases hi - mid
  {
    if mid < hi {
      SumSplit(f, lo, mid, hi - 1);
    }
  }

  lemma {:induction false} SumEq(f: int -> int, g: int -> int, lo: int, hi: int)
    requires forall p :: lo <= p < hi ==> f(p) == g(p)
    ensures Sum(f, lo, hi) == Sum(g, lo, hi)
    decreases hi - lo
  {
    if lo < hi {
      SumEq(f, g, lo, hi - 1);
    }
  }

  lemma {:induction false} SumShift(f: int -> int, g: int -> int, lo: int, hi: int, d: int)
    requires forall p :: lo <= p < hi ==> f(p) == g(p + d)
    ensures Sum(f, lo, hi) == Sum(g, lo + d, hi + d)
    decreases hi - lo
  {
    if lo < hi {
      SumShift(f, g, lo, hi - 1, d);
    }
  }

  lemma {:induction false} SumCong(f: int -> int, g: int -> int, lo: int, hi: int)
    requires forall p :: lo <= p < hi ==> Cong(f(p), g(p))
    ensures Cong(Sum(f, lo, hi), Sum(g, lo, hi))
    decreases hi - lo
  {
    if lo < hi {
      SumCong(f, g, lo, hi - 1);
      CongAdd(Sum(f, lo, hi - 1), Sum(g, lo, hi - 1), f(hi - 1), g(hi - 1));
    }
  }

  lemma {:induction false} SumBound(f: int -> int, lo: int, hi: int, b: int)
    requires lo <= hi && forall p :: lo <= p < hi ==> -b <= f(p) <= b
    ensures -(b * (hi - lo)) <= Sum(f, lo, hi) <= b * (hi - lo)
    decreases hi - lo
  {
    if lo < hi {
      SumBound(f, lo, hi - 1, b);
      assert b * (hi - lo) == b * (hi - 1 - lo) + b;
    }
  }

  lemma {:induction false} SumAdd(f: int -> int, g: int -> int, h: int -> int, lo: int, hi: int)
    requires forall p :: lo <= p < hi ==> h(p) == f(p) + g(p)
    ensures Sum(h, lo, hi) == Sum(f, lo, hi) + Sum(g, lo, hi)
    decreases hi - lo
  {
    if lo < hi {
      SumAdd(f, g, h, lo, hi - 1);
    }
  }

  lemma {:induction false} SumScale(f: int -> int, g: int -> int, lo: int, hi: int, c: int)
    requires forall p :: lo <= p < hi ==> g(p) == f(p) * c
    ensures Sum(g, lo, hi) == Sum(f, lo, hi) * c
    decreases hi - lo
  {
    if lo < hi {
      SumScale(f, g, lo, hi - 1, c);
      assert (Sum(f, lo, hi - 1) + f(hi - 1)) * c == Sum(f, lo, hi - 1) * c + f(hi - 1) * c;
    }
  }

  lemma {:induction false} SumZero(f: int -> int, lo: int, hi: int)
    requires forall p :: lo <= p < hi ==> f(p) == 0
    ensures Sum(f, lo, hi) == 0
    decreases hi - lo
  {
    if lo < hi {
      SumZero(f, lo, hi - 1);
    }
  }

  /** Sum over an n-by-k grid, row after row. */
  function SumGrid(f: (int, int) -> int, n: nat, k: nat): int {
    if n == 0 then 0 else SumGrid(f, n - 1, k) + Sum(j => f(n - 1, j), 0, k)
  }

  lemma {:induction false} SumGridLastColumn(f: (int, int) -> int, n: nat, k: nat)
    requires k > 0
    ensures SumGrid(f, n, k) == SumGrid(f, n, k - 1) + Sum(i => f(i, k - 1), 0, n)
  {
    if n > 0 {
      SumGridLastColumn(f, n - 1, k);
    }
  }

  lemma {:induction false} SumGridNoColumns(f: (int, int) -> int, n: nat)
    ensures SumGrid(f, n, 0) == 0
  {
    if n > 0 {
      SumGridNoColumns(f, n - 1);
    }
  }

  /** Exchange of two finite sums. */
  lemma {:induction false} SumGridTranspose(f: (int, int) -> int, g: (int, int) -> int, n: nat, k: nat)
    requires forall i, j :: 0 <= i < n && 0 <= j < k ==> g(j, i) == f(i, j)
    ensures SumGrid(f, n, k) == SumGrid(g, k, n)
  {
    if k == 0 {
      SumGridNoColumns(f, n);
    } else {
      SumGridTranspose(f, g, n, k - 1);
      SumGridLastColumn(f, n, k);
      SumEq(i => f(i, k - 1), i => g(k - 1, i), 0, n);
    }
  }

  /** a[i][j]; outside the matrix, 0, so that sums over it are total. */
  function At(a: Mat, i: int, j: int): int {
    if 0 <= i < |a| && 0 <= j < |a[i]| then a[i][j] else 0
  }

  /** Entry (i, j) of a[:, lo:hi] @ b[lo:hi, :], over the integers. */
  function Dot(a: Mat, b: Mat, i: int, j: int, lo: int, hi: int): int
    decreases hi - lo
  {
    if hi <= lo then 0 else Dot(a, b, i, j, lo, hi - 1) + At(a, i, hi - 1) * At(b, hi - 1, j)
  }

  lemma {:induction false} DotSplit(a: Mat, b: Mat, i: int, j: int, lo: int, mid: int, hi: int)
    requires lo <= mid <= hi
    ensures Dot(a, b, i, j, lo, hi) == Dot(a, b, i, j, lo, mid) + Dot(a, b, i, j, mid, hi)
    decreases hi - mid
  {
    if mid < hi {
      DotSplit(a, b, i, j, lo, mid, hi - 1);
    }
  }

  lemma {:induction false} DotIsSum(a: Mat, b: Mat, i: int, j: int, lo: int, hi: int, f: int -> int)
    requires forall p :: lo <= p < hi ==> f(p) == At(a, i, p) * At(b, p, j)
    ensures Dot(a, b, i, j, lo, hi) == Sum(f, lo, hi)
    decreases hi - lo
  {
    if lo < hi {
      DotIsSum(a, b, i, j, lo, hi - 1, f);
    }
  }

  /** a @ b over the integers. */
  function Product(a: Mat, b: Mat, m: nat, k: nat, n: nat): (c: Mat)
    ensures IsMat(c, m, n)
    ensures forall i, j :: 0 <= i < m && 0 <= j < n ==> c[i][j] == Dot(a, b, i, j, 0, k)
  {
    Tabulate(m, n, (i, j) => Dot(a, b, i, j, 0, k))
  }
}
