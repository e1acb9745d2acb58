/** Noising, denoising, and why the noise cancels modulo 2^32. */
module Denoise {
  import opened Words
  import opened Ring
  import opened Transcript
  import opened Search

  datatype Result<+T> = Ok(value: T) | ValueError

  // ---------- noising and denoising, entry by entry ----------

  /** (left @ right).astype(np.int8), inner dimension r. */
  function LowRank(left: Mat, right: Mat, rows: nat, r: nat, cols: nat): (e: Mat)
    ensures IsMat(e, rows, cols)
    ensures forall i, j :: 0 <= i < rows && 0 <= j < cols ==> e[i][j] == Wrap8(Dot(left, right, i, j, 0, r))
  {
    Tabulate(rows, cols, (i, j) => Wrap8(Dot(left, right, i, j, 0, r)))
  }

  /** (x.astype(np.int16) + e).astype(np.int8) */
  function Noised(x: Mat, e: Mat, rows: nat, cols: nat): (y: Mat)
    ensures IsMat(y, rows, cols)
    ensures forall i, j :: 0 <= i < rows && 0 <= j < cols ==> y[i][j] == Wrap8(At(x, i, j) + At(e, i, j))
  {
    Tabulate(rows, cols, (i, j) => Wrap8(At(x, i, j) + At(e, i, j)))
  }

  /** (x @ y).astype(np.int32), inner dimension k. */
  function Product32(x: Mat, y: Mat, rows: nat, k: nat, cols: nat): (p: Mat)
    ensures IsMat(p, rows, cols)
    ensures forall i, j :: 0 <= i < rows && 0 <= j < cols ==> p[i][j] == Wrap32(Dot(x, y, i, j, 0, k))
  {
    Tabulate(rows, cols, (i, j) => Wrap32(Dot(x, y, i, j, 0, k)))
  }

  /** (c - x - y).astype(np.int32) */
  function Subtract32(c: Mat, x: Mat, y: Mat, rows: nat, cols: nat): (d: Mat)
    ensures IsMat(d, rows, cols)
    ensures forall i, j :: 0 <= i < rows && 0 <= j < cols ==> d[i][j] == Wrap32(At(c, i, j) - At(x, i, j) - At(y, i, j))
  {
    Tabulate(rows, cols, (i, j) => Wrap32(At(c, i, j) - At(x, i, j) - At(y, i, j)))
  }

  /** The four noise factors of a run. */
  datatype Factors = Factors(eal: Mat, ear: Mat, ebl: Mat, ebr: Mat)

  function NoisedA(a: Mat, f: Factors, m: nat, k: nat, r: nat): Mat {
    Noised(a, LowRank(f.eal, f.ear, m, r, k), m, k)
  }

  function NoisedB(b: Mat, f: Factors, k: nat, n: nat, r: nat): Mat {
    Noised(b, LowRank(f.ebl, f.ebr, k, r, n), k, n)
  }

  /** The search over the noised operands of a run. */
  function JobOfRun(a: Mat, b: Mat, f: Factors, m: nat, k: nat, n: nat, r: nat, th: nat, tw: nat,
                    blake: Blake, key: Digest, target: nat): Job
  {
    Job(NoisedA(a, f, m, k, r), NoisedB(b, f, k, n, r), m, k, n, r, th, tw, blake, key, target)
  }

  /** Bounds of a valid operand at a noise range (_validate_matrix_range). */
  function Lo(range: int): int { (-(256 - range)) / 2 }

  function Hi(range: int): int { Lo(range) + (256 - range) - 1 }

  /** What gemm computes from the wrapped noised product c. */
  function Denoised(c: Mat, a: Mat, bn: Mat, f: Factors, m: nat, k: nat, n: nat, r: nat): Mat {
    var aEBL := Product32(a, f.ebl, m, k, r);
    var aEB := Product32(aEBL, f.ebr, m, r, n);
    var earB := Product32(f.ear, bn, r, k, n);
    var eaB := Product32(f.eal, earB, m, r, n);
    Subtract32(c, aEB, eaB, m, n)
  }

  // ---------- the algebra ----------

  /** Wrapping the inner product first does not matter modulo 2^32: (x y) z against x (y z). */
  lemma WrappedLeft(x: Mat, y: Mat, z: Mat, w: Mat, v: int -> int, i: int, j: int, k: nat, r: nat)
    requires forall c :: 0 <= c < r ==> At(w, i, c) == Wrap32(Dot(x, y, i, c, 0, k))
    requires forall p :: 0 <= p < k ==> v(p) == Dot(y, z, p, j, 0, r)
    ensures Cong(Dot(w, z, i, j, 0, r), Sum(p => At(x, i, p) * v(p), 0, k))
  {
    hide Dot, Wrap32, At, Cong, Sum;
    var f: (int, int) -> int := (c, p) => At(x, i, p) * At(y, p, c) * At(z, c, j);
    var g: (int, int) -> int := (p, c) => f(c, p);
    var exact: int -> int := c => Dot(x, y, i, c, 0, k) * At(z, c, j);
    var wrapped: int -> int := c => At(w, i, c) * At(z, c, j);
    DotIsSum(w, z, i, j, 0, r, wrapped);
    forall c | 0 <= c < r
      ensures Cong(wrapped(c), exact(c))
    {
      WrapCong(Dot(x, y, i, c, 0, k));
      CongMul(At(w, i, c), Dot(x, y, i, c, 0, k), At(z, c, j));
    }
    SumCong(wrapped, exact, 0, r);
    forall c | 0 <= c < r
      ensures exact(c) == Sum(p => f(c, p), 0, k)
    {
      var t: int -> int := p => At(x, i, p) * At(y, p, c);
      DotIsSum(x, y, i, c, 0, k, t);
      SumScale(t, p => f(c, p), 0, k, At(z, c, j));
    }
    SumOfRows(f, exact, r, k);
    SumGridTranspose(f, g, r, k);
    var rows: int -> int := p => At(x, i, p) * v(p);
    forall p | 0 <= p < k
      ensures rows(p) == Sum(c => g(p, c), 0, r)
    {
      FactorOut(x, y, z, i, j, p, r, c => g(p, c));
    }
    SumOfRows(g, rows, k, r);
  }

  lemma {:induction false} SumOfRows(f: (int, int) -> int, rows: int -> int, n: nat, k: nat)
    requires forall i :: 0 <= i < n ==> rows(i) == Sum(j => f(i, j), 0, k)
    ensures SumGrid(f, n, k) == Sum(rows, 0, n)
  {
    if n > 0 {
      SumOfRows(f, rows, n - 1, k);
    }
  }

  lemma FactorOut(x: Mat, y: Mat, z: Mat, i: int, j: int, p: int, r: nat, row: int -> int)
    requires forall c :: 0 <= c < r ==> row(c) == At(x, i, p) * At(y, p, c) * At(z, c, j)
    ensures At(x, i, p) * Dot(y, z, p, j, 0, r) == Sum(row, 0, r)
  {
    hide Dot, At, Sum;
    var t: int -> int := c => At(y, p, c) * At(z, c, j);
    DotIsSum(y, z, p, j, 0, r, t);
    var s := At(x, i, p);
    forall c | 0 <= c < r
      ensures row(c) == t(c) * s
    {
      assert s * At(y, p, c) * At(z, c, j) == (At(y, p, c) * At(z, c, j)) * s;
    }
    SumScale(t, row, 0, r, s);
  }

  /** x (y z) against (x y) z, with y z wrapped. */
  lemma WrappedRight(x: Mat, y: Mat, z: Mat, w: Mat, v: int -> int, i: int, j: int, k: nat, r: nat)
    requires forall c :: 0 <= c < r ==> At(w, c, j) == Wrap32(Dot(y, z, c, j, 0, k))
    requires forall p :: 0 <= p < k ==> v(p) == Dot(x, y, i, p, 0, r)
    ensures Cong(Dot(x, w, i, j, 0, r), Sum(p => v(p) * At(z, p, j), 0, k))
  {
    hide Dot, Wrap32, At, Cong, Sum;
    var f: (int, int) -> int := (c, p) => At(x, i, c) * At(y, c, p) * At(z, p, j);
    var g: (int, int) -> int := (p, c) => f(c, p);
    var exact: int -> int := c => At(x, i, c) * Dot(y, z, c, j, 0, k);
    var wrapped: int -> int := c => At(x, i, c) * At(w, c, j);
    DotIsSum(x, w, i, j, 0, r, wrapped);
    forall c | 0 <= c < r
      ensures Cong(wrapped(c), exact(c))
    {
      WrapCong(Dot(y, z, c, j, 0, k));
      CongMul(At(w, c, j), Dot(y, z, c, j, 0, k), At(x, i, c));
    }
    SumCong(wrapped, exact, 0, r);
    forall c | 0 <= c < r
      ensures exact(c) == Sum(p => f(c, p), 0, k)
    {
      FactorOut(x, y, z, i, j, c, k, p => f(c, p));
    }
    SumOfRows(f, exact, r, k);
    SumGridTranspose(f, g, r, k);
    var rows: int -> int := p => v(p) * At(z, p, j);
    forall p | 0 <= p < k
      ensures rows(p) == Sum(c => g(p, c), 0, r)
    {
      var t: int -> int := c => At(x, i, c) * At(y, c, p);
      DotIsSum(x, y, i, p, 0, r, t);
      SumScale(t, c => g(p, c), 0, r, At(z, p, j));
    }
    SumOfRows(g, rows, k, r);
  }

  /** What the int8 casts of the noise and of the noised matrix drop: 256 times this. */
  function Lost(x: Mat, left: Mat, right: Mat, i: int, j: int, r: nat): int {
    (Wrap8(At(x, i, j) + Wrap8(Dot(left, right, i, j, 0, r))) - At(x, i, j) - Dot(left, right, i, j, 0, r)) / 256
  }

  lemma LostMeaning(x: Mat, left: Mat, right: Mat, i: int, j: int, r: nat)
    ensures Wrap8(At(x, i, j) + Wrap8(Dot(left, right, i, j, 0, r)))
         == At(x, i, j) + Dot(left, right, i, j, 0, r) + 256 * Lost(x, left, right, i, j, r)
  {
    hide Wrap8, Dot, At;
    var e, s := Dot(left, right, i, j, 0, r), At(x, i, j);
    var q := Wrap8Cong(e);
    var q' := Wrap8Cong(s + Wrap8(e));
    assert Wrap8(s + Wrap8(e)) - s - e == 256 * (q + q');
  }

  lemma Wrap8Cong(x: int) returns (q: int)
    ensures Wrap8(x) == x + 256 * q
  {
    q := (Wrap8(x) - x) / 256;
  }

  /** The term p of (A V + U Bn)[i][j], with U and V what the casts of A and of B lose. */
  function ErrorTerm(a: Mat, b: Mat, f: Factors, k: nat, n: nat, r: nat, i: int, j: int, p: int): int {
    At(a, i, p) * Lost(b, f.ebl, f.ebr, p, j, r) + Lost(a, f.eal, f.ear, i, p, r) * At(NoisedB(b, f, k, n, r), p, j)
  }

  /** Entry (i, j) of the denoised result is A B plus 256 (A V + U Bn), modulo 2^32. */
  lemma DenoiseResidue(a: Mat, b: Mat, f: Factors, c: Mat, m: nat, k: nat, n: nat, r: nat, i: nat, j: nat)
    requires IsMat(a, m, k) && IsMat(b, k, n) && i < m && j < n
    requires At(c, i, j) == Wrap32(Dot(NoisedA(a, f, m, k, r), NoisedB(b, f, k, n, r), i, j, 0, k))
    ensures Cong(At(Denoised(c, a, NoisedB(b, f, k, n, r), f, m, k, n, r), i, j),
                 Dot(a, b, i, j, 0, k) + 256 * Sum(p => ErrorTerm(a, b, f, k, n, r, i, j, p), 0, k))
  {
    hide Dot, Wrap32, Sum, NoisedA, NoisedB, ErrorTerm;
    var an, bn := NoisedA(a, f, m, k, r), NoisedB(b, f, k, n, r);
    var ea: int -> int := p => Dot(f.eal, f.ear, i, p, 0, r);
    var eb: int -> int := p => Dot(f.ebl, f.ebr, p, j, 0, r);
    var aEBL, earB := Product32(a, f.ebl, m, k, r), Product32(f.ear, bn, r, k, n);
    WrappedLeft(a, f.ebl, f.ebr, aEBL, eb, i, j, k, r);
    WrappedRight(f.eal, f.ear, bn, earB, ea, i, j, k, r);
    var s1: int -> int := p => At(an, i, p) * At(bn, p, j);
    var s2: int -> int := p => At(a, i, p) * eb(p);
    var s3: int -> int := p => ea(p) * At(bn, p, j);
    var s4: int -> int := p => At(a, i, p) * At(b, p, j);
    var s5: int -> int := p => ErrorTerm(a, b, f, k, n, r, i, j, p);
    DotIsSum(an, bn, i, j, 0, k, s1);
    DotIsSum(a, b, i, j, 0, k, s4);
    forall p | 0 <= p < k
      ensures s1(p) == s2(p) + s3(p) + s4(p) + 256 * s5(p)
    {
      TermIdentity(a, b, f, m, k, n, r, i, j, p);
    }
    FourSums(s1, s2, s3, s4, s5, k);
    DenoiseCong(Dot(an, bn, i, j, 0, k), Dot(aEBL, f.ebr, i, j, 0, r), Dot(f.eal, earB, i, j, 0, r),
                Sum(s1, 0, k), Sum(s2, 0, k), Sum(s3, 0, k));
  }

  lemma DenoiseCong(x: int, y: int, w: int, x': int, y': int, w': int)
    requires Cong(x, x') && Cong(y, y') && Cong(w, w')
    ensures Cong(Wrap32(Wrap32(x) - Wrap32(y) - Wrap32(w)), x' - y' - w')
  {
    WrapCong(x);
    WrapCong(y);
    WrapCong(w);
    WrapCong(Wrap32(x) - Wrap32(y) - Wrap32(w));
  }

  lemma {:induction false} FourSums(s1: int -> int, s2: int -> int, s3: int -> int, s4: int -> int, s5: int -> int, k: nat)
    requires forall p :: 0 <= p < k ==> s1(p) == s2(p) + s3(p) + s4(p) + 256 * s5(p)
    ensures Sum(s1, 0, k) == Sum(s2, 0, k) + Sum(s3, 0, k) + Sum(s4, 0, k) + 256 * Sum(s5, 0, k)
  {
    if k > 0 {
      FourSums(s1, s2, s3, s4, s5, k - 1);
    }
  }

  lemma TermIdentity(a: Mat, b: Mat, f: Factors, m: nat, k: nat, n: nat, r: nat, i: nat, j: nat, p: nat)
    requires IsMat(a, m, k) && IsMat(b, k, n) && i < m && j < n && p < k
    ensures At(NoisedA(a, f, m, k, r), i, p) * At(NoisedB(b, f, k, n, r), p, j)
         == At(a, i, p) * Dot(f.ebl, f.ebr, p, j, 0, r)
          + Dot(f.eal, f.ear, i, p, 0, r) * At(NoisedB(b, f, k, n, r), p, j)
          + At(a, i, p) * At(b, p, j) + 256 * ErrorTerm(a, b, f, k, n, r, i, j, p)
  {
    hide Dot, Wrap8, Lost;
    var bn := NoisedB(b, f, k, n, r);
    var x, y, ea, eb := At(a, i, p), At(b, p, j), Dot(f.eal, f.ear, i, p, 0, r), Dot(f.ebl, f.ebr, p, j, 0, r);
    var u, v, z := Lost(a, f.eal, f.ear, i, p, r), Lost(b, f.ebl, f.ebr, p, j, r), At(bn, p, j);
    LostMeaning(a, f.eal, f.ear, i, p, r);
    LostMeaning(b, f.ebl, f.ebr, p, j, r);
    assert z == y + eb + 256 * v;
    Expand(x, y, ea, eb, u, v, z);
  }

  lemma Expand(x: int, y: int, ea: int, eb: int, u: int, v: int, z: int)
    requires z == y + eb + 256 * v
    ensures (x + ea + 256 * u) * z == x * eb + ea * z + x * y + 256 * (x * v + u * z)
  {
    assert (x + ea + 256 * u) * z == x * z + ea * z + 256 * (u * z);
    assert x * z == x * y + x * eb + 256 * (x * v);
  }

  // ---------- when the casts lose nothing ----------

  /** Both int8 casts are exact. */
  ghost predicate Lossless(x: Mat, left: Mat, right: Mat, rows: nat, cols: nat, r: nat) {
    forall i, j :: 0 <= i < rows && 0 <= j < cols ==> Lost(x, left, right, i, j, r) == 0
  }

  /** With exact casts the denoised result is A B modulo 2^32, however often the noised sums wrapped,
      and it is A B itself exactly where A B fits int32. */
  lemma DenoiseExact(a: Mat, b: Mat, f: Factors, c: Mat, m: nat, k: nat, n: nat, r: nat, i: nat, j: nat)
    requires IsMat(a, m, k) && IsMat(b, k, n) && i < m && j < n
    requires Lossless(a, f.eal, f.ear, m, k, r) && Lossless(b, f.ebl, f.ebr, k, n, r)
    requires At(c, i, j) == Wrap32(Dot(NoisedA(a, f, m, k, r), NoisedB(b, f, k, n, r), i, j, 0, k))
    ensures At(Denoised(c, a, NoisedB(b, f, k, n, r), f, m, k, n, r), i, j) == Wrap32(Dot(a, b, i, j, 0, k))
    ensures At(Denoised(c, a, NoisedB(b, f, k, n, r), f, m, k, n, r), i, j) == Dot(a, b, i, j, 0, k)
       <==> Int32(Dot(a, b, i, j, 0, k))
  {
    hide Dot, Sum, NoisedA, NoisedB, Lost, Wrap32, Product32;
    var z: int -> int := p => ErrorTerm(a, b, f, k, n, r, i, j, p);
    forall p | 0 <= p < k
      ensures z(p) == 0
    {
      assert Lost(a, f.eal, f.ear, i, p, r) == 0 && Lost(b, f.ebl, f.ebr, p, j, r) == 0;
    }
    SumZero(z, 0, k);
    DenoiseResidue(a, b, f, c, m, k, n, r, i, j);
    var d := At(Denoised(c, a, NoisedB(b, f, k, n, r), f, m, k, n, r), i, j);
    CongIff(d, Dot(a, b, i, j, 0, k));
    assert Int32(d) by { DenoisedIsInt32(c, a, NoisedB(b, f, k, n, r), f, m, k, n, r, i, j); }
    WrapIdentity(d);
    WrapIdentity(Dot(a, b, i, j, 0, k));
  }

  lemma DenoisedIsInt32(c: Mat, a: Mat, bn: Mat, f: Factors, m: nat, k: nat, n: nat, r: nat, i: nat, j: nat)
    requires i < m && j < n
    ensures Int32(At(Denoised(c, a, bn, f, m, k, n, r), i, j))
  {
    hide Dot, Product32;
  }
}
