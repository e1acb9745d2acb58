/** When a whole run, noise included, returns the product. */
module RunTheorem {
  import opened Words
  import opened Ring
  import opened Transcript
  import opened Denoise
  import opened Noise
  import opened Reference

  /** The generator and the GEMM share rank and range, and the generator accepts them. */
  predicate Paired(g: Generator, gemm: NoisyGemm) {
    g.Accepted() && g.range >= 2 && gemm.noiseRange == g.range && gemm.noiseRank == g.rank
  }

  ghost predicate Operands(gemm: NoisyGemm, a: Mat, b: Mat, m: nat, k: nat, n: nat) {
    IsMat(a, m, k) && IsMat(b, k, n) && gemm.InRange(a) && gemm.InRange(b)
  }

  lemma RangeIsWithin(gemm: NoisyGemm, range: nat, a: Mat, m: nat, k: nat)
    requires gemm.noiseRange == range && IsMat(a, m, k)
    ensures gemm.InRange(a) <==> Within(a, Lo(range), Hi(range))
  {
    if gemm.InRange(a) {
      forall i, j | 0 <= i < |a| && 0 <= j < |a[i]|
        ensures Lo(range) <= a[i][j] <= Hi(range)
      {}
    }
  }

  /** A run over generated noise returns A B modulo 2^32 whatever the noised sums did, and A B itself
      exactly when A B fits int32. */
  lemma GeneratedRun(g: Generator, gemm: NoisyGemm, blake: Blake, seedA: Seed, seedB: Seed, keyA: Digest, keyB: Digest,
                     a: Mat, b: Mat, m: nat, k: nat, n: nat)
    requires Paired(g, gemm) && Operands(gemm, a, b, m, k, n)
    requires Generate(g, blake, seedA, seedB, keyA, keyB, m, k, n).Ok?
    ensures var f := Generate(g, blake, seedA, seedB, keyA, keyB, m, k, n).value;
            && gemm.RunProduct(a, b, f, m, k, n) == Product32(a, b, m, k, n)
            && (gemm.RunProduct(a, b, f, m, k, n) == Product(a, b, m, k, n) <==> FitsInt32(a, b, m, k, n))
  {
    hide Lossless, FitsInt32, Product32, Product, Within, UniformMatrix, PermMatrix, Transpose;
    RangeIsWithin(gemm, g.range, a, m, k);
    RangeIsWithin(gemm, g.range, b, k, n);
    GeneratedIsLossless(g, blake, seedA, seedB, keyA, keyB, a, b, m, k, n);
    var f := Generate(g, blake, seedA, seedB, keyA, keyB, m, k, n).value;
    RunReturnsProduct(gemm, a, b, f, m, k, n);
  }

  /** Every run with these dimensions returns the exact product. */
  ghost predicate AlwaysExact(gemm: NoisyGemm, f: Factors, m: nat, k: nat, n: nat) {
    forall a, b :: Operands(gemm, a, b, m, k, n) ==> gemm.RunProduct(a, b, f, m, k, n) == Product(a, b, m, k, n)
  }

  /** The documented promise that C is always exactly A B holds for all valid operands if and only if
      k times the square of the largest entry magnitude fits int32. */
  lemma ExactUpToBound(g: Generator, gemm: NoisyGemm, blake: Blake, seedA: Seed, seedB: Seed, keyA: Digest, keyB: Digest,
                       m: nat, k: nat, n: nat)
    requires Paired(g, gemm) && m > 0 && n > 0 && Generate(g, blake, seedA, seedB, keyA, keyB, m, k, n).Ok?
    ensures AlwaysExact(gemm, Generate(g, blake, seedA, seedB, keyA, keyB, m, k, n).value, m, k, n)
       <==> Magnitude(g.range) * Magnitude(g.range) * k <= 0x7FFF_FFFF
  {
    hide Generate, Within, FitsInt32, Product, Dot;
    assert g.range % 2 == 0 by { EvenRange(g); }
    var f := Generate(g, blake, seedA, seedB, keyA, keyB, m, k, n).value;
    if Magnitude(g.range) * Magnitude(g.range) * k <= 0x7FFF_FFFF {
      forall a, b | Operands(gemm, a, b, m, k, n)
        ensures gemm.RunProduct(a, b, f, m, k, n) == Product(a, b, m, k, n)
      {
        RangeIsWithin(gemm, g.range, a, m, k);
        RangeIsWithin(gemm, g.range, b, k, n);
        ProductFits(g.range, a, b, m, k, n);
        GeneratedRun(g, gemm, blake, seedA, seedB, keyA, keyB, a, b, m, k, n);
      }
    } else {
      var a, b := LongProductOverflows(g.range, m, k, n);
      RangeIsWithin(gemm, g.range, a, m, k);
      RangeIsWithin(gemm, g.range, b, k, n);
      Overflows(a, b, m, k, n);
      GeneratedRun(g, gemm, blake, seedA, seedB, keyA, keyB, a, b, m, k, n);
    }
  }

  lemma EvenRange(g: Generator)
    requires g.Accepted() && g.range >= 2
    ensures g.range % 2 == 0
  {
    var q := HalfIsPower(g);
  }

  lemma ProductFits(range: nat, a: Mat, b: Mat, m: nat, k: nat, n: nat)
    requires range % 2 == 0 && range <= 128 && IsMat(a, m, k) && IsMat(b, k, n)
    requires Within(a, Lo(range), Hi(range)) && Within(b, Lo(range), Hi(range))
    requires Magnitude(range) * Magnitude(range) * k <= 0x7FFF_FFFF
    ensures FitsInt32(a, b, m, k, n)
  {
    hide Dot, Within;
    forall i, j | 0 <= i < m && 0 <= j < n
      ensures Int32(Dot(a, b, i, j, 0, k))
    {
      ShortProductsFit(range, a, b, m, k, n, i, j);
    }
  }

  lemma Overflows(a: Mat, b: Mat, m: nat, k: nat, n: nat)
    requires m > 0 && n > 0 && !Int32(Dot(a, b, 0, 0, 0, k))
    ensures !FitsInt32(a, b, m, k, n)
  {}

  /** At the production range of 128: up to k = 524287 and no further. */
  lemma ExactAtRange128(k: nat)
    ensures Magnitude(128) * Magnitude(128) * k <= 0x7FFF_FFFF <==> k <= 524287
  {}
}
