/** Keyed noise: uniform low-rank factors and signed permutation factors. */
module Noise {
  import opened Bits
  import opened Words
  import opened Ring
  import opened Transcript
  import opened Denoise

  /** NoiseGenerator: the two parameters it is built from. */
  datatype Generator = Generator(rank: nat, range: nat) {

    /** The checks of __init__. */
    predicate Accepted() {
      && range > 0 && BAnd(range, range - 1) == 0 && range <= 128
      && rank > 0 && BAnd(rank, rank - 1) == 0 && rank % 32 == 0
    }

    function ZeroPoint(): int { range / 2 / 2 }

    /** range_mask; -1 when range is 1. */
    function RangeMask(): int { range / 2 - 1 }
  }

  /** 32 seed bytes as eight words. */
  type Seed = Digest

  /** The 64-byte message of a draw: eight int32 words, 1 + index in slot `slot`, then the seed. */
  function Message(index: nat, seed: Seed, slot: nat): Block {
    seq(16, w requires 0 <= w < 16 => if w == slot then (1 + index) % TWO32 else if w < 8 then 0 else seed[w - 8])
  }

  /** _random_hash, as eight little-endian words. */
  function RandomHash(blake: Blake, index: nat, seed: Seed, key: Digest, slot: nat): Digest {
    blake(Message(index, seed, slot), key)
  }

  /** Byte x of a digest. */
  function DigestByte(d: Digest, x: nat): (b: nat)
    requires x < 32
    ensures b < 256
  {
    d[x / 4] / Pow2(8 * (x % 4)) % 256
  }

  /** v & mask for a mask that is a natural number or -1. */
  function MaskByte(v: nat, mask: int): nat {
    if mask < 0 then v else BAnd(v, mask)
  }

  /** Element number x of a uniform matrix, counted row after row. */
  function DenseEntry(g: Generator, blake: Blake, seed: Seed, key: Digest, x: nat): int {
    Wrap8(MaskByte(DigestByte(RandomHash(blake, x / 32, seed, key, 0), x % 32), g.RangeMask()) - g.ZeroPoint())
  }

  /** _uniform_matrix */
  function UniformMatrix(g: Generator, blake: Blake, seed: Seed, key: Digest, rows: nat): (u: Mat)
    ensures IsMat(u, rows, g.rank)
    ensures forall i, j :: 0 <= i < rows && 0 <= j < g.rank ==> u[i][j] == DenseEntry(g, blake, seed, key, i * g.rank + j)
  {
    seq(rows, i requires 0 <= i < rows => seq(g.rank, j requires 0 <= j < g.rank => DenseEntry(g, blake, seed, key, i * g.rank + j)))
  }

  /** mul_hi_u32 */
  function MulHi(a: nat, b: nat): nat {
    (a % TWO32) * (b % TWO32) / TWO32
  }

  /** Positions of +1 and -1 in a permutation line, from the drawn word u. */
  function First(rank: nat, u: Word): nat
    requires rank > 0
  {
    BAnd(u, rank - 1)
  }

  function Second(rank: nat, u: Word): nat
    requires rank > 0
  {
    BAnd(BXor(First(rank, u), 1 + MulHi(rank - 1, u)), rank - 1)
  }

  /** perm[x] after perm[first] = 1 and then perm[second] = -1 */
  function LineEntry(rank: nat, u: Word, x: int): int
    requires rank > 0
  {
    if x == Second(rank, u) then -1 else if x == First(rank, u) then 1 else 0
  }

  /** The word that decides line number `line`. */
  function LineWord(blake: Blake, seed: Seed, key: Digest, line: nat): Word {
    RandomHash(blake, line / 8, seed, key, 1)[line % 8]
  }

  // ---------- structure of a permutation line ----------

  lemma MulHiBound(rank: nat, u: Word)
    requires rank >= 2 && rank % 2 == 0
    ensures 1 + MulHi(rank - 1, u) <= rank - 1
  {
    var a := (rank - 1) % TWO32;
    assert 1 <= a <= rank - 1;
    ProductBelow(a, u);
    assert u % TWO32 == u;
  }

  lemma ProductBelow(a: nat, u: Word)
    requires a >= 1
    ensures a * u / TWO32 < a
  {
    TimesMonotone(u, TWO32 - 1, a);
    QuotientBelow(a * u, a, TWO32);
  }

  /** Every line has its +1 and its -1 inside the rank and at different positions; the last mask of the
      reference is redundant. */
  lemma LineStructure(rank: nat, u: Word, p: nat)
    requires rank == Pow2(p) && p >= 1
    ensures First(rank, u) < rank && Second(rank, u) < rank && First(rank, u) != Second(rank, u)
    ensures First(rank, u) == u % rank && Second(rank, u) == BXor(First(rank, u), 1 + MulHi(rank - 1, u))
  {
    var d := 1 + MulHi(rank - 1, u);
    assert rank == 2 * Pow2(p - 1);
    MulHiBound(rank, u);
    BAndMask(u, p);
    ModBelow(u, rank);
    var first := First(rank, u);
    BXorBound(first, d, p);
    BXorMoves(first, d);
    BAndMask(BXor(first, d), p);
    DivModUnique(BXor(first, d), rank, 0, BXor(first, d));
  }

  /** mul_hi_u32 of two words is the quotient of their product by 2^32. */
  lemma MulHiMeaning(a: Word, b: Word)
    ensures MulHi(a, b) * TWO32 <= a * b < (MulHi(a, b) + 1) * TWO32
  {
    RemainderOfWord(a);
    RemainderOfWord(b);
    DivisionParts(a * b, TWO32);
  }

  lemma RemainderOfWord(a: Word)
    ensures a % TWO32 == a
  {}

  /** Some drawn word puts the -1 at distance d, by XOR, from the +1. */
  ghost predicate Reachable(rank: nat, d: nat)
    requires rank > 0
  {
    exists u: Word :: Second(rank, u) == BXor(First(rank, u), d)
  }

  /** Every distance from 1 to rank - 1 can be drawn exactly for ranks up to 2^32. */
  lemma EveryDistance(rank: nat, p: nat)
    requires rank == Pow2(p) && p >= 1
    ensures (forall d: nat :: 1 <= d < rank ==> Reachable(rank, d)) <==> rank <= TWO32
  {
    hide BXor, First, Second, Pow2;
    if rank <= TWO32 {
      forall d: nat | 1 <= d < rank
        ensures Reachable(rank, d)
      {
        var u := WordFor(rank - 1, d - 1);
        LineStructure(rank, u, p);
        assert Second(rank, u) == BXor(First(rank, u), d);
      }
    } else {
      TooFar(rank, p);
    }
  }

  /** A word whose product with c has the given high part. */
  lemma WordFor(c: nat, high: nat) returns (u: Word)
    requires high < c < TWO32
    ensures MulHi(c, u) == high
  {
    var v := (high * TWO32 + c - 1) / c;
    DivisionParts(high * TWO32 + c - 1, c);
    var r := (high * TWO32 + c - 1) % c;
    assert v * c == high * TWO32 + (c - 1 - r);
    assert (high + 1) * TWO32 <= c * TWO32;
    if v >= TWO32 {
      TimesMonotone(TWO32, v, c);
      assert false;
    }
    u := v;
    RemainderOfWord(c);
    RemainderOfWord(u);
    assert c * u == high * TWO32 + (c - 1 - r);
    DivModUnique(c * u, TWO32, high, c - 1 - r);
  }

  /** Beyond 2^32 the distance 2^32 + 1 is out of reach. */
  lemma TooFar(rank: nat, p: nat)
    requires rank == Pow2(p) && p >= 1 && rank > TWO32
    ensures TWO32 + 1 < rank && !Reachable(rank, TWO32 + 1)
  {
    hide BXor, First, Second, Pow2;
    PastWord(p);
    if Reachable(rank, TWO32 + 1) {
      var u: Word :| Second(rank, u) == BXor(First(rank, u), TWO32 + 1);
      LineStructure(rank, u, p);
      SameDistance(First(rank, u), 1 + MulHi(rank - 1, u), TWO32 + 1);
      HighPartBelow(rank - 1, u);
      assert false;
    }
  }

  lemma PastWord(p: nat)
    requires Pow2(p) > TWO32
    ensures Pow2(p) >= 2 * TWO32
  {
    TwoPow32();
    if p <= 32 {
      PowGrows(p, 32);
    } else {
      PowGrows(33, p);
    }
  }

  lemma {:induction false} PowGrows(p: nat, q: nat)
    requires p <= q
    ensures Pow2(p) <= Pow2(q)
  {
    if p < q {
      PowGrows(p, q - 1);
    }
  }

  lemma SameDistance(a: nat, d: nat, e: nat)
    requires BXor(a, d) == BXor(a, e)
    ensures d == e
  {
    hide BXor;
    SelfXor(a);
    BXorAssoc(a, a, d);
    BXorAssoc(a, a, e);
    BXorZero(d);
    BXorZero(e);
  }

  lemma HighPartBelow(a: nat, u: Word)
    ensures MulHi(a, u) < TWO32
  {
    var x := a % TWO32;
    RemainderOfWord(u);
    if x == 0 {
      assert x * u == 0;
    } else {
      ProductBelow(x, u);
    }
  }

  lemma ModBelow(x: nat, d: nat)
    requires d > 0
    ensures x % d < d
  {}

  lemma {:induction false} AcceptedRank(g: Generator) returns (p: nat)
    requires g.Accepted()
    ensures g.rank == Pow2(p) && p >= 1
  {
    hide BAnd;
    PowerOfTwoTest(g.rank);
    p :| g.rank == Pow2(p);
  }

  // ---------- _permutation_matrix ----------

  /** mat[x, y] of a permutation matrix whose lines are its columns (or its rows). */
  function PermEntry(g: Generator, blake: Blake, seed: Seed, key: Digest, assignColumns: bool, x: int, y: int): int {
    var line, pos := if assignColumns then y else x, if assignColumns then x else y;
    if line >= 0 && g.rank > 0 then LineEntry(g.rank, LineWord(blake, seed, key, line), pos) else 0
  }

  ghost predicate LinesDone(g: Generator, blake: Blake, seed: Seed, key: Digest, assignColumns: bool, mat: array2<int>, n: int)
    reads mat
  {
    forall x, y :: 0 <= x < mat.Length0 && 0 <= y < mat.Length1 && (if assignColumns then y else x) < n ==>
      mat[x, y] == PermEntry(g, blake, seed, key, assignColumns, x, y)
  }

  /** mat[:, line] = perm or mat[line, :] = perm, with perm decided by the word u. */
  method AssignLine(g: Generator, blake: Blake, seed: Seed, key: Digest, assignColumns: bool, mat: array2<int>, line: nat, u: Word)
    requires g.rank > 0 && u == LineWord(blake, seed, key, line)
    requires line < (if assignColumns then mat.Length1 else mat.Length0)
    requires LinesDone(g, blake, seed, key, assignColumns, mat, line)
    modifies mat
    ensures LinesDone(g, blake, seed, key, assignColumns, mat, line + 1)
  {
    hide LineEntry, LineWord;
    if assignColumns {
      forall x | 0 <= x < mat.Length0 {
        mat[x, line] := LineEntry(g.rank, u, x);
      }
    } else {
      forall y | 0 <= y < mat.Length1 {
        mat[line, y] := LineEntry(g.rank, u, y);
      }
    }
  }

  /** The up to eight lines of draw i. */
  method AssignDraw(g: Generator, blake: Blake, seed: Seed, key: Digest, assignColumns: bool, mat: array2<int>,
                    i: nat, requiredLines: nat)
    requires g.rank > 0 && requiredLines == (if assignColumns then mat.Length1 else mat.Length0)
    requires LinesDone(g, blake, seed, key, assignColumns, mat, Search.Min(8 * i, requiredLines))
    modifies mat
    ensures LinesDone(g, blake, seed, key, assignColumns, mat, Search.Min(8 * i + 8, requiredLines))
  {
    hide RandomHash, LineWord, LinesDone;
    var words := RandomHash(blake, i, seed, key, 1);
    var k := 0;
    while k < 8 && i * 8 + k < requiredLines
      invariant 0 <= k <= 8
      invariant LinesDone(g, blake, seed, key, assignColumns, mat, Search.Min(8 * i + k, requiredLines))
    {
      DrawnWord(blake, seed, key, i, k);
      AssignLine(g, blake, seed, key, assignColumns, mat, i * 8 + k, words[k]);
      k := k + 1;
    }
  }

  /** Fill a rows x cols matrix with one signed line per column (or per row), eight lines per draw. */
  method PermutationMatrix(g: Generator, blake: Blake, seed: Seed, key: Digest, rows: nat, cols: nat, assignColumns: bool)
      returns (mat: array2<int>)
    requires g.Accepted() && (if assignColumns then rows == g.rank else cols == g.rank)
    ensures mat.Length0 == rows && mat.Length1 == cols
    ensures forall x, y :: 0 <= x < rows && 0 <= y < cols ==> mat[x, y] == PermEntry(g, blake, seed, key, assignColumns, x, y)
  {
    hide PermEntry, LinesDone;
    mat := new int[rows, cols]((_, _) => 0);
    var requiredLines := if assignColumns then cols else rows;
    var draws := (requiredLines * 4 + 31) / 32;
    NoLinesYet(g, blake, seed, key, assignColumns, mat);
    for i := 0 to draws
      invariant LinesDone(g, blake, seed, key, assignColumns, mat, Search.Min(8 * i, requiredLines))
    {
      AssignDraw(g, blake, seed, key, assignColumns, mat, i, requiredLines);
    }
    EnoughDraws(requiredLines);
    AllLines(g, blake, seed, key, assignColumns, mat, requiredLines);
  }

  lemma EnoughDraws(lines: nat)
    ensures Search.Min(8 * ((lines * 4 + 31) / 32), lines) == lines
  {}

  lemma NoLinesYet(g: Generator, blake: Blake, seed: Seed, key: Digest, assignColumns: bool, mat: array2<int>)
    ensures LinesDone(g, blake, seed, key, assignColumns, mat, 0)
  {}

  lemma DrawnWord(blake: Blake, seed: Seed, key: Digest, i: nat, k: nat)
    requires k < 8
    ensures RandomHash(blake, i, seed, key, 1)[k] == LineWord(blake, seed, key, i * 8 + k)
  {
    hide RandomHash;
  }

  lemma AllLines(g: Generator, blake: Blake, seed: Seed, key: Digest, assignColumns: bool, mat: array2<int>, n: nat)
    requires LinesDone(g, blake, seed, key, assignColumns, mat, n) && n == (if assignColumns then mat.Length1 else mat.Length0)
    ensures forall x, y :: 0 <= x < mat.Length0 && 0 <= y < mat.Length1 ==>
      mat[x, y] == PermEntry(g, blake, seed, key, assignColumns, x, y)
  {}

  // ---------- generate ----------

  /** One +1 and one -1 per line, as a matrix of lines. */
  function PermMatrix(g: Generator, blake: Blake, seed: Seed, key: Digest, rows: nat, cols: nat, assignColumns: bool): (p: Mat)
    ensures IsMat(p, rows, cols)
    ensures forall x, y :: 0 <= x < rows && 0 <= y < cols ==> p[x][y] == PermEntry(g, blake, seed, key, assignColumns, x, y)
  {
    Tabulate(rows, cols, (x, y) => PermEntry(g, blake, seed, key, assignColumns, x, y))
  }

  /** The transpose of a rows x cols matrix. */
  function Transpose(u: Mat, rows: nat, cols: nat): (t: Mat)
    ensures IsMat(t, cols, rows)
    ensures forall x, y :: 0 <= x < cols && 0 <= y < rows ==> t[x][y] == At(u, y, x)
  {
    Tabulate(cols, rows, (x, y) => At(u, y, x))
  }

  /** generate: E_AL (m x r), E_AR (r x k), E_BL (k x r), E_BR (r x n). */
  function Generate(g: Generator, blake: Blake, seedA: Seed, seedB: Seed, keyA: Digest, keyB: Digest, m: nat, k: nat, n: nat): (res: Result<Factors>)
    ensures res.Ok? <==> m >= g.rank && k >= g.rank && n >= g.rank
    ensures res.Ok? ==>
      && res.value.eal == UniformMatrix(g, blake, seedA, keyA, m) && res.value.ear == PermMatrix(g, blake, seedA, keyA, g.rank, k, true)
      && res.value.ebl == PermMatrix(g, blake, seedB, keyB, k, g.rank, false)
      && res.value.ebr == Transpose(UniformMatrix(g, blake, seedB, keyB, n), n, g.rank)
  {
    if m < g.rank || k < g.rank || n < g.rank then ValueError
    else Ok(Factors(UniformMatrix(g, blake, seedA, keyA, m),
                    PermMatrix(g, blake, seedA, keyA, g.rank, k, true),
                    PermMatrix(g, blake, seedB, keyB, k, g.rank, false),
                    Transpose(UniformMatrix(g, blake, seedB, keyB, n), n, g.rank)))
  }

  // ---------- what a draw is ----------

  /** A message says which draw it is: two of them agree exactly if draw, seed and slot do. */
  lemma MessagesDiffer(index: nat, seed: Seed, slot: nat, index': nat, seed': Seed, slot': nat)
    requires index < TWO32 - 1 && index' < TWO32 - 1 && slot < 8 && slot' < 8
    ensures Message(index, seed, slot) == Message(index', seed', slot') <==> index == index' && seed == seed' && slot == slot'
  {
    var m, m' := Message(index, seed, slot), Message(index', seed', slot');
    MessageLayout(index, seed, slot);
    MessageLayout(index', seed', slot');
    if m == m' {
      assert m[slot] == m'[slot] && m[slot'] == m'[slot'];
      assert m[8..] == seed && m'[8..] == seed';
    }
  }

  /** int32 words: 1 + index in its slot, zeros in the other seven, then the seed. */
  lemma MessageLayout(index: nat, seed: Seed, slot: nat)
    requires index < TWO32 - 1 && slot < 8
    ensures Message(index, seed, slot)[slot] == 1 + index && Message(index, seed, slot)[8..] == seed
    ensures forall w :: 0 <= w < 8 && w != slot ==> Message(index, seed, slot)[w] == 0
  {}

  /** The four bytes of each word of a digest, least significant first. */
  lemma DigestBytes(d: Digest, q: nat)
    requires q < 8
    ensures d[q] == DigestByte(d, 4 * q) + 0x100 * DigestByte(d, 4 * q + 1) + 0x1_0000 * DigestByte(d, 4 * q + 2)
                  + 0x100_0000 * DigestByte(d, 4 * q + 3)
  {
    hide DigestByte, Pow2;
    BytePowers();
    ByteOfWord(d, q, 0);
    ByteOfWord(d, q, 1);
    ByteOfWord(d, q, 2);
    ByteOfWord(d, q, 3);
    FourBytes(d[q]);
  }

  lemma ByteOfWord(d: Digest, q: nat, k: nat)
    requires q < 8 && k < 4
    ensures DigestByte(d, 4 * q + k) == d[q] / Pow2(8 * k) % 256
  {
    hide Pow2;
    assert (4 * q + k) / 4 == q && (4 * q + k) % 4 == k;
  }

  lemma BytePowers()
    ensures Pow2(0) == 1 && Pow2(8) == 0x100 && Pow2(16) == 0x1_0000 && Pow2(24) == 0x100_0000
  {
    assert Pow2(8) == 256;
    assert Pow2(12) == 16 * Pow2(8);
    assert Pow2(16) == 16 * Pow2(12);
    assert Pow2(20) == 16 * Pow2(16);
    assert Pow2(24) == 16 * Pow2(20);
  }

  lemma FourBytes(w: Word)
    ensures w == w / 1 % 256 + 0x100 * (w / 0x100 % 256) + 0x1_0000 * (w / 0x1_0000 % 256) + 0x100_0000 * (w / 0x100_0000 % 256)
  {
    var x, y := w / 0x100, w / 0x1_0000;
    assert x / 0x100 == y && y / 0x100 == w / 0x100_0000;
  }

  // ---------- noising is lossless ----------

  lemma DenseValue(w: int, half: int)
    requires 0 <= w < half <= 64
    ensures Wrap8(w - half / 2) == w - half / 2
  {}

  /** Uniform entries lie in [-zpt, range_mask - zpt] when the noise range is at least 2. */
  lemma DenseBounds(g: Generator, blake: Blake, seed: Seed, key: Digest, x: nat)
    requires g.Accepted() && g.range >= 2
    ensures -g.ZeroPoint() <= DenseEntry(g, blake, seed, key, x) <= g.RangeMask() - g.ZeroPoint()
  {
    hide RandomHash, DigestByte, Wrap8, BAnd, Pow2;
    var q := HalfIsPower(g);
    var v := DigestByte(RandomHash(blake, x / 32, seed, key, 0), x % 32);
    BAndMask(v, q);
    ModBelow(v, Pow2(q));
    DenseValue(v % Pow2(q), Pow2(q));
  }

  /** A uniform entry is its byte modulo noise_range / 2, centred: (b & 63) - 32 at noise_range 128. */
  lemma DenseMeaning(g: Generator, blake: Blake, seed: Seed, key: Digest, x: nat)
    requires g.Accepted() && g.range >= 2
    ensures DenseEntry(g, blake, seed, key, x)
         == DigestByte(blake(Message(x / 32, seed, 0), key), x % 32) % (g.range / 2) - g.range / 4
  {
    hide DigestByte, Wrap8, BAnd, Pow2, Message;
    var q := HalfIsPower(g);
    var v := DigestByte(RandomHash(blake, x / 32, seed, key, 0), x % 32);
    BAndMask(v, q);
    ModBelow(v, Pow2(q));
    DenseValue(v % Pow2(q), Pow2(q));
  }

  lemma HalfIsPower(g: Generator) returns (q: nat)
    requires g.Accepted() && g.range >= 2
    ensures g.range / 2 == Pow2(q) && g.range == 2 * Pow2(q)
  {
    PowerOfTwoTest(g.range);
    var p: nat :| g.range == Pow2(p);
    q := p - 1;
  }

  lemma UniformBounds(g: Generator, blake: Blake, seed: Seed, key: Digest, rows: nat, i: nat, c: nat)
    requires g.Accepted() && g.range >= 2 && i < rows && c < g.rank
    ensures -g.ZeroPoint() <= At(UniformMatrix(g, blake, seed, key, rows), i, c) <= g.RangeMask() - g.ZeroPoint()
  {
    hide DenseEntry, UniformMatrix, BAnd;
    var x := EntryNumber(g, i, c);
    DenseBounds(g, blake, seed, key, x);
    UniformEntry(g, blake, seed, key, rows, i, c);
  }

  lemma EntryNumber(g: Generator, i: nat, c: nat) returns (x: nat)
    ensures x == i * g.rank + c
  {
    assert i * g.rank >= 0;
    x := i * g.rank + c;
  }

  lemma UniformEntry(g: Generator, blake: Blake, seed: Seed, key: Digest, rows: nat, i: nat, c: nat)
    requires i < rows && c < g.rank
    ensures At(UniformMatrix(g, blake, seed, key, rows), i, c) == DenseEntry(g, blake, seed, key, i * g.rank + c)
  {
    hide DenseEntry;
  }

  lemma {:induction false} SumOfTwo(f: int -> int, n: nat, x: nat, y: nat)
    requires x != y && forall p :: 0 <= p < n && p != x && p != y ==> f(p) == 0
    ensures Sum(f, 0, n) == (if x < n then f(x) else 0) + (if y < n then f(y) else 0)
  {
    if n > 0 {
      SumOfTwo(f, n - 1, x, y);
    }
  }

  /** An entry of uniform @ permutation is the difference of two uniform entries. */
  lemma NoiseOfA(g: Generator, blake: Blake, seed: Seed, key: Digest, m: nat, k: nat, i: nat, j: nat) returns (x: nat, y: nat)
    requires g.Accepted() && i < m && j < k
    ensures x == First(g.rank, LineWord(blake, seed, key, j)) && y == Second(g.rank, LineWord(blake, seed, key, j))
    ensures x < g.rank && y < g.rank
    ensures Dot(UniformMatrix(g, blake, seed, key, m), PermMatrix(g, blake, seed, key, g.rank, k, true), i, j, 0, g.rank)
         == At(UniformMatrix(g, blake, seed, key, m), i, x) - At(UniformMatrix(g, blake, seed, key, m), i, y)
  {
    hide DenseEntry, UniformMatrix, First, Second, LineWord, Sum, Dot;
    var w := LineWord(blake, seed, key, j);
    var p := AcceptedRank(g);
    LineStructure(g.rank, w, p);
    x, y := First(g.rank, w), Second(g.rank, w);
    var left, right := UniformMatrix(g, blake, seed, key, m), PermMatrix(g, blake, seed, key, g.rank, k, true);
    var f: int -> int := c => At(left, i, c) * At(right, c, j);
    DotIsSum(left, right, i, j, 0, g.rank, f);
    forall c | 0 <= c < g.rank
      ensures f(c) == (if c == y then -At(left, i, c) else if c == x then At(left, i, c) else 0)
    {
      assert right[c][j] == PermEntry(g, blake, seed, key, true, c, j) == LineEntry(g.rank, w, c);
    }
    SumOfTwo(f, g.rank, x, y);
  }

  /** An entry of permutation @ transposed uniform is the difference of two uniform entries. */
  lemma NoiseOfB(g: Generator, blake: Blake, seed: Seed, key: Digest, k: nat, n: nat, i: nat, j: nat) returns (x: nat, y: nat)
    requires g.Accepted() && i < k && j < n
    ensures x == First(g.rank, LineWord(blake, seed, key, i)) && y == Second(g.rank, LineWord(blake, seed, key, i))
    ensures x < g.rank && y < g.rank
    ensures Dot(PermMatrix(g, blake, seed, key, k, g.rank, false), Transpose(UniformMatrix(g, blake, seed, key, n), n, g.rank), i, j, 0, g.rank)
         == At(UniformMatrix(g, blake, seed, key, n), j, x) - At(UniformMatrix(g, blake, seed, key, n), j, y)
  {
    hide DenseEntry, UniformMatrix, First, Second, LineWord, Sum, Dot;
    var w := LineWord(blake, seed, key, i);
    var p := AcceptedRank(g);
    LineStructure(g.rank, w, p);
    x, y := First(g.rank, w), Second(g.rank, w);
    var left := PermMatrix(g, blake, seed, key, k, g.rank, false);
    var right := Transpose(UniformMatrix(g, blake, seed, key, n), n, g.rank);
    var f: int -> int := c => At(left, i, c) * At(right, c, j);
    DotIsSum(left, right, i, j, 0, g.rank, f);
    forall c | 0 <= c < g.rank
      ensures f(c) == (if c == y then -At(right, c, j) else if c == x then At(right, c, j) else 0)
    {
      assert left[i][c] == PermEntry(g, blake, seed, key, false, i, c) == LineEntry(g.rank, w, c);
    }
    SumOfTwo(f, g.rank, x, y);
  }

  // ---------- the documented bound on noise entries ----------

  /** Every entry of both noise matrices lies in [-63, 62]. */
  ghost predicate NoiseWithin(g: Generator, blake: Blake, seedA: Seed, seedB: Seed, keyA: Digest, keyB: Digest, m: nat, k: nat, n: nat) {
    Generate(g, blake, seedA, seedB, keyA, keyB, m, k, n).Ok? ==>
      var f := Generate(g, blake, seedA, seedB, keyA, keyB, m, k, n).value;
      && (forall i: nat, j: nat :: i < m && j < k ==> -63 <= Dot(f.eal, f.ear, i, j, 0, g.rank) <= 62)
      && (forall i: nat, j: nat :: i < k && j < n ==> -63 <= Dot(f.ebl, f.ebr, i, j, 0, g.rank) <= 62)
  }

  /** A noise entry of 63 does occur at noise_range 128, and at 1, where the mask is -1. */
  lemma NoiseReaches63(g: Generator, seed: Seed, key: Digest, m: nat, k: nat) returns (blake: Blake)
    requires g.Accepted() && (g.range == 1 || g.range == 128) && m > 0 && k > 0
    ensures Dot(UniformMatrix(g, blake, seed, key, m), PermMatrix(g, blake, seed, key, g.rank, k, true), 0, 0, 0, g.rank) == 63
  {
    hide Dot, UniformMatrix, PermMatrix, First, Second, DenseEntry, BAnd;
    var zeros: Digest, dense: Digest := [0, 0, 0, 0, 0, 0, 0, 0], [63, 0, 0, 0, 0, 0, 0, 0];
    blake := (msg, key) => if msg[0] == 0 then zeros else dense;
    var x, y := NoiseOfA(g, blake, seed, key, m, k, 0, 0);
    var q := EvenRank(g.rank);
    ZeroDraw(g.rank, q);
    MessagesOfDraw0(seed);
    assert LineWord(blake, seed, key, 0) == 0;
    Bytes63And0();
    FirstEntries(g, blake, seed, key, m, dense);
  }

  /** The word 0 puts +1 at position 0 and -1 at position 1, whatever the even rank. */
  lemma ZeroDraw(rank: nat, q: nat)
    requires rank == 2 * q + 2
    ensures First(rank, 0) == 0 && Second(rank, 0) == 1
  {
    hide BXor, BAnd, MulHi;
    NoCarry(rank - 1);
    BAndOfZero(rank - 1);
    BXorZero(1);
    BAndOne(q);
  }

  lemma EvenRank(rank: nat) returns (q: nat)
    requires rank > 0 && rank % 32 == 0
    ensures rank == 2 * q + 2
  {
    assert rank == 2 * (16 * (rank / 32));
    q := 16 * (rank / 32) - 1;
  }

  lemma NoCarry(a: nat)
    ensures MulHi(a, 0) == 0
  {
    assert (a % TWO32) * 0 == 0;
  }

  lemma BAndOfZero(a: nat)
    ensures BAnd(0, a) == 0
  {}

  lemma BAndOne(q: nat)
    ensures BAnd(1, 2 * q + 1) == 1
  {
    BAndOdd(1, q);
    BAndOfZero(q);
  }

  lemma MessagesOfDraw0(seed: Seed)
    ensures Message(0, seed, 0)[0] == 1 && Message(0, seed, 1)[0] == 0
  {}

  lemma Bytes63And0()
    ensures BAnd(63, 63) == 63 && BAnd(0, 63) == 0 && Pow2(0) == 1 && Pow2(8) == 256
  {
    BAndSelf(63);
    assert Pow2(4) == 16;
  }

  lemma FirstEntries(g: Generator, blake: Blake, seed: Seed, key: Digest, m: nat, dense: Digest)
    requires m > 0 && g.rank >= 32 && (g.range == 1 || g.range == 128)
    requires dense == [63, 0, 0, 0, 0, 0, 0, 0] && RandomHash(blake, 0, seed, key, 0) == dense
    requires BAnd(63, 63) == 63 && BAnd(0, 63) == 0 && Pow2(0) == 1 && Pow2(8) == 256
    ensures At(UniformMatrix(g, blake, seed, key, m), 0, 0) - At(UniformMatrix(g, blake, seed, key, m), 0, 1) == 63
  {
    hide BAnd, Pow2, RandomHash, UniformMatrix, DenseEntry;
    UniformEntry(g, blake, seed, key, m, 0, 0);
    UniformEntry(g, blake, seed, key, m, 0, 1);
    assert 0 * g.rank == 0;
    FirstDraws(g, blake, seed, key, dense);
  }

  lemma FirstDraws(g: Generator, blake: Blake, seed: Seed, key: Digest, dense: Digest)
    requires g.range == 1 || g.range == 128
    requires dense == [63, 0, 0, 0, 0, 0, 0, 0] && RandomHash(blake, 0, seed, key, 0) == dense
    requires BAnd(63, 63) == 63 && BAnd(0, 63) == 0 && Pow2(0) == 1 && Pow2(8) == 256
    ensures DenseEntry(g, blake, seed, key, 0) - DenseEntry(g, blake, seed, key, 1) == 63
  {
    hide BAnd, Pow2, RandomHash;
    assert DigestByte(dense, 0) == 63 && DigestByte(dense, 1) == 0;
  }

  /** The documented bound holds for every hash, seed, key and size exactly when 2 <= noise_range <= 64. */
  lemma DocumentedNoiseBound(g: Generator)
    requires g.Accepted()
    ensures (forall blake: Blake, seedA, seedB, keyA, keyB, m: nat, k: nat, n: nat :: NoiseWithin(g, blake, seedA, seedB, keyA, keyB, m, k, n))
      <==> 2 <= g.range <= 64
  {
    hide NoiseWithin;
    if 2 <= g.range <= 64 {
      forall blake: Blake, seedA, seedB, keyA, keyB, m: nat, k: nat, n: nat
        ensures NoiseWithin(g, blake, seedA, seedB, keyA, keyB, m, k, n)
      {
        SmallNoise(g, blake, seedA, seedB, keyA, keyB, m, k, n);
      }
    } else {
      RangeAbove64(g);
      var seed: Seed := [0, 0, 0, 0, 0, 0, 0, 0];
      var blake := NoiseReaches63(g, seed, seed, g.rank, g.rank);
      LargeNoise(g, blake, seed);
    }
  }

  lemma SmallNoise(g: Generator, blake: Blake, seedA: Seed, seedB: Seed, keyA: Digest, keyB: Digest, m: nat, k: nat, n: nat)
    requires g.Accepted() && 2 <= g.range <= 64
    ensures NoiseWithin(g, blake, seedA, seedB, keyA, keyB, m, k, n)
  {
    hide Dot, UniformMatrix, PermMatrix, Transpose, BAnd;
    if Generate(g, blake, seedA, seedB, keyA, keyB, m, k, n).Ok? {
      var f := Generate(g, blake, seedA, seedB, keyA, keyB, m, k, n).value;
      forall i: nat, j: nat | i < m && j < k
        ensures -63 <= Dot(f.eal, f.ear, i, j, 0, g.rank) <= 62
      {
        NoiseBoundA(g, blake, seedA, keyA, m, k, i, j);
      }
      forall i: nat, j: nat | i < k && j < n
        ensures -63 <= Dot(f.ebl, f.ebr, i, j, 0, g.rank) <= 62
      {
        NoiseBoundB(g, blake, seedB, keyB, k, n, i, j);
      }
    }
  }

  /** An entry of E_A is at most noise_range / 2 - 1 in magnitude. */
  lemma NoiseBoundA(g: Generator, blake: Blake, seed: Seed, key: Digest, m: nat, k: nat, i: nat, j: nat)
    requires g.Accepted() && g.range >= 2 && i < m && j < k
    ensures var e := Dot(UniformMatrix(g, blake, seed, key, m), PermMatrix(g, blake, seed, key, g.rank, k, true), i, j, 0, g.rank);
            -(g.range / 2 - 1) <= e <= g.range / 2 - 1
  {
    hide Dot, UniformMatrix, PermMatrix, LineWord, First, Second, BAnd;
    var x, y := NoiseOfA(g, blake, seed, key, m, k, i, j);
    UniformBounds(g, blake, seed, key, m, i, x);
    UniformBounds(g, blake, seed, key, m, i, y);
    HalfRange(g);
  }

  /** The same for E_B. */
  lemma NoiseBoundB(g: Generator, blake: Blake, seed: Seed, key: Digest, k: nat, n: nat, i: nat, j: nat)
    requires g.Accepted() && g.range >= 2 && i < k && j < n
    ensures var e := Dot(PermMatrix(g, blake, seed, key, k, g.rank, false), Transpose(UniformMatrix(g, blake, seed, key, n), n, g.rank), i, j, 0, g.rank);
            -(g.range / 2 - 1) <= e <= g.range / 2 - 1
  {
    hide Dot, UniformMatrix, PermMatrix, Transpose, BAnd;
    var x, y := NoiseOfB(g, blake, seed, key, k, n, i, j);
    UniformBounds(g, blake, seed, key, n, j, x);
    UniformBounds(g, blake, seed, key, n, j, y);
    HalfRange(g);
  }

  lemma RangeAbove64(g: Generator)
    requires g.Accepted() && !(2 <= g.range <= 64)
    ensures g.range == 1 || g.range == 128
  {
    hide BAnd;
    if g.range > 64 {
      var q := HalfIsPower(g);
      PowerPast64(q);
    }
  }

  lemma PowerPast64(q: nat)
    ensures q <= 5 ==> Pow2(q) <= 32
    ensures q == 6 ==> Pow2(q) == 64
    ensures q >= 7 ==> Pow2(q) >= 128
  {
    assert Pow2(3) == 8;
    assert Pow2(6) == 64;
    if q >= 8 {
      PowerPast64(q - 1);
    }
  }

  lemma LargeNoise(g: Generator, blake: Blake, seed: Seed)
    requires g.Accepted()
    requires Dot(UniformMatrix(g, blake, seed, seed, g.rank), PermMatrix(g, blake, seed, seed, g.rank, g.rank, true), 0, 0, 0, g.rank) == 63
    ensures !NoiseWithin(g, blake, seed, seed, seed, seed, g.rank, g.rank, g.rank)
  {
    hide Dot, UniformMatrix, PermMatrix, Transpose, BAnd;
    var f := Generate(g, blake, seed, seed, seed, seed, g.rank, g.rank, g.rank).value;
    assert Dot(f.eal, f.ear, 0, 0, 0, g.rank) == 63;
  }

  lemma HalfRange(g: Generator)
    requires g.Accepted() && g.range >= 2
    ensures Lo(g.range) == -128 + g.range / 2 && Hi(g.range) == 127 - g.range / 2 && g.range % 2 == 0
  {
    var q := HalfIsPower(g);
  }

  /** Noise entries stay within range/2 - 1 and noised entries within [-127, 126]: both casts are exact. */
  lemma CastsAreExact(g: Generator, s: int, d0: int, d1: int)
    requires g.Accepted() && g.range >= 2 && Lo(g.range) <= s <= Hi(g.range)
    requires -g.ZeroPoint() <= d0 <= g.RangeMask() - g.ZeroPoint() && -g.ZeroPoint() <= d1 <= g.RangeMask() - g.ZeroPoint()
    ensures -(g.range / 2 - 1) <= d0 - d1 <= g.range / 2 - 1
    ensures -127 <= s + (d0 - d1) <= 126
    ensures Wrap8(s + Wrap8(d0 - d1)) == s + (d0 - d1)
  {
    HalfRange(g);
    WrapIdentity(d0 - d1);
    WrapIdentity(s + (d0 - d1));
  }

  lemma LosslessEntry(x: Mat, left: Mat, right: Mat, i: int, j: int, r: nat)
    requires Wrap8(At(x, i, j) + Wrap8(Dot(left, right, i, j, 0, r))) == At(x, i, j) + Dot(left, right, i, j, 0, r)
    ensures Lost(x, left, right, i, j, r) == 0
  {
    hide Dot, Wrap8, At;
  }

  lemma EntryWithin(a: Mat, lo: int, hi: int, i: nat, j: nat)
    requires Within(a, lo, hi) && i < |a| && j < |a[i]|
    ensures lo <= At(a, i, j) <= hi
  {}

  lemma LosslessA(g: Generator, blake: Blake, seed: Seed, key: Digest, a: Mat, m: nat, k: nat, i: nat, j: nat)
    requires g.Accepted() && g.range >= 2 && IsMat(a, m, k) && Within(a, Lo(g.range), Hi(g.range)) && i < m && j < k
    ensures Lost(a, UniformMatrix(g, blake, seed, key, m), PermMatrix(g, blake, seed, key, g.rank, k, true), i, j, g.rank) == 0
  {
    hide Dot, Lost, UniformMatrix, PermMatrix, Wrap8, Lo, Hi, Within, At, LineWord, First, Second, BAnd;
    var u := UniformMatrix(g, blake, seed, key, m);
    var x, y := NoiseOfA(g, blake, seed, key, m, k, i, j);
    UniformBounds(g, blake, seed, key, m, i, x);
    UniformBounds(g, blake, seed, key, m, i, y);
    EntryWithin(a, Lo(g.range), Hi(g.range), i, j);
    CastsAreExact(g, At(a, i, j), At(u, i, x), At(u, i, y));
    LosslessEntry(a, u, PermMatrix(g, blake, seed, key, g.rank, k, true), i, j, g.rank);
  }

  lemma LosslessB(g: Generator, blake: Blake, seed: Seed, key: Digest, b: Mat, k: nat, n: nat, i: nat, j: nat)
    requires g.Accepted() && g.range >= 2 && IsMat(b, k, n) && Within(b, Lo(g.range), Hi(g.range)) && i < k && j < n
    ensures Lost(b, PermMatrix(g, blake, seed, key, k, g.rank, false), Transpose(UniformMatrix(g, blake, seed, key, n), n, g.rank),
                 i, j, g.rank) == 0
  {
    hide Dot, Lost, UniformMatrix, PermMatrix, Transpose, Wrap8, Lo, Hi, Within, At, BAnd;
    var u := UniformMatrix(g, blake, seed, key, n);
    var x, y := NoiseOfB(g, blake, seed, key, k, n, i, j);
    UniformBounds(g, blake, seed, key, n, j, x);
    UniformBounds(g, blake, seed, key, n, j, y);
    EntryWithin(b, Lo(g.range), Hi(g.range), i, j);
    CastsAreExact(g, At(b, i, j), At(u, j, x), At(u, j, y));
    LosslessEntry(b, PermMatrix(g, blake, seed, key, k, g.rank, false), Transpose(u, n, g.rank), i, j, g.rank);
  }

  /** Generated noise is lossless on every operand in range, for every noise range from 2 to 128. */
  lemma GeneratedIsLossless(g: Generator, blake: Blake, seedA: Seed, seedB: Seed, keyA: Digest, keyB: Digest,
                            a: Mat, b: Mat, m: nat, k: nat, n: nat)
    requires g.Accepted() && g.range >= 2 && IsMat(a, m, k) && IsMat(b, k, n)
    requires Within(a, Lo(g.range), Hi(g.range)) && Within(b, Lo(g.range), Hi(g.range))
    requires Generate(g, blake, seedA, seedB, keyA, keyB, m, k, n).Ok?
    ensures var f := Generate(g, blake, seedA, seedB, keyA, keyB, m, k, n).value;
            Lossless(a, f.eal, f.ear, m, k, g.rank) && Lossless(b, f.ebl, f.ebr, k, n, g.rank)
  {
    hide Lost, UniformMatrix, PermMatrix, Transpose, Within;
    var f := Generate(g, blake, seedA, seedB, keyA, keyB, m, k, n).value;
    forall i, j | 0 <= i < m && 0 <= j < k
      ensures Lost(a, f.eal, f.ear, i, j, g.rank) == 0
    {
      LosslessA(g, blake, seedA, keyA, a, m, k, i, j);
    }
    forall i, j | 0 <= i < k && 0 <= j < n
      ensures Lost(b, f.ebl, f.ebr, i, j, g.rank) == 0
    {
      LosslessB(g, blake, seedB, keyB, b, k, n, i, j);
    }
  }

  /** Noising these operands with the generated factors loses nothing to the int8 casts. */
  ghost predicate NoisesLosslessly(g: Generator, blake: Blake, seedA: Seed, seedB: Seed, keyA: Digest, keyB: Digest,
                                   a: Mat, b: Mat, m: nat, k: nat, n: nat) {
    IsMat(a, m, k) && IsMat(b, k, n) && Within(a, Lo(g.range), Hi(g.range)) && Within(b, Lo(g.range), Hi(g.range))
    && Generate(g, blake, seedA, seedB, keyA, keyB, m, k, n).Ok? ==>
      var f := Generate(g, blake, seedA, seedB, keyA, keyB, m, k, n).value;
      Lossless(a, f.eal, f.ear, m, k, g.rank) && Lossless(b, f.ebl, f.ebr, k, n, g.rank)
  }

  /** Of the accepted noise ranges only 1 can lose something: it does for some hash and operands in range. */
  lemma LosslessExactly(g: Generator)
    requires g.Accepted()
    ensures (forall blake: Blake, seedA, seedB, keyA, keyB, a, b, m: nat, k: nat, n: nat ::
              NoisesLosslessly(g, blake, seedA, seedB, keyA, keyB, a, b, m, k, n)) <==> g.range >= 2
  {
    hide Generate, Lossless, Within, BAnd;
    if g.range >= 2 {
      forall blake: Blake, seedA, seedB, keyA, keyB, a, b, m: nat, k: nat, n: nat
        ensures NoisesLosslessly(g, blake, seedA, seedB, keyA, keyB, a, b, m, k, n)
      {
        GeneratedLosslessly(g, blake, seedA, seedB, keyA, keyB, a, b, m, k, n);
      }
    } else {
      var seed: Seed := [0, 0, 0, 0, 0, 0, 0, 0];
      var r := g.rank;
      var blake := NoiseReaches63(g, seed, seed, r, r);
      var a := Tabulate(r, r, (_, _) => 126);
      SomethingLost(g, blake, seed, a);
    }
  }

  lemma GeneratedLosslessly(g: Generator, blake: Blake, seedA: Seed, seedB: Seed, keyA: Digest, keyB: Digest,
                            a: Mat, b: Mat, m: nat, k: nat, n: nat)
    requires g.Accepted() && g.range >= 2
    ensures NoisesLosslessly(g, blake, seedA, seedB, keyA, keyB, a, b, m, k, n)
  {
    hide Generate, Lossless, Within, BAnd;
    if IsMat(a, m, k) && IsMat(b, k, n) && Within(a, Lo(g.range), Hi(g.range)) && Within(b, Lo(g.range), Hi(g.range)) {
      if Generate(g, blake, seedA, seedB, keyA, keyB, m, k, n).Ok? {
        GeneratedIsLossless(g, blake, seedA, seedB, keyA, keyB, a, b, m, k, n);
      }
    }
  }

  lemma SomethingLost(g: Generator, blake: Blake, seed: Seed, a: Mat)
    requires g.Accepted() && g.range == 1 && IsMat(a, g.rank, g.rank)
    requires forall i, j :: 0 <= i < g.rank && 0 <= j < g.rank ==> a[i][j] == 126
    requires Dot(UniformMatrix(g, blake, seed, seed, g.rank), PermMatrix(g, blake, seed, seed, g.rank, g.rank, true), 0, 0, 0, g.rank) == 63
    ensures !NoisesLosslessly(g, blake, seed, seed, seed, seed, a, a, g.rank, g.rank, g.rank)
  {
    hide Dot, UniformMatrix, PermMatrix, Transpose, BAnd;
    var f := Generate(g, blake, seed, seed, seed, seed, g.rank, g.rank, g.rank).value;
    assert At(a, 0, 0) == 126;
    assert Lost(a, f.eal, f.ear, 0, 0, g.rank) == -1;
  }

  // ---------- how long a product fits int32 ----------

  /** Largest magnitude of a valid entry. */
  function Magnitude(range: nat): int { 128 - range / 2 }

  lemma ProductsOfEntries(p: int, q: int, c: int)
    requires -c <= p <= c && -c <= q <= c
    ensures -(c * c) <= p * q <= c * c
  {
    var x: nat, y: nat := if p < 0 then -p else p, if q < 0 then -q else q;
    ProductOfMagnitudes(x, y, c);
    SignsOut(p, q);
  }

  lemma ProductOfMagnitudes(x: nat, y: nat, c: nat)
    requires x <= c && y <= c
    ensures 0 <= x * y <= c * c
  {
    TimesMonotone(x, c, y);
    TimesMonotone(y, c, c);
    assert c * y == y * c;
  }

  lemma SignsOut(p: int, q: int)
    ensures p * q == (-p) * (-q) && p * -q == -(p * q) && -p * q == -(p * q)
  {}

  /** While k * magnitude^2 fits int32, so does every entry of every valid product. */
  lemma ShortProductsFit(range: nat, a: Mat, b: Mat, m: nat, k: nat, n: nat, i: nat, j: nat)
    requires range % 2 == 0 && range <= 128 && IsMat(a, m, k) && IsMat(b, k, n) && i < m && j < n
    requires Within(a, Lo(range), Hi(range)) && Within(b, Lo(range), Hi(range))
    requires Magnitude(range) * Magnitude(range) * k <= 0x7FFF_FFFF
    ensures Int32(Dot(a, b, i, j, 0, k))
  {
    hide Dot, Sum;
    var c := Magnitude(range);
    var f: int -> int := p => At(a, i, p) * At(b, p, j);
    DotIsSum(a, b, i, j, 0, k, f);
    forall p | 0 <= p < k
      ensures -(c * c) <= f(p) <= c * c
    {
      assert At(a, i, p) == a[i][p] && At(b, p, j) == b[p][j];
      ProductsOfEntries(a[i][p], b[p][j], c);
    }
    SumBound(f, 0, k, c * c);
  }

  lemma {:induction false} ConstantDot(a: Mat, b: Mat, i: int, j: int, v: int, k: nat)
    requires forall p :: 0 <= p < k ==> At(a, i, p) == v && At(b, p, j) == v
    ensures Dot(a, b, i, j, 0, k) == v * v * k
  {
    if k > 0 {
      ConstantDot(a, b, i, j, v, k - 1);
      assert v * v * k == v * v * (k - 1) + v * v;
    }
  }

  /** Beyond that bound some valid product does not fit. */
  lemma LongProductOverflows(range: nat, m: nat, k: nat, n: nat) returns (a: Mat, b: Mat)
    requires range % 2 == 0 && range <= 128 && m > 0 && n > 0
    requires Magnitude(range) * Magnitude(range) * k > 0x7FFF_FFFF
    ensures IsMat(a, m, k) && IsMat(b, k, n)
    ensures Within(a, Lo(range), Hi(range)) && Within(b, Lo(range), Hi(range))
    ensures !Int32(Dot(a, b, 0, 0, 0, k))
  {
    hide Dot;
    var v := Lo(range);
    a := Tabulate(m, k, (_, _) => v);
    b := Tabulate(k, n, (_, _) => v);
    ConstantDot(a, b, 0, 0, v, k);
    assert v * v == Magnitude(range) * Magnitude(range);
  }
}
