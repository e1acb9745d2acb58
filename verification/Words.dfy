/** 32-bit words: rotation, XOR reductions and 256-bit comparison. */
module Words {
  import opened Bits

  const TWO32: int := 0x1_0000_0000
  const U32: nat := 0xFFFF_FFFF

  type Word = x: int | 0 <= x < TWO32

  lemma TwoPow32()
    ensures Pow2(32) == TWO32 && Pow2(19) == 0x8_0000 && Pow2(13) == 0x2000
  {
    assert Pow2(8) == 256;
    assert Pow2(13) == 32 * Pow2(8);
    assert Pow2(16) == 8 * Pow2(13);
    assert Pow2(19) == 8 * Pow2(16);
    assert Pow2(24) == 32 * Pow2(19);
    assert Pow2(32) == 256 * Pow2(24);
  }

  function Xor(a: Word, b: Word): Word {
    TwoPow32();
    BXorBound(a, b, 32);
    BXor(a, b)
  }

  lemma XorAssoc(a: Word, b: Word, c: Word)
    ensures Xor(Xor(a, b), c) == Xor(a, Xor(b, c))
  {
    BXorAssoc(a, b, c);
  }

  lemma XorComm(a: Word, b: Word)
    ensures Xor(a, b) == Xor(b, a)
  {
    BXorComm(a, b);
  }

  lemma XorCancel(a: Word, b: Word, c: Word)
    ensures Xor(a, b) == Xor(a, c) <==> b == c
    ensures Xor(b, a) == Xor(c, a) <==> b == c
  {
    hide Xor;
    XorComm(b, a);
    XorComm(c, a);
    XorSelf(a);
    XorAssoc(a, a, b);
    XorAssoc(a, a, c);
    XorZero(b);
    XorZero(c);
  }

  lemma XorSelf(a: Word)
    ensures Xor(a, a) == 0
  {
    SelfXor(a);
  }

  lemma {:induction false} SelfXor(a: nat)
    ensures BXor(a, a) == 0
  {
    if a > 0 {
      SelfXor(a / 2);
    }
  }

  lemma XorZero(a: Word)
    ensures Xor(a, 0) == a == Xor(0, a)
  {
    BXorZero(a);
  }

  lemma XorShuffle(a: Word, b: Word, c: Word, d: Word)
    ensures Xor(Xor(a, b), Xor(c, d)) == Xor(Xor(a, c), Xor(b, d))
  {
    XorAssoc(a, b, Xor(c, d));
    XorAssoc(b, c, d);
    XorComm(b, c);
    XorAssoc(c, b, d);
    XorAssoc(a, c, Xor(b, d));
  }

  // ---------- rotation ----------

  /** ((x << n) | (x >> (32 - n))) & U32 */
  function Rotl32(x: Word, n: nat): (r: Word)
    requires n <= 32
  {
    TwoPow32();
    var v := BOr(Shl(x, n), Shr(x, 32 - n));
    BAndMask(v, 32);
    BAnd(v, U32)
  }

  /** The accumulation step rotates by HASH_ACCUMULATE_ROTATION = 13. */
  function Rotl13(x: Word): Word {
    Rotl32(x, 13)
  }

  /** Rotation moves the low 32-n bits up by n places and puts the high n bits below them. */
  lemma RotlMeaning(x: Word, n: nat) returns (h: nat, l: nat)
    requires n <= 32
    ensures l < Pow2(32 - n) && h < Pow2(n)
    ensures x == Shl(h, 32 - n) + l
    ensures Rotl32(x, n) == Shl(l, n) + h
  {
    h := Shr(x, 32 - n);
    l := ShrSplits(x, 32 - n);
    RotlArithmetic(x, n, h, l);
    BOrDisjoint(x, h, n);
    BAndMask(Shl(x, n) + h, 32);
    TwoPow32();
  }

  lemma RotlArithmetic(x: Word, n: nat, h: nat, l: nat)
    requires n <= 32 && l < Pow2(32 - n) && x == Shl(h, 32 - n) + l
    ensures h < Pow2(n)
    ensures (Shl(x, n) + h) % TWO32 == Shl(l, n) + h
  {
    hide Shl, Pow2;
    TwoPow32();
    ShlBound(h, n, 32 - n);
    ShlBound(l, 32 - n, n);
    ShlAdd(Shl(h, 32 - n), l, n);
    ShlTwice(h, 32 - n, n);
    ShlIsProduct(h, 32);
    DivModUnique(Shl(x, n) + h, TWO32, h, Shl(l, n) + h);
  }

  /** Rotation distributes over XOR. */
  lemma RotlXor(a: Word, b: Word, n: nat)
    requires n <= 32
    ensures Rotl32(Xor(a, b), n) == Xor(Rotl32(a, n), Rotl32(b, n))
  {
    hide Rotl32, BXor, Shl, Pow2;
    var ha, la := RotlMeaning(a, n);
    var hb, lb := RotlMeaning(b, n);
    BXorSplit(ha, la, hb, lb, 32 - n);
    BXorBound(la, lb, 32 - n);
    BXorBound(ha, hb, n);
    RotlOfParts(Xor(a, b), n, BXor(ha, hb), BXor(la, lb));
    BXorSplit(la, ha, lb, hb, n);
  }

  lemma RotlOfParts(x: Word, n: nat, h: nat, l: nat)
    requires n <= 32 && l < Pow2(32 - n) && x == Shl(h, 32 - n) + l
    ensures Rotl32(x, n) == Shl(l, n) + h
  {
    var h', l' := RotlMeaning(x, n);
    SplitUnique(h', l', h, l, 32 - n);
  }

  lemma {:induction false} SplitUnique(h: nat, l: nat, h': nat, l': nat, n: nat)
    requires l < Pow2(n) && l' < Pow2(n) && Shl(h, n) + l == Shl(h', n) + l'
    ensures h == h' && l == l'
  {
    if n > 0 {
      SplitUnique(h, l / 2, h', l' / 2, n - 1);
    }
  }

  /** One place further. */
  function Rotl1(y: Word): Word {
    (2 * y) % TWO32 + y / 0x8000_0000
  }

  lemma RotlStep(x: Word, n: nat)
    requires n < 32
    ensures Rotl32(x, n + 1) == Rotl1(Rotl32(x, n))
  {
    hide Rotl32, Shl, Shr, Pow2, Rotl1;
    var h, l := RotlMeaning(x, n);
    var c := Shr(l, 31 - n);
    var l2 := ShrSplits(l, 31 - n);
    TopBit(l, 31 - n, c, l2);
    RotlNext(x, n, h, c, l2);
    var low := Shl(l2, n) + h;
    ShlAdd(Shl(c, 31 - n), l2, n);
    ShlTwice(c, 31 - n, n);
    ShlBound(l2, 31 - n, n);
    Rotl1Parts(Rotl32(x, n), c, low);
  }

  lemma TopBit(l: nat, n: nat, c: nat, l2: nat)
    requires l < Pow2(n + 1) && l == Shl(c, n) + l2
    ensures c < 2
  {
    ShlBound(c, 1, n);
    assert Pow2(1) == 2;
  }

  lemma RotlNext(x: Word, n: nat, h: nat, c: nat, l2: nat)
    requires n < 32 && l2 < Pow2(31 - n)
    requires x == Shl(h, 32 - n) + (Shl(c, 31 - n) + l2)
    ensures Rotl32(x, n + 1) == 2 * Shl(l2, n) + 2 * h + c
  {
    hide Rotl32;
    ShlAdd(2 * h, c, 31 - n);
    ShlTwice(h, 1, 31 - n);
    assert Shl(h, 1) == 2 * h;
    RotlOfParts(x, n + 1, 2 * h + c, l2);
  }

  lemma Rotl1Parts(y: Word, c: nat, low: nat)
    requires c < 2 && low < Pow2(31) && y == Shl(c, 31) + low
    ensures Rotl1(y) == 2 * low + c
  {
    TopBitWeight(c);
    Rotl1Arithmetic(y, c, low);
  }

  lemma TopBitWeight(c: nat)
    requires c < 2
    ensures Pow2(31) == 0x8000_0000 && Shl(c, 31) == c * 0x8000_0000
  {
    ShlIsProduct(c, 31);
    TwoPow32();
    assert Pow2(32) == 2 * Pow2(31);
  }

  lemma Rotl1Arithmetic(y: Word, c: nat, low: nat)
    requires c < 2 && low < 0x8000_0000 && y == c * 0x8000_0000 + low
    ensures Rotl1(y) == 2 * low + c
  {}

  lemma RotlEnds(x: Word)
    ensures Rotl32(x, 0) == x == Rotl32(x, 32)
  {
    hide Rotl32;
    var h, l := RotlMeaning(x, 0);
    ShlIsProduct(h, 32);
    var h', l' := RotlMeaning(x, 32);
    ShlIsProduct(l', 32);
  }

  /** Rotations compose; only the total amount modulo 32 matters. */
  lemma {:induction false} RotlAdd(x: Word, a: nat, b: nat)
    requires a < 32 && b <= 32
    ensures Rotl32(Rotl32(x, a), b) == Rotl32(x, (a + b) % 32)
  {
    hide Rotl32, Rotl1;
    if b == 0 {
      RotlEnds(Rotl32(x, a));
    } else {
      RotlAdd(x, a, b - 1);
      RotlStep(Rotl32(x, a), b - 1);
      RotlStepMod(x, (a + b - 1) % 32);
      AddMod32(a + b - 1, 1);
    }
  }

  lemma AddMod32(n: nat, d: nat)
    ensures (n % 32 + d) % 32 == (n + d) % 32
  {}

  lemma RotlStepMod(x: Word, n: nat)
    requires n < 32
    ensures Rotl32(x, (n + 1) % 32) == Rotl1(Rotl32(x, n))
  {
    hide Rotl32, Rotl1;
    RotlStep(x, n);
    RotlEnds(x);
  }

  // ---------- XOR reductions ----------

  /** f(0) ^ f(1) ^ ... ^ f(n-1). */
  function XorRange(f: int -> Word, n: nat): Word {
    if n == 0 then 0 else Xor(XorRange(f, n - 1), f(n - 1))
  }

  lemma {:induction false} XorRangeEq(f: int -> Word, g: int -> Word, n: nat)
    requires forall i :: 0 <= i < n ==> f(i) == g(i)
    ensures XorRange(f, n) == XorRange(g, n)
  {
    if n > 0 {
      XorRangeEq(f, g, n - 1);
    }
  }

  lemma {:induction false} XorRangeSplit(f: int -> Word, a: nat, b: nat)
    ensures XorRange(f, a + b) == Xor(XorRange(f, a), XorRange(x => f(a + x), b))
  {
    var g := x => f(a + x);
    if b == 0 {
      XorZero(XorRange(f, a));
    } else {
      XorRangeSplit(f, a, b - 1);
      XorAssoc(XorRange(f, a), XorRange(g, b - 1), f(a + b - 1));
    }
  }

  /** XOR of two reductions over the same range is the reduction of the XORs. */
  lemma {:induction false} XorRangeMerge(f: int -> Word, g: int -> Word, h: int -> Word, n: nat)
    requires forall i :: 0 <= i < n ==> h(i) == Xor(f(i), g(i))
    ensures XorRange(h, n) == Xor(XorRange(f, n), XorRange(g, n))
  {
    if n == 0 {
      XorZero(0);
    } else {
      XorRangeMerge(f, g, h, n - 1);
      XorShuffle(XorRange(f, n - 1), XorRange(g, n - 1), f(n - 1), g(n - 1));
    }
  }

  /** Reduction over an n-by-w grid, row after row. */
  function XorGrid(f: (int, int) -> Word, n: nat, w: nat): Word {
    if n == 0 then 0 else Xor(XorGrid(f, n - 1, w), XorRange(j => f(n - 1, j), w))
  }

  lemma {:induction false} XorGridEq(f: (int, int) -> Word, g: (int, int) -> Word, n: nat, w: nat)
    requires forall i, j :: 0 <= i < n && 0 <= j < w ==> f(i, j) == g(i, j)
    ensures XorGrid(f, n, w) == XorGrid(g, n, w)
  {
    if n > 0 {
      XorGridEq(f, g, n - 1, w);
      XorRangeEq(j => f(n - 1, j), j => g(n - 1, j), w);
    }
  }

  lemma {:induction false} XorGridNoColumns(f: (int, int) -> Word, n: nat)
    ensures XorGrid(f, n, 0) == 0
  {
    if n > 0 {
      XorGridNoColumns(f, n - 1);
      XorZero(0);
    }
  }

  /** Reducing columns first gives the same word as reducing rows first. */
  lemma {:induction false} XorGridTranspose(f: (int, int) -> Word, g: (int, int) -> Word, n: nat, w: nat)
    requires forall i, j :: 0 <= i < n && 0 <= j < w ==> g(j, i) == f(i, j)
    ensures XorGrid(f, n, w) == XorGrid(g, w, n)
  {
    if w == 0 {
      XorGridNoColumns(f, n);
    } else {
      XorGridTranspose(f, g, n, w - 1);
      XorGridLastColumn(f, n, w);
      XorRangeEq(i => f(i, w - 1), i => g(w - 1, i), n);
    }
  }

  lemma {:induction false} XorGridLastColumn(f: (int, int) -> Word, n: nat, w: nat)
    requires w > 0
    ensures XorGrid(f, n, w) == Xor(XorGrid(f, n, w - 1), XorRange(i => f(i, w - 1), n))
  {
    var col := i => f(i, w - 1);
    if n == 0 {
      XorZero(0);
    } else {
      XorGridLastColumn(f, n - 1, w);
      var row := j => f(n - 1, j);
      assert XorRange(row, w) == Xor(XorRange(row, w - 1), f(n - 1, w - 1));
      XorShuffle(XorGrid(f, n - 1, w - 1), XorRange(col, n - 1), XorRange(row, w - 1), f(n - 1, w - 1));
    }
  }

  /** Changing a single word of a reduction changes it. */
  lemma {:induction false} XorRangeOneDiffers(f: int -> Word, g: int -> Word, n: nat, x: nat)
    requires x < n && f(x) != g(x) && forall i :: 0 <= i < n && i != x ==> f(i) == g(i)
    ensures XorRange(f, n) != XorRange(g, n)
  {
    hide Xor;
    if x == n - 1 {
      XorRangeEq(f, g, n - 1);
      XorCancel(XorRange(f, n - 1), f(x), g(x));
    } else {
      XorRangeOneDiffers(f, g, n - 1, x);
      XorCancel(f(n - 1), XorRange(f, n - 1), XorRange(g, n - 1));
    }
  }

  lemma {:induction false} XorGridOneDiffers(f: (int, int) -> Word, g: (int, int) -> Word, n: nat, w: nat, y: nat, x: nat)
    requires y < n && x < w && f(y, x) != g(y, x)
    requires forall i, j :: 0 <= i < n && 0 <= j < w && !(i == y && j == x) ==> f(i, j) == g(i, j)
    ensures XorGrid(f, n, w) != XorGrid(g, n, w)
  {
    hide Xor;
    var row, row' := j => f(n - 1, j), j => g(n - 1, j);
    if y == n - 1 {
      XorGridEq(f, g, n - 1, w);
      XorRangeOneDiffers(row, row', w, x);
      XorCancel(XorGrid(f, n - 1, w), XorRange(row, w), XorRange(row', w));
    } else {
      XorGridOneDiffers(f, g, n - 1, w, y, x);
      XorRangeEq(row, row', w);
      XorCancel(XorRange(row, w), XorGrid(f, n - 1, w), XorGrid(g, n - 1, w));
    }
  }

  /** A flat reduction over n*w items, cut into n runs of w. */
  lemma {:induction false} XorGridFlat(f: int -> Word, g: (int, int) -> Word, n: nat, w: nat, total: nat)
    requires total == n * w
    requires forall i, j :: 0 <= i < n && 0 <= j < w ==> g(i, j) == f(i * w + j)
    ensures XorRange(f, total) == XorGrid(g, n, w)
  {
    hide Xor;
    if n > 0 {
      var start: nat := (n - 1) * w;
      assert total == start + w;
      XorGridFlat(f, g, n - 1, w, start);
      XorRangeSplit(f, start, w);
      XorRangeEq(x => f(start + x), j => g(n - 1, j), w);
    }
  }

  // ---------- 256-bit numbers as eight little-endian limbs ----------

  type Digest = s: seq<Word> | |s| == 8 witness [0, 0, 0, 0, 0, 0, 0, 0]

  /** h shifted up by n limbs. */
  function ShlLimbs(h: nat, n: nat): nat {
    if n == 0 then h else TWO32 * ShlLimbs(h, n - 1)
  }

  lemma {:induction false} ShlLimbsMonotone(a: nat, b: nat, n: nat)
    ensures a < b ==> ShlLimbs(a, n) + ShlLimbs(1, n) <= ShlLimbs(b, n)
  {
    if n > 0 {
      ShlLimbsMonotone(a, b, n - 1);
    }
  }

  lemma {:induction false} ShlLimbsMove(h: nat, n: nat)
    ensures ShlLimbs(TWO32 * h, n) == ShlLimbs(h, n + 1)
  {
    if n > 0 {
      ShlLimbsMove(h, n - 1);
    }
  }

  /** int.from_bytes(..., "little") of the first n limbs. */
  function LittleEndian(s: seq<Word>, n: nat): nat
    requires n <= |s|
  {
    if n == 0 then 0 else LittleEndian(s, n - 1) + ShlLimbs(s[n - 1], n - 1)
  }

  lemma {:induction false} LittleEndianBound(s: seq<Word>, n: nat)
    requires n <= |s|
    ensures LittleEndian(s, n) < ShlLimbs(1, n)
  {
    if n > 0 {
      LittleEndianBound(s, n - 1);
      ShlLimbsMonotone(s[n - 1], TWO32, n - 1);
      ShlLimbsMove(1, n - 1);
    }
  }

  function Num256(d: Digest): nat {
    LittleEndian(d, 8)
  }

  /** Limb-wise comparison of limbs n-1 down to 0, most significant first, as the kernels do it. */
  predicate LimbsLe(digest: seq<Word>, target: seq<Word>, n: nat)
    requires n <= |digest| && n <= |target|
  {
    if n == 0 then true
    else if digest[n - 1] < target[n - 1] then true
    else if digest[n - 1] > target[n - 1] then false
    else LimbsLe(digest, target, n - 1)
  }

  /** The limb loop decides the 256-bit comparison. */
  lemma {:induction false} LimbsLeIsNumeric(digest: seq<Word>, target: seq<Word>, n: nat)
    requires n <= |digest| && n <= |target|
    ensures LimbsLe(digest, target, n) <==> LittleEndian(digest, n) <= LittleEndian(target, n)
  {
    if n > 0 {
      LimbsLeIsNumeric(digest, target, n - 1);
      LittleEndianBound(digest, n - 1);
      LittleEndianBound(target, n - 1);
      ShlLimbsMonotone(digest[n - 1], target[n - 1], n - 1);
      ShlLimbsMonotone(target[n - 1], digest[n - 1], n - 1);
    }
  }

  // ---------- a number as limbs ----------

  /** t shifted down by n limbs. */
  function ShrLimbs(t: nat, n: nat): nat {
    if n == 0 then t else ShrLimbs(t, n - 1) / TWO32
  }

  /** int(t).to_bytes(32, "little"), as eight words; bits from 2^256 on are dropped. */
  function TargetWords(t: nat): Digest {
    seq(8, i requires 0 <= i < 8 => ShrLimbs(t, i) % TWO32)
  }

  lemma {:induction false} ShlLimbsAdd(a: nat, b: nat, n: nat)
    ensures ShlLimbs(a + b, n) == ShlLimbs(a, n) + ShlLimbs(b, n)
  {
    if n > 0 {
      ShlLimbsAdd(a, b, n - 1);
    }
  }

  lemma {:induction false} LimbsAndRest(t: nat, n: nat)
    requires n <= 8
    ensures LittleEndian(TargetWords(t), n) + ShlLimbs(ShrLimbs(t, n), n) == t
  {
    if n > 0 {
      LimbsAndRest(t, n - 1);
      var rest := ShrLimbs(t, n - 1);
      var high, low := rest / TWO32, rest % TWO32;
      assert rest == TWO32 * high + low;
      ShlLimbsAdd(TWO32 * high, low, n - 1);
      ShlLimbsMove(high, n - 1);
    }
  }

  /** The limbs handed to the device denote the job's target. */
  lemma TargetRoundTrip(t: nat)
    requires t < ShlLimbs(1, 8)
    ensures Num256(TargetWords(t)) == t
  {
    hide ShlLimbs, TargetWords;
    LimbsAndRest(t, 8);
    var rest := ShrLimbs(t, 8);
    if rest > 0 {
      ShlLimbsMonotone(0, rest, 8);
      ShlZeroLimbs(8);
    } else {
      ShlZeroLimbs(8);
    }
  }

  lemma {:induction false} ShlZeroLimbs(n: nat)
    ensures ShlLimbs(0, n) == 0
  {
    if n > 0 {
      ShlZeroLimbs(n - 1);
    }
  }
}
