/** Bitwise operators on natural numbers, as Python integers have them. */
module Bits {

  function Pow2(n: nat): (p: nat)
    ensures p >= 1
  {
    if n == 0 then 1 else 2 * Pow2(n - 1)
  }

  /** a ^ b */
  function BXor(a: nat, b: nat): nat {
    if a == 0 && b == 0 then 0
    else (if a % 2 == b % 2 then 0 else 1) + 2 * BXor(a / 2, b / 2)
  }

  /** a & b */
  function BAnd(a: nat, b: nat): nat {
    if a == 0 || b == 0 then 0
    else (if a % 2 == 1 && b % 2 == 1 then 1 else 0) + 2 * BAnd(a / 2, b / 2)
  }

  /** a | b */
  function BOr(a: nat, b: nat): nat {
    if a == 0 && b == 0 then 0
    else (if a % 2 == 0 && b % 2 == 0 then 0 else 1) + 2 * BOr(a / 2, b / 2)
  }

  lemma {:induction false} BXorZero(a: nat)
    ensures BXor(a, 0) == a && BXor(0, a) == a
  {
    if a > 0 {
      BXorZero(a / 2);
    }
  }

  lemma {:induction false} BXorComm(a: nat, b: nat)
    ensures BXor(a, b) == BXor(b, a)
  {
    if a > 0 || b > 0 {
      BXorComm(a / 2, b / 2);
    }
  }

  lemma BXorHalves(a: nat, b: nat)
    ensures BXor(a, b) / 2 == BXor(a / 2, b / 2)
    ensures BXor(a, b) % 2 == if a % 2 == b % 2 then 0 else 1
  {}

  /** Bit p of a number, in two's complement if it is negative. */
  function Bit(x: int, p: nat): (b: nat)
    ensures b < 2
    decreases p
  {
    if p == 0 then x % 2 else Bit(x / 2, p - 1)
  }

  /** Bit p of an XOR is the parity of the two bits. */
  lemma {:induction false} BXorBit(a: nat, b: nat, p: nat)
    ensures Bit(BXor(a, b), p) == (Bit(a, p) + Bit(b, p)) % 2
    decreases p
  {
    hide BXor;
    BXorHalves(a, b);
    if p > 0 {
      BXorBit(a / 2, b / 2, p - 1);
    }
  }

  /** Reduction modulo 2^n leaves the n low bits. */
  lemma {:induction false} LowBits(x: int, n: nat, p: nat)
    requires p < n
    ensures Bit(x % Pow2(n), p) == Bit(x, p)
    decreases p
  {
    HalfModulo(x, Pow2(n - 1));
    if p > 0 {
      LowBits(x / 2, n - 1, p - 1);
    }
  }

  /** The n low bits determine a number below 2^n. */
  lemma {:induction false} BitsDetermine(x: nat, y: nat, n: nat)
    requires x < Pow2(n) && y < Pow2(n) && forall p: nat :: p < n ==> Bit(x, p) == Bit(y, p)
    ensures x == y
  {
    if n > 0 {
      assert Bit(x, 0) == Bit(y, 0);
      forall p: nat | p < n - 1
        ensures Bit(x / 2, p) == Bit(y / 2, p)
      {
        var next := p + 1;
        assert Bit(x, next) == Bit(y, next);
      }
      BitsDetermine(x / 2, y / 2, n - 1);
    }
  }

  lemma HalfModulo(x: int, q: nat)
    requires q >= 1
    ensures x % (2 * q) % 2 == x % 2 && x % (2 * q) / 2 == x / 2 % q
  {
    var h := x / 2;
    var d, r := h / q, h % q;
    assert h == d * q + r;
    assert x == d * (2 * q) + (2 * r + x % 2) by {
      assert d * (2 * q) == 2 * (d * q);
    }
    DivModUnique(x, 2 * q, d, 2 * r + x % 2);
  }

  lemma {:induction false} BXorAssoc(a: nat, b: nat, c: nat)
    ensures BXor(BXor(a, b), c) == BXor(a, BXor(b, c))
    decreases a + b + c
  {
    if a == 0 && b == 0 && c == 0 {
    } else {
      BXorHalves(a, b);
      BXorHalves(b, c);
      BXorAssoc(a / 2, b / 2, c / 2);
      BXorHalves(BXor(a, b), c);
      BXorHalves(a, BXor(b, c));
    }
  }

  /** a ^ b is a exactly when b is zero. */
  lemma {:induction false} BXorMoves(a: nat, b: nat)
    ensures BXor(a, b) == a <==> b == 0
  {
    if b == 0 {
      BXorZero(a);
    } else if BXor(a, b) == a {
      BXorHalves(a, b);
      BXorMoves(a / 2, b / 2);
      assert false;
    }
  }

  /** h << n */
  function Shl(h: nat, n: nat): nat {
    if n == 0 then h else 2 * Shl(h, n - 1)
  }

  lemma {:induction false} ShlIsProduct(h: nat, n: nat)
    ensures Shl(h, n) == h * Pow2(n)
  {
    if n > 0 {
      ShlIsProduct(h, n - 1);
      var p := Pow2(n - 1);
      assert h * (2 * p) == 2 * (h * p);
    }
  }

  lemma {:induction false} ShlOne(n: nat)
    ensures Shl(1, n) == Pow2(n)
  {
    if n > 0 {
      ShlOne(n - 1);
    }
  }

  lemma {:induction false} ShlAdd(a: nat, b: nat, n: nat)
    ensures Shl(a + b, n) == Shl(a, n) + Shl(b, n)
  {
    if n > 0 {
      ShlAdd(a, b, n - 1);
    }
  }

  lemma {:induction false} ShlTwice(a: nat, m: nat, n: nat)
    ensures Shl(Shl(a, m), n) == Shl(a, m + n)
  {
    if n > 0 {
      ShlTwice(a, m, n - 1);
    }
  }

  lemma {:induction false} ShlBound(h: nat, n: nat, m: nat)
    ensures h < Pow2(n) ==> Shl(h, m) + Pow2(m) <= Pow2(n + m)
    ensures Shl(h, m) < Pow2(n + m) ==> h < Pow2(n)
  {
    if m > 0 {
      ShlBound(h, n, m - 1);
    }
  }

  /** x >> n */
  function Shr(x: nat, n: nat): nat {
    if n == 0 then x else Shr(x, n - 1) / 2
  }

  /** A number is its high part shifted up plus the n low bits. */
  lemma {:induction false} ShrSplits(x: nat, n: nat) returns (l: nat)
    ensures l < Pow2(n) && x == Shl(Shr(x, n), n) + l
  {
    if n == 0 {
      l := 0;
    } else {
      var l' := ShrSplits(x, n - 1);
      var h' := Shr(x, n - 1);
      l := l' + Shl(h' % 2, n - 1);
      ShlAdd(2 * (h' / 2), h' % 2, n - 1);
      ShlTwice(h' / 2, 1, n - 1);
      ShlOne(n - 1);
      ShlZero(n - 1);
    }
  }

  lemma {:induction false} ShlZero(n: nat)
    ensures Shl(0, n) == 0
  {
    if n > 0 {
      ShlZero(n - 1);
    }
  }

  /** High and low parts are combined independently. */
  lemma {:induction false} BXorSplit(h1: nat, l1: nat, h2: nat, l2: nat, n: nat)
    requires l1 < Pow2(n) && l2 < Pow2(n)
    ensures BXor(Shl(h1, n) + l1, Shl(h2, n) + l2) == Shl(BXor(h1, h2), n) + BXor(l1, l2)
  {
    hide BXor;
    if n > 0 {
      hide Shl, Pow2;
      HalfBelow(l1, n);
      HalfBelow(l2, n);
      BXorSplit(h1, l1 / 2, h2, l2 / 2, n - 1);
      ShlStep(h1, n);
      ShlStep(h2, n);
      ShlStep(BXor(h1, h2), n);
      SplitStep(Shl(h1, n - 1), l1, Shl(h2, n - 1), l2, Shl(BXor(h1, h2), n - 1));
    } else {
      BXorZero(0);
    }
  }

  lemma HalfBelow(l: nat, n: nat)
    requires n > 0 && l < Pow2(n)
    ensures l / 2 < Pow2(n - 1)
  {}

  lemma ShlStep(h: nat, n: nat)
    requires n > 0
    ensures Shl(h, n) == 2 * Shl(h, n - 1)
  {}

  lemma SplitStep(s1: nat, l1: nat, s2: nat, l2: nat, s: nat)
    requires BXor(s1 + l1 / 2, s2 + l2 / 2) == s + BXor(l1 / 2, l2 / 2)
    ensures BXor(2 * s1 + l1, 2 * s2 + l2) == 2 * s + BXor(l1, l2)
  {
    hide BXor;
    HalfOfSum(s1, l1);
    HalfOfSum(s2, l2);
    BXorHalves(2 * s1 + l1, 2 * s2 + l2);
    BXorHalves(l1, l2);
  }

  lemma HalfOfSum(s: nat, l: nat)
    ensures (2 * s + l) / 2 == s + l / 2 && (2 * s + l) % 2 == l % 2
  {}

  lemma {:induction false} BXorBound(a: nat, b: nat, n: nat)
    requires a < Pow2(n) && b < Pow2(n)
    ensures BXor(a, b) < Pow2(n)
  {
    if n > 0 {
      BXorBound(a / 2, b / 2, n - 1);
      BXorHalves(a, b);
    }
  }

  /** Masking with 2^n - 1 is the remainder modulo 2^n. */
  lemma {:induction false} BAndMask(a: nat, n: nat)
    ensures BAnd(a, Pow2(n) - 1) == a % Pow2(n)
  {
    if n == 0 {
      DivModUnique(a, 1, a, 0);
    } else if a == 0 {
      DivModUnique(0, Pow2(n), 0, 0);
    } else {
      hide BAnd;
      BAndMask(a / 2, n - 1);
      MaskStep(a, Pow2(n - 1));
    }
  }

  lemma MaskStep(a: nat, p: nat)
    requires p >= 1 && BAnd(a / 2, p - 1) == (a / 2) % p
    ensures BAnd(a, 2 * p - 1) == a % (2 * p)
  {
    hide BAnd;
    BAndOdd(a, p - 1);
    HalfMod(a, p, 2 * p);
    assert 2 * (p - 1) + 1 == 2 * p - 1;
  }

  lemma BAndOdd(a: nat, q: nat)
    ensures BAnd(a, 2 * q + 1) == a % 2 + 2 * BAnd(a / 2, q)
  {
    BAndHalves(a, 2 * q + 1);
  }

  lemma BAndHalves(a: nat, b: nat)
    ensures BAnd(a, b) == (if a % 2 == 1 && b % 2 == 1 then 1 else 0) + 2 * BAnd(a / 2, b / 2)
  {}

  lemma HalfMod(a: nat, p: nat, d: nat)
    requires p >= 1 && d == 2 * p
    ensures a % d == a % 2 + 2 * ((a / 2) % p)
  {
    var h := a / 2;
    var q, r := h / p, h % p;
    assert h == q * p + r;
    assert q * d == 2 * (q * p);
    DivModUnique(a, d, q, a % 2 + 2 * r);
  }

  lemma DivModUnique(a: int, d: int, q: int, r: int)
    requires d > 0 && 0 <= r < d && a == q * d + r
    ensures a / d == q && a % d == r
  {
    var e := a / d - q;
    assert e * d == (a / d) * d - q * d;
    ZeroMultiple(e, d);
  }

  lemma ZeroMultiple(e: int, d: int)
    requires -d < e * d < d
    ensures e == 0
  {}

  // ---------- numbers split into digits ----------

  lemma DivisionParts(x: nat, d: nat)
    requires d > 0
    ensures x == x / d * d + x % d && 0 <= x % d < d
  {}

  lemma Nest(x: nat, d: nat, digit: nat)
    requires digit < d
    ensures (x * d + digit) / d == x && (x * d + digit) % d == digit
  {
    DivModUnique(x * d + digit, d, x, digit);
  }

  lemma NestBelow(x: nat, bound: nat, d: nat, digit: nat)
    requires x < bound && digit < d
    ensures x * d + digit < bound * d
  {
    assert (x + 1) * d <= bound * d;
  }

  lemma NestUnique(x: nat, digit: nat, y: nat, digit': nat, d: nat)
    requires digit < d && digit' < d && x * d + digit == y * d + digit'
    ensures x == y && digit == digit'
  {
    DivModUnique(x * d + digit, d, x, digit);
    DivModUnique(y * d + digit', d, y, digit');
  }

  lemma QuotientBelow(x: nat, bound: nat, d: nat)
    requires d > 0 && x < bound * d
    ensures x / d < bound && x == x / d * d + x % d && x % d < d
  {
    if x / d >= bound {
      TimesMonotone(bound, x / d, d);
      assert false;
    }
  }

  lemma TimesMonotone(x: nat, y: nat, d: nat)
    requires x <= y
    ensures x * d <= y * d
  {}

  /** OR of numbers with no common bit is their sum: here a multiple of 2^n and a number below it. */
  lemma {:induction false} BOrDisjoint(h: nat, l: nat, n: nat)
    requires l < Pow2(n)
    ensures BOr(Shl(h, n), l) == Shl(h, n) + l
  {
    if n == 0 {
      BOrZero(h);
    } else {
      BOrDisjoint(h, l / 2, n - 1);
    }
  }

  lemma {:induction false} BOrZero(a: nat)
    ensures BOr(a, 0) == a
  {
    if a > 0 {
      BOrZero(a / 2);
    }
  }

  ghost predicate IsPow2(x: nat) {
    exists n: nat :: x == Pow2(n)
  }

  lemma IsPow2Half(x: nat)
    requires x > 0 && x % 2 == 0
    ensures IsPow2(x) <==> IsPow2(x / 2)
  {
    if n: nat :| x == Pow2(n) {
      assert x / 2 == Pow2(n - 1);
    }
    if n: nat :| x / 2 == Pow2(n) {
      assert x == Pow2(n + 1);
    }
  }

  /** A positive number is a power of two exactly when it has no bit in common with its predecessor. */
  lemma {:induction false} PowerOfTwoTest(x: nat)
    requires x > 0
    ensures BAnd(x, x - 1) == 0 <==> IsPow2(x)
  {
    BAndHalves(x, x - 1);
    if x == 1 {
      assert x == Pow2(0);
    } else if x % 2 == 1 {
      BAndSelf(x / 2);
    } else {
      PowerOfTwoTest(x / 2);
      IsPow2Half(x);
    }
  }

  lemma {:induction false} BAndSelf(x: nat)
    ensures BAnd(x, x) == x
  {
    if x > 0 {
      BAndSelf(x / 2);
    }
  }
}
