/** The inner-hash transcript of one hash tile: its recurrence and its closed form. */
module Transcript {
  import opened Bits
  import opened Words
  import opened Ring

  type Block = s: seq<Word> | |s| == 16 witness seq(16, _ => 0)

  /** The keyed hash of one 64-byte block under a 32-byte key. It is never inspected. */
  type Blake = (Block, Digest) -> Digest

  function Zeros(): Block {
    seq(16, _ => 0)
  }

  /** Reduction number c folds hash h into slot c mod 16. */
  function Fold(t: Block, c: nat, h: Word): Block {
    t[c % 16 := Xor(Rotl13(t[c % 16]), h)]
  }

  /** The transcript after c reductions with hashes h(0), ..., h(c-1), from contents t. */
  function Folds(t: Block, h: int -> Word, c: nat): Block {
    if c == 0 then t else Fold(Folds(t, h, c - 1), c - 1, h(c - 1))
  }

  lemma {:induction false} FoldsEq(t: Block, h: int -> Word, g: int -> Word, c: nat)
    requires forall q :: 0 <= q < c ==> h(q) == g(q)
    ensures Folds(t, h, c) == Folds(t, g, c)
  {
    if c > 0 {
      FoldsEq(t, h, g, c - 1);
    }
  }

  /** One accumulator cell, seen as uint32, after the products of columns 0 .. hi-1. */
  function CellWord(a: Mat, b: Mat, i: int, j: int, hi: int): Word {
    AsWord(Wrap32(Dot(a, b, i, j, 0, hi)))
  }

  /** XOR over the th-by-tw tile whose corner is (i0, j0). */
  function TileHash(a: Mat, b: Mat, i0: int, j0: int, th: nat, tw: nat, hi: int): Word {
    XorGrid((y, x) => CellWord(a, b, i0 + y, j0 + x, hi), th, tw)
  }

  // ---------- what a tile hash says about the product ----------

  /** The hash of a single cell is the exact dot product modulo 2^32. */
  lemma OneCellHash(a: Mat, b: Mat, i: int, j: int, hi: int)
    ensures Cong(TileHash(a, b, i, j, 1, 1, hi), Dot(a, b, i, j, 0, hi))
  {
    hide Dot, Cong, CellWord, XorGrid;
    var f: (int, int) -> Word := (y, x) => CellWord(a, b, i + y, j + x, hi);
    OneByOne(f);
    CellWordIs(a, b, i, j, hi);
    Remainder(Dot(a, b, i, j, 0, hi));
  }

  lemma Remainder(x: int)
    ensures Cong(x % TWO32, x)
  {}

  lemma OneByOne(f: (int, int) -> Word)
    ensures XorGrid(f, 1, 1) == f(0, 0)
  {
    hide Xor;
    XorZero(f(0, 0));
    assert XorRange(x => f(0, x), 1) == Xor(XorRange(x => f(0, x), 0), f(0, 0));
  }

  lemma CellWordIs(a: Mat, b: Mat, i: int, j: int, hi: int)
    ensures CellWord(a, b, i, j, hi) == Dot(a, b, i, j, 0, hi) % TWO32
  {
    hide Dot;
  }

  lemma CellWordsEqual(x: int, y: int)
    ensures x % TWO32 == y % TWO32 <==> Cong(x, y)
  {}

  /** Cells of a row, and of a tile, whose exact dot product has bit p set in two's complement. */
  function OnesInRow(a: Mat, b: Mat, i: int, j0: int, w: nat, hi: int, p: nat): nat {
    if w == 0 then 0 else OnesInRow(a, b, i, j0, w - 1, hi, p) + Bit(Dot(a, b, i, j0 + (w - 1), 0, hi), p)
  }

  function OnesInTile(a: Mat, b: Mat, i0: int, j0: int, h: nat, w: nat, hi: int, p: nat): nat {
    if h == 0 then 0 else OnesInTile(a, b, i0, j0, h - 1, w, hi, p) + OnesInRow(a, b, i0 + (h - 1), j0, w, hi, p)
  }

  /** Bit p of the hash of any tile is the parity of the number of its cells with bit p set. */
  lemma TileHashBits(a: Mat, b: Mat, i0: int, j0: int, th: nat, tw: nat, hi: int, p: nat)
    requires p < 32
    ensures Bit(TileHash(a, b, i0, j0, th, tw, hi), p) == OnesInTile(a, b, i0, j0, th, tw, hi, p) % 2
  {
    GridBits(a, b, i0, j0, th, tw, hi, p, (y, x) => CellWord(a, b, i0 + y, j0 + x, hi));
  }

  lemma {:induction false} GridBits(a: Mat, b: Mat, i0: int, j0: int, h: nat, w: nat, hi: int, p: nat, f: (int, int) -> Word)
    requires p < 32 && forall y, x :: f(y, x) == CellWord(a, b, i0 + y, j0 + x, hi)
    ensures Bit(XorGrid(f, h, w), p) == OnesInTile(a, b, i0, j0, h, w, hi, p) % 2
  {
    hide Bit, BXor, CellWord, OnesInRow;
    if h == 0 {
      ZeroBits(p);
    } else {
      GridBits(a, b, i0, j0, h - 1, w, hi, p, f);
      RowBits(a, b, i0 + (h - 1), j0, w, hi, p, x => f(h - 1, x));
      BXorBit(XorGrid(f, h - 1, w), XorRange(x => f(h - 1, x), w), p);
    }
  }

  lemma {:induction false} RowBits(a: Mat, b: Mat, i: int, j0: int, w: nat, hi: int, p: nat, f: int -> Word)
    requires p < 32 && forall x :: f(x) == CellWord(a, b, i, j0 + x, hi)
    ensures Bit(XorRange(f, w), p) == OnesInRow(a, b, i, j0, w, hi, p) % 2
  {
    hide Bit, BXor, CellWord, Dot;
    if w == 0 {
      ZeroBits(p);
    } else {
      RowBits(a, b, i, j0, w - 1, hi, p, f);
      BXorBit(XorRange(f, w - 1), f(w - 1), p);
      CellBit(a, b, i, j0 + (w - 1), hi, p);
    }
  }

  lemma CellBit(a: Mat, b: Mat, i: int, j: int, hi: int, p: nat)
    requires p < 32
    ensures Bit(CellWord(a, b, i, j, hi), p) == Bit(Dot(a, b, i, j, 0, hi), p)
  {
    hide Dot, Bit;
    CellWordIs(a, b, i, j, hi);
    TwoPow32();
    LowBits(Dot(a, b, i, j, 0, hi), 32, p);
  }

  lemma {:induction false} ZeroBits(p: nat)
    ensures Bit(0, p) == 0
  {
    if p > 0 {
      ZeroBits(p - 1);
    }
  }

  /** Cell (y, x) of two tiles is the same modulo 2^32. */
  predicate SameCell(a: Mat, b: Mat, i0: int, j0: int, a': Mat, b': Mat, i0': int, j0': int, hi: int, y: int, x: int) {
    Cong(Dot(a, b, i0 + y, j0 + x, 0, hi), Dot(a', b', i0' + y, j0' + x, 0, hi))
  }

  /** Two tiles that agree modulo 2^32 in all cells but one have different hashes. */
  lemma OneCellChangesHash(a: Mat, b: Mat, i0: int, j0: int, a': Mat, b': Mat, i0': int, j0': int, th: nat, tw: nat, hi: int, y: nat, x: nat)
    requires y < th && x < tw && !SameCell(a, b, i0, j0, a', b', i0', j0', hi, y, x)
    requires forall v, u :: 0 <= v < th && 0 <= u < tw && !(v == y && u == x) ==> SameCell(a, b, i0, j0, a', b', i0', j0', hi, v, u)
    ensures TileHash(a, b, i0, j0, th, tw, hi) != TileHash(a', b', i0', j0', th, tw, hi)
  {
    hide Dot, CellWord, SameCell;
    var f: (int, int) -> Word := (v, u) => CellWord(a, b, i0 + v, j0 + u, hi);
    var g: (int, int) -> Word := (v, u) => CellWord(a', b', i0' + v, j0' + u, hi);
    forall v, u | 0 <= v < th && 0 <= u < tw
      ensures f(v, u) == g(v, u) <==> SameCell(a, b, i0, j0, a', b', i0', j0', hi, v, u)
    {
      WordsOfCell(a, b, i0, j0, a', b', i0', j0', hi, v, u);
    }
    XorGridOneDiffers(f, g, th, tw, y, x);
  }

  lemma WordsOfCell(a: Mat, b: Mat, i0: int, j0: int, a': Mat, b': Mat, i0': int, j0': int, hi: int, y: int, x: int)
    ensures CellWord(a, b, i0 + y, j0 + x, hi) == CellWord(a', b', i0' + y, j0' + x, hi)
       <==> SameCell(a, b, i0, j0, a', b', i0', j0', hi, y, x)
  {
    hide Dot, CellWord, Cong;
    CellWordIs(a, b, i0 + y, j0 + x, hi);
    CellWordIs(a', b', i0' + y, j0' + x, hi);
    CellWordsEqual(Dot(a, b, i0 + y, j0 + x, 0, hi), Dot(a', b', i0' + y, j0' + x, 0, hi));
  }

  // ---------- transcripts ----------

  /** The transcript of a tile after c chunks of width r. */
  function TileTranscript(a: Mat, b: Mat, i0: int, j0: int, th: nat, tw: nat, r: nat, c: nat): Block {
    if c == 0 then Zeros()
    else Fold(TileTranscript(a, b, i0, j0, th, tw, r, c - 1), c - 1, TileHash(a, b, i0, j0, th, tw, r * c))
  }

  lemma {:induction false} TileTranscriptIsFolds(a: Mat, b: Mat, i0: int, j0: int, th: nat, tw: nat, r: nat, c: nat)
    ensures TileTranscript(a, b, i0, j0, th, tw, r, c)
         == Folds(Zeros(), q => TileHash(a, b, i0, j0, th, tw, r * (q + 1)), c)
  {
    if c > 0 {
      TileTranscriptIsFolds(a, b, i0, j0, th, tw, r, c - 1);
    }
  }

  // ---------- closed form ----------

  /** How many of the reductions j+1 .. c-1 hit the same slot as reduction j. */
  function Later(j: int, c: int): nat
    requires 0 <= j < c
  {
    (c - 1 - j) / 16
  }

  /** What reduction j contributes to slot s after c reductions. */
  function Contribution(h: int -> Word, s: nat, c: nat, j: int): Word {
    if 0 <= j < c && j % 16 == s then Rotl32(h(j), (13 * Later(j, c)) % 32) else 0
  }

  lemma RotlZero(n: nat)
    requires n <= 32
    ensures Rotl32(0, n) == 0
  {
    RotlXor(0, 0, n);
    XorZero(0);
    var w := Rotl32(0, n);
    assert Xor(w, w) == w;
    Bits.BXorMoves(w, w);
  }

  lemma {:induction false} XorRangeRotl(f: int -> Word, g: int -> Word, n: nat)
    requires forall i :: 0 <= i < n ==> g(i) == Rotl13(f(i))
    ensures XorRange(g, n) == Rotl13(XorRange(f, n))
  {
    if n == 0 {
      RotlZero(13);
    } else {
      XorRangeRotl(f, g, n - 1);
      RotlXor(XorRange(f, n - 1), f(n - 1), 13);
    }
  }

  lemma ContributionStep(h: int -> Word, s: nat, c: nat, j: int)
    requires s < 16 && 0 <= j < c
    ensures c % 16 == s ==> Contribution(h, s, c + 1, j) == Rotl13(Contribution(h, s, c, j))
    ensures c % 16 != s ==> Contribution(h, s, c + 1, j) == Contribution(h, s, c, j)
  {
    LaterNext(j, c);
    if j % 16 != s {
      RotlZero(13);
    } else if c % 16 == s {
      OneMoreRotation(h(j), Later(j, c));
    }
  }

  lemma OneMoreRotation(x: Word, l: nat)
    ensures Rotl32(Rotl32(x, (13 * l) % 32), 13) == Rotl32(x, (13 * (l + 1)) % 32)
  {
    hide Rotl32;
    RotlAdd(x, (13 * l) % 32, 13);
    AddMod32(13 * l, 13);
  }

  lemma LaterNext(j: int, c: int)
    requires 0 <= j < c
    ensures Later(j, c + 1) == Later(j, c) + (if (c - j) % 16 == 0 then 1 else 0)
    ensures (c - j) % 16 == 0 <==> c % 16 == j % 16
  {}

  /** After c reductions, slot s holds the XOR over the reductions j of that slot of h(j) rotated
      by 13 times the number of later reductions in the slot, modulo 32. */
  lemma {:induction false} ClosedForm(h: int -> Word, s: nat, c: nat)
    requires s < 16
    ensures Folds(Zeros(), h, c)[s] == XorRange(j => Contribution(h, s, c, j), c)
  {
    if c > 0 {
      var d := c - 1;
      ClosedForm(h, s, d);
      var f, g := (j: int) => Contribution(h, s, d, j), (j: int) => Contribution(h, s, c, j);
      forall j | 0 <= j < d
        ensures d % 16 == s ==> g(j) == Rotl13(f(j))
        ensures d % 16 != s ==> g(j) == f(j)
      {
        ContributionStep(h, s, d, j);
      }
      ClosedFormStep(h, s, d, f, g);
    }
  }

  lemma ClosedFormStep(h: int -> Word, s: nat, d: nat, f: int -> Word, g: int -> Word)
    requires s < 16 && Folds(Zeros(), h, d)[s] == XorRange(f, d)
    requires forall j :: 0 <= j < d ==> g(j) == if d % 16 == s then Rotl13(f(j)) else f(j)
    requires g(d) == Contribution(h, s, d + 1, d)
    ensures Folds(Zeros(), h, d + 1)[s] == XorRange(g, d + 1)
  {
    hide Xor, Rotl32, Rotl13;
    if d % 16 == s {
      XorRangeRotl(f, g, d);
      RotlEnds(h(d));
      assert Later(d, d + 1) == 0;
    } else {
      XorRangeEq(f, g, d);
      XorZero(XorRange(f, d));
    }
  }
}
