/** Noise generated and applied on the device, by threads that run in any order. */
module NoiseGpu {
  import opened Bits
  import opened Words
  import opened Ring
  import opened Transcript
  import opened Denoise
  import opened Noise
  import opened Scan
  import opened Mining

  /** What the kernels have built in: & 63, - 32, and rank 128. */
  const GPU := Generator(128, 128)

  // ---------- k_ng_dense ----------

  ghost predicate DenseDone(blake: Blake, seed: Seed, key: Digest, out: seq<int>, before: seq<int>, total: nat, pending: set<nat>, threads: nat) {
    |out| == |before| &&
    forall x :: 0 <= x < |out| ==>
      out[x] == if x < total && x / 32 < threads && x / 32 !in pending then DenseEntry(GPU, blake, seed, key, x) else before[x]
  }

  /** Thread i: one draw, up to 32 bytes of it. */
  method DenseThread(blake: Blake, key: Digest, seed: Seed, total: nat, out: array<int>, i: nat)
    requires total <= out.Length
    modifies out
    ensures forall x :: 0 <= x < out.Length ==>
      out[x] == if x < total && x / 32 == i then DenseEntry(GPU, blake, seed, key, x) else old(out[x])
  {
    if i * 32 >= total {
      return;
    }
    hide DenseEntry;
    var dig := blake(Message(i, seed, 0), key);
    for b := 0 to 32
      invariant forall x :: 0 <= x < out.Length ==>
        out[x] == if i * 32 <= x < i * 32 + b && x < total then DenseEntry(GPU, blake, seed, key, x) else old(out[x])
    {
      var idx := i * 32 + b;
      if idx < total {
        ByteOfDraw(blake, seed, key, i, b);
        var byte := Shr(dig[b / 4], b % 4 * 8) % 256;
        out[idx] := Wrap8(BAnd(byte, 63) - 32);
      }
    }
  }

  lemma ByteOfDraw(blake: Blake, seed: Seed, key: Digest, i: nat, b: nat)
    requires b < 32
    ensures DenseEntry(GPU, blake, seed, key, i * 32 + b)
         == Wrap8(BAnd(Shr(blake(Message(i, seed, 0), key)[b / 4], b % 4 * 8) % 256, 63) - 32)
  {
    hide BAnd, Shr, Pow2, Message;
    assert (i * 32 + b) / 32 == i && (i * 32 + b) % 32 == b;
    ShrIsDiv(blake(Message(i, seed, 0), key)[b / 4], b % 4 * 8);
  }

  lemma ShrIsDiv(x: nat, n: nat)
    ensures Pow2(n) > 0 && Shr(x, n) == x / Pow2(n)
  {
    var l := ShrSplits(x, n);
    ShlIsProduct(Shr(x, n), n);
    DivModUnique(x, Pow2(n), Shr(x, n), l);
  }

  /** k_ng_dense fills out with the uniform matrix, the partial last draw included. */
  method NgDense(blake: Blake, key: Digest, seed: Seed, rows: nat, out: array<int>, threads: nat)
    requires out.Length == rows * 128 && threads * 32 >= rows * 128
    modifies out
    ensures View(out[..], 0, rows, 128) == UniformMatrix(GPU, blake, seed, key, rows)
  {
    hide DenseEntry, View, UniformMatrix;
    var pending := Threads(threads);
    ghost var before := out[..];
    while pending != {}
      invariant pending <= Threads(threads)
      invariant DenseDone(blake, seed, key, out[..], before, rows * 128, pending, threads)
      decreases |pending|
    {
      var i :| i in pending;
      ghost var mid := out[..];
      DenseThread(blake, key, seed, rows * 128, out, i);
      DenseNext(blake, seed, key, out[..], mid, before, rows * 128, pending, threads, i);
      pending := pending - {i};
    }
    DenseIsUniform(blake, seed, key, out[..], before, rows, threads);
  }

  lemma DenseNext(blake: Blake, seed: Seed, key: Digest, out: seq<int>, mid: seq<int>, before: seq<int>,
                  total: nat, pending: set<nat>, threads: nat, i: nat)
    requires DenseDone(blake, seed, key, mid, before, total, pending, threads) && i in pending && i < threads && |out| == |mid|
    requires forall x :: 0 <= x < |out| ==> out[x] == if x < total && x / 32 == i then DenseEntry(GPU, blake, seed, key, x) else mid[x]
    ensures DenseDone(blake, seed, key, out, before, total, pending - {i}, threads)
  {
    hide DenseEntry;
  }

  lemma DenseIsUniform(blake: Blake, seed: Seed, key: Digest, out: seq<int>, before: seq<int>, rows: nat, threads: nat)
    requires |out| == rows * 128 && threads * 32 >= rows * 128
    requires DenseDone(blake, seed, key, out, before, rows * 128, {}, threads)
    ensures View(out, 0, rows, 128) == UniformMatrix(GPU, blake, seed, key, rows)
  {
    hide DenseEntry, View, UniformMatrix, Position;
    var u := UniformMatrix(GPU, blake, seed, key, rows);
    CellsInBuffer(rows, 128);
    forall i, j | 0 <= i < rows && 0 <= j < 128
      ensures 0 <= 0 + Position(128, i, j) < |out| && out[0 + Position(128, i, j)] == u[i][j]
    {
      assert Position(128, i, j) == i * 128 + j by { At128(i, j); }
    }
    ViewOf(out, 0, rows, 128, u);
  }

  lemma At128(i: int, j: int)
    ensures Position(128, i, j) == i * 128 + j
  {}

  // ---------- k_ng_perm ----------

  /** Where entry pos of line `line` is stored: in column `line` of an r x other matrix, or in row
      `line` of an other x r matrix. */
  function LineCell(columns: bool, r: nat, other: nat, line: nat, pos: nat): int {
    if columns then Position(other, pos, line) else Position(r, line, pos)
  }

  lemma LineCellsDistinct(columns: bool, r: nat, other: nat, line: nat, pos: nat, line': nat, pos': nat)
    requires line < other && line' < other && pos < r && pos' < r
    requires LineCell(columns, r, other, line, pos) == LineCell(columns, r, other, line', pos')
    ensures line == line' && pos == pos'
  {
    if columns {
      Nest(pos, other, line);
      Nest(pos', other, line');
    } else {
      Nest(line, r, pos);
      Nest(line', r, pos');
    }
  }

  lemma LineCellInBuffer(columns: bool, r: nat, other: nat, line: nat, pos: nat)
    requires line < other && pos < r
    ensures 0 <= LineCell(columns, r, other, line, pos) < r * other
  {
    if columns {
      NestBelow(pos, r, other, line);
    } else {
      NestBelow(line, other, r, pos);
    }
  }

  /** The lines in `done` are the generator's, the others are still zero. */
  ghost predicate LinesAre(blake: Blake, seed: Seed, key: Digest, columns: bool, r: nat, other: nat, out: seq<int>, done: set<nat>)
    requires r > 0
  {
    forall line: nat, pos: nat :: line < other && pos < r ==>
      LineIs(blake, seed, key, r, out, LineCell(columns, r, other, line, pos), line, pos, line in done)
  }

  ghost predicate LineIs(blake: Blake, seed: Seed, key: Digest, r: nat, out: seq<int>, x: int, line: nat, pos: nat, done: bool)
    requires r > 0
  {
    0 <= x < |out| && out[x] == if done then LineEntry(r, LineWord(blake, seed, key, line), pos) else 0
  }

  /** Line ai of draw word u: +1 at first, -1 at second, without the reference's final mask. */
  method PermLine(blake: Blake, seed: Seed, key: Digest, columns: bool, r: nat, other: nat, out: array<int>, ai: nat, u: Word, ghost done: set<nat>)
    requires (exists p: nat :: p >= 1 && r == Pow2(p)) && ai < other && u == LineWord(blake, seed, key, ai)
    requires out.Length == r * other && LinesAre(blake, seed, key, columns, r, other, out[..], done) && ai !in done
    modifies out
    ensures LinesAre(blake, seed, key, columns, r, other, out[..], done + {ai})
  {
    hide LinesAre, LineWord, BAnd, BXor, LineCell;
    ghost var p: nat :| p >= 1 && r == Pow2(p);
    LineStructure(r, u, p);
    ghost var before := out[..];
    var first := BAnd(u, r - 1);
    var second := BXor(first, 1 + MulHi(r - 1, u));
    LineCellInBuffer(columns, r, other, ai, first);
    LineCellInBuffer(columns, r, other, ai, second);
    out[LineCell(columns, r, other, ai, first)] := 1;
    out[LineCell(columns, r, other, ai, second)] := -1;
    assert out[..] == before[LineCell(columns, r, other, ai, first) := 1][LineCell(columns, r, other, ai, second) := -1];
    LineWritten(blake, seed, key, columns, r, other, before, ai, u, done);
  }

  lemma LineWritten(blake: Blake, seed: Seed, key: Digest, columns: bool, r: nat, other: nat, before: seq<int>, ai: nat, u: Word, done: set<nat>)
    requires r > 0 && First(r, u) < r && Second(r, u) < r && First(r, u) != Second(r, u)
    requires ai < other && u == LineWord(blake, seed, key, ai) && |before| == r * other
    requires LinesAre(blake, seed, key, columns, r, other, before, done) && ai !in done
    ensures var x, y := LineCell(columns, r, other, ai, First(r, u)), LineCell(columns, r, other, ai, Second(r, u));
            0 <= x < |before| && 0 <= y < |before| &&
            LinesAre(blake, seed, key, columns, r, other, before[x := 1][y := -1], done + {ai})
  {
    hide First, Second, LineWord, LineCell;
    LineCellInBuffer(columns, r, other, ai, First(r, u));
    LineCellInBuffer(columns, r, other, ai, Second(r, u));
    var x, y := LineCell(columns, r, other, ai, First(r, u)), LineCell(columns, r, other, ai, Second(r, u));
    var out := before[x := 1][y := -1];
    if x == y {
      LineCellsDistinct(columns, r, other, ai, First(r, u), ai, Second(r, u));
    }
    forall line: nat, pos: nat | line < other && pos < r
      ensures LineIs(blake, seed, key, r, out, LineCell(columns, r, other, line, pos), line, pos, line in done + {ai})
    {
      var c := LineCell(columns, r, other, line, pos);
      assert LineIs(blake, seed, key, r, before, c, line, pos, line in done);
      if c == x {
        LineCellsDistinct(columns, r, other, line, pos, ai, First(r, u));
      } else if c == y {
        LineCellsDistinct(columns, r, other, line, pos, ai, Second(r, u));
      }
    }
  }

  /** The lines of the draws that have run. */
  ghost function LinesOf(threads: nat, pending: set<nat>, required: nat): set<nat> {
    set line: nat | line < required && line / 8 < threads && line / 8 !in pending
  }

  /** The n lines from lo on. */
  ghost function Between(lo: nat, n: nat): set<nat> { Threads(lo + n) - Threads(lo) }

  /** Thread i: one draw, up to eight lines of it. */
  method PermThread(blake: Blake, key: Digest, seed: Seed, required: nat, columns: bool, r: nat, other: nat, out: array<int>, i: nat,
                    ghost threads: nat, ghost pending: set<nat>)
    requires (exists p: nat :: p >= 1 && r == Pow2(p)) && required <= other && out.Length == r * other
    requires i in pending && i < threads && LinesAre(blake, seed, key, columns, r, other, out[..], LinesOf(threads, pending, required))
    modifies out
    ensures LinesAre(blake, seed, key, columns, r, other, out[..], LinesOf(threads, pending - {i}, required))
  {
    hide LinesAre, LineWord, LinesOf, Between, Message;
    ghost var start := LinesOf(threads, pending, required);
    if i * 8 >= required {
      NoLines(threads, pending, required, i);
      return;
    }
    var dig := blake(Message(i, seed, 1), key);
    var kk := 0;
    NoneBetween(start, i * 8);
    while kk < 8
      invariant 0 <= kk <= 8 && i * 8 + kk <= required
      invariant LinesAre(blake, seed, key, columns, r, other, out[..], start + Between(i * 8, kk))
    {
      var ai := i * 8 + kk;
      if ai >= required {
        break;
      }
      LineOfDraw(blake, seed, key, i, kk);
      LineNotYet(threads, pending, required, i, kk);
      PermLine(blake, seed, key, columns, r, other, out, ai, dig[kk], start + Between(i * 8, kk));
      OneMoreBetween(start, i * 8, kk);
      kk := kk + 1;
    }
    DrawLines(threads, pending, required, i, kk);
  }

  lemma NoLines(threads: nat, pending: set<nat>, required: nat, i: nat)
    requires i * 8 >= required
    ensures LinesOf(threads, pending - {i}, required) == LinesOf(threads, pending, required)
  {}

  lemma NoneBetween(start: set<nat>, lo: nat)
    ensures start + Between(lo, 0) == start
  {
    hide Threads;
  }

  lemma OneMoreBetween(start: set<nat>, lo: nat, n: nat)
    ensures start + Between(lo, n) + {lo + n} == start + Between(lo, n + 1)
  {
    hide Threads;
  }

  lemma LineNotYet(threads: nat, pending: set<nat>, required: nat, i: nat, kk: nat)
    requires i in pending && kk < 8
    ensures i * 8 + kk !in LinesOf(threads, pending, required) + Between(i * 8, kk)
  {
    hide Threads;
    assert (i * 8 + kk) / 8 == i;
  }

  lemma LineOfDraw(blake: Blake, seed: Seed, key: Digest, i: nat, kk: nat)
    requires kk < 8
    ensures LineWord(blake, seed, key, i * 8 + kk) == blake(Message(i, seed, 1), key)[kk]
  {
    hide Message;
    assert (i * 8 + kk) / 8 == i && (i * 8 + kk) % 8 == kk;
  }

  lemma DrawLines(threads: nat, pending: set<nat>, required: nat, i: nat, kk: nat)
    requires i in pending && i < threads && kk <= 8 && i * 8 + kk <= required && (kk == 8 || i * 8 + kk == required)
    ensures LinesOf(threads, pending, required) + Between(i * 8, kk) == LinesOf(threads, pending - {i}, required)
  {
    forall line: nat
      ensures line in LinesOf(threads, pending, required) + Between(i * 8, kk) <==> line in LinesOf(threads, pending - {i}, required)
    {}
  }

  /** k_ng_perm on a zeroed buffer gives the signed permutation matrix. */
  method NgPerm(blake: Blake, key: Digest, seed: Seed, columns: bool, other: nat, out: array<int>, threads: nat)
    requires out.Length == 128 * other && threads * 8 >= other && forall x :: 0 <= x < out.Length ==> out[x] == 0
    modifies out
    ensures columns ==> View(out[..], 0, 128, other) == PermMatrix(GPU, blake, seed, key, 128, other, true)
    ensures !columns ==> View(out[..], 0, other, 128) == PermMatrix(GPU, blake, seed, key, other, 128, false)
  {
    hide LinesAre, LinesOf, View, PermMatrix;
    var pending := Threads(threads);
    NothingDrawn(blake, seed, key, columns, other, out[..], threads, pending);
    while pending != {}
      invariant pending <= Threads(threads)
      invariant LinesAre(blake, seed, key, columns, 128, other, out[..], LinesOf(threads, pending, other))
      decreases |pending|
    {
      var i :| i in pending;
      PowerOf128();
      PermThread(blake, key, seed, other, columns, 128, other, out, i, threads, pending);
      pending := pending - {i};
    }
    AllDrawn(blake, seed, key, columns, other, out[..], threads);
  }

  lemma PowerOf128()
    ensures Pow2(7) == 128
  {
    assert Pow2(3) == 8;
    assert Pow2(5) == 32;
  }

  lemma NothingDrawn(blake: Blake, seed: Seed, key: Digest, columns: bool, other: nat, out: seq<int>, threads: nat, pending: set<nat>)
    requires |out| == 128 * other && (forall x :: 0 <= x < |out| ==> out[x] == 0) && pending == Threads(threads)
    ensures LinesAre(blake, seed, key, columns, 128, other, out, LinesOf(threads, pending, other))
  {
    hide LineEntry, LineWord, LineCell;
    assert LinesOf(threads, pending, other) == {};
    forall line: nat, pos: nat | line < other && pos < 128
      ensures LineIs(blake, seed, key, 128, out, LineCell(columns, 128, other, line, pos), line, pos, false)
    {
      LineCellInBuffer(columns, 128, other, line, pos);
    }
  }

  lemma AllDrawn(blake: Blake, seed: Seed, key: Digest, columns: bool, other: nat, out: seq<int>, threads: nat)
    requires |out| == 128 * other && threads * 8 >= other
    requires LinesAre(blake, seed, key, columns, 128, other, out, LinesOf(threads, {}, other))
    ensures columns ==> View(out, 0, 128, other) == PermMatrix(GPU, blake, seed, key, 128, other, true)
    ensures !columns ==> View(out, 0, other, 128) == PermMatrix(GPU, blake, seed, key, other, 128, false)
  {
    hide LineEntry, LineWord, View, PermMatrix, Position, LinesAre;
    if columns {
      var p := PermMatrix(GPU, blake, seed, key, 128, other, true);
      forall pos, line | 0 <= pos < 128 && 0 <= line < other
        ensures 0 <= 0 + Position(other, pos, line) < |out| && out[0 + Position(other, pos, line)] == p[pos][line]
      {
        OneCell(blake, seed, key, columns, other, out, threads, line, pos);
      }
      ViewOf(out, 0, 128, other, p);
    } else {
      var p := PermMatrix(GPU, blake, seed, key, other, 128, false);
      forall line, pos | 0 <= line < other && 0 <= pos < 128
        ensures 0 <= 0 + Position(128, line, pos) < |out| && out[0 + Position(128, line, pos)] == p[line][pos]
      {
        OneCell(blake, seed, key, columns, other, out, threads, line, pos);
      }
      ViewOf(out, 0, other, 128, p);
    }
  }

  lemma OneCell(blake: Blake, seed: Seed, key: Digest, columns: bool, other: nat, out: seq<int>, threads: nat, line: nat, pos: nat)
    requires threads * 8 >= other && line < other && pos < 128
    requires LinesAre(blake, seed, key, columns, 128, other, out, LinesOf(threads, {}, other))
    ensures var x := if columns then Position(other, pos, line) else Position(128, line, pos);
            0 <= x < |out| && out[x] == LineEntry(128, LineWord(blake, seed, key, line), pos)
  {
    hide LineEntry, LineWord, Position;
    assert line in LinesOf(threads, {}, other);
    assert LineIs(blake, seed, key, 128, out, LineCell(columns, 128, other, line, pos), line, pos, true);
  }

  // ---------- k_transpose ----------

  ghost predicate TransposeDone(u: seq<int>, out: seq<int>, rows: nat, cols: nat, pending: set<nat>)
    requires |u| == |out| == rows * cols
  {
    forall i: nat, j: nat :: i < rows && j < cols && Position(cols, i, j) !in pending ==> MovedTo(u, out, Position(cols, i, j), Position(rows, j, i))
  }

  predicate MovedTo(u: seq<int>, out: seq<int>, from: int, to: int) {
    0 <= from < |u| && 0 <= to < |out| && out[to] == u[from]
  }

  method TransposeThread(u: array<int>, out: array<int>, rows: nat, cols: nat, idx: nat, ghost pending: set<nat>)
    requires u != out && u.Length == out.Length == rows * cols && TransposeDone(u[..], out[..], rows, cols, pending) && idx in pending
    modifies out
    ensures TransposeDone(u[..], out[..], rows, cols, pending - {idx})
  {
    hide TransposeDone;
    if idx >= rows * cols {
      TransposeOutside(u[..], out[..], rows, cols, pending, idx);
      return;
    }
    SplitIndex(idx, rows, cols);
    ghost var before := out[..];
    var i, j := Div(idx, cols), idx % cols;
    out[j * rows + i] := u[idx];
    assert out[..] == before[Position(rows, j, i) := u[idx]];
    TransposeStep(u[..], before, rows, cols, pending, i, j);
  }

  lemma TransposeOutside(u: seq<int>, out: seq<int>, rows: nat, cols: nat, pending: set<nat>, idx: nat)
    requires |u| == |out| == rows * cols && TransposeDone(u, out, rows, cols, pending) && idx >= rows * cols
    ensures TransposeDone(u, out, rows, cols, pending - {idx})
  {
    hide MovedTo, Position;
    CellsInBuffer(rows, cols);
  }

  lemma TransposeStep(u: seq<int>, out: seq<int>, rows: nat, cols: nat, pending: set<nat>, i: nat, j: nat)
    requires |u| == |out| == rows * cols && TransposeDone(u, out, rows, cols, pending) && i < rows && j < cols
    requires 0 <= Position(cols, i, j) < |u| && 0 <= Position(rows, j, i) < |out| && Position(cols, i, j) in pending
    ensures TransposeDone(u, out[Position(rows, j, i) := u[Position(cols, i, j)]], rows, cols, pending - {Position(cols, i, j)})
  {
    hide Position;
    var out' := out[Position(rows, j, i) := u[Position(cols, i, j)]];
    forall i': nat, j': nat | i' < rows && j' < cols && Position(cols, i', j') !in pending - {Position(cols, i, j)}
      ensures MovedTo(u, out', Position(cols, i', j'), Position(rows, j', i'))
    {
      if Position(cols, i', j') == Position(cols, i, j) {
        PositionsDistinct(cols, i, j, i', j');
      } else if Position(rows, j', i') == Position(rows, j, i) {
        PositionsDistinct(rows, j, i, j', i');
      }
    }
  }

  method NgTranspose(u: array<int>, out: array<int>, rows: nat, cols: nat, threads: nat)
    requires u != out && u.Length == out.Length == rows * cols && threads >= rows * cols
    modifies out
    ensures cols * rows == rows * cols && View(out[..], 0, cols, rows) == Transpose(View(u[..], 0, rows, cols), rows, cols)
  {
    hide TransposeDone, View, Transpose;
    var pending := Threads(threads);
    NothingMoved(u[..], out[..], rows, cols, threads);
    while pending != {}
      invariant pending <= Threads(threads) && TransposeDone(u[..], out[..], rows, cols, pending)
      decreases |pending|
    {
      var idx :| idx in pending;
      TransposeThread(u, out, rows, cols, idx, pending);
      pending := pending - {idx};
    }
    AllMoved(u[..], out[..], rows, cols);
  }

  lemma NothingMoved(u: seq<int>, out: seq<int>, rows: nat, cols: nat, threads: nat)
    requires |u| == |out| == rows * cols && threads >= rows * cols
    ensures TransposeDone(u, out, rows, cols, Threads(threads))
  {
    hide Position;
    CellsInBuffer(rows, cols);
  }

  lemma AllMoved(u: seq<int>, out: seq<int>, rows: nat, cols: nat)
    requires |u| == |out| == rows * cols && TransposeDone(u, out, rows, cols, {})
    ensures cols * rows == rows * cols && View(out, 0, cols, rows) == Transpose(View(u, 0, rows, cols), rows, cols)
  {
    hide Position, View, Transpose;
    assert cols * rows == rows * cols;
    var v := View(u, 0, rows, cols);
    var t := Transpose(v, rows, cols);
    forall j, i | 0 <= j < cols && 0 <= i < rows
      ensures 0 <= 0 + Position(rows, j, i) < |out| && out[0 + Position(rows, j, i)] == t[j][i]
    {
      assert MovedTo(u, out, Position(cols, i, j), Position(rows, j, i));
      assert t[j][i] == At(v, i, j) == v[i][j];
    }
    ViewOf(out, 0, cols, rows, t);
  }

  // ---------- k_noiseA, k_noiseB ----------

  /** left[i, :] right[:, j] in int. */
  method NoiseSum(left: array<int>, right: array<int>, rows: nat, cols: nat, r: nat, i: nat, j: nat) returns (e: int)
    requires left.Length == rows * r && right.Length == r * cols && i < rows && j < cols
    ensures e == Dot(View(left[..], 0, rows, r), View(right[..], 0, r, cols), i, j, 0, r)
  {
    hide View, Dot, Position;
    ghost var l, t := View(left[..], 0, rows, r), View(right[..], 0, r, cols);
    NoTerms(l, t, i, j);
    e := 0;
    for c := 0 to r
      invariant e == Dot(l, t, i, j, 0, c)
    {
      OneMoreTerm(left[..], right[..], rows, cols, r, i, j, c);
      e := e + left[Position(r, i, c)] * right[Position(cols, c, j)];
    }
  }

  ghost function NoisedView(x: seq<int>, left: seq<int>, right: seq<int>, rows: nat, cols: nat, r: nat): (y: Mat)
    requires |x| == rows * cols && |left| == rows * r && |right| == r * cols
    ensures IsMat(y, rows, cols)
  {
    Noised(View(x, 0, rows, cols), LowRank(View(left, 0, rows, r), View(right, 0, r, cols), rows, r, cols), rows, cols)
  }

  /** Element idx: the sum is added in int and cast once. */
  method NoiseThread(x: array<int>, left: array<int>, right: array<int>, out: array<int>, rows: nat, cols: nat, r: nat, idx: nat)
    requires out != x && out != left && out != right && x.Length == out.Length == rows * cols
    requires left.Length == rows * r && right.Length == r * cols
    modifies out
    ensures idx >= rows * cols ==> out[..] == old(out[..])
    ensures idx < rows * cols ==> cols > 0 && Div(idx, cols) < rows && out[..] == old(out[..])[idx :=
      At(NoisedView(x[..], left[..], right[..], rows, cols, r), Div(idx, cols), idx % cols)]
  {
    hide View, Noised, LowRank, Dot, Position, Wrap8;
    if idx >= rows * cols {
      return;
    }
    SplitIndex(idx, rows, cols);
    var i, j := Div(idx, cols), idx % cols;
    var e := NoiseSum(left, right, rows, cols, r, i, j);
    OneCast(x[..], View(left[..], 0, rows, r), View(right[..], 0, r, cols), rows, cols, r, i, j);
    out[idx] := Wrap8(x[idx] + e);
  }

  lemma NoTerms(l: Mat, t: Mat, i: nat, j: nat)
    ensures Dot(l, t, i, j, 0, 0) == 0
  {}

  lemma OneMoreTerm(left: seq<int>, right: seq<int>, rows: nat, cols: nat, r: nat, i: nat, j: nat, c: nat)
    requires |left| == rows * r && |right| == r * cols && i < rows && j < cols && c < r
    ensures 0 <= Position(r, i, c) < |left| && 0 <= Position(cols, c, j) < |right|
    ensures Dot(View(left, 0, rows, r), View(right, 0, r, cols), i, j, 0, c + 1)
         == Dot(View(left, 0, rows, r), View(right, 0, r, cols), i, j, 0, c) + left[Position(r, i, c)] * right[Position(cols, c, j)]
  {
    hide View, Position;
    var l, t := View(left, 0, rows, r), View(right, 0, r, cols);
    assert l[i][c] == left[0 + Position(r, i, c)] && t[c][j] == right[0 + Position(cols, c, j)];
  }

  /** Casting once, or casting the noise first as the reference does, gives the same byte. */
  lemma OneCast(x: seq<int>, l: Mat, t: Mat, rows: nat, cols: nat, r: nat, i: nat, j: nat)
    requires |x| == rows * cols && i < rows && j < cols
    ensures 0 <= Position(cols, i, j) < |x|
    ensures At(Noised(View(x, 0, rows, cols), LowRank(l, t, rows, r, cols), rows, cols), i, j)
         == Wrap8(x[Position(cols, i, j)] + Dot(l, t, i, j, 0, r))
  {
    hide View, Position, LowRank, Noised, Dot;
    var v, e := View(x, 0, rows, cols), LowRank(l, t, rows, r, cols);
    assert v[i][j] == x[0 + Position(cols, i, j)];
    assert Noised(v, e, rows, cols)[i][j] == Wrap8(At(v, i, j) + At(e, i, j));
    WrapOnce(v[i][j], Dot(l, t, i, j, 0, r));
  }

  lemma WrapOnce(x: int, e: int)
    ensures Wrap8(x + Wrap8(e)) == Wrap8(x + e)
  {}

  ghost predicate NoisedSoFar(out: seq<int>, y: Mat, rows: nat, cols: nat, pending: set<nat>) {
    |out| == rows * cols && IsMat(y, rows, cols) &&
    forall i: nat, j: nat :: i < rows && j < cols && Position(cols, i, j) !in pending ==> ShowsCell(out, Position(cols, i, j), y[i][j])
  }

  /** k_noiseA (and k_noiseB) leave the noised operand. */
  method NoiseKernel(x: array<int>, left: array<int>, right: array<int>, out: array<int>, rows: nat, cols: nat, r: nat, threads: nat)
    requires out != x && out != left && out != right && x.Length == out.Length == rows * cols
    requires left.Length == rows * r && right.Length == r * cols && threads >= rows * cols
    modifies out
    ensures View(out[..], 0, rows, cols)
         == Noised(View(x[..], 0, rows, cols), LowRank(View(left[..], 0, rows, r), View(right[..], 0, r, cols), rows, r, cols), rows, cols)
  {
    hide View, Noised, LowRank, NoisedSoFar;
    ghost var y := NoisedView(x[..], left[..], right[..], rows, cols, r);
    var pending := Threads(threads);
    NothingNoised(out[..], y, rows, cols, threads);
    while pending != {}
      invariant pending <= Threads(threads) && NoisedSoFar(out[..], y, rows, cols, pending)
      decreases |pending|
    {
      var idx :| idx in pending;
      ghost var before := out[..];
      NoiseThread(x, left, right, out, rows, cols, r, idx);
      NoisedNext(before, out[..], y, rows, cols, pending, idx);
      pending := pending - {idx};
    }
    AllNoised(out[..], y, rows, cols);
  }

  lemma NothingNoised(out: seq<int>, y: Mat, rows: nat, cols: nat, threads: nat)
    requires |out| == rows * cols && IsMat(y, rows, cols) && threads >= rows * cols
    ensures NoisedSoFar(out, y, rows, cols, Threads(threads))
  {
    hide Position;
    CellsInBuffer(rows, cols);
  }

  lemma NoisedNext(before: seq<int>, out: seq<int>, y: Mat, rows: nat, cols: nat, pending: set<nat>, idx: nat)
    requires NoisedSoFar(before, y, rows, cols, pending) && |out| == |before|
    requires idx >= rows * cols ==> out == before
    requires idx < rows * cols ==> cols > 0 && Div(idx, cols) < rows && out == before[idx := At(y, Div(idx, cols), idx % cols)]
    ensures NoisedSoFar(out, y, rows, cols, pending - {idx})
  {
    hide Position;
    CellsInBuffer(rows, cols);
    if idx < rows * cols {
      SplitIndex(idx, rows, cols);
      forall i: nat, j: nat | i < rows && j < cols && Position(cols, i, j) !in pending - {idx}
        ensures ShowsCell(out, Position(cols, i, j), y[i][j])
      {
        if Position(cols, i, j) == idx {
          PositionsDistinct(cols, i, j, Div(idx, cols), idx % cols);
        }
      }
    }
  }

  lemma AllNoised(out: seq<int>, y: Mat, rows: nat, cols: nat)
    requires NoisedSoFar(out, y, rows, cols, {})
    ensures View(out, 0, rows, cols) == y
  {
    hide Position, View;
    forall i, j | 0 <= i < rows && 0 <= j < cols
      ensures 0 <= 0 + Position(cols, i, j) < |out| && out[0 + Position(cols, i, j)] == y[i][j]
    {
      assert ShowsCell(out, Position(cols, i, j), y[i][j]);
    }
    ViewOf(out, 0, rows, cols, y);
  }
}
