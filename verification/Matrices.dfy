/** Square integer matrices as values: the algebra behind the two divide-and-conquer products. */
module Matrices {

  type Matrix = seq<seq<int>>

  predicate IsSquare(a: Matrix, n: nat) {
    |a| == n && forall i :: 0 <= i < n ==> |a[i]| == n
  }

  /** The first `k` terms of the row-column sum at (i, j). */
  function Dot(a: Matrix, b: Matrix, n: nat, i: nat, j: nat, k: nat): int
    requires IsSquare(a, n) && IsSquare(b, n) && i < n && j < n && k <= n
  {
    if k == 0 then 0 else Dot(a, b, n, i, j, k - 1) + a[i][k - 1] * b[k - 1][j]
  }

  function Product(a: Matrix, b: Matrix, n: nat): (r: Matrix)
    requires IsSquare(a, n) && IsSquare(b, n)
    ensures IsSquare(r, n)
  {
    seq(n, i requires 0 <= i < n => seq(n, j requires 0 <= j < n => Dot(a, b, n, i, j, n)))
  }

  function Sum(a: Matrix, b: Matrix, n: nat): (r: Matrix)
    requires IsSquare(a, n) && IsSquare(b, n)
    ensures IsSquare(r, n)
  {
    seq(n, i requires 0 <= i < n => seq(n, j requires 0 <= j < n => a[i][j] + b[i][j]))
  }

  function Difference(a: Matrix, b: Matrix, n: nat): (r: Matrix)
    requires IsSquare(a, n) && IsSquare(b, n)
    ensures IsSquare(r, n)
  {
    seq(n, i requires 0 <= i < n => seq(n, j requires 0 <= j < n => a[i][j] - b[i][j]))
  }

  /** Coordinate `i` of block row (or column) `part`, in the coordinates of the whole matrix. */
  function Shift(part: nat, h: nat, i: nat): nat {
    if part == 0 then i else h + i
  }

  /** One of the four h-by-h blocks of a 2h-by-2h matrix. */
  function Block(a: Matrix, h: nat, row: nat, col: nat): (r: Matrix)
    requires IsSquare(a, 2 * h) && row < 2 && col < 2
    ensures IsSquare(r, h)
  {
    seq(h, i requires 0 <= i < h => seq(h, j requires 0 <= j < h => a[Shift(row, h, i)][Shift(col, h, j)]))
  }

  lemma CellsEqual(a: Matrix, b: Matrix, n: nat)
    requires IsSquare(a, n) && IsSquare(b, n)
    requires forall i, j :: 0 <= i < n && 0 <= j < n ==> a[i][j] == b[i][j]
    ensures a == b
  {
    forall i | 0 <= i < n ensures a[i] == b[i] {
    }
  }

  /** A matrix is determined by its four blocks. */
  lemma BlocksEqual(a: Matrix, b: Matrix, h: nat)
    requires IsSquare(a, 2 * h) && IsSquare(b, 2 * h)
    requires Block(a, h, 0, 0) == Block(b, h, 0, 0) && Block(a, h, 0, 1) == Block(b, h, 0, 1)
    requires Block(a, h, 1, 0) == Block(b, h, 1, 0) && Block(a, h, 1, 1) == Block(b, h, 1, 1)
    ensures a == b
  {
    forall i, j | 0 <= i < 2 * h && 0 <= j < 2 * h ensures a[i][j] == b[i][j] {
      var row, col := if i < h then 0 else 1, if j < h then 0 else 1;
      assert Block(a, h, row, col)[if i < h then i else i - h][if j < h then j else j - h] == Block(b, h, row, col)[if i < h then i else i - h][if j < h then j else j - h];
    }
    CellsEqual(a, b, 2 * h);
  }

  /** The row-column sum splits at the middle into two block sums. */
  lemma {:induction false} DotLow(a: Matrix, b: Matrix, h: nat, row: nat, col: nat, i: nat, j: nat, k: nat)
    requires IsSquare(a, 2 * h) && IsSquare(b, 2 * h) && row < 2 && col < 2 && i < h && j < h && k <= h
    ensures Dot(a, b, 2 * h, Shift(row, h, i), Shift(col, h, j), k) == Dot(Block(a, h, row, 0), Block(b, h, 0, col), h, i, j, k)
  {
    if k > 0 {
      DotLow(a, b, h, row, col, i, j, k - 1);
    }
  }

  lemma {:induction false} DotHigh(a: Matrix, b: Matrix, h: nat, row: nat, col: nat, i: nat, j: nat, k: nat)
    requires IsSquare(a, 2 * h) && IsSquare(b, 2 * h) && row < 2 && col < 2 && i < h && j < h && k <= h
    ensures Dot(a, b, 2 * h, Shift(row, h, i), Shift(col, h, j), h + k) ==
      Dot(a, b, 2 * h, Shift(row, h, i), Shift(col, h, j), h) + Dot(Block(a, h, row, 1), Block(b, h, 1, col), h, i, j, k)
  {
    if k > 0 {
      DotHigh(a, b, h, row, col, i, j, k - 1);
    }
  }

  /** Block multiplication: each block of a product is a sum of two block products. */
  lemma ProductBlock(a: Matrix, b: Matrix, h: nat, row: nat, col: nat)
    requires IsSquare(a, 2 * h) && IsSquare(b, 2 * h) && row < 2 && col < 2
    ensures Block(Product(a, b, 2 * h), h, row, col) ==
      Sum(Product(Block(a, h, row, 0), Block(b, h, 0, col), h), Product(Block(a, h, row, 1), Block(b, h, 1, col), h), h)
  {
    var l := Block(Product(a, b, 2 * h), h, row, col);
    var r := Sum(Product(Block(a, h, row, 0), Block(b, h, 0, col), h), Product(Block(a, h, row, 1), Block(b, h, 1, col), h), h);
    forall i, j | 0 <= i < h && 0 <= j < h ensures l[i][j] == r[i][j] {
      DotLow(a, b, h, row, col, i, j, h);
      DotHigh(a, b, h, row, col, i, j, h);
    }
    CellsEqual(l, r, h);
  }

  // ---- Strassen's seven products.

  datatype Quad = Quad(p: Matrix, q: Matrix, r: Matrix, s: Matrix)

  function Split(a: Matrix, h: nat): Quad
    requires IsSquare(a, 2 * h)
  {
    Quad(Block(a, h, 0, 0), Block(a, h, 0, 1), Block(a, h, 1, 0), Block(a, h, 1, 1))
  }

  predicate QuadOk(x: Quad, h: nat) {
    IsSquare(x.p, h) && IsSquare(x.q, h) && IsSquare(x.r, h) && IsSquare(x.s, h)
  }

  /** The left operand of each of the seven products, in order. */
  function LeftOperands(x: Quad, h: nat): (r: seq<Matrix>)
    requires QuadOk(x, h)
    ensures |r| == 7 && forall k :: 0 <= k < 7 ==> IsSquare(r[k], h)
  {
    [Sum(x.p, x.s, h), Sum(x.r, x.s, h), x.p, x.s, Sum(x.p, x.q, h), Difference(x.r, x.p, h), Difference(x.q, x.s, h)]
  }

  function RightOperands(y: Quad, h: nat): (r: seq<Matrix>)
    requires QuadOk(y, h)
    ensures |r| == 7 && forall k :: 0 <= k < 7 ==> IsSquare(r[k], h)
  {
    [Sum(y.p, y.s, h), y.p, Difference(y.q, y.s, h), Difference(y.r, y.p, h), y.s, Sum(y.p, y.q, h), Sum(y.r, y.s, h)]
  }

  function SevenProducts(x: Quad, y: Quad, h: nat): (m: seq<Matrix>)
    requires QuadOk(x, h) && QuadOk(y, h)
    ensures |m| == 7 && forall k :: 0 <= k < 7 ==> IsSquare(m[k], h)
  {
    seq(7, k requires 0 <= k < 7 => Product(LeftOperands(x, h)[k], RightOperands(y, h)[k], h))
  }

  /** How the seven products recombine into the four output blocks. */
  function Recombine(m: seq<Matrix>, h: nat): Quad
    requires |m| == 7 && forall k :: 0 <= k < 7 ==> IsSquare(m[k], h)
  {
    Quad(Sum(Difference(Sum(m[0], m[3], h), m[4], h), m[6], h),
         Sum(m[2], m[4], h),
         Sum(m[1], m[3], h),
         Sum(Sum(Difference(m[0], m[1], h), m[2], h), m[5], h))
  }

  /** The seven scalar terms for one index of the row-column sums, in product order. */
  function SevenTerms(p: int, q: int, r: int, s: int, w: int, x: int, y: int, z: int): (t: seq<int>)
    ensures |t| == 7
  {
    [(p + s) * (w + z), (r + s) * w, p * (x - z), s * (y - w), (p + q) * z, (r - p) * (w + x), (q - s) * (y + z)]
  }

  /** `m` recombines to the four values `c`. */
  predicate Recombines(m: seq<int>, c: seq<int>)
    requires |m| == 7 && |c| == 4
  {
    && m[0] + m[3] - m[4] + m[6] == c[0]
    && m[2] + m[4] == c[1]
    && m[1] + m[3] == c[2]
    && m[0] - m[1] + m[2] + m[5] == c[3]
  }

  lemma StrassenTerm(p: int, q: int, r: int, s: int, w: int, x: int, y: int, z: int)
    ensures Recombines(SevenTerms(p, q, r, s, w, x, y, z), [p * w + q * y, p * x + q * z, r * w + s * y, r * x + s * z])
  {
  }

  function SevenDots(x: Quad, y: Quad, h: nat, i: nat, j: nat, k: nat): (m: seq<int>)
    requires QuadOk(x, h) && QuadOk(y, h) && i < h && j < h && k <= h
    ensures |m| == 7
  {
    var l, r := LeftOperands(x, h), RightOperands(y, h);
    seq(7, t requires 0 <= t < 7 => Dot(l[t], r[t], h, i, j, k))
  }

  function BlockDots(x: Quad, y: Quad, h: nat, i: nat, j: nat, k: nat): (m: seq<int>)
    requires QuadOk(x, h) && QuadOk(y, h) && i < h && j < h && k <= h
    ensures |m| == 4
  {
    [Dot(x.p, y.p, h, i, j, k) + Dot(x.q, y.r, h, i, j, k), Dot(x.p, y.q, h, i, j, k) + Dot(x.q, y.s, h, i, j, k),
     Dot(x.r, y.p, h, i, j, k) + Dot(x.s, y.r, h, i, j, k), Dot(x.r, y.q, h, i, j, k) + Dot(x.s, y.s, h, i, j, k)]
  }

  lemma SevenDotsStep(x: Quad, y: Quad, h: nat, i: nat, j: nat, k: nat)
    requires QuadOk(x, h) && QuadOk(y, h) && i < h && j < h && 0 < k <= h
    ensures var t := SevenTerms(x.p[i][k-1], x.q[i][k-1], x.r[i][k-1], x.s[i][k-1], y.p[k-1][j], y.q[k-1][j], y.r[k-1][j], y.s[k-1][j]);
      forall c :: 0 <= c < 7 ==> SevenDots(x, y, h, i, j, k)[c] == SevenDots(x, y, h, i, j, k - 1)[c] + t[c]
  {
  }

  /** The seven partial sums recombine to the block sums, cell by cell. */
  lemma {:induction false} StrassenCell(x: Quad, y: Quad, h: nat, i: nat, j: nat, k: nat)
    requires QuadOk(x, h) && QuadOk(y, h) && i < h && j < h && k <= h
    ensures Recombines(SevenDots(x, y, h, i, j, k), BlockDots(x, y, h, i, j, k))
  {
    if k > 0 {
      StrassenCell(x, y, h, i, j, k - 1);
      SevenDotsStep(x, y, h, i, j, k);
      StrassenTerm(x.p[i][k-1], x.q[i][k-1], x.r[i][k-1], x.s[i][k-1], y.p[k-1][j], y.q[k-1][j], y.r[k-1][j], y.s[k-1][j]);
    }
  }

  lemma StrassenIdentityAt(a: Matrix, b: Matrix, h: nat, i: nat, j: nat)
    requires IsSquare(a, 2 * h) && IsSquare(b, 2 * h) && i < h && j < h
    ensures var got, want := Recombine(SevenProducts(Split(a, h), Split(b, h), h), h), Split(Product(a, b, 2 * h), h);
      && got.p[i][j] == want.p[i][j] && got.q[i][j] == want.q[i][j]
      && got.r[i][j] == want.r[i][j] && got.s[i][j] == want.s[i][j]
  {
    ProductBlock(a, b, h, 0, 0);
    ProductBlock(a, b, h, 0, 1);
    ProductBlock(a, b, h, 1, 0);
    ProductBlock(a, b, h, 1, 1);
    StrassenCell(Split(a, h), Split(b, h), h, i, j, h);
  }

  /** Recombining the seven products yields the blocks of the product. */
  lemma StrassenIdentity(a: Matrix, b: Matrix, h: nat)
    requires IsSquare(a, 2 * h) && IsSquare(b, 2 * h)
    ensures Recombine(SevenProducts(Split(a, h), Split(b, h), h), h) == Split(Product(a, b, 2 * h), h)
  {
    var got, want := Recombine(SevenProducts(Split(a, h), Split(b, h), h), h), Split(Product(a, b, 2 * h), h);
    forall i, j | 0 <= i < h && 0 <= j < h
      ensures got.p[i][j] == want.p[i][j] && got.q[i][j] == want.q[i][j]
      ensures got.r[i][j] == want.r[i][j] && got.s[i][j] == want.s[i][j]
    {
      StrassenIdentityAt(a, b, h, i, j);
    }
    CellsEqual(got.p, want.p, h);
    CellsEqual(got.q, want.q, h);
    CellsEqual(got.r, want.r, h);
    CellsEqual(got.s, want.s, h);
  }

  // ---- Stages of the triple loop that multiplies in place.

  /** What the result should hold: the product, on top of its old contents when accumulating. */
  function Multiplied(was: Matrix, a: Matrix, b: Matrix, n: nat, add: bool): (r: Matrix)
    requires IsSquare(was, n) && IsSquare(a, n) && IsSquare(b, n)
    ensures IsSquare(r, n)
  {
    if add then Sum(was, Product(a, b, n), n) else Product(a, b, n)
  }

  /** The matrix with a one at (p, p) and zeros elsewhere. */
  function OneAt(n: nat, p: nat): (r: Matrix)
    ensures IsSquare(r, n)
  {
    seq(n, i => seq(n, j => if i == p && j == p then 1 else 0))
  }

  lemma {:induction false} OneAtDot(n: nat, p: nat, k: nat)
    requires p < n && k <= n
    ensures Dot(OneAt(n, p), OneAt(n, p), n, p, p, k) == if p < k then 1 else 0
  {
    if k > 0 {
      OneAtDot(n, p, k - 1);
    }
  }

  /** Whatever stands there, some operands ask for a change at (p, p). */
  lemma OneAtChanges(was: Matrix, n: nat, p: nat, add: bool)
    requires IsSquare(was, n) && p < n
    ensures Multiplied(was, OneAt(n, p), OneAt(n, p), n, add)[p][p] == 1 + if add then was[p][p] else 0
  {
    OneAtDot(n, p, n);
  }

  /** Rows above `row` are finished and the others untouched. */
  function RowsDone(was: Matrix, a: Matrix, b: Matrix, n: nat, add: bool, row: nat): (r: Matrix)
    requires IsSquare(was, n) && IsSquare(a, n) && IsSquare(b, n)
    ensures IsSquare(r, n)
  {
    seq(n, i requires 0 <= i < n => seq(n, j requires 0 <= j < n =>
      if i < row then Multiplied(was, a, b, n, add)[i][j] else was[i][j]))
  }

  /** Rows above `row` are finished and row `row` has the first `k` terms of its sums. */
  function Partial(was: Matrix, a: Matrix, b: Matrix, n: nat, add: bool, row: nat, k: nat): (r: Matrix)
    requires IsSquare(was, n) && IsSquare(a, n) && IsSquare(b, n) && k <= n
    ensures IsSquare(r, n)
  {
    seq(n, i requires 0 <= i < n => seq(n, j requires 0 <= j < n =>
      if i == row then (if add then was[i][j] else 0) + Dot(a, b, n, i, j, k)
      else RowsDone(was, a, b, n, add, row)[i][j]))
  }

  lemma NoRowsDone(was: Matrix, a: Matrix, b: Matrix, n: nat, add: bool)
    requires IsSquare(was, n) && IsSquare(a, n) && IsSquare(b, n)
    ensures RowsDone(was, a, b, n, add, 0) == was
  {
    CellsEqual(RowsDone(was, a, b, n, add, 0), was, n);
  }

  lemma AllRowsDone(was: Matrix, a: Matrix, b: Matrix, n: nat, add: bool)
    requires IsSquare(was, n) && IsSquare(a, n) && IsSquare(b, n)
    ensures RowsDone(was, a, b, n, add, n) == Multiplied(was, a, b, n, add)
  {
    CellsEqual(RowsDone(was, a, b, n, add, n), Multiplied(was, a, b, n, add), n);
  }

  lemma RowUnstarted(was: Matrix, a: Matrix, b: Matrix, n: nat, row: nat)
    requires IsSquare(was, n) && IsSquare(a, n) && IsSquare(b, n) && row < n
    ensures RowsDone(was, a, b, n, true, row) == Partial(was, a, b, n, true, row, 0)
  {
    CellsEqual(RowsDone(was, a, b, n, true, row), Partial(was, a, b, n, true, row, 0), n);
  }

  lemma RowFinished(was: Matrix, a: Matrix, b: Matrix, n: nat, add: bool, row: nat)
    requires IsSquare(was, n) && IsSquare(a, n) && IsSquare(b, n) && row < n
    ensures Partial(was, a, b, n, add, row, n) == RowsDone(was, a, b, n, add, row + 1)
  {
    var l, r := Partial(was, a, b, n, add, row, n), RowsDone(was, a, b, n, add, row + 1);
    forall i, j | 0 <= i < n && 0 <= j < n ensures l[i][j] == r[i][j] {
      assert Multiplied(was, a, b, n, add)[i][j] == (if add then was[i][j] else 0) + Dot(a, b, n, i, j, n);
      assert r[i][j] == if i <= row then Multiplied(was, a, b, n, add)[i][j] else was[i][j];
      assert i != row ==> l[i][j] == RowsDone(was, a, b, n, add, row)[i][j];
    }
    CellsEqual(l, r, n);
  }

  lemma RowZeroed(was: Matrix, a: Matrix, b: Matrix, n: nat, row: nat)
    requires IsSquare(was, n) && IsSquare(a, n) && IsSquare(b, n) && row < n
    ensures var from, want := RowsDone(was, a, b, n, false, row), Partial(was, a, b, n, false, row, 0);
      && (forall j :: 0 <= j < n ==> want[row][j] == 0)
      && (forall r :: 0 <= r < n && r != row ==> from[r] == want[r])
  {
  }

  lemma PartialStep(was: Matrix, a: Matrix, b: Matrix, n: nat, add: bool, row: nat, k: nat)
    requires IsSquare(was, n) && IsSquare(a, n) && IsSquare(b, n) && row < n && k < n
    ensures var from, want := Partial(was, a, b, n, add, row, k), Partial(was, a, b, n, add, row, k + 1);
      && (forall j :: 0 <= j < n ==> want[row][j] == from[row][j] + a[row][k] * b[k][j])
      && (forall r :: 0 <= r < n && r != row ==> from[r] == want[r])
  {
  }
}
