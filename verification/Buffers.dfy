/** Strided square views into one flat memory, and the elementwise kernels over them. */
module Buffers {
  import opened Matrices

  /** An n-by-n view whose rows start `stride` cells apart. */
  datatype Sub = Sub(off: nat, stride: nat, n: nat)

  function At(s: Sub, i: nat, j: nat): nat {
    s.off + i * s.stride + j
  }

  predicate Fits(size: nat, s: Sub) {
    s.n <= s.stride && (s.n > 0 ==> At(s, s.n - 1, s.n - 1) < size)
  }

  predicate Inside(s: Sub, p: int) {
    exists i: nat, j: nat :: i < s.n && j < s.n && At(s, i, j) == p
  }

  /** No cell belongs to both views. */
  predicate Apart(s: Sub, t: Sub) {
    forall i: nat, j: nat :: i < s.n && j < s.n ==> !Inside(t, At(s, i, j))
  }

  lemma Later(i: nat, i': nat, stride: nat)
    requires i < i'
    ensures i * stride + stride <= i' * stride
  {
    var d := i' - i - 1;
    assert i' * stride == i * stride + stride + d * stride;
  }

  lemma InBounds(size: nat, s: Sub, i: nat, j: nat)
    requires Fits(size, s) && i < s.n && j < s.n
    ensures At(s, i, j) < size
  {
    if i < s.n - 1 {
      Later(i, s.n - 1, s.stride);
    }
  }

  /** Different coordinates are different cells. */
  lemma Distinct(s: Sub, i: nat, j: nat, i': nat, j': nat)
    requires i < s.n && j < s.n && i' < s.n && j' < s.n && s.n <= s.stride
    requires At(s, i, j) == At(s, i', j')
    ensures i == i' && j == j'
  {
    if i < i' {
      Later(i, i', s.stride);
    } else if i' < i {
      Later(i', i, s.stride);
    }
  }

  /** The matrix a view shows in the memory contents `m`. */
  function View(m: seq<int>, s: Sub): (r: Matrix)
    requires Fits(|m|, s)
    ensures IsSquare(r, s.n)
  {
    seq(s.n, i requires 0 <= i < s.n => seq(s.n, j requires 0 <= j < s.n => (InBounds(|m|, s, i, j); m[At(s, i, j)])))
  }

  lemma ViewCell(m: seq<int>, s: Sub, i: nat, j: nat)
    requires Fits(|m|, s) && i < s.n && j < s.n
    ensures At(s, i, j) < |m| && View(m, s)[i][j] == m[At(s, i, j)]
  {
    InBounds(|m|, s, i, j);
  }

  /** Cells outside `s` hold what they held before. */
  predicate OnlyChanged(before: seq<int>, after: seq<int>, s: Sub) {
    |before| == |after| && forall p :: 0 <= p < |after| && !Inside(s, p) ==> after[p] == before[p]
  }

  lemma OnlyChangedTwice(m: seq<int>, m': seq<int>, m'': seq<int>, s: Sub)
    requires OnlyChanged(m, m', s) && OnlyChanged(m', m'', s)
    ensures OnlyChanged(m, m'', s)
  {
  }

  /** A view keeps its contents when only cells apart from it change. */
  lemma ViewKept(m: seq<int>, m': seq<int>, changed: Sub, s: Sub)
    requires OnlyChanged(m, m', changed) && Fits(|m|, s) && Apart(s, changed)
    ensures View(m', s) == View(m, s)
  {
    forall i, j | 0 <= i < s.n && 0 <= j < s.n ensures View(m', s)[i][j] == View(m, s)[i][j] {
      ViewCell(m, s, i, j);
      ViewCell(m', s, i, j);
    }
    CellsEqual(View(m', s), View(m, s), s.n);
  }

  /** Storing one cell changes one cell of the view and nothing outside it. */
  lemma Stored(m: seq<int>, m': seq<int>, s: Sub, i: nat, j: nat, v: int)
    requires Fits(|m|, s) && i < s.n && j < s.n && At(s, i, j) < |m|
    requires m' == m[At(s, i, j) := v]
    ensures OnlyChanged(m, m', s)
    ensures View(m', s) == View(m, s)[i := View(m, s)[i][j := v]]
  {
    assert Inside(s, At(s, i, j));
    var want := View(m, s)[i := View(m, s)[i][j := v]];
    forall i', j' | 0 <= i' < s.n && 0 <= j' < s.n ensures View(m', s)[i'][j'] == want[i'][j'] {
      ViewCell(m, s, i', j');
      ViewCell(m', s, i', j');
      if At(s, i', j') == At(s, i, j) {
        Distinct(s, i, j, i', j');
      }
    }
    CellsEqual(View(m', s), want, s.n);
  }

  method Store(mem: array<int>, s: Sub, i: nat, j: nat, v: int)
    requires Fits(mem.Length, s) && i < s.n && j < s.n
    modifies mem
    ensures OnlyChanged(old(mem[..]), mem[..], s)
    ensures View(mem[..], s) == old(View(mem[..], s))[i := old(View(mem[..], s))[i][j := v]]
  {
    InBounds(mem.Length, s, i, j);
    ghost var m := mem[..];
    mem[At(s, i, j)] := v;
    Stored(m, mem[..], s, i, j, v);
  }

  method Load(mem: array<int>, s: Sub, i: nat, j: nat) returns (v: int)
    requires Fits(mem.Length, s) && i < s.n && j < s.n
    ensures v == View(mem[..], s)[i][j]
  {
    InBounds(mem.Length, s, i, j);
    v := mem[At(s, i, j)];
  }

  // ---- Quadrants.

  function Quadrant(s: Sub, row: nat, col: nat): Sub {
    var half := s.n / 2;
    Sub(s.off + row * half * s.stride + col * half, s.stride, half)
  }

  lemma QuadrantAt(s: Sub, row: nat, col: nat, i: nat, j: nat)
    requires row < 2 && col < 2
    ensures At(Quadrant(s, row, col), i, j) == At(s, Shift(row, s.n / 2, i), Shift(col, s.n / 2, j))
  {
    if row == 1 {
      var h := s.n / 2;
      assert (h + i) * s.stride == h * s.stride + i * s.stride;
    }
  }

  lemma QuadrantFits(size: nat, s: Sub, row: nat, col: nat)
    requires Fits(size, s) && row < 2 && col < 2
    ensures Fits(size, Quadrant(s, row, col))
  {
    var h := s.n / 2;
    if h > 0 {
      QuadrantAt(s, row, col, h - 1, h - 1);
      InBounds(size, s, Shift(row, h, h - 1), Shift(col, h, h - 1));
    }
  }

  lemma QuadrantInside(s: Sub, row: nat, col: nat)
    requires row < 2 && col < 2
    ensures forall p :: Inside(Quadrant(s, row, col), p) ==> Inside(s, p)
  {
    var q, h := Quadrant(s, row, col), s.n / 2;
    forall p | Inside(q, p) ensures Inside(s, p) {
      var i: nat, j: nat :| i < q.n && j < q.n && At(q, i, j) == p;
      QuadrantAt(s, row, col, i, j);
      assert At(s, Shift(row, h, i), Shift(col, h, j)) == p;
    }
  }

  /** A quadrant of a view shows the block of the matrix it shows. */
  lemma QuadrantView(m: seq<int>, s: Sub, row: nat, col: nat)
    requires Fits(|m|, s) && s.n % 2 == 0 && row < 2 && col < 2
    ensures Fits(|m|, Quadrant(s, row, col))
    ensures View(m, Quadrant(s, row, col)) == Block(View(m, s), s.n / 2, row, col)
  {
    var q, h := Quadrant(s, row, col), s.n / 2;
    QuadrantFits(|m|, s, row, col);
    var l, r := View(m, q), Block(View(m, s), h, row, col);
    forall i, j | 0 <= i < h && 0 <= j < h ensures l[i][j] == r[i][j] {
      QuadrantAt(s, row, col, i, j);
      ViewCell(m, q, i, j);
      ViewCell(m, s, Shift(row, h, i), Shift(col, h, j));
    }
    CellsEqual(l, r, h);
  }

  lemma QuadrantCellsDiffer(s: Sub, row: nat, col: nat, row': nat, col': nat, i: nat, j: nat, i': nat, j': nat)
    requires s.n <= s.stride && row < 2 && col < 2 && row' < 2 && col' < 2 && (row != row' || col != col')
    requires i < s.n / 2 && j < s.n / 2 && i' < s.n / 2 && j' < s.n / 2
    ensures At(Quadrant(s, row, col), i, j) != At(Quadrant(s, row', col'), i', j')
  {
    var h := s.n / 2;
    QuadrantAt(s, row, col, i, j);
    QuadrantAt(s, row', col', i', j');
    var x, y, x', y' := Shift(row, h, i), Shift(col, h, j), Shift(row', h, i'), Shift(col', h, j');
    if At(s, x, y) == At(s, x', y') {
      Distinct(s, x, y, x', y');
    }
  }

  /** Different quadrants of one view share no cell. */
  lemma QuadrantsApart(s: Sub, row: nat, col: nat, row': nat, col': nat)
    requires s.n <= s.stride && row < 2 && col < 2 && row' < 2 && col' < 2
    requires row != row' || col != col'
    ensures Apart(Quadrant(s, row, col), Quadrant(s, row', col'))
  {
    var q, q', h := Quadrant(s, row, col), Quadrant(s, row', col'), s.n / 2;
    forall i: nat, j: nat, i': nat, j': nat | i < h && j < h && i' < h && j' < h ensures At(q, i, j) != At(q', i', j') {
      QuadrantCellsDiffer(s, row, col, row', col', i, j, i', j');
    }
  }

  /** Apartness passes to views inside the two views. */
  lemma ApartWithin(s: Sub, t: Sub, s': Sub, t': Sub)
    requires Apart(s, t)
    requires forall p :: Inside(s', p) ==> Inside(s, p)
    requires forall p :: Inside(t', p) ==> Inside(t, p)
    ensures Apart(s', t')
  {
    forall i: nat, j: nat | i < s'.n && j < s'.n ensures !Inside(t', At(s', i, j)) {
      assert Inside(s', At(s', i, j));
      var i': nat, j': nat :| i' < s.n && j' < s.n && At(s, i', j') == At(s', i, j);
    }
  }

  lemma OnlyChangedWithin(m: seq<int>, m': seq<int>, s: Sub, s': Sub)
    requires OnlyChanged(m, m', s')
    requires forall p :: Inside(s', p) ==> Inside(s, p)
    ensures OnlyChanged(m, m', s)
  {
  }

  // ---- Operands of a recursive product.

  /** Repeated halving stays even until the cutoff, as for every cutoff times a power of two. */
  predicate Halves(n: nat, cutoff: nat) {
    n <= cutoff || (n > 0 && n % 2 == 0 && Halves(n / 2, cutoff))
  }

  lemma {:induction false} HalvesPowers(cutoff: nat, k: nat, n: nat)
    requires n == cutoff * Power2(k)
    ensures Halves(n, cutoff)
  {
    if k > 0 && n > cutoff {
      assert n == 2 * (cutoff * Power2(k - 1));
      HalvesPowers(cutoff, k - 1, n / 2);
    }
  }

  /** Row and column of a cell that no leaf of the recursion ever writes. */
  function Missed(n: nat, cutoff: nat): (p: nat)
    requires !Halves(n, cutoff)
    ensures p < n
  {
    if n % 2 == 1 then n - 1 else Missed(n / 2, cutoff)
  }

  function Power2(k: nat): nat {
    if k == 0 then 1 else 2 * Power2(k - 1)
  }

  predicate Operands(size: nat, a: Sub, b: Sub, r: Sub) {
    && Fits(size, a) && Fits(size, b) && Fits(size, r)
    && r.n == a.n == b.n && Apart(a, r) && Apart(b, r)
  }

  lemma QuadrantOperands(size: nat, a: Sub, b: Sub, r: Sub, row: nat, col: nat, inner: nat)
    requires Operands(size, a, b, r) && row < 2 && col < 2 && inner < 2
    ensures Operands(size, Quadrant(a, row, inner), Quadrant(b, inner, col), Quadrant(r, row, col))
    ensures forall p :: Inside(Quadrant(r, row, col), p) ==> Inside(r, p)
  {
    QuadrantFits(size, a, row, inner);
    QuadrantFits(size, b, inner, col);
    QuadrantFits(size, r, row, col);
    QuadrantInside(a, row, inner);
    QuadrantInside(b, inner, col);
    QuadrantInside(r, row, col);
    ApartWithin(a, r, Quadrant(a, row, inner), Quadrant(r, row, col));
    ApartWithin(b, r, Quadrant(b, inner, col), Quadrant(r, row, col));
  }

  // ---- Progress of a kernel that overwrites `was` with `want`, row by row.

  /** Cells before (i, j) in row order already show `want`; the others still show `was`. */
  predicate Progress(cur: Matrix, was: Matrix, want: Matrix, n: nat, i: nat, j: nat)
    requires IsSquare(cur, n) && IsSquare(was, n) && IsSquare(want, n)
  {
    forall r, c :: 0 <= r < n && 0 <= c < n ==>
      cur[r][c] == if r < i || (r == i && c < j) then want[r][c] else was[r][c]
  }

  lemma ProgressCell(cur: Matrix, was: Matrix, want: Matrix, n: nat, i: nat, j: nat)
    requires IsSquare(cur, n) && IsSquare(was, n) && IsSquare(want, n) && i < n && j < n
    requires Progress(cur, was, want, n, i, j)
    ensures var next := cur[i := cur[i][j := want[i][j]]];
      IsSquare(next, n) && Progress(next, was, want, n, i, j + 1)
  {
  }

  /** Row `i` is finished and the two matrices agree below it. */
  lemma ProgressRow(cur: Matrix, was: Matrix, want: Matrix, n: nat, i: nat)
    requires IsSquare(cur, n) && IsSquare(was, n) && IsSquare(want, n) && i < n
    requires Progress(cur, was, want, n, i, n)
    requires forall r :: i < r < n ==> was[r] == want[r]
    ensures cur == want
  {
    CellsEqual(cur, want, n);
  }

  lemma ProgressAll(cur: Matrix, was: Matrix, want: Matrix, n: nat)
    requires IsSquare(cur, n) && IsSquare(was, n) && IsSquare(want, n) && Progress(cur, was, want, n, n, 0)
    ensures cur == want
  {
    CellsEqual(cur, want, n);
  }

  /** Stores the next cell of `want` into `dst`. */
  method Fill(mem: array<int>, dst: Sub, i: nat, j: nat, v: int, ghost m: seq<int>, ghost was: Matrix, ghost want: Matrix)
    requires Fits(mem.Length, dst) && i < dst.n && j < dst.n
    requires IsSquare(was, dst.n) && IsSquare(want, dst.n) && v == want[i][j]
    requires OnlyChanged(m, mem[..], dst) && Progress(View(mem[..], dst), was, want, dst.n, i, j)
    modifies mem
    ensures OnlyChanged(m, mem[..], dst) && Progress(View(mem[..], dst), was, want, dst.n, i, j + 1)
  {
    ProgressCell(View(mem[..], dst), was, want, dst.n, i, j);
    ghost var m' := mem[..];
    Store(mem, dst, i, j, v);
    OnlyChangedTwice(m, m', mem[..], dst);
  }

  method AddInto(mem: array<int>, dst: Sub, a: Sub, b: Sub)
    requires Fits(mem.Length, dst) && Fits(mem.Length, a) && Fits(mem.Length, b)
    requires dst.n == a.n == b.n && Apart(a, dst) && Apart(b, dst)
    modifies mem
    ensures View(mem[..], dst) == Sum(old(View(mem[..], a)), old(View(mem[..], b)), dst.n)
    ensures OnlyChanged(old(mem[..]), mem[..], dst)
  {
    ghost var m, was := mem[..], View(mem[..], dst);
    ghost var want := Sum(View(m, a), View(m, b), dst.n);
    for i := 0 to dst.n
      invariant OnlyChanged(m, mem[..], dst) && Progress(View(mem[..], dst), was, want, dst.n, i, 0)
    {
      for j := 0 to dst.n
        invariant OnlyChanged(m, mem[..], dst) && Progress(View(mem[..], dst), was, want, dst.n, i, j)
      {
        ViewKept(m, mem[..], dst, a);
        ViewKept(m, mem[..], dst, b);
        var x := Load(mem, a, i, j);
        var y := Load(mem, b, i, j);
        Fill(mem, dst, i, j, x + y, m, was, want);
      }
    }
    ProgressAll(View(mem[..], dst), was, want, dst.n);
  }

  method SubInto(mem: array<int>, dst: Sub, a: Sub, b: Sub)
    requires Fits(mem.Length, dst) && Fits(mem.Length, a) && Fits(mem.Length, b)
    requires dst.n == a.n == b.n && Apart(a, dst) && Apart(b, dst)
    modifies mem
    ensures View(mem[..], dst) == Difference(old(View(mem[..], a)), old(View(mem[..], b)), dst.n)
    ensures OnlyChanged(old(mem[..]), mem[..], dst)
  {
    ghost var m, was := mem[..], View(mem[..], dst);
    ghost var want := Difference(View(m, a), View(m, b), dst.n);
    for i := 0 to dst.n
      invariant OnlyChanged(m, mem[..], dst) && Progress(View(mem[..], dst), was, want, dst.n, i, 0)
    {
      for j := 0 to dst.n
        invariant OnlyChanged(m, mem[..], dst) && Progress(View(mem[..], dst), was, want, dst.n, i, j)
      {
        ViewKept(m, mem[..], dst, a);
        ViewKept(m, mem[..], dst, b);
        var x := Load(mem, a, i, j);
        var y := Load(mem, b, i, j);
        Fill(mem, dst, i, j, x - y, m, was, want);
      }
    }
    ProgressAll(View(mem[..], dst), was, want, dst.n);
  }

  method AddEq(mem: array<int>, dst: Sub, a: Sub)
    requires Fits(mem.Length, dst) && Fits(mem.Length, a)
    requires dst.n == a.n && Apart(a, dst)
    modifies mem
    ensures View(mem[..], dst) == Sum(old(View(mem[..], dst)), old(View(mem[..], a)), dst.n)
    ensures OnlyChanged(old(mem[..]), mem[..], dst)
  {
    ghost var m, was := mem[..], View(mem[..], dst);
    ghost var want := Sum(was, View(m, a), dst.n);
    for i := 0 to dst.n
      invariant OnlyChanged(m, mem[..], dst) && Progress(View(mem[..], dst), was, want, dst.n, i, 0)
    {
      for j := 0 to dst.n
        invariant OnlyChanged(m, mem[..], dst) && Progress(View(mem[..], dst), was, want, dst.n, i, j)
      {
        ViewKept(m, mem[..], dst, a);
        var x := Load(mem, dst, i, j);
        var y := Load(mem, a, i, j);
        Fill(mem, dst, i, j, x + y, m, was, want);
      }
    }
    ProgressAll(View(mem[..], dst), was, want, dst.n);
  }

  method SubEq(mem: array<int>, dst: Sub, a: Sub)
    requires Fits(mem.Length, dst) && Fits(mem.Length, a)
    requires dst.n == a.n && Apart(a, dst)
    modifies mem
    ensures View(mem[..], dst) == Difference(old(View(mem[..], dst)), old(View(mem[..], a)), dst.n)
    ensures OnlyChanged(old(mem[..]), mem[..], dst)
  {
    ghost var m, was := mem[..], View(mem[..], dst);
    ghost var want := Difference(was, View(m, a), dst.n);
    for i := 0 to dst.n
      invariant OnlyChanged(m, mem[..], dst) && Progress(View(mem[..], dst), was, want, dst.n, i, 0)
    {
      for j := 0 to dst.n
        invariant OnlyChanged(m, mem[..], dst) && Progress(View(mem[..], dst), was, want, dst.n, i, j)
      {
        ViewKept(m, mem[..], dst, a);
        var x := Load(mem, dst, i, j);
        var y := Load(mem, a, i, j);
        Fill(mem, dst, i, j, x - y, m, was, want);
      }
    }
    ProgressAll(View(mem[..], dst), was, want, dst.n);
  }

  // ---- The leaf product.

  /** `r := a * b`, or `r += a * b` when `add`. */
  method LeafMultiply(mem: array<int>, r: Sub, a: Sub, b: Sub, add: bool)
    requires Fits(mem.Length, r) && Fits(mem.Length, a) && Fits(mem.Length, b)
    requires r.n == a.n == b.n && Apart(a, r) && Apart(b, r)
    modifies mem
    ensures View(mem[..], r) == Multiplied(old(View(mem[..], r)), old(View(mem[..], a)), old(View(mem[..], b)), r.n, add)
    ensures OnlyChanged(old(mem[..]), mem[..], r)
  {
    ghost var m, n := mem[..], r.n;
    ghost var was, av, bv := View(m, r), View(m, a), View(m, b);
    NoRowsDone(was, av, bv, n, add);
    for i := 0 to r.n
      invariant OnlyChanged(m, mem[..], r) && View(mem[..], r) == RowsDone(was, av, bv, n, add, i)
    {
      MultiplyRow(mem, r, a, b, i, add, m, was, av, bv);
    }
    AllRowsDone(was, av, bv, n, add);
  }

  method MultiplyRow(mem: array<int>, r: Sub, a: Sub, b: Sub, i: nat, add: bool,
                     ghost m: seq<int>, ghost was: Matrix, ghost av: Matrix, ghost bv: Matrix)
    requires Fits(mem.Length, r) && Fits(mem.Length, a) && Fits(mem.Length, b) && |m| == mem.Length
    requires r.n == a.n == b.n && Apart(a, r) && Apart(b, r) && i < r.n && IsSquare(was, r.n)
    requires av == View(m, a) && bv == View(m, b)
    requires OnlyChanged(m, mem[..], r) && View(mem[..], r) == RowsDone(was, av, bv, r.n, add, i)
    modifies mem
    ensures OnlyChanged(m, mem[..], r) && View(mem[..], r) == RowsDone(was, av, bv, r.n, add, i + 1)
  {
    if add {
      RowUnstarted(was, av, bv, r.n, i);
    } else {
      ZeroRow(mem, r, i, m, was, av, bv);
    }
    for k := 0 to r.n
      invariant OnlyChanged(m, mem[..], r) && View(mem[..], r) == Partial(was, av, bv, r.n, add, i, k)
    {
      AccumulateRow(mem, r, a, b, i, k, add, m, was, av, bv);
    }
    RowFinished(was, av, bv, r.n, add, i);
  }

  method ZeroRow(mem: array<int>, r: Sub, i: nat, ghost m: seq<int>, ghost was: Matrix, ghost av: Matrix, ghost bv: Matrix)
    requires Fits(mem.Length, r) && i < r.n
    requires IsSquare(was, r.n) && IsSquare(av, r.n) && IsSquare(bv, r.n)
    requires OnlyChanged(m, mem[..], r) && View(mem[..], r) == RowsDone(was, av, bv, r.n, false, i)
    modifies mem
    ensures OnlyChanged(m, mem[..], r) && View(mem[..], r) == Partial(was, av, bv, r.n, false, i, 0)
  {
    ghost var from, want := View(mem[..], r), Partial(was, av, bv, r.n, false, i, 0);
    RowZeroed(was, av, bv, r.n, i);
    for j := 0 to r.n
      invariant OnlyChanged(m, mem[..], r) && Progress(View(mem[..], r), from, want, r.n, i, j)
    {
      Fill(mem, r, i, j, 0, m, from, want);
    }
    ProgressRow(View(mem[..], r), from, want, r.n, i);
  }

  method AccumulateRow(mem: array<int>, r: Sub, a: Sub, b: Sub, i: nat, k: nat, add: bool,
                       ghost m: seq<int>, ghost was: Matrix, ghost av: Matrix, ghost bv: Matrix)
    requires Fits(mem.Length, r) && Fits(mem.Length, a) && Fits(mem.Length, b)
    requires r.n == a.n == b.n && Apart(a, r) && Apart(b, r) && i < r.n && k < r.n
    requires |m| == mem.Length && av == View(m, a) && bv == View(m, b) && IsSquare(was, r.n)
    requires OnlyChanged(m, mem[..], r) && View(mem[..], r) == Partial(was, av, bv, r.n, add, i, k)
    modifies mem
    ensures OnlyChanged(m, mem[..], r) && View(mem[..], r) == Partial(was, av, bv, r.n, add, i, k + 1)
  {
    ghost var from, want := View(mem[..], r), Partial(was, av, bv, r.n, add, i, k + 1);
    PartialStep(was, av, bv, r.n, add, i, k);
    ViewKept(m, mem[..], r, a);
    var aik := Load(mem, a, i, k);
    for j := 0 to r.n
      invariant OnlyChanged(m, mem[..], r) && Progress(View(mem[..], r), from, want, r.n, i, j)
    {
      ViewKept(m, mem[..], r, b);
      var x := Load(mem, r, i, j);
      var bkj := Load(mem, b, k, j);
      Fill(mem, r, i, j, x + aik * bkj, m, from, want);
    }
    ProgressRow(View(mem[..], r), from, want, r.n, i);
  }
}
