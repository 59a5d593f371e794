/** Divide-and-conquer product on strided quadrants: an overwrite phase, then an accumulate phase,
    each running its four sub-products in any order. */
module MatmulDac {
  import opened Matrices
  import opened Buffers

  /** The four result blocks, those in `done` multiplied and the others as they were. */
  predicate PhaseState(was: Matrix, av: Matrix, bv: Matrix, now: Matrix, h: nat, inner: nat, add: bool, done: set<nat>)
    requires IsSquare(was, 2 * h) && IsSquare(av, 2 * h) && IsSquare(bv, 2 * h) && IsSquare(now, 2 * h) && inner < 2
  {
    forall idx: nat :: idx < 4 ==>
      Block(now, h, idx / 2, idx % 2) ==
        if idx in done then
          Multiplied(Block(was, h, idx / 2, idx % 2), Block(av, h, idx / 2, inner), Block(bv, h, inner, idx % 2), h, add)
        else Block(was, h, idx / 2, idx % 2)
  }

  lemma PhaseStep(m0: seq<int>, m: seq<int>, m': seq<int>, a: Sub, b: Sub, r: Sub, inner: nat, add: bool, done: set<nat>, idx: nat)
    requires r.n % 2 == 0 && inner < 2 && idx < 4 && idx !in done && |m0| == |m| == |m'|
    requires Operands(|m|, a, b, r) && OnlyChanged(m0, m, r)
    requires PhaseState(View(m0, r), View(m0, a), View(m0, b), View(m, r), r.n / 2, inner, add, done)
    requires Operands(|m|, Quadrant(a, idx / 2, inner), Quadrant(b, inner, idx % 2), Quadrant(r, idx / 2, idx % 2))
    requires OnlyChanged(m, m', Quadrant(r, idx / 2, idx % 2))
    requires View(m', Quadrant(r, idx / 2, idx % 2)) ==
      Multiplied(View(m, Quadrant(r, idx / 2, idx % 2)), View(m, Quadrant(a, idx / 2, inner)), View(m, Quadrant(b, inner, idx % 2)), r.n / 2, add)
    ensures OnlyChanged(m0, m', r)
    ensures PhaseState(View(m0, r), View(m0, a), View(m0, b), View(m', r), r.n / 2, inner, add, done + {idx})
  {
    var q := Quadrant(r, idx / 2, idx % 2);
    QuadrantInside(r, idx / 2, idx % 2);
    OnlyChangedWithin(m, m', r, q);
    OnlyChangedTwice(m0, m, m', r);
    ViewKept(m0, m, r, a);
    ViewKept(m0, m, r, b);
    QuadrantView(m, a, idx / 2, inner);
    QuadrantView(m, b, inner, idx % 2);
    forall k: nat | k < 4
      ensures k != idx ==> Block(View(m', r), r.n / 2, k / 2, k % 2) == Block(View(m, r), r.n / 2, k / 2, k % 2)
      ensures k == idx ==> Block(View(m', r), r.n / 2, k / 2, k % 2) == View(m', q)
    {
      QuadrantView(m, r, k / 2, k % 2);
      QuadrantView(m', r, k / 2, k % 2);
      if k != idx {
        QuadrantsApart(r, k / 2, k % 2, idx / 2, idx % 2);
        ViewKept(m, m', q, Quadrant(r, k / 2, k % 2));
      }
    }
    QuadrantView(m, r, idx / 2, idx % 2);
  }

  /** A block of the whole result is what the two phases put there. */
  lemma MultipliedBlock(was: Matrix, av: Matrix, bv: Matrix, h: nat, row: nat, col: nat, add: bool)
    requires IsSquare(was, 2 * h) && IsSquare(av, 2 * h) && IsSquare(bv, 2 * h) && row < 2 && col < 2
    ensures Block(Multiplied(was, av, bv, 2 * h, add), h, row, col) ==
      Multiplied(Multiplied(Block(was, h, row, col), Block(av, h, row, 0), Block(bv, h, 0, col), h, add),
                 Block(av, h, row, 1), Block(bv, h, 1, col), h, true)
  {
    var l := Block(Multiplied(was, av, bv, 2 * h, add), h, row, col);
    var p0, p1 := Product(Block(av, h, row, 0), Block(bv, h, 0, col), h), Product(Block(av, h, row, 1), Block(bv, h, 1, col), h);
    var first := Multiplied(Block(was, h, row, col), Block(av, h, row, 0), Block(bv, h, 0, col), h, add);
    ProductBlock(av, bv, h, row, col);
    forall i, j | 0 <= i < h && 0 <= j < h ensures l[i][j] == Sum(first, p1, h)[i][j] {
      assert Block(Product(av, bv, 2 * h), h, row, col)[i][j] == p0[i][j] + p1[i][j];
    }
    CellsEqual(l, Sum(first, p1, h), h);
  }

  lemma TwoPhasesMultiply(was: Matrix, mid: Matrix, now: Matrix, av: Matrix, bv: Matrix, h: nat, add: bool)
    requires IsSquare(was, 2 * h) && IsSquare(mid, 2 * h) && IsSquare(now, 2 * h) && IsSquare(av, 2 * h) && IsSquare(bv, 2 * h)
    requires PhaseState(was, av, bv, mid, h, 0, add, {0, 1, 2, 3})
    requires PhaseState(mid, av, bv, now, h, 1, true, {0, 1, 2, 3})
    ensures now == Multiplied(was, av, bv, 2 * h, add)
  {
    var want := Multiplied(was, av, bv, 2 * h, add);
    forall row: nat, col: nat | row < 2 && col < 2 ensures Block(now, h, row, col) == Block(want, h, row, col) {
      MultipliedBlock(was, av, bv, h, row, col, add);
      var idx: nat := 2 * row + col;
      assert idx / 2 == row && idx % 2 == col;
    }
    BlocksEqual(now, want, h);
  }

  // Other sizes: halving drops the odd row and column.

  /** The missed cell of `r` holds what it held. */
  predicate MissedKept(m0: seq<int>, m: seq<int>, r: Sub, cutoff: nat)
    requires Fits(|m0|, r) && |m0| == |m| && !Halves(r.n, cutoff)
  {
    View(m, r)[Missed(r.n, cutoff)][Missed(r.n, cutoff)] == View(m0, r)[Missed(r.n, cutoff)][Missed(r.n, cutoff)]
  }

  /** The missed cell lies in no quadrant, or it is the missed cell of the first one. */
  lemma MissedInQuadrant(r: Sub, row: nat, col: nat, cutoff: nat)
    requires r.n <= r.stride && r.n > cutoff && !Halves(r.n, cutoff) && row < 2 && col < 2
    ensures var p := Missed(r.n, cutoff);
      Inside(Quadrant(r, row, col), At(r, p, p)) ==> r.n % 2 == 0 && row == 0 && col == 0
    ensures r.n % 2 == 0 ==> At(Quadrant(r, 0, 0), Missed(r.n / 2, cutoff), Missed(r.n / 2, cutoff)) == At(r, Missed(r.n, cutoff), Missed(r.n, cutoff))
  {
    var p, q, h := Missed(r.n, cutoff), Quadrant(r, row, col), r.n / 2;
    if r.n % 2 == 0 {
      QuadrantAt(r, 0, 0, p, p);
    }
    if Inside(q, At(r, p, p)) {
      var i: nat, j: nat :| i < q.n && j < q.n && At(q, i, j) == At(r, p, p);
      QuadrantAt(r, row, col, i, j);
      var x, y := Shift(row, h, i), Shift(col, h, j);
      if x != p || y != p {
        Distinct(r, x, y, p, p);
      }
    }
  }

  lemma MissedStep(m0: seq<int>, m: seq<int>, m': seq<int>, r: Sub, row: nat, col: nat, cutoff: nat)
    requires Fits(|m0|, r) && |m0| == |m| && r.n > cutoff && !Halves(r.n, cutoff) && row < 2 && col < 2
    requires MissedKept(m0, m, r, cutoff) && OnlyChanged(m, m', Quadrant(r, row, col)) && Fits(|m|, Quadrant(r, row, col))
    requires !Halves(r.n / 2, cutoff) ==> MissedKept(m, m', Quadrant(r, row, col), cutoff)
    ensures MissedKept(m0, m', r, cutoff)
  {
    var p := Missed(r.n, cutoff);
    MissedInQuadrant(r, row, col, cutoff);
    ViewCell(m, r, p, p);
    ViewCell(m', r, p, p);
    if r.n % 2 == 0 && row == 0 && col == 0 {
      var q := Quadrant(r, 0, 0);
      ViewCell(m, q, Missed(q.n, cutoff), Missed(q.n, cutoff));
      ViewCell(m', q, Missed(q.n, cutoff), Missed(q.n, cutoff));
    }
  }

  /** What the recursion leaves: the product if the size halves evenly to the cutoff, else one cell as it was. */
  predicate Outcome(was: Matrix, a: Matrix, b: Matrix, now: Matrix, n: nat, add: bool, cutoff: nat)
    requires IsSquare(was, n) && IsSquare(a, n) && IsSquare(b, n) && IsSquare(now, n)
  {
    if Halves(n, cutoff) then now == Multiplied(was, a, b, n, add)
    else now[Missed(n, cutoff)][Missed(n, cutoff)] == was[Missed(n, cutoff)][Missed(n, cutoff)]
  }

  /** Four sub-products into the four quadrants of the result, in whatever order the pool runs them. */
  method Phase(mem: array<int>, a: Sub, b: Sub, r: Sub, inner: nat, add: bool, cutoff: nat)
    requires Operands(mem.Length, a, b, r) && r.n > cutoff && inner < 2
    modifies mem
    ensures OnlyChanged(old(mem[..]), mem[..], r)
    ensures Halves(r.n, cutoff) ==>
      PhaseState(old(View(mem[..], r)), old(View(mem[..], a)), old(View(mem[..], b)), View(mem[..], r), r.n / 2, inner, add, {0, 1, 2, 3})
    ensures !Halves(r.n, cutoff) ==> MissedKept(old(mem[..]), mem[..], r, cutoff)
    decreases r.n, 0
  {
    ghost var m0 := mem[..];
    var pending: set<nat> := {0, 1, 2, 3};
    ghost var done: set<nat> := {};
    while pending != {}
      invariant pending + done == {0, 1, 2, 3} && pending !! done
      invariant OnlyChanged(m0, mem[..], r)
      invariant Halves(r.n, cutoff) ==> PhaseState(View(m0, r), View(m0, a), View(m0, b), View(mem[..], r), r.n / 2, inner, add, done)
      invariant !Halves(r.n, cutoff) ==> MissedKept(m0, mem[..], r, cutoff)
      decreases pending
    {
      var idx :| idx in pending;
      OneProduct(mem, a, b, r, inner, add, cutoff, idx, m0, done);
      pending, done := pending - {idx}, done + {idx};
    }
    assert done == {0, 1, 2, 3};
  }

  /** One of the four sub-products. */
  method OneProduct(mem: array<int>, a: Sub, b: Sub, r: Sub, inner: nat, add: bool, cutoff: nat, idx: nat, ghost m0: seq<int>, ghost done: set<nat>)
    requires Operands(mem.Length, a, b, r) && r.n > cutoff && inner < 2 && idx < 4 && idx !in done && OnlyChanged(m0, mem[..], r)
    requires Halves(r.n, cutoff) ==> PhaseState(View(m0, r), View(m0, a), View(m0, b), View(mem[..], r), r.n / 2, inner, add, done)
    requires !Halves(r.n, cutoff) ==> MissedKept(m0, mem[..], r, cutoff)
    modifies mem
    ensures OnlyChanged(m0, mem[..], r)
    ensures Halves(r.n, cutoff) ==> PhaseState(View(m0, r), View(m0, a), View(m0, b), View(mem[..], r), r.n / 2, inner, add, done + {idx})
    ensures !Halves(r.n, cutoff) ==> MissedKept(m0, mem[..], r, cutoff)
    decreases r.n, 0, 0
  {
    ghost var m := mem[..];
    QuadrantOperands(mem.Length, a, b, r, idx / 2, idx % 2, inner);
    MatmulRec(mem, Quadrant(a, idx / 2, inner), Quadrant(b, inner, idx % 2), Quadrant(r, idx / 2, idx % 2), add, cutoff);
    if Halves(r.n, cutoff) {
      PhaseStep(m0, m, mem[..], a, b, r, inner, add, done, idx);
    } else {
      MissedStep(m0, m, mem[..], r, idx / 2, idx % 2, cutoff);
      WithinResult(m0, m, mem[..], r, idx / 2, idx % 2);
    }
  }

  lemma WithinResult(m0: seq<int>, m: seq<int>, m': seq<int>, r: Sub, row: nat, col: nat)
    requires OnlyChanged(m0, m, r) && OnlyChanged(m, m', Quadrant(r, row, col)) && row < 2 && col < 2
    ensures OnlyChanged(m0, m', r)
  {
    QuadrantInside(r, row, col);
    OnlyChangedWithin(m, m', r, Quadrant(r, row, col));
    OnlyChangedTwice(m0, m, m', r);
  }

  /**
   * `r := a * b`, or `r += a * b` when `add`, if the size halves evenly to the cutoff; nothing outside the window of
   * `r` changes. On any other size one cell of the window is never written.
   */
  method MatmulRec(mem: array<int>, a: Sub, b: Sub, r: Sub, add: bool, cutoff: nat)
    requires Operands(mem.Length, a, b, r)
    modifies mem
    ensures Outcome(old(View(mem[..], r)), old(View(mem[..], a)), old(View(mem[..], b)), View(mem[..], r), r.n, add, cutoff)
    ensures OnlyChanged(old(mem[..]), mem[..], r)
    decreases r.n, 1
  {
    if r.n <= cutoff {
      LeafMultiply(mem, r, a, b, add);
      return;
    }
    ghost var m0 := mem[..];
    Phase(mem, a, b, r, 0, add, cutoff);
    ghost var m1 := mem[..];
    ViewKept(m0, m1, r, a);
    ViewKept(m0, m1, r, b);
    Phase(mem, a, b, r, 1, true, cutoff);
    OnlyChangedTwice(m0, m1, mem[..], r);
    if Halves(r.n, cutoff) {
      TwoPhasesMultiply(View(m0, r), View(m1, r), View(mem[..], r), View(m0, a), View(m0, b), r.n / 2, add);
    }
  }

  /** No outcome on these contents is the product. */
  ghost predicate AlwaysWrong(was: Matrix, a: Matrix, b: Matrix, n: nat, add: bool, cutoff: nat) {
    && IsSquare(was, n) && IsSquare(a, n) && IsSquare(b, n)
    && forall now :: IsSquare(now, n) && Outcome(was, a, b, now, n, add, cutoff) ==> now != Multiplied(was, a, b, n, add)
  }

  /** If the size halves evenly to the cutoff every outcome is right; if not, some operands always come out wrong. */
  lemma RightSizes(n: nat, cutoff: nat, add: bool)
    ensures Halves(n, cutoff) ==>
      forall was, a, b, now :: IsSquare(was, n) && IsSquare(a, n) && IsSquare(b, n) && IsSquare(now, n) && Outcome(was, a, b, now, n, add, cutoff) ==>
        now == Multiplied(was, a, b, n, add)
    ensures !Halves(n, cutoff) ==> exists was, a, b :: AlwaysWrong(was, a, b, n, add, cutoff)
  {
    if !Halves(n, cutoff) {
      var p := Missed(n, cutoff);
      var was, one: Matrix := seq(n, i => seq(n, j => 0)), OneAt(n, p);
      OneAtChanges(was, n, p, add);
      assert AlwaysWrong(was, one, one, n, add, cutoff);
    }
  }
}
