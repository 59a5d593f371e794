/** Strassen's seven-product recursion over one flat memory, with its scratch arena. */
module Strassen {
  import opened Matrices
  import opened Buffers

  /** The recursion's tunables: the leaf size, and the depth down to which siblings run concurrently. */
  datatype Tuning = Tuning(cutoff: nat, parallelDepth: nat)

  function ChildCount(depth: nat, t: Tuning): nat {
    if depth < t.parallelDepth then 7 else 1
  }

  /** Scratch cells one call may use: seventeen half-size buffers and its children's slices. */
  function ScratchBudget(n: nat, depth: nat, t: Tuning): nat {
    if n <= t.cutoff then 0
    else 17 * (n / 2 * (n / 2)) + ChildCount(depth, t) * ScratchBudget(n / 2, depth + 1, t)
  }

  /** No cell of the view lies in [lo, hi). */
  predicate Clear(s: Sub, lo: nat, hi: nat) {
    forall i: nat, j: nat :: i < s.n && j < s.n ==> At(s, i, j) < lo || hi <= At(s, i, j)
  }

  /** Only cells of `c` and of [lo, hi) may differ. */
  predicate KeptOutside(m: seq<int>, m': seq<int>, c: Sub, lo: nat, hi: nat) {
    |m| == |m'| && forall p :: 0 <= p < |m| && !Inside(c, p) && !(lo <= p < hi) ==> m'[p] == m[p]
  }

  /** Where the arguments of a call lie: operands and result apart, all clear of the scratch slice. */
  predicate CallOk(size: nat, c: Sub, a: Sub, b: Sub, scratch: nat, depth: nat, t: Tuning) {
    && Operands(size, a, b, c)
    && scratch + ScratchBudget(c.n, depth, t) <= size
    && Clear(a, scratch, scratch + ScratchBudget(c.n, depth, t))
    && Clear(b, scratch, scratch + ScratchBudget(c.n, depth, t))
    && Clear(c, scratch, scratch + ScratchBudget(c.n, depth, t))
  }

  // ---- The layout of one level.

  /** The k-th half-size buffer taken from the scratch arena. */
  function Slot(scratch: nat, h: nat, k: nat): Sub {
    Sub(scratch + k * (h * h), h, h)
  }

  function ChildScratch(scratch: nat, h: nat): nat {
    scratch + 17 * (h * h)
  }

  function ChildSlice(scratch: nat, h: nat, depth: nat, t: Tuning, k: nat): nat {
    ChildScratch(scratch, h) + if depth < t.parallelDepth then k * ScratchBudget(h, depth + 1, t) else 0
  }

  /** The slot holding each left operand; the third and fourth are quadrants read in place. */
  function LeftSlot(k: nat): nat
    requires k < 7
  {
    [7, 9, 0, 0, 12, 13, 15][k]
  }

  function RightSlot(k: nat): nat
    requires k < 7
  {
    [8, 0, 10, 11, 0, 14, 16][k]
  }

  /** The views holding the operands of the k-th product. */
  function LeftView(a: Sub, scratch: nat, k: nat): Sub
    requires k < 7
  {
    if k == 2 then Quadrant(a, 0, 0) else if k == 3 then Quadrant(a, 1, 1) else Slot(scratch, a.n / 2, LeftSlot(k))
  }

  function RightView(b: Sub, scratch: nat, k: nat): Sub
    requires k < 7
  {
    if k == 1 then Quadrant(b, 0, 0) else if k == 4 then Quadrant(b, 1, 1) else Slot(scratch, b.n / 2, RightSlot(k))
  }

  lemma SlotSpan(scratch: nat, h: nat, k: nat)
    ensures forall p :: Inside(Slot(scratch, h, k), p) ==> scratch + k * (h * h) <= p < scratch + k * (h * h) + h * h
  {
    var s := Slot(scratch, h, k);
    forall i: nat, j: nat | i < h && j < h ensures At(s, i, j) < s.off + h * h {
      Later(i, h, h);
    }
  }

  lemma SlotOrder(h: nat, k: nat, l: nat)
    requires k < l
    ensures k * (h * h) + h * h <= l * (h * h)
  {
    Later(k, l, h * h);
  }

  lemma SlotFits(size: nat, scratch: nat, h: nat, k: nat, count: nat)
    requires k < count && scratch + count * (h * h) <= size
    ensures Fits(size, Slot(scratch, h, k))
    ensures Slot(scratch, h, k).off + h * h <= scratch + count * (h * h)
  {
    SlotOrder(h, k, count);
    if h > 0 {
      SlotSpan(scratch, h, k);
      assert Inside(Slot(scratch, h, k), At(Slot(scratch, h, k), h - 1, h - 1));
    }
  }

  lemma SlotsApart(scratch: nat, h: nat, k: nat, l: nat)
    requires k != l
    ensures Apart(Slot(scratch, h, k), Slot(scratch, h, l))
  {
    SlotSpan(scratch, h, k);
    SlotSpan(scratch, h, l);
    if k < l {
      SlotOrder(h, k, l);
    } else {
      SlotOrder(h, l, k);
    }
    forall i: nat, j: nat | i < h && j < h ensures !Inside(Slot(scratch, h, l), At(Slot(scratch, h, k), i, j)) {
      assert Inside(Slot(scratch, h, k), At(Slot(scratch, h, k), i, j));
    }
  }

  /** A view clear of the arena is apart from each of its slots, both ways round. */
  lemma ClearApart(s: Sub, scratch: nat, h: nat, k: nat, hi: nat)
    requires Clear(s, scratch, hi) && k < 17 && scratch + 17 * (h * h) <= hi
    ensures Apart(s, Slot(scratch, h, k)) && Apart(Slot(scratch, h, k), s)
  {
    SlotSpan(scratch, h, k);
    SlotOrder(h, k, 17);
    forall i: nat, j: nat | i < h && j < h ensures !Inside(s, At(Slot(scratch, h, k), i, j)) {
      assert Inside(Slot(scratch, h, k), At(Slot(scratch, h, k), i, j));
    }
  }

  lemma ClearWithin(s: Sub, s': Sub, lo: nat, hi: nat, lo': nat, hi': nat)
    requires Clear(s, lo, hi) && lo <= lo' && hi' <= hi
    requires forall p :: Inside(s', p) ==> Inside(s, p)
    ensures Clear(s', lo', hi')
  {
    forall i: nat, j: nat | i < s'.n && j < s'.n ensures At(s', i, j) < lo' || hi' <= At(s', i, j) {
      assert Inside(s', At(s', i, j));
      var i': nat, j': nat :| i' < s.n && j' < s.n && At(s, i', j') == At(s', i, j);
    }
  }

  lemma SlotClear(scratch: nat, h: nat, k: nat, lo: nat, hi: nat)
    requires k < 17 && ChildScratch(scratch, h) <= lo
    ensures Clear(Slot(scratch, h, k), lo, hi)
  {
    SlotSpan(scratch, h, k);
    SlotOrder(h, k, 17);
    forall i: nat, j: nat | i < h && j < h ensures At(Slot(scratch, h, k), i, j) < lo {
      assert Inside(Slot(scratch, h, k), At(Slot(scratch, h, k), i, j));
    }
  }

  lemma BudgetCovers(n: nat, depth: nat, t: Tuning)
    requires n > t.cutoff
    ensures 17 * (n / 2 * (n / 2)) <= ScratchBudget(n, depth, t)
  {
  }

  /** Each child's slice starts after the level's buffers and ends inside the budget, the last one at its very end. */
  lemma ChildSliceInside(n: nat, scratch: nat, depth: nat, t: Tuning, k: nat)
    requires n > t.cutoff && k < 7
    ensures var h := n / 2;
      ChildScratch(scratch, h) <= ChildSlice(scratch, h, depth, t, k)
      && ChildSlice(scratch, h, depth, t, k) + ScratchBudget(h, depth + 1, t) <= scratch + ScratchBudget(n, depth, t)
      && (k == 6 || depth >= t.parallelDepth ==>
            ChildSlice(scratch, h, depth, t, k) + ScratchBudget(h, depth + 1, t) == scratch + ScratchBudget(n, depth, t))
  {
    if depth < t.parallelDepth {
      Later(k, 7, ScratchBudget(n / 2, depth + 1, t));
    }
  }

  /** Slices of concurrent siblings do not overlap. */
  lemma SiblingSlicesDisjoint(n: nat, scratch: nat, depth: nat, t: Tuning, k: nat, l: nat)
    requires n > t.cutoff && k < l < 7 && depth < t.parallelDepth
    ensures ChildSlice(scratch, n / 2, depth, t, k) + ScratchBudget(n / 2, depth + 1, t) <= ChildSlice(scratch, n / 2, depth, t, l)
  {
    Later(k, l, ScratchBudget(n / 2, depth + 1, t));
  }

  // ---- Stamping out the ten operand temporaries.

  /** Which operand's quadrants an operand temporary combines, and whether it subtracts them. */
  datatype Recipe = Recipe(left: bool, row: nat, col: nat, row': nat, col': nat, subtract: bool)

  /** The operand temporaries in the order they are taken: slots 7 to 16. */
  function RecipeFor(d: nat): (r: Recipe)
    requires 7 <= d < 17
    ensures r.row < 2 && r.col < 2 && r.row' < 2 && r.col' < 2
  {
    if d == 7 then Recipe(true, 0, 0, 1, 1, false)        // A11 + A22
    else if d == 8 then Recipe(false, 0, 0, 1, 1, false)  // B11 + B22
    else if d == 9 then Recipe(true, 1, 0, 1, 1, false)   // A21 + A22
    else if d == 10 then Recipe(false, 0, 1, 1, 1, true)  // B12 - B22
    else if d == 11 then Recipe(false, 1, 0, 0, 0, true)  // B21 - B11
    else if d == 12 then Recipe(true, 0, 0, 0, 1, false)  // A11 + A12
    else if d == 13 then Recipe(true, 1, 0, 0, 0, true)   // A21 - A11
    else if d == 14 then Recipe(false, 0, 0, 0, 1, false) // B11 + B12
    else if d == 15 then Recipe(true, 0, 1, 1, 1, true)   // A12 - A22
    else Recipe(false, 1, 0, 1, 1, false)                 // B21 + B22
  }

  function Part(q: Quad, row: nat, col: nat): Matrix {
    if row == 0 then (if col == 0 then q.p else q.q) else (if col == 0 then q.r else q.s)
  }

  /** The matrix that slot `d` must hold. */
  function Temporary(x: Quad, y: Quad, h: nat, d: nat): (m: Matrix)
    requires QuadOk(x, h) && QuadOk(y, h) && 7 <= d < 17
    ensures IsSquare(m, h)
  {
    var r := RecipeFor(d);
    var q := if r.left then x else y;
    Combined(Part(q, r.row, r.col), Part(q, r.row', r.col'), h, r.subtract)
  }

  function Combined(l: Matrix, r: Matrix, h: nat, subtract: bool): (m: Matrix)
    requires IsSquare(l, h) && IsSquare(r, h)
    ensures IsSquare(m, h)
  {
    if subtract then Difference(l, r, h) else Sum(l, r, h)
  }

  /** Slots 7 to `d` - 1 are stamped and nothing outside the slots 7 to 16 has changed. */
  predicate Stamped(m0: seq<int>, m: seq<int>, x: Quad, y: Quad, scratch: nat, h: nat, d: nat)
    requires QuadOk(x, h) && QuadOk(y, h) && 7 <= d <= 17
  {
    && |m0| == |m| && scratch + 17 * (h * h) <= |m|
    && (forall p :: 0 <= p < |m| && !(scratch + 7 * (h * h) <= p < scratch + 17 * (h * h)) ==> m[p] == m0[p])
    && (forall k :: 7 <= k < d ==> Fits(|m|, Slot(scratch, h, k)) && View(m, Slot(scratch, h, k)) == Temporary(x, y, h, k))
  }

  lemma StampedStep(m0: seq<int>, m: seq<int>, m': seq<int>, x: Quad, y: Quad, scratch: nat, h: nat, d: nat)
    requires QuadOk(x, h) && QuadOk(y, h) && 7 <= d < 17 && Stamped(m0, m, x, y, scratch, h, d)
    requires OnlyChanged(m, m', Slot(scratch, h, d)) && Fits(|m|, Slot(scratch, h, d))
    requires View(m', Slot(scratch, h, d)) == Temporary(x, y, h, d)
    ensures Stamped(m0, m', x, y, scratch, h, d + 1)
  {
    SlotSpan(scratch, h, d);
    if d > 7 {
      SlotOrder(h, 7, d);
    }
    SlotOrder(h, d, 17);
    forall p | 0 <= p < |m'| && !(scratch + 7 * (h * h) <= p < scratch + 17 * (h * h)) ensures m'[p] == m0[p] {
      assert !Inside(Slot(scratch, h, d), p);
    }
    forall k | 7 <= k < d + 1 ensures Fits(|m'|, Slot(scratch, h, k)) && View(m', Slot(scratch, h, k)) == Temporary(x, y, h, k) {
      if k < d {
        SlotsApart(scratch, h, k, d);
        ViewKept(m, m', Slot(scratch, h, d), Slot(scratch, h, k));
      }
    }
  }

  /** While stamping, a quadrant of an operand is readable, unchanged and apart from the slot written. */
  lemma QuadrantReadable(m0: seq<int>, m: seq<int>, s: Sub, row: nat, col: nat, scratch: nat, hi: nat, d: nat)
    requires |m0| == |m| && Fits(|m|, s) && s.n % 2 == 0 && row < 2 && col < 2 && d < 17
    requires Clear(s, scratch, hi) && ChildScratch(scratch, s.n / 2) <= hi <= |m|
    requires forall p :: 0 <= p < |m| && !(scratch <= p < hi) ==> m[p] == m0[p]
    ensures Fits(|m|, Quadrant(s, row, col)) && Apart(Quadrant(s, row, col), Slot(scratch, s.n / 2, d))
    ensures View(m, Quadrant(s, row, col)) == Block(View(m0, s), s.n / 2, row, col)
  {
    var q := Quadrant(s, row, col);
    QuadrantView(m0, s, row, col);
    QuadrantInside(s, row, col);
    ClearWithin(s, q, scratch, hi, scratch, hi);
    ClearApart(q, scratch, s.n / 2, d, hi);
    ViewClear(m0, m, q, scratch, hi);
  }

  lemma ViewClear(m0: seq<int>, m: seq<int>, s: Sub, lo: nat, hi: nat)
    requires |m0| == |m| && Fits(|m|, s) && Clear(s, lo, hi)
    requires forall p :: 0 <= p < |m| && !(lo <= p < hi) ==> m[p] == m0[p]
    ensures View(m, s) == View(m0, s)
  {
    forall i, j | 0 <= i < s.n && 0 <= j < s.n ensures View(m, s)[i][j] == View(m0, s)[i][j] {
      ViewCell(m, s, i, j);
      ViewCell(m0, s, i, j);
    }
    CellsEqual(View(m, s), View(m0, s), s.n);
  }

  /** Both operands are readable and clear of the arena that holds the level's buffers. */
  predicate StampReady(size: nat, a: Sub, b: Sub, scratch: nat, hi: nat) {
    && a.n == b.n && a.n % 2 == 0 && Fits(size, a) && Fits(size, b)
    && Clear(a, scratch, hi) && Clear(b, scratch, hi) && ChildScratch(scratch, a.n / 2) <= hi <= size
  }

  /** `dst` gets the sum (or difference) of two other views. */
  method CombineInto(mem: array<int>, dst: Sub, l: Sub, r: Sub, subtract: bool)
    requires Fits(mem.Length, dst) && Fits(mem.Length, l) && Fits(mem.Length, r)
    requires dst.n == l.n == r.n && Apart(l, dst) && Apart(r, dst)
    modifies mem
    ensures View(mem[..], dst) == Combined(old(View(mem[..], l)), old(View(mem[..], r)), dst.n, subtract)
    ensures OnlyChanged(old(mem[..]), mem[..], dst)
  {
    if subtract {
      SubInto(mem, dst, l, r);
    } else {
      AddInto(mem, dst, l, r);
    }
  }

  lemma PartIsBlock(a: Matrix, h: nat, row: nat, col: nat)
    requires IsSquare(a, 2 * h) && row < 2 && col < 2
    ensures Part(Split(a, h), row, col) == Block(a, h, row, col)
  {
  }

  /** Fills slot `d` from two quadrants of one operand. */
  method StampFrom(mem: array<int>, s: Sub, r: Recipe, d: nat, scratch: nat, ghost hi: nat, ghost m0: seq<int>, ghost x: Quad, ghost y: Quad)
    requires s.n % 2 == 0 && Fits(mem.Length, s) && Clear(s, scratch, hi) && ChildScratch(scratch, s.n / 2) <= hi <= mem.Length
    requires r.row < 2 && r.col < 2 && r.row' < 2 && r.col' < 2 && 7 <= d < 17
    requires QuadOk(x, s.n / 2) && QuadOk(y, s.n / 2) && Stamped(m0, mem[..], x, y, scratch, s.n / 2, d)
    requires Temporary(x, y, s.n / 2, d) ==
      Combined(Block(View(m0, s), s.n / 2, r.row, r.col), Block(View(m0, s), s.n / 2, r.row', r.col'), s.n / 2, r.subtract)
    modifies mem
    ensures Stamped(m0, mem[..], x, y, scratch, s.n / 2, d + 1)
  {
    var h := s.n / 2;
    ghost var m := mem[..];
    SlotFits(mem.Length, scratch, h, d, 17);
    QuadrantReadable(m0, m, s, r.row, r.col, scratch, hi, d);
    QuadrantReadable(m0, m, s, r.row', r.col', scratch, hi, d);
    CombineInto(mem, Slot(scratch, h, d), Quadrant(s, r.row, r.col), Quadrant(s, r.row', r.col'), r.subtract);
    StampedStep(m0, m, mem[..], x, y, scratch, h, d);
  }

  method Stamp(mem: array<int>, a: Sub, b: Sub, d: nat, scratch: nat, ghost hi: nat, ghost m0: seq<int>, ghost x: Quad, ghost y: Quad)
    requires 7 <= d < 17 && StampReady(mem.Length, a, b, scratch, hi) && |m0| == mem.Length
    requires x == Split(View(m0, a), a.n / 2) && y == Split(View(m0, b), a.n / 2)
    requires Stamped(m0, mem[..], x, y, scratch, a.n / 2, d)
    modifies mem
    ensures Stamped(m0, mem[..], x, y, scratch, a.n / 2, d + 1)
  {
    var r := RecipeFor(d);
    var s := if r.left then a else b;
    PartIsBlock(View(m0, s), s.n / 2, r.row, r.col);
    PartIsBlock(View(m0, s), s.n / 2, r.row', r.col');
    StampFrom(mem, s, r, d, scratch, hi, m0, x, y);
  }

  method StampOperands(mem: array<int>, a: Sub, b: Sub, scratch: nat, ghost hi: nat)
    requires StampReady(mem.Length, a, b, scratch, hi)
    modifies mem
    ensures Stamped(old(mem[..]), mem[..], Split(old(View(mem[..], a)), a.n / 2), Split(old(View(mem[..], b)), a.n / 2), scratch, a.n / 2, 17)
  {
    ghost var m0 := mem[..];
    ghost var x, y := Split(View(m0, a), a.n / 2), Split(View(m0, b), a.n / 2);
    for d := 7 to 17
      invariant Stamped(m0, mem[..], x, y, scratch, a.n / 2, d)
    {
      Stamp(mem, a, b, d, scratch, hi, m0, x, y);
    }
  }

  lemma TemporariesAreOperands(x: Quad, y: Quad, h: nat, k: nat)
    requires QuadOk(x, h) && QuadOk(y, h) && k < 7
    ensures LeftOperands(x, h)[k] == if k == 2 then x.p else if k == 3 then x.s else Temporary(x, y, h, LeftSlot(k))
    ensures RightOperands(y, h)[k] == if k == 1 then y.p else if k == 4 then y.s else Temporary(x, y, h, RightSlot(k))
  {
  }

  /** The views the recursion will read hold the operands of the seven products. */
  lemma LeftStamped(m0: seq<int>, m: seq<int>, a: Sub, b: Sub, x: Quad, y: Quad, scratch: nat, hi: nat, k: nat)
    requires StampReady(|m|, a, b, scratch, hi) && |m0| == |m| && k < 7
    requires x == Split(View(m0, a), a.n / 2) && y == Split(View(m0, b), a.n / 2)
    requires Stamped(m0, m, x, y, scratch, a.n / 2, 17)
    ensures Fits(|m|, LeftView(a, scratch, k)) && View(m, LeftView(a, scratch, k)) == LeftOperands(x, a.n / 2)[k]
  {
    if k == 2 {
      QuadrantReadable(m0, m, a, 0, 0, scratch, hi, 0);
    } else if k == 3 {
      QuadrantReadable(m0, m, a, 1, 1, scratch, hi, 0);
    } else {
      TemporariesAreOperands(x, y, a.n / 2, k);
    }
  }

  lemma RightStamped(m0: seq<int>, m: seq<int>, a: Sub, b: Sub, x: Quad, y: Quad, scratch: nat, hi: nat, k: nat)
    requires StampReady(|m|, a, b, scratch, hi) && |m0| == |m| && k < 7
    requires x == Split(View(m0, a), a.n / 2) && y == Split(View(m0, b), a.n / 2)
    requires Stamped(m0, m, x, y, scratch, a.n / 2, 17)
    ensures Fits(|m|, RightView(b, scratch, k)) && View(m, RightView(b, scratch, k)) == RightOperands(y, a.n / 2)[k]
  {
    if k == 1 {
      QuadrantReadable(m0, m, b, 0, 0, scratch, hi, 0);
    } else if k == 4 {
      QuadrantReadable(m0, m, b, 1, 1, scratch, hi, 0);
    } else {
      TemporariesAreOperands(x, y, a.n / 2, k);
    }
  }

  // ---- The seven sub-products.

  /** Products in `done` are in their buffers; only the product buffers and the child slices have changed. */
  predicate Multiplying(m1: seq<int>, m: seq<int>, l: seq<Matrix>, r: seq<Matrix>, scratch: nat, h: nat, hi: nat, done: set<nat>)
    requires |l| == |r| == 7 && forall k :: 0 <= k < 7 ==> IsSquare(l[k], h) && IsSquare(r[k], h)
  {
    && |m1| == |m| && ChildScratch(scratch, h) <= hi <= |m|
    && (forall p :: 0 <= p < |m| && !(scratch <= p < scratch + 7 * (h * h)) && !(ChildScratch(scratch, h) <= p < hi) ==> m[p] == m1[p])
    && (forall k :: k in done && k < 7 ==> Fits(|m|, Slot(scratch, h, k)) && View(m, Slot(scratch, h, k)) == Product(l[k], r[k], h))
  }

  lemma NotInSlot(scratch: nat, h: nat, k: nat, p: int)
    requires k < 7 && !(scratch <= p < scratch + 7 * (h * h))
    ensures !Inside(Slot(scratch, h, k), p)
  {
    SlotSpan(scratch, h, k);
    SlotOrder(h, k, 7);
  }

  lemma SlotKept(m: seq<int>, m': seq<int>, scratch: nat, h: nat, k: nat, q: nat, lo': nat, hi': nat)
    requires k < 7 && q < 7 && q != k && ChildScratch(scratch, h) <= lo'
    requires KeptOutside(m, m', Slot(scratch, h, k), lo', hi') && Fits(|m|, Slot(scratch, h, q))
    ensures View(m', Slot(scratch, h, q)) == View(m, Slot(scratch, h, q))
  {
    SlotsApart(scratch, h, q, k);
    SlotClear(scratch, h, q, lo', hi');
    ViewKeptOutside(m, m', Slot(scratch, h, k), lo', hi', Slot(scratch, h, q));
  }

  lemma MultiplyingStep(m1: seq<int>, m: seq<int>, m': seq<int>, l: seq<Matrix>, r: seq<Matrix>, scratch: nat, h: nat, hi: nat,
                        done: set<nat>, k: nat, lo': nat, hi': nat)
    requires |l| == |r| == 7 && forall k :: 0 <= k < 7 ==> IsSquare(l[k], h) && IsSquare(r[k], h)
    requires Multiplying(m1, m, l, r, scratch, h, hi, done) && k < 7
    requires ChildScratch(scratch, h) <= lo' <= hi' <= hi && KeptOutside(m, m', Slot(scratch, h, k), lo', hi')
    requires Fits(|m|, Slot(scratch, h, k)) && View(m', Slot(scratch, h, k)) == Product(l[k], r[k], h)
    ensures Multiplying(m1, m', l, r, scratch, h, hi, done + {k})
  {
    forall p | 0 <= p < |m'| && !(scratch <= p < scratch + 7 * (h * h)) && !(ChildScratch(scratch, h) <= p < hi) ensures m'[p] == m1[p] {
      NotInSlot(scratch, h, k, p);
    }
    forall q | q in done + {k} && q < 7 ensures Fits(|m'|, Slot(scratch, h, q)) && View(m', Slot(scratch, h, q)) == Product(l[q], r[q], h) {
      if q != k {
        SlotKept(m, m', scratch, h, k, q, lo', hi');
      }
    }
  }

  /** With no product to vouch for, a sub-product only keeps the frame. */
  lemma MultiplyingFrame(m1: seq<int>, m: seq<int>, m': seq<int>, l: seq<Matrix>, r: seq<Matrix>, scratch: nat, h: nat, hi: nat,
                         k: nat, lo': nat, hi': nat)
    requires |l| == |r| == 7 && forall k :: 0 <= k < 7 ==> IsSquare(l[k], h) && IsSquare(r[k], h)
    requires Multiplying(m1, m, l, r, scratch, h, hi, {}) && k < 7
    requires ChildScratch(scratch, h) <= lo' <= hi' <= hi && KeptOutside(m, m', Slot(scratch, h, k), lo', hi')
    ensures Multiplying(m1, m', l, r, scratch, h, hi, {})
  {
    forall p | 0 <= p < |m'| && !(scratch <= p < scratch + 7 * (h * h)) && !(ChildScratch(scratch, h) <= p < hi) ensures m'[p] == m1[p] {
      NotInSlot(scratch, h, k, p);
    }
  }

  lemma ViewKeptOutside(m: seq<int>, m': seq<int>, c: Sub, lo: nat, hi: nat, s: Sub)
    requires KeptOutside(m, m', c, lo, hi) && Fits(|m|, s) && Apart(s, c) && Clear(s, lo, hi)
    ensures View(m', s) == View(m, s)
  {
    forall i, j | 0 <= i < s.n && 0 <= j < s.n ensures View(m', s)[i][j] == View(m, s)[i][j] {
      ViewCell(m, s, i, j);
      ViewCell(m', s, i, j);
    }
    CellsEqual(View(m', s), View(m, s), s.n);
  }

  lemma TemporaryKept(m1: seq<int>, m: seq<int>, l: seq<Matrix>, r: seq<Matrix>, scratch: nat, h: nat, hi: nat, done: set<nat>, d: nat)
    requires |l| == |r| == 7 && forall k :: 0 <= k < 7 ==> IsSquare(l[k], h) && IsSquare(r[k], h)
    requires Multiplying(m1, m, l, r, scratch, h, hi, done) && 7 <= d < 17
    ensures Fits(|m|, Slot(scratch, h, d)) && View(m, Slot(scratch, h, d)) == View(m1, Slot(scratch, h, d))
  {
    var s := Slot(scratch, h, d);
    SlotFits(|m|, scratch, h, d, 17);
    SlotSpan(scratch, h, d);
    if d > 7 {
      SlotOrder(h, 7, d);
    }
    SlotOrder(h, d, 17);
    forall i, j | 0 <= i < h && 0 <= j < h ensures View(m, s)[i][j] == View(m1, s)[i][j] {
      ViewCell(m, s, i, j);
      ViewCell(m1, s, i, j);
      assert Inside(s, At(s, i, j));
    }
    CellsEqual(View(m, s), View(m1, s), h);
  }

  lemma QuadrantKept(m1: seq<int>, m: seq<int>, l: seq<Matrix>, r: seq<Matrix>, scratch: nat, s: Sub, row: nat, col: nat, hi: nat, done: set<nat>)
    requires |l| == |r| == 7 && forall k :: 0 <= k < 7 ==> IsSquare(l[k], s.n / 2) && IsSquare(r[k], s.n / 2)
    requires Multiplying(m1, m, l, r, scratch, s.n / 2, hi, done)
    requires Fits(|m|, s) && Clear(s, scratch, hi) && row < 2 && col < 2
    ensures Fits(|m|, Quadrant(s, row, col)) && View(m, Quadrant(s, row, col)) == View(m1, Quadrant(s, row, col))
  {
    QuadrantFits(|m|, s, row, col);
    QuadrantInside(s, row, col);
    ClearWithin(s, Quadrant(s, row, col), scratch, hi, scratch, hi);
    ViewClear(m1, m, Quadrant(s, row, col), scratch, hi);
  }

  /** No sub-product disturbs an operand that a later one still has to read. */
  lemma OperandsStillThere(m1: seq<int>, m: seq<int>, l: seq<Matrix>, r: seq<Matrix>, a: Sub, b: Sub, scratch: nat, hi: nat, done: set<nat>, k: nat)
    requires |l| == |r| == 7 && forall k :: 0 <= k < 7 ==> IsSquare(l[k], a.n / 2) && IsSquare(r[k], a.n / 2)
    requires Multiplying(m1, m, l, r, scratch, a.n / 2, hi, done) && k < 7 && a.n == b.n
    requires Fits(|m|, a) && Fits(|m|, b) && Clear(a, scratch, hi) && Clear(b, scratch, hi)
    ensures Fits(|m|, LeftView(a, scratch, k)) && View(m, LeftView(a, scratch, k)) == View(m1, LeftView(a, scratch, k))
    ensures Fits(|m|, RightView(b, scratch, k)) && View(m, RightView(b, scratch, k)) == View(m1, RightView(b, scratch, k))
  {
    if k == 2 {
      QuadrantKept(m1, m, l, r, scratch, a, 0, 0, hi, done);
    } else if k == 3 {
      QuadrantKept(m1, m, l, r, scratch, a, 1, 1, hi, done);
    } else {
      TemporaryKept(m1, m, l, r, scratch, a.n / 2, hi, done, LeftSlot(k));
    }
    if k == 1 {
      QuadrantKept(m1, m, l, r, scratch, b, 0, 0, hi, done);
    } else if k == 4 {
      QuadrantKept(m1, m, l, r, scratch, b, 1, 1, hi, done);
    } else {
      TemporaryKept(m1, m, l, r, scratch, a.n / 2, hi, done, RightSlot(k));
    }
  }

  /** A quadrant of a clear view meets a child's needs: apart from its buffer, clear of its slice. */
  lemma QuadrantForChild(size: nat, s: Sub, row: nat, col: nat, scratch: nat, hi: nat, k: nat, lo': nat, hi': nat)
    requires Fits(size, s) && row < 2 && col < 2 && k < 7
    requires Clear(s, scratch, hi) && ChildScratch(scratch, s.n / 2) <= lo' && hi' <= hi && ChildScratch(scratch, s.n / 2) <= hi
    ensures Fits(size, Quadrant(s, row, col)) && Apart(Quadrant(s, row, col), Slot(scratch, s.n / 2, k))
    ensures Clear(Quadrant(s, row, col), lo', hi')
  {
    QuadrantFits(size, s, row, col);
    QuadrantInside(s, row, col);
    ClearWithin(s, Quadrant(s, row, col), scratch, hi, scratch, hi);
    ClearWithin(s, Quadrant(s, row, col), scratch, hi, lo', hi');
    ClearApart(Quadrant(s, row, col), scratch, s.n / 2, k, hi);
  }

  lemma SlotForChild(size: nat, scratch: nat, h: nat, d: nat, k: nat, lo': nat, hi': nat)
    requires 7 <= d < 17 && k < 7 && ChildScratch(scratch, h) <= lo' && ChildScratch(scratch, h) <= size
    ensures Fits(size, Slot(scratch, h, d)) && Apart(Slot(scratch, h, d), Slot(scratch, h, k)) && Clear(Slot(scratch, h, d), lo', hi')
  {
    SlotFits(size, scratch, h, d, 17);
    SlotsApart(scratch, h, d, k);
    SlotClear(scratch, h, d, lo', hi');
  }

  lemma LeftForChild(size: nat, a: Sub, scratch: nat, hi: nat, k: nat, lo': nat, hi': nat)
    requires Fits(size, a) && k < 7 && Clear(a, scratch, hi) && ChildScratch(scratch, a.n / 2) <= lo' <= hi' <= hi <= size
    ensures Fits(size, LeftView(a, scratch, k)) && Apart(LeftView(a, scratch, k), Slot(scratch, a.n / 2, k)) && Clear(LeftView(a, scratch, k), lo', hi')
  {
    if k == 2 {
      QuadrantForChild(size, a, 0, 0, scratch, hi, k, lo', hi');
    } else if k == 3 {
      QuadrantForChild(size, a, 1, 1, scratch, hi, k, lo', hi');
    } else {
      SlotForChild(size, scratch, a.n / 2, LeftSlot(k), k, lo', hi');
    }
  }

  lemma RightForChild(size: nat, b: Sub, scratch: nat, hi: nat, k: nat, lo': nat, hi': nat)
    requires Fits(size, b) && k < 7 && Clear(b, scratch, hi) && ChildScratch(scratch, b.n / 2) <= lo' <= hi' <= hi <= size
    ensures Fits(size, RightView(b, scratch, k)) && Apart(RightView(b, scratch, k), Slot(scratch, b.n / 2, k)) && Clear(RightView(b, scratch, k), lo', hi')
  {
    if k == 1 {
      QuadrantForChild(size, b, 0, 0, scratch, hi, k, lo', hi');
    } else if k == 4 {
      QuadrantForChild(size, b, 1, 1, scratch, hi, k, lo', hi');
    } else {
      SlotForChild(size, scratch, b.n / 2, RightSlot(k), k, lo', hi');
    }
  }

  /** The leading window of even size. One level works on it alone: its quadrants are those of the whole view. */
  function Lead(s: Sub): Sub {
    Sub(s.off, s.stride, s.n / 2 * 2)
  }

  lemma LeadInside(size: nat, s: Sub)
    requires Fits(size, s)
    ensures Fits(size, Lead(s)) && forall p :: Inside(Lead(s), p) ==> Inside(s, p)
    ensures forall row: nat, col: nat :: Quadrant(Lead(s), row, col) == Quadrant(s, row, col)
  {
    if Lead(s).n > 0 {
      InBounds(size, s, Lead(s).n - 1, Lead(s).n - 1);
    }
    forall p | Inside(Lead(s), p) ensures Inside(s, p) {
      var i: nat, j: nat :| i < Lead(s).n && j < Lead(s).n && At(Lead(s), i, j) == p;
      assert At(s, i, j) == p;
    }
  }

  /** The leading windows of a call of size n, above the cutoff. */
  predicate LevelOk(size: nat, n: nat, c: Sub, a: Sub, b: Sub, scratch: nat, depth: nat, t: Tuning) {
    && n > t.cutoff && c.n == n / 2 * 2 && Operands(size, a, b, c)
    && scratch + ScratchBudget(n, depth, t) <= size
    && Clear(a, scratch, scratch + ScratchBudget(n, depth, t))
    && Clear(b, scratch, scratch + ScratchBudget(n, depth, t))
    && Clear(c, scratch, scratch + ScratchBudget(n, depth, t))
  }

  lemma LeadsOk(size: nat, c: Sub, a: Sub, b: Sub, scratch: nat, depth: nat, t: Tuning)
    requires CallOk(size, c, a, b, scratch, depth, t) && c.n > t.cutoff
    ensures LevelOk(size, c.n, Lead(c), Lead(a), Lead(b), scratch, depth, t)
  {
    var hi := scratch + ScratchBudget(c.n, depth, t);
    LeadInside(size, a);
    LeadInside(size, b);
    LeadInside(size, c);
    ApartWithin(a, c, Lead(a), Lead(c));
    ApartWithin(b, c, Lead(b), Lead(c));
    ClearWithin(a, Lead(a), scratch, hi, scratch, hi);
    ClearWithin(b, Lead(b), scratch, hi, scratch, hi);
    ClearWithin(c, Lead(c), scratch, hi, scratch, hi);
  }

  /** Every child call meets the recursion's own demands. */
  lemma ChildCallOk(size: nat, n: nat, c: Sub, a: Sub, b: Sub, scratch: nat, depth: nat, t: Tuning, k: nat)
    requires LevelOk(size, n, c, a, b, scratch, depth, t) && k < 7
    ensures CallOk(size, Slot(scratch, n / 2, k), LeftView(a, scratch, k), RightView(b, scratch, k),
                   ChildSlice(scratch, n / 2, depth, t, k), depth + 1, t)
  {
    var h, hi := n / 2, scratch + ScratchBudget(n, depth, t);
    var lo' := ChildSlice(scratch, h, depth, t, k);
    var hi' := lo' + ScratchBudget(h, depth + 1, t);
    ChildSliceInside(n, scratch, depth, t, k);
    LeftForChild(size, a, scratch, hi, k, lo', hi');
    RightForChild(size, b, scratch, hi, k, lo', hi');
    SlotFits(size, scratch, h, k, 17);
    SlotClear(scratch, h, k, lo', hi');
  }

  // ---- Sizes that do not halve evenly: cells nobody writes.

  function Peek(m: seq<int>, p: nat): int {
    if p < |m| then m[p] else 0
  }

  /** The missed cells of all product buffers of a call of size n, on all its levels, are zero. */
  predicate Blank(m: seq<int>, n: nat, scratch: nat, depth: nat, t: Tuning)
    decreases n
  {
    n > t.cutoff && !Halves(n / 2, t.cutoff) ==>
      forall k: nat :: k < 7 ==> BlankSlot(m, scratch, n / 2, k, t) && Blank(m, n / 2, ChildSlice(scratch, n / 2, depth, t, k), depth + 1, t)
  }

  /** The cell of the k-th product buffer that no leaf writes. */
  function MissedAt(scratch: nat, h: nat, k: nat, t: Tuning): nat
    requires !Halves(h, t.cutoff)
  {
    At(Slot(scratch, h, k), Missed(h, t.cutoff), Missed(h, t.cutoff))
  }

  predicate BlankSlot(m: seq<int>, scratch: nat, h: nat, k: nat, t: Tuning)
    requires !Halves(h, t.cutoff)
  {
    Peek(m, MissedAt(scratch, h, k, t)) == 0
  }

  lemma MissedInSlot(scratch: nat, h: nat, k: nat, t: Tuning)
    requires !Halves(h, t.cutoff) && k < 7
    ensures Inside(Slot(scratch, h, k), MissedAt(scratch, h, k, t))
    ensures scratch <= MissedAt(scratch, h, k, t) < scratch + 7 * (h * h) && scratch + 7 * (h * h) <= ChildScratch(scratch, h)
  {
    MissedInside(scratch, h, k, t);
    SlotSpan(scratch, h, k);
    SlotOrder(h, k, 7);
    Between(scratch, k * (h * h), h * h, MissedAt(scratch, h, k, t));
  }

  lemma MissedInside(scratch: nat, h: nat, k: nat, t: Tuning)
    requires !Halves(h, t.cutoff)
    ensures Inside(Slot(scratch, h, k), MissedAt(scratch, h, k, t))
  {
  }

  lemma Between(lo: nat, off: nat, size: nat, q: int)
    requires lo + off <= q < lo + off + size && off + size <= 7 * size
    ensures lo <= q < lo + 7 * size <= lo + 17 * size
  {
  }

  lemma PeekLocal(m: seq<int>, m': seq<int>, q: nat, lo: nat, hi: nat)
    requires lo <= q < hi && SameOn(m, m', lo, hi)
    ensures Peek(m', q) == Peek(m, q)
  {
  }

  lemma SlotLocal(m: seq<int>, m': seq<int>, scratch: nat, h: nat, k: nat, t: Tuning)
    requires !Halves(h, t.cutoff) && k < 7 && BlankSlot(m, scratch, h, k, t) && SameOn(m, m', scratch, scratch + 7 * (h * h))
    ensures BlankSlot(m', scratch, h, k, t)
  {
    MissedInSlot(scratch, h, k, t);
    PeekLocal(m, m', MissedAt(scratch, h, k, t), scratch, scratch + 7 * (h * h));
  }

  predicate SameOn(m: seq<int>, m': seq<int>, lo: nat, hi: nat) {
    |m| == |m'| && forall p :: lo <= p < hi && p < |m| ==> m'[p] == m[p]
  }

  lemma SameWithin(m: seq<int>, m': seq<int>, lo: nat, hi: nat, lo': nat, hi': nat)
    requires SameOn(m, m', lo, hi) && lo <= lo' && hi' <= hi
    ensures SameOn(m, m', lo', hi')
  {
  }

  lemma ChildKept(m: seq<int>, m': seq<int>, n: nat, scratch: nat, depth: nat, t: Tuning, k: nat)
    requires n > t.cutoff && k < 7 && SameOn(m, m', scratch, scratch + ScratchBudget(n, depth, t))
    ensures SameOn(m, m', scratch, scratch + 7 * (n / 2 * (n / 2)))
    ensures SameOn(m, m', ChildSlice(scratch, n / 2, depth, t, k), ChildSlice(scratch, n / 2, depth, t, k) + ScratchBudget(n / 2, depth + 1, t))
  {
    var lo, hi, lo' := scratch, scratch + ScratchBudget(n, depth, t), ChildSlice(scratch, n / 2, depth, t, k);
    assert lo <= lo' && lo' + ScratchBudget(n / 2, depth + 1, t) <= hi by {
      ChildSliceInside(n, scratch, depth, t, k);
    }
    assert lo + 7 * (n / 2 * (n / 2)) <= hi by {
      BudgetCovers(n, depth, t);
      SevenOfSeventeen(n / 2 * (n / 2), ScratchBudget(n, depth, t));
    }
    SameWithin(m, m', lo, hi, lo, lo + 7 * (n / 2 * (n / 2)));
    SameWithin(m, m', lo, hi, lo', lo' + ScratchBudget(n / 2, depth + 1, t));
  }

  lemma SevenOfSeventeen(size: nat, budget: nat)
    requires 17 * size <= budget
    ensures 7 * size <= budget
  {
  }

  /** Blankness depends on the call's own slice only. */
  lemma {:induction false} BlankLocal(m: seq<int>, m': seq<int>, n: nat, scratch: nat, depth: nat, t: Tuning)
    requires Blank(m, n, scratch, depth, t) && SameOn(m, m', scratch, scratch + ScratchBudget(n, depth, t))
    ensures Blank(m', n, scratch, depth, t)
    decreases n
  {
    var h := n / 2;
    if n > t.cutoff && !Halves(h, t.cutoff) {
      forall k: nat | k < 7 ensures BlankSlot(m', scratch, h, k, t) && Blank(m', h, ChildSlice(scratch, h, depth, t, k), depth + 1, t) {
        ChildKept(m, m', n, scratch, depth, t, k);
        SlotLocal(m, m', scratch, h, k, t);
        BlankLocal(m, m', h, ChildSlice(scratch, h, depth, t, k), depth + 1, t);
      }
    }
  }

  /** Stamping the operands touches no product buffer and no child slice. */
  lemma BlankStamped(m: seq<int>, m': seq<int>, n: nat, scratch: nat, depth: nat, t: Tuning)
    requires |m| == |m'| && Blank(m, n, scratch, depth, t)
    requires forall p :: 0 <= p < |m| && !(scratch + 7 * (n / 2 * (n / 2)) <= p < scratch + 17 * (n / 2 * (n / 2))) ==> m'[p] == m[p]
    ensures Blank(m', n, scratch, depth, t)
  {
    var h := n / 2;
    if n > t.cutoff && !Halves(h, t.cutoff) {
      forall k: nat | k < 7 ensures BlankSlot(m', scratch, h, k, t) && Blank(m', h, ChildSlice(scratch, h, depth, t, k), depth + 1, t) {
        SlotLocal(m, m', scratch, h, k, t);
        ChildSliceInside(n, scratch, depth, t, k);
        BlankLocal(m, m', h, ChildSlice(scratch, h, depth, t, k), depth + 1, t);
      }
    }
  }

  /** A sub-product that leaves its own missed cells blank leaves those of the whole level blank. */
  lemma BlankAfterChild(m: seq<int>, m': seq<int>, n: nat, scratch: nat, depth: nat, t: Tuning, k: nat)
    requires n > t.cutoff && !Halves(n / 2, t.cutoff) && k < 7 && Blank(m, n, scratch, depth, t)
    requires KeptOutside(m, m', Slot(scratch, n / 2, k), ChildSlice(scratch, n / 2, depth, t, k),
                         ChildSlice(scratch, n / 2, depth, t, k) + ScratchBudget(n / 2, depth + 1, t))
    requires BlankSlot(m', scratch, n / 2, k, t) && Blank(m', n / 2, ChildSlice(scratch, n / 2, depth, t, k), depth + 1, t)
    ensures Blank(m', n, scratch, depth, t)
  {
    var h := n / 2;
    forall q: nat | q < 7 ensures BlankSlot(m', scratch, h, q, t) && Blank(m', h, ChildSlice(scratch, h, depth, t, q), depth + 1, t) {
      assert BlankSlot(m, scratch, h, q, t);
      if q != k {
        OtherSlotBlank(m, m', n, scratch, depth, t, k, q);
        OtherSliceBlank(m, m', n, scratch, depth, t, k, q);
      }
    }
  }

  lemma OtherSlotBlank(m: seq<int>, m': seq<int>, n: nat, scratch: nat, depth: nat, t: Tuning, k: nat, q: nat)
    requires n > t.cutoff && !Halves(n / 2, t.cutoff) && k < 7 && q < 7 && q != k && BlankSlot(m, scratch, n / 2, q, t)
    requires KeptOutside(m, m', Slot(scratch, n / 2, k), ChildSlice(scratch, n / 2, depth, t, k),
                         ChildSlice(scratch, n / 2, depth, t, k) + ScratchBudget(n / 2, depth + 1, t))
    ensures BlankSlot(m', scratch, n / 2, q, t)
  {
    var h := n / 2;
    MissedInSlot(scratch, h, q, t);
    ChildSliceInside(n, scratch, depth, t, k);
    SlotsApart(scratch, h, q, k);
    PeekLocal(m, m', MissedAt(scratch, h, q, t), MissedAt(scratch, h, q, t), MissedAt(scratch, h, q, t) + 1);
  }

  lemma OtherSliceBlank(m: seq<int>, m': seq<int>, n: nat, scratch: nat, depth: nat, t: Tuning, k: nat, q: nat)
    requires n > t.cutoff && !Halves(n / 2, t.cutoff) && k < 7 && q < 7 && q != k
    requires Blank(m, n / 2, ChildSlice(scratch, n / 2, depth, t, q), depth + 1, t)
    requires KeptOutside(m, m', Slot(scratch, n / 2, k), ChildSlice(scratch, n / 2, depth, t, k),
                         ChildSlice(scratch, n / 2, depth, t, k) + ScratchBudget(n / 2, depth + 1, t))
    requires Blank(m', n / 2, ChildSlice(scratch, n / 2, depth, t, k), depth + 1, t)
    ensures Blank(m', n / 2, ChildSlice(scratch, n / 2, depth, t, q), depth + 1, t)
  {
    var h := n / 2;
    if depth < t.parallelDepth {
      if k < q {
        SiblingSlicesDisjoint(n, scratch, depth, t, k, q);
      } else {
        SiblingSlicesDisjoint(n, scratch, depth, t, q, k);
      }
      SlotSpan(scratch, h, k);
      SlotOrder(h, k, 17);
      ChildSliceInside(n, scratch, depth, t, q);
      BlankLocal(m, m', h, ChildSlice(scratch, h, depth, t, q), depth + 1, t);
    }
  }

  // ---- Recombination into the output quadrants.

  /** Only `c` has changed since the products were finished, and they are still in their buffers. */
  predicate Combining(m2: seq<int>, m: seq<int>, c: Sub, scratch: nat, p: seq<Matrix>)
    requires |p| == 7
  {
    && Fits(|m|, c) && OnlyChanged(m2, m, c) && ChildScratch(scratch, c.n / 2) <= |m|
    && Clear(c, scratch, ChildScratch(scratch, c.n / 2))
    && forall k :: 0 <= k < 7 ==> Fits(|m|, Slot(scratch, c.n / 2, k)) && View(m, Slot(scratch, c.n / 2, k)) == p[k]
  }

  /** What an elementwise kernel did to one quadrant of `c` leaves everything else as it was. */
  lemma CombiningStep(m2: seq<int>, m: seq<int>, m': seq<int>, c: Sub, row: nat, col: nat, scratch: nat, p: seq<Matrix>)
    requires |p| == 7 && Combining(m2, m, c, scratch, p) && row < 2 && col < 2 && OnlyChanged(m, m', Quadrant(c, row, col))
    ensures Combining(m2, m', c, scratch, p)
    ensures forall row': nat, col': nat :: row' < 2 && col' < 2 && (row' != row || col' != col) ==>
      Fits(|m|, Quadrant(c, row', col')) && View(m', Quadrant(c, row', col')) == View(m, Quadrant(c, row', col'))
  {
    var q := Quadrant(c, row, col);
    QuadrantInside(c, row, col);
    OnlyChangedWithin(m, m', c, q);
    OnlyChangedTwice(m2, m, m', c);
    forall k | 0 <= k < 7 ensures View(m', Slot(scratch, c.n / 2, k)) == p[k] {
      ClearApart(c, scratch, c.n / 2, k, ChildScratch(scratch, c.n / 2));
      ViewKept(m, m', c, Slot(scratch, c.n / 2, k));
    }
    forall row': nat, col': nat | row' < 2 && col' < 2 && (row' != row || col' != col)
      ensures Fits(|m|, Quadrant(c, row', col')) && View(m', Quadrant(c, row', col')) == View(m, Quadrant(c, row', col'))
    {
      QuadrantFits(|m|, c, row', col');
      QuadrantsApart(c, row', col', row, col);
      ViewKept(m, m', q, Quadrant(c, row', col'));
    }
  }

  lemma QuadrantWritable(size: nat, c: Sub, row: nat, col: nat, scratch: nat)
    requires Fits(size, c) && Clear(c, scratch, ChildScratch(scratch, c.n / 2)) && row < 2 && col < 2
    ensures Fits(size, Quadrant(c, row, col))
    ensures forall k: nat :: k < 7 ==> Apart(Slot(scratch, c.n / 2, k), Quadrant(c, row, col))
  {
    QuadrantFits(size, c, row, col);
    QuadrantInside(c, row, col);
    forall k: nat | k < 7 ensures Apart(Slot(scratch, c.n / 2, k), Quadrant(c, row, col)) {
      ClearApart(c, scratch, c.n / 2, k, ChildScratch(scratch, c.n / 2));
      ApartWithin(Slot(scratch, c.n / 2, k), c, Slot(scratch, c.n / 2, k), Quadrant(c, row, col));
    }
  }

  /** Starts a quadrant as the sum (or difference) of two product buffers. */
  method Begin(mem: array<int>, c: Sub, row: nat, col: nat, k: nat, l: nat, subtract: bool, scratch: nat, ghost m2: seq<int>, ghost p: seq<Matrix>)
    requires |p| == 7 && Combining(m2, mem[..], c, scratch, p) && row < 2 && col < 2 && k < 7 && l < 7
    requires forall q :: 0 <= q < 7 ==> IsSquare(p[q], c.n / 2)
    modifies mem
    ensures Combining(m2, mem[..], c, scratch, p)
    ensures OnlyChanged(old(mem[..]), mem[..], Quadrant(c, row, col)) && Fits(mem.Length, Quadrant(c, row, col))
    ensures View(mem[..], Quadrant(c, row, col)) == Combined(p[k], p[l], c.n / 2, subtract)
  {
    ghost var m := mem[..];
    QuadrantWritable(mem.Length, c, row, col, scratch);
    CombineInto(mem, Quadrant(c, row, col), Slot(scratch, c.n / 2, k), Slot(scratch, c.n / 2, l), subtract);
    CombiningStep(m2, m, mem[..], c, row, col, scratch, p);
  }

  /** Adds one more product buffer to (or subtracts it from) a quadrant. */
  method Continue(mem: array<int>, c: Sub, row: nat, col: nat, k: nat, subtract: bool, scratch: nat, ghost m2: seq<int>, ghost p: seq<Matrix>)
    requires |p| == 7 && Combining(m2, mem[..], c, scratch, p) && row < 2 && col < 2 && k < 7 && Fits(mem.Length, Quadrant(c, row, col))
    requires forall q :: 0 <= q < 7 ==> IsSquare(p[q], c.n / 2)
    modifies mem
    ensures Combining(m2, mem[..], c, scratch, p)
    ensures OnlyChanged(old(mem[..]), mem[..], Quadrant(c, row, col))
    ensures View(mem[..], Quadrant(c, row, col)) ==
      Combined(old(View(mem[..], Quadrant(c, row, col))), p[k], c.n / 2, subtract)
  {
    ghost var m := mem[..];
    QuadrantWritable(mem.Length, c, row, col, scratch);
    if subtract {
      SubEq(mem, Quadrant(c, row, col), Slot(scratch, c.n / 2, k));
    } else {
      AddEq(mem, Quadrant(c, row, col), Slot(scratch, c.n / 2, k));
    }
    CombiningStep(m2, m, mem[..], c, row, col, scratch, p);
  }

  method Combine(mem: array<int>, c: Sub, scratch: nat, ghost p: seq<Matrix>)
    requires |p| == 7 && Combining(mem[..], mem[..], c, scratch, p) && c.n % 2 == 0
    requires forall q :: 0 <= q < 7 ==> IsSquare(p[q], c.n / 2)
    modifies mem
    ensures OnlyChanged(old(mem[..]), mem[..], c)
    ensures Split(View(mem[..], c), c.n / 2) == Recombine(p, c.n / 2)
  {
    ghost var m2 := mem[..];
    Begin(mem, c, 0, 0, 0, 3, false, scratch, m2, p);
    Continue(mem, c, 0, 0, 4, true, scratch, m2, p);
    Continue(mem, c, 0, 0, 6, false, scratch, m2, p);
    ghost var m3 := mem[..];
    Begin(mem, c, 0, 1, 2, 4, false, scratch, m2, p);
    CombiningStep(m2, m3, mem[..], c, 0, 1, scratch, p);
    ghost var m4 := mem[..];
    Begin(mem, c, 1, 0, 1, 3, false, scratch, m2, p);
    CombiningStep(m2, m4, mem[..], c, 1, 0, scratch, p);
    ghost var m5 := mem[..];
    Begin(mem, c, 1, 1, 0, 1, true, scratch, m2, p);
    CombiningStep(m2, m5, mem[..], c, 1, 1, scratch, p);
    ghost var m6 := mem[..];
    Continue(mem, c, 1, 1, 2, false, scratch, m2, p);
    CombiningStep(m2, m6, mem[..], c, 1, 1, scratch, p);
    ghost var m7 := mem[..];
    Continue(mem, c, 1, 1, 5, false, scratch, m2, p);
    CombiningStep(m2, m7, mem[..], c, 1, 1, scratch, p);
    QuadrantView(mem[..], c, 0, 0);
    QuadrantView(mem[..], c, 0, 1);
    QuadrantView(mem[..], c, 1, 0);
    QuadrantView(mem[..], c, 1, 1);
  }

  function SlotViews(m: seq<int>, scratch: nat, h: nat): (p: seq<Matrix>)
    requires forall k: nat :: k < 7 ==> Fits(|m|, Slot(scratch, h, k))
    ensures |p| == 7 && forall k :: 0 <= k < 7 ==> p[k] == View(m, Slot(scratch, h, k)) && IsSquare(p[k], h)
  {
    seq(7, k requires 0 <= k < 7 => View(m, Slot(scratch, h, k)))
  }

  lemma BuffersFit(size: nat, scratch: nat, h: nat)
    requires ChildScratch(scratch, h) <= size
    ensures forall k: nat :: k < 7 ==> Fits(size, Slot(scratch, h, k))
  {
    forall k: nat | k < 7 ensures Fits(size, Slot(scratch, h, k)) {
      SlotFits(size, scratch, h, k, 17);
    }
  }

  /** Whatever the product buffers hold is ready to be combined. */
  lemma BuffersReady(m2: seq<int>, c: Sub, scratch: nat, hi: nat)
    requires Fits(|m2|, c) && Clear(c, scratch, hi) && ChildScratch(scratch, c.n / 2) <= hi <= |m2|
    ensures forall k: nat :: k < 7 ==> Fits(|m2|, Slot(scratch, c.n / 2, k))
    ensures Combining(m2, m2, c, scratch, SlotViews(m2, scratch, c.n / 2))
  {
    BuffersFit(|m2|, scratch, c.n / 2);
  }

  /** If all seven are there, they are the seven products. */
  lemma ProductsReady(m1: seq<int>, m2: seq<int>, h: nat, x: Quad, y: Quad, scratch: nat, hi: nat)
    requires QuadOk(x, h) && QuadOk(y, h) && forall k: nat :: k < 7 ==> Fits(|m2|, Slot(scratch, h, k))
    requires Multiplying(m1, m2, LeftOperands(x, h), RightOperands(y, h), scratch, h, hi, {0, 1, 2, 3, 4, 5, 6})
    ensures SlotViews(m2, scratch, h) == SevenProducts(x, y, h)
  {
    forall k | 0 <= k < 7 ensures SlotViews(m2, scratch, h)[k] == SevenProducts(x, y, h)[k] {
      assert k in {0, 1, 2, 3, 4, 5, 6};
    }
  }

  lemma LevelResult(m0: seq<int>, m3: seq<int>, c: Sub, a: Sub, b: Sub)
    requires |m0| == |m3| && Fits(|m0|, a) && Fits(|m0|, b) && Fits(|m0|, c) && a.n == b.n == c.n && c.n % 2 == 0
    requires Split(View(m3, c), c.n / 2) ==
      Recombine(SevenProducts(Split(View(m0, a), c.n / 2), Split(View(m0, b), c.n / 2), c.n / 2), c.n / 2)
    ensures View(m3, c) == Product(View(m0, a), View(m0, b), c.n)
  {
    StrassenIdentity(View(m0, a), View(m0, b), c.n / 2);
    BlocksEqual(View(m3, c), Product(View(m0, a), View(m0, b), c.n), c.n / 2);
  }

  /** When the halves do not halve evenly, blank product buffers recombine to a blank missed cell. */
  lemma LevelBlank(m2: seq<int>, m3: seq<int>, n: nat, c: Sub, scratch: nat, depth: nat, t: Tuning)
    requires |m2| == |m3| && Fits(|m3|, c) && c.n == n && n % 2 == 0 && n > t.cutoff && !Halves(n, t.cutoff)
    requires Blank(m2, n, scratch, depth, t) && forall k: nat :: k < 7 ==> Fits(|m2|, Slot(scratch, n / 2, k))
    requires Split(View(m3, c), n / 2) == Recombine(SlotViews(m2, scratch, n / 2), n / 2)
    ensures View(m3, c)[Missed(n, t.cutoff)][Missed(n, t.cutoff)] == 0
  {
    var h, p := n / 2, Missed(n, t.cutoff);
    forall k: nat | k < 7 ensures SlotViews(m2, scratch, h)[k][p][p] == 0 {
      assert BlankSlot(m2, scratch, h, k, t);
      ViewCell(m2, Slot(scratch, h, k), p, p);
    }
    assert View(m3, c)[p][p] == Split(View(m3, c), h).p[p][p];
  }

  /** On an odd size nobody writes the last cell of the result. */
  lemma LastCellKept(m: seq<int>, m': seq<int>, c: Sub, lo: nat, hi: nat)
    requires Fits(|m|, c) && c.n % 2 == 1 && KeptOutside(m, m', Lead(c), lo, hi) && Clear(c, lo, hi)
    ensures View(m', c)[c.n - 1][c.n - 1] == View(m, c)[c.n - 1][c.n - 1]
  {
    var p := c.n - 1;
    ViewCell(m, c, p, p);
    ViewCell(m', c, p, p);
    if Inside(Lead(c), At(c, p, p)) {
      var i: nat, j: nat :| i < Lead(c).n && j < Lead(c).n && At(Lead(c), i, j) == At(c, p, p);
      Distinct(c, i, j, p, p);
    }
  }

  /**
   * What a call leaves. If the size halves evenly to the cutoff: the product. Else, if the cells it misses were zero:
   * zero in the missed cell of the result, and all of them zero still.
   */
  predicate Outcome(m: seq<int>, m': seq<int>, c: Sub, a: Sub, b: Sub, scratch: nat, depth: nat, t: Tuning)
    requires |m| == |m'| && Operands(|m|, a, b, c)
  {
    if Halves(c.n, t.cutoff) then View(m', c) == Product(View(m, a), View(m, b), c.n)
    else
      var p := Missed(c.n, t.cutoff);
      Blank(m, c.n, scratch, depth, t) && View(m, c)[p][p] == 0 ==> Blank(m', c.n, scratch, depth, t) && View(m', c)[p][p] == 0
  }

  /** The recursion, using and changing nothing but `c` and its slice of scratch. */
  method StrassenRec(mem: array<int>, c: Sub, a: Sub, b: Sub, scratch: nat, depth: nat, t: Tuning)
    requires CallOk(mem.Length, c, a, b, scratch, depth, t)
    modifies mem
    ensures Outcome(old(mem[..]), mem[..], c, a, b, scratch, depth, t)
    ensures KeptOutside(old(mem[..]), mem[..], c, scratch, scratch + ScratchBudget(c.n, depth, t))
    decreases c.n, 3
  {
    if c.n <= t.cutoff {
      LeafMultiply(mem, c, a, b, false);
      return;
    }
    ghost var m0 := mem[..];
    LeadsOk(mem.Length, c, a, b, scratch, depth, t);
    Level(mem, c.n, Lead(c), Lead(a), Lead(b), scratch, depth, t);
    CallDone(m0, mem[..], c, a, b, scratch, depth, t);
  }

  /** From the leading windows to the whole ones. */
  lemma CallDone(m0: seq<int>, m: seq<int>, c: Sub, a: Sub, b: Sub, scratch: nat, depth: nat, t: Tuning)
    requires |m| == |m0| && CallOk(|m|, c, a, b, scratch, depth, t) && c.n > t.cutoff && LevelOk(|m|, c.n, Lead(c), Lead(a), Lead(b), scratch, depth, t)
    requires Halves(c.n / 2, t.cutoff) ==> View(m, Lead(c)) == Product(View(m0, Lead(a)), View(m0, Lead(b)), Lead(c).n)
    requires c.n % 2 == 0 && !Halves(c.n, t.cutoff) && Blank(m0, c.n, scratch, depth, t) ==>
      View(m, Lead(c))[Missed(c.n, t.cutoff)][Missed(c.n, t.cutoff)] == 0
    requires Blank(m0, c.n, scratch, depth, t) ==> Blank(m, c.n, scratch, depth, t)
    requires KeptOutside(m0, m, Lead(c), scratch, scratch + ScratchBudget(c.n, depth, t))
    ensures Outcome(m0, m, c, a, b, scratch, depth, t)
    ensures KeptOutside(m0, m, c, scratch, scratch + ScratchBudget(c.n, depth, t))
  {
    LeadInside(|m|, c);
    if c.n % 2 == 1 {
      LastCellKept(m0, m, c, scratch, scratch + ScratchBudget(c.n, depth, t));
    } else {
      assert Lead(c) == c && Lead(a) == a && Lead(b) == b;
    }
  }

  /** What a level with operand blocks x and y has done when its product buffers are filled. */
  predicate Filled(m0: seq<int>, m2: seq<int>, n: nat, x: Quad, y: Quad, scratch: nat, depth: nat, t: Tuning)
    requires QuadOk(x, n / 2) && QuadOk(y, n / 2)
  {
    && |m0| == |m2|
    && (forall p :: 0 <= p < |m0| && !(scratch <= p < scratch + ScratchBudget(n, depth, t)) ==> m2[p] == m0[p])
    && (forall k: nat :: k < 7 ==> Fits(|m2|, Slot(scratch, n / 2, k)))
    && (Halves(n / 2, t.cutoff) ==> SlotViews(m2, scratch, n / 2) == SevenProducts(x, y, n / 2))
    && (Blank(m0, n, scratch, depth, t) ==> Blank(m2, n, scratch, depth, t))
  }

  lemma FilledUp(m0: seq<int>, m1: seq<int>, m2: seq<int>, n: nat, scratch: nat, depth: nat, t: Tuning, x: Quad, y: Quad, done: set<nat>)
    requires n > t.cutoff && QuadOk(x, n / 2) && QuadOk(y, n / 2) && Stamped(m0, m1, x, y, scratch, n / 2, 17)
    requires Multiplying(m1, m2, LeftOperands(x, n / 2), RightOperands(y, n / 2), scratch, n / 2, scratch + ScratchBudget(n, depth, t), done)
    requires Halves(n / 2, t.cutoff) ==> done == {0, 1, 2, 3, 4, 5, 6}
    requires Blank(m1, n, scratch, depth, t) ==> Blank(m2, n, scratch, depth, t)
    ensures Filled(m0, m2, n, x, y, scratch, depth, t)
  {
    var h, hi := n / 2, scratch + ScratchBudget(n, depth, t);
    BuffersFit(|m2|, scratch, h);
    FilledFrame(m0, m1, m2, x, y, scratch, h, hi, done);
    if Halves(h, t.cutoff) {
      ProductsReady(m1, m2, h, x, y, scratch, hi);
    }
    if Blank(m0, n, scratch, depth, t) {
      StampsStayBlank(m0, m1, n, x, y, scratch, depth, t);
    }
  }

  lemma FilledFrame(m0: seq<int>, m1: seq<int>, m2: seq<int>, x: Quad, y: Quad, scratch: nat, h: nat, hi: nat, done: set<nat>)
    requires QuadOk(x, h) && QuadOk(y, h) && Stamped(m0, m1, x, y, scratch, h, 17)
    requires Multiplying(m1, m2, LeftOperands(x, h), RightOperands(y, h), scratch, h, hi, done)
    ensures |m0| == |m2| && forall p :: 0 <= p < |m0| && !(scratch <= p < hi) ==> m2[p] == m0[p]
  {
    SlotOrder(h, 7, 17);
  }

  /** Stamps the operands and multiplies seven times. */
  method FillBuffers(mem: array<int>, n: nat, c: Sub, a: Sub, b: Sub, scratch: nat, depth: nat, t: Tuning)
    requires LevelOk(mem.Length, n, c, a, b, scratch, depth, t)
    modifies mem
    ensures Filled(old(mem[..]), mem[..], n, Split(old(View(mem[..], a)), n / 2), Split(old(View(mem[..], b)), n / 2), scratch, depth, t)
    decreases n, 1
  {
    ghost var m0, h := mem[..], n / 2;
    ghost var x, y := Split(View(m0, a), h), Split(View(m0, b), h);
    BudgetCovers(n, depth, t);
    StampOperands(mem, a, b, scratch, scratch + ScratchBudget(n, depth, t));
    ghost var m1 := mem[..];
    SubProducts(mem, n, c, a, b, scratch, depth, t, m0, LeftOperands(x, h), RightOperands(y, h));
    FilledUp(m0, m1, mem[..], n, scratch, depth, t, x, y, if Halves(h, t.cutoff) then {0, 1, 2, 3, 4, 5, 6} else {});
  }

  /** One level on windows of even size: stamp the operands, multiply seven times, combine. */
  method Level(mem: array<int>, n: nat, c: Sub, a: Sub, b: Sub, scratch: nat, depth: nat, t: Tuning)
    requires LevelOk(mem.Length, n, c, a, b, scratch, depth, t)
    modifies mem
    ensures Halves(n / 2, t.cutoff) ==> View(mem[..], c) == Product(old(View(mem[..], a)), old(View(mem[..], b)), c.n)
    ensures n % 2 == 0 && !Halves(n, t.cutoff) && Blank(old(mem[..]), n, scratch, depth, t) ==>
      View(mem[..], c)[Missed(n, t.cutoff)][Missed(n, t.cutoff)] == 0
    ensures Blank(old(mem[..]), n, scratch, depth, t) ==> Blank(mem[..], n, scratch, depth, t)
    ensures KeptOutside(old(mem[..]), mem[..], c, scratch, scratch + ScratchBudget(n, depth, t))
    decreases n, 2
  {
    ghost var m0 := mem[..];
    FillBuffers(mem, n, c, a, b, scratch, depth, t);
    ghost var m2 := mem[..];
    BudgetCovers(n, depth, t);
    BuffersReady(m2, c, scratch, scratch + ScratchBudget(n, depth, t));
    Combine(mem, c, scratch, SlotViews(m2, scratch, n / 2));
    if Halves(n / 2, t.cutoff) {
      LevelResult(m0, mem[..], c, a, b);
    }
    if Blank(m0, n, scratch, depth, t) {
      LevelStaysBlank(m2, mem[..], n, c, scratch, depth, t);
    }
  }

  lemma StampsStayBlank(m0: seq<int>, m1: seq<int>, n: nat, x: Quad, y: Quad, scratch: nat, depth: nat, t: Tuning)
    requires QuadOk(x, n / 2) && QuadOk(y, n / 2) && Stamped(m0, m1, x, y, scratch, n / 2, 17) && Blank(m0, n, scratch, depth, t)
    ensures Blank(m1, n, scratch, depth, t)
  {
    BlankStamped(m0, m1, n, scratch, depth, t);
  }

  /** Blank missed cells stay blank while the buffers are combined, and make that of the result blank. */
  lemma LevelStaysBlank(m2: seq<int>, m3: seq<int>, n: nat, c: Sub, scratch: nat, depth: nat, t: Tuning)
    requires |m2| == |m3| && Fits(|m2|, c) && c.n == n / 2 * 2 && n > t.cutoff && Clear(c, scratch, scratch + ScratchBudget(n, depth, t))
    requires Blank(m2, n, scratch, depth, t)
    requires forall k: nat :: k < 7 ==> Fits(|m2|, Slot(scratch, n / 2, k))
    requires OnlyChanged(m2, m3, c) && Split(View(m3, c), n / 2) == Recombine(SlotViews(m2, scratch, n / 2), n / 2)
    ensures Blank(m3, n, scratch, depth, t)
    ensures n % 2 == 0 && !Halves(n, t.cutoff) ==> View(m3, c)[Missed(n, t.cutoff)][Missed(n, t.cutoff)] == 0
  {
    BlankCombined(m2, m3, n, c, scratch, depth, t);
    if n % 2 == 0 && !Halves(n, t.cutoff) {
      LevelBlank(m2, m3, n, c, scratch, depth, t);
    }
  }

  /** Combining writes only the result. */
  lemma BlankCombined(m2: seq<int>, m3: seq<int>, n: nat, c: Sub, scratch: nat, depth: nat, t: Tuning)
    requires OnlyChanged(m2, m3, c) && Clear(c, scratch, scratch + ScratchBudget(n, depth, t)) && Blank(m2, n, scratch, depth, t)
    ensures Blank(m3, n, scratch, depth, t)
  {
    forall p | scratch <= p < scratch + ScratchBudget(n, depth, t) && p < |m2| ensures m3[p] == m2[p] {
      assert !Inside(c, p);
    }
    BlankLocal(m2, m3, n, scratch, depth, t);
  }

  /** The operands of the seven products of `a` and `b`. */
  predicate OperandsOf(m0: seq<int>, h: nat, a: Sub, b: Sub, l: seq<Matrix>, r: seq<Matrix>)
    requires Fits(|m0|, a) && Fits(|m0|, b) && a.n == b.n == 2 * h
  {
    && l == LeftOperands(Split(View(m0, a), h), h) && r == RightOperands(Split(View(m0, b), h), h)
    && |l| == |r| == 7 && forall k :: 0 <= k < 7 ==> IsSquare(l[k], h) && IsSquare(r[k], h)
  }

  lemma NothingMultiplied(m: seq<int>, n: nat, scratch: nat, depth: nat, t: Tuning, l: seq<Matrix>, r: seq<Matrix>)
    requires |l| == |r| == 7 && forall k :: 0 <= k < 7 ==> IsSquare(l[k], n / 2) && IsSquare(r[k], n / 2)
    requires n > t.cutoff && scratch + ScratchBudget(n, depth, t) <= |m|
    ensures Multiplying(m, m, l, r, scratch, n / 2, scratch + ScratchBudget(n, depth, t), {})
  {
    BudgetCovers(n, depth, t);
  }

  /** The seven products: in any order on their own slices above the parallel depth, else in turn on one. */
  method SubProducts(mem: array<int>, n: nat, c: Sub, a: Sub, b: Sub, scratch: nat, depth: nat, t: Tuning,
                     ghost m0: seq<int>, ghost l: seq<Matrix>, ghost r: seq<Matrix>)
    requires LevelOk(mem.Length, n, c, a, b, scratch, depth, t) && |m0| == mem.Length && OperandsOf(m0, n / 2, a, b, l, r)
    requires Stamped(m0, mem[..], Split(View(m0, a), n / 2), Split(View(m0, b), n / 2), scratch, n / 2, 17)
    modifies mem
    ensures Multiplying(old(mem[..]), mem[..], l, r, scratch, n / 2, scratch + ScratchBudget(n, depth, t),
                        if Halves(n / 2, t.cutoff) then {0, 1, 2, 3, 4, 5, 6} else {})
    ensures Blank(old(mem[..]), n, scratch, depth, t) ==> Blank(mem[..], n, scratch, depth, t)
    decreases n, 0
  {
    ghost var m1 := mem[..];
    NothingMultiplied(m1, n, scratch, depth, t, l, r);
    var pending: set<nat> := {0, 1, 2, 3, 4, 5, 6};
    ghost var done: set<nat> := {};
    while pending != {}
      invariant pending <= {0, 1, 2, 3, 4, 5, 6}
      invariant if Halves(n / 2, t.cutoff) then pending + done == {0, 1, 2, 3, 4, 5, 6} else done == {}
      invariant Multiplying(m1, mem[..], l, r, scratch, n / 2, scratch + ScratchBudget(n, depth, t), done)
      invariant Blank(m1, n, scratch, depth, t) ==> Blank(mem[..], n, scratch, depth, t)
      decreases pending
    {
      var k: nat;
      if depth < t.parallelDepth {
        k :| k in pending;
      } else {
        k := Least(pending);
      }
      SubProduct(mem, n, c, a, b, scratch, depth, t, k, m0, m1, l, r, done);
      pending := pending - {k};
      done := if Halves(n / 2, t.cutoff) then done + {k} else {};
    }
    if Halves(n / 2, t.cutoff) {
      FewerDone(m1, mem[..], l, r, scratch, n / 2, scratch + ScratchBudget(n, depth, t), done);
    }
  }

  lemma FewerDone(m1: seq<int>, m: seq<int>, l: seq<Matrix>, r: seq<Matrix>, scratch: nat, h: nat, hi: nat, done: set<nat>)
    requires |l| == |r| == 7 && forall k :: 0 <= k < 7 ==> IsSquare(l[k], h) && IsSquare(r[k], h)
    requires Multiplying(m1, m, l, r, scratch, h, hi, done) && {0, 1, 2, 3, 4, 5, 6} <= done
    ensures Multiplying(m1, m, l, r, scratch, h, hi, {0, 1, 2, 3, 4, 5, 6})
  {
  }

  method Least(s: set<nat>) returns (k: nat)
    requires s != {} && s <= {0, 1, 2, 3, 4, 5, 6}
    ensures k in s && forall j :: j in s ==> k <= j
  {
    k := 0;
    while k !in s
      invariant k <= 6 && forall j :: j in s ==> k <= j
      decreases 7 - k
    {
      k := k + 1;
    }
  }

  method SubProduct(mem: array<int>, n: nat, c: Sub, a: Sub, b: Sub, scratch: nat, depth: nat, t: Tuning, k: nat,
                    ghost m0: seq<int>, ghost m1: seq<int>, ghost l: seq<Matrix>, ghost r: seq<Matrix>, ghost done: set<nat>)
    requires LevelOk(mem.Length, n, c, a, b, scratch, depth, t) && |m0| == |m1| == mem.Length && k < 7 && OperandsOf(m0, n / 2, a, b, l, r)
    requires Stamped(m0, m1, Split(View(m0, a), n / 2), Split(View(m0, b), n / 2), scratch, n / 2, 17)
    requires Multiplying(m1, mem[..], l, r, scratch, n / 2, scratch + ScratchBudget(n, depth, t), done)
    requires !Halves(n / 2, t.cutoff) ==> done == {}
    modifies mem
    ensures Multiplying(m1, mem[..], l, r, scratch, n / 2, scratch + ScratchBudget(n, depth, t), if Halves(n / 2, t.cutoff) then done + {k} else {})
    ensures Blank(old(mem[..]), n, scratch, depth, t) ==> Blank(mem[..], n, scratch, depth, t)
    decreases n, 0, 0
  {
    var h, lo' := n / 2, ChildSlice(scratch, n / 2, depth, t, k);
    ghost var m := mem[..];
    ChildReady(m0, m1, m, n, c, a, b, scratch, depth, t, k, l, r, done);
    StrassenRec(mem, Slot(scratch, h, k), LeftView(a, scratch, k), RightView(b, scratch, k), lo', depth + 1, t);
    ChildDone(m1, m, mem[..], n, a, b, scratch, depth, t, k, l, r, done);
  }

  /** Before a sub-product: the call is legal, and its views show the operands. */
  lemma ChildReady(m0: seq<int>, m1: seq<int>, m: seq<int>, n: nat, c: Sub, a: Sub, b: Sub, scratch: nat, depth: nat, t: Tuning, k: nat,
                   l: seq<Matrix>, r: seq<Matrix>, done: set<nat>)
    requires LevelOk(|m|, n, c, a, b, scratch, depth, t) && |m0| == |m1| == |m| && k < 7 && OperandsOf(m0, n / 2, a, b, l, r)
    requires Stamped(m0, m1, Split(View(m0, a), n / 2), Split(View(m0, b), n / 2), scratch, n / 2, 17)
    requires Multiplying(m1, m, l, r, scratch, n / 2, scratch + ScratchBudget(n, depth, t), done)
    ensures CallOk(|m|, Slot(scratch, n / 2, k), LeftView(a, scratch, k), RightView(b, scratch, k), ChildSlice(scratch, n / 2, depth, t, k), depth + 1, t)
    ensures View(m, LeftView(a, scratch, k)) == l[k] && View(m, RightView(b, scratch, k)) == r[k]
  {
    var h, hi := n / 2, scratch + ScratchBudget(n, depth, t);
    BudgetCovers(n, depth, t);
    ChildCallOk(|m|, n, c, a, b, scratch, depth, t, k);
    LeftStamped(m0, m1, a, b, Split(View(m0, a), h), Split(View(m0, b), h), scratch, hi, k);
    RightStamped(m0, m1, a, b, Split(View(m0, a), h), Split(View(m0, b), h), scratch, hi, k);
    OperandsStillThere(m1, m, l, r, a, b, scratch, hi, done, k);
  }

  /** After it: its product is there if its size halves evenly, and blank cells are blank still. */
  lemma ChildDone(m1: seq<int>, m: seq<int>, m': seq<int>, n: nat, a: Sub, b: Sub, scratch: nat, depth: nat, t: Tuning, k: nat,
                  l: seq<Matrix>, r: seq<Matrix>, done: set<nat>)
    requires |m1| == |m| == |m'| && n > t.cutoff && k < 7 && scratch + ScratchBudget(n, depth, t) <= |m|
    requires |l| == |r| == 7 && forall q :: 0 <= q < 7 ==> IsSquare(l[q], n / 2) && IsSquare(r[q], n / 2)
    requires Multiplying(m1, m, l, r, scratch, n / 2, scratch + ScratchBudget(n, depth, t), done) && (!Halves(n / 2, t.cutoff) ==> done == {})
    requires Operands(|m|, LeftView(a, scratch, k), RightView(b, scratch, k), Slot(scratch, n / 2, k))
    requires View(m, LeftView(a, scratch, k)) == l[k] && View(m, RightView(b, scratch, k)) == r[k]
    requires KeptOutside(m, m', Slot(scratch, n / 2, k), ChildSlice(scratch, n / 2, depth, t, k),
                         ChildSlice(scratch, n / 2, depth, t, k) + ScratchBudget(n / 2, depth + 1, t))
    requires Outcome(m, m', Slot(scratch, n / 2, k), LeftView(a, scratch, k), RightView(b, scratch, k), ChildSlice(scratch, n / 2, depth, t, k), depth + 1, t)
    ensures Multiplying(m1, m', l, r, scratch, n / 2, scratch + ScratchBudget(n, depth, t), if Halves(n / 2, t.cutoff) then done + {k} else {})
    ensures Blank(m, n, scratch, depth, t) ==> Blank(m', n, scratch, depth, t)
  {
    var h, hi, lo' := n / 2, scratch + ScratchBudget(n, depth, t), ChildSlice(scratch, n / 2, depth, t, k);
    ChildSliceInside(n, scratch, depth, t, k);
    if Halves(h, t.cutoff) {
      MultiplyingStep(m1, m, m', l, r, scratch, h, hi, done, k, lo', lo' + ScratchBudget(h, depth + 1, t));
    } else {
      MultiplyingFrame(m1, m, m', l, r, scratch, h, hi, k, lo', lo' + ScratchBudget(h, depth + 1, t));
      ChildBlank(m, m', n, scratch, depth, t, k);
    }
  }

  lemma ChildBlank(m: seq<int>, m': seq<int>, n: nat, scratch: nat, depth: nat, t: Tuning, k: nat)
    requires |m| == |m'| && n > t.cutoff && !Halves(n / 2, t.cutoff) && k < 7 && Fits(|m|, Slot(scratch, n / 2, k))
    requires KeptOutside(m, m', Slot(scratch, n / 2, k), ChildSlice(scratch, n / 2, depth, t, k),
                         ChildSlice(scratch, n / 2, depth, t, k) + ScratchBudget(n / 2, depth + 1, t))
    requires var s, p := Slot(scratch, n / 2, k), Missed(n / 2, t.cutoff);
      Blank(m, n / 2, ChildSlice(scratch, n / 2, depth, t, k), depth + 1, t) && View(m, s)[p][p] == 0 ==>
        Blank(m', n / 2, ChildSlice(scratch, n / 2, depth, t, k), depth + 1, t) && View(m', s)[p][p] == 0
    ensures Blank(m, n, scratch, depth, t) ==> Blank(m', n, scratch, depth, t)
  {
    var s, p := Slot(scratch, n / 2, k), Missed(n / 2, t.cutoff);
    ViewCell(m, s, p, p);
    ViewCell(m', s, p, p);
    if Blank(m, n, scratch, depth, t) {
      assert BlankSlot(m, scratch, n / 2, k, t);
      BlankAfterChild(m, m', n, scratch, depth, t, k);
    }
  }

  /** Three matrices and an arena of exactly the budget, laid out one after the other, are a legal call. */
  lemma LayoutOk(n: nat, t: Tuning)
    ensures CallOk(3 * (n * n) + ScratchBudget(n, 0, t), Slot(0, n, 2), Slot(0, n, 0), Slot(0, n, 1), 3 * (n * n), 0, t)
  {
    var size, lo, hi := 3 * (n * n) + ScratchBudget(n, 0, t), 3 * (n * n), 3 * (n * n) + ScratchBudget(n, 0, t);
    forall d | 0 <= d < 3 ensures Fits(size, Slot(0, n, d)) && Clear(Slot(0, n, d), lo, hi) {
      SlotFits(size, 0, n, d, 3);
      SlotBelow(n, d, lo, hi);
    }
    SlotsApart(0, n, 0, 2);
    SlotsApart(0, n, 1, 2);
  }

  lemma SlotBelow(n: nat, d: nat, lo: nat, hi: nat)
    requires d < 3 && lo == 3 * (n * n)
    ensures Clear(Slot(0, n, d), lo, hi)
  {
    SlotSpan(0, n, d);
    SlotOrder(n, d, 3);
    forall i: nat, j: nat | i < n && j < n ensures At(Slot(0, n, d), i, j) < lo {
      assert Inside(Slot(0, n, d), At(Slot(0, n, d), i, j));
    }
  }

  /** The whole multiplication: the budget suffices and both inputs survive. */
  method Multiply(mem: array<int>, n: nat, t: Tuning)
    requires Halves(n, t.cutoff) && mem.Length == 3 * (n * n) + ScratchBudget(n, 0, t)
    requires Fits(mem.Length, Slot(0, n, 0)) && Fits(mem.Length, Slot(0, n, 1)) && Fits(mem.Length, Slot(0, n, 2))
    modifies mem
    ensures View(mem[..], Slot(0, n, 2)) == Product(old(View(mem[..], Slot(0, n, 0))), old(View(mem[..], Slot(0, n, 1))), n)
    ensures View(mem[..], Slot(0, n, 0)) == old(View(mem[..], Slot(0, n, 0))) && View(mem[..], Slot(0, n, 1)) == old(View(mem[..], Slot(0, n, 1)))
  {
    ghost var m0 := mem[..];
    LayoutOk(n, t);
    StrassenRec(mem, Slot(0, n, 2), Slot(0, n, 0), Slot(0, n, 1), 3 * (n * n), 0, t);
    ViewKeptOutside(m0, mem[..], Slot(0, n, 2), 3 * (n * n), 3 * (n * n) + ScratchBudget(n, 0, t), Slot(0, n, 0));
    ViewKeptOutside(m0, mem[..], Slot(0, n, 2), 3 * (n * n), 3 * (n * n) + ScratchBudget(n, 0, t), Slot(0, n, 1));
  }

  // Which sizes come out right.

  lemma PeekZero(m: seq<int>, q: nat, lo: nat)
    requires lo <= q && forall p :: lo <= p < |m| ==> m[p] == 0
    ensures Peek(m, q) == 0
  {
  }

  lemma {:induction false} ZeroIsBlank(m: seq<int>, n: nat, scratch: nat, depth: nat, t: Tuning)
    requires forall p :: scratch <= p < |m| ==> m[p] == 0
    ensures Blank(m, n, scratch, depth, t)
    decreases n
  {
    if n > t.cutoff && !Halves(n / 2, t.cutoff) {
      forall k: nat | k < 7 ensures BlankSlot(m, scratch, n / 2, k, t) && Blank(m, n / 2, ChildSlice(scratch, n / 2, depth, t, k), depth + 1, t) {
        MissedInSlot(scratch, n / 2, k, t);
        PeekZero(m, MissedAt(scratch, n / 2, k, t), scratch);
        ChildSliceInside(n, scratch, depth, t, k);
        ZeroIsBlank(m, n / 2, ChildSlice(scratch, n / 2, depth, t, k), depth + 1, t);
      }
    }
  }

  /** Memory with a one at (p, p) of both operands and zeros elsewhere. */
  function TwoOnes(size: nat, n: nat, p: nat): (m: seq<int>)
    ensures |m| == size
  {
    seq(size, i => if i == At(Slot(0, n, 0), p, p) || i == At(Slot(0, n, 1), p, p) then 1 else 0)
  }

  lemma TwoOnesOperand(size: nat, n: nat, p: nat, d: nat)
    requires p < n && d < 2 && Fits(size, Slot(0, n, d))
    ensures View(TwoOnes(size, n, p), Slot(0, n, d)) == OneAt(n, p)
  {
    var m, s := TwoOnes(size, n, p), Slot(0, n, d);
    SlotsApart(0, n, d, 1 - d);
    forall i, j | 0 <= i < n && 0 <= j < n ensures View(m, s)[i][j] == OneAt(n, p)[i][j] {
      ViewCell(m, s, i, j);
      assert !Inside(Slot(0, n, 1 - d), At(s, i, j));
      assert Inside(Slot(0, n, 1 - d), At(Slot(0, n, 1 - d), p, p));
      if At(s, i, j) == At(s, p, p) {
        Distinct(s, i, j, p, p);
      }
    }
    CellsEqual(View(m, s), OneAt(n, p), n);
  }

  lemma TwoOnesElsewhere(size: nat, n: nat, p: nat, q: nat)
    requires p < n && q < size && q >= 2 * (n * n)
    ensures TwoOnes(size, n, p)[q] == 0
  {
    SlotSpan(0, n, 0);
    SlotSpan(0, n, 1);
    assert Inside(Slot(0, n, 0), At(Slot(0, n, 0), p, p)) && Inside(Slot(0, n, 1), At(Slot(0, n, 1), p, p));
  }

  /** A legal call on memory m, all of whose outcomes are wrong. */
  ghost predicate AlwaysWrong(m: seq<int>, n: nat, t: Tuning) {
    var c, a, b, scratch := Slot(0, n, 2), Slot(0, n, 0), Slot(0, n, 1), 3 * (n * n);
    && CallOk(|m|, c, a, b, scratch, 0, t)
    && forall m' :: |m'| == |m| && Outcome(m, m', c, a, b, scratch, 0, t) ==> View(m', c) != Product(View(m, a), View(m, b), n)
  }

  lemma WrongSize(n: nat, t: Tuning) returns (m: seq<int>)
    requires !Halves(n, t.cutoff)
    ensures AlwaysWrong(m, n, t)
  {
    var size, p, c := 3 * (n * n) + ScratchBudget(n, 0, t), Missed(n, t.cutoff), Slot(0, n, 2);
    LayoutOk(n, t);
    m := TwoOnes(size, n, p);
    TwoOnesOperand(size, n, p, 0);
    TwoOnesOperand(size, n, p, 1);
    forall q: nat | 3 * (n * n) <= q < |m| ensures m[q] == 0 {
      TwoOnesElsewhere(size, n, p, q);
    }
    ZeroIsBlank(m, n, 3 * (n * n), 0, t);
    SlotSpan(0, n, 2);
    assert Inside(c, At(c, p, p));
    ViewCell(m, c, p, p);
    TwoOnesElsewhere(size, n, p, At(c, p, p));
    OneAtDot(n, p, n);
  }

  /** A size that halves evenly to the cutoff comes out right in every legal call; any other goes wrong on some operands. */
  lemma RightSizes(n: nat, t: Tuning)
    ensures Halves(n, t.cutoff) ==>
      forall m: seq<int>, m': seq<int>, c: Sub, a: Sub, b: Sub, scratch: nat, depth: nat ::
        c.n == n && |m| == |m'| && CallOk(|m|, c, a, b, scratch, depth, t) && Outcome(m, m', c, a, b, scratch, depth, t) ==>
          View(m', c) == Product(View(m, a), View(m, b), n)
    ensures !Halves(n, t.cutoff) ==> exists m :: AlwaysWrong(m, n, t)
  {
    if !Halves(n, t.cutoff) {
      var m := WrongSize(n, t);
    }
  }
}
