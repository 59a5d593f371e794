/** Sixty-four-bit unsigned words as bit strings, least significant bit first. */
module Words {
  const WIDTH: nat := 64

  type Word = w: seq<bool> | |w| == WIDTH witness seq(WIDTH, _ => false)

  function Zero(): (w: Word)
    ensures forall i :: 0 <= i < WIDTH ==> !w[i]
  {
    seq(WIDTH, _ => false)
  }

  /** 1 << n. */
  function OneBit(n: nat): (w: Word)
    requires n < WIDTH
    ensures forall i :: 0 <= i < WIDTH ==> (w[i] <==> i == n)
  {
    Zero()[n := true]
  }

  function Or(a: Word, b: Word): (w: Word)
    ensures forall i :: 0 <= i < WIDTH ==> (w[i] <==> a[i] || b[i])
  {
    seq(WIDTH, i requires 0 <= i < WIDTH => a[i] || b[i])
  }

  function And(a: Word, b: Word): (w: Word)
    ensures forall i :: 0 <= i < WIDTH ==> (w[i] <==> a[i] && b[i])
  {
    seq(WIDTH, i requires 0 <= i < WIDTH => a[i] && b[i])
  }

  function Xor(a: Word, b: Word): (w: Word)
    ensures forall i :: 0 <= i < WIDTH ==> (w[i] <==> a[i] != b[i])
  {
    seq(WIDTH, i requires 0 <= i < WIDTH => a[i] != b[i])
  }

  function Not(a: Word): (w: Word)
    ensures forall i :: 0 <= i < WIDTH ==> (w[i] <==> !a[i])
  {
    seq(WIDTH, i requires 0 <= i < WIDTH => !a[i])
  }

  /** w << 1: the top bit is lost. */
  function ShiftLeft(a: Word): (w: Word)
    ensures forall i :: 0 <= i < WIDTH ==> (w[i] <==> i > 0 && a[i - 1])
  {
    [false] + a[..WIDTH - 1]
  }

  /** w >> 1: bit 0 is lost. */
  function ShiftRight(a: Word): (w: Word)
    ensures forall i :: 0 <= i < WIDTH ==> (w[i] <==> i < WIDTH - 1 && a[i + 1])
  {
    a[1..] + [false]
  }

  /** The number a bit string of any length stands for. */
  function Value(w: seq<bool>): nat {
    if w == [] then 0 else (if w[0] then 1 else 0) + 2 * Value(w[1..])
  }

  function Range(bits: nat): (r: nat)
    ensures r > 0
  {
    if bits == 0 then 1 else 2 * Range(bits - 1)
  }

  /** Adds one, rippling the carry up; the carry out of the top bit is lost. */
  function Increment(w: seq<bool>): (r: seq<bool>)
    ensures |r| == |w|
  {
    if w == [] then [] else if w[0] then [false] + Increment(w[1..]) else [true] + w[1..]
  }

  /** Subtracts one, rippling the borrow up; the borrow out of the top bit is lost. */
  function Decrement(w: seq<bool>): (r: seq<bool>)
    ensures |r| == |w|
  {
    if w == [] then [] else if w[0] then [false] + w[1..] else [true] + Decrement(w[1..])
  }

  lemma {:induction false} ValueBound(w: seq<bool>)
    ensures Value(w) < Range(|w|)
  {
    if w != [] {
      ValueBound(w[1..]);
    }
  }

  /** Increment and Decrement are unsigned machine arithmetic: they wrap at the word's range. */
  lemma {:induction false} IncrementWraps(w: seq<bool>)
    ensures Value(Increment(w)) == if Value(w) == Range(|w|) - 1 then 0 else Value(w) + 1
  {
    if w != [] {
      ValueBound(w[1..]);
      IncrementWraps(w[1..]);
    }
  }

  lemma {:induction false} DecrementWraps(w: seq<bool>)
    ensures Value(Decrement(w)) == if Value(w) == 0 then Range(|w|) - 1 else Value(w) - 1
  {
    if w != [] {
      ValueBound(w[1..]);
      DecrementWraps(w[1..]);
    }
  }

  /** (1 << n) - 1 has exactly the bits below `n`. */
  lemma {:induction false} DecrementOneBit(w: seq<bool>, n: nat, i: nat)
    requires n < |w| && i < |w| && forall j :: 0 <= j < |w| ==> (w[j] <==> j == n)
    ensures Decrement(w)[i] <==> i < n
  {
    if n > 0 && i > 0 {
      DecrementOneBit(w[1..], n - 1, i - 1);
    }
  }

  function Mask(n: nat): (w: Word)
    requires n < WIDTH
    ensures forall i :: 0 <= i < WIDTH ==> (w[i] <==> i < n)
  {
    var w := Decrement(OneBit(n));
    assert forall i :: 0 <= i < WIDTH ==> (w[i] <==> i < n) by {
      forall i | 0 <= i < WIDTH ensures w[i] <==> i < n {
        DecrementOneBit(OneBit(n), n, i);
      }
    }
    w
  }

  function LowestIndex(w: seq<bool>): (i: nat)
    requires true in w
    ensures i < |w| && w[i] && forall j :: 0 <= j < i ==> !w[j]
  {
    if w[0] then 0 else
      assert w == [w[0]] + w[1..];
      LowestIndex(w[1..]) + 1
  }

  /** Bit `i` of w & (~w + 1): set only at the lowest set bit of w. */
  lemma {:induction false} LowestBitAt(w: seq<bool>, complement: seq<bool>, i: nat)
    requires true in w && i < |w| == |complement|
    requires forall j :: 0 <= j < |w| ==> (complement[j] <==> !w[j])
    ensures w[i] && Increment(complement)[i] <==> i == LowestIndex(w)
  {
    if w[0] {
      assert Increment(complement) == [true] + complement[1..];
    } else {
      assert w == [w[0]] + w[1..];
      if i > 0 {
        LowestBitAt(w[1..], complement[1..], i - 1);
      }
    }
  }

  /** The bit the two's complement trick isolates. */
  function Lowest(w: Word): Word {
    And(w, Increment(Not(w)))
  }

  lemma LowestIsOneBit(w: Word)
    requires true in w
    ensures Lowest(w) == OneBit(LowestIndex(w))
  {
    forall i | 0 <= i < WIDTH ensures Lowest(w)[i] <==> i == LowestIndex(w) {
      LowestBitAt(w, Not(w), i);
    }
  }

  lemma ZeroIsEmpty(w: Word)
    ensures w == Zero() <==> true !in w
  {
    if true !in w {
      assert forall i :: 0 <= i < WIDTH ==> !w[i];
    }
  }

  /** How many bits are set: what the clearing loop counts down. */
  function Population(w: seq<bool>): nat {
    if w == [] then 0 else (if w[0] then 1 else 0) + Population(w[1..])
  }

  lemma {:induction false} PopulationDrops(w: seq<bool>, i: nat)
    requires i < |w| && w[i]
    ensures Population(w[i := false]) == Population(w) - 1
  {
    if i > 0 {
      PopulationDrops(w[1..], i - 1);
      assert w[i := false][1..] == w[1..][i - 1 := false];
    } else {
      assert w[i := false][1..] == w[1..];
    }
  }

  /** Clearing the lowest bit with exclusive or. */
  lemma ClearLowest(w: Word)
    requires true in w
    ensures Xor(w, Lowest(w)) == w[LowestIndex(w) := false]
    ensures Population(Xor(w, Lowest(w))) < Population(w)
  {
    LowestIsOneBit(w);
    PopulationDrops(w, LowestIndex(w));
    assert Xor(w, Lowest(w)) == w[LowestIndex(w) := false];
  }
}

/** The N-queens count: bitmask search against the set of placements. */
module Queens {
  import opened Placements
  import opened Words
  import opened Tiling

  /** The masks mark exactly the columns of row |p| that the queens of `p` attack. */
  predicate Marks(p: seq<nat>, cols: Word, diag1: Word, diag2: Word) {
    forall i :: 0 <= i < WIDTH ==>
      && (cols[i] <==> exists r :: 0 <= r < |p| && p[r] == i)
      && (diag1[i] <==> exists r :: 0 <= r < |p| && p[r] + (|p| - r) == i)
      && (diag2[i] <==> exists r :: 0 <= r < |p| && p[r] == i + (|p| - r))
  }

  /** No queen of `p` attacks column `c` of the next row. */
  predicate Unattacked(p: seq<nat>, c: nat) {
    forall r :: 0 <= r < |p| ==> p[r] != c && p[r] + (|p| - r) != c && p[r] != c + (|p| - r)
  }

  /** A partial placement grows peacefully by the columns nothing attacks. */
  lemma PeacefulSnoc(n: nat, p: seq<nat>, c: nat)
    ensures Peaceful(n, p + [c]) <==> Peaceful(n, p) && c < n && Unattacked(p, c)
  {
    var q := p + [c];
    assert q[|p|] == c && forall r :: 0 <= r < |p| ==> q[r] == p[r];
    if Peaceful(n, q) {
      forall r, s | 0 <= r < s < |p| ensures !Attacks(p, r, s) {
        assert !Attacks(q, r, s);
      }
      forall r | 0 <= r < |p| ensures p[r] < n && p[r] != c && p[r] + (|p| - r) != c && p[r] != c + (|p| - r) {
        assert !Attacks(q, r, |p|);
      }
    }
    if Peaceful(n, p) && c < n && Unattacked(p, c) {
      forall r, s | 0 <= r < s < |q| ensures !Attacks(q, r, s) {
        assert s < |p| ==> !Attacks(p, r, s);
      }
    }
  }

  /** ~(cols | diag1 | diag2) & ((1 << n) - 1). */
  function Free(n: nat, cols: Word, diag1: Word, diag2: Word): Word
    requires n < WIDTH
  {
    And(Not(Or(Or(cols, diag1), diag2)), Mask(n))
  }

  lemma FreeIsSafe(n: nat, p: seq<nat>, cols: Word, diag1: Word, diag2: Word, c: nat)
    requires n < WIDTH && c < WIDTH && Peaceful(n, p) && Marks(p, cols, diag1, diag2)
    ensures Free(n, cols, diag1, diag2)[c] <==> Peaceful(n, p + [c])
  {
    PeacefulSnoc(n, p, c);
  }

  /** Placing a queen and moving to the next row shifts the marks along. */
  lemma MarksNext(p: seq<nat>, cols: Word, diag1: Word, diag2: Word, c: nat)
    requires c < WIDTH - 1 && Marks(p, cols, diag1, diag2) && forall r :: 0 <= r < |p| ==> p[r] < WIDTH - 1
    ensures Marks(p + [c], Or(cols, OneBit(c)), ShiftLeft(Or(diag1, OneBit(c))), ShiftRight(Or(diag2, OneBit(c))))
  {
    var q := p + [c];
    assert forall r :: 0 <= r < |p| ==> q[r] == p[r];
    var cols', diag1', diag2' := Or(cols, OneBit(c)), ShiftLeft(Or(diag1, OneBit(c))), ShiftRight(Or(diag2, OneBit(c)));
    forall i | 0 <= i < WIDTH
      ensures cols'[i] <==> exists r :: 0 <= r < |q| && q[r] == i
      ensures diag1'[i] <==> exists r :: 0 <= r < |q| && q[r] + (|q| - r) == i
      ensures diag2'[i] <==> exists r :: 0 <= r < |q| && q[r] == i + (|q| - r)
    {
      ColumnMark(p, cols, c, i);
      DiagonalMarks(p, diag1, diag2, c, i);
    }
  }

  lemma ColumnMark(p: seq<nat>, cols: Word, c: nat, i: nat)
    requires c < WIDTH && i < WIDTH && (cols[i] <==> exists r :: 0 <= r < |p| && p[r] == i)
    ensures Or(cols, OneBit(c))[i] <==> exists r :: 0 <= r < |p + [c]| && (p + [c])[r] == i
  {
    var q := p + [c];
    assert q[|p|] == c;
    if cols[i] {
      var r :| 0 <= r < |p| && p[r] == i;
      assert q[r] == i;
    }
  }

  lemma DiagonalMarks(p: seq<nat>, diag1: Word, diag2: Word, c: nat, i: nat)
    requires c < WIDTH - 1 && i < WIDTH && forall r :: 0 <= r < |p| ==> p[r] < WIDTH - 1
    requires forall k :: 0 <= k < WIDTH ==> (diag1[k] <==> exists r :: 0 <= r < |p| && p[r] + (|p| - r) == k)
    requires forall k :: 0 <= k < WIDTH ==> (diag2[k] <==> exists r :: 0 <= r < |p| && p[r] == k + (|p| - r))
    ensures ShiftLeft(Or(diag1, OneBit(c)))[i] <==> exists r :: 0 <= r < |p + [c]| && (p + [c])[r] + (|p + [c]| - r) == i
    ensures ShiftRight(Or(diag2, OneBit(c)))[i] <==> exists r :: 0 <= r < |p + [c]| && (p + [c])[r] == i + (|p + [c]| - r)
  {
    var q := p + [c];
    assert q[|p|] == c;
    if i > 0 && diag1[i - 1] {
      var r :| 0 <= r < |p| && p[r] + (|p| - r) == i - 1;
      assert q[r] + (|q| - r) == i;
    }
    if i < WIDTH - 1 && diag2[i + 1] {
      var r :| 0 <= r < |p| && p[r] == i + 1 + (|p| - r);
      assert q[r] == i + (|q| - r);
    }
  }

  /** Every bit of `bits` is a free column. */
  predicate Candidates(n: nat, cols: Word, diag1: Word, diag2: Word, bits: Word)
    requires n < WIDTH
  {
    forall i :: 0 <= i < WIDTH && bits[i] ==> Free(n, cols, diag1, diag2)[i]
  }

  /** Taking the lowest candidate: a safe column, exact marks for the next row, one candidate fewer. */
  lemma PickCandidate(n: nat, p: seq<nat>, cols: Word, diag1: Word, diag2: Word, bits: Word)
    requires n < WIDTH && Peaceful(n, p) && Marks(p, cols, diag1, diag2)
    requires Candidates(n, cols, diag1, diag2, bits) && bits != Zero()
    ensures true in bits && LowestIndex(bits) < n && Peaceful(n, p + [LowestIndex(bits)])
    ensures Marks(p + [LowestIndex(bits)], Or(cols, Lowest(bits)), ShiftLeft(Or(diag1, Lowest(bits))), ShiftRight(Or(diag2, Lowest(bits))))
    ensures Candidates(n, cols, diag1, diag2, Xor(bits, Lowest(bits)))
    ensures Population(Xor(bits, Lowest(bits))) < Population(bits)
  {
    ZeroIsEmpty(bits);
    var c := LowestIndex(bits);
    LowestIsOneBit(bits);
    ClearLowest(bits);
    FreeIsSafe(n, p, cols, diag1, diag2, c);
    PeacefulSnoc(n, p, c);
    MarksNext(p, cols, diag1, diag2, c);
  }

  /** The completions whose queen of row |p| stands in a column of `bits`. */
  function Through(n: nat, p: seq<nat>, bits: Word): set<seq<nat>>
    requires |p| < n < WIDTH
  {
    set q | q in Completions(n, p) && |q| == n && q[|p|] < n && bits[q[|p|]]
  }

  /** Before the loop every completion is still ahead; none is once no bit is left. */
  lemma ThroughEnds(n: nat, p: seq<nat>, cols: Word, diag1: Word, diag2: Word)
    requires |p| < n < WIDTH && Peaceful(n, p) && Marks(p, cols, diag1, diag2)
    ensures Through(n, p, Free(n, cols, diag1, diag2)) == Completions(n, p)
    ensures Through(n, p, Zero()) == {}
  {
    forall q | q in Completions(n, p)
      ensures |q| == n && q[|p|] < n && Free(n, cols, diag1, diag2)[q[|p|]]
    {
      CompletionsExact(n, p, q);
      PrefixPeaceful(n, q, |p| + 1);
      assert q[..|p| + 1] == p + [q[|p|]];
      FreeIsSafe(n, p, cols, diag1, diag2, q[|p|]);
    }
  }

  lemma PrefixPeaceful(n: nat, q: seq<nat>, k: nat)
    requires k <= |q| && Peaceful(n, q)
    ensures Peaceful(n, q[..k])
  {
    forall r, s | 0 <= r < s < k ensures !Attacks(q[..k], r, s) {
      assert !Attacks(q, r, s);
    }
  }

  /** Clearing the lowest bit sets its branch apart, and no completion is counted in both parts. */
  lemma ThroughStep(n: nat, p: seq<nat>, bits: Word)
    requires |p| < n < WIDTH && true in bits && LowestIndex(bits) < n
    ensures |Through(n, p, bits)| == |Through(n, p, Xor(bits, Lowest(bits)))| + |Completions(n, p + [LowestIndex(bits)])|
  {
    var c := LowestIndex(bits);
    ClearLowest(bits);
    var rest, branch := Through(n, p, Xor(bits, Lowest(bits))), Completions(n, p + [c]);
    forall q
      ensures q in Through(n, p, bits) <==> q in rest || q in branch
      ensures !(q in rest && q in branch)
    {
      CompletionsExact(n, p, q);
      CompletionsExact(n, p + [c], q);
      if |q| == n {
        assert p + [c] <= q <==> p <= q && q[|p|] == c;
      }
    }
    assert Through(n, p, bits) == rest + branch && rest * branch == {};
  }

  /** Counts the completions of the partial placement the masks stand for, on top of `start`. */
  method SeqQueensRec(n: nat, row: nat, cols: Word, diag1: Word, diag2: Word, start: nat, ghost p: seq<nat>) returns (count: nat)
    requires row == |p| <= n < WIDTH && Peaceful(n, p) && Marks(p, cols, diag1, diag2)
    ensures count == start + |Completions(n, p)|
    decreases n - row
  {
    count := start;
    if row == n {
      return count + 1;
    }
    var bits := Free(n, cols, diag1, diag2);
    ThroughEnds(n, p, cols, diag1, diag2);
    while bits != Zero()
      invariant Candidates(n, cols, diag1, diag2, bits)
      invariant count + |Through(n, p, bits)| == start + |Completions(n, p)|
      decreases Population(bits)
    {
      PickCandidate(n, p, cols, diag1, diag2, bits);
      ThroughStep(n, p, bits);
      ghost var c := LowestIndex(bits);
      var pick := Lowest(bits);
      bits := Xor(bits, pick);
      count := SeqQueensRec(n, row + 1, Or(cols, pick), ShiftLeft(Or(diag1, pick)), ShiftRight(Or(diag2, pick)), count, p + [c]);
    }
  }

  /** The number of ways to place `n` peaceful queens. */
  method SeqQueens(n: nat) returns (count: nat)
    requires n < WIDTH
    ensures count == |Completions(n, [])|
  {
    count := SeqQueensRec(n, 0, Zero(), Zero(), Zero(), 0, []);
  }

  /** A root of the parallel search: the masks of a partial placement. */
  datatype Root = Root(cols: Word, diag1: Word, diag2: Word)

  /** The roots stand, one by one, for the peaceful placements `ps` on the first `depth` rows. */
  predicate Stands(n: nat, roots: seq<Root>, ps: seq<seq<nat>>, depth: nat) {
    && |roots| == |ps|
    && forall k :: 0 <= k < |ps| ==> |ps[k]| == depth && Peaceful(n, ps[k]) && Marks(ps[k], roots[k].cols, roots[k].diag1, roots[k].diag2)
  }

  /** All completions of the placements together. */
  function Total(n: nat, ps: seq<seq<nat>>): nat
    requires forall k :: 0 <= k < |ps| ==> |ps[k]| <= n
  {
    if ps == [] then 0 else Total(n, ps[..|ps| - 1]) + |Completions(n, ps[|ps| - 1])|
  }

  lemma {:induction false} TotalConcat(n: nat, a: seq<seq<nat>>, b: seq<seq<nat>>)
    requires forall k :: 0 <= k < |a| ==> |a[k]| <= n
    requires forall k :: 0 <= k < |b| ==> |b[k]| <= n
    requires forall k :: 0 <= k < |a + b| ==> |(a + b)[k]| <= n
    ensures Total(n, a + b) == Total(n, a) + Total(n, b)
  {
    if b == [] {
      assert a + b == a;
    } else {
      assert (a + b)[..|a + b| - 1] == a + b[..|b| - 1];
      TotalConcat(n, a, b[..|b| - 1]);
    }
  }

  lemma TotalSnoc(n: nat, a: seq<seq<nat>>, p: seq<nat>)
    requires |p| <= n && forall k :: 0 <= k < |a| ==> |a[k]| <= n
    ensures Total(n, a + [p]) == Total(n, a) + |Completions(n, p)|
  {
    assert (a + [p])[..|a|] == a;
  }

  lemma StandsSnoc(n: nat, roots: seq<Root>, ps: seq<seq<nat>>, depth: nat, root: Root, p: seq<nat>)
    requires Stands(n, roots, ps, depth)
    requires |p| == depth && Peaceful(n, p) && Marks(p, root.cols, root.diag1, root.diag2)
    ensures Stands(n, roots + [root], ps + [p], depth)
  {
  }

  /** Moving the lowest candidate's branch from the candidates to the children keeps the count. */
  lemma ChildCounted(n: nat, p: seq<nat>, bits: Word, ps: seq<seq<nat>>)
    requires |p| < n < WIDTH && true in bits && LowestIndex(bits) < n && forall k :: 0 <= k < |ps| ==> |ps[k]| <= n
    ensures Total(n, ps + [p + [LowestIndex(bits)]]) + |Through(n, p, Xor(bits, Lowest(bits)))| == Total(n, ps) + |Through(n, p, bits)|
  {
    ThroughStep(n, p, bits);
    TotalSnoc(n, ps, p + [LowestIndex(bits)]);
  }

  /** The masks after a queen on the column of `pick`. */
  function Child(root: Root, pick: Word): Root {
    Root(Or(root.cols, pick), ShiftLeft(Or(root.diag1, pick)), ShiftRight(Or(root.diag2, pick)))
  }

  /** Taking the lowest candidate as a child: it stands for its placement, and no completion gets lost. */
  lemma ChildTaken(n: nat, root: Root, p: seq<nat>, bits: Word, children: seq<Root>, ps: seq<seq<nat>>)
    requires n < WIDTH && Peaceful(n, p) && Marks(p, root.cols, root.diag1, root.diag2)
    requires Candidates(n, root.cols, root.diag1, root.diag2, bits) && bits != Zero() && Stands(n, children, ps, |p| + 1)
    ensures true in bits && LowestIndex(bits) < n && Population(Xor(bits, Lowest(bits))) < Population(bits)
    ensures Candidates(n, root.cols, root.diag1, root.diag2, Xor(bits, Lowest(bits)))
    ensures Stands(n, children + [Child(root, Lowest(bits))], ps + [p + [LowestIndex(bits)]], |p| + 1)
    ensures |p| < n ==>
      Total(n, ps + [p + [LowestIndex(bits)]]) + |Through(n, p, Xor(bits, Lowest(bits)))| == Total(n, ps) + |Through(n, p, bits)|
  {
    PickCandidate(n, p, root.cols, root.diag1, root.diag2, bits);
    StandsSnoc(n, children, ps, |p| + 1, Child(root, Lowest(bits)), p + [LowestIndex(bits)]);
    if |p| < n {
      ChildCounted(n, p, bits, ps);
    }
  }

  /** Expands one root by one row: its children carry all of its completions. */
  method ExpandRoot(n: nat, root: Root, ghost p: seq<nat>) returns (children: seq<Root>, ghost ps: seq<seq<nat>>)
    requires n < WIDTH && Peaceful(n, p) && Marks(p, root.cols, root.diag1, root.diag2)
    ensures Stands(n, children, ps, |p| + 1)
    ensures |p| < n ==> Total(n, ps) == |Completions(n, p)|
  {
    children, ps := [], [];
    var bits := Free(n, root.cols, root.diag1, root.diag2);
    if |p| < n {
      ThroughEnds(n, p, root.cols, root.diag1, root.diag2);
    }
    while bits != Zero()
      invariant Candidates(n, root.cols, root.diag1, root.diag2, bits)
      invariant Stands(n, children, ps, |p| + 1)
      invariant |p| < n ==> Total(n, ps) + |Through(n, p, bits)| == |Completions(n, p)|
      decreases Population(bits)
    {
      ChildTaken(n, root, p, bits, children, ps);
      var pick := Lowest(bits);
      children, ps := children + [Child(root, pick)], ps + [p + [LowestIndex(bits)]];
      bits := Xor(bits, pick);
    }
  }

  lemma RootExpanded(n: nat, done: seq<seq<nat>>, p: seq<nat>, nextPs: seq<seq<nat>>, childPs: seq<seq<nat>>)
    requires |p| <= n && forall k :: 0 <= k < |done| ==> |done[k]| <= n
    requires (forall k :: 0 <= k < |nextPs| ==> |nextPs[k]| <= n) && (forall k :: 0 <= k < |childPs| ==> |childPs[k]| <= n)
    requires Total(n, nextPs) == Total(n, done) && Total(n, childPs) == |Completions(n, p)|
    ensures Total(n, nextPs + childPs) == Total(n, done + [p])
  {
    TotalConcat(n, nextPs, childPs);
    TotalSnoc(n, done, p);
  }

  /** Expands the frontier by one row. */
  method ExpandFrontier(n: nat, frontier: seq<Root>, ghost ps: seq<seq<nat>>, ghost depth: nat)
    returns (next: seq<Root>, ghost nextPs: seq<seq<nat>>)
    requires n < WIDTH && Stands(n, frontier, ps, depth)
    ensures Stands(n, next, nextPs, depth + 1)
    ensures depth < n ==> Total(n, nextPs) == Total(n, ps)
  {
    next, nextPs := [], [];
    for k := 0 to |frontier|
      invariant Stands(n, next, nextPs, depth + 1)
      invariant depth < n ==> Total(n, nextPs) == Total(n, ps[..k])
    {
      var children;
      ghost var childPs;
      children, childPs := ExpandRoot(n, frontier[k], ps[k]);
      assert ps[..k + 1] == ps[..k] + [ps[k]];
      if depth < n {
        RootExpanded(n, ps[..k], ps[k], nextPs, childPs);
      }
      next, nextPs := next + children, nextPs + childPs;
    }
    assert ps[..|frontier|] == ps;
  }

  function ColumnsOf(p: seq<nat>): set<nat> {
    if p == [] then {} else ColumnsOf(p[..|p| - 1]) + {p[|p| - 1]}
  }

  lemma {:induction false} ColumnsAre(p: seq<nat>, c: nat)
    ensures c in ColumnsOf(p) <==> c in p
  {
    if p != [] {
      assert p == p[..|p| - 1] + [p[|p| - 1]];
      ColumnsAre(p[..|p| - 1], c);
    }
  }

  lemma {:induction false} ColumnsDistinct(n: nat, p: seq<nat>)
    requires Peaceful(n, p)
    ensures |ColumnsOf(p)| == |p|
  {
    if p != [] {
      var q, last := p[..|p| - 1], p[|p| - 1];
      PrefixPeaceful(n, p, |q|);
      ColumnsDistinct(n, q);
      LastColumnNew(n, p);
      ColumnsAre(q, last);
    }
  }

  lemma LastColumnNew(n: nat, p: seq<nat>)
    requires Peaceful(n, p) && p != []
    ensures p[|p| - 1] !in p[..|p| - 1]
  {
    forall r | 0 <= r < |p| - 1 ensures p[r] != p[|p| - 1] {
      assert !Attacks(p, r, |p| - 1);
    }
  }

  lemma SubsetSize(a: set<nat>, b: set<nat>)
    requires a <= b
    ensures |a| <= |b|
  {
    assert b == a + (b - a);
  }

  /** No more queens than columns. */
  lemma NotOverfull(n: nat, p: seq<nat>)
    requires Peaceful(n, p)
    ensures |p| <= n
  {
    ColumnsDistinct(n, p);
    forall c | c in ColumnsOf(p) ensures c in Indices(n) {
      ColumnsAre(p, c);
    }
    IndicesSize(n);
    SubsetSize(ColumnsOf(p), Indices(n));
  }

  /** Counts each root of [lo, hi) into its own partial; the two halves run in either order. */
  method Walk(n: nat, rootDepth: nat, roots: seq<Root>, partials: array<nat>, lo: nat, hi: nat, ghost ps: seq<seq<nat>>)
    requires rootDepth <= n < WIDTH && Stands(n, roots, ps, rootDepth)
    requires lo < hi <= |roots| == partials.Length
    modifies partials
    ensures forall k :: 0 <= k < |ps| ==> partials[k] == if lo <= k < hi then |Completions(n, ps[k])| else old(partials[k])
    decreases hi - lo
  {
    if hi - lo == 1 {
      var s := roots[lo];
      var count := SeqQueensRec(n, rootDepth, s.cols, s.diag1, s.diag2, 0, ps[lo]);
      partials[lo] := count;
      return;
    }
    var mid := lo + (hi - lo) / 2;
    if * {
      Walk(n, rootDepth, roots, partials, lo, mid, ps);
      Walk(n, rootDepth, roots, partials, mid, hi, ps);
    } else {
      Walk(n, rootDepth, roots, partials, mid, hi, ps);
      Walk(n, rootDepth, roots, partials, lo, mid, ps);
    }
  }

  /** Expands `rootDepth` rows one after another. */
  method EnumerateRoots(n: nat, rootDepth: nat) returns (frontier: seq<Root>, ghost ps: seq<seq<nat>>)
    requires n < WIDTH
    ensures Stands(n, frontier, ps, rootDepth)
    ensures rootDepth <= n ==> Total(n, ps) == |Completions(n, [])|
  {
    frontier, ps := [Root(Zero(), Zero(), Zero())], [[]];
    TotalSnoc(n, [], []);
    assert [] + [[]] == ps;
    var depth := 0;
    while depth < rootDepth && frontier != []
      invariant depth <= rootDepth && Stands(n, frontier, ps, depth)
      invariant depth <= n ==> Total(n, ps) == |Completions(n, [])|
      decreases rootDepth - depth
    {
      frontier, ps := ExpandFrontier(n, frontier, ps, depth);
      depth := depth + 1;
    }
    if depth < rootDepth {
      assert ps == [];
    }
  }

  /** Adds up the partials in index order. */
  method SumPartials(ghost n: nat, partials: array<nat>, ghost ps: seq<seq<nat>>) returns (total: nat)
    requires |ps| == partials.Length && forall k :: 0 <= k < |ps| ==> |ps[k]| <= n && partials[k] == |Completions(n, ps[k])|
    ensures total == Total(n, ps)
  {
    total := 0;
    for k := 0 to partials.Length
      invariant total == Total(n, ps[..k])
    {
      assert ps[..k + 1] == ps[..k] + [ps[k]];
      TotalSnoc(n, ps[..k], ps[k]);
      total := total + partials[k];
    }
    assert ps[..partials.Length] == ps;
  }

  /**
   * The parallel count. It agrees with the sequential one as long as the board has at least as many rows as the
   * search expands up front; on a smaller board every root dies before the sequential walker could count it.
   */
  method ParQueens(n: nat, rootDepth: nat) returns (total: nat)
    requires n < WIDTH
    ensures total == if rootDepth <= n then |Completions(n, [])| else 0
    ensures total == |Completions(n, [])| <==> rootDepth <= n || n == 2 || n == 3
    ensures rootDepth == 2 ==> (total == |Completions(n, [])| <==> 2 <= n)
  {
    SolvableIff(n);
    var roots;
    ghost var ps;
    roots, ps := EnumerateRoots(n, rootDepth);
    var partials := new nat[|roots|](_ => 0);
    if roots != [] {
      NotOverfull(n, ps[0]);
      Walk(n, rootDepth, roots, partials, 0, |roots|, ps);
    }
    total := SumPartials(n, partials, ps);
  }
}
