/** Ceiling-division blocks of an index range, in 64-bit unsigned arithmetic. */
module CeilingBlocks {
  import opened MachineWords
  import opened Tiling

  /** The block length: (span + blocks - 1) / blocks on machine words. */
  function BlockLength(span: nat, blocks: nat): nat
    requires 0 < blocks
  {
    Wrap(span + blocks - 1) / blocks
  }

  /** first + min(span, b * length), on machine words. */
  function Bound(first: nat, span: nat, length: nat, b: nat): nat {
    var offset := Wrap(b * length);
    Wrap(first + if span <= offset then span else offset)
  }

  /** The bounds of all blocks; block b is [Bounds[b], Bounds[b + 1]). */
  function Bounds(first: nat, last: nat, blocks: nat): (r: seq<nat>)
    requires 0 < blocks
    ensures |r| == blocks + 1
  {
    var span := Wrap(last - first);
    seq(blocks + 1, b requires 0 <= b <= blocks => Bound(first, span, BlockLength(span, blocks), b))
  }

  lemma ProductMonotone(a: nat, b: nat, c: nat)
    requires a <= b
    ensures a * c <= b * c
  {
  }

  /** Without overflow the blocks together are at least as long as the range and no product overflows. */
  lemma LengthCovers(span: nat, blocks: nat)
    requires 0 < blocks && span + blocks - 1 < RANGE
    ensures span <= blocks * BlockLength(span, blocks) < RANGE
  {
    WrapSmall(span + blocks - 1);
    var q := Quotient(span + blocks - 1, blocks);
  }

  /** The length is the least that lets `blocks` blocks cover the span. */
  lemma LengthIsLeast(span: nat, blocks: nat, length: nat)
    requires 0 < blocks && span + blocks - 1 < RANGE
    ensures span <= blocks * length <==> BlockLength(span, blocks) <= length
  {
    WrapSmall(span + blocks - 1);
    var q := Quotient(span + blocks - 1, blocks);
    if length < q {
      ProductMonotone(length, q - 1, blocks);
      assert (q - 1) * blocks == q * blocks - blocks;
    } else {
      ProductMonotone(q, length, blocks);
    }
  }

  lemma BoundPlain(first: nat, last: nat, blocks: nat, b: nat)
    requires 0 < blocks && b <= blocks && first <= last < RANGE && last - first + blocks - 1 < RANGE
    ensures var length := BlockLength(last - first, blocks);
      && Bounds(first, last, blocks)[b] == (if last - first <= b * length then last else first + b * length)
  {
    var span := last - first;
    var length := BlockLength(span, blocks);
    LengthCovers(span, blocks);
    ProductMonotone(b, blocks, length);
    WrapSmall(span);
    WrapSmall(b * length);
    WrapSmall(first + if span <= b * length then span else b * length);
  }

  /** The blocks tile the range, in ascending order. */
  lemma BlocksTile(first: nat, last: nat, blocks: nat)
    requires 0 < blocks && first <= last < RANGE && last - first + blocks - 1 < RANGE
    ensures IsTiling(Bounds(first, last, blocks), first, last)
  {
    var bounds := Bounds(first, last, blocks);
    var length := BlockLength(last - first, blocks);
    BoundPlain(first, last, blocks, 0);
    BoundPlain(first, last, blocks, blocks);
    LengthCovers(last - first, blocks);
    forall i, j | 0 <= i <= j < |bounds| ensures bounds[i] <= bounds[j] {
      BoundPlain(first, last, blocks, i);
      BoundPlain(first, last, blocks, j);
      ProductMonotone(i, j, length);
    }
  }

  /** When the sum overflows, the block length comes out as zero. */
  lemma OverflowEmpties(span: nat, blocks: nat)
    requires 0 < blocks < RANGE && span < RANGE <= span + blocks - 1
    ensures BlockLength(span, blocks) == 0
  {
    var w := span + blocks - 1 - RANGE;
    assert Wrap(span + blocks - 1) == w;
    var q := Quotient(w, blocks);
    if q > 0 {
      ProductMonotone(1, q, blocks);
    }
  }

  lemma ZeroLengthBounds(first: nat, last: nat, blocks: nat, b: nat)
    requires 0 < blocks && b <= blocks && first < RANGE && BlockLength(Wrap(last - first), blocks) == 0
    ensures Bounds(first, last, blocks)[b] == first
  {
    WrapSmall(first);
    assert b * 0 == 0;
  }

  /** The exact condition under which the blocks tile a non-empty range: the rounding sum must not overflow. */
  lemma TilesExactly(first: nat, last: nat, blocks: nat)
    requires 0 < blocks < RANGE && first < last < RANGE
    ensures IsTiling(Bounds(first, last, blocks), first, last) <==> last - first + blocks - 1 < RANGE
  {
    if last - first + blocks - 1 < RANGE {
      BlocksTile(first, last, blocks);
    } else {
      WrapSmall(last - first);
      OverflowEmpties(last - first, blocks);
      ZeroLengthBounds(first, last, blocks, blocks);
    }
  }

  /** Whether any block is non-empty, for the reduction that does not look at the order of `first` and `last`. */
  lemma SomeBlockRuns(first: nat, last: nat, blocks: nat)
    requires 0 < blocks < RANGE && first < RANGE && last < RANGE
    ensures (exists b :: 0 <= b < blocks && Bounds(first, last, blocks)[b] != Bounds(first, last, blocks)[b + 1])
       <==> first != last && Wrap(last - first) + blocks - 1 < RANGE
  {
    var span := Wrap(last - first);
    var bounds := Bounds(first, last, blocks);
    if span == 0 {
      LengthOfNothing(blocks);
      forall b | 0 <= b <= blocks ensures bounds[b] == first {
        ZeroLengthBounds(first, last, blocks, b);
      }
    } else if span + blocks - 1 >= RANGE {
      OverflowEmpties(span, blocks);
      forall b | 0 <= b <= blocks ensures bounds[b] == first {
        ZeroLengthBounds(first, last, blocks, b);
      }
    } else {
      FirstBlockRuns(first, span, blocks);
      assert bounds[0] == Bound(first, span, BlockLength(span, blocks), 0);
      assert bounds[1] == Bound(first, span, BlockLength(span, blocks), 1);
      assert bounds[0] != bounds[0 + 1];
    }
  }

  lemma LengthOfNothing(blocks: nat)
    requires 0 < blocks < RANGE
    ensures BlockLength(0, blocks) == 0
  {
    WrapSmall(blocks - 1);
    DivExact(0, 0, blocks);
    var q := Quotient(blocks - 1, blocks);
    if q > 0 {
      ProductMonotone(1, q, blocks);
    }
  }

  lemma WrapMoves(x: nat, step: nat)
    requires x < RANGE && 0 < step < RANGE
    ensures Wrap(x + step) != x
  {
    if x + step < RANGE {
      WrapSmall(x + step);
    } else {
      assert Wrap(x + step) == x + step - RANGE;
    }
  }

  lemma LengthPositive(span: nat, blocks: nat)
    requires 0 < blocks && 0 < span && span + blocks - 1 < RANGE
    ensures 0 < BlockLength(span, blocks) < RANGE
  {
    LengthCovers(span, blocks);
    var length := BlockLength(span, blocks);
    assert length == 0 ==> blocks * length == 0;
    ProductMonotone(1, blocks, length);
  }

  lemma FirstBlockRuns(first: nat, span: nat, blocks: nat)
    requires 0 < blocks < RANGE && first < RANGE && 0 < span && span + blocks - 1 < RANGE
    ensures Bound(first, span, BlockLength(span, blocks), 0) != Bound(first, span, BlockLength(span, blocks), 1)
  {
    var length := BlockLength(span, blocks);
    LengthPositive(span, blocks);
    WrapSmall(0);
    WrapSmall(length);
    WrapSmall(first);
    WrapMoves(first, if span <= length then span else length);
  }

  lemma WrapNegative(x: int)
    requires x < 0 && 0 < RANGE + x
    ensures Wrap(x) == RANGE + x
  {
  }

  /**
   * A reversed range: span wraps to nearly the whole word, so unless the rounding sum overflows again the reduction
   * runs its map on indices outside any meaningful range. The plain loop returns at once instead.
   */
  lemma ReversedRange(first: nat, last: nat, blocks: nat)
    requires 0 < blocks < RANGE && last < first < RANGE
    ensures (exists b :: 0 <= b < blocks && Bounds(first, last, blocks)[b] != Bounds(first, last, blocks)[b + 1])
       <==> blocks <= first - last
  {
    SomeBlockRuns(first, last, blocks);
    WrapNegative(last - first);
  }
}

/** Block-wise reductions: partials by block index, and partials in order of arrival. */
module Reduce {
  import opened CeilingBlocks
  import opened Folds
  import opened MachineWords
  import opened Tiling

  /** The map of a block: it folds the block's elements onto what it is given. */
  method MapBlock<T>(value: nat -> T, combine: (T, T) -> T, start: T, lo: nat, hi: nat) returns (r: T)
    ensures r == Fold(value, combine, start, lo, hi)
  {
    r := start;
    if lo < hi {
      for i := lo to hi
        invariant r == Fold(value, combine, start, lo, i)
      {
        r := combine(r, value(i));
      }
    }
  }

  method MergePartials<T>(combine: (T, T) -> T, identity: T, partials: array<T>) returns (result: T)
    ensures result == Merged(combine, identity, partials[..], partials.Length)
  {
    result := identity;
    for k := 0 to partials.Length
      invariant result == Merged(combine, identity, partials[..], k)
    {
      result := combine(result, partials[k]);
    }
  }

  /** Runs the non-empty blocks in any order, each into its own slot; the slots of empty blocks keep the identity. */
  method RunBlocks<T>(value: nat -> T, combine: (T, T) -> T, identity: T, bounds: seq<nat>) returns (partials: array<T>)
    requires |bounds| >= 1
    ensures fresh(partials) && partials.Length == |bounds| - 1
    ensures forall b :: 0 <= b < partials.Length && bounds[b] <= bounds[b + 1] ==>
      partials[b] == Fold(value, combine, identity, bounds[b], bounds[b + 1])
  {
    partials := new T[|bounds| - 1](_ => identity);
    var pending := Indices(partials.Length);
    while pending != {}
      invariant pending <= Indices(partials.Length)
      invariant forall b: nat :: b in pending ==> partials[b] == identity
      invariant forall b: nat :: b < partials.Length && b !in pending && bounds[b] <= bounds[b + 1] ==>
        partials[b] == Fold(value, combine, identity, bounds[b], bounds[b + 1])
      decreases pending
    {
      var b :| b in pending;
      if bounds[b] != bounds[b + 1] {
        var r := MapBlock(value, combine, identity, bounds[b], bounds[b + 1]);
        partials[b] := r;
      }
      pending := pending - {b};
    }
  }

  lemma NothingRuns(first: nat, last: nat, blocks: nat)
    requires 0 < blocks < RANGE && first < last < RANGE && last - first + blocks - 1 >= RANGE
    ensures forall b :: 0 <= b <= blocks ==> Bounds(first, last, blocks)[b] == first
  {
    WrapSmall(last - first);
    OverflowEmpties(last - first, blocks);
    forall b | 0 <= b <= blocks ensures Bounds(first, last, blocks)[b] == first {
      ZeroLengthBounds(first, last, blocks, b);
    }
  }

  /**
   * The indexed reduction. A participant count of zero counts as one. For a proper range it is the sequential fold
   * unless the block arithmetic overflows; then no block runs and the identity comes back.
   */
  method ParallelReduce<T(!new)>(first: nat, last: nat, participantCount: nat, identity: T, value: nat -> T, combine: (T, T) -> T) returns (result: T)
    requires first < RANGE && last < RANGE && participantCount < RANGE
    requires Associative(combine) && Neutral(combine, identity)
    ensures first <= last ==>
      var blocks := if participantCount == 0 then 1 else participantCount;
      result == if first == last || last - first + blocks - 1 < RANGE then Fold(value, combine, identity, first, last) else identity
  {
    var blocks := if participantCount == 0 then 1 else participantCount;
    var bounds := Bounds(first, last, blocks);
    var partials := RunBlocks(value, combine, identity, bounds);
    result := MergePartials(combine, identity, partials);
    if first <= last && last - first + blocks - 1 < RANGE {
      BlocksTile(first, last, blocks);
      MergeIsFold(value, combine, identity, bounds, partials[..], first, last, blocks);
    } else if first < last {
      NothingRuns(first, last, blocks);
      EmptyBlocksNeutral(value, combine, identity, first, bounds, partials[..]);
    }
  }

  lemma {:induction false} AllNeutral<T(!new)>(combine: (T, T) -> T, identity: T, partials: seq<T>, k: nat)
    requires Neutral(combine, identity) && k <= |partials| && forall b :: 0 <= b < |partials| ==> partials[b] == identity
    ensures Merged(combine, identity, partials, k) == identity
  {
    if k > 0 {
      AllNeutral(combine, identity, partials, k - 1);
    }
  }

  lemma EmptyBlocksNeutral<T(!new)>(value: nat -> T, combine: (T, T) -> T, identity: T, first: nat, bounds: seq<nat>, partials: seq<T>)
    requires Neutral(combine, identity) && |bounds| == |partials| + 1 && forall b :: 0 <= b < |bounds| ==> bounds[b] == first
    requires forall b :: 0 <= b < |partials| && bounds[b] <= bounds[b + 1] ==>
      partials[b] == Fold(value, combine, identity, bounds[b], bounds[b + 1])
    ensures Merged(combine, identity, partials, |partials|) == identity
  {
    forall b | 0 <= b < |partials| ensures partials[b] == identity {
      assert bounds[b] == first && bounds[b + 1] == first;
    }
    AllNeutral(combine, identity, partials, |partials|);
  }

  // The arrival-order form: every block draws its slot from a shared counter.

  /** The partials of the blocks in `order`. */
  function Arranged<T>(parts: seq<T>, order: seq<nat>): (r: seq<T>)
    requires forall k :: 0 <= k < |order| ==> order[k] < |parts|
    ensures |r| == |order| && forall k :: 0 <= k < |r| ==> r[k] == parts[order[k]]
  {
    seq(|order|, k requires 0 <= k < |order| => parts[order[k]])
  }

  lemma MergedPrefix<T>(combine: (T, T) -> T, identity: T, a: seq<T>, b: seq<T>, k: nat)
    requires k <= |a| && k <= |b| && a[..k] == b[..k]
    ensures Merged(combine, identity, a, k) == Merged(combine, identity, b, k)
  {
    if k > 0 {
      assert a[..k - 1] == a[..k][..k - 1] && b[..k - 1] == b[..k][..k - 1];
      MergedPrefix(combine, identity, a, b, k - 1);
      assert a[k - 1] == a[..k][k - 1] && b[k - 1] == b[..k][k - 1];
    }
  }

  /** All partials merged. */
  function MergedAll<T>(combine: (T, T) -> T, identity: T, partials: seq<T>): T {
    Merged(combine, identity, partials, |partials|)
  }

  lemma MergedSnoc<T>(combine: (T, T) -> T, identity: T, a: seq<T>, x: T)
    ensures MergedAll(combine, identity, a + [x]) == combine(MergedAll(combine, identity, a), x)
  {
    assert (a + [x])[..|a|] == a[..|a|];
    MergedPrefix(combine, identity, a + [x], a, |a|);
  }

  /** A commutative merge may take any one partial last. */
  lemma {:induction false} MergedWithout<T(!new)>(combine: (T, T) -> T, identity: T, a: seq<T>, i: nat)
    requires Associative(combine) && Commutative(combine) && i < |a|
    ensures MergedAll(combine, identity, a) == combine(MergedAll(combine, identity, a[..i] + a[i + 1..]), a[i])
    decreases |a|
  {
    var last := |a| - 1;
    assert a == a[..last] + [a[last]];
    MergedSnoc(combine, identity, a[..last], a[last]);
    if i < last {
      var b := a[..last];
      MergedWithout(combine, identity, b, i);
      var c := b[..i] + b[i + 1..];
      MergedSnoc(combine, identity, c, a[last]);
      assert a[..i] + a[i + 1..] == c + [a[last]];
      var m := MergedAll(combine, identity, c);
      assert combine(combine(m, a[i]), a[last]) == combine(m, combine(a[i], a[last]))
          == combine(m, combine(a[last], a[i])) == combine(combine(m, a[last]), a[i]);
    } else {
      assert a[..i] + a[i + 1..] == a[..last];
    }
  }

  lemma TakeOut<T>(a: seq<T>, i: nat)
    requires i < |a|
    ensures multiset(a) == multiset(a[..i] + a[i + 1..]) + multiset{a[i]}
  {
    assert a == a[..i] + [a[i]] + a[i + 1..];
  }

  /** So the merge of a commutative combine does not depend on the order of the partials. */
  lemma {:induction false} MergedPermutation<T(!new)>(combine: (T, T) -> T, identity: T, a: seq<T>, b: seq<T>)
    requires Associative(combine) && Commutative(combine) && multiset(a) == multiset(b)
    ensures MergedAll(combine, identity, a) == MergedAll(combine, identity, b)
    decreases |a|
  {
    assert |a| == |multiset(a)| == |multiset(b)| == |b|;
    if a != [] {
      var last := |a| - 1;
      var x := a[last];
      assert a == a[..last] + [x];
      assert x in multiset(a);
      var i :| 0 <= i < |b| && b[i] == x;
      TakeOut(b, i);
      assert multiset(a[..last]) == multiset(a) - multiset{x} == multiset(b[..i] + b[i + 1..]);
      MergedPermutation(combine, identity, a[..last], b[..i] + b[i + 1..]);
      MergedWithout(combine, identity, b, i);
      MergedSnoc(combine, identity, a[..last], x);
    }
  }

  /** Leaving out the last block. */
  lemma EachOnceLess(order: seq<nat>, blocks: nat) returns (i: nat, rest: seq<nat>)
    requires blocks > 0 && EachOnce(order, blocks)
    ensures i < |order| && order[i] == blocks - 1 && rest == order[..i] + order[i + 1..] && EachOnce(rest, blocks - 1)
  {
    var b: nat := blocks - 1;
    assert b in order;
    i :| 0 <= i < |order| && order[i] == blocks - 1;
    rest := order[..i] + order[i + 1..];
    forall c: nat | c < blocks - 1 ensures c in rest {
      assert c in order;
      var k :| 0 <= k < |order| && order[k] == c;
      assert rest[if k < i then k else k - 1] == c;
    }
  }

  lemma HeadBelow(order: seq<nat>, blocks: nat)
    requires EachOnce(order, blocks)
    ensures order != [] ==> order[0] < blocks
  {
  }

  lemma {:induction false} EachOnceLength(order: seq<nat>, blocks: nat)
    requires EachOnce(order, blocks)
    ensures |order| == blocks
    decreases blocks
  {
    HeadBelow(order, blocks);
    if blocks > 0 {
      var i, rest := EachOnceLess(order, blocks);
      EachOnceLength(rest, blocks - 1);
    }
  }

  lemma ArrangedLess<T>(parts: seq<T>, order: seq<nat>, i: nat, rest: seq<nat>)
    requires parts != [] && EachOnce(order, |parts|) && i < |order| && rest == order[..i] + order[i + 1..] && EachOnce(rest, |parts| - 1)
    ensures Arranged(parts, order)[..i] + Arranged(parts, order)[i + 1..] == Arranged(parts[..|parts| - 1], rest)
  {
  }

  /** Every block in exactly one slot: the arranged partials are the partials in another order. */
  lemma {:induction false} ArrangedPermutes<T>(parts: seq<T>, order: seq<nat>)
    requires EachOnce(order, |parts|)
    ensures multiset(Arranged(parts, order)) == multiset(parts)
    decreases |parts|
  {
    if parts != [] {
      var last := |parts| - 1;
      var i, rest := EachOnceLess(order, |parts|);
      ArrangedPermutes(parts[..last], rest);
      TakeOut(Arranged(parts, order), i);
      ArrangedLess(parts, order, i, rest);
      assert parts == parts[..last] + [parts[last]];
    } else {
      EachOnceLength(order, 0);
    }
  }

  /** The value each block contributes. */
  function Contributions<T>(value: nat -> T, combine: (T, T) -> T, identity: T, bounds: seq<nat>): (parts: seq<T>)
    requires |bounds| >= 1
    ensures |parts| == |bounds| - 1
  {
    seq(|bounds| - 1, b requires 0 <= b < |bounds| - 1 => Fold(value, combine, identity, bounds[b], bounds[b + 1]))
  }

  /** The shared state of the blocks: which block drew each slot so far, who has not drawn, which drawn slots are not written. */
  datatype Arrival = Arrival(order: seq<nat>, undrawn: set<nat>, unwritten: set<nat>)

  predicate Consistent(s: Arrival, blocks: nat) {
    && (forall k :: 0 <= k < |s.order| ==> s.order[k] < blocks && s.order[k] !in s.undrawn)
    && (forall j, k :: 0 <= j < k < |s.order| ==> s.order[j] != s.order[k])
    && (forall b: nat :: b < blocks ==> b in s.undrawn || b in s.order)
    && s.undrawn <= Indices(blocks) && s.unwritten <= Indices(|s.order|) && |s.order| + |s.undrawn| == blocks
  }

  /** Block b draws the next slot: fetch_add on the slot counter. */
  function Draw(s: Arrival, b: nat): Arrival {
    Arrival(s.order + [b], s.undrawn - {b}, s.unwritten + {|s.order|})
  }

  /** The block that drew slot k writes it. */
  function Write(s: Arrival, k: nat): Arrival {
    s.(unwritten := s.unwritten - {k})
  }

  lemma DrawOrder(s: Arrival, b: nat, blocks: nat)
    requires Consistent(s, blocks) && b in s.undrawn
    ensures var t := Draw(s, b);
      && (forall k :: 0 <= k < |t.order| ==> t.order[k] < blocks && t.order[k] !in t.undrawn)
      && (forall j, k :: 0 <= j < k < |t.order| ==> t.order[j] != t.order[k])
  {
    assert b in Indices(blocks);
  }

  lemma DrawCovers(s: Arrival, b: nat, blocks: nat)
    requires Consistent(s, blocks) && b in s.undrawn
    ensures forall c: nat :: c < blocks ==> c in Draw(s, b).undrawn || c in Draw(s, b).order
  {
    forall c: nat | c < blocks ensures c in Draw(s, b).undrawn || c in Draw(s, b).order {
      assert c in s.undrawn || c in s.order;
    }
  }

  lemma DrawKeeps(s: Arrival, b: nat, blocks: nat)
    requires Consistent(s, blocks) && b in s.undrawn
    ensures Consistent(Draw(s, b), blocks)
    ensures |Draw(s, b).undrawn| < |s.undrawn|
  {
    DrawOrder(s, b, blocks);
    DrawCovers(s, b, blocks);
  }

  /** Every written slot holds the contribution of the block that drew it. */
  predicate Written<T(==)>(s: Arrival, parts: seq<T>, partials: seq<T>) {
    && Consistent(s, |parts|) && |partials| >= |parts|
    && forall k: nat :: k < |s.order| && k !in s.unwritten ==> partials[k] == parts[s.order[k]]
  }

  lemma DrawWritten<T>(s: Arrival, b: nat, parts: seq<T>, partials: seq<T>)
    requires Written(s, parts, partials) && b in s.undrawn
    ensures Written(Draw(s, b), parts, partials)
  {
    DrawKeeps(s, b, |parts|);
  }

  lemma SlotInRange(s: Arrival, k: nat, blocks: nat)
    requires Consistent(s, blocks) && k in s.unwritten
    ensures k < |s.order| && s.order[k] < blocks && k < blocks
    ensures Consistent(Write(s, k), blocks) && |Write(s, k).unwritten| < |s.unwritten|
  {
    assert k in Indices(|s.order|);
  }

  lemma WriteKeeps<T>(s: Arrival, k: nat, parts: seq<T>, partials: seq<T>)
    requires Written(s, parts, partials) && k in s.unwritten
    ensures k < |s.order| && s.order[k] < |parts| && k < |partials|
    ensures Written(Write(s, k), parts, partials[k := parts[s.order[k]]])
    ensures |Write(s, k).unwritten| < |s.unwritten|
  {
    SlotInRange(s, k, |parts|);
    var t, p := Write(s, k), partials[k := parts[s.order[k]]];
    forall j: nat | j < |t.order| && j !in t.unwritten ensures p[j] == parts[t.order[j]] {
      if j != k {
        assert j !in s.unwritten;
      }
    }
  }

  lemma AllDrawn(s: Arrival, blocks: nat)
    requires Consistent(s, blocks) && s.undrawn == {}
    ensures EachOnce(s.order, blocks)
  {
  }

  lemma AllArrived<T>(s: Arrival, parts: seq<T>, partials: seq<T>)
    requires Written(s, parts, partials) && s.undrawn == {} && s.unwritten == {}
    ensures EachOnce(s.order, |parts|) && partials[..|parts|] == Arranged(parts, s.order)
  {
    AllDrawn(s, |parts|);
    EachOnceLength(s.order, |parts|);
    forall k: nat | k < |parts| ensures partials[k] == Arranged(parts, s.order)[k] {
      assert k !in s.unwritten;
    }
  }

  /** The block that drew slot k maps its range and stores the partial there. */
  method WriteSlot<T>(s: Arrival, k: nat, bounds: seq<nat>, identity: T, value: nat -> T, combine: (T, T) -> T, partials: array<T>, ghost parts: seq<T>)
    requires |bounds| == |parts| + 1 && parts == Contributions(value, combine, identity, bounds)
    requires Written(s, parts, partials[..]) && k in s.unwritten
    modifies partials
    ensures Written(Write(s, k), parts, partials[..])
    ensures forall j :: |parts| <= j < partials.Length ==> partials[j] == old(partials[j])
  {
    ghost var was := partials[..];
    WriteKeeps(s, k, parts, was);
    var b := s.order[k];
    var r := MapBlock(value, combine, identity, bounds[b], bounds[b + 1]);
    partials[k] := r;
    assert partials[..] == was[k := parts[b]];
  }

  /** For a commutative combine the order of arrival does not show: the result is the sequential fold. */
  lemma ArrivalIsFold<T(!new)>(bounds: seq<nat>, first: nat, last: nat, identity: T, value: nat -> T, combine: (T, T) -> T, order: seq<nat>)
    requires IsTiling(bounds, first, last) && EachOnce(order, |bounds| - 1)
    requires Associative(combine) && Commutative(combine) && Neutral(combine, identity)
    ensures MergedAll(combine, identity, Arranged(Contributions(value, combine, identity, bounds), order)) == Fold(value, combine, identity, first, last)
  {
    var parts := Contributions(value, combine, identity, bounds);
    ArrangedPermutes(parts, order);
    MergedPermutation(combine, identity, Arranged(parts, order), parts);
    MergeIsFold(value, combine, identity, bounds, parts, first, last, |parts|);
  }

  /** Slots no block has drawn. */
  function Spare<T>(identity: T, n: nat): (r: seq<T>)
    ensures |r| == n && forall k :: 0 <= k < n ==> r[k] == identity
  {
    seq(n, _ => identity)
  }

  lemma {:induction false} SpareNeutral<T(!new)>(combine: (T, T) -> T, identity: T, partials: seq<T>, n: nat)
    requires Neutral(combine, identity)
    ensures MergedAll(combine, identity, partials + Spare(identity, n)) == MergedAll(combine, identity, partials)
    decreases n
  {
    if n == 0 {
      assert partials + Spare(identity, 0) == partials;
    } else {
      SpareNeutral(combine, identity, partials, n - 1);
      MergedSnoc(combine, identity, partials + Spare(identity, n - 1), identity);
      assert partials + Spare(identity, n) == partials + Spare(identity, n - 1) + [identity];
    }
  }

  lemma SpareLeft<T>(partials: seq<T>, blocks: nat, identity: T)
    requires blocks <= |partials| && forall j :: blocks <= j < |partials| ==> partials[j] == identity
    ensures partials == partials[..blocks] + Spare(identity, |partials| - blocks)
  {
  }

  /** What the slots hold when all blocks have arrived, and after them the slots the pool made no block for. */
  function Arrived<T>(bounds: seq<nat>, identity: T, value: nat -> T, combine: (T, T) -> T, order: seq<nat>, slots: nat): seq<T>
    requires 1 <= |bounds| <= slots + 1 && EachOnce(order, |bounds| - 1)
  {
    Arranged(Contributions(value, combine, identity, bounds), order) + Spare(identity, slots - (|bounds| - 1))
  }

  /** One draw or one write, by whichever block comes next. */
  method ArrivalStep<T>(s: Arrival, bounds: seq<nat>, identity: T, value: nat -> T, combine: (T, T) -> T, partials: array<T>, ghost parts: seq<T>) returns (t: Arrival)
    requires |bounds| == |parts| + 1 && parts == Contributions(value, combine, identity, bounds)
    requires Written(s, parts, partials[..]) && (s.undrawn != {} || s.unwritten != {})
    modifies partials
    ensures Written(t, parts, partials[..])
    ensures forall j :: |parts| <= j < partials.Length ==> partials[j] == old(partials[j])
    ensures |t.undrawn| < |s.undrawn| || (|t.undrawn| == |s.undrawn| && |t.unwritten| < |s.unwritten|)
  {
    var drawNext: bool := *;
    if s.undrawn != {} && (s.unwritten == {} || drawNext) {
      var b :| b in s.undrawn;
      DrawKeeps(s, b, |bounds| - 1);
      DrawWritten(s, b, parts, partials[..]);
      t := Draw(s, b);
    } else {
      var k :| k in s.unwritten;
      WriteKeeps(s, k, parts, partials[..]);
      WriteSlot(s, k, bounds, identity, value, combine, partials, parts);
      t := Write(s, k);
    }
  }

  /** Until every block has drawn and written. */
  method AllSteps<T>(start: Arrival, bounds: seq<nat>, identity: T, value: nat -> T, combine: (T, T) -> T, partials: array<T>, ghost parts: seq<T>) returns (s: Arrival)
    requires |bounds| == |parts| + 1 && parts == Contributions(value, combine, identity, bounds) && Written(start, parts, partials[..])
    modifies partials
    ensures Written(s, parts, partials[..]) && s.undrawn == {} && s.unwritten == {}
    ensures forall j :: |parts| <= j < partials.Length ==> partials[j] == old(partials[j])
  {
    s := start;
    while s.undrawn != {} || s.unwritten != {}
      invariant Written(s, parts, partials[..])
      invariant forall j :: |parts| <= j < partials.Length ==> partials[j] == old(partials[j])
      decreases |s.undrawn|, |s.unwritten|
    {
      s := ArrivalStep(s, bounds, identity, value, combine, partials, parts);
    }
  }

  lemma NothingWritten<T>(parts: seq<T>, partials: seq<T>)
    requires |partials| >= |parts|
    ensures Written(Arrival([], Indices(|parts|), {}), parts, partials)
  {
    IndicesSize(|parts|);
  }

  /** Runs the blocks, with any interleaving of draws and writes between them. */
  method RunArrivals<T>(bounds: seq<nat>, identity: T, value: nat -> T, combine: (T, T) -> T, slots: nat) returns (partials: array<T>, ghost order: seq<nat>)
    requires 1 <= |bounds| <= slots + 1
    ensures fresh(partials) && EachOnce(order, |bounds| - 1)
    ensures partials[..] == Arrived(bounds, identity, value, combine, order, slots)
  {
    var blocks := |bounds| - 1;
    ghost var parts := Contributions(value, combine, identity, bounds);
    partials := new T[slots](_ => identity);
    NothingWritten(parts, partials[..]);
    var s := AllSteps(Arrival([], Indices(blocks), {}), bounds, identity, value, combine, partials, parts);
    AllArrived(s, parts, partials[..]);
    order := s.order;
    SpareLeft(partials[..], blocks, identity);
  }

  /**
   * The arrival-order reduction. One slot per participant; the pool cuts the range into at most that many blocks, each
   * draws its slot and later writes its partial there. What comes back is the merge in the order of arrival, which for
   * a commutative combine is the sequential fold.
   */
  method ArrivalReduce<T(!new)>(first: nat, last: nat, participantCount: nat, bounds: seq<nat>, identity: T, value: nat -> T, combine: (T, T) -> T)
    returns (result: T, ghost order: seq<nat>)
    requires first < last && participantCount > 0 ==> IsTiling(bounds, first, last) && |bounds| <= participantCount + 1
    ensures last <= first || participantCount == 0 ==> result == identity
    ensures first < last && participantCount > 0 ==>
      && EachOnce(order, |bounds| - 1)
      && result == MergedAll(combine, identity, Arrived(bounds, identity, value, combine, order, participantCount))
      && (Associative(combine) && Commutative(combine) && Neutral(combine, identity) ==> result == Fold(value, combine, identity, first, last))
  {
    order := [];
    if last <= first || participantCount == 0 {
      return identity, [];
    }
    var partials;
    partials, order := RunArrivals(bounds, identity, value, combine, participantCount);
    result := MergePartials(combine, identity, partials);
    if Associative(combine) && Commutative(combine) && Neutral(combine, identity) {
      ArrivalIsFold(bounds, first, last, identity, value, combine, order);
      SpareNeutral(combine, identity, Arranged(Contributions(value, combine, identity, bounds), order), participantCount - (|bounds| - 1));
    }
  }

  /** Without commutativity it does show: two blocks that arrive in the other order give the other product. */
  lemma ArrivalShows<T(!new)>(identity: T, value: nat -> T, combine: (T, T) -> T)
    requires Neutral(combine, identity) && combine(value(0), value(1)) != combine(value(1), value(0))
    ensures EachOnce([1, 0], 2)
    ensures MergedAll(combine, identity, Arranged(Contributions(value, combine, identity, [0, 1, 2]), [1, 0])) != Fold(value, combine, identity, 0, 2)
  {
    var parts := Contributions(value, combine, identity, [0, 1, 2]);
    var order: seq<nat> := [1, 0];
    assert order[0] == 1 && order[1] == 0;
    assert parts[0] == Fold(value, combine, identity, 0, 1) == combine(identity, value(0));
    assert parts[1] == Fold(value, combine, identity, 1, 2) == combine(identity, value(1));
    var arranged := Arranged(parts, order);
    assert arranged == [] + [value(1)] + [value(0)];
    MergedSnoc(combine, identity, [value(1)], value(0));
    MergedSnoc(combine, identity, [], value(1));
    assert [] + [value(1)] == [value(1)];
  }

  /** This tiling's blocks, arriving in this order, give the sequential fold. */
  ghost predicate ArrivalRight<T(!new)>(combine: (T, T) -> T, identity: T, value: nat -> T, bounds: seq<nat>, order: seq<nat>)
    requires |bounds| >= 1 && EachOnce(order, |bounds| - 1)
  {
    MergedAll(combine, identity, Arranged(Contributions(value, combine, identity, bounds), order)) == Fold(value, combine, identity, bounds[0], bounds[|bounds| - 1])
  }

  /** The order of arrival never shows, on any input, exactly when the combiner commutes. */
  lemma ArrivalRightIff<T(!new)>(combine: (T, T) -> T, identity: T)
    requires Associative(combine) && Neutral(combine, identity)
    ensures Commutative(combine) <==>
      forall value: nat -> T, bounds: seq<nat>, order: seq<nat> ::
        |bounds| >= 1 && IsTiling(bounds, bounds[0], bounds[|bounds| - 1]) && EachOnce(order, |bounds| - 1) ==>
          ArrivalRight(combine, identity, value, bounds, order)
  {
    if Commutative(combine) {
      forall value: nat -> T, bounds: seq<nat>, order: seq<nat>
        | |bounds| >= 1 && IsTiling(bounds, bounds[0], bounds[|bounds| - 1]) && EachOnce(order, |bounds| - 1)
        ensures ArrivalRight(combine, identity, value, bounds, order)
      {
        ArrivalIsFold(bounds, bounds[0], bounds[|bounds| - 1], identity, value, combine, order);
      }
    } else {
      var a, b :| combine(a, b) != combine(b, a);
      var value: nat -> T := i => if i == 0 then a else b;
      ArrivalShows(identity, value, combine);
      var bounds: seq<nat> := [0, 1, 2];
      var order: seq<nat> := [1, 0];
      assert IsTiling(bounds, bounds[0], bounds[|bounds| - 1]) && !ArrivalRight(combine, identity, value, bounds, order);
    }
  }
}
