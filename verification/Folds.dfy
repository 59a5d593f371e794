/** Combiners, sequential folds, and what merging the folds of consecutive blocks gives. */
module Folds {
  import opened Tiling

  ghost predicate Associative<T(!new)>(combine: (T, T) -> T) {
    forall a, b, c :: combine(combine(a, b), c) == combine(a, combine(b, c))
  }

  ghost predicate Commutative<T(!new)>(combine: (T, T) -> T) {
    forall a, b :: combine(a, b) == combine(b, a)
  }

  ghost predicate Neutral<T(!new)>(combine: (T, T) -> T, identity: T) {
    forall a :: combine(a, identity) == a && combine(identity, a) == a
  }

  /** The sequential fold of the elements lo to hi - 1 onto `start`. */
  function Fold<T>(value: nat -> T, combine: (T, T) -> T, start: T, lo: nat, hi: nat): T
    decreases hi - lo
  {
    if hi <= lo then start else combine(Fold(value, combine, start, lo, hi - 1), value(hi - 1))
  }

  /** The merge loop over the first k partials. */
  function Merged<T>(combine: (T, T) -> T, identity: T, partials: seq<T>, k: nat): T
    requires k <= |partials|
  {
    if k == 0 then identity else combine(Merged(combine, identity, partials, k - 1), partials[k - 1])
  }

  function Append<T>(a: seq<T>, b: seq<T>): seq<T> {
    a + b
  }

  /** What a fold visits: every index of the range once, in ascending order, and nothing else. */
  lemma {:induction false} FoldLists<T>(value: nat -> seq<T>, start: seq<T>, lo: nat, hi: nat)
    requires lo <= hi && forall i: nat :: |value(i)| == 1
    ensures var r := Fold(value, Append, start, lo, hi);
      && |r| == |start| + hi - lo && r[..|start|] == start
      && forall i :: lo <= i < hi ==> r[|start| + i - lo] == value(i)[0]
    decreases hi - lo
  {
    if lo < hi {
      FoldLists(value, start, lo, hi - 1);
    }
  }

  lemma {:induction false} FoldFrom<T(!new)>(value: nat -> T, combine: (T, T) -> T, identity: T, start: T, lo: nat, hi: nat)
    requires Associative(combine) && Neutral(combine, identity)
    ensures Fold(value, combine, start, lo, hi) == combine(start, Fold(value, combine, identity, lo, hi))
    decreases hi - lo
  {
    if lo < hi {
      FoldFrom(value, combine, identity, start, lo, hi - 1);
    }
  }

  lemma {:induction false} FoldSplit<T>(value: nat -> T, combine: (T, T) -> T, start: T, lo: nat, mid: nat, hi: nat)
    requires lo <= mid <= hi
    ensures Fold(value, combine, start, lo, hi) == Fold(value, combine, Fold(value, combine, start, lo, mid), mid, hi)
    decreases hi - mid
  {
    if mid < hi {
      FoldSplit(value, combine, start, lo, mid, hi - 1);
    }
  }

  /** Each partial is the fold of its block. */
  ghost predicate BlockFolds<T>(value: nat -> T, combine: (T, T) -> T, identity: T, bounds: seq<nat>, partials: seq<T>) {
    && |bounds| == |partials| + 1
    && forall b :: 0 <= b < |partials| ==> partials[b] == Fold(value, combine, identity, bounds[b], bounds[b + 1])
  }

  /** Merging block folds in index order is the sequential fold. */
  lemma {:induction false} MergeIsFold<T(!new)>(value: nat -> T, combine: (T, T) -> T, identity: T, bounds: seq<nat>, partials: seq<T>, first: nat, last: nat, k: nat)
    requires Associative(combine) && Neutral(combine, identity)
    requires IsTiling(bounds, first, last) && BlockFolds(value, combine, identity, bounds, partials) && k <= |partials|
    ensures Merged(combine, identity, partials, k) == Fold(value, combine, identity, first, bounds[k])
  {
    if k > 0 {
      MergeIsFold(value, combine, identity, bounds, partials, first, last, k - 1);
      FoldSplit(value, combine, identity, first, bounds[k - 1], bounds[k]);
      FoldFrom(value, combine, identity, Fold(value, combine, identity, first, bounds[k - 1]), bounds[k - 1], bounds[k]);
    }
  }

  /** Every block below `blocks` once. */
  predicate EachOnce(order: seq<nat>, blocks: nat) {
    && (forall k :: 0 <= k < |order| ==> order[k] < blocks)
    && (forall j, k :: 0 <= j < k < |order| ==> order[j] != order[k])
    && (forall b: nat :: b < blocks ==> b in order)
  }
}
