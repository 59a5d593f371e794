/** Combining partials in a fixed pairwise tree over their positions. */
module PairwiseTree {
  import opened Folds
  import opened Tiling

  /** Partials lo to hi - 1 combined left to right. */
  function Joined<T>(combine: (T, T) -> T, p: seq<T>, lo: nat, hi: nat): T
    requires lo < hi <= |p|
    decreases hi - lo
  {
    if hi == lo + 1 then p[lo] else combine(Joined(combine, p, lo, hi - 1), p[hi - 1])
  }

  lemma {:induction false} JoinedSplit<T(!new)>(combine: (T, T) -> T, p: seq<T>, lo: nat, mid: nat, hi: nat)
    requires Associative(combine) && lo < mid < hi <= |p|
    ensures combine(Joined(combine, p, lo, mid), Joined(combine, p, mid, hi)) == Joined(combine, p, lo, hi)
    decreases hi - mid
  {
    if mid + 1 < hi {
      JoinedSplit(combine, p, lo, mid, hi - 1);
    }
  }

  /** With a neutral identity this is the merge loop over the same partials. */
  lemma {:induction false} JoinedIsMerged<T(!new)>(combine: (T, T) -> T, identity: T, p: seq<T>, k: nat)
    requires Neutral(combine, identity) && 0 < k <= |p|
    ensures Joined(combine, p, 0, k) == Merged(combine, identity, p, k)
  {
    if k > 1 {
      JoinedIsMerged(combine, identity, p, k - 1);
    } else {
      assert Merged(combine, identity, p, 0) == identity;
    }
  }

  /** `j` is reached from 0 in strides of `step`. */
  predicate Multiple(j: nat, step: nat)
    requires step > 0
  {
    j == 0 || (j >= step && Multiple(j - step, step))
  }

  lemma {:induction false} MultipleHalf(i: nat, step: nat, stride: nat)
    requires step > 0 && stride == 2 * step && Multiple(i, stride)
    ensures Multiple(i, step)
  {
    if i > 0 {
      MultipleHalf(i - stride, step, stride);
      assert Multiple(i - step, step);
    }
  }

  lemma {:induction false} MultiplesApart(i: nat, j: nat, step: nat)
    requires step > 0 && Multiple(i, step) && Multiple(j, step)
    ensures i < j ==> i + step <= j
    decreases i + j
  {
    if 0 < j && i < j {
      MultiplesApart(j - step, i, step);
    }
  }

  function Upto(j: nat, step: nat, n: nat): nat {
    if j + step < n then j + step else n
  }

  function Power(e: nat): (r: nat)
    ensures r > 0
  {
    if e == 0 then 1 else 2 * Power(e - 1)
  }

  /**
   * The node over the 2^e positions from j on, top down: the two halves combined, or the left half alone where the
   * right one lies beyond the last partial.
   */
  function Node<T>(combine: (T, T) -> T, p: seq<T>, j: nat, e: nat): T
    requires j < |p|
    decreases e
  {
    if e == 0 then p[j]
    else if j + Power(e - 1) < |p| then combine(Node(combine, p, j, e - 1), Node(combine, p, j + Power(e - 1), e - 1))
    else Node(combine, p, j, e - 1)
  }

  /** For an associative combiner a node is the join of its stretch. */
  lemma {:induction false} NodeIsJoined<T(!new)>(combine: (T, T) -> T, p: seq<T>, j: nat, e: nat)
    requires Associative(combine) && j < |p|
    ensures Node(combine, p, j, e) == Joined(combine, p, j, Upto(j, Power(e), |p|))
    decreases e
  {
    if e == 0 {
      assert Upto(j, 1, |p|) == j + 1;
    } else {
      var mid := j + Power(e - 1);
      NodeIsJoined(combine, p, j, e - 1);
      if mid < |p| {
        NodeIsJoined(combine, p, mid, e - 1);
        JoinedSplit(combine, p, j, mid, Upto(mid, Power(e - 1), |p|));
      }
    }
  }

  /** Every position that is a multiple of 2^e holds its node. */
  ghost predicate Level<T>(combine: (T, T) -> T, p: seq<T>, q: seq<T>, e: nat) {
    && |p| == |q|
    && forall j: nat :: j < |p| && Multiple(j, Power(e)) ==> q[j] == Node(combine, p, j, e)
  }

  /** Within a level: nodes below i are already doubled, the others not yet. */
  ghost predicate Between<T>(combine: (T, T) -> T, p: seq<T>, q: seq<T>, e: nat, i: nat) {
    && |p| == |q| && Multiple(i, Power(e + 1))
    && (forall j: nat :: j < |p| && j < i && Multiple(j, Power(e + 1)) ==> q[j] == Node(combine, p, j, e + 1))
    && (forall j: nat :: j < |p| && j >= i && Multiple(j, Power(e)) ==> q[j] == Node(combine, p, j, e))
  }

  lemma PairStep<T>(combine: (T, T) -> T, p: seq<T>, q: seq<T>, e: nat, i: nat)
    requires Between(combine, p, q, e, i) && i + Power(e) < |p|
    ensures Between(combine, p, OnePair(combine, q, Power(e), i), e, i + Power(e + 1))
  {
    MultipleHalf(i, Power(e), Power(e + 1));
    assert Multiple(i + Power(e), Power(e));
    var r := OnePair(combine, q, Power(e), i);
    forall j: nat | j < |p| && j < i + Power(e + 1) && Multiple(j, Power(e + 1))
      ensures r[j] == Node(combine, p, j, e + 1)
    {
      MultiplesApart(i, j, Power(e + 1));
    }
  }

  lemma LevelDone<T>(combine: (T, T) -> T, p: seq<T>, q: seq<T>, e: nat, i: nat)
    requires Between(combine, p, q, e, i) && i + Power(e) >= |p|
    ensures Level(combine, p, q, e + 1)
  {
    forall j: nat | j < |p| && Multiple(j, Power(e + 1)) ensures q[j] == Node(combine, p, j, e + 1) {
      MultipleHalf(j, Power(e), Power(e + 1));
    }
  }

  /** One level of the tree from position i on: its shape depends on the number of partials alone. */
  function Paired<T>(combine: (T, T) -> T, q: seq<T>, step: nat, stride: nat, i: nat): (r: seq<T>)
    requires stride > 0
    ensures |r| == |q|
    decreases |q| - i
  {
    if i + step >= |q| then q else Paired(combine, OnePair(combine, q, step, i), step, stride, i + stride)
  }

  function OnePair<T>(combine: (T, T) -> T, q: seq<T>, step: nat, i: nat): (r: seq<T>)
    requires i + step < |q|
    ensures |r| == |q|
  {
    q[i := combine(q[i], q[i + step])]
  }

  /** All further levels. */
  function Tree<T>(combine: (T, T) -> T, q: seq<T>, step: nat): (r: seq<T>)
    requires step > 0
    ensures |r| == |q|
    decreases |q| - step
  {
    if step >= |q| then q else Tree(combine, Paired(combine, q, step, step * 2, 0), step * 2)
  }

  lemma {:induction false} PairedDoubles<T>(combine: (T, T) -> T, p: seq<T>, q: seq<T>, e: nat, i: nat)
    requires Between(combine, p, q, e, i)
    ensures Level(combine, p, Paired(combine, q, Power(e), Power(e + 1), i), e + 1)
    decreases |q| - i
  {
    if i + Power(e) >= |q| {
      LevelDone(combine, p, q, e, i);
    } else {
      PairStep(combine, p, q, e, i);
      PairedDoubles(combine, p, OnePair(combine, q, Power(e), i), e, i + Power(e + 1));
    }
  }

  /** The doubling levels end with the node over everything, for any combiner. */
  lemma {:induction false} TreeIsNode<T>(combine: (T, T) -> T, p: seq<T>, q: seq<T>, e: nat, top: nat)
    requires |p| > 0 && Level(combine, p, q, e) && e <= top && Power(top) >= |p|
    ensures Tree(combine, q, Power(e))[0] == Node(combine, p, 0, top)
    decreases top - e
  {
    assert Multiple(0, Power(e));
    if Power(e) >= |q| {
      WholeNode(combine, p, e, top);
    } else {
      assert e < top;
      assert Between(combine, p, q, e, 0);
      PairedDoubles(combine, p, q, e, 0);
      TreeIsNode(combine, p, Paired(combine, q, Power(e), Power(e + 1), 0), e + 1, top);
    }
  }

  /** Once a node covers everything, doubling its span changes nothing. */
  lemma {:induction false} WholeNode<T>(combine: (T, T) -> T, p: seq<T>, e: nat, top: nat)
    requires |p| > 0 && e <= top && Power(e) >= |p|
    ensures Node(combine, p, 0, top) == Node(combine, p, 0, e)
    decreases top
  {
    if e < top {
      PowerGrows(e, top - 1);
      WholeNode(combine, p, e, top - 1);
    }
  }

  lemma {:induction false} PowerGrows(e: nat, top: nat)
    requires e <= top
    ensures Power(e) <= Power(top)
    decreases top
  {
    if e < top {
      PowerGrows(e, top - 1);
    }
  }

  lemma {:induction false} PowerReaches(n: nat) returns (top: nat)
    ensures Power(top) >= n
  {
    if n == 0 {
      top := 0;
    } else {
      var before := PowerReaches(n - 1);
      top := before + 1;
    }
  }

  lemma {:induction false} FirstNodes<T>(combine: (T, T) -> T, p: seq<T>, cut: nat, j: nat, e: nat)
    requires j + Power(e) <= cut <= |p|
    ensures Node(combine, p[..cut], j, e) == Node(combine, p, j, e)
    decreases e
  {
    if e > 0 {
      FirstNodes(combine, p, cut, j, e - 1);
      FirstNodes(combine, p, cut, j + Power(e - 1), e - 1);
    }
  }

  lemma {:induction false} LaterNodes<T>(combine: (T, T) -> T, p: seq<T>, cut: nat, j: nat, e: nat)
    requires cut + j < |p|
    ensures Node(combine, p[cut..], j, e) == Node(combine, p, cut + j, e)
    decreases e
  {
    if e > 0 {
      LaterNodes(combine, p, cut, j, e - 1);
      if cut + j + Power(e - 1) < |p| {
        LaterNodes(combine, p, cut, j + Power(e - 1), e - 1);
      }
    }
  }

  lemma RootIsNode<T>(combine: (T, T) -> T, p: seq<T>, top: nat)
    requires |p| > 0 && Power(top) >= |p|
    ensures Tree(combine, p, 1)[0] == Node(combine, p, 0, top)
  {
    assert Level(combine, p, p, 0);
    TreeIsNode(combine, p, p, 0, top);
  }

  /**
   * The shape of the tree, for any combiner: the largest power of two below the number of partials splits them, and the
   * root combines the trees of the two parts, left operand first.
   */
  lemma TreeSplits<T>(combine: (T, T) -> T, p: seq<T>, e: nat)
    requires |p| == 1 || Power(e) < |p| <= Power(e + 1)
    ensures |p| == 1 ==> Tree(combine, p, 1)[0] == p[0]
    ensures |p| > 1 ==> Tree(combine, p, 1)[0] == combine(Tree(combine, p[..Power(e)], 1)[0], Tree(combine, p[Power(e)..], 1)[0])
  {
    if |p| > 1 {
      var m := Power(e);
      RootIsNode(combine, p, e + 1);
      RootIsNode(combine, p[..m], e);
      RootIsNode(combine, p[m..], e);
      FirstNodes(combine, p, m, 0, e);
      LaterNodes(combine, p, m, 0, e);
    }
  }

  /** The root holds the partials combined in order when the combiner is associative. */
  lemma TreeIsJoined<T(!new)>(combine: (T, T) -> T, p: seq<T>)
    requires Associative(combine) && |p| > 0
    ensures Tree(combine, p, 1)[0] == Joined(combine, p, 0, |p|)
  {
    var top := PowerReaches(|p|);
    RootIsNode(combine, p, top);
    NodeIsJoined(combine, p, 0, top);
  }

  method CombineLevel<T>(partials: array<T>, combine: (T, T) -> T, step: nat, stride: nat)
    requires stride > 0
    modifies partials
    ensures partials[..] == Paired(combine, old(partials[..]), step, stride, 0)
  {
    ghost var was := partials[..];
    var i := 0;
    while i + step < partials.Length
      invariant Paired(combine, partials[..], step, stride, i) == Paired(combine, was, step, stride, 0)
      decreases partials.Length - i
    {
      ghost var q := partials[..];
      partials[i] := combine(partials[i], partials[i + step]);
      assert partials[..] == OnePair(combine, q, step, i);
      i := i + stride;
    }
  }

  /** Collapses the workspace level by level; the empty workspace yields the default value. */
  method PairwiseTreeCombine<T(!new)>(partials: array<T>, combine: (T, T) -> T, blank: T) returns (result: T)
    modifies partials
    ensures result == if partials.Length == 0 then blank else Tree(combine, old(partials[..]), 1)[0]
    ensures partials.Length > 0 && Associative(combine) ==> result == Joined(combine, old(partials[..]), 0, partials.Length)
  {
    if partials.Length == 0 {
      return blank;
    }
    ghost var p := partials[..];
    var step := 1;
    while step < partials.Length
      invariant step > 0 && Tree(combine, partials[..], step) == Tree(combine, p, 1)
      decreases partials.Length - step
    {
      var stride := step * 2;
      CombineLevel(partials, combine, step, stride);
      step := stride;
    }
    result := partials[0];
    if Associative(combine) {
      TreeIsJoined(combine, p);
    }
  }

  /** So a reduction over any tiling with tree-combined block partials is the sequential fold. */
  lemma TreeReduceIsFold<T(!new)>(value: nat -> T, combine: (T, T) -> T, identity: T, bounds: seq<nat>, partials: seq<T>, first: nat, last: nat)
    requires Associative(combine) && Neutral(combine, identity) && |partials| > 0
    requires IsTiling(bounds, first, last) && BlockFolds(value, combine, identity, bounds, partials)
    ensures Joined(combine, partials, 0, |partials|) == Fold(value, combine, identity, first, last)
  {
    JoinedIsMerged(combine, identity, partials, |partials|);
    MergeIsFold(value, combine, identity, bounds, partials, first, last, |partials|);
  }
}
