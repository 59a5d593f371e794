/** The bucketed merge of two sorted runs: splitters, offsets by scan, buckets merged in any order. */
module BucketMerging {
  import opened Merging
  import opened Tiling
  import opened Scan

  /** One slice of each run and where its merge lands. */
  datatype MergeBucket = MergeBucket(aLo: nat, aHi: nat, bLo: nat, bHi: nat, outOffset: nat)

  /** Where the two runs are cut: bucket k is [aCut[k], aCut[k + 1]) and [bCut[k], bCut[k + 1]). */
  datatype Cuts = Cuts(aCut: seq<nat>, bCut: seq<nat>)

  /** The cuts partition both runs. */
  predicate CutsTile(s: seq<int>, aLo: nat, aHi: nat, bLo: nat, bHi: nat, c: Cuts, buckets: nat) {
    && aLo <= aHi <= |s| && bLo <= bHi <= |s|
    && |c.aCut| == |c.bCut| == buckets + 1
    && IsTiling(c.aCut, aLo, aHi) && IsTiling(c.bCut, bLo, bHi)
  }

  /** Moreover, nothing left of a cut exceeds anything right of it. */
  predicate GoodCuts(s: seq<int>, aLo: nat, aHi: nat, bLo: nat, bHi: nat, c: Cuts, buckets: nat) {
    && CutsTile(s, aLo, aHi, bLo, bHi, c, buckets)
    && forall k :: 0 <= k <= buckets ==>
         Ordered(s[aLo..c.aCut[k]] + s[bLo..c.bCut[k]], s[c.aCut[k]..aHi] + s[c.bCut[k]..bHi])
  }

  /** What bucket `k` contributes. */
  function BucketMerge(s: seq<int>, c: Cuts, k: nat): seq<int>
    requires k + 1 < |c.aCut| == |c.bCut|
    requires c.aCut[k] <= c.aCut[k + 1] <= |s| && c.bCut[k] <= c.bCut[k + 1] <= |s|
  {
    Merge(s[c.aCut[k]..c.aCut[k + 1]], s[c.bCut[k]..c.bCut[k + 1]])
  }

  /** Output cells before bucket `k`, from the start of the output. */
  function Before(c: Cuts, aLo: nat, bLo: nat, k: nat): int
    requires k < |c.aCut| == |c.bCut|
  {
    (c.aCut[k] - aLo) + (c.bCut[k] - bLo)
  }

  lemma AtInSlice(s: seq<int>, p: nat, lo: nat, hi: nat)
    requires lo <= p < hi <= |s|
    ensures s[p] in s[lo..hi]
  {
    assert s[lo..hi][p - lo] == s[p];
  }

  lemma SortedAt(s: seq<int>, lo: nat, hi: nat, p: nat, q: nat)
    requires lo <= p <= q < hi <= |s| && Sorted(s[lo..hi])
    ensures s[p] <= s[q]
  {
    assert s[lo..hi][p - lo] == s[p] && s[lo..hi][q - lo] == s[q];
  }

  lemma SliceSorted(s: seq<int>, lo: nat, hi: nat, p: nat, q: nat)
    requires lo <= p <= q <= hi <= |s| && Sorted(s[lo..hi])
    ensures Sorted(s[p..q])
  {
    forall i, j | 0 <= i < j < q - p ensures s[p..q][i] <= s[p..q][j] {
      assert s[p..q][i] == s[lo..hi][p - lo + i] && s[p..q][j] == s[lo..hi][p - lo + j];
    }
  }

  lemma OrderedSub(low: seq<int>, high: seq<int>, low': seq<int>, high': seq<int>)
    requires Ordered(low, high)
    requires forall x :: x in low' ==> x in low
    requires forall y :: y in high' ==> y in high
    ensures Ordered(low', high')
  {
  }

  lemma InSlice(s: seq<int>, lo: nat, hi: nat, lo': nat, hi': nat)
    requires lo' <= lo <= hi <= hi' <= |s|
    ensures forall x :: x in s[lo..hi] ==> x in s[lo'..hi']
  {
    forall x | x in s[lo..hi] ensures x in s[lo'..hi'] {
      var k :| 0 <= k < hi - lo && s[lo..hi][k] == x;
      assert s[lo'..hi'][lo - lo' + k] == x;
    }
  }

  lemma OrderedAtCut(s: seq<int>, aLo: nat, p: nat, p': nat, aHi: nat, bLo: nat, q: nat, q': nat, bHi: nat)
    requires aLo <= p <= p' <= aHi <= |s| && bLo <= q <= q' <= bHi <= |s|
    requires Ordered(s[aLo..p] + s[bLo..q], s[p..aHi] + s[q..bHi])
    ensures Ordered(s[aLo..p] + s[bLo..q], s[p..p'] + s[q..q'])
  {
    InSlice(s, p, p', p, aHi);
    InSlice(s, q, q', q, bHi);
    OrderedSub(s[aLo..p] + s[bLo..q], s[p..aHi] + s[q..bHi], s[aLo..p] + s[bLo..q], s[p..p'] + s[q..q']);
  }

  lemma JoinSlices(s: seq<int>, x: int, y: int, z: int)
    requires 0 <= x <= y <= z <= |s|
    ensures s[x..z] == s[x..y] + s[y..z]
  {
  }

  /** The merge up to one cut extends to the next by that bucket's merge. */
  lemma PrefixGrows(s: seq<int>, aLo: nat, aHi: nat, bLo: nat, bHi: nat, c: Cuts, buckets: nat, k: nat)
    requires GoodCuts(s, aLo, aHi, bLo, bHi, c, buckets) && k < buckets
    requires Sorted(s[aLo..aHi]) && Sorted(s[bLo..bHi])
    ensures Merge(s[aLo..c.aCut[k + 1]], s[bLo..c.bCut[k + 1]]) ==
      Merge(s[aLo..c.aCut[k]], s[bLo..c.bCut[k]]) + BucketMerge(s, c, k)
  {
    var p, p', q, q' := c.aCut[k], c.aCut[k + 1], c.bCut[k], c.bCut[k + 1];
    OrderedAtCut(s, aLo, p, p', aHi, bLo, q, q', bHi);
    SliceSorted(s, aLo, aHi, aLo, p');
    SliceSorted(s, bLo, bHi, bLo, q');
    JoinSlices(s, aLo, p, p');
    JoinSlices(s, bLo, q, q');
    MergeJoin(s[aLo..p], s[p..p'], s[bLo..q], s[q..q']);
  }

  /** The output slice of bucket `k` holds that bucket's merge. */
  predicate BucketDone(s: seq<int>, out: seq<int>, outLo: nat, aLo: nat, bLo: nat, c: Cuts, k: nat)
    requires k + 1 < |c.aCut| == |c.bCut|
  {
    && c.aCut[k] <= c.aCut[k + 1] <= |s| && c.bCut[k] <= c.bCut[k + 1] <= |s|
    && 0 <= outLo + Before(c, aLo, bLo, k) <= outLo + Before(c, aLo, bLo, k + 1) <= |out|
    && out[outLo + Before(c, aLo, bLo, k)..outLo + Before(c, aLo, bLo, k + 1)] == BucketMerge(s, c, k)
  }

  lemma BeforeBounds(s: seq<int>, aLo: nat, aHi: nat, bLo: nat, bHi: nat, c: Cuts, buckets: nat, k: nat)
    requires CutsTile(s, aLo, aHi, bLo, bHi, c, buckets) && k <= buckets
    ensures 0 <= Before(c, aLo, bLo, k) <= (aHi - aLo) + (bHi - bLo)
    ensures k == 0 ==> Before(c, aLo, bLo, k) == 0
    ensures k == buckets ==> Before(c, aLo, bLo, k) == (aHi - aLo) + (bHi - bLo)
    ensures k < buckets ==> c.aCut[k] <= c.aCut[k + 1] <= |s| && c.bCut[k] <= c.bCut[k + 1] <= |s|
    ensures k < buckets ==> Before(c, aLo, bLo, k + 1) == Before(c, aLo, bLo, k) + |BucketMerge(s, c, k)|
  {
  }

  /** The output up to bucket `k` is the merge of the runs up to cut `k`. */
  predicate PrefixDone(s: seq<int>, out: seq<int>, outLo: nat, aLo: nat, bLo: nat, c: Cuts, k: nat)
    requires k < |c.aCut| == |c.bCut|
  {
    && aLo <= c.aCut[k] <= |s| && bLo <= c.bCut[k] <= |s| && outLo + Before(c, aLo, bLo, k) <= |out|
    && out[outLo..outLo + Before(c, aLo, bLo, k)] == Merge(s[aLo..c.aCut[k]], s[bLo..c.bCut[k]])
  }

  lemma PrefixStep(s: seq<int>, out: seq<int>, outLo: nat, aLo: nat, aHi: nat, bLo: nat, bHi: nat, c: Cuts, buckets: nat, k: nat)
    requires GoodCuts(s, aLo, aHi, bLo, bHi, c, buckets) && Sorted(s[aLo..aHi]) && Sorted(s[bLo..bHi]) && k < buckets
    requires PrefixDone(s, out, outLo, aLo, bLo, c, k) && BucketDone(s, out, outLo, aLo, bLo, c, k)
    ensures PrefixDone(s, out, outLo, aLo, bLo, c, k + 1)
  {
    BeforeBounds(s, aLo, aHi, bLo, bHi, c, buckets, k);
    PrefixGrows(s, aLo, aHi, bLo, bHi, c, buckets, k);
    JoinSlices(out, outLo, outLo + Before(c, aLo, bLo, k), outLo + Before(c, aLo, bLo, k + 1));
  }

  /** When every bucket is done the output is the merge of the two runs. */
  lemma {:induction false} AllBucketsDone(s: seq<int>, out: seq<int>, outLo: nat, aLo: nat, aHi: nat, bLo: nat, bHi: nat, c: Cuts, buckets: nat, k: nat)
    requires GoodCuts(s, aLo, aHi, bLo, bHi, c, buckets) && Sorted(s[aLo..aHi]) && Sorted(s[bLo..bHi]) && k <= buckets
    requires forall b :: 0 <= b < buckets ==> BucketDone(s, out, outLo, aLo, bLo, c, b)
    requires outLo <= |out|
    ensures PrefixDone(s, out, outLo, aLo, bLo, c, k)
  {
    if k == 0 {
      BeforeBounds(s, aLo, aHi, bLo, bHi, c, buckets, 0);
      assert s[aLo..c.aCut[0]] == [] && s[bLo..c.bCut[0]] == [];
    } else {
      AllBucketsDone(s, out, outLo, aLo, aHi, bLo, bHi, c, buckets, k - 1);
      PrefixStep(s, out, outLo, aLo, aHi, bLo, bHi, c, buckets, k - 1);
    }
  }

  // ---- Splitters.

  /** Positions in the larger run, evenly spaced, and the matching positions in the other run. */
  predicate SplitAt(s: seq<int>, primLo: nat, primHi: nat, secLo: nat, secHi: nat, prim: nat, sec: nat) {
    && primLo <= prim < primHi <= |s| && secLo <= sec <= secHi <= |s|
    && (forall x :: x in s[secLo..sec] ==> x < s[prim])
    && (forall x :: x in s[sec..secHi] ==> s[prim] <= x)
  }

  lemma SplitOrders(s: seq<int>, primLo: nat, primHi: nat, secLo: nat, secHi: nat, prim: nat, sec: nat)
    requires SplitAt(s, primLo, primHi, secLo, secHi, prim, sec) && Sorted(s[primLo..primHi])
    ensures Ordered(s[primLo..prim] + s[secLo..sec], s[prim..primHi] + s[sec..secHi])
    ensures Ordered(s[secLo..sec] + s[primLo..prim], s[sec..secHi] + s[prim..primHi])
  {
    var run, key := s[primLo..primHi], s[prim];
    forall x | x in s[primLo..prim] ensures x <= key {
      var k :| 0 <= k < prim - primLo && s[primLo..prim][k] == x;
      assert run[k] == x && run[prim - primLo] == key;
    }
    forall y | y in s[prim..primHi] ensures key <= y {
      var k :| 0 <= k < primHi - prim && s[prim..primHi][k] == y;
      assert run[prim - primLo + k] == y && run[prim - primLo] == key;
    }
  }

  lemma SplitBelow(s: seq<int>, primLo: nat, primHi: nat, secLo: nat, secHi: nat, prim: nat, sec: nat, p: nat)
    requires SplitAt(s, primLo, primHi, secLo, secHi, prim, sec) && secLo <= p < secHi
    ensures p < sec ==> s[p] < s[prim]
    ensures sec <= p ==> s[prim] <= s[p]
  {
    if p < sec {
      AtInSlice(s, p, secLo, sec);
    } else {
      AtInSlice(s, p, sec, secHi);
    }
  }

  /** A later splitter never cuts the other run earlier. */
  lemma SplitMonotone(s: seq<int>, primLo: nat, primHi: nat, secLo: nat, secHi: nat, prim: nat, sec: nat, prim': nat, sec': nat)
    requires SplitAt(s, primLo, primHi, secLo, secHi, prim, sec) && SplitAt(s, primLo, primHi, secLo, secHi, prim', sec')
    requires Sorted(s[primLo..primHi]) && prim <= prim'
    ensures sec <= sec'
  {
    SortedAt(s, primLo, primHi, prim, prim');
    if sec' < sec {
      SplitBelow(s, primLo, primHi, secLo, secHi, prim, sec, sec');
      SplitBelow(s, primLo, primHi, secLo, secHi, prim', sec', sec');
    }
  }

  /** The splitters chosen so far: the ends are the runs' own, the rest are proper splits in order. */
  predicate Splitters(s: seq<int>, primLo: nat, primHi: nat, secLo: nat, secHi: nat, prim: seq<nat>, sec: seq<nat>, buckets: nat, count: nat)
    requires |prim| == |sec| == buckets + 1 && 1 <= count <= buckets && primLo <= primHi
  {
    && prim[0] == primLo && prim[buckets] == primHi && sec[0] == secLo && sec[buckets] == secHi
    && forall k :: 1 <= k < count ==>
         prim[k] == primLo + Cut(primHi - primLo, k, buckets) && SplitAt(s, primLo, primHi, secLo, secHi, prim[k], sec[k])
  }

  lemma SplittersTile(s: seq<int>, primLo: nat, primHi: nat, secLo: nat, secHi: nat, prim: seq<nat>, sec: seq<nat>, buckets: nat)
    requires primLo <= primHi <= |s| && secLo <= secHi <= |s| && buckets >= 1 && |prim| == |sec| == buckets + 1
    requires Splitters(s, primLo, primHi, secLo, secHi, prim, sec, buckets, buckets) && Sorted(s[primLo..primHi])
    ensures IsTiling(prim, primLo, primHi) && IsTiling(sec, secLo, secHi)
  {
    forall i, j | 0 <= i <= j < buckets + 1 ensures prim[i] <= prim[j] && sec[i] <= sec[j] {
      if 1 <= i && j < buckets {
        CutMonotone(primHi - primLo, i, j, buckets);
        SplitMonotone(s, primLo, primHi, secLo, secHi, prim[i], sec[i], prim[j], sec[j]);
      }
    }
  }

  lemma SplittersOrder(s: seq<int>, primLo: nat, primHi: nat, secLo: nat, secHi: nat, prim: seq<nat>, sec: seq<nat>, buckets: nat, k: nat)
    requires primLo <= primHi <= |s| && secLo <= secHi <= |s| && buckets >= 1 && |prim| == |sec| == buckets + 1 && k <= buckets
    requires Splitters(s, primLo, primHi, secLo, secHi, prim, sec, buckets, buckets) && Sorted(s[primLo..primHi])
    ensures primLo <= prim[k] <= primHi && secLo <= sec[k] <= secHi
    ensures Ordered(s[primLo..prim[k]] + s[secLo..sec[k]], s[prim[k]..primHi] + s[sec[k]..secHi])
    ensures Ordered(s[secLo..sec[k]] + s[primLo..prim[k]], s[sec[k]..secHi] + s[prim[k]..primHi])
  {
    if 1 <= k < buckets {
      SplitOrders(s, primLo, primHi, secLo, secHi, prim[k], sec[k]);
    }
  }

  /** Evenly spaced cuts of the larger run, and the binary-searched matching cuts of the other. */
  method ChooseSplitters(src: array<int>, primLo: nat, primHi: nat, secLo: nat, secHi: nat, buckets: nat)
    returns (primSplit: array<nat>, secSplit: array<nat>)
    requires primLo < primHi <= src.Length && secLo <= secHi <= src.Length && buckets >= 1
    requires Sorted(src[primLo..primHi]) && Sorted(src[secLo..secHi])
    ensures primSplit.Length == secSplit.Length == buckets + 1
    ensures Splitters(src[..], primLo, primHi, secLo, secHi, primSplit[..], secSplit[..], buckets, buckets)
  {
    ghost var s := src[..];
    var nPrim := primHi - primLo;
    primSplit := new nat[buckets + 1](_ => 0);
    secSplit := new nat[buckets + 1](_ => 0);
    primSplit[0], primSplit[buckets] := primLo, primHi;
    secSplit[0], secSplit[buckets] := secLo, secHi;
    for k := 1 to buckets
      invariant s == src[..] && fresh(primSplit) && fresh(secSplit) && primSplit != secSplit
      invariant primSplit.Length == secSplit.Length == buckets + 1
      invariant Splitters(s, primLo, primHi, secLo, secHi, primSplit[..], secSplit[..], buckets, k)
    {
      CutBelow(nPrim, k, buckets);
      primSplit[k] := primLo + nPrim * k / buckets;
      var key := src[primSplit[k]];
      var pos := LowerBound(src, secLo, secHi, key);
      secSplit[k] := pos;
    }
  }

  // ---- Buckets.

  /** The splitters in the original orientation of the two runs. */
  function Oriented(aIsLarger: bool, prim: seq<nat>, sec: seq<nat>): Cuts {
    if aIsLarger then Cuts(prim, sec) else Cuts(sec, prim)
  }

  lemma OrientedGood(s: seq<int>, aLo: nat, aHi: nat, bLo: nat, bHi: nat, aIsLarger: bool, prim: seq<nat>, sec: seq<nat>, buckets: nat)
    requires aLo <= aHi <= |s| && bLo <= bHi <= |s| && buckets >= 1 && |prim| == |sec| == buckets + 1
    requires Sorted(s[aLo..aHi]) && Sorted(s[bLo..bHi])
    requires if aIsLarger then Splitters(s, aLo, aHi, bLo, bHi, prim, sec, buckets, buckets)
             else Splitters(s, bLo, bHi, aLo, aHi, prim, sec, buckets, buckets)
    ensures GoodCuts(s, aLo, aHi, bLo, bHi, Oriented(aIsLarger, prim, sec), buckets)
  {
    var c := Oriented(aIsLarger, prim, sec);
    if aIsLarger {
      SplittersTile(s, aLo, aHi, bLo, bHi, prim, sec, buckets);
    } else {
      SplittersTile(s, bLo, bHi, aLo, aHi, prim, sec, buckets);
    }
    forall k | 0 <= k <= buckets
      ensures Ordered(s[aLo..c.aCut[k]] + s[bLo..c.bCut[k]], s[c.aCut[k]..aHi] + s[c.bCut[k]..bHi])
    {
      if aIsLarger {
        SplittersOrder(s, aLo, aHi, bLo, bHi, prim, sec, buckets, k);
      } else {
        SplittersOrder(s, bLo, bHi, aLo, aHi, prim, sec, buckets, k);
      }
    }
  }

  /** Every part has the rounded-down share of the run, or one element more. */
  predicate EvenCuts(cut: seq<nat>, length: nat, buckets: nat)
    requires |cut| == buckets + 1 && buckets >= 1
  {
    forall k :: 0 <= k < buckets ==> length / buckets <= cut[k + 1] - cut[k] <= length / buckets + 1
  }

  lemma SplittersEven(s: seq<int>, primLo: nat, primHi: nat, secLo: nat, secHi: nat, prim: seq<nat>, sec: seq<nat>, buckets: nat)
    requires primLo <= primHi && buckets >= 1 && |prim| == |sec| == buckets + 1
    requires Splitters(s, primLo, primHi, secLo, secHi, prim, sec, buckets, buckets)
    ensures EvenCuts(prim, primHi - primLo, buckets)
  {
    CutEnds(primHi - primLo, buckets);
    forall k | 0 <= k < buckets
      ensures (primHi - primLo) / buckets <= prim[k + 1] - prim[k] <= (primHi - primLo) / buckets + 1
    {
      CutStep(primHi - primLo, k, buckets);
    }
  }

  /** The choice both merges start from: the larger run is cut evenly. */
  method ChooseCuts(src: array<int>, aLo: nat, aHi: nat, bLo: nat, bHi: nat, buckets: nat) returns (aCut: array<nat>, bCut: array<nat>)
    requires aLo <= aHi <= src.Length && bLo <= bHi <= src.Length && aLo < aHi + (bHi - bLo) && buckets >= 1
    requires Sorted(src[aLo..aHi]) && Sorted(src[bLo..bHi])
    ensures GoodCuts(src[..], aLo, aHi, bLo, bHi, Cuts(aCut[..], bCut[..]), buckets)
    ensures aHi - aLo >= bHi - bLo ==> aCut.Length == buckets + 1 && EvenCuts(aCut[..], aHi - aLo, buckets)
    ensures aHi - aLo < bHi - bLo ==> bCut.Length == buckets + 1 && EvenCuts(bCut[..], bHi - bLo, buckets)
  {
    ghost var s := src[..];
    assert s[aLo..aHi] == src[aLo..aHi] && s[bLo..bHi] == src[bLo..bHi];
    if aHi - aLo >= bHi - bLo {
      aCut, bCut := ChooseSplitters(src, aLo, aHi, bLo, bHi, buckets);
      OrientedGood(s, aLo, aHi, bLo, bHi, true, aCut[..], bCut[..], buckets);
      SplittersEven(s, aLo, aHi, bLo, bHi, aCut[..], bCut[..], buckets);
    } else {
      bCut, aCut := ChooseSplitters(src, bLo, bHi, aLo, aHi, buckets);
      OrientedGood(s, aLo, aHi, bLo, bHi, false, bCut[..], aCut[..], buckets);
      SplittersEven(s, bLo, bHi, aLo, aHi, bCut[..], aCut[..], buckets);
    }
  }

  function BucketSize(c: Cuts, k: nat): int
    requires k + 1 < |c.aCut| == |c.bCut|
  {
    Before(c, 0, 0, k + 1) - Before(c, 0, 0, k)
  }

  /** The scan of the bucket sizes gives each bucket's place in the output. */
  lemma {:induction false} OffsetsAreBefore(s: seq<int>, aLo: nat, aHi: nat, bLo: nat, bHi: nat, c: Cuts, buckets: nat, sizes: seq<nat>, k: nat)
    requires CutsTile(s, aLo, aHi, bLo, bHi, c, buckets) && |sizes| == buckets && k <= buckets
    requires forall b :: 0 <= b < buckets ==> sizes[b] == BucketSize(c, b)
    ensures PrefixSum(sizes, k) == Before(c, aLo, bLo, k)
  {
    if k > 0 {
      OffsetsAreBefore(s, aLo, aHi, bLo, bHi, c, buckets, sizes, k - 1);
    }
  }

  /** The descriptor of bucket `k` says where its slices are and where its output goes. */
  predicate Described(m: MergeBucket, c: Cuts, outLo: nat, aLo: nat, bLo: nat, k: nat)
    requires k + 1 < |c.aCut| == |c.bCut|
  {
    && m.aLo == c.aCut[k] && m.aHi == c.aCut[k + 1] && m.bLo == c.bCut[k] && m.bHi == c.bCut[k + 1]
    && m.outOffset == outLo + Before(c, aLo, bLo, k)
  }

  lemma BeforeMonotone(s: seq<int>, aLo: nat, aHi: nat, bLo: nat, bHi: nat, c: Cuts, buckets: nat, j: nat, k: nat)
    requires CutsTile(s, aLo, aHi, bLo, bHi, c, buckets) && j <= k <= buckets
    ensures Before(c, aLo, bLo, j) <= Before(c, aLo, bLo, k)
  {
  }

  /** Buckets not in `pending` are done and nothing outside the output range has changed. */
  predicate Progress(s: seq<int>, was: seq<int>, out: seq<int>, outLo: nat, aLo: nat, aHi: nat, bLo: nat, bHi: nat, c: Cuts, buckets: nat, pending: set<nat>)
    requires CutsTile(s, aLo, aHi, bLo, bHi, c, buckets)
  {
    && |out| == |was| && outLo + (aHi - aLo) + (bHi - bLo) <= |out|
    && (forall p :: 0 <= p < |out| && !(outLo <= p < outLo + (aHi - aLo) + (bHi - bLo)) ==> out[p] == was[p])
    && (forall k: nat :: k < buckets && k !in pending ==> BucketDone(s, out, outLo, aLo, bLo, c, k))
  }

  lemma BucketKept(s: seq<int>, out: seq<int>, out': seq<int>, outLo: nat, aLo: nat, aHi: nat, bLo: nat, bHi: nat, c: Cuts, buckets: nat, j: nat, k: nat)
    requires CutsTile(s, aLo, aHi, bLo, bHi, c, buckets) && j < buckets && k < buckets && j != k
    requires BucketDone(s, out, outLo, aLo, bLo, c, j)
    requires Overlaid(out, out', outLo + Before(c, aLo, bLo, k), BucketMerge(s, c, k))
    ensures BucketDone(s, out', outLo, aLo, bLo, c, j)
  {
    BeforeBounds(s, aLo, aHi, bLo, bHi, c, buckets, k);
    if j < k {
      BeforeMonotone(s, aLo, aHi, bLo, bHi, c, buckets, j + 1, k);
    } else {
      BeforeMonotone(s, aLo, aHi, bLo, bHi, c, buckets, k + 1, j);
    }
    var x, y := outLo + Before(c, aLo, bLo, j), outLo + Before(c, aLo, bLo, j + 1);
    assert out'[x..y] == out[x..y];
  }

  /** Merging one more bucket, whichever it is, disturbs none of the finished ones. */
  lemma BucketStep(s: seq<int>, was: seq<int>, out: seq<int>, out': seq<int>, outLo: nat, aLo: nat, aHi: nat, bLo: nat, bHi: nat,
                   c: Cuts, buckets: nat, pending: set<nat>, k: nat)
    requires CutsTile(s, aLo, aHi, bLo, bHi, c, buckets) && k < buckets
    requires Progress(s, was, out, outLo, aLo, aHi, bLo, bHi, c, buckets, pending)
    requires c.aCut[k] <= c.aCut[k + 1] <= |s| && c.bCut[k] <= c.bCut[k + 1] <= |s| && 0 <= outLo + Before(c, aLo, bLo, k)
    requires Overlaid(out, out', outLo + Before(c, aLo, bLo, k), BucketMerge(s, c, k))
    ensures Progress(s, was, out', outLo, aLo, aHi, bLo, bHi, c, buckets, pending - {k})
  {
    BeforeBounds(s, aLo, aHi, bLo, bHi, c, buckets, k);
    BeforeBounds(s, aLo, aHi, bLo, bHi, c, buckets, k + 1);
    forall j: nat | j < buckets && j !in pending - {k} ensures BucketDone(s, out', outLo, aLo, bLo, c, j) {
      if j != k {
        BucketKept(s, out, out', outLo, aLo, aHi, bLo, bHi, c, buckets, j, k);
      }
    }
  }

  lemma ProgressComplete(s: seq<int>, was: seq<int>, out: seq<int>, outLo: nat, aLo: nat, aHi: nat, bLo: nat, bHi: nat, c: Cuts, buckets: nat)
    requires GoodCuts(s, aLo, aHi, bLo, bHi, c, buckets) && Sorted(s[aLo..aHi]) && Sorted(s[bLo..bHi])
    requires Progress(s, was, out, outLo, aLo, aHi, bLo, bHi, c, buckets, {})
    ensures Overlaid(was, out, outLo, Merge(s[aLo..aHi], s[bLo..bHi]))
  {
    AllBucketsDone(s, out, outLo, aLo, aHi, bLo, bHi, c, buckets, buckets);
    BeforeBounds(s, aLo, aHi, bLo, bHi, c, buckets, buckets);
  }

  method BucketSizes(ghost s: seq<int>, ghost aLo: nat, ghost aHi: nat, ghost bLo: nat, ghost bHi: nat, aCut: array<nat>, bCut: array<nat>, buckets: nat)
    returns (sizes: array<nat>)
    requires CutsTile(s, aLo, aHi, bLo, bHi, Cuts(aCut[..], bCut[..]), buckets)
    ensures fresh(sizes) && sizes.Length == buckets
    ensures forall k :: 0 <= k < buckets ==> sizes[k] == BucketSize(Cuts(aCut[..], bCut[..]), k)
  {
    sizes := new nat[buckets](_ => 0);
    for k := 0 to buckets
      invariant forall b :: 0 <= b < k ==> sizes[b] == BucketSize(Cuts(aCut[..], bCut[..]), b)
    {
      sizes[k] := (aCut[k + 1] - aCut[k]) + (bCut[k + 1] - bCut[k]);
    }
  }

  /** Each bucket's distance from the start of the output, by the two-pass scan. */
  method BucketOffsets(ghost s: seq<int>, ghost aLo: nat, ghost aHi: nat, ghost bLo: nat, ghost bHi: nat, aCut: array<nat>, bCut: array<nat>, buckets: nat,
                       participants: nat, inlineThreshold: nat) returns (offsets: array<nat>)
    requires participants >= 1 && CutsTile(s, aLo, aHi, bLo, bHi, Cuts(aCut[..], bCut[..]), buckets)
    ensures fresh(offsets) && offsets.Length == buckets
    ensures forall k :: 0 <= k < buckets ==> offsets[k] == Before(Cuts(aCut[..], bCut[..]), aLo, bLo, k)
  {
    ghost var c := Cuts(aCut[..], bCut[..]);
    var sizes := BucketSizes(s, aLo, aHi, bLo, bHi, aCut, bCut, buckets);
    ghost var z := sizes[..];
    offsets := new nat[buckets](_ => 0);
    EvenBoundsTile(buckets, participants);
    var total := ParallelScan(sizes, offsets, EvenBounds(buckets, participants), inlineThreshold);
    forall k | 0 <= k < buckets ensures offsets[k] == Before(c, aLo, bLo, k) {
      OffsetsAreBefore(s, aLo, aHi, bLo, bHi, c, buckets, z, k);
    }
  }

  method DescribeBuckets(ghost s: seq<int>, ghost aLo: nat, ghost aHi: nat, ghost bLo: nat, ghost bHi: nat, outLo: nat, aCut: array<nat>, bCut: array<nat>,
                         buckets: nat, participants: nat, inlineThreshold: nat) returns (descriptors: array<MergeBucket>)
    requires participants >= 1 && CutsTile(s, aLo, aHi, bLo, bHi, Cuts(aCut[..], bCut[..]), buckets)
    ensures fresh(descriptors) && descriptors.Length == buckets
    ensures forall k :: 0 <= k < buckets ==> Described(descriptors[k], Cuts(aCut[..], bCut[..]), outLo, aLo, bLo, k)
  {
    var offsets := BucketOffsets(s, aLo, aHi, bLo, bHi, aCut, bCut, buckets, participants, inlineThreshold);
    ghost var c := Cuts(aCut[..], bCut[..]);
    descriptors := new MergeBucket[buckets](_ => MergeBucket(0, 0, 0, 0, 0));
    for k := 0 to buckets
      invariant Cuts(aCut[..], bCut[..]) == c
      invariant forall b :: 0 <= b < buckets ==> offsets[b] == Before(c, aLo, bLo, b)
      invariant forall b :: 0 <= b < k ==> Described(descriptors[b], c, outLo, aLo, bLo, b)
    {
      descriptors[k] := MergeBucket(aCut[k], aCut[k + 1], bCut[k], bCut[k + 1], outLo + offsets[k]);
    }
  }

  /** A described bucket lies inside both runs and its output inside the output range. */
  lemma BucketRoom(s: seq<int>, m: MergeBucket, outLo: nat, aLo: nat, aHi: nat, bLo: nat, bHi: nat, c: Cuts, buckets: nat, k: nat)
    requires CutsTile(s, aLo, aHi, bLo, bHi, c, buckets) && k < buckets && Described(m, c, outLo, aLo, bLo, k)
    ensures m.aLo <= m.aHi <= |s| && m.bLo <= m.bHi <= |s|
    ensures c.aCut[k] <= c.aCut[k + 1] <= |s| && c.bCut[k] <= c.bCut[k + 1] <= |s| && 0 <= outLo + Before(c, aLo, bLo, k)
    ensures m.outOffset + (m.aHi - m.aLo) + (m.bHi - m.bLo) == outLo + Before(c, aLo, bLo, k + 1) <= outLo + (aHi - aLo) + (bHi - bLo)
    ensures BucketMerge(s, c, k) == Merge(s[m.aLo..m.aHi], s[m.bLo..m.bHi])
  {
    BeforeBounds(s, aLo, aHi, bLo, bHi, c, buckets, k);
    BeforeBounds(s, aLo, aHi, bLo, bHi, c, buckets, k + 1);
  }

  /** Merges one bucket that is still pending. */
  method MergeBucketOnce(src: array<int>, m: MergeBucket, dst: array<int>, ghost s: seq<int>, ghost was: seq<int>, ghost outLo: nat,
                         ghost aLo: nat, ghost aHi: nat, ghost bLo: nat, ghost bHi: nat, ghost c: Cuts, ghost buckets: nat, ghost pending: set<nat>, ghost k: nat)
    returns (written: nat)
    requires src != dst && s == src[..] && CutsTile(s, aLo, aHi, bLo, bHi, c, buckets) && k < buckets && Described(m, c, outLo, aLo, bLo, k)
    requires Progress(s, was, dst[..], outLo, aLo, aHi, bLo, bHi, c, buckets, pending)
    modifies dst
    ensures s == src[..] && Progress(s, was, dst[..], outLo, aLo, aHi, bLo, bHi, c, buckets, pending - {k})
    ensures m.outOffset + written == outLo + Before(c, aLo, bLo, k + 1)
  {
    ghost var out := dst[..];
    BucketRoom(s, m, outLo, aLo, aHi, bLo, bHi, c, buckets, k);
    written := MergeSlices(src, m, dst, s);
    BucketStep(s, was, out, dst[..], outLo, aLo, aHi, bLo, bHi, c, buckets, pending, k);
  }

  method MergeSlices(src: array<int>, m: MergeBucket, dst: array<int>, ghost s: seq<int>) returns (written: nat)
    requires src != dst && s == src[..] && m.aLo <= m.aHi <= |s| && m.bLo <= m.bHi <= |s|
    requires m.outOffset + (m.aHi - m.aLo) + (m.bHi - m.bLo) <= dst.Length
    modifies dst
    ensures s == src[..] && written == (m.aHi - m.aLo) + (m.bHi - m.bLo)
    ensures Overlaid(old(dst[..]), dst[..], m.outOffset, Merge(s[m.aLo..m.aHi], s[m.bLo..m.bHi]))
  {
    assert s[m.aLo..m.aHi] == src[m.aLo..m.aHi] && s[m.bLo..m.bHi] == src[m.bLo..m.bHi];
    written := SeqMerge(src, m.aLo, m.aHi, m.bLo, m.bHi, dst, m.outOffset);
  }

  /** Merges the buckets in whatever order the pool runs them. */
  method MergeBuckets(src: array<int>, descriptors: array<MergeBucket>, dst: array<int>, ghost s: seq<int>, ghost outLo: nat,
                      ghost aLo: nat, ghost aHi: nat, ghost bLo: nat, ghost bHi: nat, ghost c: Cuts, buckets: nat)
    requires src != dst && s == src[..] && descriptors.Length == buckets && CutsTile(s, aLo, aHi, bLo, bHi, c, buckets)
    requires forall k :: 0 <= k < buckets ==> Described(descriptors[k], c, outLo, aLo, bLo, k)
    requires outLo + (aHi - aLo) + (bHi - bLo) <= dst.Length
    modifies dst
    ensures Progress(s, old(dst[..]), dst[..], outLo, aLo, aHi, bLo, bHi, c, buckets, {})
  {
    ghost var was := dst[..];
    var pending := Indices(buckets);
    while pending != {}
      invariant pending <= Indices(buckets) && s == src[..]
      invariant Progress(s, was, dst[..], outLo, aLo, aHi, bLo, bHi, c, buckets, pending)
      decreases pending
    {
      var k :| k in pending;
      var _ := MergeBucketOnce(src, descriptors[k], dst, s, was, outLo, aLo, aHi, bLo, bHi, c, buckets, pending, k);
      pending := pending - {k};
    }
  }

  /** Merges the sorted runs `src[aLo..aHi]` and `src[bLo..bHi]` into `dst` from `outLo` on. */
  method ParallelMerge(src: array<int>, aLo: nat, aHi: nat, bLo: nat, bHi: nat, dst: array<int>, outLo: nat,
                       cutoff: nat, buckets: nat, participants: nat, inlineThreshold: nat)
    requires aLo <= aHi <= src.Length && bLo <= bHi <= src.Length && src != dst
    requires Sorted(src[aLo..aHi]) && Sorted(src[bLo..bHi])
    requires outLo + (aHi - aLo) + (bHi - bLo) <= dst.Length && buckets >= 1 && participants >= 1
    modifies dst
    ensures Overlaid(old(dst[..]), dst[..], outLo, Merge(src[aLo..aHi], src[bLo..bHi]))
  {
    ghost var s, was := src[..], dst[..];
    assert s[aLo..aHi] == src[aLo..aHi] && s[bLo..bHi] == src[bLo..bHi];
    var total := (aHi - aLo) + (bHi - bLo);
    if total == 0 {
      return;
    }
    if total < cutoff {
      var _ := SeqMerge(src, aLo, aHi, bLo, bHi, dst, outLo);
      return;
    }
    var aCut, bCut := ChooseCuts(src, aLo, aHi, bLo, bHi, buckets);
    ghost var c := Cuts(aCut[..], bCut[..]);
    var descriptors := DescribeBuckets(s, aLo, aHi, bLo, bHi, outLo, aCut, bCut, buckets, participants, inlineThreshold);
    MergeBuckets(src, descriptors, dst, s, outLo, aLo, aHi, bLo, bHi, c, buckets);
    ProgressComplete(s, was, dst[..], outLo, aLo, aHi, bLo, bHi, c, buckets);
  }

  /** The serial form: the same buckets in order, the output offset carried along. It writes the same array. */
  method SerialMerge(src: array<int>, aLo: nat, aHi: nat, bLo: nat, bHi: nat, dst: array<int>, outLo: nat, cutoff: nat, buckets: nat)
    requires aLo <= aHi <= src.Length && bLo <= bHi <= src.Length && src != dst
    requires Sorted(src[aLo..aHi]) && Sorted(src[bLo..bHi])
    requires outLo + (aHi - aLo) + (bHi - bLo) <= dst.Length && buckets >= 1
    modifies dst
    ensures Overlaid(old(dst[..]), dst[..], outLo, Merge(src[aLo..aHi], src[bLo..bHi]))
  {
    ghost var s, was := src[..], dst[..];
    assert s[aLo..aHi] == src[aLo..aHi] && s[bLo..bHi] == src[bLo..bHi];
    var total := (aHi - aLo) + (bHi - bLo);
    if total == 0 {
      return;
    }
    if total < cutoff {
      var _ := SeqMerge(src, aLo, aHi, bLo, bHi, dst, outLo);
      return;
    }
    var aCut, bCut := ChooseCuts(src, aLo, aHi, bLo, bHi, buckets);
    ghost var c := Cuts(aCut[..], bCut[..]);
    SerialBuckets(src, aCut, bCut, dst, s, outLo, aLo, aHi, bLo, bHi, c, buckets);
    ProgressComplete(s, was, dst[..], outLo, aLo, aHi, bLo, bHi, c, buckets);
  }

  function After(k: nat, buckets: nat): (r: set<nat>)
    ensures forall j: nat :: j in r <==> k <= j < buckets
  {
    set j: nat | j in Indices(buckets) && k <= j
  }

  method SerialBuckets(src: array<int>, aCut: array<nat>, bCut: array<nat>, dst: array<int>, ghost s: seq<int>, outLo: nat,
                       ghost aLo: nat, ghost aHi: nat, ghost bLo: nat, ghost bHi: nat, ghost c: Cuts, buckets: nat)
    requires src != dst && s == src[..] && c == Cuts(aCut[..], bCut[..]) && CutsTile(s, aLo, aHi, bLo, bHi, c, buckets)
    requires outLo + (aHi - aLo) + (bHi - bLo) <= dst.Length
    modifies dst
    ensures Progress(s, old(dst[..]), dst[..], outLo, aLo, aHi, bLo, bHi, c, buckets, {})
  {
    ghost var was := dst[..];
    var running := outLo;
    for k := 0 to buckets
      invariant s == src[..] && c == Cuts(aCut[..], bCut[..]) && running == outLo + Before(c, aLo, bLo, k)
      invariant Progress(s, was, dst[..], outLo, aLo, aHi, bLo, bHi, c, buckets, After(k, buckets))
    {
      var written := MergeBucketOnce(src, MergeBucket(aCut[k], aCut[k + 1], bCut[k], bCut[k + 1], running), dst,
                                     s, was, outLo, aLo, aHi, bLo, bHi, c, buckets, After(k, buckets), k);
      assert After(k, buckets) - {k} == After(k + 1, buckets);
      running := running + written;
    }
    assert After(buckets, buckets) == {};
  }
}
