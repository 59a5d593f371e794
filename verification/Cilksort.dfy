/** Recursive merge sort of a slice, its two halves sorted in either order and merged by buckets. */
module Cilksort {
  import opened Merging
  import opened BucketMerging

  function Insert(x: int, s: seq<int>): (r: seq<int>)
    ensures |r| == |s| + 1
  {
    if s == [] || x <= s[0] then [x] + s else [s[0]] + Insert(x, s[1..])
  }

  /** The ascending arrangement of a sequence. */
  function SortSeq(s: seq<int>): (r: seq<int>)
    ensures |r| == |s|
  {
    if s == [] then [] else Insert(s[0], SortSeq(s[1..]))
  }

  lemma {:induction false} InsertPermutes(x: int, s: seq<int>)
    ensures multiset(Insert(x, s)) == multiset{x} + multiset(s)
  {
    if s != [] && x > s[0] {
      InsertPermutes(x, s[1..]);
      assert s == [s[0]] + s[1..];
    }
  }

  lemma {:induction false} InsertAtLeast(x: int, s: seq<int>, y: int)
    requires y <= x && AtLeast(y, s)
    ensures AtLeast(y, Insert(x, s))
  {
    if s != [] && x > s[0] {
      InsertAtLeast(x, s[1..], y);
    }
  }

  lemma {:induction false} InsertSorts(x: int, s: seq<int>)
    requires Sorted(s)
    ensures Sorted(Insert(x, s))
  {
    if s != [] {
      TailSorted(s);
      if x <= s[0] {
        AtLeastLower(x, s[0], s);
        ConsSorted(x, s);
      } else {
        InsertSorts(x, s[1..]);
        InsertAtLeast(x, s[1..], s[0]);
        ConsSorted(s[0], Insert(x, s[1..]));
      }
    }
  }

  lemma {:induction false} SortSeqSorts(s: seq<int>)
    ensures IsSortOf(s, SortSeq(s))
  {
    if s != [] {
      assert s == [s[0]] + s[1..];
      SortSeqSorts(s[1..]);
      InsertSorts(s[0], SortSeq(s[1..]));
      InsertPermutes(s[0], SortSeq(s[1..]));
    }
  }

  /** Sorting two halves and merging them sorts the whole. */
  lemma SortByHalves(l: seq<int>, r: seq<int>)
    ensures Sorted(SortSeq(l)) && Sorted(SortSeq(r))
    ensures Merge(SortSeq(l), SortSeq(r)) == SortSeq(l + r)
  {
    SortSeqSorts(l);
    SortSeqSorts(r);
    SortSeqSorts(l + r);
    MergePermutes(SortSeq(l), SortSeq(r));
    MergeSorts(SortSeq(l), SortSeq(r));
    assert multiset(l + r) == multiset(l) + multiset(r);
    SortUnique(Merge(SortSeq(l), SortSeq(r)), SortSeq(l + r));
  }

  /** Copies `values` over `data` from `lo` on. */
  method CopyInto(data: array<int>, lo: nat, values: seq<int>)
    requires lo + |values| <= data.Length
    modifies data
    ensures Overlaid(old(data[..]), data[..], lo, values)
  {
    ghost var was := data[..];
    for k := 0 to |values|
      invariant Overlaid(was, data[..], lo, values[..k])
    {
      assert values[..k + 1] == values[..k] + [values[k]];
      Emit(data, lo + k, values[k], was, lo, values[..k]);
    }
    assert values[..|values|] == values;
  }

  /** Two disjoint slices overlaid one after the other: the second sees its slice as it was. */
  lemma OverlayApart(was: seq<int>, mid: seq<int>, now: seq<int>, aLo: nat, aHi: nat, bLo: nat, bHi: nat)
    requires aLo <= aHi <= |was| && bLo <= bHi <= |was| && (aHi <= bLo || bHi <= aLo)
    requires Overlaid(was, mid, aLo, SortSeq(was[aLo..aHi])) && Overlaid(mid, now, bLo, SortSeq(mid[bLo..bHi]))
    ensures |now| == |was| && now[aLo..aHi] == SortSeq(was[aLo..aHi]) && now[bLo..bHi] == SortSeq(was[bLo..bHi])
    ensures forall p :: 0 <= p < |was| && !(aLo <= p < aHi) && !(bLo <= p < bHi) ==> now[p] == was[p]
  {
    assert mid[bLo..bHi] == was[bLo..bHi];
    assert now[aLo..aHi] == mid[aLo..aHi];
  }

  /** What sorting the two halves, in either order, leaves behind. */
  lemma HalvesSorted(was: seq<int>, mid: seq<int>, now: seq<int>, lo: nat, m: nat, hi: nat)
    requires lo <= m <= hi <= |was|
    requires (Overlaid(was, mid, lo, SortSeq(was[lo..m])) && Overlaid(mid, now, m, SortSeq(mid[m..hi])))
          || (Overlaid(was, mid, m, SortSeq(was[m..hi])) && Overlaid(mid, now, lo, SortSeq(mid[lo..m])))
    ensures |now| == |was| && now[lo..m] == SortSeq(was[lo..m]) && now[m..hi] == SortSeq(was[m..hi])
    ensures forall p :: 0 <= p < |was| && !(lo <= p < hi) ==> now[p] == was[p]
  {
    if Overlaid(was, mid, lo, SortSeq(was[lo..m])) && Overlaid(mid, now, m, SortSeq(mid[m..hi])) {
      OverlayApart(was, mid, now, lo, m, m, hi);
    } else {
      OverlayApart(was, mid, now, m, hi, lo, m);
    }
  }

  /** The copy back from the merge buffer completes the sort of the slice. */
  lemma SliceSorted(was: seq<int>, halves: seq<int>, now: seq<int>, lo: nat, m: nat, hi: nat)
    requires lo <= m <= hi <= |was| == |halves|
    requires halves[lo..m] == SortSeq(was[lo..m]) && halves[m..hi] == SortSeq(was[m..hi])
    requires forall p :: 0 <= p < |was| && !(lo <= p < hi) ==> halves[p] == was[p]
    requires Overlaid(halves, now, lo, Merge(halves[lo..m], halves[m..hi]))
    ensures Overlaid(was, now, lo, SortSeq(was[lo..hi]))
  {
    SortByHalves(was[lo..m], was[m..hi]);
    assert was[lo..hi] == was[lo..m] + was[m..hi];
  }

  /** Outside [lo, hi) the two buffers agree. */
  predicate SameOutside(was: seq<int>, now: seq<int>, lo: nat, hi: nat) {
    |was| == |now| && forall p :: 0 <= p < |was| && !(lo <= p < hi) ==> now[p] == was[p]
  }

  /** Sorts the two halves, in whichever order the fork happens to run them. */
  method SortHalves(data: array<int>, tmp: array<int>, lo: nat, m: nat, hi: nat, cutoff: nat, mergeCutoff: nat, buckets: nat, participants: nat, inlineThreshold: nat)
    requires data != tmp && data.Length == tmp.Length && lo < m < hi <= data.Length
    requires cutoff >= 1 && buckets >= 1 && participants >= 1
    modifies data, tmp
    ensures data[lo..m] == SortSeq(old(data[lo..m])) && data[m..hi] == SortSeq(old(data[m..hi]))
    ensures SameOutside(old(data[..]), data[..], lo, hi) && SameOutside(old(tmp[..]), tmp[..], lo, hi)
    decreases hi - lo, 0
  {
    ghost var was := data[..];
    ghost var mid: seq<int>;
    if * {
      CilksortRec(data, tmp, lo, m, cutoff, mergeCutoff, buckets, participants, inlineThreshold);
      mid := data[..];
      CilksortRec(data, tmp, m, hi, cutoff, mergeCutoff, buckets, participants, inlineThreshold);
    } else {
      CilksortRec(data, tmp, m, hi, cutoff, mergeCutoff, buckets, participants, inlineThreshold);
      mid := data[..];
      CilksortRec(data, tmp, lo, m, cutoff, mergeCutoff, buckets, participants, inlineThreshold);
    }
    HalvesSorted(was, mid, data[..], lo, m, hi);
    assert was[lo..m] == old(data[lo..m]) && was[m..hi] == old(data[m..hi]);
    assert data[..][lo..m] == data[lo..m] && data[..][m..hi] == data[m..hi];
  }

  /** Merges two sorted halves into the merge buffer and copies them back. */
  method MergeBack(data: array<int>, tmp: array<int>, lo: nat, m: nat, hi: nat, mergeCutoff: nat, buckets: nat, participants: nat, inlineThreshold: nat)
    requires data != tmp && data.Length == tmp.Length && lo <= m <= hi <= data.Length && buckets >= 1 && participants >= 1
    requires Sorted(data[lo..m]) && Sorted(data[m..hi])
    modifies data, tmp
    ensures Overlaid(old(data[..]), data[..], lo, Merge(old(data[lo..m]), old(data[m..hi])))
    ensures SameOutside(old(tmp[..]), tmp[..], lo, hi)
  {
    ParallelMerge(data, lo, m, m, hi, tmp, lo, mergeCutoff, buckets, participants, inlineThreshold);
    assert tmp[..][lo..hi] == Merge(data[lo..m], data[m..hi]);
    CopyInto(data, lo, tmp[..][lo..hi]);
  }

  /** Sorts `data[lo..hi]`; neither buffer changes outside that range. */
  method CilksortRec(data: array<int>, tmp: array<int>, lo: nat, hi: nat, cutoff: nat, mergeCutoff: nat, buckets: nat, participants: nat, inlineThreshold: nat)
    requires data != tmp && data.Length == tmp.Length && lo <= hi <= data.Length
    requires cutoff >= 1 && buckets >= 1 && participants >= 1
    modifies data, tmp
    ensures Overlaid(old(data[..]), data[..], lo, SortSeq(old(data[..])[lo..hi]))
    ensures SameOutside(old(tmp[..]), tmp[..], lo, hi)
    decreases hi - lo, 1
  {
    var n := hi - lo;
    if n <= cutoff {
      CopyInto(data, lo, SortSeq(data[..][lo..hi]));
      return;
    }
    ghost var was := data[..];
    var mid := lo + n / 2;
    SortHalves(data, tmp, lo, mid, hi, cutoff, mergeCutoff, buckets, participants, inlineThreshold);
    ghost var halves := data[..];
    assert halves[lo..mid] == data[lo..mid] && halves[mid..hi] == data[mid..hi];
    assert was[lo..mid] == old(data[lo..mid]) && was[mid..hi] == old(data[mid..hi]);
    SortByHalves(was[lo..mid], was[mid..hi]);
    MergeBack(data, tmp, lo, mid, hi, mergeCutoff, buckets, participants, inlineThreshold);
    SliceSorted(was, halves, data[..], lo, mid, hi);
  }
}
