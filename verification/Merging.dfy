/** Sorted sequences, their merge, and the sequential merge of two runs of one buffer. */
module Merging {

  predicate Sorted(s: seq<int>) {
    forall i, j :: 0 <= i < j < |s| ==> s[i] <= s[j]
  }

  /** `r` is `s` in ascending order. */
  predicate IsSortOf(s: seq<int>, r: seq<int>) {
    Sorted(r) && multiset(r) == multiset(s)
  }

  /** The stable merge: on ties the left run goes first. */
  function Merge(a: seq<int>, b: seq<int>): (r: seq<int>)
    ensures |r| == |a| + |b|
    decreases |a| + |b|
  {
    if a == [] then b
    else if b == [] then a
    else if a[0] <= b[0] then [a[0]] + Merge(a[1..], b)
    else [b[0]] + Merge(a, b[1..])
  }

  lemma {:induction false} MergePermutes(a: seq<int>, b: seq<int>)
    ensures multiset(Merge(a, b)) == multiset(a) + multiset(b)
    decreases |a| + |b|
  {
    if a != [] && b != [] {
      assert a == [a[0]] + a[1..] && b == [b[0]] + b[1..];
      if a[0] <= b[0] {
        MergePermutes(a[1..], b);
      } else {
        MergePermutes(a, b[1..]);
      }
    }
  }

  predicate AtLeast(x: int, s: seq<int>) {
    forall k :: 0 <= k < |s| ==> x <= s[k]
  }

  lemma {:induction false} MergeAtLeast(x: int, a: seq<int>, b: seq<int>)
    requires AtLeast(x, a) && AtLeast(x, b)
    ensures AtLeast(x, Merge(a, b))
    decreases |a| + |b|
  {
    if a != [] && b != [] {
      if a[0] <= b[0] {
        MergeAtLeast(x, a[1..], b);
      } else {
        MergeAtLeast(x, a, b[1..]);
      }
    }
  }

  lemma ConsSorted(x: int, s: seq<int>)
    requires Sorted(s) && AtLeast(x, s)
    ensures Sorted([x] + s)
  {
  }

  lemma TailSorted(s: seq<int>)
    requires Sorted(s) && s != []
    ensures Sorted(s[1..]) && AtLeast(s[0], s) && AtLeast(s[0], s[1..])
  {
  }

  lemma AtLeastLower(x: int, y: int, s: seq<int>)
    requires x <= y && AtLeast(y, s)
    ensures AtLeast(x, s)
  {
  }

  lemma {:induction false} MergeSorts(a: seq<int>, b: seq<int>)
    requires Sorted(a) && Sorted(b)
    ensures Sorted(Merge(a, b))
    decreases |a| + |b|
  {
    if a != [] && b != [] {
      TailSorted(a);
      TailSorted(b);
      if a[0] <= b[0] {
        AtLeastLower(a[0], b[0], b);
        MergeSorts(a[1..], b);
        MergeAtLeast(a[0], a[1..], b);
        ConsSorted(a[0], Merge(a[1..], b));
      } else {
        AtLeastLower(b[0], a[0], a);
        MergeSorts(a, b[1..]);
        MergeAtLeast(b[0], a, b[1..]);
        ConsSorted(b[0], Merge(a, b[1..]));
      }
    }
  }

  /** A merge is the sort of everything in its two runs. */
  lemma MergeIsSort(a: seq<int>, b: seq<int>)
    requires Sorted(a) && Sorted(b)
    ensures IsSortOf(a + b, Merge(a, b))
  {
    MergePermutes(a, b);
    MergeSorts(a, b);
  }

  lemma TailMultiset(s: seq<int>)
    requires s != []
    ensures multiset(s[1..]) == multiset(s) - multiset{s[0]}
  {
    assert s == [s[0]] + s[1..];
  }

  lemma HeadLeast(s: seq<int>, x: int)
    requires Sorted(s) && x in multiset(s)
    ensures s != [] && s[0] <= x
  {
    assert x in s;
  }

  lemma HeadsAgree(s: seq<int>, t: seq<int>)
    requires Sorted(s) && Sorted(t) && multiset(s) == multiset(t) && s != []
    ensures t != [] && s[0] == t[0] && multiset(s[1..]) == multiset(t[1..])
  {
    assert s[0] in multiset(s);
    HeadLeast(t, s[0]);
    assert t[0] in multiset(t);
    HeadLeast(s, t[0]);
    TailMultiset(s);
    TailMultiset(t);
  }

  lemma SameHeadAndTail(s: seq<int>, t: seq<int>)
    requires s != [] && t != [] && s[0] == t[0] && s[1..] == t[1..]
    ensures s == t
  {
    assert s == [s[0]] + s[1..] && t == [t[0]] + t[1..];
  }

  /** A sequence of integers has only one ascending arrangement. */
  lemma {:induction false} SortUnique(s: seq<int>, t: seq<int>)
    requires Sorted(s) && Sorted(t) && multiset(s) == multiset(t)
    ensures s == t
    decreases |s|
  {
    if s == [] {
      assert |multiset(t)| == 0;
    } else {
      HeadsAgree(s, t);
      TailSorted(s);
      TailSorted(t);
      SortUnique(s[1..], t[1..]);
      SameHeadAndTail(s, t);
    }
  }

  /** Everything before the cut is at most everything after it. */
  predicate Ordered(low: seq<int>, high: seq<int>) {
    forall x, y :: x in low && y in high ==> x <= y
  }

  lemma SortedConcat(s: seq<int>, t: seq<int>)
    requires Sorted(s) && Sorted(t) && Ordered(s, t)
    ensures Sorted(s + t)
  {
    var u := s + t;
    forall i, j | 0 <= i < j < |u| ensures u[i] <= u[j] {
      if i < |s| <= j {
        assert u[i] in s && u[j] in t;
      }
    }
  }

  lemma MergeMembers(a: seq<int>, b: seq<int>, x: int)
    ensures x in Merge(a, b) ==> x in a + b
  {
    if x in Merge(a, b) {
      MergePermutes(a, b);
      assert x in multiset(Merge(a, b));
      assert x in a || x in b;
    }
  }

  lemma Regroup(p: multiset<int>, q: multiset<int>, r: multiset<int>, t: multiset<int>)
    ensures (p + q) + (r + t) == (p + r) + (q + t)
  {
  }

  lemma SplitMultiset(s: seq<int>, i: nat)
    requires i <= |s|
    ensures multiset(s) == multiset(s[..i]) + multiset(s[i..])
  {
    assert s == s[..i] + s[i..];
  }

  lemma CutPermutes(a: seq<int>, b: seq<int>, i: nat, j: nat)
    requires i <= |a| && j <= |b|
    ensures multiset(Merge(a, b)) == multiset(Merge(a[..i], b[..j]) + Merge(a[i..], b[j..]))
  {
    MergePermutes(a, b);
    MergePermutes(a[..i], b[..j]);
    MergePermutes(a[i..], b[j..]);
    SplitMultiset(a, i);
    SplitMultiset(b, j);
    Regroup(multiset(a[..i]), multiset(a[i..]), multiset(b[..j]), multiset(b[j..]));
  }

  /** Cutting both runs consistently cuts their merge. */
  lemma MergeCut(a: seq<int>, b: seq<int>, i: nat, j: nat)
    requires i <= |a| && j <= |b| && Sorted(a) && Sorted(b)
    requires Ordered(a[..i] + b[..j], a[i..] + b[j..])
    ensures Merge(a, b) == Merge(a[..i], b[..j]) + Merge(a[i..], b[j..])
  {
    var low, high := Merge(a[..i], b[..j]), Merge(a[i..], b[j..]);
    MergeSorts(a, b);
    MergeSorts(a[..i], b[..j]);
    MergeSorts(a[i..], b[j..]);
    forall x, y | x in low && y in high ensures x <= y {
      MergeMembers(a[..i], b[..j], x);
      MergeMembers(a[i..], b[j..], y);
    }
    SortedConcat(low, high);
    CutPermutes(a, b, i, j);
    SortUnique(Merge(a, b), low + high);
  }

  /** The same, for runs given in two pieces each. */
  lemma MergeJoin(al: seq<int>, ar: seq<int>, bl: seq<int>, br: seq<int>)
    requires Sorted(al + ar) && Sorted(bl + br) && Ordered(al + bl, ar + br)
    ensures Merge(al + ar, bl + br) == Merge(al, bl) + Merge(ar, br)
  {
    var a, b := al + ar, bl + br;
    assert a[..|al|] == al && a[|al|..] == ar && b[..|bl|] == bl && b[|bl|..] == br;
    MergeCut(a, b, |al|, |bl|);
  }

  /** `now` is `was` with `done` written over it from `at` on. */
  predicate Overlaid(was: seq<int>, now: seq<int>, at: nat, done: seq<int>) {
    && at + |done| <= |was| == |now|
    && now[at..at + |done|] == done
    && forall p :: 0 <= p < |was| && !(at <= p < at + |done|) ==> now[p] == was[p]
  }

  lemma OverlayNext(was: seq<int>, now: seq<int>, at: nat, done: seq<int>, v: int)
    requires Overlaid(was, now, at, done) && at + |done| < |was|
    ensures |now| == |was| && Overlaid(was, now[at + |done| := v], at, done + [v])
  {
  }

  lemma TakeLeft(src: seq<int>, i: nat, aHi: nat, j: nat, bHi: nat, done: seq<int>, want: seq<int>)
    requires i < aHi <= |src| && j < bHi <= |src| && src[i] <= src[j]
    requires done + Merge(src[i..aHi], src[j..bHi]) == want
    ensures (done + [src[i]]) + Merge(src[i + 1..aHi], src[j..bHi]) == want
  {
    assert src[i..aHi][1..] == src[i + 1..aHi];
    assert done + ([src[i]] + Merge(src[i + 1..aHi], src[j..bHi])) == (done + [src[i]]) + Merge(src[i + 1..aHi], src[j..bHi]);
  }

  lemma TakeRight(src: seq<int>, i: nat, aHi: nat, j: nat, bHi: nat, done: seq<int>, want: seq<int>)
    requires i < aHi <= |src| && j < bHi <= |src| && src[i] > src[j]
    requires done + Merge(src[i..aHi], src[j..bHi]) == want
    ensures (done + [src[j]]) + Merge(src[i..aHi], src[j + 1..bHi]) == want
  {
    assert src[j..bHi][1..] == src[j + 1..bHi];
    assert done + ([src[j]] + Merge(src[i..aHi], src[j + 1..bHi])) == (done + [src[j]]) + Merge(src[i..aHi], src[j + 1..bHi]);
  }

  /** Writes the next output cell. */
  method Emit(dst: array<int>, k: nat, v: int, ghost was: seq<int>, ghost at: nat, ghost done: seq<int>)
    requires Overlaid(was, dst[..], at, done) && k == at + |done| < dst.Length
    modifies dst
    ensures Overlaid(was, dst[..], at, done + [v])
  {
    OverlayNext(was, dst[..], at, done, v);
    dst[k] := v;
  }

  /** How far a merge of two runs of `s` has come: `done` is out, the rest of the runs is still to come. */
  predicate Merged(s: seq<int>, i: nat, aHi: nat, j: nat, bHi: nat, done: seq<int>, want: seq<int>) {
    i <= aHi <= |s| && j <= bHi <= |s| && done + Merge(s[i..aHi], s[j..bHi]) == want
  }

  /** Writes the smaller of the two heads, the left one on a tie. */
  method EmitSmaller(src: array<int>, i: nat, aHi: nat, j: nat, bHi: nat, dst: array<int>, k: nat,
                     ghost s: seq<int>, ghost was: seq<int>, ghost at: nat, ghost done: seq<int>, ghost want: seq<int>)
    returns (left: bool, ghost done': seq<int>)
    requires i < aHi && j < bHi && src != dst && s == src[..] && Merged(s, i, aHi, j, bHi, done, want)
    requires Overlaid(was, dst[..], at, done) && k == at + |done| < dst.Length
    modifies dst
    ensures s == src[..] && |done'| == |done| + 1 && Overlaid(was, dst[..], at, done')
    ensures if left then Merged(s, i + 1, aHi, j, bHi, done', want) else Merged(s, i, aHi, j + 1, bHi, done', want)
  {
    left := src[i] <= src[j];
    if left {
      TakeLeft(s, i, aHi, j, bHi, done, want);
      done' := done + [src[i]];
      Emit(dst, k, src[i], was, at, done);
    } else {
      TakeRight(s, i, aHi, j, bHi, done, want);
      done' := done + [src[j]];
      Emit(dst, k, src[j], was, at, done);
    }
  }

  /** The main loop: emits the smaller head until one run is used up. */
  method MergeHeads(src: array<int>, aLo: nat, aHi: nat, bLo: nat, bHi: nat, dst: array<int>, outLo: nat,
                    ghost s: seq<int>, ghost was: seq<int>, ghost want: seq<int>)
    returns (i: nat, j: nat, k: nat, ghost done: seq<int>)
    requires src != dst && s == src[..] && was == dst[..]
    requires Merged(s, aLo, aHi, bLo, bHi, [], want) && outLo + |want| <= dst.Length
    modifies dst
    ensures s == src[..] && k == outLo + |done|
    ensures Merged(s, i, aHi, j, bHi, done, want) && (i == aHi || j == bHi)
    ensures Overlaid(was, dst[..], outLo, done)
  {
    i, j, k, done := aLo, bLo, outLo, [];
    while i < aHi && j < bHi
      invariant k == outLo + |done| && s == src[..]
      invariant Merged(s, i, aHi, j, bHi, done, want) && Overlaid(was, dst[..], outLo, done)
      decreases aHi - i + bHi - j
    {
      var left;
      left, done := EmitSmaller(src, i, aHi, j, bHi, dst, k, s, was, outLo, done, want);
      k := k + 1;
      if left {
        i := i + 1;
      } else {
        j := j + 1;
      }
    }
  }

  /** Merges `src[aLo..aHi]` and `src[bLo..bHi]` into `dst` from `outLo` on. */
  method SeqMerge(src: array<int>, aLo: nat, aHi: nat, bLo: nat, bHi: nat, dst: array<int>, outLo: nat) returns (written: nat)
    requires aLo <= aHi <= src.Length && bLo <= bHi <= src.Length && src != dst
    requires outLo + (aHi - aLo) + (bHi - bLo) <= dst.Length
    modifies dst
    ensures written == (aHi - aLo) + (bHi - bLo)
    ensures Overlaid(old(dst[..]), dst[..], outLo, Merge(src[aLo..aHi], src[bLo..bHi]))
  {
    ghost var was, s := dst[..], src[..];
    ghost var want := Merge(s[aLo..aHi], s[bLo..bHi]);
    assert s[aLo..aHi] == src[aLo..aHi] && s[bLo..bHi] == src[bLo..bHi];
    var i, j, k;
    ghost var done;
    i, j, k, done := MergeHeads(src, aLo, aHi, bLo, bHi, dst, outLo, s, was, want);
    k := DrainBoth(src, i, aHi, j, bHi, dst, k, s, was, outLo, done, want);
    written := k - outLo;
  }

  /** Once one run is used up, copies the rest of the other. */
  method DrainBoth(src: array<int>, i: nat, aHi: nat, j: nat, bHi: nat, dst: array<int>, at: nat,
                   ghost s: seq<int>, ghost was: seq<int>, ghost outLo: nat, ghost done: seq<int>, ghost want: seq<int>)
    returns (next: nat)
    requires src != dst && s == src[..] && Merged(s, i, aHi, j, bHi, done, want) && (i == aHi || j == bHi)
    requires Overlaid(was, dst[..], outLo, done) && at == outLo + |done| && outLo + |want| <= dst.Length
    modifies dst
    ensures next == outLo + |want| && Overlaid(was, dst[..], outLo, want)
  {
    MergeLeftover(s, i, aHi, j, bHi, done, want);
    next := Drain(src, i, aHi, dst, at, s, was, outLo, done);
    next := Drain(src, j, bHi, dst, next, s, was, outLo, done + s[i..aHi]);
  }

  lemma MergeLeftover(s: seq<int>, i: nat, aHi: nat, j: nat, bHi: nat, done: seq<int>, want: seq<int>)
    requires Merged(s, i, aHi, j, bHi, done, want) && (i == aHi || j == bHi)
    ensures (done + s[i..aHi]) + s[j..bHi] == want
  {
    assert Merge(s[i..aHi], s[j..bHi]) == s[i..aHi] + s[j..bHi];
  }

  /** Copies what is left of one run. */
  method Drain(src: array<int>, lo: nat, hi: nat, dst: array<int>, at: nat, ghost s: seq<int>, ghost was: seq<int>, ghost outLo: nat, ghost before: seq<int>)
    returns (next: nat)
    requires lo <= hi <= src.Length && src != dst && at + (hi - lo) <= dst.Length && s == src[..]
    requires Overlaid(was, dst[..], outLo, before) && at == outLo + |before|
    modifies dst
    ensures s == src[..] && next == at + (hi - lo) && Overlaid(was, dst[..], outLo, before + s[lo..hi])
  {
    for i := lo to hi
      invariant s == src[..] && Overlaid(was, dst[..], outLo, before + s[lo..i])
    {
      assert before + s[lo..i + 1] == (before + s[lo..i]) + [s[i]];
      Emit(dst, at + (i - lo), src[i], was, outLo, before + s[lo..i]);
    }
    next := at + (hi - lo);
  }

  /** The first position of `src[lo..hi]` whose value is not below `key`. */
  method LowerBound(src: array<int>, lo: nat, hi: nat, key: int) returns (pos: nat)
    requires lo <= hi <= src.Length && Sorted(src[lo..hi])
    ensures lo <= pos <= hi
    ensures forall x :: x in src[lo..pos] ==> x < key
    ensures forall x :: x in src[pos..hi] ==> key <= x
  {
    var first, last := lo, hi;
    while first < last
      invariant lo <= first <= last <= hi
      invariant forall k :: lo <= k < first ==> src[k] < key
      invariant forall k :: last <= k < hi ==> key <= src[k]
    {
      var mid := first + (last - first) / 2;
      assert forall k :: lo <= k < hi ==> src[k] == src[lo..hi][k - lo];
      if src[mid] < key {
        first := mid + 1;
      } else {
        last := mid;
      }
    }
    pos := first;
  }
}
