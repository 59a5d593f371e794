/** Consecutive blocks of an index range, and the proportional cuts that produce them. */
module Tiling {

  /** `bounds` cuts [first, last) into |bounds| - 1 consecutive, possibly empty, blocks. */
  predicate IsTiling(bounds: seq<nat>, first: nat, last: nat) {
    && |bounds| >= 1 && bounds[0] == first && bounds[|bounds| - 1] == last
    && forall i, j :: 0 <= i <= j < |bounds| ==> bounds[i] <= bounds[j]
  }

  /** Every index of the range is in some block. */
  lemma {:induction false} BlockOf(bounds: seq<nat>, first: nat, last: nat, p: nat) returns (b: nat)
    requires IsTiling(bounds, first, last) && first <= p < last
    ensures b + 1 < |bounds| && bounds[b] <= p < bounds[b + 1]
  {
    b := 0;
    while p >= bounds[b + 1]
      invariant b + 1 < |bounds| && bounds[b] <= p
      decreases |bounds| - b
    {
      b := b + 1;
    }
  }

  /** Different blocks share no index. */
  lemma BlocksDisjoint(bounds: seq<nat>, first: nat, last: nat, b: nat, c: nat, p: nat)
    requires IsTiling(bounds, first, last) && b + 1 < |bounds| && c + 1 < |bounds|
    requires bounds[b] <= p < bounds[b + 1] && bounds[c] <= p < bounds[c + 1]
    ensures b == c
  {
  }

  lemma ProductOrder(a: nat, b: nat, d: nat)
    ensures a * d < b * d ==> a < b
  {
    if a >= b {
      assert a * d == b * d + (a - b) * d;
    }
  }

  lemma QuotientOrder(q: nat, r: nat, x: nat, y: nat, d: nat)
    requires q * d <= x <= y < r * d + d
    ensures q <= r
  {
    assert (r + 1) * d == r * d + d;
    ProductOrder(q, r + 1, d);
  }

  lemma Quotient(x: nat, d: nat) returns (q: nat)
    requires d > 0
    ensures q == x / d && q * d <= x < q * d + d
  {
    q := x / d;
  }

  lemma DivMonotone(x: nat, y: nat, d: nat)
    requires d > 0 && x <= y
    ensures x / d <= y / d
  {
    var q := Quotient(x, d);
    var r := Quotient(y, d);
    QuotientOrder(q, r, x, y, d);
  }

  lemma DivBelow(x: nat, n: nat, d: nat)
    requires d > 0 && x < n * d
    ensures x / d < n
  {
    var q := Quotient(x, d);
    ProductOrder(q, n, d);
  }

  lemma DivExact(n: nat, x: nat, d: nat)
    requires d > 0 && x == n * d
    ensures x / d == n
  {
    var q := Quotient(x, d);
    QuotientOrder(n, q, x, x, d);
    QuotientOrder(q, n, x, x, d);
  }

  /** The k-th of `parts` evenly spaced cuts of a length. */
  function Cut(length: nat, k: nat, parts: nat): nat
    requires parts > 0
  {
    length * k / parts
  }

  lemma CutMonotone(length: nat, k: nat, l: nat, parts: nat)
    requires parts > 0 && k <= l
    ensures Cut(length, k, parts) <= Cut(length, l, parts)
  {
    assert length * k <= length * l;
    DivMonotone(length * k, length * l, parts);
  }

  lemma CutEnds(length: nat, parts: nat)
    requires parts > 0
    ensures Cut(length, 0, parts) == 0 && Cut(length, parts, parts) == length
  {
    DivExact(length, length * parts, parts);
    DivExact(0, length * 0, parts);
  }

  lemma CutBelow(length: nat, k: nat, parts: nat)
    requires length > 0 && k < parts
    ensures Cut(length, k, parts) < length
  {
    assert length * k < length * parts;
    DivBelow(length * k, length, parts);
  }

  /** Consecutive cuts are evenly spaced: each part has the rounded-down share or one more. */
  lemma CutStep(length: nat, k: nat, parts: nat)
    requires parts > 0
    ensures length / parts <= Cut(length, k + 1, parts) - Cut(length, k, parts) <= length / parts + 1
  {
    var q := Quotient(length, parts);
    var c := Quotient(length * k, parts);
    var d := Quotient(length * (k + 1), parts);
    assert length * (k + 1) == length * k + length;
    assert (c + q) * parts == c * parts + q * parts && (c + q + 1) * parts == c * parts + q * parts + parts;
    QuotientOrder(c + q, d, length * (k + 1), length * (k + 1), parts);
    QuotientOrder(d, c + q + 1, length * (k + 1), length * (k + 1), parts);
  }

  /** Block boundaries of an even partition of [0, n). */
  function EvenBounds(n: nat, parts: nat): (r: seq<nat>)
    requires parts > 0
    ensures |r| == parts + 1
  {
    seq(parts + 1, k requires 0 <= k <= parts => Cut(n, k, parts))
  }

  lemma EvenBoundsTile(n: nat, parts: nat)
    requires parts > 0
    ensures IsTiling(EvenBounds(n, parts), 0, n)
  {
    CutEnds(n, parts);
    forall i, j | 0 <= i <= j < parts + 1 ensures Cut(n, i, parts) <= Cut(n, j, parts) {
      CutMonotone(n, i, j, parts);
    }
  }

  /** The task indices 0 to n - 1, for loops that run them in any order. */
  function Indices(n: nat): (s: set<nat>)
    ensures forall k: nat :: k in s <==> k < n
  {
    if n == 0 then {} else Indices(n - 1) + {n - 1}
  }

  lemma {:induction false} IndicesSize(n: nat)
    ensures |Indices(n)| == n
  {
    if n > 0 {
      IndicesSize(n - 1);
    }
  }
}

/** The two-pass scan as the merge phase uses it: sizes in, exclusive prefix sums out. */
module Scan {
  import opened Tiling

  /** The sum of the first `k` sizes. */
  function PrefixSum(sizes: seq<nat>, k: nat): nat
    requires k <= |sizes|
  {
    if k == 0 then 0 else PrefixSum(sizes, k - 1) + sizes[k - 1]
  }

  /** The body run twice per slot: writes running sums over one chunk and returns the chunk's own sum. */
  method ScanBody(sizes: array<nat>, offsets: array<nat>, lo: nat, hi: nat, initial: nat) returns (sum: nat)
    requires sizes != offsets && sizes.Length == offsets.Length && lo <= hi <= sizes.Length
    modifies offsets
    ensures PrefixSum(sizes[..], lo) + sum == PrefixSum(sizes[..], hi)
    ensures forall k :: lo <= k < hi ==> offsets[k] == initial + PrefixSum(sizes[..], k) - PrefixSum(sizes[..], lo)
    ensures forall k :: 0 <= k < offsets.Length && !(lo <= k < hi) ==> offsets[k] == old(offsets[k])
  {
    ghost var s := sizes[..];
    var running := initial;
    for i := lo to hi
      invariant s == sizes[..] && initial + PrefixSum(s, i) == running + PrefixSum(s, lo)
      invariant forall k :: lo <= k < i ==> offsets[k] == initial + PrefixSum(s, k) - PrefixSum(s, lo)
      invariant forall k :: 0 <= k < offsets.Length && !(lo <= k < i) ==> offsets[k] == old(offsets[k])
      invariant running >= initial
    {
      offsets[i] := running;
      running := running + sizes[i];
    }
    sum := running - initial;
  }

  /** Two passes with a serial reduce between them; within a pass the slots run in any order. */
  method ParallelScan(sizes: array<nat>, offsets: array<nat>, bounds: seq<nat>, inlineThreshold: nat) returns (total: nat)
    requires sizes != offsets && sizes.Length == offsets.Length
    requires |bounds| >= 2 && IsTiling(bounds, 0, sizes.Length)
    modifies offsets
    ensures total == PrefixSum(sizes[..], sizes.Length)
    ensures forall k :: 0 <= k < offsets.Length ==> offsets[k] == PrefixSum(sizes[..], k)
  {
    if sizes.Length == 0 {
      return 0;
    }
    if |bounds| == 2 || sizes.Length <= inlineThreshold {
      total := ScanBody(sizes, offsets, 0, sizes.Length, 0);
      return;
    }
    var partials := FirstPass(sizes, offsets, bounds);
    total := ExclusivePrefixes(sizes, partials, bounds);
    SecondPass(sizes, offsets, bounds, partials);
  }

  method FirstPass(sizes: array<nat>, offsets: array<nat>, bounds: seq<nat>) returns (partials: array<nat>)
    requires sizes != offsets && sizes.Length == offsets.Length && IsTiling(bounds, 0, sizes.Length)
    modifies offsets
    ensures fresh(partials) && partials.Length == |bounds| - 1
    ensures forall b :: 0 <= b < partials.Length ==> PrefixSum(sizes[..], bounds[b]) + partials[b] == PrefixSum(sizes[..], bounds[b + 1])
  {
    partials := new nat[|bounds| - 1](_ => 0);
    ghost var s := sizes[..];
    var pending := Indices(partials.Length);
    while pending != {}
      invariant pending <= Indices(partials.Length) && s == sizes[..]
      invariant forall b: nat :: b < partials.Length && b !in pending ==> PrefixSum(s, bounds[b]) + partials[b] == PrefixSum(s, bounds[b + 1])
      decreases pending
    {
      var slot :| slot in pending;
      var sum := ScanBody(sizes, offsets, bounds[slot], bounds[slot + 1], 0);
      partials[slot] := sum;
      pending := pending - {slot};
    }
  }

  method ExclusivePrefixes(sizes: array<nat>, partials: array<nat>, bounds: seq<nat>) returns (acc: nat)
    requires sizes != partials && IsTiling(bounds, 0, sizes.Length) && partials.Length == |bounds| - 1
    requires forall b :: 0 <= b < partials.Length ==> PrefixSum(sizes[..], bounds[b]) + partials[b] == PrefixSum(sizes[..], bounds[b + 1])
    modifies partials
    ensures acc == PrefixSum(sizes[..], sizes.Length)
    ensures forall b :: 0 <= b < partials.Length ==> partials[b] == PrefixSum(sizes[..], bounds[b])
  {
    ghost var s := sizes[..];
    acc := 0;
    for c := 0 to partials.Length
      invariant s == sizes[..] && acc == PrefixSum(s, bounds[c])
      invariant forall b :: 0 <= b < c ==> partials[b] == PrefixSum(s, bounds[b])
      invariant forall b :: c <= b < partials.Length ==> PrefixSum(s, bounds[b]) + partials[b] == PrefixSum(s, bounds[b + 1])
    {
      var t := partials[c];
      partials[c] := acc;
      acc := acc + t;
    }
  }

  /** Overwrites everything the first pass wrote. */
  method SecondPass(sizes: array<nat>, offsets: array<nat>, bounds: seq<nat>, partials: array<nat>)
    requires sizes != offsets && partials != offsets && sizes.Length == offsets.Length
    requires IsTiling(bounds, 0, sizes.Length) && partials.Length == |bounds| - 1
    requires forall b :: 0 <= b < partials.Length ==> partials[b] == PrefixSum(sizes[..], bounds[b])
    modifies offsets
    ensures forall k :: 0 <= k < offsets.Length ==> offsets[k] == PrefixSum(sizes[..], k)
  {
    ghost var s := sizes[..];
    var pending := Indices(partials.Length);
    while pending != {}
      invariant pending <= Indices(partials.Length) && s == sizes[..]
      invariant forall b :: 0 <= b < partials.Length ==> partials[b] == PrefixSum(s, bounds[b])
      invariant forall b: nat, k :: b < partials.Length && b !in pending && bounds[b] <= k < bounds[b + 1] ==> offsets[k] == PrefixSum(s, k)
      decreases pending
    {
      var slot :| slot in pending;
      var _ := ScanBody(sizes, offsets, bounds[slot], bounds[slot + 1], partials[slot]);
      pending := pending - {slot};
    }
    forall k | 0 <= k < offsets.Length ensures offsets[k] == PrefixSum(s, k) {
      var b := BlockOf(bounds, 0, sizes.Length, k);
    }
  }
}
