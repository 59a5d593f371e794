/** The 0/1 knapsack problem: selections, the optimum, and its invariance under reordering. */
module KnapsackItems {

  datatype Item = Item(weight: int, value: int)

  /** Every weight is positive and no value is negative, as the item generator guarantees. */
  predicate ValidItems(items: seq<Item>) {
    forall i :: 0 <= i < |items| ==> items[i].weight >= 1 && items[i].value >= 0
  }

  predicate NonNegativeWeights(items: seq<Item>) {
    forall i :: 0 <= i < |items| ==> items[i].weight >= 0
  }

  function Max(a: int, b: int): int {
    if a >= b then a else b
  }

  function TotalWeight(items: seq<Item>, pick: seq<bool>): int
    requires |pick| == |items|
  {
    if items == [] then 0 else (if pick[0] then items[0].weight else 0) + TotalWeight(items[1..], pick[1..])
  }

  function TotalValue(items: seq<Item>, pick: seq<bool>): int
    requires |pick| == |items|
  {
    if items == [] then 0 else (if pick[0] then items[0].value else 0) + TotalValue(items[1..], pick[1..])
  }

  predicate Feasible(items: seq<Item>, cap: int, pick: seq<bool>) {
    |pick| == |items| && TotalWeight(items, pick) <= cap
  }

  /** `v` is the value of some feasible selection and no feasible selection is worth more. */
  ghost predicate IsOptimum(items: seq<Item>, cap: int, v: int) {
    && (exists pick :: Feasible(items, cap, pick) && TotalValue(items, pick) == v)
    && (forall pick :: Feasible(items, cap, pick) ==> TotalValue(items, pick) <= v)
  }

  /** The best of skipping `it` and, when it fits, taking it. */
  function TakeOrSkip(it: Item, rest: seq<Item>, cap: int): int
    requires cap >= 0
    decreases rest, 1
  {
    if it.weight <= cap then Max(Opt(rest, cap), it.value + Opt(rest, Max(0, cap - it.weight))) else Opt(rest, cap)
  }

  /** The optimum, by the take-or-skip recurrence. */
  function Opt(items: seq<Item>, cap: int): int
    requires cap >= 0
    decreases items, 0
  {
    if items == [] then 0 else TakeOrSkip(items[0], items[1..], cap)
  }

  lemma {:induction false} NoNegativeWeight(items: seq<Item>, pick: seq<bool>)
    requires |pick| == |items| && NonNegativeWeights(items)
    ensures TotalWeight(items, pick) >= 0
  {
    if items != [] {
      NoNegativeWeight(items[1..], pick[1..]);
    }
  }

  lemma {:induction false} OptBounds(items: seq<Item>, cap: int, pick: seq<bool>)
    requires cap >= 0 && NonNegativeWeights(items) && Feasible(items, cap, pick)
    ensures TotalValue(items, pick) <= Opt(items, cap)
  {
    if items != [] {
      NoNegativeWeight(items[1..], pick[1..]);
      if pick[0] {
        OptBounds(items[1..], cap - items[0].weight, pick[1..]);
      } else {
        OptBounds(items[1..], cap, pick[1..]);
      }
    }
  }

  lemma {:induction false} OptAttained(items: seq<Item>, cap: int) returns (pick: seq<bool>)
    requires cap >= 0 && NonNegativeWeights(items)
    ensures Feasible(items, cap, pick) && TotalValue(items, pick) == Opt(items, cap)
  {
    if items == [] {
      pick := [];
    } else {
      var take := items[0].weight <= cap && Opt(items, cap) != Opt(items[1..], cap);
      var rest := OptAttained(items[1..], if take then cap - items[0].weight else cap);
      pick := [take] + rest;
      assert pick[1..] == rest;
    }
  }

  /** The recurrence computes the optimum over all selections. */
  lemma OptIsOptimum(items: seq<Item>, cap: int)
    requires cap >= 0 && NonNegativeWeights(items)
    ensures forall v :: IsOptimum(items, cap, v) <==> v == Opt(items, cap)
  {
    var best := OptAttained(items, cap);
    forall pick | Feasible(items, cap, pick) ensures TotalValue(items, pick) <= Opt(items, cap) {
      OptBounds(items, cap, pick);
    }
  }

  function Without(items: seq<Item>, i: nat): (r: seq<Item>)
    requires i < |items|
    ensures |r| == |items| - 1
  {
    items[..i] + items[i + 1..]
  }

  /** Deciding any one item first, not just the head, gives the same optimum. */
  lemma {:induction false} OptDecideAny(items: seq<Item>, i: nat, cap: int)
    requires i < |items| && cap >= 0 && NonNegativeWeights(items)
    ensures Opt(items, cap) == TakeOrSkip(items[i], Without(items, i), cap)
  {
    if i == 0 {
      assert Without(items, 0) == items[1..];
    } else {
      var h, x, t, w := items[0], items[i], items[1..], Without(items, i);
      assert x == t[i - 1];
      assert w[0] == h && w[1..] == Without(t, i - 1);
      OptDecideAny(t, i - 1, cap);
      assert Opt(w, cap) == TakeOrSkip(h, w[1..], cap);
      if h.weight <= cap {
        OptDecideAny(t, i - 1, cap - h.weight);
      }
      if x.weight <= cap {
        assert Opt(w, cap - x.weight) == TakeOrSkip(h, w[1..], cap - x.weight);
      }
    }
  }

  lemma MultisetWithout(items: seq<Item>, i: nat)
    requires i < |items|
    ensures multiset(Without(items, i)) == multiset(items) - multiset{items[i]}
  {
    assert items == items[..i] + ([items[i]] + items[i + 1..]);
    assert multiset(items) == multiset(items[..i]) + (multiset{items[i]} + multiset(items[i + 1..]));
  }

  /** Where the first item stands in a rearrangement; without it the rests are rearrangements too. */
  lemma HeadElsewhere(items: seq<Item>, other: seq<Item>) returns (i: nat)
    requires items != [] && multiset(items) == multiset(other)
    ensures i < |other| && other[i] == items[0] && multiset(items[1..]) == multiset(Without(other, i))
  {
    assert items[0] in multiset(other);
    i :| 0 <= i < |other| && other[i] == items[0];
    MultisetWithout(items, 0);
    MultisetWithout(other, i);
    assert Without(items, 0) == items[1..];
  }

  lemma SameItemsSameWeights(items: seq<Item>, other: seq<Item>)
    requires multiset(items) == multiset(other) && NonNegativeWeights(items)
    ensures NonNegativeWeights(other)
  {
    forall k | 0 <= k < |other| ensures other[k].weight >= 0 {
      assert other[k] in multiset(items);
    }
  }

  /** The optimum does not depend on the order of the items. */
  lemma {:induction false} OptPermutation(items: seq<Item>, other: seq<Item>, cap: int)
    requires cap >= 0 && NonNegativeWeights(items)
    requires multiset(items) == multiset(other)
    ensures Opt(items, cap) == Opt(other, cap)
    decreases |items|
  {
    if items == [] {
      assert |multiset(other)| == 0;
    } else {
      var h := items[0];
      var i := HeadElsewhere(items, other);
      SameItemsSameWeights(items, other);
      OptDecideAny(other, i, cap);
      OptPermutation(items[1..], Without(other, i), cap);
      if h.weight <= cap {
        OptPermutation(items[1..], Without(other, i), cap - h.weight);
      }
    }
  }

  lemma {:induction false} OptNonNegative(items: seq<Item>, cap: int)
    requires cap >= 0
    ensures Opt(items, cap) >= 0
  {
    if items != [] {
      OptNonNegative(items[1..], cap);
    }
  }

  /** With no capacity left nothing more can be taken. */
  lemma {:induction false} OptFull(items: seq<Item>)
    requires ValidItems(items)
    ensures Opt(items, 0) == 0
  {
    if items != [] {
      OptFull(items[1..]);
    }
  }
}

/** The two-row dynamic program that serves as the reference value. */
module KnapsackDp {
  import opened KnapsackItems

  lemma OptSnoc(items: seq<Item>, it: Item, cap: int)
    requires cap >= 0 && NonNegativeWeights(items) && it.weight >= 0
    ensures Opt(items + [it], cap) == TakeOrSkip(it, items, cap)
  {
    var all := items + [it];
    assert Without(all, |items|) == items;
    OptDecideAny(all, |items|, cap);
  }

  method SeqDp(items: seq<Item>, capacity: nat) returns (best: int)
    requires NonNegativeWeights(items)
    ensures IsOptimum(items, capacity, best)
    ensures best == Opt(items, capacity)
  {
    var prev := new int[capacity + 1](_ => 0);
    var curr := new int[capacity + 1](_ => 0);
    for k := 0 to |items|
      invariant prev.Length == curr.Length == capacity + 1 && prev != curr
      invariant fresh(prev) && fresh(curr)
      invariant forall c :: 0 <= c <= capacity ==> prev[c] == Opt(items[..k], c)
    {
      var it := items[k];
      assert items[..k + 1] == items[..k] + [it];
      for c := 0 to capacity + 1
        invariant forall d :: 0 <= d <= capacity ==> prev[d] == Opt(items[..k], d)
        invariant forall d :: 0 <= d < c ==> curr[d] == Opt(items[..k + 1], d)
      {
        OptSnoc(items[..k], it, c);
        curr[c] := prev[c];
        if c >= it.weight {
          var candidate := prev[c - it.weight] + it.value;
          curr[c] := Max(candidate, curr[c]);
        }
      }
      prev, curr := curr, prev;
    }
    assert items[..|items|] == items;
    OptIsOptimum(items, capacity);
    best := prev[capacity];
  }
}
