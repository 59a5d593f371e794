/** The greedy fractional bound used for pruning, and what makes it sound. */
module KnapsackBound {
  import opened KnapsackItems

  /** The order left by sorting on value per unit of weight, highest first. */
  predicate DensitySorted(items: seq<Item>) {
    forall i, j :: 0 <= i < j < |items| ==>
      items[i].value * items[j].weight >= items[j].value * items[i].weight
  }

  predicate PositiveWeights(items: seq<Item>) {
    forall i :: 0 <= i < |items| ==> items[i].weight >= 1
  }

  /** Greedy filling of `cap`, with a fraction of the first item that does not fit. */
  function Greedy(items: seq<Item>, cap: real): real {
    if items == [] || cap <= 0.0 then 0.0
    else if items[0].weight as real <= cap then
      items[0].value as real + Greedy(items[1..], cap - items[0].weight as real)
    else
      items[0].value as real * cap / items[0].weight as real
  }

  lemma GreedyStep(items: seq<Item>, i: nat, cap: int)
    requires i < |items| && cap > 0
    ensures items[i].weight <= cap ==>
      Greedy(items[i..], cap as real) == items[i].value as real + Greedy(items[i + 1..], (cap - items[i].weight) as real)
    ensures items[i].weight > cap ==>
      Greedy(items[i..], cap as real) == items[i].value as real * cap as real / items[i].weight as real
  {
    assert items[i..][0] == items[i] && items[i..][1..] == items[i + 1..];
    assert (cap - items[i].weight) as real == cap as real - items[i].weight as real;
  }

  method UpperBound(items: seq<Item>, idx: nat, remCap: int, curValue: int) returns (bound: real)
    requires idx <= |items|
    ensures bound == curValue as real + Greedy(items[idx..], remCap as real)
  {
    bound := curValue as real;
    var cap := remCap;
    ghost var total := curValue as real + Greedy(items[idx..], remCap as real);
    var i := idx;
    while i < |items| && cap > 0
      invariant idx <= i <= |items|
      invariant total == bound + Greedy(items[i..], cap as real)
    {
      GreedyStep(items, i, cap);
      if items[i].weight <= cap {
        bound := bound + items[i].value as real;
        cap := cap - items[i].weight;
      } else {
        bound := bound + items[i].value as real * cap as real / items[i].weight as real;
        return;
      }
      i := i + 1;
    }
  }

  // ---- The linear relaxation: each item may be taken in any fraction.

  predicate Fractions(x: seq<real>) {
    forall i :: 0 <= i < |x| ==> 0.0 <= x[i] <= 1.0
  }

  function FractionWeight(items: seq<Item>, x: seq<real>): real
    requires |x| == |items|
  {
    if items == [] then 0.0 else items[0].weight as real * x[0] + FractionWeight(items[1..], x[1..])
  }

  function FractionValue(items: seq<Item>, x: seq<real>): real
    requires |x| == |items|
  {
    if items == [] then 0.0 else items[0].value as real * x[0] + FractionValue(items[1..], x[1..])
  }

  predicate FractionalFeasible(items: seq<Item>, cap: real, x: seq<real>) {
    |x| == |items| && Fractions(x) && FractionWeight(items, x) <= cap
  }

  // ---- Duality: a price per unit of weight bounds every fractional selection from above.

  /** What an item earns beyond paying `price` for its weight, if it is worth taking at all. */
  function Surplus(it: Item, price: real): real {
    PositivePart(it.value as real - price * it.weight as real)
  }

  function PositivePart(net: real): real {
    if net >= 0.0 then net else 0.0
  }

  function TotalSurplus(items: seq<Item>, price: real): real {
    if items == [] then 0.0 else Surplus(items[0], price) + TotalSurplus(items[1..], price)
  }

  function Rate(it: Item): real
    requires it.weight >= 1
  {
    it.value as real / it.weight as real
  }

  lemma Scale(k: real, a: real, b: real)
    requires k >= 0.0 && a <= b
    ensures k * a <= k * b
  {
  }

  lemma Cancel(a: real, b: real, w: real)
    requires w > 0.0 && a * w <= b * w
    ensures a <= b
  {
  }

  lemma NetOfFraction(v: real, w: real, price: real, f: real)
    ensures (v - price * w) * f == v * f - price * (w * f)
  {
  }

  lemma FractionOfNet(net: real, f: real)
    requires 0.0 <= f <= 1.0
    ensures net * f <= PositivePart(net)
  {
    if net >= 0.0 {
      Scale(net, f, 1.0);
    } else {
      Scale(-net, 0.0, f);
    }
  }

  lemma ItemWithinSurplus(it: Item, price: real, f: real)
    requires 0.0 <= f <= 1.0
    ensures it.value as real * f <= price * (it.weight as real * f) + Surplus(it, price)
  {
    var v, w := it.value as real, it.weight as real;
    FractionOfNet(v - price * w, f);
    NetOfFraction(v, w, price, f);
  }

  lemma {:induction false} PriceBounds(items: seq<Item>, price: real, x: seq<real>)
    requires |x| == |items| && Fractions(x)
    ensures FractionValue(items, x) <= price * FractionWeight(items, x) + TotalSurplus(items, price)
  {
    if items != [] {
      ItemWithinSurplus(items[0], price, x[0]);
      PriceBounds(items[1..], price, x[1..]);
      Distribute(price, items[0].weight as real * x[0], FractionWeight(items[1..], x[1..]));
    }
  }

  lemma Distribute(k: real, a: real, b: real)
    ensures k * (a + b) == k * a + k * b
  {
  }

  lemma RateTimes(it: Item, cap: real)
    requires it.weight >= 1
    ensures Rate(it) * it.weight as real == it.value as real
    ensures it.value as real * cap / it.weight as real == Rate(it) * cap
  {
  }

  lemma RateDecreases(a: Item, b: Item)
    requires a.weight >= 1 && b.weight >= 1 && a.value * b.weight >= b.value * a.weight
    ensures Rate(b) <= Rate(a)
  {
    var aw, bw := a.weight as real, b.weight as real;
    RateTimes(a, bw);
    RateTimes(b, aw);
    assert (a.value * b.weight) as real == a.value as real * bw;
    assert (b.value * a.weight) as real == b.value as real * aw;
    assert Rate(b) * (aw * bw) == (Rate(b) * bw) * aw;
    assert Rate(a) * (aw * bw) == (Rate(a) * aw) * bw;
    Cancel(Rate(b), Rate(a), aw * bw);
  }

  lemma SurplusAtRate(it: Item, price: real)
    requires it.weight >= 1
    ensures price <= Rate(it) ==> Surplus(it, price) == it.value as real - price * it.weight as real
    ensures price >= Rate(it) ==> Surplus(it, price) == 0.0
  {
    RateTimes(it, 1.0);
    var w := it.weight as real;
    if price <= Rate(it) {
      Scale(w, price, Rate(it));
    } else {
      Scale(w, Rate(it), price);
    }
  }

  lemma {:induction false} NoSurplusBelow(items: seq<Item>, price: real)
    requires PositiveWeights(items) && (forall i :: 0 <= i < |items| ==> Rate(items[i]) <= price)
    ensures TotalSurplus(items, price) == 0.0
  {
    if items != [] {
      SurplusAtRate(items[0], price);
      NoSurplusBelow(items[1..], price);
    }
  }

  lemma NoSurplusAtHead(items: seq<Item>)
    requires items != [] && PositiveWeights(items) && DensitySorted(items)
    ensures TotalSurplus(items, Rate(items[0])) == 0.0
  {
    forall i | 0 <= i < |items| ensures Rate(items[i]) <= Rate(items[0]) {
      RateDecreases(items[0], items[i]);
    }
    NoSurplusBelow(items, Rate(items[0]));
  }

  lemma RateNonNegative(it: Item)
    requires it.weight >= 1 && it.value >= 0
    ensures Rate(it) >= 0.0
  {
    RateTimes(it, 1.0);
    Cancel(0.0, Rate(it), it.weight as real);
  }

  /** `price` makes the duality tight for greedy filling of `cap`. */
  ghost predicate Tight(items: seq<Item>, cap: real, price: real) {
    Greedy(items, cap) == price * cap + TotalSurplus(items, price)
  }

  lemma TightAtHead(items: seq<Item>, cap: real)
    requires ValidItems(items) && DensitySorted(items) && items != []
    requires 0.0 <= cap && (cap < items[0].weight as real || cap == 0.0)
    ensures Tight(items, cap, Rate(items[0]))
  {
    RateTimes(items[0], cap);
    NoSurplusAtHead(items);
  }

  lemma TightBeyondHead(items: seq<Item>, cap: real, price: real)
    requires items != [] && 1.0 <= items[0].weight as real <= cap && price <= Rate(items[0])
    requires Tight(items[1..], cap - items[0].weight as real, price)
    ensures Tight(items, cap, price)
  {
    SurplusAtRate(items[0], price);
    Distribute(price, cap - items[0].weight as real, items[0].weight as real);
  }

  /** The density at which greedy filling stops is such a price. */
  lemma {:induction false} GreedyPrice(items: seq<Item>, cap: real) returns (price: real)
    requires ValidItems(items) && DensitySorted(items) && cap >= 0.0
    ensures price >= 0.0 && (if items == [] then price == 0.0 else price <= Rate(items[0]))
    ensures Tight(items, cap, price)
  {
    if items == [] {
      price := 0.0;
    } else {
      RateNonNegative(items[0]);
      if cap < items[0].weight as real || cap == 0.0 {
        price := Rate(items[0]);
        TightAtHead(items, cap);
      } else {
        TailFacts(items);
        price := GreedyPrice(items[1..], cap - items[0].weight as real);
        if |items| > 1 {
          RateDecreases(items[0], items[1]);
        }
        TightBeyondHead(items, cap, price);
      }
    }
  }

  lemma TailFacts(items: seq<Item>)
    requires ValidItems(items) && DensitySorted(items) && items != []
    ensures ValidItems(items[1..]) && DensitySorted(items[1..])
  {
  }

  /** Greedy filling dominates every fractional completion. */
  lemma GreedyDominates(items: seq<Item>, cap: real, x: seq<real>)
    requires ValidItems(items) && DensitySorted(items) && cap >= 0.0
    requires FractionalFeasible(items, cap, x)
    ensures FractionValue(items, x) <= Greedy(items, cap)
  {
    var price := GreedyPrice(items, cap);
    PriceBoundsWithin(items, price, cap, x);
  }

  lemma ScaledWithin(k: real, a: real, b: real, v: real, s: real)
    requires k >= 0.0 && a <= b && v <= k * a + s
    ensures v <= k * b + s
  {
    Scale(k, a, b);
  }

  lemma PriceBoundsWithin(items: seq<Item>, price: real, cap: real, x: seq<real>)
    requires FractionalFeasible(items, cap, x) && price >= 0.0
    ensures FractionValue(items, x) <= price * cap + TotalSurplus(items, price)
  {
    PriceBounds(items, price, x);
    ScaledWithin(price, FractionWeight(items, x), cap, FractionValue(items, x), TotalSurplus(items, price));
  }

  lemma Quotient(v: real, cap: real, w: real)
    requires 0.0 <= cap < w
    ensures 0.0 <= cap / w <= 1.0 && w * (cap / w) == cap && v * (cap / w) == v * cap / w
  {
    Cancel(0.0, cap / w, w);
    Cancel(cap / w, 1.0, w);
  }

  /** ... and is itself the value of one. */
  lemma {:induction false} GreedyAttained(items: seq<Item>, cap: real) returns (x: seq<real>)
    requires PositiveWeights(items) && cap >= 0.0
    ensures FractionalFeasible(items, cap, x) && FractionValue(items, x) == Greedy(items, cap)
  {
    if items == [] {
      x := [];
    } else {
      var v, w := items[0].value as real, items[0].weight as real;
      if w <= cap {
        var rest := GreedyAttained(items[1..], cap - w);
        x := [1.0] + rest;
        assert x[1..] == rest;
      } else {
        var rest := GreedyAttained(items[1..], 0.0);
        x := [cap / w] + rest;
        assert x[1..] == rest;
        GreedyEmpty(items[1..]);
        Quotient(v, cap, w);
      }
    }
  }

  lemma GreedyEmpty(items: seq<Item>)
    ensures Greedy(items, 0.0) == 0.0
  {
  }

  /** The greedy bound is exactly the optimum of the linear relaxation. */
  lemma GreedyIsLinearOptimum(items: seq<Item>, cap: real)
    requires ValidItems(items) && DensitySorted(items) && cap >= 0.0
    ensures exists x :: FractionalFeasible(items, cap, x) && FractionValue(items, x) == Greedy(items, cap)
    ensures forall x :: FractionalFeasible(items, cap, x) ==> FractionValue(items, x) <= Greedy(items, cap)
  {
    var x := GreedyAttained(items, cap);
    forall x | FractionalFeasible(items, cap, x) ensures FractionValue(items, x) <= Greedy(items, cap) {
      GreedyDominates(items, cap, x);
    }
  }

  // ---- Whole selections are fractional ones.

  function AsFractions(pick: seq<bool>): (x: seq<real>)
    ensures |x| == |pick| && Fractions(x)
  {
    seq(|pick|, i requires 0 <= i < |pick| => if pick[i] then 1.0 else 0.0)
  }

  lemma {:induction false} WholeIsFractional(items: seq<Item>, pick: seq<bool>)
    requires |pick| == |items|
    ensures FractionWeight(items, AsFractions(pick)) == TotalWeight(items, pick) as real
    ensures FractionValue(items, AsFractions(pick)) == TotalValue(items, pick) as real
  {
    if items != [] {
      assert AsFractions(pick)[1..] == AsFractions(pick[1..]);
      WholeIsFractional(items[1..], pick[1..]);
    }
  }

  /** The bound at a node is at least every 0/1 completion of that node. */
  lemma BoundDominates(items: seq<Item>, cap: int)
    requires ValidItems(items) && DensitySorted(items) && cap >= 0
    ensures Opt(items, cap) as real <= Greedy(items, cap as real)
  {
    var pick := OptAttained(items, cap);
    WholeIsFractional(items, pick);
    GreedyDominates(items, cap as real, AsFractions(pick));
  }

  /** The bound never rises from a node to its skip child, and is unchanged at its take child. */
  lemma BoundMonotone(items: seq<Item>, cap: int)
    requires ValidItems(items) && DensitySorted(items) && cap >= 0 && items != []
    ensures Greedy(items[1..], cap as real) <= Greedy(items, cap as real)
    ensures 1 <= items[0].weight <= cap ==>
      items[0].value as real + Greedy(items[1..], (cap - items[0].weight) as real) == Greedy(items, cap as real)
  {
    var x := GreedyAttained(items[1..], cap as real);
    var y := [0.0] + x;
    assert y[1..] == x;
    GreedyDominates(items, cap as real, y);
    if items[0].weight <= cap {
      assert (cap - items[0].weight) as real == cap as real - items[0].weight as real;
    }
  }

  /** At every node of the search tree the bound covers every feasible completion. */
  ghost predicate SoundEverywhere(items: seq<Item>) {
    forall idx: nat, cap: nat, pick ::
      idx <= |items| && Feasible(items[idx..], cap, pick) ==>
        TotalValue(items[idx..], pick) as real <= Greedy(items[idx..], cap as real)
  }

  lemma {:induction false} NothingPicked(items: seq<Item>) returns (pick: seq<bool>)
    ensures |pick| == |items| && TotalWeight(items, pick) == 0 && TotalValue(items, pick) == 0
  {
    if items == [] {
      pick := [];
    } else {
      var rest := NothingPicked(items[1..]);
      pick := [false] + rest;
      assert pick[1..] == rest;
    }
  }

  /** On a density-sorted list the pruning bound is sound exactly when no item has a negative value. */
  lemma BoundSoundIff(items: seq<Item>)
    requires PositiveWeights(items) && DensitySorted(items)
    ensures SoundEverywhere(items) <==> ValidItems(items)
  {
    if SoundEverywhere(items) {
      forall i | 0 <= i < |items| ensures items[i].value >= 0 {
        var rest := items[i..];
        var pick := NothingPicked(rest);
        assert Feasible(rest, rest[0].weight, pick);
        GreedyEmpty(rest[1..]);
        assert Greedy(rest, rest[0].weight as real) == rest[0].value as real;
      }
    }
    if ValidItems(items) {
      forall idx: nat, cap: nat, pick | idx <= |items| && Feasible(items[idx..], cap, pick)
        ensures TotalValue(items[idx..], pick) as real <= Greedy(items[idx..], cap as real)
      {
        WholeIsFractional(items[idx..], pick);
        assert DensitySorted(items[idx..]);
        GreedyDominates(items[idx..], cap as real, AsFractions(pick));
      }
    }
  }
}
