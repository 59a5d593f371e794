/** The same descent as it runs on one participant, updating the shared search state in place. */
module KnapsackSerial {
  import opened KnapsackItems
  import opened KnapsackBound
  import opened KnapsackCancel

  /** How many entries found the stop flag up. */
  function Found(flags: seq<bool>): nat {
    if flags == [] then 0 else Found(flags[..|flags| - 1]) + if flags[|flags| - 1] then 1 else 0
  }

  /** One more value makes one more place to look for a wide jump. */
  lemma JumpsAfter(bests: seq<int>, v: int)
    requires bests != []
    ensures SomeWideJump(bests + [v]) <==> SomeWideJump(bests) || WideJump(bests + [v], |bests| - 1)
  {
    if i :| WideJump(bests, i) {
      assert WideJump(bests + [v], i);
    }
    if i :| WideJump(bests + [v], i) {
      assert i == |bests| - 1 || WideJump(bests, i);
    }
  }

  /** A node's best completion, from its children's. */
  lemma NodeOpt(items: seq<Item>, idx: nat, remCap: int)
    requires ValidItems(items) && idx < |items| && remCap >= 0
    ensures var it, skip := items[idx], Opt(items[idx + 1..], remCap);
      Opt(items[idx..], remCap) ==
        if it.weight <= remCap then Max(skip, it.value + Opt(items[idx + 1..], remCap - it.weight)) else skip
  {
    var rest := items[idx..];
    assert rest[0] == items[idx] && rest[1..] == items[idx + 1..];
  }

  class SearchState {
    var bestValue: int
    var cancelFirings: nat
    var stopRequested: bool
    const cancellationEnabled: bool

    /** Every value the running best has held, and the stop flag as each call so far found it. */
    ghost var bests: seq<int>
    ghost var entries: seq<bool>

    /** The flag is up exactly after a wide jump of the best, and the counter is the number of entries that found it up. */
    ghost predicate Accounted()
      reads this
    {
      && bests != [] && bestValue == bests[|bests| - 1]
      && (stopRequested <==> cancellationEnabled && SomeWideJump(bests))
      && cancelFirings == Found(entries)
    }

    constructor (cancellationEnabled: bool)
      ensures bestValue == 0 && cancelFirings == 0 && !stopRequested
      ensures this.cancellationEnabled == cancellationEnabled
      ensures Accounted() && bests == [0] && entries == []
    {
      bestValue, cancelFirings, stopRequested := 0, 0, false;
      bests, entries := [0], [];
      this.cancellationEnabled := cancellationEnabled;
    }

    /** Searches one subtree: the running best becomes the larger of itself and the subtree's
        best completion, whichever child a pool happens to run first. */
    method SearchRec(items: seq<Item>, idx: nat, remCap: int, curValue: int, cutoff: nat)
      requires ValidItems(items) && DensitySorted(items) && idx <= |items| && remCap >= 0 && Accounted()
      modifies this
      ensures bestValue == Max(old(bestValue), curValue + Opt(items[idx..], remCap))
      ensures Accounted() && old(bests) <= bests
      ensures old(entries) < entries && entries[|old(entries)|] == old(stopRequested)
      ensures cancelFirings >= old(cancelFirings) && (old(stopRequested) ==> stopRequested)
      ensures !cancellationEnabled ==> cancelFirings == old(cancelFirings) && stopRequested == old(stopRequested)
      decreases |items| - idx, 1
    {
      CountEntry();
      if idx == |items| || remCap == 0 {
        if remCap == 0 {
          OptFull(items[idx..]);
        }
        RaiseBest(curValue);
        return;
      }
      NodeOpt(items, idx, remCap);
      var bound := UpperBound(items, idx, remCap, curValue);
      var currentBest := bestValue;
      if bound <= currentBest as real {
        BoundDominates(items[idx..], remCap);
        return;
      }
      SearchChildren(items, idx, remCap, curValue, cutoff);
    }

    /** The children of a node that was not pruned: the take child if the item fits, and the skip child. */
    method SearchChildren(items: seq<Item>, idx: nat, remCap: int, curValue: int, cutoff: nat)
      requires ValidItems(items) && DensitySorted(items) && idx < |items| && remCap >= 0 && Accounted()
      modifies this
      ensures var it, skip := items[idx], curValue + Opt(items[idx + 1..], remCap);
        bestValue == Max(old(bestValue),
          if it.weight <= remCap then Max(skip, curValue + it.value + Opt(items[idx + 1..], remCap - it.weight)) else skip)
      ensures Accounted() && old(bests) <= bests && old(entries) <= entries
      ensures cancelFirings >= old(cancelFirings) && (old(stopRequested) ==> stopRequested)
      ensures !cancellationEnabled ==> cancelFirings == old(cancelFirings) && stopRequested == old(stopRequested)
      decreases |items| - idx, 0
    {
      var canTake := items[idx].weight <= remCap;
      var takeFirst := true;
      if |items| - idx > cutoff {
        takeFirst := *;
      }
      if takeFirst && canTake {
        SearchRec(items, idx + 1, remCap - items[idx].weight, curValue + items[idx].value, cutoff);
      }
      SearchRec(items, idx + 1, remCap, curValue, cutoff);
      if !takeFirst && canTake {
        SearchRec(items, idx + 1, remCap - items[idx].weight, curValue + items[idx].value, cutoff);
      }
    }

    method CountEntry()
      requires Accounted()
      modifies this
      ensures Accounted() && entries == old(entries) + [stopRequested] && bests == old(bests)
      ensures bestValue == old(bestValue) && stopRequested == old(stopRequested)
      ensures cancelFirings == old(cancelFirings) + if stopRequested then 1 else 0
    {
      if cancellationEnabled && stopRequested {
        cancelFirings := cancelFirings + 1;
      }
      entries := entries + [stopRequested];
    }

    method RaiseBest(curValue: int)
      requires Accounted()
      modifies this
      ensures bestValue == Max(old(bestValue), curValue)
      ensures Accounted() && entries == old(entries)
      ensures bests == if curValue > old(bestValue) then old(bests) + [curValue] else old(bests)
      ensures cancelFirings == old(cancelFirings) && (old(stopRequested) ==> stopRequested)
      ensures stopRequested ==
        (old(stopRequested) || (cancellationEnabled && old(bestValue) > 0 && curValue > old(bestValue) + old(bestValue) / 100))
    {
      var observed := bestValue;
      if curValue > observed {
        bestValue := curValue;
        JumpsAfter(bests, curValue);
        bests := bests + [curValue];
      }
      if cancellationEnabled && curValue > observed && observed > 0 && curValue > observed + observed / 100 {
        stopRequested := true;
      }
    }
  }

  /** The benchmark's own check: search on the sorted items meets the reference on the original ones. */
  method RunOnce(items: seq<Item>, itemsSorted: seq<Item>, capacity: nat, cutoff: nat, cancellationEnabled: bool)
    returns (parallel: int, firings: nat)
    requires ValidItems(itemsSorted) && DensitySorted(itemsSorted)
    requires multiset(items) == multiset(itemsSorted)
    ensures IsOptimum(items, capacity, parallel)
    ensures !cancellationEnabled ==> firings == 0
  {
    var state := new SearchState(cancellationEnabled);
    state.SearchRec(itemsSorted, 0, capacity, 0, cutoff);
    parallel, firings := state.bestValue, state.cancelFirings;
    assert itemsSorted[0..] == itemsSorted;
    OptNonNegative(itemsSorted, capacity);
    SameItemsSameWeights(itemsSorted, items);
    OptPermutation(itemsSorted, items, capacity);
    OptIsOptimum(items, capacity);
  }
}
