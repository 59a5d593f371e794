/** How the participants of a dispatch divide its blocks. */
module BlockShares {
  import opened Folds
  import opened Tiling

  // Static: rank r runs blocks r, r + participants, r + 2 * participants, ...

  function Strided(from: nat, participants: nat, blockCount: nat): seq<nat>
    requires participants > 0
    decreases blockCount - from
  {
    if from >= blockCount then [] else [from] + Strided(from + participants, participants, blockCount)
  }

  /** The owner of block b: b less as many rounds as fit. */
  function Owner(b: nat, participants: nat): (rank: nat)
    requires participants > 0
    ensures rank < participants
  {
    if b < participants then b else Owner(b - participants, participants)
  }

  lemma {:induction false} StridedHolds(from: nat, participants: nat, blockCount: nat, b: nat)
    requires participants > 0
    ensures b in Strided(from, participants, blockCount) <==> from <= b < blockCount && Owner(b - from, participants) == 0
    decreases blockCount - from
  {
    if from < blockCount {
      StridedHolds(from + participants, participants, blockCount, b);
    }
  }

  lemma {:induction false} OwnerShift(b: nat, rank: nat, participants: nat)
    requires rank < participants && rank <= b
    ensures Owner(b - rank, participants) == 0 <==> Owner(b, participants) == rank
    decreases b
  {
    if b >= participants + rank {
      OwnerShift(b - participants, rank, participants);
    }
  }

  lemma {:induction false} StridedAt(from: nat, participants: nat, blockCount: nat, i: nat)
    requires participants > 0 && i < |Strided(from, participants, blockCount)|
    ensures Strided(from, participants, blockCount)[i] == from + i * participants
    decreases i
  {
    if i > 0 {
      StridedAt(from + participants, participants, blockCount, i - 1);
      assert i * participants == participants + (i - 1) * participants;
    }
  }

  lemma StridedAscends(from: nat, participants: nat, blockCount: nat, i: nat, j: nat)
    requires participants > 0 && i < j < |Strided(from, participants, blockCount)|
    ensures Strided(from, participants, blockCount)[i] < Strided(from, participants, blockCount)[j]
  {
    StridedAt(from, participants, blockCount, i);
    StridedAt(from, participants, blockCount, j);
    RoundsApart(i, j, participants);
  }

  lemma RoundsApart(i: nat, j: nat, participants: nat)
    requires i < j && participants > 0
    ensures i * participants < j * participants
  {
    var more: nat := j - i - 1;
    assert j * participants == i * participants + participants + more * participants;
  }

  lemma {:induction false} CountOnce(s: seq<nat>, b: nat)
    requires forall i, j :: 0 <= i < j < |s| ==> s[i] < s[j]
    ensures multiset(s)[b] == if b in s then 1 else 0
  {
    if s != [] {
      var rest := s[1..];
      assert s == [s[0]] + rest;
      CountOnce(rest, b);
    }
  }

  /** A block occurs in its owner's share once and in no other, and there is nothing else in a share. */
  lemma StaticExactlyOnce(rank: nat, participants: nat, blockCount: nat, b: nat)
    requires rank < participants
    ensures multiset(Strided(rank, participants, blockCount))[b] == if b < blockCount && Owner(b, participants) == rank then 1 else 0
  {
    StridedHolds(rank, participants, blockCount, b);
    if b >= rank {
      OwnerShift(b, rank, participants);
    } else {
      assert Owner(b, participants) == b;
    }
    forall i, j | 0 <= i < j < |Strided(rank, participants, blockCount)|
      ensures Strided(rank, participants, blockCount)[i] < Strided(rank, participants, blockCount)[j]
    {
      StridedAscends(rank, participants, blockCount, i, j);
    }
    CountOnce(Strided(rank, participants, blockCount), b);
  }

  /** The loop hands out blocks rank, rank + participants, ...: each block the rank owns exactly once, and no other. */
  method StaticBlocks(rank: nat, participants: nat, blockCount: nat) returns (blocks: seq<nat>)
    requires rank < participants
    ensures forall i :: 0 <= i < |blocks| ==> blocks[i] == rank + i * participants
    ensures forall b: nat :: multiset(blocks)[b] == if b < blockCount && Owner(b, participants) == rank then 1 else 0
  {
    blocks := [];
    var candidate := rank;
    while candidate < blockCount
      invariant blocks + Strided(candidate, participants, blockCount) == Strided(rank, participants, blockCount)
      decreases blockCount - candidate
    {
      assert blocks + [candidate] + Strided(candidate + participants, participants, blockCount)
          == blocks + ([candidate] + Strided(candidate + participants, participants, blockCount));
      blocks := blocks + [candidate];
      candidate := candidate + participants;
    }
    forall i | 0 <= i < |blocks| ensures blocks[i] == rank + i * participants {
      StridedAt(rank, participants, blockCount, i);
    }
    forall b: nat ensures multiset(blocks)[b] == if b < blockCount && Owner(b, participants) == rank then 1 else 0 {
      StaticExactlyOnce(rank, participants, blockCount, b);
    }
  }

  // Contiguous: rank r runs one balanced span.

  function SpanBegin(blockCount: nat, participants: nat, rank: nat): nat
    requires participants > 0
  {
    var base, extra := blockCount / participants, blockCount % participants;
    rank * base + if rank < extra then rank else extra
  }

  function SpanEnd(blockCount: nat, participants: nat, rank: nat): nat
    requires participants > 0
  {
    SpanBegin(blockCount, participants, rank) + blockCount / participants + if rank < blockCount % participants then 1 else 0
  }

  lemma SpansMeet(blockCount: nat, participants: nat, rank: nat)
    requires participants > 0
    ensures SpanEnd(blockCount, participants, rank) == SpanBegin(blockCount, participants, rank + 1)
  {
    var base := blockCount / participants;
    assert (rank + 1) * base == rank * base + base;
  }

  lemma SpansEnd(blockCount: nat, participants: nat)
    requires participants > 0
    ensures SpanBegin(blockCount, participants, participants) == blockCount && SpanBegin(blockCount, participants, 0) == 0
  {
    var base, extra := blockCount / participants, blockCount % participants;
    assert participants * base + extra == blockCount;
    assert 0 * base == 0;
  }

  function SpanBounds(blockCount: nat, participants: nat): seq<nat>
    requires participants > 0
  {
    seq(participants + 1, r requires 0 <= r => SpanBegin(blockCount, participants, r))
  }

  lemma {:induction false} SpansAscend(blockCount: nat, participants: nat, r: nat, q: nat)
    requires participants > 0 && r <= q
    ensures SpanBegin(blockCount, participants, r) <= SpanBegin(blockCount, participants, q)
    decreases q
  {
    if r < q {
      SpansAscend(blockCount, participants, r, q - 1);
      SpansMeet(blockCount, participants, q - 1);
    }
  }

  /** The spans tile the blocks, no rank has more than one block more than another, and the longer spans come first. */
  lemma ContiguousTiles(blockCount: nat, participants: nat)
    requires participants > 0
    ensures IsTiling(SpanBounds(blockCount, participants), 0, blockCount)
    ensures forall r :: 0 <= r < participants ==>
      0 <= SpanEnd(blockCount, participants, r) - SpanBegin(blockCount, participants, r) - blockCount / participants <= 1
    ensures forall r, q :: 0 <= r < q < participants ==>
      SpanEnd(blockCount, participants, q) - SpanBegin(blockCount, participants, q)
        <= SpanEnd(blockCount, participants, r) - SpanBegin(blockCount, participants, r)
  {
    SpansEnd(blockCount, participants);
    var bounds := SpanBounds(blockCount, participants);
    forall i, j | 0 <= i <= j < |bounds| ensures bounds[i] <= bounds[j] {
      SpansAscend(blockCount, participants, i, j);
    }
  }

  // Dynamic: the first block by rank, the others from a shared counter.

  datatype Rank = Fresh | Drawing | Finished

  /** `log` lists the blocks handed out, in the order they were. */
  datatype Draws = Draws(ranks: seq<Rank>, next: nat, log: seq<nat>)

  function StartDraws(participants: nat): Draws {
    Draws(seq(participants, _ => Fresh), participants, [])
  }

  /** One call for the next block by rank r: its own block, or one fetch-and-add, or nothing left. */
  function Draw(s: Draws, blockCount: nat, r: nat): Draws
    requires r < |s.ranks| && !s.ranks[r].Finished?
  {
    if s.ranks[r].Fresh? && r < blockCount then s.(ranks := s.ranks[r := Drawing], log := s.log + [r])
    else if blockCount <= |s.ranks| then s.(ranks := s.ranks[r := Finished])
    else if s.next < blockCount then s.(ranks := s.ranks[r := Drawing], next := s.next + 1, log := s.log + [s.next])
    else s.(ranks := s.ranks[r := Finished], next := s.next + 1)
  }

  /** Handed out are the own blocks of the ranks that have started and the counter's blocks so far, each once. */
  ghost predicate DrawsOk(s: Draws, blockCount: nat) {
    && |s.ranks| <= s.next
    && (forall i, j :: 0 <= i < j < |s.log| ==> s.log[i] != s.log[j])
    && (forall b: nat :: b in s.log <==> b < blockCount && if b < |s.ranks| then !s.ranks[b].Fresh? else b < s.next)
    && (blockCount > |s.ranks| ==> forall r :: 0 <= r < |s.ranks| && s.ranks[r].Finished? ==> s.next >= blockCount)
  }

  lemma StartDrawsOk(participants: nat, blockCount: nat)
    ensures DrawsOk(StartDraws(participants), blockCount)
  {
  }

  lemma LogSnoc(log: seq<nat>, b: nat)
    requires (forall i, j :: 0 <= i < j < |log| ==> log[i] != log[j]) && b !in log
    ensures forall i, j :: 0 <= i < j < |log + [b]| ==> (log + [b])[i] != (log + [b])[j]
    ensures forall c: nat :: c in log + [b] <==> c in log || c == b
  {
  }

  lemma DrawKeepsOk(s: Draws, blockCount: nat, r: nat)
    requires DrawsOk(s, blockCount) && r < |s.ranks| && !s.ranks[r].Finished?
    ensures DrawsOk(Draw(s, blockCount, r), blockCount)
  {
    if s.ranks[r].Fresh? && r < blockCount {
      LogSnoc(s.log, r);
    } else if |s.ranks| < blockCount && s.next < blockCount {
      LogSnoc(s.log, s.next);
    }
  }

  /**
   * Every call either hands out a block nobody had or ends its rank; a rank ends only when every block is handed out or
   * is the own block of a rank yet to start.
   */
  lemma DrawHandsOutOrEnds(s: Draws, blockCount: nat, r: nat)
    requires DrawsOk(s, blockCount) && r < |s.ranks| && !s.ranks[r].Finished?
    ensures var s' := Draw(s, blockCount, r);
      (exists b: nat :: b < blockCount && b !in s.log && s'.log == s.log + [b] && s'.ranks == s.ranks[r := Drawing])
      || (s'.log == s.log && s'.ranks == s.ranks[r := Finished]
          && forall b: nat :: b < blockCount && b !in s.log ==> b < |s.ranks| && b != r && s.ranks[b].Fresh?)
  {
    var s' := Draw(s, blockCount, r);
    if s.ranks[r].Fresh? && r < blockCount {
      assert r !in s.log && s'.log == s.log + [r];
    } else if |s.ranks| < blockCount && s.next < blockCount {
      assert s.next !in s.log && s'.log == s.log + [s.next];
    }
  }

  function Running(ranks: seq<Rank>, k: nat): nat
    requires k <= |ranks|
  {
    if k == 0 then 0 else Running(ranks, k - 1) + if ranks[k - 1].Finished? then 0 else 1
  }

  lemma {:induction false} RunningUpdate(ranks: seq<Rank>, r: nat, v: Rank, k: nat)
    requires r < |ranks| && k <= |ranks| && !ranks[r].Finished?
    ensures Running(ranks[r := v], k) == Running(ranks, k) - if r < k && v.Finished? then 1 else 0
  {
    if k > 0 {
      RunningUpdate(ranks, r, v, k - 1);
    }
  }

  lemma {:induction false} FewDistinct(log: seq<nat>, n: nat)
    requires (forall i, j :: 0 <= i < j < |log| ==> log[i] != log[j]) && forall b :: b in log ==> b < n
    ensures |log| <= n
    decreases n
  {
    if log != [] {
      assert log[0] in log;
      if i :| 0 <= i < |log| && log[i] == n - 1 {
        var rest := log[..i] + log[i + 1..];
        forall j | 0 <= j < |rest| ensures rest[j] < n - 1 {
          assert rest[j] == log[if j < i then j else j + 1];
          assert rest[j] in log;
        }
        FewDistinct(rest, n - 1);
      } else {
        FewDistinct(log, n - 1);
      }
    }
  }

  /** So the ranks cannot go on asking: the calls are at most as many as there are blocks and ranks. */
  lemma {:induction false} DrawsEnd(s: Draws, blockCount: nat, calls: seq<nat>)
    requires DrawsOk(s, blockCount) && RealCalls(s, blockCount, calls)
    ensures |calls| + |s.log| <= blockCount + Running(s.ranks, |s.ranks|)
    decreases |calls|
  {
    forall b | b in s.log ensures b < blockCount {
    }
    FewDistinct(s.log, blockCount);
    if calls != [] {
      var r := calls[0];
      var s' := Draw(s, blockCount, r);
      DrawHandsOutOrEnds(s, blockCount, r);
      DrawKeepsOk(s, blockCount, r);
      RunningUpdate(s.ranks, r, s'.ranks[r], |s.ranks|);
      DrawsEnd(s', blockCount, calls[1..]);
    }
  }

  /** Every call is made by a rank that has not been told to stop. */
  predicate RealCalls(s: Draws, blockCount: nat, calls: seq<nat>)
    decreases |calls|
  {
    calls == [] || (calls[0] < |s.ranks| && !s.ranks[calls[0]].Finished? && RealCalls(Draw(s, blockCount, calls[0]), blockCount, calls[1..]))
  }

  /** The calls of all ranks in the order their fetch-and-adds take effect; a rank that is done calls no more. */
  function AfterDraws(s: Draws, blockCount: nat, calls: seq<nat>): Draws
    decreases |calls|
  {
    if calls == [] then s else
      var r := calls[0];
      AfterDraws(if r < |s.ranks| && !s.ranks[r].Finished? then Draw(s, blockCount, r) else s, blockCount, calls[1..])
  }

  lemma {:induction false} DrawsKeepOk(s: Draws, blockCount: nat, calls: seq<nat>)
    requires DrawsOk(s, blockCount)
    ensures DrawsOk(AfterDraws(s, blockCount, calls), blockCount) && |AfterDraws(s, blockCount, calls).ranks| == |s.ranks|
    decreases |calls|
  {
    if calls != [] {
      var r := calls[0];
      if r < |s.ranks| && !s.ranks[r].Finished? {
        DrawKeepsOk(s, blockCount, r);
        DrawsKeepOk(Draw(s, blockCount, r), blockCount, calls[1..]);
      } else {
        DrawsKeepOk(s, blockCount, calls[1..]);
      }
    }
  }

  /** Once every rank has been told there is nothing left, every block has been handed out exactly once. */
  lemma DynamicExactlyOnce(participants: nat, blockCount: nat, calls: seq<nat>)
    requires participants > 0
    requires forall r :: 0 <= r < |AfterDraws(StartDraws(participants), blockCount, calls).ranks| ==>
      AfterDraws(StartDraws(participants), blockCount, calls).ranks[r].Finished?
    ensures EachOnce(AfterDraws(StartDraws(participants), blockCount, calls).log, blockCount)
  {
    StartDrawsOk(participants, blockCount);
    DrawsKeepOk(StartDraws(participants), blockCount, calls);
    var s := AfterDraws(StartDraws(participants), blockCount, calls);
    assert s.ranks[0].Finished?;
    forall i | 0 <= i < |s.log| ensures s.log[i] < blockCount {
      assert s.log[i] in s.log;
    }
  }
}
