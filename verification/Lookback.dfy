/** The single-pass scan with decoupled lookback: one tile per claim, every shared access of a tile its own step. */
module Lookback {
  import opened Folds
  import opened Tiling

  /**
   * The input, the combiner and the tile bounds; tile t is [bounds[t], bounds[t + 1]). Cluster k has slots[k] workers,
   * which alone claim its tiles, clusters[k] to clusters[k + 1] - 1.
   */
  datatype Config<!T> = Config(value: nat -> T, combine: (T, T) -> T, identity: T, bounds: seq<nat>, clusters: seq<nat>, slots: seq<nat>)

  /** Where the claimant of a tile stands. A tile's flag follows from it. */
  datatype Tile<T> =
    | Unclaimed
    | Scanning
    | Walking(cursor: nat, accum: T)
    | Publishing(result: T)
    | Adjusting
    | Finished

  /** `aggregate` and `prefix` are the tiles' published fields, `next` the clusters' claim counters. */
  datatype State<T> = State(tiles: seq<Tile<T>>, aggregate: seq<T>, prefix: seq<T>, next: seq<nat>)

  datatype Action = Claim(cluster: nat) | Step(tile: nat)

  /** A cluster that has tiles has workers; ClusterTiles divides the tiles that way. */
  predicate ValidConfig<T>(c: Config<T>) {
    && |c.bounds| >= 2 && IsTiling(c.bounds, 0, c.bounds[|c.bounds| - 1])
    && |c.clusters| == |c.slots| + 1 && IsTiling(c.clusters, 0, |c.bounds| - 1)
    && forall k :: 0 <= k < |c.slots| && c.slots[k] == 0 ==> c.clusters[k] == c.clusters[k + 1]
  }

  ghost predicate Monoid<T(!new)>(c: Config<T>) {
    Associative(c.combine) && Neutral(c.combine, c.identity)
  }

  predicate Shaped<T>(c: Config<T>, s: State<T>) {
    ValidConfig(c) && |s.tiles| == |s.aggregate| == |s.prefix| == |c.bounds| - 1 && |s.next| == |c.slots|
  }

  /** flag >= AggregateAvailable. */
  predicate HasAggregate<T>(t: Tile<T>) {
    !t.Unclaimed? && !t.Scanning?
  }

  /** flag == PrefixAvailable. */
  predicate HasPrefix<T>(t: Tile<T>) {
    t.Adjusting? || t.Finished?
  }

  predicate Busy<T>(t: Tile<T>) {
    !t.Unclaimed? && !t.Finished?
  }

  /** How many of the tiles lo to hi - 1 are being worked on: one worker each. */
  function BusyCount<T>(tiles: seq<Tile<T>>, lo: nat, hi: nat): nat
    requires lo <= hi <= |tiles|
    decreases hi
  {
    if hi == lo then 0 else BusyCount(tiles, lo, hi - 1) + if Busy(tiles[hi - 1]) then 1 else 0
  }

  /** The walk would spin: its predecessor has published nothing yet. */
  predicate Spins<T>(s: State<T>, t: nat)
    requires t < |s.tiles|
  {
    s.tiles[t].Walking? && 0 < s.tiles[t].cursor <= |s.tiles| && !HasAggregate(s.tiles[s.tiles[t].cursor - 1])
  }

  predicate Enabled<T>(c: Config<T>, s: State<T>, a: Action) {
    && Shaped(c, s)
    && match a
       case Claim(k) => k < |c.slots| && s.next[k] < c.clusters[k + 1] && BusyCount(s.tiles, c.clusters[k], c.clusters[k + 1]) < c.slots[k]
       case Step(t) => t < |s.tiles| && Busy(s.tiles[t]) && !Spins(s, t) && (s.tiles[t].Walking? ==> s.tiles[t].cursor <= |s.tiles|)
  }

  /** The tile's own total: pass 1. */
  function TileTotal<T>(c: Config<T>, t: nat): T
    requires ValidConfig(c) && t + 1 < |c.bounds|
  {
    Fold(c.value, c.combine, c.identity, c.bounds[t], c.bounds[t + 1])
  }

  function Apply<T>(c: Config<T>, s: State<T>, a: Action): (r: State<T>)
    requires Enabled(c, s, a)
    ensures Shaped(c, r)
  {
    match a
    case Claim(k) => s.(tiles := s.tiles[s.next[k] := Scanning], next := s.next[k := s.next[k] + 1])
    case Step(t) =>
      match s.tiles[t]
      case Scanning =>
        s.(aggregate := s.aggregate[t := TileTotal(c, t)],
           tiles := s.tiles[t := if t == 0 then Publishing(c.identity) else Walking(t, c.identity)])
      case Walking(cursor, accum) =>
        if cursor == 0 then s.(tiles := s.tiles[t := Publishing(accum)]) else
          var peer := cursor - 1;
          if HasPrefix(s.tiles[peer]) then
            s.(tiles := s.tiles[t := Publishing(c.combine(c.combine(s.prefix[peer], s.aggregate[peer]), accum))])
          else s.(tiles := s.tiles[t := Walking(peer, c.combine(s.aggregate[peer], accum))])
      case Publishing(result) => s.(prefix := s.prefix[t := result], tiles := s.tiles[t := Adjusting])
      case Adjusting => s.(tiles := s.tiles[t := Finished])
  }

  /** The fold of everything from index lo to index hi - 1. */
  function Span<T>(c: Config<T>, lo: nat, hi: nat): T {
    Fold(c.value, c.combine, c.identity, lo, hi)
  }

  lemma SpanJoin<T(!new)>(c: Config<T>, lo: nat, mid: nat, hi: nat)
    requires Monoid(c) && lo <= mid <= hi
    ensures c.combine(Span(c, lo, mid), Span(c, mid, hi)) == Span(c, lo, hi)
  {
    FoldSplit(c.value, c.combine, c.identity, lo, mid, hi);
    FoldFrom(c.value, c.combine, c.identity, Span(c, lo, mid), mid, hi);
  }

  /** What a tile holds and has published. The walk's sum covers the tiles from its cursor to the tile, in order. */
  ghost predicate TileOk<T>(c: Config<T>, s: State<T>, t: nat)
    requires Shaped(c, s) && t < |s.tiles|
  {
    && (HasAggregate(s.tiles[t]) ==> s.aggregate[t] == Span(c, c.bounds[t], c.bounds[t + 1]))
    && (HasPrefix(s.tiles[t]) ==> s.prefix[t] == Span(c, 0, c.bounds[t]))
    && (s.tiles[t].Walking? ==> s.tiles[t].cursor <= t && s.tiles[t].accum == Span(c, c.bounds[s.tiles[t].cursor], c.bounds[t]))
    && (s.tiles[t].Publishing? ==> s.tiles[t].result == Span(c, 0, c.bounds[t]))
  }

  /** A cluster's tiles are claimed in order. */
  predicate ClaimsOk<T>(c: Config<T>, s: State<T>, k: nat)
    requires Shaped(c, s) && k < |c.slots|
  {
    && c.clusters[k] <= s.next[k] <= c.clusters[k + 1]
    && forall t :: c.clusters[k] <= t < c.clusters[k + 1] ==> (s.tiles[t].Unclaimed? <==> t >= s.next[k])
  }

  ghost predicate Invariant<T>(c: Config<T>, s: State<T>) {
    && Shaped(c, s)
    && (forall t :: 0 <= t < |s.tiles| ==> TileOk(c, s, t))
    && forall k :: 0 <= k < |c.slots| ==> ClaimsOk(c, s, k)
  }

  function Start<T>(c: Config<T>): State<T>
    requires ValidConfig(c)
  {
    var n := |c.bounds| - 1;
    State(seq(n, _ => Unclaimed), seq(n, _ => c.identity), seq(n, _ => c.identity), c.clusters[..|c.slots|])
  }

  lemma SpanEmpty<T>(c: Config<T>, i: nat)
    ensures Span(c, i, i) == c.identity
  {
  }

  /** A sum from mid on, extended by the block before it, and by everything before that. */
  lemma Extended<T(!new)>(c: Config<T>, lo: nat, mid: nat, hi: nat)
    requires Monoid(c) && lo <= mid <= hi
    ensures c.combine(Span(c, lo, mid), Span(c, mid, hi)) == Span(c, lo, hi)
    ensures c.combine(c.combine(Span(c, 0, lo), Span(c, lo, mid)), Span(c, mid, hi)) == Span(c, 0, hi)
  {
    SpanJoin(c, lo, mid, hi);
    SpanJoin(c, 0, lo, mid);
    SpanJoin(c, 0, mid, hi);
  }

  /** One look at the predecessor extends the sum to the left, whichever of its two values is there. */
  lemma WalkStep<T(!new)>(c: Config<T>, s: State<T>, t: nat)
    requires Monoid(c) && Invariant(c, s) && Enabled(c, s, Step(t)) && s.tiles[t].Walking? && s.tiles[t].cursor > 0
    ensures TileOk(c, Apply(c, s, Step(t)), t)
  {
    var cursor := s.tiles[t].cursor;
    var peer := cursor - 1;
    assert TileOk(c, s, t) && TileOk(c, s, peer);
    Extended(c, c.bounds[peer], c.bounds[cursor], c.bounds[t]);
  }

  lemma OtherTiles<T>(c: Config<T>, s: State<T>, t: nat, j: nat)
    requires Invariant(c, s) && Enabled(c, s, Step(t)) && j < |s.tiles| && j != t
    ensures TileOk(c, Apply(c, s, Step(t)), j)
  {
    assert TileOk(c, s, j);
  }

  lemma OwnTile<T(!new)>(c: Config<T>, s: State<T>, t: nat)
    requires Monoid(c) && Invariant(c, s) && Enabled(c, s, Step(t))
    ensures TileOk(c, Apply(c, s, Step(t)), t)
  {
    assert TileOk(c, s, t);
    SpanEmpty(c, c.bounds[t]);
    if s.tiles[t].Walking? && s.tiles[t].cursor > 0 {
      WalkStep(c, s, t);
    }
  }

  lemma StepClaims<T>(c: Config<T>, s: State<T>, t: nat, k: nat)
    requires Invariant(c, s) && Enabled(c, s, Step(t)) && k < |c.slots|
    ensures ClaimsOk(c, Apply(c, s, Step(t)), k)
  {
    assert ClaimsOk(c, s, k);
  }

  /** Clusters share no tile, so a claim in one leaves the others' counters right. */
  lemma ClaimClaims<T>(c: Config<T>, s: State<T>, k: nat, j: nat)
    requires Invariant(c, s) && Enabled(c, s, Claim(k)) && j < |c.slots|
    ensures ClaimsOk(c, Apply(c, s, Claim(k)), j)
  {
    assert ClaimsOk(c, s, k) && ClaimsOk(c, s, j);
    assert j == k || !(c.clusters[j] <= s.next[k] < c.clusters[j + 1]);
  }

  lemma ClaimKeeps<T(!new)>(c: Config<T>, s: State<T>, k: nat)
    requires Invariant(c, s) && Enabled(c, s, Claim(k))
    ensures Invariant(c, Apply(c, s, Claim(k)))
  {
    var r := Apply(c, s, Claim(k));
    forall t | 0 <= t < |r.tiles| ensures TileOk(c, r, t) {
      assert TileOk(c, s, t) && ClaimsOk(c, s, k);
    }
    forall j | 0 <= j < |c.slots| ensures ClaimsOk(c, r, j) {
      ClaimClaims(c, s, k, j);
    }
  }

  lemma ActionKeeps<T(!new)>(c: Config<T>, s: State<T>, a: Action)
    requires Monoid(c) && Invariant(c, s) && Enabled(c, s, a)
    ensures Invariant(c, Apply(c, s, a))
  {
    match a
    case Claim(k) => ClaimKeeps(c, s, k);
    case Step(t) =>
      forall j | 0 <= j < |s.tiles| ensures TileOk(c, Apply(c, s, a), j) {
        if j == t {
          OwnTile(c, s, t);
        } else {
          OtherTiles(c, s, t, j);
        }
      }
      forall k | 0 <= k < |c.slots| ensures ClaimsOk(c, Apply(c, s, a), k) {
        StepClaims(c, s, t, k);
      }
  }

  predicate Legal<T>(c: Config<T>, s: State<T>, run: seq<Action>)
    decreases |run|
  {
    run == [] || (Enabled(c, s, run[0]) && Legal(c, Apply(c, s, run[0]), run[1..]))
  }

  function Final<T>(c: Config<T>, s: State<T>, run: seq<Action>): State<T>
    requires Legal(c, s, run)
    decreases |run|
  {
    if run == [] then s else Final(c, Apply(c, s, run[0]), run[1..])
  }

  lemma {:induction false} RunKeeps<T(!new)>(c: Config<T>, s: State<T>, run: seq<Action>)
    requires Monoid(c) && Invariant(c, s) && Legal(c, s, run)
    ensures Invariant(c, Final(c, s, run))
    decreases |run|
  {
    if run != [] {
      ActionKeeps(c, s, run[0]);
      RunKeeps(c, Apply(c, s, run[0]), run[1..]);
    }
  }

  lemma StartOk<T>(c: Config<T>)
    requires ValidConfig(c)
    ensures Invariant(c, Start(c))
  {
  }

  /**
   * Whatever the interleaving, a published prefix is the fold of everything before its tile, in order: the combiner
   * need not commute. Pass 2 then turns the tile's own running sums into the inclusive scan.
   */
  lemma PrefixIsScan<T(!new)>(c: Config<T>, run: seq<Action>, t: nat, i: nat)
    requires ValidConfig(c) && Monoid(c) && Legal(c, Start(c), run) && t + 1 < |c.bounds| && c.bounds[t] <= i < c.bounds[t + 1]
    requires Shaped(c, Final(c, Start(c), run)) && HasPrefix(Final(c, Start(c), run).tiles[t])
    ensures var s := Final(c, Start(c), run);
      s.prefix[t] == Span(c, 0, c.bounds[t]) && c.combine(s.prefix[t], Span(c, c.bounds[t], i + 1)) == Span(c, 0, i + 1)
  {
    StartOk(c);
    RunKeeps(c, Start(c), run);
    assert TileOk(c, Final(c, Start(c), run), t);
    SpanJoin(c, 0, c.bounds[t], i + 1);
  }

  lemma TotalAt<T(!new)>(c: Config<T>, s: State<T>)
    requires Monoid(c) && Invariant(c, s) && HasPrefix(s.tiles[|c.bounds| - 2])
    ensures var last := |c.bounds| - 2; c.combine(s.prefix[last], s.aggregate[last]) == Span(c, 0, c.bounds[last + 1])
  {
    var last := |c.bounds| - 2;
    assert TileOk(c, s, last);
    SpanJoin(c, 0, c.bounds[last], c.bounds[last + 1]);
  }

  /** The total at the right edge, from the last tile. */
  lemma TotalIsFold<T(!new)>(c: Config<T>, run: seq<Action>)
    requires ValidConfig(c) && Monoid(c) && Legal(c, Start(c), run)
    requires Shaped(c, Final(c, Start(c), run)) && HasPrefix(Final(c, Start(c), run).tiles[|c.bounds| - 2])
    ensures var s := Final(c, Start(c), run); var last := |c.bounds| - 2;
      c.combine(s.prefix[last], s.aggregate[last]) == Span(c, 0, c.bounds[last + 1])
  {
    StartOk(c);
    RunKeeps(c, Start(c), run);
    TotalAt(c, Final(c, Start(c), run));
  }

  // What a walk waits for: the aggregates of the tiles it passes, and no prefix.

  function Steps(t: nat, n: nat): seq<Action> {
    if n == 0 then [] else [Step(t)] + Steps(t, n - 1)
  }

  /** The looks a walk from `cursor` takes: down to the nearest tile with a prefix, or past the first tile. */
  function Looks<T>(tiles: seq<Tile<T>>, cursor: nat): nat
    requires cursor <= |tiles|
  {
    if cursor == 0 || HasPrefix(tiles[cursor - 1]) then 1 else 1 + Looks(tiles, cursor - 1)
  }

  lemma {:induction false} SameLooks<T>(tiles: seq<Tile<T>>, t: nat, v: Tile<T>, cursor: nat)
    requires cursor <= t < |tiles|
    ensures Looks(tiles[t := v], cursor) == Looks(tiles, cursor)
  {
    if cursor > 0 {
      SameLooks(tiles, t, v, cursor - 1);
    }
  }

  /**
   * Once the tiles a walk passes have published their aggregates it ends without a step of anybody else, at the nearest
   * prefix, whether or not any prefix is there.
   */
  lemma {:induction false} WalkAlone<T(!new)>(c: Config<T>, s: State<T>, t: nat)
    requires Monoid(c) && Invariant(c, s) && t < |s.tiles| && s.tiles[t].Walking? && s.tiles[t].cursor <= t
    requires forall j :: 0 <= j < s.tiles[t].cursor ==> HasAggregate(s.tiles[j])
    ensures var run := Steps(t, Looks(s.tiles, s.tiles[t].cursor));
      && Legal(c, s, run)
      && Final(c, s, run) == s.(tiles := s.tiles[t := Publishing(Span(c, 0, c.bounds[t]))])
    decreases s.tiles[t].cursor
  {
    assert TileOk(c, s, t);
    var cursor := s.tiles[t].cursor;
    var s' := Apply(c, s, Step(t));
    ActionKeeps(c, s, Step(t));
    assert TileOk(c, s', t);
    var rest := Looks(s.tiles, cursor) - 1;
    if s'.tiles[t].Walking? {
      WalkAlone(c, s', t);
      SameLooks(s.tiles, t, s'.tiles[t], cursor - 1);
    }
    assert Steps(t, rest + 1)[1..] == Steps(t, rest);
  }

  // Progress.

  predicate Done<T>(s: State<T>) {
    forall t :: 0 <= t < |s.tiles| ==> s.tiles[t].Finished?
  }

  /** The lowest unfinished tile. */
  function Lowest<T>(tiles: seq<Tile<T>>, from: nat): (t: nat)
    requires from <= |tiles| && forall k :: 0 <= k < from ==> tiles[k].Finished?
    ensures t <= |tiles| && (forall k :: 0 <= k < t ==> tiles[k].Finished?) && (t < |tiles| ==> !tiles[t].Finished?)
    decreases |tiles| - from
  {
    if from == |tiles| || !tiles[from].Finished? then from else Lowest(tiles, from + 1)
  }

  lemma {:induction false} NobodyBusy<T>(tiles: seq<Tile<T>>, lo: nat, hi: nat)
    requires lo <= hi <= |tiles| && forall t :: lo <= t < hi ==> !Busy(tiles[t])
    ensures BusyCount(tiles, lo, hi) == 0
    decreases hi
  {
    if hi > lo {
      NobodyBusy(tiles, lo, hi - 1);
    }
  }

  /**
   * The scan cannot block, although a walk may reach tiles of an earlier cluster that nobody has claimed: the lowest
   * unfinished tile can always move, or be claimed by a free worker of its cluster.
   */
  lemma NeverBlocked<T>(c: Config<T>, s: State<T>)
    requires Invariant(c, s) && !Done(s)
    ensures exists a :: Enabled(c, s, a)
  {
    var t := Lowest(s.tiles, 0);
    assert TileOk(c, s, t);
    if s.tiles[t].Unclaimed? {
      var k := BlockOf(c.clusters, 0, |s.tiles|, t);
      assert ClaimsOk(c, s, k);
      NobodyBusy(s.tiles, c.clusters[k], c.clusters[k + 1]);
      assert Enabled(c, s, Claim(k));
    } else {
      assert Enabled(c, s, Step(t));
    }
  }

  // Dividing the tiles among the clusters.

  function SumTo(slots: seq<nat>, k: nat): nat
    requires k <= |slots|
  {
    if k == 0 then 0 else SumTo(slots, k - 1) + slots[k - 1]
  }

  /** One more cluster: its rounded-up share keeps what is handed out at or above its part of the tiles. */
  lemma ShareCovers(numTiles: nat, participants: nat, sum: nat, slots: nat, cursor: nat)
    requires participants > 0 && cursor * participants >= numTiles * sum
    ensures (cursor + (numTiles * slots + participants - 1) / participants) * participants >= numTiles * (sum + slots)
  {
    var q := Quotient(numTiles * slots + participants - 1, participants);
    assert (cursor + q) * participants == cursor * participants + q * participants;
    assert numTiles * (sum + slots) == numTiles * sum + numTiles * slots;
  }

  lemma AllCovered(numTiles: nat, participants: nat, cursor: nat)
    requires participants > 0 && cursor * participants >= numTiles * participants
    ensures cursor >= numTiles
  {
    ProductOrder(cursor, numTiles, participants);
  }

  lemma NoShare(participants: nat)
    requires participants > 0
    ensures (participants - 1) / participants == 0
  {
    DivBelow(participants - 1, 1, participants);
  }

  /** Where a cluster's tiles end: its rounded-up share, cut off at the last tile; the last cluster takes what is left. */
  function NextCursor(numTiles: nat, participants: nat, slots: nat, cursor: nat, isLast: bool): nat
    requires participants > 0
  {
    var share := (numTiles * slots + participants - 1) / participants;
    if isLast || cursor + share > numTiles then numTiles else cursor + share
  }

  lemma NextCursorOk(numTiles: nat, participants: nat, sum: nat, slots: nat, cursor: nat, isLast: bool)
    requires participants > 0 && cursor <= numTiles && (isLast ==> sum + slots == participants)
    requires cursor == numTiles || cursor * participants >= numTiles * sum
    ensures var next := NextCursor(numTiles, participants, slots, cursor, isLast);
      && cursor <= next <= numTiles && (slots == 0 ==> next == cursor)
      && (next == numTiles || next * participants >= numTiles * (sum + slots))
  {
    if cursor != numTiles {
      ShareCovers(numTiles, participants, sum, slots, cursor);
    }
    if slots == 0 {
      NoShare(participants);
      if isLast && cursor != numTiles {
        AllCovered(numTiles, participants, cursor);
      }
    }
  }

  /**
   * A cluster's tiles, from `first` on: the least whole number of tiles that is at least its part, numTiles * slots out of
   * participants, unless the tiles run out before.
   */
  predicate Divided(numTiles: nat, participants: nat, slots: nat, first: nat, last: nat) {
    && first <= last <= numTiles
    && (last == numTiles || (last - first) * participants >= numTiles * slots)
    && (last > first ==> (last - first - 1) * participants < numTiles * slots)
  }

  lemma NextCursorDivides(numTiles: nat, participants: nat, slots: nat, cursor: nat)
    requires participants > 0 && cursor <= numTiles
    ensures Divided(numTiles, participants, slots, cursor, NextCursor(numTiles, participants, slots, cursor, false))
  {
    var a := numTiles * slots;
    var share := Quotient(a + participants - 1, participants);
    var next := NextCursor(numTiles, participants, slots, cursor, false);
    LeastCover(a, participants, share, next - cursor);
  }

  lemma LeastCover(a: nat, participants: nat, share: nat, taken: nat)
    requires participants > 0 && share * participants <= a + participants - 1 < share * participants + participants && taken <= share
    ensures share * participants >= a
    ensures taken > 0 ==> (taken - 1) * participants < a
  {
    if taken > 0 {
      assert (taken - 1) * participants <= (share - 1) * participants;
      assert (share - 1) * participants == share * participants - participants;
    }
  }

  /** The clusters' shares tile the tiles, and a cluster without workers gets none, not even as the last one. */
  method ClusterTiles(numTiles: nat, participants: nat, slots: seq<nat>) returns (clusters: seq<nat>)
    requires participants == SumTo(slots, |slots|) > 0
    ensures |clusters| == |slots| + 1 && IsTiling(clusters, 0, numTiles)
    ensures forall k :: 0 <= k < |slots| && slots[k] == 0 ==> clusters[k] == clusters[k + 1]
    ensures forall k :: 0 <= k < |slots| - 1 ==> Divided(numTiles, participants, slots[k], clusters[k], clusters[k + 1])
    ensures slots != [] ==> clusters[|slots|] == numTiles
  {
    var cursor := 0;
    clusters := [0];
    for k := 0 to |slots|
      invariant |clusters| == k + 1 && clusters[0] == 0 && clusters[k] == cursor <= numTiles
      invariant forall i, j :: 0 <= i <= j <= k ==> clusters[i] <= clusters[j]
      invariant forall j :: 0 <= j < k && slots[j] == 0 ==> clusters[j] == clusters[j + 1]
      invariant forall j :: 0 <= j < k && j < |slots| - 1 ==> Divided(numTiles, participants, slots[j], clusters[j], clusters[j + 1])
      invariant cursor == numTiles || cursor * participants >= numTiles * SumTo(slots, k)
      invariant k == |slots| ==> cursor == numTiles
    {
      NextCursorOk(numTiles, participants, SumTo(slots, k), slots[k], cursor, k + 1 == |slots|);
      NextCursorDivides(numTiles, participants, slots[k], cursor);
      cursor := NextCursor(numTiles, participants, slots[k], cursor, k + 1 == |slots|);
      clusters := clusters + [cursor];
    }
  }

  /** Steps a tile still has to take, at most. */
  function Remaining<T>(t: Tile<T>, index: nat): nat {
    match t
    case Unclaimed => index + 5
    case Scanning => index + 4
    case Walking(cursor, _) => cursor + 3
    case Publishing(_) => 2
    case Adjusting => 1
    case Finished => 0
  }

  function TotalRemaining<T>(tiles: seq<Tile<T>>, k: nat): nat
    requires k <= |tiles|
  {
    if k == 0 then 0 else TotalRemaining(tiles, k - 1) + Remaining(tiles[k - 1], k - 1)
  }

  lemma {:induction false} RemainingUpdate<T>(tiles: seq<Tile<T>>, t: nat, v: Tile<T>, k: nat)
    requires t < |tiles| && k <= |tiles|
    ensures TotalRemaining(tiles[t := v], k) == TotalRemaining(tiles, k) + if t < k then Remaining(v, t) - Remaining(tiles[t], t) else 0
  {
    if k > 0 {
      RemainingUpdate(tiles, t, v, k - 1);
    }
  }

  /** Every step that is not a spin brings the end closer, so no run is longer than the initial bound. */
  lemma StepsRunOut<T>(c: Config<T>, s: State<T>, a: Action)
    requires Invariant(c, s) && Enabled(c, s, a)
    ensures TotalRemaining(Apply(c, s, a).tiles, |s.tiles|) < TotalRemaining(s.tiles, |s.tiles|)
  {
    var r := Apply(c, s, a);
    if a.Claim? {
      assert ClaimsOk(c, s, a.cluster);
    }
    var t := if a.Claim? then s.next[a.cluster] else a.tile;
    assert TileOk(c, s, t);
    RemainingUpdate(s.tiles, t, r.tiles[t], |s.tiles|);
  }

  lemma {:induction false} RunsEnd<T(!new)>(c: Config<T>, s: State<T>, run: seq<Action>)
    requires Monoid(c) && Invariant(c, s) && Legal(c, s, run)
    ensures |run| <= TotalRemaining(s.tiles, |s.tiles|)
    decreases |run|
  {
    if run != [] {
      StepsRunOut(c, s, run[0]);
      ActionKeeps(c, s, run[0]);
      RunsEnd(c, Apply(c, s, run[0]), run[1..]);
    }
  }
}
