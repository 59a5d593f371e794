/** The double-buffered five-point sweep of the heat benchmark, blocked over rows. */
module Jacobi {
  import opened Tiling

  /** The update of one cell from its upper, lower, left and right neighbour. */
  type Stencil<!C> = (C, C, C, C) -> C

  function Cell(n: nat, i: nat, j: nat): (p: nat)
    requires i < n && j < n
    ensures p == i * n + j && p < n * n
  {
    assert (i + 1) * n <= n * n;
    i * n + j
  }

  predicate Interior(n: nat, i: nat, j: nat) {
    1 <= i && i + 1 < n && 1 <= j && j + 1 < n
  }

  lemma RowsApart(n: nat, i: nat, j: nat, k: nat, l: nat)
    requires i < k && j < n && l < n
    ensures i * n + j < k * n + l
  {
    assert (i + 1) * n <= k * n;
  }

  lemma CellsDistinct(n: nat, i: nat, j: nat)
    requires i < n && j < n
    ensures forall k, l :: 0 <= k < n && 0 <= l < n && (k, l) != (i, j) ==> Cell(n, k, l) != Cell(n, i, j)
  {
    forall k, l | 0 <= k < n && 0 <= l < n && (k, l) != (i, j) ensures Cell(n, k, l) != Cell(n, i, j) {
      if k < i {
        RowsApart(n, k, l, i, j);
      } else if i < k {
        RowsApart(n, i, j, k, l);
      }
    }
  }

  /** The grid after `t` steps, cell by cell: what the update means, with no buffer, block or order in it. */
  function Grid<C>(f: Stencil<C>, n: nat, g: seq<C>, t: nat, i: nat, j: nat): C
    requires |g| == n * n && i < n && j < n
    decreases t
  {
    if t == 0 then g[Cell(n, i, j)]
    else if Interior(n, i, j) then
      f(Grid(f, n, g, t - 1, i - 1, j), Grid(f, n, g, t - 1, i + 1, j), Grid(f, n, g, t - 1, i, j - 1), Grid(f, n, g, t - 1, i, j + 1))
    else Grid(f, n, g, t - 1, i, j)
  }

  lemma {:induction false} BoundaryStays<C>(f: Stencil<C>, n: nat, g: seq<C>, t: nat, i: nat, j: nat)
    requires |g| == n * n && i < n && j < n && !Interior(n, i, j)
    ensures Grid(f, n, g, t, i, j) == g[Cell(n, i, j)]
  {
    if t > 0 {
      BoundaryStays(f, n, g, t - 1, i, j);
    }
  }

  /** The buffer holds the grid after `t` steps. */
  ghost predicate Holds<C>(f: Stencil<C>, n: nat, g: seq<C>, t: nat, u: seq<C>) {
    && |u| == |g| == n * n
    && forall i, j :: 0 <= i < n && 0 <= j < n ==> u[Cell(n, i, j)] == Grid(f, n, g, t, i, j)
  }

  /** The buffer still has the initial boundary. */
  ghost predicate KeepsBoundary<C>(n: nat, g: seq<C>, u: seq<C>) {
    && |u| == |g| == n * n
    && forall i, j :: 0 <= i < n && 0 <= j < n && !Interior(n, i, j) ==> u[Cell(n, i, j)] == g[Cell(n, i, j)]
  }

  function Updated<C>(f: Stencil<C>, n: nat, u: seq<C>, i: nat, j: nat): C
    requires |u| == n * n && Interior(n, i, j)
  {
    f(u[Cell(n, i - 1, j)], u[Cell(n, i + 1, j)], u[Cell(n, i, j - 1)], u[Cell(n, i, j + 1)])
  }

  /** `now` differs from `was` exactly in the interior cells of rows lo to hi - 1, which are updated from `u`. */
  ghost predicate RowsUpdated<C>(f: Stencil<C>, n: nat, u: seq<C>, was: seq<C>, now: seq<C>, lo: nat, hi: nat) {
    && |u| == |was| == |now| == n * n
    && forall i, j :: 0 <= i < n && 0 <= j < n ==>
         now[Cell(n, i, j)] == if lo <= i < hi && Interior(n, i, j) then Updated(f, n, u, i, j) else was[Cell(n, i, j)]
  }

  // What the grid means, one plain step at a time.

  /** `v` is `u` after one step: every cell off the four edges is the update of its neighbours, the edges stay. */
  ghost predicate OneStep<C>(f: Stencil<C>, n: nat, u: seq<C>, v: seq<C>) {
    && |u| == |v| == n * n
    && (forall i, j :: 0 < i < n - 1 && 0 < j < n - 1 ==>
          v[Cell(n, i, j)] == f(u[Cell(n, i - 1, j)], u[Cell(n, i + 1, j)], u[Cell(n, i, j - 1)], u[Cell(n, i, j + 1)]))
    && (forall i, j :: 0 <= i < n && 0 <= j < n && (i == 0 || i == n - 1 || j == 0 || j == n - 1) ==>
          v[Cell(n, i, j)] == u[Cell(n, i, j)])
  }

  /** Off the edges the next grid is the update of the four neighbours; on the edges it is the initial grid. */
  lemma GridSteps<C>(f: Stencil<C>, n: nat, g: seq<C>, t: nat, i: nat, j: nat)
    requires |g| == n * n && i < n && j < n
    ensures Grid(f, n, g, 0, i, j) == g[Cell(n, i, j)]
    ensures 0 < i < n - 1 && 0 < j < n - 1 ==>
      Grid(f, n, g, t + 1, i, j) ==
        f(Grid(f, n, g, t, i - 1, j), Grid(f, n, g, t, i + 1, j), Grid(f, n, g, t, i, j - 1), Grid(f, n, g, t, i, j + 1))
    ensures i == 0 || i == n - 1 || j == 0 || j == n - 1 ==> Grid(f, n, g, t, i, j) == g[Cell(n, i, j)]
  {
    if i == 0 || i == n - 1 || j == 0 || j == n - 1 {
      BoundaryStays(f, n, g, t, i, j);
    }
  }

  /** Buffers that follow each other by plain steps hold the grid, step by step. */
  lemma {:induction false} StepsHold<C>(f: Stencil<C>, n: nat, us: seq<seq<C>>)
    requires us != [] && |us[0]| == n * n && forall t :: 0 <= t < |us| - 1 ==> OneStep(f, n, us[t], us[t + 1])
    ensures Holds(f, n, us[0], |us| - 1, us[|us| - 1])
    decreases |us|
  {
    var t, g := |us| - 1, us[0];
    if t == 0 {
      forall i, j | 0 <= i < n && 0 <= j < n ensures us[0][Cell(n, i, j)] == Grid(f, n, g, 0, i, j) {
      }
    } else {
      var before := us[..t];
      StepsHold(f, n, before);
      assert OneStep(f, n, us[t - 1], us[t]);
      OneStepHolds(f, n, g, t - 1, us[t - 1], us[t]);
    }
  }

  lemma OneStepHolds<C>(f: Stencil<C>, n: nat, g: seq<C>, t: nat, u: seq<C>, v: seq<C>)
    requires Holds(f, n, g, t, u) && OneStep(f, n, u, v)
    ensures Holds(f, n, g, t + 1, v)
  {
    forall i: nat, j: nat | i < n && j < n ensures v[Cell(n, i, j)] == Grid(f, n, g, t + 1, i, j) {
      GridSteps(f, n, g, t, i, j);
      if i == 0 || i == n - 1 || j == 0 || j == n - 1 {
        GridSteps(f, n, g, t + 1, i, j);
      }
    }
  }

  lemma HoldsSteps<C>(f: Stencil<C>, n: nat, g: seq<C>, t: nat, u: seq<C>, v: seq<C>)
    requires Holds(f, n, g, t, u) && Holds(f, n, g, t + 1, v)
    ensures OneStep(f, n, u, v)
  {
    forall i: nat, j: nat | i < n && j < n && (i == 0 || i == n - 1 || j == 0 || j == n - 1) ensures v[Cell(n, i, j)] == u[Cell(n, i, j)] {
      GridSteps(f, n, g, t, i, j);
      GridSteps(f, n, g, t + 1, i, j);
    }
    forall i: nat, j: nat | 0 < i < n - 1 && 0 < j < n - 1
      ensures v[Cell(n, i, j)] == f(u[Cell(n, i - 1, j)], u[Cell(n, i + 1, j)], u[Cell(n, i, j - 1)], u[Cell(n, i, j + 1)])
    {
      GridSteps(f, n, g, t, i, j);
    }
  }

  /** The buffer that holds the grid after some steps is the one that many plain steps lead to, and no other. */
  lemma HoldsIffSteps<C>(f: Stencil<C>, n: nat, us: seq<seq<C>>, u: seq<C>)
    requires n > 0 && us != [] && |us[0]| == n * n && forall t :: 0 <= t < |us| - 1 ==> OneStep(f, n, us[t], us[t + 1])
    ensures Holds(f, n, us[0], |us| - 1, u) <==> u == us[|us| - 1]
  {
    StepsHold(f, n, us);
    if Holds(f, n, us[0], |us| - 1, u) {
      SameGrid(f, n, us[0], |us| - 1, u, us[|us| - 1]);
    }
  }

  /** A finished run of one step is one plain step of the initial grid. */
  lemma FirstStep<C>(f: Stencil<C>, n: nat, g: seq<C>, u: seq<C>)
    requires Holds(f, n, g, 1, u)
    ensures OneStep(f, n, g, u)
  {
    HoldsSteps(f, n, g, 0, g, u);
  }

  method JacobiRow<C>(f: Stencil<C>, i: nat, n: nat, uIn: array<C>, uOut: array<C>)
    requires uIn != uOut && uIn.Length == uOut.Length == n * n && 1 <= i && i + 1 < n
    modifies uOut
    ensures RowsUpdated(f, n, uIn[..], old(uOut[..]), uOut[..], i, i + 1)
  {
    ghost var u, was := uIn[..], uOut[..];
    for j := 1 to n - 1
      invariant u == uIn[..]
      invariant forall k, l :: 0 <= k < n && 0 <= l < n ==>
        uOut[..][Cell(n, k, l)] == if k == i && 1 <= l < j then Updated(f, n, u, k, l) else was[Cell(n, k, l)]
    {
      CellsDistinct(n, i, j);
      var v := f(uIn[Cell(n, i - 1, j)], uIn[Cell(n, i + 1, j)], uIn[Cell(n, i, j - 1)], uIn[Cell(n, i, j + 1)]);
      ghost var before := uOut[..];
      uOut[Cell(n, i, j)] := v;
      assert uOut[..] == before[Cell(n, i, j) := v];
    }
  }

  method JacobiRowBlock<C>(f: Stencil<C>, rowFirst: nat, rowLast: nat, n: nat, uIn: array<C>, uOut: array<C>)
    requires uIn != uOut && uIn.Length == uOut.Length == n * n && 1 <= rowFirst <= rowLast < n
    modifies uOut
    ensures RowsUpdated(f, n, uIn[..], old(uOut[..]), uOut[..], rowFirst, rowLast)
  {
    ghost var u, was := uIn[..], uOut[..];
    for i := rowFirst to rowLast
      invariant u == uIn[..]
      invariant RowsUpdated(f, n, u, was, uOut[..], rowFirst, i)
    {
      JacobiRow(f, i, n, uIn, uOut);
    }
  }

  /** Row `i` lies in a block that has not run yet. */
  predicate Waiting(bounds: seq<nat>, pending: set<nat>, i: nat) {
    exists b :: b in pending && b + 1 < |bounds| && bounds[b] <= i < bounds[b + 1]
  }

  ghost predicate BlocksUpdated<C>(f: Stencil<C>, n: nat, u: seq<C>, was: seq<C>, now: seq<C>, bounds: seq<nat>, pending: set<nat>) {
    && |u| == |was| == |now| == n * n
    && forall i, j :: 0 <= i < n && 0 <= j < n ==>
         now[Cell(n, i, j)] == if Interior(n, i, j) && !Waiting(bounds, pending, i) then Updated(f, n, u, i, j) else was[Cell(n, i, j)]
  }

  lemma WaitingAfter(bounds: seq<nat>, pending: set<nat>, first: nat, last: nat, b: nat, i: nat)
    requires IsTiling(bounds, first, last) && b in pending && b + 1 < |bounds|
    ensures Waiting(bounds, pending - {b}, i) <==> Waiting(bounds, pending, i) && !(bounds[b] <= i < bounds[b + 1])
  {
    if Waiting(bounds, pending - {b}, i) {
      var c :| c in pending - {b} && c + 1 < |bounds| && bounds[c] <= i < bounds[c + 1];
      if bounds[b] <= i < bounds[b + 1] {
        BlocksDisjoint(bounds, first, last, b, c, i);
      }
    } else if Waiting(bounds, pending, i) {
      var c :| c in pending && c + 1 < |bounds| && bounds[c] <= i < bounds[c + 1];
      assert c == b;
    }
  }

  /** One more block done, whichever it is. */
  lemma BlockStep<C>(f: Stencil<C>, n: nat, u: seq<C>, was: seq<C>, mid: seq<C>, now: seq<C>, bounds: seq<nat>, pending: set<nat>, b: nat)
    requires n >= 1 && IsTiling(bounds, 1, n - 1) && b in pending && b + 1 < |bounds|
    requires BlocksUpdated(f, n, u, was, mid, bounds, pending)
    requires RowsUpdated(f, n, u, mid, now, bounds[b], bounds[b + 1])
    ensures BlocksUpdated(f, n, u, was, now, bounds, pending - {b})
  {
    forall i, j | 0 <= i < n && 0 <= j < n
      ensures now[Cell(n, i, j)] == if Interior(n, i, j) && !Waiting(bounds, pending - {b}, i) then Updated(f, n, u, i, j) else was[Cell(n, i, j)]
    {
      WaitingAfter(bounds, pending, 1, n - 1, b, i);
    }
  }

  lemma EveryRowWaits<C>(f: Stencil<C>, n: nat, u: seq<C>, was: seq<C>, bounds: seq<nat>)
    requires n >= 2 && |u| == |was| == n * n && IsTiling(bounds, 1, n - 1)
    ensures BlocksUpdated(f, n, u, was, was, bounds, Indices(|bounds| - 1))
  {
    forall i, j | 0 <= i < n && 0 <= j < n && Interior(n, i, j) ensures Waiting(bounds, Indices(|bounds| - 1), i) {
      var b := BlockOf(bounds, 1, n - 1, i);
      assert b in Indices(|bounds| - 1);
    }
  }

  /** The block body: clips the block to the interior rows before it sweeps them. */
  method BlockBody<C>(f: Stencil<C>, lo: nat, hi: nat, n: nat, uIn: array<C>, uOut: array<C>)
    requires uIn != uOut && uIn.Length == uOut.Length == n * n && n >= 2
    modifies uOut
    ensures RowsUpdated(f, n, uIn[..], old(uOut[..]), uOut[..], lo, hi)
  {
    var rLo := if lo < 1 then 1 else lo;
    var rHi := if hi >= n - 1 then n - 1 else hi;
    if rLo < rHi {
      JacobiRowBlock(f, rLo, rHi, n, uIn, uOut);
    }
  }

  /** One step: every block of the tiling once, in any order. */
  method Sweep<C>(f: Stencil<C>, n: nat, uIn: array<C>, uOut: array<C>, bounds: seq<nat>)
    requires uIn != uOut && uIn.Length == uOut.Length == n * n && n >= 2 && IsTiling(bounds, 1, n - 1)
    modifies uOut
    ensures BlocksUpdated(f, n, uIn[..], old(uOut[..]), uOut[..], bounds, {})
  {
    ghost var u, was := uIn[..], uOut[..];
    EveryRowWaits(f, n, u, was, bounds);
    var pending := Indices(|bounds| - 1);
    while pending != {}
      invariant u == uIn[..] && pending <= Indices(|bounds| - 1)
      invariant BlocksUpdated(f, n, u, was, uOut[..], bounds, pending)
      decreases pending
    {
      var b :| b in pending;
      ghost var mid := uOut[..];
      BlockBody(f, bounds[b], bounds[b + 1], n, uIn, uOut);
      BlockStep(f, n, u, was, mid, uOut[..], bounds, pending, b);
      pending := pending - {b};
    }
  }

  /** A finished sweep is one step of the grid, and only the interior was written. */
  lemma SweepIsStep<C>(f: Stencil<C>, n: nat, g: seq<C>, t: nat, u: seq<C>, was: seq<C>, now: seq<C>, bounds: seq<nat>)
    requires Holds(f, n, g, t, u) && KeepsBoundary(n, g, was) && BlocksUpdated(f, n, u, was, now, bounds, {})
    ensures Holds(f, n, g, t + 1, now) && KeepsBoundary(n, g, now)
  {
    forall i, j | 0 <= i < n && 0 <= j < n ensures now[Cell(n, i, j)] == Grid(f, n, g, t + 1, i, j) {
      if !Interior(n, i, j) {
        BoundaryStays(f, n, g, t + 1, i, j);
      }
    }
  }

  /** A grid after any number of steps has the initial boundary. */
  lemma HoldsKeeps<C>(f: Stencil<C>, n: nat, g: seq<C>, t: nat, u: seq<C>)
    requires Holds(f, n, g, t, u)
    ensures KeepsBoundary(n, g, u)
  {
    forall i, j | 0 <= i < n && 0 <= j < n && !Interior(n, i, j) ensures u[Cell(n, i, j)] == g[Cell(n, i, j)] {
      BoundaryStays(f, n, g, t, i, j);
    }
  }

  /**
   * The blocked run: the buffers swap after every step. It ends with the grid the update defines, for every tiling
   * and block order of every step, and both buffers keep the initial boundary.
   */
  method HeatRun<C>(f: Stencil<C>, n: nat, u0: array<C>, u1: array<C>, tilings: seq<seq<nat>>) returns (u: array<C>, uNext: array<C>)
    requires u0 != u1 && u0.Length == u1.Length == n * n && n >= 2
    requires forall t :: 0 <= t < |tilings| ==> IsTiling(tilings[t], 1, n - 1)
    modifies u0, u1
    ensures {u, uNext} == {u0, u1} && u != uNext
    ensures Holds(f, n, old(u0[..]), |tilings|, u[..])
    ensures |tilings| == 1 ==> OneStep(f, n, old(u0[..]), u[..])
    ensures KeepsBoundary(n, old(u0[..]), u[..]) && KeepsBoundary(n, old(u0[..]), uNext[..])
  {
    ghost var g := u0[..];
    forall p | 0 <= p < u1.Length {
      u1[p] := u0[p];
    }
    u, uNext := u0, u1;
    assert u1[..] == g;
    for t := 0 to |tilings|
      invariant {u, uNext} == {u0, u1} && u != uNext
      invariant Holds(f, n, g, t, u[..]) && KeepsBoundary(n, g, uNext[..])
    {
      ghost var was := uNext[..];
      Sweep(f, n, u, uNext, tilings[t]);
      SweepIsStep(f, n, g, t, u[..], was, uNext[..], tilings[t]);
      HoldsKeeps(f, n, g, t, u[..]);
      u, uNext := uNext, u;
    }
    HoldsKeeps(f, n, g, |tilings|, u[..]);
    if |tilings| == 1 {
      FirstStep(f, n, g, u[..]);
    }
  }

  /** The sequential reference sweeps the rows in order and ends with the same grid. */
  method SeqJacobi<C>(f: Stencil<C>, n: nat, u0: array<C>, u1: array<C>, timesteps: nat) returns (u: array<C>)
    requires u0 != u1 && u0.Length == u1.Length == n * n && n >= 2
    modifies u0, u1
    ensures u in {u0, u1} && Holds(f, n, old(u0[..]), timesteps, u[..])
    ensures timesteps == 1 ==> OneStep(f, n, old(u0[..]), u[..])
  {
    ghost var g := u0[..];
    forall p | 0 <= p < u1.Length {
      u1[p] := u0[p];
    }
    u := u0;
    var uNext := u1;
    assert u1[..] == g;
    for t := 0 to timesteps
      invariant {u, uNext} == {u0, u1} && u != uNext
      invariant Holds(f, n, g, t, u[..]) && KeepsBoundary(n, g, uNext[..])
    {
      ghost var was := uNext[..];
      JacobiRowBlock(f, 1, n - 1, n, u, uNext);
      assert forall i: nat :: !Waiting([], {}, i);
      SweepIsStep(f, n, g, t, u[..], was, uNext[..], []);
      HoldsKeeps(f, n, g, t, u[..]);
      u, uNext := uNext, u;
    }
    if timesteps == 1 {
      FirstStep(f, n, g, u[..]);
    }
  }

  /** Two buffers that hold the same step are equal, so the two runs compute the same checksum. */
  lemma {:induction false} SameGrid<C>(f: Stencil<C>, n: nat, g: seq<C>, t: nat, u: seq<C>, v: seq<C>)
    requires n > 0 && Holds(f, n, g, t, u) && Holds(f, n, g, t, v)
    ensures u == v
  {
    forall p | 0 <= p < n * n ensures u[p] == v[p] {
      RowColumn(n, p);
      assert u[Cell(n, p / n, p % n)] == v[Cell(n, p / n, p % n)];
    }
  }

  lemma RowColumn(n: nat, p: nat)
    requires n > 0 && p < n * n
    ensures p / n < n && p % n < n && Cell(n, p / n, p % n) == p
  {
    DivBelow(p, n, n);
  }

  /** The update the benchmark uses, over exact reals. */
  function Average(up: real, down: real, left: real, right: real): real {
    0.25 * (up + down + left + right)
  }

  /** A temperature that is the mean of its four neighbours at every point: linear terms and a saddle. */
  function Harmonic(a: real, b: real, c: real, d: real, x: real, y: real): real {
    a + b * x + c * y + d * (x * x - y * y)
  }

  lemma HarmonicMean(a: real, b: real, c: real, d: real, x: real, y: real)
    ensures Average(Harmonic(a, b, c, d, x - 1.0, y), Harmonic(a, b, c, d, x + 1.0, y),
                    Harmonic(a, b, c, d, x, y - 1.0), Harmonic(a, b, c, d, x, y + 1.0)) == Harmonic(a, b, c, d, x, y)
  {
    assert (x - 1.0) * (x - 1.0) == x * x - 2.0 * x + 1.0 && (x + 1.0) * (x + 1.0) == x * x + 2.0 * x + 1.0;
    assert (y - 1.0) * (y - 1.0) == y * y - 2.0 * y + 1.0 && (y + 1.0) * (y + 1.0) == y * y + 2.0 * y + 1.0;
    Spread(d, x * x - y * y, 1.0 - 2.0 * x);
    Spread(d, x * x - y * y, 1.0 + 2.0 * x);
    Spread(d, x * x - y * y, 2.0 * y - 1.0);
    Spread(d, x * x - y * y, -2.0 * y - 1.0);
  }

  lemma Spread(d: real, p: real, q: real)
    ensures d * (p + q) == d * p + d * q
  {
  }

  /** A harmonic grid does not change: each neighbour counts a quarter. */
  lemma {:induction false} SteadyState(n: nat, g: seq<real>, t: nat, i: nat, j: nat, a: real, b: real, c: real, d: real)
    requires |g| == n * n && i < n && j < n
    requires forall k, l :: 0 <= k < n && 0 <= l < n ==> g[Cell(n, k, l)] == Harmonic(a, b, c, d, k as real, l as real)
    ensures Grid(Average, n, g, t, i, j) == Harmonic(a, b, c, d, i as real, j as real)
  {
    if t > 0 {
      if Interior(n, i, j) {
        SteadyState(n, g, t - 1, i - 1, j, a, b, c, d);
        SteadyState(n, g, t - 1, i + 1, j, a, b, c, d);
        SteadyState(n, g, t - 1, i, j - 1, a, b, c, d);
        SteadyState(n, g, t - 1, i, j + 1, a, b, c, d);
        HarmonicMean(a, b, c, d, i as real, j as real);
      } else {
        SteadyState(n, g, t - 1, i, j, a, b, c, d);
      }
    }
  }

  /** Heat neither appears nor vanishes beyond the initial extremes. */
  lemma {:induction false} MaximumPrinciple(n: nat, g: seq<real>, t: nat, i: nat, j: nat, lo: real, hi: real)
    requires |g| == n * n && i < n && j < n && forall p :: 0 <= p < n * n ==> lo <= g[p] <= hi
    ensures lo <= Grid(Average, n, g, t, i, j) <= hi
  {
    if t > 0 {
      if Interior(n, i, j) {
        MaximumPrinciple(n, g, t - 1, i - 1, j, lo, hi);
        MaximumPrinciple(n, g, t - 1, i + 1, j, lo, hi);
        MaximumPrinciple(n, g, t - 1, i, j - 1, lo, hi);
        MaximumPrinciple(n, g, t - 1, i, j + 1, lo, hi);
      } else {
        MaximumPrinciple(n, g, t - 1, i, j, lo, hi);
      }
    }
  }
}
