/** The concurrent branch-and-bound search, as a system of interleaved atomic steps.
    Loads of the running best are relaxed: they may return any value it ever held. */
module KnapsackSearch {
  import opened KnapsackItems
  import opened KnapsackBound

  /** A node of the decision tree: items from `idx` on are undecided. */
  datatype Node = Node(idx: nat, cap: int, cur: int)

  /** Where one activation of the search stands between two atomic steps. */
  datatype Point =
    | Enter(node: Node)                 // about to poll the stop flag
    | Count(node: Node)                 // saw it set; about to bump the firing counter
    | Inspect(node: Node)               // about to load the running best
    | Expand(node: Node)                // survived pruning; about to start its children
    | Raise(value: int, observed: int)  // at a leaf, in the compare-and-swap loop
    | Landed(value: int, observed: int) // left the loop; may signal cancellation

  /** The running activation of a task comes first, then those it has yet to start inline. */
  type Task = seq<Point>

  datatype Config = Config(items: seq<Item>, cutoff: nat, cancellation: bool)

  /** `history` is every value the running best ever held, oldest first. */
  datatype State = State(tasks: seq<Task>, history: seq<int>, firings: nat, stopped: bool)

  /** Which task moves, which past value a load returns, and whether a swap fails spuriously. */
  datatype Action = Action(task: nat, stamp: nat, spurious: bool)

  function Best(s: State): int
    requires s.history != []
  {
    s.history[|s.history| - 1]
  }

  predicate Enabled(s: State, a: Action) {
    a.task < |s.tasks| && s.tasks[a.task] != [] && a.stamp < |s.history|
  }

  /** What a step leaves behind: the points replacing the one that moved, and new tasks. */
  datatype Outcome = Outcome(points: Task, spawned: seq<Task>, history: seq<int>, firings: nat, stopped: bool)

  predicate SwapFails(p: Point, s: State, a: Action)
    requires s.history != []
  {
    p.Raise? && p.value > p.observed && (Best(s) != p.observed || a.spurious)
  }

  function Advance(cfg: Config, p: Point, s: State, a: Action): Outcome
    requires a.stamp < |s.history|
  {
    var stay := Outcome([], [], s.history, s.firings, s.stopped);
    var read := s.history[a.stamp];
    match p
    case Enter(n) => stay.(points := [if cfg.cancellation && s.stopped then Count(n) else Inspect(n)])
    case Count(n) => stay.(points := [Inspect(n)], firings := s.firings + 1)
    case Inspect(n) =>
      if n.idx >= |cfg.items| || n.cap == 0 then stay.(points := [Raise(n.cur, read)])
      else if n.cur as real + Greedy(cfg.items[n.idx..], n.cap as real) <= read as real then stay
      else stay.(points := [Expand(n)])
    case Expand(n) => Children(cfg, n, stay)
    case Raise(value, observed) =>
      if value <= observed then stay.(points := [Landed(value, observed)])
      else if SwapFails(p, s, a) then stay.(points := [Raise(value, read)])
      else stay.(points := [Landed(value, observed)], history := s.history + [value])
    case Landed(value, observed) =>
      var wide := cfg.cancellation && value > observed && observed > 0 && value > observed + observed / 100;
      stay.(stopped := s.stopped || wide)
  }

  function TakeChild(cfg: Config, n: Node): Task {
    if n.idx < |cfg.items| && cfg.items[n.idx].weight <= n.cap then
      [Enter(Node(n.idx + 1, n.cap - cfg.items[n.idx].weight, n.cur + cfg.items[n.idx].value))]
    else []
  }

  function SkipChild(n: Node): Task {
    [Enter(Node(n.idx + 1, n.cap, n.cur))]
  }

  /** Small subproblems run take then skip inline; larger ones fork the skip child. */
  function Children(cfg: Config, n: Node, stay: Outcome): Outcome {
    if |cfg.items| - n.idx <= cfg.cutoff then stay.(points := TakeChild(cfg, n) + SkipChild(n))
    else stay.(points := TakeChild(cfg, n), spawned := [SkipChild(n)])
  }

  function Apply(cfg: Config, s: State, a: Action): State
    requires Enabled(s, a)
  {
    var t := s.tasks[a.task];
    var o := Advance(cfg, t[0], s, a);
    State(s.tasks[a.task := o.points + t[1..]] + o.spawned, o.history, o.firings, o.stopped)
  }

  function Start(capacity: int): State {
    State([[Enter(Node(0, capacity, 0))]], [0], 0, false)
  }

  /** `actions`, taken in order from `s`, lead to `s'`. */
  predicate Run(cfg: Config, s: State, actions: seq<Action>, s': State)
    decreases |actions|
  {
    if actions == [] then s == s'
    else Enabled(s, actions[0]) && Run(cfg, Apply(cfg, s, actions[0]), actions[1..], s')
  }

  /** Every activation has returned, so every join has completed. */
  predicate Complete(s: State) {
    forall t :: 0 <= t < |s.tasks| ==> s.tasks[t] == []
  }

  // ---- The invariant.

  /** The best value still reachable from a point. */
  function Potential(cfg: Config, p: Point): int
    requires Placed(cfg, p)
  {
    match p
    case Enter(n) => n.cur + Opt(cfg.items[n.idx..], n.cap)
    case Count(n) => n.cur + Opt(cfg.items[n.idx..], n.cap)
    case Inspect(n) => n.cur + Opt(cfg.items[n.idx..], n.cap)
    case Expand(n) => n.cur + Opt(cfg.items[n.idx..], n.cap)
    case Raise(value, _) => value
    case Landed(value, _) => value
  }

  predicate Placed(cfg: Config, p: Point) {
    p.Raise? || p.Landed? || (p.node.idx <= |cfg.items| && p.node.cap >= 0)
  }

  predicate PointOk(cfg: Config, opt: int, best: int, p: Point) {
    && Placed(cfg, p)
    && (p.Expand? ==> p.node.idx < |cfg.items|)
    && Potential(cfg, p) <= opt
    && (p.Raise? ==> p.observed <= best)
    && (p.Landed? ==> p.value <= best)
  }

  predicate TaskOk(cfg: Config, opt: int, best: int, t: Task) {
    forall k :: 0 <= k < |t| ==> PointOk(cfg, opt, best, t[k])
  }

  predicate HistoryOk(opt: int, history: seq<int>) {
    && history != [] && history[|history| - 1] <= opt
    && (forall i, j :: 0 <= i <= j < |history| ==> history[i] <= history[j])
  }

  /** Some point of the task can still reach `opt`. */
  predicate Reaches(cfg: Config, opt: int, t: Task) {
    exists k :: 0 <= k < |t| && Placed(cfg, t[k]) && Potential(cfg, t[k]) == opt
  }

  predicate SomeReaches(cfg: Config, opt: int, tasks: seq<Task>) {
    exists t :: 0 <= t < |tasks| && Reaches(cfg, opt, tasks[t])
  }

  predicate TasksOk(cfg: Config, opt: int, best: int, tasks: seq<Task>) {
    forall t :: 0 <= t < |tasks| ==> TaskOk(cfg, opt, best, tasks[t])
  }

  /** Nothing exceeds the optimum, and the running best or an unfinished activation attains it. */
  predicate Invariant(cfg: Config, opt: int, s: State) {
    && HistoryOk(opt, s.history)
    && TasksOk(cfg, opt, Best(s), s.tasks)
    && (Best(s) == opt || SomeReaches(cfg, opt, s.tasks))
  }

  predicate GoodConfig(cfg: Config) {
    ValidItems(cfg.items) && DensitySorted(cfg.items)
  }

  lemma StartInvariant(cfg: Config, capacity: int)
    requires GoodConfig(cfg) && capacity >= 0
    ensures Invariant(cfg, Opt(cfg.items, capacity), Start(capacity))
  {
    var s := Start(capacity);
    assert cfg.items[0..] == cfg.items;
    OptNonNegative(cfg.items, capacity);
    assert Potential(cfg, s.tasks[0][0]) == Opt(cfg.items, capacity);
    assert Reaches(cfg, Opt(cfg.items, capacity), s.tasks[0]);
  }

  /** What one step must guarantee about the point that moved, for the invariant to survive. */
  predicate StepOk(cfg: Config, opt: int, s: State, p: Point, o: Outcome) {
    && HistoryOk(opt, o.history)
    && (s.history != [] ==> Best(s) <= o.history[|o.history| - 1])
    && TaskOk(cfg, opt, o.history[|o.history| - 1], o.points)
    && TasksOk(cfg, opt, o.history[|o.history| - 1], o.spawned)
    && (Placed(cfg, p) && Potential(cfg, p) == opt ==>
          o.history[|o.history| - 1] == opt || Reaches(cfg, opt, o.points) || SomeReaches(cfg, opt, o.spawned))
  }

  lemma ExpandStep(cfg: Config, opt: int, s: State, a: Action, n: Node)
    requires GoodConfig(cfg) && HistoryOk(opt, s.history) && a.stamp < |s.history|
    requires PointOk(cfg, opt, Best(s), Expand(n))
    ensures StepOk(cfg, opt, s, Expand(n), Advance(cfg, Expand(n), s, a))
  {
    var o := Advance(cfg, Expand(n), s, a);
    var rest := cfg.items[n.idx..];
    assert rest[0] == cfg.items[n.idx] && rest[1..] == cfg.items[n.idx + 1..];
    var take, skip := TakeChild(cfg, n), SkipChild(n);
    assert Opt(rest, n.cap) == TakeOrSkip(rest[0], rest[1..], n.cap);
    assert Potential(cfg, skip[0]) == n.cur + Opt(rest[1..], n.cap);
    if take != [] {
      assert Potential(cfg, take[0]) == n.cur + rest[0].value + Opt(rest[1..], n.cap - rest[0].weight);
    }
    if Potential(cfg, Expand(n)) == opt {
      if Potential(cfg, skip[0]) == opt {
        assert Reaches(cfg, opt, skip);
        if o.spawned == [] {
          assert o.points[|take|] == skip[0];
        } else {
          assert o.spawned[0] == skip;
        }
      } else {
        assert take != [] && o.points[0] == take[0] && Potential(cfg, take[0]) == opt;
      }
    }
  }

  lemma InspectStep(cfg: Config, opt: int, s: State, a: Action, n: Node)
    requires GoodConfig(cfg) && HistoryOk(opt, s.history) && a.stamp < |s.history|
    requires PointOk(cfg, opt, Best(s), Inspect(n))
    ensures StepOk(cfg, opt, s, Inspect(n), Advance(cfg, Inspect(n), s, a))
  {
    var o := Advance(cfg, Inspect(n), s, a);
    var rest := cfg.items[n.idx..];
    assert ValidItems(rest) && DensitySorted(rest);
    if n.idx == |cfg.items| || n.cap == 0 {
      if n.cap == 0 {
        OptFull(rest);
      }
      assert Potential(cfg, o.points[0]) == Potential(cfg, Inspect(n));
    } else {
      BoundDominates(rest, n.cap);
      if o.points != [] {
        assert Potential(cfg, o.points[0]) == Potential(cfg, Inspect(n));
      }
    }
  }

  lemma PointStep(cfg: Config, opt: int, s: State, a: Action, p: Point)
    requires GoodConfig(cfg) && HistoryOk(opt, s.history) && a.stamp < |s.history|
    requires PointOk(cfg, opt, Best(s), p)
    ensures StepOk(cfg, opt, s, p, Advance(cfg, p, s, a))
  {
    var o := Advance(cfg, p, s, a);
    match p
    case Inspect(n) => InspectStep(cfg, opt, s, a, n);
    case Expand(n) => ExpandStep(cfg, opt, s, a, n);
    case Landed(_, _) =>
    case _ => assert Potential(cfg, o.points[0]) == Potential(cfg, p);
  }

  lemma TasksStillOk(cfg: Config, opt: int, s: State, a: Action)
    requires Enabled(s, a) && HistoryOk(opt, s.history) && TasksOk(cfg, opt, Best(s), s.tasks)
    requires StepOk(cfg, opt, s, s.tasks[a.task][0], Advance(cfg, s.tasks[a.task][0], s, a))
    ensures TasksOk(cfg, opt, Best(Apply(cfg, s, a)), Apply(cfg, s, a).tasks)
  {
    var s' := Apply(cfg, s, a);
    var t := s.tasks[a.task];
    var o := Advance(cfg, t[0], s, a);
    forall i | 0 <= i < |s'.tasks| ensures TaskOk(cfg, opt, Best(s'), s'.tasks[i]) {
      if i >= |s.tasks| {
        assert s'.tasks[i] == o.spawned[i - |s.tasks|];
      } else if i == a.task {
        forall k | 0 <= k < |s'.tasks[i]| ensures PointOk(cfg, opt, Best(s'), s'.tasks[i][k]) {
          if k >= |o.points| {
            assert s'.tasks[i][k] == t[k - |o.points| + 1];
          }
        }
      } else {
        assert TaskOk(cfg, opt, Best(s), s.tasks[i]);
      }
    }
  }

  lemma StillCovered(cfg: Config, opt: int, s: State, a: Action)
    requires Enabled(s, a) && Invariant(cfg, opt, s)
    requires StepOk(cfg, opt, s, s.tasks[a.task][0], Advance(cfg, s.tasks[a.task][0], s, a))
    ensures Best(Apply(cfg, s, a)) == opt || SomeReaches(cfg, opt, Apply(cfg, s, a).tasks)
  {
    var s' := Apply(cfg, s, a);
    var t := s.tasks[a.task];
    var o := Advance(cfg, t[0], s, a);
    if Best(s) != opt && Best(s') != opt {
      var i :| 0 <= i < |s.tasks| && Reaches(cfg, opt, s.tasks[i]);
      if i != a.task {
        assert s'.tasks[i] == s.tasks[i];
      } else {
        var k :| 0 <= k < |t| && Placed(cfg, t[k]) && Potential(cfg, t[k]) == opt;
        if k > 0 {
          assert s'.tasks[i][|o.points| + k - 1] == t[k];
        } else if Reaches(cfg, opt, o.points) {
          var m :| 0 <= m < |o.points| && Placed(cfg, o.points[m]) && Potential(cfg, o.points[m]) == opt;
          assert s'.tasks[i][m] == o.points[m];
        } else {
          var m :| 0 <= m < |o.spawned| && Reaches(cfg, opt, o.spawned[m]);
          assert s'.tasks[|s.tasks| + m] == o.spawned[m];
        }
      }
    }
  }

  /** Every step keeps the invariant, and the running best never goes down. */
  lemma StepInvariant(cfg: Config, opt: int, s: State, a: Action)
    requires GoodConfig(cfg) && Enabled(s, a) && Invariant(cfg, opt, s)
    ensures Invariant(cfg, opt, Apply(cfg, s, a))
    ensures Best(s) <= Best(Apply(cfg, s, a)) <= opt
  {
    var p := s.tasks[a.task][0];
    assert TaskOk(cfg, opt, Best(s), s.tasks[a.task]);
    PointStep(cfg, opt, s, a, p);
    TasksStillOk(cfg, opt, s, a);
    StillCovered(cfg, opt, s, a);
  }

  lemma {:induction false} RunInvariant(cfg: Config, opt: int, s: State, actions: seq<Action>, s': State)
    requires GoodConfig(cfg) && Invariant(cfg, opt, s) && Run(cfg, s, actions, s')
    ensures Invariant(cfg, opt, s')
    decreases |actions|
  {
    if actions != [] {
      StepInvariant(cfg, opt, s, actions[0]);
      RunInvariant(cfg, opt, Apply(cfg, s, actions[0]), actions[1..], s');
    }
  }

  /** Any complete run, in any interleaving, with stale loads, spurious swap failures and
      cancellation on or off, ends with the 0/1 optimum. */
  lemma CompleteRunIsOptimal(cfg: Config, capacity: int, actions: seq<Action>, s: State)
    requires GoodConfig(cfg) && capacity >= 0
    requires Run(cfg, Start(capacity), actions, s) && Complete(s)
    ensures s.history != [] && IsOptimum(cfg.items, capacity, Best(s))
  {
    StartInvariant(cfg, capacity);
    RunInvariant(cfg, Opt(cfg.items, capacity), Start(capacity), actions, s);
    OptIsOptimum(cfg.items, capacity);
  }

  /** The search runs on a density-sorted copy; the reference runs on the original order. */
  lemma SearchMeetsReference(cfg: Config, original: seq<Item>, reference: int, capacity: int, actions: seq<Action>, s: State)
    requires GoodConfig(cfg) && capacity >= 0 && multiset(original) == multiset(cfg.items)
    requires IsOptimum(original, capacity, reference)
    requires Run(cfg, Start(capacity), actions, s) && Complete(s)
    ensures s.history != [] && Best(s) == reference
  {
    CompleteRunIsOptimal(cfg, capacity, actions, s);
    SameItemsSameWeights(cfg.items, original);
    OptIsOptimum(cfg.items, capacity);
    OptIsOptimum(original, capacity);
    OptPermutation(cfg.items, original, capacity);
  }

  // ---- Progress: no run gets stuck, and only failed swaps can prolong one.

  function NodeCost(undecided: nat): nat {
    if undecided == 0 then 6 else 2 * NodeCost(undecided - 1) + 6
  }

  function PointCost(cfg: Config, p: Point): nat {
    match p
    case Enter(n) => NodeCost(Undecided(cfg, n))
    case Count(n) => NodeCost(Undecided(cfg, n)) - 1
    case Inspect(n) => NodeCost(Undecided(cfg, n)) - 2
    case Expand(n) => NodeCost(Undecided(cfg, n)) - 3
    case Raise(_, _) => 2
    case Landed(_, _) => 1
  }

  function Undecided(cfg: Config, n: Node): nat {
    if n.idx <= |cfg.items| then |cfg.items| - n.idx else 0
  }

  function TaskCost(cfg: Config, t: Task): nat {
    if t == [] then 0 else PointCost(cfg, t[0]) + TaskCost(cfg, t[1..])
  }

  /** An upper bound on the steps left, not counting failed swaps. */
  function Cost(cfg: Config, tasks: seq<Task>): nat {
    if tasks == [] then 0 else TaskCost(cfg, tasks[0]) + Cost(cfg, tasks[1..])
  }

  lemma {:induction false} TaskCostConcat(cfg: Config, t: Task, u: Task)
    ensures TaskCost(cfg, t + u) == TaskCost(cfg, t) + TaskCost(cfg, u)
  {
    if t == [] {
      assert t + u == u;
    } else {
      assert (t + u)[1..] == t[1..] + u;
      TaskCostConcat(cfg, t[1..], u);
    }
  }

  lemma {:induction false} CostReplace(cfg: Config, tasks: seq<Task>, i: nat, t: Task, more: seq<Task>)
    requires i < |tasks| && |more| <= 1
    ensures Cost(cfg, tasks[i := t] + more) ==
      Cost(cfg, tasks) - TaskCost(cfg, tasks[i]) + TaskCost(cfg, t) + (if more == [] then 0 else TaskCost(cfg, more[0]))
  {
    var all := tasks[i := t] + more;
    if i == 0 {
      assert all[1..] == tasks[1..] + more;
      CostAppend(cfg, tasks[1..], more);
    } else {
      assert all[1..] == tasks[1..][i - 1 := t] + more;
      CostReplace(cfg, tasks[1..], i - 1, t, more);
    }
  }

  lemma {:induction false} CostAppend(cfg: Config, tasks: seq<Task>, more: seq<Task>)
    requires |more| <= 1
    ensures Cost(cfg, tasks + more) == Cost(cfg, tasks) + (if more == [] then 0 else TaskCost(cfg, more[0]))
  {
    if tasks == [] {
      assert tasks + more == more;
      if more != [] {
        assert more[1..] == [];
      }
    } else {
      assert (tasks + more)[1..] == tasks[1..] + more;
      CostAppend(cfg, tasks[1..], more);
    }
  }

  lemma TaskCostOne(cfg: Config, p: Point)
    ensures TaskCost(cfg, [p]) == PointCost(cfg, p)
  {
    assert [p][1..] == [];
  }

  function OutcomeCost(cfg: Config, o: Outcome): nat {
    TaskCost(cfg, o.points) + if o.spawned == [] then 0 else TaskCost(cfg, o.spawned[0])
  }

  lemma ChildrenCost(cfg: Config, n: Node, stay: Outcome)
    requires n.idx < |cfg.items| && stay.spawned == []
    ensures |Children(cfg, n, stay).spawned| <= 1
    ensures OutcomeCost(cfg, Children(cfg, n, stay)) <= 2 * NodeCost(|cfg.items| - n.idx - 1)
  {
    var take, skip := TakeChild(cfg, n), SkipChild(n);
    TaskCostConcat(cfg, take, skip);
    TaskCostOne(cfg, skip[0]);
    if take != [] {
      TaskCostOne(cfg, take[0]);
    }
  }

  lemma PointStepCost(cfg: Config, p: Point, s: State, a: Action)
    requires a.stamp < |s.history|
    requires p.Expand? ==> p.node.idx < |cfg.items|
    ensures |Advance(cfg, p, s, a).spawned| <= 1
    ensures OutcomeCost(cfg, Advance(cfg, p, s, a)) + (if SwapFails(p, s, a) then 0 else 1) <= PointCost(cfg, p)
    ensures SwapFails(p, s, a) ==> OutcomeCost(cfg, Advance(cfg, p, s, a)) == PointCost(cfg, p)
  {
    var o := Advance(cfg, p, s, a);
    if p.Expand? {
      ChildrenCost(cfg, p.node, Outcome([], [], s.history, s.firings, s.stopped));
    } else if o.points != [] {
      TaskCostOne(cfg, o.points[0]);
    }
  }

  /** A step that is not a failed swap uses up at least one unit of the remaining cost. */
  lemma StepCost(cfg: Config, s: State, a: Action)
    requires Enabled(s, a)
    requires s.tasks[a.task][0].Expand? ==> s.tasks[a.task][0].node.idx < |cfg.items|
    ensures SwapFails(s.tasks[a.task][0], s, a) ==> Cost(cfg, Apply(cfg, s, a).tasks) == Cost(cfg, s.tasks)
    ensures !SwapFails(s.tasks[a.task][0], s, a) ==> Cost(cfg, Apply(cfg, s, a).tasks) < Cost(cfg, s.tasks)
  {
    var t := s.tasks[a.task];
    PointStepCost(cfg, t[0], s, a);
    var o := Advance(cfg, t[0], s, a);
    CostReplace(cfg, s.tasks, a.task, o.points + t[1..], o.spawned);
    TaskCostConcat(cfg, o.points, t[1..]);
  }

  function FailedSwaps(cfg: Config, s: State, actions: seq<Action>, s': State): nat
    requires Run(cfg, s, actions, s')
    decreases |actions|
  {
    if actions == [] then 0
    else (if SwapFails(s.tasks[actions[0].task][0], s, actions[0]) then 1 else 0)
         + FailedSwaps(cfg, Apply(cfg, s, actions[0]), actions[1..], s')
  }

  /** Apart from failed swaps, a run is no longer than the cost of its first state. */
  lemma {:induction false} RunLength(cfg: Config, opt: int, s: State, actions: seq<Action>, s': State)
    requires GoodConfig(cfg) && Invariant(cfg, opt, s) && Run(cfg, s, actions, s')
    ensures |actions| - FailedSwaps(cfg, s, actions, s') <= Cost(cfg, s.tasks)
    decreases |actions|
  {
    if actions != [] {
      assert TaskOk(cfg, opt, Best(s), s.tasks[actions[0].task]);
      StepCost(cfg, s, actions[0]);
      StepInvariant(cfg, opt, s, actions[0]);
      RunLength(cfg, opt, Apply(cfg, s, actions[0]), actions[1..], s');
    }
  }

  /** From every reachable state some continuation completes: the search cannot deadlock. */
  lemma {:induction false} CanComplete(cfg: Config, opt: int, s: State) returns (actions: seq<Action>, s': State)
    requires GoodConfig(cfg) && Invariant(cfg, opt, s)
    ensures Run(cfg, s, actions, s') && Complete(s')
    decreases Cost(cfg, s.tasks), if StaleSwap(s) then 1 else 0
  {
    if Complete(s) {
      actions, s' := [], s;
    } else {
      var i :| 0 <= i < |s.tasks| && s.tasks[i] != [];
      var a := Action(FirstBusy(s), |s.history| - 1, false);
      assert TaskOk(cfg, opt, Best(s), s.tasks[a.task]);
      StepCost(cfg, s, a);
      StepInvariant(cfg, opt, s, a);
      StaleSwapResolves(cfg, s, a);
      var rest;
      rest, s' := CanComplete(cfg, opt, Apply(cfg, s, a));
      actions := [a] + rest;
      assert actions[1..] == rest;
    }
  }

  function FirstBusy(s: State): (i: nat)
    requires !Complete(s)
    ensures i < |s.tasks| && s.tasks[i] != [] && forall k :: 0 <= k < i ==> s.tasks[k] == []
  {
    FirstBusyFrom(s, 0)
  }

  function FirstBusyFrom(s: State, from: nat): (i: nat)
    requires from <= |s.tasks| && !Complete(s) && forall k :: 0 <= k < from ==> s.tasks[k] == []
    ensures i < |s.tasks| && s.tasks[i] != [] && forall k :: 0 <= k < i ==> s.tasks[k] == []
    decreases |s.tasks| - from
  {
    if from < |s.tasks| && s.tasks[from] != [] then from else FirstBusyFrom(s, from + 1)
  }

  /** The first busy task sits in its swap loop with an outdated expectation. */
  predicate StaleSwap(s: State) {
    !Complete(s) && s.history != [] &&
    var p := s.tasks[FirstBusy(s)][0];
    p.Raise? && p.value > p.observed && p.observed != Best(s)
  }

  lemma StaleSwapResolves(cfg: Config, s: State, a: Action)
    requires s.history != [] && !Complete(s)
    requires a == Action(FirstBusy(s), |s.history| - 1, false)
    ensures SwapFails(s.tasks[a.task][0], s, a) ==> StaleSwap(s) && !StaleSwap(Apply(cfg, s, a))
  {
    var p := s.tasks[a.task][0];
    if SwapFails(p, s, a) {
      var s' := Apply(cfg, s, a);
      assert s'.tasks[a.task][0] == Raise(p.value, Best(s));
      if !Complete(s') {
        assert FirstBusy(s') == a.task;
      }
    }
  }

  /**
   * A swap of any task that fails for a reason means that another task has raised the best above what was expected;
   * once the refresh has returned the newest value, the same task's next attempt can only fail spuriously.
   */
  lemma SwapResolves(cfg: Config, opt: int, s: State, a: Action)
    requires GoodConfig(cfg) && Invariant(cfg, opt, s) && Enabled(s, a) && SwapFails(s.tasks[a.task][0], s, a)
    ensures !a.spurious ==> s.tasks[a.task][0].observed < Best(s)
    ensures a.stamp == |s.history| - 1 ==>
      forall b: Action :: b.task == a.task && !b.spurious && Enabled(Apply(cfg, s, a), b) ==>
        !SwapFails(Apply(cfg, s, a).tasks[a.task][0], Apply(cfg, s, a), b)
  {
    var t, p := s.tasks[a.task], s.tasks[a.task][0];
    assert TaskOk(cfg, opt, Best(s), t) && PointOk(cfg, opt, Best(s), t[0]);
    assert Apply(cfg, s, a).tasks[a.task][0] == Raise(p.value, s.history[a.stamp]);
  }

  // ---- Cancellation only adds bookkeeping: erasing it gives a run of the other row.

  function ErasePoint(p: Point): Point {
    if p.Count? then Inspect(p.node) else p
  }

  function EraseTask(t: Task): (r: Task)
    ensures |r| == |t|
  {
    seq(|t|, k requires 0 <= k < |t| => ErasePoint(t[k]))
  }

  function Erase(s: State): State {
    State(seq(|s.tasks|, i requires 0 <= i < |s.tasks| => EraseTask(s.tasks[i])), s.history, 0, false)
  }

  lemma EraseAdvance(cfg: Config, p: Point, s: State, a: Action)
    requires a.stamp < |s.history| && !p.Count?
    ensures var o, e := Advance(cfg, p, s, a), Advance(cfg.(cancellation := false), p, Erase(s), a);
      && EraseTask(o.points) == e.points && o.history == e.history && e.firings == 0 && !e.stopped
      && |o.spawned| == |e.spawned| && forall k :: 0 <= k < |o.spawned| ==> EraseTask(o.spawned[k]) == e.spawned[k]
  {
  }

  lemma EraseApply(cfg: Config, s: State, a: Action, o: Outcome, e: Outcome)
    requires Enabled(s, a) && o == Advance(cfg, s.tasks[a.task][0], s, a)
    requires EraseTask(o.points) == e.points && o.history == e.history && e.firings == 0 && !e.stopped
    requires |o.spawned| == |e.spawned| && forall k :: 0 <= k < |o.spawned| ==> EraseTask(o.spawned[k]) == e.spawned[k]
    ensures Erase(Apply(cfg, s, a)) ==
      State(Erase(s).tasks[a.task := e.points + EraseTask(s.tasks[a.task])[1..]] + e.spawned, e.history, 0, false)
  {
    var t := s.tasks[a.task];
    assert EraseTask(o.points + t[1..]) == e.points + EraseTask(t)[1..];
    assert Erase(Apply(cfg, s, a)).tasks == Erase(s).tasks[a.task := e.points + EraseTask(t)[1..]] + e.spawned;
  }

  /** Each cancel-on step is a cancel-off step of the erased state, or leaves it unchanged. */
  lemma EraseStep(cfg: Config, s: State, a: Action)
    requires Enabled(s, a)
    ensures Enabled(Erase(s), a)
    ensures if s.tasks[a.task][0].Count? then Erase(Apply(cfg, s, a)) == Erase(s)
            else Erase(Apply(cfg, s, a)) == Apply(cfg.(cancellation := false), Erase(s), a)
  {
    var off := cfg.(cancellation := false);
    var t := s.tasks[a.task];
    var o := Advance(cfg, t[0], s, a);
    if t[0].Count? {
      EraseApply(cfg, s, a, o, Outcome([Inspect(t[0].node)], [], s.history, 0, false));
      assert [Inspect(t[0].node)] + EraseTask(t)[1..] == EraseTask(t);
    } else {
      EraseAdvance(cfg, t[0], s, a);
      EraseApply(cfg, s, a, o, Advance(off, t[0], Erase(s), a));
    }
  }

  /** Every cancel-on run has a cancel-off run through the same values of the running best. */
  lemma {:induction false} EraseRun(cfg: Config, s: State, actions: seq<Action>, s': State) returns (off: seq<Action>)
    requires Run(cfg, s, actions, s')
    ensures Run(cfg.(cancellation := false), Erase(s), off, Erase(s'))
    ensures Erase(s').history == s'.history
    decreases |actions|
  {
    if actions == [] {
      off := [];
    } else {
      EraseStep(cfg, s, actions[0]);
      var rest := EraseRun(cfg, Apply(cfg, s, actions[0]), actions[1..], s');
      if s.tasks[actions[0].task][0].Count? {
        off := rest;
      } else {
        off := [actions[0]] + rest;
        assert off[1..] == rest;
      }
    }
  }
}
