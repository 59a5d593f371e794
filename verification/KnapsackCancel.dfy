/** When the concurrent knapsack search signals cancellation, what the firing counter counts, and what a visit does. */
module KnapsackCancel {
  import opened KnapsackItems
  import opened KnapsackBound
  import opened KnapsackSearch

  /** The running best went from a positive value to one more than a hundredth larger. */
  predicate WideJump(history: seq<int>, i: int) {
    0 <= i < |history| - 1 && history[i] > 0 && history[i + 1] > history[i] + history[i] / 100
  }

  ghost predicate SomeWideJump(history: seq<int>) {
    exists i :: WideJump(history, i)
  }

  /** Some activation still stands at `p`. */
  ghost predicate Pending(tasks: seq<Task>, p: Point) {
    exists t, k :: 0 <= t < |tasks| && 0 <= k < |tasks[t]| && tasks[t][k] == p
  }

  /** `observed` was replaced by `value` in one swap. */
  ghost predicate Replaced(history: seq<int>, observed: int, value: int) {
    exists i :: 0 <= i < |history| - 1 && history[i] == observed && history[i + 1] == value
  }

  /** A leaf that raised the best knows what it replaced. */
  ghost predicate LandingsOk(history: seq<int>, t: Task) {
    forall k :: 0 <= k < |t| && t[k].Landed? && t[k].value > t[k].observed ==> Replaced(history, t[k].observed, t[k].value)
  }

  /** The stop flag is up only after a wide jump, and every wide jump has raised it or is about to. */
  ghost predicate StopOk(cfg: Config, s: State) {
    && s.history != []
    && (forall t :: 0 <= t < |s.tasks| ==> LandingsOk(s.history, s.tasks[t]))
    && (s.stopped ==> cfg.cancellation && SomeWideJump(s.history))
    && (cfg.cancellation ==> forall i :: WideJump(s.history, i) ==>
          s.stopped || Pending(s.tasks, Landed(s.history[i + 1], s.history[i])))
  }

  /** A point of some other activation, or deeper in the same one, is still there after the step. */
  lemma PendingKept(cfg: Config, s: State, a: Action, p: Point)
    requires Enabled(s, a) && Pending(s.tasks, p) && p != s.tasks[a.task][0]
    ensures Pending(Apply(cfg, s, a).tasks, p)
  {
    var s', t := Apply(cfg, s, a), s.tasks[a.task];
    var o := Advance(cfg, t[0], s, a);
    var i, k :| 0 <= i < |s.tasks| && 0 <= k < |s.tasks[i]| && s.tasks[i][k] == p;
    if i == a.task {
      assert s'.tasks[i] == o.points + t[1..];
      assert s'.tasks[i][|o.points| + k - 1] == p;
    } else {
      assert s'.tasks[i] == s.tasks[i];
    }
  }

  lemma ReplacedLater(history: seq<int>, v: int, observed: int, value: int)
    requires Replaced(history, observed, value)
    ensures Replaced(history + [v], observed, value)
  {
    var i :| 0 <= i < |history| - 1 && history[i] == observed && history[i + 1] == value;
    assert (history + [v])[i] == observed && (history + [v])[i + 1] == value;
  }

  /** What the point that moves leaves behind knows what it replaced. */
  lemma OutcomeLandings(cfg: Config, s: State, a: Action)
    requires Enabled(s, a)
    ensures var o := Advance(cfg, s.tasks[a.task][0], s, a);
      && LandingsOk(o.history, o.points) && (forall k :: 0 <= k < |o.spawned| ==> LandingsOk(o.history, o.spawned[k]))
      && (o.history == s.history || exists v :: o.history == s.history + [v])
  {
    var p := s.tasks[a.task][0];
    var o := Advance(cfg, p, s, a);
    if o.history != s.history {
      assert o.history[|s.history| - 1] == p.observed && o.history[|s.history|] == p.value;
    }
  }

  lemma LandingsKept(cfg: Config, s: State, a: Action)
    requires Enabled(s, a) && StopOk(cfg, s)
    ensures var s' := Apply(cfg, s, a); forall t :: 0 <= t < |s'.tasks| ==> LandingsOk(s'.history, s'.tasks[t])
  {
    var s', was := Apply(cfg, s, a), s.tasks[a.task];
    var o := Advance(cfg, was[0], s, a);
    OutcomeLandings(cfg, s, a);
    forall t, k | 0 <= t < |s'.tasks| && 0 <= k < |s'.tasks[t]| && s'.tasks[t][k].Landed?
      && s'.tasks[t][k].value > s'.tasks[t][k].observed
      ensures Replaced(s'.history, s'.tasks[t][k].observed, s'.tasks[t][k].value)
    {
      var p := s'.tasks[t][k];
      if t >= |s.tasks| {
        assert s'.tasks[t] == o.spawned[t - |s.tasks|];
      } else if t == a.task && k < |o.points| {
        assert p == o.points[k];
      } else {
        if t == a.task {
          assert p == was[k - |o.points| + 1];
        } else {
          assert p == s.tasks[t][k];
        }
        if s'.history != s.history {
          var v :| s'.history == s.history + [v];
          ReplacedLater(s.history, v, p.observed, p.value);
        }
      }
    }
  }

  /** A wide jump after the step was there before, or is the swap that the step made. */
  lemma JumpsKept(cfg: Config, s: State, a: Action, i: int)
    requires Enabled(s, a) && StopOk(cfg, s) && cfg.cancellation && WideJump(Apply(cfg, s, a).history, i)
    ensures var s' := Apply(cfg, s, a); s'.stopped || Pending(s'.tasks, Landed(s'.history[i + 1], s'.history[i]))
  {
    var s', t := Apply(cfg, s, a), s.tasks[a.task];
    var o := Advance(cfg, t[0], s, a);
    OutcomeLandings(cfg, s, a);
    if i < |s.history| - 1 {
      assert s'.history[i] == s.history[i] && s'.history[i + 1] == s.history[i + 1];
      assert WideJump(s.history, i);
      var p := Landed(s.history[i + 1], s.history[i]);
      if !s.stopped && t[0] != p {
        PendingKept(cfg, s, a, p);
      }
    } else {
      assert s'.tasks[a.task] == o.points + t[1..];
      assert s'.tasks[a.task][0] == o.points[0] == Landed(s'.history[i + 1], s'.history[i]);
    }
  }

  lemma WideJumpLater(history: seq<int>, later: seq<int>)
    requires SomeWideJump(history) && history <= later
    ensures SomeWideJump(later)
  {
    var i :| WideJump(history, i);
    assert WideJump(later, i);
  }

  lemma StopStep(cfg: Config, s: State, a: Action)
    requires Enabled(s, a) && StopOk(cfg, s)
    ensures StopOk(cfg, Apply(cfg, s, a))
  {
    var s', p := Apply(cfg, s, a), s.tasks[a.task][0];
    LandingsKept(cfg, s, a);
    OutcomeLandings(cfg, s, a);
    if s.stopped {
      WideJumpLater(s.history, s'.history);
    } else if s'.stopped {
      assert LandingsOk(s.history, s.tasks[a.task]);
      var i :| 0 <= i < |s.history| - 1 && s.history[i] == p.observed && s.history[i + 1] == p.value;
      assert WideJump(s'.history, i);
    }
    if cfg.cancellation {
      forall i | WideJump(s'.history, i) ensures s'.stopped || Pending(s'.tasks, Landed(s'.history[i + 1], s'.history[i])) {
        JumpsKept(cfg, s, a, i);
      }
    }
  }

  lemma {:induction false} StopRun(cfg: Config, s: State, actions: seq<Action>, s': State)
    requires StopOk(cfg, s) && Run(cfg, s, actions, s')
    ensures StopOk(cfg, s')
    decreases |actions|
  {
    if actions != [] {
      StopStep(cfg, s, actions[0]);
      StopRun(cfg, Apply(cfg, s, actions[0]), actions[1..], s');
    }
  }

  // ---- The firing counter.

  /** How many steps of a run are entries that find the stop flag up. */
  function StoppedEntries(cfg: Config, s: State, actions: seq<Action>, s': State): nat
    requires Run(cfg, s, actions, s')
    decreases |actions|
  {
    if actions == [] then 0
    else (if s.stopped && s.tasks[actions[0].task][0].Enter? then 1 else 0)
         + StoppedEntries(cfg, Apply(cfg, s, actions[0]), actions[1..], s')
  }

  /** The activations that saw the stop flag and have yet to bump the counter. */
  function AboutToCount(s: State): set<nat> {
    set t: nat | t < |s.tasks| && s.tasks[t] != [] && s.tasks[t][0].Count?
  }

  /** Only the running activation of a task can be about to count, and only with cancellation on. */
  predicate CountsOk(cfg: Config, s: State) {
    && (s.stopped ==> cfg.cancellation)
    && (forall t, k :: 0 <= t < |s.tasks| && 0 < k < |s.tasks[t]| ==> !s.tasks[t][k].Count?)
  }

  lemma OutcomeShape(cfg: Config, s: State, a: Action)
    requires Enabled(s, a)
    ensures var p, o := s.tasks[a.task][0], Advance(cfg, s.tasks[a.task][0], s, a);
      && (forall k :: 0 < k < |o.points| ==> !o.points[k].Count?)
      && (forall t, k :: 0 <= t < |o.spawned| && 0 <= k < |o.spawned[t]| ==> !o.spawned[t][k].Count?)
      && (o.points != [] && o.points[0].Count? <==> p.Enter? && cfg.cancellation && s.stopped)
  {
  }

  lemma CountsStep(cfg: Config, s: State, a: Action)
    requires Enabled(s, a) && CountsOk(cfg, s)
    ensures CountsOk(cfg, Apply(cfg, s, a))
  {
    var s', was := Apply(cfg, s, a), s.tasks[a.task];
    var o := Advance(cfg, was[0], s, a);
    OutcomeShape(cfg, s, a);
    forall t, k | 0 <= t < |s'.tasks| && 0 < k < |s'.tasks[t]| ensures !s'.tasks[t][k].Count? {
      if t == a.task {
        assert s'.tasks[t][k] == if k < |o.points| then o.points[k] else was[k - |o.points| + 1];
      } else if t < |s.tasks| {
        assert s'.tasks[t][k] == s.tasks[t][k];
      }
    }
  }

  /** Which activations are about to count after a step. */
  lemma AboutToCountStep(cfg: Config, s: State, a: Action)
    requires Enabled(s, a) && CountsOk(cfg, s)
    ensures AboutToCount(Apply(cfg, s, a)) ==
      AboutToCount(s) - {a.task} + if s.tasks[a.task][0].Enter? && s.stopped then {a.task} else {}
  {
    var s', was := Apply(cfg, s, a), s.tasks[a.task];
    var o := Advance(cfg, was[0], s, a);
    OutcomeShape(cfg, s, a);
    forall t: nat | t < |s'.tasks| && t != a.task ensures t in AboutToCount(s') <==> t in AboutToCount(s) {
      if t >= |s.tasks| {
        assert s'.tasks[t] == o.spawned[t - |s.tasks|];
      }
    }
    assert s'.tasks[a.task] == o.points + was[1..];
    if o.points == [] && |was| > 1 {
      assert s'.tasks[a.task][0] == was[1];
    }
  }

  lemma SetSizes(m: set<nat>, m': set<nat>, i: nat, add: bool)
    requires m' == m - {i} + if add then {i} else {}
    ensures |m'| + (if i in m then 1 else 0) == |m| + if add then 1 else 0
  {
    if i in m {
      assert m == m - {i} + {i};
    } else {
      assert m - {i} == m;
    }
    if !add {
      assert m - {i} + {} == m - {i};
    }
  }

  lemma FiringsMove(cfg: Config, s: State, a: Action)
    requires Enabled(s, a)
    ensures Apply(cfg, s, a).firings == s.firings + if a.task in AboutToCount(s) then 1 else 0
  {
    assert a.task in AboutToCount(s) <==> s.tasks[a.task][0].Count?;
  }

  /** One step: the counter and the activations about to bump it grow together by the entries that find the flag up. */
  lemma FiringStep(cfg: Config, s: State, a: Action)
    requires Enabled(s, a) && CountsOk(cfg, s)
    ensures var s' := Apply(cfg, s, a);
      s'.firings + |AboutToCount(s')| ==
      s.firings + |AboutToCount(s)| + if s.stopped && s.tasks[a.task][0].Enter? then 1 else 0
  {
    AboutToCountStep(cfg, s, a);
    FiringsMove(cfg, s, a);
    SetSizes(AboutToCount(s), AboutToCount(Apply(cfg, s, a)), a.task, s.stopped && s.tasks[a.task][0].Enter?);
  }

  lemma {:induction false} FiringRun(cfg: Config, s: State, actions: seq<Action>, s': State)
    requires CountsOk(cfg, s) && Run(cfg, s, actions, s')
    ensures s'.firings + |AboutToCount(s')| == s.firings + |AboutToCount(s)| + StoppedEntries(cfg, s, actions, s')
    decreases |actions|
  {
    if actions != [] {
      FiringStep(cfg, s, actions[0]);
      CountsStep(cfg, s, actions[0]);
      FiringRun(cfg, Apply(cfg, s, actions[0]), actions[1..], s');
    }
  }

  /**
   * In every complete run the stop flag is up if and only if cancellation is on and the running best made a wide jump,
   * and the counter is the number of entries that found it up.
   */
  lemma CancellationLaw(cfg: Config, capacity: int, actions: seq<Action>, s: State)
    requires Run(cfg, Start(capacity), actions, s) && Complete(s)
    ensures s.stopped <==> cfg.cancellation && SomeWideJump(s.history)
    ensures s.firings == StoppedEntries(cfg, Start(capacity), actions, s)
    ensures s.firings > 0 ==> cfg.cancellation && SomeWideJump(s.history)
  {
    StopRun(cfg, Start(capacity), actions, s);
    assert AboutToCount(Start(capacity)) == {} && AboutToCount(s) == {};
    FiringRun(cfg, Start(capacity), actions, s);
    if s.firings > 0 {
      FiringMeansStopped(cfg, Start(capacity), actions, s);
    }
  }

  lemma {:induction false} FiringMeansStopped(cfg: Config, s: State, actions: seq<Action>, s': State)
    requires Run(cfg, s, actions, s') && (s.stopped || StoppedEntries(cfg, s, actions, s') > 0)
    ensures s'.stopped
    decreases |actions|
  {
    if actions != [] {
      FiringMeansStopped(cfg, Apply(cfg, s, actions[0]), actions[1..], s');
    }
  }

  // ---- What a visit does.

  /** A visit prunes exactly when no fractional completion of the node beats the value it loaded. */
  lemma PrunesIff(cfg: Config, s: State, a: Action, n: Node)
    requires GoodConfig(cfg) && a.stamp < |s.history| && n.idx < |cfg.items| && n.cap > 0
    ensures var rest, o := cfg.items[n.idx..], Advance(cfg, Inspect(n), s, a);
      && (o.points == [] || o.points == [Expand(n)])
      && (o.points == [Expand(n)] <==>
            exists x :: FractionalFeasible(rest, n.cap as real, x)
                        && n.cur as real + FractionValue(rest, x) > s.history[a.stamp] as real)
  {
    var rest, cap, read := cfg.items[n.idx..], n.cap as real, s.history[a.stamp] as real;
    GreedyIsLinearOptimum(rest, cap);
    var x :| FractionalFeasible(rest, cap, x) && FractionValue(rest, x) == Greedy(rest, cap);
    if n.cur as real + Greedy(rest, cap) > read {
      assert FractionalFeasible(rest, cap, x) && n.cur as real + FractionValue(rest, x) > read;
    }
  }

  /** A node that is expanded starts its children once each: the take child if it fits, and the skip child. */
  lemma ExpandsIntoChildren(cfg: Config, s: State, a: Action, n: Node)
    requires a.stamp < |s.history| && n.idx < |cfg.items|
    ensures var it, o := cfg.items[n.idx], Advance(cfg, Expand(n), s, a);
      var started := multiset(o.points) + if o.spawned == [] then multiset{} else multiset(o.spawned[0]);
      && started == multiset{Enter(Node(n.idx + 1, n.cap, n.cur))} +
                    (if it.weight <= n.cap then multiset{Enter(Node(n.idx + 1, n.cap - it.weight, n.cur + it.value))} else multiset{})
      && |o.spawned| == if |cfg.items| - n.idx > cfg.cutoff then 1 else 0
  {
  }
}
