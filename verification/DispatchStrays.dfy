/**
 * The runs in which a late worker goes wrong, for every series of dispatches that allows one, and with them the exact
 * conditions under which descriptor reads, executions and joins are right.
 */
module DispatchStrays {
  import opened Dispatch

  // Runs in pieces.

  ghost predicate Reach(s: State, t: State) {
    exists run :: Legal(s, run) && Final(s, run) == t
  }

  lemma {:induction false} Concat(s: State, run: seq<Action>, more: seq<Action>)
    requires Legal(s, run) && Legal(Final(s, run), more)
    ensures Legal(s, run + more) && Final(s, run + more) == Final(Final(s, run), more)
    decreases |run|
  {
    if run == [] {
      assert run + more == more;
    } else {
      assert (run + more)[1..] == run[1..] + more;
      Concat(Apply(s, run[0]), run[1..], more);
    }
  }

  lemma Self(s: State)
    ensures Reach(s, s)
  {
    assert Legal(s, []) && Final(s, []) == s;
  }

  lemma Onward(s: State, t: State, u: State)
    requires Reach(s, t) && Reach(t, u)
    ensures Reach(s, u)
  {
    var run :| Legal(s, run) && Final(s, run) == t;
    var more :| Legal(t, more) && Final(t, more) == u;
    Concat(s, run, more);
  }

  lemma OneStep(s: State, a: Action)
    requires Enabled(s, a)
    ensures Reach(s, Apply(s, a))
  {
    var run, rest: seq<Action> := [a], [];
    assert run[0] == a && run[1..] == rest;
    assert Legal(Apply(s, a), rest) && Final(Apply(s, a), rest) == Apply(s, a);
    assert Legal(s, run) && Final(s, run) == Apply(s, a);
  }

  lemma ThenStep(s: State, t: State, a: Action)
    requires Reach(s, t) && Enabled(t, a)
    ensures Reach(s, Apply(t, a))
  {
    OneStep(t, a);
    Onward(s, t, Apply(t, a));
  }

  // The legs every dispatch is made of.

  function StepsOf(s: Slot, fields: map<Desc, nat>, c: nat): Slot
    decreases c
  {
    if c == 0 then s else StepsOf(WorkerStep(s, fields), fields, c - 1)
  }

  /** Worker k takes c steps. */
  lemma {:induction false} WorkLeg(s: State, k: nat, c: nat)
    requires k < |s.slots|
    ensures Reach(s, s.(slots := s.slots[k := StepsOf(s.slots[k], s.fields, c)]))
    decreases c
  {
    if c == 0 {
      Self(s);
      assert s.slots[k := s.slots[k]] == s.slots;
    } else {
      var t := Apply(s, Work(k));
      OneStep(s, Work(k));
      WorkLeg(t, k, c - 1);
      assert t.slots[k := StepsOf(t.slots[k], s.fields, c - 1)] == s.slots[k := StepsOf(s.slots[k], s.fields, c)];
      Onward(s, t, t.(slots := t.slots[k := StepsOf(t.slots[k], t.fields, c - 1)]));
    }
  }

  /** The slot once dispatch g has been announced in it. */
  function Announced(s: Slot, g: nat, kind: Kind): Slot {
    Publish(if kind.reuse then s else Point(s, kind), g, kind)
  }

  function AnnouncedFrom(slots: seq<Slot>, i: nat, g: nat, kind: Kind): seq<Slot> {
    seq(|slots|, k requires 0 <= k < |slots| => if k < i then slots[k] else Announced(slots[k], g, kind))
  }

  lemma PublishOne(s: State)
    requires s.producer.Publishing? && !s.producer.pointed && s.producer.i < |s.slots|
    ensures var i := s.producer.i;
            Reach(s, s.(slots := s.slots[i := Announced(s.slots[i], s.gen, Current(s))], producer := Publishing(i + 1, false)))
  {
    var i := s.producer.i;
    OneStep(s, ProducerStep);
    if !Current(s).reuse {
      var t := Apply(s, ProducerStep);
      ThenStep(s, t, ProducerStep);
      assert Apply(t, ProducerStep).slots == s.slots[i := Announced(s.slots[i], s.gen, Current(s))];
    }
  }

  lemma {:induction false} PublishRest(s: State)
    requires s.producer.Publishing? && !s.producer.pointed && s.producer.i <= |s.slots|
    ensures Reach(s, s.(slots := AnnouncedFrom(s.slots, s.producer.i, s.gen, Current(s)), producer := OwnShare))
    decreases |s.slots| - s.producer.i
  {
    var i := s.producer.i;
    if i == |s.slots| {
      OneStep(s, ProducerStep);
      assert AnnouncedFrom(s.slots, i, s.gen, Current(s)) == s.slots;
    } else {
      var t := s.(slots := s.slots[i := Announced(s.slots[i], s.gen, Current(s))], producer := Publishing(i + 1, false));
      PublishOne(s);
      PublishRest(t);
      assert AnnouncedFrom(t.slots, i + 1, s.gen, Current(s)) == AnnouncedFrom(s.slots, i, s.gen, Current(s));
      Onward(s, t, t.(slots := AnnouncedFrom(t.slots, i + 1, t.gen, Current(t)), producer := OwnShare));
    }
  }

  function NewFields(s: State, kind: Kind): map<Desc, nat> {
    if kind.reuse then s.fields else s.fields[kind.desc := s.gen + 1]
  }

  predicate Unstamped(s: State) {
    forall k :: 0 <= k < |s.slots| ==> !s.slots[k].stamped
  }

  /** The state in which the dispatch in progress is about to be published. */
  function Opened(s: State): State {
    s.(gen := s.gen + 1, fields := NewFields(s, Current(s)), producer := Publishing(0, false))
  }

  lemma GateLeg(s: State)
    requires s.producer.Gating? && Unstamped(s)
    ensures Reach(s, s.(gen := s.gen + 1, producer := Publishing(0, false)))
  {
    OneStep(s, ProducerStep);
  }

  lemma WriteLeg(s: State)
    requires s.producer.Writing? && Unstamped(s) && !Current(s).reuse
    ensures Reach(s, Opened(s))
  {
    var t := s.(fields := NewFields(s, Current(s)), producer := Gating);
    OneStep(s, ProducerStep);
    GateLeg(t);
    Onward(s, t, Opened(s));
  }

  lemma DrainLeg(s: State)
    requires s.producer.Draining? && Unstamped(s)
    ensures Reach(s, Opened(s))
  {
    var t := s.(producer := if Current(s).reuse then Gating else Writing);
    OneStep(s, ProducerStep);
    if Current(s).reuse {
      GateLeg(t);
    } else {
      WriteLeg(t);
    }
    Onward(s, t, Opened(s));
  }

  /** From one dispatch to the publication of the next, with no acknowledgement to wait for. */
  lemma OpenLeg(s: State, kind: Kind)
    requires s.producer.Idle? && Fits(s.kinds, kind, |s.slots|) && Unstamped(s)
    ensures Reach(s, Opened(s.(kinds := s.kinds + [kind])))
  {
    var t := Apply(s, Begin(kind));
    OneStep(s, Begin(kind));
    BegunLeg(t);
    Onward(s, t, Opened(t));
  }

  lemma BegunLeg(s: State)
    requires Unstamped(s)
    requires s.producer.Draining? || (s.producer.Writing? && !Current(s).reuse) || (s.producer.Gating? && Current(s).reuse)
    ensures Reach(s, Opened(s))
  {
    if s.producer.Draining? {
      DrainLeg(s);
    } else if s.producer.Writing? {
      WriteLeg(s);
    } else {
      GateLeg(s);
    }
  }

  /** A dispatch is begun, published to every worker, and the producer has run its own share. */
  lemma Announce(s: State, kind: Kind) returns (t: State)
    requires s.producer.Idle? && Fits(s.kinds, kind, |s.slots|) && s.gen == |s.kinds|
    requires Unstamped(s)
    ensures Reach(s, t) && t.gen == s.gen + 1 && t.kinds == s.kinds + [kind] && t.fields == NewFields(s, kind)
    ensures t.producer == Joining(0) && |t.slots| == |s.slots|
    ensures forall k :: 0 <= k < |s.slots| ==> t.slots[k] == Announced(s.slots[k], s.gen + 1, kind)
  {
    OpenLeg(s, kind);
    var u := Opened(s.(kinds := s.kinds + [kind]));
    assert Current(u) == kind;
    PublishRest(u);
    t := u.(slots := AnnouncedFrom(u.slots, 0, u.gen, kind), producer := OwnShare);
    Onward(s, u, t);
    ThenStep(s, t, ProducerStep);
    t := Apply(t, ProducerStep);
  }

  /** Workers from `from` on each take five steps. */
  function ServedFrom(slots: seq<Slot>, fields: map<Desc, nat>, from: nat): seq<Slot> {
    seq(|slots|, k requires 0 <= k < |slots| => if k < from then slots[k] else StepsOf(slots[k], fields, 5))
  }

  lemma {:induction false} ServeRest(s: State, from: nat)
    requires from <= |s.slots|
    ensures Reach(s, s.(slots := ServedFrom(s.slots, s.fields, from)))
    decreases |s.slots| - from
  {
    if from == |s.slots| {
      Self(s);
      assert ServedFrom(s.slots, s.fields, from) == s.slots;
    } else {
      var t := s.(slots := s.slots[from := StepsOf(s.slots[from], s.fields, 5)]);
      WorkLeg(s, from, 5);
      ServeRest(t, from + 1);
      assert ServedFrom(t.slots, s.fields, from + 1) == ServedFrom(s.slots, s.fields, from);
      Onward(s, t, t.(slots := ServedFrom(t.slots, t.fields, from + 1)));
    }
  }

  predicate IsDone(s: State, k: nat)
    requires k < |s.slots|
  {
    s.slots[k].mail.(acked := false) == Mail(s.gen, Current(s).reuse, Current(s).skip, true, false)
  }

  lemma {:induction false} JoinRest(s: State)
    requires s.producer.Joining? && s.producer.i <= |s.slots|
    requires forall k :: s.producer.i <= k < |s.slots| ==> IsDone(s, k)
    ensures Reach(s, s.(producer := Idle))
    decreases |s.slots| - s.producer.i
  {
    assert s.producer.i < |s.slots| ==> IsDone(s, s.producer.i);
    OneStep(s, ProducerStep);
    if s.producer.i < |s.slots| {
      var t := s.(producer := Joining(s.producer.i + 1));
      assert forall k :: 0 <= k < |t.slots| ==> IsDone(t, k) == IsDone(s, k);
      JoinRest(t);
      Onward(s, t, t.(producer := Idle));
    }
  }

  /** The producer takes the first worker's share, runs it and tries its stamp. */
  function Collapsed(s: Slot, g: nat, of: nat, kind: Kind): Slot {
    Stamp(RunTaken(Take(s, g), g, of), g, kind)
  }

  lemma CollapseLeg(s: State)
    requires s.producer == Joining(0) && |s.slots| > 0 && Cold(Current(s)) && s.slots[0].claimed < s.gen
    ensures Reach(s, s.(producer := Joining(1), slots := s.slots[0 := Collapsed(s.slots[0], s.gen, Written(s.fields, Current(s).desc), Current(s))]))
  {
    OneStep(s, TakeShare);
    var t := Apply(s, TakeShare);
    ThenStep(s, t, ProducerStep);
    var u := Apply(t, ProducerStep);
    ThenStep(s, u, ProducerStep);
    assert Apply(u, ProducerStep).slots == s.slots[0 := Collapsed(s.slots[0], s.gen, Written(s.fields, Current(s).desc), Current(s))];
  }

  // Workers that are in step.

  /** A worker that has dealt with dispatch g, whose parameters are those of dispatch `base`. */
  predicate RestedSlot(s: Slot, g: nat, kind: Kind, base: nat) {
    && s.mail.g == g && Settled(s) && !s.stamped && !s.taken && s.claimed <= g && s.ptr == kind.desc
    && (g > 0 ==> s.cache == Holds(base, kind.desc.collapsible))
  }

  /** Between dispatches, with all workers from `from` on in step. */
  predicate Rested(s: State, from: nat) {
    && s.producer.Idle? && s.gen == |s.kinds| && Series(s.kinds, |s.slots|)
    && Written(s.fields, Current(s).desc) == Base(s.kinds, |s.kinds|)
    && forall k :: from <= k < |s.slots| ==> RestedSlot(s.slots[k], s.gen, Current(s), Base(s.kinds, |s.kinds|))
  }

  lemma ServeSlot(s: Slot, g: nat, kind: Kind, base: nat, next: Kind, fields: map<Desc, nat>, renewed: nat)
    requires RestedSlot(s, g, kind, base) && Written(fields, next.desc) == renewed
    requires next.reuse ==> g > 0 && next.desc == kind.desc && renewed == base
    ensures var t := StepsOf(Announced(s, g + 1, next), fields, 5);
            RestedSlot(t, g + 1, next, renewed) && t.mail.(acked := false) == Mail(g + 1, next.reuse, next.skip, true, false)
  {
    var a := Announced(s, g + 1, next);
    var b := WorkerStep(WorkerStep(a, fields), fields);
    assert b.cache == Holds(renewed, next.desc.collapsible);
    assert b.worker == if Cold(next) then Claiming(a.mail) else Running(a.mail);
    var c := WorkerStep(WorkerStep(b, fields), fields);
    assert c.worker == if Cold(next) then Stamping(a.mail) else Polling(g + 1);
    assert StepsOf(a, fields, 5) == StepsOf(c, fields, 1) by {
      assert StepsOf(a, fields, 5) == StepsOf(WorkerStep(a, fields), fields, 4) == StepsOf(b, fields, 3) == StepsOf(WorkerStep(b, fields), fields, 2);
    }
  }

  lemma NewBase(s: State, kind: Kind)
    requires s.gen == |s.kinds| && Series(s.kinds, |s.slots|) && Fits(s.kinds, kind, |s.slots|)
    requires Written(s.fields, Current(s).desc) == Base(s.kinds, |s.kinds|)
    ensures var ks := s.kinds + [kind];
            && Series(ks, |s.slots|) && Written(NewFields(s, kind), kind.desc) == Base(ks, |ks|)
            && (kind.reuse ==> s.gen > 0 && kind.desc == Current(s).desc && Base(ks, |ks|) == Base(s.kinds, |s.kinds|))
            && (!kind.reuse ==> Base(ks, |ks|) == |ks|)
  {
    var ks := s.kinds + [kind];
    Prefixes(s.kinds, ks, |s.kinds|);
    forall l | 0 <= l < |ks| ensures InSeries(ks, l, |s.slots|) {
      assert l < |s.kinds| ==> InSeries(s.kinds, l, |s.slots|);
    }
  }

  /** Dispatch `kind` has been announced and every worker from `from` on has dealt with it. */
  ghost predicate Halfway(s: State, t: State, kind: Kind, from: nat) {
    && Reach(s, t) && t.producer == Joining(0) && t.gen == s.gen + 1 == |t.kinds| && t.kinds == s.kinds + [kind]
    && |t.slots| == |s.slots| && Series(t.kinds, |t.slots|)
    && t.fields == NewFields(s, kind) && Written(t.fields, kind.desc) == Base(t.kinds, |t.kinds|)
    && (forall k :: from <= k < |s.slots| ==> RestedSlot(t.slots[k], t.gen, kind, Base(t.kinds, |t.kinds|)) && IsDone(t, k))
  }

  lemma ServedAt(s: State, kind: Kind, k: nat, a: Slot, fields: map<Desc, nat>, renewed: nat)
    requires Rested(s, k) && k < |s.slots| && a == Announced(s.slots[k], s.gen + 1, kind) && Written(fields, kind.desc) == renewed
    requires kind.reuse ==> s.gen > 0 && kind.desc == Current(s).desc && renewed == Base(s.kinds, |s.kinds|)
    ensures RestedSlot(StepsOf(a, fields, 5), s.gen + 1, kind, renewed)
    ensures StepsOf(a, fields, 5).mail.(acked := false) == Mail(s.gen + 1, kind.reuse, kind.skip, true, false)
  {
    ServeSlot(s.slots[k], s.gen, Current(s), Base(s.kinds, |s.kinds|), kind, fields, renewed);
  }

  lemma AnnounceServed(s: State, kind: Kind, from: nat) returns (t: State)
    requires Rested(s, from) && Unstamped(s) && Fits(s.kinds, kind, |s.slots|) && from <= |s.slots|
    ensures Halfway(s, t, kind, from)
    ensures forall k :: 0 <= k < from ==> t.slots[k] == Announced(s.slots[k], t.gen, kind)
  {
    NewBase(s, kind);
    var u := Announce(s, kind);
    ServeRest(u, from);
    t := u.(slots := ServedFrom(u.slots, u.fields, from));
    Onward(s, u, t);
    assert Current(t) == kind;
    forall k | from <= k < |s.slots| ensures RestedSlot(t.slots[k], t.gen, kind, Base(t.kinds, |t.kinds|)) && IsDone(t, k) {
      ServedAt(s, kind, k, u.slots[k], t.fields, Base(t.kinds, |t.kinds|));
    }
  }

  /** A dispatch that every worker keeps up with. */
  lemma CleanDispatch(s: State, kind: Kind) returns (t: State)
    requires Rested(s, 0) && Fits(s.kinds, kind, |s.slots|)
    ensures Reach(s, t) && Rested(t, 0) && t.kinds == s.kinds + [kind] && |t.slots| == |s.slots|
  {
    var u := AnnounceServed(s, kind, 0);
    JoinRest(u);
    t := u.(producer := Idle);
    Onward(s, u, t);
  }

  /** The first worker's share is collapsed, and the dispatch ends. */
  lemma CollapseAndLeave(s: State, kind: Kind) returns (t: State)
    requires |s.slots| > 0 && s.producer == Joining(0) && s.gen == |s.kinds| && Current(s) == kind && Cold(kind) && s.slots[0].claimed < s.gen
    requires Series(s.kinds, |s.slots|) && Written(s.fields, kind.desc) == Base(s.kinds, |s.kinds|)
    requires forall k :: 1 <= k < |s.slots| ==> RestedSlot(s.slots[k], s.gen, kind, Base(s.kinds, |s.kinds|)) && IsDone(s, k)
    ensures Reach(s, t) && Rested(t, 1) && t.kinds == s.kinds && t.gen == s.gen && t.fields == s.fields && |t.slots| == |s.slots|
    ensures t.slots[0] == Collapsed(s.slots[0], s.gen, Base(s.kinds, |s.kinds|), kind)
  {
    CollapseLeg(s);
    var u := s.(producer := Joining(1), slots := s.slots[0 := Collapsed(s.slots[0], s.gen, Base(s.kinds, |s.kinds|), kind)]);
    forall k | 1 <= k < |u.slots| ensures IsDone(u, k) {
      assert IsDone(s, k);
    }
    JoinRest(u);
    t := u.(producer := Idle);
    Onward(s, u, t);
  }

  /** A collapsible dispatch: the first worker takes `early` steps before its share is collapsed and `late` steps after. */
  function Straggled(s: Slot, g: nat, of: nat, kind: Kind, fields: map<Desc, nat>, early: nat, late: nat): Slot {
    StepsOf(Collapsed(StepsOf(Announced(s, g, kind), fields, early), g, of, kind), fields, late)
  }

  lemma EarlyLeg(s: State, kind: Kind, early: nat) returns (t: State)
    requires Rested(s, 1) && |s.slots| > 0 && !s.slots[0].stamped && Fits(s.kinds, kind, |s.slots|)
    ensures Halfway(s, t, kind, 1)
    ensures t.slots[0] == StepsOf(Announced(s.slots[0], s.gen + 1, kind), t.fields, early)
  {
    var u := AnnounceServed(s, kind, 1);
    WorkLeg(u, 0, early);
    t := u.(slots := u.slots[0 := StepsOf(u.slots[0], u.fields, early)]);
    Onward(s, u, t);
    forall k | 1 <= k < |t.slots| ensures IsDone(t, k) {
      assert IsDone(u, k);
    }
  }

  lemma Straggle(s: State, kind: Kind, early: nat, late: nat) returns (t: State)
    requires Rested(s, 1) && |s.slots| > 0 && !s.slots[0].stamped && Fits(s.kinds, kind, |s.slots|) && Cold(kind)
    requires StepsOf(Announced(s.slots[0], s.gen + 1, kind), NewFields(s, kind), early).claimed <= s.gen
    ensures Reach(s, t) && Rested(t, 1) && t.kinds == s.kinds + [kind] && t.gen == s.gen + 1 && |t.slots| == |s.slots| && t.fields == NewFields(s, kind)
    ensures t.slots[0] == Straggled(s.slots[0], t.gen, Base(t.kinds, |t.kinds|), kind, t.fields, early, late)
  {
    var u := EarlyLeg(s, kind, early);
    var v := CollapseAndLeave(u, kind);
    Onward(s, u, v);
    WorkLeg(v, 0, late);
    t := v.(slots := v.slots[0 := StepsOf(v.slots[0], v.fields, late)]);
    Onward(s, v, t);
  }

  // The worker that falls behind.

  /** It is about to acknowledge a repeated dispatch that was collapsed without being remembered. */
  predicate Pending(s: Slot, g: nat, kind: Kind, base: nat) {
    && s.worker == Acking(Mail(g, true, false, false, false)) && s.mail == Mail(g, true, false, true, false)
    && s.claimed == g && !s.stamped && !s.taken && s.cache == Holds(base, true) && base < g
  }

  lemma RepeatedSlot(s: Slot, g: nat, kind: Kind, base: nat, next: Kind, fields: map<Desc, nat>)
    requires RestedSlot(s, g, kind, base) && g > 0 && base <= g && Cold(next) && next.reuse && next.desc == kind.desc
    ensures StepsOf(Announced(s, g + 1, next), fields, 2).claimed <= g
    ensures Pending(Straggled(s, g + 1, base, next, fields, 2, 2), g + 1, next, base)
  {
    var a := Announced(s, g + 1, next);
    var b := WorkerStep(WorkerStep(a, fields), fields);
    assert StepsOf(a, fields, 2) == StepsOf(WorkerStep(a, fields), fields, 1) == b;
    var c := Collapsed(b, g + 1, base, next);
    assert StepsOf(c, fields, 2) == StepsOf(WorkerStep(c, fields), fields, 1) == WorkerStep(WorkerStep(c, fields), fields);
  }

  lemma Repeated(s: State, kind: Kind) returns (t: State)
    requires Rested(s, 0) && |s.slots| > 0 && Fits(s.kinds, kind, |s.slots|) && Cold(kind) && kind.reuse
    ensures Reach(s, t) && Rested(t, 1) && t.kinds == s.kinds + [kind] && |t.slots| == |s.slots|
    ensures Pending(t.slots[0], t.gen, kind, Base(t.kinds, |t.kinds|))
  {
    NewBase(s, kind);
    BaseAt(s.kinds, |s.kinds|);
    RepeatedSlot(s.slots[0], s.gen, Current(s), Base(s.kinds, |s.kinds|), kind, NewFields(s, kind));
    t := Straggle(s, kind, 2, 2);
  }

  /** It has acknowledged a dispatch it never saw, so that the producer's stamp failed; what it has cached is older. */
  predicate Lost(s: Slot, g: nat, desc: Desc) {
    && s.worker.Polling? && s.worker.last < g && s.mail == Mail(g, false, false, false, true)
    && s.claimed == g && !s.stamped && !s.taken && s.ptr == desc && desc.collapsible
    && s.cache.Holds? && s.cache.collapsible && s.cache.of < g
  }

  /** It holds the word of a dispatch the producer has left, and is about to read a descriptor. */
  predicate Groping(s: Slot, g: nat, desc: Desc) {
    && s.worker.Reading? && !s.worker.m.reuse && !s.worker.m.skip && 0 < s.worker.m.g <= g && s.mail.g == g
    && s.claimed == g && !s.stamped && !s.taken && s.ptr == desc && desc.collapsible
  }

  lemma FreshAfterPending(s: Slot, g: nat, kind: Kind, base: nat, next: Kind, fields: map<Desc, nat>)
    requires Pending(s, g, kind, base) && Cold(next) && !next.reuse
    ensures StepsOf(Announced(s, g + 1, next), fields, 1).claimed <= g
    ensures Lost(Straggled(s, g + 1, g + 1, next, fields, 1, 0), g + 1, next.desc)
  {
    assert StepsOf(Announced(s, g + 1, next), fields, 1) == WorkerStep(Announced(s, g + 1, next), fields);
  }

  lemma LostGropes(s: Slot, g: nat, desc: Desc, fields: map<Desc, nat>)
    requires Lost(s, g, desc)
    ensures Groping(StepsOf(s, fields, 1), g, desc)
  {
    assert StepsOf(s, fields, 1) == WorkerStep(s, fields);
  }

  /** The groping worker finds the claim taken, is overtaken by the next dispatch, and acknowledges that one. */
  lemma FreshAfterGroping(s: Slot, g: nat, desc: Desc, earlier: map<Desc, nat>, next: Kind, fields: map<Desc, nat>)
    requires Groping(s, g, desc) && Written(earlier, desc) <= g && Cold(next) && !next.reuse
    ensures var b := StepsOf(s, earlier, 2);
            && !b.stamped && StepsOf(Announced(b, g + 1, next), fields, 2).claimed <= g
            && Lost(Straggled(b, g + 1, g + 1, next, fields, 2, 0), g + 1, next.desc)
  {
    var b := WorkerStep(WorkerStep(s, earlier), earlier);
    assert StepsOf(s, earlier, 2) == StepsOf(WorkerStep(s, earlier), earlier, 1) == b;
    var a := Announced(b, g + 1, next);
    assert StepsOf(a, fields, 2) == StepsOf(WorkerStep(a, fields), fields, 1) == WorkerStep(WorkerStep(a, fields), fields);
  }

  lemma RepeatAfterGroping(s: Slot, g: nat, desc: Desc, base: nat, next: Kind, fields: map<Desc, nat>)
    requires Groping(s, g, desc) && Cold(next) && next.reuse && next.desc == desc
    ensures StepsOf(Announced(s, g + 1, next), fields, 0).claimed <= g
    ensures Groping(Straggled(s, g + 1, base, next, fields, 0, 0), g + 1, next.desc)
  {
  }

  /** All other workers are in step, the first one is lost. */
  predicate OneLost(s: State) {
    Rested(s, 1) && |s.slots| > 0 && Lost(s.slots[0], s.gen, Current(s).desc)
  }

  predicate OneGropes(s: State) {
    Rested(s, 1) && |s.slots| > 0 && Groping(s.slots[0], s.gen, Current(s).desc)
  }

  lemma Grope(s: State) returns (t: State)
    requires OneLost(s)
    ensures Reach(s, t) && OneGropes(t) && t.kinds == s.kinds && |t.slots| == |s.slots|
  {
    LostGropes(s.slots[0], s.gen, Current(s).desc, s.fields);
    WorkLeg(s, 0, 1);
    t := s.(slots := s.slots[0 := StepsOf(s.slots[0], s.fields, 1)]);
  }

  lemma RepeatGroping(s: State, kind: Kind) returns (t: State)
    requires OneGropes(s) && Fits(s.kinds, kind, |s.slots|) && Cold(kind) && kind.reuse
    ensures Reach(s, t) && OneGropes(t) && t.kinds == s.kinds + [kind] && |t.slots| == |s.slots|
  {
    NewBase(s, kind);
    RepeatAfterGroping(s.slots[0], s.gen, Current(s).desc, Base(s.kinds, |s.kinds|), kind, NewFields(s, kind));
    t := Straggle(s, kind, 0, 0);
  }

  /** Dispatch `kind` overtakes a first worker that ends up lost. */
  lemma FreshOvertakes(s: State, kind: Kind) returns (t: State)
    requires Rested(s, 1) && |s.slots| > 0 && !s.slots[0].stamped && Fits(s.kinds, kind, |s.slots|) && Cold(kind) && !kind.reuse
    requires StepsOf(Announced(s.slots[0], s.gen + 1, kind), NewFields(s, kind), 2).claimed <= s.gen
    requires Lost(Straggled(s.slots[0], s.gen + 1, s.gen + 1, kind, NewFields(s, kind), 2, 0), s.gen + 1, kind.desc)
    ensures Reach(s, t) && OneLost(t) && t.kinds == s.kinds + [kind] && |t.slots| == |s.slots|
  {
    NewBase(s, kind);
    t := Straggle(s, kind, 2, 0);
  }

  lemma RestedElsewhere(s: State, slot: Slot)
    requires Rested(s, 1) && |s.slots| > 0
    ensures Rested(s.(slots := s.slots[0 := slot]), 1)
  {
  }

  lemma FreshGroping(s: State, kind: Kind) returns (t: State)
    requires OneGropes(s) && Fits(s.kinds, kind, |s.slots|) && Cold(kind) && !kind.reuse
    ensures Reach(s, t) && OneLost(t) && t.kinds == s.kinds + [kind] && |t.slots| == |s.slots|
  {
    BaseAt(s.kinds, |s.kinds|);
    FreshAfterGroping(s.slots[0], s.gen, Current(s).desc, s.fields, kind, NewFields(s, kind));
    var u := s.(slots := s.slots[0 := StepsOf(s.slots[0], s.fields, 2)]);
    WorkLeg(s, 0, 2);
    RestedElsewhere(s, StepsOf(s.slots[0], s.fields, 2));
    t := FreshOvertakes(u, kind);
    Onward(s, u, t);
  }

  lemma FreshPending(s: State, kind: Kind) returns (t: State)
    requires Rested(s, 1) && |s.slots| > 0 && Pending(s.slots[0], s.gen, Current(s), Base(s.kinds, |s.kinds|))
    requires Fits(s.kinds, kind, |s.slots|) && Cold(kind) && !kind.reuse
    ensures Reach(s, t) && OneLost(t) && t.kinds == s.kinds + [kind] && |t.slots| == |s.slots|
  {
    NewBase(s, kind);
    FreshAfterPending(s.slots[0], s.gen, Current(s), Base(s.kinds, |s.kinds|), kind, NewFields(s, kind));
    t := Straggle(s, kind, 1, 0);
  }

  lemma FitsNext(ks: seq<Kind>, l: nat, n: nat)
    requires Series(ks, n) && l < |ks|
    ensures Fits(ks[..l], ks[l], n) && ks[..l] + [ks[l]] == ks[..l + 1]
  {
    assert InSeries(ks, l, n);
  }

  lemma {:induction false} CleanRun(n: nat, ks: seq<Kind>, i: nat) returns (t: State)
    requires Series(ks, n) && i <= |ks|
    ensures Reach(Start(n), t) && Rested(t, 0) && t.kinds == ks[..i] && |t.slots| == n
  {
    if i == 0 {
      t := Start(n);
      Self(t);
    } else {
      var s := CleanRun(n, ks, i - 1);
      FitsNext(ks, i - 1, n);
      t := CleanDispatch(s, ks[i - 1]);
      Onward(Start(n), s, t);
    }
  }

  /** Every stray can be played: it leaves the first worker lost, or groping if the last dispatch reuses parameters. */
  lemma {:induction false} StrayRun(n: nat, ks: seq<Kind>, i: nat, l: nat) returns (t: State)
    requires n > 0 && Series(ks, n) && Strays(ks, i, l)
    ensures Reach(Start(n), t) && t.kinds == ks[..l] && |t.slots| == n
    ensures if ks[l - 1].reuse then OneGropes(t) else OneLost(t)
    decreases l, 0
  {
    FitsNext(ks, l - 1, n);
    if l == i + 2 {
      var s := CleanRun(n, ks, i);
      FitsNext(ks, i, n);
      var u := Repeated(s, ks[i]);
      Onward(Start(n), s, u);
      t := FreshPending(u, ks[i + 1]);
      Onward(Start(n), u, t);
    } else {
      var u := StrayGropes(n, ks, i, l - 1);
      if ks[l - 1].reuse {
        t := RepeatGroping(u, ks[l - 1]);
      } else {
        t := FreshGroping(u, ks[l - 1]);
      }
      Onward(Start(n), u, t);
    }
  }

  lemma {:induction false} StrayGropes(n: nat, ks: seq<Kind>, i: nat, l: nat) returns (t: State)
    requires n > 0 && Series(ks, n) && Strays(ks, i, l)
    ensures Reach(Start(n), t) && t.kinds == ks[..l] && |t.slots| == n && OneGropes(t)
    decreases l, 1
  {
    t := StrayRun(n, ks, i, l);
    if !ks[l - 1].reuse {
      var s := t;
      t := Grope(s);
      Onward(Start(n), s, t);
    }
  }

  // What comes after a stray.

  /** A dispatch without reuse moves the descriptor pointer under the groping worker. */
  lemma PointerMoves(s: State, kind: Kind) returns (t: State)
    requires OneGropes(s) && Fits(s.kinds, kind, |s.slots|) && !kind.reuse
    ensures Reach(s, t) && t.kinds == s.kinds + [kind] && |t.slots| == |s.slots| && !ReadsRight(t, 0)
  {
    t := AnnounceServed(s, kind, 1);
    BaseAt(t.kinds, t.slots[0].worker.m.g);
  }

  /** A dispatch with reuse sends the lost worker to a cache that is too old. */
  lemma CacheTooOld(s: State, kind: Kind) returns (t: State)
    requires OneLost(s) && Fits(s.kinds, kind, |s.slots|) && kind.reuse && Base(s.kinds, |s.kinds|) == s.gen
    ensures Halfway(s, t, kind, 1) && t.slots[0].worker == Reading(t.slots[0].mail) && t.slots[0].mail.g == t.gen
    ensures t.slots[0].mail.reuse && t.slots[0].mail.skip == kind.skip && t.slots[0].claimed < t.gen
    ensures CollapsibleCache(t.slots[0]) && t.slots[0].cache.of < Base(t.kinds, |t.kinds|)
  {
    NewBase(s, kind);
    t := EarlyLeg(s, kind, 1);
    var a := Announced(s.slots[0], s.gen + 1, kind);
    assert StepsOf(a, t.fields, 1) == WorkerStep(a, t.fields);
  }

  lemma TooOldRuns(s: Slot, kind: Kind, fields: map<Desc, nat>) returns (c: nat)
    requires s.worker == Reading(s.mail) && s.mail.reuse && s.mail.skip == kind.skip && s.claimed < s.mail.g && CollapsibleCache(s)
    ensures StepsOf(s, fields, c).runs == s.runs + [Run(s.mail.g, s.cache.of)]
  {
    var b := WorkerStep(WorkerStep(s, fields), fields);
    assert StepsOf(s, fields, 2) == StepsOf(WorkerStep(s, fields), fields, 1) == b;
    assert StepsOf(s, fields, 3) == StepsOf(WorkerStep(s, fields), fields, 2) == StepsOf(b, fields, 1) == WorkerStep(b, fields);
    c := if kind.skip then 2 else 3;
  }

  /** The log of a participant that has gone wrong in its latest execution. */
  predicate WrongLast(ks: seq<Kind>, runs: seq<Run>) {
    runs != [] && var r := runs[|runs| - 1]; r.g <= |ks| && r.of != Base(ks, r.g)
  }

  lemma WrongNotDue(ks: seq<Kind>, runs: seq<Run>)
    requires WrongLast(ks, runs)
    ensures !(runs <= Due(ks))
  {
    var last := |runs| - 1;
    if last < |ks| {
      assert Due(ks)[last] == Run(last + 1, Base(ks, last + 1));
    }
  }

  /** The lost worker runs a repeated dispatch with the parameters of an older one. */
  lemma OldParameters(s: State, kind: Kind) returns (t: State)
    requires OneLost(s) && Fits(s.kinds, kind, |s.slots|) && kind.reuse && Base(s.kinds, |s.kinds|) == s.gen
    ensures Reach(s, t) && t.kinds == s.kinds + [kind] && |t.slots| == |s.slots| && WrongLast(t.kinds, t.slots[0].runs)
  {
    var u := CacheTooOld(s, kind);
    var c := TooOldRuns(u.slots[0], kind, u.fields);
    WorkLeg(u, 0, c);
    t := u.(slots := u.slots[0 := StepsOf(u.slots[0], u.fields, c)]);
    Onward(s, u, t);
  }

  /** The groping worker reads an uncollapsible descriptor, runs that dispatch's share and overwrites the mailbox. */
  lemma Overwrites(s: Slot, g: nat, desc: Desc, next: Kind, fields: map<Desc, nat>)
    requires Groping(s, g, desc) && !next.desc.collapsible && !next.reuse && !next.skip && Written(fields, next.desc) == g + 1
    ensures var t := StepsOf(Announced(s, g + 1, next), fields, 3);
            && t.runs == s.runs + [Run(s.worker.m.g, g + 1)] && Settled(t) && t.mail.g == s.worker.m.g
  {
    var a := Announced(s, g + 1, next);
    var b := WorkerStep(WorkerStep(a, fields), fields);
    assert StepsOf(a, fields, 3) == StepsOf(WorkerStep(a, fields), fields, 2) == StepsOf(b, fields, 1) == WorkerStep(b, fields);
  }

  lemma SettledStays(s: State, k: nat)
    requires k < |s.slots| && Settled(s.slots[k])
    ensures Apply(s, Work(k)) == s
  {
    assert s.slots[k := s.slots[k]] == s.slots;
  }

  /** After that the join waits for a word nobody will write. */
  lemma JoinHangs(s: State, kind: Kind) returns (t: State)
    requires OneGropes(s) && Fits(s.kinds, kind, |s.slots|) && !kind.desc.collapsible
    ensures Reach(s, t) && t.kinds == s.kinds + [kind] && |t.slots| == |s.slots|
    ensures WrongLast(t.kinds, t.slots[0].runs) && Dead(t)
  {
    NewBase(s, kind);
    Overwrites(s.slots[0], s.gen, Current(s).desc, kind, NewFields(s, kind));
    t := EarlyLeg(s, kind, 3);
    BaseAt(t.kinds, s.slots[0].worker.m.g);
    forall a | Enabled(t, a) ensures Apply(t, a) == t {
      if a.Work? {
        SettledStays(t, a.worker);
      }
    }
  }

  // The exact conditions.

  /** A run of n workers whose dispatches are the first of ks. */
  predicate Plays(n: nat, ks: seq<Kind>, run: seq<Action>) {
    Legal(Start(n), run) && Begins(run) <= ks
  }

  lemma PlayTo(n: nat, ks: seq<Kind>, t: State) returns (run: seq<Action>)
    requires Reach(Start(n), t) && t.kinds <= ks
    ensures Plays(n, ks, run) && Final(Start(n), run) == t && Begins(run) == t.kinds
  {
    run :| Legal(Start(n), run) && Final(Start(n), run) == t;
    KindsAreBegins(Start(n), run);
    assert [] + Begins(run) == Begins(run);
  }

  lemma StraysPrefix(ks: seq<Kind>, longer: seq<Kind>, i: nat, l: nat)
    requires ks <= longer && Strays(ks, i, l)
    ensures Strays(longer, i, l)
  {
  }

  lemma SafePrefix(ks: seq<Kind>, longer: seq<Kind>)
    requires ks <= longer
    ensures ReadsSafe(longer) ==> ReadsSafe(ks)
    ensures RunsSafe(longer) ==> RunsSafe(ks)
    ensures JoinsSafe(longer) ==> JoinsSafe(ks)
  {
    forall i: nat, l: nat | i < |ks| && l < |ks| && Strays(ks, i, l) ensures Strays(longer, i, l) && longer[l] == ks[l] {
      StraysPrefix(ks, longer, i, l);
    }
  }

  predicate ReadersRight(s: State) {
    forall k :: 0 <= k < |s.slots| ==> ReadsRight(s, k)
  }

  ghost predicate AllReadsRight(n: nat, ks: seq<Kind>) {
    forall run :: Plays(n, ks, run) ==> ReadersRight(Final(Start(n), run))
  }

  /** Nothing runs early, twice, out of order or with foreign parameters, and between dispatches nothing is missing. */
  predicate LogsRight(s: State, ks: seq<Kind>) {
    forall k :: 0 <= k < |s.slots| ==> s.slots[k].runs <= Due(ks) && (s.producer.Idle? ==> s.slots[k].runs == s.own == Due(ks))
  }

  ghost predicate AllLogsRight(n: nat, ks: seq<Kind>) {
    forall run :: Plays(n, ks, run) ==> LogsRight(Final(Start(n), run), Begins(run))
  }

  ghost predicate NeverDead(n: nat, ks: seq<Kind>) {
    forall run :: Plays(n, ks, run) ==> !Dead(Final(Start(n), run))
  }

  lemma UnsafeReads(n: nat, ks: seq<Kind>) returns (run: seq<Action>)
    requires n > 0 && Series(ks, n) && !ReadsSafe(ks)
    ensures Plays(n, ks, run) && !ReadersRight(Final(Start(n), run))
  {
    var i: nat, l: nat :| i < |ks| && l < |ks| && Strays(ks, i, l);
    var t;
    FitsNext(ks, i + 2, n);
    if ks[i + 2].reuse {
      var s := StrayRun(n, ks, i, i + 2);
      BaseAt(s.kinds, |s.kinds|);
      t := CacheTooOld(s, ks[i + 2]);
      Onward(Start(n), s, t);
    } else {
      var s := StrayGropes(n, ks, i, i + 2);
      t := PointerMoves(s, ks[i + 2]);
      Onward(Start(n), s, t);
    }
    run := PlayTo(n, ks, t);
    assert !ReadsRight(t, 0);
  }

  /**
   * Descriptor reads and cached parameters are right in every run on n workers if and only if no dispatch follows a
   * collapsible dispatch with parameters of its own that follows a collapsible one with reused parameters.
   */
  lemma DescriptorSafeIff(n: nat, ks: seq<Kind>)
    requires n > 0 && Series(ks, n)
    ensures ReadsSafe(ks) <==> AllReadsRight(n, ks)
  {
    if ReadsSafe(ks) {
      forall run | Plays(n, ks, run) ensures ReadersRight(Final(Start(n), run)) {
        SafePrefix(Begins(run), ks);
        RunReached(n, run);
        forall k: nat | k < n ensures ReadsRight(Final(Start(n), run), k) {
          ReadsAreRight(n, run, k);
        }
      }
    } else {
      var run := UnsafeReads(n, ks);
    }
  }

  /** Up to l a stray is followed by fresh collapsible dispatches; ks[l] is the first that is not. */
  lemma {:induction false} FirstOther(ks: seq<Kind>, i: nat, l: nat) returns (first: nat)
    requires Strays(ks, i, l) && l < |ks| && !(ks[l].desc.collapsible && !ks[l].reuse)
    ensures Strays(ks, i, first) && first < |ks| && !(ks[first].desc.collapsible && !ks[first].reuse) && !ks[first - 1].reuse
    decreases l
  {
    if ks[l - 1].reuse {
      first := FirstOther(ks, i, l - 1);
    } else {
      first := l;
    }
  }

  lemma WrongRun(n: nat, ks: seq<Kind>, t: State) returns (run: seq<Action>)
    requires n > 0 && Reach(Start(n), t) && t.kinds <= ks && |t.slots| == n && WrongLast(t.kinds, t.slots[0].runs)
    ensures Plays(n, ks, run) && !LogsRight(Final(Start(n), run), Begins(run))
  {
    run := PlayTo(n, ks, t);
    WrongNotDue(t.kinds, t.slots[0].runs);
  }

  lemma WrongState(n: nat, ks: seq<Kind>, i: nat, l: nat) returns (t: State)
    requires n > 0 && Series(ks, n) && Strays(ks, i, l) && l < |ks| && !ks[l - 1].reuse && !(ks[l].desc.collapsible && !ks[l].reuse)
    ensures Reach(Start(n), t) && t.kinds == ks[..l + 1] && |t.slots| == n && WrongLast(t.kinds, t.slots[0].runs)
  {
    FitsNext(ks, l, n);
    var s := StrayRun(n, ks, i, l);
    if ks[l].reuse {
      BaseAt(s.kinds, |s.kinds|);
      t := OldParameters(s, ks[l]);
      Onward(Start(n), s, t);
    } else {
      var u := Grope(s);
      Onward(Start(n), s, u);
      t := JoinHangs(u, ks[l]);
      Onward(Start(n), u, t);
    }
  }

  lemma UnsafeRuns(n: nat, ks: seq<Kind>) returns (run: seq<Action>)
    requires n > 0 && Series(ks, n) && !RunsSafe(ks)
    ensures Plays(n, ks, run) && !LogsRight(Final(Start(n), run), Begins(run))
  {
    var i: nat, l: nat :| i < |ks| && l < |ks| && Strays(ks, i, l) && !(ks[l].desc.collapsible && !ks[l].reuse);
    l := FirstOther(ks, i, l);
    var t := WrongState(n, ks, i, l);
    run := WrongRun(n, ks, t);
  }

  /**
   * In every run on n workers each share of each dispatch runs exactly once, in turn and with its own parameters, if
   * and only if what follows a stray is collapsible and brings parameters of its own.
   */
  lemma ExactlyOnceIff(n: nat, ks: seq<Kind>)
    requires n > 0 && Series(ks, n)
    ensures RunsSafe(ks) <==> AllLogsRight(n, ks)
  {
    if RunsSafe(ks) {
      forall run | Plays(n, ks, run) ensures LogsRight(Final(Start(n), run), Begins(run)) {
        SafePrefix(Begins(run), ks);
        var s := Final(Start(n), run);
        RunReached(n, run);
        forall k: nat | k < |s.slots| ensures s.slots[k].runs <= Due(Begins(run)) && (s.producer.Idle? ==> s.slots[k].runs == s.own == Due(Begins(run))) {
          NeverTwice(n, run, k);
          if s.producer.Idle? {
            JoinComplete(n, run, k);
          }
        }
      }
    } else {
      var run := UnsafeRuns(n, ks);
    }
  }

  lemma UnsafeJoins(n: nat, ks: seq<Kind>) returns (run: seq<Action>)
    requires n > 0 && Series(ks, n) && !JoinsSafe(ks)
    ensures Plays(n, ks, run) && Dead(Final(Start(n), run))
  {
    var i: nat, l: nat :| i < |ks| && l < |ks| && Strays(ks, i, l) && !ks[l].desc.collapsible;
    FitsNext(ks, l, n);
    var s := StrayGropes(n, ks, i, l);
    var t := JoinHangs(s, ks[l]);
    Onward(Start(n), s, t);
    run := PlayTo(n, ks, t);
  }

  /** No run on n workers ever comes to a standstill inside a dispatch if and only if what follows a stray is collapsible. */
  lemma NeverDeadIff(n: nat, ks: seq<Kind>)
    requires n > 0 && Series(ks, n)
    ensures JoinsSafe(ks) <==> NeverDead(n, ks)
  {
    if JoinsSafe(ks) {
      forall run | Plays(n, ks, run) ensures !Dead(Final(Start(n), run)) {
        SafePrefix(Begins(run), ks);
        RunReached(n, run);
        NotDead(Final(Start(n), run));
      }
    } else {
      var run := UnsafeJoins(n, ks);
    }
  }

  /** A parallel loop, the same loop again, another loop, a reduction. */
  function FourKinds(): seq<Kind> {
    var loop := Desc(0, true);
    [Kind(loop, false, false), Kind(loop, true, false), Kind(loop, false, false), Kind(Desc(1, false), false, false)]
  }

  /** The four dispatches are begun, the first worker runs the reduction for the third, and the join never returns. */
  lemma FourDispatchesHang(n: nat) returns (run: seq<Action>)
    requires n > 0
    ensures Legal(Start(n), run) && Begins(run) == FourKinds() && |Final(Start(n), run).slots| == n
    ensures Dead(Final(Start(n), run)) && WrongLast(Begins(run), Final(Start(n), run).slots[0].runs)
  {
    var ks := FourKinds();
    assert Strays(ks, 1, 3) && Series(ks, n);
    var s := StrayGropes(n, ks, 1, 3);
    FitsNext(ks, 3, n);
    var t := JoinHangs(s, ks[3]);
    Onward(Start(n), s, t);
    assert t.kinds == ks;
    run := PlayTo(n, ks, t);
  }
}
