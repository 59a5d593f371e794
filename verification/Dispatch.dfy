/**
 * One dispatch after another through the workers' mailboxes: publish, run, acknowledge, join. The producer may run a
 * late worker's share itself (cold collapse); producer and worker then race for the share and for the mailbox.
 */
module Dispatch {

  /** A job descriptor. Only those of the typed parallel loops carry the worker array that lets shares be collapsed. */
  datatype Desc = Desc(id: nat, collapsible: bool)

  /**
   * How a dispatch is published. `reuse`: its parameters are those of the previous dispatch, so workers do not read
   * the descriptor. `skip`: shares of a collapsible descriptor are not claimed this time.
   */
  datatype Kind = Kind(desc: Desc, reuse: bool, skip: bool)

  /** The producer may run shares of workers that are late. */
  predicate Cold(kind: Kind) {
    kind.desc.collapsible && !kind.skip
  }

  /** The engine reuses only the descriptor published last, and skips claims only with at least two workers. */
  predicate InSeries(ks: seq<Kind>, l: nat, n: nat)
    requires l < |ks|
  {
    && (ks[l].reuse ==> l > 0 && ks[l - 1].desc == ks[l].desc)
    && (ks[l].skip ==> ks[l].desc.collapsible && n >= 2)
  }

  predicate Fits(ks: seq<Kind>, kind: Kind, n: nat) {
    InSeries(ks + [kind], |ks|, n)
  }

  /** A mailbox word: the dispatch it announces, its two flags, the DONE bit and the ACKED bit. */
  datatype Mail = Mail(g: nat, reuse: bool, skip: bool, done: bool, acked: bool)

  /** What a worker keeps from its latest descriptor read: the dispatch whose parameters they are, and their kind. */
  datatype Cache = Empty | Holds(of: nat, collapsible: bool)

  /** Where a worker stands. `m` is the word it loaded; `last` the latest dispatch it has dealt with. */
  datatype Worker = Polling(last: nat) | Reading(m: Mail) | Claiming(m: Mail) | Running(m: Mail) | Stamping(m: Mail) | Acking(m: Mail)

  /** One execution of a share: the dispatch it was done for, and the dispatch whose parameters it used. */
  datatype Run = Run(g: nat, of: nat)

  /**
   * All that concerns one worker: mailbox, the descriptor pointer beside it, the worker's cache, the claim word, the
   * worker, the executions of its share, whether the producer is executing that share right now, and whether the
   * producer remembers having stamped the mailbox.
   */
  datatype Slot = Slot(mail: Mail, ptr: Desc, cache: Cache, claimed: nat, worker: Worker, runs: seq<Run>, taken: bool, stamped: bool)

  // One worker's side.

  /** The dispatch a descriptor was last written for. */
  function Written(fields: map<Desc, nat>, d: Desc): nat {
    if d in fields then fields[d] else 0
  }

  /** The parameters a worker with word m goes on with: its cache when they are reused, else what it finds. */
  function Found(s: Slot, m: Mail, fields: map<Desc, nat>): Cache {
    if m.reuse && s.cache.Holds? then s.cache else Holds(Written(fields, s.ptr), s.ptr.collapsible)
  }

  /** The worker treats word m as that of a collapsible dispatch. The word itself does not say. */
  predicate Claims(cache: Cache, m: Mail) {
    cache.Holds? && cache.collapsible && !m.skip
  }

  function Of(cache: Cache): nat {
    if cache.Holds? then cache.of else 0
  }

  function WorkerStep(s: Slot, fields: map<Desc, nat>): Slot {
    match s.worker
    case Polling(last) => if s.mail.g != last then s.(worker := Reading(s.mail)) else s
    case Reading(m) =>
      var cache := Found(s, m, fields);
      s.(cache := cache, worker := if Claims(cache, m) then Claiming(m) else Running(m))
    case Claiming(m) =>
      // Compare-and-swap on the claim word: the first to raise it to this dispatch runs the share.
      if s.claimed < m.g then s.(claimed := m.g, worker := Running(m)) else s.(worker := Stamping(m))
    case Running(m) => s.(runs := s.runs + [Run(m.g, Of(s.cache))], worker := Stamping(m))
    case Stamping(m) =>
      if !Claims(s.cache, m) then s.(mail := m.(done := true), worker := Polling(m.g))
      else if s.mail == m then s.(mail := m.(done := true, acked := true), worker := Polling(m.g))
      else s.(worker := Acking(m))
    case Acking(m) => s.(mail := s.mail.(acked := true), worker := Polling(m.g))
  }

  // The producer's side.

  function Point(s: Slot, kind: Kind): Slot {
    s.(ptr := kind.desc)
  }

  function Publish(s: Slot, g: nat, kind: Kind): Slot {
    s.(mail := Mail(g, kind.reuse, kind.skip, false, false))
  }

  function Take(s: Slot, g: nat): Slot {
    s.(claimed := g, taken := true)
  }

  function RunTaken(s: Slot, g: nat, of: nat): Slot {
    s.(runs := s.runs + [Run(g, of)], taken := false)
  }

  /** Compare-and-swap from the published word to the done word; only a dispatch without reuse remembers the stamp. */
  function Stamp(s: Slot, g: nat, kind: Kind): Slot {
    if s.mail == Mail(g, kind.reuse, kind.skip, false, false) then s.(mail := s.mail.(done := true), stamped := s.stamped || !kind.reuse) else s
  }

  function Forget(s: Slot): Slot {
    s.(stamped := false)
  }

  // The whole pool.

  /** Between dispatches, or inside one; `i` is the worker whose slot is being handled. */
  datatype Producer =
    | Idle
    | Draining
    | Writing
    | Gating
    | Publishing(i: nat, pointed: bool)
    | OwnShare
    | Joining(i: nat)
    | Collapsing(i: nat)
    | CollapseStamp(i: nat)

  /**
   * `gen` is the latest published dispatch, `kinds` what the dispatches begun so far are, `fields` the contents of the
   * descriptors, `own` the executions of the producer's own share.
   */
  datatype State = State(gen: nat, kinds: seq<Kind>, fields: map<Desc, nat>, producer: Producer, slots: seq<Slot>, own: seq<Run>)

  datatype Action = Begin(kind: Kind) | Acknowledged(worker: nat) | ProducerStep | TakeShare | Work(worker: nat)

  /** What stands for a dispatch before the first. */
  function Nothing(): Kind {
    Kind(Desc(0, false), false, false)
  }

  function Fresh(): Slot {
    Slot(Mail(0, false, false, true, false), Nothing().desc, Empty, 0, Polling(0), [], false, false)
  }

  function Start(n: nat): State {
    State(0, [], map[], Idle, seq(n, _ => Fresh()), [])
  }

  function KindAt(ks: seq<Kind>, g: nat): Kind
    requires g <= |ks|
  {
    if g == 0 then Nothing() else ks[g - 1]
  }

  /** The dispatch in progress, or the latest one. */
  function Current(s: State): Kind {
    KindAt(s.kinds, |s.kinds|)
  }

  predicate Enabled(s: State, a: Action) {
    match a
    case Begin(kind) => s.producer.Idle? && Fits(s.kinds, kind, |s.slots|)
    case Acknowledged(k) => (s.producer.Draining? || s.producer.Gating?) && k < |s.slots| && s.slots[k].stamped && s.slots[k].mail.acked
    case ProducerStep =>
      (match s.producer
       case Idle => false
       case Draining => forall k :: 0 <= k < |s.slots| ==> !s.slots[k].stamped
       case Gating => forall k :: 0 <= k < |s.slots| ==> !s.slots[k].stamped
       case Joining(i) => i < |s.slots| ==> s.slots[i].mail.(acked := false) == Mail(s.gen, Current(s).reuse, Current(s).skip, true, false)
       case Collapsing(i) => i < |s.slots|
       case CollapseStamp(i) => i < |s.slots|
       case _ => true)
    case TakeShare => s.producer.Joining? && Cold(Current(s)) && s.producer.i < |s.slots| && s.slots[s.producer.i].claimed < s.gen
    case Work(k) => k < |s.slots|
  }

  /** Acknowledgements are awaited before the descriptor of a collapsible loop is written, and before any publication. */
  function ProducerNext(s: State): (r: State)
    requires Enabled(s, ProducerStep)
    ensures |r.slots| == |s.slots| && r.kinds == s.kinds
  {
    var kind := Current(s);
    match s.producer
    case Draining => s.(producer := if kind.reuse then Gating else Writing)
    case Writing => s.(producer := Gating, fields := s.fields[kind.desc := s.gen + 1])
    case Gating => s.(producer := Publishing(0, false), gen := s.gen + 1)
    case Publishing(i, pointed) =>
      if i >= |s.slots| then s.(producer := OwnShare)
      else if !pointed && !kind.reuse then s.(slots := s.slots[i := Point(s.slots[i], kind)], producer := Publishing(i, true))
      else s.(slots := s.slots[i := Publish(s.slots[i], s.gen, kind)], producer := Publishing(i + 1, false))
    case OwnShare => s.(own := s.own + [Run(s.gen, Written(s.fields, kind.desc))], producer := Joining(0))
    case Joining(i) => if i < |s.slots| then s.(producer := Joining(i + 1)) else s.(producer := Idle)
    case Collapsing(i) => s.(slots := s.slots[i := RunTaken(s.slots[i], s.gen, Written(s.fields, kind.desc))], producer := CollapseStamp(i))
    case CollapseStamp(i) => s.(slots := s.slots[i := Stamp(s.slots[i], s.gen, kind)], producer := Joining(i + 1))
  }

  function Apply(s: State, a: Action): (r: State)
    requires Enabled(s, a)
    ensures |r.slots| == |s.slots|
  {
    match a
    case Begin(kind) =>
      s.(kinds := s.kinds + [kind], producer := if kind.desc.collapsible then Draining else if kind.reuse then Gating else Writing)
    case Acknowledged(k) => s.(slots := s.slots[k := Forget(s.slots[k])])
    case ProducerStep => ProducerNext(s)
    case TakeShare => s.(slots := s.slots[s.producer.i := Take(s.slots[s.producer.i], s.gen)], producer := Collapsing(s.producer.i))
    case Work(k) => s.(slots := s.slots[k := WorkerStep(s.slots[k], s.fields)])
  }

  predicate Legal(s: State, run: seq<Action>)
    decreases |run|
  {
    run == [] || (Enabled(s, run[0]) && Legal(Apply(s, run[0]), run[1..]))
  }

  function Final(s: State, run: seq<Action>): State
    requires Legal(s, run)
    decreases |run|
  {
    if run == [] then s else Final(Apply(s, run[0]), run[1..])
  }

  // What a series of dispatches can do to a worker.

  /**
   * InStep: no worker is behind when the next dispatch is published. Trailing: one may be, by dispatches that all
   * repeat the same parameters. Overtaken: one may be, by a dispatch that brought parameters of its own.
   */
  datatype Lag = InStep | Trailing | Overtaken

  function After(lag: Lag, kind: Kind): Lag {
    if !Cold(kind) then InStep
    else if kind.reuse then (if lag.Overtaken? then Overtaken else Trailing)
    else if lag.InStep? then InStep else Overtaken
  }

  /** After the first g dispatches. */
  function LagAt(ks: seq<Kind>, g: nat): Lag
    requires g <= |ks|
  {
    if g == 0 then InStep else After(LagAt(ks, g - 1), ks[g - 1])
  }

  /** Just before dispatch g. */
  function LagBefore(ks: seq<Kind>, g: nat): Lag
    requires g <= |ks|
  {
    if g == 0 then InStep else LagAt(ks, g - 1)
  }

  /** The dispatch whose parameters dispatch g repeats. */
  function Base(ks: seq<Kind>, g: nat): nat
    requires g <= |ks|
  {
    if g == 0 then 0 else if ks[g - 1].reuse then Base(ks, g - 1) else g
  }

  lemma {:induction false} Prefixes(ks: seq<Kind>, longer: seq<Kind>, g: nat)
    requires ks <= longer && g <= |ks|
    ensures LagAt(longer, g) == LagAt(ks, g) && Base(longer, g) == Base(ks, g) && KindAt(longer, g) == KindAt(ks, g)
    ensures LagBefore(longer, g) == LagBefore(ks, g)
  {
    if g > 0 {
      Prefixes(ks, longer, g - 1);
    }
  }

  // What every reachable slot keeps as long as no worker finds the descriptor of an uncollapsible dispatch by mistake.
  // `kind` is the dispatch in the mailbox, `before` the lag when it was published.

  predicate ShareDone(s: Slot) {
    |s.runs| == s.mail.g
  }

  predicate Settled(s: Slot) {
    s.worker == Polling(s.mail.g)
  }

  predicate Late(s: Slot) {
    if s.worker.Polling? then s.worker.last < s.mail.g else s.worker.m.g < s.mail.g
  }

  /** The dispatch of word m is collapsible; older words are only ever held for such dispatches. */
  predicate ColdWord(s: Slot, kind: Kind, m: Mail) {
    m.g == s.mail.g ==> Cold(kind)
  }

  predicate HeldOk(s: Slot, before: Lag, m: Mail) {
    && m.g <= s.mail.g
    && (m.g < s.mail.g ==> !m.skip && m.g <= s.claimed && !before.InStep?)
    && (m.g == s.mail.g ==> m == s.mail.(done := m.done) && (m.done ==> s.mail.done))
  }

  predicate CollapsibleCache(s: Slot) {
    s.cache.Holds? && s.cache.collapsible
  }

  /** What the worker's cache says of the descriptor in the mailbox is right. */
  predicate CacheFits(s: Slot, kind: Kind) {
    s.cache.Holds? && s.cache.collapsible == kind.desc.collapsible
  }

  predicate PollingOk(s: Slot, kind: Kind, before: Lag, last: nat) {
    && last <= s.mail.g
    && (last == s.mail.g ==> s.mail.done && (Cold(kind) ==> s.mail.acked) && (last > 0 ==> CacheFits(s, kind)))
    && (last < s.mail.g && kind.reuse ==> CacheFits(s, kind))
    && (last < s.mail.g && !before.InStep? ==> CollapsibleCache(s))
    && (last + 1 < s.mail.g ==> !before.InStep?)
  }

  predicate ReadingOk(s: Slot, kind: Kind, before: Lag, m: Mail) {
    && HeldOk(s, before, m)
    && (m.g == s.mail.g && !Cold(kind) ==> !s.mail.done && !ShareDone(s))
    && (m.g < s.mail.g && !m.reuse ==> before.Overtaken?)
    && (m.g == s.mail.g && m.reuse ==> CacheFits(s, kind))
    && (!before.InStep? ==> CollapsibleCache(s))
  }

  /** Past the read: the worker takes its dispatch for what it is. */
  predicate KnowsKind(s: Slot, kind: Kind, m: Mail) {
    s.cache.Holds? && (s.cache.collapsible <==> m.g < s.mail.g || kind.desc.collapsible)
  }

  predicate WorkerOk(s: Slot, kind: Kind, before: Lag) {
    match s.worker
    case Polling(last) => PollingOk(s, kind, before, last)
    case Reading(m) => ReadingOk(s, kind, before, m)
    case Claiming(m) => HeldOk(s, before, m) && KnowsKind(s, kind, m) && ColdWord(s, kind, m)
    case Running(m) => HeldOk(s, before, m) && KnowsKind(s, kind, m) && m.g == s.mail.g && !s.mail.done && !ShareDone(s) && (Cold(kind) ==> s.claimed == m.g && !s.taken)
    case Stamping(m) => HeldOk(s, before, m) && KnowsKind(s, kind, m) && (m.g == s.mail.g ==> if Cold(kind) then s.claimed == m.g else !s.mail.done && ShareDone(s))
    case Acking(m) => HeldOk(s, before, m) && KnowsKind(s, kind, m) && ColdWord(s, kind, m) && (m.g == s.mail.g ==> s.mail.done)
  }

  /** Whose turn the announced share is. */
  predicate ShareOk(s: Slot, kind: Kind) {
    if Cold(kind) then
      if s.claimed < s.mail.g then !ShareDone(s) && !s.mail.done && !s.taken
      else ShareDone(s) <==> !s.worker.Running? && !s.taken
    else
      !s.taken && (s.mail.done ==> ShareDone(s)) && (Late(s) ==> !ShareDone(s))
  }

  /** When no worker was behind, an acknowledgement is that of the announced dispatch, and so is a remembered stamp. */
  predicate AckOk(s: Slot, kind: Kind, before: Lag) {
    && (s.mail.acked && before.InStep? ==> Settled(s))
    && (s.mail.done && Cold(kind) && !kind.reuse && before.InStep? ==> s.stamped || s.mail.acked)
    && (s.stamped ==> Cold(kind) && !kind.reuse && s.mail.done)
  }

  /** A worker that will read the descriptor finds one that is as collapsible as its own. */
  predicate PointerOk(s: Slot, kind: Kind) {
    && (s.worker.Reading? && !s.worker.m.reuse ==> s.ptr.collapsible == kind.desc.collapsible)
    && (!kind.reuse && Late(s) ==> s.ptr.collapsible == kind.desc.collapsible)
    && (s.worker.Reading? && s.worker.m.g < s.mail.g && !s.worker.m.reuse ==> kind.desc.collapsible)
  }

  /** Every dispatch was run in turn, each once, up to the latest run. */
  predicate InTurn(runs: seq<Run>) {
    forall i :: 0 <= i < |runs| ==> runs[i].g == i + 1
  }

  predicate SlotOk(s: Slot, kind: Kind, before: Lag) {
    && s.mail.reuse == kind.reuse && s.mail.skip == kind.skip && (kind.reuse && !before.InStep? ==> kind.desc.collapsible)
    && (s.mail.g == 0 ==> kind == Nothing())
    && s.mail.g <= |s.runs| + 1 && |s.runs| <= s.mail.g && InTurn(s.runs)
    && s.claimed <= s.mail.g
    && WorkerOk(s, kind, before) && ShareOk(s, kind) && AckOk(s, kind, before) && PointerOk(s, kind)
  }

  lemma PollingKeeps(s: Slot, kind: Kind, before: Lag, fields: map<Desc, nat>)
    requires SlotOk(s, kind, before) && s.worker.Polling?
    ensures SlotOk(WorkerStep(s, fields), kind, before)
  {
  }

  lemma ReadingKeeps(s: Slot, kind: Kind, before: Lag, fields: map<Desc, nat>)
    requires SlotOk(s, kind, before) && s.worker.Reading?
    ensures SlotOk(WorkerStep(s, fields), kind, before)
  {
  }

  lemma ClaimingKeeps(s: Slot, kind: Kind, before: Lag, fields: map<Desc, nat>)
    requires SlotOk(s, kind, before) && (s.worker.Claiming? || s.worker.Running?)
    ensures SlotOk(WorkerStep(s, fields), kind, before)
  {
  }

  lemma StampingKeeps(s: Slot, kind: Kind, before: Lag, fields: map<Desc, nat>)
    requires SlotOk(s, kind, before) && s.worker.Stamping?
    ensures SlotOk(WorkerStep(s, fields), kind, before)
  {
  }

  lemma AckingKeeps(s: Slot, kind: Kind, before: Lag, fields: map<Desc, nat>)
    requires SlotOk(s, kind, before) && s.worker.Acking?
    ensures SlotOk(WorkerStep(s, fields), kind, before)
  {
  }

  lemma WorkerStepKeeps(s: Slot, kind: Kind, before: Lag, fields: map<Desc, nat>)
    requires SlotOk(s, kind, before)
    ensures SlotOk(WorkerStep(s, fields), kind, before)
  {
    match s.worker
    case Polling(_) => PollingKeeps(s, kind, before, fields);
    case Reading(_) => ReadingKeeps(s, kind, before, fields);
    case Stamping(_) => StampingKeeps(s, kind, before, fields);
    case Acking(_) => AckingKeeps(s, kind, before, fields);
    case _ => ClaimingKeeps(s, kind, before, fields);
  }

  // Leaving a slot, and coming back to it with the next dispatch.

  /** The share has run, and an uncollapsible dispatch has been acknowledged. */
  predicate Passed(s: Slot, kind: Kind) {
    ShareDone(s) && !s.taken && (Cold(kind) || s.mail.done)
  }

  /** The producer may leave a slot: the worker may stay behind only after reuse, or while its stamp is remembered. */
  predicate Left(s: Slot, kind: Kind, before: Lag) {
    Passed(s, kind) && (After(before, kind).InStep? ==> Settled(s) || s.stamped)
  }

  lemma WorkerStepLeaves(s: Slot, kind: Kind, before: Lag, fields: map<Desc, nat>)
    requires SlotOk(s, kind, before) && Left(s, kind, before)
    ensures Left(WorkerStep(s, fields), kind, before)
  {
  }

  lemma DoneLeaves(s: Slot, kind: Kind, before: Lag)
    requires SlotOk(s, kind, before) && !s.taken && s.mail.done
    ensures Left(s, kind, before)
  {
  }

  /** Dispatch `next` may follow `kind` without a worker mistaking a descriptor. */
  predicate Follows(kind: Kind, before: Lag, next: Kind) {
    && (next.reuse ==> next.desc == kind.desc)
    && (After(before, kind).Overtaken? ==> next.desc.collapsible)
  }

  lemma PointKeeps(s: Slot, kind: Kind, before: Lag, next: Kind)
    requires SlotOk(s, kind, before) && Left(s, kind, before) && !s.stamped && Follows(kind, before, next)
    ensures SlotOk(Point(s, next), kind, before) && Left(Point(s, next), kind, before)
  {
  }

  lemma PublishKeeps(s: Slot, kind: Kind, before: Lag, next: Kind)
    requires SlotOk(s, kind, before) && Left(s, kind, before) && !s.stamped && Follows(kind, before, next)
    requires next.reuse || s.ptr == next.desc
    requires next.reuse ==> s.mail.g > 0
    ensures SlotOk(Publish(s, s.mail.g + 1, next), next, After(before, kind)) && !Publish(s, s.mail.g + 1, next).taken
  {
  }

  lemma TakeKeeps(s: Slot, kind: Kind, before: Lag)
    requires SlotOk(s, kind, before) && Cold(kind) && s.claimed < s.mail.g
    ensures SlotOk(Take(s, s.mail.g), kind, before)
  {
  }

  lemma RunTakenKeeps(s: Slot, kind: Kind, before: Lag, of: nat)
    requires SlotOk(s, kind, before) && s.taken
    ensures SlotOk(RunTaken(s, s.mail.g, of), kind, before) && Passed(RunTaken(s, s.mail.g, of), kind)
  {
  }

  lemma StampKeeps(s: Slot, kind: Kind, before: Lag)
    requires SlotOk(s, kind, before) && Passed(s, kind) && Cold(kind)
    ensures SlotOk(Stamp(s, s.mail.g, kind), kind, before) && Left(Stamp(s, s.mail.g, kind), kind, before)
  {
  }

  lemma ForgetKeeps(s: Slot, kind: Kind, before: Lag)
    requires SlotOk(s, kind, before) && s.stamped && s.mail.acked
    ensures SlotOk(Forget(s), kind, before)
    ensures Left(s, kind, before) ==> Left(Forget(s), kind, before)
  {
  }

  // The same for the whole pool.

  /** Each of these dispatches was allowed to follow the ones before it on n workers. */
  predicate Series(ks: seq<Kind>, n: nat) {
    forall l :: 0 <= l < |ks| ==> InSeries(ks, l, n)
  }

  /** No uncollapsible dispatch comes while a worker may be overtaken. */
  predicate Guarded(ks: seq<Kind>) {
    forall l :: 0 <= l < |ks| && LagAt(ks, l).Overtaken? ==> ks[l].desc.collapsible
  }

  /** What the producer's position says about slot k; `next` is the dispatch in progress. */
  predicate PhaseOk(p: Producer, gen: nat, k: nat, s: Slot, kind: Kind, before: Lag, next: Kind) {
    match p
    case Idle => s.mail.g == gen && Left(s, kind, before)
    case Draining => s.mail.g == gen && Left(s, kind, before)
    case Writing => s.mail.g == gen && Left(s, kind, before) && (next.desc.collapsible ==> !s.stamped)
    case Gating => s.mail.g == gen && Left(s, kind, before) && (next.desc.collapsible ==> !s.stamped)
    case Publishing(i, pointed) =>
      if k < i then s.mail.g == gen && !s.taken
      else s.mail.g + 1 == gen && Left(s, kind, before) && !s.stamped && (k == i && pointed ==> s.ptr == next.desc)
    case OwnShare => s.mail.g == gen && !s.taken
    case Joining(i) => s.mail.g == gen && if k < i then Left(s, kind, before) else !s.taken
    case Collapsing(i) => Cold(next) && s.mail.g == gen && if k < i then Left(s, kind, before) else s.taken == (k == i)
    case CollapseStamp(i) => Cold(next) && s.mail.g == gen && if k < i then Left(s, kind, before) else if k == i then Passed(s, kind) else !s.taken
  }

  predicate CounterOk(s: State) {
    match s.producer
    case Idle => |s.kinds| == s.gen == |s.own|
    case Draining => |s.kinds| == s.gen + 1 == |s.own| + 1
    case Writing => |s.kinds| == s.gen + 1 == |s.own| + 1 && !Current(s).reuse
    case Gating => |s.kinds| == s.gen + 1 == |s.own| + 1
    case Publishing(i, _) => i <= |s.slots| && |s.kinds| == s.gen == |s.own| + 1
    case OwnShare => |s.kinds| == s.gen == |s.own| + 1
    case Joining(i) => i <= |s.slots| && |s.kinds| == s.gen == |s.own|
    case Collapsing(i) => i < |s.slots| && |s.kinds| == s.gen == |s.own|
    case CollapseStamp(i) => i < |s.slots| && |s.kinds| == s.gen == |s.own|
  }

  /** Slot k and the producer's position, after a step that turned the slot into t. */
  predicate SlotAt(ks: seq<Kind>, p: Producer, gen: nat, k: nat, t: Slot) {
    && t.mail.g <= |ks|
    && SlotOk(t, KindAt(ks, t.mail.g), LagBefore(ks, t.mail.g))
    && PhaseOk(p, gen, k, t, KindAt(ks, t.mail.g), LagBefore(ks, t.mail.g), KindAt(ks, |ks|))
  }

  predicate Sound(s: State) {
    && CounterOk(s) && Series(s.kinds, |s.slots|) && InTurn(s.own)
    && forall k :: 0 <= k < |s.slots| ==> SlotAt(s.kinds, s.producer, s.gen, k, s.slots[k])
  }

  lemma StartSound(n: nat)
    ensures Sound(Start(n))
  {
  }

  lemma WorkerStepPhase(p: Producer, gen: nat, k: nat, s: Slot, kind: Kind, before: Lag, next: Kind, fields: map<Desc, nat>)
    requires SlotOk(s, kind, before) && PhaseOk(p, gen, k, s, kind, before, next)
    requires s.mail.g == WorkerStep(s, fields).mail.g
    ensures PhaseOk(p, gen, k, WorkerStep(s, fields), kind, before, next)
  {
    if Left(s, kind, before) {
      WorkerStepLeaves(s, kind, before, fields);
    }
  }

  lemma MailStays(s: Slot, kind: Kind, before: Lag, fields: map<Desc, nat>)
    requires SlotOk(s, kind, before)
    ensures WorkerStep(s, fields).mail.g == s.mail.g
  {
  }

  lemma StampStays(s: Slot, kind: Kind, before: Lag, fields: map<Desc, nat>)
    requires SlotOk(s, kind, before)
    ensures WorkerStep(s, fields).stamped == s.stamped && WorkerStep(s, fields).ptr == s.ptr
  {
  }

  lemma WorkSound(s: State, k: nat)
    requires Sound(s) && k < |s.slots|
    ensures Sound(Apply(s, Work(k)))
  {
    var slot := s.slots[k];
    var kind, before := KindAt(s.kinds, slot.mail.g), LagBefore(s.kinds, slot.mail.g);
    MailStays(slot, kind, before, s.fields);
    WorkerStepKeeps(slot, kind, before, s.fields);
    WorkerStepPhase(s.producer, s.gen, k, slot, kind, before, Current(s), s.fields);
  }

  lemma FollowsAt(s: State, g: nat)
    requires Series(s.kinds, |s.slots|) && Guarded(s.kinds) && g < |s.kinds|
    ensures Follows(KindAt(s.kinds, g), LagBefore(s.kinds, g), KindAt(s.kinds, g + 1))
    ensures LagBefore(s.kinds, g + 1) == After(LagBefore(s.kinds, g), KindAt(s.kinds, g))
    ensures KindAt(s.kinds, g + 1).reuse ==> g > 0
  {
    assert LagAt(s.kinds, g) == After(LagBefore(s.kinds, g), KindAt(s.kinds, g));
    assert InSeries(s.kinds, g, |s.slots|);
  }

  lemma PointingSlot(s: State)
    requires Sound(s) && Guarded(s.kinds) && s.producer.Publishing? && s.producer.i < |s.slots| && !Current(s).reuse
    ensures SlotAt(s.kinds, Publishing(s.producer.i, true), s.gen, s.producer.i, Point(s.slots[s.producer.i], Current(s)))
  {
    var slot, g := s.slots[s.producer.i], s.slots[s.producer.i].mail.g;
    FollowsAt(s, g);
    PointKeeps(slot, KindAt(s.kinds, g), LagBefore(s.kinds, g), Current(s));
  }

  lemma AnnouncingSlot(s: State)
    requires Sound(s) && Guarded(s.kinds) && s.producer.Publishing? && s.producer.i < |s.slots| && (s.producer.pointed || Current(s).reuse)
    ensures SlotAt(s.kinds, Publishing(s.producer.i + 1, false), s.gen, s.producer.i, Publish(s.slots[s.producer.i], s.gen, Current(s)))
  {
    var slot, g := s.slots[s.producer.i], s.slots[s.producer.i].mail.g;
    FollowsAt(s, g);
    PublishKeeps(slot, KindAt(s.kinds, g), LagBefore(s.kinds, g), Current(s));
  }

  lemma PublishingSlot(s: State, k: nat)
    requires Sound(s) && Guarded(s.kinds) && s.producer.Publishing? && k < |s.slots|
    ensures SlotAt(s.kinds, ProducerNext(s).producer, ProducerNext(s).gen, k, ProducerNext(s).slots[k])
  {
    if k == s.producer.i {
      if s.producer.pointed || Current(s).reuse {
        AnnouncingSlot(s);
      } else {
        PointingSlot(s);
      }
    }
  }

  lemma JoiningSlot(s: State, k: nat)
    requires Sound(s) && s.producer.Joining? && Enabled(s, ProducerStep) && k < |s.slots|
    ensures SlotAt(s.kinds, ProducerNext(s).producer, ProducerNext(s).gen, k, ProducerNext(s).slots[k])
  {
    if k == s.producer.i {
      DoneLeaves(s.slots[k], Current(s), LagBefore(s.kinds, s.gen));
    }
  }

  lemma CollapsingSlot(s: State, k: nat)
    requires Sound(s) && s.producer.Collapsing? && k < |s.slots|
    ensures SlotAt(s.kinds, ProducerNext(s).producer, ProducerNext(s).gen, k, ProducerNext(s).slots[k])
  {
    if k == s.producer.i {
      RunTakenKeeps(s.slots[k], Current(s), LagBefore(s.kinds, s.gen), Written(s.fields, Current(s).desc));
    }
  }

  lemma CollapseStampSlot(s: State, k: nat)
    requires Sound(s) && s.producer.CollapseStamp? && k < |s.slots|
    ensures SlotAt(s.kinds, ProducerNext(s).producer, ProducerNext(s).gen, k, ProducerNext(s).slots[k])
  {
    if k == s.producer.i {
      StampKeeps(s.slots[k], Current(s), LagBefore(s.kinds, s.gen));
    }
  }

  lemma QuietSlot(s: State, k: nat)
    requires Sound(s) && Enabled(s, ProducerStep) && k < |s.slots|
    requires s.producer.Draining? || s.producer.Writing? || s.producer.Gating? || s.producer.OwnShare?
    ensures SlotAt(s.kinds, ProducerNext(s).producer, ProducerNext(s).gen, k, ProducerNext(s).slots[k])
  {
  }

  /** A producer step seen from one slot. */
  lemma ProducerStepSlot(s: State, k: nat)
    requires Sound(s) && Guarded(s.kinds) && Enabled(s, ProducerStep) && k < |s.slots|
    ensures SlotAt(s.kinds, ProducerNext(s).producer, ProducerNext(s).gen, k, ProducerNext(s).slots[k])
  {
    match s.producer
    case Publishing(_, _) => PublishingSlot(s, k);
    case Joining(_) => JoiningSlot(s, k);
    case Collapsing(_) => CollapsingSlot(s, k);
    case CollapseStamp(_) => CollapseStampSlot(s, k);
    case _ => QuietSlot(s, k);
  }

  lemma ProducerStepSound(s: State)
    requires Sound(s) && Guarded(s.kinds) && Enabled(s, ProducerStep)
    ensures Sound(ProducerNext(s))
  {
    var r := ProducerNext(s);
    forall k | 0 <= k < |r.slots| ensures SlotAt(r.kinds, r.producer, r.gen, k, r.slots[k]) {
      ProducerStepSlot(s, k);
    }
  }

  lemma TakeShareSound(s: State)
    requires Sound(s) && Enabled(s, TakeShare)
    ensures Sound(Apply(s, TakeShare))
  {
    TakeKeeps(s.slots[s.producer.i], Current(s), LagBefore(s.kinds, s.gen));
  }

  lemma AcknowledgedSound(s: State, k: nat)
    requires Sound(s) && Enabled(s, Acknowledged(k))
    ensures Sound(Apply(s, Acknowledged(k)))
  {
    ForgetKeeps(s.slots[k], KindAt(s.kinds, s.gen), LagBefore(s.kinds, s.gen));
  }

  lemma BeginSound(s: State, kind: Kind)
    requires Sound(s) && Enabled(s, Begin(kind))
    ensures Sound(Apply(s, Begin(kind)))
  {
    var ks := s.kinds + [kind];
    Prefixes(s.kinds, ks, s.gen);
    forall l | 0 <= l < |ks| ensures InSeries(ks, l, |s.slots|) {
      assert l < |s.kinds| ==> InSeries(s.kinds, l, |s.slots|);
    }
    forall k | 0 <= k < |s.slots| ensures SlotAt(ks, Apply(s, Begin(kind)).producer, s.gen, k, s.slots[k]) {
      assert SlotAt(s.kinds, s.producer, s.gen, k, s.slots[k]);
    }
  }

  lemma StepSound(s: State, a: Action)
    requires Sound(s) && Guarded(s.kinds) && Enabled(s, a)
    ensures Sound(Apply(s, a))
  {
    match a
    case Begin(kind) => BeginSound(s, kind);
    case ProducerStep => ProducerStepSound(s);
    case Work(k) => WorkSound(s, k);
    case TakeShare => TakeShareSound(s);
    case Acknowledged(k) => AcknowledgedSound(s, k);
  }

  lemma {:induction false} KindsGrow(s: State, run: seq<Action>)
    requires Legal(s, run)
    ensures s.kinds <= Final(s, run).kinds && |Final(s, run).slots| == |s.slots|
    decreases |run|
  {
    if run != [] {
      KindsGrow(Apply(s, run[0]), run[1..]);
    }
  }

  lemma GuardedPrefix(ks: seq<Kind>, longer: seq<Kind>)
    requires ks <= longer && Guarded(longer)
    ensures Guarded(ks)
  {
    forall l | 0 <= l < |ks| && LagAt(ks, l).Overtaken? ensures ks[l].desc.collapsible {
      Prefixes(ks, longer, l);
    }
  }

  lemma {:induction false} RunSound(s: State, run: seq<Action>)
    requires Sound(s) && Legal(s, run) && Guarded(Final(s, run).kinds)
    ensures Sound(Final(s, run)) && |Final(s, run).slots| == |s.slots|
    decreases |run|
  {
    if run != [] {
      KindsGrow(s, run);
      GuardedPrefix(s.kinds, Final(s, run).kinds);
      StepSound(s, run[0]);
      RunSound(Apply(s, run[0]), run[1..]);
    }
  }

  // Which parameters a share is run with, as long as every dispatch that follows an overtaken worker brings its own.

  /** While a worker may be overtaken, only collapsible dispatches without reuse follow. */
  predicate Renewed(ks: seq<Kind>) {
    forall l :: 0 <= l < |ks| && LagAt(ks, l).Overtaken? ==> ks[l].desc.collapsible && !ks[l].reuse
  }

  /** What a worker that last dealt with word w has cached. `base` and `prior`: the parameters of this and the previous dispatch. */
  predicate Recent(s: Slot, kind: Kind, before: Lag, prior: nat, base: nat, w: nat) {
    if w == s.mail.g then !After(before, kind).Overtaken? ==> Of(s.cache) == base
    else !before.Overtaken? ==> Of(s.cache) == prior
  }

  predicate ParamsOk(s: Slot, kind: Kind, before: Lag, prior: nat, base: nat) {
    match s.worker
    case Polling(last) => Recent(s, kind, before, prior, base, last)
    case Reading(m) =>
      && (m.g == s.mail.g && m.reuse ==> Of(s.cache) == base)
      && (m.g < s.mail.g ==> Recent(s, kind, before, prior, base, m.g) && (before.Trailing? ==> prior <= m.g))
    case Claiming(m) => Recent(s, kind, before, prior, base, m.g) && (s.claimed < m.g ==> Of(s.cache) == base)
    case Running(m) => Of(s.cache) == base
    case Stamping(m) => Recent(s, kind, before, prior, base, m.g)
    case Acking(m) => Recent(s, kind, before, prior, base, m.g)
  }

  /** A worker that may still win its share, or be believed about it, finds the right parameters. */
  predicate SourceOk(s: Slot, kind: Kind, before: Lag, base: nat, fields: map<Desc, nat>) {
    && s.worker.Reading? && !s.worker.m.reuse && s.worker.m.g == s.mail.g
    && (!Cold(kind) || s.claimed < s.mail.g || !After(before, kind).Overtaken?)
    ==> Written(fields, s.ptr) == base
  }

  /** Parameters of the previous dispatch carry over exactly when they are reused. */
  predicate BaseOk(s: Slot, kind: Kind, before: Lag, prior: nat, base: nat) {
    base == (if kind.reuse then prior else s.mail.g) && base <= s.mail.g && (kind.reuse ==> !before.Overtaken?)
  }

  lemma ReadingParams(s: Slot, kind: Kind, before: Lag, prior: nat, base: nat, fields: map<Desc, nat>)
    requires SlotOk(s, kind, before) && BaseOk(s, kind, before, prior, base) && s.worker.Reading?
    requires ParamsOk(s, kind, before, prior, base) && SourceOk(s, kind, before, base, fields)
    ensures ParamsOk(WorkerStep(s, fields), kind, before, prior, base)
  {
  }

  lemma WorkerStepParams(s: Slot, kind: Kind, before: Lag, prior: nat, base: nat, fields: map<Desc, nat>)
    requires SlotOk(s, kind, before) && BaseOk(s, kind, before, prior, base)
    requires ParamsOk(s, kind, before, prior, base) && SourceOk(s, kind, before, base, fields)
    ensures ParamsOk(WorkerStep(s, fields), kind, before, prior, base)
  {
    if s.worker.Reading? {
      ReadingParams(s, kind, before, prior, base, fields);
    }
  }

  lemma WorkerStepRuns(s: Slot, kind: Kind, before: Lag, prior: nat, base: nat, fields: map<Desc, nat>)
    requires SlotOk(s, kind, before) && ParamsOk(s, kind, before, prior, base)
    ensures WorkerStep(s, fields).runs == if s.worker.Running? then s.runs + [Run(s.mail.g, base)] else s.runs
    ensures s.worker.Running? ==> s.mail.g == |s.runs| + 1
  {
  }

  lemma PublishParams(s: Slot, kind: Kind, before: Lag, prior: nat, base: nat, next: Kind, renewed: nat)
    requires SlotOk(s, kind, before) && Left(s, kind, before) && !s.stamped && BaseOk(s, kind, before, prior, base)
    requires ParamsOk(s, kind, before, prior, base)
    ensures ParamsOk(Publish(s, s.mail.g + 1, next), next, After(before, kind), base, renewed)
  {
  }

  /** Every execution so far is of the right dispatch, in turn, with that dispatch's parameters. */
  predicate RunsRight(ks: seq<Kind>, runs: seq<Run>) {
    |runs| <= |ks| && forall i :: 0 <= i < |runs| ==> runs[i] == Run(i + 1, Base(ks, i + 1))
  }

  /** Which descriptor slot k points at; `kind` and `base` belong to its mailbox, `next` to the dispatch in progress. */
  predicate PtrAt(p: Producer, k: nat, s: Slot, kind: Kind, base: nat, next: Kind, fields: map<Desc, nat>) {
    match p
    case Gating => s.ptr == kind.desc && (s.stamped ==> Written(fields, s.ptr) == base)
    case Publishing(i, _) => if k < i then s.ptr == kind.desc else next.reuse ==> s.ptr == next.desc
    case _ => s.ptr == kind.desc
  }

  /** The descriptor published last, or about to be, holds its parameters. */
  predicate FieldsOk(s: State)
    requires s.gen <= |s.kinds|
  {
    if s.producer.Idle? || s.producer.Draining? || s.producer.Writing? then Written(s.fields, KindAt(s.kinds, s.gen).desc) == Base(s.kinds, s.gen)
    else Written(s.fields, Current(s).desc) == Base(s.kinds, |s.kinds|)
  }

  function Prior(ks: seq<Kind>, g: nat): nat
    requires g <= |ks|
  {
    if g == 0 then 0 else Base(ks, g - 1)
  }

  predicate AccurateAt(ks: seq<Kind>, p: Producer, k: nat, t: Slot, fields: map<Desc, nat>)
    requires t.mail.g <= |ks|
  {
    var kind, before := KindAt(ks, t.mail.g), LagBefore(ks, t.mail.g);
    && PtrAt(p, k, t, kind, Base(ks, t.mail.g), KindAt(ks, |ks|), fields)
    && ParamsOk(t, kind, before, Prior(ks, t.mail.g), Base(ks, t.mail.g))
    && RunsRight(ks, t.runs)
  }

  predicate Accurate(s: State) {
    && Sound(s) && FieldsOk(s) && RunsRight(s.kinds, s.own)
    && forall k :: 0 <= k < |s.slots| ==> AccurateAt(s.kinds, s.producer, k, s.slots[k], s.fields)
  }

  lemma StartAccurate(n: nat)
    ensures Accurate(Start(n))
  {
  }

  lemma {:induction false} BaseAt(ks: seq<Kind>, g: nat)
    requires g <= |ks|
    ensures Base(ks, g) == (if KindAt(ks, g).reuse then Prior(ks, g) else g) && Base(ks, g) <= g
  {
    if g > 0 {
      BaseAt(ks, g - 1);
    }
  }

  lemma RenewedGuarded(ks: seq<Kind>)
    requires Renewed(ks)
    ensures Guarded(ks)
  {
  }

  lemma BaseHolds(s: State, k: nat)
    requires Sound(s) && Renewed(s.kinds) && k < |s.slots|
    ensures var g := s.slots[k].mail.g;
            g <= |s.kinds| && BaseOk(s.slots[k], KindAt(s.kinds, g), LagBefore(s.kinds, g), Prior(s.kinds, g), Base(s.kinds, g))
  {
    var g := s.slots[k].mail.g;
    assert SlotAt(s.kinds, s.producer, s.gen, k, s.slots[k]);
    BaseAt(s.kinds, g);
    assert KindAt(s.kinds, g).reuse ==> !LagBefore(s.kinds, g).Overtaken?;
  }

  lemma SourceHere(s: State, k: nat)
    requires Accurate(s) && k < |s.slots|
    ensures var g := s.slots[k].mail.g;
            g <= |s.kinds| && SourceOk(s.slots[k], KindAt(s.kinds, g), LagBefore(s.kinds, g), Base(s.kinds, g), s.fields)
  {
    assert SlotAt(s.kinds, s.producer, s.gen, k, s.slots[k]);
    assert AccurateAt(s.kinds, s.producer, k, s.slots[k], s.fields);
  }

  lemma RunsExtend(ks: seq<Kind>, runs: seq<Run>, g: nat)
    requires RunsRight(ks, runs) && g == |runs| + 1 && g <= |ks|
    ensures RunsRight(ks, runs + [Run(g, Base(ks, g))])
  {
  }

  lemma WorkAt(s: State, k: nat)
    requires Accurate(s) && Renewed(s.kinds) && k < |s.slots|
    ensures var t := WorkerStep(s.slots[k], s.fields); t.mail.g <= |s.kinds| && AccurateAt(s.kinds, s.producer, k, t, s.fields)
  {
    var slot, g := s.slots[k], s.slots[k].mail.g;
    assert SlotAt(s.kinds, s.producer, s.gen, k, slot) && AccurateAt(s.kinds, s.producer, k, slot, s.fields);
    BaseHolds(s, k);
    SourceHere(s, k);
    WorkerStepParams(slot, KindAt(s.kinds, g), LagBefore(s.kinds, g), Prior(s.kinds, g), Base(s.kinds, g), s.fields);
    MailStays(slot, KindAt(s.kinds, g), LagBefore(s.kinds, g), s.fields);
    StampStays(slot, KindAt(s.kinds, g), LagBefore(s.kinds, g), s.fields);
    WorkerStepRuns(slot, KindAt(s.kinds, g), LagBefore(s.kinds, g), Prior(s.kinds, g), Base(s.kinds, g), s.fields);
    if slot.worker.Running? {
      RunsExtend(s.kinds, slot.runs, g);
    }
  }

  lemma WorkAccurate(s: State, k: nat)
    requires Accurate(s) && Renewed(s.kinds) && k < |s.slots|
    ensures Accurate(Apply(s, Work(k)))
  {
    WorkSound(s, k);
    WorkAt(s, k);
  }

  lemma PointAt(s: State)
    requires Accurate(s) && s.producer.Publishing? && s.producer.i < |s.slots| && !Current(s).reuse
    ensures var slot := s.slots[s.producer.i]; slot.mail.g <= |s.kinds| && AccurateAt(s.kinds, Publishing(s.producer.i, true), s.producer.i, Point(slot, Current(s)), s.fields)
  {
    var k := s.producer.i;
    assert SlotAt(s.kinds, s.producer, s.gen, k, s.slots[k]) && AccurateAt(s.kinds, s.producer, k, s.slots[k], s.fields);
  }

  lemma PublishAt(s: State)
    requires Accurate(s) && Renewed(s.kinds) && s.producer.Publishing? && s.producer.i < |s.slots| && (s.producer.pointed || Current(s).reuse)
    ensures s.gen <= |s.kinds|
    ensures AccurateAt(s.kinds, Publishing(s.producer.i + 1, false), s.producer.i, Publish(s.slots[s.producer.i], s.gen, Current(s)), s.fields)
  {
    var k := s.producer.i;
    assert SlotAt(s.kinds, s.producer, s.gen, k, s.slots[k]) && AccurateAt(s.kinds, s.producer, k, s.slots[k], s.fields);
    var slot, g := s.slots[k], s.slots[k].mail.g;
    RenewedGuarded(s.kinds);
    FollowsAt(s, g);
    BaseHolds(s, k);
    PublishParams(slot, KindAt(s.kinds, g), LagBefore(s.kinds, g), Prior(s.kinds, g), Base(s.kinds, g), Current(s), Base(s.kinds, g + 1));
  }

  lemma PublishAccurate(s: State, k: nat)
    requires Accurate(s) && Renewed(s.kinds) && s.producer.Publishing? && k < |s.slots|
    ensures var r := ProducerNext(s); r.slots[k].mail.g <= |s.kinds| && AccurateAt(s.kinds, r.producer, k, r.slots[k], r.fields)
  {
    if k != s.producer.i {
      assert SlotAt(s.kinds, s.producer, s.gen, k, s.slots[k]) && AccurateAt(s.kinds, s.producer, k, s.slots[k], s.fields);
    } else if s.producer.pointed || Current(s).reuse {
      PublishAt(s);
    } else {
      PointAt(s);
    }
  }

  lemma CollapseAccurate(s: State, k: nat)
    requires Accurate(s) && Enabled(s, ProducerStep) && k < |s.slots|
    requires s.producer.Joining? || s.producer.Collapsing? || s.producer.CollapseStamp? || s.producer.OwnShare?
    ensures var r := ProducerNext(s); r.slots[k].mail.g <= |s.kinds| && AccurateAt(s.kinds, r.producer, k, r.slots[k], r.fields)
  {
    assert SlotAt(s.kinds, s.producer, s.gen, k, s.slots[k]) && AccurateAt(s.kinds, s.producer, k, s.slots[k], s.fields);
  }

  lemma WriteAccurate(s: State, k: nat)
    requires Accurate(s) && Enabled(s, ProducerStep) && k < |s.slots| && (s.producer.Draining? || s.producer.Writing? || s.producer.Gating?)
    ensures var r := ProducerNext(s); r.slots[k].mail.g <= |s.kinds| && AccurateAt(s.kinds, r.producer, k, r.slots[k], r.fields)
  {
    assert SlotAt(s.kinds, s.producer, s.gen, k, s.slots[k]) && AccurateAt(s.kinds, s.producer, k, s.slots[k], s.fields);
    if Current(s).reuse {
      assert InSeries(s.kinds, s.gen, |s.slots|);
    }
  }

  lemma FieldsStep(s: State)
    requires Accurate(s) && Enabled(s, ProducerStep)
    ensures var r := ProducerNext(s); r.gen <= |r.kinds| && FieldsOk(r) && RunsRight(r.kinds, r.own)
  {
    BaseAt(s.kinds, |s.kinds|);
    if s.producer.Draining? && Current(s).reuse {
      assert InSeries(s.kinds, s.gen, |s.slots|);
    }
  }

  lemma ProducerStepAccurate(s: State)
    requires Accurate(s) && Renewed(s.kinds) && Enabled(s, ProducerStep)
    ensures Accurate(ProducerNext(s))
  {
    RenewedGuarded(s.kinds);
    ProducerStepSound(s);
    FieldsStep(s);
    var r := ProducerNext(s);
    forall k | 0 <= k < |r.slots| ensures r.slots[k].mail.g <= |r.kinds| && AccurateAt(r.kinds, r.producer, k, r.slots[k], r.fields) {
      if s.producer.Publishing? {
        PublishAccurate(s, k);
      } else if s.producer.Draining? || s.producer.Writing? || s.producer.Gating? {
        WriteAccurate(s, k);
      } else {
        CollapseAccurate(s, k);
      }
    }
  }

  lemma TakeShareAccurate(s: State)
    requires Accurate(s) && Enabled(s, TakeShare)
    ensures Accurate(Apply(s, TakeShare))
  {
    TakeShareSound(s);
    var r := Apply(s, TakeShare);
    forall k | 0 <= k < |r.slots| ensures AccurateAt(r.kinds, r.producer, k, r.slots[k], r.fields) {
      assert AccurateAt(s.kinds, s.producer, k, s.slots[k], s.fields);
    }
  }

  lemma AcknowledgedAccurate(s: State, k: nat)
    requires Accurate(s) && Enabled(s, Acknowledged(k))
    ensures Accurate(Apply(s, Acknowledged(k)))
  {
    AcknowledgedSound(s, k);
    assert AccurateAt(s.kinds, s.producer, k, s.slots[k], s.fields);
  }

  lemma BeginAccurate(s: State, kind: Kind)
    requires Accurate(s) && Enabled(s, Begin(kind))
    ensures Accurate(Apply(s, Begin(kind)))
  {
    BeginSound(s, kind);
    var r := Apply(s, Begin(kind));
    forall g: nat | g <= s.gen ensures Base(r.kinds, g) == Base(s.kinds, g) && KindAt(r.kinds, g) == KindAt(s.kinds, g) && LagBefore(r.kinds, g) == LagBefore(s.kinds, g) {
      Prefixes(s.kinds, r.kinds, g);
    }
    forall k | 0 <= k < |r.slots| ensures AccurateAt(r.kinds, r.producer, k, r.slots[k], r.fields) {
      assert SlotAt(s.kinds, s.producer, s.gen, k, s.slots[k]) && AccurateAt(s.kinds, s.producer, k, s.slots[k], s.fields);
    }
  }

  lemma StepAccurate(s: State, a: Action)
    requires Accurate(s) && Renewed(s.kinds) && Enabled(s, a)
    ensures Accurate(Apply(s, a))
  {
    match a
    case Begin(kind) => BeginAccurate(s, kind);
    case ProducerStep => ProducerStepAccurate(s);
    case Work(k) => WorkAccurate(s, k);
    case TakeShare => TakeShareAccurate(s);
    case Acknowledged(k) => AcknowledgedAccurate(s, k);
  }

  lemma RenewedPrefix(ks: seq<Kind>, longer: seq<Kind>)
    requires ks <= longer && Renewed(longer)
    ensures Renewed(ks)
  {
    forall l | 0 <= l < |ks| && LagAt(ks, l).Overtaken? ensures ks[l].desc.collapsible && !ks[l].reuse {
      Prefixes(ks, longer, l);
    }
  }

  lemma {:induction false} RunAccurate(s: State, run: seq<Action>)
    requires Accurate(s) && Legal(s, run) && Renewed(Final(s, run).kinds)
    ensures Accurate(Final(s, run)) && |Final(s, run).slots| == |s.slots|
    decreases |run|
  {
    if run != [] {
      KindsGrow(s, run);
      RenewedPrefix(s.kinds, Final(s, run).kinds);
      StepAccurate(s, run[0]);
      RunAccurate(Apply(s, run[0]), run[1..]);
    }
  }

  // The conditions a caller can check: what may follow a repeated dispatch and a fresh one.

  /** The dispatches a run begins. */
  function Begins(run: seq<Action>): seq<Kind> {
    if run == [] then [] else Begun(run[0]) + Begins(run[1..])
  }

  function Begun(a: Action): seq<Kind> {
    if a.Begin? then [a.kind] else []
  }

  lemma Append(x: seq<Kind>, y: seq<Kind>, z: seq<Kind>)
    ensures x + y + z == x + (y + z) && x + [] == x
  {
  }

  lemma KindsStep(s: State, a: Action)
    requires Enabled(s, a)
    ensures Apply(s, a).kinds == s.kinds + Begun(a)
  {
  }

  lemma {:induction false} KindsAreBegins(s: State, run: seq<Action>)
    requires Legal(s, run)
    ensures Final(s, run).kinds == s.kinds + Begins(run)
    decreases |run|
  {
    if run == [] {
      Append(s.kinds, [], []);
    } else {
      var t, rest := Apply(s, run[0]), run[1..];
      KindsStep(s, run[0]);
      KindsAreBegins(t, rest);
      Append(s.kinds, Begun(run[0]), Begins(rest));
    }
  }

  /**
   * A collapsible dispatch that repeats its predecessor, then a collapsible one with parameters of its own, then
   * collapsible ones only, up to but not including ks[l].
   */
  predicate Strays(ks: seq<Kind>, i: nat, l: nat) {
    && i + 2 <= l <= |ks|
    && Cold(ks[i]) && ks[i].reuse
    && Cold(ks[i + 1]) && !ks[i + 1].reuse
    && forall j :: i + 2 <= j < l ==> Cold(ks[j])
  }

  lemma {:induction false} StraysOvertaken(ks: seq<Kind>, i: nat, l: nat)
    requires Strays(ks, i, l)
    ensures LagAt(ks, l).Overtaken?
    decreases l
  {
    if l > i + 2 {
      StraysOvertaken(ks, i, l - 1);
    } else {
      assert LagAt(ks, i + 1) == After(LagAt(ks, i), ks[i]);
      assert LagAt(ks, i + 2) == After(LagAt(ks, i + 1), ks[i + 1]);
    }
  }

  lemma {:induction false} OvertakenStrays(ks: seq<Kind>, l: nat) returns (i: nat)
    requires l <= |ks| && LagAt(ks, l).Overtaken?
    ensures Strays(ks, i, l)
  {
    if LagAt(ks, l - 1).Overtaken? {
      i := OvertakenStrays(ks, l - 1);
    } else {
      i := l - 2;
    }
  }

  /** No dispatch at all follows a stray. */
  predicate ReadsSafe(ks: seq<Kind>) {
    forall i, l :: 0 <= i < |ks| && 0 <= l < |ks| ==> !Strays(ks, i, l)
  }

  /** What follows a stray is collapsible and brings parameters of its own. */
  predicate RunsSafe(ks: seq<Kind>) {
    forall i, l :: 0 <= i < |ks| && 0 <= l < |ks| && Strays(ks, i, l) ==> ks[l].desc.collapsible && !ks[l].reuse
  }

  /** What follows a stray is collapsible. */
  predicate JoinsSafe(ks: seq<Kind>) {
    forall i, l :: 0 <= i < |ks| && 0 <= l < |ks| && Strays(ks, i, l) ==> ks[l].desc.collapsible
  }

  lemma JoinsSafeGuarded(ks: seq<Kind>)
    requires JoinsSafe(ks)
    ensures Guarded(ks)
  {
    forall l | 0 <= l < |ks| && LagAt(ks, l).Overtaken? ensures ks[l].desc.collapsible {
      var i := OvertakenStrays(ks, l);
    }
  }

  lemma RunsSafeRenewed(ks: seq<Kind>)
    requires RunsSafe(ks)
    ensures Renewed(ks)
  {
    forall l | 0 <= l < |ks| && LagAt(ks, l).Overtaken? ensures ks[l].desc.collapsible && !ks[l].reuse {
      var i := OvertakenStrays(ks, l);
    }
  }

  // Every share exactly once.

  /** What a participant must have run: each dispatch in turn, with its own parameters. */
  function Due(ks: seq<Kind>): seq<Run> {
    seq(|ks|, i requires 0 <= i < |ks| => Run(i + 1, Base(ks, i + 1)))
  }

  lemma RunReached(n: nat, run: seq<Action>)
    requires Legal(Start(n), run)
    ensures |Final(Start(n), run).slots| == n && Final(Start(n), run).kinds == Begins(run)
    ensures RunsSafe(Begins(run)) ==> Accurate(Final(Start(n), run))
    ensures JoinsSafe(Begins(run)) ==> Sound(Final(Start(n), run))
  {
    KindsGrow(Start(n), run);
    KindsAreBegins(Start(n), run);
    assert [] + Begins(run) == Begins(run);
    StartAccurate(n);
    if RunsSafe(Begins(run)) {
      RunsSafeRenewed(Begins(run));
      RunAccurate(Start(n), run);
    }
    if JoinsSafe(Begins(run)) {
      JoinsSafeGuarded(Begins(run));
      RunSound(Start(n), run);
    }
  }

  lemma RightIsDue(ks: seq<Kind>, runs: seq<Run>)
    requires RunsRight(ks, runs)
    ensures runs <= Due(ks) && (|runs| == |ks| ==> runs == Due(ks))
  {
  }

  lemma LogRight(s: State, k: nat)
    requires Accurate(s) && k < |s.slots|
    ensures s.slots[k].runs <= Due(s.kinds) && s.gen <= |s.slots[k].runs| + 1 && |s.slots[k].runs| <= s.gen
    ensures s.producer.Idle? ==> s.slots[k].runs == Due(s.kinds)
  {
    assert SlotAt(s.kinds, s.producer, s.gen, k, s.slots[k]) && AccurateAt(s.kinds, s.producer, k, s.slots[k], s.fields);
    RightIsDue(s.kinds, s.slots[k].runs);
  }

  /**
   * Whenever the producer is between dispatches, under any interleaving, every participant's share of every dispatch so
   * far has run exactly once, in dispatch order and with the parameters of that dispatch.
   */
  lemma JoinComplete(n: nat, run: seq<Action>, k: nat)
    requires Legal(Start(n), run) && RunsSafe(Begins(run)) && Final(Start(n), run).producer.Idle? && k < n
    ensures var s := Final(Start(n), run); |s.slots| == n && s.own == Due(Begins(run)) && s.slots[k].runs == Due(Begins(run))
  {
    RunReached(n, run);
    LogRight(Final(Start(n), run), k);
    RightIsDue(Begins(run), Final(Start(n), run).own);
  }

  /** At no moment has any share run twice, before its dispatch, out of order or with other parameters. */
  lemma NeverTwice(n: nat, run: seq<Action>, k: nat)
    requires Legal(Start(n), run) && RunsSafe(Begins(run)) && k < n
    ensures var s := Final(Start(n), run);
            |s.slots| == n && s.slots[k].runs <= Due(Begins(run)) && s.gen <= |s.slots[k].runs| + 1 && |s.slots[k].runs| <= s.gen
  {
    RunReached(n, run);
    LogRight(Final(Start(n), run), k);
  }

  // Waiting ends.

  /** Steps the worker still needs before it has dealt with the word in its mailbox. */
  function Remaining(s: Slot): nat {
    if Settled(s) then 0 else
      (if !s.worker.Polling? && s.worker.m.g < s.mail.g then 7 else 0) +
      match s.worker
      case Polling(_) => 6
      case Reading(_) => 5
      case Claiming(_) => 4
      case Running(_) => 3
      case Stamping(_) => 2
      case Acking(_) => 1
  }

  lemma WorkerAdvances(s: Slot, kind: Kind, before: Lag, fields: map<Desc, nat>)
    requires SlotOk(s, kind, before) && !Settled(s)
    ensures Remaining(WorkerStep(s, fields)) < Remaining(s)
  {
  }

  /** The producer waits for worker k, in the join or for an acknowledgement. */
  predicate Waiting(s: State, k: nat)
    requires k < |s.slots|
  {
    || (s.producer == Joining(k) && !Enabled(s, ProducerStep))
    || ((s.producer.Draining? || s.producer.Gating?) && s.slots[k].stamped && !s.slots[k].mail.acked)
  }

  lemma SettledNotWaiting(s: State, k: nat)
    requires Sound(s) && k < |s.slots| && Settled(s.slots[k])
    ensures !Waiting(s, k)
  {
    assert SlotAt(s.kinds, s.producer, s.gen, k, s.slots[k]);
  }

  /** The state after worker k alone has taken c steps. */
  function WorkFor(s: State, k: nat, c: nat): State
    requires k < |s.slots|
    decreases c
  {
    if c == 0 then s else WorkFor(Apply(s, Work(k)), k, c - 1)
  }

  lemma {:induction false} WaitsFew(s: State, k: nat) returns (c: nat)
    requires Sound(s) && k < |s.slots|
    ensures c <= Remaining(s.slots[k]) && |WorkFor(s, k, c).slots| == |s.slots| && !Waiting(WorkFor(s, k, c), k)
    decreases Remaining(s.slots[k])
  {
    if Settled(s.slots[k]) {
      SettledNotWaiting(s, k);
      c := 0;
    } else {
      assert SlotAt(s.kinds, s.producer, s.gen, k, s.slots[k]);
      WorkerAdvances(s.slots[k], KindAt(s.kinds, s.slots[k].mail.g), LagBefore(s.kinds, s.slots[k].mail.g), s.fields);
      WorkSound(s, k);
      c := WaitsFew(Apply(s, Work(k)), k);
      c := c + 1;
    }
  }

  /** Whatever worker the producer waits for: at most 12 steps of that worker end the wait. */
  lemma WaitEnds(n: nat, run: seq<Action>, k: nat) returns (c: nat)
    requires Legal(Start(n), run) && JoinsSafe(Begins(run)) && k < n
    ensures c <= 12 && |Final(Start(n), run).slots| == n
    ensures |WorkFor(Final(Start(n), run), k, c).slots| == n && !Waiting(WorkFor(Final(Start(n), run), k, c), k)
  {
    RunReached(n, run);
    c := WaitsFew(Final(Start(n), run), k);
  }

  /** Inside a dispatch, and nothing that may happen changes anything any more. */
  ghost predicate Dead(s: State) {
    !s.producer.Idle? && forall a :: Enabled(s, a) ==> Apply(s, a) == s
  }

  lemma WorkMoves(s: State, k: nat)
    requires Sound(s) && k < |s.slots| && !Settled(s.slots[k])
    ensures Apply(s, Work(k)) != s
  {
    assert SlotAt(s.kinds, s.producer, s.gen, k, s.slots[k]);
    WorkerAdvances(s.slots[k], KindAt(s.kinds, s.slots[k].mail.g), LagBefore(s.kinds, s.slots[k].mail.g), s.fields);
    assert Apply(s, Work(k)).slots[k] != s.slots[k];
  }

  lemma NotDead(s: State)
    requires Sound(s)
    ensures !Dead(s)
  {
    if !s.producer.Idle? {
      if Enabled(s, ProducerStep) {
        assert ProducerNext(s).producer != s.producer;
        assert Apply(s, ProducerStep) != s;
      } else if s.producer.Joining? {
        var k := s.producer.i;
        if Settled(s.slots[k]) {
          SettledNotWaiting(s, k);
        }
        WorkMoves(s, k);
        assert Enabled(s, Work(k));
      } else {
        var k :| 0 <= k < |s.slots| && s.slots[k].stamped;
        if s.slots[k].mail.acked {
          assert Enabled(s, Acknowledged(k)) && Apply(s, Acknowledged(k)).slots[k] != s.slots[k];
        } else {
          if Settled(s.slots[k]) {
            SettledNotWaiting(s, k);
          }
          WorkMoves(s, k);
          assert Enabled(s, Work(k));
        }
      }
    }
  }

  // Who may read the descriptor when.

  /** A worker about to settle its parameters will get those of its dispatch, and nobody is writing them. */
  predicate ReadsRight(s: State, k: nat)
    requires k < |s.slots|
  {
    var slot := s.slots[k];
    slot.worker.Reading? ==>
      && slot.worker.m.g <= |s.kinds|
      && Of(Found(slot, slot.worker.m, s.fields)) == Base(s.kinds, slot.worker.m.g)
      && ((slot.worker.m.reuse && slot.cache.Holds?) || !s.producer.Writing? || slot.ptr != Current(s).desc)
  }

  lemma {:induction false} BaseSame(ks: seq<Kind>, x: nat, y: nat)
    requires y <= |ks| && Base(ks, y) <= x <= y
    ensures Base(ks, x) == Base(ks, y)
  {
    BaseAt(ks, y);
    if x < y {
      BaseSame(ks, x, y - 1);
    }
  }

  lemma CalmReads(s: State, k: nat)
    requires Accurate(s) && ReadsSafe(s.kinds) && k < |s.slots|
    ensures ReadsRight(s, k)
  {
    var slot := s.slots[k];
    var g := slot.mail.g;
    assert SlotAt(s.kinds, s.producer, s.gen, k, slot) && AccurateAt(s.kinds, s.producer, k, slot, s.fields);
    BaseAt(s.kinds, g);
    if slot.worker.Reading? && slot.worker.m.g < g {
      if LagBefore(s.kinds, g).Overtaken? {
        var i := OvertakenStrays(s.kinds, g - 1);
      }
      BaseSame(s.kinds, slot.worker.m.g, g - 1);
    }
    if g < |s.kinds| && LagAt(s.kinds, g).Overtaken? {
      var i := OvertakenStrays(s.kinds, g);
    }
  }

  /** In every run of a safe series every worker gets the parameters of its dispatch while nobody writes them. */
  lemma ReadsAreRight(n: nat, run: seq<Action>, k: nat)
    requires Legal(Start(n), run) && ReadsSafe(Begins(run)) && k < n
    ensures |Final(Start(n), run).slots| == n && ReadsRight(Final(Start(n), run), k)
  {
    RunReached(n, run);
    CalmReads(Final(Start(n), run), k);
  }
}
