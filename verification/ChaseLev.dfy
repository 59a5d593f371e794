/** Ring buffers indexed by ever-growing logical positions. */
module Rings {
  function Slot<T>(a: seq<T>, i: nat): T
    requires |a| >= 1
  {
    a[i % |a|]
  }

  function Put<T>(a: seq<T>, i: nat, v: T): (r: seq<T>)
    requires |a| >= 1
    ensures |r| == |a| && Slot(r, i) == v
  {
    a[i % |a| := v]
  }

  lemma MultipleOfSize(q: int, n: int)
    requires n > 0
    ensures q * n <= 0 || q * n >= n
  {
    if q > 0 {
      assert (q - 1) * n >= 0;
    }
  }

  /** Two positions less than one lap apart use different slots. */
  lemma SlotsApart(i: nat, j: nat, n: nat)
    requires j < i < j + n
    ensures i % n != j % n
  {
    var p, q := i / n, j / n;
    assert i == p * n + i % n && j == q * n + j % n;
    MultipleOfSize(p - q, n);
    assert (p - q) * n == p * n - q * n;
  }

  lemma PutElsewhere<T>(a: seq<T>, i: nat, v: T, j: nat)
    requires |a| >= 1 && (j < i < j + |a| || i < j < i + |a|)
    ensures Slot(Put(a, i, v), j) == Slot(a, j)
  {
    if j < i {
      SlotsApart(i, j, |a|);
    } else {
      SlotsApart(j, i, |a|);
    }
  }

  /** The contents at positions lo to hi - 1. */
  function Live<T>(a: seq<T>, lo: nat, hi: int): (r: seq<T>)
    requires |a| >= 1
    ensures |r| == if lo <= hi then hi - lo else 0
    ensures forall k :: 0 <= k < |r| ==> r[k] == Slot(a, lo + k)
  {
    if lo < hi then seq(hi - lo, k requires 0 <= k => Slot(a, lo + k)) else []
  }

  lemma SameLive<T>(a: seq<T>, r: seq<T>, lo: nat, hi: nat)
    requires |a| >= 1 && |r| >= 1 && lo <= hi && forall k: nat :: lo <= k < hi ==> Slot(r, k) == Slot(a, k)
    ensures Live(r, lo, hi) == Live(a, lo, hi)
  {
    assert forall k :: 0 <= k < hi - lo ==> Live(r, lo, hi)[k] == Live(a, lo, hi)[k];
  }

  lemma LiveSnoc<T>(a: seq<T>, lo: nat, hi: nat)
    requires |a| >= 1 && lo <= hi
    ensures Live(a, lo, hi + 1) == Live(a, lo, hi) + [Slot(a, hi)]
  {
  }

  /** A store one lap or less ahead of `lo` leaves the live part alone. */
  lemma LivePut<T>(a: seq<T>, lo: nat, hi: nat, v: T)
    requires |a| >= 1 && lo <= hi < lo + |a|
    ensures Live(Put(a, hi, v), lo, hi) == Live(a, lo, hi)
  {
    forall k: nat | lo <= k < hi ensures Slot(Put(a, hi, v), k) == Slot(a, k) {
      PutElsewhere(a, hi, v, k);
    }
    SameLive(a, Put(a, hi, v), lo, hi);
  }

  /** Copies positions t to b - 1 of `source` into `target`, lowest first. */
  function Copied<T>(source: seq<T>, target: seq<T>, t: nat, b: nat): (r: seq<T>)
    requires |source| >= 1 && |target| >= 1 && t <= b
    ensures |r| == |target|
    decreases b - t
  {
    if t == b then target else Put(Copied(source, target, t, b - 1), b - 1, Slot(source, b - 1))
  }

  lemma {:induction false} CopiedSlot<T>(source: seq<T>, target: seq<T>, t: nat, b: nat, i: nat)
    requires |source| >= 1 && t <= i < b && b - t <= |target|
    ensures Slot(Copied(source, target, t, b), i) == Slot(source, i)
    decreases b - t
  {
    if i < b - 1 {
      CopiedSlot(source, target, t, b - 1, i);
      PutElsewhere(Copied(source, target, t, b - 1), b - 1, Slot(source, b - 1), i);
    }
  }

  /** Growing keeps the live part. */
  lemma LiveCopied<T>(source: seq<T>, target: seq<T>, t: nat, b: nat, lo: nat, hi: nat)
    requires |source| >= 1 && t <= lo <= hi <= b && b - t <= |target| && |target| >= 1
    ensures Live(Copied(source, target, t, b), lo, hi) == Live(source, lo, hi)
  {
    var r := Copied(source, target, t, b);
    forall k: nat | lo <= k < hi ensures Slot(r, k) == Slot(source, k) {
      CopiedSlot(source, target, t, b, k);
    }
    SameLive(source, r, lo, hi);
  }
}

/** The work-stealing deque as a step system: one owner, any number of thieves, every shared access its own step. */
module ChaseLev {
  import opened Rings

  /** What the last call returned: nothing to return, no element, or an element. */
  datatype Answer<T> = Void | Miss | Got(value: T)

  /** What the deque has done so far, in the order the effects took place. */
  datatype Event<T> = Pushed(value: T) | Popped(value: T) | PopMissed | Stolen(value: T, thief: nat)

  /** Where the owner stands. Only the owner writes `bottom` and the rings, so its own reads of them need no step. */
  datatype Owner<T> =
    | Idle(answer: Answer<T>)
    | PushReady(value: T, b: nat, t: nat)
    | PushRoom(value: T, b: nat)
    | PushStored(value: T, b: nat)
    | Reserving(needed: nat, b: nat, t: nat)
    | PopLowered(low: int)
    | PopValue(b: nat, t: nat)
    | PopRace(b: nat, value: T)
    | PopRestore(low: int, answer: Answer<T>)

  datatype Thief<T> =
    | Resting(answer: Answer<T>)
    | SawTop(t: nat)
    | SawWork(t: nat)
    | SawRing(t: nat, ring: nat)
    | SawValue(t: nat, value: T)

  /** `rings` holds every ring ever published; the last one is current, the others are retired but never freed. */
  datatype State<T> = State(top: nat, bottom: int, rings: seq<seq<T>>, owner: Owner<T>, thieves: seq<Thief<T>>, log: seq<Event<T>>)

  datatype Action<T> = BeginPush(value: T) | BeginPop | BeginReserve(needed: nat) | OwnerStep | BeginSteal(thief: nat) | ThiefStep(thief: nat)

  function Current<T>(s: State<T>): seq<T>
    requires |s.rings| > 0
  {
    s.rings[|s.rings| - 1]
  }

  /** The first power-of-two multiple of `capacity` with room for `needed` entries and the spare slot. */
  function ReservedCapacity(capacity: nat, needed: nat): (r: nat)
    requires capacity >= 1
    ensures r >= capacity && needed + 1 <= r && (r > capacity ==> r < 2 * (needed + 1))
    decreases needed - capacity
  {
    if needed + 1 <= capacity then capacity else ReservedCapacity(capacity * 2, needed)
  }

  function Doubled(capacity: nat, k: nat): nat
    decreases k
  {
    if k == 0 then capacity else Doubled(capacity * 2, k - 1)
  }

  /** The reserved capacity is the first of capacity, 2 * capacity, 4 * capacity, ... that is enough. */
  lemma {:induction false} ReservedIsLeast(capacity: nat, needed: nat) returns (k: nat)
    requires capacity >= 1
    ensures ReservedCapacity(capacity, needed) == Doubled(capacity, k) >= needed + 1
    ensures forall j: nat :: j < k ==> Doubled(capacity, j) < needed + 1
    decreases needed - capacity
  {
    if needed + 1 <= capacity {
      k := 0;
    } else {
      var rest := ReservedIsLeast(capacity * 2, needed);
      k := rest + 1;
    }
  }

  function Grown<T>(source: seq<T>, capacity: nat, blank: T, t: nat, b: nat): (r: seq<T>)
    requires |source| >= 1 && capacity >= 1 && t <= b
    ensures |r| == capacity
  {
    Copied(source, seq(capacity, _ => blank), t, b)
  }

  predicate RingsUsable<T>(s: State<T>) {
    |s.rings| > 0 && forall a :: 0 <= a < |s.rings| ==> |s.rings[a]| >= 1
  }

  /** The index arithmetic of the next step stays in range; every reachable state is sane (NeverStuck). */
  predicate Sane<T>(s: State<T>) {
    && RingsUsable(s)
    && (s.owner.Idle? ==> s.bottom >= 0)
    && (s.owner.PushReady? || s.owner.Reserving? ==> s.owner.t <= s.owner.b)
    && (forall k :: 0 <= k < |s.thieves| && s.thieves[k].SawRing? ==> s.thieves[k].ring < |s.rings|)
  }

  predicate Enabled<T>(s: State<T>, a: Action<T>) {
    && Sane(s)
    && match a
       case BeginPush(_) => s.owner.Idle?
       case BeginPop => s.owner.Idle?
       case BeginReserve(_) => s.owner.Idle?
       case OwnerStep => !s.owner.Idle?
       case BeginSteal(k) => k < |s.thieves| && s.thieves[k].Resting?
       case ThiefStep(k) => k < |s.thieves| && !s.thieves[k].Resting?
  }

  /** The owner's next step. */
  function OwnerNext<T>(s: State<T>, blank: T): (r: State<T>)
    requires Sane(s) && !s.owner.Idle?
    ensures RingsUsable(r) && r.thieves == s.thieves
  {
    var ring := Current(s);
    match s.owner
    case PushReady(v, b, t) =>
      // Grow when one slot or less is spare; the old ring is retired, not freed.
      if b - t >= |ring| - 1 then s.(rings := s.rings + [Grown(ring, 2 * |ring|, blank, t, b)], owner := PushRoom(v, b))
      else s.(owner := PushRoom(v, b))
    case PushRoom(v, b) =>
      s.(rings := s.rings[|s.rings| - 1 := Put(ring, b, v)], owner := PushStored(v, b))
    case PushStored(v, b) =>
      s.(bottom := b + 1, owner := Idle(Void), log := s.log + [Pushed(v)])
    case Reserving(needed, b, t) =>
      if needed + 1 <= |ring| then s.(owner := Idle(Void))
      else s.(rings := s.rings + [Grown(ring, ReservedCapacity(|ring|, needed), blank, t, b)], owner := Idle(Void))
    case PopLowered(b) =>
      // The load of top. Below the last element the pop is settled here.
      if s.top > b then s.(owner := PopRestore(b, Miss), log := s.log + [PopMissed])
      else if s.top < b then s.(owner := PopValue(b, s.top), log := s.log + [Popped(Slot(ring, b))])
      else s.(owner := PopValue(b, s.top))
    case PopValue(b, t) =>
      if t != b then s.(owner := Idle(Got(Slot(ring, b))))
      else s.(owner := PopRace(b, Slot(ring, b)))
    case PopRace(b, v) =>
      // The compare-and-swap on top that settles the last element.
      if s.top == b then s.(top := b + 1, owner := PopRestore(b, Got(v)), log := s.log + [Popped(v)])
      else s.(owner := PopRestore(b, Miss), log := s.log + [PopMissed])
    case PopRestore(b, answer) =>
      s.(bottom := b + 1, owner := Idle(answer))
  }

  /** Thief k's next step. */
  function ThiefNext<T>(s: State<T>, k: nat): (r: State<T>)
    requires Sane(s) && k < |s.thieves| && !s.thieves[k].Resting?
    ensures RingsUsable(r) && r.owner == s.owner && r.bottom == s.bottom && r.rings == s.rings
  {
    match s.thieves[k]
    case SawTop(t) =>
      s.(thieves := s.thieves[k := if t >= s.bottom then Resting(Miss) else SawWork(t)])
    case SawWork(t) =>
      s.(thieves := s.thieves[k := SawRing(t, |s.rings| - 1)])
    case SawRing(t, a) =>
      // The ring may have been retired since; it can still be read.
      s.(thieves := s.thieves[k := SawValue(t, Slot(s.rings[a], t))])
    case SawValue(t, v) =>
      if s.top == t then s.(top := t + 1, thieves := s.thieves[k := Resting(Got(v))], log := s.log + [Stolen(v, k)])
      else s.(thieves := s.thieves[k := Resting(Miss)])
  }

  function Apply<T>(s: State<T>, blank: T, a: Action<T>): (r: State<T>)
    requires Enabled(s, a)
    ensures RingsUsable(r)
  {
    match a
    case BeginPush(v) => s.(owner := PushReady(v, s.bottom, s.top))
    case BeginPop => s.(bottom := s.bottom - 1, owner := PopLowered(s.bottom - 1))
    case BeginReserve(needed) => s.(owner := Reserving(needed, s.bottom, s.top))
    case OwnerStep => OwnerNext(s, blank)
    case BeginSteal(k) => s.(thieves := s.thieves[k := SawTop(s.top)])
    case ThiefStep(k) => ThiefNext(s, k)
  }

  /** The sequential deque the log must describe: pushes and pops at the back, steals at the front. */
  function Replay<T(==)>(log: seq<Event<T>>): Answer<seq<T>> {
    if log == [] then Got([]) else
      var before := Replay(log[..|log| - 1]);
      if !before.Got? then Miss else Effect(before.value, log[|log| - 1])
  }

  function Effect<T(==)>(d: seq<T>, e: Event<T>): Answer<seq<T>> {
    match e
    case Pushed(v) => Got(d + [v])
    case Popped(v) => if d != [] && d[|d| - 1] == v then Got(d[..|d| - 1]) else Miss
    case PopMissed => if d == [] then Got(d) else Miss
    case Stolen(v, _) => if d != [] && d[0] == v then Got(d[1..]) else Miss
  }

  /** One past the last position still in the deque, whatever the owner is in the middle of. */
  function End<T>(s: State<T>): int {
    match s.owner
    case PopLowered(b) => b + 1
    case PopValue(b, t) => if t == b then b + 1 else b
    case PopRace(b, _) => b + 1
    case PopRestore(b, _) => b + 1
    case _ => s.bottom
  }

  /** The deque's contents, front first. */
  function Contents<T>(s: State<T>): seq<T>
    requires |s.rings| > 0 && |Current(s)| >= 1
  {
    Live(Current(s), s.top, End(s))
  }

  predicate OwnerOk<T(==)>(s: State<T>)
    requires RingsUsable(s)
  {
    var ring := Current(s);
    match s.owner
    case Idle(_) => true
    case PushReady(_, b, t) => b == s.bottom && t <= s.top && b - t <= |ring| - 1
    case PushRoom(_, b) => b == s.bottom && b - s.top < |ring| - 1
    case PushStored(v, b) => b == s.bottom && b - s.top < |ring| - 1 && Slot(ring, b) == v
    case Reserving(_, b, t) => b == s.bottom && t <= s.top && b - t <= |ring| - 1
    case PopLowered(b) => b == s.bottom
    case PopValue(b, t) => b == s.bottom && t <= b && t <= s.top
    case PopRace(b, v) => b == s.bottom && s.top >= b && v == Slot(ring, b)
    case PopRestore(b, _) => b == s.bottom && s.top == b + 1
  }

  /** A thief that read `t` can still win only while top is `t`; then what it holds is the front element. */
  predicate ThiefOk<T(==)>(s: State<T>, f: Thief<T>)
    requires RingsUsable(s)
  {
    match f
    case Resting(_) => true
    case SawTop(t) => t <= s.top
    case SawWork(t) => t <= s.top && (s.top == t ==> t < End(s))
    case SawRing(t, a) => t <= s.top && a < |s.rings| && (s.top == t ==> t < End(s) && Slot(s.rings[a], t) == Slot(Current(s), t))
    case SawValue(t, v) => t <= s.top && (s.top == t ==> t < End(s) && v == Slot(Current(s), t))
  }

  /** The owner's latest event; thieves' steals in between do not concern it. */
  function LastOwn<T>(log: seq<Event<T>>): Answer<Event<T>> {
    if log == [] then Miss else if log[|log| - 1].Stolen? then LastOwn(log[..|log| - 1]) else Got(log[|log| - 1])
  }

  /** What thief k's latest successful steal took. */
  function LastSteal<T>(log: seq<Event<T>>, k: nat): Answer<T> {
    if log == [] then Miss else
      var e := log[|log| - 1];
      if e.Stolen? && e.thief == k then Got(e.value) else LastSteal(log[..|log| - 1], k)
  }

  /** What a steal returns is what the log says that thief took. */
  predicate LootOk<T(==)>(s: State<T>) {
    forall k :: 0 <= k < |s.thieves| && s.thieves[k].Resting? && s.thieves[k].answer.Got? ==> LastSteal(s.log, k) == s.thieves[k].answer
  }

  /** What a pop returns, or is about to, is what the log says it took. */
  predicate AnswerOk<T(==)>(s: State<T>)
    requires RingsUsable(s)
  {
    match s.owner
    case Idle(Got(v)) => LastOwn(s.log) == Got(Popped(v))
    case Idle(Miss) => LastOwn(s.log) == Got(PopMissed)
    case PopValue(b, t) => t < b ==> LastOwn(s.log) == Got(Popped(Slot(Current(s), b)))
    case PopRestore(_, Got(v)) => LastOwn(s.log) == Got(Popped(v))
    case PopRestore(_, Miss) => LastOwn(s.log) == Got(PopMissed)
    case _ => true
  }

  predicate Invariant<T(==)>(s: State<T>) {
    && RingsUsable(s)
    && s.top <= End(s) && End(s) - s.top <= |Current(s)| - 1
    && OwnerOk(s)
    && (forall k :: 0 <= k < |s.thieves| ==> ThiefOk(s, s.thieves[k]))
    && AnswerOk(s) && LootOk(s)
    && Replay(s.log) == Got(Contents(s))
  }

  /** From s to s' nothing a thief may rely on changes: the front element stays in place in every ring that holds it. */
  predicate Steady<T(==)>(s: State<T>, s': State<T>)
    requires RingsUsable(s) && RingsUsable(s')
  {
    && |s.rings| <= |s'.rings| && s.top <= s'.top
    && (s'.top == s.top < End(s) ==>
          && s.top < End(s')
          && Slot(Current(s'), s.top) == Slot(Current(s), s.top)
          && forall a :: 0 <= a < |s.rings| && Slot(s.rings[a], s.top) == Slot(Current(s), s.top) ==>
               Slot(s'.rings[a], s.top) == Slot(s.rings[a], s.top))
  }

  lemma ThiefKept<T>(s: State<T>, s': State<T>, f: Thief<T>)
    requires RingsUsable(s) && RingsUsable(s') && Steady(s, s') && ThiefOk(s, f)
    ensures ThiefOk(s', f)
  {
  }

  lemma ThievesKept<T>(s: State<T>, s': State<T>)
    requires Invariant(s) && RingsUsable(s') && Steady(s, s') && s'.thieves == s.thieves
    ensures forall k :: 0 <= k < |s'.thieves| ==> ThiefOk(s', s'.thieves[k])
  {
    forall k | 0 <= k < |s'.thieves| ensures ThiefOk(s', s'.thieves[k]) {
      ThiefKept(s, s', s.thieves[k]);
    }
  }

  lemma ReplaySnoc<T>(log: seq<Event<T>>, d: seq<T>, e: Event<T>)
    requires Replay(log) == Got(d)
    ensures Replay(log + [e]) == Effect(d, e)
    ensures !e.Stolen? ==> LastOwn(log + [e]) == Got(e)
    ensures e.Stolen? ==> LastOwn(log + [e]) == LastOwn(log)
    ensures forall k: nat :: LastSteal(log + [e], k) == if e.Stolen? && e.thief == k then Got(e.value) else LastSteal(log, k)
  {
    assert (log + [e])[..|log|] == log;
  }

  /** Publishing a grown ring changes neither the contents nor anything a thief holds. */
  lemma GrowKeeps<T>(s: State<T>, s': State<T>, blank: T, capacity: nat, t: nat, b: nat)
    requires Invariant(s) && capacity >= |Current(s)| && t <= s.top && t <= b == s.bottom == End(s) && b - t <= |Current(s)| - 1
    requires s'.rings == s.rings + [Grown(Current(s), capacity, blank, t, b)]
    requires s'.top == s.top && s'.bottom == s.bottom && End(s') == End(s)
    ensures RingsUsable(s') && Steady(s, s') && Contents(s') == Contents(s)
  {
    var ring := Current(s);
    LiveCopied(ring, seq(capacity, _ => blank), t, b, s.top, b);
    if s.top < b {
      CopiedSlot(ring, seq(capacity, _ => blank), t, b, s.top);
    }
  }

  lemma PushReadyStep<T>(s: State<T>, blank: T)
    requires Invariant(s) && Sane(s) && s.owner.PushReady?
    ensures Invariant(OwnerNext(s, blank))
  {
    var s' := OwnerNext(s, blank);
    var ring, b, t := Current(s), s.owner.b, s.owner.t;
    if b - t >= |ring| - 1 {
      GrowKeeps(s, s', blank, 2 * |ring|, t, b);
    }
    ThievesKept(s, s');
  }

  lemma ReservingStep<T>(s: State<T>, blank: T)
    requires Invariant(s) && Sane(s) && s.owner.Reserving?
    ensures Invariant(OwnerNext(s, blank))
  {
    var s' := OwnerNext(s, blank);
    var ring, needed, b, t := Current(s), s.owner.needed, s.owner.b, s.owner.t;
    if needed + 1 > |ring| {
      GrowKeeps(s, s', blank, ReservedCapacity(|ring|, needed), t, b);
    }
    ThievesKept(s, s');
  }

  /** Storing a pushed element touches no slot in use. */
  lemma PushRoomStep<T>(s: State<T>, blank: T)
    requires Invariant(s) && Sane(s) && s.owner.PushRoom?
    ensures Invariant(OwnerNext(s, blank))
  {
    var s' := OwnerNext(s, blank);
    var ring, b, v := Current(s), s.owner.b, s.owner.value;
    LivePut(ring, s.top, b, v);
    if s.top < b {
      PutElsewhere(ring, b, v, s.top);
    }
    ThievesKept(s, s');
  }

  lemma PushStoredStep<T>(s: State<T>, blank: T)
    requires Invariant(s) && Sane(s) && s.owner.PushStored?
    ensures Invariant(OwnerNext(s, blank))
  {
    var s' := OwnerNext(s, blank);
    ReplaySnoc(s.log, Contents(s), Pushed(s.owner.value));
    LiveSnoc(Current(s), s.top, s.owner.b);
    ThievesKept(s, s');
  }

  lemma PopFindsNothing<T>(s: State<T>, blank: T)
    requires Invariant(s) && Sane(s) && s.owner.PopLowered? && s.top > s.owner.low
    ensures Invariant(OwnerNext(s, blank))
  {
    ReplaySnoc(s.log, Contents(s), PopMissed);
    ThievesKept(s, OwnerNext(s, blank));
  }

  /** Above the front the last element is the owner's as soon as top has been read. */
  lemma PopTakesLast<T>(s: State<T>, blank: T)
    requires Invariant(s) && Sane(s) && s.owner.PopLowered? && s.top < s.owner.low
    ensures Invariant(OwnerNext(s, blank))
  {
    var s' := OwnerNext(s, blank);
    ReplaySnoc(s.log, Contents(s), Popped(Slot(Current(s), s.owner.low)));
    assert Contents(s') == Contents(s)[..|Contents(s)| - 1];
    ThievesKept(s, s');
  }

  /** The load of top after bottom was lowered. */
  lemma PopLoweredStep<T>(s: State<T>, blank: T)
    requires Invariant(s) && Sane(s) && s.owner.PopLowered?
    ensures Invariant(OwnerNext(s, blank))
  {
    if s.top > s.owner.low {
      PopFindsNothing(s, blank);
    } else if s.top < s.owner.low {
      PopTakesLast(s, blank);
    } else {
      ThievesKept(s, OwnerNext(s, blank));
    }
  }

  lemma PopValueStep<T>(s: State<T>, blank: T)
    requires Invariant(s) && Sane(s) && s.owner.PopValue?
    ensures Invariant(OwnerNext(s, blank))
  {
    ThievesKept(s, OwnerNext(s, blank));
  }

  /** The race for the last element. */
  lemma PopRaceStep<T>(s: State<T>, blank: T)
    requires Invariant(s) && Sane(s) && s.owner.PopRace?
    ensures Invariant(OwnerNext(s, blank))
  {
    var s' := OwnerNext(s, blank);
    ReplaySnoc(s.log, Contents(s), if s.top == s.owner.b then Popped(s.owner.value) else PopMissed);
    assert Contents(s') == [];
    ThievesKept(s, s');
  }

  lemma PopRestoreStep<T>(s: State<T>, blank: T)
    requires Invariant(s) && Sane(s) && s.owner.PopRestore?
    ensures Invariant(OwnerNext(s, blank))
  {
    ThievesKept(s, OwnerNext(s, blank));
  }

  lemma OwnerStepKeeps<T>(s: State<T>, blank: T)
    requires Invariant(s) && Sane(s) && !s.owner.Idle?
    ensures Invariant(OwnerNext(s, blank))
  {
    match s.owner
    case PushReady(_, _, _) => PushReadyStep(s, blank);
    case PushRoom(_, _) => PushRoomStep(s, blank);
    case PushStored(_, _) => PushStoredStep(s, blank);
    case Reserving(_, _, _) => ReservingStep(s, blank);
    case PopLowered(_) => PopLoweredStep(s, blank);
    case PopValue(_, _) => PopValueStep(s, blank);
    case PopRace(_, _) => PopRaceStep(s, blank);
    case PopRestore(_, _) => PopRestoreStep(s, blank);
  }

  /** A call of the owner begins. */
  lemma BeginKeeps<T>(s: State<T>, blank: T, a: Action<T>)
    requires Invariant(s) && Enabled(s, a) && (a.BeginPush? || a.BeginPop? || a.BeginReserve?)
    ensures Invariant(Apply(s, blank, a))
  {
    var s' := Apply(s, blank, a);
    assert Contents(s') == Contents(s);
    ThievesKept(s, s');
  }

  lemma OtherThieves<T>(s: State<T>, s': State<T>, k: nat)
    requires Invariant(s) && RingsUsable(s') && Steady(s, s') && k < |s.thieves|
    requires |s'.thieves| == |s.thieves| && (forall j :: 0 <= j < |s.thieves| && j != k ==> s'.thieves[j] == s.thieves[j])
    requires ThiefOk(s', s'.thieves[k])
    ensures forall j :: 0 <= j < |s'.thieves| ==> ThiefOk(s', s'.thieves[j])
  {
    forall j | 0 <= j < |s'.thieves| ensures ThiefOk(s', s'.thieves[j]) {
      if j != k {
        ThiefKept(s, s', s.thieves[j]);
      }
    }
  }

  /** A winning steal takes the front element; every other thief that saw the same top has lost. */
  lemma StealKeeps<T>(s: State<T>, k: nat)
    requires Invariant(s) && Sane(s) && k < |s.thieves| && s.thieves[k].SawValue? && s.top == s.thieves[k].t
    ensures Invariant(ThiefNext(s, k))
  {
    var s' := ThiefNext(s, k);
    ReplaySnoc(s.log, Contents(s), Stolen(s.thieves[k].value, k));
    assert Contents(s') == Contents(s)[1..];
    OtherThieves(s, s', k);
  }

  /** A step that only moves thief k keeps everything else by itself. */
  lemma QuietKeeps<T>(s: State<T>, s': State<T>, k: nat, f: Thief<T>)
    requires Invariant(s) && k < |s.thieves| && s' == s.(thieves := s.thieves[k := f]) && ThiefOk(s, f) && !(f.Resting? && f.answer.Got?)
    ensures Invariant(s')
  {
    assert forall g :: ThiefOk(s', g) == ThiefOk(s, g);
  }

  lemma ThiefStepKeeps<T>(s: State<T>, k: nat)
    requires Invariant(s) && Sane(s) && k < |s.thieves| && !s.thieves[k].Resting?
    ensures Invariant(ThiefNext(s, k))
  {
    if s.thieves[k].SawValue? && s.top == s.thieves[k].t {
      StealKeeps(s, k);
    } else {
      var s' := ThiefNext(s, k);
      QuietKeeps(s, s', k, s'.thieves[k]);
    }
  }

  lemma StepKeeps<T>(s: State<T>, blank: T, a: Action<T>)
    requires Invariant(s) && Enabled(s, a)
    ensures Invariant(Apply(s, blank, a))
  {
    match a
    case OwnerStep => OwnerStepKeeps(s, blank);
    case ThiefStep(k) => ThiefStepKeeps(s, k);
    case BeginSteal(k) => QuietKeeps(s, Apply(s, blank, a), k, SawTop(s.top));
    case _ => BeginKeeps(s, blank, a);
  }

  /** No reachable state blocks a call in progress or forbids a new one. */
  lemma NeverStuck<T>(s: State<T>)
    requires Invariant(s)
    ensures Sane(s)
  {
  }

  // Whole runs.

  predicate Legal<T>(s: State<T>, blank: T, run: seq<Action<T>>)
    decreases |run|
  {
    run == [] || (Enabled(s, run[0]) && Legal(Apply(s, blank, run[0]), blank, run[1..]))
  }

  function Final<T>(s: State<T>, blank: T, run: seq<Action<T>>): State<T>
    requires Legal(s, blank, run)
    decreases |run|
  {
    if run == [] then s else Final(Apply(s, blank, run[0]), blank, run[1..])
  }

  function Start<T>(capacity: nat, thieves: nat, blank: T): State<T>
    requires capacity >= 1
  {
    State(0, 0, [seq(capacity, _ => blank)], Idle(Void), seq(thieves, _ => Resting(Void)), [])
  }

  lemma {:induction false} RunKeeps<T>(s: State<T>, blank: T, run: seq<Action<T>>)
    requires Invariant(s) && Legal(s, blank, run)
    ensures Invariant(Final(s, blank, run))
    decreases |run|
  {
    if run != [] {
      StepKeeps(s, blank, run[0]);
      RunKeeps(Apply(s, blank, run[0]), blank, run[1..]);
    }
  }

  /** Every run, whatever the interleaving, is the run of one sequential deque. */
  lemma RunIsSequential<T>(capacity: nat, thieves: nat, blank: T, run: seq<Action<T>>)
    requires capacity >= 1 && Legal(Start(capacity, thieves, blank), blank, run)
    ensures Invariant(Final(Start(capacity, thieves, blank), blank, run))
  {
    RunKeeps(Start(capacity, thieves, blank), blank, run);
  }

  function In<T(==)>(e: Event<T>): multiset<T> {
    if e.Pushed? then multiset{e.value} else multiset{}
  }

  function Out<T(==)>(e: Event<T>): multiset<T> {
    if e.Popped? || e.Stolen? then multiset{e.value} else multiset{}
  }

  function PushedIn<T(==)>(log: seq<Event<T>>): multiset<T> {
    if log == [] then multiset{} else PushedIn(log[..|log| - 1]) + In(log[|log| - 1])
  }

  function TakenIn<T(==)>(log: seq<Event<T>>): multiset<T> {
    if log == [] then multiset{} else TakenIn(log[..|log| - 1]) + Out(log[|log| - 1])
  }

  /** One event moves an element from pushed to taken or leaves both alone. */
  lemma EffectConserves<T>(d: seq<T>, e: Event<T>)
    requires Effect(d, e).Got?
    ensures multiset(Effect(d, e).value) + Out(e) == multiset(d) + In(e)
  {
    if e.Popped? {
      assert d == d[..|d| - 1] + [e.value];
    } else if e.Stolen? {
      assert d == [e.value] + d[1..];
    }
  }

  lemma MoveAcross<T>(p: multiset<T>, t: multiset<T>, d: multiset<T>, d': multiset<T>, i: multiset<T>, o: multiset<T>)
    requires p == t + d && d' + o == d + i
    ensures p + i == (t + o) + d'
  {
    assert forall x :: p[x] + i[x] == t[x] + (d[x] + i[x]);
    assert forall x :: (d + i)[x] == d[x] + i[x] && (d' + o)[x] == d'[x] + o[x];
  }

  /** What was pushed is what was taken and what is still there: nothing is lost and nothing is returned twice. */
  lemma {:induction false} ReplayConserves<T>(log: seq<Event<T>>)
    requires Replay(log).Got?
    ensures PushedIn(log) == TakenIn(log) + multiset(Replay(log).value)
  {
    if log != [] {
      var before, e := log[..|log| - 1], log[|log| - 1];
      var d, d' := Replay(before).value, Replay(log).value;
      ReplayConserves(before);
      EffectConserves(d, e);
      MoveAcross(PushedIn(before), TakenIn(before), multiset(d), multiset(d'), In(e), Out(e));
    }
  }

  lemma RunConserves<T>(capacity: nat, thieves: nat, blank: T, run: seq<Action<T>>)
    requires capacity >= 1 && Legal(Start(capacity, thieves, blank), blank, run)
    ensures var s := Final(Start(capacity, thieves, blank), blank, run);
      RingsUsable(s) && PushedIn(s.log) == TakenIn(s.log) + multiset(Contents(s))
  {
    RunIsSequential(capacity, thieves, blank, run);
    ReplayConserves(Final(Start(capacity, thieves, blank), blank, run).log);
  }

  /** The event a step adds to the log, if any, and the taker's move of top with it. */
  lemma OwnerLogs<T>(s: State<T>, blank: T)
    requires Sane(s) && !s.owner.Idle?
    ensures var s' := OwnerNext(s, blank);
      (s'.log == s.log && s'.top == s.top) || exists e :: s'.log == s.log + [e] && s.top <= s'.top <= s.top + |Out(e)|
  {
    var s' := OwnerNext(s, blank);
    if s'.log != s.log {
      assert s'.log == s.log + [s'.log[|s.log|]];
    }
  }

  lemma StepLogs<T>(s: State<T>, blank: T, a: Action<T>)
    requires Enabled(s, a)
    ensures var s' := Apply(s, blank, a);
      (s'.log == s.log && s'.top == s.top) || exists e :: s'.log == s.log + [e] && s.top <= s'.top <= s.top + |Out(e)|
  {
    match a
    case OwnerStep => OwnerLogs(s, blank);
    case ThiefStep(k) =>
      var s' := ThiefNext(s, k);
      if s'.log != s.log {
        assert s'.log == s.log + [s'.log[|s.log|]];
      }
    case _ =>
  }

  /** `top` moves only when some call takes an element. */
  lemma TopStep<T>(s: State<T>, blank: T, a: Action<T>)
    requires Enabled(s, a)
    ensures var s' := Apply(s, blank, a); 0 <= s'.top - s.top <= |TakenIn(s'.log)| - |TakenIn(s.log)|
  {
    StepLogs(s, blank, a);
    var s' := Apply(s, blank, a);
    if s'.log != s.log {
      var e :| s'.log == s.log + [e] && s.top <= s'.top <= s.top + |Out(e)|;
      assert (s.log + [e])[..|s.log|] == s.log;
    }
  }

  lemma {:induction false} TopCountsTakes<T>(s: State<T>, blank: T, run: seq<Action<T>>)
    requires Legal(s, blank, run)
    ensures 0 <= Final(s, blank, run).top - s.top <= |TakenIn(Final(s, blank, run).log)| - |TakenIn(s.log)|
    decreases |run|
  {
    if run != [] {
      TopStep(s, blank, run[0]);
      TopCountsTakes(Apply(s, blank, run[0]), blank, run[1..]);
    }
  }

  // What each call does: a steal at every interleaving, and every call with nobody else moving.

  /** The owner has lowered bottom under the last element and the race for it is still open. */
  predicate PoppingLast<T>(s: State<T>) {
    s.owner.PopLowered? || s.owner.PopRace? || (s.owner.PopValue? && s.owner.t == s.owner.b)
  }

  predicate NothingToSteal<T>(s: State<T>)
    requires RingsUsable(s)
  {
    Contents(s) == [] || (|Contents(s)| == 1 && PoppingLast(s))
  }

  /** How many more steps a steal takes at most. */
  function StepsLeft<T>(f: Thief<T>): nat {
    match f
    case Resting(_) => 0
    case SawTop(_) => 4
    case SawWork(_) => 3
    case SawRing(_, _) => 2
    case SawValue(_, _) => 1
  }

  /**
   * A steal that gives up at its look at bottom found nothing to steal; if top is still what it read, it gives up
   * exactly when there is nothing to steal.
   */
  lemma EarlyMiss<T>(s: State<T>, k: nat)
    requires Invariant(s) && k < |s.thieves| && s.thieves[k].SawTop?
    ensures var f := ThiefNext(s, k).thieves[k];
      && (f == Resting(Miss) ==> NothingToSteal(s))
      && (s.top == s.thieves[k].t ==> (f == Resting(Miss) <==> NothingToSteal(s)))
  {
  }

  /** The last step takes the front element when top has not moved, and changes nothing but the thief otherwise. */
  lemma StealSettles<T>(s: State<T>, k: nat)
    requires Invariant(s) && k < |s.thieves| && s.thieves[k].SawValue?
    ensures var s' := ThiefNext(s, k);
      if s.top == s.thieves[k].t then
        && Contents(s) != [] && Contents(s') == Contents(s)[1..]
        && s'.thieves == s.thieves[k := Resting(Got(Contents(s)[0]))] && s'.log == s.log + [Stolen(Contents(s)[0], k)]
      else
        s' == s.(thieves := s.thieves[k := Resting(Miss)])
  {
  }

  /** A steal in progress goes on with the top it read; it can only give up at its look at bottom or at its last step. */
  lemma StealAdvances<T>(s: State<T>, k: nat)
    requires Invariant(s) && k < |s.thieves| && !s.thieves[k].Resting?
    ensures var f, f' := s.thieves[k], ThiefNext(s, k).thieves[k];
      f'.Resting? || (StepsLeft(f') == StepsLeft(f) - 1 && f'.t == f.t)
    ensures ThiefNext(s, k).thieves[k].Resting? ==> s.thieves[k].SawValue? || (s.thieves[k].SawTop? && NothingToSteal(s))
  {
  }

  /**
   * A steal that read top in `s` and comes to its last step later: it returns the front element if nobody took it
   * meanwhile, and misses only after a call that took an element.
   */
  lemma LostStealMeansTaken<T>(s: State<T>, blank: T, run: seq<Action<T>>, k: nat)
    requires Invariant(s) && Legal(s, blank, run) && k < |s.thieves| && s.thieves[k] == SawTop(s.top)
    requires k < |Final(s, blank, run).thieves| && Final(s, blank, run).thieves[k].SawValue?
    requires Final(s, blank, run).thieves[k].t == s.top
    ensures var r := Final(s, blank, run);
      && Invariant(r)
      && (r.top == s.top ==> Contents(r) != [] && ThiefNext(r, k).thieves[k] == Resting(Got(Contents(r)[0])))
      && (r.top != s.top ==> ThiefNext(r, k).thieves[k] == Resting(Miss) && |TakenIn(r.log)| > |TakenIn(s.log)|)
  {
    RunKeeps(s, blank, run);
    TopCountsTakes(s, blank, run);
    StealSettles(Final(s, blank, run), k);
  }

  lemma RunCons<T>(s: State<T>, blank: T, a: Action<T>, rest: seq<Action<T>>)
    requires Enabled(s, a) && Legal(Apply(s, blank, a), blank, rest)
    ensures Legal(s, blank, [a] + rest) && Final(s, blank, [a] + rest) == Final(Apply(s, blank, a), blank, rest)
  {
    assert ([a] + rest)[1..] == rest;
  }

  function Times<T>(a: Action<T>, n: nat): seq<Action<T>> {
    if n == 0 then [] else [a] + Times(a, n - 1)
  }

  /** One step of a steal with nobody else moving. */
  lemma StealGoesOn<T>(s: State<T>, k: nat)
    requires Invariant(s) && k < |s.thieves| && !s.thieves[k].Resting? && s.thieves[k].t == s.top
    requires StepsLeft(s.thieves[k]) > 1 && !NothingToSteal(s)
    ensures var s' := ThiefNext(s, k);
      && Invariant(s') && s'.top == s.top && Contents(s') == Contents(s) && !NothingToSteal(s') && s'.owner == s.owner
      && s'.thieves == s.thieves[k := s'.thieves[k]]
      && !s'.thieves[k].Resting? && s'.thieves[k].t == s.top && StepsLeft(s'.thieves[k]) == StepsLeft(s.thieves[k]) - 1
  {
    ThiefStepKeeps(s, k);
  }

  /** Thief k's remaining steps with nobody else moving. */
  lemma {:induction false} StealFinishes<T>(s: State<T>, blank: T, k: nat)
    requires Invariant(s) && k < |s.thieves| && !s.thieves[k].Resting? && s.thieves[k].t == s.top && !NothingToSteal(s)
    ensures var run := Times(ThiefStep(k), StepsLeft(s.thieves[k]));
      && Legal(s, blank, run) && Contents(s) != []
      && var r := Final(s, blank, run);
         && Invariant(r) && r.owner == s.owner && r.thieves == s.thieves[k := Resting(Got(Contents(s)[0]))]
         && Contents(r) == Contents(s)[1..]
    decreases StepsLeft(s.thieves[k])
  {
    var s' := ThiefNext(s, k);
    if StepsLeft(s.thieves[k]) == 1 {
      ThiefStepKeeps(s, k);
      StealSettles(s, k);
      RunCons(s, blank, ThiefStep(k), []);
    } else {
      StealGoesOn(s, k);
      StealFinishes(s', blank, k);
      RunCons(s, blank, ThiefStep(k), Times(ThiefStep(k), StepsLeft(s'.thieves[k])));
    }
  }

  /** A steal alone returns the front element and takes it out. */
  lemma StealAlone<T>(s: State<T>, blank: T, k: nat)
    requires Invariant(s) && k < |s.thieves| && s.thieves[k].Resting? && !NothingToSteal(s)
    ensures var run := [BeginSteal(k)] + Times(ThiefStep(k), 4);
      && Legal(s, blank, run) && Contents(s) != []
      && var r := Final(s, blank, run);
         && Invariant(r) && r.owner == s.owner && r.thieves == s.thieves[k := Resting(Got(Contents(s)[0]))]
         && Contents(r) == Contents(s)[1..]
  {
    StepKeeps(s, blank, BeginSteal(k));
    StealFinishes(Apply(s, blank, BeginSteal(k)), blank, k);
    RunCons(s, blank, BeginSteal(k), Times(ThiefStep(k), 4));
  }

  lemma PushStoredAlone<T>(s: State<T>, blank: T)
    requires Invariant(s) && s.owner.PushStored?
    ensures var r := OwnerNext(s, blank);
      && Invariant(r) && r.owner == Idle(Void) && r.thieves == s.thieves && |Current(r)| == |Current(s)|
      && Contents(r) == Contents(s) + [s.owner.value]
  {
    PushStoredStep(s, blank);
    LiveSnoc(Current(s), s.top, s.owner.b);
  }

  lemma PushRoomAlone<T>(s: State<T>, blank: T)
    requires Invariant(s) && s.owner.PushRoom?
    ensures var r := OwnerNext(s, blank);
      && Invariant(r) && r.owner == PushStored(s.owner.value, s.owner.b) && r.thieves == s.thieves
      && |Current(r)| == |Current(s)| && Contents(r) == Contents(s)
  {
    PushRoomStep(s, blank);
    LivePut(Current(s), s.top, s.owner.b, s.owner.value);
  }

  lemma PushReadyAlone<T>(s: State<T>, blank: T)
    requires Invariant(s) && s.owner.PushReady? && s.owner.t == s.top
    ensures var r := OwnerNext(s, blank);
      && Invariant(r) && r.owner == PushRoom(s.owner.value, s.owner.b) && r.thieves == s.thieves && Contents(r) == Contents(s)
      && |Current(r)| == if |Contents(s)| < |Current(s)| - 1 then |Current(s)| else 2 * |Current(s)|
  {
    PushReadyStep(s, blank);
    var ring, b, t := Current(s), s.owner.b, s.owner.t;
    if b - t >= |ring| - 1 {
      GrowKeeps(s, OwnerNext(s, blank), blank, 2 * |ring|, t, b);
    }
  }

  /** From the store into the ring on. */
  lemma PushStores<T>(s: State<T>, blank: T)
    requires Invariant(s) && s.owner.PushRoom?
    ensures var run := Times(OwnerStep, 2);
      && Legal(s, blank, run)
      && var r := Final(s, blank, run);
         && Invariant(r) && r.owner == Idle(Void) && r.thieves == s.thieves && |Current(r)| == |Current(s)|
         && Contents(r) == Contents(s) + [s.owner.value]
  {
    var s' := OwnerNext(s, blank);
    PushRoomAlone(s, blank);
    PushStoredAlone(s', blank);
    RunCons(s', blank, OwnerStep, Times(OwnerStep, 0));
    RunCons(s, blank, OwnerStep, Times(OwnerStep, 1));
  }

  /** The owner's remaining steps of a push with nobody else moving. */
  lemma PushFinishes<T>(s: State<T>, blank: T)
    requires Invariant(s) && s.owner.PushReady? && s.owner.t == s.top
    ensures var run := Times(OwnerStep, 3);
      && Legal(s, blank, run)
      && var r := Final(s, blank, run);
         && Invariant(r) && r.owner == Idle(Void) && r.thieves == s.thieves && Contents(r) == Contents(s) + [s.owner.value]
         && |Current(r)| == if |Contents(s)| < |Current(s)| - 1 then |Current(s)| else 2 * |Current(s)|
  {
    PushReadyAlone(s, blank);
    PushStores(OwnerNext(s, blank), blank);
    RunCons(s, blank, OwnerStep, Times(OwnerStep, 2));
  }

  /** A push alone puts the element at the back; the ring doubles when only its spare slot is left. */
  lemma PushAlone<T>(s: State<T>, blank: T, v: T)
    requires Invariant(s) && s.owner.Idle?
    ensures var run := [BeginPush(v)] + Times(OwnerStep, 3);
      && Legal(s, blank, run)
      && var r := Final(s, blank, run);
         && Invariant(r) && r.owner == Idle(Void) && r.thieves == s.thieves && Contents(r) == Contents(s) + [v]
         && |Current(r)| == if |Contents(s)| < |Current(s)| - 1 then |Current(s)| else 2 * |Current(s)|
  {
    StepKeeps(s, blank, BeginPush(v));
    PushFinishes(Apply(s, blank, BeginPush(v)), blank);
    RunCons(s, blank, BeginPush(v), Times(OwnerStep, 3));
  }

  /** The owner's last step of a pop that had to put bottom back. */
  lemma PopRestoreAlone<T>(s: State<T>, blank: T)
    requires Invariant(s) && s.owner.PopRestore?
    ensures var run := Times(OwnerStep, 1);
      && Legal(s, blank, run)
      && var r := Final(s, blank, run);
         Invariant(r) && r.owner == Idle(s.owner.answer) && r.thieves == s.thieves && Contents(r) == Contents(s) == []
  {
    PopRestoreStep(s, blank);
    RunCons(s, blank, OwnerStep, Times(OwnerStep, 0));
  }

  /** Alone in the race for the last element the owner wins it. */
  lemma PopRaceAlone<T>(s: State<T>, blank: T)
    requires Invariant(s) && s.owner.PopRace? && Contents(s) != []
    ensures var run := Times(OwnerStep, 2);
      && Legal(s, blank, run)
      && var r := Final(s, blank, run);
         Invariant(r) && r.owner == Idle(Got(Contents(s)[0])) && r.thieves == s.thieves && Contents(r) == []
  {
    PopRaceStep(s, blank);
    PopRestoreAlone(OwnerNext(s, blank), blank);
    RunCons(s, blank, OwnerStep, Times(OwnerStep, 1));
  }

  /** From the load of top on, when two or more elements are left. */
  lemma PopManyAlone<T>(s: State<T>, blank: T)
    requires Invariant(s) && s.owner.PopLowered? && s.top < s.owner.low
    ensures var run := Times(OwnerStep, 2);
      && Legal(s, blank, run) && Contents(s) != []
      && var r := Final(s, blank, run); var last := |Contents(s)| - 1;
         Invariant(r) && r.owner == Idle(Got(Contents(s)[last])) && r.thieves == s.thieves && Contents(r) == Contents(s)[..last]
  {
    var s1 := OwnerNext(s, blank);
    PopTakesLast(s, blank);
    PopValueStep(s1, blank);
    assert Contents(s1) == Contents(s)[..|Contents(s)| - 1];
    RunCons(s1, blank, OwnerStep, Times(OwnerStep, 0));
    RunCons(s, blank, OwnerStep, Times(OwnerStep, 1));
  }

  /** From the load of top on, when one element is left. */
  lemma PopOneAlone<T>(s: State<T>, blank: T)
    requires Invariant(s) && s.owner.PopLowered? && s.top == s.owner.low
    ensures var run := Times(OwnerStep, 4);
      && Legal(s, blank, run) && Contents(s) != []
      && var r := Final(s, blank, run);
         Invariant(r) && r.owner == Idle(Got(Contents(s)[0])) && r.thieves == s.thieves && Contents(r) == []
  {
    var s1 := OwnerNext(s, blank);
    PopLoweredStep(s, blank);
    var s2 := OwnerNext(s1, blank);
    PopValueStep(s1, blank);
    assert Contents(s2) == Contents(s1) == Contents(s);
    PopRaceAlone(s2, blank);
    RunCons(s1, blank, OwnerStep, Times(OwnerStep, 2));
    RunCons(s, blank, OwnerStep, Times(OwnerStep, 3));
  }

  /** From the load of top on, when nothing is left. */
  lemma PopNoneAlone<T>(s: State<T>, blank: T)
    requires Invariant(s) && s.owner.PopLowered? && s.top > s.owner.low
    ensures var run := Times(OwnerStep, 2);
      && Legal(s, blank, run)
      && var r := Final(s, blank, run); Invariant(r) && r.owner == Idle(Miss) && r.thieves == s.thieves && Contents(r) == []
  {
    PopFindsNothing(s, blank);
    PopRestoreAlone(OwnerNext(s, blank), blank);
    RunCons(s, blank, OwnerStep, Times(OwnerStep, 1));
  }

  /** A pop alone returns the last element and takes it out; it misses only on an empty deque. */
  lemma PopAlone<T>(s: State<T>, blank: T)
    requires Invariant(s) && s.owner.Idle?
    ensures var run := [BeginPop] + Times(OwnerStep, if |Contents(s)| == 1 then 4 else 2);
      && Legal(s, blank, run)
      && var r := Final(s, blank, run); var last := |Contents(s)| - 1;
         && Invariant(r) && r.thieves == s.thieves
         && r.owner == Idle(if Contents(s) == [] then Miss else Got(Contents(s)[last]))
         && Contents(r) == if Contents(s) == [] then [] else Contents(s)[..last]
  {
    var s1 := Apply(s, blank, BeginPop);
    StepKeeps(s, blank, BeginPop);
    assert Contents(s1) == Contents(s);
    if |Contents(s)| == 0 {
      PopNoneAlone(s1, blank);
      RunCons(s, blank, BeginPop, Times(OwnerStep, 2));
    } else if |Contents(s)| == 1 {
      PopOneAlone(s1, blank);
      RunCons(s, blank, BeginPop, Times(OwnerStep, 4));
    } else {
      PopManyAlone(s1, blank);
      RunCons(s, blank, BeginPop, Times(OwnerStep, 2));
    }
  }

  // What reserving capacity guarantees.

  function Size<T>(s: State<T>): int {
    s.bottom - s.top
  }

  /** A push by the owner with nobody else moving, up to the point where there is room. */
  function WithRoom<T>(s: State<T>, blank: T, v: T): (r: State<T>)
    requires Invariant(s) && s.owner.Idle?
    ensures Invariant(r) && r.owner == PushRoom(v, s.bottom) && r.top == s.top && r.bottom == s.bottom
    ensures |r.rings| == |s.rings| + if Size(s) >= |Current(s)| - 1 then 1 else 0
    ensures Size(s) < |Current(s)| - 1 ==> |Current(r)| == |Current(s)|
  {
    BeginKeeps(s, blank, BeginPush(v));
    var ready := Apply(s, blank, BeginPush(v));
    OwnerStepKeeps(ready, blank);
    OwnerNext(ready, blank)
  }

  /** The rest of the push. */
  function AfterPush<T>(s: State<T>, blank: T, v: T): (r: State<T>)
    requires Invariant(s) && s.owner.Idle?
    ensures Invariant(r) && r.owner.Idle? && Size(r) == Size(s) + 1
    ensures |r.rings| == |s.rings| + if Size(s) >= |Current(s)| - 1 then 1 else 0
    ensures Size(s) < |Current(s)| - 1 ==> |Current(r)| == |Current(s)|
  {
    var room := WithRoom(s, blank, v);
    OwnerStepKeeps(room, blank);
    var stored := OwnerNext(room, blank);
    OwnerStepKeeps(stored, blank);
    OwnerNext(stored, blank)
  }

  function AfterPushes<T>(s: State<T>, blank: T, vs: seq<T>): (r: State<T>)
    requires Invariant(s) && s.owner.Idle?
    ensures Invariant(r) && r.owner.Idle? && |r.rings| >= |s.rings|
    decreases |vs|
  {
    if vs == [] then s else AfterPushes(AfterPush(s, blank, vs[0]), blank, vs[1..])
  }

  function AfterReserve<T>(s: State<T>, blank: T, needed: nat): (r: State<T>)
    requires Invariant(s) && s.owner.Idle?
    ensures Invariant(r) && r.owner.Idle? && Size(r) == Size(s) && Contents(r) == Contents(s)
    ensures |Current(r)| == ReservedCapacity(|Current(s)|, needed)
  {
    BeginKeeps(s, blank, BeginReserve(needed));
    OwnerStepKeeps(Apply(s, blank, BeginReserve(needed)), blank);
    OwnerNext(Apply(s, blank, BeginReserve(needed)), blank)
  }

  /** A series of pushes allocates nothing exactly when it fits beside what is there, with one slot spare. */
  lemma {:induction false} PushesFit<T>(s: State<T>, blank: T, vs: seq<T>)
    requires Invariant(s) && s.owner.Idle?
    ensures |AfterPushes(s, blank, vs).rings| == |s.rings| <==> vs == [] || Size(s) + |vs| < |Current(s)|
    decreases |vs|
  {
    if vs != [] {
      PushesFit(AfterPush(s, blank, vs[0]), blank, vs[1..]);
    }
  }

  /**
   * Reserving for `needed` pushes does not take the elements already in the deque into account: the next `needed`
   * pushes are free of growth exactly when they fit together with those.
   */
  lemma ReserveCovers<T>(s: State<T>, blank: T, vs: seq<T>)
    requires Invariant(s) && s.owner.Idle?
    ensures var r := AfterReserve(s, blank, |vs|);
      |AfterPushes(r, blank, vs).rings| == |r.rings| <==> vs == [] || Size(s) + |vs| < ReservedCapacity(|Current(s)|, |vs|)
  {
    PushesFit(AfterReserve(s, blank, |vs|), blank, vs);
  }

  lemma {:induction false} PushesInPlace<T>(s: State<T>, blank: T, vs: seq<T>)
    requires Invariant(s) && s.owner.Idle? && Size(s) + |vs| < |Current(s)|
    ensures var r := AfterPushes(s, blank, vs); Size(r) == Size(s) + |vs| && |Current(r)| == |Current(s)|
    decreases |vs|
  {
    if vs != [] {
      PushesInPlace(AfterPush(s, blank, vs[0]), blank, vs[1..]);
    }
  }

  /**
   * A fresh deque filled but for the spare slot, as with 63 pushes into a ring of 64: reserving room for one more
   * changes nothing, and the next push grows.
   */
  lemma ReserveFallsShort<T>(capacity: nat, thieves: nat, blank: T, vs: seq<T>, v: T)
    requires capacity >= 2 && |vs| == capacity - 1
    ensures Invariant(Start(capacity, thieves, blank))
    ensures var r := AfterReserve(AfterPushes(Start(capacity, thieves, blank), blank, vs), blank, 1);
      |Current(r)| == capacity && |AfterPush(r, blank, v).rings| == |r.rings| + 1
  {
    PushesInPlace(Start(capacity, thieves, blank), blank, vs);
    assert ReservedCapacity(capacity, 1) == capacity;
  }
}
