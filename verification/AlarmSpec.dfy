/**
 The alarm clock on values: what each operation of `AlarmClock` and `ClockAlarm` does to the clock, to
 the alarms, and to the list of armed alarms.  Times are integers.

 `AlarmClock` is proved to perform these steps.  Here they are proved to refine a plain timer table,
 which has no list and no waker slots (`Table`).
 */
module AlarmSpec {
  import opened Basics
  import opened Sequences

  /** The value of a leaf: the deadline (`None` disables the alarm) and the stored waker. */
  datatype Alarm = Alarm(val: Option<int>, waker: Option<Waker>)

  /**
   `threshold` and `provider` are `external_threshold` and `external_waker`; `armed` are the linked
   alarms in list order.
   */
  datatype Clock<A(==)> = Clock(
    time: int,
    threshold: Option<int>,
    provider: Option<Waker>,
    alarms: map<A, Alarm>,
    armed: seq<A>)

  /** The state after an operation, the alarms whose waker it fired, and its result. */
  datatype Effect<A(==)> = Effect(next: Clock<A>, rung: seq<Ring<A>>, told: Option<Waker>, result: Result)

  datatype Result = Pending | Ready | Earliest(min: Option<int>) | Nothing

  datatype Op<A> =
    | Create(a: A, at: Option<int>)
    | Drop(a: A)
    | SetAlarm(a: A, at: Option<int>)
    | PollAlarm(a: A, w: Waker)
    | Advance(to: int)
    | PollNewAlarm(w: Waker, below: Option<int>)

  // ------------------------------------------------------------------------
  // The operations
  // ------------------------------------------------------------------------

  predicate Due(alarm: Alarm, time: int) {
    alarm.val.None? || time >= alarm.val.value
  }

  /** The due alarms that hold a waker, in list order. */
  function RungBy<A(==)>(alarms: map<A, Alarm>, armed: seq<A>, time: int): seq<Ring<A>>
    requires forall a :: a in armed ==> a in alarms
  {
    if armed == [] then []
    else
      var x := alarms[armed[0]];
      (if Due(x, time) && x.waker.Some? then [Ring(armed[0], x.waker.value)] else [])
      + RungBy(alarms, armed[1..], time)
  }

  /** The alarms that are not due, in list order. */
  function StillArmed<A(==)>(alarms: map<A, Alarm>, armed: seq<A>, time: int): (r: seq<A>)
    requires forall a :: a in armed ==> a in alarms
    ensures forall a :: a in r ==> a in armed && !Due(alarms[a], time)
    ensures forall a :: a in armed && !Due(alarms[a], time) ==> a in r
  {
    if armed == [] then []
    else
      (if Due(alarms[armed[0]], time) then [] else [armed[0]]) + StillArmed(alarms, armed[1..], time)
  }

  function Min(m: Option<int>, t: int): Option<int> {
    if m.Some? && m.value <= t then m else Some(t)
  }

  /** The least deadline among `armed` and `m`. */
  function EarliestOf<A(==)>(alarms: map<A, Alarm>, armed: seq<A>, m: Option<int>): Option<int>
    requires forall a :: a in armed ==> a in alarms
  {
    if armed == [] then m
    else
      var x := alarms[armed[0]];
      EarliestOf(alarms, armed[1..], if x.val.Some? then Min(m, x.val.value) else m)
  }

  /** The due alarms give up their wakers. */
  function Silenced<A(==)>(alarms: map<A, Alarm>, armed: seq<A>, time: int): map<A, Alarm> {
    map a | a in alarms :: if a in armed && Due(alarms[a], time) then alarms[a].(waker := None) else alarms[a]
  }

  function AdvanceStep<A(==)>(c: Clock<A>, to: int): Effect<A>
    requires forall a :: a in c.armed ==> a in c.alarms
  {
    var time := if to > c.time then to else c.time;
    var left := StillArmed(c.alarms, c.armed, time);
    Effect(
      c.(time := time, threshold := None, armed := left, alarms := Silenced(c.alarms, c.armed, time)),
      RungBy(c.alarms, c.armed, time), None, Earliest(EarliestOf(c.alarms, left, None)))
  }

  function PollStep<A(==)>(c: Clock<A>, a: A, w: Waker): Effect<A>
    requires a in c.alarms
  {
    match c.alarms[a].val
    case None => Effect(c.(armed := Remove(c.armed, a)), [], None, Pending)
    case Some(t) =>
      if c.time >= t then Effect(c.(armed := Remove(c.armed, a)), [], None, Ready)
      else
        var tell := c.threshold.None? || t < c.threshold.value;
        Effect(
          c.(threshold := if tell then None else c.threshold,
             provider := if tell then None else c.provider,
             alarms := c.alarms[a := Alarm(Some(t), Some(w))],
             armed := if a in c.armed then c.armed else c.armed + [a]),
          [], if tell then c.provider else None, Pending)
  }

  predicate Possible<A(==)>(c: Clock<A>, op: Op<A>) {
    match op
    case Create(a, _) => a !in c.alarms
    case Drop(a) => a in c.alarms
    case SetAlarm(a, _) => a in c.alarms
    case PollAlarm(a, _) => a in c.alarms
    case Advance(_) => true
    case PollNewAlarm(_, _) => true
  }

  function Step<A(==)>(c: Clock<A>, op: Op<A>): Effect<A>
    requires Possible(c, op) && forall a :: a in c.armed ==> a in c.alarms
  {
    match op
    case Create(a, at) => Effect(c.(alarms := c.alarms[a := Alarm(at, None)]), [], None, Nothing)
    case Drop(a) => Effect(c.(alarms := c.alarms - {a}, armed := Remove(c.armed, a)), [], None, Nothing)
    case SetAlarm(a, at) =>
      Effect(c.(alarms := c.alarms[a := Alarm(at, None)], armed := Remove(c.armed, a)), [], None, Nothing)
    case PollAlarm(a, w) => PollStep(c, a, w)
    case Advance(to) => AdvanceStep(c, to)
    case PollNewAlarm(w, below) =>
      Effect(c.(threshold := below, provider := Some(w)), [], None, Pending)
  }

  // ------------------------------------------------------------------------
  // The state invariant
  // ------------------------------------------------------------------------

  /**
   An alarm is linked exactly if a waker is stored; a linked alarm's deadline is still to come; and a
   threshold implies that a provider is registered.
   */
  ghost predicate Inv<A>(c: Clock<A>) {
    Distinct(c.armed) && Linked(c)
  }

  ghost predicate Linked<A>(c: Clock<A>) {
    && (forall a :: a in c.armed ==> a in c.alarms && !Due(c.alarms[a], c.time))
    && (forall a :: a in c.alarms ==> (a in c.armed <==> c.alarms[a].waker.Some?))
    && (c.threshold.Some? ==> c.provider.Some?)
  }

  lemma {:induction false} StillArmedDistinct<A>(alarms: map<A, Alarm>, armed: seq<A>, time: int)
    requires Distinct(armed) && forall a :: a in armed ==> a in alarms
    ensures Distinct(StillArmed(alarms, armed, time))
    decreases |armed|
  {
    if armed != [] {
      var rest := StillArmed(alarms, armed[1..], time);
      StillArmedDistinct(alarms, armed[1..], time);
      assert [] + rest == rest && ([armed[0]] + rest)[1..] == rest;
    }
  }

  lemma StepKeepsLinked<A>(c: Clock<A>, op: Op<A>)
    requires Inv(c) && Possible(c, op)
    ensures Linked(Step(c, op).next)
  {
    match op
    case Create(a, _) =>
    case Drop(a) => RemoveIsExact(c.armed, a);
    case SetAlarm(a, _) => RemoveIsExact(c.armed, a);
    case PollAlarm(a, _) => RemoveIsExact(c.armed, a);
    case Advance(to) =>
    case PollNewAlarm(_, _) =>
  }

  lemma StepKeepsInv<A>(c: Clock<A>, op: Op<A>)
    requires Inv(c) && Possible(c, op)
    ensures Inv(Step(c, op).next)
  {
    StepKeepsLinked(c, op);
    match op
    case Create(a, _) =>
    case Drop(a) => RemoveIsExact(c.armed, a);
    case SetAlarm(a, _) => RemoveIsExact(c.armed, a);
    case PollAlarm(a, _) =>
      RemoveIsExact(c.armed, a);
      if a !in c.armed {
        DistinctAppend(c.armed, a);
      }
    case Advance(to) => StillArmedDistinct(c.alarms, c.armed, Step(c, op).next.time);
    case PollNewAlarm(_, _) =>
  }
}
