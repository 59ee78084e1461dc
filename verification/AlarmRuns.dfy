/**
 Every run of an alarm clock: it refines a plain timer table, alarms ring exactly when they should, and
 a provider that registers is told of every deadline that it does not know about.
 */
module AlarmRuns {
  import opened Basics
  import opened AlarmSpec
  import opened Sequences

  // ------------------------------------------------------------------------
  // Refinement of a timer table
  // ------------------------------------------------------------------------

  /** Waker `w` is to be fired at time `at`. */
  datatype Pledge = Pledge(at: int, w: Waker)

  datatype Table<A(==)> = Table(time: int, deadlines: map<A, Option<int>>, pledges: map<A, Pledge>)

  /** The pledges are the linked alarms: these are the alarms that hold a waker. */
  ghost function TableOf<A>(c: Clock<A>): Table<A>
    requires Linked(c)
  {
    Table(c.time,
          map a | a in c.alarms :: c.alarms[a].val,
          map a | a in c.alarms && c.alarms[a].waker.Some? ::
            Pledge(c.alarms[a].val.value, c.alarms[a].waker.value))
  }

  lemma PledgedIffLinked<A>(c: Clock<A>, a: A)
    requires Inv(c)
    ensures a in TableOf(c).pledges <==> a in c.armed
    ensures a in c.armed ==> c.time < TableOf(c).pledges[a].at
  {
  }

  function TableStep<A(==)>(t: Table<A>, op: Op<A>): Table<A>
    requires op.PollAlarm? ==> op.a in t.deadlines
  {
    match op
    case Create(a, at) => t.(deadlines := t.deadlines[a := at])
    case Drop(a) => t.(deadlines := t.deadlines - {a}, pledges := t.pledges - {a})
    case SetAlarm(a, at) => t.(deadlines := t.deadlines[a := at], pledges := t.pledges - {a})
    case PollAlarm(a, w) =>
      if t.deadlines[a].Some? && t.time < t.deadlines[a].value then
        t.(pledges := t.pledges[a := Pledge(t.deadlines[a].value, w)])
      else t
    case Advance(to) =>
      var time := if to > t.time then to else t.time;
      t.(time := time, pledges := map a | a in t.pledges && t.pledges[a].at > time :: t.pledges[a])
    case PollNewAlarm(_, _) => t
  }

  /** `rung` fires exactly the pledges that have fallen due, each once. */
  ghost predicate FiresDue<A>(rung: seq<Ring<A>>, before: Table<A>, time: int) {
    && Distinct(rung)
    && (forall r :: r in rung ==>
          r.leaf in before.pledges && before.pledges[r.leaf].at <= time && before.pledges[r.leaf].w == r.waker)
    && (forall a :: a in before.pledges && before.pledges[a].at <= time ==>
          Ring(a, before.pledges[a].w) in rung)
  }

  ghost predicate IsEarliest<A>(m: Option<int>, pledges: map<A, Pledge>) {
    match m
    case None => pledges == map[]
    case Some(t) =>
      && (exists a :: a in pledges && pledges[a].at == t)
      && (forall a :: a in pledges ==> t <= pledges[a].at)
  }

  lemma {:induction false} RungByIsExact<A>(alarms: map<A, Alarm>, armed: seq<A>, time: int)
    requires Distinct(armed) && forall a :: a in armed ==> a in alarms
    ensures var rung := RungBy(alarms, armed, time);
            && Distinct(rung)
            && (forall r :: r in rung ==>
                  r.leaf in armed && Due(alarms[r.leaf], time) && alarms[r.leaf].waker == Some(r.waker))
            && (forall a :: a in armed && Due(alarms[a], time) && alarms[a].waker.Some? ==>
                  Ring(a, alarms[a].waker.value) in rung)
    decreases |armed|
  {
    if armed != [] {
      var x, rest := alarms[armed[0]], RungBy(alarms, armed[1..], time);
      RungByIsExact(alarms, armed[1..], time);
      assert [] + rest == rest;
      if x.waker.Some? {
        assert ([Ring(armed[0], x.waker.value)] + rest)[1..] == rest;
      }
    }
  }

  lemma {:induction false} EarliestIsExact<A>(alarms: map<A, Alarm>, armed: seq<A>, m: Option<int>)
    requires forall a :: a in armed ==> a in alarms && alarms[a].val.Some?
    ensures var e := EarliestOf(alarms, armed, m);
            && (e.None? <==> m.None? && armed == [])
            && (e.Some? ==> (forall a :: a in armed ==> e.value <= alarms[a].val.value))
            && (e.Some? && m.Some? ==> e.value <= m.value)
            && (e.Some? ==> e == m || exists a :: a in armed && alarms[a].val == e)
    decreases |armed|
  {
    if armed != [] {
      var x := alarms[armed[0]];
      EarliestIsExact(alarms, armed[1..], Min(m, x.val.value));
      assert forall a :: a in armed ==> a == armed[0] || a in armed[1..];
      assert armed[0] in armed;
    }
  }

  lemma SilencedWaker<A>(c: Clock<A>, time: int, a: A)
    requires Linked(c) && a in c.alarms
    ensures var x, y := c.alarms[a], Silenced(c.alarms, c.armed, time)[a];
            && y.val == x.val
            && y.waker == if x.waker.Some? && Due(x, time) then None else x.waker
  {
  }

  lemma SilencingTable<A>(c: Clock<A>, c': Clock<A>)
    requires Linked(c) && Linked(c') && c'.alarms == Silenced(c.alarms, c.armed, c'.time)
    ensures TableOf(c').deadlines == TableOf(c).deadlines
    ensures TableOf(c').pledges
            == map a | a in TableOf(c).pledges && TableOf(c).pledges[a].at > c'.time :: TableOf(c).pledges[a]
  {
    forall a | a in c.alarms
      ensures c'.alarms[a].val == c.alarms[a].val
      ensures a in TableOf(c').pledges <==> a in TableOf(c).pledges && TableOf(c).pledges[a].at > c'.time
    {
      SilencedWaker(c, c'.time, a);
    }
  }

  lemma AdvanceTable<A>(c: Clock<A>, to: int)
    requires Linked(c) && Linked(AdvanceStep(c, to).next)
    ensures TableOf(AdvanceStep(c, to).next) == TableStep(TableOf(c), Advance(to))
  {
    SilencingTable(c, AdvanceStep(c, to).next);
  }

  lemma AdvanceFires<A>(c: Clock<A>, to: int)
    requires Inv(c)
    ensures var e := AdvanceStep(c, to); FiresDue(e.rung, TableOf(c), e.next.time)
  {
    RungByIsExact(c.alarms, c.armed, AdvanceStep(c, to).next.time);
  }

  lemma AdvanceEarliest<A>(c: Clock<A>, to: int)
    requires Linked(c) && Linked(AdvanceStep(c, to).next)
    ensures var e := AdvanceStep(c, to);
            e.result.Earliest? && IsEarliest(e.result.min, TableOf(e.next).pledges)
  {
    var e := AdvanceStep(c, to);
    EarliestIsExact(c.alarms, e.next.armed, None);
    var pledges := TableOf(e.next).pledges;
    if e.result.min.Some? {
      var a :| a in e.next.armed && c.alarms[a].val == e.result.min;
      assert a in pledges && pledges[a].at == e.result.min.value;
    }
  }

  lemma DropTable<A>(c: Clock<A>, a: A)
    requires Inv(c) && a in c.alarms && Linked(Step(c, Drop(a)).next)
    ensures TableOf(Step(c, Drop(a)).next) == TableStep(TableOf(c), Drop(a))
  {
    var t, t' := TableOf(Step(c, Drop(a)).next), TableStep(TableOf(c), Drop(a));
    assert t.deadlines == t'.deadlines;
    assert t.pledges == t'.pledges;
  }

  lemma DisarmingTable<A>(c: Clock<A>, c': Clock<A>, a: A, at: Option<int>)
    requires Linked(c) && Linked(c')
    requires c'.time == c.time && c'.alarms == c.alarms[a := Alarm(at, None)]
    ensures TableOf(c') == Table(c.time, TableOf(c).deadlines[a := at], TableOf(c).pledges - {a})
  {
    assert TableOf(c').deadlines == TableOf(c).deadlines[a := at];
    assert TableOf(c').pledges == TableOf(c).pledges - {a};
  }

  lemma SetAlarmTable<A>(c: Clock<A>, a: A, at: Option<int>)
    requires Inv(c) && a in c.alarms && Linked(Step(c, SetAlarm(a, at)).next)
    ensures TableOf(Step(c, SetAlarm(a, at)).next) == TableStep(TableOf(c), SetAlarm(a, at))
  {
    DisarmingTable(c, Step(c, SetAlarm(a, at)).next, a, at);
  }

  lemma ArmingTable<A>(c: Clock<A>, c': Clock<A>, a: A, t: int, w: Waker)
    requires Linked(c) && Linked(c') && a in c.alarms && c.alarms[a].val == Some(t)
    requires c'.time == c.time && c'.alarms == c.alarms[a := Alarm(Some(t), Some(w))]
    ensures TableOf(c') == TableOf(c).(pledges := TableOf(c).pledges[a := Pledge(t, w)])
  {
    assert TableOf(c').deadlines == TableOf(c).deadlines;
    assert TableOf(c').pledges == TableOf(c).pledges[a := Pledge(t, w)];
  }

  lemma PollTable<A>(c: Clock<A>, a: A, w: Waker)
    requires Inv(c) && a in c.alarms && Linked(PollStep(c, a, w).next)
    ensures TableOf(PollStep(c, a, w).next) == TableStep(TableOf(c), PollAlarm(a, w))
  {
    var c', at := PollStep(c, a, w).next, c.alarms[a].val;
    if at.Some? && c.time < at.value {
      ArmingTable(c, c', a, at.value, w);
    } else {
      assert c'.alarms == c.alarms;
    }
  }

  /**
   Each operation does to the timer table what `TableStep` says, fires exactly the pledges that fall
   due, each once, and `advance` returns the exact earliest deadline that is left.
   */
  lemma Refinement<A>(c: Clock<A>, op: Op<A>)
    requires Inv(c) && Possible(c, op)
    ensures var e := Step(c, op);
            && Inv(e.next) && TableOf(e.next) == TableStep(TableOf(c), op)
            && FiresDue(e.rung, TableOf(c), e.next.time)
            && (op.Advance? ==> e.result.Earliest? && IsEarliest(e.result.min, TableOf(e.next).pledges))
  {
    StepKeepsInv(c, op);
    match op
    case Advance(to) =>
      AdvanceTable(c, to);
      AdvanceFires(c, to);
      AdvanceEarliest(c, to);
    case Drop(a) => DropTable(c, a);
    case SetAlarm(a, at) => SetAlarmTable(c, a, at);
    case PollAlarm(a, w) => PollTable(c, a, w);
    case Create(_, _) =>
    case PollNewAlarm(_, _) =>
  }

  /** `alarm_poll` is ready exactly when the clock has reached the deadline; then no waker is kept. */
  lemma PollIsReadyWhenDue<A>(c: Clock<A>, a: A, w: Waker)
    requires Inv(c) && a in c.alarms
    ensures var e, at := PollStep(c, a, w), c.alarms[a].val;
            && (e.result == Ready <==> at.Some? && at.value <= c.time)
            && (e.result == Ready || at.None? ==> e.next == c)
            && (e.result == Pending && at.Some? ==> TableOf(c).time < at.value && a in e.next.armed)
  {
    RemoveIsExact(c.armed, a);
  }

  // ------------------------------------------------------------------------
  // Runs
  // ------------------------------------------------------------------------

  ghost function Next<A>(c: Clock<A>, op: Op<A>): (c': Clock<A>)
    requires Inv(c)
    ensures Inv(c')
  {
    if Possible(c, op) then
      StepKeepsInv(c, op);
      Step(c, op).next
    else c
  }

  /** Any sequence of operations; those that are not possible change nothing. */
  ghost function Run<A>(c: Clock<A>, ops: seq<Op<A>>): (c': Clock<A>)
    requires Inv(c)
    ensures Inv(c')
    decreases |ops|
  {
    if ops == [] then c else Next(Run(c, ops[..|ops| - 1]), ops[|ops| - 1])
  }

  /** The wakers of alarm `a` that an operation fires. */
  ghost function HeardIn<A>(c: Clock<A>, op: Op<A>, a: A): seq<Waker>
    requires Inv(c)
  {
    if Possible(c, op) then Fired(Step(c, op).rung, a) else []
  }

  /** The wakers of alarm `a` that the run fires, in order. */
  ghost function Heard<A>(c: Clock<A>, ops: seq<Op<A>>, a: A): seq<Waker>
    requires Inv(c)
    decreases |ops|
  {
    if ops == [] then []
    else Heard(c, ops[..|ops| - 1], a) + HeardIn(Run(c, ops[..|ops| - 1]), ops[|ops| - 1], a)
  }

  predicate Touches<A(==)>(op: Op<A>, a: A) {
    (op.Create? || op.Drop? || op.SetAlarm? || op.PollAlarm?) && op.a == a
  }

  /** Alarm `a` was last polled with waker `w` when its deadline `t` was to come, and not touched since. */
  ghost predicate Awaits<A>(c: Clock<A>, a: A, w: Waker, t: int)
    requires Inv(c)
  {
    && a in c.alarms && c.alarms[a].val == Some(t)
    && c.alarms[a].waker == (if c.time < t then Some(w) else None)
  }

  lemma {:induction false} FiredIsOwn<A>(alarms: map<A, Alarm>, armed: seq<A>, time: int, a: A)
    requires Distinct(armed) && forall b :: b in armed ==> b in alarms
    ensures Fired(RungBy(alarms, armed, time), a)
            == if a in armed && Due(alarms[a], time) && alarms[a].waker.Some? then [alarms[a].waker.value] else []
    decreases |armed|
  {
    if armed != [] {
      var x, rest := alarms[armed[0]], RungBy(alarms, armed[1..], time);
      FiredIsOwn(alarms, armed[1..], time, a);
      assert [] + rest == rest;
      if x.waker.Some? {
        assert ([Ring(armed[0], x.waker.value)] + rest)[1..] == rest;
      }
    }
  }

  lemma AwaitsStep<A>(c: Clock<A>, op: Op<A>, a: A, w: Waker, t: int)
    requires Inv(c) && Awaits(c, a, w, t) && !Touches(op, a)
    ensures Awaits(Next(c, op), a, w, t) && c.time <= Next(c, op).time
    ensures HeardIn(c, op, a) == if c.time < t <= Next(c, op).time then [w] else []
  {
    if op.Advance? {
      FiredIsOwn(c.alarms, c.armed, Next(c, op).time, a);
    }
  }

  lemma {:induction false} AwaitsSince<A>(c: Clock<A>, ops: seq<Op<A>>, a: A, w: Waker, t: int)
    requires Inv(c) && Awaits(c, a, w, t) && c.time < t
    requires forall k :: 0 <= k < |ops| ==> !Touches(ops[k], a)
    ensures Awaits(Run(c, ops), a, w, t)
    ensures Heard(c, ops, a) == if t <= Run(c, ops).time then [w] else []
    decreases |ops|
  {
    if ops != [] {
      AwaitsSince(c, ops[..|ops| - 1], a, w, t);
      AwaitsStep(Run(c, ops[..|ops| - 1]), ops[|ops| - 1], a, w, t);
    }
  }

  /** Only `advance` fires the wakers of alarms, and it fires each at most once. */
  lemma RingsAreDistinct<A>(c: Clock<A>, op: Op<A>)
    requires Inv(c) && Possible(c, op)
    ensures Distinct(Step(c, op).rung) && (Step(c, op).rung != [] ==> op.Advance?)
  {
    if op.Advance? {
      RungByIsExact(c.alarms, c.armed, Step(c, op).next.time);
    }
  }

  /**
   After `alarm_poll` returned `Pending` for deadline `t` with waker `w`, and as long as the alarm is
   not polled, set or dropped: the run fires the alarm's wakers not at all while the clock is before
   `t`, and exactly once, with `w`, when it is not.  The operation that fires it is the one that moves
   the clock from before `t` to `t` or later; until then the alarm is linked.
   */
  lemma AlarmSoundness<A>(c: Clock<A>, a: A, w: Waker, since: seq<Op<A>>, op: Op<A>)
    requires Inv(c) && a in c.alarms && c.alarms[a].val.Some? && PollStep(c, a, w).result == Pending
    requires forall k :: 0 <= k < |since| ==> !Touches(since[k], a)
    requires !Touches(op, a)
    ensures var t := c.alarms[a].val.value;
            var c1 := Next(c, PollAlarm(a, w));
            var now := Run(c1, since);
            var then' := Next(now, op);
            && Heard(c1, since, a) == (if t <= now.time then [w] else [])
            && now.time <= then'.time
            && HeardIn(now, op, a) == (if now.time < t <= then'.time then [w] else [])
            && (a in now.armed <==> now.time < t)
  {
    var t := c.alarms[a].val.value;
    var c1 := Next(c, PollAlarm(a, w));
    AwaitsSince(c1, since, a, w, t);
    var now := Run(c1, since);
    AwaitsStep(now, op, a, w, t);
    PledgedIffLinked(now, a);
  }

  // ------------------------------------------------------------------------
  // The order of the rings
  // ------------------------------------------------------------------------

  lemma {:induction false} StillArmedInOrder<A>(alarms: map<A, Alarm>, armed: seq<A>, time: int, a: A, b: A)
    requires forall n :: n in armed ==> n in alarms
    requires Precedes(armed, a, b) && a in alarms && b in alarms && !Due(alarms[a], time) && !Due(alarms[b], time)
    ensures Precedes(StillArmed(alarms, armed, time), a, b)
    decreases |armed|
  {
    var rest := StillArmed(alarms, armed[1..], time);
    assert [] + rest == rest && ([armed[0]] + rest)[1..] == rest;
    if !(armed[0] == a && b in armed[1..]) {
      StillArmedInOrder(alarms, armed[1..], time, a, b);
    }
  }

  /** The due alarm `a`, with its waker, rings. */
  ghost predicate Rings<A>(alarms: map<A, Alarm>, time: int, a: A) {
    a in alarms && Due(alarms[a], time) && alarms[a].waker.Some?
  }

  lemma {:induction false} RungByInOrder<A>(alarms: map<A, Alarm>, armed: seq<A>, time: int, a: A, b: A)
    requires Distinct(armed) && forall n :: n in armed ==> n in alarms
    requires Precedes(armed, a, b) && Rings(alarms, time, a) && Rings(alarms, time, b)
    ensures Precedes(RungBy(alarms, armed, time), Ring(a, alarms[a].waker.value), Ring(b, alarms[b].waker.value))
    decreases |armed|
  {
    var rest := RungBy(alarms, armed[1..], time);
    assert [] + rest == rest;
    if alarms[armed[0]].waker.Some? {
      assert ([Ring(armed[0], alarms[armed[0]].waker.value)] + rest)[1..] == rest;
    }
    if armed[0] == a && b in armed[1..] {
      RungByIsExact(alarms, armed[1..], time);
    } else {
      RungByInOrder(alarms, armed[1..], time, a, b);
    }
  }

  lemma OrderStep<A>(c: Clock<A>, op: Op<A>, a: A, b: A)
    requires Inv(c) && Possible(c, op) && !Touches(op, a) && !Touches(op, b)
    requires a in c.armed && b in c.armed ==> Precedes(c.armed, a, b)
    ensures var armed' := Step(c, op).next.armed; a in armed' && b in armed' ==> Precedes(armed', a, b)
  {
    var e := Step(c, op);
    if a in e.next.armed && b in e.next.armed {
      match op
      case Create(_, _) =>
      case Drop(n) =>
        RemoveIsExact(c.armed, n);
        PrecedesRemove(c.armed, a, b, n);
      case SetAlarm(n, _) =>
        RemoveIsExact(c.armed, n);
        PrecedesRemove(c.armed, a, b, n);
      case PollAlarm(n, w) =>
        RemoveIsExact(c.armed, n);
        PrecedesRemove(c.armed, a, b, n);
        PrecedesAppend(c.armed, a, b, n);
      case Advance(_) => StillArmedInOrder(c.alarms, c.armed, e.next.time, a, b);
      case PollNewAlarm(_, _) =>
    }
  }

  lemma {:induction false} OrderRun<A>(c: Clock<A>, ops: seq<Op<A>>, a: A, b: A)
    requires Inv(c) && forall k :: 0 <= k < |ops| ==> !Touches(ops[k], a) && !Touches(ops[k], b)
    requires a in c.armed && b in c.armed ==> Precedes(c.armed, a, b)
    ensures var armed' := Run(c, ops).armed; a in armed' && b in armed' ==> Precedes(armed', a, b)
    decreases |ops|
  {
    if ops != [] {
      var before, op := ops[..|ops| - 1], ops[|ops| - 1];
      OrderRun(c, before, a, b);
      if Possible(Run(c, before), op) {
        OrderStep(Run(c, before), op, a, b);
      }
    }
  }

  /**
   First come, first served: if alarm `b` is linked by a poll when `a` is already linked, and then neither
   is touched, then whenever an advance makes both of them due, `a` rings before `b`.
   */
  lemma FirstLinkedRingsFirst<A>(c: Clock<A>, a: A, b: A, w: Waker, since: seq<Op<A>>, to: int)
    requires Inv(c) && a in c.armed && b in c.alarms && b !in c.armed && b in PollStep(c, b, w).next.armed
    requires forall k :: 0 <= k < |since| ==> !Touches(since[k], a) && !Touches(since[k], b)
    ensures var now := Run(Next(c, PollAlarm(b, w)), since);
            var e := AdvanceStep(now, to);
            a in now.armed && b in now.armed && a !in e.next.armed && b !in e.next.armed ==>
              && now.alarms[a].waker.Some? && now.alarms[b].waker.Some?
              && Precedes(e.rung, Ring(a, now.alarms[a].waker.value), Ring(b, now.alarms[b].waker.value))
  {
    var c1 := Next(c, PollAlarm(b, w));
    RemoveIsExact(c.armed, b);
    PrecedesLast(c.armed, a, b);
    OrderRun(c1, since, a, b);
    var now := Run(c1, since);
    var e := AdvanceStep(now, to);
    if a in now.armed && b in now.armed && a !in e.next.armed && b !in e.next.armed {
      RungByInOrder(now.alarms, now.armed, e.next.time, a, b);
    }
  }

  // ------------------------------------------------------------------------
  // The provider
  // ------------------------------------------------------------------------

  /** Neither the provider's calls nor an advance. */
  predicate ByAlarms<A>(op: Op<A>) {
    !op.Advance? && !op.PollNewAlarm?
  }

  predicate AllByAlarms<A>(ops: seq<Op<A>>) {
    forall k :: 0 <= k < |ops| ==> ByAlarms(ops[k])
  }

  /**
   The provider knows of an alarm at `m` (or of none).  While it has not been woken, no linked alarm
   is due before, and any alarm that would be is going to wake it.
   */
  ghost predicate Informed<A>(c: Clock<A>, m: Option<int>)
    requires Inv(c)
  {
    c.provider.Some? ==>
      && (c.threshold.None? || c.threshold == m)
      && NoneBefore(c, m)
  }

  ghost predicate NoneBefore<A>(c: Clock<A>, m: Option<int>)
    requires Inv(c)
  {
    forall a :: a in c.armed ==> m.Some? && c.alarms[a].val.value >= m.value
  }

  lemma InformedStep<A>(c: Clock<A>, op: Op<A>, m: Option<int>)
    requires Inv(c) && Informed(c, m) && ByAlarms(op)
    ensures Informed(Next(c, op), m)
  {
    if Possible(c, op) && (op.Drop? || op.SetAlarm? || op.PollAlarm?) {
      RemoveIsExact(c.armed, op.a);
    }
  }

  lemma {:induction false} InformedRun<A>(c: Clock<A>, ops: seq<Op<A>>, m: Option<int>)
    requires Inv(c) && Informed(c, m) && AllByAlarms(ops)
    ensures Informed(Run(c, ops), m)
    decreases |ops|
  {
    if ops != [] {
      InformedRun(c, ops[..|ops| - 1], m);
      InformedStep(Run(c, ops[..|ops| - 1]), ops[|ops| - 1], m);
    }
  }

  lemma AdvanceInforms<A>(c: Clock<A>, to: int)
    requires Inv(c)
    ensures var e := AdvanceStep(c, to);
            Inv(e.next) && e.result.Earliest? && NoneBefore(e.next, e.result.min) && e.next.threshold.None?
  {
    StepKeepsInv(c, Advance(to));
    EarliestIsExact(c.alarms, AdvanceStep(c, to).next.armed, None);
  }

  /** The provider's wakers that the run fires, in order. */
  ghost function ToldIn<A>(c: Clock<A>, ops: seq<Op<A>>): seq<Waker>
    requires Inv(c)
    decreases |ops|
  {
    if ops == [] then []
    else
      var c', op := Run(c, ops[..|ops| - 1]), ops[|ops| - 1];
      if Possible(c', op) then Fire(ToldIn(c, ops[..|ops| - 1]), Step(c', op).told)
      else ToldIn(c, ops[..|ops| - 1])
  }

  /** The waker `w` was fired, once, or is still registered and was not fired. */
  predicate ToldOrRegistered<A>(c: Clock<A>, told: seq<Waker>, w: Waker) {
    || (c.provider.None? && told == [w])
    || (c.provider == Some(w) && told == [])
  }

  lemma ToldStep<A>(c: Clock<A>, op: Op<A>)
    requires Inv(c) && Possible(c, op) && !op.PollNewAlarm?
    ensures var e := Step(c, op);
            || (e.next.provider == c.provider && e.told.None?)
            || (e.next.provider.None? && e.told == c.provider)
  {
  }

  /** No operation but a registration changes the provider's slot, except by firing the waker in it. */
  lemma {:induction false} ToldAtMostOnce<A>(c: Clock<A>, ops: seq<Op<A>>, w: Waker)
    requires Inv(c) && c.provider == Some(w)
    requires forall k :: 0 <= k < |ops| ==> !ops[k].PollNewAlarm?
    ensures ToldOrRegistered(Run(c, ops), ToldIn(c, ops), w)
    decreases |ops|
  {
    if ops != [] {
      var front, last := ops[..|ops| - 1], ops[|ops| - 1];
      ToldAtMostOnce(c, front, w);
      if Possible(Run(c, front), last) {
        ToldStep(Run(c, front), last);
      }
    }
  }

  /** The provider was woken, once, or it is still registered and no linked alarm is due before `m`. */
  ghost predicate Served<A>(c: Clock<A>, told: seq<Waker>, w: Waker, m: Option<int>)
    requires Inv(c)
  {
    ToldOrRegistered(c, told, w) && (c.provider.Some? ==> NoneBefore(c, m))
  }

  lemma {:induction false} RunInTwo<A>(c: Clock<A>, first: seq<Op<A>>, second: seq<Op<A>>)
    requires Inv(c)
    ensures Run(c, first + second) == Run(Run(c, first), second)
    decreases |second|
  {
    if second == [] {
      assert first + second == first;
    } else {
      assert (first + second)[..|first + second| - 1] == first + second[..|second| - 1];
      RunInTwo(c, first, second[..|second| - 1]);
    }
  }

  /**
   "Register with `None`, then `advance`, which returns m": from then on, until the clock or the
   provider moves again, the provider has been woken, once, or it is still registered and no linked
   alarm is due before m.
   */
  lemma RegisterThenAdvance<A>(c: Clock<A>, w: Waker, between: seq<Op<A>>, to: int, after: seq<Op<A>>)
    requires Inv(c) && AllByAlarms(between) && AllByAlarms(after)
    ensures var c1, ops := Next(c, PollNewAlarm(w, None)), between + [Advance(to)] + after;
            var m := AdvanceStep(Run(c1, between), to).result.min;
            Served(Run(c1, ops), ToldIn(c1, ops), w, m)
  {
    var c1, ops := Next(c, PollNewAlarm(w, None)), between + [Advance(to)] + after;
    ToldAtMostOnce(c1, ops, w);
    var c2 := Run(c1, between);
    AdvanceInforms(c2, to);
    InformedRun(Next(c2, Advance(to)), after, AdvanceStep(c2, to).result.min);
    RunInTwo(c1, between + [Advance(to)], after);
    assert (between + [Advance(to)])[..|between|] == between;
  }

  lemma {:induction false} NoPollNoArming<A>(c: Clock<A>, ops: seq<Op<A>>, m: Option<int>)
    requires Inv(c) && NoneBefore(c, m) && AllByAlarms(ops)
    requires forall k :: 0 <= k < |ops| ==> !ops[k].PollAlarm?
    ensures NoneBefore(Run(c, ops), m)
    decreases |ops|
  {
    if ops != [] {
      NoPollNoArming(c, ops[..|ops| - 1], m);
      var c', op := Run(c, ops[..|ops| - 1]), ops[|ops| - 1];
      if Possible(c', op) && (op.Drop? || op.SetAlarm?) {
        RemoveIsExact(c'.armed, op.a);
      }
    }
  }

  lemma RegisterServes<A>(c: Clock<A>, w: Waker, m: Option<int>, after: seq<Op<A>>)
    requires Inv(c) && NoneBefore(c, m) && AllByAlarms(after)
    ensures var c1 := Next(c, PollNewAlarm(w, m));
            Served(Run(c1, after), ToldIn(c1, after), w, m)
  {
    ToldAtMostOnce(Next(c, PollNewAlarm(w, m)), after, w);
    InformedRun(Next(c, PollNewAlarm(w, m)), after, m);
  }

  /** "`advance`, which returns m, then register with m": the same, if no alarm is polled in between. */
  lemma AdvanceThenRegister<A>(c: Clock<A>, to: int, between: seq<Op<A>>, w: Waker, after: seq<Op<A>>)
    requires Inv(c) && AllByAlarms(between) && AllByAlarms(after)
    requires forall k :: 0 <= k < |between| ==> !between[k].PollAlarm?
    ensures var m := AdvanceStep(c, to).result.min;
            var c3 := Next(Run(Next(c, Advance(to)), between), PollNewAlarm(w, m));
            Served(Run(c3, after), ToldIn(c3, after), w, m)
  {
    var m, c1 := AdvanceStep(c, to).result.min, Next(c, Advance(to));
    AdvanceInforms(c, to);
    NoPollNoArming(c1, between, m);
    RegisterServes(Run(c1, between), w, m, after);
  }

  // ------------------------------------------------------------------------
  // The threshold
  // ------------------------------------------------------------------------

  /** A deadline that a provider who knows of `m` does not know about. */
  predicate Earlier(t: int, m: Option<int>) {
    m.None? || t < m.value
  }

  /** The operation polls alarm `a`, whose deadline is still to come, and before `m`. */
  predicate PollsEarlier<A(==)>(c: Clock<A>, op: Op<A>, a: A, m: Option<int>) {
    && op.PollAlarm? && op.a == a && a in c.alarms && c.alarms[a].val.Some?
    && c.time < c.alarms[a].val.value && Earlier(c.alarms[a].val.value, m)
  }

  /** Some operation of the run polls an alarm whose deadline is still to come, and before `m`. */
  ghost predicate SomePollsEarlier<A>(c: Clock<A>, ops: seq<Op<A>>, m: Option<int>)
    requires Inv(c)
    decreases |ops|
  {
    ops != [] &&
    var front, last := ops[..|ops| - 1], ops[|ops| - 1];
    SomePollsEarlier(c, front, m) || (last.PollAlarm? && PollsEarlier(Run(c, front), last, last.a, m))
  }

  /** One operation, after the provider registered `w` with `m`. */
  lemma ThresholdStep<A>(c: Clock<A>, op: Op<A>, w: Waker, m: Option<int>)
    requires Inv(c) && ByAlarms(op) && Possible(c, op)
    requires c.provider.None? || (c.provider == Some(w) && c.threshold == m)
    ensures var e, earlier := Step(c, op), op.PollAlarm? && PollsEarlier(c, op, op.a, m);
            && (c.provider.None? ==> e.told.None? && e.next.provider.None?)
            && (c.provider.Some? && earlier ==> e.told == Some(w) && e.next.provider.None?)
            && (c.provider.Some? && !earlier ==>
                  e.told.None? && e.next.provider == Some(w) && e.next.threshold == m)
  {
  }

  /**
   The threshold, exactly.  After the provider registered with `m`, and until it or the clock moves, it
   is woken, once, if some alarm is polled whose deadline is still to come and before `m`; if only later
   alarms are polled, it is not woken, and its registration stays as it was.
   */
  lemma {:induction false} ThresholdIsExact<A>(c: Clock<A>, w: Waker, m: Option<int>, ops: seq<Op<A>>)
    requires Inv(c) && c.provider == Some(w) && c.threshold == m && AllByAlarms(ops)
    ensures if SomePollsEarlier(c, ops, m) then ToldIn(c, ops) == [w] && Run(c, ops).provider.None?
            else ToldIn(c, ops) == [] && Run(c, ops).provider == Some(w) && Run(c, ops).threshold == m
    decreases |ops|
  {
    if ops != [] {
      var front, last := ops[..|ops| - 1], ops[|ops| - 1];
      ThresholdIsExact(c, w, m, front);
      if Possible(Run(c, front), last) {
        ThresholdStep(Run(c, front), last, w, m);
      }
    }
  }

  // ------------------------------------------------------------------------
  // When registering is safe
  // ------------------------------------------------------------------------

  /** Whatever the alarms do, the provider that registered `w` with `m` is served. */
  ghost predicate AlwaysServed<A(!new)>(c: Clock<A>, w: Waker, m: Option<int>)
    requires Inv(c)
  {
    forall after: seq<Op<A>> :: AllByAlarms(after) ==> Served(Run(c, after), ToldIn(c, after), w, m)
  }

  /**
   Registering with `m` is safe exactly if no linked alarm is due before `m` at that moment: then, and
   only then, whatever the alarms do afterwards, the provider is woken, once, or up to date.  Safe or
   not, it is woken by polls of earlier alarms only.
   */
  lemma RegistrationIsSafe<A(!new)>(c: Clock<A>, w: Waker, m: Option<int>)
    requires Inv(c)
    ensures NoneBefore(c, m) <==> AlwaysServed(Next(c, PollNewAlarm(w, m)), w, m)
    ensures var c1 := Next(c, PollNewAlarm(w, m));
            forall after: seq<Op<A>> :: AllByAlarms(after) ==>
              ToldIn(c1, after) == if SomePollsEarlier(c1, after, m) then [w] else []
  {
    var c1 := Next(c, PollNewAlarm(w, m));
    forall after: seq<Op<A>> | AllByAlarms(after)
      ensures ToldIn(c1, after) == if SomePollsEarlier(c1, after, m) then [w] else []
    {
      ThresholdIsExact(c1, w, m, after);
    }
    if NoneBefore(c, m) {
      forall after: seq<Op<A>> | AllByAlarms(after) ensures Served(Run(c1, after), ToldIn(c1, after), w, m) {
        RegisterServes(c, w, m, after);
      }
    } else {
      var none: seq<Op<A>> := [];
      assert AllByAlarms(none) && Run(c1, none) == c1;
    }
  }

  /** The operation takes the alarm out of the list whatever its deadline. */
  predicate Resets<A(==)>(op: Op<A>, a: A) {
    (op.SetAlarm? || op.Drop?) && op.a == a
  }

  predicate LinkedEarlier<A(==)>(c: Clock<A>, a: A, m: Option<int>)
    requires a in c.armed ==> a in c.alarms && c.alarms[a].val.Some?
  {
    a in c.armed && Earlier(c.alarms[a].val.value, m)
  }

  /** Alarm `a` was polled when its deadline was still to come, and before `m`; it was not reset since. */
  ghost predicate LeftBehind<A>(c: Clock<A>, ops: seq<Op<A>>, a: A, m: Option<int>)
    requires Inv(c)
    decreases |ops|
  {
    ops != [] &&
    var front, last := ops[..|ops| - 1], ops[|ops| - 1];
    PollsEarlier(Run(c, front), last, a, m) || (LeftBehind(c, front, a, m) && !Resets(last, a))
  }

  ghost predicate SomeLeftBehind<A(!new)>(c: Clock<A>, ops: seq<Op<A>>, m: Option<int>)
    requires Inv(c)
  {
    exists a :: LeftBehind(c, ops, a, m)
  }

  lemma LinkedEarlierStep<A>(c: Clock<A>, op: Op<A>, a: A, m: Option<int>)
    requires Inv(c) && ByAlarms(op)
    ensures LinkedEarlier(Next(c, op), a, m) <==>
              PollsEarlier(c, op, a, m) || (LinkedEarlier(c, a, m) && !Resets(op, a))
  {
    if Possible(c, op) && (op.Drop? || op.SetAlarm? || op.PollAlarm?) {
      RemoveIsExact(c.armed, op.a);
    }
  }

  lemma {:induction false} LinkedEarlierRun<A>(c: Clock<A>, ops: seq<Op<A>>, a: A, m: Option<int>)
    requires Inv(c) && NoneBefore(c, m) && AllByAlarms(ops)
    ensures LinkedEarlier(Run(c, ops), a, m) <==> LeftBehind(c, ops, a, m)
    decreases |ops|
  {
    if ops != [] {
      LinkedEarlierRun(c, ops[..|ops| - 1], a, m);
      LinkedEarlierStep(Run(c, ops[..|ops| - 1]), ops[|ops| - 1], a, m);
    }
  }

  lemma NoneBeforeMeansNoneLinked<A(!new)>(c: Clock<A>, m: Option<int>)
    requires Inv(c)
    ensures NoneBefore(c, m) <==> forall a :: !LinkedEarlier(c, a, m)
  {
    if forall a :: !LinkedEarlier(c, a, m) {
      forall a | a in c.armed ensures m.Some? && c.alarms[a].val.value >= m.value {
        assert !LinkedEarlier(c, a, m);
      }
    }
  }

  lemma NoneLeftBehind<A(!new)>(c: Clock<A>, ops: seq<Op<A>>, m: Option<int>)
    requires Inv(c) && NoneBefore(c, m) && AllByAlarms(ops)
    ensures NoneBefore(Run(c, ops), m) <==> !SomeLeftBehind(c, ops, m)
  {
    NoneBeforeMeansNoneLinked(Run(c, ops), m);
    forall a ensures LinkedEarlier(Run(c, ops), a, m) <==> LeftBehind(c, ops, a, m) {
      LinkedEarlierRun(c, ops, a, m);
    }
  }

  /**
   "`advance`, which returns m, then register with m", in terms of what happened in between: the
   provider is served in every continuation exactly if no alarm was polled with a deadline before m and
   left as it was.  `AdvanceThenRegister` is the case in which no alarm was polled at all.
   */
  lemma SafeUnlessLeftBehind<A(!new)>(c: Clock<A>, to: int, between: seq<Op<A>>, w: Waker)
    requires Inv(c) && AllByAlarms(between)
    ensures var m, c1 := AdvanceStep(c, to).result.min, Next(c, Advance(to));
            var c3 := Next(Run(c1, between), PollNewAlarm(w, m));
            AlwaysServed(c3, w, m) <==> !SomeLeftBehind(c1, between, m)
  {
    var m, c1 := AdvanceStep(c, to).result.min, Next(c, Advance(to));
    AdvanceInforms(c, to);
    NoneLeftBehind(c1, between, m);
    RegistrationIsSafe(Run(c1, between), w, m);
  }

  /** A clock at 0 with one alarm, set for 5 and not polled yet. */
  function OneAlarm(): Clock<nat> {
    Clock(0, None, None, map[7 := Alarm(Some(5), None)], [])
  }

  /** With a poll in between, the provider can be left waiting while an earlier alarm is linked. */
  lemma PollInBetweenIsMissed(w: Waker, p: Waker)
    ensures Inv(OneAlarm())
    ensures var m := AdvanceStep(OneAlarm(), 0).result.min;
            var c3 := Next(Next(Next(OneAlarm(), Advance(0)), PollAlarm(7, w)), PollNewAlarm(p, m));
            c3.provider == Some(p) && c3.armed == [7] && !NoneBefore(c3, m)
  {
    var c1 := Next(OneAlarm(), Advance(0));
    assert c1 == OneAlarm();
    var c2 := Next(c1, PollAlarm(7, w));
    assert c2.armed == [7] && 7 in c2.armed;
  }
}
