/**
 Every run of a watchable value: what a watch hears and is told between two of its polls.
 */
module WatchRuns {
  import opened Basics
  import opened Sequences
  import opened WatchSpec

  ghost function Next<T, A>(c: Cell<T, A>, op: Op<T, A>): (c': Cell<T, A>)
    requires Inv(c)
    ensures Inv(c')
  {
    if Possible(c, op) then
      StepKeepsInv(c, op);
      Step(c, op).next
    else c
  }

  /** Any sequence of operations; those that are not possible change nothing. */
  ghost function Run<T, A>(c: Cell<T, A>, ops: seq<Op<T, A>>): (c': Cell<T, A>)
    requires Inv(c)
    ensures Inv(c')
    decreases |ops|
  {
    if ops == [] then c else Next(Run(c, ops[..|ops| - 1]), ops[|ops| - 1])
  }

  function CountRun<T, A(==)>(v: Versions<T, A>, ops: seq<Op<T, A>>): Versions<T, A>
    decreases |ops|
  {
    if ops == [] then v
    else
      var v', op := CountRun(v, ops[..|ops| - 1]), ops[|ops| - 1];
      if Known(v', op) then Count(v', op) else v'
  }

  /** In every run, a watch is linked exactly if its last-seen version is the current one. */
  lemma {:induction false} RefinementRun<T, A>(c: Cell<T, A>, v: Versions<T, A>, ops: seq<Op<T, A>>)
    requires Inv(c) && Refines(c, v)
    ensures Refines(Run(c, ops), CountRun(v, ops))
    decreases |ops|
  {
    if ops != [] {
      var before := ops[..|ops| - 1];
      RefinementRun(c, v, before);
      Refinement(Run(c, before), CountRun(v, before), ops[|ops| - 1]);
    }
  }

  // ------------------------------------------------------------------------
  // Between two polls
  // ------------------------------------------------------------------------

  predicate Touches<T, A(==)>(op: Op<T, A>, a: A) {
    (op.Create? || op.Drop? || op.WatchPoll? || op.WatchCheck?) && op.a == a
  }

  /** The wakers of watch `a` that the run fires, in order. */
  ghost function Heard<T, A>(c: Cell<T, A>, ops: seq<Op<T, A>>, a: A): seq<Waker>
    requires Inv(c)
    decreases |ops|
  {
    if ops == [] then []
    else
      var c', op := Run(c, ops[..|ops| - 1]), ops[|ops| - 1];
      Heard(c, ops[..|ops| - 1], a) + if Possible(c', op) then Fired(Step(c', op).rung, a) else []
  }

  predicate HasSet<T, A>(ops: seq<Op<T, A>>) {
    exists k :: 0 <= k < |ops| && ops[k].Set?
  }

  function LastSet<T, A>(ops: seq<Op<T, A>>, value: T): T
    decreases |ops|
  {
    if ops == [] then value
    else if ops[|ops| - 1].Set? then ops[|ops| - 1].value
    else LastSet(ops[..|ops| - 1], value)
  }

  lemma {:induction false} FiredIsOwn<A>(watches: map<A, Option<Waker>>, linked: seq<A>, a: A)
    requires Distinct(linked) && forall b :: b in linked ==> b in watches
    ensures Fired(RungBy(watches, linked), a)
            == if a in linked && watches[a].Some? then [watches[a].value] else []
    decreases |linked|
  {
    if linked != [] {
      var w, rest := watches[linked[0]], RungBy(watches, linked[1..]);
      FiredIsOwn(watches, linked[1..], a);
      assert [] + rest == rest;
      if w.Some? {
        assert ([Ring(linked[0], w.value)] + rest)[1..] == rest;
      }
    }
  }

  /** Watch `a` was armed with `w`, and not touched since; `news` says whether a value was set since. */
  ghost predicate Awaits<T, A>(c: Cell<T, A>, a: A, w: Waker, news: bool) {
    && a in c.watches
    && (a in c.linked <==> !news)
    && c.watches[a] == if news then None else Some(w)
  }

  lemma AwaitsStep<T, A>(c: Cell<T, A>, op: Op<T, A>, a: A, w: Waker, news: bool)
    requires Inv(c) && Awaits(c, a, w, news) && Possible(c, op) && !Touches(op, a)
    ensures Awaits(Step(c, op).next, a, w, news || op.Set?)
    ensures Fired(Step(c, op).rung, a) == if op.Set? && !news then [w] else []
    ensures Step(c, op).next.value == if op.Set? then op.value else c.value
  {
    match op
    case Create(_) =>
    case Drop(b) => RemoveIsExact(c.linked, b);
    case Set(_) => FiredIsOwn(c.watches, c.linked, a);
    case WatchPoll(b, _) =>
    case WatchCheck(b, _) =>
  }

  lemma HasSetLast<T, A>(ops: seq<Op<T, A>>)
    requires ops != []
    ensures HasSet(ops) <==> HasSet(ops[..|ops| - 1]) || ops[|ops| - 1].Set?
  {
    var before := ops[..|ops| - 1];
    assert forall k :: 0 <= k < |before| ==> before[k] == ops[k];
  }

  lemma {:induction false} AwaitsRun<T, A>(c: Cell<T, A>, ops: seq<Op<T, A>>, a: A, w: Waker)
    requires Inv(c) && Awaits(c, a, w, false)
    requires forall k :: 0 <= k < |ops| ==> !Touches(ops[k], a)
    ensures Awaits(Run(c, ops), a, w, HasSet(ops))
    ensures Heard(c, ops, a) == if HasSet(ops) then [w] else []
    ensures Run(c, ops).value == LastSet(ops, c.value)
    decreases |ops|
  {
    if ops != [] {
      var before, op := ops[..|ops| - 1], ops[|ops| - 1];
      AwaitsRun(c, before, a, w);
      HasSetLast(ops);
      var c' := Run(c, before);
      if Possible(c', op) {
        AwaitsStep(c', op, a, w, HasSet(before));
      }
    }
  }

  /**
   After `watch_poll` or `watch_check` by watch `a` with waker `w`, and until `a` is touched again: if
   any values were set, however many, then `w` was fired exactly once, and the next poll is ready with
   the latest of them; if none was set, then `w` was not fired, and the next poll is pending.
   */
  lemma WatchContract<T, A>(c: Cell<T, A>, op: Op<T, A>, since: seq<Op<T, A>>, w': Waker)
    requires Inv(c) && (op.WatchPoll? || op.WatchCheck?) && op.a in c.watches
    requires forall k :: 0 <= k < |since| ==> !Touches(since[k], op.a)
    ensures var c1 := Next(c, op);
            var now := Run(c1, since);
            && Heard(c1, since, op.a) == (if HasSet(since) then [op.w] else [])
            && op.a in now.watches
            && Step(now, WatchPoll(op.a, w')).result
               == (if HasSet(since) then Ready(LastSet(since, c.value)) else Pending)
  {
    AwaitsRun(Next(c, op), since, op.a, op.w);
  }

  /** The first poll of a watch is ready, with the current value. */
  lemma FirstPollIsReady<T, A>(c: Cell<T, A>, a: A, since: seq<Op<T, A>>, w: Waker)
    requires Inv(c) && a !in c.watches
    requires forall k :: 0 <= k < |since| ==> !Touches(since[k], a)
    ensures var now := Run(Next(c, Create(a)), since);
            && a in now.watches
            && Step(now, WatchPoll(a, w)).result == Ready(LastSet(since, c.value))
  {
    NewWatch(Next(c, Create(a)), a, since);
  }

  lemma {:induction false} NewWatch<T, A>(c: Cell<T, A>, a: A, since: seq<Op<T, A>>)
    requires Inv(c) && a in c.watches && a !in c.linked
    requires forall k :: 0 <= k < |since| ==> !Touches(since[k], a)
    ensures var now := Run(c, since);
            a in now.watches && a !in now.linked && now.value == LastSet(since, c.value)
    decreases |since|
  {
    if since != [] {
      var before, op := since[..|since| - 1], since[|since| - 1];
      NewWatch(c, a, before);
      var c' := Run(c, before);
      if Possible(c', op) && op.Drop? {
        RemoveIsExact(c'.linked, op.a);
      }
    }
  }

  // ------------------------------------------------------------------------
  // The order of the wakers
  // ------------------------------------------------------------------------

  lemma {:induction false} RungByInOrder<A>(watches: map<A, Option<Waker>>, linked: seq<A>, a: A, b: A)
    requires Distinct(linked) && forall n :: n in linked ==> n in watches && watches[n].Some?
    requires Precedes(linked, a, b) && a in linked && b in linked
    ensures Precedes(RungBy(watches, linked), Ring(a, watches[a].value), Ring(b, watches[b].value))
    decreases |linked|
  {
    var rest := RungBy(watches, linked[1..]);
    assert ([Ring(linked[0], watches[linked[0]].value)] + rest)[1..] == rest;
    if linked[0] == a && b in linked[1..] {
      RungByIsExact(watches, linked[1..]);
    } else {
      PrecedesMeansIn(linked[1..], a, b);
      RungByInOrder(watches, linked[1..], a, b);
    }
  }

  lemma OrderStep<T, A>(c: Cell<T, A>, op: Op<T, A>, a: A, b: A)
    requires Inv(c) && Possible(c, op) && !Touches(op, a) && !Touches(op, b)
    requires a in c.linked && b in c.linked ==> Precedes(c.linked, a, b)
    ensures var linked' := Step(c, op).next.linked; a in linked' && b in linked' ==> Precedes(linked', a, b)
  {
    if a in c.linked && b in c.linked {
      match op
      case Create(_) =>
      case Drop(n) => PrecedesRemove(c.linked, a, b, n);
      case Set(_) =>
      case WatchPoll(n, _) => PrecedesAppend(c.linked, a, b, n);
      case WatchCheck(n, _) => PrecedesAppend(c.linked, a, b, n);
    } else if op.Drop? {
      RemoveIsExact(c.linked, op.a);
    }
  }

  lemma {:induction false} OrderRun<T, A>(c: Cell<T, A>, ops: seq<Op<T, A>>, a: A, b: A)
    requires Inv(c) && forall k :: 0 <= k < |ops| ==> !Touches(ops[k], a) && !Touches(ops[k], b)
    requires a in c.linked && b in c.linked ==> Precedes(c.linked, a, b)
    ensures var linked' := Run(c, ops).linked; a in linked' && b in linked' ==> Precedes(linked', a, b)
    decreases |ops|
  {
    if ops != [] {
      var before, op := ops[..|ops| - 1], ops[|ops| - 1];
      OrderRun(c, before, a, b);
      if Possible(Run(c, before), op) {
        OrderStep(Run(c, before), op, a, b);
      }
    }
  }

  /**
   First come, first served: if watch `b` is linked when `a` is already linked, and then neither is touched,
   the `set` that wakes them wakes `a` before `b`.
   */
  lemma FirstLinkedWakesFirst<T, A>(c: Cell<T, A>, a: A, op: Op<T, A>, since: seq<Op<T, A>>, value: T)
    requires Inv(c) && a in c.linked && (op.WatchPoll? || op.WatchCheck?) && op.a in c.watches && op.a !in c.linked
    requires forall k :: 0 <= k < |since| ==> !Touches(since[k], a) && !Touches(since[k], op.a)
    ensures var now := Run(Next(c, op), since);
            a in now.linked && op.a in now.linked ==>
              && now.watches[a].Some? && now.watches[op.a].Some?
              && Precedes(SetStep(now, value).rung, Ring(a, now.watches[a].value), Ring(op.a, now.watches[op.a].value))
  {
    var c1 := Next(c, op);
    PrecedesLast(c.linked, a, op.a);
    OrderRun(c1, since, a, op.a);
    var now := Run(c1, since);
    if a in now.linked && op.a in now.linked {
      RungByInOrder(now.watches, now.linked, a, op.a);
    }
  }
}
