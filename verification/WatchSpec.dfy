/**
 Watchable values.  The operations of `WatchableValue` and `ValueWatch`, in which the list of waiting
 watches is all the state there is, are proved to refine version counters: every watch remembers the
 version that it saw last.
 */
module WatchSpec {
  import opened Basics
  import opened Sequences

  /** `watches` are the stored wakers; `linked` are the linked watches in list order. */
  datatype Cell<T, A(==)> = Cell(value: T, watches: map<A, Option<Waker>>, linked: seq<A>)

  datatype Result<T> = Pending | Ready(value: T) | Nothing

  datatype Effect<T, A(==)> = Effect(next: Cell<T, A>, rung: seq<Ring<A>>, result: Result<T>)

  datatype Op<T, A> =
    | Create(a: A)
    | Drop(a: A)
    | Set(value: T)
    | WatchPoll(a: A, w: Waker)
    | WatchCheck(a: A, w: Waker)

  // ------------------------------------------------------------------------
  // The operations
  // ------------------------------------------------------------------------

  /** The wakers of the linked watches, in list order. */
  function RungBy<A(==)>(watches: map<A, Option<Waker>>, linked: seq<A>): seq<Ring<A>>
    requires forall a :: a in linked ==> a in watches
  {
    if linked == [] then []
    else
      var w := watches[linked[0]];
      (if w.Some? then [Ring(linked[0], w.value)] else []) + RungBy(watches, linked[1..])
  }

  function Silenced<A(==)>(watches: map<A, Option<Waker>>, linked: seq<A>): map<A, Option<Waker>> {
    map a | a in watches :: if a in linked then None else watches[a]
  }

  function SetStep<T, A(==)>(c: Cell<T, A>, value: T): Effect<T, A>
    requires forall a :: a in c.linked ==> a in c.watches
  {
    Effect(Cell(value, Silenced(c.watches, c.linked), []), RungBy(c.watches, c.linked), Nothing)
  }

  function Rearm<T, A(==)>(c: Cell<T, A>, a: A, w: Waker): Cell<T, A> {
    c.(watches := c.watches[a := Some(w)], linked := if a in c.linked then c.linked else c.linked + [a])
  }

  predicate Possible<T, A(==)>(c: Cell<T, A>, op: Op<T, A>) {
    match op
    case Create(a) => a !in c.watches
    case Drop(a) => a in c.watches
    case Set(_) => true
    case WatchPoll(a, _) => a in c.watches
    case WatchCheck(a, _) => a in c.watches
  }

  function Step<T, A(==)>(c: Cell<T, A>, op: Op<T, A>): Effect<T, A>
    requires Possible(c, op) && forall a :: a in c.linked ==> a in c.watches
  {
    match op
    case Create(a) => Effect(c.(watches := c.watches[a := None]), [], Nothing)
    case Drop(a) => Effect(c.(watches := c.watches - {a}, linked := Remove(c.linked, a)), [], Nothing)
    case Set(value) => SetStep(c, value)
    case WatchPoll(a, w) => Effect(Rearm(c, a, w), [], if a in c.linked then Pending else Ready(c.value))
    case WatchCheck(a, w) => Effect(Rearm(c, a, w), [], Ready(c.value))
  }

  /** A watch is linked exactly if a waker is stored. */
  ghost predicate Inv<T, A>(c: Cell<T, A>) {
    && Distinct(c.linked)
    && (forall a :: a in c.linked ==> a in c.watches)
    && (forall a :: a in c.watches ==> (a in c.linked <==> c.watches[a].Some?))
  }

  lemma StepKeepsInv<T, A>(c: Cell<T, A>, op: Op<T, A>)
    requires Inv(c) && Possible(c, op)
    ensures Inv(Step(c, op).next)
  {
    match op
    case Create(_) =>
    case Drop(a) => RemoveIsExact(c.linked, a);
    case Set(_) =>
    case WatchPoll(a, _) =>
      if a !in c.linked {
        DistinctAppend(c.linked, a);
      }
    case WatchCheck(a, _) =>
      if a !in c.linked {
        DistinctAppend(c.linked, a);
      }
  }

  // ------------------------------------------------------------------------
  // Version counters
  // ------------------------------------------------------------------------

  /** What a watch remembers: the version that it saw last, and the task to be woken. */
  datatype Seen = Never | Seen(version: nat, w: Waker)

  datatype Versions<T, A(==)> = Versions(version: nat, value: T, seen: map<A, Seen>)

  predicate UpToDate<T, A(==)>(v: Versions<T, A>, a: A) {
    a in v.seen && v.seen[a].Seen? && v.seen[a].version == v.version
  }

  predicate Known<T, A(==)>(v: Versions<T, A>, op: Op<T, A>) {
    match op
    case Create(a) => a !in v.seen
    case Drop(a) => a in v.seen
    case Set(_) => true
    case WatchPoll(a, _) => a in v.seen
    case WatchCheck(a, _) => a in v.seen
  }

  function Count<T, A(==)>(v: Versions<T, A>, op: Op<T, A>): Versions<T, A> {
    match op
    case Create(a) => v.(seen := v.seen[a := Never])
    case Drop(a) => v.(seen := v.seen - {a})
    case Set(value) => v.(version := v.version + 1, value := value)
    case WatchPoll(a, w) => v.(seen := v.seen[a := Seen(v.version, w)])
    case WatchCheck(a, w) => v.(seen := v.seen[a := Seen(v.version, w)])
  }

  /** Ready with the current value, unless the watch has seen the current version. */
  function Answer<T, A(==)>(v: Versions<T, A>, op: Op<T, A>): Result<T> {
    match op
    case WatchPoll(a, _) => if UpToDate(v, a) then Pending else Ready(v.value)
    case WatchCheck(_, _) => Ready(v.value)
    case Create(_) => Nothing
    case Drop(_) => Nothing
    case Set(_) => Nothing
  }

  /** A `set` wakes the watches that are up to date, each once; nothing else wakes anything. */
  ghost predicate WakesUpToDate<T, A>(rung: seq<Ring<A>>, v: Versions<T, A>, op: Op<T, A>) {
    && Distinct(rung)
    && (forall r :: r in rung ==> op.Set? && UpToDate(v, r.leaf) && v.seen[r.leaf].w == r.waker)
    && (op.Set? ==> forall a :: a in v.seen && UpToDate(v, a) ==> Ring(a, v.seen[a].w) in rung)
  }

  /** A watch is linked exactly if it has seen the current version; then its waker is stored. */
  ghost predicate Refines<T, A>(c: Cell<T, A>, v: Versions<T, A>) {
    && c.value == v.value
    && c.watches.Keys == v.seen.Keys
    && (forall a :: a in v.seen && v.seen[a].Seen? ==> v.seen[a].version <= v.version)
    && (forall a :: a in c.watches ==> (a in c.linked <==> UpToDate(v, a)))
    && (forall a :: a in c.linked ==> a in c.watches && c.watches[a] == Some(v.seen[a].w))
  }

  lemma {:induction false} RungByIsExact<A>(watches: map<A, Option<Waker>>, linked: seq<A>)
    requires Distinct(linked) && forall a :: a in linked ==> a in watches
    ensures var rung := RungBy(watches, linked);
            && Distinct(rung)
            && (forall r :: r in rung ==> r.leaf in linked && watches[r.leaf] == Some(r.waker))
            && (forall a :: a in linked && watches[a].Some? ==> Ring(a, watches[a].value) in rung)
    decreases |linked|
  {
    if linked != [] {
      var w, rest := watches[linked[0]], RungBy(watches, linked[1..]);
      RungByIsExact(watches, linked[1..]);
      assert [] + rest == rest;
      if w.Some? {
        assert ([Ring(linked[0], w.value)] + rest)[1..] == rest;
      }
    }
  }

  lemma SetRefines<T, A>(c: Cell<T, A>, v: Versions<T, A>, value: T)
    requires Inv(c) && Refines(c, v)
    ensures Refines(SetStep(c, value).next, Count(v, Set(value)))
    ensures WakesUpToDate(SetStep(c, value).rung, v, Set(value))
  {
    RungByIsExact(c.watches, c.linked);
  }

  lemma RearmRefines<T, A>(c: Cell<T, A>, v: Versions<T, A>, a: A, w: Waker)
    requires Inv(c) && Refines(c, v) && a in c.watches
    ensures Refines(Rearm(c, a, w), v.(seen := v.seen[a := Seen(v.version, w)]))
  {
  }

  lemma DropRefines<T, A>(c: Cell<T, A>, v: Versions<T, A>, a: A)
    requires Inv(c) && Refines(c, v) && a in c.watches
    ensures Refines(Step(c, Drop(a)).next, Count(v, Drop(a)))
  {
    RemoveIsExact(c.linked, a);
  }

  /** Every operation does, answers and wakes what the version counters say. */
  lemma Refinement<T, A>(c: Cell<T, A>, v: Versions<T, A>, op: Op<T, A>)
    requires Inv(c) && Refines(c, v)
    ensures Possible(c, op) <==> Known(v, op)
    ensures Possible(c, op) ==>
              var e := Step(c, op);
              && Inv(e.next) && Refines(e.next, Count(v, op))
              && e.result == Answer(v, op)
              && WakesUpToDate(e.rung, v, op)
  {
    if Possible(c, op) {
      StepKeepsInv(c, op);
      match op
      case Create(_) =>
      case Drop(a) => DropRefines(c, v, a);
      case Set(value) => SetRefines(c, v, value);
      case WatchPoll(a, w) => RearmRefines(c, v, a, w);
      case WatchCheck(a, w) => RearmRefines(c, v, a, w);
    }
  }
}
