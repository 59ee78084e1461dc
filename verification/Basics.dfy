/** Shared vocabulary: options, bytes, wakers and wake-ups. */
module Basics {

  datatype Option<+T> = None | Some(value: T)

  type byte = b: nat | b < 256

  /** A waker is the index of the task that it schedules. */
  type Waker = nat

  /** The waker stored in a leaf of an intrusive list was fired. */
  datatype Ring<A> = Ring(leaf: A, waker: Waker)

  function Wakers<A>(rung: seq<Ring<A>>): seq<Waker> {
    if rung == [] then [] else [rung[0].waker] + Wakers(rung[1..])
  }

  /** The wakers of leaf `a` among those fired, in order. */
  function Fired<A(==)>(rung: seq<Ring<A>>, a: A): seq<Waker> {
    if rung == [] then []
    else (if rung[0].leaf == a then [rung[0].waker] else []) + Fired(rung[1..], a)
  }

  /** Takes the waker out of a slot and fires it: `woken` are the wakers fired so far. */
  function Fire(woken: seq<Waker>, slot: Option<Waker>): seq<Waker> {
    if slot.Some? then woken + [slot.value] else woken
  }
}
