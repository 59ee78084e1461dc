/**
 The scheduler as an interleaving of threads.

 Any number of threads call `wake(n)`, lock the machine, or poll it from outside.  Every access to
 the atomic `wake_mask` is one step, and so are the accesses to the external waker, locking, and the
 beginning and end of each poll of a future.  While a future is polled it may call `wake` any number
 of times.  A future is represented by its presence in `futs`.
 */
module Scheduler {
  import opened Basics

  /** `wake_mask`: the pending task bits and the "ticking" flag (bit 31). */
  datatype Word = Word(tasks: set<nat>, ticking: bool)

  /** What is left to do of a call `wake(n)`. */
  datatype WakeCall =
    | Load(n: nat)
    | Cas(n: nat, seen: Word)
    | Notify

  /** What follows the tick: `is_done`, the drop of a guard, `external_poll`, or `new`. */
  datatype After =
    | ThenIsDone
    | ThenRelease
    | ThenRegister(w: Waker)
    | ThenNew

  datatype Pc =
    | Idle
    | Waking(call: WakeCall)
    | Critical(inner: Option<WakeCall>)
    | Swap(after: After)
    | Polling(after: After, initial: bool, mask: set<nat>, depth: nat, running: bool, inner: Option<WakeCall>)
    | ExitCas(after: After)
    | Finish(after: After)
    | Unlock
    | Announce
    | Register(w: Waker)
  {
    predicate HoldsLock() {
      Critical? || Swap? || Polling? || ExitCas? || Finish? || Unlock?
    }

    /** This thread has claimed task `n` and still has to poll it. */
    predicate WillPoll(n: nat) {
      Polling? && n in mask && (if running then depth < n else depth <= n)
    }

    /** The wake call this thread is making from inside the lock, if any. */
    function Inner(): Option<WakeCall> {
      match this
      case Critical(inner) => inner
      case Polling(_, _, _, _, _, inner) => inner
      case _ => None
    }

    function WithInner(call: Option<WakeCall>): Pc {
      match this
      case Critical(_) => Critical(call)
      case Polling(after, initial, mask, depth, running, _) =>
        Polling(after, initial, mask, depth, running, call)
      case other => other
    }

    /** Between two calls, inside the lock: `wake` may be called. */
    predicate MayWake() {
      (Critical? || (Polling? && running)) && Inner().None?
    }

    predicate Constructing() {
      (Swap? || Polling? || ExitCas? || Finish?) && after.ThenNew?
    }
  }

  /**
   `count` is the number of tasks, `alive` is `alive_mask`, `external` the registered external waker
   and `fired` the external wakers fired so far.  `owed` is history: the tasks with a `wake` that
   landed (or their creation) after the beginning of their latest poll.
   */
  datatype State = State(
    count: nat,
    word: Word,
    alive: set<nat>,
    futs: set<nat>,
    external: Option<Waker>,
    fired: seq<Waker>,
    lock: Option<nat>,
    pcs: seq<Pc>,
    owed: set<nat>)

  datatype Action =
    | CallWake(n: nat)
    | LockIo
    | CallIsDone
    | CallExternalPoll(w: Waker)
    | Release
    | Go(spurious: bool)
    | EndPoll(ready: bool)

  const MAX_TASK: nat := 30

  predicate IsTask(n: nat, count: nat) {
    1 <= n <= count
  }

  function AllTasks(count: nat): set<nat> {
    set n: nat | n <= count && IsTask(n, count)
  }

  /** Thread 0 is constructing the machine and about to poll every task for the first time. */
  ghost function Init(count: nat, threads: nat): State
    requires count <= MAX_TASK && threads > 0
  {
    State(count, Word({}, false), {}, AllTasks(count), None, [], Some(0),
          [Polling(ThenNew, true, AllTasks(count), 1, false, None)] + seq(threads - 1, _ => Idle),
          AllTasks(count))
  }

  // ------------------------------------------------------------------------
  // Steps
  // ------------------------------------------------------------------------

  function NotifyExternal(s: State): State {
    s.(external := None, fired := s.fired + if s.external.Some? then [s.external.value] else [])
  }

  function WakeStep(s: State, call: WakeCall): (State, Option<WakeCall>) {
    match call
    case Load(n) =>
      if n in s.word.tasks then (s.(owed := s.owed + {n}), None)
      else (s, Some(Cas(n, s.word)))
    case Cas(n, seen) =>
      if s.word != seen then (s, Some(Load(n)))
      else
        (s.(word := Word(s.word.tasks + {n}, s.word.ticking), owed := s.owed + {n}),
         if seen.ticking then None else Some(Notify))
    case Notify => (NotifyExternal(s), None)
  }

  function At(s: State, i: nat, pc: Pc): State
    requires i < |s.pcs|
  {
    s.(pcs := s.pcs[i := pc])
  }

  function SwapStep(s: State, i: nat, after: After): State
    requires i < |s.pcs|
  {
    var mask := s.alive * s.word.tasks;
    At(s.(word := Word({}, true)), i,
       if mask != {} then Polling(after, false, mask, 1, false, None) else ExitCas(after))
  }

  function WalkStep(s: State, i: nat): State
    requires i < |s.pcs| && s.pcs[i].Polling?
  {
    var pc := s.pcs[i];
    if pc.depth > s.count then
      At(s.(alive := s.futs), i, Swap(pc.after))
    else if pc.depth in s.futs && pc.depth in pc.mask then
      At(s.(owed := s.owed - {pc.depth}), i, pc.(running := true))
    else
      At(s, i, pc.(depth := pc.depth + 1))
  }

  function FinishStep(s: State, i: nat, after: After): State
    requires i < |s.pcs|
  {
    var done := s.alive == {};
    match after
    case ThenIsDone => At(if done then NotifyExternal(s) else s, i, Unlock)
    case ThenNew => At(s.(lock := None), i, Idle)
    case ThenRelease => At(s.(lock := None), i, if done then Announce else Idle)
    case ThenRegister(w) => At(s.(lock := None), i, if done then Announce else Register(w))
  }

  /** Thread `i` performs action `a`; an action that is not possible changes nothing. */
  function Apply(s: State, i: nat, a: Action): State {
    if i >= |s.pcs| then s
    else
      var pc := s.pcs[i];
      match a
      case CallWake(n) =>
        if n > MAX_TASK then s
        else if pc.Idle? then At(s, i, Waking(Load(n)))
        else if pc.MayWake() then At(s, i, pc.WithInner(Some(Load(n))))
        else s
      case LockIo =>
        if pc.Idle? && s.lock.None? then At(s.(lock := Some(i)), i, Critical(None)) else s
      case CallIsDone =>
        if pc.Idle? && s.lock.None? then At(s.(lock := Some(i)), i, Swap(ThenIsDone)) else s
      case CallExternalPoll(w) =>
        if pc.Idle? && s.lock.None? then At(s.(lock := Some(i)), i, Swap(ThenRegister(w))) else s
      case Release =>
        if pc == Critical(None) then At(s, i, Swap(ThenRelease)) else s
      case EndPoll(ready) =>
        if pc.Polling? && pc.running && pc.inner.None? then
          At(if ready then s.(futs := s.futs - {pc.depth}) else s, i,
             pc.(running := false, depth := pc.depth + 1))
        else s
      case Go(spurious) => GoStep(s, i, spurious)
  }

  /** The next step of a thread that has no choice. */
  function GoStep(s: State, i: nat, spurious: bool): State
    requires i < |s.pcs|
  {
    var pc := s.pcs[i];
    match pc
    case Idle => s
    case Waking(call) =>
      var (s', rest) := WakeStep(s, call);
      At(s', i, if rest.Some? then Waking(rest.value) else Idle)
    case Critical(inner) =>
      if inner.None? then s
      else
        var (s', rest) := WakeStep(s, inner.value);
        At(s', i, pc.WithInner(rest))
    case Swap(after) => SwapStep(s, i, after)
    case Polling(_, _, _, _, running, inner) =>
      if !running then WalkStep(s, i)
      else if inner.None? then s
      else
        var (s', rest) := WakeStep(s, inner.value);
        At(s', i, pc.WithInner(rest))
    case ExitCas(after) =>
      if s.word == Word({}, true) && !spurious then
        At(s.(word := Word({}, false)), i, Finish(after))
      else At(s, i, Swap(after))
    case Finish(after) => FinishStep(s, i, after)
    case Unlock => At(s.(lock := None), i, Idle)
    case Announce => At(NotifyExternal(s), i, Idle)
    case Register(w) => At(s.(external := Some(w)), i, Idle)
  }

  // ------------------------------------------------------------------------
  // The invariant
  // ------------------------------------------------------------------------

  /** The thread that holds the lock, or `Idle` if there is none. */
  function Holder(s: State): Pc {
    if s.lock.Some? && s.lock.value < |s.pcs| then s.pcs[s.lock.value] else Idle
  }

  ghost predicate LockOk(s: State) {
    && (s.lock.Some? ==> s.lock.value < |s.pcs|)
    && (forall i :: 0 <= i < |s.pcs| ==> (s.pcs[i].HoldsLock() <==> s.lock == Some(i)))
  }

  /** Bit 31 is set exactly from the first swap of a tick to the exchange that ends it. */
  ghost predicate TickingOk(s: State) {
    var h := Holder(s);
    && (s.word.ticking ==> h.Swap? || (h.Polling? && !h.initial) || h.ExitCas?)
    && ((h.Polling? && !h.initial) || h.ExitCas? ==> s.word.ticking)
  }

  ghost predicate AliveOk(s: State) {
    var h := Holder(s);
    && s.count <= MAX_TASK && s.futs <= AllTasks(s.count)
    && (!h.Polling? ==> s.alive == s.futs)
    && (h.Polling? ==>
          && h.depth > 0
          && (h.initial ==> h.after.ThenNew?)
          && (!h.initial ==> s.futs <= s.alive)
          && (h.running ==> h.depth in s.futs)
          && (!h.running ==> h.inner.None?))
  }

  /** Every live task that is owed a poll is pending in the word or claimed by the tick. */
  ghost predicate OwedOk(s: State) {
    forall n :: n in s.owed && n in s.futs ==> n in s.word.tasks || Holder(s).WillPoll(n)
  }

  /** Until `new` has finished, nobody else can have entered the machine. */
  ghost predicate ConstructionOk(s: State) {
    Holder(s).Constructing() ==>
      && s.external.None?
      && forall i :: 0 <= i < |s.pcs| && s.lock != Some(i) ==> s.pcs[i].Idle? || s.pcs[i].Waking?
  }

  ghost predicate Inv(s: State) {
    LockOk(s) && TickingOk(s) && AliveOk(s) && OwedOk(s) && ConstructionOk(s)
  }

  lemma InitInv(count: nat, threads: nat)
    requires count <= MAX_TASK && threads > 0
    ensures Inv(Init(count, threads))
  {
  }

  /** Thread `i` moves to `pc` without touching the lock. */
  lemma MoveKeepsLock(s: State, i: nat, pc: Pc)
    requires i < |s.pcs| && LockOk(s)
    requires pc.HoldsLock() == s.pcs[i].HoldsLock()
    ensures LockOk(At(s, i, pc))
    ensures Holder(At(s, i, pc)) == if s.lock == Some(i) then pc else Holder(s)
  {
  }

  /** A step of a `wake` call: `pc` differs from the thread's old pc only in the call it is making. */
  lemma WakeKeepsInv(s: State, i: nat, call: WakeCall, pc: Pc)
    requires Inv(s) && i < |s.pcs|
    requires !s.pcs[i].HoldsLock() ==> pc.Idle? || pc.Waking?
    requires s.pcs[i].HoldsLock() ==> s.pcs[i].Inner().Some? && pc == s.pcs[i].WithInner(pc.Inner())
    ensures Inv(At(WakeStep(s, call).0, i, pc))
  {
    MoveKeepsLock(WakeStep(s, call).0, i, pc);
  }

  lemma SwapKeepsInv(s: State, i: nat)
    requires Inv(s) && i < |s.pcs| && s.pcs[i].Swap?
    ensures Inv(SwapStep(s, i, s.pcs[i].after))
  {
  }

  lemma WalkKeepsInv(s: State, i: nat)
    requires Inv(s) && i < |s.pcs| && s.pcs[i].Polling? && !s.pcs[i].running
    ensures Inv(WalkStep(s, i))
  {
  }

  lemma FinishKeepsInv(s: State, i: nat)
    requires Inv(s) && i < |s.pcs| && s.pcs[i].Finish?
    ensures Inv(FinishStep(s, i, s.pcs[i].after))
  {
  }

  lemma GoKeepsInv(s: State, i: nat, spurious: bool)
    requires Inv(s) && i < |s.pcs|
    ensures Inv(GoStep(s, i, spurious))
  {
    var pc, s' := s.pcs[i], GoStep(s, i, spurious);
    match pc
    case Waking(call) => WakeKeepsInv(s, i, call, s'.pcs[i]);
    case Critical(inner) =>
      if inner.Some? {
        WakeKeepsInv(s, i, inner.value, s'.pcs[i]);
      }
    case Polling(_, _, _, _, running, inner) =>
      if !running {
        WalkKeepsInv(s, i);
      } else if inner.Some? {
        WakeKeepsInv(s, i, inner.value, s'.pcs[i]);
      }
    case Swap(_) => SwapKeepsInv(s, i);
    case Finish(_) => FinishKeepsInv(s, i);
    case ExitCas(_) => MoveKeepsLock(s, i, s'.pcs[i]);
    case _ =>
  }

  lemma EndPollKeepsInv(s: State, i: nat, ready: bool)
    requires Inv(s) && i < |s.pcs|
    ensures Inv(Apply(s, i, EndPoll(ready)))
  {
  }

  /** Every step of every thread keeps the invariant. */
  lemma StepKeepsInv(s: State, i: nat, a: Action)
    requires Inv(s)
    ensures Inv(Apply(s, i, a))
  {
    if i < |s.pcs| {
      match a
      case Go(spurious) => GoKeepsInv(s, i, spurious);
      case EndPoll(ready) => EndPollKeepsInv(s, i, ready);
      case _ =>
    }
  }
}
