/**
 The promise of `external_poll`: after `Pending`, the caller's waker is fired, once, for the next wake
 that is not absorbed by a running tick, or when the machine is done (`PromiseHolds`).

 The waker is registered in a step of its own, after the tick and after the lock was released.  The
 promise holds for every continuation exactly if that step does not come too late: no live task bit is
 set and the machine is not finished at that moment, unless a tick is running or a notification is
 already on its way.  `LateRegistrationIsMissed` is a run in which it does come too late.
 */
module ExternalNotify {
  import opened Basics
  import opened Scheduler
  import opened SchedulerRuns

  /** Thread `i` is going to fire the external waker before it does anything else of note. */
  predicate WillNotify(s: State, i: nat) {
    && i < |s.pcs|
    && match s.pcs[i]
       case Waking(call) => call.Notify?
       case Critical(inner) => inner == Some(Notify)
       case Polling(_, _, _, _, running, inner) => running && inner == Some(Notify)
       case Finish(after) => !after.ThenNew? && s.alive == {}
       case Announce => true
       case _ => false
  }

  /** There is something to be told: a live task was woken, or the machine is done. */
  predicate News(s: State) {
    s.word.tasks * s.futs != {} || s.futs == {}
  }

  /** A waker is registered, there is news, no tick is running, and nobody is going to fire the waker. */
  ghost predicate Missed(s: State) {
    && s.external.Some? && !s.word.ticking && News(s)
    && forall i: nat :: !WillNotify(s, i)
  }

  predicate Registers(s: State, m: Move) {
    m.action.Go? && m.thread < |s.pcs| && s.pcs[m.thread].Register?
  }

  lemma StillNotifies(s: State, m: Move, j: nat)
    requires Inv(s) && WillNotify(s, j) && !Registers(s, m)
    ensures var s' := Apply(s, m.thread, m.action); s'.external.None? || WillNotify(s', j)
  {
    if m.thread == j {
    } else if s.pcs[j].Finish? {
      assert s.lock == Some(j);
    }
  }

  /** No step other than a registration can lose a notification. */
  lemma StepKeepsPromise(s: State, m: Move)
    requires Inv(s) && !Missed(s) && !Registers(s, m)
    ensures !Missed(Apply(s, m.thread, m.action))
  {
    var s' := Apply(s, m.thread, m.action);
    StepKeepsInv(s, m.thread, m.action);
    if Missed(s') {
      FuturesOnlyShrink(s, m);
      assert s.external.Some?;
      if exists j: nat :: WillNotify(s, j) {
        var j: nat :| WillNotify(s, j);
        StillNotifies(s, m, j);
        assert false;
      } else {
        NewsIsAnnounced(s, m);
        assert false;
      }
    }
  }

  /** A step that creates news outside a tick leaves its thread about to notify. */
  lemma NewsIsAnnounced(s: State, m: Move)
    requires Inv(s) && s.external.Some? && !Registers(s, m)
    requires s.word.ticking || !News(s)
    requires forall j: nat :: !WillNotify(s, j)
    ensures var s' := Apply(s, m.thread, m.action);
            s'.word.ticking || !News(s') || WillNotify(s', m.thread)
  {
    var s' := Apply(s, m.thread, m.action);
    FuturesOnlyShrink(s, m);
    if s.word.ticking {
      if EndsTick(s, m) {
        TickEndsQuiet(s, m);
        assert s.lock == Some(m.thread) && Holder(s) == s.pcs[m.thread];
      }
    } else if s'.futs == s.futs {
      if CurrentCall(s, m.thread).Some? && m.action.Go? {
      }
    }
  }

  ghost predicate NoRegistration(s: State, moves: seq<Move>) {
    forall k: nat :: k < |moves| ==> !Registers(Run(s, moves[..k]), moves[k])
  }

  lemma NoRegistrationInFront(s: State, moves: seq<Move>)
    requires moves != [] && NoRegistration(s, moves)
    ensures NoRegistration(s, moves[..|moves| - 1])
    ensures !Registers(Run(s, moves[..|moves| - 1]), moves[|moves| - 1])
  {
    var front := moves[..|moves| - 1];
    forall k: nat | k < |front| ensures !Registers(Run(s, front[..k]), front[k]) {
      assert front[..k] == moves[..k];
    }
  }

  /** A promise that holds right after the registration is kept in every continuation. */
  lemma {:induction false} PromiseIsKept(s: State, moves: seq<Move>)
    requires Inv(s) && !Missed(s) && NoRegistration(s, moves)
    ensures !Missed(Run(s, moves))
    decreases |moves|
  {
    if moves != [] {
      var front, last := moves[..|moves| - 1], moves[|moves| - 1];
      NoRegistrationInFront(s, moves);
      PromiseIsKept(s, front);
      RunKeepsInv(s, front);
      StepKeepsPromise(Run(s, front), last);
    }
  }

  /** A thread that will notify does so within two steps of its own. */
  lemma NotifiesSoon(s: State, i: nat)
    requires Inv(s) && WillNotify(s, i) && s.external.Some?
    ensures var s1 := Apply(s, i, Go(false));
            var s2 := Apply(s1, i, Go(false));
            && (s1.external.None? || s2.external.None?)
            && s2.fired == s.fired + [s.external.value]
  {
  }

  // ------------------------------------------------------------------------
  // The waker is fired
  // ------------------------------------------------------------------------

  /** The registered waker `w` has been fired, once, or is still registered and was not fired. */
  predicate FiredOrRegistered(s1: State, s: State, w: Waker) {
    || (s.external.None? && s.fired == s1.fired + [w])
    || (s.external == Some(w) && s.fired == s1.fired)
  }

  /** It has been fired, once, or some thread is going to fire it (see `FiresWithinTwoSteps`). */
  ghost predicate Notified(s1: State, s: State, w: Waker) {
    && FiredOrRegistered(s1, s, w)
    && (s.external.Some? ==> exists i: nat :: WillNotify(s, i))
  }

  /** The waker in the slot stays there and is not fired, or it is fired and the slot is emptied. */
  predicate SlotKept(s: State, s': State) {
    || (s'.external == s.external && s'.fired == s.fired)
    || (s.external.Some? && s'.external.None? && s'.fired == s.fired + [s.external.value])
  }

  lemma GoKeepsSlot(s: State, i: nat, spurious: bool)
    requires i < |s.pcs| && !s.pcs[i].Register?
    ensures SlotKept(s, GoStep(s, i, spurious))
  {
  }

  /** No step but a registration changes the slot, except by firing the waker in it. */
  lemma SlotStep(s: State, m: Move)
    requires !Registers(s, m)
    ensures SlotKept(s, Apply(s, m.thread, m.action))
  {
    if m.thread < |s.pcs| && m.action.Go? {
      GoKeepsSlot(s, m.thread, m.action.spurious);
    }
  }

  /** Until another registration, the waker is fired at most once, and the slot empties only by firing it. */
  lemma {:induction false} FiredAtMostOnce(s1: State, moves: seq<Move>, w: Waker)
    requires s1.external == Some(w) && NoRegistration(s1, moves)
    ensures FiredOrRegistered(s1, Run(s1, moves), w)
    decreases |moves|
  {
    if moves != [] {
      var front, last := moves[..|moves| - 1], moves[|moves| - 1];
      NoRegistrationInFront(s1, moves);
      FiredAtMostOnce(s1, front, w);
      SlotStep(Run(s1, front), last);
    }
  }

  /** Once there was news outside a tick, the waker is fired, or about to be, from then on. */
  lemma {:induction false} NewsIsTold(s1: State, moves: seq<Move>, k: nat, w: Waker)
    requires Inv(s1) && !Missed(s1) && s1.external == Some(w) && NoRegistration(s1, moves)
    requires k <= |moves| && !Run(s1, moves[..k]).word.ticking && News(Run(s1, moves[..k]))
    ensures Notified(s1, Run(s1, moves), w)
    decreases |moves|
  {
    FiredAtMostOnce(s1, moves, w);
    if k == |moves| {
      assert moves[..k] == moves;
      PromiseIsKept(s1, moves);
    } else {
      var front, last := moves[..|moves| - 1], moves[|moves| - 1];
      assert front[..k] == moves[..k];
      NoRegistrationInFront(s1, moves);
      NewsIsTold(s1, front, k, w);
      RunKeepsInv(s1, front);
      var s := Run(s1, front);
      SlotStep(s, last);
      if s.external.Some? {
        var i: nat :| WillNotify(s, i);
        StillNotifies(s, last, i);
      }
    }
  }

  // ------------------------------------------------------------------------
  // Nobody is disturbed for nothing
  // ------------------------------------------------------------------------

  /** Some call `wake` takes effect with this step while no tick is running. */
  predicate LandsOutsideTick(s: State, m: Move) {
    && m.action.Go? && !s.word.ticking
    && match CurrentCall(s, m.thread)
       case Some(Load(n)) => n in s.word.tasks
       case Some(Cas(_, seen)) => s.word == seen
       case _ => false
  }

  ghost predicate NobodyNotifies(s: State) {
    forall i: nat :: !WillNotify(s, i)
  }

  lemma ItStaysQuiet(s: State, i: nat, a: Action)
    requires Inv(s) && i < |s.pcs| && !WillNotify(s, i) && !LandsOutsideTick(s, Move(i, a))
    requires Apply(s, i, a).futs != {}
    ensures !WillNotify(Apply(s, i, a), i)
  {
    if s.pcs[i].ExitCas? {
      assert s.lock == Some(i) && Holder(s) == s.pcs[i];
    }
  }

  lemma OthersStayQuiet(s: State, m: Move, i: nat)
    requires Inv(s) && i != m.thread && !WillNotify(s, i)
    ensures !WillNotify(Apply(s, m.thread, m.action), i)
  {
    if i < |s.pcs| && s.pcs[i].Finish? {
      assert s.lock == Some(i);
    }
  }

  /** Only a wake outside a tick, or completion, makes a thread notify. */
  lemma StaysQuiet(s: State, m: Move)
    requires Inv(s) && NobodyNotifies(s) && !LandsOutsideTick(s, m)
    requires Apply(s, m.thread, m.action).futs != {}
    ensures NobodyNotifies(Apply(s, m.thread, m.action))
  {
    forall i: nat ensures !WillNotify(Apply(s, m.thread, m.action), i) {
      assert !WillNotify(s, i);
      if i != m.thread {
        OthersStayQuiet(s, m, i);
      } else if i < |s.pcs| {
        ItStaysQuiet(s, i, m.action);
      }
    }
  }

  lemma QuietStepFiresNothing(s: State, m: Move)
    requires Inv(s) && NobodyNotifies(s) && !Registers(s, m)
    ensures var s' := Apply(s, m.thread, m.action); s'.external == s.external && s'.fired == s.fired
  {
    assert !WillNotify(s, m.thread);
  }

  /** In the run, no wake takes effect outside a tick, and the machine is never done. */
  ghost predicate NothingToTell(s: State, moves: seq<Move>)
    decreases |moves|
  {
    s.futs != {} &&
    (moves != [] ==>
      var front, last := moves[..|moves| - 1], moves[|moves| - 1];
      && NothingToTell(s, front)
      && !LandsOutsideTick(Run(s, front), last)
      && Run(s, moves).futs != {})
  }

  /**
   The converse of the promise: if nobody is about to notify, then wakes that a tick absorbs, and all the
   other steps of a machine that is not done, never fire the external waker.
   */
  lemma {:induction false} SilentWithoutNews(s: State, moves: seq<Move>)
    requires Inv(s) && NobodyNotifies(s) && NoRegistration(s, moves) && NothingToTell(s, moves)
    ensures Run(s, moves).external == s.external && Run(s, moves).fired == s.fired
    ensures NobodyNotifies(Run(s, moves))
    decreases |moves|
  {
    if moves != [] {
      var front, last := moves[..|moves| - 1], moves[|moves| - 1];
      NoRegistrationInFront(s, moves);
      SilentWithoutNews(s, front);
      RunKeepsInv(s, front);
      StaysQuiet(Run(s, front), last);
      QuietStepFiresNothing(Run(s, front), last);
    }
  }

  // ------------------------------------------------------------------------
  // The promise
  // ------------------------------------------------------------------------

  /** Step `j` is a wake of a live task that takes effect while no tick is running. */
  predicate WakesOutsideTick(s1: State, moves: seq<Move>, j: nat, n: nat)
    requires j < |moves|
  {
    var s := Run(s1, moves[..j]);
    Lands(s, moves[j], n) && n in s.futs && !s.word.ticking
  }

  /** After the first `k` steps the machine is done, and no tick is running. */
  predicate DoneOutsideTick(s1: State, moves: seq<Move>, k: nat)
    requires k <= |moves|
  {
    var s := Run(s1, moves[..k]);
    s.futs == {} && !s.word.ticking
  }

  lemma OneMore(s0: State, moves: seq<Move>, m: Move)
    ensures Run(s0, moves + [m]) == Apply(Run(s0, moves), m.thread, m.action)
  {
  }

  lemma LandingIsNews(s: State, m: Move, n: nat)
    requires Lands(s, m, n) && n in s.futs && !s.word.ticking
    ensures var s' := Apply(s, m.thread, m.action); !s'.word.ticking && News(s')
  {
    assert n in Apply(s, m.thread, m.action).word.tasks * s.futs;
  }

  lemma NewsAfterLanding(s1: State, moves: seq<Move>, j: nat, n: nat)
    requires j < |moves| && WakesOutsideTick(s1, moves, j, n)
    ensures var s := Run(s1, moves[..j + 1]); !s.word.ticking && News(s)
  {
    LandingIsNews(Run(s1, moves[..j]), moves[j], n);
    assert moves[..j + 1] == moves[..j] + [moves[j]];
    OneMore(s1, moves[..j], moves[j]);
  }

  /** A wake that is not absorbed by a tick is told to the registered waker. */
  lemma NextWakeIsTold(s1: State, moves: seq<Move>, j: nat, n: nat, w: Waker)
    requires Inv(s1) && !Missed(s1) && s1.external == Some(w) && NoRegistration(s1, moves)
    requires j < |moves| && WakesOutsideTick(s1, moves, j, n)
    ensures Notified(s1, Run(s1, moves), w)
  {
    NewsAfterLanding(s1, moves, j, n);
    NewsIsTold(s1, moves, j + 1, w);
  }

  /**
   The promise made to the waker `w`, in one continuation: it is fired at most once; after a wake outside
   a tick, or once the machine is done, it has been fired or is about to be; and without either, and if
   nobody was about to notify, it stays registered and is not fired.
   */
  ghost predicate PromiseHolds(s1: State, moves: seq<Move>, w: Waker) {
    var s := Run(s1, moves);
    && FiredOrRegistered(s1, s, w)
    && (forall j: nat, n: nat :: j < |moves| && WakesOutsideTick(s1, moves, j, n) ==> Notified(s1, s, w))
    && (forall k: nat :: k <= |moves| && DoneOutsideTick(s1, moves, k) ==> Notified(s1, s, w))
    && (NobodyNotifies(s1) && NothingToTell(s1, moves) ==> s.external == Some(w) && s.fired == s1.fired)
  }

  lemma PromiseIsMet(s1: State, moves: seq<Move>, w: Waker)
    requires Inv(s1) && !Missed(s1) && s1.external == Some(w) && NoRegistration(s1, moves)
    ensures PromiseHolds(s1, moves, w)
  {
    FiredAtMostOnce(s1, moves, w);
    forall j: nat, n: nat | j < |moves| && WakesOutsideTick(s1, moves, j, n)
      ensures Notified(s1, Run(s1, moves), w)
    {
      NextWakeIsTold(s1, moves, j, n, w);
    }
    forall k: nat | k <= |moves| && DoneOutsideTick(s1, moves, k) ensures Notified(s1, Run(s1, moves), w) {
      NewsIsTold(s1, moves, k, w);
    }
    if NobodyNotifies(s1) && NothingToTell(s1, moves) {
      SilentWithoutNews(s1, moves);
    }
  }

  lemma WakeAgain(s1: State, i: nat, n: nat)
    requires Inv(s1) && i < |s1.pcs| && s1.pcs[i].Idle? && n in s1.word.tasks * s1.futs
    ensures var s2 := Apply(s1, i, CallWake(n));
            var s3 := Apply(s2, i, Go(false));
            && !Registers(s1, Move(i, CallWake(n))) && !Registers(s2, Move(i, Go(false)))
            && Lands(s2, Move(i, Go(false)), n) && s2.futs == s1.futs && s2.word == s1.word
            && s3.external == s1.external && s3.fired == s1.fired
            && forall j: nat :: WillNotify(s3, j) ==> WillNotify(s1, j)
  {
    var s2 := Apply(s1, i, CallWake(n));
    assert s2.pcs[i] == Waking(Load(n));
  }

  /** From a missed state, thread `i` can wake a live task again (or the machine is done): nobody is told. */
  lemma MissedIsBroken(s1: State, i: nat, w: Waker) returns (moves: seq<Move>)
    requires Inv(s1) && Missed(s1) && i < |s1.pcs| && s1.pcs[i].Idle? && s1.external == Some(w)
    ensures NoRegistration(s1, moves) && !PromiseHolds(s1, moves, w)
  {
    if s1.futs == {} {
      moves := [];
      assert DoneOutsideTick(s1, moves, 0);
    } else {
      var n :| n in s1.word.tasks * s1.futs;
      var call, land := Move(i, CallWake(n)), Move(i, Go(false));
      moves := [call, land];
      WakeAgain(s1, i, n);
      OneMore(s1, [], call);
      OneMore(s1, [call], land);
      assert moves[..0] == [] && moves[..1] == [] + [call] && moves == [call] + [land];
      assert WakesOutsideTick(s1, moves, 1, n);
    }
  }

  /**
   The registration of `external_poll`, exactly: the promise to the waker holds in every continuation
   if and only if, at the registration, a tick is running, or a notification is on its way, or no live
   task is woken and the machine is unfinished.
   */
  lemma RegistrationIsSafe(s: State, i: nat)
    requires Inv(s) && i < |s.pcs| && s.pcs[i].Register?
    ensures var s1, w := Apply(s, i, Go(false)), s.pcs[i].w;
            && s1.external == Some(w) && s1.fired == s.fired
            && ((forall moves :: NoRegistration(s1, moves) ==> PromiseHolds(s1, moves, w))
                <==>
                s.word.ticking || !News(s) || exists j: nat :: WillNotify(s, j))
  {
    var s1, w := Apply(s, i, Go(false)), s.pcs[i].w;
    StepKeepsInv(s, i, Go(false));
    forall j: nat ensures WillNotify(s, j) <==> WillNotify(s1, j) {
    }
    if !Missed(s1) {
      forall moves | NoRegistration(s1, moves) ensures PromiseHolds(s1, moves, w) {
        PromiseIsMet(s1, moves, w);
      }
    } else {
      var moves := MissedIsBroken(s1, i, w);
    }
  }

  // ------------------------------------------------------------------------
  // How soon
  // ------------------------------------------------------------------------

  /** The steps that thread `i` still needs until it fires the waker. */
  function StepsLeft(s: State, i: nat): nat
    requires i < |s.pcs|
  {
    if s.pcs[i].Finish? && !s.pcs[i].after.ThenIsDone? then 2 else 1
  }

  function OwnSteps(moves: seq<Move>, i: nat): nat
    decreases |moves|
  {
    if moves == [] then 0
    else
      var last := moves[|moves| - 1];
      OwnSteps(moves[..|moves| - 1], i) + if last.thread == i && last.action.Go? then 1 else 0
  }

  lemma OneStepCloser(s: State, m: Move, i: nat)
    requires Inv(s) && WillNotify(s, i) && !Registers(s, m)
    ensures var s', own := Apply(s, m.thread, m.action), m.thread == i && m.action.Go?;
            || s'.external.None?
            || (WillNotify(s', i) && StepsLeft(s', i) <= StepsLeft(s, i) - if own then 1 else 0)
  {
    StillNotifies(s, m, i);
  }

  /** However the other threads interleave, two steps of its own are enough. */
  lemma {:induction false} FiresWithinTwoSteps(s: State, i: nat, moves: seq<Move>, w: Waker)
    requires Inv(s) && WillNotify(s, i) && s.external == Some(w) && NoRegistration(s, moves)
    ensures var s' := Run(s, moves);
            || (s'.external.None? && s'.fired == s.fired + [w])
            || (WillNotify(s', i) && OwnSteps(moves, i) + StepsLeft(s', i) <= 2)
    decreases |moves|
  {
    FiredAtMostOnce(s, moves, w);
    if moves != [] {
      var front, last := moves[..|moves| - 1], moves[|moves| - 1];
      NoRegistrationInFront(s, moves);
      FiresWithinTwoSteps(s, i, front, w);
      RunKeepsInv(s, front);
      SlotStep(Run(s, front), last);
      if Run(s, front).external.Some? {
        OneStepCloser(Run(s, front), last, i);
      }
    }
  }

  // ------------------------------------------------------------------------
  // A registration that comes too late
  // ------------------------------------------------------------------------

  /** A machine with one task and two threads, built and waiting. */
  function Built(word: Word, lock: Option<nat>, pc0: Pc, pc1: Pc, owed: set<nat>): State {
    State(1, word, {1}, {1}, None, [], lock, [pc0, pc1], owed)
  }

  lemma OneTask()
    ensures Init(1, 2) == State(1, Word({}, false), {}, {1}, None, [], Some(0),
                                [Polling(ThenNew, true, {1}, 1, false, None), Idle], {1})
  {
    assert AllTasks(1) == {1};
  }

  lemma FirstPollRun() returns (moves: seq<Move>)
    ensures Run(Init(1, 2), moves) == Built(Word({}, false), Some(0), Swap(ThenNew), Idle, {})
  {
    var s0 := Init(1, 2);
    OneTask();
    OneMore(s0, [], Move(0, Go(false)));
    moves := [] + [Move(0, Go(false))];
    assert Run(s0, moves) == s0.(pcs := [Polling(ThenNew, true, {1}, 1, true, None), Idle], owed := {});
    OneMore(s0, moves, Move(0, EndPoll(false)));
    moves := moves + [Move(0, EndPoll(false))];
    assert Run(s0, moves) == s0.(pcs := [Polling(ThenNew, true, {1}, 2, false, None), Idle], owed := {});
    OneMore(s0, moves, Move(0, Go(false)));
    moves := moves + [Move(0, Go(false))];
  }

  /** Thread 0 builds the machine; the first poll of task 1 returns `Pending`. */
  lemma BuildRun() returns (moves: seq<Move>)
    ensures Run(Init(1, 2), moves) == Built(Word({}, false), None, Idle, Idle, {})
  {
    var s0 := Init(1, 2);
    moves := FirstPollRun();
    OneMore(s0, moves, Move(0, Go(false)));
    moves := moves + [Move(0, Go(false))];
    assert Run(s0, moves) == Built(Word({}, true), Some(0), ExitCas(ThenNew), Idle, {});
    OneMore(s0, moves, Move(0, Go(false)));
    moves := moves + [Move(0, Go(false))];
    assert Run(s0, moves) == Built(Word({}, false), Some(0), Finish(ThenNew), Idle, {});
    OneMore(s0, moves, Move(0, Go(false)));
    moves := moves + [Move(0, Go(false))];
  }

  /** Thread 0 polls from outside, and is about to register its waker. */
  lemma PollRun(w: Waker) returns (moves: seq<Move>)
    ensures Run(Init(1, 2), moves) == Built(Word({}, false), None, Register(w), Idle, {})
  {
    var s0 := Init(1, 2);
    moves := BuildRun();
    OneMore(s0, moves, Move(0, CallExternalPoll(w)));
    moves := moves + [Move(0, CallExternalPoll(w))];
    assert Run(s0, moves) == Built(Word({}, false), Some(0), Swap(ThenRegister(w)), Idle, {});
    OneMore(s0, moves, Move(0, Go(false)));
    moves := moves + [Move(0, Go(false))];
    assert Run(s0, moves) == Built(Word({}, true), Some(0), ExitCas(ThenRegister(w)), Idle, {});
    OneMore(s0, moves, Move(0, Go(false)));
    moves := moves + [Move(0, Go(false))];
    assert Run(s0, moves) == Built(Word({}, false), Some(0), Finish(ThenRegister(w)), Idle, {});
    OneMore(s0, moves, Move(0, Go(false)));
    moves := moves + [Move(0, Go(false))];
  }

  /** Before thread 0 registers, thread 1 wakes task 1 and notifies nobody. */
  lemma WakeRun(w: Waker) returns (moves: seq<Move>)
    ensures Run(Init(1, 2), moves) == Built(Word({1}, false), None, Register(w), Idle, {1})
  {
    var s0 := Init(1, 2);
    moves := PollRun(w);
    OneMore(s0, moves, Move(1, CallWake(1)));
    moves := moves + [Move(1, CallWake(1))];
    OneMore(s0, moves, Move(1, Go(false)));
    moves := moves + [Move(1, Go(false))];
    assert Run(s0, moves) ==
           Built(Word({}, false), None, Register(w), Waking(Cas(1, Word({}, false))), {});
    OneMore(s0, moves, Move(1, Go(false)));
    moves := moves + [Move(1, Go(false))];
    assert Run(s0, moves) == Built(Word({1}, false), None, Register(w), Waking(Notify), {1});
    OneMore(s0, moves, Move(1, Go(false)));
    moves := moves + [Move(1, Go(false))];
  }

  /**
   A registration that comes too late: task 1 is live and woken, no thread is doing anything, and the
   registered waker was not fired.  A further `wake(1)` finds the bit set and notifies nobody either.
   */
  lemma LateRegistrationIsMissed(w: Waker) returns (moves: seq<Move>)
    ensures var s := Run(Init(1, 2), moves);
            && s == Built(Word({1}, false), None, Idle, Idle, {1}).(external := Some(w))
            && s.fired == [] && Missed(s)
            && Apply(Apply(s, 1, CallWake(1)), 1, Go(false)) == s
  {
    moves := WakeRun(w);
    OneMore(Init(1, 2), moves, Move(0, Go(false)));
    moves := moves + [Move(0, Go(false))];
    assert 1 in {1} * {1};
  }
}
