/**
 The Fizz-Buzz task inside a machine: the scheduler polls it, its neighbours make their calls while they
 hold the lock, and every waker that a call fires is called through the steps of `wake`, in any
 interleaving with other threads.
 */
module FizzMachine {
  import opened Basics
  import opened Scheduler
  import opened SchedulerRuns
  import F = FizzBuzz
  import M = Machine

  /** The task's depth in the chain, which is also its waker. */
  const FIZZ: nat := 1

  /**
   `queue` are the wakers that were fired and not yet called; `ran` says whether the task's code has run
   since the scheduler last began to poll it.
   */
  datatype System = System(s: State, t: F.Task, queue: seq<Waker>, ran: bool)

  datatype SystemAction =
    | Sched(a: Action)
    | RunTask
    | Neighbour(e: F.Event)
    | CallForeign

  ghost function Build(threads: nat): System
    requires threads > 0
  {
    System(Init(1, threads), F.Start(), [], false)
  }

  // ------------------------------------------------------------------------
  // Steps
  // ------------------------------------------------------------------------

  /** The fired wakers are called first; and a poll ends as the task's code says. */
  predicate Allowed(m: System, i: nat, a: Action) {
    && (m.s.lock == Some(i) && i < |m.s.pcs| && m.queue != [] ==>
          if m.s.pcs[i].MayWake() then a == CallWake(m.queue[0]) && a.n <= MAX_TASK else a.Go?)
    && (a.EndPoll? && m.s.lock == Some(i) ==> m.ran && a.ready == m.t.done)
  }

  predicate TakesFromQueue(m: System, i: nat, a: Action) {
    m.s.lock == Some(i) && i < |m.s.pcs| && m.queue != [] && m.s.pcs[i].MayWake() && a.CallWake?
  }

  function SchedStep(m: System, i: nat, a: Action): System {
    if !Allowed(m, i, a) then m
    else
      System(Apply(m.s, i, a), m.t,
             if TakesFromQueue(m, i, a) then m.queue[1..] else m.queue,
             m.ran && !BeginsPoll(m.s, Move(i, a), FIZZ))
  }

  function Next(m: System, i: nat, a: SystemAction): System {
    if a.Sched? then SchedStep(m, i, a.a)
    else if i >= |m.s.pcs| || !m.s.pcs[i].MayWake() then m
    else
      match a
      case RunTask =>
        if m.s.pcs[i].Polling? && m.queue == [] && !m.ran then
          m.(t := F.Poll(m.t, FIZZ), queue := F.FiredByPoll(m.t, FIZZ), ran := true)
        else m
      case Neighbour(e) =>
        if m.s.pcs[i].Critical? && m.queue == [] && (e.Feed? || e.Take?) && e.u > MAX_TASK then
          m.(t := F.Step(m.t, e), queue := F.FiredByNeighbour(m.t, e))
        else m
      case CallForeign =>
        if m.queue != [] && m.queue[0] > MAX_TASK then m.(queue := m.queue[1..]) else m
  }

  datatype SystemMove = SystemMove(thread: nat, action: SystemAction)

  function RunSystem(m: System, moves: seq<SystemMove>): System
    decreases |moves|
  {
    if moves == [] then m
    else
      var last := moves[|moves| - 1];
      Next(RunSystem(m, moves[..|moves| - 1]), last.thread, last.action)
  }

  // ------------------------------------------------------------------------
  // The invariant
  // ------------------------------------------------------------------------

  predicate InPoll(m: System) {
    Holder(m.s).Polling? && Holder(m.s).running
  }

  predicate Underway(m: System) {
    FIZZ in m.queue || FIZZ in m.s.owed || M.InFlight(m.s, FIZZ)
  }

  /** The task is over exactly if its future is gone, but for the moment before its last poll ends. */
  predicate DoneOk(m: System) {
    && (m.t.done ==> FIZZ !in m.s.futs || (InPoll(m) && m.ran))
    && (FIZZ !in m.s.futs ==> m.t.done)
  }

  /** Unless its code is about to run, the task sleeps, or its wake-up is underway. */
  predicate AwakeOk(m: System) {
    !m.t.done && !(InPoll(m) && !m.ran) ==> F.Sleeping(m.t, FIZZ) || Underway(m)
  }

  ghost predicate TaskOk(t: F.Task) {
    F.Inv(t) && F.Foreign(t, FIZZ) && F.Open(t) && (t.done ==> F.Ended(t))
  }

  ghost predicate SystemInv(m: System) {
    && Inv(m.s) && m.s.count == 1
    && TaskOk(m.t)
    && (m.queue != [] ==> Holder(m.s).Critical? || InPoll(m))
    && DoneOk(m) && AwakeOk(m)
    && (M.Settled(m.s) && !m.t.done ==> F.Sleeping(m.t, FIZZ))
  }

  lemma BuildInv(threads: nat)
    requires threads > 0
    ensures SystemInv(Build(threads))
  {
    InitInv(1, threads);
    assert AllTasks(1) == {1};
  }

  lemma PolledIsFizz(m: System)
    requires Inv(m.s) && m.s.count == 1 && InPoll(m)
    ensures Holder(m.s).depth == FIZZ && FIZZ in m.s.futs
  {
    assert Holder(m.s).depth in m.s.futs && m.s.futs <= AllTasks(1);
  }

  /** A poll of the task goes on until it ends, and it ends only after the task's code has run. */
  lemma PollGoesOn(m: System, i: nat, a: Action)
    requires Inv(m.s) && m.s.count == 1 && Allowed(m, i, a) && InPoll(m)
    ensures var m' := SchedStep(m, i, a);
            || (InPoll(m') && m'.ran == m.ran && m'.s.futs == m.s.futs)
            || (a.EndPoll? && m.ran && m.queue == [] && m'.s.futs == if m.t.done then m.s.futs - {FIZZ} else m.s.futs)
  {
    PolledIsFizz(m);
    assert i < |m.s.pcs| ==> (m.s.pcs[i].HoldsLock() <==> m.s.lock == Some(i));
  }

  lemma OutsidePollNothingEnds(m: System, i: nat, a: Action)
    requires Inv(m.s) && !InPoll(m)
    ensures Apply(m.s, i, a).futs == m.s.futs
  {
    assert i < |m.s.pcs| ==> (m.s.pcs[i].HoldsLock() <==> m.s.lock == Some(i));
  }

  lemma PollBegins(m: System, i: nat, a: Action)
    requires Inv(m.s) && m.s.count == 1 && !InPoll(m) && InPoll(SchedStep(m, i, a))
    ensures BeginsPoll(m.s, Move(i, a), FIZZ)
  {
    assert i < |m.s.pcs| ==> (m.s.pcs[i].HoldsLock() <==> m.s.lock == Some(i));
    StepKeepsInv(m.s, i, a);
    PolledIsFizz(SchedStep(m, i, a));
  }

  lemma BeginsInPoll(m: System, i: nat, a: Action)
    requires Inv(m.s) && BeginsPoll(m.s, Move(i, a), FIZZ) && Allowed(m, i, a)
    ensures InPoll(SchedStep(m, i, a)) && !SchedStep(m, i, a).ran && !InPoll(m)
  {
    assert m.s.pcs[i].HoldsLock() <==> m.s.lock == Some(i);
  }

  lemma SchedKeepsDone(m: System, i: nat, a: Action)
    requires SystemInv(m) && Allowed(m, i, a)
    ensures DoneOk(SchedStep(m, i, a))
  {
    if InPoll(m) {
      PolledIsFizz(m);
      PollGoesOn(m, i, a);
    } else {
      OutsidePollNothingEnds(m, i, a);
    }
  }

  lemma UnderwayGoesOn(m: System, i: nat, a: Action)
    requires SystemInv(m) && Allowed(m, i, a) && Underway(m) && !BeginsPoll(m.s, Move(i, a), FIZZ)
    ensures Underway(SchedStep(m, i, a))
  {
    if M.InFlight(m.s, FIZZ) {
      M.InFlightLands(m.s, i, a, FIZZ);
    }
    if FIZZ in m.s.owed {
      M.OwedUntilPolled(m.s, i, a, FIZZ);
    }
    if TakesFromQueue(m, i, a) {
      assert m.queue == [m.queue[0]] + m.queue[1..];
      M.CallPutsInFlight(m.s, i, m.queue[0]);
    }
  }

  lemma SchedKeepsAwake(m: System, i: nat, a: Action)
    requires SystemInv(m) && Allowed(m, i, a)
    ensures AwakeOk(SchedStep(m, i, a))
  {
    var m' := SchedStep(m, i, a);
    if BeginsPoll(m.s, Move(i, a), FIZZ) {
      BeginsInPoll(m, i, a);
    } else {
      if InPoll(m) {
        PollGoesOn(m, i, a);
      }
      if Underway(m) {
        UnderwayGoesOn(m, i, a);
      }
    }
  }

  lemma OthersKeepHolder(s: State, i: nat, a: Action)
    requires Inv(s) && s.lock.Some? && s.lock != Some(i)
    ensures Holder(Apply(s, i, a)) == Holder(s)
  {
    assert i < |s.pcs| ==> !s.pcs[i].HoldsLock();
  }

  lemma CountStays(s: State, i: nat, a: Action)
    ensures Apply(s, i, a).count == s.count
  {
  }

  /** The holder, while it has wakers to call: it begins the next call, or goes on with one. */
  lemma CallingStaysInside(s: State, i: nat, a: Action)
    requires Inv(s) && s.lock == Some(i) && (Holder(s).Critical? || (Holder(s).Polling? && Holder(s).running))
    requires if s.pcs[i].MayWake() then a.CallWake? else a.Go?
    ensures var h := Holder(Apply(s, i, a)); h.Critical? || (h.Polling? && h.running)
  {
  }

  lemma SchedKeepsQueue(m: System, i: nat, a: Action)
    requires SystemInv(m) && Allowed(m, i, a)
    ensures var m' := SchedStep(m, i, a); m'.queue != [] ==> Holder(m'.s).Critical? || InPoll(m')
  {
    if m.queue != [] {
      if m.s.lock == Some(i) {
        CallingStaysInside(m.s, i, a);
      } else {
        OthersKeepHolder(m.s, i, a);
      }
    }
  }

  /** When a tick ends, a task that is not over sleeps. */
  lemma SchedKeepsSettled(m: System, i: nat, a: Action)
    requires SystemInv(m) && Allowed(m, i, a) && AwakeOk(SchedStep(m, i, a))
    ensures var m' := SchedStep(m, i, a); M.Settled(m'.s) && !m'.t.done ==> F.Sleeping(m'.t, FIZZ)
  {
    var m' := SchedStep(m, i, a);
    if M.Settled(m'.s) && !m.t.done && !M.Settled(m.s) {
      M.SettlesByEndingTick(m.s, i, a);
      TickEndsQuiet(m.s, Move(i, a));
      SchedKeepsQueue(m, i, a);
      SchedKeepsDone(m, i, a);
      assert FIZZ in m'.s.futs;
    }
  }

  lemma SchedKeepsInv(m: System, i: nat, a: Action)
    requires SystemInv(m)
    ensures SystemInv(SchedStep(m, i, a))
  {
    if Allowed(m, i, a) {
      StepKeepsInv(m.s, i, a);
      CountStays(m.s, i, a);
      SchedKeepsQueue(m, i, a);
      SchedKeepsDone(m, i, a);
      SchedKeepsAwake(m, i, a);
      SchedKeepsSettled(m, i, a);
    }
  }

  lemma RunTaskKeepsInv(m: System, i: nat)
    requires SystemInv(m)
    ensures SystemInv(Next(m, i, RunTask))
  {
    if Next(m, i, RunTask) != m {
      assert m.s.lock == Some(i) && Holder(m.s) == m.s.pcs[i];
      PolledIsFizz(m);
      F.PollKeepsInv(m.t, FIZZ);
      F.PollStaysForeign(m.t, FIZZ);
      F.PollEnds(m.t, FIZZ);
      if !F.Poll(m.t, FIZZ).done {
        F.PollRegisters(m.t, FIZZ);
      }
    }
  }

  lemma NeighbourKeepsInv(m: System, i: nat, e: F.Event)
    requires SystemInv(m)
    ensures SystemInv(Next(m, i, Neighbour(e)))
  {
    if Next(m, i, Neighbour(e)) != m {
      assert m.s.lock == Some(i) && Holder(m.s) == m.s.pcs[i];
      F.StepKeepsInv(m.t, e);
      F.StepEnds(m.t, e);
      F.NeighbourWakes(m.t, e, FIZZ);
    }
  }

  lemma ForeignKeepsInv(m: System, i: nat)
    requires SystemInv(m)
    ensures SystemInv(Next(m, i, CallForeign))
  {
    if Next(m, i, CallForeign) != m {
      assert m.queue == [m.queue[0]] + m.queue[1..];
    }
  }

  lemma NextKeepsInv(m: System, i: nat, a: SystemAction)
    requires SystemInv(m)
    ensures SystemInv(Next(m, i, a))
  {
    match a
    case Sched(b) => SchedKeepsInv(m, i, b);
    case RunTask => RunTaskKeepsInv(m, i);
    case Neighbour(e) => NeighbourKeepsInv(m, i, e);
    case CallForeign => ForeignKeepsInv(m, i);
  }

  lemma {:induction false} RunSystemKeepsInv(m: System, moves: seq<SystemMove>)
    requires SystemInv(m)
    ensures SystemInv(RunSystem(m, moves))
    decreases |moves|
  {
    if moves != [] {
      var front, last := moves[..|moves| - 1], moves[|moves| - 1];
      RunSystemKeepsInv(m, front);
      NextKeepsInv(RunSystem(m, front), last.thread, last.action);
    }
  }

  // ------------------------------------------------------------------------
  // Whenever the machine is unlocked
  // ------------------------------------------------------------------------

  /**
   In every run, whenever the lock is free: the task waits for its output to be read; or it has said
   everything about the numbers that it was given, and waits for more; or it is over, because its reader
   is gone, or because the input was closed and everything has been said.
   */
  lemma SaysWhatItCan(threads: nat, moves: seq<SystemMove>)
    requires threads > 0
    ensures var m := RunSystem(Build(threads), moves);
            m.s.lock.None? ==>
              || F.OutputBlocks(m.t, FIZZ)
              || F.AllIsSaid(m.t, FIZZ)
              || (m.t.done && (m.t.output.x.phase.DROPPED? ||
                               (m.t.input.x.phase.DONE? && m.t.output.written == F.Expand(m.t.input.written))))
  {
    BuildInv(threads);
    RunSystemKeepsInv(Build(threads), moves);
    var m := RunSystem(Build(threads), moves);
    if m.s.lock.None? {
      F.SleepsForGoodReason(m.t);
      if m.t.done && !m.t.output.x.phase.DROPPED? {
        F.EndedMeansSaid(m.t);
      }
    }
  }
}
