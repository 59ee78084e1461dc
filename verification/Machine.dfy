/**
 The whole machine: the scheduler, and a number of exchanges used by its tasks and by external code.

 For each exchange one party reads and one party writes; a party is a task of the machine, or external
 code that holds the lock (with a waker that is not a task of this machine).  A task may make any calls
 on its exchanges while it is polled, and external code while it holds the lock; every waker that such
 a call fires is then called, through the steps of `wake` that other threads interleave with.
 */
module Machine {
  import opened Basics
  import opened ExchangeSpec
  import opened Scheduler
  import opened SchedulerRuns

  /** One end of an exchange. */
  datatype End = End(exch: nat, role: Role)

  /**
   `waits` has the last call made on an end if it returned `Pending` and its party has not come back
   since: a task comes back when it is polled, external code when it makes a call after its waker was
   called.  `queue` are the wakers fired by the last exchange call and not yet called; `told` are the
   external parties whose waker was called and who have not come back.
   */
  datatype Machine<T> = Machine(
    s: State,
    exchs: seq<Exch<T>>,
    owners: map<End, Waker>,
    waits: map<End, Wait<T>>,
    queue: seq<Waker>,
    told: set<Waker>)

  datatype Action<T> =
    | Sched(a: Scheduler.Action)
    | OnExchange(end: End, call: Call<T>)
    | ResetExchange(exch: nat)
    | CallForeign

  ghost function Build<T>(count: nat, threads: nat, kinds: seq<Kind>, owners: map<End, Waker>): Machine<T>
    requires count <= MAX_TASK && threads > 0
  {
    Machine(Init(count, threads), seq(|kinds|, i requires 0 <= i < |kinds| => Fresh(kinds[i])),
            owners, map[], [], {})
  }

  // ------------------------------------------------------------------------
  // Steps
  // ------------------------------------------------------------------------

  /** While wakers are waiting to be called, the thread that fired them does nothing else. */
  predicate Allowed<T>(m: Machine<T>, i: nat, a: Scheduler.Action) {
    m.s.lock == Some(i) && i < |m.s.pcs| && m.queue != [] ==>
      if m.s.pcs[i].MayWake() then a == CallWake(m.queue[0]) && a.n <= MAX_TASK else a.Go?
  }

  predicate TakesFromQueue<T>(m: Machine<T>, i: nat, a: Scheduler.Action) {
    m.s.lock == Some(i) && i < |m.s.pcs| && m.queue != [] && m.s.pcs[i].MayWake() && a.CallWake?
  }

  function SchedStep<T>(m: Machine<T>, i: nat, a: Scheduler.Action): Machine<T> {
    if !Allowed(m, i, a) then m
    else
      m.(s := Apply(m.s, i, a),
         queue := if TakesFromQueue(m, i, a) then m.queue[1..] else m.queue,
         waits := map e | e in m.waits && !BeginsPoll(m.s, Move(i, a), m.waits[e].w) :: m.waits[e])
  }

  /** The waits that are left when party `w` makes a call. */
  function StillWaiting<T>(m: Machine<T>, w: Waker): map<End, Wait<T>> {
    if w in m.told then map e | e in m.waits && m.waits[e].w != w :: m.waits[e] else m.waits
  }

  /** The party on whose behalf thread `i` may use `end`: the task it is polling, or external code. */
  predicate MayUse<T>(m: Machine<T>, i: nat, end: End) {
    && i < |m.s.pcs| && m.s.pcs[i].MayWake() && m.queue == []
    && end.exch < |m.exchs| && end in m.owners
    && if m.s.pcs[i].Polling? then m.owners[end] == m.s.pcs[i].depth else m.owners[end] > MAX_TASK
  }

  function ExchangeStep<T>(m: Machine<T>, end: End, call: Call<T>): Machine<T>
    requires end.exch < |m.exchs| && end in m.owners
  {
    var w := m.owners[end];
    var o := Do(m.exchs[end.exch], w, call);
    m.(exchs := m.exchs[end.exch := o.next],
       queue := o.woken,
       waits := if o.reply.Pending? then StillWaiting(m, w)[end := Wait(w, call)]
                else StillWaiting(m, w) - {end},
       told := m.told - {w})
  }

  function Next<T>(m: Machine<T>, i: nat, a: Action<T>): Machine<T> {
    match a
    case Sched(b) => SchedStep(m, i, b)
    case OnExchange(end, call) =>
      if MayUse(m, i, end) && RoleOf(call) == end.role then ExchangeStep(m, end, call) else m
    case ResetExchange(e) =>
      if i < |m.s.pcs| && m.s.pcs[i].MayWake() && m.queue == [] && e < |m.exchs| then
        var o := ResetStep(m.exchs[e]);
        m.(exchs := m.exchs[e := o.next], queue := o.woken)
      else m
    case CallForeign =>
      if i < |m.s.pcs| && m.s.pcs[i].MayWake() && m.queue != [] && m.queue[0] > MAX_TASK then
        m.(queue := m.queue[1..], told := m.told + {m.queue[0]})
      else m
  }

  datatype MachineMove<T> = MachineMove(thread: nat, action: Action<T>)

  function RunMachine<T>(m: Machine<T>, moves: seq<MachineMove<T>>): Machine<T>
    decreases |moves|
  {
    if moves == [] then m
    else
      var last := moves[|moves| - 1];
      Next(RunMachine(m, moves[..|moves| - 1]), last.thread, last.action)
  }

  // ------------------------------------------------------------------------
  // The invariant
  // ------------------------------------------------------------------------

  /** The lock holder is in the middle of a call `wake(n)` that has not taken effect yet. */
  predicate InFlight(s: State, n: nat) {
    match Holder(s).Inner()
    case Some(Load(k)) => k == n
    case Some(Cas(k, _)) => k == n
    case _ => false
  }

  predicate WakeUnderway<T>(m: Machine<T>, w: Waker) {
    w in m.queue || if w <= MAX_TASK then w in m.s.owed || InFlight(m.s, w) else w in m.told
  }

  /** A waiting party is parked, or its wake-up has happened or is underway. */
  predicate WaitOk<T>(m: Machine<T>, e: End)
    requires e in m.waits
  {
    && e.exch < |m.exchs|
    && RoleOf(m.waits[e].call) == e.role
    && (Parked(m.exchs[e.exch], m.waits[e].w, m.waits[e].call) || WakeUnderway(m, m.waits[e].w))
  }

  /** No task has run since the last tick ended. */
  predicate Settled(s: State) {
    var h := Holder(s);
    !h.Critical? && !h.Swap? && !h.Polling? && !h.ExitCas?
  }

  /** The party is a live task that has not been polled, or external code that was not told, since its call. */
  predicate Sleeps<T>(m: Machine<T>, e: End)
    requires e in m.waits
  {
    m.waits[e].w in m.s.futs || (m.waits[e].w > MAX_TASK && m.waits[e].w !in m.told)
  }

  predicate SettledOk<T>(m: Machine<T>, e: End)
    requires e in m.waits
  {
    var wait := m.waits[e];
    e.exch < |m.exchs| && (Sleeps(m, e) ==> Parked(m.exchs[e.exch], wait.w, wait.call))
  }

  ghost predicate MachineInv<T>(m: Machine<T>) {
    && Inv(m.s)
    && (forall k :: 0 <= k < |m.exchs| ==> m.exchs[k].Valid())
    && (forall e :: e in m.waits ==> WaitOk(m, e))
    && (m.queue != [] ==> Holder(m.s).Critical? || (Holder(m.s).Polling? && Holder(m.s).running))
    && (Settled(m.s) ==> forall e :: e in m.waits ==> SettledOk(m, e))
  }

  lemma BuildInv<T>(count: nat, threads: nat, kinds: seq<Kind>, owners: map<End, Waker>)
    requires count <= MAX_TASK && threads > 0
    ensures MachineInv(Build<T>(count, threads, kinds, owners))
  {
  }

  lemma ExchangeKeepsInv<T>(m: Machine<T>, i: nat, end: End, call: Call<T>)
    requires MachineInv(m) && MayUse(m, i, end) && RoleOf(call) == end.role
    ensures MachineInv(ExchangeStep(m, end, call))
  {
    var m' := ExchangeStep(m, end, call);
    var w := m.owners[end];
    var x := m.exchs[end.exch];
    PendingParks(x, w, call);
    assert m.s.lock == Some(i) && Holder(m.s) == m.s.pcs[i];
    forall e | e in m'.waits ensures WaitOk(m', e) {
      if e != end {
        assert WaitOk(m, e);
        if e.exch == end.exch && Parked(x, m.waits[e].w, m.waits[e].call) {
          assert e.role != end.role;
          OtherSideKeepsOrWakes(x, w, call, m.waits[e].w, m.waits[e].call);
        }
      }
    }
  }

  lemma ResetKeepsInv<T>(m: Machine<T>, i: nat, k: nat)
    requires MachineInv(m)
    ensures MachineInv(Next(m, i, ResetExchange(k)))
  {
  }

  lemma ForeignKeepsInv<T>(m: Machine<T>, i: nat)
    requires MachineInv(m)
    ensures MachineInv(Next(m, i, CallForeign))
  {
  }

  /** A call `wake(n)` by the lock holder stays in flight until it takes effect. */
  lemma InFlightLands(s: State, i: nat, a: Scheduler.Action, n: nat)
    requires Inv(s) && InFlight(s, n)
    ensures InFlight(Apply(s, i, a), n) || n in Apply(s, i, a).owed
  {
  }

  lemma OwedUntilPolled(s: State, i: nat, a: Scheduler.Action, n: nat)
    requires n in s.owed && !BeginsPoll(s, Move(i, a), n)
    ensures n in Apply(s, i, a).owed
  {
  }

  lemma CallPutsInFlight(s: State, i: nat, n: nat)
    requires LockOk(s) && i < |s.pcs| && s.lock == Some(i) && s.pcs[i].MayWake() && n <= MAX_TASK
    ensures InFlight(Apply(s, i, CallWake(n)), n)
  {
  }

  /** A scheduler step neither forgets a wake that is underway nor parks anybody. */
  lemma SchedKeepsWait<T>(m: Machine<T>, i: nat, a: Scheduler.Action, e: End)
    requires MachineInv(m) && Allowed(m, i, a)
    requires e in SchedStep(m, i, a).waits
    ensures WaitOk(SchedStep(m, i, a), e)
  {
    assert WaitOk(m, e);
    var w := m.waits[e].w;
    if InFlight(m.s, w) {
      InFlightLands(m.s, i, a, w);
    }
    if w in m.s.owed {
      OwedUntilPolled(m.s, i, a, w);
    }
    if TakesFromQueue(m, i, a) {
      assert m.queue == [m.queue[0]] + m.queue[1..];
      CallPutsInFlight(m.s, i, m.queue[0]);
    }
  }

  /** The machine settles only by the exchange that ends a tick. */
  lemma SettlesByEndingTick(s: State, i: nat, a: Scheduler.Action)
    requires Inv(s) && !Settled(s) && Settled(Apply(s, i, a))
    ensures EndsTick(s, Move(i, a))
  {
  }

  /** When a tick ends, everybody who still waits is parked. */
  lemma SchedKeepsSettled<T>(m: Machine<T>, i: nat, a: Scheduler.Action, e: End)
    requires MachineInv(m) && Allowed(m, i, a)
    requires Settled(SchedStep(m, i, a).s) && e in SchedStep(m, i, a).waits
    ensures SettledOk(SchedStep(m, i, a), e)
  {
    assert WaitOk(m, e);
    FuturesOnlyShrink(m.s, Move(i, a));
    if Settled(m.s) {
      assert SettledOk(m, e);
    } else {
      SettlesByEndingTick(m.s, i, a);
      TickEndsQuiet(m.s, Move(i, a));
    }
  }

  lemma SchedKeepsInv<T>(m: Machine<T>, i: nat, a: Scheduler.Action)
    requires MachineInv(m)
    ensures MachineInv(SchedStep(m, i, a))
  {
    if Allowed(m, i, a) {
      var m' := SchedStep(m, i, a);
      StepKeepsInv(m.s, i, a);
      forall e | e in m'.waits ensures WaitOk(m', e) {
        SchedKeepsWait(m, i, a, e);
      }
      if Settled(m'.s) {
        forall e | e in m'.waits ensures SettledOk(m', e) {
          SchedKeepsSettled(m, i, a, e);
        }
      }
    }
  }

  lemma NextKeepsInv<T>(m: Machine<T>, i: nat, a: Action<T>)
    requires MachineInv(m)
    ensures MachineInv(Next(m, i, a))
  {
    match a
    case Sched(b) => SchedKeepsInv(m, i, b);
    case OnExchange(end, call) =>
      if MayUse(m, i, end) && RoleOf(call) == end.role {
        ExchangeKeepsInv(m, i, end, call);
      }
    case ResetExchange(k) => ResetKeepsInv(m, i, k);
    case CallForeign => ForeignKeepsInv(m, i);
  }

  lemma {:induction false} RunMachineKeepsInv<T>(m: Machine<T>, moves: seq<MachineMove<T>>)
    requires MachineInv(m)
    ensures MachineInv(RunMachine(m, moves))
    decreases |moves|
  {
    if moves != [] {
      var front, last := moves[..|moves| - 1], moves[|moves| - 1];
      RunMachineKeepsInv(m, front);
      NextKeepsInv(RunMachine(m, front), last.thread, last.action);
    }
  }

  // ------------------------------------------------------------------------
  // Quiescence
  // ------------------------------------------------------------------------

  /** The call, made again by anyone, would return `Pending`, and the waker is stored. */
  ghost predicate StillBlocked<T>(m: Machine<T>, e: End)
    requires e in m.waits
  {
    && e.exch < |m.exchs|
    && (forall w: Waker :: Do(m.exchs[e.exch], w, m.waits[e].call).reply.Pending?)
    && StoredWaker(m.exchs[e.exch], e.role) == Some(m.waits[e].w)
  }

  /**
   In every run, whenever the lock is free: a live task whose last call on an exchange returned
   `Pending`, and which has not been polled since, is waiting for a call that would still return
   `Pending`.  So is external code whose waker has not been called.
   */
  lemma Quiescence<T>(
      count: nat, threads: nat, kinds: seq<Kind>, owners: map<End, Waker>, moves: seq<MachineMove<T>>)
    requires count <= MAX_TASK && threads > 0
    ensures var m := RunMachine(Build<T>(count, threads, kinds, owners), moves);
            m.s.lock.None? ==> forall e :: e in m.waits && Sleeps(m, e) ==> StillBlocked(m, e)
  {
    BuildInv<T>(count, threads, kinds, owners);
    RunMachineKeepsInv(Build<T>(count, threads, kinds, owners), moves);
    var m := RunMachine(Build<T>(count, threads, kinds, owners), moves);
    if m.s.lock.None? {
      forall e | e in m.waits && Sleeps(m, e) ensures StillBlocked(m, e) {
        assert SettledOk(m, e) && WaitOk(m, e);
        forall w: Waker ensures Do(m.exchs[e.exch], w, m.waits[e].call).reply.Pending? {
          PendingParks(m.exchs[e.exch], w, m.waits[e].call);
        }
      }
    }
  }
}
