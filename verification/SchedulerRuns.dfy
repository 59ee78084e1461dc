/** Safety of the scheduler over every interleaving, from the creation of the machine. */
module SchedulerRuns {
  import opened Basics
  import opened Scheduler

  datatype Move = Move(thread: nat, action: Action)

  function Run(s: State, moves: seq<Move>): State
    decreases |moves|
  {
    if moves == [] then s
    else
      var last := moves[|moves| - 1];
      Apply(Run(s, moves[..|moves| - 1]), last.thread, last.action)
  }

  lemma {:induction false} RunKeepsInv(s: State, moves: seq<Move>)
    requires Inv(s)
    ensures Inv(Run(s, moves))
    decreases |moves|
  {
    if moves != [] {
      var front, last := moves[..|moves| - 1], moves[|moves| - 1];
      RunKeepsInv(s, front);
      StepKeepsInv(Run(s, front), last.thread, last.action);
    }
  }

  // ------------------------------------------------------------------------
  // No lost wake
  // ------------------------------------------------------------------------

  /** The call whose next step thread `i` would perform. */
  function CurrentCall(s: State, i: nat): Option<WakeCall> {
    if i >= |s.pcs| then None
    else if s.pcs[i].Waking? then Some(s.pcs[i].call)
    else if s.pcs[i].Polling? && !s.pcs[i].running then None
    else s.pcs[i].Inner()
  }

  /** With this step a call `wake(n)` takes effect: it sets the bit, or finds it set. */
  predicate Lands(s: State, m: Move, n: nat) {
    && m.action.Go?
    && (|| (CurrentCall(s, m.thread) == Some(Load(n)) && n in s.word.tasks)
        || CurrentCall(s, m.thread) == Some(Cas(n, s.word)))
  }

  /** With this step the poll of task `n` begins. */
  predicate BeginsPoll(s: State, m: Move, n: nat) {
    && m.action.Go? && m.thread < |s.pcs|
    && var pc := s.pcs[m.thread];
       pc.Polling? && !pc.running && pc.depth == n && n <= s.count && n in s.futs && n in pc.mask
  }

  /** The history variable `owed` records what its name says. */
  lemma OwedFollowsTheRun(s: State, m: Move, n: nat)
    ensures var s' := Apply(s, m.thread, m.action);
            && (Lands(s, m, n) ==> n in s'.owed)
            && (BeginsPoll(s, m, n) ==> n !in s'.owed)
            && (!Lands(s, m, n) && !BeginsPoll(s, m, n) ==> (n in s'.owed <==> n in s.owed))
  {
  }

  ghost predicate NotPolledBetween(s: State, moves: seq<Move>, j: nat, n: nat) {
    forall k: nat :: j < k < |moves| ==> !BeginsPoll(Run(s, moves[..k]), moves[k], n)
  }

  lemma NotPolledInFront(s: State, moves: seq<Move>, j: nat, n: nat)
    requires j < |moves| - 1 && NotPolledBetween(s, moves, j, n)
    ensures NotPolledBetween(s, moves[..|moves| - 1], j, n)
    ensures !BeginsPoll(Run(s, moves[..|moves| - 1]), moves[|moves| - 1], n)
  {
    var front := moves[..|moves| - 1];
    forall k: nat | j < k < |front| ensures !BeginsPoll(Run(s, front[..k]), front[k], n) {
      assert front[..k] == moves[..k];
    }
  }

  lemma {:induction false} OwedSince(s: State, moves: seq<Move>, j: nat, n: nat)
    requires j < |moves|
    requires Lands(Run(s, moves[..j]), moves[j], n)
    requires NotPolledBetween(s, moves, j, n)
    ensures n in Run(s, moves).owed
    decreases |moves|
  {
    var front, last := moves[..|moves| - 1], moves[|moves| - 1];
    OwedFollowsTheRun(Run(s, front), last, n);
    if j < |front| {
      assert front[..j] == moves[..j];
      NotPolledInFront(s, moves, j, n);
      OwedSince(s, front, j, n);
    }
  }

  /**
   If `wake(n)` took effect at step `j` and no poll of task `n` has begun since, then a live task `n`
   is pending in the word, or claimed by the running tick and still to be polled.
   */
  lemma NoLostWake(count: nat, threads: nat, moves: seq<Move>, j: nat, n: nat)
    requires count <= MAX_TASK && threads > 0 && j < |moves|
    requires Lands(Run(Init(count, threads), moves[..j]), moves[j], n)
    requires NotPolledBetween(Init(count, threads), moves, j, n)
    ensures var s := Run(Init(count, threads), moves);
            n in s.futs ==> n in s.word.tasks || Holder(s).WillPoll(n)
  {
    var s0 := Init(count, threads);
    InitInv(count, threads);
    RunKeepsInv(s0, moves);
    OwedSince(s0, moves, j, n);
  }

  /** The exchange that ends a tick. */
  predicate EndsTick(s: State, m: Move) {
    && m.thread < |s.pcs| && s.pcs[m.thread].ExitCas?
    && m.action == Go(false) && s.word == Word({}, true)
  }

  /** When a tick ends, no live task is owed a poll, and `alive_mask` names exactly the live tasks. */
  lemma TickEndsQuiet(s: State, m: Move)
    requires Inv(s) && EndsTick(s, m)
    ensures var s' := Apply(s, m.thread, m.action);
            && s'.owed !! s'.futs
            && s'.word == Word({}, false)
            && s'.alive == s'.futs
            && s'.pcs[m.thread].Finish?
  {
    forall n | n in s.owed ensures n !in s.futs {
      assert !Holder(s).WillPoll(n);
    }
  }

  /**
   Thread `i` has ended a tick, at which no live task was owed a poll; it has held the lock since, and
   polled nobody.
   */
  ghost predicate HasTicked(s: State, moves: seq<Move>, i: nat)
    decreases |moves|
  {
    moves != [] &&
    var front, last, s' := moves[..|moves| - 1], moves[|moves| - 1], Run(s, moves);
    s'.lock == Some(i) &&
    if EndsTick(Run(s, front), last) && last.thread == i then s'.owed !! s'.futs
    else HasTicked(s, front, i) && s'.futs == Run(s, front).futs && s'.owed >= Run(s, front).owed
  }

  predicate Leaving(s: State, i: nat) {
    i < |s.pcs| && (s.pcs[i].Finish? || s.pcs[i].Unlock?)
  }

  lemma OthersStay(s: State, m: Move, i: nat)
    requires i < |s.pcs| && m.thread != i
    ensures var s' := Apply(s, m.thread, m.action); |s'.pcs| == |s.pcs| && s'.pcs[i] == s.pcs[i]
  {
  }

  lemma StepOutside(s: State, m: Move)
    requires m.thread < |s.pcs| ==> !s.pcs[m.thread].HoldsLock()
    ensures var s' := Apply(s, m.thread, m.action); s'.futs == s.futs && s'.owed >= s.owed
  {
  }

  lemma GoLeaves(s: State, i: nat, spurious: bool)
    requires i < |s.pcs| && Leaving(GoStep(s, i, spurious), i)
    ensures EndsTick(s, Move(i, Go(spurious))) || s.pcs[i].Finish?
  {
  }

  lemma OnlyGoLeaves(s: State, m: Move)
    requires Leaving(Apply(s, m.thread, m.action), m.thread)
    ensures m.action.Go? || Apply(s, m.thread, m.action) == s
  {
  }

  lemma LeavingStep(s: State, m: Move, i: nat)
    requires Inv(s) && Leaving(Apply(s, m.thread, m.action), i)
    ensures var s' := Apply(s, m.thread, m.action);
            || (EndsTick(s, m) && m.thread == i)
            || (Leaving(s, i) && s'.futs == s.futs && s'.owed >= s.owed)
  {
    if m.thread == i {
      OnlyGoLeaves(s, m);
      if m.action.Go? && i < |s.pcs| {
        GoLeaves(s, i, m.action.spurious);
      }
    } else if i < |s.pcs| {
      OthersStay(s, m, i);
      assert s.lock == Some(i);
      StepOutside(s, m);
    }
  }

  lemma {:induction false} LeavesTicked(count: nat, threads: nat, moves: seq<Move>, i: nat)
    requires count <= MAX_TASK && threads > 0
    requires Leaving(Run(Init(count, threads), moves), i)
    ensures HasTicked(Init(count, threads), moves, i)
    decreases |moves|
  {
    var s0 := Init(count, threads);
    InitInv(count, threads);
    RunKeepsInv(s0, moves);
    assert Run(s0, moves).lock == Some(i);
    if moves != [] {
      var front, last := moves[..|moves| - 1], moves[|moves| - 1];
      var s := Run(s0, front);
      RunKeepsInv(s0, front);
      LeavingStep(s, last, i);
      if EndsTick(s, last) && last.thread == i {
        TickEndsQuiet(s, last);
      } else {
        LeavesTicked(count, threads, front, i);
      }
    }
  }

  /**
   Nobody leaves the lock without a tick: the thread that frees it has ended one, at which all the wakes
   that had landed before, in its critical section or elsewhere, had led to polls.
   */
  lemma LockIsFreedAfterATick(count: nat, threads: nat, moves: seq<Move>, m: Move)
    requires count <= MAX_TASK && threads > 0
    requires var s := Run(Init(count, threads), moves); s.lock.Some? && Apply(s, m.thread, m.action).lock.None?
    ensures var s := Run(Init(count, threads), moves);
            m.thread == s.lock.value && HasTicked(Init(count, threads), moves, m.thread)
  {
    InitInv(count, threads);
    RunKeepsInv(Init(count, threads), moves);
    LeavesTicked(count, threads, moves, m.thread);
  }

  // ------------------------------------------------------------------------
  // One poll per wake
  // ------------------------------------------------------------------------

  /** With this step a call `wake(n)` sets the bit of task `n`, which was clear. */
  predicate SetsBit(s: State, m: Move, n: nat) {
    m.action.Go? && n !in s.word.tasks && CurrentCall(s, m.thread) == Some(Cas(n, s.word))
  }

  function Count(b: bool): nat {
    if b then 1 else 0
  }

  /** How often the bit of task `n` has been set, and how often a poll of it has begun. */
  ghost function BitsSet(s: State, moves: seq<Move>, n: nat): nat
    decreases |moves|
  {
    if moves == [] then 0
    else
      var front, last := moves[..|moves| - 1], moves[|moves| - 1];
      BitsSet(s, front, n) + Count(SetsBit(Run(s, front), last, n))
  }

  ghost function Polls(s: State, moves: seq<Move>, n: nat): nat
    decreases |moves|
  {
    if moves == [] then 0
    else
      var front, last := moves[..|moves| - 1], moves[|moves| - 1];
      Polls(s, front, n) + Count(BeginsPoll(Run(s, front), last, n))
  }

  /** A tick, or `new`, has claimed task `n` and still has to poll it. */
  predicate Claimed(s: State, n: nat) {
    Holder(s).WillPoll(n)
  }

  /** What waits for a poll of task `n`: a wake in the word, and a claim. */
  function Waiting(s: State, n: nat): nat {
    Count(n in s.word.tasks) + Count(Claimed(s, n))
  }

  ghost predicate Balanced(s: State, m: Move, n: nat) {
    var s' := Apply(s, m.thread, m.action);
    var before := Waiting(s, n) + Count(SetsBit(s, m, n));
    var after := Waiting(s', n) + Count(BeginsPoll(s, m, n));
    after <= before && (n in s'.futs ==> after == before)
  }

  /** Thread `i` makes a step of its call to `wake`: nothing that is claimed changes. */
  lemma WakeKeepsClaims(s: State, i: nat, pc: Pc, n: nat)
    requires LockOk(s) && i < |s.pcs|
    requires if s.pcs[i].Waking? then pc.Idle? || pc.Waking? else pc == s.pcs[i].WithInner(pc.Inner())
    ensures Claimed(At(s, i, pc), n) == Claimed(s, n)
  {
    MoveKeepsLock(s, i, pc);
  }

  lemma WakeSetsBit(s: State, call: WakeCall, n: nat)
    ensures var s' := WakeStep(s, call).0;
            && (n in s'.word.tasks <==> n in s.word.tasks || call == Cas(n, s.word))
            && s'.lock == s.lock && s'.pcs == s.pcs
  {
  }

  /** The step that `Go` makes of it. */
  lemma GoWakes(s: State, i: nat, call: WakeCall, spurious: bool) returns (pc: Pc)
    requires CurrentCall(s, i) == Some(call)
    ensures GoStep(s, i, spurious) == At(WakeStep(s, call).0, i, pc)
    ensures if s.pcs[i].Waking? then pc.Idle? || pc.Waking? else pc == s.pcs[i].WithInner(pc.Inner())
    ensures !s.pcs[i].Polling? || s.pcs[i].running
  {
    pc := GoStep(s, i, spurious).pcs[i];
  }

  lemma WakeBalances(s: State, i: nat, call: WakeCall, spurious: bool, n: nat)
    requires Inv(s) && CurrentCall(s, i) == Some(call)
    ensures Balanced(s, Move(i, Go(spurious)), n)
  {
    var pc := GoWakes(s, i, call, spurious);
    var s' := WakeStep(s, call).0;
    WakeSetsBit(s, call, n);
    assert Holder(s') == Holder(s);
    WakeKeepsClaims(s', i, pc, n);
  }

  lemma SwapBalances(s: State, i: nat, spurious: bool, n: nat)
    requires Inv(s) && i < |s.pcs| && (s.pcs[i].Swap? || s.pcs[i].ExitCas?)
    ensures Balanced(s, Move(i, Go(spurious)), n)
  {
    assert s.lock == Some(i);
  }

  lemma WalkBalances(s: State, i: nat, spurious: bool, n: nat)
    requires Inv(s) && i < |s.pcs| && s.pcs[i].Polling? && !s.pcs[i].running
    ensures Balanced(s, Move(i, Go(spurious)), n)
  {
    assert s.lock == Some(i);
  }

  lemma EndPollBalances(s: State, i: nat, ready: bool, n: nat)
    requires Inv(s) && i < |s.pcs|
    ensures Balanced(s, Move(i, EndPoll(ready)), n)
  {
    assert s.pcs[i].Polling? ==> s.lock == Some(i);
  }

  lemma CallBalances(s: State, i: nat, a: Action, n: nat)
    requires Inv(s) && i < |s.pcs| && !a.Go? && !a.EndPoll?
    ensures Balanced(s, Move(i, a), n)
  {
  }

  lemma GoBalances(s: State, i: nat, spurious: bool, n: nat)
    requires Inv(s) && i < |s.pcs|
    ensures Balanced(s, Move(i, Go(spurious)), n)
  {
    var pc, call := s.pcs[i], CurrentCall(s, i);
    if call.Some? {
      WakeBalances(s, i, call.value, spurious, n);
    } else if pc.Swap? || pc.ExitCas? {
      SwapBalances(s, i, spurious, n);
    } else if pc.Polling? && !pc.running {
      WalkBalances(s, i, spurious, n);
    } else {
      LeaveBalances(s, i, spurious, n);
    }
  }

  lemma LeaveBalances(s: State, i: nat, spurious: bool, n: nat)
    requires Inv(s) && i < |s.pcs| && CurrentCall(s, i).None?
    requires var pc := s.pcs[i]; !pc.Swap? && !pc.ExitCas? && (pc.Polling? ==> pc.running)
    ensures Balanced(s, Move(i, Go(spurious)), n)
  {
  }

  lemma StepBalances(s: State, m: Move, n: nat)
    requires Inv(s)
    ensures Balanced(s, m, n)
  {
    if m.thread < |s.pcs| {
      match m.action
      case Go(spurious) => GoBalances(s, m.thread, spurious, n);
      case EndPoll(ready) => EndPollBalances(s, m.thread, ready, n);
      case _ => CallBalances(s, m.thread, m.action, n);
    }
  }

  /**
   In every run, a task is polled once by `new`, and then no more often than its bit has been set: the
   machine polls nobody who was not woken.  And as long as the future is there, no wake that sets the bit
   is dropped, and none makes for two polls.
   */
  lemma {:induction false} OnePollPerWake(count: nat, threads: nat, moves: seq<Move>, n: nat)
    requires count <= MAX_TASK && threads > 0
    ensures var s0 := Init(count, threads);
            var s := Run(s0, moves);
            && Polls(s0, moves, n) + Waiting(s, n) <= 1 + BitsSet(s0, moves, n)
            && (n in s.futs ==> Polls(s0, moves, n) + Waiting(s, n) == 1 + BitsSet(s0, moves, n))
    decreases |moves|
  {
    var s0 := Init(count, threads);
    InitInv(count, threads);
    if moves != [] {
      var front, last := moves[..|moves| - 1], moves[|moves| - 1];
      OnePollPerWake(count, threads, front, n);
      RunKeepsInv(s0, front);
      StepBalances(Run(s0, front), last, n);
      FuturesOnlyShrink(Run(s0, front), last);
    }
  }

  // ------------------------------------------------------------------------
  // Futures
  // ------------------------------------------------------------------------

  /** A step can only complete the future whose poll it ends; nothing is ever revived. */
  lemma FuturesOnlyShrink(s: State, m: Move)
    ensures var s' := Apply(s, m.thread, m.action);
            && s'.futs <= s.futs
            && (s'.futs != s.futs ==>
                  && m.action == EndPoll(true)
                  && s.pcs[m.thread].Polling?
                  && s'.futs == s.futs - {s.pcs[m.thread].depth})
  {
  }

  lemma {:induction false} CompletedStaysCompleted(s: State, moves: seq<Move>, k: nat)
    requires k <= |moves|
    ensures Run(s, moves).futs <= Run(s, moves[..k]).futs
    decreases |moves|
  {
    if k < |moves| {
      var front, last := moves[..|moves| - 1], moves[|moves| - 1];
      assert front[..k] == moves[..k];
      CompletedStaysCompleted(s, front, k);
      FuturesOnlyShrink(Run(s, front), last);
    } else {
      assert moves[..k] == moves;
    }
  }

  /** No future is polled after it has completed. */
  lemma NoPollAfterReady(s: State, moves: seq<Move>, k: nat, m: Move, n: nat)
    requires k <= |moves| && n !in Run(s, moves[..k]).futs
    ensures !BeginsPoll(Run(s, moves), m, n)
  {
    CompletedStaysCompleted(s, moves, k);
  }

  /**
   Whenever the lock is free `alive_mask` is the set of tasks that still hold a future; so once the
   machine has been done it stays done, and a thread that finishes a tick reports just that.
   */
  lemma DoneIsStable(count: nat, threads: nat, moves: seq<Move>, k: nat)
    requires count <= MAX_TASK && threads > 0 && k <= |moves|
    ensures var s0, s := Init(count, threads), Run(Init(count, threads), moves);
            && (s.lock.None? ==> s.alive == s.futs)
            && (Holder(s).Finish? ==> (s.alive == {} <==> s.futs == {}))
            && (Run(s0, moves[..k]).futs == {} ==> s.futs == {})
  {
    InitInv(count, threads);
    RunKeepsInv(Init(count, threads), moves);
    CompletedStaysCompleted(Init(count, threads), moves, k);
  }
}
