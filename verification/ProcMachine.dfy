/**
 The machine as it is written: an atomic word of wake bits, the mask of live tasks, the chain of
 futures and the external waker, all updated in place.

 `Scheduler` has every interleaving of these operations.  Here one thread runs, at the level of the
 bits, and what the others do to it in the meantime is given to each call as a script: the wakes that
 land between any two of its accesses, and the words that make its compare-exchange fail.
 */
module ProcMachine {
  import opened Basics
  import opened MaskBits
  import opened FuturesChain
  import S = Scheduler

  function Named(wakes: seq<nat>): set<nat> {
    set n | n in wakes
  }

  predicate InRange(wakes: seq<nat>) {
    forall k :: 0 <= k < |wakes| ==> wakes[k] < MAX_TASKS
  }

  /**
   One round of the tick loop: the wakes that land before its swap; the futures that complete if they
   are polled; the wakes that land after the swap but before the first link of the chain (`during[0]`),
   and while link `d` is visited (`during[d]`); and whether the weak exchange fails for no reason.
   */
  datatype Round = Round(before: seq<nat>, ready: set<nat>, during: seq<seq<nat>>, spurious: bool) {
    predicate Valid() {
      InRange(before) && forall d :: 0 <= d < |during| ==> InRange(during[d])
    }

    function At(d: nat): (wakes: seq<nat>)
      requires Valid()
      ensures InRange(wakes)
    {
      if d < |during| then during[d] else []
    }

    /** Somebody wakes task `n` in this round. */
    predicate Wakes(n: nat) {
      n in before || exists d :: 0 <= d < |during| && n in during[d]
    }

    /** The tasks woken after the swap, up to the visit of link `d`. */
    function WokenUpTo(d: nat): set<nat>
      requires Valid()
    {
      if d == 0 then Named(At(0)) else WokenUpTo(d - 1) + Named(At(d))
    }
  }

  /** The tasks of a machine with `depth` tasks, in the order of the chain. */
  function Upwards(depth: nat): (r: seq<nat>)
    ensures |r| == depth
    ensures forall n: nat {:trigger n in r} :: n in r <==> 1 <= n <= depth
  {
    if depth == 0 then [] else Upwards(depth - 1) + [depth]
  }

  lemma {:induction false} WalkOfAll(live: set<nat>, mask: set<nat>, depth: nat)
    requires Named(Upwards(depth)) <= live * mask
    ensures Walk(live, mask, depth) == Upwards(depth)
    decreases depth
  {
    if depth > 0 {
      assert depth in Named(Upwards(depth));
      WalkOfAll(live, mask, depth - 1);
    }
  }

  /** The quiet round: nothing lands, nothing completes, nothing fails. */
  function Quiet(): (r: Round)
    ensures r.Valid()
  {
    Round([], {}, [], false)
  }

  lemma {:induction false} QuietWakesNobody(d: nat)
    ensures Quiet().WokenUpTo(d) == {}
    decreases d
  {
    if d > 0 {
      QuietWakesNobody(d - 1);
    }
  }

  lemma {:induction false} WokenIsWoken(r: Round, d: nat)
    requires r.Valid()
    ensures forall n :: n in r.WokenUpTo(d) ==> r.Wakes(n)
    decreases d
  {
    if d > 0 {
      WokenIsWoken(r, d - 1);
    }
  }

  // ------------------------------------------------------------------------
  // A tick, round by round
  // ------------------------------------------------------------------------

  predicate AllValid(script: seq<Round>) {
    forall k :: 0 <= k < |script| ==> script[k].Valid()
  }

  /** Round `k` of a tick: after its script the machine is left alone. */
  function RoundAt(script: seq<Round>, k: nat): (r: Round)
    requires AllValid(script)
    ensures r.Valid()
  {
    if k < |script| then script[k] else Quiet()
  }

  /** The live and the pending tasks. */
  datatype Mask = Mask(live: set<nat>, word: set<nat>)

  /**
   What rounds that polled the sets of tasks `log` make of it.  A round without a poll does not reach the
   links of the chain.
   */
  function After(from: Mask, script: seq<Round>, depth: nat, log: seq<set<nat>>): Mask
    requires AllValid(script)
    decreases |log|
  {
    if log == [] then from
    else
      var k := |log| - 1;
      var s, r, polled := After(from, script, depth, log[..k]), RoundAt(script, k), log[k];
      Mask(s.live - polled * r.ready,
            r.WokenUpTo(if polled == {} then 0 else depth))
  }

  /** The polls of these rounds, in order. */
  function PolledIn(log: seq<set<nat>>, depth: nat): seq<nat>
    decreases |log|
  {
    if log == [] then []
    else PolledIn(log[..|log| - 1], depth) + Walk(log[|log| - 1], log[|log| - 1], depth)
  }

  /** Each round polls the live tasks that are pending at its swap. */
  ghost predicate IsLog(from: Mask, script: seq<Round>, depth: nat, log: seq<set<nat>>)
    requires AllValid(script)
    decreases |log|
  {
    log == [] ||
    var k := |log| - 1;
    var s := After(from, script, depth, log[..k]);
    && IsLog(from, script, depth, log[..k])
    && log[k] == (s.word + Named(RoundAt(script, k).before)) * s.live
  }

  /** The tick ends in a round with nothing to poll and nothing pending, if the exchange succeeds. */
  predicate EndsIn(r: Round, polled: set<nat>)
    requires r.Valid()
  {
    polled == {} && r.At(0) == [] && !r.spurious
  }

  /** The rounds of a tick so far: it has ended exactly if the last of them can end it, and none before can. */
  ghost predicate Rounds(from: Mask, script: seq<Round>, depth: nat, log: seq<set<nat>>, ended: bool)
    requires AllValid(script)
  {
    && IsLog(from, script, depth, log)
    && (forall k :: 0 <= k < |log| && (ended ==> k < |log| - 1) ==> !EndsIn(RoundAt(script, k), log[k]))
    && (ended ==> log != [] && EndsIn(RoundAt(script, |log| - 1), log[|log| - 1]))
  }

  /** The rounds of a whole tick, and its outcome. */
  ghost predicate IsTick(from: Mask, script: seq<Round>, depth: nat, log: seq<set<nat>>,
                         live: set<nat>, polled: seq<nat>)
    requires AllValid(script)
  {
    && Rounds(from, script, depth, log, true)
    && live == After(from, script, depth, log).live && polled == PolledIn(log, depth)
  }

  lemma OneMoreRound(from: Mask, script: seq<Round>, depth: nat, log: seq<set<nat>>, polled: set<nat>)
    requires AllValid(script) && Rounds(from, script, depth, log, false)
    requires var s := After(from, script, depth, log);
             polled == (s.word + Named(RoundAt(script, |log|).before)) * s.live
    ensures Rounds(from, script, depth, log + [polled], EndsIn(RoundAt(script, |log|), polled))
    ensures var s, r := After(from, script, depth, log), RoundAt(script, |log|);
            && After(from, script, depth, log + [polled])
               == Mask(s.live - polled * r.ready, r.WokenUpTo(if polled == {} then 0 else depth))
            && PolledIn(log + [polled], depth) == PolledIn(log, depth) + Walk(s.live, polled, depth)
  {
    WalkOfSelected(After(from, script, depth, log).live, polled, depth);
    assert (log + [polled])[..|log|] == log;
  }

  predicate WokenBy(script: seq<Round>, n: nat) {
    exists k :: 0 <= k < |script| && script[k].Wakes(n)
  }

  predicate CompletedBy(script: seq<Round>, n: nat) {
    exists k :: 0 <= k < |script| && n in script[k].ready
  }

  lemma {:induction false} WalkOfSelected(live: set<nat>, selected: set<nat>, depth: nat)
    requires selected <= live
    ensures Walk(live, selected, depth) == Walk(selected, selected, depth)
    decreases depth
  {
    if depth > 0 {
      WalkOfSelected(live, selected, depth - 1);
    }
  }

  /**
   Since `from`, with the polls `polled`: the pending live tasks have been polled; no task was polled that
   was not live, and pending or woken; and a future that was not polled, or not ready in any round, is
   still there.
   */
  ghost predicate PollsRightly(from: Mask, script: seq<Round>, live: set<nat>, polled: seq<nat>) {
    && live <= from.live
    && (forall n :: n in from.live && n in from.word ==> n in polled)
    && (forall n :: n in polled ==> n in from.live && (n in from.word || WokenBy(script, n)))
    && (forall n :: n in from.live && n !in live ==> n in polled && CompletedBy(script, n))
  }

  /** Whoever is pending was pending at the start or has been woken since. */
  lemma PendingIsWoken(from: Mask, script: seq<Round>, depth: nat, log: seq<set<nat>>, n: nat)
    requires AllValid(script)
    requires n in After(from, script, depth, log).word + Named(RoundAt(script, |log|).before)
    ensures n in from.word || WokenBy(script, n)
  {
    if n in RoundAt(script, |log|).before {
      assert script[|log|].Wakes(n);
    } else if log != [] {
      WokenIsWoken(RoundAt(script, |log| - 1), if log[|log| - 1] == {} then 0 else depth);
    }
  }

  lemma {:induction false} TickPollsRightly(from: Mask, script: seq<Round>, depth: nat, log: seq<set<nat>>)
    requires AllValid(script) && IsLog(from, script, depth, log) && log != []
    requires forall n :: n in from.live ==> 1 <= n <= depth
    ensures PollsRightly(from, script, After(from, script, depth, log).live, PolledIn(log, depth))
    decreases |log|
  {
    var k := |log| - 1;
    WalkIsExact(log[k], log[k], depth);
    if k > 0 {
      TickPollsRightly(from, script, depth, log[..k]);
    }
    forall n | n in log[k]
      ensures n in from.word || WokenBy(script, n)
    {
      PendingIsWoken(from, script, depth, log[..k], n);
    }
  }

  /** A future is gone exactly if it was polled in a round in which it was ready. */
  lemma {:induction false} GoneIffReadyWhenPolled(from: Mask, script: seq<Round>, depth: nat, log: seq<set<nat>>,
                                                  n: nat)
    requires AllValid(script)
    ensures n in After(from, script, depth, log).live <==>
            n in from.live && !exists k :: 0 <= k < |log| && n in log[k] && n in RoundAt(script, k).ready
    decreases |log|
  {
    if log != [] {
      GoneIffReadyWhenPolled(from, script, depth, log[..|log| - 1], n);
    }
  }

  predicate Lists(log: seq<set<nat>>, n: nat) {
    exists k :: 0 <= k < |log| && n in log[k]
  }

  /** The log lists exactly what was polled. */
  lemma {:induction false} PolledIsLogged(log: seq<set<nat>>, depth: nat, n: nat)
    requires 1 <= n <= depth
    ensures n in PolledIn(log, depth) <==> Lists(log, n)
    decreases |log|
  {
    if log != [] {
      var k := |log| - 1;
      PolledIsLogged(log[..k], depth, n);
      WalkIsExact(log[k], log[k], depth);
      assert Lists(log, n) <==> Lists(log[..k], n) || n in log[k];
    }
  }

  // ------------------------------------------------------------------------
  // The word
  // ------------------------------------------------------------------------

  /** What the word means to `Scheduler`. */
  ghost function Meaning(m: bv32): S.Word {
    S.Word(Tasks(m), Ticks(m))
  }

  /** `wake` computes what `Scheduler` does with its word; the test "bit already set" is exact. */
  lemma WakeRefinesWord(m: bv32, n: nat, r: bv32)
    requires n < MAX_TASKS && r == m | Bit(n)
    ensures Meaning(r) == S.Word(Meaning(m).tasks + {n}, Meaning(m).ticking)
    ensures if n in Meaning(m).tasks then r == m else r != m
    ensures Bit(n) == 1 << n
  {
    OrAddsTask(m, n, r);
    BitIsShift(n);
  }

  /** `tick` claims what `Scheduler` claims; its two constants mean what `Scheduler` stores. */
  lemma ClaimRefinesWord(m: bv32, alive: bv32)
    ensures Tasks(alive & m & TASK_BITS) == Tasks(alive) * Meaning(m).tasks
    ensures Meaning(TICKING) == S.Word({}, true) && Meaning(0) == S.Word({}, false)
  {
    AndIntersects(alive, m);
    ConstantWords();
  }

  /** A compare-exchange succeeds exactly if `Scheduler`'s does. */
  lemma CompareRefinesWord(m: bv32, seen: bv32)
    ensures if Meaning(m) == Meaning(seen) then m == seen else m != seen
  {
    WordExtensionality(m, seen);
  }

  /** The steps of a call `wake(n)` that nobody disturbs: the load, the exchange and the notification. */
  function WholeWake(s: S.State, n: nat): S.State {
    var (s1, rest1) := S.WakeStep(s, S.Load(n));
    if rest1.None? then s1
    else
      var (s2, rest2) := S.WakeStep(s1, rest1.value);
      if rest2.None? then s2 else S.WakeStep(s2, rest2.value).0
  }

  class ProcMachine {
    var wakeMask: bv32
    var aliveMask: bv32
    const chain: Chain
    var externalWaker: Option<Waker>
    /** The external wakers fired so far, and the tasks polled so far, in order. */
    var fired: seq<Waker>
    var polls: seq<nat>
    /** The tasks for which a wake has landed since their latest poll began. */
    ghost var owed: set<nat>

    /**
     `new`: every future is created and polled once, as in the round `first`.  Then the machine ticks:
     the tasks woken by these polls are polled again, and any other only if it is woken during the tick.
     */
    constructor (depth: nat, first: Round, script: seq<Round>)
      requires depth < MAX_TASKS && first.Valid() && AllValid(script)
      ensures Valid() && fresh(chain) && fresh(chain.futs) && chain.depth == depth
      ensures wakeMask == 0 && owed !! chain.Live() && externalWaker == None && fired == []
      ensures Upwards(depth) <= polls
      ensures PollsRightly(Mask(Named(Upwards(depth)) - first.ready, first.WokenUpTo(depth)), script,
                           chain.Live(), polls[depth..])
    {
      wakeMask, aliveMask, externalWaker, fired, polls, owed := 0, 0, None, [], [], {};
      chain := new Chain(depth);
      new;
      PollAll(first);
      ghost var log;
      var done;
      done, log := Tick(script);
    }

    /** The first poll of every future. */
    method PollAll(r: Round)
      requires chain.Valid() && owed == {} && externalWaker == None && r.Valid()
      requires wakeMask == 0 && chain.Live() == Named(Upwards(chain.depth)) && polls == []
      modifies this`wakeMask, this`aliveMask, this`externalWaker, this`fired, this`polls, this`owed, chain.futs
      ensures Valid() && externalWaker == None && fired == old(fired)
      ensures polls == Upwards(chain.depth) && Tasks(wakeMask) == r.WokenUpTo(chain.depth)
      ensures chain.Live() == Named(Upwards(chain.depth)) - r.ready
    {
      ConstantWords();
      WalkOfAll(chain.Live(), Tasks(0xFFFF_FFFF), chain.depth);
      PollFutures(0xFFFF_FFFF, r);
    }

    /** `alive_mask` names the tasks that hold a future; no live task that is owed a poll is forgotten. */
    ghost predicate Valid()
      reads this, chain.futs
    {
      && chain.Valid()
      && Tasks(aliveMask) == chain.Live() && !Ticks(aliveMask)
      && owed * chain.Live() <= Tasks(wakeMask)
    }

    /** Since the slot held `slot` and the log was `log`: nothing was fired, or the waker in the slot, once. */
    ghost predicate FiredAtMostOnce(slot: Option<Waker>, log: seq<Waker>)
      reads this
    {
      || (externalWaker == slot && fired == log)
      || FiredOnce(slot, log)
    }

    ghost predicate FiredOnce(slot: Option<Waker>, log: seq<Waker>)
      reads this
    {
      slot.Some? && externalWaker == None && fired == log + [slot.value]
    }

    /** What `Scheduler.WakeStep` reads and writes, if the word is `word`. */
    ghost function Seen(word: bv32): S.State
      reads this
    {
      S.State(0, Meaning(word), {}, {}, externalWaker, fired, None, [], owed)
    }

    method CompareExchange(expected: bv32, next: bv32, spurious: bool) returns (ok: bool)
      modifies this`wakeMask
      ensures ok == (!spurious && old(wakeMask) == expected)
      ensures wakeMask == if ok then next else old(wakeMask)
    {
      ok := !spurious && wakeMask == expected;
      if ok {
        wakeMask := next;
      }
    }

    /** `AtomicWaker::wake` */
    method NotifyExternal()
      modifies this`externalWaker, this`fired
      ensures externalWaker == None
      ensures fired == old(fired) + if old(externalWaker).Some? then [old(externalWaker).value] else []
    {
      if externalWaker.Some? {
        fired := fired + [externalWaker.value];
        externalWaker := None;
      }
    }

    /**
     `MultiWake::wake`.  `others[k]` is what other threads leave in the word between the load and the
     exchange of attempt `k`.  The wake takes effect when the word is `at`: it sets its bit and nothing
     else, and notifies exactly if the bit was clear and no tick was running.  That is what the steps of
     `Scheduler` do from there.
     */
    method Wake(n: nat, others: seq<bv32>) returns (ghost at: bv32)
      requires n < MAX_TASKS
      modifies this`wakeMask, this`externalWaker, this`fired, this`owed
      ensures at == old(wakeMask) || at in others
      ensures Tasks(wakeMask) == Tasks(at) + {n} && Ticks(wakeMask) == Ticks(at)
      ensures others == [] ==> at == old(wakeMask)
      ensures owed == old(owed) + {n}
      ensures var notifies := n !in Tasks(at) && !Ticks(at);
              && externalWaker == (if notifies then None else old(externalWaker))
              && fired == old(fired) + if notifies && old(externalWaker).Some? then [old(externalWaker).value] else []
      ensures Seen(wakeMask) == WholeWake(old(Seen(at)), n)
    {
      at := wakeMask;
      var k, landed := 0, false;
      while !landed
        invariant 0 <= k <= |others| && owed == old(owed)
        invariant !landed ==> wakeMask == old(wakeMask) || wakeMask in others
        invariant !landed && others == [] ==> wakeMask == old(wakeMask)
        invariant !landed ==> externalWaker == old(externalWaker) && fired == old(fired)
        invariant landed ==>
            && (at == old(wakeMask) || at in others) && (others == [] ==> at == old(wakeMask))
            && Tasks(wakeMask) == Tasks(at) + {n} && Ticks(wakeMask) == Ticks(at)
            && var notifies := n !in Tasks(at) && !Ticks(at);
               && externalWaker == (if notifies then None else old(externalWaker))
               && fired == old(fired) + if notifies && old(externalWaker).Some? then [old(externalWaker).value] else []
        decreases !landed, |others| - k
      {
        var seen := wakeMask;
        var next := WithTask(seen, n);
        if next == seen {
          landed, at := true, seen;
        } else {
          if k < |others| {
            wakeMask := others[k];
            k := k + 1;
          }
          var ok := CompareExchange(seen, next, false);
          if ok {
            landed, at := true, seen;
            var ticking := IsTicking(seen);
            if !ticking {
              NotifyExternal();
            }
          }
        }
      }
      owed := owed + {n};
    }

    /** The wakes of other threads, or of the tasks being polled, that land one after the other. */
    method Land(wakes: seq<nat>)
      requires InRange(wakes)
      modifies this`wakeMask, this`externalWaker, this`fired, this`owed
      ensures Tasks(wakeMask) == old(Tasks(wakeMask)) + Named(wakes) && Ticks(wakeMask) == old(Ticks(wakeMask))
      ensures owed == old(owed) + Named(wakes)
      ensures Ticks(wakeMask) || wakes == [] || old(externalWaker) == None ==>
                externalWaker == old(externalWaker) && fired == old(fired)
      ensures FiredAtMostOnce(old(externalWaker), old(fired))
      ensures !Ticks(wakeMask) && Tasks(wakeMask) != old(Tasks(wakeMask)) ==> externalWaker == None
      ensures wakes == [] ==> wakeMask == old(wakeMask)
    {
      for i := 0 to |wakes|
        invariant Tasks(wakeMask) == old(Tasks(wakeMask)) + Named(wakes[..i]) && Ticks(wakeMask) == old(Ticks(wakeMask))
        invariant owed == old(owed) + Named(wakes[..i])
        invariant Ticks(wakeMask) || i == 0 || old(externalWaker) == None ==>
            externalWaker == old(externalWaker) && fired == old(fired)
        invariant FiredAtMostOnce(old(externalWaker), old(fired))
        invariant !Ticks(wakeMask) && Tasks(wakeMask) != old(Tasks(wakeMask)) ==> externalWaker == None
        invariant i == 0 ==> wakeMask == old(wakeMask)
      {
        assert wakes[..i + 1] == wakes[..i] + [wakes[i]];
        ghost var at := Wake(wakes[i], []);
      }
      assert wakes[..|wakes|] == wakes;
    }

    /** No live task that is owed a poll is forgotten: it is pending, or still to be polled by this walk. */
    ghost predicate Remembers(mask: set<nat>, d: nat)
      requires chain.Valid()
      reads this, chain.futs
    {
      forall n :: n in owed && n in chain.Live() ==> n in Tasks(wakeMask) || (n in mask && n > d)
    }

    /** The visit of link `d`, and the wakes that land in the meantime. */
    method VisitLink(d: nat, mask: bv32, r: Round, alive: bv32) returns (alive': bv32)
      requires chain.Valid() && 1 <= d <= chain.depth && r.Valid() && Remembers(Tasks(mask), d - 1)
      requires Tasks(alive) == chain.LiveUpTo(d - 1) && !Ticks(alive)
      modifies this`wakeMask, this`externalWaker, this`fired, this`polls, this`owed, chain.futs
      ensures chain.futs[d] == (old(chain.futs[d]) && !(d in Tasks(mask) && d in r.ready))
      ensures forall n :: 0 <= n <= chain.depth && n != d ==> chain.futs[n] == old(chain.futs[n])
      ensures polls == old(polls) + if d in old(chain.Live()) && d in Tasks(mask) then [d] else []
      ensures chain.LiveUpTo(d) == old(chain.LiveUpTo(d - 1)) + if chain.futs[d] then {d} else {}
      ensures Tasks(alive') == chain.LiveUpTo(d) && !Ticks(alive')
      ensures Remembers(Tasks(mask), d)
      ensures Tasks(wakeMask) == old(Tasks(wakeMask)) + Named(r.At(d)) && Ticks(wakeMask) == old(Ticks(wakeMask))
      ensures FiredAtMostOnce(old(externalWaker), old(fired))
      ensures Ticks(wakeMask) || old(externalWaker) == None ==>
                externalWaker == old(externalWaker) && fired == old(fired)
    {
      var polled;
      alive', polled := chain.VisitLink(d, mask, r.ready, alive);
      if polled {
        polls := polls + [d];
        owed := owed - {d};
      }
      Land(r.At(d));
    }

    /**
     The visit of link `d` in a walk that started with the tasks `live`, of which `before` are at smaller
     depths, the log `polls0`, the pending tasks `word0`, and `slot` and `log` for the external waker.
     */
    method PollNext(d: nat, mask: bv32, r: Round, alive: bv32, ghost live: set<nat>, ghost before: set<nat>,
                    ghost polls0: seq<nat>, ghost word0: set<nat>, ghost slot: Option<Waker>, ghost log: seq<Waker>)
      returns (alive': bv32)
      requires chain.Valid() && 1 <= d <= chain.depth && r.Valid() && Remembers(Tasks(mask), d - 1)
      requires Tasks(alive) == chain.LiveUpTo(d - 1) && !Ticks(alive)
      requires chain.futs[d] == (d in live)
      requires chain.LiveUpTo(d - 1) == before - Tasks(mask) * r.ready
      requires polls == polls0 + Walk(live, Tasks(mask), d - 1)
      requires Tasks(wakeMask) == word0 + r.WokenUpTo(d - 1)
      requires FiredAtMostOnce(slot, log)
      requires Ticks(wakeMask) || slot == None ==> externalWaker == slot && fired == log
      modifies this`wakeMask, this`externalWaker, this`fired, this`polls, this`owed, chain.futs
      ensures chain.LiveUpTo(d) == (before + if d in live then {d} else {}) - Tasks(mask) * r.ready
      ensures forall n :: d < n <= chain.depth ==> chain.futs[n] == old(chain.futs[n])
      ensures polls == polls0 + Walk(live, Tasks(mask), d)
      ensures Tasks(alive') == chain.LiveUpTo(d) && !Ticks(alive')
      ensures Remembers(Tasks(mask), d)
      ensures Tasks(wakeMask) == word0 + r.WokenUpTo(d) && Ticks(wakeMask) == old(Ticks(wakeMask))
      ensures FiredAtMostOnce(slot, log)
      ensures Ticks(wakeMask) || slot == None ==> externalWaker == slot && fired == log
    {
      alive' := VisitLink(d, mask, r, alive);
    }

    /** `ProcMachineFutures::poll` of the links 1..`d`, with the wakes that land in the meantime. */
    method PollLinks(d: nat, mask: bv32, r: Round) returns (alive: bv32)
      requires chain.Valid() && d <= chain.depth && r.Valid() && Remembers(Tasks(mask), 0)
      modifies this`wakeMask, this`externalWaker, this`fired, this`polls, this`owed, chain.futs
      ensures chain.LiveUpTo(d) == old(chain.LiveUpTo(d)) - Tasks(mask) * r.ready
      ensures forall n :: d < n <= chain.depth ==> chain.futs[n] == old(chain.futs[n])
      ensures polls == old(polls) + Walk(old(chain.Live()), Tasks(mask), d)
      ensures Tasks(alive) == chain.LiveUpTo(d) && !Ticks(alive)
      ensures Remembers(Tasks(mask), d)
      ensures Tasks(wakeMask) == old(Tasks(wakeMask)) + r.WokenUpTo(d) && Ticks(wakeMask) == old(Ticks(wakeMask))
      ensures FiredAtMostOnce(old(externalWaker), old(fired))
      ensures Ticks(wakeMask) || old(externalWaker) == None ==>
                externalWaker == old(externalWaker) && fired == old(fired)
    {
      if d == 0 {
        ConstantWords();
        Land(r.At(0));
        return 0;
      }
      chain.LiveSplits(d);
      alive := PollLinks(d - 1, mask, r);
      alive := PollNext(d, mask, r, alive, old(chain.Live()), old(chain.LiveUpTo(d - 1)),
                        old(polls), old(Tasks(wakeMask)), old(externalWaker), old(fired));
    }

    /** Polls the claimed tasks. */
    method PollFutures(mask: bv32, r: Round)
      requires chain.Valid() && r.Valid() && Remembers(Tasks(mask), 0)
      modifies this`wakeMask, this`aliveMask, this`externalWaker, this`fired, this`polls, this`owed, chain.futs
      ensures Valid()
      ensures polls == old(polls) + Walk(old(chain.Live()), Tasks(mask), chain.depth)
      ensures chain.Live() == old(chain.Live()) - Tasks(mask) * r.ready
      ensures Tasks(wakeMask) == old(Tasks(wakeMask)) + r.WokenUpTo(chain.depth)
      ensures Ticks(wakeMask) == old(Ticks(wakeMask))
      ensures FiredAtMostOnce(old(externalWaker), old(fired))
      ensures Ticks(wakeMask) || old(externalWaker) == None ==>
                externalWaker == old(externalWaker) && fired == old(fired)
    {
      aliveMask := PollLinks(chain.depth, mask, r);
    }

    /** The tasks that a round polls. */
    ghost function Selected(r: Round): set<nat>
      requires chain.Valid()
      reads this, chain.futs
    {
      (Tasks(wakeMask) + Named(r.before)) * chain.Live()
    }

    /** The swap at the head of the loop: claims the pending wakes of live tasks. */
    method Claim(r: Round) returns (mask: bv32, any: bool)
      requires Valid() && r.Valid()
      modifies this`wakeMask, this`externalWaker, this`fired, this`owed
      ensures Tasks(wakeMask) == {} && Ticks(wakeMask)
      ensures Tasks(mask) == old(Selected(r))
      ensures any <==> Tasks(mask) != {}
      ensures Remembers(Tasks(mask), 0)
      ensures FiredAtMostOnce(old(externalWaker), old(fired))
      ensures r.before == [] || old(externalWaker) == None ==>
                externalWaker == old(externalWaker) && fired == old(fired)
    {
      Land(r.before);
      var word := wakeMask;
      wakeMask := TICKING;
      ConstantWords();
      mask, any := Claimed(aliveMask, word);
      assert Tasks(mask) == old(Selected(r));
    }

    /** `compare_exchange_weak(0x80000000, 0)` */
    method ExitTick(spurious: bool) returns (ok: bool)
      requires Ticks(wakeMask)
      modifies this`wakeMask
      ensures ok <==> old(Tasks(wakeMask)) == {} && !spurious
      ensures wakeMask == if ok then 0 else old(wakeMask)
      ensures ok ==> Tasks(wakeMask) == {}
    {
      ConstantWords();
      WordExtensionality(wakeMask, TICKING);
      ok := CompareExchange(TICKING, 0, spurious);
    }

    /** The end of a round in which there was nothing to poll. */
    method TryToEnd(r: Round) returns (ended: bool)
      requires Valid() && r.Valid() && Tasks(wakeMask) == {} && Ticks(wakeMask)
      modifies this`wakeMask, this`externalWaker, this`fired, this`owed
      ensures Valid() && Tasks(wakeMask) == Named(r.At(0))
      ensures ended <==> r.At(0) == [] && !r.spurious
      ensures if ended then wakeMask == 0 && owed !! chain.Live() else Ticks(wakeMask)
      ensures externalWaker == old(externalWaker) && fired == old(fired)
    {
      Land(r.At(0));
      assert r.At(0) != [] ==> r.At(0)[0] in Named(r.At(0));
      ended := ExitTick(r.spurious);
    }

    /** One round of the tick loop. */
    method TickRound(r: Round) returns (ended: bool)
      requires Valid() && r.Valid()
      modifies this`wakeMask, this`aliveMask, this`externalWaker, this`fired, this`polls, this`owed, chain.futs
      ensures Valid() && chain.Live() == old(chain.Live()) - old(Selected(r)) * r.ready
      ensures polls == old(polls) + Walk(old(chain.Live()), old(Selected(r)), chain.depth)
      ensures Tasks(wakeMask) == r.WokenUpTo(if old(Selected(r)) == {} then 0 else chain.depth)
      ensures ended <==> old(Selected(r)) == {} && r.At(0) == [] && !r.spurious
      ensures if ended then wakeMask == 0 && owed !! chain.Live() else Ticks(wakeMask)
      ensures FiredAtMostOnce(old(externalWaker), old(fired))
      ensures r.before == [] || old(externalWaker) == None ==>
                externalWaker == old(externalWaker) && fired == old(fired)
    {
      var mask, any := Claim(r);
      ended := false;
      if any {
        PollFutures(mask, r);
      } else {
        EmptyWalk(chain.Live(), chain.depth);
        ended := TryToEnd(r);
      }
    }

    /** `unsafe_unlock_io` and `is_done`; once they have reported that the machine is done, they always do. */
    method UnlockIo(script: seq<Round>) returns (done: bool, ghost log: seq<set<nat>>)
      requires Valid() && AllValid(script)
      modifies this`wakeMask, this`aliveMask, this`externalWaker, this`fired, this`polls, this`owed, chain.futs
      ensures Valid() && wakeMask == 0 && owed !! chain.Live()
      ensures done <==> chain.Live() == {}
      ensures old(chain.Live()) == {} ==> done
      ensures old(polls) <= polls
      ensures IsTick(old(Now()), script, chain.depth, log, chain.Live(), polls[|old(polls)|..])
      ensures PollsRightly(old(Now()), script, chain.Live(), polls[|old(polls)|..])
      ensures FiredAtMostOnce(old(externalWaker), old(fired))
      ensures done ==> externalWaker == None
      ensures done && old(externalWaker).Some? ==> fired == old(fired) + [old(externalWaker).value]
    {
      done, log := Tick(script);
      if done {
        NotifyExternal();
      }
    }

    /**
     `external_poll`: the lock is taken and released, which ticks the machine, and then the waker is
     registered.  Before that, but after the tick, the wakes `between` land: they notify nobody that is
     registered by this call, and stay pending.
     */
    method ExternalPoll(cx: Waker, script: seq<Round>, between: seq<nat>)
      returns (ready: bool, ghost log: seq<set<nat>>)
      requires Valid() && InRange(between) && AllValid(script)
      modifies this`wakeMask, this`aliveMask, this`externalWaker, this`fired, this`polls, this`owed, chain.futs
      ensures Valid()
      ensures old(polls) <= polls
      ensures IsTick(old(Now()), script, chain.depth, log, chain.Live(), polls[|old(polls)|..])
      ensures PollsRightly(old(Now()), script, chain.Live(), polls[|old(polls)|..])
      ensures ready <==> chain.Live() == {}
      ensures ready ==> externalWaker == None && FiredAtMostOnce(old(externalWaker), old(fired))
      ensures !ready ==> externalWaker == Some(cx)
      ensures fired == old(fired) || (old(externalWaker).Some? && fired == old(fired) + [old(externalWaker).value])
      ensures (ready || between != []) && old(externalWaker).Some? ==>
                fired == old(fired) + [old(externalWaker).value]
      ensures Tasks(wakeMask) == Named(between) && owed * chain.Live() <= Named(between)
    {
      ready, log := UnlockIo(script);
      ConstantWords();
      Land(between);
      assert between != [] ==> between[0] in Named(between);
      if !ready {
        externalWaker := Some(cx);
      }
    }

    ghost function Now(): Mask
      requires chain.Valid()
      reads this, chain.futs
    {
      Mask(chain.Live(), Tasks(wakeMask))
    }

    /** One more round of a tick that has gone through the rounds in `log`. */
    method LoggedRound(script: seq<Round>, k: nat, ghost from: Mask, ghost log: seq<set<nat>>, ghost polls0: seq<nat>)
      returns (ended: bool, ghost log': seq<set<nat>>)
      requires Valid() && AllValid(script) && k == |log| && Rounds(from, script, chain.depth, log, false)
      requires Now() == After(from, script, chain.depth, log) && polls == polls0 + PolledIn(log, chain.depth)
      modifies this`wakeMask, this`aliveMask, this`externalWaker, this`fired, this`polls, this`owed, chain.futs
      ensures Valid() && |log'| == k + 1 && Rounds(from, script, chain.depth, log', ended)
      ensures Now() == After(from, script, chain.depth, log') && polls == polls0 + PolledIn(log', chain.depth)
      ensures k >= |script| ==> Tasks(wakeMask) == {} && (old(Tasks(wakeMask)) == {} ==> ended)
      ensures if ended then wakeMask == 0 && owed !! chain.Live() else Ticks(wakeMask)
      ensures FiredAtMostOnce(old(externalWaker), old(fired))
      ensures RoundAt(script, k).before == [] || old(externalWaker) == None ==>
                externalWaker == old(externalWaker) && fired == old(fired)
    {
      ghost var selected := Selected(RoundAt(script, k));
      OneMoreRound(from, script, chain.depth, log, selected);
      QuietWakesNobody(if selected == {} then 0 else chain.depth);
      ghost var walk := Walk(chain.Live(), selected, chain.depth);
      ended := TickRound(RoundAt(script, k));
      log' := log + [selected];
      assert polls == polls0 + (PolledIn(log, chain.depth) + walk);
    }

    /**
     The tick loop; `script` says what happens in its first rounds, and after them it is left alone.
     It ends with no live task owed a poll.  It polls the tasks that were pending at its start or have
     been woken since, and only those; and only futures that are ready when they are polled complete.
     `log` are the tasks polled in each round.
     */
    method Tick(script: seq<Round>) returns (done: bool, ghost log: seq<set<nat>>)
      requires Valid() && AllValid(script)
      modifies this`wakeMask, this`aliveMask, this`externalWaker, this`fired, this`polls, this`owed, chain.futs
      ensures Valid() && wakeMask == 0 && owed !! chain.Live()
      ensures done <==> chain.Live() == {}
      ensures old(polls) <= polls
      ensures IsTick(old(Now()), script, chain.depth, log, chain.Live(), polls[|old(polls)|..])
      ensures PollsRightly(old(Now()), script, chain.Live(), polls[|old(polls)|..])
      ensures FiredAtMostOnce(old(externalWaker), old(fired))
      ensures (forall k :: 0 <= k < |script| ==> script[k].before == []) || old(externalWaker) == None ==>
                externalWaker == old(externalWaker) && fired == old(fired)
    {
      var k, ended := 0, false;
      log := [];
      while !ended
        invariant Valid() && k == |log| && Rounds(old(Now()), script, chain.depth, log, ended)
        invariant Now() == After(old(Now()), script, chain.depth, log)
        invariant polls == old(polls) + PolledIn(log, chain.depth)
        invariant ended ==> wakeMask == 0 && owed !! chain.Live()
        invariant FiredAtMostOnce(old(externalWaker), old(fired))
        invariant (forall i :: 0 <= i < |script| ==> script[i].before == []) || old(externalWaker) == None ==>
            externalWaker == old(externalWaker) && fired == old(fired)
        decreases !ended, if k < |script| then |script| - k else 0, Tasks(wakeMask) != {}
      {
        ended, log := LoggedRound(script, k, old(Now()), log, old(polls));
        k := k + 1;
      }
      TickPollsRightly(old(Now()), script, chain.depth, log);
      assert polls[|old(polls)|..] == PolledIn(log, chain.depth);
      ZeroIsEmpty(aliveMask);
      done := aliveMask == 0;
    }
  }

  lemma {:induction false} EmptyWalk(live: set<nat>, depth: nat)
    ensures Walk(live, {}, depth) == []
    decreases depth
  {
    if depth > 0 {
      EmptyWalk(live, depth - 1);
    }
  }

  // ------------------------------------------------------------------------
  // The walk, step by step
  // ------------------------------------------------------------------------

  /** Thread `i` is between two links of a walk over the chain. */
  predicate Walking(s: S.State, i: nat) {
    && i < |s.pcs| && s.pcs[i].Polling? && !s.pcs[i].running && s.pcs[i].inner.None?
    && 1 <= s.pcs[i].depth <= s.count + 1
  }

  /** One link as `Scheduler` has it, if no other thread moves; and the tasks it polls. */
  function PassLink(s: S.State, i: nat, ready: set<nat>): (r: (S.State, seq<nat>))
    requires Walking(s, i) && s.pcs[i].depth <= s.count
    ensures var pc, d, s' := s.pcs[i], s.pcs[i].depth, r.0;
            && i < |s'.pcs| && s'.pcs[i] == pc.(depth := d + 1)
            && r.1 == (if d in s.futs && d in pc.mask then [d] else [])
            && s'.futs == (if d in s.futs && d in pc.mask && d in ready then s.futs - {d} else s.futs)
            && s'.word == s.word && s'.count == s.count
  {
    var d := s.pcs[i].depth;
    var s1 := S.Apply(s, i, S.Go(false));
    if s1.pcs[i].running then (S.Apply(s1, i, S.EndPoll(d in ready)), [d]) else (s1, [])
  }

  /** The rest of the walk. */
  function Undisturbed(s: S.State, i: nat, ready: set<nat>): (S.State, seq<nat>)
    requires Walking(s, i)
    decreases s.count + 1 - s.pcs[i].depth
  {
    if s.pcs[i].depth > s.count then (S.Apply(s, i, S.Go(false)), [])
    else
      var (s1, polled) := PassLink(s, i, ready);
      var (s', rest) := Undisturbed(s1, i, ready);
      (s', polled + rest)
  }

  lemma {:induction false} UndisturbedPolls(s: S.State, i: nat, ready: set<nat>, live: set<nat>)
    requires Walking(s, i)
    requires forall n :: s.pcs[i].depth <= n <= s.count ==> (n in s.futs <==> n in live)
    ensures var pc := s.pcs[i];
            Walk(live, pc.mask, pc.depth - 1) + Undisturbed(s, i, ready).1 == Walk(live, pc.mask, s.count)
    decreases s.count + 1 - s.pcs[i].depth
  {
    var pc := s.pcs[i];
    if pc.depth <= s.count {
      var (s1, polled) := PassLink(s, i, ready);
      UndisturbedPolls(s1, i, ready, live);
      var before, rest := Walk(live, pc.mask, pc.depth - 1), Undisturbed(s1, i, ready).1;
      assert before + (polled + rest) == before + polled + rest;
    }
  }

  lemma {:induction false} UndisturbedCompletes(s: S.State, i: nat, ready: set<nat>)
    requires Walking(s, i)
    ensures var s', pc := Undisturbed(s, i, ready).0, s.pcs[i];
            && (forall n :: n in s'.futs <==> n in s.futs && !(n in pc.mask && n in ready && pc.depth <= n <= s.count))
            && s'.alive == s'.futs && s'.word == s.word && s'.count == s.count
            && i < |s'.pcs| && s'.pcs[i] == S.Swap(pc.after)
    decreases s.count + 1 - s.pcs[i].depth
  {
    if s.pcs[i].depth <= s.count {
      UndisturbedCompletes(PassLink(s, i, ready).0, i, ready);
    }
  }

  /**
   A walk from the first link polls what `Chain.Poll` polls, completes what that completes, and sets
   `alive_mask` to what that returns.
   */
  lemma UndisturbedIsChainPoll(s: S.State, i: nat, ready: set<nat>)
    requires Walking(s, i) && s.pcs[i].depth == 1 && forall n :: n in s.futs ==> 1 <= n <= s.count
    ensures var (s', polled) := Undisturbed(s, i, ready);
            && polled == Walk(s.futs, s.pcs[i].mask, s.count)
            && s'.futs == s.futs - s.pcs[i].mask * ready && s'.alive == s'.futs
            && i < |s'.pcs| && s'.pcs[i] == S.Swap(s.pcs[i].after)
  {
    UndisturbedPolls(s, i, ready, s.futs);
    UndisturbedCompletes(s, i, ready);
  }

  /** The steps of a tick that nobody disturbs, from its swap; and the tasks it polls. */
  function WholeTick(s: S.State, i: nat, ready: set<nat>): (S.State, seq<nat>)
    requires i < |s.pcs| && s.pcs[i].Swap?
  {
    var s1 := S.Apply(s, i, S.Go(false));
    if s1.pcs[i].Polling? then
      var (s2, polled) := Undisturbed(s1, i, ready);
      (S.Apply(S.Apply(s2, i, S.Go(false)), i, S.Go(false)), polled)
    else (S.Apply(s1, i, S.Go(false)), [])
  }

  /**
   Left alone, a tick polls the pending live tasks in order, completes those that are ready, and ends: with
   an empty word, whatever bits were pending.
   */
  lemma LeftAloneItEnds(s: S.State, i: nat, ready: set<nat>)
    requires i < |s.pcs| && s.pcs[i].Swap? && s.alive == s.futs && forall n :: n in s.futs ==> 1 <= n <= s.count
    ensures var (s', polled) := WholeTick(s, i, ready);
            && polled == Walk(s.futs, s.word.tasks, s.count)
            && s'.futs == s.futs - s.word.tasks * ready && s'.alive == s'.futs
            && s'.word == S.Word({}, false)
            && i < |s'.pcs| && s'.pcs[i] == S.Finish(s.pcs[i].after)
  {
    var s1 := S.Apply(s, i, S.Go(false));
    WalkOfLive(s.futs, s.word.tasks, s.count);
    if s1.pcs[i].Polling? {
      UndisturbedIsChainPoll(s1, i, ready);
      UndisturbedCompletes(s1, i, ready);
    } else {
      assert s.futs - s.word.tasks * ready == s.futs - (s.futs * s.word.tasks) * ready;
      EmptyWalk(s.futs, s.count);
    }
  }

  /** The tasks that are not live do not matter. */
  lemma {:induction false} WalkOfLive(live: set<nat>, mask: set<nat>, depth: nat)
    ensures Walk(live, live * mask, depth) == Walk(live, mask, depth)
    decreases depth
  {
    if depth > 0 {
      WalkOfLive(live, mask, depth - 1);
    }
  }
}
