/**
 Two tasks over one byte exchange, driven by the tick loop: a producer that sends finitely many
 chunks, flushes in between, and closes; and a consumer that reads.

 The tick loop is the scheduler's, with no wakes from outside and finitely many spurious failures of
 its weak compare-exchange.  It terminates, whatever the consumer asks for; and if the consumer always
 asks for something, all the data has been delivered and both tasks have completed when it does.
 */
module PipeTick {
  import opened Basics
  import opened MaskBits
  import opened ExchangeSpec
  import opened BytesExchange

  datatype Command = Send(bytes: seq<byte>) | FlushAll

  /** The call the producer makes next. */
  function NextCall(todo: seq<Command>): Call<byte> {
    if todo == [] then Close
    else match todo[0]
      case Send(bytes) => Write(bytes)
      case FlushAll => Flush
  }

  function Data(todo: seq<Command>): seq<byte> {
    if todo == [] then []
    else (if todo[0].Send? then todo[0].bytes else []) + Data(todo[1..])
  }

  function Woken(ws: seq<Waker>): set<nat> {
    set w | w in ws
  }

  /**
   The tasks' depths, of which one is 1 and the other is 2; and whether the consumer drains the
   exchange, that is, always asks for at least one byte when it is polled.
   */
  datatype Setup = Setup(producer: nat, consumer: nat, drains: bool) {
    predicate Valid() {
      {producer, consumer} == {1, 2}
    }
  }

  datatype Pipe = Pipe(
    x: Exch<byte>,
    todo: seq<Command>,
    received: seq<byte>,
    pending: set<nat>,
    producing: bool,
    consuming: bool)

  /** What holds between any two calls; `all` is the data the producer was given. */
  ghost predicate PipeOk(p: Pipe, d: Setup, all: seq<byte>) {
    && d.Valid()
    && p.x.Valid() && !p.x.phase.DROPPED?
    && p.x.reader in {None, Some(d.consumer)} && p.x.writer in {None, Some(d.producer)}
    && (p.received + p.x.slot) + Data(p.todo) == all
    && (p.x.phase.FULL_CLOSED? || p.x.phase.DONE? ==> p.todo == [])
    && (!p.producing || !p.consuming ==> p.x.phase.DONE?)
  }

  /** A live producer is parked, or it is going to be polled. */
  ghost predicate ProducerOk(p: Pipe, d: Setup, claimed: set<nat>) {
    p.producing ==>
      d.producer in p.pending + claimed || Parked(p.x, d.producer, NextCall(p.todo))
  }

  ghost predicate ConsumerOk(p: Pipe, d: Setup, claimed: set<nat>) {
    d.drains && p.consuming ==>
      d.consumer in p.pending + claimed || Parked(p.x, d.consumer, Read(1))
  }

  // ------------------------------------------------------------------------
  // The termination measure
  // ------------------------------------------------------------------------

  function Rank(phase: Phase): nat {
    match phase
    case EMPTY => 3
    case EMPTY_FLUSH | FULL => 2
    case EMPTY_FLUSHED | FULL_FLUSH => 1
    case FULL_CLOSED | DONE | DROPPED => 0
  }

  /** Commands left, then elements in the slot, then the rank of the phase. */
  predicate Less(p: Pipe, q: Pipe) {
    || |p.todo| < |q.todo|
    || (|p.todo| == |q.todo| && |p.x.slot| < |q.x.slot|)
    || (|p.todo| == |q.todo| && |p.x.slot| == |q.x.slot| && Rank(p.x.phase) < Rank(q.x.phase))
  }

  /** Progress was made, or nobody was woken. */
  predicate Progress(p: Pipe, q: Pipe) {
    || Less(p, q)
    || (|p.todo| == |q.todo| && p.x.slot == q.x.slot && p.x.phase == q.x.phase && p.pending == q.pending)
  }

  /** A round that polled somebody made progress, or left nobody to be polled. */
  predicate RoundProgress(p: Pipe, q: Pipe) {
    || Less(p, q)
    || (&& |p.todo| == |q.todo| && p.x.slot == q.x.slot && p.x.phase == q.x.phase
        && p.pending == {} && q.pending != {})
  }

  lemma PolledMakesProgress(p: Pipe, q: Pipe)
    requires Progress(p, q.(pending := {})) && q.pending != {}
    ensures RoundProgress(p, q)
  {
  }

  lemma ProgressTrans(p: Pipe, q: Pipe, r: Pipe)
    requires Progress(p, q) && Progress(q, r)
    ensures Progress(p, r)
  {
  }

  // ------------------------------------------------------------------------
  // One call of each task
  // ------------------------------------------------------------------------

  function ProducerCall(p: Pipe, d: Setup): Pipe {
    var o := Do(p.x, d.producer, NextCall(p.todo));
    p.(x := o.next,
       pending := p.pending + Woken(o.woken),
       todo := if p.todo != [] && !o.reply.Pending? then p.todo[1..] else p.todo)
  }

  lemma ProducerConserves(p: Pipe, d: Setup, all: seq<byte>)
    requires PipeOk(p, d, all) && p.producing
    ensures PipeOk(ProducerCall(p, d), d, all)
  {
    PendingParks(p.x, d.producer, NextCall(p.todo));
    if p.todo != [] && p.todo[0].Send? && !p.x.Occupied() {
      assert p.x.slot == [];
      assert p.received + [] + (p.todo[0].bytes + Data(p.todo[1..]))
          == p.received + p.todo[0].bytes + Data(p.todo[1..]);
    }
  }

  lemma ProducerCallOk(p: Pipe, d: Setup, all: seq<byte>, claimed: set<nat>)
    requires PipeOk(p, d, all) && p.producing && ConsumerOk(p, d, claimed)
    ensures var q := ProducerCall(p, d);
            var reply := Do(p.x, d.producer, NextCall(p.todo)).reply;
            && PipeOk(q, d, all) && ConsumerOk(q, d, claimed) && Progress(q, p)
            && (reply.Pending? ==> ProducerOk(q, d, {}))
            && !reply.Failed?
            && (reply.Pending? || p.todo != [] || q.x.phase.DONE?)
            && (!reply.Pending? && p.todo != [] ==> |q.todo| < |p.todo|)
  {
    var c := NextCall(p.todo);
    ProducerConserves(p, d, all);
    PendingParks(p.x, d.producer, c);
    if Parked(p.x, d.consumer, Read(1)) {
      OtherSideKeepsOrWakes(p.x, d.producer, c, d.consumer, Read(1));
    }
  }

  function ConsumerCall(p: Pipe, d: Setup, maxLen: nat): Pipe {
    var o := Do(p.x, d.consumer, Read(maxLen));
    p.(x := o.next,
       pending := p.pending + Woken(o.woken),
       received := if o.reply.Chunk? then p.received + o.reply.data else p.received)
  }

  lemma ReadConserves(x: Exch<byte>, w: Waker, maxLen: nat, received: seq<byte>)
    requires x.Valid()
    ensures var o := ReadStep(x, w, maxLen);
            received + x.slot == (if o.reply.Chunk? then received + o.reply.data else received) + o.next.slot
  {
  }

  lemma ConsumerCallOk(p: Pipe, d: Setup, all: seq<byte>, claimed: set<nat>, maxLen: nat)
    requires PipeOk(p, d, all) && p.consuming && ProducerOk(p, d, claimed)
    ensures var q := ConsumerCall(p, d, maxLen);
            var reply := Do(p.x, d.consumer, Read(maxLen)).reply;
            && PipeOk(q, d, all) && ProducerOk(q, d, claimed) && Progress(q, p)
            && (reply.Pending? || (reply.Chunk? && maxLen > 0) ==> ConsumerOk(q, d, {}))
            && (reply.Pending? || reply.Chunk? || (reply.EndOfStream? && q.x.phase.DONE?))
  {
    PendingParks(p.x, d.consumer, Read(maxLen));
    if p.producing && Parked(p.x, d.producer, NextCall(p.todo)) {
      OtherSideKeepsOrWakes(p.x, d.consumer, Read(maxLen), d.producer, NextCall(p.todo));
    }
    ReadConserves(p.x, d.consumer, maxLen, p.received);
  }

  /** With nobody left to poll, both tasks have completed and everything was delivered. */
  lemma QuietIsComplete(p: Pipe, d: Setup, all: seq<byte>)
    requires PipeOk(p, d, all) && ProducerOk(p, d, {}) && ConsumerOk(p, d, {}) && d.drains
    requires p.pending * LiveTasks(p, d) == {}
    ensures !p.producing && !p.consuming && p.x.phase.DONE? && p.received == all
  {
    assert p.producing ==> d.producer in LiveTasks(p, d);
    assert p.consuming ==> d.consumer in LiveTasks(p, d);
  }

  function LiveTasks(p: Pipe, d: Setup): set<nat> {
    (if p.producing then {d.producer} else {}) + (if p.consuming then {d.consumer} else {})
  }

  /** From `p` to `q` a task that is not in `mask` was not polled: it made no call, and did not complete. */
  predicate OnlyPolled(p: Pipe, q: Pipe, d: Setup, mask: set<nat>) {
    && (d.producer !in mask ==> q.todo == p.todo && q.producing == p.producing)
    && (d.consumer !in mask ==> q.received == p.received && q.consuming == p.consuming)
    && (d.producer !in mask && d.consumer !in mask ==> q.x == p.x)
  }

  /** From `p`, rounds that each poll only who is pending at its start lead through `trace` to `q`. */
  ghost predicate Rounds(p: Pipe, trace: seq<Pipe>, q: Pipe, d: Setup)
    decreases |trace|
  {
    if trace == [] then p == q
    else
      var last := trace[|trace| - 1];
      Rounds(p, trace[..|trace| - 1], last, d) && OnlyPolled(last, q, d, last.pending)
  }

  lemma OneMoreRound(p: Pipe, trace: seq<Pipe>, q: Pipe, r: Pipe, d: Setup)
    requires Rounds(p, trace, q, d) && OnlyPolled(q, r, d, q.pending)
    ensures Rounds(p, trace + [q], r, d)
  {
    assert (trace + [q])[..|trace|] == trace;
  }

  // ------------------------------------------------------------------------
  // The machine
  // ------------------------------------------------------------------------

  /** What the consumer asks for in one poll: the `max_len` of each of its reads. */
  predicate Drains(lens: seq<nat>) {
    lens != [] && forall i :: 0 <= i < |lens| ==> lens[i] > 0
  }

  class PipeMachine {
    const d: Setup
    const io: IoBytesExchange
    ghost const all: seq<byte>
    var todo: seq<Command>
    var received: seq<byte>
    var producing: bool
    var consuming: bool
    var wakeMask: bv32
    var aliveMask: bv32

    ghost function State(): Pipe
      reads this, io
    {
      Pipe(io.Model(), todo, received, Tasks(wakeMask), producing, consuming)
    }

    ghost predicate Valid()
      reads this, io
    {
      PipeOk(State(), d, all)
    }

    constructor (d: Setup, todo: seq<Command>)
      requires d.Valid()
      ensures Valid() && fresh(io) && this.d == d && all == Data(todo) && this.todo == todo
      ensures producing && consuming && Tasks(wakeMask) == {} && aliveMask == 0
    {
      this.d := d;
      io := new IoBytesExchange();
      all := Data(todo);
      this.todo, received, producing, consuming, wakeMask, aliveMask := todo, [], true, true, 0, 0;
      new;
      ConstantWords();
    }

    /** Calls the wakers fired since the log had length `before`. */
    method CallWakers(before: nat)
      requires before <= |io.woken| && forall i :: before <= i < |io.woken| ==> io.woken[i] < MAX_TASKS
      modifies this`wakeMask
      ensures Tasks(wakeMask) == old(Tasks(wakeMask)) + Woken(io.woken[before..])
      ensures Ticks(wakeMask) == old(Ticks(wakeMask))
    {
      var i := before;
      while i < |io.woken|
        invariant before <= i <= |io.woken|
        invariant Tasks(wakeMask) == old(Tasks(wakeMask)) + Woken(io.woken[before..i])
        invariant Ticks(wakeMask) == old(Ticks(wakeMask))
      {
        assert io.woken[before..i + 1] == io.woken[before..i] + [io.woken[i]];
        wakeMask := WithTask(wakeMask, io.woken[i]);
        i := i + 1;
      }
      assert io.woken[before..i] == io.woken[before..];
    }

    /** The exchange holds the wakers of these two tasks only. */
    ghost predicate Wired()
      reads this, io
    {
      && d.Valid() && io.Valid()
      && io.reader in {None, Some(d.consumer)} && io.writer in {None, Some(d.producer)}
    }

    /** The call that the producer makes next, on the exchange. */
    method CallExchange() returns (reply: Reply<byte>)
      requires io.Valid()
      modifies io
      ensures io.Valid()
      ensures var o := Do(old(io.Model()), d.producer, NextCall(todo));
              io.Model() == o.next && reply == o.reply && io.woken == old(io.woken) + o.woken
    {
      if todo == [] {
        reply := io.ProdPollClose(d.producer);
      } else {
        match todo[0] {
          case Send(bytes) =>
            var rest;
            reply, rest := io.ProdPollWrite(d.producer, bytes);
          case FlushAll =>
            reply := io.ProdPollFlush(d.producer);
        }
      }
    }

    /** The producer's next call, and the wakers that it fires. */
    method Produce() returns (reply: Reply<byte>)
      requires Wired()
      modifies this`todo, this`wakeMask, io
      ensures State() == ProducerCall(old(State()), d)
      ensures reply == Do(old(io.Model()), d.producer, NextCall(old(todo))).reply
      ensures Ticks(wakeMask) == old(Ticks(wakeMask))
    {
      var before := |io.woken|;
      ghost var fired := Do(io.Model(), d.producer, NextCall(todo)).woken;
      reply := CallExchange();
      forall i | before <= i < |io.woken| ensures io.woken[i] < MAX_TASKS {
        assert io.woken[i] == fired[i - before] && fired[i - before] in fired;
      }
      assert io.woken[before..] == fired;
      if todo != [] && reply != Pending {
        todo := todo[1..];
      }
      CallWakers(before);
    }

    /** Polls the producer's future: it makes calls until one is pending, or it has closed. */
    method PollProducer(ghost claimed: set<nat>)
      requires Valid() && producing && ConsumerOk(State(), d, claimed)
      modifies this`todo, this`producing, this`wakeMask, io
      ensures Valid() && ConsumerOk(State(), d, claimed) && ProducerOk(State(), d, {})
      ensures Progress(State(), old(State())) && Ticks(wakeMask) == old(Ticks(wakeMask))
    {
      var going := true;
      while going
        invariant Valid() && ConsumerOk(State(), d, claimed)
        invariant Progress(State(), old(State())) && Ticks(wakeMask) == old(Ticks(wakeMask))
        invariant going ==> producing
        invariant !going ==> ProducerOk(State(), d, {})
        decreases going, |todo|
      {
        ghost var p := State();
        ProducerCallOk(p, d, all, claimed);
        var closing := todo == [];
        var reply := Produce();
        ProgressTrans(State(), p, old(State()));
        if reply == Pending {
          going := false;
        } else if closing {
          going, producing := false, false;
        }
      }
    }

    /** One read by the consumer. */
    method Consume(maxLen: nat) returns (reply: Reply<byte>)
      requires Valid() && consuming
      modifies this`received, this`wakeMask, io
      ensures State() == ConsumerCall(old(State()), d, maxLen)
      ensures reply == Do(old(io.Model()), d.consumer, Read(maxLen)).reply
      ensures Ticks(wakeMask) == old(Ticks(wakeMask))
    {
      var before := |io.woken|;
      reply := io.ConPollRead(d.consumer, maxLen);
      if reply.Chunk? {
        received := received + reply.data;
      }
      CallWakers(before);
    }

    /** Polls the consumer's future: it reads until a read is pending, the stream ends, or it is satisfied. */
    method PollConsumer(lens: seq<nat>, ghost claimed: set<nat>)
      requires Valid() && consuming && ProducerOk(State(), d, claimed)
      requires d.drains ==> Drains(lens)
      modifies this`received, this`consuming, this`wakeMask, io
      ensures Valid() && ProducerOk(State(), d, claimed) && ConsumerOk(State(), d, {})
      ensures Progress(State(), old(State())) && Ticks(wakeMask) == old(Ticks(wakeMask))
    {
      var i := 0;
      while i < |lens| && consuming
        invariant 0 <= i <= |lens|
        invariant Valid() && ProducerOk(State(), d, claimed)
        invariant i > 0 ==> ConsumerOk(State(), d, {})
        invariant Progress(State(), old(State())) && Ticks(wakeMask) == old(Ticks(wakeMask))
      {
        ghost var p := State();
        ConsumerCallOk(p, d, all, claimed, lens[i]);
        var reply := Consume(lens[i]);
        ProgressTrans(State(), p, old(State()));
        if reply.Pending? {
          return;
        } else if reply.EndOfStream? {
          consuming := false;
        }
        i := i + 1;
      }
    }

    /** One link of the futures chain: polls the producer if it is selected. */
    method VisitProducer(mask: bv32, ghost claimed: set<nat>)
      requires Valid() && ConsumerOk(State(), d, claimed) && ProducerOk(State(), d, Tasks(mask))
      modifies this`todo, this`producing, this`wakeMask, io
      ensures Valid() && ConsumerOk(State(), d, claimed) && ProducerOk(State(), d, {})
      ensures Progress(State(), old(State())) && Ticks(wakeMask) == old(Ticks(wakeMask))
      ensures d.producer !in Tasks(mask) ==> State() == old(State())
    {
      var selected := IsSelected(mask, d.producer);
      if producing && selected {
        PollProducer(claimed);
      }
    }

    method VisitConsumer(mask: bv32, lens: seq<nat>, ghost claimed: set<nat>)
      requires Valid() && ConsumerOk(State(), d, Tasks(mask)) && ProducerOk(State(), d, claimed)
      requires d.drains ==> Drains(lens)
      modifies this`received, this`consuming, this`wakeMask, io
      ensures Valid() && ProducerOk(State(), d, claimed) && ConsumerOk(State(), d, {})
      ensures Progress(State(), old(State())) && Ticks(wakeMask) == old(Ticks(wakeMask))
      ensures d.consumer !in Tasks(mask) ==> State() == old(State())
    {
      var selected := IsSelected(mask, d.consumer);
      if consuming && selected {
        PollConsumer(lens, claimed);
      }
    }

    /** The futures chain: both tasks, the shallower one first; the result is the set of live tasks. */
    method PollFutures(mask: bv32, lens: seq<nat>) returns (alive: bv32)
      requires Valid() && ConsumerOk(State(), d, Tasks(mask)) && ProducerOk(State(), d, Tasks(mask))
      requires d.drains ==> Drains(lens)
      modifies this`todo, this`received, this`producing, this`consuming, this`wakeMask, io
      ensures Valid() && ConsumerOk(State(), d, {}) && ProducerOk(State(), d, {})
      ensures Progress(State(), old(State())) && Ticks(wakeMask) == old(Ticks(wakeMask))
      ensures OnlyPolled(old(State()), State(), d, Tasks(mask))
      ensures Tasks(alive) == LiveTasks(State(), d) && !Ticks(alive)
    {
      if d.producer < d.consumer {
        VisitProducer(mask, Tasks(mask));
        ghost var p := State();
        VisitConsumer(mask, lens, {});
        ProgressTrans(State(), p, old(State()));
      } else {
        VisitConsumer(mask, lens, Tasks(mask));
        ghost var p := State();
        VisitProducer(mask, {});
        ProgressTrans(State(), p, old(State()));
      }
      alive := AliveBits();
    }

    method AliveBits() returns (alive: bv32)
      requires Valid()
      ensures Tasks(alive) == LiveTasks(State(), d) && !Ticks(alive)
    {
      ConstantWords();
      alive := 0;
      if producing {
        alive := WithTask(alive, d.producer);
      }
      if consuming {
        alive := WithTask(alive, d.consumer);
      }
    }

    /** The swap at the head of the tick loop: claims the pending wakes of live tasks. */
    method Claim() returns (mask: bv32, any: bool)
      requires Valid() && ConsumerOk(State(), d, {}) && ProducerOk(State(), d, {})
      requires Tasks(aliveMask) == LiveTasks(State(), d)
      modifies this`wakeMask
      ensures wakeMask == TICKING && State() == old(State()).(pending := {})
      ensures Tasks(mask) == Tasks(aliveMask) * old(Tasks(wakeMask))
      ensures any <==> Tasks(mask) != {}
      ensures Valid() && ConsumerOk(State(), d, Tasks(mask)) && ProducerOk(State(), d, Tasks(mask))
    {
      var word := wakeMask;
      wakeMask := TICKING;
      assert Tasks(TICKING) == {} by {
        ConstantWords();
      }
      mask, any := Claimed(aliveMask, word);
    }

    /** `compare_exchange_weak(0x80000000, 0)` */
    method ExitExchange(spurious: bool) returns (ok: bool)
      modifies this`wakeMask
      ensures ok == (!spurious && old(wakeMask) == TICKING)
      ensures wakeMask == if ok then 0 else old(wakeMask)
    {
      ok := !spurious && wakeMask == TICKING;
      if ok {
        wakeMask := 0;
      }
    }

    /** What holds at the head of the tick loop. */
    ghost predicate Steady()
      reads this, io
    {
      && Valid() && ConsumerOk(State(), d, {}) && ProducerOk(State(), d, {})
      && Tasks(aliveMask) == LiveTasks(State(), d) && !Ticks(aliveMask)
    }

    /** Polls the tasks claimed from the word `before`. */
    method PollClaimed(mask: bv32, lens: seq<nat>, ghost before: set<nat>)
      requires Valid() && ConsumerOk(State(), d, Tasks(mask)) && ProducerOk(State(), d, Tasks(mask))
      requires (d.drains ==> Drains(lens)) && Tasks(mask) <= before
      modifies this`todo, this`received, this`producing, this`consuming, this`wakeMask, this`aliveMask, io
      ensures Steady() && Progress(State(), old(State())) && OnlyPolled(old(State()), State(), d, before)
    {
      aliveMask := PollFutures(mask, lens);
    }

    /** The end of a round in which there was nothing to poll. */
    method TryToEnd(spurious: bool) returns (ended: bool)
      requires Steady() && wakeMask == TICKING
      modifies this`wakeMask
      ensures Steady() && State() == old(State()) && ended == !spurious && (ended ==> wakeMask == 0)
    {
      ended := ExitExchange(spurious);
      assert Tasks(0) == {} && Tasks(TICKING) == {} by {
        ConstantWords();
      }
    }

    /** One round of the tick loop: polls the claimed tasks, or else tries to end the tick. */
    method Round(lens: seq<nat>, spurious: bool) returns (polled: bool, ended: bool)
      requires Steady() && (d.drains ==> Drains(lens))
      modifies this`todo, this`received, this`producing, this`consuming, this`wakeMask, this`aliveMask, io
      ensures Steady()
      ensures polled <==> old(LiveTasks(State(), d)) * old(Tasks(wakeMask)) != {}
      ensures polled ==> !ended && RoundProgress(State(), old(State()))
      ensures OnlyPolled(old(State()), State(), d, old(Tasks(wakeMask)))
      ensures !polled ==> State() == old(State()).(pending := {}) && ended == !spurious
      ensures ended ==> wakeMask == 0
    {
      ghost var p := State();
      var mask, any := Claim();
      polled, ended := any, false;
      if any {
        PollClaimed(mask, lens, p.pending);
        PolledMakesProgress(State(), p);
      } else {
        ended := TryToEnd(spurious);
      }
    }

    /**
     The tick loop.  `appetite(k)` is what the consumer asks for if it is polled in round `k`;
     `failures` is how often the weak compare-exchange fails for no reason.
     */
    method Tick(appetite: nat -> seq<nat>, failures: nat) returns (done: bool, ghost trace: seq<Pipe>)
      requires Steady() && (d.drains ==> forall k :: Drains(appetite(k)))
      modifies this`todo, this`received, this`producing, this`consuming, this`wakeMask, this`aliveMask, io
      ensures Steady() && wakeMask == 0 && done == (aliveMask == 0)
      ensures d.drains ==> done && !producing && !consuming && received == all && io.state == DONE
      ensures Rounds(old(State()), trace, State(), d)
      ensures old(LiveTasks(State(), d)) * old(Tasks(wakeMask)) == {} ==> State() == old(State()).(pending := {})
    {
      var round, left, ended := 0, failures, false;
      trace := [];
      while !ended
        invariant Steady() && (ended ==> wakeMask == 0)
        invariant Rounds(old(State()), trace, State(), d)
        invariant old(LiveTasks(State(), d)) * old(Tasks(wakeMask)) == {} ==>
            State() == if round == 0 then old(State()) else old(State()).(pending := {})
        invariant ended ==> round > 0
        decreases !ended, |todo|, |io.data|, Rank(io.state), Tasks(wakeMask) != {}, left
      {
        var polled;
        ghost var p := State();
        polled, ended := Round(appetite(round), left > 0);
        OneMoreRound(old(State()), trace, p, State(), d);
        trace := trace + [p];
        round := round + 1;
        if !polled && !ended {
          left := left - 1;
        }
      }
      assert Tasks(0) == {} by {
        ConstantWords();
      }
      ZeroIsEmpty(aliveMask);
      done := aliveMask == 0;
      if d.drains {
        QuietIsComplete(State(), d, all);
      }
    }

    /** `new` after `init`: the first poll of every task, then a tick. */
    method Start(lens: seq<nat>, appetite: nat -> seq<nat>, failures: nat) returns (done: bool)
      requires Valid() && producing && consuming
      requires d.drains ==> Drains(lens) && forall k :: Drains(appetite(k))
      modifies this`todo, this`received, this`producing, this`consuming, this`wakeMask, this`aliveMask, io
      ensures Steady() && wakeMask == 0 && done == (aliveMask == 0)
      ensures d.drains ==> done && !producing && !consuming && received == all && io.state == DONE
    {
      assert d.producer in Tasks(0xFFFF_FFFF) && d.consumer in Tasks(0xFFFF_FFFF) by {
        ConstantWords();
      }
      aliveMask := PollFutures(0xFFFF_FFFF, lens);
      ghost var trace;
      done, trace := Tick(appetite, failures);
    }
  }
}
