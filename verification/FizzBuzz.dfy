/**
 The Fizz-Buzz task of the example: it reads numbers from one exchange and sends words to another, and
 is at the mercy of both neighbours.  Their calls, and the polls of the task, come in any order.
 */
module FizzBuzz {
  import opened Basics
  import opened ExchangeSpec
  import R = ExchangeRuns

  // ------------------------------------------------------------------------
  // What the task is to say
  // ------------------------------------------------------------------------

  function Say(n: nat): seq<string> {
    (if n % 3 == 0 then ["Fizz"] else []) + (if n % 5 == 0 then ["Buzz"] else [])
  }

  /** The words for the numbers `ns`, in order. */
  function Expand(ns: seq<nat>): seq<string> {
    if ns == [] then [] else Expand(ns[..|ns| - 1]) + Say(ns[|ns| - 1])
  }

  function Held(send: Option<string>): seq<string> {
    if send.Some? then [send.value] else []
  }

  /** What the task keeps in `send1` and in `send2` after it has read `n`. */
  function Fizz(n: nat): Option<string> {
    if n % 3 == 0 then Some("Fizz") else None
  }

  function Buzz(n: nat): Option<string> {
    if n % 5 == 0 then Some("Buzz") else None
  }

  lemma HeldIsSaid(n: nat)
    ensures Held(Fizz(n)) + Held(Buzz(n)) == Say(n)
  {
  }

  // ------------------------------------------------------------------------
  // The task
  // ------------------------------------------------------------------------

  /** The two exchanges with their histories, the words held back, and whether the task has ended. */
  datatype Task = Task(
    input: R.History<nat>,
    output: R.History<string>,
    send1: Option<string>,
    send2: Option<string>,
    done: bool)
  {
    function Measure(): nat {
      3 * |input.x.slot| + |Held(send1)| + |Held(send2)|
    }
  }

  datatype Verdict = Again | Wait | End

  function AfterSend<T>(reply: Reply<T>): Verdict {
    match reply
    case Accepted(_) => Again
    case Failed(_) => End
    case _ => Verdict.Wait
  }

  /** One call of the closure. */
  function Iterate(t: Task, w: Waker): (r: (Task, Verdict))
    ensures r.1.Again? ==> r.0.Measure() < t.Measure()
  {
    if t.send1.Some? then
      var write := Write([t.send1.value]);
      var v := AfterSend(Do(t.output.x, w, write).reply);
      (t.(output := R.Step(t.output, R.Make(w, write)), send1 := if v.Again? then None else t.send1), v)
    else if t.send2.Some? then
      var write := Write([t.send2.value]);
      var v := AfterSend(Do(t.output.x, w, write).reply);
      (t.(output := R.Step(t.output, R.Make(w, write)), send2 := if v.Again? then None else t.send2), v)
    else
      var t' := t.(input := R.Step(t.input, R.Make(w, Read(1))));
      match Do(t.input.x, w, Read(1)).reply
      case Chunk(items) =>
        if items == [] then (t', Verdict.Wait)
        else (t'.(send1 := Fizz(items[0]), send2 := Buzz(items[0])), Again)
      case Pending => (t', Verdict.Wait)
      case _ => (t', End)
  }

  /** A poll: the closure is called again and again until it has to wait, or is done. */
  function Poll(t: Task, w: Waker): Task
    decreases t.Measure()
  {
    if t.done then t
    else
      var (t', v) := Iterate(t, w);
      match v
      case Again => Poll(t', w)
      case Wait => t'
      case End => t'.(done := true)
  }

  // ------------------------------------------------------------------------
  // Runs
  // ------------------------------------------------------------------------

  /** A poll of the task, or a call by the neighbour that feeds it or by the one that it feeds. */
  datatype Event = PollTask(w: Waker) | Feed(u: Waker, feed: Call<nat>) | Take(u: Waker, take: Call<string>)

  function Step(t: Task, e: Event): Task {
    match e
    case PollTask(w) => Poll(t, w)
    case Feed(u, c) => if RoleOf(c).Writer? then t.(input := R.Step(t.input, R.Make(u, c))) else t
    case Take(u, c) => if RoleOf(c).Reader? then t.(output := R.Step(t.output, R.Make(u, c))) else t
  }

  function Start(): Task {
    Task(R.Start(ItemStream), R.Start(ItemStream), None, None, false)
  }

  ghost function Run(es: seq<Event>): (t: Task)
    ensures Inv(t)
    decreases |es|
  {
    if es == [] then Start()
    else
      var t := Run(es[..|es| - 1]);
      StepKeepsInv(t, es[|es| - 1]);
      Step(t, es[|es| - 1])
  }

  /**
   The accepted and the held words are the words for the numbers read.  A task that waits for a number
   holds no word.
   */
  ghost predicate Inv(t: Task) {
    && R.Inv(t.input) && R.Inv(t.output)
    && t.input.lost == []
    && t.output.written + Held(t.send1) + Held(t.send2) == Expand(t.input.read)
    && (Reader in t.input.waits ==> t.send1.None? && t.send2.None?)
    && (Writer in t.output.waits ==>
          t.output.waits[Writer].call.Write? && t.output.waits[Writer].call.data != [])
  }

  lemma SendKeepsInv(t: Task, w: Waker)
    requires Inv(t) && (t.send1.Some? || t.send2.Some?)
    ensures Inv(Iterate(t, w).0)
  {
    var word := if t.send1.Some? then t.send1.value else t.send2.value;
    R.StepKeepsInv(t.output, R.Make(w, Write([word])));
  }

  lemma ReadKeepsInv(t: Task, w: Waker)
    requires Inv(t) && t.send1.None? && t.send2.None?
    ensures Inv(Iterate(t, w).0)
  {
    R.StepKeepsInv(t.input, R.Make(w, Read(1)));
    ReadExpands(t, w);
  }

  lemma IterateKeepsInv(t: Task, w: Waker)
    requires Inv(t)
    ensures Inv(Iterate(t, w).0)
  {
    if t.send1.Some? || t.send2.Some? {
      SendKeepsInv(t, w);
    } else {
      ReadKeepsInv(t, w);
    }
  }

  lemma ExpandOne(ns: seq<nat>, n: nat)
    ensures Expand(ns + [n]) == Expand(ns) + Say(n)
  {
    assert (ns + [n])[..|ns|] == ns;
  }

  /** Whoever has said everything about `read` says everything about one more number. */
  lemma SaysOneMore(written: seq<string>, read: seq<nat>, n: nat)
    requires written == Expand(read)
    ensures written + Held(Fizz(n)) + Held(Buzz(n)) == Expand(read + [n])
  {
    ExpandOne(read, n);
    HeldIsSaid(n);
    assert written + Held(Fizz(n)) + Held(Buzz(n)) == written + (Held(Fizz(n)) + Held(Buzz(n)));
  }

  lemma ReadExpands(t: Task, w: Waker)
    requires Inv(t) && t.send1.None? && t.send2.None?
    ensures var t' := Iterate(t, w).0;
            t'.output.written + Held(t'.send1) + Held(t'.send2) == Expand(t'.input.read)
  {
    var t' := Iterate(t, w).0;
    var reply := Do(t.input.x, w, Read(1)).reply;
    assert t.output.written == Expand(t.input.read) by {
      assert t.output.written + [] + [] == t.output.written;
    }
    if reply.Chunk? && reply.data != [] {
      assert reply.data == [reply.data[0]];
      assert t'.input.read == t.input.read + [reply.data[0]];
      SaysOneMore(t.output.written, t.input.read, reply.data[0]);
    } else {
      assert t'.input.read == t.input.read;
      assert t.output.written + [] + [] == t.output.written;
    }
  }

  lemma {:induction false} PollKeepsInv(t: Task, w: Waker)
    requires Inv(t)
    ensures Inv(Poll(t, w))
    decreases t.Measure()
  {
    if !t.done {
      IterateKeepsInv(t, w);
      if Iterate(t, w).1.Again? {
        PollKeepsInv(Iterate(t, w).0, w);
      }
    }
  }

  lemma FeedKeepsInv(t: Task, u: Waker, c: Call<nat>)
    requires Inv(t)
    ensures Inv(Step(t, Feed(u, c)))
  {
    R.StepKeepsInv(t.input, R.Make(u, c));
  }

  lemma TakeKeepsInv(t: Task, u: Waker, c: Call<string>)
    requires Inv(t)
    ensures Inv(Step(t, Take(u, c)))
  {
    R.StepKeepsInv(t.output, R.Make(u, c));
  }

  lemma StepKeepsInv(t: Task, e: Event)
    requires Inv(t)
    ensures Inv(Step(t, e))
  {
    match e
    case PollTask(w) => PollKeepsInv(t, w);
    case Feed(u, c) => FeedKeepsInv(t, u, c);
    case Take(u, c) => TakeKeepsInv(t, u, c);
  }

  // ------------------------------------------------------------------------
  // The results
  // ------------------------------------------------------------------------

  /**
   In every interleaving: the words accepted by the output, followed by the held ones, are the words
   for the numbers read so far, in order; and these are the numbers accepted so far, but for the one
   that may be in the input's slot.
   */
  lemma FizzBuzzUnderBackpressure(es: seq<Event>)
    ensures var t := Run(es);
            && t.output.written + Held(t.send1) + Held(t.send2) == Expand(t.input.read)
            && t.input.written == t.input.read + t.input.x.slot
            && t.output.written == t.output.read + t.output.x.slot + t.output.lost
            && (t.output.lost != [] ==> t.output.x.phase.DROPPED?)
  {
    assert Run(es).input.read + Run(es).input.x.slot + [] == Run(es).input.read + Run(es).input.x.slot;
  }

  /** The neighbours do not use the task's waker. */
  predicate Foreign(t: Task, w: Waker) {
    t.input.x.writer != Some(w) && t.output.x.reader != Some(w)
  }

  /** A call that has to wait is recorded with its waker, which the other side `r` does not have. */
  lemma CallRegisters<T>(h: R.History<T>, w: Waker, c: Call<T>, r: Role)
    requires RoleOf(c) != r && !c.DropRead? && h.x.Valid() && StoredWaker(h.x, r) != Some(w)
    ensures var h' := R.Step(h, R.Make(w, c));
            && StoredWaker(h'.x, r) != Some(w)
            && (Do(h.x, w, c).reply.Pending? ==> RoleOf(c) in h'.waits && h'.waits[RoleOf(c)].w == w)
  {
  }

  lemma IterateRegisters(t: Task, w: Waker)
    requires Inv(t) && Foreign(t, w)
    ensures var (t', v) := Iterate(t, w);
            && Foreign(t', w)
            && (v.Wait? ==> Sleeping(t', w))
  {
    if t.send1.Some? || t.send2.Some? {
      CallRegisters(t.output, w, Write([if t.send1.Some? then t.send1.value else t.send2.value]), Reader);
    } else {
      CallRegisters(t.input, w, Read(1), Writer);
      assert t.input.x.Valid();
    }
  }

  /** A poll that does not end the task leaves it waiting for a call that will wake it. */
  lemma {:induction false} PollRegisters(t: Task, w: Waker)
    requires Inv(t) && Foreign(t, w) && !Poll(t, w).done
    ensures Sleeping(Poll(t, w), w)
    decreases t.Measure()
  {
    IterateKeepsInv(t, w);
    IterateRegisters(t, w);
    var (t', v) := Iterate(t, w);
    if v.Again? {
      PollRegisters(t', w);
    }
  }

  /** Waker `w` belongs to a call of the task that returned `Pending`, and was not fired since. */
  predicate Sleeping(t: Task, w: Waker) {
    || (Reader in t.input.waits && t.input.waits[Reader].w == w)
    || (Writer in t.output.waits && t.output.waits[Writer].w == w)
  }

  /** The output's slot is full, and its reader will wake `w`. */
  ghost predicate OutputBlocks(t: Task, w: Waker) {
    t.output.x.slot != [] && t.output.x.writer == Some(w)
  }

  /** All the numbers accepted so far have been read, all their words accepted, and the next number will wake `w`. */
  ghost predicate AllIsSaid(t: Task, w: Waker) {
    t.output.written == Expand(t.input.written) && t.input.x.reader == Some(w)
  }

  lemma SleepsForGoodReason(t: Task)
    requires Inv(t)
    ensures Writer in t.output.waits ==> OutputBlocks(t, t.output.waits[Writer].w)
    ensures Reader in t.input.waits ==> AllIsSaid(t, t.input.waits[Reader].w)
  {
    if Reader in t.input.waits {
      assert t.input.x.slot == [];
      assert t.input.read + [] + [] == t.input.read;
      assert t.output.written + [] + [] == t.output.written;
    }
  }

  /**
   Backpressure cannot stall the task.  If a call of its that returned `Pending` has not woken it
   since, then it is parked on that call, and: either the output's slot is full, so that it is the next
   task's turn; or all the numbers accepted so far have been read, and all their words accepted.
   */
  lemma SleepsOnlyForGoodReason(es: seq<Event>)
    ensures var t := Run(es);
            && (Writer in t.output.waits ==> OutputBlocks(t, t.output.waits[Writer].w))
            && (Reader in t.input.waits ==> AllIsSaid(t, t.input.waits[Reader].w))
  {
    SleepsForGoodReason(Run(es));
  }

  // ------------------------------------------------------------------------
  // The wakers that it fires
  // ------------------------------------------------------------------------

  /** The wakers that one call of the closure fires. */
  function FiredByCall(t: Task, w: Waker): seq<Waker> {
    if t.send1.Some? then Do(t.output.x, w, Write([t.send1.value])).woken
    else if t.send2.Some? then Do(t.output.x, w, Write([t.send2.value])).woken
    else Do(t.input.x, w, Read(1)).woken
  }

  /** The wakers that a poll fires, in order. */
  function FiredByPoll(t: Task, w: Waker): seq<Waker>
    decreases t.Measure()
  {
    if t.done then []
    else
      var (t', v) := Iterate(t, w);
      FiredByCall(t, w) + if v.Again? then FiredByPoll(t', w) else []
  }

  /** The wakers that a call of a neighbour fires. */
  function FiredByNeighbour(t: Task, e: Event): seq<Waker> {
    match e
    case PollTask(_) => []
    case Feed(u, c) => if RoleOf(c).Writer? then Do(t.input.x, u, c).woken else []
    case Take(u, c) => if RoleOf(c).Reader? then Do(t.output.x, u, c).woken else []
  }

  /** A call that a neighbour waits for, and that still waits in `t'` unless its waker is among `fired`. */
  ghost predicate StaysOrIsWoken<T>(h: R.History<T>, h': R.History<T>, r: Role, fired: seq<Waker>) {
    r in h.waits ==> (r in h'.waits && h'.waits[r] == h.waits[r]) || h.waits[r].w in fired
  }

  /** Both neighbours. */
  ghost predicate NeighboursStayOrAreWoken(t: Task, t': Task, fired: seq<Waker>) {
    && StaysOrIsWoken(t.input, t'.input, Writer, fired)
    && StaysOrIsWoken(t.output, t'.output, Reader, fired)
  }

  /** The other side of role `r` stays or is woken, and no waker but its own and the caller's is fired. */
  lemma CallWakesOther<T>(h: R.History<T>, w: Waker, c: Call<T>, r: Role)
    requires RoleOf(c) != r && !c.DropRead?
    ensures var h', fired := R.Step(h, R.Make(w, c)), Do(h.x, w, c).woken;
            && StaysOrIsWoken(h, h', r, fired)
            && (forall u :: u in fired ==> u == w || Some(u) == StoredWaker(h.x, r))
            && (StoredWaker(h'.x, r) == StoredWaker(h.x, r) || StoredWaker(h'.x, r) == None)
  {
  }

  lemma IterateWakesNeighbours(t: Task, w: Waker)
    ensures NeighboursStayOrAreWoken(t, Iterate(t, w).0, FiredByCall(t, w))
    ensures forall u :: u in FiredByCall(t, w) ==> u == w || Some(u) == t.input.x.writer || Some(u) == t.output.x.reader
    ensures var t' := Iterate(t, w).0;
            && (t'.input.x.writer == t.input.x.writer || t'.input.x.writer == None)
            && (t'.output.x.reader == t.output.x.reader || t'.output.x.reader == None)
  {
    if t.send1.Some? || t.send2.Some? {
      CallWakesOther(t.output, w, Write([if t.send1.Some? then t.send1.value else t.send2.value]), Reader);
    } else {
      CallWakesOther(t.input, w, Read(1), Writer);
    }
  }

  /**
   A poll of the task leaves each neighbour waiting as before, or fires its waker; and it fires no waker
   but its own and those that the neighbours have stored.
   */
  lemma {:induction false} PollWakesNeighbours(t: Task, w: Waker)
    ensures NeighboursStayOrAreWoken(t, Poll(t, w), FiredByPoll(t, w))
    ensures forall u :: u in FiredByPoll(t, w) ==> u == w || Some(u) == t.input.x.writer || Some(u) == t.output.x.reader
    decreases t.Measure()
  {
    if !t.done {
      IterateWakesNeighbours(t, w);
      if Iterate(t, w).1.Again? {
        PollWakesNeighbours(Iterate(t, w).0, w);
      }
    }
  }

  lemma {:induction false} PollStaysForeign(t: Task, w: Waker)
    requires Inv(t) && Foreign(t, w)
    ensures Foreign(Poll(t, w), w)
    decreases t.Measure()
  {
    if !t.done {
      IterateKeepsInv(t, w);
      IterateRegisters(t, w);
      if Iterate(t, w).1.Again? {
        PollStaysForeign(Iterate(t, w).0, w);
      }
    }
  }

  /** A neighbour's call leaves the task asleep, or wakes it. */
  lemma NeighbourWakes(t: Task, e: Event, w: Waker)
    requires Inv(t) && Foreign(t, w)
    requires (e.Feed? || e.Take?) && e.u != w
    ensures Foreign(Step(t, e), w)
    ensures Sleeping(t, w) ==> Sleeping(Step(t, e), w) || w in FiredByNeighbour(t, e)
  {
  }

  // ------------------------------------------------------------------------
  // How it ends
  // ------------------------------------------------------------------------

  /** Nobody drops the input or closes the output. */
  predicate Open(t: Task) {
    && !t.input.x.phase.DROPPED?
    && !t.output.x.phase.DONE? && !t.output.x.phase.FULL_CLOSED?
  }

  predicate Ended(t: Task) {
    t.output.x.phase.DROPPED? || (t.input.x.phase.DONE? && t.send1.None? && t.send2.None?)
  }

  lemma IterateEnds(t: Task, w: Waker)
    requires Open(t)
    ensures var (t', v) := Iterate(t, w); Open(t') && (v.End? ==> Ended(t'))
  {
  }

  lemma {:induction false} PollEnds(t: Task, w: Waker)
    requires Open(t) && (t.done ==> Ended(t))
    ensures Open(Poll(t, w)) && (Poll(t, w).done ==> Ended(Poll(t, w)))
    decreases t.Measure()
  {
    if !t.done {
      IterateEnds(t, w);
      if Iterate(t, w).1.Again? {
        PollEnds(Iterate(t, w).0, w);
      }
    }
  }

  lemma StepEnds(t: Task, e: Event)
    requires Open(t) && (t.done ==> Ended(t))
    ensures Open(Step(t, e)) && (Step(t, e).done ==> Ended(Step(t, e)))
  {
    match e
    case PollTask(w) => PollEnds(t, w);
    case Feed(_, _) =>
    case Take(_, _) =>
  }

  lemma {:induction false} RunEnds(es: seq<Event>)
    ensures Open(Run(es)) && (Run(es).done ==> Ended(Run(es)))
    decreases |es|
  {
    if es != [] {
      RunEnds(es[..|es| - 1]);
      StepEnds(Run(es[..|es| - 1]), es[|es| - 1]);
    }
  }

  lemma EndedMeansSaid(t: Task)
    requires Inv(t) && Ended(t) && !t.output.x.phase.DROPPED?
    ensures t.input.x.phase.DONE? && t.output.written == Expand(t.input.written)
  {
    assert t.input.x.slot == [];
    assert t.input.read + [] + [] == t.input.read;
    assert t.output.written + [] + [] == t.output.written;
  }

  /**
   The task ends only if its reader is gone, or the input was closed and the words for all of the
   numbers have been accepted.
   */
  lemma EndsWhenAllIsSaid(es: seq<Event>)
    ensures var t := Run(es);
            t.done ==> t.output.x.phase.DROPPED?
                       || (t.input.x.phase.DONE? && t.output.written == Expand(t.input.written))
  {
    var t := Run(es);
    RunEnds(es);
    if t.done && !t.output.x.phase.DROPPED? {
      EndedMeansSaid(t);
    }
  }
}
