/**
 What every run of an exchange keeps.  A run is an arbitrary sequence of calls by one reader and one
 writer, and of resets; all results follow from the calls.
 */
module ExchangeRuns {
  import opened Basics
  import opened ExchangeSpec

  datatype Event<T> = Make(w: Waker, call: Call<T>) | Reset

  /**
   The exchange together with its history since the last reset: what was accepted from the writer,
   delivered to the reader and discarded by `drop_read`, and for each role the last call if it
   returned `Pending` and its waker has not been fired since.
   */
  datatype History<T> = History(
    x: Exch<T>,
    written: seq<T>,
    read: seq<T>,
    lost: seq<T>,
    waits: map<Role, Wait<T>>)

  function Start<T>(kind: Kind): History<T> {
    History(Fresh(kind), [], [], [], map[])
  }

  /** The waits left after the wakers `woken` were fired. */
  function Unwoken<T>(waits: map<Role, Wait<T>>, woken: seq<Waker>): map<Role, Wait<T>> {
    map r | r in waits && waits[r].w !in woken :: waits[r]
  }

  function Step<T>(h: History<T>, e: Event<T>): History<T> {
    match e
    case Reset => History(ResetStep(h.x).next, [], [], [], Unwoken(h.waits, ResetStep(h.x).woken))
    case Make(w, c) =>
      var o := Do(h.x, w, c);
      var role := RoleOf(c);
      History(
        o.next,
        if c.Write? && o.reply.Accepted? then h.written + c.data else h.written,
        if o.reply.Chunk? then h.read + o.reply.data else h.read,
        if c.DropRead? then h.lost + h.x.slot else h.lost,
        Unwoken(if o.reply.Pending? then h.waits[role := Wait(w, c)] else h.waits - {role}, o.woken))
  }

  function Run<T>(kind: Kind, es: seq<Event<T>>): History<T> {
    if es == [] then Start(kind) else Step(Run(kind, es[..|es| - 1]), es[|es| - 1])
  }

  // ------------------------------------------------------------------------
  // Conservation, slot occupancy, and no lost wake
  // ------------------------------------------------------------------------

  ghost predicate Inv<T>(h: History<T>) {
    && h.x.Valid()
    && h.written == h.read + h.x.slot + h.lost
    && (h.lost != [] ==> h.x.phase.DROPPED?)
    && (forall r :: r in h.waits ==>
                      && RoleOf(h.waits[r].call) == r
                      && Parked(h.x, h.waits[r].w, h.waits[r].call))
  }

  lemma StepKeepsInv<T>(h: History<T>, e: Event<T>)
    requires Inv(h)
    ensures Inv(Step(h, e))
  {
    var h' := Step(h, e);
    if e.Make? {
      var o := Do(h.x, e.w, e.call);
      PendingParks(h.x, e.w, e.call);
      StepConserves(h, e);
      forall r | r in h'.waits
        ensures RoleOf(h'.waits[r].call) == r && Parked(h'.x, h'.waits[r].w, h'.waits[r].call)
      {
        if r != RoleOf(e.call) {
          OtherSideKeepsOrWakes(h.x, e.w, e.call, h.waits[r].w, h.waits[r].call);
        }
      }
    }
  }

  lemma StepConserves<T>(h: History<T>, e: Event<T>)
    requires Inv(h) && e.Make?
    ensures var h' := Step(h, e);
            && h'.written == h'.read + h'.x.slot + h'.lost
            && (h'.lost != [] ==> h'.x.phase.DROPPED?)
  {
  }

  lemma {:induction false} RunKeepsInv<T>(kind: Kind, es: seq<Event<T>>)
    ensures Inv(Run(kind, es)) && Run(kind, es).x.kind == kind
    decreases |es|
  {
    if es != [] {
      RunKeepsInv(kind, es[..|es| - 1]);
      StepKeepsInv(Run(kind, es[..|es| - 1]), es[|es| - 1]);
    }
  }

  ghost predicate NoDrop<T>(es: seq<Event<T>>) {
    forall i :: 0 <= i < |es| ==> !(es[i].Make? && es[i].call.DropRead?)
  }

  lemma {:induction false} NoDropNoLoss<T>(kind: Kind, es: seq<Event<T>>)
    requires NoDrop(es)
    ensures !Run(kind, es).x.phase.DROPPED? && Run(kind, es).lost == []
    decreases |es|
  {
    if es != [] {
      assert NoDrop(es[..|es| - 1]);
      NoDropNoLoss(kind, es[..|es| - 1]);
    }
  }

  /** Everything accepted is delivered in order, apart from what is still in the slot. */
  lemma Conservation<T>(kind: Kind, es: seq<Event<T>>)
    requires NoDrop(es)
    ensures var h := Run(kind, es); h.written == h.read + h.x.slot
  {
    RunKeepsInv(kind, es);
    NoDropNoLoss(kind, es);
  }

  /** With `drop_read` allowed, the reader still receives a prefix of what was accepted. */
  lemma DeliveredIsPrefix<T>(kind: Kind, es: seq<Event<T>>)
    ensures var h := Run(kind, es);
            && h.read <= h.written
            && (!h.x.phase.DROPPED? ==> h.written == h.read + h.x.slot)
  {
    RunKeepsInv(kind, es);
  }

  /** The defensive branch "state is FULL but the slot is empty" is never reached. */
  lemma {:induction false} SlotMatchesPhase<T>(kind: Kind, es: seq<Event<T>>)
    ensures var x := Run(kind, es).x;
            x.slot != [] <==> x.phase in {FULL, FULL_FLUSH, FULL_CLOSED}
  {
    RunKeepsInv(kind, es);
  }

  /**
   A reader whose last call returned `Pending` and who has not been woken is parked in EMPTY_FLUSHED
   with its waker stored; a writer likewise has its waker stored, and its call would still block.
   */
  lemma NoLostWake<T>(kind: Kind, es: seq<Event<T>>, r: Role)
    requires r in Run(kind, es).waits
    ensures var h := Run(kind, es);
            var wait := h.waits[r];
            && RoleOf(wait.call) == r
            && (r.Reader? ==> h.x.phase.EMPTY_FLUSHED? && h.x.reader == Some(wait.w))
            && (r.Writer? ==> h.x.writer == Some(wait.w))
            && (forall w: Waker :: Do(h.x, w, wait.call).reply.Pending?)
  {
    RunKeepsInv(kind, es);
    var h := Run(kind, es);
    forall w: Waker ensures Do(h.x, w, h.waits[r].call).reply.Pending? {
      PendingParks(h.x, w, h.waits[r].call);
    }
  }

  // ------------------------------------------------------------------------
  // Flush and close handshakes
  // ------------------------------------------------------------------------

  /** Event `j` is a read that found the slot empty. */
  ghost predicate ObservedEmpty<T>(kind: Kind, es: seq<Event<T>>, j: nat) {
    && j < |es| && es[j].Make? && es[j].call.Read?
    && Do(Run(kind, es[..j]).x, es[j].w, es[j].call).reply.Pending?
  }

  /** Event `i` placed data in the slot, or reset the exchange. */
  ghost predicate Disturbs<T>(kind: Kind, es: seq<Event<T>>, i: nat)
    requires i < |es|
  {
    match es[i]
    case Reset => true
    case Make(w, c) =>
      c.Write? && c.data != [] && Do(Run(kind, es[..i]).x, w, c).reply.Accepted?
  }

  /** A read observed the empty slot, and nothing was accepted (or reset) since. */
  ghost predicate Acknowledged<T>(kind: Kind, es: seq<Event<T>>, j: nat) {
    && ObservedEmpty(kind, es, j)
    && forall i: nat :: j <= i < |es| ==> !Disturbs(kind, es, i)
  }

  lemma AcknowledgedBefore<T>(kind: Kind, es: seq<Event<T>>, e: Event<T>, j: nat)
    requires j < |es|
    ensures Acknowledged(kind, es + [e], j) <==>
            Acknowledged(kind, es, j) && !Disturbs(kind, es + [e], |es|)
  {
    var longer := es + [e];
    assert longer[..j] == es[..j];
    forall i: nat | j <= i < |es| ensures Disturbs(kind, longer, i) <==> Disturbs(kind, es, i) {
      assert longer[..i] == es[..i];
    }
    if Acknowledged(kind, es, j) && !Disturbs(kind, longer, |es|) {
      forall i: nat | j <= i < |longer| ensures !Disturbs(kind, longer, i) {
        if i < |es| {
          assert !Disturbs(kind, es, i);
        }
      }
    }
    if Acknowledged(kind, longer, j) {
      forall i: nat | j <= i < |es| ensures !Disturbs(kind, es, i) {
        assert !Disturbs(kind, longer, i);
      }
      assert !Disturbs(kind, longer, |es|);
    }
  }

  /** The phase EMPTY_FLUSHED records an acknowledgement. */
  lemma {:induction false} FlushedMeansAcknowledged<T>(kind: Kind, es: seq<Event<T>>)
    ensures !Run(kind, es).x.Terminal() ==>
              (Run(kind, es).x.phase.EMPTY_FLUSHED? <==> exists j: nat :: Acknowledged(kind, es, j))
    decreases |es|
  {
    if es != [] {
      var front, e := es[..|es| - 1], es[|es| - 1];
      assert es == front + [e];
      FlushedMeansAcknowledged(kind, front);
      RunKeepsInv(kind, front);
      var h := Run(kind, front);
      forall j: nat | j < |front|
        ensures Acknowledged(kind, es, j) <==> Acknowledged(kind, front, j) && !Disturbs(kind, es, |front|)
      {
        AcknowledgedBefore(kind, front, e, j);
      }
      assert es[..|front|] == front;
      if e.Make? {
        PendingParks(h.x, e.w, e.call);
        if ObservedEmpty(kind, es, |front|) {
          assert Acknowledged(kind, es, |front|);
        }
      } else {
        assert Disturbs(kind, es, |front|);
      }
    }
  }

  /**
   While the stream is open, a flush completes exactly when some read has observed the empty slot
   after everything sent so far; then everything sent has been read.
   */
  lemma FlushHandshake<T>(kind: Kind, es: seq<Event<T>>, w: Waker)
    requires !Run(kind, es).x.Terminal()
    ensures var h := Run(kind, es);
            && (Do(h.x, w, Flush).reply.Ok? <==> exists j: nat :: Acknowledged(kind, es, j))
            && (Do(h.x, w, Flush).reply.Ok? ==> h.read == h.written)
  {
    FlushedMeansAcknowledged(kind, es);
    RunKeepsInv(kind, es);
  }

  /** A close that completes without `drop_read` has delivered everything, and ends the stream. */
  lemma CloseDelivers<T>(kind: Kind, es: seq<Event<T>>, w: Waker)
    requires NoDrop(es)
    ensures var h := Run(kind, es);
            var o := Do(h.x, w, Close);
            && (o.reply.Ok? <==> h.x.slot == [])
            && (o.reply.Ok? ==> h.read == h.written && o.next.phase.DONE?)
            && (!o.reply.Ok? ==> o.next.phase.FULL_CLOSED?)
  {
    RunKeepsInv(kind, es);
    NoDropNoLoss(kind, es);
  }

  /** The reader sees end-of-stream without having dropped only after it received everything. */
  lemma EndOfStreamIsComplete<T>(kind: Kind, es: seq<Event<T>>, w: Waker, maxLen: nat)
    requires NoDrop(es)
    requires Do(Run(kind, es).x, w, Read(maxLen)).reply.EndOfStream?
    ensures Run(kind, es).x.phase.DONE? && Run(kind, es).read == Run(kind, es).written
  {
    RunKeepsInv(kind, es);
    NoDropNoLoss(kind, es);
  }

  /** The end has begun: no more data is accepted, and the phase can only move on to the end. */
  ghost predicate EndedSince<T>(h: History<T>, h': History<T>) {
    && h'.written == h.written
    && (h.x.Terminal() ==> h'.x.phase == h.x.phase)
    && (h.x.phase.FULL_CLOSED? ==> h'.x.phase in {FULL_CLOSED, DONE, DROPPED})
  }

  lemma EndingStep<T>(h: History<T>, e: Event<T>)
    requires Inv(h) && e.Make?
    requires h.x.Terminal() || h.x.phase.FULL_CLOSED?
    ensures EndedSince(h, Step(h, e))
  {
  }

  /** FULL_CLOSED can only be left for DONE or DROPPED, and only `reset` leaves those two. */
  lemma {:induction false} EndingsAreFinal<T>(h: History<T>, es: seq<Event<T>>)
    requires Inv(h) && (h.x.Terminal() || h.x.phase.FULL_CLOSED?)
    requires forall i :: 0 <= i < |es| ==> es[i].Make?
    ensures EndedSince(h, Continue(h, es))
    decreases |es|
  {
    if es != [] {
      StepKeepsInv(h, es[0]);
      EndingStep(h, es[0]);
      EndingsAreFinal(Step(h, es[0]), es[1..]);
    }
  }

  function Continue<T>(h: History<T>, es: seq<Event<T>>): History<T>
    decreases |es|
  {
    if es == [] then h else Continue(Step(h, es[0]), es[1..])
  }

  // ------------------------------------------------------------------------
  // After drop_read, and after a reset
  // ------------------------------------------------------------------------

  /** What every call is told once the reader is gone. */
  ghost predicate Abandoned<T>(x: Exch<T>, w: Waker, c: Call<T>) {
    var reply := Do(x, w, c).reply;
    match c
    case Read(_) => reply == if x.kind.ByteStream? then EndOfStream else Failed(InvalidState)
    case Write(data) => reply == if data == [] then Accepted(0) else Failed(BrokenPipe)
    case CheckReady => reply == Failed(BrokenPipe)
    case DropRead | Flush | Close => reply == Ok
  }

  lemma {:induction false} StaysAbandoned<T>(h: History<T>, es: seq<Event<T>>)
    requires h.x.phase.DROPPED? && h.x.slot == []
    requires forall i :: 0 <= i < |es| ==> es[i].Make?
    ensures Continue(h, es).x.phase.DROPPED? && Continue(h, es).x.slot == []
    ensures Continue(h, es).x.kind == h.x.kind && Continue(h, es).written == h.written
    decreases |es|
  {
    if es != [] {
      StaysAbandoned(Step(h, es[0]), es[1..]);
    }
  }

  lemma DroppedIsAbandoned<T>(x: Exch<T>, w: Waker, c: Call<T>)
    requires x.phase.DROPPED?
    ensures Abandoned(x, w, c)
  {
  }

  lemma DropLeaves<T>(h: History<T>, w: Waker)
    requires Inv(h) && !h.x.phase.DONE?
    ensures var h1 := Step(h, Make(w, DropRead));
            && h1.x.phase.DROPPED? && h1.x.slot == [] && h1.written == h.written
            && (Writer in h.waits ==> h.waits[Writer].w in Do(h.x, w, DropRead).woken)
            && Writer !in h1.waits
  {
    if Writer in h.waits {
      assert Parked(h.x, h.waits[Writer].w, h.waits[Writer].call);
    }
  }

  /**
   `drop_read`, unless everything was over already, ends the stream for good: whatever calls follow, the
   slot stays empty, nothing more is accepted, and every call is told so.  A writer that was waiting is
   woken.
   */
  lemma DropEndsTheStream<T>(kind: Kind, es: seq<Event<T>>, w: Waker, since: seq<Event<T>>, u: Waker, c: Call<T>)
    requires !Run(kind, es).x.phase.DONE?
    requires forall i :: 0 <= i < |since| ==> since[i].Make?
    ensures var h := Run(kind, es);
            var h1 := Step(h, Make(w, DropRead));
            var h2 := Continue(h1, since);
            && h2.x.slot == [] && h2.written == h.written && Abandoned(h2.x, u, c)
            && (Writer in h.waits ==> h.waits[Writer].w in Do(h.x, w, DropRead).woken)
            && Writer !in h1.waits
  {
    RunKeepsInv(kind, es);
    var h := Run(kind, es);
    DropLeaves(h, w);
    StaysAbandoned(Step(h, Make(w, DropRead)), since);
    DroppedIsAbandoned(Continue(Step(h, Make(w, DropRead)), since).x, u, c);
  }

  /**
   After a reset, of whatever exchange: data is accepted, a read and a flush have to wait, and no waker
   is left behind.
   */
  lemma ResetStartsAnew<T>(h: History<T>, w: Waker, data: seq<T>, maxLen: nat)
    requires data != []
    ensures var h' := Step(h, Reset);
            var x := h'.x;
            && Do(x, w, Write(data)).reply == Accepted(|data|)
            && Do(x, w, CheckReady).reply == Ok
            && Do(x, w, Read(maxLen)).reply == Pending && Do(x, w, Flush).reply == Pending
            && Do(x, w, Close).reply == Ok
            && x.reader == None && x.writer == None && x.slot == []
            && h'.written == [] && h'.read == [] && h'.lost == []
            && (forall r :: r in h.waits && StoredWaker(h.x, r) == Some(h.waits[r].w) ==> r !in h'.waits)
  {
    forall r | r in h.waits && StoredWaker(h.x, r) == Some(h.waits[r].w) ensures r !in Step(h, Reset).waits {
      assert h.waits[r].w in ResetStep(h.x).woken;
    }
  }

  /** The count of an accepted write is the number of elements that the reader gets, or will get, from it. */
  lemma WriteCounts<T>(kind: Kind, es: seq<Event<T>>, w: Waker, data: seq<T>)
    ensures var h := Run(kind, es);
            var h' := Step(h, Make(w, Write(data)));
            var reply := Do(h.x, w, Write(data)).reply;
            && (reply.Accepted? ==> reply.count == |h'.read + h'.x.slot| - |h.read + h.x.slot|)
            && (!reply.Accepted? ==> h'.read + h'.x.slot == h.read + h.x.slot)
  {
    RunKeepsInv(kind, es);
  }

  // ------------------------------------------------------------------------
  // The polling contracts
  // ------------------------------------------------------------------------

  /**
   A read consumes 1..`maxLen` elements, and then wakes the writer and pre-wakes its caller; or it
   consumes nothing, changes nothing but the flush acknowledgement, and does not pre-wake: it wakes the
   writer exactly if it acknowledges.
   */
  lemma ConsumerContract<T>(x: Exch<T>, w: Waker, maxLen: nat)
    requires x.Valid()
    ensures var o := ReadStep(x, w, maxLen);
            && o.woken == (if o.reply.Chunk? && o.reply.data != [] then Fires(x.writer) + [w]
                           else if x.phase.EMPTY? || x.phase.EMPTY_FLUSH? then Fires(x.writer)
                           else [])
            && (o.reply.Chunk? ==> |o.reply.data| <= maxLen && o.reply.data + o.next.slot == x.slot)
            && (o.reply.Chunk? && maxLen > 0 ==> o.reply.data != [])
            && (!o.reply.Chunk? ==> o.next.slot == x.slot)
            && ((maxLen == 0 && o.reply.Chunk?) || o.reply.EndOfStream? || o.reply.Failed? ==>
                  o.next == x && o.woken == [])
  {
    if 0 < maxLen < |x.slot| {
      assert x.slot == x.slot[..maxLen] + x.slot[maxLen..];
    }
  }
}
