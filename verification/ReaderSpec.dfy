/**
 The buffered reader on values: `ReaderIoReader`, which adapts a byte source that fills buffers to a
 reader that hands out chunks.

 In every run it delivers exactly the bytes of the source, in order, and reports the end of the stream
 or the source's error after the last of them.
 */
module ReaderSpec {
  import opened Basics

  datatype Error = OutOfMemory | Failure(code: nat)

  /** How the source ends. */
  datatype Ending = Eof | Broken(error: Error)

  /** The source: the bytes that it has not handed out yet. */
  datatype Source = Source(rest: seq<byte>, ending: Ending)

  /**
   What the environment does in one call: the capacity of the (empty) buffer that the provider has, if
   any; whether the source is ready; and how many bytes it would like to hand out.
   */
  datatype Mood = Mood(provided: Option<nat>, ready: bool, chunk: nat)

  datatype Got = NotYet | Bytes(bytes: seq<byte>) | Failed(error: Error)

  function Least(a: nat, b: nat): nat {
    if a <= b then a else b
  }

  /**
   The source, asked to fill `space` bytes: it hands out at least one byte if it has any.  With no free
   space it could only answer with no bytes, which means the end of the stream.
   */
  function Ask(source: Source, space: nat, mood: Mood): (r: (Got, Source))
    requires space > 0
    ensures r.1.ending == source.ending
    ensures match r.0
            case NotYet => r.1 == source && !mood.ready
            case Bytes(bs) => bs + r.1.rest == source.rest && |bs| <= space
                              && (bs == [] <==> source == Source([], Eof))
            case Failed(e) => r.1 == source && source == Source([], Broken(e))
  {
    if !mood.ready then (NotYet, source)
    else if source.rest == [] then
      (if source.ending.Eof? then Bytes([]) else Failed(source.ending.error), source)
    else
      var n := Least(Least(if mood.chunk > 0 then mood.chunk else 1, space), |source.rest|);
      (Bytes(source.rest[..n]), Source(source.rest[n..], source.ending))
  }

  /**
   `data` and `cap` are the contents and the capacity of `cur_buf`; `gotEof` is the end that the source
   has reported and the reader has not.
   */
  datatype Reader = Reader(
    source: Option<Source>,
    data: seq<byte>,
    cap: nat,
    bufCapacity: nat,
    gotEof: Option<Ending>)

  datatype Reply = Pending | Chunk(bytes: seq<byte>) | EndOfStream | Err(error: Error)

  datatype Outcome = Outcome(next: Reader, reply: Reply, prewake: bool)

  const USIZE: nat := 0x1_0000_0000_0000_0000

  /** The current buffer has room, and it is time to read more into it. */
  predicate Augments(r: Reader, maxLen: nat)
    requires |r.data| <= r.cap
  {
    var half := r.bufCapacity / 2;
    || r.data == []
    || (r.cap > half && r.cap <= (half + maxLen) % USIZE)
  }

  /** One read into the free space of the current buffer. */
  function Fill(r: Reader, mood: Mood): Reader
    requires r.source.Some? && |r.data| < r.cap
  {
    var (got, source) := Ask(r.source.value, r.cap - |r.data|, mood);
    match got
    case NotYet => r
    case Bytes(bs) =>
      if bs == [] then r.(source := Some(source), gotEof := Some(Eof))
      else r.(source := Some(source), data := r.data + bs)
    case Failed(e) => r.(source := Some(source), gotEof := Some(Broken(e)))
  }

  /** What the call returns once no more is to be read. */
  function Deliver(r: Reader, maxLen: nat): Outcome
    requires |r.data| <= r.cap
  {
    if r.data == [] then
      match r.gotEof
      case None => Outcome(r, Pending, false)
      case Some(Eof) => Outcome(r.(source := None, gotEof := None), EndOfStream, false)
      case Some(Broken(e)) => Outcome(r.(source := None, gotEof := None), Err(e), true)
    else if maxLen == 0 then Outcome(r, Chunk([]), false)
    else
      var n := Least(maxLen, |r.data|);
      Outcome(r.(data := r.data[n..], cap := r.cap - n), Chunk(r.data[..n]), true)
  }

  function PollRead(r: Reader, maxLen: nat, mood: Mood): Outcome
    requires |r.data| <= r.cap
  {
    if r.source.None? then Outcome(r, EndOfStream, false)
    else if r.gotEof.Some? then Deliver(r, maxLen)
    else
      var space := r.cap - |r.data|;
      if space > 0 && space > r.bufCapacity / 4 then
        Deliver(if Augments(r, maxLen) then Fill(r, mood) else r, maxLen)
      else if r.data == [] then
        match mood.provided
        case None => Outcome(r, Pending, false)
        case Some(capacity) =>
          if capacity < 1 then Outcome(r, Err(OutOfMemory), false)
          else Deliver(Fill(r.(cap := capacity, bufCapacity := capacity), mood), maxLen)
      else Deliver(r, maxLen)
  }

  function DropRead(r: Reader): Reader {
    r.(source := None, gotEof := None)
  }

  function New(source: Source): Reader {
    Reader(Some(source), [], 0, 0, None)
  }

  // ------------------------------------------------------------------------
  // Runs
  // ------------------------------------------------------------------------

  datatype Call = Poll(maxLen: nat, mood: Mood) | Drop

  /** The reader, and the bytes that it has delivered. */
  datatype State = State(r: Reader, delivered: seq<byte>)

  function Answer(s: State, call: Call): Reply
    requires |s.r.data| <= s.r.cap
  {
    match call
    case Poll(maxLen, mood) => PollRead(s.r, maxLen, mood).reply
    case Drop => Pending
  }

  function Next(s: State, call: Call): State
    requires |s.r.data| <= s.r.cap
  {
    match call
    case Poll(maxLen, mood) =>
      var o := PollRead(s.r, maxLen, mood);
      State(o.next, s.delivered + if o.reply.Chunk? then o.reply.bytes else [])
    case Drop => s.(r := DropRead(s.r))
  }

  /**
   While the reader is open: the delivered, the buffered and the remaining bytes are the stream, and an
   end that is kept back is the one that the source has reached.
   */
  ghost predicate Inv(s: State, stream: Source) {
    && |s.r.data| <= s.r.cap
    && match s.r.source
       case None => s.delivered <= stream.rest
       case Some(source) =>
         && s.delivered + s.r.data + source.rest == stream.rest
         && source.ending == stream.ending
         && (s.r.gotEof.Some? ==> source.rest == [] && s.r.gotEof.value == stream.ending)
  }

  ghost function Run(stream: Source, calls: seq<Call>): (s: State)
    ensures Inv(s, stream)
    decreases |calls|
  {
    if calls == [] then State(New(stream), [])
    else
      var s, call := Run(stream, calls[..|calls| - 1]), calls[|calls| - 1];
      NextKeepsInv(s, stream, call);
      Next(s, call)
  }

  lemma DeliveredIsPrefix(s: State, stream: Source)
    requires Inv(s, stream)
    ensures s.delivered <= stream.rest
  {
  }

  lemma FillKeepsInv(s: State, stream: Source, mood: Mood)
    requires Inv(s, stream) && s.r.source.Some? && s.r.gotEof.None? && |s.r.data| < s.r.cap
    ensures var r := Fill(s.r, mood);
            && Inv(s.(r := r), stream) && r.source.Some?
            && (r.data == [] && r.gotEof.None? ==> !mood.ready)
  {
  }

  /** What `Deliver` returns, in terms of the stream. */
  ghost predicate Faithful(s: State, stream: Source, maxLen: nat, o: Outcome) {
    && Inv(State(o.next, s.delivered + if o.reply.Chunk? then o.reply.bytes else []), stream)
    && (o.prewake <==> (o.reply.Chunk? && o.reply.bytes != []) || (o.reply.Err? && o.next.source.None?))
    && match o.reply
       case Pending => o.next.source.Some? && o.next.data == [] && o.next.gotEof.None?
       case Chunk(bs) =>
         && o.next.source.Some? && (bs == [] <==> maxLen == 0)
         && |bs| <= maxLen && (|bs| < maxLen ==> o.next.data == [])
       case EndOfStream =>
         o.next.source.None? && (s.r.source.Some? ==> s.delivered == stream.rest && stream.ending == Eof)
       case Err(e) =>
         if o.next.source.Some? then e == OutOfMemory
         else s.r.source.Some? && s.delivered == stream.rest && stream.ending == Broken(e)
  }

  lemma DeliverIsFaithful(s: State, stream: Source, maxLen: nat)
    requires Inv(s, stream) && s.r.source.Some?
    ensures Faithful(s, stream, maxLen, Deliver(s.r, maxLen))
  {
  }

  /** Nothing is buffered, and no more than a quarter of the buffer is left. */
  predicate NeedsBuffer(r: Reader)
    requires |r.data| <= r.cap
  {
    r.data == [] && 4 * r.cap <= r.bufCapacity
  }

  /**
   Every call is faithful to the stream.  A chunk has the length asked for, unless it empties the buffer.  The
   call is pending exactly if it has nothing to return and the
   provider, or the source, was asked and not ready; and it reports a lack of memory exactly if it
   needed a buffer and got one without capacity.
   */
  lemma PollIsFaithful(s: State, stream: Source, maxLen: nat, mood: Mood)
    requires Inv(s, stream)
    ensures var o := PollRead(s.r, maxLen, mood);
            var asks := s.r.source.Some? && s.r.gotEof.None? && s.r.data == [];
            && Faithful(s, stream, maxLen, o)
            && (o.reply == Pending <==>
                  asks && if NeedsBuffer(s.r) && !(mood.provided.Some? && mood.provided.value >= 1)
                          then mood.provided.None? else !mood.ready)
            && (o.reply.Err? && o.next.source.Some? <==> asks && NeedsBuffer(s.r) && mood.provided == Some(0))
  {
    var r := s.r;
    var space := r.cap - |r.data|;
    if r.source.None? {
      assert s.delivered + [] == s.delivered;
    } else if r.gotEof.Some? {
      DeliverIsFaithful(s, stream, maxLen);
    } else if space > 0 && space > r.bufCapacity / 4 {
      if Augments(r, maxLen) {
        FillKeepsInv(s, stream, mood);
        DeliverIsFaithful(s.(r := Fill(r, mood)), stream, maxLen);
      } else {
        DeliverIsFaithful(s, stream, maxLen);
      }
    } else if r.data == [] && mood.provided.Some? && mood.provided.value >= 1 {
      var r' := r.(cap := mood.provided.value, bufCapacity := mood.provided.value);
      FillKeepsInv(s.(r := r'), stream, mood);
      DeliverIsFaithful(s.(r := Fill(r', mood)), stream, maxLen);
    } else if r.data == [] {
      assert s.delivered + [] == s.delivered;
    } else {
      DeliverIsFaithful(s, stream, maxLen);
    }
  }

  /** The call reads from the source: some of its bytes, or the end. */
  predicate Reads(r: Reader, o: Outcome) {
    o.next.source != r.source || o.next.gotEof != r.gotEof
  }

  /** More than a quarter of the buffer is free, and the middle of the buffer is among its next `maxLen` bytes. */
  predicate Augmentable(r: Reader, maxLen: nat)
    requires |r.data| <= r.cap
  {
    var half := r.bufCapacity / 2;
    && 4 * (r.cap - |r.data|) > r.bufCapacity
    && r.cap > half && if half + maxLen < USIZE then r.cap - maxLen <= half else r.cap - maxLen <= half - USIZE
  }

  lemma AugmentsIfAugmentable(r: Reader, maxLen: nat)
    requires |r.data| <= r.cap && r.data != [] && maxLen < USIZE && r.bufCapacity < USIZE
    ensures var space := r.cap - |r.data|;
            Augmentable(r, maxLen) <==> space > 0 && space > r.bufCapacity / 4 && Augments(r, maxLen)
  {
    var half := r.bufCapacity / 2;
    assert (half + maxLen) % USIZE == if half + maxLen < USIZE then half + maxLen else half + maxLen - USIZE;
  }

  /** What one read takes from the source: nothing less than all there is room for, if the source gives it. */
  predicate Takes(r: Reader, mood: Mood, source: Source, data: seq<byte>, room: nat)
    requires r.source.Some?
  {
    var rest := r.source.value.rest;
    var taken := |rest| - |source.rest|;
    && 0 <= taken <= room && data + source.rest == r.data + rest && source.ending == r.source.value.ending
    && (0 < taken < room ==> source.rest == [] || taken == mood.chunk || (mood.chunk == 0 && taken == 1))
  }

  lemma FillTakes(r: Reader, mood: Mood)
    requires r.source.Some? && r.gotEof.None? && |r.data| < r.cap
    ensures var r' := Fill(r, mood);
            && r'.source.Some? && Takes(r, mood, r'.source.value, r'.data, r.cap - |r.data|)
            && r'.cap == r.cap && r'.bufCapacity == r.bufCapacity
            && (r'.source != r.source || r'.gotEof.Some? <==> mood.ready)
  {
  }

  lemma DeliverSplits(r: Reader, maxLen: nat)
    requires |r.data| <= r.cap
    ensures var o := Deliver(r, maxLen);
            var bs := if o.reply.Chunk? then o.reply.bytes else [];
            && bs + o.next.data == r.data && o.next.cap + |bs| == r.cap && o.next.bufCapacity == r.bufCapacity
            && if r.data == [] && r.gotEof.Some? then o.next.source.None?
               else o.next.source == r.source && o.next.gotEof == r.gotEof
  {
  }

  predicate MayRead(r: Reader, maxLen: nat)
    requires |r.data| <= r.cap
  {
    r.data == [] || Augmentable(r, maxLen)
  }

  /** The reader with the buffer for the next read. */
  function Buffered(r: Reader, mood: Mood): (b: Reader)
    requires |r.data| <= r.cap
    requires NeedsBuffer(r) ==> mood.provided.Some? && mood.provided.value >= 1
  {
    if NeedsBuffer(r) then r.(cap := mood.provided.value, bufCapacity := mood.provided.value) else r
  }

  lemma ReadsThenDelivers(r: Reader, maxLen: nat, mood: Mood)
    requires |r.data| <= r.cap && r.source.Some? && r.gotEof.None?
    requires maxLen < USIZE && r.bufCapacity < USIZE
    requires NeedsBuffer(r) ==> mood.provided.Some? && mood.provided.value >= 1
    requires MayRead(r, maxLen) ==> |r.data| < Buffered(r, mood).cap
    ensures PollRead(r, maxLen, mood)
         == Deliver(if MayRead(r, maxLen) then Fill(Buffered(r, mood), mood) else r, maxLen)
  {
    if r.data != [] {
      AugmentsIfAugmentable(r, maxLen);
    }
  }

  /**
   When an open reader reads: if the source is ready, and it holds nothing, or a part of a buffer that it may
   augment.  It offers the source all the room it has, puts what it gets behind the data it holds, and a
   chunk takes its share of the capacity along.
   */
  lemma ReadsWhenThereIsRoom(r: Reader, maxLen: nat, mood: Mood)
    requires |r.data| <= r.cap && r.source.Some? && r.gotEof.None?
    requires maxLen < USIZE && r.bufCapacity < USIZE
    requires NeedsBuffer(r) ==> mood.provided.Some? && mood.provided.value >= 1
    ensures var o, b := PollRead(r, maxLen, mood), Buffered(r, mood);
            var bs := if o.reply.Chunk? then o.reply.bytes else [];
            && (Reads(r, o) <==> mood.ready && MayRead(r, maxLen))
            && o.next.bufCapacity == b.bufCapacity && o.next.cap + |bs| == b.cap
            && (o.next.source.Some? ==> Takes(r, mood, o.next.source.value, bs + o.next.data, b.cap - |r.data|))
  {
    var b := Buffered(r, mood);
    ReadsThenDelivers(r, maxLen, mood);
    if MayRead(r, maxLen) {
      FillTakes(b, mood);
      DeliverSplits(Fill(b, mood), maxLen);
    } else {
      DeliverSplits(r, maxLen);
    }
  }

  lemma NextKeepsInv(s: State, stream: Source, call: Call)
    requires Inv(s, stream)
    ensures Inv(Next(s, call), stream)
  {
    match call
    case Poll(maxLen, mood) => PollIsFaithful(s, stream, maxLen, mood);
    case Drop => DeliveredIsPrefix(s, stream);
  }

  // ------------------------------------------------------------------------
  // Whole runs
  // ------------------------------------------------------------------------

  predicate NoDrop(calls: seq<Call>) {
    forall k :: 0 <= k < |calls| ==> calls[k].Poll?
  }

  lemma {:induction false} EndedMeansDelivered(stream: Source, calls: seq<Call>)
    requires NoDrop(calls)
    ensures Run(stream, calls).r.source.None? ==> Run(stream, calls).delivered == stream.rest
    decreases |calls|
  {
    if calls != [] {
      var before, call := calls[..|calls| - 1], calls[|calls| - 1];
      EndedMeansDelivered(stream, before);
      PollIsFaithful(Run(stream, before), stream, call.maxLen, call.mood);
      assert stream.rest + [] == stream.rest;
    }
  }

  /**
   Until the reader is dropped: what has been delivered is the beginning of the stream; the end of the
   stream is reported only after all of it, and if the source did not break; and the source's error is
   reported only after all of it.
   */
  lemma Fidelity(stream: Source, calls: seq<Call>, maxLen: nat, mood: Mood)
    requires NoDrop(calls)
    ensures var s := Run(stream, calls);
            var o := PollRead(s.r, maxLen, mood);
            && s.delivered <= stream.rest
            && (o.reply.Chunk? ==>
                  && s.delivered + o.reply.bytes <= stream.rest
                  && (|o.reply.bytes| == maxLen || (|o.reply.bytes| < maxLen && o.next.data == [])))
            && (o.reply == EndOfStream ==> s.delivered == stream.rest)
            && (o.reply.Err? ==>
                  if o.next.source.Some? then o.reply.error == OutOfMemory
                  else s.delivered == stream.rest && stream.ending == Broken(o.reply.error))
            && (o.reply == EndOfStream && s.r.source.Some? ==> stream.ending == Eof)
  {
    var s := Run(stream, calls);
    EndedMeansDelivered(stream, calls);
    PollIsFaithful(s, stream, maxLen, mood);
    DeliveredIsPrefix(s, stream);
    DeliveredIsPrefix(Next(s, Poll(maxLen, mood)), stream);
  }

  /** Once it has ended, by the end of the stream, an error or a drop, it delivers nothing any more. */
  lemma {:induction false} EndedIsFinal(stream: Source, calls: seq<Call>, since: seq<Call>, maxLen: nat, mood: Mood)
    requires Run(stream, calls).r.source.None?
    ensures var s := Run(stream, calls + since);
            && s.r.source.None? && s.delivered == Run(stream, calls).delivered
            && Answer(s, Poll(maxLen, mood)) == EndOfStream
    decreases |since|
  {
    if since == [] {
      assert calls + since == calls;
    } else {
      EndedIsFinal(stream, calls, since[..|since| - 1], maxLen, mood);
      assert (calls + since)[..|calls + since| - 1] == calls + since[..|since| - 1];
      assert Run(stream, calls).delivered + [] == Run(stream, calls).delivered;
    }
  }

  /** Three bytes are read into one buffer, and the first is delivered. */
  function TwoBuffered(): State {
    Next(State(New(Source([1, 2, 3], Eof)), []), Poll(1, Mood(Some(3), true, 3)))
  }

  /**
   `drop_read` keeps the buffer, whatever the reader holds, so that it discards the buffered bytes exactly
   if there were none; no call delivers them any more.  `TwoBuffered` is a reader that holds some.
   */
  lemma DropKeepsTheBuffer(r: Reader, maxLen: nat, mood: Mood)
    requires |r.data| <= r.cap
    ensures DropRead(r).source == None && DropRead(r).gotEof == None
    ensures DropRead(r).data == r.data && DropRead(r).cap == r.cap
    ensures DropRead(r).data == [] <==> r.data == []
    ensures PollRead(DropRead(r), maxLen, mood) == Outcome(DropRead(r), EndOfStream, false)
    ensures TwoBuffered().delivered == [1] && TwoBuffered().r.data == [2, 3]
  {
    var start := New(Source([1, 2, 3], Eof)).(cap := 3, bufCapacity := 3);
    assert [1, 2, 3][..3] == [1, 2, 3] && [1, 2, 3][3..] == [] && [] + [1, 2, 3] == [1, 2, 3];
    assert Fill(start, Mood(Some(3), true, 3)).data == [1, 2, 3];
    assert [1, 2, 3][..1] == [1] && [1, 2, 3][1..] == [2, 3];
  }

  /** The source's error is reported once: after it, every poll reports the end of the stream. */
  lemma ErrorSurfacesOnce(stream: Source, calls: seq<Call>, call: Call, since: seq<Call>, maxLen: nat, mood: Mood)
    requires call.Poll?
    requires var o := PollRead(Run(stream, calls).r, call.maxLen, call.mood);
             o.reply.Err? && o.next.source.None?
    ensures Answer(Run(stream, calls + [call] + since), Poll(maxLen, mood)) == EndOfStream
  {
    assert (calls + [call])[..|calls + [call]| - 1] == calls;
    EndedIsFinal(stream, calls + [call], since, maxLen, mood);
  }

  /** A call with which the reader can move on. */
  predicate Willing(call: Call) {
    call.Poll? && call.maxLen > 0 && call.mood.ready && call.mood.provided.Some? && call.mood.provided.value >= 1
  }

  /** Calls that can move on deliver at least a byte each, until everything is delivered. */
  lemma {:induction false} WillingCallsDeliver(stream: Source, calls: seq<Call>)
    requires forall k :: 0 <= k < |calls| ==> Willing(calls[k])
    ensures var s := Run(stream, calls);
            (s.r.source.None? && s.delivered == stream.rest) || |s.delivered| >= |calls|
    ensures |calls| > |stream.rest| ==>
              Run(stream, calls).r.source.None? && Run(stream, calls).delivered == stream.rest
    decreases |calls|
  {
    EndedMeansDelivered(stream, calls);
    if calls != [] {
      var before, call := calls[..|calls| - 1], calls[|calls| - 1];
      WillingCallsDeliver(stream, before);
      PollIsFaithful(Run(stream, before), stream, call.maxLen, call.mood);
    }
  }
}
