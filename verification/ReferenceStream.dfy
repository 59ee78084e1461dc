/**
 What an exchange is, without its eight states: a slot, and five facts about it that each change for
 reasons of their own.  Every call on an exchange replies, wakes and leaves behind what this says.

 A fact is given by the calls that make it true and those that make it false; the states of the exchange
 are the combinations that can occur (`FactsOf`).
 */
module ReferenceStream {
  import opened Basics
  import opened ExchangeSpec

  /**
   `gone`: the reader was dropped before the end.  `closed`: the writer has closed.  `acked`: the reader
   has seen the slot empty since the last data.  `flushing`: the writer has asked it to look.
   */
  datatype Stream<T> = Stream(
    kind: Kind,
    slot: seq<T>,
    gone: bool,
    closed: bool,
    acked: bool,
    flushing: bool,
    reader: Option<Waker>,
    writer: Option<Waker>)
  {
    /** Nothing more will ever happen. */
    predicate Over() {
      gone || (closed && slot == [])
    }
  }

  /** The facts that a state of the exchange stands for. */
  function FactsOf<T>(x: Exch<T>): Stream<T> {
    Stream(x.kind, x.slot, x.phase.DROPPED?, x.phase.FULL_CLOSED? || x.phase.DONE?,
           x.phase.EMPTY_FLUSHED?, x.phase.EMPTY_FLUSH? || x.phase.FULL_FLUSH?, x.reader, x.writer)
  }

  // ------------------------------------------------------------------------
  // The reply
  // ------------------------------------------------------------------------

  /** A writer is told that the reader is gone, or that the stream was closed; or to wait for the slot. */
  function ReplyToWriter<T>(st: Stream<T>, ok: Reply<T>): Reply<T> {
    if st.gone then Failed(BrokenPipe)
    else if st.Over() then Failed(InvalidState)
    else if st.slot != [] then Pending
    else ok
  }

  function ReplyTo<T>(st: Stream<T>, c: Call<T>): Reply<T> {
    match c
    case Read(maxLen) =>
      if st.gone then (if st.kind.ByteStream? then EndOfStream else Failed(InvalidState))
      else if st.slot != [] then Chunk(if |st.slot| <= maxLen then st.slot else st.slot[..maxLen])
      else if st.closed then EndOfStream
      else Pending
    case DropRead => Ok
    case CheckReady => ReplyToWriter(st, Ok)
    case Write(data) => if data == [] then Accepted(0) else ReplyToWriter(st, Accepted(|data|))
    case Flush => if st.Over() || st.acked then Ok else Pending
    case Close => if st.gone || st.slot == [] then Ok else Pending
  }

  // ------------------------------------------------------------------------
  // What changes
  // ------------------------------------------------------------------------

  /** The call hands data to the reader. */
  predicate Consumes<T>(st: Stream<T>, c: Call<T>) {
    var reply := ReplyTo(st, c);
    c.Read? && reply.Chunk? && reply.data != []
  }

  /** The call puts data into the slot. */
  predicate Fills<T>(st: Stream<T>, c: Call<T>) {
    c.Write? && c.data != [] && ReplyTo(st, c).Accepted?
  }

  predicate DropsReader<T>(st: Stream<T>, c: Call<T>) {
    c.DropRead? && !st.Over()
  }

  predicate Closes<T>(st: Stream<T>, c: Call<T>) {
    c.Close? && !st.gone && !st.closed
  }

  /** The reader finds the slot empty, for the first time since the last data. */
  predicate Acknowledges<T>(st: Stream<T>, c: Call<T>) {
    c.Read? && ReplyTo(st, c).Pending? && !st.acked
  }

  /** The writer asks the reader to look, for the first time. */
  predicate AsksToLook<T>(st: Stream<T>, c: Call<T>) {
    c.Flush? && ReplyTo(st, c).Pending? && !st.flushing && !st.closed
  }

  /** The slot afterwards. */
  function SlotAfter<T>(st: Stream<T>, c: Call<T>): seq<T> {
    if Fills(st, c) then c.data
    else if DropsReader(st, c) then []
    else if Consumes(st, c) then st.slot[|ReplyTo(st, c).data|..]
    else st.slot
  }

  /** The reader is woken by new data, by a request to look, and by the end. */
  predicate WakesReader<T>(st: Stream<T>, c: Call<T>) {
    Fills(st, c) || AsksToLook(st, c) || Closes(st, c)
  }

  /** The writer is woken when the reader takes data, looks, or leaves. */
  predicate WakesWriter<T>(st: Stream<T>, c: Call<T>) {
    Consumes(st, c) || Acknowledges(st, c) || DropsReader(st, c)
  }

  /** A caller that has to wait is stored; a waker that is fired is taken out. */
  function WakerAfter(slot: Option<Waker>, fired: bool, waits: bool, w: Waker): Option<Waker> {
    if waits then Some(w) else if fired then None else slot
  }

  /** The stream afterwards. */
  function After<T>(st: Stream<T>, w: Waker, c: Call<T>): Stream<T> {
    var waits := ReplyTo(st, c).Pending?;
    var news := Fills(st, c) || Closes(st, c) || DropsReader(st, c);
    Stream(
      st.kind,
      SlotAfter(st, c),
      st.gone || DropsReader(st, c),
      (st.closed || Closes(st, c)) && !DropsReader(st, c),
      (st.acked || Acknowledges(st, c)) && !news,
      (st.flushing || AsksToLook(st, c)) && !news && !Acknowledges(st, c),
      WakerAfter(st.reader, WakesReader(st, c), waits && RoleOf(c).Reader?, w),
      WakerAfter(st.writer, WakesWriter(st, c), waits && RoleOf(c).Writer?, w))
  }

  /** The wakers fired, in order: the other side's, and the caller's own if it took data. */
  function FiredBy<T>(st: Stream<T>, w: Waker, c: Call<T>): seq<Waker> {
    (if WakesReader(st, c) then Fires(st.reader) else [])
    + (if WakesWriter(st, c) then Fires(st.writer) else [])
    + (if Consumes(st, c) then [w] else [])
  }

  // ------------------------------------------------------------------------
  // The exchange is this stream
  // ------------------------------------------------------------------------

  /** The states are told apart by the facts. */
  lemma FactsAreExact<T>(x: Exch<T>, y: Exch<T>)
    requires x.Valid() && y.Valid()
    ensures FactsOf(x) == FactsOf(y) <==> x == y
  {
  }

  /** The call does on the exchange what it does on the stream. */
  ghost predicate Agrees<T>(x: Exch<T>, w: Waker, c: Call<T>) {
    var o, st := Do(x, w, c), FactsOf(x);
    o.reply == ReplyTo(st, c) && FactsOf(o.next) == After(st, w, c) && o.woken == FiredBy(st, w, c)
  }

  lemma ReaderAgrees<T>(x: Exch<T>, w: Waker, c: Call<T>)
    requires x.Valid() && RoleOf(c).Reader?
    ensures Agrees(x, w, c)
  {
    if c.Read? {
      assert x.slot[..0] == [] && x.slot[|x.slot|..] == [];
    }
  }

  lemma WriterAgrees<T>(x: Exch<T>, w: Waker, c: Call<T>)
    requires x.Valid() && RoleOf(c).Writer?
    ensures Agrees(x, w, c)
  {
  }

  /** Every call on an exchange replies, changes and wakes what it does on the stream. */
  lemma ExchangeIsStream<T>(x: Exch<T>, w: Waker, c: Call<T>)
    requires x.Valid()
    ensures Agrees(x, w, c)
  {
    if RoleOf(c).Reader? {
      ReaderAgrees(x, w, c);
    } else {
      WriterAgrees(x, w, c);
    }
  }

  /** After a reset, whatever happened before, none of the facts holds, and nobody is stored. */
  lemma ResetForgets<T>(x: Exch<T>)
    ensures var o := ResetStep(x);
            && FactsOf(o.next) == Stream(x.kind, [], false, false, false, false, None, None)
            && o.next.Valid()
            && o.woken == Fires(x.reader) + Fires(x.writer)
  {
  }
}
