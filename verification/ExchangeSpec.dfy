/**
 The single-slot exchange as a state machine on values.

 `BytesExchange` and `ItemExchange` are proved to perform exactly these transitions; the two differ
 only in the size of the slot and in what a read returns after `drop_read` (see `Kind`).
 */
module ExchangeSpec {
  import opened Basics

  /** `EXCH_EMPTY` (0) to `EXCH_DROPPED` (7), in the order of the source's constants. */
  datatype Phase = EMPTY | EMPTY_FLUSH | EMPTY_FLUSHED | FULL | FULL_FLUSH | FULL_CLOSED | DONE | DROPPED

  datatype Kind = ByteStream | ItemStream

  datatype Exch<T> = Exch(kind: Kind, phase: Phase, slot: seq<T>, reader: Option<Waker>, writer: Option<Waker>)
  {
    predicate Occupied() {
      phase.FULL? || phase.FULL_FLUSH? || phase.FULL_CLOSED?
    }

    predicate Terminal() {
      phase.DONE? || phase.DROPPED?
    }

    /** The slot is non-empty exactly in the three FULL phases. */
    predicate Valid() {
      Occupied() <==> slot != []
    }
  }

  datatype IoError = BrokenPipe | InvalidState

  datatype Call<T> =
    | Read(maxLen: nat)
    | DropRead
    | CheckReady
    | Write(data: seq<T>)
    | Flush
    | Close

  /** A call that returned `Pending`, with the waker it was made with. */
  datatype Wait<T> = Wait(w: Waker, call: Call<T>)

  datatype Role = Reader | Writer

  function RoleOf<T>(c: Call<T>): Role {
    if c.Read? || c.DropRead? then Reader else Writer
  }

  datatype Reply<T> =
    | Pending
    | Chunk(data: seq<T>)
    | EndOfStream
    | Accepted(count: nat)
    | Ok
    | Failed(error: IoError)

  /** The state after a call, its result, and the wakers it fired, in order. */
  datatype Outcome<T> = Outcome(next: Exch<T>, reply: Reply<T>, woken: seq<Waker>)

  function Fresh<T>(kind: Kind): Exch<T> {
    Exch(kind, EMPTY, [], None, None)
  }

  /** What `WakerRef::wake` fires. */
  function Fires(slot: Option<Waker>): seq<Waker> {
    if slot.Some? then [slot.value] else []
  }

  /** The phase once the reader has emptied the slot. */
  function Drained(phase: Phase): Phase {
    match phase
    case FULL => EMPTY
    case FULL_FLUSH => EMPTY_FLUSH
    case FULL_CLOSED => DONE
    case other => other
  }

  /** `con_poll_read`; an item stream always asks for one item. */
  function ReadStep<T>(x: Exch<T>, w: Waker, maxLen: nat): Outcome<T> {
    match x.phase
    case EMPTY_FLUSHED => Outcome(x.(reader := Some(w)), Pending, [])
    case EMPTY | EMPTY_FLUSH =>
      Outcome(x.(phase := EMPTY_FLUSHED, reader := Some(w), writer := None), Pending, Fires(x.writer))
    case DONE => Outcome(x, EndOfStream, [])
    case DROPPED => Outcome(x, if x.kind.ByteStream? then EndOfStream else Failed(InvalidState), [])
    case _ =>
      if x.slot == [] then
        Outcome(x.(phase := Drained(x.phase), writer := None), Pending, Fires(x.writer) + [w])
      else if maxLen == 0 then
        Outcome(x, Chunk([]), [])
      else if |x.slot| > maxLen then
        Outcome(x.(slot := x.slot[maxLen..], writer := None), Chunk(x.slot[..maxLen]), Fires(x.writer) + [w])
      else
        Outcome(x.(phase := Drained(x.phase), slot := [], writer := None), Chunk(x.slot), Fires(x.writer) + [w])
  }

  /** `drop_read` */
  function DropStep<T>(x: Exch<T>): Outcome<T> {
    if x.Terminal() then Outcome(x, Ok, [])
    else Outcome(x.(phase := DROPPED, slot := [], writer := None), Ok, Fires(x.writer))
  }

  /** `prod_poll_ready` of the item stream. */
  function ReadyStep<T>(x: Exch<T>, w: Waker): Outcome<T> {
    match x.phase
    case EMPTY | EMPTY_FLUSH | EMPTY_FLUSHED => Outcome(x, Ok, [])
    case FULL | FULL_FLUSH | FULL_CLOSED => Outcome(x.(writer := Some(w)), Pending, [])
    case DROPPED => Outcome(x, Failed(BrokenPipe), [])
    case DONE => Outcome(x, Failed(InvalidState), [])
  }

  /** `prod_poll_write` and `prod_poll_send`; nothing to send is `[]`. */
  function WriteStep<T>(x: Exch<T>, w: Waker, data: seq<T>): Outcome<T> {
    if data == [] then Outcome(x, Accepted(0), [])
    else
      match x.phase
      case EMPTY | EMPTY_FLUSH | EMPTY_FLUSHED =>
        Outcome(x.(phase := FULL, slot := data, reader := None), Accepted(|data|), Fires(x.reader))
      case FULL | FULL_FLUSH | FULL_CLOSED => Outcome(x.(writer := Some(w)), Pending, [])
      case DROPPED => Outcome(x, Failed(BrokenPipe), [])
      case DONE => Outcome(x, Failed(InvalidState), [])
  }

  /** `prod_poll_flush` */
  function FlushStep<T>(x: Exch<T>, w: Waker): Outcome<T> {
    match x.phase
    case EMPTY_FLUSH | FULL_FLUSH | FULL_CLOSED => Outcome(x.(writer := Some(w)), Pending, [])
    case EMPTY =>
      Outcome(x.(phase := EMPTY_FLUSH, writer := Some(w), reader := None), Pending, Fires(x.reader))
    case FULL =>
      Outcome(x.(phase := FULL_FLUSH, writer := Some(w), reader := None), Pending, Fires(x.reader))
    case EMPTY_FLUSHED | DONE | DROPPED => Outcome(x, Ok, [])
  }

  /** `prod_poll_close` */
  function CloseStep<T>(x: Exch<T>, w: Waker): Outcome<T> {
    match x.phase
    case EMPTY | EMPTY_FLUSH | EMPTY_FLUSHED =>
      Outcome(x.(phase := DONE, reader := None), Ok, Fires(x.reader))
    case FULL | FULL_FLUSH =>
      Outcome(x.(phase := FULL_CLOSED, writer := Some(w), reader := None), Pending, Fires(x.reader))
    case FULL_CLOSED => Outcome(x.(writer := Some(w)), Pending, [])
    case DONE | DROPPED => Outcome(x, Ok, [])
  }

  /** `reset` */
  function ResetStep<T>(x: Exch<T>): Outcome<T> {
    Outcome(Fresh(x.kind), Ok, Fires(x.reader) + Fires(x.writer))
  }

  function Do<T>(x: Exch<T>, w: Waker, c: Call<T>): Outcome<T> {
    match c
    case Read(maxLen) => ReadStep(x, w, maxLen)
    case DropRead => DropStep(x)
    case CheckReady => ReadyStep(x, w)
    case Write(data) => WriteStep(x, w, data)
    case Flush => FlushStep(x, w)
    case Close => CloseStep(x, w)
  }

  // ------------------------------------------------------------------------
  // Blocking and waking
  // ------------------------------------------------------------------------

  /** The call, made now, would not be able to complete. */
  predicate Blocked<T>(x: Exch<T>, c: Call<T>) {
    match c
    case Read(_) => x.phase.EMPTY? || x.phase.EMPTY_FLUSH? || x.phase.EMPTY_FLUSHED?
    case DropRead => false
    case CheckReady => x.Occupied()
    case Write(data) => data != [] && x.Occupied()
    case Flush => !x.Terminal() && !x.phase.EMPTY_FLUSHED?
    case Close => x.Occupied()
  }

  function StoredWaker<T>(x: Exch<T>, r: Role): Option<Waker> {
    if r.Reader? then x.reader else x.writer
  }

  /**
   A task that made call `c` with waker `w` is parked: the call cannot complete and `w` is stored.
   For a reader the phase is exactly EMPTY_FLUSHED.
   */
  predicate Parked<T>(x: Exch<T>, w: Waker, c: Call<T>) {
    && Blocked(x, c)
    && (c.Read? ==> x.phase.EMPTY_FLUSHED?)
    && StoredWaker(x, RoleOf(c)) == Some(w)
  }

  /** A call returns `Pending` exactly when it is blocked, and then the caller is parked. */
  lemma PendingParks<T>(x: Exch<T>, w: Waker, c: Call<T>)
    requires x.Valid()
    ensures Do(x, w, c).reply.Pending? <==> Blocked(x, c)
    ensures Do(x, w, c).reply.Pending? ==> Parked(Do(x, w, c).next, w, c)
    ensures Do(x, w, c).next.Valid()
  {
  }

  /** Whatever the other side does, a parked task stays parked or is woken. */
  lemma OtherSideKeepsOrWakes<T>(x: Exch<T>, w: Waker, c: Call<T>, parked: Waker, on: Call<T>)
    requires x.Valid() && RoleOf(c) != RoleOf(on)
    requires Parked(x, parked, on)
    ensures var o := Do(x, w, c); Parked(o.next, parked, on) || parked in o.woken
  {
  }
}
