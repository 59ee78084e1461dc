/**
 `IoExchange`: the exchange of single items, with its fields updated in place.

 Every method performs the transition of `ExchangeSpec` on a slot of at most one element, and keeps
 it that way.  As for bytes, the branches for a failed compare-exchange and for a missing item in a
 FULL state are proved dead.
 */
module ItemExchange {
  import opened Basics
  import opened ExchangeSpec

  function AsSlot<T>(item: Option<T>): seq<T> {
    if item.Some? then [item.value] else []
  }

  class IoExchange<T(==)> {
    var reader: Option<Waker>
    var writer: Option<Waker>
    var state: Phase
    var item: Option<T>
    /** Every waker fired so far, in order. */
    var woken: seq<Waker>

    ghost function Model(): Exch<T>
      reads this
    {
      Exch(ItemStream, state, AsSlot(item), reader, writer)
    }

    ghost predicate Valid()
      reads this
    {
      Model().Valid()
    }

    ghost predicate Performed(o: Outcome<T>, before: seq<Waker>, reply: Reply<T>)
      reads this
    {
      Model() == o.next && woken == before + o.woken && reply == o.reply
    }

    constructor ()
      ensures Valid() && Model() == Fresh(ItemStream) && woken == []
    {
      reader, writer, state, item, woken := None, None, EMPTY, None, [];
    }

    method CompareExchange(expected: Phase, next: Phase) returns (ok: bool)
      modifies this`state
      ensures ok == (old(state) == expected)
      ensures state == if ok then next else old(state)
    {
      ok := state == expected;
      if ok {
        state := next;
      }
    }

    method WakeReader()
      modifies this`reader, this`woken
      ensures reader == None && woken == old(woken) + Fires(old(reader))
    {
      if reader.Some? {
        woken := woken + [reader.value];
        reader := None;
      }
    }

    method WakeWriter()
      modifies this`writer, this`woken
      ensures writer == None && woken == old(woken) + Fires(old(writer))
    {
      if writer.Some? {
        woken := woken + [writer.value];
        writer := None;
      }
    }

    method Reset()
      requires Valid()
      modifies this
      ensures Valid() && Performed(ResetStep(old(Model())), old(woken), Ok)
    {
      state := EMPTY;
      item := None;
      WakeReader();
      WakeWriter();
    }

    method ConPollRead(cx: Waker) returns (reply: Reply<T>)
      requires Valid()
      modifies this
      ensures Valid() && Performed(ReadStep(old(Model()), cx, 1), old(woken), reply)
    {
      var st := state;
      var nextst;
      match st {
        case EMPTY_FLUSHED =>
          reader := Some(cx);
          if st != state {
            assert false;
          }
          return Pending;
        case EMPTY | EMPTY_FLUSH =>
          reader := Some(cx);
          var ok := CompareExchange(st, EMPTY_FLUSHED);
          if !ok {
            assert false;
          }
          WakeWriter();
          return Pending;
        case FULL => nextst := EMPTY;
        case FULL_FLUSH => nextst := EMPTY_FLUSH;
        case FULL_CLOSED => nextst := DONE;
        case DONE => return EndOfStream;
        case DROPPED => return Failed(InvalidState);
      }
      var ok := CompareExchange(st, nextst);
      if !ok {
        assert false;
      }
      var taken := item;
      item := None;
      WakeWriter();
      match taken {
        case Some(value) =>
          woken := woken + [cx];
          reply := Chunk([value]);
        case None =>
          assert false;
      }
    }

    method DropRead()
      requires Valid()
      modifies this
      ensures Valid() && Performed(DropStep(old(Model())), old(woken), Ok)
    {
      if state != DROPPED && state != DONE {
        state := DROPPED;
        item := None;
        WakeWriter();
      }
    }

    method ProdPollReady(cx: Waker) returns (reply: Reply<T>)
      requires Valid()
      modifies this
      ensures Valid() && Performed(ReadyStep(old(Model()), cx), old(woken), reply)
    {
      var st := state;
      match st {
        case EMPTY | EMPTY_FLUSH | EMPTY_FLUSHED => reply := Ok;
        case FULL | FULL_FLUSH | FULL_CLOSED =>
          writer := Some(cx);
          if st != state {
            assert false;
          }
          reply := Pending;
        case DROPPED => reply := Failed(BrokenPipe);
        case DONE => reply := Failed(InvalidState);
      }
    }

    /** `rest` is what is left in the caller's variable. */
    method ProdPollSend(cx: Waker, send: Option<T>) returns (reply: Reply<T>, rest: Option<T>)
      requires Valid()
      modifies this
      ensures Valid() && Performed(WriteStep(old(Model()), cx, AsSlot(send)), old(woken), reply)
      ensures rest == if reply.Accepted? then None else send
    {
      rest := send;
      if send.None? {
        return Accepted(0), rest;
      }
      var st := state;
      match st {
        case EMPTY | EMPTY_FLUSH | EMPTY_FLUSHED =>
          var ok := CompareExchange(st, FULL);
          if !ok {
            assert false;
          }
          item, rest := rest, None;
          WakeReader();
          reply := Accepted(1);
        case FULL | FULL_FLUSH | FULL_CLOSED =>
          writer := Some(cx);
          if st != state {
            assert false;
          }
          reply := Pending;
        case DROPPED => reply := Failed(BrokenPipe);
        case DONE => reply := Failed(InvalidState);
      }
    }

    method ProdPollFlush(cx: Waker) returns (reply: Reply<T>)
      requires Valid()
      modifies this
      ensures Valid() && Performed(FlushStep(old(Model()), cx), old(woken), reply)
    {
      var st := state;
      match st {
        case EMPTY_FLUSH | FULL_FLUSH | FULL_CLOSED =>
          writer := Some(cx);
          if st != state {
            assert false;
          }
          reply := Pending;
        case EMPTY_FLUSHED => reply := Ok;
        case EMPTY =>
          writer := Some(cx);
          var ok := CompareExchange(st, EMPTY_FLUSH);
          if !ok {
            assert false;
          }
          WakeReader();
          reply := Pending;
        case FULL =>
          writer := Some(cx);
          var ok := CompareExchange(st, FULL_FLUSH);
          if !ok {
            assert false;
          }
          WakeReader();
          reply := Pending;
        case DONE | DROPPED => reply := Ok;
      }
    }

    method ProdPollClose(cx: Waker) returns (reply: Reply<T>)
      requires Valid()
      modifies this
      ensures Valid() && Performed(CloseStep(old(Model()), cx), old(woken), reply)
    {
      var st := state;
      match st {
        case EMPTY | EMPTY_FLUSH | EMPTY_FLUSHED =>
          var ok := CompareExchange(st, DONE);
          if !ok {
            assert false;
          }
          WakeReader();
          reply := Ok;
        case FULL | FULL_FLUSH =>
          writer := Some(cx);
          var ok := CompareExchange(st, FULL_CLOSED);
          if !ok {
            assert false;
          }
          WakeReader();
          reply := Pending;
        case FULL_CLOSED =>
          writer := Some(cx);
          if st != state {
            assert false;
          }
          reply := Pending;
        case DONE | DROPPED => reply := Ok;
      }
    }
  }
}
