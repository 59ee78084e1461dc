/**
 `IoBytesExchange`: the byte-stream exchange, with its fields updated in place.

 Every method performs the transition of `ExchangeSpec`.  The exchange is not shared between threads,
 so the state that is read first is still there when it is compared and exchanged: the branches for a
 failed compare-exchange, and the one for an empty slot in a FULL state, are proved dead.
 */
module BytesExchange {
  import opened Basics
  import opened ExchangeSpec

  class IoBytesExchange {
    var reader: Option<Waker>
    var writer: Option<Waker>
    var state: Phase
    var data: seq<byte>
    /** Every waker fired so far, in order. */
    var woken: seq<Waker>

    ghost function Model(): Exch<byte>
      reads this
    {
      Exch(ByteStream, state, data, reader, writer)
    }

    ghost predicate Valid()
      reads this
    {
      Model().Valid()
    }

    /** The exchange now is what `o` says, and `o`'s wakers were fired after those in `before`. */
    ghost predicate Performed(o: Outcome<byte>, before: seq<Waker>, reply: Reply<byte>)
      reads this
    {
      Model() == o.next && woken == before + o.woken && reply == o.reply
    }

    constructor ()
      ensures Valid() && Model() == Fresh(ByteStream) && woken == []
    {
      reader, writer, state, data, woken := None, None, EMPTY, [], [];
    }

    method CompareExchange(expected: Phase, next: Phase) returns (ok: bool)
      modifies this`state
      ensures ok == (old(state) == expected)
      ensures state == if ok then next else old(state)
    {
      ok := state == expected;
      if ok {
        state := next;
      }
    }

    method WakeReader()
      modifies this`reader, this`woken
      ensures reader == None && woken == old(woken) + Fires(old(reader))
    {
      if reader.Some? {
        woken := woken + [reader.value];
        reader := None;
      }
    }

    method WakeWriter()
      modifies this`writer, this`woken
      ensures writer == None && woken == old(woken) + Fires(old(writer))
    {
      if writer.Some? {
        woken := woken + [writer.value];
        writer := None;
      }
    }

    method Reset()
      requires Valid()
      modifies this
      ensures Valid() && Performed(ResetStep(old(Model())), old(woken), Ok)
    {
      state := EMPTY;
      data := [];
      WakeReader();
      WakeWriter();
    }

    method ConPollRead(cx: Waker, maxLen: nat) returns (reply: Reply<byte>)
      requires Valid()
      modifies this
      ensures Valid() && Performed(ReadStep(old(Model()), cx, maxLen), old(woken), reply)
    {
      var st := state;
      var nextst;
      match st {
        case EMPTY_FLUSHED =>
          reader := Some(cx);
          if st != state {
            assert false;
          }
          return Pending;
        case EMPTY | EMPTY_FLUSH =>
          reader := Some(cx);
          var ok := CompareExchange(st, EMPTY_FLUSHED);
          if !ok {
            assert false;
          }
          WakeWriter();
          return Pending;
        case FULL => nextst := EMPTY;
        case FULL_FLUSH => nextst := EMPTY_FLUSH;
        case FULL_CLOSED => nextst := DONE;
        case _ => return EndOfStream;
      }
      if data == [] {
        assert false;
      }
      if maxLen == 0 {
        return Chunk([]);
      }
      var taken := data;
      data := [];
      if |taken| > maxLen {
        taken, data := taken[..maxLen], taken[maxLen..];
      } else {
        state := nextst;
      }
      WakeWriter();
      woken := woken + [cx];
      reply := Chunk(taken);
    }

    method DropRead()
      requires Valid()
      modifies this
      ensures Valid() && Performed(DropStep(old(Model())), old(woken), Ok)
    {
      if state != DROPPED && state != DONE {
        state := DROPPED;
        data := [];
        WakeWriter();
      }
    }

    /** `rest` is what is left in the caller's buffer. */
    method ProdPollWrite(cx: Waker, bytes: seq<byte>) returns (reply: Reply<byte>, rest: seq<byte>)
      requires Valid()
      modifies this
      ensures Valid() && Performed(WriteStep(old(Model()), cx, bytes), old(woken), reply)
      ensures rest == if reply.Accepted? then [] else bytes
    {
      rest := bytes;
      if bytes == [] {
        return Accepted(0), rest;
      }
      var st := state;
      match st {
        case EMPTY | EMPTY_FLUSH | EMPTY_FLUSHED =>
          var ok := CompareExchange(st, FULL);
          if !ok {
            assert false;
          }
          data, rest := bytes, [];
          WakeReader();
          reply := Accepted(|bytes|);
        case FULL | FULL_FLUSH | FULL_CLOSED =>
          writer := Some(cx);
          if st != state {
            assert false;
          }
          reply := Pending;
        case DROPPED => reply := Failed(BrokenPipe);
        case DONE => reply := Failed(InvalidState);
      }
    }

    method ProdPollFlush(cx: Waker) returns (reply: Reply<byte>)
      requires Valid()
      modifies this
      ensures Valid() && Performed(FlushStep(old(Model()), cx), old(woken), reply)
    {
      var st := state;
      match st {
        case EMPTY_FLUSH | FULL_FLUSH | FULL_CLOSED =>
          writer := Some(cx);
          if st != state {
            assert false;
          }
          reply := Pending;
        case EMPTY_FLUSHED => reply := Ok;
        case EMPTY =>
          writer := Some(cx);
          var ok := CompareExchange(st, EMPTY_FLUSH);
          if !ok {
            assert false;
          }
          WakeReader();
          reply := Pending;
        case FULL =>
          writer := Some(cx);
          var ok := CompareExchange(st, FULL_FLUSH);
          if !ok {
            assert false;
          }
          WakeReader();
          reply := Pending;
        case DONE | DROPPED => reply := Ok;
      }
    }

    method ProdPollClose(cx: Waker) returns (reply: Reply<byte>)
      requires Valid()
      modifies this
      ensures Valid() && Performed(CloseStep(old(Model()), cx), old(woken), reply)
    {
      var st := state;
      match st {
        case EMPTY | EMPTY_FLUSH | EMPTY_FLUSHED =>
          var ok := CompareExchange(st, DONE);
          if !ok {
            assert false;
          }
          WakeReader();
          reply := Ok;
        case FULL | FULL_FLUSH =>
          writer := Some(cx);
          var ok := CompareExchange(st, FULL_CLOSED);
          if !ok {
            assert false;
          }
          WakeReader();
          reply := Pending;
        case FULL_CLOSED =>
          writer := Some(cx);
          if st != state {
            assert false;
          }
          reply := Pending;
        case DONE | DROPPED => reply := Ok;
      }
    }
  }
}
