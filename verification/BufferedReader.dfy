/**
 The buffered reader as it is written: a record updated in place by `con_poll_read` and `drop_read`.
 Every method performs one step of `ReaderSpec`.
 */
module BufferedReader {
  import opened Basics
  import opened ReaderSpec

  class ReaderIoReader {
    var reader: Option<Source>
    /** `cur_buf`: its contents and its capacity. */
    var curBuf: seq<byte>
    var capacity: nat
    var bufCapacity: nat
    var gotEof: Option<Ending>

    ghost function Model(): Reader
      reads this
    {
      Reader(reader, curBuf, capacity, bufCapacity, gotEof)
    }

    ghost predicate Valid()
      reads this
    {
      |curBuf| <= capacity
    }

    constructor (source: Source)
      ensures Valid() && Model() == New(source)
    {
      reader, curBuf, capacity, bufCapacity, gotEof := Some(source), [], 0, 0, None;
    }

    /** `poll_read_buf`, which appends to the current buffer; and what is made of its result. */
    method FillBuf(mood: Mood)
      requires Valid() && reader.Some? && |curBuf| < capacity
      modifies this`reader, this`curBuf, this`gotEof
      ensures Valid() && Model() == Fill(old(Model()), mood)
    {
      var (got, source) := Ask(reader.value, capacity - |curBuf|, mood);
      reader := Some(source);
      match got {
        case NotYet =>
        case Bytes(bytes) =>
          if bytes == [] {
            gotEof := Some(Eof);
          } else {
            curBuf := curBuf + bytes;
          }
        case Failed(error) =>
          gotEof := Some(Broken(error));
      }
    }

    /** `split_to`: the front part leaves the buffer, with its capacity. */
    method SplitTo(n: nat) returns (front: seq<byte>)
      requires Valid() && n <= |curBuf|
      modifies this`curBuf, this`capacity
      ensures Valid() && front + curBuf == old(curBuf) && |front| == n && capacity == old(capacity) - n
    {
      front := curBuf[..n];
      curBuf := curBuf[n..];
      capacity := capacity - n;
    }

    /** Reads more data into the buffer, if it is appropriate to do so. */
    method ReadMore(maxLen: nat, mood: Mood) returns (refused: Option<Reply>)
      requires Valid() && reader.Some? && gotEof.None?
      modifies this
      ensures Valid()
      ensures match refused
              case Some(reply) => PollRead(old(Model()), maxLen, mood) == Outcome(Model(), reply, false)
              case None => PollRead(old(Model()), maxLen, mood) == Deliver(Model(), maxLen)
      ensures refused.None? ==> reader.Some?
    {
      var haveLen := |curBuf|;
      var space := capacity - haveLen;
      var doRead: bool;
      if space > 0 && space > bufCapacity / 4 {
        var halfBuf := bufCapacity / 2;
        doRead := haveLen == 0
                  || (haveLen + space > halfBuf && haveLen + space <= (halfBuf + maxLen) % USIZE);
      } else if haveLen == 0 {
        match mood.provided {
          case None => return Some(Pending);
          case Some(cap) =>
            if cap < 1 {
              return Some(Err(OutOfMemory));
            }
            curBuf, capacity, bufCapacity := [], cap, cap;
        }
        doRead := true;
      } else {
        doRead := false;
      }
      if doRead {
        FillBuf(mood);
      }
      refused := None;
    }

    method ConPollRead(maxLen: nat, mood: Mood) returns (reply: Reply, prewake: bool)
      requires Valid()
      modifies this
      ensures Valid()
      ensures PollRead(old(Model()), maxLen, mood) == Outcome(Model(), reply, prewake)
    {
      if reader.None? {
        return EndOfStream, false;
      }
      if gotEof.None? {
        var refused := ReadMore(maxLen, mood);
        if refused.Some? {
          return refused.value, false;
        }
      }
      var haveLen := |curBuf|;
      if haveLen == 0 {
        if gotEof.None? {
          return Pending, false;
        }
        reader := None;
        var end := gotEof.value;
        gotEof := None;
        match end {
          case Eof => return EndOfStream, false;
          case Broken(error) => return Err(error), true;
        }
      }
      if maxLen == 0 {
        return Chunk([]), false;
      }
      ghost var data, n := curBuf, Least(maxLen, haveLen);
      var front := SplitTo(if maxLen <= haveLen then maxLen else haveLen);
      assert front == data[..n] && curBuf == data[n..];
      return Chunk(front), true;
    }

    method DropReader()
      requires Valid()
      modifies this`reader, this`gotEof
      ensures Valid() && Model() == DropRead(old(Model()))
    {
      reader := None;
      gotEof := None;
    }
  }
}
