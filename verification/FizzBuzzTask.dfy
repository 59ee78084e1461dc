/**
 The Fizz-Buzz task as it is written: a loop around a closure that updates its two held words and
 drives two exchanges.  A poll performs `FizzBuzz.Poll`.
 */
module FizzBuzzTask {
  import opened Basics
  import opened ExchangeSpec
  import opened ItemExchange
  import R = ExchangeRuns
  import Spec = FizzBuzz

  class FizzBuzzIO {
    const input: IoExchange<nat>
    const output: IoExchange<string>
    /** The words that the task holds back, and whether it has ended. */
    var send1: Option<string>
    var send2: Option<string>
    var done: bool
    ghost var inputSoFar: R.History<nat>
    ghost var outputSoFar: R.History<string>

    ghost function Model(): Spec.Task
      reads this
    {
      Spec.Task(inputSoFar, outputSoFar, send1, send2, done)
    }

    ghost predicate Valid()
      reads this, input, output
    {
      && inputSoFar.x == input.Model() && input.Valid()
      && outputSoFar.x == output.Model() && output.Valid()
    }

    constructor ()
      ensures Valid() && Model() == Spec.Start() && fresh(input) && fresh(output)
    {
      input := new IoExchange();
      output := new IoExchange();
      send1, send2, done := None, None, false;
      inputSoFar, outputSoFar := R.Start(ItemStream), R.Start(ItemStream);
    }

    /** A neighbour sends a number to the input. */
    method Feed(cx: Waker, n: nat) returns (sent: bool)
      requires Valid()
      modifies input, this`inputSoFar
      ensures Valid() && Model() == Spec.Step(old(Model()), Spec.Feed(cx, Write([n])))
      ensures sent == Do(old(input.Model()), cx, Write([n])).reply.Accepted?
    {
      var reply, rest := input.ProdPollSend(cx, Some(n));
      inputSoFar := R.Step(inputSoFar, R.Make(cx, Write([n])));
      sent := reply.Accepted?;
    }

    /** A neighbour reads a word from the output. */
    method Take(cx: Waker) returns (reply: Reply<string>)
      requires Valid()
      modifies output, this`outputSoFar
      ensures Valid() && Model() == Spec.Step(old(Model()), Spec.Take(cx, Read(1)))
      ensures reply == ReadStep(old(output.Model()), cx, 1).reply
    {
      reply := output.ConPollRead(cx);
      outputSoFar := R.Step(outputSoFar, R.Make(cx, Read(1)));
    }

    /** `prod_poll_send` from one of the held words, and the verdict on its result. */
    method Send(cx: Waker, word: Option<string>) returns (verdict: Spec.Verdict, rest: Option<string>)
      requires Valid() && word.Some?
      modifies output, this`outputSoFar
      ensures Valid()
      ensures var write := Write([word.value]);
              && outputSoFar == R.Step(old(outputSoFar), R.Make(cx, write))
              && verdict == Spec.AfterSend(Do(old(output.Model()), cx, write).reply)
      ensures rest == if verdict.Again? then None else word
    {
      var reply;
      reply, rest := output.ProdPollSend(cx, word);
      outputSoFar := R.Step(outputSoFar, R.Make(cx, Write([word.value])));
      match reply {
        case Accepted(_) => verdict := Spec.Again;
        case Failed(_) => verdict := Spec.End;
        case _ => verdict := Spec.Wait;
      }
    }

    /** The closure. */
    method Iterate(cx: Waker) returns (verdict: Spec.Verdict)
      requires Valid()
      modifies this`send1, this`send2, this`inputSoFar, this`outputSoFar, input, output
      ensures Valid() && (Model(), verdict) == Spec.Iterate(old(Model()), cx)
    {
      if send1.Some? {
        verdict, send1 := Send(cx, send1);
        return;
      }
      if send2.Some? {
        verdict, send2 := Send(cx, send2);
        return;
      }
      var reply := input.ConPollRead(cx);
      inputSoFar := R.Step(inputSoFar, R.Make(cx, Read(1)));
      match reply {
        case Chunk(items) =>
          if items == [] {
            return Spec.Wait;
          }
          var val := items[0];
          if val % 3 == 0 {
            send1 := Some("Fizz");
          }
          if val % 5 == 0 {
            send2 := Some("Buzz");
          }
          return Spec.Again;
        case Pending => return Spec.Wait;
        case _ => return Spec.End;
      }
    }

    /** `WaitLoop::poll` */
    method Poll(cx: Waker)
      requires Valid()
      modifies this, input, output
      ensures Valid() && Model() == Spec.Poll(old(Model()), cx)
    {
      if done {
        return;
      }
      var verdict: Spec.Verdict := Spec.Again;
      while verdict.Again?
        invariant Valid() && !done
        invariant Spec.Poll(old(Model()), cx)
                  == match verdict
                     case Again => Spec.Poll(Model(), cx)
                     case Wait => Model()
                     case End => Model().(done := true)
        decreases verdict.Again?, Model().Measure()
      {
        verdict := Iterate(cx);
      }
      if verdict.End? {
        done := true;
      }
    }
  }
}
