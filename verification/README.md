# Verification of procmachines

`procmachines` runs a fixed set of tasks under one lock.  A machine keeps one atomic word of wake bits, a
mask of live tasks and a chain of futures; whenever the lock is released it *ticks*: it claims the pending
wake bits, polls the tasks they name, and ends with a compare-exchange.  The tasks block on single-slot
exchanges, on alarms and on watched values, which both live on an intrusive list, and on a buffered reader.

This project models these parts and proves what they are for.  `dafny verify dfyconfig.toml` checks it.

## Parts

Each part that works by updating fields in place is a class whose methods follow the source branch by
branch.  Every method of the exchanges, the intrusive list, the alarms, the watched values, the reader and
the Fizz-Buzz task is proved to perform one step of a specification on values; what the specification
promises is proved for whole runs.  The methods of `FuturesChain`, `ProcMachine` and `PipeTick` are proved
against sets of tasks; `wake`, the bit expressions of `tick` and the walk over the chain are also proved to
do what the steps of `Scheduler` do.

| part | as it is written | specification | whole runs |
|---|---|---|---|
| bits of the wake word | `MaskBits` | sets of task indices | |
| chain of futures | `FuturesChain` | `Walk` | |
| machine | `ProcMachine` | `Scheduler`: every interleaving of any number of threads | `SchedulerRuns`, `ExternalNotify` |
| exchanges | `BytesExchange`, `ItemExchange` | `ExchangeSpec`, and `ReferenceStream`: a slot and five facts | `ExchangeRuns` |
| machine and exchanges together | `PipeTick` (a producer and a consumer) | `Machine` | `Machine` |
| intrusive list | `IntrusiveList` | the sequence of linked leaves | |
| alarms | `AlarmClock` | `AlarmSpec` | `AlarmRuns` |
| watched values | `WatchableValue` | `WatchSpec` | `WatchRuns` |
| buffered reader | `BufferedReader` | `ReaderSpec` | `ReaderSpec` |
| Fizz-Buzz example | `FizzBuzzTask` | `FizzBuzz` | `FizzBuzz`, and inside a machine `FizzMachine` |

`Basics` and `Sequences` hold the shared vocabulary.

Modelling decisions:

- A waker is the index of the task that it schedules; wakers of code outside the machine are indices above
  30.  A waker slot (`WakerRef`, `src/waker_ref.rs:46-63`) is an optional index.  The wakers that a call
  fires are recorded in order.  A future is represented by its presence; whether a poll completes it, and
  which wakes it issues, is arbitrary.
- In `Scheduler` every access to the atomic word, to the external waker and to the lock is a step of its
  own, and so are the beginning and the end of every poll.  Weak compare-exchanges may fail at any time.
- The exchanges are not shared between threads (`src/io_bytes_exchange.rs:20-22`): one task reads and one
  writes, and `drop_read` is a call of the reader.  The branches for a failed compare-exchange, and for an
  empty slot in a FULL state, are in the methods and are proved to be dead.
- Alarm times are integers.  The buffers of the provider start empty.  The sum `half_buf + max_len`
  (`src/tokio_reader_writer.rs:121`) wraps around at 64 bits, as in a release build.
- Parameters stand for what is outside the modelled code: the closure of `filter`, what the byte source and
  the buffer provider do in one call (`Mood`), and the wakes that land during a tick (`Round`).

## Where the documentation and the code differ

- `external_poll` promises that the caller's waker is notified of the next external wake
  (`src/proc_machines.rs:96-98`).  The waker is registered after the tick, and after the lock is released
  (`src/proc_machines.rs:722-731`).  `ExternalNotify.RegistrationIsSafe` gives the exact condition under
  which the promise holds, and `ExternalNotify.LateRegistrationIsMissed` a run in which it does not: a wake
  between the tick and the registration is not notified, and neither are later wakes of the same task.
- A timer provider that calls `advance` and then registers for alarms before the minimum that it returned
  (`src/alarm_clock.rs:313-324` calls this the normal order) can miss an alarm that is polled in between:
  `AlarmRuns.PollInBetweenIsMissed`.  `AlarmRuns.SafeUnlessLeftBehind` gives the exact condition.
- `advance` is documented to reset the wake threshold if the time is advanced
  (`src/alarm_clock.rs:272-275`); it always does (`src/alarm_clock.rs:284`).  The model follows the code.
- `ReaderIoReader::drop_read` is documented to discard the buffered data
  (`src/tokio_reader_writer.rs:49-50`); it keeps the buffer (`src/tokio_reader_writer.rs:181-185`), which
  can never be read again (`ReaderSpec.DropKeepsTheBuffer`, `ReaderSpec.EndedIsFinal`).

## Model

| member | source | states |
|---|---|---|
| `MaskBits.HasIsMaskTest` | src/proc_machines.rs:322 | `mask & (1 << n) != 0` reads bit `n` of the word. |
| `MaskBits.OrAddsTask` | src/proc_machines.rs:607-610 | `old` with bit `n` set, as `wake` computes it, adds task `n` to the set of pending tasks and leaves the ticking flag alone; it equals `old` exactly if the task was pending already. |
| `MaskBits.AndIntersects` | src/proc_machines.rs:517 | The claimed mask is the set of live tasks that were woken, without the ticking flag. |
| `MaskBits.WordExtensionality` | src/proc_machines.rs:611-615 | Two words are equal, as a compare-exchange tests, exactly if they have the same pending tasks and the same ticking flag. |
| `FuturesChain.WalkIsExact` | src/proc_machines.rs:313-354 | A walk polls exactly the live tasks selected by the mask, each once, in increasing depth. |
| `FuturesChain.Chain.VisitLink` | src/proc_machines.rs:316-354 | One link: it polls its task exactly if that is live and selected, drops the future exactly if it completes, and adds the task's bit exactly if it still holds a future. |
| `FuturesChain.Chain.PollLink` | src/proc_machines.rs:313-354 | The links up to this one: the polled tasks are `Walk`, those that completed lose their future, deeper links are untouched, and the returned bits are the tasks that still hold a future. |
| `FuturesChain.Chain.Poll` | src/proc_machines.rs:276-354 | For a chain of any depth up to 30, the returned mask is exactly the set of tasks that still hold a future. |
| `Scheduler.StepKeepsInv` | src/proc_machines.rs:514-732 | Every step of every thread keeps the lock, the ticking flag, the alive mask and the pending wakes consistent. |
| `Scheduler.WakeKeepsInv` | src/proc_machines.rs:604-625 | Each atomic access of `wake`, made anywhere and interleaved with anything, keeps the invariant. |
| `SchedulerRuns.NoLostWake` | src/proc_machines.rs:514-528 | In every run: if a wake of task `n` has taken effect since the latest poll of `n` began, a live `n` is in the wake word, or claimed by the running tick and still to be polled. |
| `SchedulerRuns.OwedFollowsTheRun` | src/proc_machines.rs:604-625 | The history variable that the invariant speaks about is exactly "a wake took effect since the latest poll began". |
| `SchedulerRuns.TickEndsQuiet` | src/proc_machines.rs:520-525 | At the exchange that ends a tick no live task is owed a poll, and the alive mask names exactly the live tasks. |
| `SchedulerRuns.LockIsFreedAfterATick` | src/proc_machines.rs:666-720 | In every run, a thread that frees the lock has ended a tick before, at which no live task was owed a poll, has held the lock since, and polled nobody since: no wake that landed in a critical section is left behind. |
| `SchedulerRuns.OnePollPerWake` | src/proc_machines.rs:514-528 | In every run, counting: the polls of a task that have begun, its claim and its bit in the word are at most one (its first poll) more than the times its bit was set, and exactly that while its future is there. So nobody is polled without a wake, no wake of a live task is dropped, and none leads to two polls. |
| `SchedulerRuns.NoPollAfterReady` | src/proc_machines.rs:316-318 | In every run, no future is polled after it has completed. |
| `SchedulerRuns.DoneIsStable` | src/proc_machines.rs:527-528 | Whenever the lock is free the alive mask is the set of live tasks; once the machine is done it stays done. |
| `ExternalNotify.StepKeepsPromise` | src/proc_machines.rs:604-625 | No step but a registration leads to a state in which a waker is registered, no tick runs, a live task is woken (or the machine is done), and nobody is going to fire the waker. So returning early when the bit is already set is sound. |
| `ExternalNotify.PromiseIsKept` | src/proc_machines.rs:678-732 | The same over every continuation without another registration. |
| `ExternalNotify.FiredAtMostOnce` | src/proc_machines.rs:604-732 | Over every continuation without another registration, the registered waker has been fired exactly once and the slot is empty, or it was not fired and is still registered; nothing else is fired. |
| `ExternalNotify.NewsIsTold` | src/proc_machines.rs:604-732 | Once there was, outside a tick, a woken live task or a finished machine, the waker has been fired from then on, or is registered with a thread about to fire it. |
| `ExternalNotify.NextWakeIsTold` | src/proc_machines.rs:91-98 | If a wake of a live task takes effect while no tick runs, the registered waker has been fired exactly once at the end of the run, or some thread is about to fire it. |
| `ExternalNotify.NotifiesSoon` | src/proc_machines.rs:616-620 | A thread that is about to notify, left alone, fires the registered waker within two steps. |
| `ExternalNotify.FiresWithinTwoSteps` | src/proc_machines.rs:616-620 | However the other threads interleave, the waker has been fired by the time the thread has made two steps of its own. |
| `ExternalNotify.SilentWithoutNews` | src/proc_machines.rs:604-732 | Conversely, if nobody is about to notify, and as long as no wake takes effect outside a tick and the machine is not done, the external waker is not fired: a tick absorbs the wakes that land while it runs. |
| `ExternalNotify.RegistrationIsSafe` | src/proc_machines.rs:722-731 | The promise of `external_poll` (the waker is fired at most once; it has been fired or is about to be, after every wake outside a tick and once the machine is done; and it is not fired without either) holds in all continuations if and only if, when the waker is registered, a tick is running, a notification is on its way, or no live task is woken and the machine is unfinished. |
| `ExternalNotify.LateRegistrationIsMissed` | src/proc_machines.rs:725-729 | A run from the creation of a machine in which the registration comes too late, and later wakes are not notified either. |
| `ProcMachine.WakeRefinesWord` | src/proc_machines.rs:604-610 | The bit expressions of `wake` compute what `Scheduler` does to its word of pending tasks. |
| `ProcMachine.ClaimRefinesWord` | src/proc_machines.rs:517-522 | So do the mask and the two constants of `tick`. |
| `ProcMachine.CompareRefinesWord` | src/proc_machines.rs:611-615 | A compare-exchange on the bits succeeds exactly if the one on sets does. |
| `ProcMachine.UndisturbedIsChainPoll` | src/proc_machines.rs:313-354 | The walk that `Scheduler` makes step by step polls, completes and returns what the recursive `poll` does. |
| `ProcMachine.LeftAloneItEnds` | src/proc_machines.rs:514-528 | The steps of `Scheduler` from the swap of a tick that nobody disturbs: it polls the pending live tasks in order, completes those that are ready, and ends with an empty word, whatever bits were pending, of live tasks or not. |
| `ProcMachine.ProcMachine.Wake` | src/proc_machines.rs:604-625 | Whatever other threads write between load and exchange: the wake takes effect at one word, sets its bit and nothing else there, and notifies exactly if the bit was clear and no tick was running; this is what the load, exchange and notify steps of `Scheduler` do from that word. |
| `ProcMachine.ProcMachine.PollLinks` | src/proc_machines.rs:313-354 | The walk over the chain with wakes landing before it and during every visit: it polls, completes and returns what the chain does, and every live task that is owed a poll is pending or still to be polled. |
| `ProcMachine.ProcMachine.TickRound` | src/proc_machines.rs:514-528 | One round, with wakes landing before the swap, after it, and during every visit of a link: it polls exactly the live pending tasks, in order, forgets none of these wakes, and ends the tick exactly if there was nothing to poll, nothing landed and the exchange did not fail. |
| `ProcMachine.ProcMachine.Tick` | src/proc_machines.rs:514-528 | The loop ends once it is left alone, with an empty word and no live task owed a poll. It polls every live task that was pending at its start, and otherwise only live tasks that are woken in some round; a task that is not polled, or ready in no round, is still live. Its polls and the live tasks are those of a log of rounds, each of which polls the live tasks pending at its swap, and of which the first that can end the tick is the last. A running tick absorbs wakes, the external waker is fired at most once, and the result says whether all tasks are done. |
| `ProcMachine.TickPollsRightly` | src/proc_machines.rs:514-528 | The rounds of a tick poll the pending live tasks and only live tasks that were pending or are woken, and complete only tasks that are polled and ready in some round. |
| `ProcMachine.GoneIffReadyWhenPolled` | src/proc_machines.rs:316-333 | After the rounds of a tick a future is gone exactly if some round polled it and it was ready in that round. |
| `ProcMachine.PolledIsLogged` | src/proc_machines.rs:514-528 | A task is among the polls of a tick exactly if some round's set names it. |
| `ProcMachine.ProcMachine.constructor` | src/proc_machines.rs:642-671 | A new machine has polled every task once, in order. Then it polls only tasks woken during these polls or during the tick; a future that was not ready at its first poll, and not polled again or ready in no round, is still there; and no live task is owed a poll. |
| `ProcMachine.ProcMachine.UnlockIo` | src/proc_machines.rs:678-720 | Ticks once, with all that `Tick` says about the polls and the live tasks, and reports whether all tasks are done; if they are, a registered external waker has been fired, exactly once, and otherwise at most once; once done, always done. |
| `ProcMachine.ProcMachine.ExternalPoll` | src/proc_machines.rs:722-732 | Ticks once, with all that `Tick` says about the polls and the live tasks. Ready exactly if all tasks are done, and then the previous waker was fired exactly once; otherwise the new waker is registered, and the wakes that landed before that have fired the previous waker instead and are still pending. |
| `ExchangeSpec.PendingParks` | src/io_exchange.rs:145-412 | A call returns `Pending` exactly if it cannot complete in this state, and then the caller's waker is stored (for a reader, in EMPTY_FLUSHED). |
| `ExchangeSpec.OtherSideKeepsOrWakes` | src/io_exchange.rs:145-412 | Whatever call the other side makes, a parked caller stays parked or is woken. |
| `ReferenceStream.ExchangeIsStream` | src/io_exchange.rs:145-412 | Every call on an exchange replies, changes the slot, stores and fires wakers, in order, as on a stream given by a slot and five facts (the reader is gone, the writer has closed, the empty slot was seen, a flush asks for that, and who is stored), without the eight states. |
| `ReferenceStream.FactsAreExact` | src/io_bytes_exchange.rs:84-107 | The eight states are told apart by these facts. |
| `ReferenceStream.ResetForgets` | src/io_exchange.rs:121-128 | After a reset none of the facts holds, the slot is empty, nobody is stored, and both stored wakers were fired. |
| `ExchangeRuns.RunKeepsInv` | src/io_bytes_exchange.rs:140-418 | Every run of calls and resets keeps conservation, slot occupancy and the parking of waiting callers. |
| `ExchangeRuns.Conservation` | src/io_bytes_exchange.rs:140-306 | Without `drop_read`, for every mix of chunk sizes and `max_len`: what was accepted is what was delivered, followed by the slot. |
| `ExchangeRuns.DeliveredIsPrefix` | src/io_bytes_exchange.rs:140-306 | With `drop_read` too, the reader receives a prefix of what was accepted. |
| `ExchangeRuns.SlotMatchesPhase` | src/io_bytes_exchange.rs:84-107 | The slot is non-empty exactly in FULL, FULL_FLUSH and FULL_CLOSED. |
| `ExchangeRuns.NoLostWake` | src/io_bytes_exchange.rs:140-418 | A caller whose last call returned `Pending` and who has not been woken has its waker stored, and the call would still return `Pending`; for a reader the state is EMPTY_FLUSHED. |
| `ExchangeRuns.FlushHandshake` | src/io_bytes_exchange.rs:308-365 | While the stream is open, a flush is ready if and only if a read has observed the empty slot after everything accepted so far; then everything has been read. |
| `ExchangeRuns.CloseDelivers` | src/io_bytes_exchange.rs:372-418 | Without `drop_read`, a close is ready if and only if the slot is empty, and then everything has been delivered. |
| `ExchangeRuns.EndOfStreamIsComplete` | src/io_bytes_exchange.rs:140-229 | Without `drop_read`, the end of the stream is reported only after everything was delivered. |
| `ExchangeRuns.EndingsAreFinal` | src/io_exchange.rs:307-412 | FULL_CLOSED is left only for DONE or DROPPED, those two only by `reset`, and nothing is accepted any more. |
| `ExchangeRuns.DropEndsTheStream` | src/io_bytes_exchange.rs:232-245 | In every run, after a `drop_read` before the end and whatever calls follow but `reset`: the slot is empty, nothing more is accepted, every non-empty write and ready check replies `BrokenPipe`, a read replies the end of the stream for bytes and `InvalidState` for items, and a writer that was waiting has been woken. |
| `ExchangeRuns.ResetStartsAnew` | src/io_bytes_exchange.rs:123-130 | After a reset of whatever exchange every non-empty write is accepted, a read and a flush are pending, a ready check and a close are `Ok`, no waker stays stored, and whoever was stored has been woken. |
| `ExchangeRuns.WriteCounts` | src/io_bytes_exchange.rs:272-290 | In every run the count of an accepted write is the number of elements by which what the reader has, or will get from the slot, has grown; any other reply means that nothing was added. |
| `ExchangeRuns.ConsumerContract` | src/io_bytes_exchange.rs:140-229 | The wakers that a read fires, exactly: the writer's and then the caller's if it consumed something, the writer's alone if it acknowledged an empty slot, none otherwise; probes and the end of the stream change nothing. |
| `BytesExchange.IoBytesExchange.ConPollRead` | src/io_bytes_exchange.rs:140-230 | Performs the read transition on the state byte, the slot and both waker slots; the defensive branches are dead. |
| `BytesExchange.IoBytesExchange.DropRead` | src/io_bytes_exchange.rs:232-245 | Performs the transition of `drop_read`, which `ExchangeRuns.DropEndsTheStream` and `ReferenceStream.ExchangeIsStream` are about. |
| `BytesExchange.IoBytesExchange.ProdPollWrite` | src/io_bytes_exchange.rs:260-306 | Performs the write transition, whose count is that of `ExchangeRuns.WriteCounts`; the caller's data is taken exactly if it is accepted. |
| `BytesExchange.IoBytesExchange.ProdPollFlush` | src/io_bytes_exchange.rs:316-365 | Performs the flush transition. |
| `BytesExchange.IoBytesExchange.ProdPollClose` | src/io_bytes_exchange.rs:372-418 | Performs the close transition. |
| `BytesExchange.IoBytesExchange.Reset` | src/io_bytes_exchange.rs:123-130 | Back to EMPTY with an empty slot, waking both sides: the state of `ExchangeRuns.ResetStartsAnew`. |
| `ItemExchange.IoExchange.ConPollRead` | src/io_exchange.rs:145-211 | As for bytes, on at most one item; after `drop_read` it is an error instead of the end of the stream. |
| `ItemExchange.IoExchange.DropRead` | src/io_exchange.rs:213-225 | Performs the transition of `drop_read`, which `ExchangeRuns.DropEndsTheStream` and `ReferenceStream.ExchangeIsStream` are about. |
| `ItemExchange.IoExchange.ProdPollReady` | src/io_exchange.rs:236-252 | Ready exactly if the slot is free, and changes nothing then; pending, with the waker stored, while it is occupied; an error after the end. |
| `ItemExchange.IoExchange.ProdPollSend` | src/io_exchange.rs:259-296 | Performs the write transition; the caller's item is taken exactly if it is accepted. |
| `ItemExchange.IoExchange.ProdPollFlush` | src/io_exchange.rs:307-356 | Performs the flush transition. |
| `ItemExchange.IoExchange.ProdPollClose` | src/io_exchange.rs:365-412 | Performs the close transition. |
| `ItemExchange.IoExchange.Reset` | src/io_exchange.rs:121-128 | Back to EMPTY with an empty slot, waking both sides: the state of `ExchangeRuns.ResetStartsAnew`. |
| `Machine.RunMachineKeepsInv` | src/proc_machines.rs:514-528 | The composition of scheduler and exchanges keeps: whoever waits is parked, or a wake-up has happened or is underway. |
| `Machine.Quiescence` | src/proc_machines.rs:514-528 | In every run, whenever the machine lock is free: a live task whose last exchange call returned `Pending`, and which has not been polled since, is waiting for a call that would still return `Pending`, with its waker stored. |
| `PipeTick.ProducerCallOk` | src/io_bytes_exchange.rs:260-418 | A call of the producer conserves the data, and wakes somebody only if it makes progress by the termination measure. |
| `PipeTick.ConsumerCallOk` | src/io_bytes_exchange.rs:140-229 | The same for a read: pre-waking happens only on consumption. |
| `PipeTick.QuietIsComplete` | src/proc_machines.rs:520-525 | If nobody is left to be polled and the consumer drains the exchange, everything was delivered and both tasks have completed. |
| `PipeTick.PipeMachine.Tick` | src/proc_machines.rs:514-528 | For finite data, flushes and a close, finitely many spurious failures and no outside wakes, the tick ends, by commands left, bytes in the slot, rank of the state and pending bits; it goes through rounds in which only a task that was pending at the start of the round makes calls or completes; with a draining consumer it ends with all data delivered. |
| `PipeTick.PipeMachine.Start` | src/proc_machines.rs:666-669 | The same from the first poll of a new machine. |
| `IntrusiveList.IntrusiveList.LinkedIffElement` | src/intrusive_list.rs:296-304 | A leaf is linked exactly if it is an element of the ring; its two pointers are null together. |
| `IntrusiveList.IntrusiveList.Link` | src/intrusive_list.rs:158-181 | Appends the leaf at the tail, or does nothing if it is linked; the ring stays well formed. |
| `IntrusiveList.IntrusiveList.Unlink` | src/intrusive_list.rs:202-216 | Removes exactly this leaf, and clears both of its pointers. |
| `IntrusiveList.IntrusiveList.Teardown` | src/intrusive_list.rs:192-217 | Unlinking the head ends, with every leaf and the head unlinked. |
| `IntrusiveList.IntrusiveList.DropLeaf` | src/intrusive_list.rs:307-314 | After the drop of a leaf nothing points to it. |
| `IntrusiveList.VisitOne` | src/intrusive_list.rs:225-243 | One call of the closure, on the next leaf in list order, with the state that the previous calls left. |
| `IntrusiveList.IntrusiveList.Filter` | src/intrusive_list.rs:225-243 | Every linked leaf is visited once, in list order, while leaves are unlinked behind; what is left is exactly the kept subsequence, with the values and the state that the calls produced; it ends. |
| `Sequences.RemoveIsExact` | src/intrusive_list.rs:202-216 | Removing an element keeps the others, their order and that there are no duplicates. |
| `AlarmSpec.StepKeepsInv` | src/alarm_clock.rs:279-488 | In every state an alarm is linked exactly if its waker is stored, a linked alarm's deadline is still to come, and a threshold implies a registered provider. |
| `AlarmRuns.Refinement` | src/alarm_clock.rs:279-488 | Every operation does to a plain table of deadlines what it should; `advance` fires exactly the due pledges, each once, and returns the exact minimum of the rest, or `None` if there is none. |
| `AlarmRuns.AdvanceFires` | src/alarm_clock.rs:289-309 | `advance` fires exactly the wakers of the linked alarms that have fallen due, each once. |
| `AlarmRuns.AdvanceEarliest` | src/alarm_clock.rs:285-311 | The result of `advance` is the least deadline that is still linked, and `None` exactly if no alarm is. |
| `AlarmRuns.PollIsReadyWhenDue` | src/alarm_clock.rs:453-488 | `alarm_poll` is ready exactly if the clock has reached the deadline, and then changes nothing. |
| `AlarmRuns.PledgedIffLinked` | src/alarm_clock.rs:453-488 | An alarm awaits its deadline exactly if it is linked, and then the deadline is after the clock. |
| `AlarmRuns.AlarmSoundness` | src/alarm_clock.rs:279-311 | In every run after a pending poll for deadline t, until the alarm is touched: its wakers are fired not at all while the clock is before t, and exactly once, with the waker of that poll, from then on; the operation that fires it is the one that moves the clock to t or later. |
| `AlarmRuns.RingsAreDistinct` | src/alarm_clock.rs:148-157 | No operation fires the same alarm twice, and only `advance` fires alarms. |
| `AlarmRuns.FirstLinkedRingsFirst` | src/alarm_clock.rs:279-311 | In every run: of two alarms that one `advance` makes due, and that were not touched since the later of them was linked, the one linked first rings first. |
| `AlarmRuns.ToldAtMostOnce` | src/alarm_clock.rs:279-488 | In every run without another registration, the provider's waker has been fired exactly once and its slot is empty, or it was not fired and is still registered. |
| `AlarmRuns.RegisterThenAdvance` | src/alarm_clock.rs:279-334 | Register with `None`, then `advance` returning m: whatever the alarms do in between and afterwards, the provider's waker was fired exactly once, or it is still registered and no linked alarm is due before m. |
| `AlarmRuns.AdvanceThenRegister` | src/alarm_clock.rs:279-334 | The same for `advance` returning m, then register with m, if no alarm is polled in between. |
| `AlarmRuns.ThresholdIsExact` | src/alarm_clock.rs:470-485 | After the provider registered with m: it is woken, once, if some alarm is polled whose deadline is still to come and before m, and otherwise it is not woken and its registration stays as it was. |
| `AlarmRuns.RegistrationIsSafe` | src/alarm_clock.rs:325-334 | In all continuations the provider's waker is fired exactly once, or is still registered with no linked alarm due before m, if and only if no linked alarm is due before m when it registers with m; and it is fired by polls of earlier alarms only. |
| `AlarmRuns.SafeUnlessLeftBehind` | src/alarm_clock.rs:279-334 | `advance` returning m, then register with m, is safe if and only if, in between, no alarm was polled with a deadline still to come and before m and left neither set nor dropped. |
| `AlarmRuns.PollInBetweenIsMissed` | src/alarm_clock.rs:319-321 | A run in which an alarm polled between `advance` and the registration is missed. |
| `AlarmClock.SweepIsExact` | src/alarm_clock.rs:288-310 | The closure of `advance`, folded over the list, keeps the alarms that are not due, fires the others and accumulates the minimum. |
| `AlarmClock.AlarmClock.Advance` | src/alarm_clock.rs:279-311 | Performs the specified step on the clock and on the list, and returns the minimum and the wakers fired, in list order. |
| `AlarmClock.AlarmClock.ExternalPollNewAlarm` | src/alarm_clock.rs:325-334 | Stores the threshold and the provider's waker. |
| `AlarmClock.AlarmClock.SetAlarm` | src/alarm_clock.rs:419-426 | Drops the registration and sets the deadline. |
| `AlarmClock.AlarmClock.AlarmPoll` | src/alarm_clock.rs:453-488 | Performs the specified step: tells the provider of an earlier deadline, stores the waker and links the alarm, or is ready. |
| `AlarmClock.AlarmClock.DropAlarm` | src/intrusive_list.rs:307-314 | A dropped alarm leaves the list. |
| `WatchSpec.Refinement` | src/watchable_value.rs:165-295 | Every operation does what version counters say: a watch is linked exactly if it has seen the current version; `watch_poll` is ready exactly if it has not, with the current value; `set` wakes exactly the watches that are up to date, each once. |
| `WatchRuns.RefinementRun` | src/watchable_value.rs:165-295 | The same in every run. |
| `WatchRuns.WatchContract` | src/watchable_value.rs:255-295 | After a poll or a check, until the watch is touched: any number of sets fires its waker exactly once and makes the next poll ready with the latest value; no set fires nothing, and the next poll is pending. |
| `WatchRuns.FirstPollIsReady` | src/watchable_value.rs:263-295 | The first poll of a watch is ready with the current value. |
| `WatchRuns.FirstLinkedWakesFirst` | src/watchable_value.rs:165-174 | In every run: of two watches that a `set` wakes, and that were not touched since the later of them was linked, the one linked first is woken first. |
| `WatchableValue.WatchableValue.Set` | src/watchable_value.rs:165-174 | Replaces the value, and unlinks and wakes every linked watch, in list order. |
| `WatchableValue.WatchableValue.WatchPoll` | src/watchable_value.rs:281-295 | Performs the specified step: reads the link state, then links the watch and stores the waker. |
| `WatchableValue.WatchableValue.WatchCheck` | src/watchable_value.rs:255-262 | The same, but always returns the value. |
| `ReaderSpec.PollIsFaithful` | src/tokio_reader_writer.rs:100-179 | Each call delivers the next bytes of the stream: `max_len` of them, or all that is buffered if that is less. It is pending exactly if it has nothing to return and the provider or the source was asked and not ready; it pre-wakes exactly if it consumed bytes or an error. |
| `ReaderSpec.Fidelity` | src/tokio_reader_writer.rs:100-179 | In every run before `drop_read`: the delivered bytes are a prefix of the stream, a chunk shorter than `max_len` leaves the buffer empty, and the end of the stream or the source's error is reported only after the last byte. |
| `ReaderSpec.ReadsWhenThereIsRoom` | src/tokio_reader_writer.rs:111-142 | An open reader reads exactly if the source is ready and nothing is buffered, or more than a quarter of the buffer is free and its middle lies within the next `max_len` bytes (in 64-bit arithmetic). It offers all its free space, and a chunk takes its share of the capacity with it. |
| `ReaderSpec.ErrorSurfacesOnce` | src/tokio_reader_writer.rs:151-163 | The source's error is reported once; every later poll reports the end of the stream. |
| `ReaderSpec.EndedIsFinal` | src/tokio_reader_writer.rs:106-110 | After the end, an error or `drop_read`, nothing more is delivered. |
| `ReaderSpec.DropKeepsTheBuffer` | src/tokio_reader_writer.rs:181-185 | Whatever a reader holds when it is dropped, it keeps its buffer, so the buffered bytes are discarded only if there are none; and it delivers none of them. A reader that holds some is exhibited. |
| `ReaderSpec.WillingCallsDeliver` | src/tokio_reader_writer.rs:100-179 | Calls for which provider and source are ready deliver at least a byte each, until the whole stream is delivered and the reader has ended. |
| `BufferedReader.ReaderIoReader.ConPollRead` | src/tokio_reader_writer.rs:100-179 | Performs the specified step on the buffer and the pending end; the source is only ever asked to fill free space. |
| `BufferedReader.ReaderIoReader.DropReader` | src/tokio_reader_writer.rs:181-185 | Closes the source and forgets a pending end. |
| `FizzBuzz.FizzBuzzUnderBackpressure` | examples/fizz_buzz_sans_io/main.rs:29-63 | In every interleaving of external calls and polls: the words accepted by the output, followed by `send1` and `send2`, are the words for the numbers read so far, in order. |
| `FizzBuzz.SleepsOnlyForGoodReason` | examples/fizz_buzz_sans_io/main.rs:32-61 | While the task waits and has not been woken, the output's slot is full, or every number accepted so far has been read and all its words accepted. |
| `FizzBuzz.PollRegisters` | src/wait_loop.rs:59-69 | A poll that does not end the task leaves its waker registered with the call it waits for. |
| `FizzBuzz.PollWakesNeighbours` | src/wait_loop.rs:59-69 | A poll of the task leaves each neighbour waiting as before or fires its waker, and fires no waker but its own and those the neighbours have stored. |
| `FizzBuzz.EndsWhenAllIsSaid` | examples/fizz_buzz_sans_io/main.rs:48-60 | The task ends only if its reader is gone, or the input was closed and all the words were accepted. |
| `FizzMachine.RunSystemKeepsInv` | examples/fizz_buzz_sans_io/main.rs:29-63 | With the task polled by the scheduler and its neighbours acting while they hold the lock, every interleaving keeps: unless its code is about to run, the task sleeps, or its wake-up is underway. |
| `FizzMachine.SaysWhatItCan` | examples/fizz_buzz_sans_io/main.rs:29-63 | In every run of that machine, whenever the lock is free: the task waits for its output to be read, or has said everything about all the numbers it was given, or has ended because its reader is gone or because the input was closed and everything was said. |
| `FizzBuzzTask.FizzBuzzIO.Poll` | src/wait_loop.rs:59-69 | The loop calls the closure until it waits or is done; it ends, and performs the specified poll. |
| `FizzBuzzTask.FizzBuzzIO.Iterate` | examples/fizz_buzz_sans_io/main.rs:32-61 | One call of the closure on the two exchanges. |

## Left out

- Weak memory orderings: every atomic access is sequentially consistent.
- Wakers as shared pointers (`get_multi_waker`, `Arc` reconstruction, pinning, lifetime extension), builder
  traits and lock guards.
- The panics of `RefCell` borrows, of `link` and `unlink` on a leaf of another list, and of `lock_list` on a
  leaf: methods require what these check.  A waker for a task above 30 is not created.
- Overflow checks: a debug build panics where `half_buf + max_len` overflows; the model wraps.
- `IoPort` (`src/io_port.rs`), whose `try_predrop` does not wake the other role, input values and the thin
  stream, sink and writer adapters.
- `CyclicBufProvider`: its reuse of buffers rests on `BytesMut`, which is not part of this model; a provider
  is any sequence of capacities.
- Clock values that are only partially ordered, such as floating-point numbers.
- ProcMachine.ProcMachine.Tick: the wakes of other threads are finitely many, given by a script that places
  them between any two accesses of the loop; arbitrary interleavings are in `Scheduler`.
- ProcMachine.ProcMachine.ExternalPoll: only wakes land between the tick and the registration; other ticks
  in between are in `Scheduler`.
- Machine.Quiescence: is about exchanges; alarms and watches have their own theorems.
- The order of the drop of a clock or of a watched value before its leaves, which lifetimes exclude.
- Liveness: that a scheduled thread eventually runs, and that a tick with endless outside wakes ends.
