# libsmu streaming engine: a verified model

libsmu streams samples to and from an ADALM1000. Its core is a small concurrent
engine: a client thread writes buffers, one writer thread per channel pushes
them into a bounded queue, and USB callbacks cut the queue into fixed-size
transfers and resubmit them until a run is complete. This project models that
engine and the pieces it depends on, and proves what its users rely on: many
short runs look like one long stream, nothing is lost or invented, every run of
which some transfer was sent ends and says so once. Where that fails, the exact
condition is proved; see "What turned out not to hold".

| file | what it models |
|---|---|
| `OutputPipe.dfy` | one output channel seen from `encode_out`: promise counter, look-ahead slot, fallback slot |
| `OutputRun.dfy` | a run of a two-channel device cut into transfers |
| `OutputDevice.dfy` | the same as classes: channel objects, transfer buffer bytes, sample codes |
| `OutputEngine.dfy` | one channel under every interleaving of client, writer thread and USB thread |
| `OutputClient.dfy` | what the client of that engine can rely on: writes, flushes, pauses and cancels, over whole histories |
| `Transfers.dfy` | submission, resubmission, cancellation and completion of USB transfers |
| `Completion.dfy` | the session's count of devices that are still running |
| `InputPath.dfy`, `ReadRace.dfy` | the input queue: its loops, and `read()`/`flush()` interleaved with arriving samples |
| `Acquisition.dfy` | `get_samples` of the Python bindings |
| `Rate.dfy` | sample-rate arithmetic and the time `end()` waits |
| `Waveform.dfy` | the waveform generators |
| `Getopt.dfy` | the option parser of the command line tool |
| `Monitor.dfy`, `Firmware.dfy` | the text commands that program a firmware image, and the flash that receives them |

Code that changes objects in place is a class whose methods are proved equal to
a function of the old state (`EncodeOut`, `HandleOutTransfer`, `OnInCompletion`,
`Getopt`, `GetSample`, ...); the theorems are about those functions.

## How concurrency is modelled

- Output engine: a step is one access other threads can observe (`Action` in
  `OutputEngine.dfy`). `encode_out` is one step: between its pop and its counter
  update the other threads can only append to the queue and raise the counter.
- The writer thread reads `stop` twice per pass (src/device_m1000.cpp:996-999).
  Both reads are steps. The theorems are about executions in which `off()` does
  not change `stop` between them; `TornReadWipesRest` says exactly what happens
  when it does, and `TornReadIsReachable` that it can. The read of `stop` at the
  end of a pass (1015) is taken together with the second one.
- `read()` takes one snapshot of its counter per pass; the code reads it twice
  (541-542) and the counter can only grow in between.
- There is one client thread, client values are not NaN, and channel modes do
  not change during a run. Queues are bounded sequences, NaN slots are `None`,
  floats are reals.
- `encode_out` lowers the promise counter when a value is peeked and again when
  it is consumed (410), so the counter runs one low per peek. `Counted` states
  this exactly; the continuity theorem asks for one spare value per peek, and
  `OneSparePerRun` shows that one per earlier run is always enough.
- The engine has one channel in full. Of the other one it knows whether it is
  encoded second and whether it is starved, that is, has no value owed and no
  fallback. The client can change that at any time (`OtherChanges`). Just as
  `OutputRun.NoFallbackOnlyAtStart` has it, a starved channel raises its exception
  at position 0 of a noncontinuous run and nowhere else; the transfer is abandoned
  with the value this channel gave for it (src/device_m1000.cpp:455-457).
- Between the call of `flush()` and its last step the writer and the other threads
  go on; the theorems about a flush are about the call and every schedule after it.
- A run begins only when no transfer of the previous one is being filled or will
  be resubmitted. A run started after `end()` timed out with transfers still in
  flight (src/session.cpp:601-604) is not covered.
- A history with a continuous run is outside `Promised`: after a pending peek the
  counter of a continuous run can wrap (`OutputClient.WrapIsReachable`).
  `ContinuousStream` covers histories of continuous runs only.
- Buffers satisfy `capacity + 1 + length < 2^32`, which keeps the 32-bit counter
  from wrapping upwards.
- Waits in `flush()` and in the writer are guards. A wakeup that is lost because
  `stop` is set outside the mutex is not modelled.
- `EncodeOut`, `HandleOutTransfer` and `SubmitOutTransfer` require that the
  encoder is not spinning on an empty queue, that is, the wait has ended;
  `WaitEnds` shows that it can, and `EveryScheduleEnds` that it does.
- The phase and levels given to a waveform are numbers; a phase that the code
  computes as NaN is a flag.

## What turned out not to hold

- `OutputPipe.StarvedRunsRepeat`: short runs without spare values repeat a value.
  `CarriesExactly` says when one run continues the stream, `OutputEngine.FedExactly`
  what has to be written before each run of a history, and `UnbrokenExactly` when
  a history is unbroken.
- A starved channel costs the other one a value. `OutputRun.StarvedOtherLosesOne`:
  a run loses a value of the first channel iff one is owed there and the second
  channel is starved; `NeverWrittenCostsOne` is such a device. Over whole histories
  `OutputEngine.LostExactly` says when nothing is lost, `Continuity` that the stream
  is then whole, and `AttendedIsGuarded` what a client has to do for it;
  `LossIsReachable` is a history that loses a value.
- `OutputEngine.TornReadWipesRest`: a pause seen between the two reads of `stop`
  wipes the unpushed rest of the buffer; the promise survives exactly when as
  many values had been charged to peeks.
- `OutputEngine.FlushLeaves`: a flush empties the channel iff at the call there is
  no look-ahead and no buffer that the writer has not picked up.
  `LeftoverIsReachable` is a history in which a flushed value is still there.
- `OutputEngine.FlushCanHang`: a flush can wait forever, with the device locked,
  because the writer resets `stop` when it picks up a buffer
  (src/device_m1000.cpp:990-994). It can iff at the call a writer thread has a
  buffer to pick up that is cyclic or longer than the room in the queue;
  `FlushEndsExactly` says when a flush under way can still end, and
  `HungIsReachable` is a history that hangs.
- `OutputClient.PauseForgotten`: off() does not stop a writer that has a buffer to
  pick up, for the same reason. `OffPauses` says which writers it stops, and
  `PauseHolds` that they stay so.
- `OutputClient.WrapIsReachable`: in a continuous run after a peek the counter wraps
  to 2^32 - 1; `CounterIs` says what it is in every mode.
- `InputPath.PaddingCanEnter`: after a drop, a client that reads during the run
  can receive padding. `PaddingExactly` gives the guard of the transfers that let
  it in; `NoDropNoPadding` shows that it takes a drop.
- `Transfers.CompletionExactlyOnce`: completion is never signalled when nothing was
  sent; `SentExactly` says when that is.
- `Completion.NotifiedTwice`, `OneDevice`: a device that finishes before `start()`
  has counted it makes the client hear of one run twice, or not at all.
  `NotifiedAtCatchUps` counts the notifications of any history and `NotifiedOnce`
  says when there is one, at the end. The wait in `end()` is right in any case
  (`WaitsForAll`).
- `Rate.SlowRateDrifts`: configuring a rate that was reported back can change it;
  `RateFixedExactly` says when.
- `Rate.WaitCoversRun`: the wait of `end()` covers a run if and only if its length
  fits in 32 bits, because the count is narrowed. `Rate.WaitMissesTrueRate`:
  measured by the clock instead of the reported integer rate, the wait can also be
  too short for rates that were rounded up; `TrueWaitExactly` says when.
- `Waveform.ShortSawtooth`: below a period of 2 the sawtooth can divide by zero.
  `Waveform.ZeroPeriod`: with a period of 0 only the first sample has a phase.
  `Waveform.SawtoothBounded`: a sawtooth that starts exactly one period back leaves
  the levels at its first sample iff the period is a whole number.
  `Waveform.Signal.Fill`: the loop of a generator does not end for 2^32 samples.
- `Getopt.ExactNameCanBeAmbiguous`: an exact long option name is rejected when it
  also begins another name; `LongRecognised` gives the exact condition, with and
  without `=value`.
- `OutputDevice.CodeStepsDown`: with some calibrations a larger current gets a
  smaller code; `OrderedExactly` says with which.
- `Monitor.CommitDecodes`: from page 256 on the commit command does not fit its
  buffer and loses its terminator, so those pages are never written;
  `Firmware.ImageStored` says which images survive. The model goes on sending;
  in the code the reply that does not come makes `samba_usb_read` throw
  (src/session.cpp:141-147), which ends the session with the same pages written.

## Model

| member | source | states |
|---|---|---|
| `OutputPipe.EncodeKeepsBacked` | src/device_m1000.cpp:386-424 | with a backed promise a noncontinuous encoding never spins, the promise stays backed, and the no-fallback exception is raised iff nothing is owed and no fallback exists |
| `OutputPipe.EncodeTakesFront` | src/device_m1000.cpp:386-411 | an owed value comes off the front of look-ahead plus queue, a peek leaves it at the front, a fallback changes nothing |
| `OutputPipe.EncodeIgnoresTail` | src/device_m1000.cpp:386-411 | values pushed behind the head change neither the emitted value nor the rest of the effect |
| `OutputPipe.EncodeAt` | src/device_m1000.cpp:386-424 | each encoded position of a run moves the channel one step along the closed form and emits its value there |
| `OutputPipe.AfterRun` | src/device_m1000.cpp:386-411 | a whole run removes exactly the carried values from the source; the peeked one stays first; the counter is one low if something was peeked |
| `OutputPipe.CarriesExactly` | src/device_m1000.cpp:386-424 | a run continues the stream, using up as many values as it has samples, iff as many are owed at its start; otherwise the first position beyond them repeats a value |
| `OutputPipe.WholeTransfersCarryOn` | src/device_m1000.cpp:386-459 | two runs of whole transfers need no spare value |
| `OutputPipe.StarvedRunsRepeat` | src/device_m1000.cpp:386-424 | counterexample to continuity without spare values: a peeked value is sent twice (the exact condition is `CarriesExactly`, and `OutputEngine.UnbrokenExactly` for whole histories) |
| `OutputRun.FillMoves` | src/device_m1000.cpp:445-476 | a transfer without exception advances the run by exactly its number of slots |
| `OutputRun.FillClosed` | src/device_m1000.cpp:445-476 | a transfer that starts inside the run sets every slot, encodes up to the look-ahead position only, and pads with the last codes |
| `OutputRun.RunFrom` | src/device_m1000.cpp:445-503 | the remaining transfers from any position follow the position-by-position form of the run |
| `OutputRun.RunShape` | src/device_m1000.cpp:445-503 | a run of N in transfers of S has S*ceil(N/S) slots: the owed values in order, then the last one or the earlier fallback; one padding value from N on; min(N+1, S*ceil(N/S)) encodings per channel |
| `OutputRun.NoFallbackOnlyAtStart` | src/device_m1000.cpp:412-424 | the no-fallback exception is raised iff a channel starts with nothing owed and no fallback, and then at position 0 |
| `OutputRun.StarvedOtherLosesOne` | src/device_m1000.cpp:412-459 | a run of a device with a sourcing first channel sends nothing and loses values of that channel iff one is owed there and the second channel is starved; then exactly the first value is gone |
| `OutputRun.NeverWrittenCostsOne` | src/device_m1000.cpp:412-459 | counterexample to losing nothing: one value owed to the first channel, a sourcing second channel that was never written |
| `OutputDevice.VoltageCodeError` | src/device_m1000.cpp:427-430 | without calibration a voltage in range is sent within one code step |
| `OutputDevice.CurrentCodeError` | src/device_m1000.cpp:431-441 | without calibration a current in range is sent within one code step, and zero as the code of an idle output |
| `OutputDevice.CalibratedCode` | src/device_m1000.cpp:427-442 | for any calibration, a voltage less the offset times the positive gain, or a current less the offset times the gain of its sign, is sent within one code step, or as the end of the range |
| `OutputDevice.CodeMonotone` | src/device_m1000.cpp:371-442 | larger values get no smaller codes, clamping and both gain branches included, under that condition where the sign changes |
| `OutputDevice.OrderedExactly` | src/device_m1000.cpp:431-442 | the codes of all sourced currents are in order iff the code of -(offset*gain_n) is at most that of -(offset*gain_p), clamping and rounding included |
| `OutputDevice.OutOfOrder` | src/device_m1000.cpp:431-442 | otherwise some positive current gets a smaller code than zero |
| `OutputDevice.CodeStepsDown` | src/device_m1000.cpp:431-441 | counterexample: a calibration under which a larger current is sent as a smaller code |
| `OutputDevice.SlotsApart` | src/device_m1000.cpp:450-471 | words of different slots or channels never overlap, in both firmware layouts |
| `OutputDevice.SlotInBuffer` | src/device_m1000.cpp:450-471 | all words lie inside the transfer buffer |
| `OutputDevice.OutputChannel.constructor` | src/device_m1000.hpp:91-164 | a new channel owes nothing and has neither look-ahead nor fallback |
| `OutputDevice.OutputChannel.EncodeOut` | src/device_m1000.cpp:380-443 | in place, exactly the value selection of the channel, and the code of the value |
| `OutputDevice.OutputDevice.StartRun` | src/device_m1000.cpp:938-939 | a run resets position and count and keeps both channels |
| `OutputDevice.OutputDevice.PutSlot` | src/device_m1000.cpp:461-471 | the two codes land at the bytes of their packet and slot, A before B, high byte first, in the layout of the firmware; every other slot keeps its contents |
| `OutputDevice.OutputDevice.EncodeSlot` | src/device_m1000.cpp:455-459 | channel A, then B, or the previous codes past the look-ahead; an exception on B leaves A advanced |
| `OutputDevice.OutputDevice.HandleSlot` | src/device_m1000.cpp:451-473 | one pass of the inner loop reaches the next slot of the transfer or stops with its exception |
| `OutputDevice.OutputDevice.HandlePacket` | src/device_m1000.cpp:449-474 | a packet reaches the next packet's first slot, all earlier slots still holding their codes |
| `OutputDevice.OutputDevice.HandleOutTransfer` | src/device_m1000.cpp:445-476 | packet by packet and slot by slot the bytes of the buffer are the codes of A and B, at 4i side by side or at 2i and 512 + 2i, all slots when there was no exception; the device is where the transfer leaves it |
| `OutputDevice.OutputDevice.SubmitOutTransfer` | src/device_m1000.cpp:478-503 | submits iff positions remain; an exception is stored iff the run is not done |
| `OutputDevice.StopStays` | src/device_m1000.cpp:482-491 | an exception ends a transfer: later slots are not filled |
| `OutputEngine.InitInv` | src/device_m1000.hpp:85-164 | the initial state satisfies all invariants |
| `OutputEngine.ShapedByClient` | src/device_m1000.cpp:593-656 | client steps keep locks, buffer positions and thread states consistent |
| `OutputEngine.ShapedByWriter` | src/device_m1000.cpp:979-1022 | writer steps keep them |
| `OutputEngine.ShapedByUsb` | src/device_m1000.cpp:380-503 | USB steps keep them |
| `OutputEngine.ClientLine` | src/device_m1000.cpp:593-656 | a client step other than a promise or the end of a flush leaves counter and line alone |
| `OutputEngine.PromiseLine` | src/device_m1000.cpp:612-614 | a promise appends its buffer to the line and adds its length to the 32-bit counter without wrapping |
| `OutputEngine.FlushLine` | src/device_m1000.cpp:646-655 | the end of a flush leaves the look-ahead and a buffer not yet picked up, and a counter of zero |
| `OutputEngine.WriterLine` | src/device_m1000.cpp:990-1017 | a writer step moves values along the line without changing it, or cuts it in a flush |
| `OutputEngine.LapLine` | src/device_m1000.cpp:1008-1011 | a new lap of a cyclic buffer is a promise |
| `OutputEngine.EncodedLine` | src/device_m1000.cpp:386-411 | an encoding takes the first value of the line, or charges the counter for a peek, or leaves both alone |
| `OutputEngine.AbandonedLine` | src/device_m1000.cpp:455-491 | a transfer abandoned by the other channel's exception takes one owed value if this channel is encoded first, and nothing otherwise |
| `OutputEngine.AccountedStep` | src/device_m1000.cpp:386-411 | every step keeps: promise backed by the line; written == consumed followed by the line; counter == length of the line less the peeks |
| `OutputEngine.QueuedStep` | src/device_m1000.cpp:988-1013 | every step keeps: entered == consumed followed by look-ahead and queue |
| `OutputEngine.RepeatsStep` | src/device_m1000.cpp:988-1013 | every step keeps: what was pushed of a buffer is whole laps and a prefix |
| `OutputEngine.UnbrokenStep` | src/device_m1000.cpp:445-476 | every step keeps: with no fallback used, what was sent at positions inside runs is what was consumed less what the other channel's exceptions lost |
| `OutputEngine.LossExactly` | src/device_m1000.cpp:412-459 | a step loses a value iff the USB thread takes it, at position 0 of a noncontinuous run, with the second channel starved and a value owed to this one |
| `OutputEngine.LostExactly` | src/device_m1000.cpp:412-459 | over any history nothing is lost iff the USB thread never finds the channel in that state |
| `OutputEngine.AttendedIsGuarded` | src/device_m1000.cpp:412-459 | that is so when the client starts no run with the other channel starved and does not starve it before the first position |
| `OutputEngine.LossIsReachable` | src/device_m1000.cpp:412-459 | a history: two values for the first channel, none for the second, one run; a value is lost and nothing sent |
| `OutputEngine.PacedStep` | src/device_m1000.cpp:445-476 | every step keeps: each complete run has sent as many values as its length, and a run that began with its values owed uses no fallback |
| `OutputEngine.InvStep` | src/device_m1000.cpp:965-1023 | every legal step of any thread keeps all invariants |
| `OutputEngine.InvRuns` | src/device_m1000.cpp:965-1023 | so does every execution |
| `OutputEngine.PromiseAlwaysBacked` | src/device_m1000.cpp:612-656 | over every interleaving, outside a flush, the counter is at most look-ahead + queue + unpushed rest + buffer being handed over |
| `OutputEngine.EnteredIsPrefix` | src/device_m1000.cpp:979-1022 | without a flush, what entered the queue is a prefix of the written buffers, and the rest is what writer and client still hold |
| `OutputEngine.EnteredRepeatsBuffer` | src/device_m1000.cpp:988-1013 | the k-th value pushed of the current buffer is buf[k mod n], through pauses, resumes and laps |
| `OutputEngine.Continuity` | src/device_m1000.cpp:386-411 | if each run begins with its values owed (`FedExactly`), the runs' values, concatenated, are the written stream less what the other channel cost; all that was consumed iff the channel was never exposed to the other one's exception, and then a prefix of the written stream |
| `OutputEngine.RunsEmitTotal` | src/device_m1000.cpp:386-411 | so complete runs of N1..Nr samples on a channel that was never exposed have sent exactly the first N1+...+Nr written values |
| `OutputEngine.UnbrokenExactly` | src/device_m1000.cpp:388-424 | in any history the stream is unbroken iff no position inside a run was encoded with the counter at zero |
| `OutputEngine.FedExactly` | src/device_m1000.cpp:386-411 | over a history without flushes, every run begins with all its values owed iff before each run at least (values sent or lost) + (its length) + (peeks) values were written |
| `OutputEngine.OneSparePerRun` | src/device_m1000.cpp:410 | one spare value per earlier run is always enough |
| `OutputEngine.GenerousIsFed` | src/device_m1000.cpp:386-411 | in what a caller can count: if each run follows a complete one, and the lengths so far, its own and one value per earlier run have been written, every run begins with its values owed |
| `OutputEngine.GenerousContinuity` | src/device_m1000.cpp:386-411 | a caller who writes that much and keeps the other channel from starving gets a prefix of the written stream, of the runs' total length once the last one is complete |
| `OutputEngine.ContinuousStream` | src/device_m1000.cpp:388-411 | continuous runs alone emit a prefix of the written stream, nothing repeated or skipped |
| `OutputEngine.HelpStep` | src/device_m1000.cpp:391-400 | while `encode_out` spins, some writer or client step is enabled that ends the wait or brings its end nearer |
| `OutputEngine.WaitEnds` | src/device_m1000.cpp:391-400 | some schedule of at most fifteen steps of the resumed writer and of a write() or run() under way ends the wait |
| `OutputEngine.EveryScheduleEnds` | src/device_m1000.cpp:391-400 | every schedule without off() ends the wait before the writer and run() have made more steps than the rank, at most fifteen, whatever the client does in between |
| `OutputEngine.StepRefinesPipe` | src/device_m1000.cpp:380-424 | every concurrent step outside a flush is invisible on the sequential channel or is a promise or an encoding of it with the same outcome |
| `OutputEngine.StepOnCourse` | src/device_m1000.cpp:445-503 | every step of a run with nothing more written keeps its slots those of the sequential run, in whole transfers |
| `OutputEngine.NeverThrows` | src/device_m1000.cpp:412-424 | such a run never meets the missing-fallback exception |
| `OutputEngine.ConcurrentRunShape` | src/device_m1000.cpp:445-503 | under every interleaving a run of N in transfers of S fills S*ceil(N/S) slots with the values of the sequential run, fallback and padding included, and leaves the channel as it does |
| `OutputEngine.FlushLeaves` | src/device_m1000.cpp:637-656 | every schedule of a flush() leaves the channel empty iff at the call there is no look-ahead and no buffer that the writer has not picked up |
| `OutputEngine.LeftoverIsReachable` | src/device_m1000.cpp:637-656 | counterexample to an empty channel: a history that ends a flush with the written value still to come |
| `OutputEngine.HungStays` | src/device_m1000.cpp:637-656 | a flush that waits for a writer running on, with a cyclic buffer or one too long for the queue, waits forever, whatever any thread does |
| `OutputEngine.FlushEndsExactly` | src/device_m1000.cpp:637-656 | a flush under way can still end iff it is not in that state |
| `OutputEngine.FlushCanHang` | src/device_m1000.cpp:637-656 | some schedule of a flush() never ends iff at the call an existing writer thread has a buffer to pick up that is cyclic or longer than the room in the queue |
| `OutputEngine.HungIsReachable` | src/device_m1000.cpp:990-1011 | a history that hangs: a cyclic buffer flushed as soon as it is written, with the writer thread waiting for it |
| `OutputEngine.TornReadWipesRest` | src/device_m1000.cpp:996-1017 | off() between the two reads of `stop` wipes the unpushed rest; the promise survives iff the rest is no longer than the peeks so far |
| `OutputEngine.TornReadIsReachable` | src/device_m1000.cpp:996-1017 | an ordinary history reaches that point with a value to lose |
| `OutputClient.WritesArePromised` | src/device_m1000.cpp:593-614 | over any history the buffers of all write() calls but the timed-out ones, read off the actions alone, are the promised ones in order, followed by the one still on its way, through flushes included |
| `OutputClient.WritesArePublished` | src/device_m1000.cpp:600-619 | and the ones the writer is given, with data and mode, followed by the one still on its way |
| `OutputClient.WrittenIsAsked` | src/device_m1000.cpp:593-614 | without cyclic buffers the promised stream is the concatenation of the data of the writes |
| `OutputClient.EmittedIsAsked` | src/device_m1000.cpp:386-411 | a caller who writes enough for each run and keeps the other channel from starving gets that concatenation on the wire, from its first value, of the runs' total length |
| `OutputClient.FlushResumesWrite` | src/device_m1000.cpp:598-614 | on every schedule a flush made by a write ends with that write waiting with its buffer and the device free |
| `OutputClient.NothingAfterStop` | src/device_m1000.cpp:445-503 | after a cancel or an exception nothing is taken from the channel or sent until the next run |
| `OutputClient.OneWayOn` | src/device_m1000.cpp:380-476 | while a transfer is filled exactly one of these is possible: an encoding, this channel's exception, the other one's, or the wait |
| `OutputClient.EncodingFeeds` | src/device_m1000.cpp:412-424 | once a slot was encoded the other channel's exception is impossible until it is starved again |
| `OutputClient.OtherDecides` | src/device_m1000.cpp:412-424 | that exception is due at the first position of a run iff the client left the other channel starved |
| `OutputClient.OffPauses` | src/device_m1000.cpp:996-1001 | off() takes hold of a writer iff it is in its loop and not just leaving it |
| `OutputClient.PauseHolds` | src/device_m1000.cpp:996-1001 | then, whatever the threads do, it pushes at most once more and keeps its buffer until a run resumes it or a flush begins |
| `OutputClient.PauseForgotten` | src/device_m1000.cpp:990-994 | counterexample: a writer with a buffer to pick up resets the pause |
| `OutputClient.CounterIs` | src/device_m1000.cpp:386-411 | in every mode the 32-bit counter is promised less consumed less peeked values, modulo 2^32 |
| `OutputClient.WrapIsReachable` | src/device_m1000.cpp:386-411 | counterexample to a promise that is backed in continuous runs: a history after which the counter is 2^32 - 1 |
| `Transfers.TransferEngine.SubmitInTransfer` | src/device_m1000.cpp:505-520 | in place, the submission step; a refused one cancels and changes no count |
| `Transfers.TransferEngine.SubmitOutTransfer` | src/device_m1000.cpp:478-503 | in place, the submission step with its encoding exception |
| `Transfers.TransferEngine.OnInCompletion` | src/device_m1000.cpp:270-293 | in place, the callback: count down, resubmit unless cancelled, signal when both counts are zero |
| `Transfers.TransferEngine.OnOutCompletion` | src/device_m1000.cpp:306-322 | in place, the out callback |
| `Transfers.TransferEngine.StartTransfers` | src/device_m1000.cpp:942-950 | the two initial loops, each ended by the first failure |
| `Transfers.StartInv` | src/device_m1000.cpp:942-950 | the start establishes the invariant whatever the USB library answers, even when the session was cancelled first |
| `Transfers.StartFlights` | src/device_m1000.cpp:942-950 | with nothing refused two transfers are in flight each way after the start, or the only one the run needs |
| `Transfers.StepInv` | src/device_m1000.cpp:270-322 | every completion or cancel keeps: counts equal transfers in flight, one signal once all have landed, positions are whole transfers |
| `Transfers.LandingWorks` | src/device_m1000.cpp:270-322 | every landing lowers the remaining work, by exactly one while nothing goes wrong |
| `Transfers.RunTerminates` | src/device_m1000.cpp:270-322 | a noncontinuous run ends after at most its initial work in landings |
| `Transfers.CleanRunWorks` | src/device_m1000.cpp:270-322 | while nothing goes wrong every event brings the end nearer by exactly one |
| `Transfers.ErrorFreeRun` | src/device_m1000.cpp:270-322 | in any order of completions exactly ceil(N/S) in- and ceil(N/S) out-transfers, one completion, at the last landing |
| `Transfers.CompletionExactlyOnce` | src/device_m1000.cpp:289-291 | in any mode, with any errors, cancelled before the start or not, completion is signalled once iff all sent transfers have landed and something was sent |
| `Transfers.SentExactly` | src/device_m1000.cpp:942-950 | something is sent iff the first in-submission succeeds, or the first out-transfer is filled and its submission succeeds |
| `Transfers.NothingAfterCancel` | src/session.cpp:656-680 | after a cancel or an error nothing is resubmitted, the transfers in flight land one by one, completion still comes once |
| `Transfers.LandingExactly` | src/device_m1000.cpp:270-322 | what one landing does: its transfer is in flight again iff it completed, nothing is cancelled, the run asks for more and nothing refuses it; cancelled iff it was, or the landing is an error |
| `Transfers.ErrorCancels` | src/device_m1000.cpp:286-288 | a failed transfer or a refused resubmission cancels the session and sends nothing, in both directions |
| `Transfers.NothingAfterError` | src/session.cpp:670-680 | over any history, from an error on nothing is sent, the transfers of that moment land one by one, and completion is signalled once they have |
| `Completion.Session.DeviceStarted` | src/session.cpp:651 | in place, one device more on the wrapping counter |
| `Completion.Session.DeviceDone` | src/session.cpp:682-697 | in place, one device less, and a notification at zero |
| `Completion.ActiveIs` | src/session.cpp:651-685 | the counter is started minus done, modulo 2^32 |
| `Completion.WaitsForAll` | src/session.cpp:601 | once all devices are counted the wait condition holds iff all are done, in whatever order they were interleaved |
| `Completion.NotifiedAtCatchUps` | src/session.cpp:682-697 | for any number of devices in any order the client is notified exactly as often as a completion catches up with the devices counted so far |
| `Completion.NotifiedOnce` | src/session.cpp:651-697 | a run whose devices are all done was notified once, at its last event, iff that event is a completion and none before it caught up |
| `Completion.OneDevice` | src/session.cpp:651-697 | one device: notified iff it was counted before it completed |
| `Completion.NotifiedTwice` | src/session.cpp:651-697 | counterexample: two notifications for one run |
| `InputPath.InputQueue.HandleInTransfer` | src/device_m1000.cpp:665-752 | in place, a transfer of samples is queued or abandoned at the first that does not fit |
| `InputPath.InputQueue.Skip` | src/device_m1000.cpp:528-536 | with n > samples queued exactly the n - samples oldest are popped, with n <= samples none; what arrives meanwhile is queued behind |
| `InputPath.InputQueue.Read` | src/device_m1000.cpp:522-577 | with samples arriving after any pop or wait, returns the next samples in order: min(requested modulo 2^32, all that had come when the last pass began); fewer only when the time was up; with `skip` and n > samples queued it returns exactly the newest ones, from old sample n - samples on; the rest stays queued |
| `InputPath.ReceiveClosed` | src/device_m1000.cpp:742-749 | one transfer: the requested samples that fit are queued in order, the first that does not is dropped and recorded |
| `InputPath.ReceiveAllClosed` | src/device_m1000.cpp:742-749 | the same for the rest of a run from any position |
| `InputPath.RunInput` | src/device_m1000.cpp:742-749 | with nothing read, exactly the first min(N, C) samples are queued, padding never, and a drop is recorded iff N > C |
| `InputPath.NoDropNoPadding` | src/device_m1000.cpp:742-749 | however the client reads, without a drop exactly the requested samples enter |
| `InputPath.TransferAdmits` | src/device_m1000.cpp:742-749 | one transfer lets padding in iff the driver has counted fewer samples than were delivered, and transfer and free room exceed what is left of the run |
| `InputPath.PositionsCarry` | src/device_m1000.cpp:742-749 | the samples that enter are the device's samples at the computed positions, in order |
| `InputPath.PaddingExactly` | src/device_m1000.cpp:742-749 | over a whole run with any reads, padding enters iff some transfer meets that guard in the state it arrives in |
| `InputPath.PaddingCanEnter` | src/device_m1000.cpp:742-749 | counterexample: after a drop, a read during the run lets padding in |
| `ReadRace.BalancedStep` | src/device_m1000.cpp:522-577 | every step keeps counter and queue apart by the updates in progress only |
| `ReadRace.FifoStep` | src/device_m1000.cpp:522-577 | every step keeps: arrived == taken followed by queued |
| `ReadRace.NeverFabricates` | src/device_m1000.cpp:532-553 | over every interleaving no pop finds the queue empty, and samples leave in order of arrival |
| `ReadRace.BlockingReadIsExact` | src/device_m1000.cpp:538-558 | a read that does not time out returns exactly the requested number, consecutive samples |
| `ReadRace.CounterIsLength` | src/device_m1000.cpp:742-749 | between updates the counter is the queue length |
| `ReadRace.SnapshotTakesAll` | src/device_m1000.cpp:539-544 | a pass of read() takes all that is queued and counted, or what is still wanted |
| `ReadRace.ReadReturns` | src/device_m1000.cpp:522-577 | over every interleaving a read returns consecutive input samples from the oldest queued at the call, or with `skip` from the oldest of the newest n counted then; as many as asked, or what it has when the time is up |
| `ReadRace.FlushEmpties` | src/device_m1000.cpp:658-662 | a flush leaves an empty queue and a counter of zero |
| `Acquisition.RunFillsQueue` | src/device_m1000.cpp:742-749 | a run of n <= capacity into an empty queue leaves exactly its first n samples, no drop |
| `Acquisition.Session.RunAndRead` | src/session.cpp:563-579 | a run and a read on every device return its n samples and leave the queues empty |
| `Acquisition.Session.GetSamples` | bindings/python/pysmu/libsmu.pyx:356-387 | terminates, no chunk overflows, every device's list is the chunked acquisition, queues empty again |
| `Acquisition.AcquiredAt` | bindings/python/pysmu/libsmu.pyx:372-387 | the result has exactly the requested length, and sample i is position i mod max of run i / max |
| `Rate.RateSettings.Configure` | src/device_m1000.cpp:340-353 | in place, the period, reported rate, packets and samples per transfer |
| `Rate.ClampInactive` | src/device_m1000.cpp:340-344 | for rates 1000..100000 the clamp is not used |
| `Rate.RateError` | src/device_m1000.cpp:340-349 | the reported rate is within 3r/(4m) + 1/2 of the requested one, at most 313 samples per second |
| `Rate.RateMonotone` | src/device_m1000.cpp:340-349 | a larger request never sets a smaller rate |
| `Rate.RateFixedPoint` | src/device_m1000.cpp:340-349 | a reported rate above twice its period is configured to itself |
| `Rate.RateFixedExactly` | src/device_m1000.cpp:340-349 | it is configured to itself iff (4m-1)s <= 2*clock < (4m+3)s |
| `Rate.SlowRateDrifts` | src/device_m1000.cpp:340-349 | counterexample: 6902 gives 6903 gives 6904 |
| `Rate.TransferWithinSecond` | src/device_m1000.cpp:352-353 | a transfer holds at most one second of samples |
| `Rate.TransfersHoldBuffer` | src/device_m1000.cpp:351-353 | two transfers hold the buffer time, counted at one clock period per sample, and with any fewer packets they would not |
| `Rate.WaitCoversRun` | src/session.cpp:593-601 | the padded run takes strictly less time at the reported rate than end() waits, iff N fits in 32 bits |
| `Rate.TrueWaitExactly` | src/session.cpp:593-601 | by the clock, the padded run ends before the wait iff N fits in 32 bits and (excess of the reported rate) * (seconds waited) < (two periods) * (slack in samples) |
| `Rate.TrueWaitCovers` | src/session.cpp:593-601 | always so for rates that are exact or rounded down, and for others while the gathered excess is below the least slack |
| `Rate.TrueWaitMisses` | src/session.cpp:593-601 | never from the length on at which the excess reaches two seconds of samples |
| `Rate.WaitMissesTrueRate` | src/session.cpp:593-601 | such a run: 2^22 samples at period 23988 |
| `Waveform.Signal.GetSample` | src/signal.cpp:96-156 | in place, for every period, the value of the current phase, and the phase advanced; no value where the code divides by zero |
| `Waveform.Signal.Ramp` | src/signal.cpp:119-139 | the sawtooth part, with the end points of the cycle the phase is in |
| `Waveform.Signal.Wave` | src/signal.cpp:116-149 | the other waveforms at a normalised phase |
| `Waveform.Signal.Fill` | src/signal.cpp:38-40 | appends exactly the next samples, one per pass; the loop ends iff the count fits its 32-bit index |
| `Waveform.Signal.Constant` | src/signal.cpp:19-27 | stores the value and appends copies of it |
| `Waveform.Signal.Generate` | src/signal.cpp:29-94 | stores the parameters and appends the samples from there, as `Fill` does |
| `Waveform.FModShifts` | src/signal.cpp:113 | one phase step drops whole periods only and stays within one period |
| `Waveform.PhaseRecurrence` | src/signal.cpp:108-113 | the k-th normalised phase is ((phase + k) mod P)/P, in [0,1), from any start in [-P, P) |
| `Waveform.SamplesBounded` | src/signal.cpp:116-149 | square, stairstep, triangle and sine samples stay between the levels; a stairstep has at most ten |
| `Waveform.SquareDuty` | src/signal.cpp:116-117 | sample k of a square is v1 iff (phase + k) mod P < duty*P |
| `Waveform.SampleAt` | src/signal.cpp:141-149 | sample k of a stairstep, triangle or sine in closed form from (phase + k) mod P: ten equal stairs, straight lines there and back, the cosine |
| `Waveform.Extremes` | src/signal.cpp:142-149 | a period of the other waveforms begins at v2; triangle and sine reach v1 half way, a stairstep in its last tenth |
| `Waveform.Repeats` | src/signal.cpp:108-149 | from a nonnegative start a waveform of period p/q repeats every p samples |
| `Waveform.ZeroPeriod` | src/signal.cpp:108-149 | with a period of 0 every sample from the second on has no phase: a square stays at v2, the others have no value; before that a square is at v1 iff the phase is negative |
| `Waveform.NegativePeriodReverses` | src/signal.cpp:108-113 | a negative period gives at every sample the mirrored phase of the positive one, 1 - n for n and 0 for 0 (1 at a start one whole period back) |
| `Waveform.SawtoothNext` | src/signal.cpp:113-139 | the next phase is the next step of the same cycle or step 0 of a new one |
| `Waveform.SawtoothCycle` | src/signal.cpp:119-139 | every cycle starts at v2, ends at v1, is linear in the step, for any real period >= 2 |
| `Waveform.SawtoothBefore` | src/signal.cpp:119-139 | from a negative phase the step counts back from the end of a cycle |
| `Waveform.SawtoothBounded` | src/signal.cpp:119-139 | for a period of at least 2 and distinct levels, from any start in [-P, P) a sawtooth sample lies between the levels iff it is not the first one at phase -P of a whole period |
| `Waveform.ShortSawtooth` | src/signal.cpp:119-139 | below a period of 2: no value iff the fractional phase reaches the period less one |
| `Getopt.Parser.constructor` | src/cli/getopt_internal.c:28-49 | the initial globals: `optind` 1, no cursor |
| `Getopt.Parser.Getopt` | src/cli/getopt_internal.c:51-151 | in place, one step of the parser |
| `Getopt.Parser.TakeLetter` | src/cli/getopt_internal.c:86-146 | its part from the letter under the cursor on, with all three argument kinds |
| `Getopt.Parser.CountMatches` | src/cli/getopt_internal.c:178-183 | the loop counts all options the name begins and finds the last |
| `Getopt.Parser.GetoptLong` | src/cli/getopt_internal.c:156-229 | in place, one step of the long parser |
| `Getopt.StepProgress` | src/cli/getopt_internal.c:60-146 | every call that returns an option advances (words left, characters left); `optind` stays at most argc + 1 |
| `Getopt.LongStepProgress` | src/cli/getopt_internal.c:169-228 | the same for `getopt_long` |
| `Getopt.MissingArgument` | src/cli/getopt_internal.c:110-125 | `optind` passes argc iff the last letter of the last word lacks its required argument; the answer is ':' or '?' by the first character of the option string |
| `Getopt.KindDeclared` | src/cli/getopt_internal.c:93-107 | a letter is declared by what follows its first occurrence: nothing, one colon, two |
| `Getopt.ParseEnds` | src/cli/getopt_internal.c:60-146 | repeated calls reach -1 for every argv and option string, within argc + 1 |
| `Getopt.ParseLongEnds` | src/cli/getopt_internal.c:169-228 | the same for `getopt_long`, missing arguments included |
| `Getopt.ParseFlags` | src/cli/getopt_internal.c:83-146 | successive calls return the clustered flags of a word in order, '?' for unknown letters |
| `Getopt.ParseWord` | src/cli/getopt_internal.c:83-146 | the letters of one word give its options and the cursor moves past it |
| `Getopt.ParseUndoesPrint` | src/cli/getopt_internal.c:51-151 | any valid rendering of an option list, unknown letters included, is parsed back to exactly that list with its arguments and `optopt`, with `optind` at the first operand |
| `Getopt.MatchesAre` | src/cli/getopt_internal.c:176-183 | the matches are all options the name begins, in order |
| `Getopt.LongAnswer` | src/cli/getopt_internal.c:169-228 | the whole answer to a long option: result, `optarg`, `optind` and the option stored through `longindex` and `flag`, for a value behind '=', in the next word, missing or unwanted, and for names that match none or several |
| `Getopt.LongRecognised` | src/cli/getopt_internal.c:176-228 | a name, with or without `=value`, is recognised as an option iff it begins that option's name and no other, and the option takes the argument that is there and has the one it requires |
| `Getopt.ParseLongUndoesPrint` | src/cli/getopt_internal.c:156-229 | the round trip for `getopt_long`: any mixture of letter words and long options, abbreviated or not, is parsed back to exactly what was written, with its arguments |
| `Getopt.ExactNameCanBeAmbiguous` | src/cli/getopt_internal.c:176-228 | counterexample: an exact name that begins another one |
| `Monitor.UnhexHex` | src/session.cpp:240-247 | a printed hexadecimal number is read back |
| `Monitor.HexWidth` | src/session.cpp:240-247 | a number is printed in exactly its field width iff it fits |
| `Monitor.WordDecodes` | src/session.cpp:240 | every word command reads back as its address and word |
| `Monitor.CommitDecodes` | src/session.cpp:246 | a commit command reads back as its page, or, from page 256 on, as nothing |
| `Monitor.TextMeans` | src/session.cpp:223-267 | every command of the session, status request and start included, read from its text, does what it is for |
| `Monitor.TextsMean` | src/session.cpp:223-267 | so does every stream of them |
| `Firmware.PassPrograms` | src/session.cpp:237-260 | one pass puts its word at its place, the last pass of a page commits exactly that page |
| `Firmware.PassesProgram` | src/session.cpp:237-260 | after any number of passes the full pages are committed once each, in order, and the latch holds the rest |
| `Firmware.SessionPrograms` | src/session.cpp:223-267 | the text stream of a session programs exactly the pages with two-digit numbers, asks for the status once after the erasure and once per page, and only then sets the chip to its flash and starts it |
| `Firmware.ImageStored` | src/session.cpp:190-260 | the flash holds the image iff every byte from offset 65536 on is 0xFF |
| `Firmware.Load` | src/session.cpp:192-197 | the padded buffer: whole pages, at least one byte and at most a page more, starting with the image |
| `Firmware.SendPages` | src/session.cpp:234-260 | the loop sends exactly the stream, and page * 256 is the padded size at the end |
| `Firmware.FlashDevice` | src/session.cpp:190-267 | for every device: pages committed once each in order, image stored under the condition above, whatever the padding held, status requests counted, started from flash at the end |

## Left out

- libusb calls, control transfers, probing, hotplug, handle management: foreign I/O; submissions and completions are steps with a status.
- A transfer completes as cancelled only after the session was cancelled.
- Sleeps, time-outs and wall-clock waits: any step may be delayed; a `write()` or `read()` time-out is a step.
- Re-raising a stored USB-thread exception in `write()` and `read()`: only that it is stored is modelled.
- Exit of the writer threads (`stop` = -1) and destruction of a device.
- The data race on the session's plain `unsigned` device counter: its updates are single steps.
- Switching from a noncontinuous run with a pending peek straight to a continuous run.
- IEEE-754 rounding: reals, and exact rationals for rates; the cosine is a parameter.
- The 3 MHz clock of old firmware and the Windows buffer time in `configure`.
- Decoding of input samples (ADC multiplexer variants, calibration): input samples are opaque values.
- Calibration file parsing, LED, serial number and mode setting, overcurrent: flat branches.
- Allocation and release of transfers, the Windows keep-alive of the USB thread.
- The Python `Channel` and `Device` wrappers, the command line tool around the parser, the examples.
- Session device lists (`add`, `remove`, `scan`), and the `-EBUSY` answer of `run` in continuous mode.
- Parallel flashing of several devices, replies of the boot monitor, and the erase wait: the stream for one device is modelled.
- The flash is an abstract latch-and-commit memory; images are smaller than 1 GiB so that word addresses stay below the controller's registers.
- Null elements of `argv` before `argc`.
- InputPath.InputQueue.Read: a sample and its count arrive together, between two accesses of the client; their interleaving is in `ReadRace`.
- Transfers that are still in flight when the next run begins.
- OutputDevice.OutputDevice.HandleOutTransfer: the codes start at 0 where the code leaves them unset; `RunShape` shows that no slot of a run keeps them.
