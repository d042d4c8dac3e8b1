/**
 * What the client of the output engine can rely on: every write ends up with
 * the writer, and a run that was stopped stays stopped.
 */
module OutputClient {
  import opened Wrappers
  import opened OutputPipe
  import opened OutputEngine

  // ---- Writes, read off the actions alone ----

  /** The buffers asked for so far; a time-out takes back the write that was waiting. */
  function AskedBy(asked: seq<Buffer>, a: Action): seq<Buffer> {
    if a.Write? then asked + [a.b]
    else if a.TimeOut? && asked != [] then asked[..|asked| - 1]
    else asked
  }

  function Asked(asked: seq<Buffer>, acts: seq<Action>): seq<Buffer>
    decreases |acts|
  {
    if acts == [] then asked else Asked(AskedBy(asked, acts[0]), acts[1..])
  }

  function Data(buffers: seq<Buffer>): seq<real> {
    if buffers == [] then [] else Data(buffers[..|buffers| - 1]) + buffers[|buffers| - 1].data
  }

  // ---- What becomes of them ----

  /** The buffer write() has not promised yet. */
  function Unpromised(s: State): seq<Buffer> {
    if s.client.Flushing? && s.client.retry.Some? then [s.client.retry.value]
    else if s.client.Waiting? then [s.client.b]
    else []
  }

  /** The buffer write() has not given to the writer yet. */
  function Unpublished(s: State): seq<Buffer> {
    Unpromised(s) + if s.client.Handing? then [s.client.b] else []
  }

  /** The buffer a step of write() promises: what it adds to the promised values, and the mode it goes on with. */
  function PromisedBy(s: State, a: Action): seq<Buffer>
    requires Legal(s, a)
  {
    var t := Step(s, a);
    if a.Promise? && t.client.Handing? && |s.h.flow.written| <= |t.h.flow.written| then
      [Buffer(t.h.flow.written[|s.h.flow.written|..], t.client.b.cyclic)]
    else []
  }

  /** The buffer a step gives to the writer. */
  function PublishedBy(s: State, a: Action): seq<Buffer>
    requires Legal(s, a)
  {
    if a.Publish? then [Buffer(Step(s, a).w.buf, Step(s, a).w.cyclic)] else []
  }

  /** All of a history; the laps of a cyclic buffer are not among them. */
  function Promises(s: State, acts: seq<Action>): seq<Buffer>
    requires Runs(s, acts)
    decreases |acts|
  {
    if acts == [] then [] else PromisedBy(s, acts[0]) + Promises(Step(s, acts[0]), acts[1..])
  }

  function Published(s: State, acts: seq<Action>): seq<Buffer>
    requires Runs(s, acts)
    decreases |acts|
  {
    if acts == [] then [] else PublishedBy(s, acts[0]) + Published(Step(s, acts[0]), acts[1..])
  }

  /**
   * Every write that does not time out is promised, in order and once, with a
   * flush before it or not; the last one may still be on its way.
   */
  lemma {:induction false} WritesArePromised(s: State, done: seq<Buffer>, acts: seq<Action>)
    requires Runs(s, acts)
    ensures Asked(done + Unpromised(s), acts) == done + Promises(s, acts) + Unpromised(Final(s, acts))
    decreases |acts|
  {
    if acts != [] {
      PromiseMoves(s, done, acts[0]);
      WritesArePromised(Step(s, acts[0]), done + PromisedBy(s, acts[0]), acts[1..]);
      Regroup(done, PromisedBy(s, acts[0]), Promises(Step(s, acts[0]), acts[1..]));
    } else {
      assert done + [] == done;
    }
  }

  lemma PromiseMoves(s: State, done: seq<Buffer>, a: Action)
    requires Legal(s, a)
    ensures AskedBy(done + Unpromised(s), a) == done + PromisedBy(s, a) + Unpromised(Step(s, a))
  {
  }

  /** And every write that does not time out is given to the writer, with its data and its mode. */
  lemma {:induction false} WritesArePublished(s: State, done: seq<Buffer>, acts: seq<Action>)
    requires Runs(s, acts)
    ensures Asked(done + Unpublished(s), acts) == done + Published(s, acts) + Unpublished(Final(s, acts))
    decreases |acts|
  {
    if acts != [] {
      PublishMoves(s, done, acts[0]);
      WritesArePublished(Step(s, acts[0]), done + PublishedBy(s, acts[0]), acts[1..]);
      Regroup(done, PublishedBy(s, acts[0]), Published(Step(s, acts[0]), acts[1..]));
    } else {
      assert done + [] == done;
    }
  }

  lemma PublishMoves(s: State, done: seq<Buffer>, a: Action)
    requires Legal(s, a)
    ensures AskedBy(done + Unpublished(s), a) == done + PublishedBy(s, a) + Unpublished(Step(s, a))
  {
  }

  lemma Regroup<T>(a: seq<T>, b: seq<T>, c: seq<T>)
    ensures (a + b) + c == a + (b + c)
  {
  }

  // ---- Without cyclic buffers the stream is the concatenation of the writes ----

  predicate Straight(a: Action) {
    a.Write? ==> !a.b.cyclic
  }

  predicate AllStraight(acts: seq<Action>) {
    forall k :: 0 <= k < |acts| ==> Straight(acts[k])
  }

  predicate NoLaps(s: State) {
    && !s.w.cyclic && (s.client.Waiting? || s.client.Handing? ==> !s.client.b.cyclic)
    && (s.client.Flushing? && s.client.retry.Some? ==> !s.client.retry.value.cyclic)
  }

  lemma {:induction false} WrittenIsPromised(s: State, acts: seq<Action>)
    requires Runs(s, acts) && NoLaps(s) && AllStraight(acts)
    ensures Final(s, acts).h.flow.written == s.h.flow.written + Data(Promises(s, acts))
    decreases |acts|
  {
    if acts != [] {
      assert Straight(acts[0]) && forall k :: 0 <= k < |acts| - 1 ==> acts[1..][k] == acts[k + 1];
      StraightStep(s, acts[0]);
      WrittenIsPromised(Step(s, acts[0]), acts[1..]);
      DataJoins(PromisedBy(s, acts[0]), Promises(Step(s, acts[0]), acts[1..]));
      Regroup(s.h.flow.written, Data(PromisedBy(s, acts[0])), Data(Promises(Step(s, acts[0]), acts[1..])));
    }
  }

  lemma StraightStep(s: State, a: Action)
    requires Legal(s, a) && NoLaps(s) && Straight(a)
    ensures NoLaps(Step(s, a)) && Step(s, a).h.flow.written == s.h.flow.written + Data(PromisedBy(s, a))
  {
  }

  lemma {:induction false} DataJoins(a: seq<Buffer>, b: seq<Buffer>)
    ensures Data(a + b) == Data(a) + Data(b)
  {
    if b == [] {
      assert a + b == a;
    } else {
      var front, last := b[..|b| - 1], b[|b| - 1];
      DataJoins(a, front);
      assert (a + b)[..|a + b| - 1] == a + front && (a + b)[|a + b| - 1] == last;
      Regroup(Data(a), Data(front), last.data);
    }
  }

  /**
   * Without cyclic buffers the promised stream is what the client asked for:
   * the data of its writes, but for the one that is still waiting.
   */
  lemma WrittenIsAsked(capacity: nat, size: nat, second: bool, acts: seq<Action>)
    requires Runs(Init(capacity, size, second), acts) && AllStraight(acts)
    ensures var s := Final(Init(capacity, size, second), acts);
            s.h.flow.written + Data(Unpromised(s)) == Data(Asked([], acts))
  {
    WrittenFrom(Init(capacity, size, second), acts);
  }

  lemma WrittenFrom(s: State, acts: seq<Action>)
    requires Runs(s, acts) && AllStraight(acts) && NoLaps(s) && s.client.Idle? && s.h.flow.written == []
    ensures var t := Final(s, acts); t.h.flow.written + Data(Unpromised(t)) == Data(Asked([], acts))
  {
    AskedSplits(s, acts);
    WrittenIsPromised(s, acts);
    DataJoins(Promises(s, acts), Unpromised(Final(s, acts)));
  }

  lemma AskedSplits(s: State, acts: seq<Action>)
    requires Runs(s, acts) && s.client.Idle?
    ensures Asked([], acts) == Promises(s, acts) + Unpromised(Final(s, acts))
  {
    WritesArePromised(s, [], acts);
    assert [] + Unpromised(s) == [];
    Regroup([], Promises(s, acts), Unpromised(Final(s, acts)));
  }

  /**
   * Continuity from call to wire: complete runs, attended and generously written
   * for, send the data of the client's writes, in order from the first, and
   * exactly as many values as the runs ask for.
   */
  lemma EmittedIsAsked(capacity: nat, size: nat, second: bool, acts: seq<Action>)
    requires capacity + 1 < WRAP && Runs(Init(capacity, size, second), acts) && AllStraight(acts)
    requires AllPlain(Init(capacity, size, second), acts) && AllGenerous(Init(capacity, size, second), acts)
    requires AllAttend(Init(capacity, size, second), acts)
    ensures var s := Final(Init(capacity, size, second), acts);
            && s.h.flow.emitted <= Data(Asked([], acts))
            && (s.run.pos >= s.run.count ==> |s.h.flow.emitted| == Sum(s.h.log.lengths))
  {
    GenerousContinuity(capacity, size, second, acts);
    WrittenIsAsked(capacity, size, second, acts);
  }

  // ---- A flush goes on to the write it was made for ----

  lemma {:induction false} WriterKeepsClient(s: State, acts: seq<Action>)
    requires Runs(s, acts) && AllByWriter(acts)
    ensures Final(s, acts).client == s.client
    decreases |acts|
  {
    if acts != [] {
      assert ByWriter(acts[0]) && forall k :: 0 <= k < |acts| - 1 ==> acts[1..][k] == acts[k + 1];
      WriterKeepsClient(Step(s, acts[0]), acts[1..]);
    }
  }

  /** On every schedule the end of a flush lets the device go, and a write that made the flush waits with its buffer. */
  lemma FlushResumesWrite(s: State, a: Action, acts: seq<Action>)
    requires Legal(s, a) && Flushes(s, a) && Through(s, a, acts)
    ensures var t := Flushed(s, a, acts);
            t.lock.Free? && t.client == if a.Write? then Waiting(a.b) else Idle
  {
    WriterKeepsClient(Step(s, a), acts);
  }

  // ---- A stopped run stays stopped ----

  predicate Stops(a: Action) {
    a.Cancel? || a.Throw? || a.OtherThrows?
  }

  predicate Stopped(s: State) {
    !s.run.active && !s.lock.Usb?
  }

  predicate NoRun(acts: seq<Action>) {
    forall k :: 0 <= k < |acts| ==> !acts[k].RunBegin?
  }

  /** After a cancel or an exception nothing is taken from the channel or sent until the next run. */
  lemma NothingAfterStop(s: State, a: Action, acts: seq<Action>)
    requires Legal(s, a) && Stops(a) && Runs(Step(s, a), acts) && NoRun(acts)
    ensures var t, u := Step(s, a), Final(Step(s, a), acts);
            && u.run == t.run && u.h.flow.slots == t.h.flow.slots && u.h.flow.emitted == t.h.flow.emitted
            && u.h.flow.consumed == t.h.flow.consumed && u.ch.next == t.ch.next && u.ch.previous == t.ch.previous
  {
    StaysStopped(Step(s, a), acts);
  }

  lemma {:induction false} StaysStopped(t: State, acts: seq<Action>)
    requires Stopped(t) && Runs(t, acts) && NoRun(acts)
    ensures var u := Final(t, acts);
            && u.run == t.run && u.h.flow.slots == t.h.flow.slots && u.h.flow.emitted == t.h.flow.emitted
            && u.h.flow.consumed == t.h.flow.consumed && u.ch.next == t.ch.next && u.ch.previous == t.ch.previous
    decreases |acts|
  {
    if acts != [] {
      assert !acts[0].RunBegin? && forall k :: 0 <= k < |acts| - 1 ==> acts[1..][k] == acts[k + 1];
      StoppedStep(t, acts[0]);
      StaysStopped(Step(t, acts[0]), acts[1..]);
    }
  }

  lemma StoppedStep(t: State, a: Action)
    requires Stopped(t) && Legal(t, a) && !a.RunBegin?
    ensures var u := Step(t, a);
            && Stopped(u) && u.run == t.run && u.h.flow.slots == t.h.flow.slots && u.h.flow.emitted == t.h.flow.emitted
            && u.h.flow.consumed == t.h.flow.consumed && u.ch.next == t.ch.next && u.ch.previous == t.ch.previous
  {
  }

  // ---- What the USB thread can do ----

  /**
   * While it fills a transfer the USB thread can do exactly one thing: encode or
   * pad a position, raise this channel's exception or the other one's, or wait
   * for a value.
   */
  lemma OneWayOn(s: State)
    requires Inv(s) && s.lock.Usb?
    ensures Enabled(s, EncodeStep) || Enabled(s, Throw) || Enabled(s, OtherThrows) || Spinning(s)
    ensures !(Enabled(s, EncodeStep) && Enabled(s, Throw)) && !(Enabled(s, EncodeStep) && Enabled(s, OtherThrows))
    ensures !(Enabled(s, Throw) && Enabled(s, OtherThrows))
    ensures Spinning(s) ==> !Enabled(s, EncodeStep) && !Enabled(s, Throw) && !Enabled(s, OtherThrows)
  {
  }

  predicate Starves(a: Action) {
    a.OtherChanges? && a.starved
  }

  /** Once a slot of a run was encoded the other channel has a fallback, and costs nothing until it is starved again. */
  lemma {:induction false} FedStays(s: State, acts: seq<Action>)
    requires !s.other.starved && Runs(s, acts) && forall k :: 0 <= k < |acts| ==> !Starves(acts[k])
    ensures !Enabled(Final(s, acts), OtherThrows)
    decreases |acts|
  {
    if acts != [] {
      assert !Starves(acts[0]) && forall k :: 0 <= k < |acts| - 1 ==> acts[1..][k] == acts[k + 1];
      FedStays(Step(s, acts[0]), acts[1..]);
    }
  }

  lemma EncodingFeeds(s: State, acts: seq<Action>)
    requires Legal(s, EncodeStep) && Due(s) && Runs(Step(s, EncodeStep), acts)
    requires forall k :: 0 <= k < |acts| ==> !Starves(acts[k])
    ensures !Enabled(Final(Step(s, EncodeStep), acts), OtherThrows)
  {
    FedStays(Step(s, EncodeStep), acts);
  }

  /** The exception comes at the first position of a run, and only as the client left the other channel. */
  lemma OtherDecides(s: State, starved: bool)
    requires Legal(s, OtherChanges(starved))
    ensures Faulty(Step(s, OtherChanges(starved))) <==> starved && s.run.count > 0 && s.run.pos == 0
  {
  }

  // ---- A pause ----

  /** Nothing resumes the writer or flushes the channel. */
  predicate Leaves(s: State, a: Action) {
    !a.RunResume? && !Flushes(s, a)
  }

  predicate AllLeave(s: State, acts: seq<Action>)
    requires Runs(s, acts)
    decreases |acts|
  {
    acts == [] || (Leaves(s, acts[0]) && AllLeave(Step(s, acts[0]), acts[1..]))
  }

  /** The writer is about to leave its loop without another look at `stop`. */
  predicate Leaving(s: State) {
    s.w.pc.Tail? && s.w.it == |s.w.buf| && !s.w.cyclic
  }

  /** The writer is in its loop and will see the pause. */
  predicate Pausing(s: State) {
    s.stop.Pause? && InLoop(s) && !Leaving(s)
  }

  function Pushes(acts: seq<Action>): nat {
    if acts == [] then 0 else (if acts[0].Push? then 1 else 0) + Pushes(acts[1..])
  }

  /** Pushes the writer makes before it sees the pause. */
  function Late(s: State): nat {
    if s.w.pc.Pushing? || s.w.pc.Tail? then 1 else 0
  }

  lemma PausingStep(s: State, a: Action)
    requires Shaped(s) && Pausing(s) && Legal(s, a) && Leaves(s, a)
    ensures var t := Step(s, a);
            Pausing(t) && t.w.buf == s.w.buf && (if a.Push? then 1 else 0) + Late(t) <= Late(s)
  {
  }

  /**
   * off() stops a writer that is in its loop, however the threads go on: it pushes
   * at most once more, its buffer stays, and it waits until a run resumes it.
   */
  lemma {:induction false} PauseHolds(s: State, acts: seq<Action>)
    requires Inv(s) && Pausing(s) && Runs(s, acts) && AllLeave(s, acts)
    ensures var t := Final(s, acts); Pausing(t) && t.w.buf == s.w.buf && Pushes(acts) + Late(t) <= Late(s) <= 1
    decreases |acts|
  {
    if acts != [] {
      PausingStep(s, acts[0]);
      InvStep(s, acts[0]);
      PauseHolds(Step(s, acts[0]), acts[1..]);
    }
  }

  /** The pause takes hold of any writer in its loop except one that is leaving it. */
  lemma OffPauses(s: State)
    requires Legal(s, Off)
    ensures Pausing(Step(s, Off)) <==> InLoop(s) && !Leaving(s)
  {
  }

  /** A writer that has a buffer to pick up forgets the pause when it does. */
  lemma PauseForgotten(s: State)
    requires Inv(s) && Legal(s, Off) && s.w.pc.AtWait? && s.w.buf != []
    ensures Legal(Step(s, Off), Wake) && Step(Step(s, Off), Wake).stop.Go?
  {
  }

  // ---- The 32-bit counter in every mode ----

  /** In a flush-free history the counter is what is still to come less the peeks, modulo 2^32. */
  predicate Modular(s: State) {
    && (s.client.Flushing? ==> s.h.flushed)
    && (!s.h.flushed ==>
          s.ch.avail == (|s.h.flow.written| - |s.h.flow.consumed| - s.h.flow.peeks) % WRAP)
  }

  lemma Wrapped(x: int, y: int)
    ensures (x % WRAP + y) % WRAP == (x + y) % WRAP
  {
    var q := x / WRAP;
    assert x % WRAP + y == x + y - WRAP * q;
    assert x + y == WRAP * ((x + y) / WRAP) + (x + y) % WRAP;
    assert x + y - WRAP * q == WRAP * ((x + y) / WRAP - q) + (x + y) % WRAP;
  }

  /** What a step changes in the counter, before it is taken modulo 2^32. */
  function Change(s: State, t: State): int {
    |t.h.flow.written| - |s.h.flow.written| - (|t.h.flow.consumed| - |s.h.flow.consumed|)
    - (t.h.flow.peeks - s.h.flow.peeks)
  }

  lemma Down(c: Counter)
    ensures Decremented(c) == (c - 1) % WRAP && c == (c + 0) % WRAP
  {
  }

  /** The counter follows the values promised, consumed and peeked. */
  predicate Counts(s: State, t: State) {
    t.ch.avail == (s.ch.avail + Change(s, t)) % WRAP
  }

  lemma EncodedCounts(s: State)
    requires Legal(s, EncodeStep)
    ensures Counts(s, Step(s, EncodeStep))
  {
    Down(s.ch.avail);
  }

  lemma AbandonedCounts(s: State)
    requires Legal(s, OtherThrows)
    ensures Counts(s, Step(s, OtherThrows))
  {
    Down(s.ch.avail);
  }

  lemma WriterCounts(s: State, a: Action)
    requires Legal(s, a) && ByWriter(a)
    ensures Counts(s, Step(s, a))
  {
    Down(s.ch.avail);
  }

  lemma Changes(s: State, a: Action)
    requires Legal(s, a) && !Step(s, a).h.flushed && (s.client.Flushing? ==> s.h.flushed)
    ensures Counts(s, Step(s, a))
  {
    Down(s.ch.avail);
    if a.EncodeStep? {
      EncodedCounts(s);
    } else if a.OtherThrows? {
      AbandonedCounts(s);
    } else if ByWriter(a) {
      WriterCounts(s, a);
    }
  }

  lemma ModularStep(s: State, a: Action)
    requires Modular(s) && Legal(s, a)
    ensures Modular(Step(s, a))
  {
    var t := Step(s, a);
    if !t.h.flushed {
      Changes(s, a);
      Wrapped(|s.h.flow.written| - |s.h.flow.consumed| - s.h.flow.peeks, Change(s, t));
    }
  }

  lemma {:induction false} CounterIs(s: State, acts: seq<Action>)
    requires Modular(s) && Runs(s, acts)
    ensures Modular(Final(s, acts))
    decreases |acts|
  {
    if acts != [] {
      ModularStep(s, acts[0]);
      CounterIs(Step(s, acts[0]), acts[1..]);
    }
  }

  /** A run of one sample has sent the first of two values and peeked at the second; a continuous run follows. */
  function Peeked(): State {
    State(8, 4, Pipe(0, [], Some(2.0), Some(2.0)),
          Writer([1.0, 2.0], false, FirstRead, 2), Run(0, 0, 4, true), Go, Usb, Idle, Other(true, false),
          History(Flow([1.0, 2.0], [1.0, 2.0], [1.0], [true], [1.0], [], 1, 0),
                  Log([1, 0], true, 1, true, true, true), 0, 0, false))
  }

  /** The continuous run takes the value that was paid for when it was peeked: the counter wraps. */
  lemma CounterWraps()
    ensures Legal(Peeked(), EncodeStep) && Step(Peeked(), EncodeStep).ch.avail == WRAP - 1
  {
  }

  lemma WrapIsReachable() returns (acts: seq<Action>)
    ensures Runs(Init(8, 4, true), acts) && Final(Init(8, 4, true), acts).ch.avail == WRAP - 1
  {
    acts := Unfolds(Peeked(), EncodeStep, []);
    CounterWraps();
    acts := PeekedIsReachable(acts);
  }

  /** The same run with its transfer begun. */
  function OneAsked(): State {
    State(8, 4, Pipe(2, [1.0, 2.0], None, None),
          Writer([1.0, 2.0], false, FirstRead, 2), Run(1, 0, 4, true), Go, Usb, Idle, Other(true, false),
          History(Flow([1.0, 2.0], [1.0, 2.0], [], [], [], [], 0, 0),
                  Log([1], true, 0, true, false, true), 0, 0, false))
  }

  lemma PeekedIsReachable(rest: seq<Action>) returns (acts: seq<Action>)
    requires Runs(Peeked(), rest)
    ensures Runs(Init(8, 4, true), acts) && Final(Init(8, 4, true), acts) == Final(Peeked(), rest)
  {
    var s := OneSent();
    var t := Step(s, RunBegin(0));
    var u := Step(t, RunResume);
    assert Step(u, UsbBegin) == Peeked();
    acts := Unfolds(u, UsbBegin, rest);
    acts := Unfolds(t, RunResume, acts);
    acts := Unfolds(s, RunBegin(0), acts);
    acts := OneSentIsReachable(acts);
  }

  function OneSent(): State {
    State(8, 4, Pipe(0, [], Some(2.0), Some(2.0)),
          Writer([1.0, 2.0], false, FirstRead, 2), Run(1, 4, 0, true), Go, Free, Idle, Other(true, false),
          History(Flow([1.0, 2.0], [1.0, 2.0], [1.0], [true], [1.0], [1.0, 2.0, 2.0, 2.0], 1, 0),
                  Log([1], true, 0, true, false, true), 0, 0, false))
  }

  lemma OneSentIsReachable(rest: seq<Action>) returns (acts: seq<Action>)
    requires Runs(OneSent(), rest)
    ensures Runs(Init(8, 4, true), acts) && Final(Init(8, 4, true), acts) == Final(OneSent(), rest)
  {
    var s := OnePadding();
    var t := Step(s, EncodeStep);
    assert Step(t, EncodeStep) == OneSent();
    acts := Unfolds(t, EncodeStep, rest);
    acts := Unfolds(s, EncodeStep, acts);
    acts := OnePaddingIsReachable(acts);
  }

  function OnePadding(): State {
    State(8, 4, Pipe(0, [], Some(2.0), Some(2.0)),
          Writer([1.0, 2.0], false, FirstRead, 2), Run(1, 2, 2, true), Go, Usb, Idle, Other(true, false),
          History(Flow([1.0, 2.0], [1.0, 2.0], [1.0], [true], [1.0], [1.0, 2.0], 1, 0),
                  Log([1], true, 0, true, false, true), 0, 0, false))
  }

  lemma OnePaddingIsReachable(rest: seq<Action>) returns (acts: seq<Action>)
    requires Runs(OnePadding(), rest)
    ensures Runs(Init(8, 4, true), acts) && Final(Init(8, 4, true), acts) == Final(OnePadding(), rest)
  {
    var s := OneAsked();
    var t := Step(s, EncodeStep);
    assert Step(t, EncodeStep) == OnePadding();
    acts := Unfolds(t, EncodeStep, rest);
    acts := Unfolds(s, EncodeStep, acts);
    acts := OneAskedIsReachable(acts);
  }

  lemma OneAskedIsReachable(rest: seq<Action>) returns (acts: seq<Action>)
    requires Runs(OneAsked(), rest)
    ensures Runs(Init(8, 4, true), acts) && Final(Init(8, 4, true), acts) == Final(OneAsked(), rest)
  {
    var s := OneStarted();
    var t := Step(s, Wake);
    var u := Step(t, Push(2));
    assert Step(u, UsbBegin) == OneAsked();
    acts := Unfolds(u, UsbBegin, rest);
    acts := Unfolds(t, Push(2), acts);
    acts := Unfolds(s, Wake, acts);
    acts := OneStartedIsReachable(acts);
  }

  /** Two values have been written, and a run of one sample has been started. */
  function OneStarted(): State {
    State(8, 4, Pipe(2, [], None, None),
          Writer([1.0, 2.0], false, AtWait, 0), Run(1, 0, 0, true), Go, Free, Idle, Other(true, false),
          History(Flow([1.0, 2.0], [], [], [], [], [], 0, 0), Log([1], true, 0, true, false, true), 0, 0, false))
  }

  lemma OneStartedIsReachable(rest: seq<Action>) returns (acts: seq<Action>)
    requires Runs(OneStarted(), rest)
    ensures Runs(Init(8, 4, true), acts) && Final(Init(8, 4, true), acts) == Final(OneStarted(), rest)
  {
    var b := Buffer([1.0, 2.0], false);
    var s0 := Init(8, 4, true);
    var s1 := Step(s0, Write(b));
    var s2 := Step(s1, Promise);
    var s3 := Step(s2, Publish);
    var s4 := Step(s3, OtherChanges(false));
    var s5 := Step(s4, RunBegin(1));
    assert Step(s5, RunResume) == OneStarted();
    acts := Unfolds(s5, RunResume, rest);
    acts := Unfolds(s4, RunBegin(1), acts);
    acts := Unfolds(s3, OtherChanges(false), acts);
    acts := Unfolds(s2, Publish, acts);
    acts := Unfolds(s1, Promise, acts);
    acts := Unfolds(s0, Write(b), acts);
  }
}
