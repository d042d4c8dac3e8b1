/**
 * One sourcing channel of the output engine under every interleaving of the
 * client, the writer thread of the channel, and the USB thread.
 *
 * A step is one access that other threads can observe.  `encode_out` is a
 * single step: between its pop and its counter update the other threads can
 * only push to the far end of the queue and raise the counter.
 */
module OutputEngine {
  import opened Wrappers
  import opened OutputPipe

  /** `m_out_samples_stop`: 0, 1 and 2. */
  datatype Stop = Go | Halt | Pause

  /** Owner of the device lock `m_state`. */
  datatype Lock = Free | Usb | Client

  datatype WriterPc =
    | Absent      // thread not created yet
    | AtWait      // waiting for a buffer, buffer mutex released
    | Pushing     // inside the loop, about to push
    | FirstRead   // about to test stop == 2
    | SecondRead  // about to test stop != 0
    | Tail        // end of the loop body
    | Paused

  datatype Buffer = Buffer(data: seq<real>, cyclic: bool)

  datatype ClientPc =
    | Idle
    | Flushing(retry: Option<Buffer>)  // in flush(), possibly on behalf of a write
    | Waiting(b: Buffer)              // write(): waiting for the previous buffer
    | Handing(b: Buffer)              // write(): promised, not yet swapped in
    | Starting                        // run(): transfers started, writer not resumed

  /** What has happened to the values so far; the driver does not store the history. */
  datatype Flow = Flow(
    written: seq<real>,   // promised, in order
    entered: seq<real>,   // pushed to the queue
    consumed: seq<real>,  // taken out for good
    kept: seq<bool>,      // of the consumed values, which were sent
    emitted: seq<real>,   // sent at positions inside a run
    slots: seq<real>,     // of the current run, look-ahead and padding included
    peeks: nat,
    fallbacks: nat)       // positions inside a run that repeated an old value

  /** The runs so far. */
  datatype Log = Log(
    lengths: seq<nat>,
    whole: bool,          // every run before the current one reached its length
    runStart: nat,        // |emitted| when the current run began
    sampled: bool,        // a noncontinuous run has begun
    continuous: bool,     // a continuous run has begun
    fed: bool)            // every noncontinuous run began with enough promised values

  datatype History = History(
    flow: Flow, log: Log,
    base: nat,            // |entered| when the current buffer was picked up
    laps: nat,            // full passes over the current buffer since then
    flushed: bool)        // a flush has begun

  /** The write buffer of the channel, and where its thread is in pushing it. */
  datatype Writer = Writer(buf: seq<real>, cyclic: bool, pc: WriterPc, it: nat)

  /** `m_sample_count`, `m_out_sampleno`, the rest of the transfer being filled, and whether transfers are submitted. */
  datatype Run = Run(count: nat, pos: nat, left: nat, active: bool)

  /**
   * The other channel, as far as it disturbs this one: whether it is encoded
   * second, and whether it has neither a value owed to it nor a fallback.
   */
  datatype Other = Other(second: bool, starved: bool)

  datatype State = State(
    capacity: nat, size: nat,
    ch: Pipe,             // counter, queue, look-ahead, fallback
    w: Writer, run: Run, stop: Stop, lock: Lock, client: ClientPc,
    other: Other,
    h: History)

  datatype Action =
    | Write(b: Buffer) | Flush | FlushEnd | Promise | TimeOut | Publish
    | RunBegin(samples: nat) | RunResume | Off | Cancel | OtherChanges(starved: bool)
    | Wake | Push(k: nat) | ReadOnce | ReadTwice | Resume | EndPass
    | UsbBegin | EncodeStep | Throw | OtherThrows

  predicate ByClient(a: Action) {
    a.Write? || a.Flush? || a.FlushEnd? || a.Promise? || a.TimeOut? || a.Publish? || a.RunBegin? || a.RunResume? ||
    a.Off? || a.Cancel? || a.OtherChanges?
  }

  predicate ByUsb(a: Action) {
    a.UsbBegin? || a.EncodeStep? || a.Throw? || a.OtherThrows?
  }

  predicate ByWriter(a: Action) {
    !ByClient(a) && !ByUsb(a)
  }

  function Init(capacity: nat, size: nat, second: bool): State {
    State(capacity, size, Pipe(0, [], None, None), Writer([], false, Absent, 0), Run(0, 0, 0, false), Go, Free, Idle,
          Other(second, true),
          History(Flow([], [], [], [], [], [], 0, 0), Log([], true, 0, false, false, true), 0, 0, false))
  }

  // ---- Steps ----

  predicate InLoop(s: State) {
    !s.w.pc.Absent? && !s.w.pc.AtWait?
  }

  /** The current position is encoded rather than padded. */
  predicate Due(s: State) {
    s.run.count == 0 || s.run.pos <= s.run.count
  }

  predicate InRun(s: State) {
    s.run.active && (s.run.count == 0 || s.run.pos < s.run.count)
  }

  predicate Peeks(s: State) {
    s.run.count > 0 && s.run.pos == s.run.count
  }

  /** The encoder has a value owed to it, or is in a continuous run. */
  predicate Owes(s: State) {
    s.run.count == 0 || s.ch.avail > 0
  }

  /** The other channel raises its exception at the position to be encoded. */
  predicate Faulty(s: State) {
    s.other.starved && s.run.count > 0 && s.run.pos == 0
  }

  function EncodeHead(s: State): (Pipe, Outcome) {
    Encode(s.ch, s.run.count == 0, Peeks(s))
  }

  predicate Enabled(s: State, a: Action) {
    match a
    case Write(_) => s.client.Idle? && (s.w.cyclic ==> s.lock.Free?)
    case Flush => s.client.Idle? && s.lock.Free?
    case FlushEnd => s.client.Flushing? && !InLoop(s)
    case Promise => s.client.Waiting? && s.w.buf == []
    case TimeOut => s.client.Waiting?
    case Publish => s.client.Handing? && !InLoop(s)
    case RunBegin(_) => s.client.Idle? && !InRun(s) && !s.lock.Usb?
    case RunResume => s.client.Starting?
    case Off => s.client.Idle?
    case Cancel => s.client.Idle? && !s.lock.Usb?
    case Wake => s.w.pc.AtWait? && s.w.buf != []
    case Push(k) => s.w.pc.Pushing? && s.w.it + k <= |s.w.buf| && |s.ch.pending| + k <= s.capacity
    case ReadOnce => s.w.pc.FirstRead?
    case ReadTwice => s.w.pc.SecondRead?
    case Resume => s.w.pc.Paused? && !s.stop.Pause?
    case EndPass => s.w.pc.Tail? && s.w.it <= |s.w.buf|
    case UsbBegin => s.lock.Free? && InRun(s) && s.size > 0
    case OtherChanges(starved) => s.client.Idle? && (starved ==> s.lock.Free?)
    case EncodeStep => s.lock.Usb? && s.run.left > 0 && !Faulty(s) && (Due(s) ==> EncodeHead(s).1.Emitted?)
    case Throw => s.lock.Usb? && Due(s) && (Faulty(s) ==> s.other.second) && EncodeHead(s).1.NoFallback?
    case OtherThrows => s.lock.Usb? && s.run.left > 0 && Faulty(s) && (s.other.second ==> EncodeHead(s).1.Emitted?)
  }

  function BeginFlush(s: State, retry: Option<Buffer>): State {
    s.(lock := Lock.Client, stop := Halt, client := Flushing(retry), h := s.h.(flushed := true))
  }

  /** write(), flush(), run(), off() and cancel(). */
  function ClientStep(s: State, a: Action): State
    requires Enabled(s, a) && ByClient(a)
  {
    match a
    case Write(b) => if s.w.cyclic then BeginFlush(s, Some(b)) else s.(client := Waiting(b))
    case Flush => BeginFlush(s, None)
    case FlushEnd =>
      s.(ch := s.ch.(pending := [], avail := 0), lock := Free,
         client := if s.client.retry.Some? then Waiting(s.client.retry.value) else Idle)
    case Promise =>
      var data := s.client.b.data;
      s.(ch := s.ch.(avail := Added(s.ch.avail, |data|)), client := Handing(s.client.b),
         h := s.h.(flow := s.h.flow.(written := s.h.flow.written + data)))
    case TimeOut => s.(client := Idle)
    case Publish => s.(w := s.w.(buf := s.client.b.data, cyclic := s.client.b.cyclic), client := Idle)
    case RunBegin(n) =>
      s.(run := s.run.(count := n, pos := 0, active := true), client := Starting,
         h := s.h.(flow := s.h.flow.(slots := []), log := NextRun(s, n)))
    case RunResume =>
      s.(w := if s.w.pc.Absent? then s.w.(pc := AtWait) else s.w,
         stop := if s.stop.Pause? && !s.w.pc.Absent? then Go else s.stop, client := Idle)
    case Off => s.(stop := Pause)
    case Cancel => s.(run := s.run.(active := false))
    case OtherChanges(starved) => s.(other := s.other.(starved := starved))
    case _ => s
  }

  function NextRun(s: State, n: nat): Log {
    var log := s.h.log;
    Log(log.lengths + [n], log.whole && s.run.pos >= s.run.count, |s.h.flow.emitted|,
        log.sampled || n > 0, log.continuous || n == 0, log.fed && (n > 0 ==> n <= s.ch.avail))
  }

  /** The loop of the channel's writer thread. */
  function WriterStep(s: State, a: Action): State
    requires Enabled(s, a) && ByWriter(a)
  {
    match a
    case Wake =>
      s.(stop := Go, w := s.w.(it := 0, pc := Pushing), h := s.h.(base := |s.h.flow.entered|, laps := 0))
    case Push(k) =>
      var part := s.w.buf[s.w.it..s.w.it + k];
      s.(ch := s.ch.(pending := s.ch.pending + part), w := s.w.(it := s.w.it + k, pc := FirstRead),
         h := s.h.(flow := s.h.flow.(entered := s.h.flow.entered + part)))
    case ReadOnce => s.(w := s.w.(pc := if s.stop.Pause? then Paused else SecondRead))
    case ReadTwice => s.(w := if s.stop.Go? then s.w.(pc := Tail) else s.w.(buf := [], it := 0, pc := AtWait))
    case Resume => s.(w := s.w.(pc := Tail))
    case EndPass =>
      if s.w.it < |s.w.buf| then s.(w := s.w.(pc := Pushing))
      else if s.w.cyclic then
        s.(ch := s.ch.(avail := Added(s.ch.avail, |s.w.buf|)), w := s.w.(it := 0, pc := Pushing),
           h := s.h.(flow := s.h.flow.(written := s.h.flow.written + s.w.buf), laps := s.h.laps + 1))
      else s.(w := s.w.(buf := [], it := 0, pc := AtWait))
    case _ => s
  }

  /** A slot that is encoded, or padded with the last one. */
  function Encoded(s: State): State
    requires s.run.left > 0
  {
    var run := s.run.(pos := s.run.pos + 1, left := s.run.left - 1);
    var lock := if s.run.left == 1 then Free else Usb;
    if !Due(s) || !EncodeHead(s).1.Emitted? then
      s.(run := run, lock := lock, h := s.h.(flow := s.h.flow.(slots := Padded(s.h.flow.slots))))
    else
      var (p, o) := EncodeHead(s);
      s.(ch := p, run := run, lock := lock, other := s.other.(starved := false), h := s.h.(flow := Given(s, o.value)))
  }

  function Padded(slots: seq<real>): seq<real> {
    if slots == [] then [] else slots + [slots[|slots| - 1]]
  }

  /** The history after the value `v` was given for the current position. */
  function Given(s: State, v: real): Flow {
    var f := s.h.flow.(slots := s.h.flow.slots + [v]);
    if Peeks(s) then if Owes(s) then f.(peeks := f.peeks + 1) else f
    else if Owes(s) then f.(consumed := f.consumed + [v], kept := f.kept + [true], emitted := f.emitted + [v])
    else f.(emitted := f.emitted + [v], fallbacks := f.fallbacks + 1)
  }

  /**
   * The other channel raises its exception, before or after this one was encoded:
   * the transfer is abandoned, and with it a value this channel gave for it.
   */
  function Abandoned(s: State): State {
    var stopped := s.(lock := Free, run := s.run.(left := 0, active := false));
    if !s.other.second || s.ch.avail == 0 || !EncodeHead(s).1.Emitted? then stopped
    else
      var (p, o) := EncodeHead(s);
      var f := s.h.flow;
      stopped.(ch := p, h := s.h.(flow := f.(consumed := f.consumed + [o.value], kept := f.kept + [false])))
  }

  /** `submit_out_transfer` and `handle_out_transfer`. */
  function UsbStep(s: State, a: Action): State
    requires Enabled(s, a) && ByUsb(a)
  {
    match a
    case UsbBegin => s.(lock := Usb, run := s.run.(left := s.size))
    case EncodeStep => Encoded(s)
    case Throw => s.(lock := Free, run := s.run.(left := 0, active := false))
    case OtherThrows => Abandoned(s)
    case _ => s
  }

  function Step(s: State, a: Action): State
    requires Enabled(s, a)
  {
    if ByClient(a) then ClientStep(s, a) else if ByUsb(a) then UsbStep(s, a) else WriterStep(s, a)
  }

  // ---- Executions ----

  /** The writer never sees `stop` change to 2 between its two reads of it. */
  predicate Untorn(s: State, a: Action) {
    a.Off? ==> !s.w.pc.SecondRead?
  }

  /** The 32-bit counter can count a full queue, a look-ahead and one buffer. */
  predicate Countable(s: State, a: Action) {
    a.Write? ==> s.capacity + 1 + |a.b.data| < WRAP
  }

  predicate Legal(s: State, a: Action) {
    Enabled(s, a) && Untorn(s, a) && Countable(s, a)
  }

  predicate Runs(s: State, acts: seq<Action>)
    decreases |acts|
  {
    acts == [] || (Legal(s, acts[0]) && Runs(Step(s, acts[0]), acts[1..]))
  }

  function Final(s: State, acts: seq<Action>): State
    requires Runs(s, acts)
    decreases |acts|
  {
    if acts == [] then s else Final(Step(s, acts[0]), acts[1..])
  }

  // ---- Invariants ----

  /** The part of the current buffer that has not been pushed. */
  function Rest(s: State): seq<real> {
    if s.w.it <= |s.w.buf| then s.w.buf[s.w.it..] else []
  }

  function Handed(s: State): seq<real> {
    if s.client.Handing? then s.client.b.data else []
  }

  /** Everything still to come out of the channel, in order. */
  function Line(s: State): seq<real> {
    Slot(s.ch.next) + s.ch.pending + Rest(s) + Handed(s)
  }

  predicate Fits(s: State, data: seq<real>) {
    s.capacity + 1 + |data| < WRAP
  }

  predicate Shaped(s: State) {
    && |s.ch.pending| <= s.capacity && s.w.it <= |s.w.buf|
    && (if InLoop(s) then s.w.buf != [] else s.w.it == 0)
    && (s.w.pc.Pushing? ==> s.w.it < |s.w.buf|)
    && (s.client.Handing? ==> s.w.buf == [])
    && (s.lock == Lock.Client <==> s.client.Flushing?) && (s.client.Flushing? ==> s.h.flushed)
    && (s.lock == Usb <==> s.run.left > 0) && (s.lock == Usb ==> s.run.active)
    && (InLoop(s) && s.stop.Halt? ==> s.lock == Lock.Client)
    && (s.w.pc.SecondRead? ==> !s.stop.Pause?)
    && (s.ch.next.Some? ==> s.ch.previous == s.ch.next)
    && (s.run.active && s.run.pos > 0 ==> s.ch.previous.Some?)
    && (s.run.active && !s.client.Starting? ==> !s.w.pc.Absent?)
    && (s.run.active && s.run.count == 0 ==> s.h.log.continuous)
    && Fits(s, s.w.buf)
    && (s.client.Waiting? || s.client.Handing? ==> Fits(s, s.client.b.data))
    && (s.client.Flushing? ==> !s.stop.Pause?)
    && (s.client.Flushing? && s.client.retry.Some? ==> Fits(s, s.client.retry.value.data))
  }

  /** Whenever the device lock is free or held by the USB thread, every promised value exists. */
  predicate Promised(s: State) {
    !s.h.log.continuous && s.lock != Lock.Client ==> s.ch.avail <= |Line(s)|
  }

  /** Without a flush nothing is lost, duplicated or reordered on the way. */
  predicate Conserved(s: State) {
    !s.h.flushed ==> s.h.flow.written == s.h.flow.consumed + Line(s)
  }

  /** What entered the queue has left it for good, or waits in the look-ahead or the queue. */
  predicate Queued(s: State) {
    !s.h.flushed ==> s.h.flow.entered == s.h.flow.consumed + Source(s.ch)
  }

  /** The counter falls short of the line by one per peek. */
  predicate Counted(s: State) {
    !s.h.flushed && !s.h.log.continuous ==> s.ch.avail + s.h.flow.peeks == |Line(s)|
  }

  predicate Accounted(s: State) {
    Promised(s) && Conserved(s) && Counted(s)
  }

  /** `n` copies of a buffer, one after the other. */
  function Laps(buf: seq<real>, n: nat): seq<real> {
    if n == 0 then [] else Laps(buf, n - 1) + buf
  }

  /** What has been pushed of the current buffer is whole copies of it and then a prefix. */
  predicate Repeats(s: State) {
    InLoop(s) && s.w.it <= |s.w.buf| ==>
      s.h.base <= |s.h.flow.entered| && s.h.flow.entered[s.h.base..] == Laps(s.w.buf, s.h.laps) + s.w.buf[..s.w.it]
  }

  /** The consumed values that were sent. */
  function Sent(consumed: seq<real>, kept: seq<bool>): seq<real>
    requires |consumed| == |kept|
  {
    if consumed == [] then []
    else
      var k := |consumed| - 1;
      Sent(consumed[..k], kept[..k]) + if kept[k] then [consumed[k]] else []
  }

  /** How many were not. */
  function Lost(kept: seq<bool>): nat {
    if kept == [] then 0 else Lost(kept[..|kept| - 1]) + if kept[|kept| - 1] then 0 else 1
  }

  /** What was sent at positions inside the runs: the consumed values but for the lost ones, and the fallbacks. */
  predicate Unbroken(s: State) {
    && |s.h.flow.kept| == |s.h.flow.consumed|
    && |s.h.flow.emitted| + Lost(s.h.flow.kept) == |s.h.flow.consumed| + s.h.flow.fallbacks
    && (s.h.flow.fallbacks == 0 ==> s.h.flow.emitted == Sent(s.h.flow.consumed, s.h.flow.kept))
  }

  function Sum(lengths: seq<nat>): nat {
    if lengths == [] then 0 else Sum(lengths[..|lengths| - 1]) + lengths[|lengths| - 1]
  }

  /** The runs so far and the progress of the current one. */
  predicate Paced(s: State) {
    && |s.h.flow.emitted| == s.h.log.runStart + (if s.run.count == 0 then s.run.pos else Min(s.run.pos, s.run.count))
    && (s.h.log.lengths != [] ==> s.h.log.lengths[|s.h.log.lengths| - 1] == s.run.count)
    && (s.h.log.whole && !s.h.log.continuous && s.h.log.lengths != [] ==>
          s.h.log.runStart == Sum(s.h.log.lengths[..|s.h.log.lengths| - 1]))
    && (s.h.log.lengths == [] ==> s.run.pos == 0 && s.run.count == 0 && s.h.log.runStart == 0)
    && s.h.flow.peeks + (if s.run.active && 0 < s.run.count && s.run.pos <= s.run.count then 1 else 0)
       <= |s.h.log.lengths|
    && (s.run.active ==> s.h.log.lengths != [])
    && (s.h.log.lengths != [] && s.run.count > 0 ==> s.h.log.sampled)
    && (s.h.log.lengths != [] && s.run.count == 0 ==> s.h.log.continuous)
    && (!s.h.log.sampled ==> s.h.flow.fallbacks == 0 && Lost(s.h.flow.kept) == 0)
    && (s.h.log.fed && !s.h.log.continuous && !s.h.flushed ==>
          && s.h.flow.fallbacks == 0
          && (s.run.active && s.run.pos < s.run.count ==> s.run.count - s.run.pos <= s.ch.avail))
  }

  predicate Inv(s: State) {
    Shaped(s) && Accounted(s) && Queued(s) && Repeats(s) && Unbroken(s) && Paced(s)
  }

  lemma ShapedByClient(s: State, a: Action)
    requires Shaped(s) && Legal(s, a) && ByClient(a)
    ensures Shaped(Step(s, a))
  {
  }

  lemma ShapedEncoded(s: State)
    requires Shaped(s) && Legal(s, EncodeStep)
    ensures Shaped(Step(s, EncodeStep))
  {
  }

  lemma ShapedByUsb(s: State, a: Action)
    requires Shaped(s) && Legal(s, a) && ByUsb(a)
    ensures Shaped(Step(s, a))
  {
    if a.EncodeStep? {
      ShapedEncoded(s);
    }
  }

  lemma ShapedByWriter(s: State, a: Action)
    requires Shaped(s) && Legal(s, a) && ByWriter(a)
    ensures Shaped(Step(s, a))
  {
  }

  /** The encoder takes a value out of the line for good. */
  predicate Takes(s: State) {
    Due(s) && (s.run.count == 0 || s.ch.avail > 0) && !(s.run.count > 0 && s.run.pos == s.run.count)
  }

  lemma HeadEncoded(s: State)
    requires Enabled(s, EncodeStep)
    ensures var t := Step(s, EncodeStep);
            && Rest(t) == Rest(s) && Handed(t) == Handed(s)
            && Source(t.ch) == (if Takes(s) then Source(s.ch)[1..] else Source(s.ch))
            && (Takes(s) ==> Source(s.ch) != [] && t.ch.previous == Some(Source(s.ch)[0]))
  {
    if Due(s) {
      EncodeTakesFront(s.ch, s.run.count == 0, s.run.count > 0 && s.run.pos == s.run.count);
    }
  }

  lemma LineSplits(s: State)
    ensures Line(s) == Source(s.ch) + (Rest(s) + Handed(s))
  {
  }

  lemma LineEncoded(s: State, t: State)
    requires Enabled(s, EncodeStep) && t == Step(s, EncodeStep)
    ensures Takes(s) ==> Line(s) != [] && Line(t) == Line(s)[1..] && t.ch.previous == Some(Line(s)[0])
    ensures !Takes(s) ==> Line(t) == Line(s)
  {
    HeadEncoded(s);
    LineSplits(s);
    LineSplits(t);
    DropFront(Source(s.ch), Rest(s) + Handed(s));
  }

  lemma DropFront(a: seq<real>, b: seq<real>)
    ensures a != [] ==> (a + b)[1..] == a[1..] + b
  {
  }

  /** An abandoned transfer takes the value this channel gave for it. */
  predicate Wastes(s: State) {
    s.other.second && s.ch.avail > 0
  }

  lemma HeadAbandoned(s: State)
    requires Enabled(s, OtherThrows)
    ensures var t := Step(s, OtherThrows);
            && Rest(t) == Rest(s) && Handed(t) == Handed(s)
            && Source(t.ch) == (if Wastes(s) then Source(s.ch)[1..] else Source(s.ch))
            && (Wastes(s) ==> Source(s.ch) != [] && t.ch.previous == Some(Source(s.ch)[0]))
            && t.ch.avail == (if Wastes(s) then s.ch.avail - 1 else s.ch.avail)
            && (!Wastes(s) ==>
                  && t.h == s.h && t.ch.previous == s.ch.previous
                  && t.ch.next == s.ch.next && t.ch.pending == s.ch.pending)
  {
    if s.other.second {
      EncodeTakesFront(s.ch, false, false);
    }
  }

  lemma LineAbandoned(s: State, t: State)
    requires Enabled(s, OtherThrows) && t == Step(s, OtherThrows)
    ensures Wastes(s) ==> Line(s) != [] && Line(t) == Line(s)[1..] && t.ch.previous == Some(Line(s)[0])
    ensures !Wastes(s) ==> Line(t) == Line(s)
  {
    HeadAbandoned(s);
    LineSplits(s);
    LineSplits(t);
    DropFront(Source(s.ch), Rest(s) + Handed(s));
  }

  lemma LinePushed(s: State, k: nat)
    requires Shaped(s) && Enabled(s, Push(k))
    ensures Line(Step(s, Push(k))) == Line(s)
  {
    var t := Step(s, Push(k));
    var part := s.w.buf[s.w.it..s.w.it + k];
    assert Rest(s) == part + Rest(t);
    assert t.ch.pending == s.ch.pending + part;
  }

  /** The writer starts a cyclic buffer over. */
  predicate Wraps(s: State) {
    s.w.it == |s.w.buf| && s.w.cyclic
  }

  lemma LineBound(s: State)
    requires Shaped(s)
    ensures |Line(s)| <= 1 + s.capacity + |Rest(s)| + |Handed(s)|
    ensures Handed(s) != [] ==> Rest(s) == []
  {
  }

  /** The 32-bit counter never wraps upwards. */
  lemma AddsExactly(s: State, a: Action)
    requires Shaped(s) && Promised(s) && Legal(s, a) && !s.h.log.continuous && s.lock != Lock.Client
    ensures a.Promise? ==> s.ch.avail + |s.client.b.data| < WRAP
    ensures a.EndPass? && Wraps(s) ==> s.ch.avail + |s.w.buf| < WRAP
  {
    LineBound(s);
  }

  // ---- What a step does to the line of values still to come ----

  /** It leaves the counter and the line alone. */
  predicate Still(s: State, t: State) {
    && t.ch.avail == s.ch.avail && Line(t) == Line(s)
    && t.h.flow.written == s.h.flow.written && t.h.flow.consumed == s.h.flow.consumed
    && t.h.flow.peeks == s.h.flow.peeks
    && (s.h.flushed ==> t.h.flushed) && (s.h.log.continuous ==> t.h.log.continuous)
    && (t.lock == Lock.Client || s.lock != Lock.Client)
  }

  predicate SameFlags(s: State, t: State) {
    t.h.flushed == s.h.flushed && t.h.log.continuous == s.h.log.continuous
    && (t.lock == Lock.Client || s.lock != Lock.Client)
  }

  /** It promises `more` and appends it to the line. */
  predicate Grows(s: State, t: State, more: seq<real>) {
    && Line(t) == Line(s) + more
    && t.h.flow.written == s.h.flow.written + more && t.h.flow.consumed == s.h.flow.consumed
    && t.h.flow.peeks == s.h.flow.peeks && SameFlags(s, t)
    && (!s.h.log.continuous && s.lock != Lock.Client ==> t.ch.avail == s.ch.avail + |more|)
  }

  /** It takes the first value of the line for good. */
  predicate Pops(s: State, t: State) {
    && Line(s) != [] && Line(t) == Line(s)[1..]
    && t.h.flow.written == s.h.flow.written && t.h.flow.consumed == s.h.flow.consumed + [Line(s)[0]]
    && t.h.flow.peeks == s.h.flow.peeks && SameFlags(s, t)
    && (!s.h.log.continuous ==> t.ch.avail == s.ch.avail - 1)
  }

  /** It charges the counter for a value that stays first in the line. */
  predicate Charges(s: State, t: State) {
    && Line(t) == Line(s)
    && t.h.flow.written == s.h.flow.written && t.h.flow.consumed == s.h.flow.consumed
    && t.h.flow.peeks == s.h.flow.peeks + 1 && SameFlags(s, t)
    && (!s.h.log.continuous ==> t.ch.avail == s.ch.avail - 1)
  }

  /** It is part of a flush. */
  predicate Cuts(s: State, t: State) {
    t.h.flushed && (t.lock == Lock.Client || t.ch.avail == 0)
  }

  lemma PromiseLine(s: State, t: State)
    requires Shaped(s) && Promised(s) && Legal(s, Promise) && t == Step(s, Promise)
    ensures Grows(s, t, s.client.b.data)
  {
    if !s.h.log.continuous && s.lock != Lock.Client {
      AddsExactly(s, Promise);
    }
  }

  lemma FlushLine(s: State, t: State)
    requires Shaped(s) && Legal(s, FlushEnd) && t == Step(s, FlushEnd)
    ensures Cuts(s, t) && Line(t) == Slot(s.ch.next) + s.w.buf
  {
  }

  lemma ClientLine(s: State, a: Action)
    requires Shaped(s) && Legal(s, a) && ByClient(a) && !a.Promise? && !a.FlushEnd?
    ensures Still(s, Step(s, a))
  {
  }

  lemma LapLine(s: State, t: State)
    requires Shaped(s) && Promised(s) && Legal(s, EndPass) && Wraps(s) && t == Step(s, EndPass)
    ensures Grows(s, t, s.w.buf)
  {
    if !s.h.log.continuous && s.lock != Lock.Client {
      AddsExactly(s, EndPass);
    }
  }

  lemma WriterLine(s: State, a: Action)
    requires Shaped(s) && Legal(s, a) && ByWriter(a) && !(a.EndPass? && Wraps(s))
    ensures if a.ReadTwice? && !s.stop.Go? then Cuts(s, Step(s, a)) else Still(s, Step(s, a))
  {
    if a.Push? {
      LinePushed(s, a.k);
    }
  }

  lemma EncodedLine(s: State, t: State)
    requires Shaped(s) && Legal(s, EncodeStep) && t == Step(s, EncodeStep)
    ensures if Takes(s) then Pops(s, t) else if Due(s) && Owes(s) then Charges(s, t) else Still(s, t)
  {
    LineEncoded(s, t);
  }

  lemma AbandonedLine(s: State, t: State)
    requires Shaped(s) && Legal(s, OtherThrows) && t == Step(s, OtherThrows)
    ensures if Wastes(s) then Pops(s, t) else Still(s, t)
  {
    HeadAbandoned(s);
    LineAbandoned(s, t);
  }

  lemma UsbLine(s: State, a: Action)
    requires Shaped(s) && Legal(s, a) && ByUsb(a)
    ensures var t := Step(s, a); Pops(s, t) || Charges(s, t) || Still(s, t)
  {
    if a.EncodeStep? {
      EncodedLine(s, Step(s, a));
    } else if a.OtherThrows? {
      AbandonedLine(s, Step(s, a));
    }
  }

  // ---- Every step keeps the invariants ----

  lemma StillAccounted(s: State, t: State)
    requires Accounted(s) && Still(s, t)
    ensures Accounted(t)
  {
  }

  lemma GrownAccounted(s: State, t: State, more: seq<real>)
    requires Shaped(s) && Accounted(s) && Grows(s, t, more)
    ensures Accounted(t)
  {
    Assoc(s.h.flow.consumed, Line(s), more);
  }

  lemma TakeOne(w: seq<real>, c: seq<real>, l: seq<real>)
    requires w == c + l && l != []
    ensures w == (c + [l[0]]) + l[1..]
  {
  }

  lemma PoppedAccounted(s: State, t: State)
    requires Accounted(s) && Pops(s, t)
    ensures Accounted(t)
  {
    if !s.h.flushed {
      TakeOne(s.h.flow.written, s.h.flow.consumed, Line(s));
    }
  }

  lemma ChargedAccounted(s: State, t: State)
    requires Accounted(s) && Charges(s, t)
    ensures Accounted(t)
  {
  }

  lemma AccountedStep(s: State, a: Action)
    requires Shaped(s) && Accounted(s) && Legal(s, a)
    ensures Accounted(Step(s, a))
  {
    var t := Step(s, a);
    if a.Promise? {
      PromiseLine(s, t);
      GrownAccounted(s, t, s.client.b.data);
    } else if a.EndPass? && Wraps(s) {
      LapLine(s, t);
      GrownAccounted(s, t, s.w.buf);
    } else {
      OtherLine(s, a);
      if Still(s, t) {
        StillAccounted(s, t);
      } else if Pops(s, t) {
        PoppedAccounted(s, t);
      } else if Charges(s, t) {
        ChargedAccounted(s, t);
      } else {
        CutAccounted(s, t);
      }
    }
  }

  lemma CutAccounted(s: State, t: State)
    requires Cuts(s, t)
    ensures Accounted(t)
  {
  }

  /** Every step that promises nothing. */
  lemma OtherLine(s: State, a: Action)
    requires Shaped(s) && Legal(s, a) && !a.Promise? && !(a.EndPass? && Wraps(s))
    ensures var t := Step(s, a); Still(s, t) || Pops(s, t) || Charges(s, t) || Cuts(s, t)
  {
    if a.FlushEnd? {
      FlushLine(s, Step(s, a));
    } else if ByClient(a) {
      ClientLine(s, a);
    } else if ByUsb(a) {
      UsbLine(s, a);
    } else {
      WriterLine(s, a);
    }
  }

  lemma QueuedEncoded(s: State, t: State)
    requires Queued(s) && Legal(s, EncodeStep) && t == Step(s, EncodeStep)
    ensures Queued(t)
  {
    HeadEncoded(s);
    if Takes(s) && !s.h.flushed {
      TakeOne(s.h.flow.entered, s.h.flow.consumed, Source(s.ch));
    }
  }

  lemma QueuedAbandoned(s: State, t: State)
    requires Queued(s) && Legal(s, OtherThrows) && t == Step(s, OtherThrows)
    ensures Queued(t)
  {
    HeadAbandoned(s);
    if Wastes(s) && !s.h.flushed {
      TakeOne(s.h.flow.entered, s.h.flow.consumed, Source(s.ch));
    }
  }

  lemma Assoc(a: seq<real>, b: seq<real>, c: seq<real>)
    ensures (a + b) + c == a + (b + c)
  {
  }

  lemma HeadPushed(s: State, k: nat, t: State, part: seq<real>)
    requires Enabled(s, Push(k)) && t == Step(s, Push(k)) && part == s.w.buf[s.w.it..s.w.it + k]
    ensures Source(t.ch) == Source(s.ch) + part && Rest(s) == part + Rest(t)
    ensures t.ch.pending == s.ch.pending + part
  {
    Assoc(Slot(s.ch.next), s.ch.pending, part);
  }

  lemma QueuedPushed(s: State, k: nat, t: State)
    requires Queued(s) && Enabled(s, Push(k)) && t == Step(s, Push(k))
    ensures Queued(t)
  {
    var part := s.w.buf[s.w.it..s.w.it + k];
    HeadPushed(s, k, t, part);
    Assoc(s.h.flow.consumed, Source(s.ch), part);
  }

  /** A step that is part of a flush, or leaves queue and look-ahead alone. */
  predicate SameQueue(s: State, t: State) {
    && (s.h.flushed ==> t.h.flushed)
    && (t.h.flushed || (Source(t.ch) == Source(s.ch)
          && t.h.flow.entered == s.h.flow.entered && t.h.flow.consumed == s.h.flow.consumed))
  }

  lemma QueueOfClient(s: State, a: Action)
    requires Shaped(s) && Legal(s, a) && ByClient(a)
    ensures SameQueue(s, Step(s, a))
  {
  }

  lemma QueueOfWriter(s: State, a: Action)
    requires Shaped(s) && Legal(s, a) && ByWriter(a) && !a.Push?
    ensures SameQueue(s, Step(s, a))
  {
  }

  lemma QueuedStep(s: State, a: Action)
    requires Shaped(s) && Queued(s) && Legal(s, a)
    ensures Queued(Step(s, a))
  {
    if a.EncodeStep? {
      QueuedEncoded(s, Step(s, a));
    } else if a.OtherThrows? {
      QueuedAbandoned(s, Step(s, a));
    } else if a.Push? {
      QueuedPushed(s, a.k, Step(s, a));
    } else if ByClient(a) {
      QueueOfClient(s, a);
    } else if ByWriter(a) {
      QueueOfWriter(s, a);
    }
  }

  lemma PrefixGrows(entered: seq<real>, base: nat, laps: seq<real>, buf: seq<real>, it: nat, k: nat)
    requires base <= |entered| && it + k <= |buf| && entered[base..] == laps + buf[..it]
    ensures (entered + buf[it..it + k])[base..] == laps + buf[..it + k]
  {
    assert (entered + buf[it..it + k])[base..] == entered[base..] + buf[it..it + k];
    assert buf[..it] + buf[it..it + k] == buf[..it + k];
    Assoc(laps, buf[..it], buf[it..it + k]);
  }

  lemma RepeatsPushed(s: State, k: nat, t: State)
    requires Repeats(s) && Enabled(s, Push(k)) && t == Step(s, Push(k))
    ensures Repeats(t)
  {
    PrefixGrows(s.h.flow.entered, s.h.base, Laps(s.w.buf, s.h.laps), s.w.buf, s.w.it, k);
  }

  lemma RepeatsLap(s: State)
    requires Shaped(s) && Repeats(s) && Legal(s, EndPass)
    ensures Repeats(Step(s, EndPass))
  {
    assert s.w.buf[..|s.w.buf|] == s.w.buf;
  }

  /** A step outside the writer's loop, or one that leaves the buffer and what was pushed of it alone. */
  predicate SameBuffer(s: State, t: State) {
    InLoop(t) ==>
      if InLoop(s) then
        && t.w.buf == s.w.buf && t.w.it == s.w.it
        && t.h.flow.entered == s.h.flow.entered && t.h.base == s.h.base && t.h.laps == s.h.laps
      else t.w.it == 0 && t.h.laps == 0 && t.h.base == |t.h.flow.entered|
  }

  lemma RepeatsSame(s: State, t: State)
    requires Repeats(s) && SameBuffer(s, t)
    ensures Repeats(t)
  {
  }

  lemma BufferKept(s: State, a: Action)
    requires Shaped(s) && Legal(s, a) && !a.Push? && !a.EndPass?
    ensures SameBuffer(s, Step(s, a))
  {
  }

  lemma RepeatsStep(s: State, a: Action)
    requires Shaped(s) && Repeats(s) && Legal(s, a)
    ensures Repeats(Step(s, a))
  {
    if a.Push? {
      RepeatsPushed(s, a.k, Step(s, a));
    } else if a.EndPass? {
      RepeatsLap(s);
    } else {
      BufferKept(s, a);
      RepeatsSame(s, Step(s, a));
    }
  }

  lemma SentSnoc(c: seq<real>, k: seq<bool>, v: real, b: bool)
    requires |c| == |k|
    ensures Sent(c + [v], k + [b]) == Sent(c, k) + (if b then [v] else [])
    ensures Lost(k + [b]) == Lost(k) + (if b then 0 else 1)
  {
    assert (c + [v])[..|c|] == c && (k + [b])[..|k|] == k;
  }

  lemma UnbrokenEncoded(s: State, t: State)
    requires Unbroken(s) && Legal(s, EncodeStep) && t == Step(s, EncodeStep)
    ensures Unbroken(t)
  {
    if Takes(s) {
      var v := EncodeHead(s).1.value;
      SentSnoc(s.h.flow.consumed, s.h.flow.kept, v, true);
    }
  }

  lemma UnbrokenAbandoned(s: State, t: State)
    requires Unbroken(s) && Legal(s, OtherThrows) && t == Step(s, OtherThrows)
    ensures Unbroken(t)
  {
    HeadAbandoned(s);
    if Wastes(s) {
      SentSnoc(s.h.flow.consumed, s.h.flow.kept, EncodeHead(s).1.value, false);
    }
  }

  lemma UnbrokenStep(s: State, a: Action)
    requires Unbroken(s) && Legal(s, a)
    ensures Unbroken(Step(s, a))
  {
    if a.EncodeStep? {
      UnbrokenEncoded(s, Step(s, a));
    } else if a.OtherThrows? {
      UnbrokenAbandoned(s, Step(s, a));
    }
  }

  /** What an encoding step does to the run and its history. */
  predicate Advances(s: State, t: State) {
    && t.h.log == s.h.log && t.h.flushed == s.h.flushed
    && t.run.count == s.run.count && t.run.active == s.run.active && t.run.pos == s.run.pos + 1
    && (if Due(s) && !Peeks(s) then |t.h.flow.emitted| == |s.h.flow.emitted| + 1
        else t.h.flow.emitted == s.h.flow.emitted)
    && t.h.flow.peeks == s.h.flow.peeks + (if Due(s) && Peeks(s) && Owes(s) then 1 else 0)
    && t.h.flow.fallbacks == s.h.flow.fallbacks + (if Due(s) && !Peeks(s) && !Owes(s) then 1 else 0)
    && Lost(t.h.flow.kept) == Lost(s.h.flow.kept)
    && (s.run.count > 0 ==> t.ch.avail == s.ch.avail - (if Due(s) && Owes(s) then 1 else 0))
  }

  lemma EncodedAdvances(s: State, t: State)
    requires Unbroken(s) && Enabled(s, EncodeStep) && t == Step(s, EncodeStep) && s.run.left > 0
    ensures Advances(s, t)
  {
    if Takes(s) {
      SentSnoc(s.h.flow.consumed, s.h.flow.kept, EncodeHead(s).1.value, true);
    }
  }

  lemma PacedAdvanced(s: State, t: State)
    requires Paced(s) && s.run.active && Advances(s, t)
    ensures Paced(t)
  {
  }

  lemma PacedEncoded(s: State, t: State)
    requires Shaped(s) && Unbroken(s) && Paced(s) && Legal(s, EncodeStep) && t == Step(s, EncodeStep)
    ensures Paced(t)
  {
    EncodedAdvances(s, t);
    PacedAdvanced(s, t);
  }

  lemma SumSoFar(lengths: seq<nat>, n: nat)
    ensures (lengths + [n])[..|lengths|] == lengths
    ensures lengths != [] ==> Sum(lengths) == Sum(lengths[..|lengths| - 1]) + lengths[|lengths| - 1]
  {
  }

  lemma PacedRun(s: State, n: nat)
    requires Paced(s) && Legal(s, RunBegin(n))
    ensures Paced(Step(s, RunBegin(n)))
  {
    SumSoFar(s.h.log.lengths, n);
  }

  /** A step that neither encodes nor starts a run, and lowers the counter only in a flush. */
  predicate SamePace(s: State, t: State) {
    && t.h.flow.emitted == s.h.flow.emitted
    && t.h.log.runStart == s.h.log.runStart && t.h.log.lengths == s.h.log.lengths
    && t.h.log.whole == s.h.log.whole && t.h.log.continuous == s.h.log.continuous && t.h.flow.peeks == s.h.flow.peeks
    && t.h.log.sampled == s.h.log.sampled && t.h.flow.fallbacks == s.h.flow.fallbacks && t.h.log.fed == s.h.log.fed
    && t.run.count == s.run.count && t.run.pos == s.run.pos && (t.run.active ==> s.run.active)
    && (s.h.log.sampled || t.h.flow.kept == s.h.flow.kept)
    && (s.h.flushed ==> t.h.flushed)
    && (t.run.active && !t.h.log.continuous && !t.h.flushed ==> s.ch.avail <= t.ch.avail)
  }

  lemma PacedSame(s: State, t: State)
    requires Paced(s) && SamePace(s, t)
    ensures Paced(t)
  {
  }

  lemma PaceOfClient(s: State, a: Action)
    requires Shaped(s) && Promised(s) && Legal(s, a) && ByClient(a) && !a.RunBegin?
    ensures SamePace(s, Step(s, a))
  {
    if !s.h.log.continuous && s.lock != Lock.Client {
      AddsExactly(s, a);
    }
  }

  lemma PaceOfWriter(s: State, a: Action)
    requires Shaped(s) && Promised(s) && Legal(s, a) && ByWriter(a)
    ensures SamePace(s, Step(s, a))
  {
    if !s.h.log.continuous && s.lock != Lock.Client {
      AddsExactly(s, a);
    }
  }

  lemma PaceOfUsb(s: State, a: Action)
    requires Shaped(s) && Paced(s) && Legal(s, a) && ByUsb(a) && !a.EncodeStep?
    ensures SamePace(s, Step(s, a))
  {
  }

  lemma PacedStep(s: State, a: Action)
    requires Shaped(s) && Promised(s) && Unbroken(s) && Paced(s) && Legal(s, a)
    ensures Paced(Step(s, a))
  {
    if a.EncodeStep? {
      PacedEncoded(s, Step(s, a));
    } else if a.RunBegin? {
      PacedRun(s, a.samples);
    } else {
      if ByClient(a) {
        PaceOfClient(s, a);
      } else if ByUsb(a) {
        PaceOfUsb(s, a);
      } else {
        PaceOfWriter(s, a);
      }
      PacedSame(s, Step(s, a));
    }
  }

  lemma InvStep(s: State, a: Action)
    requires Inv(s) && Legal(s, a)
    ensures Inv(Step(s, a))
  {
    if ByClient(a) {
      ShapedByClient(s, a);
    } else if ByUsb(a) {
      ShapedByUsb(s, a);
    } else {
      ShapedByWriter(s, a);
    }
    AccountedStep(s, a);
    QueuedStep(s, a);
    RepeatsStep(s, a);
    UnbrokenStep(s, a);
    PacedStep(s, a);
  }

  lemma {:induction false} InvRuns(s: State, acts: seq<Action>)
    requires Inv(s) && Runs(s, acts)
    ensures Inv(Final(s, acts))
    decreases |acts|
  {
    if acts != [] {
      InvStep(s, acts[0]);
      InvRuns(Step(s, acts[0]), acts[1..]);
    }
  }

  lemma InitInv(capacity: nat, size: nat, second: bool)
    requires capacity + 1 < WRAP
    ensures Inv(Init(capacity, size, second))
  {
  }

  // ---- Main results ----

  /**
   * The promise is always backed: over every interleaving, whenever the client
   * is not inside flush(), each promised value of a noncontinuous history is in
   * the look-ahead, in the queue, in the unpushed rest of the buffer, or in the
   * buffer being handed over.
   */
  lemma PromiseAlwaysBacked(capacity: nat, size: nat, second: bool, acts: seq<Action>)
    requires capacity + 1 < WRAP && Runs(Init(capacity, size, second), acts)
    ensures var s := Final(Init(capacity, size, second), acts);
            s.h.log.continuous || s.lock == Lock.Client
            || s.ch.avail <= |Slot(s.ch.next)| + |s.ch.pending| + |Rest(s)| + |Handed(s)|
  {
    InitInv(capacity, size, second);
    InvRuns(Init(capacity, size, second), acts);
  }

  lemma EnteredSplits(s: State)
    requires Conserved(s) && Queued(s) && !s.h.flushed
    ensures s.h.flow.written == s.h.flow.entered + (Rest(s) + Handed(s))
  {
    LineSplits(s);
    Assoc(s.h.flow.consumed, Source(s.ch), Rest(s) + Handed(s));
  }

  /**
   * Writer refinement: without a flush, what has entered the queue is a prefix
   * of the concatenation of the written buffers (a cyclic buffer counts once
   * per lap), and the rest of that concatenation is exactly what the writer
   * and the client still hold.
   */
  lemma EnteredIsPrefix(capacity: nat, size: nat, second: bool, acts: seq<Action>)
    requires capacity + 1 < WRAP && Runs(Init(capacity, size, second), acts)
    ensures var s := Final(Init(capacity, size, second), acts);
            !s.h.flushed ==> s.h.flow.written == s.h.flow.entered + (Rest(s) + Handed(s))
  {
    InitInv(capacity, size, second);
    InvRuns(Init(capacity, size, second), acts);
    var s := Final(Init(capacity, size, second), acts);
    if !s.h.flushed {
      EnteredSplits(s);
    }
  }

  /**
   * Of the buffer the writer is working on, the k-th value to enter the queue
   * is `buf[k mod n]`, through pauses, resumes, partial pushes and flushes of
   * earlier buffers.
   */
  lemma EnteredRepeatsBuffer(capacity: nat, size: nat, second: bool, acts: seq<Action>)
    requires capacity + 1 < WRAP && Runs(Init(capacity, size, second), acts)
    ensures var s := Final(Init(capacity, size, second), acts);
            InLoop(s) ==>
              && s.w.buf != [] && s.h.base <= |s.h.flow.entered|
              && forall k :: 0 <= k < |s.h.flow.entered| - s.h.base
                   ==> s.h.flow.entered[s.h.base + k] == s.w.buf[k % |s.w.buf|]
  {
    InitInv(capacity, size, second);
    InvRuns(Init(capacity, size, second), acts);
    var s := Final(Init(capacity, size, second), acts);
    if InLoop(s) {
      var pushed := s.h.flow.entered[s.h.base..];
      forall k | 0 <= k < |pushed|
        ensures s.h.flow.entered[s.h.base + k] == s.w.buf[k % |s.w.buf|]
      {
        assert pushed[k] == s.h.flow.entered[s.h.base + k];
        LapsAt(s.w.buf, s.h.laps, s.w.it, k);
      }
    }
  }

  lemma {:induction false} LapsFront(buf: seq<real>, n: nat)
    requires n > 0
    ensures Laps(buf, n) == buf + Laps(buf, n - 1)
  {
    if n > 1 {
      LapsFront(buf, n - 1);
      assert (buf + Laps(buf, n - 2)) + buf == buf + (Laps(buf, n - 2) + buf);
    } else {
      assert [] + buf == buf + [];
    }
  }

  lemma {:induction false} LapsAt(buf: seq<real>, n: nat, it: nat, k: nat)
    requires buf != [] && it <= |buf| && k < |Laps(buf, n)| + it
    ensures (Laps(buf, n) + buf[..it])[k] == buf[k % |buf|]
  {
    if k < |buf| {
      Residue(k, |buf|);
      if n > 0 {
        LapsFront(buf, n);
      }
    } else {
      LapsFront(buf, n);
      var tail := Laps(buf, n - 1) + buf[..it];
      assert Laps(buf, n) + buf[..it] == buf + tail;
      LapsAt(buf, n - 1, it, k - |buf|);
      OneLapLess(k, |buf|);
    }
  }

  lemma Residue(k: nat, n: nat)
    requires k < n
    ensures k % n == k
  {
  }

  lemma OneLapLess(k: nat, n: nat)
    requires 0 < n <= k
    ensures k % n == (k - n) % n
  {
    assert k == n * (k / n) + k % n;
    var q := (k - n) / n;
    assert k - n == n * q + (k - n) % n;
    assert n * (q + 1) == n * q + n;
    SameQuotient(k / n, k % n, (k - n) / n + 1, (k - n) % n, n);
  }

  lemma SameQuotient(q: int, r: int, p: int, t: int, n: nat)
    requires 0 <= r < n && 0 <= t < n && n * q + r == n * p + t
    ensures r == t
  {
    Multiple(q, p, n);
    Multiple(p, q, n);
  }

  lemma Multiple(q: int, p: int, n: nat)
    ensures q > p ==> n * q >= n * p + n
  {
    assert q > p ==> n * q >= n * (p + 1) == n * p + n;
  }

  // ---- Continuity across runs ----

  /** The step is not a flush, and starts no continuous run. */
  predicate Plain(s: State, a: Action) {
    !a.Flush? && (a.Write? ==> !s.w.cyclic) && (a.RunBegin? ==> a.samples > 0)
  }

  predicate AllPlain(s: State, acts: seq<Action>)
    requires Runs(s, acts)
    decreases |acts|
  {
    acts == [] || (Plain(s, acts[0]) && AllPlain(Step(s, acts[0]), acts[1..]))
  }

  /** A run begins with enough written: everything sent or lost before, this run, and one per peek. */
  predicate Provided(s: State, a: Action) {
    a.RunBegin? ==> |s.h.flow.emitted| + Lost(s.h.flow.kept) + a.samples + s.h.flow.peeks <= |s.h.flow.written|
  }

  predicate Fed(s: State, acts: seq<Action>)
    requires Runs(s, acts)
    decreases |acts|
  {
    acts == [] || (Provided(s, acts[0]) && Fed(Step(s, acts[0]), acts[1..]))
  }

  /** Neither a flush nor a continuous run has begun. */
  predicate Steady(s: State) {
    !s.h.flushed && !s.h.log.continuous
  }

  /** A run starts with all its values owed exactly when that much has been written. */
  lemma FedStep(s: State, a: Action)
    requires Inv(s) && Legal(s, a) && s.h.log.fed && Steady(s) && Plain(s, a)
    ensures Steady(Step(s, a)) && (Step(s, a).h.log.fed <==> Provided(s, a))
  {
    assert |s.h.flow.written| == |s.h.flow.consumed| + |Line(s)|;
  }

  lemma {:induction false} UnfedStays(s: State, acts: seq<Action>)
    requires Runs(s, acts) && !s.h.log.fed
    ensures !Final(s, acts).h.log.fed
    decreases |acts|
  {
    if acts != [] {
      UnfedStays(Step(s, acts[0]), acts[1..]);
    }
  }

  /** Over a whole history: every run starts with its values owed if and only if enough is written before each. */
  lemma {:induction false} FedExactly(s: State, acts: seq<Action>)
    requires Inv(s) && Runs(s, acts) && s.h.log.fed && Steady(s) && AllPlain(s, acts)
    ensures Steady(Final(s, acts)) && (Final(s, acts).h.log.fed <==> Fed(s, acts))
    decreases |acts|
  {
    if acts != [] {
      var t, rest := Step(s, acts[0]), acts[1..];
      FedStep(s, acts[0]);
      InvStep(s, acts[0]);
      PlainStays(s, acts);
      if t.h.log.fed {
        FedExactly(t, rest);
      } else {
        UnfedStays(t, rest);
      }
    }
  }

  lemma {:induction false} PlainStays(s: State, acts: seq<Action>)
    requires Runs(s, acts) && Steady(s) && AllPlain(s, acts)
    ensures Steady(Final(s, acts))
    decreases |acts|
  {
    if acts != [] {
      PlainStays(Step(s, acts[0]), acts[1..]);
    }
  }

  /** One spare value per earlier run is always enough. */
  lemma OneSparePerRun(s: State, a: Action)
    requires Inv(s) && a.RunBegin?
    requires |s.h.flow.emitted| + Lost(s.h.flow.kept) + a.samples + |s.h.log.lengths| <= |s.h.flow.written|
    ensures Provided(s, a)
  {
  }

  lemma {:induction false} SentAll(consumed: seq<real>, kept: seq<bool>)
    requires |consumed| == |kept|
    ensures |Sent(consumed, kept)| == |consumed| - Lost(kept)
    ensures Lost(kept) == 0 ==> Sent(consumed, kept) == consumed
  {
    if consumed != [] {
      var k := |consumed| - 1;
      SentAll(consumed[..k], kept[..k]);
      assert consumed == consumed[..k] + [consumed[k]];
    }
  }

  // ---- What the other channel costs ----

  /** The transfer being filled will be abandoned, and this channel has a value to lose with it. */
  predicate Exposed(s: State) {
    s.lock.Usb? && s.run.left > 0 && Faulty(s) && Wastes(s)
  }

  /** A step loses a value exactly when it is the USB thread's and finds the channel exposed. */
  lemma LossExactly(s: State, a: Action)
    requires Unbroken(s) && Legal(s, a)
    ensures var t := Step(s, a);
            |t.h.flow.kept| == |t.h.flow.consumed|
            && Lost(t.h.flow.kept) == Lost(s.h.flow.kept) + (if ByUsb(a) && Exposed(s) then 1 else 0)
  {
    if a.EncodeStep? {
      LossOfEncoded(s, Step(s, a));
    } else if a.OtherThrows? {
      LossOfAbandoned(s, Step(s, a));
    }
  }

  lemma LossOfEncoded(s: State, t: State)
    requires Unbroken(s) && Enabled(s, EncodeStep) && t == Step(s, EncodeStep)
    ensures |t.h.flow.kept| == |t.h.flow.consumed| && Lost(t.h.flow.kept) == Lost(s.h.flow.kept)
  {
    if Takes(s) {
      SentSnoc(s.h.flow.consumed, s.h.flow.kept, EncodeHead(s).1.value, true);
    }
  }

  lemma LossOfAbandoned(s: State, t: State)
    requires Unbroken(s) && Enabled(s, OtherThrows) && t == Step(s, OtherThrows)
    ensures |t.h.flow.kept| == |t.h.flow.consumed|
    ensures Lost(t.h.flow.kept) == Lost(s.h.flow.kept) + (if Wastes(s) then 1 else 0)
  {
    HeadAbandoned(s);
    if Wastes(s) {
      SentSnoc(s.h.flow.consumed, s.h.flow.kept, EncodeHead(s).1.value, false);
    }
  }

  /** The USB thread never finds the channel exposed. */
  predicate Guarded(s: State, acts: seq<Action>)
    requires Runs(s, acts)
    decreases |acts|
  {
    acts == [] || (!(ByUsb(acts[0]) && Exposed(s)) && Guarded(Step(s, acts[0]), acts[1..]))
  }

  /** Over any history: no value is lost if and only if the USB thread never finds the channel exposed. */
  lemma {:induction false} LostExactly(s: State, acts: seq<Action>)
    requires Unbroken(s) && Runs(s, acts)
    ensures Lost(Final(s, acts).h.flow.kept) >= Lost(s.h.flow.kept)
    ensures Lost(Final(s, acts).h.flow.kept) == Lost(s.h.flow.kept) <==> Guarded(s, acts)
    decreases |acts|
  {
    if acts != [] {
      LossExactly(s, acts[0]);
      UnbrokenStep(s, acts[0]);
      LostExactly(Step(s, acts[0]), acts[1..]);
    }
  }

  /** The client starves the other channel neither at the start of a run nor before the run's first position. */
  predicate Attends(s: State, a: Action) {
    && (a.RunBegin? ==> !s.other.starved)
    && (a.OtherChanges? && a.starved ==> !(s.run.active && s.run.count > 0 && s.run.pos == 0))
  }

  predicate AllAttend(s: State, acts: seq<Action>)
    requires Runs(s, acts)
    decreases |acts|
  {
    acts == [] || (Attends(s, acts[0]) && AllAttend(Step(s, acts[0]), acts[1..]))
  }

  /** A run that has not reached its second position has no starved channel beside it. */
  predicate Attended(s: State) {
    s.run.active && s.run.count > 0 && s.run.pos == 0 ==> !s.other.starved
  }

  lemma AttendedStep(s: State, a: Action)
    requires Shaped(s) && Attended(s) && Legal(s, a) && Attends(s, a)
    ensures Attended(Step(s, a)) && !Exposed(s)
  {
  }

  /** A client that takes this care never exposes the channel. */
  lemma {:induction false} AttendedIsGuarded(s: State, acts: seq<Action>)
    requires Inv(s) && Attended(s) && Runs(s, acts) && AllAttend(s, acts)
    ensures Guarded(s, acts)
    decreases |acts|
  {
    if acts != [] {
      AttendedStep(s, acts[0]);
      InvStep(s, acts[0]);
      AttendedIsGuarded(Step(s, acts[0]), acts[1..]);
    }
  }

  /** A value is lost: two are written to the first channel and none to the second, and a run is started. */
  lemma LossIsReachable() returns (acts: seq<Action>)
    ensures Runs(Init(8, 4, true), acts)
    ensures var s := Final(Init(8, 4, true), acts);
            s.h.flow.written == [1.0, 2.0] && s.h.flow.kept == [false] && s.h.flow.emitted == [] && Line(s) == [2.0]
  {
    acts := Unfolds(Filling(), OtherThrows, []);
    Loses();
    acts := FillingIsReachable(acts);
  }

  /** Both values have been pushed, and the first transfer is being filled. */
  function Filling(): State {
    State(8, 4, Pipe(2, [1.0, 2.0], None, None),
          Writer([1.0, 2.0], false, FirstRead, 2), Run(2, 0, 4, true), Go, Usb, Idle,
          Other(true, true),
          History(Flow([1.0, 2.0], [1.0, 2.0], [], [], [], [], 0, 0),
                  Log([2], true, 0, true, false, true), 0, 0, false))
  }

  lemma Loses()
    ensures Exposed(Filling()) && Legal(Filling(), OtherThrows)
    ensures var t := Step(Filling(), OtherThrows);
            t.h.flow.written == [1.0, 2.0] && t.h.flow.kept == [false] && t.h.flow.emitted == [] && Line(t) == [2.0]
  {
    HeadAbandoned(Filling());
  }

  lemma FillingIsReachable(rest: seq<Action>) returns (acts: seq<Action>)
    requires Runs(Filling(), rest)
    ensures Runs(Init(8, 4, true), acts) && Final(Init(8, 4, true), acts) == Final(Filling(), rest)
  {
    var s6 := Step(Started(), Wake);
    var s7 := Step(s6, Push(2));
    assert Step(s7, UsbBegin) == Filling();
    acts := Unfolds(s7, UsbBegin, rest);
    acts := Unfolds(s6, Push(2), acts);
    acts := Unfolds(Started(), Wake, acts);
    acts := StartedIsReachable(acts);
  }

  // ---- The stream ----

  /**
   * Continuity across runs: many short runs emit one long stream.  When each
   * run begins with enough written, the values sent at positions inside the
   * runs, concatenated, are the values consumed so far, a prefix of the written
   * stream, less those lost to the other channel; they are such a prefix
   * themselves whenever the USB thread never found the channel exposed.  A
   * finished run of `N` samples has sent exactly `N`, whatever was peeked in
   * between.
   */
  lemma Continuity(capacity: nat, size: nat, second: bool, acts: seq<Action>)
    requires capacity + 1 < WRAP && Runs(Init(capacity, size, second), acts)
    requires AllPlain(Init(capacity, size, second), acts) && Fed(Init(capacity, size, second), acts)
    ensures var s := Final(Init(capacity, size, second), acts);
            && |s.h.flow.kept| == |s.h.flow.consumed| && s.h.flow.consumed <= s.h.flow.written
            && s.h.flow.emitted == Sent(s.h.flow.consumed, s.h.flow.kept)
            && (s.h.flow.emitted == s.h.flow.consumed <==> Guarded(Init(capacity, size, second), acts))
            && (Guarded(Init(capacity, size, second), acts) ==> s.h.flow.emitted <= s.h.flow.written)
            && |s.h.flow.emitted| == s.h.log.runStart + Min(s.run.pos, s.run.count)
  {
    InitInv(capacity, size, second);
    InvRuns(Init(capacity, size, second), acts);
    FedExactly(Init(capacity, size, second), acts);
    LostExactly(Init(capacity, size, second), acts);
    var s := Final(Init(capacity, size, second), acts);
    SentAll(s.h.flow.consumed, s.h.flow.kept);
  }

  /**
   * So complete runs of N1, ..., Nr samples on a channel that was never exposed
   * have sent exactly the first N1 + ... + Nr values written.
   */
  lemma RunsEmitTotal(capacity: nat, size: nat, second: bool, acts: seq<Action>)
    requires capacity + 1 < WRAP && Runs(Init(capacity, size, second), acts)
    requires AllPlain(Init(capacity, size, second), acts) && Fed(Init(capacity, size, second), acts)
    requires Guarded(Init(capacity, size, second), acts)
    ensures var s := Final(Init(capacity, size, second), acts);
            s.h.log.whole && s.run.pos >= s.run.count ==>
              && Sum(s.h.log.lengths) <= |s.h.flow.written|
              && s.h.flow.emitted == s.h.flow.written[..Sum(s.h.log.lengths)]
  {
    InitInv(capacity, size, second);
    InvRuns(Init(capacity, size, second), acts);
    FedExactly(Init(capacity, size, second), acts);
    LostExactly(Init(capacity, size, second), acts);
    RunsTotal(Final(Init(capacity, size, second), acts));
  }

  /**
   * A run follows a complete one, and at least the lengths of the runs so far,
   * its own, and one value per earlier run have been written: all a caller can
   * count without looking inside.
   */
  predicate Generous(s: State, a: Action) {
    a.RunBegin? ==>
      s.run.pos >= s.run.count && Sum(s.h.log.lengths) + a.samples + |s.h.log.lengths| <= |s.h.flow.written|
  }

  predicate AllGenerous(s: State, acts: seq<Action>)
    requires Runs(s, acts)
    decreases |acts|
  {
    acts == [] || (Generous(s, acts[0]) && AllGenerous(Step(s, acts[0]), acts[1..]))
  }

  lemma GenerousProvides(s: State, a: Action)
    requires Inv(s) && Steady(s) && s.h.log.whole && Lost(s.h.flow.kept) == 0 && Generous(s, a)
    ensures Provided(s, a)
  {
    if a.RunBegin? {
      TotalSoFar(s);
      OneSparePerRun(s, a);
    }
  }

  lemma TotalSoFar(s: State)
    requires Paced(s) && Steady(s) && s.h.log.whole && s.run.pos >= s.run.count
    ensures |s.h.flow.emitted| == Sum(s.h.log.lengths)
  {
  }

  lemma {:induction false} GenerousIsFed(s: State, acts: seq<Action>)
    requires Inv(s) && Steady(s) && s.h.log.fed && s.h.log.whole && Lost(s.h.flow.kept) == 0
    requires Runs(s, acts) && AllPlain(s, acts) && Guarded(s, acts) && AllGenerous(s, acts)
    ensures Fed(s, acts) && Final(s, acts).h.log.whole
    decreases |acts|
  {
    if acts != [] {
      var a := acts[0];
      GenerousProvides(s, a);
      FedStep(s, a);
      InvStep(s, a);
      LossExactly(s, a);
      WholeStep(s, a);
      GenerousIsFed(Step(s, a), acts[1..]);
    }
  }

  lemma WholeStep(s: State, a: Action)
    requires Legal(s, a) && Generous(s, a)
    ensures s.h.log.whole ==> Step(s, a).h.log.whole
  {
  }

  /** Continuity in the caller's terms: complete runs, attended and generously written for, emit one stream. */
  lemma GenerousContinuity(capacity: nat, size: nat, second: bool, acts: seq<Action>)
    requires capacity + 1 < WRAP && Runs(Init(capacity, size, second), acts)
    requires AllPlain(Init(capacity, size, second), acts) && AllGenerous(Init(capacity, size, second), acts)
    requires AllAttend(Init(capacity, size, second), acts)
    ensures var s := Final(Init(capacity, size, second), acts);
            && s.h.flow.emitted <= s.h.flow.written
            && (s.run.pos >= s.run.count ==> |s.h.flow.emitted| == Sum(s.h.log.lengths))
  {
    var s := Init(capacity, size, second);
    InitInv(capacity, size, second);
    AttendedIsGuarded(s, acts);
    GenerousIsFed(s, acts);
    Continuity(capacity, size, second, acts);
    InvRuns(s, acts);
    FedExactly(s, acts);
    if Final(s, acts).run.pos >= Final(s, acts).run.count {
      TotalSoFar(Final(s, acts));
    }
  }

  lemma RunsTotal(s: State)
    requires Conserved(s) && Unbroken(s) && Paced(s) && s.h.log.fed && Steady(s)
    ensures s.h.log.whole && s.run.pos >= s.run.count && Lost(s.h.flow.kept) == 0 ==>
              && Sum(s.h.log.lengths) <= |s.h.flow.written|
              && s.h.flow.emitted == s.h.flow.written[..Sum(s.h.log.lengths)]
  {
    SentAll(s.h.flow.consumed, s.h.flow.kept);
  }

  /**
   * Exactly when the stream is unbroken, in any history: no position inside a
   * run was encoded with the promise counter at zero, which `fallbacks` counts.
   */
  lemma UnbrokenExactly(capacity: nat, size: nat, second: bool, acts: seq<Action>)
    requires capacity + 1 < WRAP && Runs(Init(capacity, size, second), acts)
    ensures var s := Final(Init(capacity, size, second), acts);
            && |s.h.flow.kept| == |s.h.flow.consumed|
            && (s.h.flow.emitted == Sent(s.h.flow.consumed, s.h.flow.kept) <==> s.h.flow.fallbacks == 0)
            && (!s.h.flushed ==> s.h.flow.consumed <= s.h.flow.written)
  {
    InitInv(capacity, size, second);
    InvRuns(Init(capacity, size, second), acts);
    var s := Final(Init(capacity, size, second), acts);
    SentAll(s.h.flow.consumed, s.h.flow.kept);
  }

  /** A history of continuous runs only needs no counting: nothing is ever repeated or skipped. */
  lemma ContinuousStream(capacity: nat, size: nat, second: bool, acts: seq<Action>)
    requires capacity + 1 < WRAP && Runs(Init(capacity, size, second), acts)
    ensures var s := Final(Init(capacity, size, second), acts);
            !s.h.log.sampled && !s.h.flushed ==> s.h.flow.emitted <= s.h.flow.written
  {
    InitInv(capacity, size, second);
    InvRuns(Init(capacity, size, second), acts);
    var s := Final(Init(capacity, size, second), acts);
    SentAll(s.h.flow.consumed, s.h.flow.kept);
  }

  // ---- The wait in encode_out ends ----

  /** The encoder has come to this channel and spins on an empty queue. */
  predicate Spinning(s: State) {
    s.lock.Usb? && Due(s) && (Faulty(s) ==> s.other.second) && EncodeHead(s).1.Blocked?
  }

  /** The writer is not paused in its loop, or run() is about to resume it. */
  predicate Resumable(s: State) {
    s.stop.Pause? && InLoop(s) ==> s.client.Starting?
  }

  /** The next step towards a push. */
  function Help(s: State): Action {
    if s.client.Starting? then RunResume
    else match s.w.pc
      case Absent => Publish
      case AtWait => if s.w.buf != [] then Wake else Publish
      case Pushing => Push(1)
      case FirstRead => ReadOnce
      case SecondRead => ReadTwice
      case Paused => Resume
      case Tail => EndPass
  }

  function Rank(s: State): nat {
    (if s.client.Starting? then 10 else 0) +
    match s.w.pc
      case Absent => 5
      case AtWait => if s.w.buf != [] then 2 else 3
      case Pushing => 1
      case FirstRead => 4
      case SecondRead => 3
      case Paused => 3
      case Tail => 2
  }

  /** A step of the writer, or of the client finishing write() or run(). */
  predicate Helpful(a: Action) {
    (ByWriter(a)) || a.Publish? || a.RunResume?
  }

  lemma HelpStep(s: State)
    requires Shaped(s) && Promised(s) && !s.h.log.continuous && s.run.count > 0 && s.capacity > 0
    requires Spinning(s) && Resumable(s)
    ensures Legal(s, Help(s)) && Helpful(Help(s))
    ensures var t := Step(s, Help(s));
            && t.lock.Usb? && t.run.pos == s.run.pos && t.run.count == s.run.count
            && t.capacity == s.capacity && t.h.log.continuous == s.h.log.continuous
            && (EncodeHead(t).1.Emitted? || (Spinning(t) && Resumable(t) && Rank(t) < Rank(s)))
  {
    assert Source(s.ch) == [];
    LineSplits(s);
    assert Rest(s) + Handed(s) != [];
  }

  /**
   * Whenever `encode_out` waits on an empty queue in a noncontinuous history,
   * at most fifteen steps of the resumed writer, and of a write() or run() the
   * client is finishing, end the wait; nothing else has to happen.
   */
  lemma {:induction false} WaitEnds(s: State) returns (acts: seq<Action>)
    requires Inv(s) && !s.h.log.continuous && s.run.count > 0 && s.capacity > 0 && Spinning(s) && Resumable(s)
    ensures |acts| <= Rank(s) <= 15 && (forall a :: a in acts ==> Helpful(a))
    ensures Runs(s, acts) && EncodeHead(Final(s, acts)).1.Emitted?
    decreases Rank(s)
  {
    HelpStep(s);
    var a := Help(s);
    var t := Step(s, a);
    if EncodeHead(t).1.Emitted? {
      acts := [a];
      assert Runs(t, []);
    } else {
      InvStep(s, a);
      var more := WaitEnds(t);
      acts := [a] + more;
      assert acts[1..] == more;
    }
  }

  /** Not off(), and not a push for which there is no room. */
  predicate Willing(a: Action) {
    !a.Off? && (a.Push? ==> a.k > 0)
  }

  predicate AllWilling(acts: seq<Action>) {
    forall k :: 0 <= k < |acts| ==> Willing(acts[k])
  }

  /** A step that brings the end of the wait nearer. */
  predicate Nearing(a: Action) {
    ByWriter(a) || a.RunResume?
  }

  function Nearings(acts: seq<Action>): nat {
    if acts == [] then 0 else (if Nearing(acts[0]) then 1 else 0) + Nearings(acts[1..])
  }

  /** The state of a wait in a noncontinuous history. */
  predicate Awaits(s: State) {
    && !s.h.log.continuous && s.run.count > 0 && s.capacity > 0 && Spinning(s) && Resumable(s)
  }

  /** What the encoder still has to come is in the writer's or the client's hands. */
  lemma AwaitedIsHeld(s: State)
    requires Shaped(s) && Promised(s) && Awaits(s)
    ensures s.ch.pending == [] && s.ch.next.None? && Rest(s) + Handed(s) != []
    ensures InLoop(s) ==> !s.client.Handing? && Rest(s) != []
  {
    LineSplits(s);
    assert Source(s.ch) == [];
  }

  lemma ClientAwaits(s: State, a: Action)
    requires Shaped(s) && Promised(s) && Awaits(s) && Legal(s, a) && ByClient(a) && Willing(a)
    ensures var t := Step(s, a); Awaits(t) && Rank(t) + (if Nearing(a) then 1 else 0) <= Rank(s)
  {
    AwaitedIsHeld(s);
  }

  lemma WriterAwaits(s: State, a: Action)
    requires Shaped(s) && Promised(s) && Awaits(s) && Legal(s, a) && ByWriter(a) && Willing(a)
    ensures var t := Step(s, a); EncodeHead(t).1.Emitted? || (Awaits(t) && Rank(t) < Rank(s))
  {
    AwaitedIsHeld(s);
  }

  /** The wait is over at some point of the schedule. */
  predicate Ends(s: State, acts: seq<Action>)
    requires Runs(s, acts)
    decreases |acts|
  {
    EncodeHead(s).1.Emitted? || (acts != [] && Ends(Step(s, acts[0]), acts[1..]))
  }

  /**
   * Every schedule ends the wait: whatever the client does short of off(), and
   * in whatever order, as soon as the writer has made, and run() has finished
   * with, more steps than the rank of the state, at most fifteen, an encoding
   * is possible.  The USB thread can do nothing else meanwhile.
   */
  lemma {:induction false} EveryScheduleEnds(s: State, acts: seq<Action>)
    requires Inv(s) && Awaits(s) && Runs(s, acts) && AllWilling(acts)
    ensures Rank(s) <= 15 && (Nearings(acts) > Rank(s) ==> Ends(s, acts))
    decreases |acts|
  {
    if acts != [] {
      var a, rest := acts[0], acts[1..];
      var t := Step(s, a);
      assert Willing(a) && forall k :: 0 <= k < |rest| ==> rest[k] == acts[k + 1];
      if ByClient(a) {
        ClientAwaits(s, a);
      } else if ByWriter(a) {
        WriterAwaits(s, a);
      }
      if !EncodeHead(t).1.Emitted? {
        InvStep(s, a);
        EveryScheduleEnds(t, rest);
      }
    }
  }

  // ---- Refinement of the sequential channel ----

  /** The channel as the encoder will find it once the writer has caught up. */
  function Abs(s: State): Pipe {
    Pipe(s.ch.avail, s.ch.pending + (Rest(s) + Handed(s)), s.ch.next, s.ch.previous)
  }

  /**
   * Every step outside a flush is invisible on the sequential channel, or is
   * one of its two operations: a promise (by write() or by a new lap of a
   * cyclic buffer) or an encoding with the same outcome.
   */
  lemma StepRefinesPipe(s: State, a: Action)
    requires Inv(s) && Legal(s, a) && s.lock != Lock.Client
    ensures var t := Step(s, a);
            match a
            case Promise => Abs(t) == Written(Abs(s), s.client.b.data)
            case EndPass => Abs(t) == if Wraps(s) then Written(Abs(s), s.w.buf) else Abs(s)
            case EncodeStep =>
              if Due(s) then
                Encode(Abs(s), s.run.count == 0, s.run.count > 0 && s.run.pos == s.run.count)
                == (Abs(t), EncodeHead(s).1)
              else Abs(t) == Abs(s)
            case OtherThrows => Abs(t) == if s.other.second then Encode(Abs(s), false, false).0 else Abs(s)
            case _ => Abs(t) == Abs(s)
  {
    if a.EncodeStep? {
      EncodeRefinesPipe(s, Step(s, a));
    } else if a.OtherThrows? {
      AbandonRefinesPipe(s, Step(s, a));
    } else if a.Push? {
      PushRefinesPipe(s, a.k, Step(s, a));
    } else if a.Promise? {
      Assoc(s.ch.pending, Rest(s) + Handed(s), s.client.b.data);
    } else if a.EndPass? {
      EndPassRefinesPipe(s, Step(s, a));
    } else {
      OthersRefinePipe(s, a, Step(s, a));
    }
  }

  lemma EndPassRefinesPipe(s: State, t: State)
    requires Shaped(s) && Enabled(s, EndPass) && t == Step(s, EndPass)
    ensures Abs(t) == if Wraps(s) then Written(Abs(s), s.w.buf) else Abs(s)
  {
  }

  lemma OthersRefinePipe(s: State, a: Action, t: State)
    requires Shaped(s) && Legal(s, a) && t == Step(s, a) && s.lock != Lock.Client
    requires !a.EncodeStep? && !a.OtherThrows? && !a.Push? && !a.Promise? && !a.EndPass?
    ensures Abs(t) == Abs(s)
  {
  }

  lemma EncodeRefinesPipe(s: State, t: State)
    requires Enabled(s, EncodeStep) && t == Step(s, EncodeStep)
    ensures if Due(s) then
              Encode(Abs(s), s.run.count == 0, s.run.count > 0 && s.run.pos == s.run.count) == (Abs(t), EncodeHead(s).1)
            else Abs(t) == Abs(s)
  {
    if Due(s) {
      EncodeIgnoresTail(s.ch, Rest(s) + Handed(s), s.run.count == 0, s.run.count > 0 && s.run.pos == s.run.count);
    }
  }

  lemma AbandonRefinesPipe(s: State, t: State)
    requires Enabled(s, OtherThrows) && t == Step(s, OtherThrows)
    ensures Abs(t) == if s.other.second then Encode(Abs(s), false, false).0 else Abs(s)
  {
    if s.other.second {
      EncodeIgnoresTail(s.ch, Rest(s) + Handed(s), false, false);
    }
  }

  lemma PushRefinesPipe(s: State, k: nat, t: State)
    requires Shaped(s) && Enabled(s, Push(k)) && t == Step(s, Push(k))
    ensures Abs(t) == Abs(s)
  {
    var part := s.w.buf[s.w.it..s.w.it + k];
    HeadPushed(s, k, t, part);
    Assoc(s.ch.pending, part, Rest(t) + Handed(s));
    Assoc(part, Rest(t), Handed(s));
  }

  // ---- The shape of a run, under every interleaving ----

  /** The step promises nothing, starts no run and no flush, and does not come from the other channel. */
  predicate Calm(s: State, a: Action) {
    && !a.Promise? && !(a.EndPass? && Wraps(s)) && !a.Flush? && !(a.Write? && s.w.cyclic)
    && !a.RunBegin? && !a.OtherThrows?
  }

  predicate AllCalm(s: State, acts: seq<Action>)
    requires Runs(s, acts)
    decreases |acts|
  {
    acts == [] || (Calm(s, acts[0]) && AllCalm(Step(s, acts[0]), acts[1..]))
  }

  /** The channel can give a value at position 0. */
  predicate Ready(p: Pipe) {
    Backed(p) && (p.avail > 0 || p.previous.Some?)
  }

  /** A run of `n` samples that began on the channel `p` has got to its position as the sequential run does. */
  ghost predicate OnCourse(s: State, p: Pipe, n: nat) {
    && Ready(p) && s.run.count == n > 0 && s.lock != Lock.Client
    && Abs(s) == After(p, n, s.run.pos)
    && |s.h.flow.slots| == s.run.pos && Filled(s.h.flow.slots, p, n)
  }

  /** `k` transfers have been begun, the last of them before the end of the run. */
  predicate InBlocks(s: State, n: nat, k: nat) {
    s.run.pos + s.run.left == s.size * k && (k > 0 ==> s.size * (k - 1) < n)
  }

  /** What an encoding step does to the position and the slots of the run. */
  lemma EncodedSlots(s: State, t: State)
    requires Enabled(s, EncodeStep) && t == Step(s, EncodeStep)
    ensures t.run.pos == s.run.pos + 1 && t.run.count == s.run.count && t.lock != Lock.Client && t.size == s.size
    ensures if Due(s) then t.h.flow.slots == s.h.flow.slots + [EncodeHead(s).1.value]
            else t.h.flow.slots == Padded(s.h.flow.slots)
  {
  }

  /** A due slot gets the value of the sequential run. */
  lemma GivenOnCourse(s: State, p: Pipe, n: nat, t: State)
    requires OnCourse(s, p, n) && Due(s) && Enabled(s, EncodeStep) && t == Step(s, EncodeStep)
    ensures Abs(t) == After(p, n, s.run.pos + 1) && EncodeHead(s).1 == Emitted(ValueAt(p, n, s.run.pos))
  {
    EncodeRefinesPipe(s, t);
    EncodeAt(p, n, s.run.pos);
  }

  /** Past the look-ahead the sequential run stays where it is. */
  lemma PastRun(p: Pipe, n: nat, q: nat)
    requires Ready(p) && q > n
    ensures After(p, n, q + 1) == After(p, n, q) && ValueAt(p, n, q) == ValueAt(p, n, q - 1)
  {
  }

  ghost predicate Filled(slots: seq<real>, p: Pipe, n: nat)
    requires Ready(p)
  {
    forall q :: 0 <= q < |slots| ==> slots[q] == ValueAt(p, n, q)
  }

  lemma FilledNext(slots: seq<real>, p: Pipe, n: nat, v: real)
    requires Ready(p) && Filled(slots, p, n) && v == ValueAt(p, n, |slots|)
    ensures Filled(slots + [v], p, n)
  {
  }

  lemma EncodedOnCourse(s: State, p: Pipe, n: nat, t: State)
    requires OnCourse(s, p, n) && Enabled(s, EncodeStep) && t == Step(s, EncodeStep)
    ensures OnCourse(t, p, n)
  {
    EncodedSlots(s, t);
    if Due(s) {
      GivenOnCourse(s, p, n, t);
    } else {
      EncodeRefinesPipe(s, t);
      PastRun(p, n, s.run.pos);
    }
    FilledNext(s.h.flow.slots, p, n, ValueAt(p, n, s.run.pos));
  }

  lemma OthersOnCourse(s: State, p: Pipe, n: nat, a: Action, t: State)
    requires Shaped(s) && OnCourse(s, p, n) && Legal(s, a) && Calm(s, a) && !a.EncodeStep? && t == Step(s, a)
    ensures OnCourse(t, p, n)
  {
    CalmRefines(s, a);
    CalmProgress(s, a);
  }

  lemma CalmRefines(s: State, a: Action)
    requires Shaped(s) && Legal(s, a) && Calm(s, a) && !a.EncodeStep? && s.lock != Lock.Client
    ensures Abs(Step(s, a)) == Abs(s)
  {
    if a.Push? {
      PushRefinesPipe(s, a.k, Step(s, a));
    } else if a.EndPass? {
      EndPassRefinesPipe(s, Step(s, a));
    } else {
      OthersRefinePipe(s, a, Step(s, a));
    }
  }

  lemma CalmProgress(s: State, a: Action)
    requires Shaped(s) && Legal(s, a) && Calm(s, a) && !a.EncodeStep? && s.lock != Lock.Client
    ensures var t := Step(s, a);
            && t.run.count == s.run.count && t.run.pos == s.run.pos && t.size == s.size
            && t.h.flow.slots == s.h.flow.slots && t.lock != Lock.Client
            && (!a.UsbBegin? && !a.Throw? ==> t.run.left == s.run.left)
  {
  }

  /** A run that is on course never meets the missing-fallback exception. */
  lemma NeverThrows(s: State, p: Pipe, n: nat)
    requires OnCourse(s, p, n)
    ensures !Enabled(s, Throw)
  {
    assert s.ch.avail == After(p, n, s.run.pos).avail && s.ch.previous == After(p, n, s.run.pos).previous;
  }

  lemma BlocksStep(s: State, p: Pipe, n: nat, k: nat, a: Action) returns (j: nat)
    requires Shaped(s) && OnCourse(s, p, n) && InBlocks(s, n, k) && Legal(s, a) && Calm(s, a)
    ensures InBlocks(Step(s, a), n, j)
  {
    j := k;
    if a.UsbBegin? {
      j := k + 1;
      NextBlock(s.size, k);
    } else if a.Throw? {
      NeverThrows(s, p, n);
    } else if !a.EncodeStep? {
      CalmProgress(s, a);
    }
  }

  lemma NextBlock(size: nat, k: nat)
    ensures size * (k + 1) == size * k + size
  {
  }

  lemma StepOnCourse(s: State, p: Pipe, n: nat, k: nat, a: Action) returns (j: nat)
    requires Shaped(s) && OnCourse(s, p, n) && InBlocks(s, n, k) && Legal(s, a) && Calm(s, a)
    ensures var t := Step(s, a); OnCourse(t, p, n) && InBlocks(t, n, j) && t.size == s.size
  {
    if a.EncodeStep? {
      EncodedOnCourse(s, p, n, Step(s, a));
      EncodedSlots(s, Step(s, a));
    } else {
      OthersOnCourse(s, p, n, a, Step(s, a));
      CalmProgress(s, a);
    }
    j := BlocksStep(s, p, n, k, a);
  }

  lemma {:induction false} StaysOnCourse(s: State, p: Pipe, n: nat, k: nat, acts: seq<Action>) returns (j: nat)
    requires Inv(s) && OnCourse(s, p, n) && InBlocks(s, n, k) && Runs(s, acts) && AllCalm(s, acts)
    ensures var t := Final(s, acts); OnCourse(t, p, n) && InBlocks(t, n, j) && t.size == s.size
    decreases |acts|
  {
    if acts == [] {
      j := k;
    } else {
      var next := StepOnCourse(s, p, n, k, acts[0]);
      InvStep(s, acts[0]);
      j := StaysOnCourse(Step(s, acts[0]), p, n, next, acts[1..]);
    }
  }

  /** What a run begins on is a backed channel. */
  lemma AbsBacked(s: State)
    requires Shaped(s) && Promised(s) && !s.h.log.continuous && s.lock != Lock.Client
    ensures Backed(Abs(s))
  {
    LineSplits(s);
  }

  /**
   * Shape of a run under every interleaving.  While nothing more is written, a
   * run of `N` samples in transfers of `S` slots gives slot `q` the value of the
   * sequential run: the owed values in order, then the last of them or the
   * earlier fallback, and one padding value from position `N` on; when it is
   * over it has filled `S * ceil(N/S)` slots, and the channel owes what the
   * sequential run leaves.
   */
  lemma ConcurrentRunShape(s: State, n: nat, acts: seq<Action>)
    requires Inv(s) && !s.h.log.continuous && s.lock != Lock.Client && s.size > 0
    requires s.run.count == n > 0 && s.run.pos == s.run.left == 0 && s.h.flow.slots == []
    requires s.ch.avail > 0 || s.ch.previous.Some?
    requires Runs(s, acts) && AllCalm(s, acts)
    ensures Backed(Abs(s))
    ensures var t := Final(s, acts);
            && |t.h.flow.slots| == t.run.pos && Abs(t) == After(Abs(s), n, t.run.pos)
            && (forall q :: 0 <= q < t.run.pos ==> t.h.flow.slots[q] == ValueAt(Abs(s), n, q))
            && (t.run.pos >= n && t.run.left == 0 ==> t.run.pos == s.size * CeilDiv(n, s.size))
  {
    AbsBacked(s);
    assert After(Abs(s), n, 0) == Abs(s);
    var j := StaysOnCourse(s, Abs(s), n, 0, acts);
    WholeBlocks(Final(s, acts), n, j);
  }

  lemma WholeBlocks(t: State, n: nat, k: nat)
    requires InBlocks(t, n, k) && t.size > 0 && n > 0
    ensures t.run.pos >= n && t.run.left == 0 ==> t.run.pos == t.size * CeilDiv(n, t.size)
  {
    if t.run.pos >= n && t.run.left == 0 {
      NextBlock(t.size, k - 1);
      CeilDivUnique(n, t.size, k);
    }
  }

  // ---- Where the guarantees stop ----

  /** The step begins a flush, asked for or made by a write after a cyclic one. */
  predicate Flushes(s: State, a: Action) {
    a.Flush? || (a.Write? && s.w.cyclic)
  }

  predicate AllByWriter(acts: seq<Action>) {
    forall k :: 0 <= k < |acts| ==> ByWriter(acts[k])
  }

  /** A schedule of the writer from the beginning of a flush. */
  ghost predicate During(s: State, a: Action, acts: seq<Action>)
    requires Legal(s, a)
  {
    Runs(Step(s, a), acts) && AllByWriter(acts)
  }

  /** The schedule after which the flush goes through. */
  ghost predicate Through(s: State, a: Action, acts: seq<Action>)
    requires Legal(s, a)
  {
    During(s, a, acts) && Legal(Final(Step(s, a), acts), FlushEnd)
  }

  function Flushed(s: State, a: Action, acts: seq<Action>): State
    requires Legal(s, a) && Runs(Step(s, a), acts) && Legal(Final(Step(s, a), acts), FlushEnd)
  {
    Step(Final(Step(s, a), acts), FlushEnd)
  }

  /** The writer has a buffer it has not picked up. */
  predicate Unclaimed(s: State) {
    !InLoop(s) && s.w.buf != []
  }

  /** It has a thread to pick it up, and cannot get rid of all of it without the encoder. */
  predicate Endless(s: State) {
    Unclaimed(s) && s.w.pc.AtWait? && (s.w.cyclic || |s.ch.pending| + |s.w.buf| > s.capacity)
  }

  /** How far a flush that began in `s` has got: one line for each way it can go. */
  predicate OnFlush(s: State, t: State) {
    && t.client.Flushing? && t.lock == Lock.Client && t.ch.next == s.ch.next && t.capacity == s.capacity
    && (|| (t.w == s.w && t.ch.pending == s.ch.pending && t.stop.Halt?)                    // nothing happened yet
        || (InLoop(s) && InLoop(t) && t.stop.Halt?)                                        // being halted
        || (!InLoop(t) && t.w.buf == [])                                                   // halted, or used up
        || (Woken(s, t)))
  }

  /** The writer picked the buffer up and took the halt back. */
  predicate Woken(s: State, t: State) {
    && Unclaimed(s) && s.w.pc.AtWait? && InLoop(t) && t.stop.Go? && t.w.cyclic == s.w.cyclic
    && (s.w.cyclic || |t.ch.pending| + |Rest(t)| == |s.ch.pending| + |s.w.buf|)
  }

  lemma OnFlushStep(s: State, t: State, b: Action)
    requires Shaped(t) && OnFlush(s, t) && Legal(t, b) && ByWriter(b) && Shaped(s)
    ensures OnFlush(s, Step(t, b))
  {
  }

  lemma {:induction false} StaysOnFlush(s: State, t: State, acts: seq<Action>)
    requires Inv(s) && Inv(t) && OnFlush(s, t) && Runs(t, acts) && AllByWriter(acts)
    ensures OnFlush(s, Final(t, acts)) && Inv(Final(t, acts))
    decreases |acts|
  {
    if acts != [] {
      assert ByWriter(acts[0]) && forall k :: 0 <= k < |acts| - 1 ==> acts[1..][k] == acts[k + 1];
      OnFlushStep(s, t, acts[0]);
      InvStep(t, acts[0]);
      StaysOnFlush(s, Step(t, acts[0]), acts[1..]);
    }
  }

  // ---- When a flush ends ----

  /** The writer runs on under the flush that waits for it, and has nowhere to push. */
  predicate Hung(s: State) {
    && s.client.Flushing? && InLoop(s) && s.stop.Go?
    && (s.w.cyclic || |s.ch.pending| + |Rest(s)| > s.capacity)
  }

  /** A hung flush stays hung, whatever any thread does; it never ends. */
  lemma HungStays(s: State, a: Action)
    requires Shaped(s) && Hung(s) && Legal(s, a)
    ensures Hung(Step(s, a)) && !a.FlushEnd?
  {
  }

  lemma {:induction false} HungForever(s: State, acts: seq<Action>)
    requires Inv(s) && Hung(s) && Runs(s, acts)
    ensures Hung(Final(s, acts)) && !Enabled(Final(s, acts), FlushEnd)
    decreases |acts|
  {
    if acts != [] {
      HungStays(s, acts[0]);
      InvStep(s, acts[0]);
      HungForever(Step(s, acts[0]), acts[1..]);
    }
  }

  /** The writer's next step towards the end of its loop. */
  function Drain(s: State): Action {
    match s.w.pc
    case Pushing => Push(if s.stop.Go? && !s.w.cyclic then |Rest(s)| else 0)
    case FirstRead => ReadOnce
    case SecondRead => ReadTwice
    case Paused => Resume
    case _ => EndPass
  }

  function DrainRank(s: State): nat {
    if !InLoop(s) then 0
    else if s.stop.Go? then
      (if s.w.it < |s.w.buf| then 5 else 0) +
      match s.w.pc
        case Pushing => 1
        case FirstRead => 4
        case SecondRead => 3
        case Paused => 3
        case _ => 2
    else match s.w.pc
      case Pushing => 3
      case FirstRead => 2
      case SecondRead => 1
      case Paused => 5
      case _ => 4
  }

  lemma DrainStep(s: State)
    requires Shaped(s) && s.client.Flushing? && InLoop(s) && !Hung(s)
    ensures Legal(s, Drain(s)) && ByWriter(Drain(s))
    ensures var t := Step(s, Drain(s)); t.client.Flushing? && !Hung(t) && DrainRank(t) < DrainRank(s)
  {
  }

  lemma {:induction false} Drains(s: State) returns (acts: seq<Action>)
    requires Inv(s) && s.client.Flushing? && !Hung(s)
    ensures |acts| <= DrainRank(s) && AllByWriter(acts) && Runs(s, acts) && Legal(Final(s, acts), FlushEnd)
    decreases DrainRank(s)
  {
    if !InLoop(s) {
      acts := [];
    } else {
      var a := Drain(s);
      DrainStep(s);
      InvStep(s, a);
      var more := Drains(Step(s, a));
      acts := Unfolds(s, a, more);
      assert acts == [a] + more;
    }
  }

  ghost predicate Completes(s: State, acts: seq<Action>) {
    Runs(s, acts) && Enabled(Final(s, acts), FlushEnd)
  }

  /** A flush under way can still end if and only if it is not hung; then at most ten steps of the writer end it. */
  lemma FlushEndsExactly(s: State)
    requires Inv(s) && s.client.Flushing?
    ensures (exists acts :: Completes(s, acts)) <==> !Hung(s)
  {
    if Hung(s) {
      forall acts | Runs(s, acts)
        ensures !Completes(s, acts)
      {
        HungForever(s, acts);
      }
    } else {
      var acts := Drains(s);
      assert Completes(s, acts);
    }
  }

  ghost predicate Hangs(s: State, a: Action, acts: seq<Action>)
    requires Legal(s, a)
  {
    During(s, a, acts) && Hung(Final(Step(s, a), acts))
  }

  /**
   * Which calls can hang: exactly those that find a published buffer the writer
   * has not picked up, cyclic or too long for the room in the queue.
   */
  lemma FlushCanHang(s: State, a: Action)
    requires Inv(s) && Legal(s, a) && Flushes(s, a)
    ensures (exists acts :: Hangs(s, a, acts)) <==> Endless(s)
  {
    var t := Step(s, a);
    InvStep(s, a);
    forall acts | During(s, a, acts)
      ensures Hung(Final(t, acts)) ==> Endless(s)
    {
      StaysOnFlush(s, t, acts);
    }
    if Endless(s) {
      assert Runs(Step(t, Wake), []);
      var acts := Unfolds(t, Wake, []);
      assert acts == [Wake];
      assert Hangs(s, a, [Wake]);
    }
  }

  // ---- What a flush leaves ----

  lemma FlushedLine(s: State, a: Action, acts: seq<Action>)
    requires Inv(s) && Legal(s, a) && Flushes(s, a) && Through(s, a, acts)
    ensures var t := Flushed(s, a, acts);
            t.ch.avail == 0 && (Line(t) == Slot(s.ch.next) || (Unclaimed(s) && Line(t) == Slot(s.ch.next) + s.w.buf))
  {
    InvStep(s, a);
    StaysOnFlush(s, Step(s, a), acts);
    FlushLine(Final(Step(s, a), acts), Flushed(s, a, acts));
  }

  /** Every schedule of the flush leaves nothing to come. */
  ghost predicate Empties(s: State, a: Action)
    requires Legal(s, a)
  {
    forall acts :: Through(s, a, acts) ==> Line(Flushed(s, a, acts)) == []
  }

  /**
   * Exactly when a flush empties the channel, seen from the call: there is no
   * look-ahead, and no buffer that the writer has not picked up.
   */
  lemma FlushLeaves(s: State, a: Action)
    requires Inv(s) && Legal(s, a) && Flushes(s, a)
    ensures Empties(s, a) <==> s.ch.next.None? && !Unclaimed(s)
  {
    if s.ch.next.None? && !Unclaimed(s) {
      forall acts | Through(s, a, acts)
        ensures Line(Flushed(s, a, acts)) == []
      {
        FlushedLine(s, a, acts);
      }
    } else {
      var acts := SomeLeft(s, a);
    }
  }

  lemma SomeLeft(s: State, a: Action) returns (acts: seq<Action>)
    requires Inv(s) && Legal(s, a) && Flushes(s, a) && (s.ch.next.Some? || Unclaimed(s))
    ensures Through(s, a, acts) && Line(Flushed(s, a, acts)) != []
  {
    var t := Step(s, a);
    InvStep(s, a);
    if InLoop(s) {
      acts := Drains(t);
    } else {
      acts := [];
    }
    assert During(s, a, acts);
    FlushedLine(s, a, acts);
    if !InLoop(s) {
      FlushLine(t, Flushed(s, a, acts));
    }
  }

  /** A written buffer that is flushed at once stays; the next run sends it. */
  lemma LeftoverIsReachable() returns (acts: seq<Action>)
    ensures Runs(Init(8, 4, true), acts)
    ensures var s := Final(Init(8, 4, true), acts); s.client.Idle? && s.lock.Free? && Line(s) == [1.0]
  {
    var b := Buffer([1.0], false);
    var s1 := Step(Init(8, 4, true), Write(b));
    var s2 := Step(s1, Promise);
    var s3 := Step(s2, Publish);
    var s4 := Step(s3, Flush);
    acts := Unfolds(s4, FlushEnd, []);
    acts := Unfolds(s3, Flush, acts);
    acts := Unfolds(s2, Publish, acts);
    acts := Unfolds(s1, Promise, acts);
    acts := Unfolds(Init(8, 4, true), Write(b), acts);
  }

  /** A cyclic buffer that is flushed as soon as it is written, once a writer thread exists, can hang the flush. */
  lemma HungIsReachable() returns (acts: seq<Action>)
    ensures Runs(Init(8, 4, true), acts) && Hung(Final(Init(8, 4, true), acts))
  {
    var s4 := Looping();
    var s5 := Step(s4, Publish);
    var s6 := Step(s5, Flush);
    acts := Unfolds(s6, Wake, []);
    acts := Unfolds(s5, Flush, acts);
    acts := Unfolds(s4, Publish, acts);
    acts := LoopingIsReachable(acts);
  }

  /** A run has been started, and a cyclic buffer promised. */
  function Looping(): State {
    State(8, 4, Pipe(1, [], None, None), Writer([], false, AtWait, 0), Run(1, 0, 0, true), Go, Free,
          Handing(Buffer([1.0], true)), Other(true, true),
          History(Flow([1.0], [], [], [], [], [], 0, 0), Log([1], true, 0, true, false, false), 0, 0, false))
  }

  lemma LoopingIsReachable(rest: seq<Action>) returns (acts: seq<Action>)
    requires Runs(Looping(), rest)
    ensures Runs(Init(8, 4, true), acts) && Final(Init(8, 4, true), acts) == Final(Looping(), rest)
  {
    var b := Buffer([1.0], true);
    var s0 := Init(8, 4, true);
    var s1 := Step(s0, RunBegin(1));
    var s2 := Step(s1, RunResume);
    var s3 := Step(s2, Write(b));
    assert Step(s3, Promise) == Looping();
    acts := Unfolds(s3, Promise, rest);
    acts := Unfolds(s2, Write(b), acts);
    acts := Unfolds(s1, RunResume, acts);
    acts := Unfolds(s0, RunBegin(1), acts);
  }

  // ---- The torn read ----

  /**
   * The writer reads `stop` twice per pass.  When off() sets it between the two
   * reads, the pause is taken for a halt: the unpushed rest of the buffer is
   * wiped while the counter keeps promising it.  The promise survives exactly
   * when earlier peeks had already been charged for as many values.
   */
  lemma TornReadWipesRest(s: State)
    requires Inv(s) && s.w.pc.SecondRead? && s.client.Idle? && !s.h.flushed && !s.h.log.continuous
    ensures Enabled(s, Off) && Enabled(Step(s, Off), ReadTwice)
    ensures var t := Step(Step(s, Off), ReadTwice);
            && t.ch.avail == s.ch.avail && t.lock == s.lock && Line(t) + Rest(s) == Line(s)
            && (t.ch.avail <= |Line(t)| <==> |Rest(s)| <= s.h.flow.peeks)
  {
    var t := Step(Step(s, Off), ReadTwice);
    assert Handed(s) == [] && Line(t) == Source(s.ch);
    LineSplits(s);
  }

  /** A buffer of two values has been written and a run of two samples has started. */
  function Started(): State {
    State(8, 4, Pipe(2, [], None, None), Writer([1.0, 2.0], false, AtWait, 0), Run(2, 0, 0, true), Go, Free, Idle,
          Other(true, true),
          History(Flow([1.0, 2.0], [], [], [], [], [], 0, 0), Log([2], true, 0, true, false, true), 0, 0, false))
  }

  lemma StartedIsReachable(rest: seq<Action>) returns (acts: seq<Action>)
    requires Runs(Started(), rest)
    ensures Runs(Init(8, 4, true), acts) && Final(Init(8, 4, true), acts) == Final(Started(), rest)
  {
    var b := Buffer([1.0, 2.0], false);
    var s1 := Step(Init(8, 4, true), Write(b));
    var s2 := Step(s1, Promise);
    var s3 := Step(s2, Publish);
    var s4 := Step(s3, RunBegin(2));
    assert Step(s4, RunResume) == Started();
    acts := Unfolds(s4, RunResume, rest);
    acts := Unfolds(s3, RunBegin(2), acts);
    acts := Unfolds(s2, Publish, acts);
    acts := Unfolds(s1, Promise, acts);
    acts := Unfolds(Init(8, 4, true), Write(b), acts);
  }

  /** An ordinary history reaches such a state with a value still to push and no peek. */
  lemma TornReadIsReachable() returns (acts: seq<Action>)
    ensures Runs(Init(8, 4, true), acts)
    ensures var s := Final(Init(8, 4, true), acts);
            && s.w.pc.SecondRead? && s.client.Idle? && !s.h.flushed && !s.h.log.continuous
            && Rest(s) == [2.0] && s.h.flow.peeks == 0
  {
    var s6 := Step(Started(), Wake);
    var s7 := Step(s6, Push(1));
    acts := Unfolds(s7, ReadOnce, []);
    acts := Unfolds(s6, Push(1), acts);
    acts := Unfolds(Started(), Wake, acts);
    acts := StartedIsReachable(acts);
  }

  lemma Unfolds(s: State, a: Action, rest: seq<Action>) returns (acts: seq<Action>)
    requires Legal(s, a) && Runs(Step(s, a), rest)
    ensures acts == [a] + rest && Runs(s, acts) && Final(s, acts) == Final(Step(s, a), rest)
  {
    acts := [a] + rest;
    assert acts[1..] == rest;
  }
}
