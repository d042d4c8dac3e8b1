/**
 * `read()` and `flush()` in the client thread against `handle_in_transfer` in
 * the USB thread, one access at a time.  The USB thread pushes a sample and
 * then raises the counter; `read()` pops and then lowers it.
 */
module ReadRace {
  import opened Wrappers
  import opened OutputPipe
  import opened InputPath

  datatype ClientPc =
    | Idle
    | Skipping(todo: nat, done: nat, wanted: nat)  // popping samples to skip; the counter is lowered once at the end
    | Top(wanted: nat)                             // head of the reading loop
    | Popping(todo: nat, after: nat)               // `todo` more of this batch, `after` beyond it
    | Popped(todo: nat, after: nat, x: Sample)     // popped, counter not lowered yet

  datatype State = State(
    capacity: nat,
    queue: seq<Sample>, avail: Counter,
    counting: bool,         // the USB thread has pushed and not raised the counter yet
    client: ClientPc,
    asked: nat, buf: seq<Sample>,  // the current or last read
    // histories
    arrived: seq<Sample>,   // pushed samples
    gone: seq<Sample>,      // read, skipped or flushed samples, in order
    mark: nat,              // |gone| when the current read took its first sample
    fabricated: bool)       // a pop found the queue empty

  function Init(capacity: nat): State {
    State(capacity, [], 0, false, Idle, 0, [], [], [], 0, false)
  }

  datatype Action =
    | Arrive(x: Sample) | Count
    | Read(samples: nat, skip: bool) | SkipPop | SkipDone
    | Snapshot | Pop | Lower | BatchDone | TimeOut | Flush

  predicate Enabled(s: State, a: Action) {
    match a
    case Arrive(_) => !s.counting && |s.queue| < s.capacity
    case Count => s.counting
    case Read(_, _) => s.client.Idle?
    case SkipPop => s.client.Skipping? && s.client.todo > 0
    case SkipDone => s.client.Skipping? && s.client.todo == 0
    case Snapshot => s.client.Top? && s.client.wanted > 0
    case Pop => s.client.Popping? && s.client.todo > 0
    case Lower => s.client.Popped?
    case BatchDone => (s.client.Popping? && s.client.todo == 0) || (s.client.Top? && s.client.wanted == 0)
    case TimeOut => s.client.Popping? && s.client.todo == 0
    case Flush => s.client.Idle? && !s.counting  // holds the device lock
  }

  /** The queue after one pop, and the history of what left it. */
  function PopOne(s: State): State {
    if s.queue == [] then s.(fabricated := true)
    else s.(queue := s.queue[1..], gone := s.gone + [s.queue[0]])
  }

  function Step(s: State, a: Action): State
    requires Enabled(s, a)
  {
    match a
    case Arrive(x) => s.(queue := s.queue + [x], counting := true, arrived := s.arrived + [x])
    case Count => s.(avail := Added(s.avail, 1), counting := false)
    case Read(n, skip) =>
      s.(asked := n, buf := [], mark := |s.gone|,
         client := if skip && s.avail > n then Skipping(s.avail - n, 0, Narrowed(n)) else Top(Narrowed(n)))
    case SkipPop => PopOne(s).(client := Skipping(s.client.todo - 1, s.client.done + 1, s.client.wanted))
    case SkipDone =>
      s.(avail := (s.avail - s.client.done) % WRAP, client := Top(s.client.wanted), mark := |s.gone|)
    case Snapshot =>
      var batch := Min(s.client.wanted, s.avail);
      s.(client := Popping(batch, s.client.wanted - batch))
    case Pop =>
      var sample := if s.queue == [] then (0.0, 0.0, 0.0, 0.0) else s.queue[0];
      PopOne(s).(client := Popped(s.client.todo, s.client.after, sample))
    case Lower =>
      s.(avail := Decremented(s.avail), buf := s.buf + [s.client.x],
         client := if s.client.todo > 0 then Popping(s.client.todo - 1, s.client.after) else Popping(0, s.client.after))
    case BatchDone =>
      if s.client.Popping? && s.client.after > 0 then s.(client := Top(s.client.after)) else s.(client := Idle)
    case TimeOut => s.(client := Idle)
    case Flush => s.(queue := [], avail := 0, gone := s.gone + s.queue)
  }

  predicate Runs(s: State, acts: seq<Action>)
    decreases |acts|
  {
    acts == [] || (Enabled(s, acts[0]) && Runs(Step(s, acts[0]), acts[1..]))
  }

  function Final(s: State, acts: seq<Action>): State
    requires Runs(s, acts)
    decreases |acts|
  {
    if acts == [] then s else Final(Step(s, acts[0]), acts[1..])
  }

  // ---- Invariants ----

  /** Samples popped whose counter update is still to come. */
  function Owed(c: ClientPc): nat {
    match c
    case Skipping(_, done, _) => done
    case Popped(_, _, _) => 1
    case _ => 0
  }

  /** Pops the client has committed to. */
  function Committed(c: ClientPc): nat {
    match c
    case Skipping(todo, _, _) => todo
    case Popping(todo, _) => todo
    case Popped(todo, _, _) => if todo > 0 then todo - 1 else 0
    case _ => 0
  }

  /** The counter and the queue differ by the updates in progress; committed pops will find a sample. */
  predicate Balanced(s: State) {
    && |s.queue| <= s.capacity && 2 * s.capacity + 2 < WRAP
    && s.avail + (if s.counting then 1 else 0) == |s.queue| + Owed(s.client)
    && Committed(s.client) + (if s.counting then 1 else 0) <= |s.queue| && !s.fabricated
    && (s.client.Skipping? ==> s.client.todo + s.client.done <= s.capacity)
    && (s.client.Popped? ==> s.client.todo > 0)
  }

  /** Samples leave in the order they arrived. */
  predicate Fifo(s: State) {
    s.arrived == s.gone + s.queue
  }

  /** The result buffer is what the current read took, and with what it still wants makes up the request. */
  predicate Reading(s: State) {
    && s.mark <= |s.gone|
    && match s.client
       case Idle => true
       case Skipping(_, _, wanted) => s.buf == [] && wanted == Narrowed(s.asked)
       case Top(wanted) => s.gone[s.mark..] == s.buf && |s.buf| + wanted == Narrowed(s.asked)
       case Popping(todo, after) => s.gone[s.mark..] == s.buf && |s.buf| + todo + after == Narrowed(s.asked)
       case Popped(todo, after, x) => s.gone[s.mark..] == s.buf + [x] && |s.buf| + todo + after == Narrowed(s.asked)
  }

  predicate Inv(s: State) {
    Balanced(s) && Fifo(s) && Reading(s)
  }

  lemma BalancedStep(s: State, a: Action)
    requires Balanced(s) && Enabled(s, a)
    ensures Balanced(Step(s, a))
  {
  }

  lemma FifoStep(s: State, a: Action)
    requires Balanced(s) && Fifo(s) && Enabled(s, a)
    ensures Fifo(Step(s, a))
  {
    if (a.SkipPop? || a.Pop?) && s.queue != [] {
      assert s.queue == [s.queue[0]] + s.queue[1..];
    }
  }

  lemma ReadingStep(s: State, a: Action)
    requires Inv(s) && Enabled(s, a)
    ensures Reading(Step(s, a))
  {
    var t := Step(s, a);
    if a.Pop? {
      assert t.gone[s.mark..] == s.gone[s.mark..] + [s.queue[0]];
    }
  }

  lemma {:induction false} InvRuns(s: State, acts: seq<Action>)
    requires Inv(s) && Runs(s, acts)
    ensures Inv(Final(s, acts))
    decreases |acts|
  {
    if acts != [] {
      BalancedStep(s, acts[0]);
      FifoStep(s, acts[0]);
      ReadingStep(s, acts[0]);
      InvRuns(Step(s, acts[0]), acts[1..]);
    }
  }

  // ---- Main results ----

  /**
   * Over every interleaving no pop ever finds the queue empty, and the samples
   * read, skipped or flushed so far, in order, followed by those still queued,
   * are exactly the samples pushed.
   */
  lemma NeverFabricates(capacity: nat, acts: seq<Action>)
    requires 2 * capacity + 2 < WRAP && Runs(Init(capacity), acts)
    ensures var s := Final(Init(capacity), acts);
            && !s.fabricated && s.arrived == s.gone + s.queue
            && ((s.client.Skipping? || s.client.Popping?) && s.client.todo > 0 ==> s.queue != [])
  {
    InvRuns(Init(capacity), acts);
  }

  /** A read that ends without running out of time has returned exactly the samples asked for (as a 32-bit count). */
  lemma BlockingReadIsExact(capacity: nat, acts: seq<Action>)
    requires 2 * capacity + 2 < WRAP && Runs(Init(capacity), acts)
    ensures var s := Final(Init(capacity), acts);
            Enabled(s, BatchDone) && Step(s, BatchDone).client.Idle? ==>
              |s.buf| == s.asked % WRAP && s.mark <= |s.gone| && s.buf == s.gone[s.mark..]
  {
    InvRuns(Init(capacity), acts);
  }

  /** When nobody is in the middle of an update the counter is the length of the queue. */
  lemma CounterIsLength(capacity: nat, acts: seq<Action>)
    requires 2 * capacity + 2 < WRAP && Runs(Init(capacity), acts)
    ensures var s := Final(Init(capacity), acts);
            !s.counting && (s.client.Idle? || s.client.Top? || s.client.Popping?) ==> s.avail == |s.queue|
  {
    InvRuns(Init(capacity), acts);
  }

  /** A pass of read() takes all there is, or as much as is still wanted. */
  lemma SnapshotTakesAll(s: State)
    requires Inv(s) && Enabled(s, Snapshot)
    ensures var t := Step(s, Snapshot);
            && t.client.Popping? && t.client.todo + t.client.after == s.client.wanted
            && (t.client.after > 0 ==> t.client.todo + (if s.counting then 1 else 0) == |s.queue|)
  {
  }

  // ---- One read among arriving samples ----

  /** The read that was called in a state with `from` samples gone goes on, and has come as far as it should. */
  predicate Underway(s: State, first: nat, n: nat) {
    && s.asked == n
    && match s.client
       case Idle => s.mark == first
       case Skipping(todo, _, _) => |s.gone| + todo == first
       case _ => s.mark == first
  }

  predicate Consecutive(buf: seq<Sample>, all: seq<Sample>, first: nat) {
    first + |buf| <= |all| && buf == all[first..first + |buf|]
  }

  /** No other call: the client has one thread. */
  predicate Alone(acts: seq<Action>) {
    forall k :: 0 <= k < |acts| ==> !acts[k].Read? && !acts[k].Flush?
  }

  lemma UnderwayStep(s: State, first: nat, n: nat, a: Action)
    requires Inv(s) && Underway(s, first, n) && Enabled(s, a) && !a.Read? && !a.Flush?
    ensures Underway(Step(s, a), first, n)
  {
  }

  lemma {:induction false} StaysUnderway(s: State, first: nat, n: nat, acts: seq<Action>)
    requires Inv(s) && Underway(s, first, n) && Runs(s, acts) && Alone(acts)
    ensures Inv(Final(s, acts)) && Underway(Final(s, acts), first, n)
    decreases |acts|
  {
    if acts != [] {
      assert !acts[0].Read? && !acts[0].Flush? && forall k :: 0 <= k < |acts| - 1 ==> acts[1..][k] == acts[k + 1];
      BalancedStep(s, acts[0]);
      FifoStep(s, acts[0]);
      ReadingStep(s, acts[0]);
      UnderwayStep(s, first, n, acts[0]);
      StaysUnderway(Step(s, acts[0]), first, n, acts[1..]);
    }
  }

  /**
   * What a read returns, whatever arrives while it runs: consecutive samples of
   * the input, from the oldest one queued at the call, or with `skip` from the
   * oldest of the newest `n` that were counted then.  It returns as many as were
   * asked for, or, when the time is up, those it has.
   */
  lemma ReadReturns(s: State, n: nat, skip: bool, acts: seq<Action>)
    requires Inv(s) && Enabled(s, Read(n, skip)) && Runs(Step(s, Read(n, skip)), acts) && Alone(acts)
    ensures var first := |s.gone| + (if skip && s.avail > n then s.avail - n else 0);
            var t := Final(Step(s, Read(n, skip)), acts);
            && (Enabled(t, BatchDone) && Step(t, BatchDone).client.Idle? ==>
                  |t.buf| == n % WRAP && Consecutive(t.buf, t.arrived, first))
            && (Enabled(t, TimeOut) ==> Step(t, TimeOut) == t.(client := Idle) && Consecutive(t.buf, t.arrived, first))
  {
    var u := Step(s, Read(n, skip));
    BalancedStep(s, Read(n, skip));
    FifoStep(s, Read(n, skip));
    ReadingStep(s, Read(n, skip));
    var first := |s.gone| + (if skip && s.avail > n then s.avail - n else 0);
    StaysUnderway(u, first, n, acts);
    var t := Final(u, acts);
    assert first <= |t.gone| ==> t.gone[first..] == t.arrived[first..|t.gone|];
  }

  /** A flush leaves nothing: all that has arrived is gone. */
  lemma FlushEmpties(s: State)
    requires Inv(s) && Enabled(s, Flush)
    ensures var t := Step(s, Flush); t.queue == [] && t.avail == 0 && t.gone == t.arrived == s.arrived
  {
  }
}
