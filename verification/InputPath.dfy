/**
 * Incoming samples of one device: `handle_in_transfer` pushes them to a bounded
 * queue with its own counter, `read()` takes them out.
 */
module InputPath {
  import opened Wrappers

  /** Channel A voltage and current, channel B voltage and current. */
  type Sample = (real, real, real, real)

  /** The queue, `m_in_samples_avail`, `m_in_sampleno`, `m_sample_count`, and whether a drop is recorded. */
  datatype In = In(capacity: nat, queue: seq<Sample>, avail: nat, sampleno: nat, count: nat, dropped: bool)

  predicate Wanted(s: In, sampleno: nat) {
    s.count == 0 || sampleno <= s.count
  }

  /** One pass of the loop of `handle_in_transfer`; it raises an exception when the queue is full. */
  function Take(s: In, x: Sample): (r: (In, bool)) {
    var t := s.(sampleno := s.sampleno + 1);
    if !Wanted(s, t.sampleno) then (t, true)
    else if |s.queue| < s.capacity then (t.(queue := s.queue + [x], avail := s.avail + 1), true)
    else (t, false)
  }

  /** A whole transfer; the exception abandons the rest of it and is recorded by the callback. */
  function Receive(s: In, data: seq<Sample>): In
    decreases |data|
  {
    if data == [] then s
    else
      var (t, ok) := Take(s, data[0]);
      if ok then Receive(t, data[1..]) else t.(dropped := true)
  }

  /** The transfers of a run, in the order they complete. */
  function ReceiveAll(s: In, transfers: seq<seq<Sample>>): In
    decreases |transfers|
  {
    if transfers == [] then s else ReceiveAll(Receive(s, transfers[0]), transfers[1..])
  }

  class InputQueue {
    const capacity: nat
    var queue: seq<Sample>
    var avail: nat
    var sampleno: nat
    var count: nat
    var dropped: bool

    function View(): In
      reads this
    {
      In(capacity, queue, avail, sampleno, count, dropped)
    }

    constructor (capacity: nat)
      ensures View() == In(capacity, [], 0, 0, 0, false)
    {
      this.capacity := capacity;
      queue, avail, sampleno, count, dropped := [], 0, 0, 0, false;
    }

    /** The loop of `handle_in_transfer` over decoded samples, with its exception caught by the callback. */
    method HandleInTransfer(data: seq<Sample>)
      modifies this
      ensures View() == Receive(old(View()), data)
    {
      var i := 0;
      while i < |data|
        invariant i <= |data|
        invariant Receive(View(), data[i..]) == Receive(old(View()), data)
      {
        sampleno := sampleno + 1;
        if count == 0 || sampleno <= count {
          if |queue| >= capacity {
            dropped := true;
            return;
          }
          queue := queue + [data[i]];
          avail := avail + 1;
        }
        i := i + 1;
      }
    }

    /** The client's pop number `tick`, followed by what the USB thread queues before its next access. */
    method Pop(arrivals: nat -> seq<Sample>, tick: nat) returns (x: Sample)
      requires queue != []
      modifies this`queue, this`avail
      ensures x == old(queue)[0]
      ensures queue == old(queue)[1..] + arrivals(tick) && avail == old(avail) + |arrivals(tick)|
    {
      x := queue[0];
      queue := queue[1..] + arrivals(tick);
      avail := avail + |arrivals(tick)|;
    }

    /**
     * Pops all but the newest `samples`, and nothing when there are no more; the
     * counter is lowered once, at the end.  What arrives meanwhile queues up behind.
     */
    method Skip(samples: nat, arrivals: nat -> seq<Sample>) returns (ticks: nat)
      requires avail == |queue|
      modifies this`queue, this`avail
      ensures avail == |queue|
      ensures var n := |old(queue)|;
              && ticks == (if n > samples then n - samples else 0)
              && queue == old(queue)[ticks..] + Came(arrivals, ticks)
    {
      ticks := 0;
      if avail > samples {
        var s := avail - samples;
        while ticks < s
          invariant ticks <= s == |old(queue)| - samples && avail == |queue| + ticks
          invariant queue == old(queue)[ticks..] + Came(arrivals, ticks)
        {
          assert queue[1..] == old(queue)[ticks + 1..] + Came(arrivals, ticks);
          Joins(old(queue)[ticks + 1..], Came(arrivals, ticks), arrivals(ticks));
          var _ := Pop(arrivals, ticks);
          ticks := ticks + 1;
        }
        avail := avail - s;
      } else {
        assert old(queue) + [] == old(queue);
      }
    }

    /** The inner loop: moves `n` queued samples to the result, one at a time. */
    method Move(buf: seq<Sample>, n: nat, arrivals: nat -> seq<Sample>, start: nat, ghost line: seq<Sample>)
      returns (r: seq<Sample>, ticks: nat)
      requires avail == |queue| && n <= |queue| && buf + queue == line + Came(arrivals, start)
      modifies this`queue, this`avail
      ensures avail == |queue| && ticks == start + n
      ensures |r| == |buf| + n && r + queue == line + Came(arrivals, ticks)
    {
      r, ticks := buf, start;
      var i := 0;
      while i < n
        invariant i <= n && ticks == start + i && avail == |queue| && n - i <= |queue| && |r| == |buf| + i
        invariant r + queue == line + Came(arrivals, ticks)
      {
        MoveOne(r, queue, line + Came(arrivals, ticks), arrivals(ticks));
        Joins(line, Came(arrivals, ticks), arrivals(ticks));
        var x := Pop(arrivals, ticks);
        avail := avail - 1;
        r := r + [x];
        i, ticks := i + 1, ticks + 1;
      }
    }

    /**
     * `read()`.  `arrivals(k)` is what the USB thread queues after the client's
     * `k`-th access, a pop or a wait; `patience` is the number of waits before
     * the time is up.  `samples` is narrowed to 32 bits.  The result is the
     * samples in order: as many as requested, or all that had come when the
     * last pass began.  With `skip` they begin with the newest `samples` of those
     * queued at the call.
     */
    method Read(samples: nat, skip: bool, arrivals: nat -> seq<Sample>, patience: nat)
      returns (buf: seq<Sample>, waits: nat, ticks: nat, ghost seen: nat)
      requires avail == |queue|
      modifies this`queue, this`avail
      ensures waits <= patience && avail == |queue| && seen <= ticks
      ensures var n := |old(queue)|;
              var line := if skip && n > samples then old(queue)[n - samples..] else old(queue);
              && buf + queue == line + Came(arrivals, ticks)
              && |buf| == Min(samples % WRAP, |line + Came(arrivals, seen)|)
      ensures |buf| < samples % WRAP ==> waits == patience
      ensures skip && |old(queue)| > samples && samples < WRAP ==> buf == old(queue)[|old(queue)| - samples..]
    {
      buf, ticks, waits := [], 0, 0;
      ghost var line := if skip && |queue| > samples then queue[|queue| - samples..] else queue;
      assert line + [] == line;
      if skip {
        var offset := Skip(samples, arrivals);
        ticks := offset;
      }
      var remaining := Narrowed(samples);
      seen := ticks;
      while remaining > 0
        invariant waits <= patience && avail == |queue| && seen <= ticks
        invariant buf + queue == line + Came(arrivals, ticks)
        invariant |buf| + remaining == Narrowed(samples) && 0 <= remaining
        invariant remaining == 0 ==> Narrowed(samples) <= |line + Came(arrivals, seen)|
        decreases patience - waits, remaining
      {
        seen := ticks;
        CountLine(buf, queue, line + Came(arrivals, ticks));
        var batch := Min(remaining, avail);
        buf, ticks := Move(buf, batch, arrivals, ticks, line);
        remaining := remaining - batch;
        if remaining == 0 || waits == patience {
          break;
        }
        Joins(buf, queue, arrivals(ticks));
        Joins(line, Came(arrivals, ticks), arrivals(ticks));
        queue := queue + arrivals(ticks);
        avail := avail + |arrivals(ticks)|;
        waits, ticks := waits + 1, ticks + 1;
      }
      SameFront(buf, queue, line, Came(arrivals, ticks));
    }
  }

  /** What has been queued in the first `k` gaps between the client's accesses. */
  function Came(arrivals: nat -> seq<Sample>, k: nat): seq<Sample> {
    if k == 0 then [] else Came(arrivals, k - 1) + arrivals(k - 1)
  }

  lemma MoveOne(r: seq<Sample>, queue: seq<Sample>, all: seq<Sample>, more: seq<Sample>)
    requires queue != [] && r + queue == all
    ensures (r + [queue[0]]) + (queue[1..] + more) == all + more
  {
    assert queue == [queue[0]] + queue[1..];
  }

  lemma SameFront(a: seq<Sample>, b: seq<Sample>, c: seq<Sample>, d: seq<Sample>)
    requires a + b == c + d
    ensures |a| == |c| ==> a == c
  {
    assert |a| == |c| ==> a == (a + b)[..|a|] && c == (c + d)[..|c|];
  }

  lemma CountLine(buf: seq<Sample>, queue: seq<Sample>, all: seq<Sample>)
    requires buf + queue == all
    ensures |buf| + |queue| == |all|
  {
    assert |buf + queue| == |buf| + |queue|;
  }

  /** A 64-bit sample count kept in a 32-bit variable. */
  function Narrowed(samples: nat): nat {
    samples % WRAP
  }

  lemma Joins(a: seq<Sample>, b: seq<Sample>, c: seq<Sample>)
    ensures (a + b) + c == a + (b + c)
  {
  }

  function Flatten(parts: seq<seq<Sample>>): seq<Sample> {
    if parts == [] then [] else parts[0] + Flatten(parts[1..])
  }

  lemma {:induction false} FlattenJoin(a: seq<seq<Sample>>, b: seq<seq<Sample>>)
    ensures Flatten(a + b) == Flatten(a) + Flatten(b)
  {
    if a == [] {
      assert a + b == b;
    } else {
      FlattenJoin(a[1..], b);
      assert (a + b)[1..] == a[1..] + b;
    }
  }

  // ---- Input prefix and drop detection ----

  /** Samples of a transfer that the run still asks for. */
  function Due(s: In, n: nat): nat {
    if s.count == 0 then n else Min(n, if s.sampleno < s.count then s.count - s.sampleno else 0)
  }

  /** A transfer in closed form: the due samples that fit are queued in order; the first that does not is dropped. */
  function Closed(s: In, data: seq<Sample>): In
    requires |s.queue| <= s.capacity
  {
    var room := s.capacity - |s.queue|;
    var due := Due(s, |data|);
    if due <= room then
      s.(queue := s.queue + data[..due], avail := s.avail + due, sampleno := s.sampleno + |data|)
    else
      s.(queue := s.queue + data[..room], avail := s.avail + room, sampleno := s.sampleno + room + 1, dropped := true)
  }

  lemma ClosedUnwanted(s: In, data: seq<Sample>)
    requires |s.queue| <= s.capacity && data != [] && !Wanted(s, s.sampleno + 1)
    ensures Closed(s, data) == Closed(Take(s, data[0]).0, data[1..])
  {
    assert Due(s, |data|) == 0 == Due(Take(s, data[0]).0, |data| - 1);
    assert data[..0] == data[1..][..0];
  }

  lemma ClosedQueued(s: In, data: seq<Sample>)
    requires |s.queue| < s.capacity && data != [] && Wanted(s, s.sampleno + 1)
    ensures Closed(s, data) == Closed(Take(s, data[0]).0, data[1..])
  {
    var t := Take(s, data[0]).0;
    assert Due(s, |data|) == Due(t, |data| - 1) + 1;
    var k := Min(Due(s, |data|), s.capacity - |s.queue|);
    assert s.queue + data[..k] == (s.queue + [data[0]]) + data[1..][..k - 1];
  }

  lemma {:induction false} ReceiveClosed(s: In, data: seq<Sample>)
    requires |s.queue| <= s.capacity
    ensures Receive(s, data) == Closed(s, data)
    decreases |data|
  {
    if data == [] {
      assert s.queue + [] == s.queue;
    } else {
      var (t, ok) := Take(s, data[0]);
      if ok {
        ReceiveClosed(t, data[1..]);
      }
      if !Wanted(s, s.sampleno + 1) {
        ClosedUnwanted(s, data);
      } else if |s.queue| < s.capacity {
        ClosedQueued(s, data);
      } else {
        assert s.queue + data[..0] == s.queue;
      }
    }
  }

  predicate Sized(transfers: seq<seq<Sample>>, size: nat) {
    forall i :: 0 <= i < |transfers| ==> |transfers[i]| == size
  }

  lemma {:induction false} FlattenSize(transfers: seq<seq<Sample>>, size: nat)
    requires Sized(transfers, size)
    ensures |Flatten(transfers)| == size * |transfers|
  {
    if transfers != [] {
      FlattenSize(transfers[1..], size);
      assert size * |transfers| == size + size * (|transfers| - 1);
    }
  }

  /** A full queue with nothing read stays as it is, whatever else arrives. */
  lemma {:induction false} FullStays(s: In, transfers: seq<seq<Sample>>)
    requires |s.queue| == s.capacity && s.dropped
    ensures var r := ReceiveAll(s, transfers);
            && r.queue == s.queue && r.avail == s.avail && r.dropped
            && r.capacity == s.capacity && r.count == s.count
    decreases |transfers|
  {
    if transfers != [] {
      ReceiveClosed(s, transfers[0]);
      var t := Receive(s, transfers[0]);
      assert t.queue == s.queue;
      FullStays(t, transfers[1..]);
    }
  }

  /** A prefix of two parts is a prefix of the first, continued into the second only once the first is used up. */
  lemma PrefixJoins(q: seq<Sample>, a: seq<Sample>, b: seq<Sample>, m: nat, n: nat)
    requires m <= |a| && n <= |b| && (n > 0 ==> m == |a|)
    ensures (q + a[..m]) + b[..n] == q + (a + b)[..m + n]
  {
  }

  /**
   * `r` is `s` after the samples `all`: the next due ones that fit are queued, and the first
   * that does not is dropped.
   */
  predicate Outcome(s: In, r: In, all: seq<Sample>)
    requires |s.queue| <= s.capacity
  {
    var room, due := s.capacity - |s.queue|, Due(s, |all|);
    && r.queue == s.queue + all[..Min(due, room)]
    && r.avail == s.avail + Min(due, room)
    && r.dropped == (s.dropped || due > room)
    && r.capacity == s.capacity && r.count == s.count
  }

  lemma OutcomeFits(s: In, t: In, r: In, data: seq<Sample>, rest: seq<Sample>)
    requires |s.queue| <= s.capacity && |t.queue| <= t.capacity && Outcome(t, r, rest)
    requires var due := Due(s, |data|);
      && due <= s.capacity - |s.queue|
      && t == s.(queue := s.queue + data[..due], avail := s.avail + due, sampleno := s.sampleno + |data|)
    ensures Outcome(s, r, data + rest)
  {
    var more := Min(Due(t, |rest|), t.capacity - |t.queue|);
    PrefixJoins(s.queue, data, rest, Due(s, |data|), more);
  }

  lemma OutcomeFull(s: In, r: In, data: seq<Sample>, rest: seq<Sample>)
    requires |s.queue| <= s.capacity && s.capacity - |s.queue| < Due(s, |data|)
    requires var room := s.capacity - |s.queue|;
      && r.queue == s.queue + data[..room] && r.avail == s.avail + room && r.dropped
      && r.capacity == s.capacity && r.count == s.count
    ensures Outcome(s, r, data + rest)
  {
    PrefixJoins(s.queue, data, rest, s.capacity - |s.queue|, 0);
  }

  /** What is left of a run, in closed form, whatever the sizes of its transfers. */
  lemma {:induction false} ReceiveAllClosed(s: In, transfers: seq<seq<Sample>>)
    requires s.count > 0 && |s.queue| <= s.capacity
    ensures Outcome(s, ReceiveAll(s, transfers), Flatten(transfers))
    decreases |transfers|
  {
    if transfers == [] {
      assert s.queue + [] == s.queue;
    } else {
      var data, rest := transfers[0], transfers[1..];
      ReceiveClosed(s, data);
      var t := Receive(s, data);
      if Due(s, |data|) <= s.capacity - |s.queue| {
        ReceiveAllClosed(t, rest);
        OutcomeFits(s, t, ReceiveAll(t, rest), data, Flatten(rest));
      } else {
        FullStays(t, rest);
        OutcomeFull(s, ReceiveAll(t, rest), data, Flatten(rest));
      }
    }
  }

  /**
   * Input prefix and drop detection.  If nothing is read during a run of `N`
   * samples that starts with room for `C`, exactly the first `min(N, C)` device
   * samples are queued in order, padding never is, and a drop is recorded if
   * and only if `N > C`, although all transfers keep arriving.
   */
  lemma RunInput(s: In, transfers: seq<seq<Sample>>, size: nat)
    requires s.count > 0 && s.sampleno == 0 && |s.queue| <= s.capacity && !s.dropped && size > 0
    requires Sized(transfers, size) && |transfers| == CeilDiv(s.count, size)
    ensures var room := s.capacity - |s.queue|;
            var r := ReceiveAll(s, transfers);
            && s.count <= |Flatten(transfers)|
            && r.queue == s.queue + Flatten(transfers)[..Min(s.count, room)]
            && r.avail == s.avail + Min(s.count, room)
            && (r.dropped <==> s.count > room) && r.capacity == s.capacity
  {
    FlattenSize(transfers, size);
    CeilDivCovers(s.count, size);
    ReceiveAllClosed(s, transfers);
  }

  // ---- Reading during a run ----

  /** A transfer arrives, or the client takes samples from the front of the queue. */
  datatype Event = Arrives(data: seq<Sample>) | Taken(n: nat)

  function TakeOut(s: In, n: nat): In {
    var k := Min(n, |s.queue|);
    s.(queue := s.queue[k..], avail := if s.avail >= k then s.avail - k else 0)
  }

  function OneEvent(s: In, e: Event): In {
    if e.Arrives? then Receive(s, e.data) else TakeOut(s, e.n)
  }

  function After(s: In, es: seq<Event>): In
    decreases |es|
  {
    if es == [] then s else After(OneEvent(s, es[0]), es[1..])
  }

  /** The samples that enter the queue, in order. */
  function Entered(s: In, es: seq<Event>): seq<Sample>
    requires |s.queue| <= s.capacity
    decreases |es|
  {
    if es == [] then []
    else if es[0].Arrives? then
      var t := Receive(s, es[0].data);
      ReceiveClosed(s, es[0].data);
      t.queue[|s.queue|..] + Entered(t, es[1..])
    else Entered(TakeOut(s, es[0].n), es[1..])
  }

  function Arrived(es: seq<Event>): seq<Sample> {
    if es == [] then [] else (if es[0].Arrives? then es[0].data else []) + Arrived(es[1..])
  }

  lemma {:induction false} DropStays(s: In, es: seq<Event>)
    requires s.dropped && |s.queue| <= s.capacity
    ensures After(s, es).dropped
    decreases |es|
  {
    if es != [] {
      if es[0].Arrives? {
        ReceiveClosed(s, es[0].data);
        DropStays(Receive(s, es[0].data), es[1..]);
      } else {
        DropStays(TakeOut(s, es[0].n), es[1..]);
      }
    }
  }

  lemma UndroppedArrival(s: In, data: seq<Sample>)
    requires |s.queue| <= s.capacity
    ensures var t := Receive(s, data);
            !t.dropped ==>
              && t.queue == s.queue + data[..Due(s, |data|)] && |t.queue| <= t.capacity
              && t.sampleno == s.sampleno + |data| && t.count == s.count
  {
    ReceiveClosed(s, data);
  }

  lemma JoinDue(s: In, t: In, data: seq<Sample>, more: seq<Sample>)
    requires t.count == s.count && t.sampleno == s.sampleno + |data|
    ensures data[..Due(s, |data|)] + more[..Due(t, |more|)] == (data + more)[..Due(s, |data + more|)]
  {
  }

  /**
   * However the client reads during a run, padding enters only after a drop: if
   * none is recorded, what enters the queue is exactly the device samples the
   * run still asks for, in order.
   */
  lemma {:induction false} NoDropNoPadding(s: In, es: seq<Event>)
    requires |s.queue| <= s.capacity && !After(s, es).dropped
    ensures Entered(s, es) == Arrived(es)[..Due(s, |Arrived(es)|)]
    decreases |es|
  {
    if es != [] {
      var more := Arrived(es[1..]);
      if es[0].Arrives? {
        var data := es[0].data;
        var t := Receive(s, data);
        ReceiveClosed(s, data);
        if t.dropped {
          DropStays(t, es[1..]);
        } else {
          UndroppedArrival(s, data);
          NoDropNoPadding(t, es[1..]);
          JoinDue(s, t, data, more);
        }
      } else {
        assert [] + more == more;
        NoDropNoPadding(TakeOut(s, es[0].n), es[1..]);
      }
    }
  }

  // ---- When padding enters ----

  /** Positions of the device's run, `done` of them delivered before, that enter the queue. */
  function Positions(s: In, done: nat, es: seq<Event>): (ps: seq<nat>)
    requires |s.queue| <= s.capacity
    decreases |es|
  {
    if es == [] then []
    else if es[0].Arrives? then
      var t := Receive(s, es[0].data);
      ReceiveClosed(s, es[0].data);
      Span(done, |t.queue| - |s.queue|) + Positions(t, done + |es[0].data|, es[1..])
    else Positions(TakeOut(s, es[0].n), done, es[1..])
  }

  /** The `n` positions from `first`. */
  function Span(first: nat, n: nat): (ps: seq<nat>)
    ensures |ps| == n && forall i :: 0 <= i < n ==> ps[i] == first + i
  {
    seq<nat>(n, i requires 0 <= i => first + i)
  }

  lemma ArrivalEnters(s: In, data: seq<Sample>)
    requires |s.queue| <= s.capacity
    ensures var t := Receive(s, data);
            && |s.queue| <= |t.queue| <= t.capacity && |t.queue| - |s.queue| <= |data|
            && t.queue[|s.queue|..] == data[..|t.queue| - |s.queue|]
  {
    ReceiveClosed(s, data);
  }

  /** The samples that entered are those at the given positions of what was delivered. */
  ghost predicate Carries(entered: seq<Sample>, ps: seq<nat>, done: nat, delivered: seq<Sample>) {
    && |ps| == |entered|
    && forall j :: 0 <= j < |ps| ==>
         done <= ps[j] < done + |delivered| && entered[j] == delivered[ps[j] - done]
  }

  lemma CarriesJoin(k: nat, done: nat, data: seq<Sample>, entered: seq<Sample>, ps: seq<nat>, more: seq<Sample>)
    requires k <= |data| && Carries(entered, ps, done + |data|, more)
    ensures Carries(data[..k] + entered, Span(done, k) + ps, done, data + more)
  {
    forall j | 0 <= j < k + |ps|
      ensures var p := (Span(done, k) + ps)[j];
              done <= p < done + |data + more| && (data[..k] + entered)[j] == (data + more)[p - done]
    {
      if j >= k {
        assert (Span(done, k) + ps)[j] == ps[j - k];
      }
    }
  }

  /** The samples that enter are those at these positions of what the device delivers. */
  lemma {:induction false} PositionsCarry(s: In, done: nat, es: seq<Event>)
    requires |s.queue| <= s.capacity
    ensures Carries(Entered(s, es), Positions(s, done, es), done, Arrived(es))
    decreases |es|
  {
    if es == [] {
    } else if es[0].Arrives? {
      var data, t := es[0].data, Receive(s, es[0].data);
      ArrivalEnters(s, data);
      PositionsCarry(t, done + |data|, es[1..]);
      CarriesJoin(
        |t.queue| - |s.queue|, done, data, Entered(t, es[1..]), Positions(t, done + |data|, es[1..]),
        Arrived(es[1..]));
    } else {
      PositionsCarry(TakeOut(s, es[0].n), done, es[1..]);
      assert Arrived(es) == Arrived(es[1..]);
    }
  }

  /** Samples of a run that are still wanted when `done` have been delivered. */
  function Left(s: In, done: nat): nat {
    if done < s.count then s.count - done else 0
  }

  /**
   * A transfer that arrives after `done` delivered samples lets padding in: the
   * driver has counted fewer samples than were delivered, the transfer reaches
   * past the end of the run, and the queue has room that far.
   */
  predicate Admits(s: In, done: nat, data: seq<Sample>)
    requires |s.queue| <= s.capacity
  {
    s.sampleno < Min(done, s.count) && |data| > Left(s, done) && s.capacity - |s.queue| > Left(s, done)
  }

  /** One transfer queues more samples than the run has left exactly under that guard. */
  lemma TransferAdmits(s: In, done: nat, data: seq<Sample>)
    requires s.count > 0 && |s.queue| <= s.capacity && s.sampleno <= done
    ensures |Receive(s, data).queue| - |s.queue| > Left(s, done) <==> Admits(s, done, data)
  {
    ReceiveClosed(s, data);
  }

  /** Some event of a history lets padding in, seen from the state it happens in. */
  ghost predicate AdmitsSome(s: In, done: nat, es: seq<Event>)
    requires |s.queue| <= s.capacity
  {
    exists i :: 0 <= i < |es| && AdmitsAt(s, done, es, i)
  }

  ghost predicate AdmitsAt(s: In, done: nat, es: seq<Event>, i: nat)
    requires |s.queue| <= s.capacity && i < |es|
  {
    AfterFits(s, es[..i]);
    es[i].Arrives? && Admits(After(s, es[..i]), done + |Arrived(es[..i])|, es[i].data)
  }

  lemma {:induction false} AfterFits(s: In, es: seq<Event>)
    requires |s.queue| <= s.capacity
    ensures |After(s, es).queue| <= After(s, es).capacity && After(s, es).count == s.count
    decreases |es|
  {
    if es != [] {
      if es[0].Arrives? {
        ReceiveClosed(s, es[0].data);
      }
      AfterFits(OneEvent(s, es[0]), es[1..]);
    }
  }

  function Arrivals(e: Event): nat {
    if e.Arrives? then |e.data| else 0
  }

  lemma AdmitsLater(s: In, done: nat, es: seq<Event>, i: nat)
    requires |s.queue| <= s.capacity && 0 < i < |es|
    requires |OneEvent(s, es[0]).queue| <= OneEvent(s, es[0]).capacity
    ensures AdmitsAt(s, done, es, i) == AdmitsAt(OneEvent(s, es[0]), done + Arrivals(es[0]), es[1..], i - 1)
  {
    assert es[..i][0] == es[0] && es[..i][1..] == es[1..][..i - 1];
  }

  /** The first event admits padding or the rest of the history does. */
  lemma AdmitsFirst(s: In, done: nat, es: seq<Event>)
    requires |s.queue| <= s.capacity && es != []
    requires |OneEvent(s, es[0]).queue| <= OneEvent(s, es[0]).capacity
    ensures AdmitsSome(s, done, es) <==>
            (es[0].Arrives? && Admits(s, done, es[0].data))
            || AdmitsSome(OneEvent(s, es[0]), done + Arrivals(es[0]), es[1..])
  {
    var t, next, rest := OneEvent(s, es[0]), done + Arrivals(es[0]), es[1..];
    assert es[..0] == [];
    assert AdmitsAt(s, done, es, 0) <==> es[0].Arrives? && Admits(s, done, es[0].data);
    if AdmitsSome(s, done, es) {
      var i :| 0 <= i < |es| && AdmitsAt(s, done, es, i);
      if i > 0 {
        AdmitsLater(s, done, es, i);
      }
    }
    if AdmitsSome(t, next, rest) {
      var j :| 0 <= j < |rest| && AdmitsAt(t, next, rest, j);
      AdmitsLater(s, done, es, j + 1);
    }
  }

  ghost predicate HasPadding(ps: seq<nat>, count: nat) {
    exists j :: 0 <= j < |ps| && ps[j] >= count
  }

  lemma PaddingSplits(a: seq<nat>, b: seq<nat>, count: nat)
    ensures HasPadding(a + b, count) <==> HasPadding(a, count) || HasPadding(b, count)
  {
    if HasPadding(a, count) {
      var j :| 0 <= j < |a| && a[j] >= count;
      assert (a + b)[j] == a[j];
    }
    if HasPadding(b, count) {
      var j :| 0 <= j < |b| && b[j] >= count;
      assert (a + b)[|a| + j] == b[j];
    }
  }

  lemma SpanPads(first: nat, n: nat, s: In)
    requires s.count > 0
    ensures HasPadding(Span(first, n), s.count) <==> n > Left(s, first)
  {
    var ps := Span(first, n);
    if n > Left(s, first) {
      assert ps[n - 1] == first + (n - 1) >= s.count;
    }
  }

  lemma EventKeeps(s: In, done: nat, e: Event)
    requires |s.queue| <= s.capacity && s.sampleno <= done
    ensures var t := OneEvent(s, e);
            && |t.queue| <= t.capacity && t.count == s.count && t.sampleno <= done + Arrivals(e)
            && (e.Arrives? ==> |t.queue| >= |s.queue|)
  {
    if e.Arrives? {
      ReceiveClosed(s, e.data);
    }
  }

  lemma TransferPads(s: In, done: nat, data: seq<Sample>)
    requires s.count > 0 && |s.queue| <= s.capacity && s.sampleno <= done
    requires |Receive(s, data).queue| >= |s.queue|
    ensures HasPadding(Span(done, |Receive(s, data).queue| - |s.queue|), s.count) <==> Admits(s, done, data)
  {
    TransferAdmits(s, done, data);
    SpanPads(done, |Receive(s, data).queue| - |s.queue|, s);
  }

  /**
   * Exactly when padding enters, however the client reads: at some transfer the
   * driver has counted fewer samples than the device has delivered, and both
   * the transfer and the free room exceed what is left of the run.
   */
  lemma {:induction false} PaddingExactly(s: In, done: nat, es: seq<Event>)
    requires s.count > 0 && |s.queue| <= s.capacity && s.sampleno <= done
    ensures HasPadding(Positions(s, done, es), s.count) <==> AdmitsSome(s, done, es)
    decreases |es|
  {
    if es == [] {
    } else {
      var t, next := OneEvent(s, es[0]), done + Arrivals(es[0]);
      EventKeeps(s, done, es[0]);
      PaddingExactly(t, next, es[1..]);
      if es[0].Arrives? {
        PaddingSplits(Span(done, |t.queue| - |s.queue|), Positions(t, next, es[1..]), s.count);
        TransferPads(s, done, es[0].data);
      }
      AdmitsFirst(s, done, es);
    }
  }

  /**
   * Reading during a run with a drop is different: the abandoned samples are
   * never counted, so a padding sample can be taken for a requested one.  Of a
   * run of 5 samples in two transfers of 4, with room for 2 and a read between
   * the transfers, the queue ends with samples 4 and 5; number 5 is padding.
   */
  lemma PaddingCanEnter(x: nat -> Sample)
    ensures var s := Receive(In(2, [], 0, 0, 5, false), [x(0), x(1), x(2), x(3)]);
            && s.queue == [x(0), x(1)] && s.dropped
            && Receive(s.(queue := [], avail := 0), [x(4), x(5), x(6), x(7)]).queue == [x(4), x(5)]
  {
    var s0 := In(2, [], 0, 0, 5, false);
    ReceiveClosed(s0, [x(0), x(1), x(2), x(3)]);
    var s := Receive(s0, [x(0), x(1), x(2), x(3)]);
    ReceiveClosed(s.(queue := [], avail := 0), [x(4), x(5), x(6), x(7)]);
  }
}
