/**
 * What one output channel promises and emits.
 *
 * A `Pipe` is a channel seen from `encode_out`: the promise counter, the values
 * that will come out of the channel queue in order, the one-slot look-ahead and
 * the fallback slot.  NaN slots are `None`; samples are reals.
 */
module OutputPipe {
  import opened Wrappers

  datatype Pipe = Pipe(avail: Counter, pending: seq<real>, next: Option<real>, previous: Option<real>)

  /** The value `encode_out` settles on, or why it has none. */
  datatype Outcome =
    | Emitted(value: real)
    | Blocked     // spinning on an empty queue
    | NoFallback  // "no available fallback sample"

  function Added(c: Counter, n: nat): Counter {
    (c + n) % WRAP
  }

  function Decremented(c: Counter): Counter {
    if c == 0 then WRAP - 1 else c - 1
  }

  function Slot(o: Option<real>): seq<real> {
    if o.Some? then [o.value] else []
  }

  /** The values still to come out of the channel, the look-ahead first. */
  function Source(p: Pipe): seq<real> {
    Slot(p.next) + p.pending
  }

  /** The counter promises no more than the source holds; a look-ahead is also the fallback. */
  predicate Backed(p: Pipe) {
    && p.avail <= |Source(p)|
    && (p.next.Some? ==> p.previous == p.next)
  }

  /** The value selection of `encode_out` on a sourcing channel. */
  function Encode(p: Pipe, continuous: bool, peek: bool): (Pipe, Outcome) {
    if continuous || p.avail > 0 then
      if p.next.None? && p.pending == [] then
        (p, Blocked)
      else
        var val := if p.next.Some? then p.next.value else p.pending[0];
        var rest := if p.next.Some? then p.pending else p.pending[1..];
        (Pipe(Decremented(p.avail), rest, if peek then Some(val) else None, Some(val)), Emitted(val))
    else if p.previous.None? then
      (p, NoFallback)
    else
      (p, Emitted(p.previous.value))
  }

  /** `write()` promises a buffer that will follow everything already owed. */
  function Written(p: Pipe, data: seq<real>): Pipe {
    p.(avail := Added(p.avail, |data|), pending := p.pending + data)
  }

  /** Encoding keeps the promise backed, and a backed noncontinuous channel never spins forever. */
  lemma EncodeKeepsBacked(p: Pipe, peek: bool)
    requires Backed(p)
    ensures var (p', o) := Encode(p, false, peek); Backed(p') && !o.Blocked?
    ensures Encode(p, false, peek).1.NoFallback? <==> p.avail == 0 && p.previous.None?
  {
  }

  /** A promised value comes off the front of the source; a peek leaves it there; a fallback changes nothing. */
  lemma EncodeTakesFront(p: Pipe, continuous: bool, peek: bool)
    requires Encode(p, continuous, peek).1.Emitted?
    ensures var (p', o) := Encode(p, continuous, peek);
            if continuous || p.avail > 0 then
              && Source(p) != [] && o.value == Source(p)[0] && p'.previous == Some(o.value)
              && p'.avail == Decremented(p.avail)
              && Source(p') == if peek then Source(p) else Source(p)[1..]
            else p' == p && p.previous == Some(o.value)
  {
    if p.next.None? && p.pending != [] {
      assert p.pending == [p.pending[0]] + p.pending[1..];
    }
  }

  /** Values queued behind the head do not change what is emitted now. */
  lemma EncodeIgnoresTail(p: Pipe, tail: seq<real>, continuous: bool, peek: bool)
    requires !Encode(p, continuous, peek).1.Blocked?
    ensures var (p', o) := Encode(p, continuous, peek);
            Encode(p.(pending := p.pending + tail), continuous, peek) == (p'.(pending := p'.pending + tail), o)
  {
    if p.pending != [] {
      assert (p.pending + tail)[1..] == p.pending[1..] + tail;
    }
  }

  // ---- One noncontinuous run in closed form ----

  /** The value carried by position `q` of a run of `n` samples that starts from `p`. */
  function ValueAt(p: Pipe, n: nat, q: nat): real
    requires Backed(p) && (p.avail > 0 || p.previous.Some?)
  {
    var i := Min(q, n);
    if i < p.avail then Source(p)[i]
    else if p.avail > 0 then Source(p)[p.avail - 1]
    else p.previous.value
  }

  /** The channel after its first `q` values have been taken for good. */
  function Taken(p: Pipe, q: nat): Pipe
    requires Backed(p) && q <= p.avail
  {
    if q == 0 then p
    else Pipe(p.avail - q, Source(p)[q..], None, Some(Source(p)[q - 1]))
  }

  /** The channel after positions `0..q` of a run of `n` samples have been encoded. */
  function After(p: Pipe, n: nat, q: nat): Pipe
    requires Backed(p)
  {
    var t := Taken(p, Min(Min(q, n), p.avail));
    if q <= n || p.avail <= n then t
    else Pipe(p.avail - n - 1, Source(p)[n + 1..], Some(Source(p)[n]), Some(Source(p)[n]))
  }

  lemma SourceOfTaken(p: Pipe, q: nat)
    requires Backed(p) && q <= p.avail
    ensures Source(Taken(p, q)) == Source(p)[q..] && Backed(Taken(p, q))
  {
  }

  /** Peeking at the value after `n` taken ones keeps it at the head of the source. */
  lemma SourceOfPeeked(p: Pipe, n: nat)
    requires Backed(p) && n < p.avail
    ensures var r := Pipe(p.avail - n - 1, Source(p)[n + 1..], Some(Source(p)[n]), Some(Source(p)[n]));
            Source(r) == Source(p)[n..] && Backed(r)
  {
    var src := Source(p);
    assert src[n..] == [src[n]] + src[n + 1..];
  }

  /** With values still promised, encoding takes the next one, or keeps it as the look-ahead. */
  lemma EncodeTaken(p: Pipe, q: nat, peek: bool)
    requires Backed(p) && q < p.avail
    ensures Encode(Taken(p, q), false, peek) ==
            (if peek then Pipe(p.avail - q - 1, Source(p)[q + 1..], Some(Source(p)[q]), Some(Source(p)[q]))
             else Taken(p, q + 1),
             Emitted(Source(p)[q]))
  {
    var t := Taken(p, q);
    if q == 0 {
      assert Source(p)[1..] == if p.next.Some? then p.pending else p.pending[1..];
    } else {
      assert t.pending[0] == Source(p)[q];
      assert t.pending[1..] == Source(p)[q + 1..];
    }
  }

  /** With nothing promised, encoding repeats the last value and changes nothing. */
  lemma EncodeDry(p: Pipe, peek: bool)
    requires Backed(p) && (p.avail > 0 || p.previous.Some?)
    ensures var t := Taken(p, p.avail);
            Encode(t, false, peek) == (t, Emitted(if p.avail > 0 then Source(p)[p.avail - 1] else p.previous.value))
  {
  }

  /** Every encoded position takes the channel one step along the closed form. */
  lemma EncodeAt(p: Pipe, n: nat, q: nat)
    requires Backed(p) && q <= n && (p.avail > 0 || p.previous.Some?)
    ensures Encode(After(p, n, q), false, q == n) == (After(p, n, q + 1), Emitted(ValueAt(p, n, q)))
  {
    if q < p.avail {
      EncodeTaken(p, q, q == n);
    } else {
      EncodeDry(p, q == n);
    }
  }

  /**
   * A whole run leaves the channel owing what was owed, less the values
   * carried, less one more when a value beyond the run was peeked; the source
   * loses exactly the values carried.
   */
  lemma AfterRun(p: Pipe, n: nat, q: nat)
    requires Backed(p) && n <= q
    ensures var r := After(p, n, q);
            && Backed(r)
            && Source(r) == Source(p)[Min(n, p.avail)..]
            && r.avail == if p.avail <= n then 0 else if q == n then p.avail - n else p.avail - n - 1
  {
    if q > n && p.avail > n {
      SourceOfPeeked(p, n);
    } else {
      SourceOfTaken(p, Min(n, p.avail));
    }
  }

  /**
   * Exactly when a run continues the stream: as many values are owed as it has
   * samples.  Then it carries the next values of the source and leaves the
   * rest; otherwise it uses up fewer, and position `p.avail` repeats a value.
   */
  lemma CarriesExactly(p: Pipe, n: nat, q: nat)
    requires Backed(p) && (p.avail > 0 || p.previous.Some?) && n <= q
    ensures |Source(p)| == n + |Source(After(p, n, q))| <==> n <= p.avail
    ensures n <= p.avail ==>
              && Source(After(p, n, q)) == Source(p)[n..]
              && forall i :: 0 <= i < n ==> ValueAt(p, n, i) == Source(p)[i]
    ensures p.avail < n ==>
              ValueAt(p, n, p.avail) == if p.avail > 0 then ValueAt(p, n, p.avail - 1) else p.previous.value
  {
    AfterRun(p, n, q);
  }

  /** Two runs of whole transfers need no spare value: nothing is peeked, and nothing is charged twice. */
  lemma WholeTransfersCarryOn(p: Pipe, n: nat)
    requires Backed(p) && n > 0 && p.avail >= 2 * n
    ensures var r := After(p, n, n);
            && Backed(r) && r.avail == p.avail - n && (r.avail > 0 || r.previous.Some?)
            && forall i :: 0 <= i < n ==> ValueAt(p, n, i) == Source(p)[i] && ValueAt(r, n, i) == Source(p)[n + i]
  {
    AfterRun(p, n, n);
    SourceOfTaken(p, n);
  }

  /**
   * A run that peeks and leaves the next one without a spare value breaks the
   * stream.  Of the values 1, 2, 3, written as [1, 2] and then [3], three runs of one
   * sample in transfers of more than one slot carry 1, 2, 2: the second run
   * repeats the peeked value as a fallback and the third consumes it.
   */
  lemma StarvedRunsRepeat(size: nat)
    requires size > 1
    ensures var p1 := Written(Pipe(0, [], None, None), [1.0, 2.0]);
            var p2 := After(p1, 1, size);
            Backed(p1) && Backed(p2) && p2.previous.Some? && p2.avail == 0
    ensures var p1 := Written(Pipe(0, [], None, None), [1.0, 2.0]);
            var p2 := After(p1, 1, size);
            var p3 := Written(After(p2, 1, size), [3.0]);
            Backed(p3) && [ValueAt(p1, 1, 0), ValueAt(p2, 1, 0), ValueAt(p3, 1, 0)] == [1.0, 2.0, 2.0]
  {
    var p1 := Written(Pipe(0, [], None, None), [1.0, 2.0]);
    assert Source(p1) == [1.0, 2.0];
    var p2 := After(p1, 1, size);
    assert p2 == Pipe(0, [], Some(2.0), Some(2.0));
    assert After(p2, 1, size) == p2;
  }
}
