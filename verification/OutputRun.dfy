/**
 * How `handle_out_transfer` and `submit_out_transfer` cut a run of a device
 * with two channels into transfers of a fixed number of slots.
 */
module OutputRun {
  import opened Wrappers
  import opened OutputPipe

  /** A channel; one in a high-impedance mode emits without touching its pipe. */
  datatype Chan = Chan(sourcing: bool, pipe: Pipe)

  /** The output side of a device: both channels, `m_sample_count` and `m_out_sampleno`. */
  datatype Dev = Dev(a: Chan, b: Chan, count: nat, pos: nat)

  /** One slot of the transfer buffer; `None` is a slot whose code was never set. */
  type Slot = Option<(real, real)>

  /** A partly filled transfer: device, slots, calls of `encode_out` per channel, and what stopped it. */
  datatype Fill = Fill(dev: Dev, slots: seq<Slot>, encodes: nat, stop: Option<Outcome>)

  function EncodeChan(c: Chan, continuous: bool, peek: bool): (Chan, Outcome) {
    if !c.sourcing then (c, Emitted(0.0))
    else
      var (p, o) := Encode(c.pipe, continuous, peek);
      (c.(pipe := p), o)
  }

  /** One pass of the inner loop of `handle_out_transfer`. */
  function NextSlot(f: Fill): Fill {
    var d := f.dev;
    if f.stop.Some? then f
    else if d.count == 0 || d.pos <= d.count then
      var peek := d.count > 0 && d.pos == d.count;
      var (a, oa) := EncodeChan(d.a, d.count == 0, peek);
      if !oa.Emitted? then f.(dev := d.(a := a), encodes := f.encodes + 1, stop := Some(oa))
      else
        var (b, ob) := EncodeChan(d.b, d.count == 0, peek);
        if !ob.Emitted? then f.(dev := d.(a := a, b := b), encodes := f.encodes + 1, stop := Some(ob))
        else
          Fill(d.(a := a, b := b, pos := d.pos + 1), f.slots + [Some((oa.value, ob.value))], f.encodes + 1, None)
    else
      var last := if f.slots == [] then None else f.slots[|f.slots| - 1];
      Fill(d.(pos := d.pos + 1), f.slots + [last], f.encodes, None)
  }

  /** The first `n` slots of one transfer. */
  function FillSlots(d: Dev, n: nat): Fill {
    Iterate(NextSlot, Empty(d), n)
  }

  function Empty(d: Dev): Fill {
    Fill(d, [], 0, None)
  }

  /** `f` applied `n` times. */
  function Iterate<T>(f: T -> T, x: T, n: nat): T {
    if n == 0 then x else f(Iterate(f, x, n - 1))
  }

  /** An iteration follows any trajectory that `f` moves along. */
  lemma {:induction false} IterateFollows<T>(f: T -> T, at: nat -> T, n: nat)
    requires forall k: nat :: k < n ==> f(at(k)) == at(k + 1)
    ensures Iterate(f, at(0), n) == at(n)
  {
    if n > 0 {
      IterateFollows(f, at, n - 1);
    }
  }

  /** `submit_out_transfer` repeated while positions remain, `size` slots each time. */
  function RunSlots(d: Dev, size: nat): Fill
    requires size > 0 && d.count > 0
    decreases d.count - d.pos
  {
    if d.pos >= d.count then Empty(d)
    else
      var f := FillSlots(d, size);
      FillMoves(d, size);
      if f.stop.Some? then f
      else
        var rest := RunSlots(f.dev, size);
        Fill(rest.dev, f.slots + rest.slots, f.encodes + rest.encodes, rest.stop)
  }

  lemma {:induction false} FillMoves(d: Dev, n: nat)
    ensures var f := FillSlots(d, n);
            f.dev.count == d.count && (f.stop.None? ==> f.dev.pos == d.pos + n && |f.slots| == n)
  {
    if n > 0 {
      FillMoves(d, n - 1);
    }
  }

  // ---- One position after the other, without transfers ----

  /** The channel once positions `0..q` of a run of `n` samples have been encoded. */
  function ChanAt(c: Chan, n: nat, q: nat): Chan {
    if q == 0 then c
    else if q - 1 <= n then EncodeChan(ChanAt(c, n, q - 1), false, q - 1 == n).0
    else ChanAt(c, n, q - 1)
  }

  /** What the channel emits at position `q`; positions past the look-ahead repeat it. */
  function ChanOutcome(c: Chan, n: nat, q: nat): Outcome {
    EncodeChan(ChanAt(c, n, Min(q, n)), false, q >= n).1
  }

  /** The channel emits at every position of a run of `n` samples. */
  ghost predicate Emits(c: Chan, n: nat) {
    forall q: nat :: q <= n ==> ChanOutcome(c, n, q).Emitted?
  }

  ghost predicate Fresh(d: Dev) {
    d.count > 0 && d.pos == 0 && Emits(d.a, d.count) && Emits(d.b, d.count)
  }

  /** The device once position `q` of the run is the next one. */
  function DevAt(d: Dev, q: nat): Dev {
    Dev(ChanAt(d.a, d.count, q), ChanAt(d.b, d.count, q), d.count, q)
  }

  ghost function SlotAt(d: Dev, q: nat): Slot
    requires Fresh(d)
  {
    assert ChanOutcome(d.a, d.count, q) == ChanOutcome(d.a, d.count, Min(q, d.count));
    assert ChanOutcome(d.b, d.count, q) == ChanOutcome(d.b, d.count, Min(q, d.count));
    Some((ChanOutcome(d.a, d.count, q).value, ChanOutcome(d.b, d.count, q).value))
  }

  /** One slot moves the device one position along the closed form. */
  lemma SlotStep(d: Dev, f: Fill, q: nat)
    requires Fresh(d) && f.dev == DevAt(d, q) && f.stop.None?
    requires q > d.count ==> f.slots != [] && f.slots[|f.slots| - 1] == SlotAt(d, q - 1)
    ensures NextSlot(f) ==
            Fill(DevAt(d, q + 1), f.slots + [SlotAt(d, q)], f.encodes + (if q <= d.count then 1 else 0), None)
  {
    if q <= d.count {
      assert ChanOutcome(d.a, d.count, q).Emitted? && ChanOutcome(d.b, d.count, q).Emitted?;
    }
  }

  /** The closed form of the `n` slots from position `q`. */
  ghost function SlotsFrom(d: Dev, q: nat, n: nat): (s: seq<Slot>)
    requires Fresh(d)
    ensures |s| == n && forall i :: 0 <= i < n ==> s[i] == SlotAt(d, q + i)
  {
    if n == 0 then [] else SlotsFrom(d, q, n - 1) + [SlotAt(d, q + n - 1)]
  }

  lemma SlotsJoin(d: Dev, q: nat, m: nat, n: nat)
    requires Fresh(d)
    ensures SlotsFrom(d, q, m + n) == SlotsFrom(d, q, m) + SlotsFrom(d, q + m, n)
  {
    var s, t := SlotsFrom(d, q, m), SlotsFrom(d, q + m, n);
    forall i | 0 <= i < m + n
      ensures SlotsFrom(d, q, m + n)[i] == (s + t)[i]
    {
      if i >= m {
        assert t[i - m] == SlotAt(d, q + m + (i - m));
      }
    }
  }

  ghost function FillAt(d: Dev, q: nat, n: nat): Fill
    requires Fresh(d) && q <= d.count
  {
    Fill(DevAt(d, q + n), SlotsFrom(d, q, n), Min(n, d.count + 1 - q), None)
  }

  lemma FillStep(d: Dev, q: nat, k: nat)
    requires Fresh(d) && q < d.count
    ensures NextSlot(FillAt(d, q, k)) == FillAt(d, q, k + 1)
  {
    SlotStep(d, FillAt(d, q, k), q + k);
  }

  /** A transfer that starts inside the run fills every slot with a defined value. */
  lemma FillClosed(d: Dev, q: nat, n: nat)
    requires Fresh(d) && q < d.count
    ensures FillSlots(DevAt(d, q), n) == FillAt(d, q, n)
  {
    var at := (k: nat) => FillAt(d, q, k);
    forall k: nat | k < n
      ensures NextSlot(at(k)) == at(k + 1)
    {
      FillStep(d, q, k);
    }
    IterateFollows(NextSlot, at, n);
    assert at(0) == Empty(DevAt(d, q));
  }

  /** Slots sent for `n` remaining samples, `size` at a time. */
  function Padded(n: nat, size: nat): nat
    requires size > 0
  {
    if n == 0 then 0 else if n <= size then size else size + Padded(n - size, size)
  }

  lemma {:induction false} PaddedInBlocks(n: nat, size: nat) returns (blocks: nat)
    requires size > 0
    ensures Padded(n, size) == size * blocks && n <= size * blocks < n + size
  {
    if n == 0 {
      blocks := 0;
    } else if n <= size {
      blocks := 1;
    } else {
      var rest := PaddedInBlocks(n - size, size);
      blocks := rest + 1;
      assert size * blocks == size * rest + size;
    }
  }

  lemma PaddedIsCeil(n: nat, size: nat)
    requires size > 0
    ensures Padded(n, size) == size * CeilDiv(n, size)
  {
    var blocks := PaddedInBlocks(n, size);
    CeilDivUnique(n, size, blocks);
  }

  lemma RunUnfolds(d: Dev, size: nat, f: Fill, rest: Fill)
    requires size > 0 && d.pos < d.count && f == FillSlots(d, size) && f.stop.None?
    requires f.dev.count > 0 && rest == RunSlots(f.dev, size)
    ensures RunSlots(d, size) == Fill(rest.dev, f.slots + rest.slots, f.encodes + rest.encodes, rest.stop)
  {
  }

  lemma FillsJoin(d: Dev, q: nat, m: nat, n: nat)
    requires Fresh(d) && q + m <= d.count
    ensures FillAt(d, q, m + n).slots == FillAt(d, q, m).slots + FillAt(d, q + m, n).slots
    ensures FillAt(d, q, m + n).encodes == FillAt(d, q, m).encodes + FillAt(d, q + m, n).encodes
    ensures FillAt(d, q, m + n).dev == FillAt(d, q + m, n).dev
  {
    SlotsJoin(d, q, m, n);
  }

  /** From any position inside the run, the remaining transfers follow the closed form. */
  lemma {:induction false} RunFrom(d: Dev, size: nat, q: nat)
    requires Fresh(d) && size > 0 && q < d.count
    ensures RunSlots(DevAt(d, q), size) == FillAt(d, q, Padded(d.count - q, size))
    decreases d.count - q
  {
    FillClosed(d, q, size);
    if q + size < d.count {
      RunFrom(d, size, q + size);
      TransferThenRest(d, size, q, Padded(d.count - (q + size), size));
    } else {
      LastTransfer(d, size, q);
    }
  }

  lemma TransferThenRest(d: Dev, size: nat, q: nat, more: nat)
    requires Fresh(d) && size > 0 && q + size < d.count
    requires FillSlots(DevAt(d, q), size) == FillAt(d, q, size)
    requires RunSlots(DevAt(d, q + size), size) == FillAt(d, q + size, more)
    ensures RunSlots(DevAt(d, q), size) == FillAt(d, q, size + more)
  {
    FillsJoin(d, q, size, more);
    RunUnfolds(DevAt(d, q), size, FillAt(d, q, size), FillAt(d, q + size, more));
  }

  lemma LastTransfer(d: Dev, size: nat, q: nat)
    requires Fresh(d) && size > 0 && q < d.count <= q + size
    requires FillSlots(DevAt(d, q), size) == FillAt(d, q, size)
    ensures RunSlots(DevAt(d, q), size) == FillAt(d, q, size)
  {
    var f := FillAt(d, q, size);
    RunUnfolds(DevAt(d, q), size, f, Empty(f.dev));
  }

  // ---- Shape of a run ----

  /** The channel can emit from position 0: it has a promised value or a fallback. */
  predicate Ready(c: Chan) {
    c.sourcing ==> Backed(c.pipe) && (c.pipe.avail > 0 || c.pipe.previous.Some?)
  }

  function ChanAfter(c: Chan, n: nat, q: nat): Chan
    requires Ready(c)
  {
    if c.sourcing then c.(pipe := After(c.pipe, n, q)) else c
  }

  function ChanValue(c: Chan, n: nat, q: nat): real
    requires Ready(c)
  {
    if c.sourcing then ValueAt(c.pipe, n, q) else 0.0
  }

  lemma ChanStep(c: Chan, n: nat, q: nat)
    requires Ready(c) && q <= n
    ensures EncodeChan(ChanAfter(c, n, q), false, q == n) == (ChanAfter(c, n, q + 1), Emitted(ChanValue(c, n, q)))
  {
    if c.sourcing {
      EncodeAt(c.pipe, n, q);
    }
  }

  lemma ChanPast(c: Chan, n: nat, q: nat)
    requires Ready(c) && q > n
    ensures ChanAfter(c, n, q + 1) == ChanAfter(c, n, q)
  {
  }

  lemma ChanNext(c: Chan, n: nat, q: nat)
    requires Ready(c) && ChanAt(c, n, q) == ChanAfter(c, n, q)
    ensures ChanAt(c, n, q + 1) == ChanAfter(c, n, q + 1)
  {
    if q <= n {
      ChanStep(c, n, q);
    } else {
      ChanPast(c, n, q);
    }
  }

  lemma {:induction false} ChanClosed(c: Chan, n: nat, q: nat)
    requires Ready(c)
    ensures ChanAt(c, n, q) == ChanAfter(c, n, q)
  {
    if q > 0 {
      ChanClosed(c, n, q - 1);
      ChanNext(c, n, q - 1);
    }
  }

  lemma ChanEmits(c: Chan, n: nat, q: nat)
    requires Ready(c)
    ensures ChanOutcome(c, n, q) == Emitted(ChanValue(c, n, q))
  {
    ChanClosed(c, n, Min(q, n));
    ChanStep(c, n, Min(q, n));
  }

  lemma ReadyIsFresh(d: Dev)
    requires d.count > 0 && d.pos == 0 && Ready(d.a) && Ready(d.b)
    ensures Fresh(d)
    ensures forall q: nat :: SlotAt(d, q) == Some((ChanValue(d.a, d.count, q), ChanValue(d.b, d.count, q)))
  {
    forall q: nat
      ensures ChanOutcome(d.a, d.count, q) == Emitted(ChanValue(d.a, d.count, q))
      ensures ChanOutcome(d.b, d.count, q) == Emitted(ChanValue(d.b, d.count, q))
    {
      ChanEmits(d.a, d.count, q);
      ChanEmits(d.b, d.count, q);
    }
  }

  /**
   * Shape of a run of `N` samples in transfers of `S` slots.  The slots are
   * positions `0 .. S*ceil(N/S)`: on each channel the promised values in order,
   * then the last of them (or the earlier fallback) repeated, and from position
   * `N` on one padding value.  Each channel is encoded once per position up to
   * the look-ahead position `N`.
   */
  lemma RunShape(d: Dev, size: nat)
    requires d.count > 0 && d.pos == 0 && Ready(d.a) && Ready(d.b) && size > 0
    ensures var n := d.count;
            var total := size * CeilDiv(n, size);
            var r := RunSlots(d, size);
            && n <= |r.slots| == total
            && r.stop.None?
            && r.encodes == Min(n + 1, total)
            && (forall q :: 0 <= q < total ==> r.slots[q] == Some((ChanValue(d.a, n, q), ChanValue(d.b, n, q))))
            && (forall q :: n <= q < total ==> r.slots[q] == r.slots[n])
            && r.dev == Dev(ChanAfter(d.a, n, total), ChanAfter(d.b, n, total), n, total)
  {
    var n, total := d.count, size * CeilDiv(d.count, size);
    ReadyIsFresh(d);
    RunFrom(d, size, 0);
    assert DevAt(d, 0) == d;
    PaddedIsCeil(n, size);
    CeilDivCovers(n, size);
    var r := FillAt(d, 0, total);
    ChanClosed(d.a, n, total);
    ChanClosed(d.b, n, total);
    assert forall q :: 0 <= q < total ==> r.slots[q] == SlotAt(d, 0 + q);
  }

  /** A channel that can raise "no available fallback sample". */
  predicate Starved(c: Chan) {
    c.sourcing && c.pipe.avail == 0 && c.pipe.previous.None?
  }

  /** The exception is raised in a run if and only if a channel is starved at its start, and then at position 0. */
  lemma NoFallbackOnlyAtStart(d: Dev, size: nat)
    requires d.count > 0 && d.pos == 0 && size > 0
    requires d.a.sourcing ==> Backed(d.a.pipe)
    requires d.b.sourcing ==> Backed(d.b.pipe)
    ensures var r := RunSlots(d, size);
            && (r.stop == Some(NoFallback) <==> Starved(d.a) || Starved(d.b))
            && (r.stop.Some? ==> r.dev.pos == 0 && r.slots == [])
  {
    if Starved(d.a) || Starved(d.b) {
      StopsAtOnce(d, size);
    } else {
      RunShape(d, size);
    }
  }

  lemma {:induction false} StopsAtOnce(d: Dev, n: nat)
    requires d.count > 0 && d.pos == 0 && n > 0
    requires d.a.sourcing ==> Backed(d.a.pipe)
    requires d.b.sourcing ==> Backed(d.b.pipe)
    requires Starved(d.a) || Starved(d.b)
    ensures var f := FillSlots(d, n); f.stop == Some(NoFallback) && f.dev.pos == 0 && f.slots == []
  {
    if n > 1 {
      StopsAtOnce(d, n - 1);
    } else {
      assert Iterate(NextSlot, Empty(d), 0) == Empty(d);
    }
  }

  // ---- What a starved channel costs the other ----

  /** A stopped run leaves its first channel after exactly one encoding. */
  lemma {:induction false} StoppedAfterOne(d: Dev, n: nat)
    requires d.count > 0 && d.pos == 0 && n > 0
    requires Starved(d.a) || Starved(d.b)
    requires (d.a.sourcing ==> Backed(d.a.pipe)) && (d.b.sourcing ==> Backed(d.b.pipe))
    ensures FillSlots(d, n).dev.a == EncodeChan(d.a, false, false).0
  {
    if n > 1 {
      StopsAtOnce(d, n - 1);
      StoppedAfterOne(d, n - 1);
    } else {
      assert Iterate(NextSlot, Empty(d), 0) == Empty(d);
    }
  }

  /**
   * Exactly when a run loses a value: the first channel has a value owed to it
   * and the second is starved.  The run then sends nothing, and the first
   * channel has given up the first of its values.
   */
  lemma StarvedOtherLosesOne(d: Dev, size: nat)
    requires d.count > 0 && d.pos == 0 && size > 0 && d.a.sourcing
    requires Backed(d.a.pipe) && (d.b.sourcing ==> Backed(d.b.pipe))
    ensures var r := RunSlots(d, size);
            && (r.slots == [] && |Source(r.dev.a.pipe)| < |Source(d.a.pipe)| <==> Starved(d.b) && d.a.pipe.avail > 0)
            && (Starved(d.b) && d.a.pipe.avail > 0 ==> Source(r.dev.a.pipe) == Source(d.a.pipe)[1..])
  {
    if Starved(d.a) || Starved(d.b) {
      StopsAtOnce(d, size);
      StoppedAfterOne(d, size);
      EncodeKeepsBacked(d.a.pipe, false);
      if d.a.pipe.avail > 0 {
        EncodeTakesFront(d.a.pipe, false, false);
      }
    } else {
      RunShape(d, size);
    }
  }

  /** Such a device: one value owed to the first channel, a sourcing second channel that was never written. */
  lemma NeverWrittenCostsOne(v: real)
    ensures var a, b := Chan(true, Pipe(1, [v], None, None)), Chan(true, Pipe(0, [], None, None));
            var r := RunSlots(Dev(a, b, 1, 0), 1);
            r.stop == Some(NoFallback) && r.slots == [] && Source(r.dev.a.pipe) == []
  {
    var a, b := Chan(true, Pipe(1, [v], None, None)), Chan(true, Pipe(0, [], None, None));
    StarvedOtherLosesOne(Dev(a, b, 1, 0), 1);
    NoFallbackOnlyAtStart(Dev(a, b, 1, 0), 1);
  }
}
