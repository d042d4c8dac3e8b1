/**
 * The output side of a device as the driver keeps it: two channel objects, the
 * run counters, and the loops that write sample codes into a transfer buffer.
 */
module OutputDevice {
  import opened Wrappers
  import opened OutputPipe
  import opened OutputRun

  const PACKET_BYTES: nat := 1024

  /** Channel modes; the split variants encode as their plain counterparts. */
  datatype Mode = HiZ | SVMI | SIMV

  datatype Calibration = Calibration(offset: real, gainP: real, gainN: real)

  // ---- Sample codes ----

  function Constrain(v: real, lo: real, hi: real): real {
    var w := if v > hi then hi else v;
    if w < lo then lo else w
  }

  /** The 16-bit code `encode_out` sends for a value. */
  function Code(mode: Mode, cal: Calibration, val: real): (code: int)
    ensures 0 <= code < 65536
  {
    match mode
    case HiZ => 26214
    case SVMI => VoltageCode(Calibrated(mode, cal, val))
    case SIMV => CurrentCode(Calibrated(mode, cal, val))
  }

  /** The code of a calibrated voltage: clamped, scaled, rounded down. */
  function VoltageCode(voltage: real): (code: int)
    ensures 0 <= code < 65536
  {
    var v := Constrain(voltage, 0.0, 5.0);
    Constrain((v * 13107.2).Floor as real, 0.0, 65535.0).Floor
  }

  /** The code of a calibrated current: clamped, scaled, rounded down. */
  function CurrentCode(current: real): (code: int)
    ensures 0 <= code < 65536
  {
    var v := Constrain(current, -0.2, 0.2);
    Constrain((65536.0 * (0.4 + 1.6 * v)).Floor as real, 0.0, 65535.0).Floor
  }

  /** A sourced current picks its gain by the sign of the value asked for. */
  function Gain(mode: Mode, cal: Calibration, val: real): real {
    if mode.SIMV? && val <= 0.0 then cal.gainN else cal.gainP
  }

  function Calibrated(mode: Mode, cal: Calibration, val: real): real {
    (val - cal.offset) * Gain(mode, cal, val)
  }

  /** No correction: the calibration of a device that was never calibrated. */
  const IDEAL := Calibration(0.0, 1.0, 1.0)

  lemma IdealCode(val: real)
    ensures Code(SVMI, IDEAL, val) == VoltageCode(val) && Code(SIMV, IDEAL, val) == CurrentCode(val)
  {
    assert Calibrated(SVMI, IDEAL, val) == val && Calibrated(SIMV, IDEAL, val) == val;
  }

  /** Without calibration a sourced voltage in range is off by less than one code step, 5/65536 V. */
  lemma VoltageCodeError(val: real)
    requires 0.0 <= val <= 5.0
    ensures var code := Code(SVMI, IDEAL, val) as real;
            code * 5.0 <= val * 65536.0 <= (code + 1.0) * 5.0
  {
    IdealCode(val);
    var x := val * 13107.2;
    var k := x.Floor;
    assert 0 <= k <= 65536 && k as real <= x < k as real + 1.0;
    assert VoltageCode(val) == if k == 65536 then 65535 else k;
  }

  /** Steps between the code sent for an uncalibrated current and the code of an idle output. */
  function StepsFromIdle(val: real): int {
    Code(SIMV, IDEAL, val) - Code(HiZ, IDEAL, val)
  }

  /** So is a sourced current of up to 200 mA: within one step of 1/104857.6 A around the idle code. */
  lemma CurrentCodeError(val: real)
    requires -0.2 <= val <= 0.2
    ensures Near(StepsFromIdle(val), val * 104857.6)
  {
    IdealCode(val);
    CurrentCodeIs(val);
    FromIdle(val * 104857.6);
  }

  /** Less than one step away, and exact at zero. */
  predicate Near(steps: int, x: real) {
    steps as real - 1.0 < x < steps as real + 1.0 && (x == 0.0 ==> steps == 0)
  }

  lemma CurrentCodeIs(val: real)
    requires -0.2 <= val <= 0.2
    ensures CurrentCode(val) == (26214.4 + val * 104857.6).Floor
  {
    assert Constrain(val, -0.2, 0.2) == val;
    assert 65536.0 * (0.4 + 1.6 * val) == 26214.4 + val * 104857.6;
    InRange(26214.4 + val * 104857.6);
  }

  lemma FromIdle(x: real)
    ensures Near((26214.4 + x).Floor - 26214, x)
  {
  }

  lemma InRange(x: real)
    requires 0.0 <= x < 65536.0
    ensures Constrain(x.Floor as real, 0.0, 65535.0).Floor == x.Floor && x - 1.0 < x.Floor as real <= x
  {
  }

  /** The code of a voltage is within one step of it, or that of the nearer end of the range. */
  predicate VoltageCoded(x: real, code: int) {
    && (0.0 <= x <= 5.0 ==> code as real * 5.0 <= x * 65536.0 <= (code + 1) as real * 5.0)
    && (x < 0.0 ==> code == 0) && (x > 5.0 ==> code == 65535)
  }

  /** The code of a current is within one step of it around the idle code, or that of the nearer limit. */
  predicate CurrentCoded(x: real, code: int, idle: int) {
    Near(code - idle, (if x < -0.2 then -0.2 else if x > 0.2 then 0.2 else x) * 104857.6)
  }

  lemma VoltageCodedAlways(x: real)
    ensures VoltageCoded(x, VoltageCode(x))
  {
    if 0.0 <= x <= 5.0 {
      VoltageCodeError(x);
      IdealCode(x);
    }
  }

  lemma CurrentCodedAlways(x: real)
    ensures CurrentCoded(x, CurrentCode(x), 26214)
  {
    var y := Constrain(x, -0.2, 0.2);
    CurrentCodeIs(y);
    FromIdle(y * 104857.6);
  }

  /**
   * Calibration.  A sourced voltage is corrected by the offset and the positive
   * gain, a sourced current by the offset and the gain of its own sign; what is
   * sent is the code of the corrected value.
   */
  lemma CalibratedCode(cal: Calibration, val: real)
    ensures var p, n := (val - cal.offset) * cal.gainP, (val - cal.offset) * cal.gainN;
            && VoltageCoded(p, Code(SVMI, cal, val))
            && CurrentCoded(if val > 0.0 then p else n, Code(SIMV, cal, val), Code(HiZ, cal, val))
  {
    Corrected(SVMI, cal, val);
    Corrected(SIMV, cal, val);
    CorrectedCode(Calibrated(SVMI, cal, val), Calibrated(SIMV, cal, val), cal, val);
  }

  lemma Corrected(mode: Mode, cal: Calibration, val: real)
    ensures mode.SIMV? && val <= 0.0 ==> Calibrated(mode, cal, val) == (val - cal.offset) * cal.gainN
    ensures !mode.SIMV? || val > 0.0 ==> Calibrated(mode, cal, val) == (val - cal.offset) * cal.gainP
  {
  }

  lemma CorrectedCode(x: real, y: real, cal: Calibration, val: real)
    requires x == Calibrated(SVMI, cal, val) && y == Calibrated(SIMV, cal, val)
    ensures VoltageCoded(x, Code(SVMI, cal, val)) && CurrentCoded(y, Code(SIMV, cal, val), Code(HiZ, cal, val))
  {
    VoltageCodedAlways(x);
    CurrentCodedAlways(y);
  }

  lemma CurrentCodeMonotone(v: real, w: real)
    requires v <= w
    ensures CurrentCode(v) <= CurrentCode(w)
  {
    var x, y := Constrain(v, -0.2, 0.2), Constrain(w, -0.2, 0.2);
    assert 65536.0 * (0.4 + 1.6 * x) <= 65536.0 * (0.4 + 1.6 * y);
  }

  lemma VoltageCodeMonotone(v: real, w: real)
    requires v <= w
    ensures VoltageCode(v) <= VoltageCode(w)
  {
    var x, y := Constrain(v, 0.0, 5.0), Constrain(w, 0.0, 5.0);
    assert x * 13107.2 <= y * 13107.2;
  }

  /** The code grows up to the limit of 200 mA and no further. */
  lemma TopCode(v: real)
    ensures CurrentCode(v) <= CurrentCode(0.2) && (v >= 0.2 ==> CurrentCode(v) == CurrentCode(0.2))
  {
    if v <= 0.2 {
      CurrentCodeMonotone(v, 0.2);
    }
  }

  /** The calibrated values of the largest nonpositive current, and the one that positive currents start from. */
  function AtZero(cal: Calibration): real {
    -(cal.offset * cal.gainN)
  }

  function AboveZero(cal: Calibration): real {
    -(cal.offset * cal.gainP)
  }

  /**
   * A sourced current keeps the order of its codes where its sign changes: the
   * code of zero, which is calibrated with the negative gain, is no larger than
   * the code that positive values start from.
   */
  predicate OrderedAtZero(mode: Mode, cal: Calibration) {
    mode.SIMV? ==> CurrentCode(AtZero(cal)) <= CurrentCode(AboveZero(cal))
  }

  /**
   * With positive gains a larger value never gets a smaller code.  A sourced
   * current that changes sign needs a condition on the calibration: the gain is
   * chosen by the sign of the value, not of the value less its offset.
   */
  lemma CodeMonotone(mode: Mode, cal: Calibration, x: real, y: real)
    requires cal.gainP > 0.0 && cal.gainN > 0.0 && x <= y
    requires x <= 0.0 < y ==> OrderedAtZero(mode, cal)
    ensures Code(mode, cal, x) <= Code(mode, cal, y)
  {
    if mode.SIMV? && x <= 0.0 < y {
      AcrossZero(cal, x, y);
    } else {
      Scaled(x - cal.offset, y - cal.offset, Gain(mode, cal, x));
      if mode.SIMV? {
        CurrentCodeMonotone(Calibrated(mode, cal, x), Calibrated(mode, cal, y));
      } else {
        VoltageCodeMonotone(Calibrated(mode, cal, x), Calibrated(mode, cal, y));
      }
    }
  }

  lemma AcrossZero(cal: Calibration, x: real, y: real)
    requires cal.gainP > 0.0 && cal.gainN > 0.0 && x <= 0.0 < y && OrderedAtZero(SIMV, cal)
    ensures Code(SIMV, cal, x) <= Code(SIMV, cal, y)
  {
    CalibratedSides(cal, x, y);
    CurrentCodeMonotone(Calibrated(SIMV, cal, x), AtZero(cal));
    CurrentCodeMonotone(AboveZero(cal), Calibrated(SIMV, cal, y));
  }

  lemma CalibratedSides(cal: Calibration, x: real, y: real)
    requires cal.gainP > 0.0 && cal.gainN > 0.0 && x <= 0.0 < y
    ensures Calibrated(SIMV, cal, x) <= AtZero(cal) && AboveZero(cal) <= Calibrated(SIMV, cal, y)
  {
    Distributed(x, cal.offset, cal.gainN);
    Distributed(y, cal.offset, cal.gainP);
    Scaled(x, 0.0, cal.gainN);
    Scaled(0.0, y, cal.gainP);
  }

  lemma Scaled(x: real, y: real, g: real)
    requires x <= y && g > 0.0
    ensures x * g <= y * g
  {
  }

  lemma Distributed(x: real, y: real, g: real)
    ensures (x - y) * g == x * g - y * g
  {
  }

  ghost predicate Ordered(cal: Calibration) {
    forall x, y :: x <= y ==> Code(SIMV, cal, x) <= Code(SIMV, cal, y)
  }

  /**
   * The condition is exact: all sourced currents get their codes in order if and
   * only if the two gains agree on the order at zero, clamping and rounding
   * included.
   */
  lemma OrderedExactly(cal: Calibration)
    requires cal.gainP > 0.0 && cal.gainN > 0.0
    ensures Ordered(cal) <==> OrderedAtZero(SIMV, cal)
  {
    if OrderedAtZero(SIMV, cal) {
      forall x, y | x <= y
        ensures Code(SIMV, cal, x) <= Code(SIMV, cal, y)
      {
        CodeMonotone(SIMV, cal, x, y);
      }
    } else {
      var y := OutOfOrder(cal);
    }
  }

  /** Otherwise some positive current gets a smaller code than zero does. */
  lemma OutOfOrder(cal: Calibration) returns (y: real)
    requires cal.gainP > 0.0 && !OrderedAtZero(SIMV, cal)
    ensures y > 0.0 && Code(SIMV, cal, y) < Code(SIMV, cal, 0.0)
  {
    TopCode(AtZero(cal));
    TopCode(AboveZero(cal));
    var v := SameCode(AboveZero(cal));
    y := Uncalibrated(cal, v);
    ZeroCode(cal);
  }

  lemma ZeroCode(cal: Calibration)
    ensures Code(SIMV, cal, 0.0) == CurrentCode(AtZero(cal))
  {
    Distributed(0.0, cal.offset, cal.gainN);
  }

  /** The positive value that is calibrated to `v`. */
  lemma Uncalibrated(cal: Calibration, v: real) returns (y: real)
    requires cal.gainP > 0.0 && v > AboveZero(cal)
    ensures y > 0.0 && Calibrated(SIMV, cal, y) == v
  {
    y := Quotient(v - AboveZero(cal), cal.gainP);
    Distributed(y, cal.offset, cal.gainP);
  }

  lemma Quotient(d: real, g: real) returns (y: real)
    requires d > 0.0 && g > 0.0
    ensures y > 0.0 && y * g == d
  {
    y := d / g;
  }

  /** Codes are constant a little to the right of any current below the upper limit. */
  lemma SameCode(b: real) returns (v: real)
    requires b < 0.2
    ensures v > b && CurrentCode(v) == CurrentCode(b)
  {
    if b < -0.2 {
      v := -0.2;
    } else {
      var x := 65536.0 * (0.4 + 1.6 * b);
      var gap := x.Floor as real + 1.0 - x;
      v := b + gap / 209715.2;
      if v > 0.2 {
        v := 0.2;
      }
      assert 65536.0 * (0.4 + 1.6 * v) <= x + gap / 2.0;
      assert (65536.0 * (0.4 + 1.6 * v)).Floor == x.Floor;
    }
  }

  /** Such calibrations exist: a smaller code for a larger current. */
  lemma CodeStepsDown()
    ensures var cal := Calibration(0.1, 2.0, 1.0); Code(SIMV, cal, 0.01) < Code(SIMV, cal, 0.0)
  {
    var cal := Calibration(0.1, 2.0, 1.0);
    assert (0.01 - 0.1) * 2.0 == -0.18 && (0.0 - 0.1) * 1.0 == -0.1;
    assert (65536.0 * (0.4 + 1.6 * -0.18)).Floor <= 7340;
    assert (65536.0 * (0.4 + 1.6 * -0.1)).Floor >= 15728;
  }

  // ---- Transfer buffer layout ----

  /** Offset of the two bytes of channel A (or B) of slot `k`; newer firmware interleaves the channels. */
  function SlotOffset(interleaved: bool, second: bool, k: nat): nat {
    if interleaved then 4 * k + (if second then 2 else 0)
    else k / CHUNK * PACKET_BYTES + (if second then 2 * CHUNK else 0) + 2 * (k % CHUNK)
  }

  /**
   * Slot `i` of packet `p` of a buffer holds two codes, each high byte first: side
   * by side, or channel B half a packet behind channel A.
   */
  predicate Laid(interleaved: bool, bytes: seq<Byte>, p: nat, i: nat, codeA: int, codeB: int)
    requires i < CHUNK && 1024 * p + 1024 <= |bytes|
  {
    if interleaved then
      bytes[1024 * p + 4 * i..1024 * p + 4 * i + 4] == [codeA / 256, codeA % 256, codeB / 256, codeB % 256]
    else
      && bytes[1024 * p + 2 * i..1024 * p + 2 * i + 2] == [codeA / 256, codeA % 256]
      && bytes[1024 * p + 512 + 2 * i..1024 * p + 512 + 2 * i + 2] == [codeB / 256, codeB % 256]
  }

  /** The same byte by byte, at the offsets the driver computes. */
  lemma LaidAt(interleaved: bool, bytes: seq<Byte>, k: nat, codeA: int, codeB: int)
    requires 1024 * (k / CHUNK) + 1024 <= |bytes|
    ensures var o, u := SlotOffset(interleaved, false, k), SlotOffset(interleaved, true, k);
            && o + 1 < |bytes| && u + 1 < |bytes|
            && (Laid(interleaved, bytes, k / CHUNK, k % CHUNK, codeA, codeB) <==>
                  && bytes[o] == codeA / 256 && bytes[o + 1] == codeA % 256
                  && bytes[u] == codeB / 256 && bytes[u + 1] == codeB % 256)
  {
    var p, i := k / CHUNK, k % CHUNK;
    assert k == p * CHUNK + i;
    if interleaved {
      var at := 1024 * p + 4 * i;
      assert bytes[at..at + 4] == [bytes[at], bytes[at + 1], bytes[at + 2], bytes[at + 3]];
    } else {
      var o, u := 1024 * p + 2 * i, 1024 * p + 512 + 2 * i;
      assert bytes[o..o + 2] == [bytes[o], bytes[o + 1]];
      assert bytes[u..u + 2] == [bytes[u], bytes[u + 1]];
    }
  }

  /** Words of different slots or channels never overlap, and all lie in the packets that hold them. */
  lemma SlotsApart(interleaved: bool, s: bool, k: nat, t: bool, m: nat)
    requires (s, k) != (t, m)
    ensures var o, u := SlotOffset(interleaved, s, k), SlotOffset(interleaved, t, m); o + 1 < u || u + 1 < o
  {
    var p, i, q, j := k / CHUNK, k % CHUNK, m / CHUNK, m % CHUNK;
    assert k == p * CHUNK + i && m == q * CHUNK + j;
    if !interleaved {
      assert p < q || p == q || p > q;
      PacketsApart(p, q, (if s then 2 * CHUNK else 0) + 2 * i, (if t then 2 * CHUNK else 0) + 2 * j);
    }
  }

  lemma PacketsApart(p: nat, q: nat, o: nat, u: nat)
    requires o + 1 < PACKET_BYTES && u + 1 < PACKET_BYTES
    ensures p < q ==> p * PACKET_BYTES + o + 1 < q * PACKET_BYTES + u
    ensures q < p ==> q * PACKET_BYTES + u + 1 < p * PACKET_BYTES + o
  {
  }

  /** Writing the bytes of one slot leaves the codes of another where they are. */
  lemma OthersStay(interleaved: bool, before: seq<Byte>, after: seq<Byte>, k: nat, m: nat, codeA: int, codeB: int)
    requires m != k && |after| == |before| && 1024 * (m / CHUNK) + 1024 <= |before|
    requires forall o :: 0 <= o < |before| && Spares(interleaved, k, o) ==> after[o] == before[o]
    requires Laid(interleaved, before, m / CHUNK, m % CHUNK, codeA, codeB)
    ensures Laid(interleaved, after, m / CHUNK, m % CHUNK, codeA, codeB)
  {
    LaidAt(interleaved, before, m, codeA, codeB);
    LaidAt(interleaved, after, m, codeA, codeB);
    SlotsApart(interleaved, false, m, false, k);
    SlotsApart(interleaved, false, m, true, k);
    SlotsApart(interleaved, true, m, false, k);
    SlotsApart(interleaved, true, m, true, k);
  }

  /** The byte at `o` is none of slot `k`. */
  predicate Spares(interleaved: bool, k: nat, o: int) {
    var oa, ob := SlotOffset(interleaved, false, k), SlotOffset(interleaved, true, k);
    o != oa && o != oa + 1 && o != ob && o != ob + 1
  }

  lemma PacketInBuffer(k: nat, packets: nat)
    requires k < packets * CHUNK
    ensures 1024 * (k / CHUNK) + 1024 <= packets * PACKET_BYTES
  {
    assert k == k / CHUNK * CHUNK + k % CHUNK;
  }

  lemma SlotInBuffer(interleaved: bool, s: bool, k: nat, packets: nat)
    requires k < packets * CHUNK
    ensures SlotOffset(interleaved, s, k) + 1 < packets * PACKET_BYTES
  {
    var p, i := k / CHUNK, k % CHUNK;
    assert k == p * CHUNK + i && p < packets;
  }

  class OutputChannel {
    const mode: Mode
    const cal: Calibration
    var avail: Counter
    var pending: seq<real>
    var next: Option<real>
    var previous: Option<real>

    function View(): Chan
      reads this
    {
      Chan(!mode.HiZ?, Pipe(avail, pending, next, previous))
    }

    constructor (mode: Mode, cal: Calibration)
      ensures View() == Chan(!mode.HiZ?, Pipe(0, [], None, None))
      ensures this.mode == mode && this.cal == cal
    {
      this.mode, this.cal := mode, cal;
      avail, pending, next, previous := 0, [], None, None;
    }

    /**
     * `encode_out`.  The precondition says that the spin on an empty queue has
     * ended, that is, the writer has pushed the value it owes.
     */
    method EncodeOut(continuous: bool, peek: bool) returns (o: Outcome, code: int)
      requires !EncodeChan(View(), continuous, peek).1.Blocked?
      modifies this
      ensures (View(), o) == EncodeChan(old(View()), continuous, peek)
      ensures o.Emitted? ==> code == Code(mode, cal, o.value)
    {
      var val := 0.0;
      code := 0;
      if !mode.HiZ? {
        if continuous || avail > 0 {
          if next.Some? {
            val := next.value;
          } else {
            val := pending[0];
            pending := pending[1..];
          }
          next := if peek then Some(val) else None;
          avail := Decremented(avail);
          previous := Some(val);
        } else if previous.None? {
          o := NoFallback;
          return;
        } else {
          val := previous.value;
        }
      }
      o := Emitted(val);
      code := Code(mode, cal, val);
    }
  }

  /** What became of one call of `submit_out_transfer`. */
  datatype Submission = Sent | Finished | Refused | UsbError

  class OutputDevice {
    const a: OutputChannel
    const b: OutputChannel
    const interleaved: bool
    const packets: nat
    var sampleCount: nat
    var outSampleno: nat
    var failed: bool  // an exception is stored for the main thread

    ghost predicate Valid() {
      a != b && packets > 0
    }

    function View(): Dev
      reads this, a, b
    {
      Dev(a.View(), b.View(), sampleCount, outSampleno)
    }

    constructor (a: OutputChannel, b: OutputChannel, interleaved: bool, packets: nat)
      requires a != b && packets > 0
      ensures Valid() && this.a == a && this.b == b && this.packets == packets && this.interleaved == interleaved
      ensures View() == Dev(a.View(), b.View(), 0, 0) && !failed
    {
      this.a, this.b, this.interleaved, this.packets := a, b, interleaved, packets;
      sampleCount, outSampleno, failed := 0, 0, false;
    }

    /** The counters a run starts with. */
    method StartRun(samples: nat)
      modifies this
      ensures View() == old(View()).(count := samples, pos := 0) && failed == old(failed)
    {
      sampleCount, outSampleno := samples, 0;
    }

    /** Slot `k` of the buffer holds the codes of a slot value. */
    ghost predicate Holds(bytes: seq<Byte>, k: nat, s: Slot)
      requires k < packets * CHUNK && |bytes| == packets * PACKET_BYTES
    {
      PacketInBuffer(k, packets);
      s.Some? ==>
        Laid(interleaved, bytes, k / CHUNK, k % CHUNK,
             Code(a.mode, a.cal, s.value.0), Code(b.mode, b.cal, s.value.1))
    }

    /** Writes the two codes of slot `k` in place and leaves the other slots alone. */
    method PutSlot(buf: array<Byte>, k: nat, codeA: int, codeB: int)
      requires k < packets * CHUNK && buf.Length == packets * PACKET_BYTES
      requires 0 <= codeA < 65536 && 0 <= codeB < 65536
      modifies buf
      ensures 1024 * (k / CHUNK) + 1024 <= buf.Length
      ensures Laid(interleaved, buf[..], k / CHUNK, k % CHUNK, codeA, codeB)
      ensures forall m: nat, s :: m < packets * CHUNK && m != k && Holds(old(buf[..]), m, s) ==> Holds(buf[..], m, s)
    {
      var oa, ob := SlotOffset(interleaved, false, k), SlotOffset(interleaved, true, k);
      SlotInBuffer(interleaved, false, k, packets);
      SlotInBuffer(interleaved, true, k, packets);
      SlotsApart(interleaved, false, k, true, k);
      PacketInBuffer(k, packets);
      buf[oa], buf[oa + 1] := codeA / 256, codeA % 256;
      buf[ob], buf[ob + 1] := codeB / 256, codeB % 256;
      LaidAt(interleaved, buf[..], k, codeA, codeB);
      OthersHeld(old(buf[..]), buf[..], k);
    }

    lemma OthersHeld(before: seq<Byte>, after: seq<Byte>, k: nat)
      requires |before| == |after| == packets * PACKET_BYTES
      requires forall o :: 0 <= o < |before| && Spares(interleaved, k, o) ==> after[o] == before[o]
      ensures forall m: nat, s :: m < packets * CHUNK && m != k && Holds(before, m, s) ==> Holds(after, m, s)
    {
      forall m: nat, s: Slot | m < packets * CHUNK && m != k && Holds(before, m, s) && s.Some?
        ensures Holds(after, m, s)
      {
        PacketInBuffer(m, packets);
        OthersStay(interleaved, before, after, k, m,
                   Code(a.mode, a.cal, s.value.0), Code(b.mode, b.cal, s.value.1));
      }
    }

    /** The device and the buffer have got as far as `f`; the codes are those of its last slot. */
    ghost predicate Filling(f: Fill, bytes: seq<Byte>, codeA: int, codeB: int)
      reads this, a, b
      requires |bytes| == packets * PACKET_BYTES
    {
      && f.stop.None? && View() == f.dev && Held(f.slots, bytes)
      && 0 <= codeA < 65536 && 0 <= codeB < 65536
      && (f.slots != [] ==> Coded(f.slots[|f.slots| - 1], codeA, codeB))
    }

    /** The buffer starts with these slots. */
    ghost predicate Held(slots: seq<Slot>, bytes: seq<Byte>)
      requires |bytes| == packets * PACKET_BYTES
    {
      |slots| <= packets * CHUNK && forall k: nat :: k < |slots| ==> Holds(bytes, k, slots[k])
    }

    /** The codes that go with a slot value; any codes go with an unset slot. */
    ghost predicate Coded(s: Slot, codeA: int, codeB: int) {
      s.Some? ==> codeA == Code(a.mode, a.cal, s.value.0) && codeB == Code(b.mode, b.cal, s.value.1)
    }

    /** The transfer traced by `t` ended early, or reached slot `k`. */
    ghost predicate Reached(t: seq<Fill>, k: nat, bytes: seq<Byte>, stop: Option<Outcome>, codeA: int, codeB: int)
      reads this, a, b
      requires |bytes| == packets * PACKET_BYTES && k < |t|
    {
      var end := t[|t| - 1];
      if stop.None? then Filling(t[k], bytes, codeA, codeB)
      else stop == end.stop && View() == end.dev && Held(end.slots, bytes)
    }

    /** The encoding half of a slot: both channels, if the run asks for this position. */
    method EncodeSlot(ghost f: Fill, prevA: int, prevB: int)
      returns (stop: Option<Outcome>, codeA: int, codeB: int)
      requires Valid() && f.stop.None? && View() == f.dev && NextSlot(f).stop != Some(Blocked)
      requires 0 <= prevA < 65536 && 0 <= prevB < 65536
      requires f.slots != [] ==> Coded(f.slots[|f.slots| - 1], prevA, prevB)
      modifies this, a, b
      ensures View() == NextSlot(f).dev && stop == NextSlot(f).stop && failed == old(failed)
      ensures 0 <= codeA < 65536 && 0 <= codeB < 65536
      ensures stop.Some? ==> NextSlot(f).slots == f.slots
      ensures stop.None? ==> exists s :: NextSlot(f).slots == f.slots + [s] && Coded(s, codeA, codeB)
    {
      ghost var g := NextSlot(f);
      codeA, codeB := prevA, prevB;
      if sampleCount == 0 || outSampleno <= sampleCount {
        var peek := sampleCount > 0 && outSampleno == sampleCount;
        var o;
        o, codeA := a.EncodeOut(sampleCount == 0, peek);
        if !o.Emitted? {
          return Some(o), prevA, prevB;
        }
        o, codeB := b.EncodeOut(sampleCount == 0, peek);
        if !o.Emitted? {
          return Some(o), prevA, prevB;
        }
      }
      outSampleno := outSampleno + 1;
      stop := None;
      assert g.slots == f.slots + [g.slots[|f.slots|]] && Coded(g.slots[|f.slots|], codeA, codeB);
    }

    /** One pass of the inner loop: encode, then write the two codes. */
    method HandleSlot(buf: array<Byte>, ghost t: seq<Fill>, k: nat, prevA: int, prevB: int)
      returns (stop: Option<Outcome>, codeA: int, codeB: int)
      requires Valid() && buf.Length == packets * PACKET_BYTES && k < packets * CHUNK
      requires Trace(t, packets * CHUNK) && t[|t| - 1].stop != Some(Blocked)
      requires Filling(t[k], buf[..], prevA, prevB)
      modifies this, a, b, buf
      ensures failed == old(failed) && Reached(t, k + 1, buf[..], stop, codeA, codeB)
    {
      assert Step(t, k) && Step(t, k + 1);
      stop, codeA, codeB := EncodeSlot(t[k], prevA, prevB);
      if stop.None? {
        PutSlot(buf, k, codeA, codeB);
      }
    }

    /** One pass of the outer loop, for the packet whose first slot is `first`. */
    method HandlePacket(buf: array<Byte>, ghost t: seq<Fill>, first: nat, prevA: int, prevB: int)
      returns (stop: Option<Outcome>, codeA: int, codeB: int)
      requires Valid() && buf.Length == packets * PACKET_BYTES && first + CHUNK <= packets * CHUNK
      requires Trace(t, packets * CHUNK) && t[|t| - 1].stop != Some(Blocked)
      requires Filling(t[first], buf[..], prevA, prevB)
      modifies this, a, b, buf
      ensures failed == old(failed) && Reached(t, first + CHUNK, buf[..], stop, codeA, codeB)
    {
      stop, codeA, codeB := None, prevA, prevB;
      for i := 0 to CHUNK
        invariant stop.None? && failed == old(failed)
        invariant Filling(t[first + i], buf[..], codeA, codeB)
      {
        stop, codeA, codeB := HandleSlot(buf, t, first + i, codeA, codeB);
        if stop.Some? {
          return;
        }
      }
    }

    /**
     * `handle_out_transfer`: fills the buffer packet by packet.  On an
     * exception the slots written so far stay.
     */
    method HandleOutTransfer(buf: array<Byte>) returns (stop: Option<Outcome>)
      requires Valid() && buf.Length == packets * PACKET_BYTES
      requires FillSlots(View(), packets * CHUNK).stop != Some(Blocked)
      modifies this, a, b, buf
      ensures var f := FillSlots(old(View()), packets * CHUNK);
              && View() == f.dev && stop == f.stop && failed == old(failed)
              && Held(f.slots, buf[..]) && (stop.None? ==> |f.slots| == packets * CHUNK)
    {
      ghost var t := TraceOf(View(), packets * CHUNK);
      SlotsSoFar(View(), packets * CHUNK);
      var codeA, codeB := 0, 0;  // unset in the driver; `RunShape` shows no slot keeps them
      stop := None;
      for p := 0 to packets
        invariant stop.None? && failed == old(failed)
        invariant Filling(t[p * CHUNK], buf[..], codeA, codeB)
      {
        stop, codeA, codeB := HandlePacket(buf, t, p * CHUNK, codeA, codeB);
        if stop.Some? {
          return;
        }
      }
    }

    /** `submit_out_transfer`; `usbOk` is the status of the USB submission. */
    method SubmitOutTransfer(buf: array<Byte>, usbOk: bool) returns (r: Submission)
      requires Valid() && buf.Length == packets * PACKET_BYTES
      requires FillSlots(View(), packets * CHUNK).stop != Some(Blocked)
      modifies this, a, b, buf
      ensures var d, f := old(View()), FillSlots(old(View()), packets * CHUNK);
              if d.count > 0 && d.pos >= d.count then r == Finished && View() == d && failed == old(failed)
              else
                && View() == f.dev
                && (r == Refused <==> f.stop.Some? && (d.count == 0 || f.dev.pos < d.count))
                && failed == (old(failed) || r == Refused)
                && (r != Refused ==> r == if usbOk then Sent else UsbError)
    {
      if sampleCount == 0 || outSampleno < sampleCount {
        FillMoves(View(), packets * CHUNK);
        var stop := HandleOutTransfer(buf);
        if stop.Some? && (sampleCount == 0 || outSampleno < sampleCount) {
          failed := true;
          return Refused;
        }
        return if usbOk then Sent else UsbError;
      }
      return Finished;
    }
  }

  /** Position `k` of a traced transfer: the next fill follows, and a stop is final. */
  ghost predicate Step(t: seq<Fill>, k: nat)
    requires k < |t|
  {
    && |t[k].slots| <= k && (t[k].stop.None? ==> |t[k].slots| == k)
    && (t[k].stop.Some? ==> t[|t| - 1] == t[k])
    && (k + 1 < |t| ==> t[k + 1] == NextSlot(t[k]))
  }

  /** `t` lists the fills of one transfer of `n` slots. */
  ghost predicate Trace(t: seq<Fill>, n: nat) {
    |t| == n + 1 && forall k: nat {:trigger Step(t, k)} :: k <= n ==> Step(t, k)
  }

  lemma TraceOf(d: Dev, n: nat) returns (t: seq<Fill>)
    ensures Trace(t, n) && t[0] == Empty(d) && t[n] == FillSlots(d, n)
  {
    t := seq(n + 1, i requires 0 <= i => FillSlots(d, i));
    forall k: nat | k <= n
      ensures Step(t, k)
    {
      StopStays(d, k, n);
      SlotsSoFar(d, k);
      assert k < n ==> FillSlots(d, k + 1) == NextSlot(FillSlots(d, k));
    }
  }

  lemma {:induction false} SlotsSoFar(d: Dev, n: nat)
    ensures var f := FillSlots(d, n); |f.slots| <= n && (f.stop.None? ==> |f.slots| == n)
  {
    if n > 0 {
      SlotsSoFar(d, n - 1);
    }
  }

  /** A transfer that stopped stays stopped. */
  lemma {:induction false} StopStays(d: Dev, n: nat, total: nat)
    requires n <= total
    ensures FillSlots(d, n).stop.Some? ==> FillSlots(d, total) == FillSlots(d, n)
    ensures FillSlots(d, total).stop == None ==> FillSlots(d, n).stop.None?
    decreases total - n
  {
    if n < total {
      StopStays(d, n + 1, total);
    }
  }
}
