/**
 * Life of the USB transfers of one device: submission, resubmission from the
 * completion callbacks, cancellation, and the completion signal.
 *
 * libusb is the environment: it decides the status of every submission and
 * completion and the order of completions, and it alone knows which transfers
 * are in flight.
 */
module Transfers {
  import opened Wrappers

  /** Transfers allocated per direction. */
  const TRANSFERS: nat := 2

  datatype Status = Completed | Cancelled | Failed

  /** `sent` counts the successful submissions so far; the driver does not store it. */
  datatype Direction = Direction(flight: set<nat>, active: int, position: nat, sent: nat)

  /**
   * `ins.position` is `m_requested_sampleno` and `outs.position` is
   * `m_out_sampleno`; `active` is the driver's own count of pending transfers.
   */
  datatype Life = Life(
    count: nat, size: nat,
    ins: Direction, outs: Direction,
    cancelled: bool, refused: bool,
    completions: nat)

  function Idle(count: nat, size: nat, cancelled: bool): Life {
    Life(count, size, Direction({}, 0, 0, 0), Direction({}, 0, 0, 0), cancelled, false, 0)
  }

  // ---- The driver's steps ----

  predicate Wants(l: Life, d: Direction) {
    l.count == 0 || d.position < l.count
  }

  function Launch(d: Direction, t: nat, size: nat): Direction {
    Direction(d.flight + {t}, d.active + 1, d.position + size, d.sent + 1)
  }

  function Land(d: Direction, t: nat): Direction {
    d.(flight := d.flight - {t}, active := d.active - 1)
  }

  /** `submit_in_transfer`; `ok` is the answer of the USB library. */
  function SubmitIn(l: Life, t: nat, ok: bool): (r: (Life, bool)) {
    if !Wants(l, l.ins) then (l, false)
    else if !ok then (l.(cancelled := true), false)
    else (l.(ins := Launch(l.ins, t, l.size)), true)
  }

  /** `submit_out_transfer`; `filled` is false when encoding raised an exception. */
  function SubmitOut(l: Life, t: nat, filled: bool, ok: bool): (r: (Life, bool)) {
    if !Wants(l, l.outs) then (l, false)
    else if !filled then (l.(refused := true), false)
    else if !ok then (l.(outs := l.outs.(position := l.outs.position + l.size), cancelled := true), false)
    else (l.(outs := Launch(l.outs, t, l.size)), true)
  }

  /** The end of both callbacks: signal completion when nothing is pending. */
  function Settle(l: Life): Life {
    if l.outs.active == 0 && l.ins.active == 0 then l.(completions := l.completions + 1) else l
  }

  function InCompletion(l: Life, t: nat, status: Status, ok: bool): Life {
    var d := l.(ins := Land(l.ins, t));
    Settle(match status
           case Completed => if d.cancelled then d else SubmitIn(d, t, ok).0
           case Cancelled => d
           case Failed => d.(cancelled := true))
  }

  function OutCompletion(l: Life, t: nat, status: Status, filled: bool, ok: bool): Life {
    var d := l.(outs := Land(l.outs, t));
    Settle(match status
           case Completed => if d.cancelled then d else SubmitOut(d, t, filled, ok).0
           case Cancelled => d
           case Failed => d.(cancelled := true))
  }

  /** Answers of the environment to the initial submissions. */
  datatype Answer = Answer(inOk: bool, outFilled: bool, outOk: bool)

  function StartIns(l: Life, t: nat, env: nat -> Answer): Life
    decreases TRANSFERS - t
  {
    if t >= TRANSFERS then l
    else
      var (m, ok) := SubmitIn(l, t, env(t).inOk);
      if ok then StartIns(m, t + 1, env) else m
  }

  function StartOuts(l: Life, t: nat, env: nat -> Answer): Life
    decreases TRANSFERS - t
  {
    if t >= TRANSFERS then l
    else
      var (m, ok) := SubmitOut(l, t, env(t).outFilled, env(t).outOk);
      if ok then StartOuts(m, t + 1, env) else m
  }

  /** `start_usb_transfers`, all under the device lock. */
  function Start(l: Life, env: nat -> Answer): Life {
    StartOuts(StartIns(l, 0, env), 0, env)
  }

  // ---- The device object ----

  /** The same steps as the driver performs them, on fields updated in place. */
  class TransferEngine {
    const size: nat
    var sampleCount: nat
    var ins: Direction
    var outs: Direction
    var cancelled: bool
    var refused: bool
    var completions: nat

    function View(): Life
      reads this
    {
      Life(sampleCount, size, ins, outs, cancelled, refused, completions)
    }

    constructor (size: nat, samples: nat)
      ensures View() == Idle(samples, size, false)
    {
      this.size, sampleCount := size, samples;
      ins, outs := Direction({}, 0, 0, 0), Direction({}, 0, 0, 0);
      cancelled, refused, completions := false, false, 0;
    }

    method SubmitInTransfer(t: nat, ok: bool) returns (r: bool)
      modifies this
      ensures (View(), r) == SubmitIn(old(View()), t, ok)
    {
      r := false;
      if sampleCount == 0 || ins.position < sampleCount {
        if !ok {
          cancelled := true;
          return;
        }
        ins := ins.(flight := ins.flight + {t}, sent := ins.sent + 1);
        ins := ins.(active := ins.active + 1);
        ins := ins.(position := ins.position + size);
        r := true;
      }
    }

    method SubmitOutTransfer(t: nat, filled: bool, ok: bool) returns (r: bool)
      modifies this
      ensures (View(), r) == SubmitOut(old(View()), t, filled, ok)
    {
      r := false;
      if sampleCount == 0 || outs.position < sampleCount {
        if !filled {
          refused := true;
          return;
        }
        outs := outs.(position := outs.position + size);
        if !ok {
          cancelled := true;
          return;
        }
        outs := outs.(flight := outs.flight + {t}, sent := outs.sent + 1);
        outs := outs.(active := outs.active + 1);
        r := true;
      }
    }

    method OnInCompletion(t: nat, status: Status, ok: bool)
      modifies this
      ensures View() == InCompletion(old(View()), t, status, ok)
    {
      ins := ins.(flight := ins.flight - {t}, active := ins.active - 1);
      if status == Completed {
        if !cancelled {
          var _ := SubmitInTransfer(t, ok);
        }
      } else if status != Cancelled {
        cancelled := true;
      }
      if outs.active == 0 && ins.active == 0 {
        completions := completions + 1;
      }
    }

    method OnOutCompletion(t: nat, status: Status, filled: bool, ok: bool)
      modifies this
      ensures View() == OutCompletion(old(View()), t, status, filled, ok)
    {
      outs := outs.(flight := outs.flight - {t}, active := outs.active - 1);
      if status == Completed {
        if !cancelled {
          var _ := SubmitOutTransfer(t, filled, ok);
        }
      } else if status != Cancelled {
        cancelled := true;
      }
      if outs.active == 0 && ins.active == 0 {
        completions := completions + 1;
      }
    }

    /** The two loops of `start_usb_transfers`; each ends at its first failure. */
    method StartTransfers(env: nat -> Answer)
      modifies this
      ensures View() == Start(old(View()), env)
    {
      StartInTransfers(env);
      StartOutTransfers(env);
    }

    method StartInTransfers(env: nat -> Answer)
      modifies this
      ensures View() == StartIns(old(View()), 0, env)
    {
      var t := 0;
      while t < TRANSFERS
        invariant StartIns(View(), t, env) == StartIns(old(View()), 0, env)
      {
        var ok := SubmitInTransfer(t, env(t).inOk);
        if !ok {
          break;
        }
        t := t + 1;
      }
    }

    method StartOutTransfers(env: nat -> Answer)
      modifies this
      ensures View() == StartOuts(old(View()), 0, env)
    {
      var t := 0;
      while t < TRANSFERS
        invariant StartOuts(View(), t, env) == StartOuts(old(View()), 0, env)
      {
        var ok := SubmitOutTransfer(t, env(t).outFilled, env(t).outOk);
        if !ok {
          break;
        }
        t := t + 1;
      }
    }
  }

  // ---- Executions ----

  datatype Event =
    | InDone(t: nat, status: Status, ok: bool)
    | OutDone(t: nat, status: Status, filled: bool, ok: bool)
    | CancelRequest

  /** A transfer lands only if it is in flight, and as cancelled only if the session asked for it. */
  predicate Enabled(l: Life, e: Event) {
    match e
    case InDone(t, status, _) => t in l.ins.flight && (status.Cancelled? ==> l.cancelled)
    case OutDone(t, status, _, _) => t in l.outs.flight && (status.Cancelled? ==> l.cancelled)
    case CancelRequest => true
  }

  function Step(l: Life, e: Event): Life {
    match e
    case InDone(t, status, ok) => InCompletion(l, t, status, ok)
    case OutDone(t, status, filled, ok) => OutCompletion(l, t, status, filled, ok)
    case CancelRequest => l.(cancelled := true)
  }

  predicate Runs(l: Life, es: seq<Event>)
    decreases |es|
  {
    es == [] || (Enabled(l, es[0]) && Runs(Step(l, es[0]), es[1..]))
  }

  function Final(l: Life, es: seq<Event>): Life
    decreases |es|
  {
    if es == [] then l else Final(Step(l, es[0]), es[1..])
  }

  // ---- Invariant ----

  predicate Quiet(l: Life) {
    l.ins.flight == {} && l.outs.flight == {}
  }

  predicate AnySent(l: Life) {
    l.ins.sent + l.outs.sent > 0
  }

  /** The driver's counts equal the transfers in flight, and completion has been signalled once if all have landed. */
  predicate Tracked(l: Life) {
    && l.ins.active == |l.ins.flight| && l.outs.active == |l.outs.flight|
    && l.completions == (if Quiet(l) && AnySent(l) then 1 else 0)
    && (l.ins.flight != {} ==> l.ins.sent > 0) && (l.outs.flight != {} ==> l.outs.sent > 0)
  }

  /** With no error so far a direction has sent whole transfers, none beyond the run, and idles only when done. */
  predicate Paced(l: Life, d: Direction) {
    !l.cancelled && !l.refused ==>
      && d.position == l.size * d.sent
      && (l.count > 0 ==> d.position < l.count + l.size)
      && (d.flight == {} ==> !Wants(l, d))
  }

  predicate Inv(l: Life) {
    Tracked(l) && Paced(l, l.ins) && Paced(l, l.outs)
  }

  lemma LandOne(d: Direction, t: nat)
    requires t in d.flight && d.active == |d.flight|
    ensures var e := Land(d, t);
            && e.active == |e.flight| && |e.flight| + 1 == |d.flight| && t !in e.flight
            && Launch(e, t, 0).flight == d.flight
  {
  }

  lemma SentIsPaced(size: nat, sent: nat)
    ensures size * (sent + 1) == size * sent + size
  {
  }

  lemma InTracked(l: Life, t: nat, status: Status, ok: bool)
    requires Tracked(l) && t in l.ins.flight
    ensures Tracked(InCompletion(l, t, status, ok))
  {
    LandOne(l.ins, t);
  }

  lemma OutTracked(l: Life, t: nat, status: Status, filled: bool, ok: bool)
    requires Tracked(l) && t in l.outs.flight
    ensures Tracked(OutCompletion(l, t, status, filled, ok))
  {
    LandOne(l.outs, t);
  }

  lemma InPaced(l: Life, t: nat, status: Status, ok: bool)
    requires Inv(l) && Enabled(l, InDone(t, status, ok))
    ensures var m := InCompletion(l, t, status, ok); Paced(m, m.ins) && Paced(m, m.outs)
  {
    SentIsPaced(l.size, l.ins.sent);
  }

  lemma OutPaced(l: Life, t: nat, status: Status, filled: bool, ok: bool)
    requires Inv(l) && Enabled(l, OutDone(t, status, filled, ok))
    ensures var m := OutCompletion(l, t, status, filled, ok); Paced(m, m.ins) && Paced(m, m.outs)
  {
    SentIsPaced(l.size, l.outs.sent);
  }

  lemma StepInv(l: Life, e: Event)
    requires Inv(l) && Enabled(l, e)
    ensures Inv(Step(l, e)) && Step(l, e).count == l.count && Step(l, e).size == l.size
  {
    match e
    case InDone(t, status, ok) =>
      InTracked(l, t, status, ok);
      InPaced(l, t, status, ok);
    case OutDone(t, status, filled, ok) =>
      OutTracked(l, t, status, filled, ok);
      OutPaced(l, t, status, filled, ok);
    case CancelRequest =>
  }

  lemma {:induction false} RunsInv(l: Life, es: seq<Event>)
    requires Inv(l) && Runs(l, es)
    ensures Inv(Final(l, es)) && Final(l, es).count == l.count && Final(l, es).size == l.size
    decreases |es|
  {
    if es != [] {
      StepInv(l, es[0]);
      RunsInv(Step(l, es[0]), es[1..]);
    }
  }

  /** `Inv` while the initial submissions are still being made: nothing can land yet. */
  predicate Starting(l: Life) {
    && l.ins.active == |l.ins.flight| && l.outs.active == |l.outs.flight| && l.completions == 0
    && (l.ins.flight != {} <==> l.ins.sent > 0) && (l.outs.flight != {} <==> l.outs.sent > 0)
  }

  predicate Pacing(l: Life, d: Direction, t: nat) {
    && (forall u :: u in d.flight ==> u < t)
    && (!l.cancelled && !l.refused ==>
          && d.position == l.size * d.sent && (l.count > 0 ==> d.position < l.count + l.size)
          && (t > 0 && d.flight == {} ==> !Wants(l, d)))
  }

  lemma LaunchOne(d: Direction, t: nat, size: nat)
    requires d.active == |d.flight| && t !in d.flight
    ensures var e := Launch(d, t, size); e.active == |e.flight| && e.flight != {}
    ensures d.position == size * d.sent ==> Launch(d, t, size).position == size * (d.sent + 1)
  {
    assert |d.flight + {t}| == |d.flight| + 1;
    SentIsPaced(size, d.sent);
  }

  /** One initial in-submission; after the last one the direction is paced for good. */
  lemma SubmitInStarts(l: Life, t: nat, ok: bool)
    requires Starting(l) && Pacing(l, l.ins, t) && l.size > 0 && t < TRANSFERS
    ensures var (m, more) := SubmitIn(l, t, ok);
            && Starting(m) && m.outs == l.outs && m.count == l.count && m.size == l.size && m.refused == l.refused
            && Pacing(m, m.ins, if more then t + 1 else TRANSFERS) && (l.cancelled ==> m.cancelled)
  {
    LaunchOne(l.ins, t, l.size);
  }

  lemma SubmitOutStarts(l: Life, t: nat, filled: bool, ok: bool)
    requires Starting(l) && Pacing(l, l.outs, t) && l.size > 0 && t < TRANSFERS
    ensures var (m, more) := SubmitOut(l, t, filled, ok);
            && Starting(m) && m.ins == l.ins && m.count == l.count && m.size == l.size
            && Pacing(m, m.outs, if more then t + 1 else TRANSFERS)
            && (l.cancelled ==> m.cancelled) && (l.refused ==> m.refused)
  {
    LaunchOne(l.outs, t, l.size);
  }

  lemma {:induction false} StartInsInv(l: Life, t: nat, env: nat -> Answer)
    requires Starting(l) && Pacing(l, l.ins, t) && l.size > 0
    ensures var m := StartIns(l, t, env);
            && Starting(m) && m.outs == l.outs && m.count == l.count && m.size == l.size && m.refused == l.refused
            && Pacing(m, m.ins, if t > TRANSFERS then t else TRANSFERS)
            && (l.cancelled ==> m.cancelled)
    decreases TRANSFERS - t
  {
    if t < TRANSFERS {
      SubmitInStarts(l, t, env(t).inOk);
      var (m, ok) := SubmitIn(l, t, env(t).inOk);
      if ok {
        StartInsInv(m, t + 1, env);
      }
    }
  }

  lemma {:induction false} StartOutsInv(l: Life, t: nat, env: nat -> Answer)
    requires Starting(l) && Pacing(l, l.outs, t) && l.size > 0
    ensures var m := StartOuts(l, t, env);
            && Starting(m) && m.ins == l.ins && m.count == l.count && m.size == l.size
            && Pacing(m, m.outs, if t > TRANSFERS then t else TRANSFERS)
            && (l.cancelled ==> m.cancelled) && (l.refused ==> m.refused)
    decreases TRANSFERS - t
  {
    if t < TRANSFERS {
      SubmitOutStarts(l, t, env(t).outFilled, env(t).outOk);
      var (m, ok) := SubmitOut(l, t, env(t).outFilled, env(t).outOk);
      if ok {
        StartOutsInv(m, t + 1, env);
      }
    }
  }

  /** The start establishes the invariant, whatever the environment answers, even when a cancel comes before it. */
  lemma StartInv(count: nat, size: nat, cancelled: bool, env: nat -> Answer)
    requires size > 0
    ensures var l := Start(Idle(count, size, cancelled), env);
            Inv(l) && l.completions == 0 && l.count == count && l.size == size && (cancelled ==> l.cancelled)
  {
    var l := Idle(count, size, cancelled);
    StartInsInv(l, 0, env);
    StartOutsInv(StartIns(l, 0, env), 0, env);
  }

  // ---- Termination ----

  /** Transfers a direction still has to submit. */
  function Blocks(l: Life, d: Direction): nat
    requires l.size > 0
  {
    if d.position >= l.count then 0 else CeilDiv(l.count - d.position, l.size)
  }

  /** Landings still to come in a noncontinuous run, if no more is lost. */
  function Work(l: Life): nat
    requires l.size > 0
  {
    Blocks(l, l.ins) + |l.ins.flight| + Blocks(l, l.outs) + |l.outs.flight|
  }

  lemma OneBlockLess(l: Life, d: Direction, e: Direction)
    requires l.size > 0 && d.position < l.count && e.position == d.position + l.size
    ensures Blocks(l, e) + 1 == Blocks(l, d)
  {
    var a, b := l.count - d.position, l.size;
    CeilDivCovers(a, b);
    if a > b {
      CeilDivCovers(a - b, b);
      var n := CeilDiv(a - b, b) + 1;
      assert b * n == b * CeilDiv(a - b, b) + b;
      CeilDivUnique(a, b, n);
    } else {
      CeilDivUnique(a, b, 1);
    }
  }

  predicate Lands(e: Event) {
    !e.CancelRequest?
  }

  /** Nothing went wrong with this landing or with the submission that follows it. */
  predicate Clean(e: Event) {
    match e
    case InDone(_, status, ok) => status.Completed? && ok
    case OutDone(_, status, filled, ok) => status.Completed? && filled && ok
    case CancelRequest => false
  }

  lemma InWorks(l: Life, t: nat, status: Status, ok: bool)
    requires Inv(l) && t in l.ins.flight && l.count > 0 && l.size > 0
    ensures var m := InCompletion(l, t, status, ok);
            && m.size == l.size && Work(m) < Work(l)
            && (status.Completed? && ok && !l.cancelled ==>
                  Work(m) + 1 == Work(l) && !m.cancelled && m.refused == l.refused)
  {
    LandOne(l.ins, t);
    if Wants(l, l.ins) {
      OneBlockLess(l, l.ins, Launch(Land(l.ins, t), t, l.size));
    }
  }

  lemma OutWorks(l: Life, t: nat, status: Status, filled: bool, ok: bool)
    requires Inv(l) && t in l.outs.flight && l.count > 0 && l.size > 0
    ensures var m := OutCompletion(l, t, status, filled, ok);
            && m.size == l.size && Work(m) < Work(l)
            && (status.Completed? && filled && ok && !l.cancelled ==>
                  Work(m) + 1 == Work(l) && !m.cancelled && m.refused == l.refused)
  {
    LandOne(l.outs, t);
    if Wants(l, l.outs) {
      OneBlockLess(l, l.outs, Launch(Land(l.outs, t), t, l.size));
    }
  }

  /** Every landing brings a noncontinuous run closer to its end, by exactly one while nothing goes wrong. */
  lemma LandingWorks(l: Life, e: Event)
    requires Inv(l) && Enabled(l, e) && Lands(e) && l.count > 0 && l.size > 0
    ensures var m := Step(l, e);
            && m.size == l.size && Work(m) < Work(l)
            && (!l.cancelled && !l.refused && Clean(e) ==> Work(m) + 1 == Work(l) && !m.cancelled && !m.refused)
  {
    if e.InDone? {
      InWorks(l, e.t, e.status, e.ok);
    } else {
      OutWorks(l, e.t, e.status, e.filled, e.ok);
    }
  }

  function Landings(es: seq<Event>): nat {
    if es == [] then 0 else (if Lands(es[0]) then 1 else 0) + Landings(es[1..])
  }

  predicate Healthy(l: Life) {
    !l.cancelled && !l.refused
  }

  predicate AllClean(es: seq<Event>) {
    forall k :: 0 <= k < |es| ==> Clean(es[k])
  }

  lemma StepWorks(l: Life, e: Event)
    requires Inv(l) && Enabled(l, e) && l.count > 0 && l.size > 0
    ensures var m := Step(l, e);
            && Inv(m) && m.size == l.size && m.count == l.count
            && (if Lands(e) then 1 else 0) + Work(m) <= Work(l)
            && (Healthy(l) && Clean(e) ==> 1 + Work(m) == Work(l) && Healthy(m))
  {
    StepInv(l, e);
    if Lands(e) {
      LandingWorks(l, e);
    }
  }

  /** A noncontinuous run ends: whatever happens, no more landings than the initial work. */
  lemma {:induction false} RunTerminates(l: Life, es: seq<Event>)
    requires Inv(l) && Runs(l, es) && l.count > 0 && l.size > 0
    ensures Final(l, es).size == l.size && Landings(es) + Work(Final(l, es)) <= Work(l)
    decreases |es|
  {
    if es != [] {
      StepWorks(l, es[0]);
      RunTerminates(Step(l, es[0]), es[1..]);
    }
  }

  /** While nothing goes wrong every event is a landing, and brings the end nearer by one. */
  lemma {:induction false} CleanRunWorks(l: Life, es: seq<Event>)
    requires Inv(l) && Runs(l, es) && l.count > 0 && l.size > 0 && Healthy(l) && AllClean(es)
    ensures Final(l, es).size == l.size && |es| + Work(Final(l, es)) == Work(l) && Healthy(Final(l, es))
    decreases |es|
  {
    if es != [] {
      StepWorks(l, es[0]);
      assert Clean(es[0]);
      CleanRunWorks(Step(l, es[0]), es[1..]);
    }
  }

  /** The initial submissions turn blocks into flights one for one. */
  lemma StartWork(count: nat, size: nat, env: nat -> Answer)
    requires count > 0 && size > 0 && forall t :: env(t) == Answer(true, true, true)
    ensures var l := Start(Idle(count, size, false), env);
            Work(l) == 2 * CeilDiv(count, size) && !l.cancelled && !l.refused
  {
    var l := Idle(count, size, false);
    StartInsWork(l, 0, env);
    StartInsInv(l, 0, env);
    StartOutsWork(StartIns(l, 0, env), 0, env);
  }

  lemma {:induction false} StartInsWork(l: Life, t: nat, env: nat -> Answer)
    requires Starting(l) && Pacing(l, l.ins, t) && l.count > 0 && l.size > 0
    requires forall u :: env(u) == Answer(true, true, true)
    ensures var m := StartIns(l, t, env);
            m.size == l.size && Work(m) == Work(l) && m.cancelled == l.cancelled && m.refused == l.refused
    decreases TRANSFERS - t
  {
    if t < TRANSFERS && Wants(l, l.ins) {
      var m := SubmitIn(l, t, true).0;
      SentIsPaced(l.size, l.ins.sent);
      OneBlockLess(l, l.ins, m.ins);
      assert |m.ins.flight| == |l.ins.flight| + 1;
      StartInsWork(m, t + 1, env);
    }
  }

  lemma {:induction false} StartOutsWork(l: Life, t: nat, env: nat -> Answer)
    requires Starting(l) && Pacing(l, l.outs, t) && l.count > 0 && l.size > 0
    requires forall u :: env(u) == Answer(true, true, true)
    ensures var m := StartOuts(l, t, env);
            m.size == l.size && Work(m) == Work(l) && m.cancelled == l.cancelled && m.refused == l.refused
    decreases TRANSFERS - t
  {
    if t < TRANSFERS && Wants(l, l.outs) {
      var m := SubmitOut(l, t, true, true).0;
      SentIsPaced(l.size, l.outs.sent);
      OneBlockLess(l, l.outs, m.outs);
      assert |m.outs.flight| == |l.outs.flight| + 1;
      StartOutsWork(m, t + 1, env);
    }
  }

  // ---- Main results ----

  /**
   * Exactly-once completion without errors.  In any order of landings a run of
   * `N > 0` samples in transfers of `S` has submitted exactly `ceil(N/S)` in-
   * and `ceil(N/S)` out-transfers when the last of `2 * ceil(N/S)` landings
   * arrives; completion is signalled by that landing and by no other.
   */
  lemma ErrorFreeRun(count: nat, size: nat, env: nat -> Answer, es: seq<Event>)
    requires count > 0 && size > 0 && forall t :: env(t) == Answer(true, true, true)
    requires Runs(Start(Idle(count, size, false), env), es) && AllClean(es)
    ensures var m, n := Final(Start(Idle(count, size, false), env), es), CeilDiv(count, size);
            && |es| <= 2 * n
            && (Quiet(m) <==> |es| == 2 * n)
            && m.completions == (if |es| == 2 * n then 1 else 0)
            && (Quiet(m) ==> m.ins.sent == n && m.outs.sent == n)
            && m.ins.active == |m.ins.flight| && m.outs.active == |m.outs.flight|
  {
    var l, n := Start(Idle(count, size, false), env), CeilDiv(count, size);
    StartInv(count, size, false, env);
    StartWork(count, size, env);
    CleanRunWorks(l, es);
    RunsInv(l, es);
    var m := Final(l, es);
    CeilDivCovers(count, size);
    if Quiet(m) {
      CeilDivUnique(count, size, m.ins.sent);
      CeilDivUnique(count, size, m.outs.sent);
    }
  }

  /** Both transfers of a direction, or the only one the run needs. */
  function Launched(count: nat, size: nat): Direction {
    if count == 0 || count > size then Direction({0, 1}, 2, size + size, 2) else Direction({0}, 1, size, 1)
  }

  /** While nothing is refused a start sends as many in each direction. */
  lemma StartFlights(count: nat, size: nat, env: nat -> Answer)
    requires size > 0 && forall t :: env(t) == Answer(true, true, true)
    ensures var l := Start(Idle(count, size, false), env);
            l.ins == l.outs == Launched(count, size) && !l.cancelled && !l.refused
  {
    var l := Idle(count, size, false);
    InFlights(l, env);
    OutFlights(StartIns(l, 0, env), env);
  }

  lemma InFlights(l: Life, env: nat -> Answer)
    requires l.ins == Direction({}, 0, 0, 0) && l.size > 0 && forall t :: env(t) == Answer(true, true, true)
    ensures StartIns(l, 0, env) == l.(ins := Launched(l.count, l.size))
  {
    var m := l.(ins := Direction({0}, 1, l.size, 1));
    assert env(0) == env(1) == Answer(true, true, true);
    assert {} + {0} == {0} && {0} + {1} == {0, 1};
    assert StartIns(l, 0, env) == StartIns(m, 1, env);
  }

  lemma OutFlights(l: Life, env: nat -> Answer)
    requires l.outs == Direction({}, 0, 0, 0) && l.size > 0 && forall t :: env(t) == Answer(true, true, true)
    ensures StartOuts(l, 0, env) == l.(outs := Launched(l.count, l.size))
  {
    var m := l.(outs := Direction({0}, 1, l.size, 1));
    assert env(0) == env(1) == Answer(true, true, true);
    assert {} + {0} == {0} && {0} + {1} == {0, 1};
    assert StartOuts(l, 0, env) == StartOuts(m, 1, env);
  }

  /**
   * Exactly when something is sent at all: the first in-submission succeeds, or
   * the first out-transfer is filled and its submission succeeds.
   */
  lemma SentExactly(count: nat, size: nat, cancelled: bool, env: nat -> Answer)
    requires size > 0
    ensures AnySent(Start(Idle(count, size, cancelled), env)) <==> env(0).inOk || (env(0).outFilled && env(0).outOk)
  {
    var l := Idle(count, size, cancelled);
    var m := StartIns(l, 0, env);
    InsSentExactly(l, env);
    OutsSentExactly(m, env);
  }

  lemma InsSentExactly(l: Life, env: nat -> Answer)
    requires l.ins.position == 0 && l.ins.sent == 0
    ensures var m := StartIns(l, 0, env); m.outs == l.outs && m.count == l.count && (m.ins.sent > 0 <==> env(0).inOk)
  {
    var (m, ok) := SubmitIn(l, 0, env(0).inOk);
    if ok {
      StartInsGrows(m, 1, env);
    }
  }

  lemma OutsSentExactly(l: Life, env: nat -> Answer)
    requires l.outs.position == 0 && l.outs.sent == 0
    ensures var m := StartOuts(l, 0, env); m.ins == l.ins && (m.outs.sent > 0 <==> env(0).outFilled && env(0).outOk)
  {
    var (m, ok) := SubmitOut(l, 0, env(0).outFilled, env(0).outOk);
    if ok {
      StartOutsGrows(m, 1, env);
    }
  }

  lemma {:induction false} StartInsGrows(l: Life, t: nat, env: nat -> Answer)
    ensures var m := StartIns(l, t, env); m.outs == l.outs && m.count == l.count && m.ins.sent >= l.ins.sent
    decreases TRANSFERS - t
  {
    if t < TRANSFERS {
      StartInsGrows(SubmitIn(l, t, env(t).inOk).0, t + 1, env);
    }
  }

  lemma {:induction false} StartOutsGrows(l: Life, t: nat, env: nat -> Answer)
    ensures var m := StartOuts(l, t, env); m.ins == l.ins && m.outs.sent >= l.outs.sent
    decreases TRANSFERS - t
  {
    if t < TRANSFERS {
      StartOutsGrows(SubmitOut(l, t, env(t).outFilled, env(t).outOk).0, t + 1, env);
    }
  }

  /**
   * Whatever the environment does, in any mode, and whether or not the session
   * was cancelled before the transfers were started: the driver's counts equal the
   * transfers in flight, and completion is signalled once if all submitted
   * transfers have landed and never otherwise.  In particular it is never
   * signalled when every initial submission fails.
   */
  lemma CompletionExactlyOnce(count: nat, size: nat, cancelled: bool, env: nat -> Answer, es: seq<Event>)
    requires size > 0 && Runs(Start(Idle(count, size, cancelled), env), es)
    ensures var m := Final(Start(Idle(count, size, cancelled), env), es);
            && m.ins.active == |m.ins.flight| && m.outs.active == |m.outs.flight|
            && m.completions == if Quiet(m) && AnySent(m) then 1 else 0
  {
    StartInv(count, size, cancelled, env);
    RunsInv(Start(Idle(count, size, cancelled), env), es);
  }

  lemma LandsCancelled(l: Life, e: Event)
    requires Inv(l) && l.cancelled && Enabled(l, e)
    ensures var m := Step(l, e);
            && m.cancelled && m.ins.sent == l.ins.sent && m.outs.sent == l.outs.sent
            && m.ins.flight <= l.ins.flight && m.outs.flight <= l.outs.flight
            && (if Lands(e) then 1 else 0) + |m.ins.flight| + |m.outs.flight| == |l.ins.flight| + |l.outs.flight|
  {
    match e
    case InDone(t, status, ok) => InLandsCancelled(l, t, status, ok);
    case OutDone(t, status, filled, ok) => OutLandsCancelled(l, t, status, filled, ok);
    case CancelRequest =>
  }

  lemma InLandsCancelled(l: Life, t: nat, status: Status, ok: bool)
    requires l.ins.active == |l.ins.flight| && l.cancelled && t in l.ins.flight
    ensures var m := InCompletion(l, t, status, ok);
            && m.cancelled && m.ins.sent == l.ins.sent && m.outs == l.outs
            && m.ins.flight <= l.ins.flight && 1 + |m.ins.flight| == |l.ins.flight|
  {
    LandOne(l.ins, t);
  }

  lemma OutLandsCancelled(l: Life, t: nat, status: Status, filled: bool, ok: bool)
    requires l.outs.active == |l.outs.flight| && l.cancelled && t in l.outs.flight
    ensures var m := OutCompletion(l, t, status, filled, ok);
            && m.cancelled && m.outs.sent == l.outs.sent && m.ins == l.ins
            && m.outs.flight <= l.outs.flight && 1 + |m.outs.flight| == |l.outs.flight|
  {
    LandOne(l.outs, t);
  }

  /**
   * After a cancel or an error no callback resubmits: the transfers in flight
   * land one by one, nothing is added, and when all have landed completion has
   * been signalled exactly once if anything was ever sent.
   */
  lemma {:induction false} NothingAfterCancel(l: Life, es: seq<Event>)
    requires Inv(l) && l.cancelled && Runs(l, es)
    ensures var m := Final(l, es);
            && m.cancelled && m.ins.sent == l.ins.sent && m.outs.sent == l.outs.sent
            && m.ins.flight <= l.ins.flight && m.outs.flight <= l.outs.flight
            && Landings(es) + |m.ins.flight| + |m.outs.flight| == |l.ins.flight| + |l.outs.flight|
            && m.completions == (if Quiet(m) && AnySent(l) then 1 else 0)
    decreases |es|
  {
    if es != [] {
      StepInv(l, es[0]);
      LandsCancelled(l, es[0]);
      NothingAfterCancel(Step(l, es[0]), es[1..]);
    }
  }

  // ---- What an error does ----

  /** The landing makes the driver submit the transfer again. */
  predicate Resubmits(l: Life, e: Event) {
    match e
    case InDone(_, status, _) => status.Completed? && !l.cancelled && Wants(l, l.ins)
    case OutDone(_, status, _, _) => status.Completed? && !l.cancelled && Wants(l, l.outs)
    case CancelRequest => false
  }

  /** An error: the transfer failed, or the USB library refused it when it was submitted again. */
  predicate Breaks(l: Life, e: Event) {
    match e
    case InDone(_, status, ok) => status.Failed? || (Resubmits(l, e) && !ok)
    case OutDone(_, status, filled, ok) => status.Failed? || (Resubmits(l, e) && filled && !ok)
    case CancelRequest => false
  }

  /** The transfer is on its way again. */
  predicate Returns(l: Life, e: Event) {
    Resubmits(l, e) && if e.InDone? then e.ok else e.OutDone? && e.filled && e.ok
  }

  /** Direction `e` is `d` after transfer `t` landed, and was sent again if `again`. */
  predicate Landed(d: Direction, e: Direction, t: nat, again: bool) {
    && e.flight == (if again then d.flight else d.flight - {t})
    && e.sent == (if again then d.sent + 1 else d.sent)
  }

  /** A position moves on by one transfer. */
  predicate Moved(d: Direction, e: Direction, size: nat, moves: bool) {
    e.position == if moves then d.position + size else d.position
  }

  /**
   * One landing: the transfer goes on its way again exactly if it completed, the
   * session is not cancelled, the run asks for more, and nothing refuses it;
   * otherwise it is gone.  An error cancels the session, and nothing else but a
   * request does.  An exception of the encoder is recorded and cancels nothing.
   * The out position counts the transfers that were filled, sent or not.
   */
  lemma LandingExactly(l: Life, e: Event)
    requires Enabled(l, e)
    ensures var m := Step(l, e);
            && (e.InDone? ==> Landed(l.ins, m.ins, e.t, Returns(l, e)) && m.outs == l.outs)
            && (e.OutDone? ==> Landed(l.outs, m.outs, e.t, Returns(l, e)) && m.ins == l.ins)
            && Moved(l.ins, m.ins, l.size, e.InDone? && Returns(l, e))
            && Moved(l.outs, m.outs, l.size, Resubmits(l, e) && e.OutDone? && e.filled)
            && (m.cancelled <==> l.cancelled || e.CancelRequest? || Breaks(l, e))
            && (m.refused <==> l.refused || (Resubmits(l, e) && e.OutDone? && !e.filled))
  {
    match e
    case InDone(t, _, _) => Back(l.ins.flight, t);
    case OutDone(t, _, _, _) => Back(l.outs.flight, t);
    case CancelRequest =>
  }

  lemma Back(flight: set<nat>, t: nat)
    requires t in flight
    ensures flight - {t} + {t} == flight
  {
  }

  /** An error at one landing: cancelled at once, and nothing sent in either direction. */
  lemma ErrorCancels(l: Life, e: Event)
    requires Enabled(l, e) && Breaks(l, e)
    ensures var m := Step(l, e); m.cancelled && m.ins.sent == l.ins.sent && m.outs.sent == l.outs.sent
  {
    LandingExactly(l, e);
  }

  /**
   * An error anywhere in a history: from there on the session is cancelled and
   * nothing is sent, the transfers that were in flight land one by one, and
   * completion is signalled once they all have.
   */
  lemma {:induction false} NothingAfterError(l: Life, es: seq<Event>, k: nat)
    requires Inv(l) && Runs(l, es) && k < |es| && Breaks(Final(l, es[..k]), es[k])
    ensures var before, after, m := Final(l, es[..k]), Final(l, es[..k + 1]), Final(l, es);
            && after.cancelled && m.cancelled
            && m.ins.sent == before.ins.sent && m.outs.sent == before.outs.sent
            && m.ins.flight <= after.ins.flight && m.outs.flight <= after.outs.flight
            && Landings(es[k + 1..]) + Flights(m) == Flights(after) && Flights(after) + 1 == Flights(before)
            && m.completions == (if Quiet(m) && AnySent(m) then 1 else 0)
    decreases k
  {
    var t := Step(l, es[0]);
    StepInv(l, es[0]);
    if k == 0 {
      assert es[..0] == [] && es[..1] == [es[0]] && [es[0]][1..] == [];
      ErrorLands(l, es[0]);
      NothingAfterCancel(t, es[1..]);
    } else {
      assert es[..k][1..] == es[1..][..k - 1] && es[..k + 1][1..] == es[1..][..k] && es[k + 1..] == es[1..][k..];
      NothingAfterError(t, es[1..], k - 1);
    }
  }

  function Flights(l: Life): nat {
    |l.ins.flight| + |l.outs.flight|
  }

  lemma ErrorLands(l: Life, e: Event)
    requires Enabled(l, e) && Breaks(l, e)
    ensures var m := Step(l, e);
            m.cancelled && m.ins.sent == l.ins.sent && m.outs.sent == l.outs.sent && Flights(m) + 1 == Flights(l)
  {
    ErrorCancels(l, e);
    LandingExactly(l, e);
  }
}
