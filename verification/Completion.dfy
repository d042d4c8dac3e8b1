/**
 * How a session counts the devices of a run: one up when a device has been
 * started, one down when it signals completion, both on an unsigned 32-bit
 * counter.  A device can complete before the client has counted it.
 */
module Completion {
  import opened Wrappers

  datatype Event = Started | Done

  /** `callbacks` counts the notifications of the client. */
  datatype Count = Count(active: nat, callbacks: nat)

  function Step(c: Count, e: Event): Count {
    match e
    case Started => c.(active := (c.active + 1) % WRAP)
    case Done =>
      var left := (c.active - 1) % WRAP;
      Count(left, if left == 0 then c.callbacks + 1 else c.callbacks)
  }

  /** The count after a run's events, from the last one back. */
  function After(es: seq<Event>): Count {
    if es == [] then Count(0, 0) else Step(After(es[..|es| - 1]), es[|es| - 1])
  }

  class Session {
    var active: nat
    var callbacks: nat

    constructor ()
      ensures Count(active, callbacks) == After([])
    {
      active, callbacks := 0, 0;
    }

    /** The end of one pass of `start`. */
    method DeviceStarted()
      modifies this
      ensures Count(active, callbacks) == Step(old(Count(active, callbacks)), Started)
    {
      active := (active + 1) % WRAP;
    }

    method DeviceDone()
      modifies this
      ensures Count(active, callbacks) == Step(old(Count(active, callbacks)), Done)
    {
      active := (active - 1) % WRAP;
      if active == 0 {
        callbacks := callbacks + 1;
      }
    }
  }

  function Starts(es: seq<Event>): nat {
    if es == [] then 0 else Starts(es[..|es| - 1]) + if es[|es| - 1] == Started then 1 else 0
  }

  function Dones(es: seq<Event>): nat {
    if es == [] then 0 else Dones(es[..|es| - 1]) + if es[|es| - 1] == Done then 1 else 0
  }

  lemma {:induction false} ActiveIs(es: seq<Event>)
    ensures After(es).active == (Starts(es) - Dones(es)) % WRAP
  {
    if es == [] {
    } else {
      var most := es[..|es| - 1];
      ActiveIs(most);
      Congruent(Starts(most) - Dones(most), 1);
      Congruent(Starts(most) - Dones(most), -1);
    }
  }

  lemma Congruent(a: int, b: int)
    ensures (a % WRAP + b) % WRAP == (a + b) % WRAP
  {
    var q := a / WRAP;
    assert a % WRAP + b == (a + b) - WRAP * q;
    Shift(a + b, q);
  }

  lemma Shift(x: int, q: int)
    ensures (x - WRAP * q) % WRAP == x % WRAP
  {
    assert x == WRAP * (x / WRAP) + x % WRAP;
    assert x - WRAP * q == WRAP * (x / WRAP - q) + x % WRAP;
  }

  /**
   * What the end of a run waits for: once every device has been counted the
   * counter is zero exactly when all of them are done, in whatever order the
   * two counts were interleaved.
   */
  lemma WaitsForAll(es: seq<Event>, n: nat)
    requires n < WRAP && Starts(es) == n && Dones(es) <= n
    ensures After(es).active == 0 <==> Dones(es) == n
  {
    ActiveIs(es);
  }

  /** Event `k - 1` lets the completions catch up with the devices counted so far. */
  predicate CatchesUp(es: seq<Event>, k: nat)
    requires 0 < k <= |es|
  {
    es[k - 1] == Done && Starts(es[..k]) == Dones(es[..k])
  }

  /** How often completions catch up. */
  function CatchUps(es: seq<Event>): nat {
    if es == [] then 0 else CatchUps(es[..|es| - 1]) + if CatchesUp(es, |es|) then 1 else 0
  }

  lemma {:induction false} CountsAddUp(es: seq<Event>)
    ensures Starts(es) + Dones(es) == |es|
  {
    if es == [] {
    } else {
      CountsAddUp(es[..|es| - 1]);
    }
  }

  /** The client is notified exactly when completions catch up, for any number of devices in any order. */
  lemma {:induction false} NotifiedAtCatchUps(es: seq<Event>)
    requires |es| < WRAP
    ensures After(es).callbacks == CatchUps(es)
  {
    if es == [] {
    } else {
      NotifiedAtCatchUps(es[..|es| - 1]);
      ActiveIs(es);
      CountsAddUp(es);
      assert es[..|es|] == es;
    }
  }

  lemma {:induction false} NoCatchUp(es: seq<Event>)
    ensures CatchUps(es) == 0 <==> forall k :: 0 < k <= |es| ==> !CatchesUp(es, k)
  {
    if es == [] {
    } else {
      var most := es[..|es| - 1];
      NoCatchUp(most);
      forall k | 0 < k <= |most|
        ensures CatchesUp(es, k) == CatchesUp(most, k)
      {
        assert most[..k] == es[..k];
      }
    }
  }

  /**
   * Exactly when the client hears of a run once, at its end: the last event is
   * a completion, and no earlier completion caught up with the devices counted
   * so far.
   */
  lemma NotifiedOnce(es: seq<Event>)
    requires es != [] && |es| < WRAP && Starts(es) == Dones(es)
    ensures After(es).callbacks == 1 && After(es[..|es| - 1]).callbacks == 0
            <==> es[|es| - 1] == Done && forall k :: 0 < k < |es| ==> !CatchesUp(es, k)
  {
    var most := es[..|es| - 1];
    NotifiedAtCatchUps(es);
    NotifiedAtCatchUps(most);
    NoCatchUp(most);
    assert es[..|es|] == es;
    forall k | 0 < k < |es|
      ensures CatchesUp(es, k) == CatchesUp(most, k)
    {
      assert most[..k] == es[..k];
    }
  }

  /** With one device the client is notified just when the device is counted before it completes. */
  lemma OneDevice(es: seq<Event>)
    requires Starts(es) == 1 && Dones(es) == 1 && |es| == 2
    ensures After(es).callbacks == (if es == [Started, Done] then 1 else 0)
    ensures After(es).active == 0
  {
    assert es == [es[0], es[1]] && es[..1] == [es[0]] && [es[0]][..0] == [];
    assert After(es[..1]) == Step(Count(0, 0), es[0]);
    assert Starts(es[..1]) == (if es[0] == Started then 1 else 0);
    assert Dones(es[..1]) == (if es[0] == Done then 1 else 0);
  }

  /** Two devices of which the first is done before the second is counted: two notifications for one run. */
  lemma NotifiedTwice()
    ensures After([Started, Done, Started, Done]).callbacks == 2
  {
    var es := [Started, Done, Started, Done];
    assert es[..3] == [Started, Done, Started] && es[..3][..2] == [Started, Done];
    assert es[..3][..2][..1] == [Started] && [Started][..0] == [];
    assert After([Started]) == Count(1, 0);
    assert After([Started, Done]) == Count(0, 1);
    assert After([Started, Done, Started]) == Count(1, 1);
  }
}
