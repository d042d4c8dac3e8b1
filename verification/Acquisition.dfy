/**
 * `Session.get_samples` of the Python bindings: a request larger than the
 * input queues is cut into run/read pairs.
 */
module Acquisition {
  import opened Wrappers
  import opened InputPath

  /** What device `d` delivers at position `q` of its `r`-th run. */
  type Signal = (nat, nat, nat) -> Sample

  /** Positions `from .. from + n` of a run. */
  function Stretch(sig: Signal, d: nat, r: nat, from: nat, n: nat): (s: seq<Sample>)
    ensures |s| == n && forall i :: 0 <= i < n ==> s[i] == sig(d, r, from + i)
  {
    if n == 0 then [] else Stretch(sig, d, r, from, n - 1) + [sig(d, r, from + n - 1)]
  }

  /** The first `k` transfers of a run. */
  function Delivered(sig: Signal, d: nat, r: nat, size: nat, k: nat): (ts: seq<seq<Sample>>)
    ensures |ts| == k && Sized(ts, size)
  {
    if k == 0 then [] else Delivered(sig, d, r, size, k - 1) + [Stretch(sig, d, r, size * (k - 1), size)]
  }

  lemma {:induction false} DeliveredInOrder(sig: Signal, d: nat, r: nat, size: nat, k: nat)
    ensures Flatten(Delivered(sig, d, r, size, k)) == Stretch(sig, d, r, 0, size * k)
  {
    if k > 0 {
      var ts, last := Delivered(sig, d, r, size, k - 1), Stretch(sig, d, r, size * (k - 1), size);
      DeliveredInOrder(sig, d, r, size, k - 1);
      FlattenJoin(ts, [last]);
      assert Flatten([last]) == last + [];
      assert size * k == size * (k - 1) + size;
      var all := Stretch(sig, d, r, 0, size * k);
      assert forall i :: 0 <= i < size ==> last[i] == sig(d, r, size * (k - 1) + i);
      assert Stretch(sig, d, r, 0, size * (k - 1)) + last == all;
    }
  }

  /** All the samples of `n`, at most `max` per run, starting with run `r`. */
  function Acquired(sig: Signal, d: nat, r: nat, n: nat, max: nat): seq<Sample>
    requires max > 0
    decreases n
  {
    if n == 0 then [] else Stretch(sig, d, r, 0, Min(n, max)) + Acquired(sig, d, r + 1, n - Min(n, max), max)
  }

  /**
   * One device in one run from an empty queue that can hold the run: the queue ends with
   * exactly the samples asked for.
   */
  lemma RunFillsQueue(sig: Signal, d: nat, r: nat, n: nat, size: nat, capacity: nat)
    requires 0 < n <= capacity && size > 0
    ensures var t := ReceiveAll(In(capacity, [], 0, 0, n, false), Delivered(sig, d, r, size, CeilDiv(n, size)));
            t.queue == Stretch(sig, d, r, 0, n) && t.avail == n && !t.dropped && t.capacity == capacity
  {
    var ts := Delivered(sig, d, r, size, CeilDiv(n, size));
    RunInput(In(capacity, [], 0, 0, n, false), ts, size);
    DeliveredInOrder(sig, d, r, size, CeilDiv(n, size));
    StretchPrefix(sig, d, r, n, |Flatten(ts)|);
  }

  lemma StretchPrefix(sig: Signal, d: nat, r: nat, n: nat, m: nat)
    requires n <= m
    ensures Stretch(sig, d, r, 0, m)[..n] == Stretch(sig, d, r, 0, n)
  {
    var s := Stretch(sig, d, r, 0, m);
    assert forall i :: 0 <= i < n ==> s[i] == sig(d, r, 0 + i);
  }

  /** `data[i].extend(x)` for every device. */
  function Extended(data: seq<seq<Sample>>, chunk: seq<seq<Sample>>): seq<seq<Sample>>
    requires |data| == |chunk|
  {
    seq(|data|, d requires 0 <= d < |data| => data[d] + chunk[d])
  }

  predicate Empty(s: In, capacity: nat) {
    s.capacity == capacity && s.queue == [] && s.avail == 0 && !s.dropped
  }

  class Session {
    const queueSize: nat
    const size: nat
    const sig: Signal
    var inputs: seq<In>
    var runs: nat

    ghost predicate Valid()
      reads this
    {
      0 < queueSize < WRAP && size > 0 && forall d :: 0 <= d < |inputs| ==> Empty(inputs[d], queueSize)
    }

    constructor (devices: nat, queueSize: nat, size: nat, sig: Signal)
      requires 0 < queueSize < WRAP && size > 0
      ensures Valid() && |inputs| == devices && runs == 0
      ensures this.queueSize == queueSize && this.size == size && this.sig == sig
    {
      this.queueSize, this.size, this.sig := queueSize, size, sig;
      inputs, runs := seq(devices, _ => In(queueSize, [], 0, 0, 0, false)), 0;
    }

    /** A noncontinuous run on every device, and the read of as many samples that follows it. */
    method RunAndRead(n: nat) returns (chunk: seq<seq<Sample>>)
      requires Valid() && 0 < n <= queueSize
      modifies this
      ensures Valid() && |inputs| == old(|inputs|) && runs == old(runs) + 1
      ensures |chunk| == |inputs| && forall d :: 0 <= d < |chunk| ==> chunk[d] == Stretch(sig, d, old(runs), 0, n)
    {
      chunk := [];
      var d := 0;
      while d < |inputs|
        invariant d <= |inputs| == old(|inputs|) && |chunk| == d && runs == old(runs) && Valid()
        invariant forall e :: 0 <= e < d ==> chunk[e] == Stretch(sig, e, runs, 0, n)
      {
        var device := inputs[d].(sampleno := 0, count := n);
        RunFillsQueue(sig, d, runs, n, size, queueSize);
        var after := ReceiveAll(device, Delivered(sig, d, runs, size, CeilDiv(n, size)));
        assert Narrowed(n) == n;
        var taken := Min(n, after.avail);
        chunk := chunk + [after.queue[..taken]];
        inputs := inputs[d := after.(queue := after.queue[taken..], avail := after.avail - taken)];
        d := d + 1;
      }
      runs := runs + 1;
    }

    /**
     * `get_samples`: every device gets exactly the samples of the chunked
     * acquisition in order, no chunk is dropped, and the queues are empty again.
     */
    method GetSamples(samples: nat) returns (data: seq<seq<Sample>>)
      requires Valid()
      modifies this
      ensures Valid() && |inputs| == old(|inputs|)
      ensures |data| == |inputs|
      ensures forall d :: 0 <= d < |data| ==> data[d] == Acquired(sig, d, old(runs), samples, queueSize)
    {
      data := seq(|inputs|, _ => []);
      var required: nat := samples;
      RemainsStart(data, runs, samples);
      while required > 0
        invariant Valid() && |inputs| == old(|inputs|) == |data| && required <= samples
        invariant Remains(data, runs, required, old(runs), samples)
      {
        var n := Min(required, queueSize);
        ghost var r := runs;
        ghost var before := data;
        var chunk := RunAndRead(n);
        data := Extended(data, chunk);
        required := required - n;
        RemainsNext(before, chunk, r, n, required, old(runs), samples);
      }
      RemainsDone(data, runs, old(runs), samples);
    }

    /** What has been collected, followed by what is still required, is the whole acquisition. */
    ghost predicate Remains(data: seq<seq<Sample>>, r: nat, required: nat, r0: nat, samples: nat)
      requires queueSize > 0
    {
      forall d :: 0 <= d < |data| ==>
        data[d] + Acquired(sig, d, r, required, queueSize) == Acquired(sig, d, r0, samples, queueSize)
    }

    lemma RemainsStart(data: seq<seq<Sample>>, r0: nat, samples: nat)
      requires queueSize > 0 && forall d :: 0 <= d < |data| ==> data[d] == []
      ensures Remains(data, r0, samples, r0, samples)
    {
      forall d | 0 <= d < |data|
        ensures data[d] + Acquired(sig, d, r0, samples, queueSize) == Acquired(sig, d, r0, samples, queueSize)
      {
      }
    }

    lemma RemainsDone(data: seq<seq<Sample>>, r: nat, r0: nat, samples: nat)
      requires queueSize > 0 && Remains(data, r, 0, r0, samples)
      ensures forall d :: 0 <= d < |data| ==> data[d] == Acquired(sig, d, r0, samples, queueSize)
    {
      forall d | 0 <= d < |data|
        ensures data[d] == Acquired(sig, d, r0, samples, queueSize)
      {
        assert data[d] + [] == data[d];
      }
    }

    lemma RemainsNext(data: seq<seq<Sample>>, chunk: seq<seq<Sample>>, r: nat, n: nat, rest: nat, r0: nat, samples: nat)
      requires queueSize > 0 && n == Min(n + rest, queueSize) && n > 0
      requires |chunk| == |data| && Remains(data, r, n + rest, r0, samples)
      requires forall d :: 0 <= d < |chunk| ==> chunk[d] == Stretch(sig, d, r, 0, n)
      ensures Remains(Extended(data, chunk), r + 1, rest, r0, samples)
    {
      forall d | 0 <= d < |data|
        ensures Extended(data, chunk)[d] + Acquired(sig, d, r + 1, rest, queueSize) ==
                Acquired(sig, d, r0, samples, queueSize)
      {
        Joins(data[d], chunk[d], Acquired(sig, d, r + 1, rest, queueSize));
      }
    }
  }

  /**
   * Chunked acquisition is one acquisition: the result has exactly the length
   * asked for, and its `i`-th sample is position `i mod max` of run `i / max`.
   */
  lemma {:induction false} AcquiredAt(sig: Signal, d: nat, r: nat, n: nat, max: nat)
    requires max > 0
    ensures |Acquired(sig, d, r, n, max)| == n
    ensures forall i :: 0 <= i < n ==> Acquired(sig, d, r, n, max)[i] == sig(d, r + i / max, i % max)
    decreases n
  {
    if n > 0 {
      var k := Min(n, max);
      AcquiredAt(sig, d, r + 1, n - k, max);
      var first, rest := Stretch(sig, d, r, 0, k), Acquired(sig, d, r + 1, n - k, max);
      forall i | 0 <= i < n
        ensures (first + rest)[i] == sig(d, r + i / max, i % max)
      {
        ChunkAt(sig, d, r, max, first, rest, i);
      }
    }
  }

  lemma ChunkAt(sig: Signal, d: nat, r: nat, max: nat, first: seq<Sample>, rest: seq<Sample>, i: nat)
    requires max > 0 && i < |first| + |rest| && |first| <= max && (rest != [] ==> |first| == max)
    requires forall j :: 0 <= j < |first| ==> first[j] == sig(d, r, 0 + j)
    requires forall j :: 0 <= j < |rest| ==> rest[j] == sig(d, r + 1 + j / max, j % max)
    ensures (first + rest)[i] == sig(d, r + i / max, i % max)
  {
    if i < |first| {
      FirstChunk(i, max);
      assert first[i] == sig(d, r, 0 + i);
    } else {
      NextChunk(i, max);
      assert rest[i - max] == sig(d, r + 1 + (i - max) / max, (i - max) % max);
    }
  }

  lemma FirstChunk(i: nat, max: nat)
    requires i < max
    ensures i / max == 0 && i % max == i
  {
  }

  lemma NextChunk(i: nat, max: nat)
    requires 0 < max <= i
    ensures i / max == (i - max) / max + 1 && i % max == (i - max) % max
  {
    var q, r := (i - max) / max, (i - max) % max;
    assert i == max * (q + 1) + r;
    var p := i / max;
    assert i == max * p + i % max;
    assert p > q + 1 ==> max * p >= max * (q + 2) == max * (q + 1) + max;
    assert p < q + 1 ==> max * (q + 1) >= max * (p + 1) == max * p + max;
  }
}
