/**
 * The waveform generator of a signal, over real numbers.  The cosine is a
 * parameter; a division by zero gives no value.
 */
module Waveform {
  import opened Wrappers

  datatype Src = Constant | Square | Sawtooth | Stairstep | Sine | Triangle

  /** The generator fields of a signal; `nan` when the phase is not a number. */
  datatype Gen = Gen(src: Src, v1: real, v2: real, period: real, duty: real, phase: real, nan: bool)

  // ---- Real arithmetic of the C library ----

  /** `trunc`. */
  function Trunc(x: real): int {
    if x >= 0.0 then x.Floor else -(-x).Floor
  }

  // Products and quotients have names so that proofs can treat them as atoms.

  function Times(x: real, y: real): real {
    x * y
  }

  function Over(x: real, p: real): real
    requires p != 0.0
  {
    x / p
  }

  /** `fmod`: the remainder keeps the sign of `x`. */
  function FMod(x: real, p: real): real
    requires p > 0.0
  {
    if x >= 0.0 then x - Times(Over(x, p).Floor as real, p) else x + Times(Over(-x, p).Floor as real, p)
  }

  /** The mathematical remainder, in `[0, p)`. */
  function Mod(x: real, p: real): real
    requires p > 0.0
  {
    x - Times(Over(x, p).Floor as real, p)
  }

  function Abs(x: real): real {
    if x < 0.0 then -x else x
  }

  // ---- One sample ----

  function NormPhase(g: Gen): real
    requires g.period != 0.0
  {
    Unsigned(Over(g.phase, g.period))
  }

  /** The largest integer part the phase reaches in the current sawtooth cycle. */
  function MaxStep(g: Gen): int {
    var intPeriod, intPhase := Trunc(g.period), Trunc(g.phase);
    if g.period - intPeriod as real <= g.phase - intPhase as real then intPeriod - 1 else intPeriod
  }

  /** The point a fraction `f` of the way from `a` to `b`. */
  function Along(a: real, b: real, f: real): real {
    a + Times(f, b - a)
  }

  function Unsigned(n: real): real {
    if n < 0.0 then n + 1.0 else n
  }

  function SawtoothValue(g: Gen): Option<real> {
    if MaxStep(g) == 0 then None
    else Some(Along(g.v2, g.v1, Unsigned(Over(Trunc(g.phase) as real, MaxStep(g) as real))))
  }

  /** The phase can be measured in periods. */
  predicate Measurable(g: Gen) {
    !g.nan && g.period != 0.0
  }

  /** The value `get_sample` returns; none stands for one that is infinite or not a number. */
  function Value(g: Gen, cosine: real -> real): Option<real> {
    if g.src.Constant? then Some(g.v1)
    else if g.src.Sawtooth? then if g.nan then None else SawtoothValue(g)
    else if Measurable(g) then WaveValue(g, cosine)
    else UnmeasuredValue(g)
  }

  /** Only a negative phase over no period is below the duty cycle, as minus infinity. */
  function UnmeasuredValue(g: Gen): Option<real> {
    if g.src.Square? then Some(if !g.nan && g.phase < 0.0 then g.v1 else g.v2) else None
  }

  function WaveValue(g: Gen, cosine: real -> real): Option<real>
    requires g.period != 0.0
  {
    var n := NormPhase(g);
    match g.src
    case Constant => Some(g.v1)
    case Square => Some(if n < g.duty then g.v1 else g.v2)
    case Sawtooth => SawtoothValue(g)
    case Stairstep => Some(Along(g.v2, g.v1, (n * 10.0).Floor as real / 9.0))
    case Sine => Some(Along(g.v1, g.v2, (1.0 + cosine(n)) / 2.0))
    case Triangle => Some(Along(g.v1, g.v2, Abs(1.0 - n * 2.0)))
  }

  /** `fmod` ignores the sign of the period, and with none gives no number. */
  function Next(g: Gen): Gen {
    if g.src.Constant? then g
    else if Measurable(g) then g.(phase := FMod(g.phase + 1.0, Abs(g.period)))
    else g.(nan := true)
  }

  /** The generator after `k` samples. */
  function At(g: Gen, k: nat): (h: Gen)
    ensures h == g.(phase := h.phase, nan := h.nan) && (Measurable(g) ==> Measurable(h))
  {
    if k == 0 then g else Next(At(g, k - 1))
  }

  /** The next `n` samples. */
  function Samples(g: Gen, cosine: real -> real, n: nat): seq<Option<real>> {
    if n == 0 then [] else Samples(g, cosine, n - 1) + [Value(At(g, n - 1), cosine)]
  }

  class Signal {
    /** `cos(2 * PI * x)`. */
    const cosine: real -> real
    var src: Src
    var v1: real
    var v2: real
    var period: real
    var duty: real
    var phase: real
    var nan: bool

    function View(): Gen
      reads this
    {
      Gen(src, v1, v2, period, duty, phase, nan)
    }

    constructor (cosine: real -> real)
      ensures this.cosine == cosine
    {
      this.cosine := cosine;
      src := Src.Constant;
      v1, v2, period, duty, phase, nan := 0.0, 0.0, 1.0, 0.0, 0.0, false;
    }

    /** `get_sample`: returns the current value and advances the phase. */
    method GetSample() returns (v: Option<real>)
      modifies this`phase, this`nan
      ensures v == Value(old(View()), cosine) && View() == Next(old(View()))
    {
      if src == Src.Constant {
        return Some(v1);
      }
      var ph, lost := phase, nan;
      if nan || period == 0.0 {
        nan := true;
      } else {
        phase := FMod(phase + 1.0, Abs(period));
      }
      if src == Sawtooth {
        if lost {
          v := None;
        } else {
          v := Ramp(ph);
        }
      } else if nan {
        v := if src != Square then None else if !lost && ph < 0.0 then Some(v1) else Some(v2);
      } else {
        v := Wave(Unsigned(Over(ph, period)));
      }
    }

    /** The sawtooth at a phase: the end points are those of the cycle the phase is in. */
    method Ramp(ph: real) returns (v: Option<real>)
      ensures v == SawtoothValue(View().(phase := ph))
    {
      var intPeriod, intPhase := Trunc(period), Trunc(ph);
      var top := if period - intPeriod as real <= ph - intPhase as real then intPeriod - 1 else intPeriod;
      v := if top == 0 then None else Some(Along(v2, v1, Unsigned(Over(intPhase as real, top as real))));
    }

    /** The other waveforms at a normalised phase. */
    method Wave(n: real) returns (v: Option<real>)
      requires !src.Constant? && !src.Sawtooth?
      ensures forall ph :: period != 0.0 && n == Unsigned(Over(ph, period))
                ==> v == WaveValue(View().(phase := ph), cosine)
    {
      match src {
        case Square => v := Some(if n < duty then v1 else v2);
        case Stairstep => v := Some(Along(v2, v1, (n * 10.0).Floor as real / 9.0));
        case Sine => v := Some(Along(v1, v2, (1.0 + cosine(n)) / 2.0));
        case _ => v := Some(Along(v1, v2, Abs(1.0 - n * 2.0)));
      }
    }

    /**
     * The loop every generator ends with, for at most `passes` passes.  Its index
     * has 32 bits: it ends exactly when the count does too.
     */
    method Fill(buf: seq<Option<real>>, samples: nat, passes: nat) returns (r: seq<Option<real>>, done: bool)
      modifies this`phase, this`nan
      ensures done <==> samples < WRAP && samples <= passes
      ensures var n := if done then samples else passes;
              r == buf + Samples(old(View()), cosine, n) && View() == At(old(View()), n)
    {
      ghost var g := View();
      r := buf;
      var i := 0;
      var k := 0;
      while i < samples && k < passes
        invariant k <= passes && 0 <= i < WRAP
        invariant if samples < WRAP then i == k <= samples else i < samples
        invariant View() == At(g, k) && r == buf + Samples(g, cosine, k)
        decreases passes - k
      {
        var v := GetSample();
        r := r + [v];
        i := if i == WRAP - 1 then 0 else i + 1;
        k := k + 1;
      }
      done := i >= samples;
    }

    /** `constant` stores its value and fills the buffer. */
    method Constant(buf: seq<Option<real>>, samples: nat, val: real, passes: nat)
      returns (r: seq<Option<real>>, done: bool)
      modifies this
      ensures done <==> samples < WRAP && samples <= passes
      ensures View() == old(View()).(src := Src.Constant, v1 := val)
      ensures r == buf + seq(if done then samples else passes, _ => Some(val))
    {
      src, v1 := Src.Constant, val;
      ghost var g := View();
      r, done := Fill(buf, samples, passes);
      Constants(g, cosine, if done then samples else passes);
    }

    /** `square`, `sawtooth`, `stairstep`, `sine` and `triangle` store their parameters and fill the buffer. */
    method Generate(buf: seq<Option<real>>, samples: nat, g: Gen, passes: nat)
      returns (r: seq<Option<real>>, done: bool)
      requires !g.src.Constant?
      modifies this
      ensures done <==> samples < WRAP && samples <= passes
      ensures var n := if done then samples else passes;
              r == buf + Samples(g, cosine, n) && View() == At(g, n)
    {
      src, v1, v2, period, phase, duty, nan := g.src, g.v1, g.v2, g.period, g.phase, g.duty, g.nan;
      r, done := Fill(buf, samples, passes);
    }
  }

  /** A constant never moves and gives its one value. */
  lemma {:induction false} Constants(g: Gen, cosine: real -> real, n: nat)
    requires g.src.Constant?
    ensures At(g, n) == g && Samples(g, cosine, n) == seq(n, _ => Some(g.v1))
  {
    if n > 0 {
      Constants(g, cosine, n - 1);
    }
  }

  // ---- Phase recurrence ----

  /** `j` periods of length `p`. */
  ghost function Whole(j: int, p: real): real
    decreases if j < 0 then -j else j
  {
    if j == 0 then 0.0 else if j > 0 then Whole(j - 1, p) + p else Whole(j + 1, p) - p
  }

  lemma TimesMono(x: real, y: real, p: real)
    requires p > 0.0
    ensures x <= y ==> Times(x, p) <= Times(y, p)
    ensures x < y ==> Times(x, p) < Times(y, p)
  {
  }

  lemma TimesNext(x: real, p: real)
    ensures Times(x + 1.0, p) == Times(x, p) + p
  {
  }

  lemma TimesOver(y: real, p: real)
    requires p > 0.0
    ensures Times(Over(y, p), p) == y
  {
  }

  lemma WholeIsTimes(j: int, p: real)
    ensures Whole(j, p) == Times(j as real, p)
    decreases if j < 0 then -j else j
  {
    if j > 0 {
      WholeIsTimes(j - 1, p);
      TimesNext((j - 1) as real, p);
    } else if j < 0 {
      WholeIsTimes(j + 1, p);
      TimesNext(j as real, p);
    }
  }

  lemma {:induction false} WholeAdds(i: int, j: int, p: real)
    ensures Whole(i + j, p) == Whole(i, p) + Whole(j, p)
    decreases if j < 0 then -j else j
  {
    if j > 0 {
      WholeAdds(i, j - 1, p);
      WholeNext(i + j - 1, p);
    } else if j < 0 {
      WholeAdds(i, j + 1, p);
      WholeNext(i + j, p);
    }
  }

  lemma WholeNext(j: int, p: real)
    ensures Whole(j + 1, p) == Whole(j, p) + p
  {
  }

  /** Less than one period apart means no whole period apart. */
  lemma WholeSmall(j: int, p: real)
    requires p > 0.0 && -p < Whole(j, p) < p
    ensures j == 0
  {
    WholeOrder(j, p);
  }

  lemma WholeOrder(j: int, p: real)
    requires p > 0.0
    ensures (j > 0 ==> Whole(j, p) >= p) && (j < 0 ==> Whole(j, p) <= -p)
    decreases if j < 0 then -j else j
  {
    if j > 1 {
      WholeOrder(j - 1, p);
    } else if j < -1 {
      WholeOrder(j + 1, p);
    }
  }

  lemma FloorBounds(y: real, p: real)
    requires p > 0.0
    ensures var k := Over(y, p).Floor; Whole(k, p) <= y < Whole(k, p) + p && Whole(k, p) == Times(k as real, p)
  {
    var q := Over(y, p);
    var k := q.Floor as real;
    TimesOver(y, p);
    TimesMono(k, q, p);
    TimesMono(q, k + 1.0, p);
    TimesNext(k, p);
    WholeIsTimes(q.Floor, p);
  }

  /** `floor(x / p)` is the one integer that brings `x` into `[0, p)`. */
  lemma FloorDiv(x: real, p: real, j: int)
    requires p > 0.0 && 0.0 <= x - Whole(j, p) < p
    ensures Over(x, p).Floor == j && Mod(x, p) == x - Whole(j, p)
  {
    var k := Over(x, p).Floor;
    FloorBounds(x, p);
    WholeAdds(j, k - j, p);
    WholeSmall(k - j, p);
  }

  /** A phase `-p <= phase < p` that differs from `x` by whole periods normalises to `x mod p`. */
  lemma NormIsMod(g: Gen, x: real, j: int)
    requires g.period > 0.0 && -g.period <= g.phase < g.period
    requires g.phase == x - Whole(j, g.period)
    ensures 0.0 <= NormPhase(g) < 1.0 && Times(NormPhase(g), g.period) == Mod(x, g.period)
  {
    UnsignedPhase(g.phase, g.period);
    if g.phase < 0.0 {
      WholeAdds(j, -1, g.period);
      FloorDiv(x, g.period, j - 1);
    } else {
      FloorDiv(x, g.period, j);
    }
  }

  lemma UnsignedPhase(ph: real, p: real)
    requires p > 0.0 && -p <= ph < p
    ensures var n := Unsigned(Over(ph, p)); 0.0 <= n < 1.0 && Times(n, p) == if ph < 0.0 then ph + p else ph
  {
    var q := Over(ph, p);
    TimesOver(ph, p);
    TimesMono(0.0, q, p);
    TimesMono(q, 0.0, p);
    TimesMono(1.0, q, p);
    TimesMono(q, -1.0, p);
    TimesNext(q, p);
    assert Times(0.0, p) == 0.0 && Times(1.0, p) == p && Times(-1.0, p) == -p;
  }

  /**
   * One step of the phase stays in `(-p, p)`, nonnegative from a nonnegative argument, and
   * drops whole periods only.
   */
  lemma FModShifts(x: real, p: real) returns (j: int)
    requires p > 0.0
    ensures FMod(x, p) == x - Whole(j, p) && -p < FMod(x, p) < p && (x >= 0.0 ==> 0.0 <= FMod(x, p))
  {
    FloorBounds(Abs(x), p);
    var k := Over(Abs(x), p).Floor;
    WholeAdds(k, -k, p);
    j := if x >= 0.0 then k else -k;
  }

  /** The phase after `k` samples differs from `phase + k` by whole periods. */
  lemma {:induction false} PhaseAt(g: Gen, k: nat) returns (j: int)
    requires !g.nan && g.period > 0.0 && -g.period <= g.phase < g.period && !g.src.Constant?
    ensures var ph := At(g, k).phase;
            && ph == g.phase + k as real - Whole(j, g.period)
            && -g.period <= ph < g.period && (g.phase >= 0.0 ==> ph >= 0.0)
  {
    if k == 0 {
      j := 0;
    } else {
      var i := PhaseAt(g, k - 1);
      var d := FModShifts(At(g, k - 1).phase + 1.0, g.period);
      j := i + d;
      WholeAdds(i, d, g.period);
    }
  }

  /**
   * Phase recurrence.  From any start phase in `[-P, P)` the k-th normalised
   * phase is `((phase + k) mod P) / P`, in `[0, 1)`.
   */
  lemma PhaseRecurrence(g: Gen, k: nat)
    requires !g.nan && g.period > 0.0 && -g.period <= g.phase < g.period && !g.src.Constant?
    ensures var n := NormPhase(At(g, k));
            0.0 <= n < 1.0 && Times(n, g.period) == Mod(g.phase + k as real, g.period)
  {
    var j := PhaseAt(g, k);
    NormIsMod(At(g, k), g.phase + k as real, j);
  }

  // ---- Bounds ----

  predicate Between(v: real, a: real, b: real) {
    a <= v <= b || b <= v <= a
  }

  lemma Fraction(f: real, d: real)
    requires 0.0 <= f <= 1.0
    ensures Between(Times(f, d), 0.0, d)
  {
    assert Times(0.0, d) == 0.0 && Times(1.0, d) == d && Times(f, -d) == -Times(f, d);
    if d > 0.0 {
      TimesMono(0.0, f, d);
      TimesMono(f, 1.0, d);
    } else if d < 0.0 {
      TimesMono(0.0, f, -d);
      TimesMono(f, 1.0, -d);
      assert Times(1.0, -d) == -d && Times(0.0, -d) == 0.0;
    }
  }

  lemma AlongBetween(a: real, b: real, f: real)
    requires 0.0 <= f <= 1.0
    ensures Between(Along(a, b, f), a, b) && Between(Along(b, a, f), a, b)
  {
    Fraction(f, b - a);
    Fraction(f, a - b);
  }

  /** One of the ten stairstep levels. */
  function Level(g: Gen, level: int): real {
    Along(g.v2, g.v1, level as real / 9.0)
  }

  /**
   * Every square, stairstep, triangle and sine sample lies between the two
   * levels (a sine as far as the cosine does), and a stairstep takes at most
   * ten values.
   */
  lemma SamplesBounded(g: Gen, cosine: real -> real, k: nat)
    requires !g.nan && g.period > 0.0 && -g.period <= g.phase < g.period
    requires g.src.Square? || g.src.Stairstep? || g.src.Triangle? || g.src.Sine?
    requires g.src.Sine? ==> forall x :: -1.0 <= cosine(x) <= 1.0
    ensures var v := Value(At(g, k), cosine);
            && v.Some? && Between(v.value, g.v1, g.v2)
            && (g.src.Stairstep? ==> exists level :: 0 <= level <= 9 && v.value == Level(g, level))
  {
    PhaseRecurrence(g, k);
    var n := NormPhase(At(g, k));
    match g.src
    case Stairstep =>
      var level := (n * 10.0).Floor;
      assert 0 <= level <= 9 && Value(At(g, k), cosine) == Some(Level(g, level));
      AlongBetween(g.v1, g.v2, level as real / 9.0);
    case Triangle =>
      AlongBetween(g.v1, g.v2, Abs(1.0 - n * 2.0));
    case Sine =>
      AlongBetween(g.v1, g.v2, (1.0 + cosine(n)) / 2.0);
    case _ =>
  }

  /** A square is at its first level for the fraction `duty` of each period, counted from phase 0. */
  lemma SquareDuty(g: Gen, cosine: real -> real, k: nat)
    requires g.src.Square? && !g.nan && g.period > 0.0 && -g.period <= g.phase < g.period
    ensures Value(At(g, k), cosine) ==
            Some(if Mod(g.phase + k as real, g.period) < Times(g.duty, g.period) then g.v1 else g.v2)
  {
    PhaseRecurrence(g, k);
    var n := NormPhase(At(g, k));
    TimesMono(n, g.duty, g.period);
    TimesMono(g.duty, n, g.period);
  }

  /** The point a fraction `f` of the way from `a` to `b`, and nothing else. */
  predicate Straight(v: Option<real>, a: real, b: real, f: real) {
    v.Some? && v.value == a + f * (b - a)
  }

  /**
   * Sample `k` of the other waveforms, from where `phase + k` is in its period: a
   * stairstep climbs from `v2` to `v1` in ten levels of a tenth of the period, a
   * triangle goes there and back in a straight line, a sine along the cosine.
   */
  lemma SampleAt(g: Gen, cosine: real -> real, k: nat)
    requires !g.nan && g.period > 0.0 && -g.period <= g.phase < g.period
    ensures var v, m := Value(At(g, k), cosine), Mod(g.phase + k as real, g.period);
            && 0.0 <= m < g.period
            && (g.src.Stairstep? ==> Straight(v, g.v2, g.v1, Over(10.0 * m, g.period).Floor as real / 9.0))
            && (g.src.Triangle? ==> Straight(v, g.v1, g.v2, Over(Abs(g.period - 2.0 * m), g.period)))
            && (g.src.Sine? ==> Straight(v, g.v1, g.v2, (1.0 + cosine(Over(m, g.period))) / 2.0))
  {
    FloorBounds(g.phase + k as real, g.period);
    if g.src.Stairstep? || g.src.Triangle? || g.src.Sine? {
      PhaseRecurrence(g, k);
      WaveAt(At(g, k), cosine, NormPhase(At(g, k)), Mod(g.phase + k as real, g.period));
    }
  }

  lemma WaveAt(h: Gen, cosine: real -> real, n: real, m: real)
    requires Measurable(h) && h.period > 0.0 && n == NormPhase(h) && m == Times(n, h.period)
    ensures var v := Value(h, cosine);
            && (h.src.Stairstep? ==> Straight(v, h.v2, h.v1, Over(10.0 * m, h.period).Floor as real / 9.0))
            && (h.src.Triangle? ==> Straight(v, h.v1, h.v2, Over(Abs(h.period - 2.0 * m), h.period)))
            && (h.src.Sine? ==> Straight(v, h.v1, h.v2, (1.0 + cosine(Over(m, h.period))) / 2.0))
  {
    Normalised(n, h.period);
    WaveAlong(h, cosine, n);
  }

  lemma WaveAlong(h: Gen, cosine: real -> real, n: real)
    requires Measurable(h) && n == NormPhase(h)
    ensures var v := Value(h, cosine);
            && (h.src.Stairstep? ==> Straight(v, h.v2, h.v1, (n * 10.0).Floor as real / 9.0))
            && (h.src.Triangle? ==> Straight(v, h.v1, h.v2, Abs(1.0 - n * 2.0)))
            && (h.src.Sine? ==> Straight(v, h.v1, h.v2, (1.0 + cosine(n)) / 2.0))
  {
  }

  /** Fractions of a period. */
  lemma Normalised(n: real, p: real)
    requires p > 0.0
    ensures var m := Times(n, p);
            && Over(m, p) == n && Over(10.0 * m, p) == n * 10.0
            && Over(Abs(p - 2.0 * m), p) == Abs(1.0 - n * 2.0)
  {
    Divided(n, p);
    Divided(10.0 * n, p);
    Divided(1.0 - n * 2.0, p);
    Divided(n * 2.0 - 1.0, p);
  }

  lemma Divided(n: real, p: real)
    requires p > 0.0
    ensures Over(Times(n, p), p) == n
  {
  }

  /**
   * Where the other waveforms start and turn: a period begins at `v2`; a
   * triangle and a sine are at `v1` half way, and a stairstep in its last tenth.
   */
  lemma Extremes(g: Gen, cosine: real -> real)
    requires !g.nan && g.period > 0.0 && -g.period <= g.phase < g.period
    requires g.src.Stairstep? || g.src.Triangle? || g.src.Sine?
    requires cosine(0.0) == 1.0 && cosine(0.5) == -1.0
    ensures NormPhase(g) == 0.0 ==> Value(g, cosine) == Some(g.v2)
    ensures NormPhase(g) == 0.5 && !g.src.Stairstep? ==> Value(g, cosine) == Some(g.v1)
    ensures NormPhase(g) >= 0.9 && g.src.Stairstep? ==> Value(g, cosine) == Some(g.v1)
  {
    UnsignedPhase(g.phase, g.period);
    AlongEnds(g.v1, g.v2);
    AlongEnds(g.v2, g.v1);
    var n := NormPhase(g);
    match g.src
    case Stairstep =>
      assert n == 0.0 ==> (n * 10.0).Floor == 0;
      assert n >= 0.9 ==> (n * 10.0).Floor == 9;
    case Triangle =>
      assert n == 0.0 ==> Abs(1.0 - n * 2.0) == 1.0;
      assert n == 0.5 ==> Abs(1.0 - n * 2.0) == 0.0;
    case _ =>
  }

  lemma AlongEnds(a: real, b: real)
    ensures Along(a, b, 0.0) == a && Along(a, b, 1.0) == b
  {
  }

  // ---- Periodicity ----

  /**
   * From a nonnegative start every waveform of period `p/q` repeats after `p`
   * samples.
   */
  lemma Repeats(g: Gen, cosine: real -> real, p: nat, q: nat, k: nat)
    requires !g.src.Constant? && !g.nan && 0.0 <= g.phase < g.period
    requires q > 0 && p > 0 && g.period == Over(p as real, q as real)
    ensures At(g, k + p) == At(g, k) && Value(At(g, k + p), cosine) == Value(At(g, k), cosine)
  {
    var i := PhaseAt(g, k);
    var j := PhaseAt(g, k + p);
    WholeIsTimes(q, g.period);
    TimesOver(p as real, q as real);
    assert Whole(q, g.period) == p as real;
    PeriodsApart(i, j, q, g.period);
    var laps: int := j - i - q;
    assert At(g, k).phase - At(g, k + p).phase == Whole(laps, g.period);
    WholeSmall(laps, g.period);
  }

  lemma PeriodsApart(i: int, j: int, q: int, p: real)
    ensures Whole(j - i - q, p) == Whole(j, p) - Whole(i, p) - Whole(q, p)
  {
    WholeAdds(j - i - q, i + q, p);
    WholeAdds(i, q, p);
  }

  // ---- Periods that are not positive ----

  /**
   * Without a period only the first sample has a phase: from then on a square is at its
   * second level, the others have no value.
   */
  lemma {:induction false} ZeroPeriod(g: Gen, cosine: real -> real, k: nat)
    requires g.period == 0.0 && !g.src.Constant? && !g.nan
    ensures k > 0 ==> At(g, k) == g.(nan := true)
    ensures g.src.Square? ==> Value(At(g, k), cosine) == Some(if k == 0 && g.phase < 0.0 then g.v1 else g.v2)
    ensures !g.src.Square? && !(k == 0 && g.src.Sawtooth?) ==> Value(At(g, k), cosine) == None
  {
    if k > 0 {
      ZeroPeriod(g, cosine, k - 1);
    } else {
      assert At(g, 0) == g;
    }
  }

  lemma {:induction false} SamePhases(g: Gen, k: nat)
    requires g.period < 0.0
    ensures At(g, k) == At(g.(period := -g.period), k).(period := g.period)
  {
    if k > 0 {
      SamePhases(g, k - 1);
    }
  }

  lemma NegatedOver(x: real, p: real)
    requires p != 0.0
    ensures Over(x, -p) == -Over(x, p)
  {
    var q := Over(x, p);
    assert x == q * p == (-q) * (-p);
  }

  /** A negative period plays the waveform of the positive one backwards. */
  lemma NegativePeriodReverses(g: Gen, k: nat)
    requires g.period < 0.0 && !g.nan && !g.src.Constant? && g.period <= g.phase < -g.period
    ensures var n := NormPhase(At(g.(period := -g.period), k));
            var r := NormPhase(At(g, k));
            r == if n == 0.0 && (k > 0 || g.phase > g.period) then 0.0 else 1.0 - n
  {
    var h := g.(period := -g.period);
    SamePhases(g, k);
    var _ := PhaseAt(h, k);
    var ph := At(h, k).phase;
    if k > 0 || h.phase > -h.period {
      StrictPhase(h, k);
    }
    Backwards(ph, h.period);
  }

  /** One sign of the period mirrors the other, except that only a whole period back is at its end. */
  lemma Backwards(ph: real, p: real)
    requires p > 0.0 && -p <= ph < p
    ensures var n, r := Unsigned(Over(ph, p)), Unsigned(Over(ph, -p));
            r == if n == 0.0 && -1.0 < Over(ph, p) then 0.0 else 1.0 - n
    ensures ph == -p ==> Over(ph, p) == -1.0
  {
    NegatedOver(ph, p);
    UnsignedPhase(ph, p);
  }

  /** After the first sample the phase is less than a period away from zero. */
  lemma StrictPhase(g: Gen, k: nat)
    requires !g.nan && g.period > 0.0 && !g.src.Constant? && -g.period <= g.phase < g.period
    requires k > 0 || g.phase > -g.period
    ensures -1.0 < Over(At(g, k).phase, g.period) < 1.0
  {
    if k > 0 {
      var _ := FModShifts(At(g, k - 1).phase + 1.0, g.period);
    }
    var q := Over(At(g, k).phase, g.period);
    TimesOver(At(g, k).phase, g.period);
    TimesMono(1.0, q, g.period);
    TimesMono(q, -1.0, g.period);
    assert Times(1.0, g.period) == g.period && Times(-1.0, g.period) == -g.period;
  }

  // ---- Sawtooth ----

  /** The last step of the cycle a nonnegative phase is in: the next phase leaves the period. */
  lemma MaxStepIsLast(g: Gen)
    requires g.period >= 2.0 && 0.0 <= g.phase < g.period
    ensures var step, top := g.phase.Floor, MaxStep(g);
            0 <= step <= top && top >= 1 && (g.phase + 1.0 >= g.period <==> step == top)
  {
  }

  /** What one sawtooth sample does to the phase: the next step of the same cycle, or step 0 of the next. */
  lemma SawtoothNext(g: Gen)
    requires g.src.Sawtooth? && !g.nan && g.period >= 2.0 && 0.0 <= g.phase < g.period
    ensures var h := Next(g);
            && 0.0 <= h.phase < h.period
            && (g.phase.Floor < MaxStep(g) ==> h.phase == g.phase + 1.0 && MaxStep(h) == MaxStep(g))
            && (g.phase.Floor == MaxStep(g) ==> h.phase.Floor == 0)
  {
    MaxStepIsLast(g);
    StepForward(g.phase + 1.0, g.period);
    var x := g.phase + 1.0;
    assert Next(g) == g.(phase := if x < g.period then x else x - g.period);
    SameCycle(g);
  }

  /** The fractional part of the phase, and with it the last step, stays the same within a cycle. */
  lemma SameCycle(g: Gen)
    requires 0.0 <= g.phase
    ensures MaxStep(g.(phase := g.phase + 1.0)) == MaxStep(g)
  {
    assert (g.phase + 1.0).Floor == g.phase.Floor + 1;
  }

  lemma StepForward(x: real, p: real)
    requires 0.0 <= x < p + 1.0 && p >= 1.0
    ensures FMod(x, p) == if x < p then x else x - p
  {
    if x < p {
      FloorDiv(x, p, 0);
    } else {
      assert Whole(1, p) == p;
      FloorDiv(x, p, 1);
    }
  }

  /**
   * Sawtooth.  For any real period of at least 2 and start phase in `[0, P)`,
   * whole or not, sample `k` lies on the straight line of its cycle: at step
   * `s` of `0..top` it is `s/top` of the way from `v2` to `v1`.  So a cycle
   * begins exactly at `v2` and ends exactly at `v1`, and the following sample
   * is the next step of the same cycle or step 0 of a new one.
   */
  lemma SawtoothCycle(g: Gen, cosine: real -> real, k: nat)
    requires g.src.Sawtooth? && !g.nan && g.period >= 2.0 && 0.0 <= g.phase < g.period
    ensures var h, next := At(g, k), At(g, k + 1);
            var step, top, v := h.phase.Floor, MaxStep(h), Value(h, cosine);
            && 0 <= step <= top && top >= 1
            && Straight(v, g.v2, g.v1, Over(step as real, top as real)) && Between(v.value, g.v1, g.v2)
            && (step == 0 ==> v.value == g.v2)
            && (step == top ==> v.value == g.v1 && next.phase.Floor == 0)
            && (step < top ==> next.phase.Floor == step + 1 && MaxStep(next) == top)
  {
    var _ := PhaseAt(g, k);
    var h := At(g, k);
    MaxStepIsLast(h);
    SawtoothNext(h);
    SawtoothPoint(h, h.phase.Floor, MaxStep(h));
  }

  lemma SawtoothPoint(h: Gen, step: int, top: int)
    requires 0.0 <= h.phase && step == h.phase.Floor && top == MaxStep(h) && 0 <= step <= top && top >= 1
    ensures var v := SawtoothValue(h);
            && Straight(v, h.v2, h.v1, Over(step as real, top as real)) && Between(v.value, h.v1, h.v2)
            && (step == 0 ==> v.value == h.v2) && (step == top ==> v.value == h.v1)
  {
    Ratio(step, top);
    AlongBetween(h.v2, h.v1, Over(step as real, top as real));
    AlongEnds(h.v2, h.v1);
  }

  lemma Ratio(s: int, t: int)
    requires 0 <= s <= t && t >= 1
    ensures 0.0 <= Over(s as real, t as real) <= 1.0
    ensures s == 0 ==> Over(s as real, t as real) == 0.0
    ensures s == t ==> Over(s as real, t as real) == 1.0
  {
  }

  /**
   * Below a period of 2 the end-point logic divides by zero exactly when the fractional phase
   * reaches that of the period.
   */
  lemma ShortSawtooth(g: Gen)
    requires 0.0 < g.period < 2.0 && 0.0 <= g.phase < g.period
    ensures SawtoothValue(g).None? <==> g.period - 1.0 <= g.phase - g.phase.Floor as real
  {
  }

  /** Before the first whole cycle: the step counts back from the end of a cycle. */
  lemma SawtoothBefore(g: Gen)
    requires g.period >= 2.0 && -g.period <= g.phase < 0.0
    ensures var step, v := -(-g.phase).Floor, SawtoothValue(g);
            && (step == 0 ==> v == Some(g.v2))
            && (step < 0 ==>
                  var top := if IsWhole(g.period) && IsWhole(-g.phase) then g.period.Floor - 1 else g.period.Floor;
                  Straight(v, g.v2, g.v1, 1.0 + Over(step as real, top as real)))
  {
    var step := -(-g.phase).Floor;
    BackStep(g);
    BackRatio(step, MaxStep(g));
    AlongEnds(g.v2, g.v1);
    assert step == 0 ==> Over(0.0, MaxStep(g) as real) == 0.0;
  }

  lemma BackStep(g: Gen)
    requires g.period >= 2.0 && -g.period <= g.phase < 0.0
    ensures Trunc(g.phase) == -(-g.phase).Floor <= 0
    ensures MaxStep(g) == if IsWhole(g.period) && IsWhole(-g.phase) then g.period.Floor - 1 else g.period.Floor
    ensures MaxStep(g) >= 1
  {
    Fractions(g.period, -g.phase);
  }

  lemma Fractions(x: real, y: real)
    requires x >= 0.0 && y >= 0.0
    ensures x - x.Floor as real <= -(y - y.Floor as real) <==> IsWhole(x) && IsWhole(y)
  {
  }

  predicate IsWhole(x: real) {
    x.Floor as real == x
  }

  /**
   * Exactly when a sawtooth sample lies between the levels: always, unless its
   * phase is one whole period back and the period is a whole number; that can
   * only be the first sample.
   */
  lemma SawtoothBounded(g: Gen, cosine: real -> real, k: nat)
    requires g.src.Sawtooth? && !g.nan && g.period >= 2.0 && -g.period <= g.phase < g.period && g.v1 != g.v2
    ensures var v := Value(At(g, k), cosine);
            v.Some? && (Between(v.value, g.v1, g.v2) <==> !(k == 0 && g.phase == -g.period && IsWhole(g.period)))
  {
    var _ := PhaseAt(g, k);
    var h := At(g, k);
    if k > 0 {
      var _ := FModShifts(At(g, k - 1).phase + 1.0, g.period);
    }
    if h.phase >= 0.0 {
      MaxStepIsLast(h);
      SawtoothPoint(h, h.phase.Floor, MaxStep(h));
    } else {
      SawtoothBack(h);
    }
  }

  lemma SawtoothBack(h: Gen)
    requires h.period >= 2.0 && -h.period <= h.phase < 0.0 && h.v1 != h.v2
    ensures var v := SawtoothValue(h);
            v.Some? && (Between(v.value, h.v1, h.v2) <==> !(h.phase == -h.period && IsWhole(h.period)))
  {
    var step := -(-h.phase).Floor;
    var top := if IsWhole(h.period) && IsWhole(-h.phase) then h.period.Floor - 1 else h.period.Floor;
    SawtoothBefore(h);
    if step < 0 {
      BackRatio(step, top);
      var f := 1.0 + Over(step as real, top as real);
      if -top <= step {
        AlongBetween(h.v2, h.v1, f);
      } else {
        AlongBeyond(h.v2, h.v1, f);
      }
    }
  }

  lemma BackRatio(s: int, t: int)
    requires s <= 0 && t >= 1
    ensures (Over(s as real, t as real) < 0.0 <==> s < 0) && (-t <= s <==> -1.0 <= Over(s as real, t as real))
  {
    var q, d := Over(s as real, t as real), t as real;
    TimesOver(s as real, d);
    TimesMono(q, 0.0, d);
    TimesMono(0.0, q, d);
    TimesMono(q, -1.0, d);
    TimesMono(-1.0, q, d);
    assert Times(0.0, d) == 0.0 && Times(-1.0, d) == -d;
  }

  lemma Outside(f: real, d: real)
    requires f < 0.0
    ensures (d > 0.0 ==> Times(f, d) < 0.0) && (d < 0.0 ==> Times(f, d) > 0.0)
  {
    assert Times(0.0, d) == 0.0 && Times(0.0, -d) == 0.0 && Times(f, -d) == -Times(f, d);
    if d > 0.0 {
      TimesMono(f, 0.0, d);
    } else if d < 0.0 {
      TimesMono(f, 0.0, -d);
    }
  }

  lemma AlongBeyond(a: real, b: real, f: real)
    requires a != b && f < 0.0
    ensures !Between(a + f * (b - a), a, b)
  {
    var d := b - a;
    Outside(f, d);
    assert f * (b - a) == Times(f, d);
  }
}
