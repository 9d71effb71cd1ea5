/**
 * The bar counters ("MADI" values) the converter writes into the name of a
 * processed file. A bar is four beats, so at `bpm` beats per minute it lasts
 * 240 / bpm seconds. `startmadi` counts the bars before the first space
 * (the entered time plus the manual offset), less one, rounded up;
 * `totalmadi` is the number of bars that cover the whole song, rounded up.
 * Both are computed in `decimal` by the converter and are modelled here on
 * exact reals.
 */
module Madi {
  import opened Numerics

  /** The length of a four-beat bar in seconds. */
  function BarSeconds(bpm: real): (s: real)
    requires bpm > 0.0
    ensures s > 0.0 && s * bpm == 240.0
  {
    240.0 / bpm
  }

  /** `Math.Ceiling(bpm * (1 / 60) * (time + offset) / 4 - 1)` with the exact sixtieth. */
  function StartMadi(bpm: real, time: real, offset: real): int
  {
    Ceil(bpm * (time + offset) / 240.0 - 1.0)
  }

  /** `Math.Ceiling(bpm * length / (4 * 60))`. */
  function TotalMadi(bpm: real, length: real): int
  {
    Ceil(bpm * length / 240.0)
  }

  /** A product of two positive reals divided by a positive constant stays positive. */
  lemma PositiveQuotient(a: real, b: real)
    requires a > 0.0 && b > 0.0
    ensures a * b / 240.0 > 0.0
  {
  }

  /** At a positive tempo `TotalMadi` is the least number of whole bars that cover a song of positive length, so it is at least 1. */
  lemma TotalMadiCovers(bpm: real, length: real)
    requires bpm > 0.0 && length > 0.0
    ensures TotalMadi(bpm, length) >= 1
    ensures TotalMadi(bpm, length) as real * BarSeconds(bpm) >= length
    ensures (TotalMadi(bpm, length) - 1) as real * BarSeconds(bpm) < length
  {
    var n := TotalMadi(bpm, length);
    var bars := bpm * length / 240.0;
    PositiveQuotient(bpm, length);
    assert bars * BarSeconds(bpm) == length by {
      assert bars * (240.0 / bpm) == (bpm * length) / bpm;
    }
    assert (n as real - 1.0) < bars <= n as real;
    MultiplyKeepsOrder(bars, n as real, BarSeconds(bpm));
    StrictMultiplyKeepsOrder(n as real - 1.0, bars, BarSeconds(bpm));
  }

  /** Multiplying by a positive number keeps an inequality. */
  lemma MultiplyKeepsOrder(a: real, b: real, p: real)
    requires 0.0 < p && a <= b
    ensures a * p <= b * p
  {
    assert b * p - a * p == (b - a) * p;
  }

  /** Multiplying by a positive number keeps a strict inequality. */
  lemma StrictMultiplyKeepsOrder(a: real, b: real, p: real)
    requires 0.0 < p && a < b
    ensures a * p < b * p
  {
    assert b * p - a * p == (b - a) * p;
  }

  /**
   * At a positive tempo `StartMadi` is the least `n` for which `n + 1` bars
   * reach the first space: the index, counted from 0, of the bar the first
   * space falls in when it falls on a bar's end, or the bar after.
   */
  lemma StartMadiBar(bpm: real, time: real, offset: real)
    requires bpm > 0.0
    ensures (StartMadi(bpm, time, offset) + 1) as real * BarSeconds(bpm) >= time + offset
    ensures StartMadi(bpm, time, offset) as real * BarSeconds(bpm) < time + offset
  {
    var n := StartMadi(bpm, time, offset);
    var s := time + offset;
    var bars := bpm * s / 240.0;
    assert bars * BarSeconds(bpm) == s by {
      assert bars * (240.0 / bpm) == (bpm * s) / bpm;
    }
    assert n as real - 1.0 < bars - 1.0 <= n as real;
    MultiplyKeepsOrder(bars, (n + 1) as real, BarSeconds(bpm));
    StrictMultiplyKeepsOrder(n as real, bars, BarSeconds(bpm));
  }

  /** Nothing clamps the counter: at a positive tempo it is negative whenever the first space is at or before 0 seconds, and -1 when it is exactly 0. */
  lemma StartMadiCanBeNegative(bpm: real, time: real, offset: real)
    requires bpm > 0.0 && time + offset <= 0.0
    ensures StartMadi(bpm, time, offset) <= -1
    ensures time + offset == 0.0 ==> StartMadi(bpm, time, offset) == -1
  {
    var s := time + offset;
    assert bpm * s <= 0.0 by {
      MultiplyKeepsOrder(s, 0.0, bpm);
    }
  }

  /** A later first space never gives a smaller counter at a non-negative tempo. */
  lemma StartMadiMonotone(bpm: real, t1: real, t2: real, offset: real)
    requires bpm >= 0.0 && t1 <= t2
    ensures StartMadi(bpm, t1, offset) <= StartMadi(bpm, t2, offset)
  {
    var a := bpm * (t1 + offset) / 240.0 - 1.0;
    var b := bpm * (t2 + offset) / 240.0 - 1.0;
    assert a <= b by {
      assert bpm * (t2 + offset) - bpm * (t1 + offset) == bpm * (t2 - t1);
    }
  }

  /** The worked example: 120 bpm, time 0, offset 1.234 s, a 200-second song give 0 and 100. */
  lemma WorkedExample()
    ensures StartMadi(120.0, 0.0, 1.234) == 0
    ensures TotalMadi(120.0, 200.0) == 100
  {
    CeilUnique(120.0 * (0.0 + 1.234) / 240.0 - 1.0, 0);
    CeilUnique(120.0 * 200.0 / 240.0, 100);
  }

  // ----- The sixtieth as the converter writes it -----

  /** `1m / 60m` in `decimal`: 28 places, the last one rounded up. */
  const DecimalSixtieth: real := 0.0166666666666666666666666667

  /** `startmadi` exactly as written, with the rounded sixtieth. */
  function StartMadiAsWritten(bpm: real, time: real, offset: real): int
  {
    Ceil(bpm * DecimalSixtieth * (time + offset) / 4.0 - 1.0)
  }

  /**
   * When the first space falls exactly on a bar's end the rounded sixtieth
   * pushes the value just above a whole number and the ceiling one further:
   * at 120 bpm and a first space at 2 s the code gives 1, the exact formula 0.
   */
  lemma AsWrittenOvershoots()
    ensures StartMadiAsWritten(120.0, 2.0, 0.0) == 1
    ensures StartMadi(120.0, 2.0, 0.0) == 0
  {
    CeilUnique(120.0 * DecimalSixtieth * (2.0 + 0.0) / 4.0 - 1.0, 1);
    CeilUnique(120.0 * (2.0 + 0.0) / 240.0 - 1.0, 0);
  }

  /**
   * The overshoot in general: whenever `bpm * (time + offset)` is a positive
   * multiple of 240 (at most 10^28), the code's counter is one above the exact one.
   */
  lemma AsWrittenOneAbove(bpm: real, time: real, offset: real, k: int)
    requires k >= 1 && bpm * (time + offset) == 240.0 * k as real
    requires bpm * (time + offset) <= 10000000000000000000000000000.0
    ensures StartMadi(bpm, time, offset) == k - 1
    ensures StartMadiAsWritten(bpm, time, offset) == k
  {
    var p := bpm * (time + offset);
    CeilUnique(p / 240.0 - 1.0, k - 1);
    var excess := DecimalSixtieth - 1.0 / 60.0;
    assert excess == 1.0 / 30000000000000000000000000000.0;
    assert bpm * DecimalSixtieth * (time + offset) / 4.0 - 1.0 == p / 240.0 - 1.0 + p * excess / 4.0;
    assert 0.0 < p * excess / 4.0 < 1.0;
    CeilUnique(bpm * DecimalSixtieth * (time + offset) / 4.0 - 1.0, k);
  }
}
