/**
 * `pulseWidth`: the angle is mapped linearly onto a pulse of 600 to 2600
 * microseconds with Arduino's integer `map`, and the pulse is converted to
 * ticks of the PWM driver's 12-bit counter at 100 Hz.
 */
module Pulse {

  import opened Arith

  const MinPulseWidth: int := 600
  const MaxPulseWidth: int := 2600
  const Frequency: int := 100

  /** C's integer `/` for a positive divisor: the quotient truncated toward zero. */
  function TruncDiv(a: int, d: int): (q: int)
    requires d >= 1
    ensures a >= 0 ==> q * d <= a < q * d + d
    ensures a < 0 ==> q * d - d < a <= q * d
  {
    DivMod(a, d);
    if a >= 0 then a / d
    else
      DivMod(-a, d);
      assert -((-a) / d) * d == -(((-a) / d) * d);
      -((-a) / d)
  }

  /** Arduino's `map`, computed on `long` with a truncating division. */
  function Map(x: int, inMin: int, inMax: int, outMin: int, outMax: int): int
    requires inMax > inMin
  {
    TruncDiv((x - inMin) * (outMax - outMin), inMax - inMin) + outMin
  }

  /** The pulse width in microseconds for an angle in degrees. */
  function PulseMicros(angle: int): int {
    Map(angle, 0, 180, MinPulseWidth, MaxPulseWidth)
  }

  /** The PWM ticks for a pulse, as the exact quotient of the conversion, truncated. */
  function Ticks(micros: int): int {
    TruncDiv(micros * Frequency * 4096, 1000000)
  }

  /** The firmware's `pulseWidth`. */
  function PulseWidth(angle: int): int {
    Ticks(PulseMicros(angle))
  }

  /** Truncating division by a positive divisor is monotone in the dividend. */
  lemma TruncDivMonotone(a: int, b: int, d: int)
    requires d >= 1 && a <= b
    ensures TruncDiv(a, d) <= TruncDiv(b, d)
  {
    if 0 <= a {
      DivMonotone(a, b, d);
    } else if b < 0 {
      DivMonotone(-b, -a, d);
    } else {
      DivMonotone(0, -a, d);
      DivMonotone(0, b, d);
    }
  }

  /** A larger angle never gives a shorter pulse, nor fewer ticks. */
  lemma PulseMonotone(a: int, b: int)
    requires a <= b
    ensures PulseMicros(a) <= PulseMicros(b)
    ensures PulseWidth(a) <= PulseWidth(b)
  {
    TruncDivMonotone(a * 2000, b * 2000, 180);
    var p, q := PulseMicros(a), PulseMicros(b);
    assert p * Frequency * 4096 <= q * Frequency * 4096;
    TruncDivMonotone(p * Frequency * 4096, q * Frequency * 4096, 1000000);
  }

  /** The pulse of a non-negative angle is the pulse range scaled by angle / 180, rounded down. */
  lemma PulseOfAngle(angle: int)
    requires angle >= 0
    ensures var p := PulseMicros(angle) - MinPulseWidth;
            180 * p <= 2000 * angle < 180 * p + 180
  {
  }

  /** 0 and 180 degrees map to the ends of the pulse range, and every angle between maps inside it. */
  lemma PulseRange(angle: int)
    requires 0 <= angle <= 180
    ensures PulseMicros(0) == MinPulseWidth && PulseMicros(180) == MaxPulseWidth
    ensures MinPulseWidth <= PulseMicros(angle) <= MaxPulseWidth
    ensures 245 <= PulseWidth(angle) <= 1064 < 4096
  {
    PulseMonotone(0, angle);
    PulseMonotone(angle, 180);
  }

  /** Below zero the division truncates toward zero: -1 degree gives 589 microseconds, not the floor's 588. */
  lemma NegativeAngleTruncates()
    ensures PulseMicros(-1) == 589
  {
  }
}
