/**
 * The sensors-reader's mapRange: the same affine map as the broadcaster's,
 * without the clamping. The analog drivers of the sensors-reader use it.
 */
module ReaderUtils {
  import opened RealFacts
  import BroadcasterUtils

  /** mapRange: (value - inMin) * (outMax - outMin) / (inMax - inMin) + outMin. An empty input
      range divides by zero (an infinity or NaN in floating point), which this function excludes;
      the callers that can meet that case (humidity.c:87, adc.c:114) are modelled on Float, which
      has a non-finite result for it. */
  function MapRange(value: real, inMin: real, inMax: real, outMin: real, outMax: real): real
    requires inMin != inMax
  {
    (value - inMin) * (outMax - outMin) / (inMax - inMin) + outMin
  }

  /** The input range's ends map exactly onto the output range's ends, in either orientation. */
  lemma MapRangeEndpoints(inMin: real, inMax: real, outMin: real, outMax: real)
    requires inMin != inMax
    ensures MapRange(inMin, inMin, inMax, outMin, outMax) == outMin
    ensures MapRange(inMax, inMin, inMax, outMin, outMax) == outMax
  {
    MulDivCancel(outMax - outMin, inMax - inMin);
  }

  /** No clamping: 110 on a 0..100 scale stays 110 (the clamped variant gives 100). */
  lemma MapRangeDoesNotClamp()
    ensures MapRange(110.0, 0.0, 100.0, 0.0, 100.0) == 110.0
    ensures BroadcasterUtils.MapRange(110.0, 0.0, 100.0, 0.0, 100.0) == 100.0
  {
  }

  /** With increasing ranges the map is strictly increasing in the value. */
  lemma {:induction false} MapRangeStrictlyIncreasing(v1: real, v2: real, inMin: real, inMax: real, outMin: real, outMax: real)
    requires inMin < inMax && outMin < outMax
    requires v1 < v2
    ensures MapRange(v1, inMin, inMax, outMin, outMax) < MapRange(v2, inMin, inMax, outMin, outMax)
  {
    var w := outMax - outMin;
    assert (v1 - inMin) * w < (v2 - inMin) * w by {
      assert (v2 - inMin) * w - (v1 - inMin) * w == (v2 - v1) * w;
    }
    DivStrictMonotone((v1 - inMin) * w, (v2 - inMin) * w, inMax - inMin);
  }

  /** With a decreasing input range (and an increasing output range) the map is strictly
      decreasing in the value. */
  lemma {:induction false} MapRangeStrictlyDecreasing(v1: real, v2: real, inMin: real, inMax: real, outMin: real, outMax: real)
    requires inMax < inMin && outMin < outMax
    requires v1 < v2
    ensures MapRange(v2, inMin, inMax, outMin, outMax) < MapRange(v1, inMin, inMax, outMin, outMax)
  {
    var w := outMax - outMin;
    var d := inMin - inMax;
    assert (v1 - inMin) * w < (v2 - inMin) * w by {
      assert (v2 - inMin) * w - (v1 - inMin) * w == (v2 - v1) * w;
    }
    DivStrictMonotone(-((v2 - inMin) * w), -((v1 - inMin) * w), d);
    assert (v1 - inMin) * w / (inMax - inMin) == -((v1 - inMin) * w) / d;
    assert (v2 - inMin) * w / (inMax - inMin) == -((v2 - inMin) * w) / d;
  }

  /** Mapping a range onto itself returns the value unchanged, inside the range or not. */
  lemma MapRangeIdentity(value: real, lo: real, hi: real)
    requires lo != hi
    ensures MapRange(value, lo, hi, lo, hi) == value
  {
    MulDivCancel(value - lo, hi - lo);
  }

  /** A 10-bit raw reading mapped with (0, 1023, 0, 100) lands in [0, 100]. */
  lemma {:induction false} TenBitToPercent(raw: int)
    requires 0 <= raw <= 1023
    ensures 0.0 <= MapRange(raw as real, 0.0, 1023.0, 0.0, 100.0) <= 100.0
  {
    DivBetweenZeroAndOne(raw as real, 1023.0);
    assert MapRange(raw as real, 0.0, 1023.0, 0.0, 100.0) == raw as real / 1023.0 * 100.0;
  }

  /** The broadcaster's clamped map is this map clamped into the output range. */
  lemma ClampedVariantClampsThis(value: real, inMin: real, inMax: real, outMin: real, outMax: real)
    requires inMin != inMax
    ensures BroadcasterUtils.MapRange(value, inMin, inMax, outMin, outMax)
         == BroadcasterUtils.Clamp(MapRange(value, inMin, inMax, outMin, outMax), outMin, outMax)
  {
    BroadcasterUtils.MapRangeIsClampedAffine(value, inMin, inMax, outMin, outMax);
  }
}
