/**
 * The broadcaster's numeric utilities: a clamped linear range map, a
 * three-coefficient polynomial and the float-to-bytes split used by the
 * frame encoder. The same mapRange and evaluate_polynomial text also stands
 * in the broadcaster's top-level utils.c, which this module models as well.
 *
 * Floats are modelled as reals. The one place where IEEE semantics decides
 * the result is the clamped map over an empty input range: the quotient is
 * then an infinity or NaN, which fminf/fmaxf turn back into a bound.
 */
module BroadcasterUtils {
  import opened CTypes
  import opened RealFacts

  /** A float that the map's quotient may produce. */
  datatype Extended = Num(v: real) | PosInf | NegInf | NaN

  /** (value - inMin) * (outMax - outMin) / (inMax - inMin) + outMin, evaluated in floating point:
      a nonzero numerator over a zero range is an infinity of its sign, 0/0 is NaN. */
  function Affine(value: real, inMin: real, inMax: real, outMin: real, outMax: real): Extended
  {
    var num := (value - inMin) * (outMax - outMin);
    var den := inMax - inMin;
    if den != 0.0 then Num(num / den + outMin)
    else if num > 0.0 then PosInf
    else if num < 0.0 then NegInf
    else NaN
  }

  /** fminf(x, y) for a finite y: a NaN argument yields the other one. */
  function FMin(x: Extended, y: real): (r: Extended)
    ensures r.Num? || r.NegInf?
    ensures r.Num? ==> r.v <= y
  {
    match x
    case Num(a) => Num(if a <= y then a else y)
    case PosInf => Num(y)
    case NegInf => NegInf
    case NaN => Num(y)
  }

  /** fmaxf(x, y) for a finite y. */
  function FMax(x: Extended, y: real): (r: Extended)
    ensures (x.Num? || x.NegInf?) ==> r.Num? && r.v >= y
    ensures x.Num? ==> r.v == (if x.v >= y then x.v else y)
  {
    match x
    case Num(a) => Num(if a >= y then a else y)
    case PosInf => PosInf
    case NegInf => Num(y)
    case NaN => Num(y)
  }

  /** mapRange: the affine map of value from [inMin, inMax] onto [outMin, outMax],
      then clamped from above by outMax and from below by outMin. */
  function MapRange(value: real, inMin: real, inMax: real, outMin: real, outMax: real): (r: real)
    ensures r >= outMin
    ensures outMin <= outMax ==> r <= outMax
  {
    FMax(FMin(Affine(value, inMin, inMax, outMin, outMax), outMax), outMin).v
  }

  /** Clamps x into [lo, hi] the way MapRange's fminf/fmaxf pair does. */
  function Clamp(x: real, lo: real, hi: real): real
  {
    var m := if x <= hi then x else hi;
    if m >= lo then m else lo
  }

  /** On a proper input range the map is the clamped affine formula. */
  lemma MapRangeIsClampedAffine(value: real, inMin: real, inMax: real, outMin: real, outMax: real)
    requires inMin != inMax
    ensures MapRange(value, inMin, inMax, outMin, outMax)
         == Clamp((value - inMin) * (outMax - outMin) / (inMax - inMin) + outMin, outMin, outMax)
  {
  }

  /** Inside the input range, with ordered ranges, no clamping happens: the result is the affine formula. */
  lemma {:induction false} MapRangeInsideRange(value: real, inMin: real, inMax: real, outMin: real, outMax: real)
    requires inMin < inMax && outMin <= outMax
    requires inMin <= value <= inMax
    ensures MapRange(value, inMin, inMax, outMin, outMax)
         == (value - inMin) * (outMax - outMin) / (inMax - inMin) + outMin
  {
    var d := inMax - inMin;
    var w := outMax - outMin;
    var t := (value - inMin) / d;
    DivBetweenZeroAndOne(value - inMin, d);
    assert (value - inMin) * w / d == t * w by {
      assert t * d == value - inMin;
      MulDivCancel(t * w, d);
      assert t * w * d == (value - inMin) * w;
    }
    assert 0.0 <= t * w <= w by {
      assert w - t * w == (1.0 - t) * w;
    }
  }

  /** The input range's ends map onto the output range's ends. */
  lemma MapRangeEndpoints(inMin: real, inMax: real, outMin: real, outMax: real)
    requires inMin < inMax && outMin <= outMax
    ensures MapRange(inMin, inMin, inMax, outMin, outMax) == outMin
    ensures MapRange(inMax, inMin, inMax, outMin, outMax) == outMax
  {
    MapRangeInsideRange(inMax, inMin, inMax, outMin, outMax);
    MulDivCancel(outMax - outMin, inMax - inMin);
  }

  /** Out-of-range inputs are clamped: 110 on a 0..100 scale reads 100. */
  lemma MapRangeClampsExample()
    ensures MapRange(110.0, 0.0, 100.0, 0.0, 100.0) == 100.0
    ensures MapRange(-10.0, 0.0, 100.0, 0.0, 100.0) == 0.0
  {
  }

  /** With ordered ranges the map is monotone non-decreasing in the value. */
  lemma {:induction false} MapRangeMonotone(v1: real, v2: real, inMin: real, inMax: real, outMin: real, outMax: real)
    requires inMin < inMax && outMin <= outMax
    requires v1 <= v2
    ensures MapRange(v1, inMin, inMax, outMin, outMax) <= MapRange(v2, inMin, inMax, outMin, outMax)
  {
    var w := outMax - outMin;
    var d := inMax - inMin;
    assert (v1 - inMin) * w <= (v2 - inMin) * w by {
      assert (v2 - inMin) * w - (v1 - inMin) * w == (v2 - v1) * w;
    }
    DivMonotone((v1 - inMin) * w, (v2 - inMin) * w, d);
  }

  /** Mapping a range onto itself is idempotent: a second application changes nothing. */
  lemma {:induction false} MapRangeIdentityIdempotent(value: real, lo: real, hi: real)
    ensures MapRange(MapRange(value, lo, hi, lo, hi), lo, hi, lo, hi) == MapRange(value, lo, hi, lo, hi)
  {
    if lo != hi {
      forall x: real ensures MapRange(x, lo, hi, lo, hi) == Clamp(x, lo, hi) {
        MapRangeIsClampedAffine(x, lo, hi, lo, hi);
        MulDivCancel(x - lo, hi - lo);
      }
    }
  }

  /** A calibration curve: the coefficients c0, c1, c2 of c0 + c1*x + c2*x^2 (a const int[3]). */
  datatype Curve = Curve(c0: int, c1: int, c2: int)

  /** evaluate_polynomial(x, coefficients): at x = 0 only the constant coefficient remains. */
  function EvaluatePolynomial(x: real, c: Curve): (r: real)
    ensures x == 0.0 ==> r == c.c0 as real
  {
    c.c0 as real + c.c1 as real * x + c.c2 as real * x * x
  }

  /** The polynomial in Horner form; at x = 0 it is c0. */
  lemma EvaluatePolynomialHorner(x: real, c: Curve)
    ensures EvaluatePolynomial(x, c) == c.c0 as real + x * (c.c1 as real + x * c.c2 as real)
    ensures EvaluatePolynomial(0.0, c) == c.c0 as real
  {
  }

  /** What floatSeparator writes through its two uint8_t out-parameters, and its return code. */
  datatype Separated = Separated(ret: int, whole: Byte, decimal: Byte)

  /** floatSeparator: whole is (int)v stored into a uint8_t; decimal is (int)((v - whole) * 100),
      computed from the stored byte, stored into a uint8_t. It always returns 0. */
  function FloatSeparator(v: real): (s: Separated)
    ensures s.ret == 0
  {
    var whole := ToUint8(Trunc(v));
    Separated(0, whole, ToUint8(Trunc((v - whole as real) * 100.0)))
  }

  /** For a reading that fits a byte, whole is its integer part and decimal its first two
      decimal digits, so decimal never exceeds 99. */
  lemma {:induction false} FloatSeparatorInRange(v: real)
    requires 0.0 <= v < 256.0
    ensures FloatSeparator(v).whole == v.Floor
    ensures FloatSeparator(v).decimal == ((v - v.Floor as real) * 100.0).Floor
    ensures 0 <= FloatSeparator(v).decimal <= 99
  {
    var f := (v - v.Floor as real) * 100.0;
    assert 0.0 <= f < 100.0;
    assert Trunc(f) == f.Floor;
  }

  /** The value a receiver rebuilds as whole + decimal / 100 lies within one hundredth below the reading. */
  lemma {:induction false} FloatSeparatorApproximates(v: real)
    requires 0.0 <= v < 256.0
    ensures var s := FloatSeparator(v);
      v - 0.01 < s.whole as real + s.decimal as real / 100.0 <= v
  {
    FloatSeparatorInRange(v);
    var f := (v - v.Floor as real) * 100.0;
    assert f.Floor as real <= f < f.Floor as real + 1.0;
  }

  /** Worked values: 23.47 splits into (23, 47) over exact reals, 0 into (0, 0). */
  lemma FloatSeparatorExamples()
    ensures FloatSeparator(23.47) == Separated(0, 23, 47)
    ensures FloatSeparator(0.0) == Separated(0, 0, 0)
  {
    FloatSeparatorInRange(23.47);
  }

  /** A negative reading does not survive: -1.5 becomes whole 255 (from (int)-1.5 = -1) and
      decimal 206 (from (int)((-1.5 - 255) * 100) = -25650), which a receiver reads as 257.06. */
  lemma FloatSeparatorNegativeWraps()
    ensures FloatSeparator(-1.5) == Separated(0, 255, 206)
  {
  }
}
