/**
 * The light-sensor bring-up program's own mapRange, which takes the value as
 * its LAST argument (mapRange(minIn, maxIn, minOut, maxOut, val)) where the
 * other variants take it first. Its read loop is hardware I/O and is not modelled.
 */
module LightSensor {
  import opened RealFacts
  import ReaderUtils

  /** mapRange(minIn, maxIn, minOut, maxOut, val): the unclamped affine map. */
  function MapRange(minIn: real, maxIn: real, minOut: real, maxOut: real, val: real): real
    requires maxIn != minIn
  {
    (val - minIn) * (maxOut - minOut) / (maxIn - minIn) + minOut
  }

  /** The same map as the sensors-reader's, with the value moved from first to last place. */
  lemma SameMapReordered(minIn: real, maxIn: real, minOut: real, maxOut: real, val: real)
    requires maxIn != minIn
    ensures MapRange(minIn, maxIn, minOut, maxOut, val) == ReaderUtils.MapRange(val, minIn, maxIn, minOut, maxOut)
  {
  }

  /** minIn maps to minOut and maxIn to maxOut. */
  lemma MapRangeEndpoints(minIn: real, maxIn: real, minOut: real, maxOut: real)
    requires maxIn != minIn
    ensures MapRange(minIn, maxIn, minOut, maxOut, minIn) == minOut
    ensures MapRange(minIn, maxIn, minOut, maxOut, maxIn) == maxOut
  {
    MulDivCancel(maxOut - minOut, maxIn - minIn);
  }

  /** No clamping: above maxIn the result exceeds maxOut, below minIn it falls under minOut. */
  lemma {:induction false} MapRangeDoesNotClamp(minIn: real, maxIn: real, minOut: real, maxOut: real, val: real)
    requires minIn < maxIn && minOut < maxOut
    ensures val > maxIn ==> MapRange(minIn, maxIn, minOut, maxOut, val) > maxOut
    ensures val < minIn ==> MapRange(minIn, maxIn, minOut, maxOut, val) < minOut
  {
    MapRangeEndpoints(minIn, maxIn, minOut, maxOut);
    if val > maxIn {
      ReaderUtils.MapRangeStrictlyIncreasing(maxIn, val, minIn, maxIn, minOut, maxOut);
    } else if val < minIn {
      ReaderUtils.MapRangeStrictlyIncreasing(val, minIn, minIn, maxIn, minOut, maxOut);
    }
  }

  /** The program's call mapRange(0, 1023, 0, 100, raw) reads 0 as 0 % and 1023 as 100 %. */
  lemma MainCallScale()
    ensures MapRange(0.0, 1023.0, 0.0, 100.0, 0.0) == 0.0
    ensures MapRange(0.0, 1023.0, 0.0, 100.0, 1023.0) == 100.0
  {
    MapRangeEndpoints(0.0, 1023.0, 0.0, 100.0);
  }
}
