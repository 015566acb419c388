/**
 * Driver of the capacitive ground-humidity sensor (sensors-reader): a
 * power-gated analog channel whose sample is mapped onto 0..100 % between a
 * dry and a wet calibration point. Both points come from quadratic curves of
 * the devicetree, evaluated here at 0 V.
 */
module Humidity {
  import opened CTypes
  import opened Wrappers
  import opened Hal
  import opened BroadcasterUtils
  import ReaderUtils

  /** Settle time after powering the sensor, in milliseconds. */
  const SettleMs: nat := 40

  /** mapRange(sample, dry, wet, 0, 100) between two calibration points. Equal points divide by
      zero: an infinity or NaN. */
  function CalibratedPercent(sample: int, dry: real, wet: real): Float
  {
    if dry == wet then NonFinite
    else Finite(ReaderUtils.MapRange(sample as real, dry, wet, 0.0, 100.0))
  }

  /** A sample at the dry point reads 0 %, at the wet point 100 %; equal points give no number. */
  lemma CalibratedPercentEndpoints(dry: int, wet: int, s: int)
    ensures dry != wet ==> CalibratedPercent(dry, dry as real, wet as real) == Finite(0.0)
    ensures dry != wet ==> CalibratedPercent(wet, dry as real, wet as real) == Finite(100.0)
    ensures dry == wet ==> CalibratedPercent(s, dry as real, wet as real) == NonFinite
  {
    if dry != wet {
      ReaderUtils.MapRangeEndpoints(dry as real, wet as real, 0.0, 100.0);
    }
  }

  /** The sensor reads lower when wetter: with the dry point above the wet point, a higher sample
      reads a strictly lower humidity. */
  lemma CalibratedPercentDecreasing(s1: int, s2: int, dry: real, wet: real)
    requires wet < dry && s1 < s2
    ensures CalibratedPercent(s2, dry, wet).v < CalibratedPercent(s1, dry, wet).v
  {
    ReaderUtils.MapRangeStrictlyDecreasing(s1 as real, s2 as real, dry, wet, 0.0, 100.0);
  }

  /** The humidity humidity_read reports: the calibration curves evaluated at 0 V. */
  function Humidity(sample: int, dry: Curve, wet: Curve): (h: Float)
  {
    CalibratedPercent(sample, EvaluatePolynomial(0.0, dry), EvaluatePolynomial(0.0, wet))
  }

  /** At 0 V only the constant coefficients matter: the readings at dry[0] and wet[0] are 0 % and
      100 % when they differ, and nothing is a number when they are equal. */
  lemma HumidityCalibration(dry: Curve, wet: Curve)
    ensures dry.c0 != wet.c0 ==> Humidity(dry.c0, dry, wet) == Finite(0.0) && Humidity(wet.c0, dry, wet) == Finite(100.0)
    ensures dry.c0 == wet.c0 ==> forall s :: Humidity(s, dry, wet) == NonFinite
    ensures forall s :: Humidity(s, dry, wet) == Humidity(s, Curve(dry.c0, 0, 0), Curve(wet.c0, 0, 0))
  {
    EvaluatePolynomialHorner(0.0, dry);
    EvaluatePolynomialHorner(0.0, wet);
    CalibratedPercentEndpoints(dry.c0, wet.c0, 0);
  }

  /** humidity_init's RET_IF_ERR chain. */
  function InitSteps(hw: GatedInitHw): seq<Event>
  {
    GatedInitSteps(HumidityPower, HumidityAdc, hw)
  }

  /** humidity_read's chain: pin high, 40 ms, sample, pin low. */
  function ReadSteps(hw: GatedReadHw): seq<Event>
  {
    GatedReadSteps(HumidityPower, HumidityAdc, SettleMs, hw)
  }

  class HumidityDriver {
    /** The devicetree's dry and wet calibration curves. */
    const dry: Curve
    const wet: Curve
    var isInitialized: bool
    var sampleBuffer: Int16
    ghost var trace: seq<Event>

    constructor (dry: Curve, wet: Curve)
      ensures this.dry == dry && this.wet == wet
      ensures !isInitialized && sampleBuffer == 0 && trace == []
    {
      this.dry := dry;
      this.wet := wet;
      isInitialized := false;
      sampleBuffer := 0;
      trace := [];
    }

    /** humidity_init: a repeat call returns 0; otherwise only a complete chain marks the driver
        initialized. */
    method Init(hw: GatedInitHw) returns (ret: int)
      modifies this
      ensures sampleBuffer == old(sampleBuffer)
      ensures old(isInitialized) ==> ret == 0 && isInitialized && trace == old(trace)
      ensures !old(isInitialized) ==>
        && trace == old(trace) + Executed(InitSteps(hw))
        && ret == Status(InitSteps(hw))
        && isInitialized == (ret == 0)
    {
      if isInitialized {
        return 0;
      }
      ghost var steps := InitSteps(hw);
      trace := trace + [steps[0]];
      if !hw.adcReady {
        ExecutedStopsAt(steps, 0);
        return 1;
      }
      trace := trace + [steps[1]];
      if hw.setup != 0 {
        ExecutedStopsAt(steps, 1);
        return hw.setup;
      }
      trace := trace + [steps[2]];
      if !hw.gpioReady {
        ExecutedStopsAt(steps, 2);
        return 1;
      }
      trace := trace + [steps[3]];
      if hw.configure != 0 {
        ExecutedStopsAt(steps, 3);
        return hw.configure;
      }
      trace := trace + [steps[4]];
      if hw.setLow != 0 {
        ExecutedStopsAt(steps, 4);
        return hw.setLow;
      }
      ExecutedAll(steps);
      isInitialized := true;
      return 0;
    }

    /** humidity_read: 1 before init; otherwise the gated chain, and only a complete one writes
        the humidity of the sample. */
    method Read(hw: GatedReadHw) returns (ret: int, humidity: Option<Float>)
      modifies this
      ensures isInitialized == old(isInitialized)
      ensures !old(isInitialized) ==>
        ret == 1 && humidity == None && trace == old(trace) && sampleBuffer == old(sampleBuffer)
      ensures old(isInitialized) ==>
        && trace == old(trace) + Executed(ReadSteps(hw))
        && ret == Status(ReadSteps(hw))
        && sampleBuffer == (if SampleTaken(hw) then hw.sample else old(sampleBuffer))
        && humidity == (if ret == 0 then Some(Humidity(hw.sample, dry, wet)) else None)
    {
      if !isInitialized {
        return 1, None;
      }
      ghost var steps := ReadSteps(hw);
      trace := trace + [steps[0]];
      if hw.setHigh != 0 {
        ExecutedStopsAt(steps, 0);
        return hw.setHigh, None;
      }
      trace := trace + [steps[1]];
      trace := trace + [steps[2]];
      if hw.seqInit != 0 {
        ExecutedStopsAt(steps, 2);
        return hw.seqInit, None;
      }
      trace := trace + [steps[3]];
      if hw.read != 0 {
        ExecutedStopsAt(steps, 3);
        return hw.read, None;
      }
      sampleBuffer := hw.sample;
      trace := trace + [steps[4]];
      if hw.setLow != 0 {
        ExecutedStopsAt(steps, 4);
        return hw.setLow, None;
      }
      ExecutedAll(steps);
      return 0, Some(Humidity(sampleBuffer, dry, wet));
    }
  }
}
