/**
 * Driver of the PT19 light sensor (sensors-reader): a power-gated analog
 * channel whose 10-bit sample is mapped onto 0..100 %.
 */
module Pt19 {
  import opened CTypes
  import opened Wrappers
  import opened Hal
  import ReaderUtils

  /** Settle time after powering the sensor, in milliseconds. */
  const SettleMs: nat := 10

  /** pt19_init's RET_IF_ERR chain: ADC ready, channel setup, GPIO ready, pin configured, pin low. */
  function InitSteps(hw: GatedInitHw): seq<Event>
  {
    GatedInitSteps(LightPower, LightAdc, hw)
  }

  /** pt19_read's chain: pin high, 10 ms, sample, pin low. */
  function ReadSteps(hw: GatedReadHw): seq<Event>
  {
    GatedReadSteps(LightPower, LightAdc, SettleMs, hw)
  }

  /** The light intensity of a sample: mapRange(sample, 0, 1023, 0, 100). */
  function Intensity(sample: int): real
  {
    ReaderUtils.MapRange(sample as real, 0.0, 1023.0, 0.0, 100.0)
  }

  /** A 10-bit sample reads as 0..100 %, with 0 as 0 % and 1023 as 100 %. */
  lemma IntensityScale(sample: int)
    requires 0 <= sample <= 1023
    ensures 0.0 <= Intensity(sample) <= 100.0
    ensures Intensity(0) == 0.0 && Intensity(1023) == 100.0
  {
    ReaderUtils.TenBitToPercent(sample);
    ReaderUtils.MapRangeEndpoints(0.0, 1023.0, 0.0, 100.0);
  }

  class Pt19Driver {
    var isInitialized: bool
    var sampleBuffer: Int16
    ghost var trace: seq<Event>

    constructor ()
      ensures !isInitialized && sampleBuffer == 0 && trace == []
    {
      isInitialized := false;
      sampleBuffer := 0;
      trace := [];
    }

    /** pt19_init: a repeat call warns and returns 0; otherwise the chain runs and only a
        complete one marks the driver initialized. */
    method Init(hw: GatedInitHw) returns (ret: int)
      modifies this
      ensures sampleBuffer == old(sampleBuffer)
      ensures old(isInitialized) ==> ret == 0 && isInitialized && trace == old(trace)
      ensures !old(isInitialized) ==>
        && trace == old(trace) + Executed(InitSteps(hw))
        && ret == Status(InitSteps(hw))
        && isInitialized == (ret == 0)
    {
      if isInitialized {
        return 0;
      }
      ghost var steps := InitSteps(hw);
      trace := trace + [steps[0]];
      if !hw.adcReady {
        ExecutedStopsAt(steps, 0);
        return 1;
      }
      trace := trace + [steps[1]];
      if hw.setup != 0 {
        ExecutedStopsAt(steps, 1);
        return hw.setup;
      }
      trace := trace + [steps[2]];
      if !hw.gpioReady {
        ExecutedStopsAt(steps, 2);
        return 1;
      }
      trace := trace + [steps[3]];
      if hw.configure != 0 {
        ExecutedStopsAt(steps, 3);
        return hw.configure;
      }
      trace := trace + [steps[4]];
      if hw.setLow != 0 {
        ExecutedStopsAt(steps, 4);
        return hw.setLow;
      }
      ExecutedAll(steps);
      isInitialized := true;
      return 0;
    }

    /** pt19_read: before init it returns 1 and touches nothing; otherwise the gated chain
        runs, and only a complete one writes the intensity. */
    method Read(hw: GatedReadHw) returns (ret: int, intensity: Option<real>)
      modifies this
      ensures isInitialized == old(isInitialized)
      ensures !old(isInitialized) ==>
        ret == 1 && intensity == None && trace == old(trace) && sampleBuffer == old(sampleBuffer)
      ensures old(isInitialized) ==>
        && trace == old(trace) + Executed(ReadSteps(hw))
        && ret == Status(ReadSteps(hw))
        && sampleBuffer == (if SampleTaken(hw) then hw.sample else old(sampleBuffer))
        && intensity == (if ret == 0 then Some(Intensity(hw.sample)) else None)
    {
      if !isInitialized {
        return 1, None;
      }
      ghost var steps := ReadSteps(hw);
      trace := trace + [steps[0]];
      if hw.setHigh != 0 {
        ExecutedStopsAt(steps, 0);
        return hw.setHigh, None;
      }
      trace := trace + [steps[1]];
      trace := trace + [steps[2]];
      if hw.seqInit != 0 {
        ExecutedStopsAt(steps, 2);
        return hw.seqInit, None;
      }
      trace := trace + [steps[3]];
      if hw.read != 0 {
        ExecutedStopsAt(steps, 3);
        return hw.read, None;
      }
      sampleBuffer := hw.sample;
      trace := trace + [steps[4]];
      if hw.setLow != 0 {
        ExecutedStopsAt(steps, 4);
        return hw.setLow, None;
      }
      ExecutedAll(steps);
      return 0, Some(Intensity(sampleBuffer));
    }
  }
}
