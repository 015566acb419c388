/**
 * Driver of the battery monitor (sensors-reader): an ungated analog channel
 * whose sample is converted to millivolts, then to volts, then to a charge
 * level between an empty (2.0 V) and a full (3.0 V) voltage.
 */
module Batterie {
  import opened CTypes
  import opened Wrappers
  import opened Hal
  import opened RealFacts
  import ReaderUtils

  const FullVoltage: real := 3.0
  const EmptyVoltage: real := 2.0

  /** The charge level of a voltage: mapRange(volts, 2.0, 3.0, 0, 100), not clamped. */
  function Charge(volts: real): real
  {
    ReaderUtils.MapRange(volts, EmptyVoltage, FullVoltage, 0.0, 100.0)
  }

  /** Empty reads 0 %, full 100 %, each 10 mV is one percent, and the level is not clamped. */
  lemma ChargeScale(volts: real)
    ensures Charge(EmptyVoltage) == 0.0 && Charge(FullVoltage) == 100.0
    ensures Charge(volts) == (volts - EmptyVoltage) * 100.0
    ensures Charge(3.3) == 130.0 && Charge(1.5) == -50.0
  {
  }

  /** Between empty and full the charge is a percentage, and it rises with the voltage. */
  lemma {:induction false} ChargeInRange(v1: real, v2: real)
    requires EmptyVoltage <= v1 <= v2 <= FullVoltage
    ensures 0.0 <= Charge(v1) <= Charge(v2) <= 100.0
  {
    ChargeScale(v1);
    ChargeScale(v2);
  }

  /** The charge of a conversion result in millivolts: 2500 mV is half charged. */
  lemma ChargeOfMillivolts(mv: int)
    requires 0 <= mv < 0x1_0000_0000
    ensures Charge(Volts(mv)) == (mv as real - 2000.0) / 10.0
    ensures Charge(Volts(2500)) == 50.0
  {
    ChargeScale(Volts(mv));
    ChargeScale(Volts(2500));
  }

  datatype InitHw = InitHw(adcReady: bool, setup: int)

  /** batterie_init's RET_IF_ERR chain: ADC ready, channel setup (no power pin). */
  function InitSteps(hw: InitHw): seq<Event>
  {
    [ Event(AdcReady(BatteryAdc), ReadyRet(hw.adcReady)), Event(ChannelSetup(BatteryAdc), hw.setup) ]
  }

  /** batterie_voltage's chain. */
  function VoltageSteps(hw: MillivoltHw): seq<Event>
  {
    MillivoltSteps(BatteryAdc, hw)
  }

  class BatterieDriver {
    var isInitialized: bool
    var sampleBuffer: Int16
    ghost var trace: seq<Event>

    constructor ()
      ensures !isInitialized && sampleBuffer == 0 && trace == []
    {
      isInitialized := false;
      sampleBuffer := 0;
      trace := [];
    }

    /** batterie_init: a repeat call returns 0; otherwise only a complete chain marks the driver
        initialized. */
    method Init(hw: InitHw) returns (ret: int)
      modifies this
      ensures sampleBuffer == old(sampleBuffer)
      ensures old(isInitialized) ==> ret == 0 && isInitialized && trace == old(trace)
      ensures !old(isInitialized) ==>
        && trace == old(trace) + Executed(InitSteps(hw))
        && ret == Status(InitSteps(hw))
        && isInitialized == (ret == 0)
    {
      if isInitialized {
        return 0;
      }
      ghost var steps := InitSteps(hw);
      trace := trace + [steps[0]];
      if !hw.adcReady {
        ExecutedStopsAt(steps, 0);
        return 1;
      }
      trace := trace + [steps[1]];
      if hw.setup != 0 {
        ExecutedStopsAt(steps, 1);
        return hw.setup;
      }
      ExecutedAll(steps);
      isInitialized := true;
      return 0;
    }

    /** batterie_voltage: 1 before init; otherwise sequence init, read and conversion, and only
        a complete chain writes the voltage of the converted millivolts. */
    method Voltage(hw: MillivoltHw) returns (ret: int, voltage: Option<real>)
      modifies this
      ensures isInitialized == old(isInitialized)
      ensures !old(isInitialized) ==>
        ret == 1 && voltage == None && trace == old(trace) && sampleBuffer == old(sampleBuffer)
      ensures old(isInitialized) ==>
        && trace == old(trace) + Executed(VoltageSteps(hw))
        && ret == Status(VoltageSteps(hw))
        && sampleBuffer == (if MillivoltSampleTaken(hw) then hw.sample else old(sampleBuffer))
        && voltage == (if ret == 0 then Some(Volts(hw.millivolts)) else None)
    {
      if !isInitialized {
        return 1, None;
      }
      ghost var steps := VoltageSteps(hw);
      trace := trace + [steps[0]];
      if hw.seqInit != 0 {
        ExecutedStopsAt(steps, 0);
        return hw.seqInit, None;
      }
      trace := trace + [steps[1]];
      if hw.read != 0 {
        ExecutedStopsAt(steps, 1);
        return hw.read, None;
      }
      sampleBuffer := hw.sample;
      trace := trace + [steps[2]];
      if hw.convert != 0 {
        ExecutedStopsAt(steps, 2);
        return hw.convert, None;
      }
      ExecutedAll(steps);
      return 0, Some(Volts(hw.millivolts));
    }

    /** batterie_read: the voltage's error code passes through; on success the charge level. */
    method Read(hw: MillivoltHw) returns (ret: int, charge: Option<real>)
      modifies this
      ensures isInitialized == old(isInitialized)
      ensures !old(isInitialized) ==>
        ret == 1 && charge == None && trace == old(trace) && sampleBuffer == old(sampleBuffer)
      ensures old(isInitialized) ==>
        && trace == old(trace) + Executed(VoltageSteps(hw))
        && ret == Status(VoltageSteps(hw))
        && sampleBuffer == (if MillivoltSampleTaken(hw) then hw.sample else old(sampleBuffer))
        && charge == (if ret == 0 then Some(Charge(Volts(hw.millivolts))) else None)
    {
      var volts;
      ret, volts := Voltage(hw);
      if ret != 0 {
        return ret, None;
      }
      return 0, Some(Charge(volts.value));
    }
  }
}
