/**
 * The sensors-reader's combined analog driver: one ADC sample buffer shared by
 * the ground-humidity, ground-temperature, luminosity and battery channels,
 * one init for all of them, and a read per channel. The ground humidity is
 * calibrated at the battery voltage measured right after the sample.
 */
module Adc {
  import opened CTypes
  import opened Wrappers
  import opened Hal
  import opened BroadcasterUtils
  import Humidity
  import NtcThermistor
  import Pt19
  import ReaderUtils

  /** Settle times after powering each gated sensor, in milliseconds. */
  const HumiditySettleMs: nat := 40
  const TemperatureSettleMs: nat := 40
  const LuminositySettleMs: nat := 10

  /** The hardware's answers for one gated channel during adc_init. */
  datatype ChannelInitHw = ChannelInitHw(adcReady: bool, setup: int, configure: int)

  /** The hardware's answers to the fourteen calls of adc_init. */
  datatype InitHw = InitHw(
    humidity: ChannelInitHw, temperature: ChannelInitHw, light: ChannelInitHw,
    batteryReady: bool, batterySetup: int,
    humidityLow: int, temperatureLow: int, lightLow: int)

  /** adc_init's calls for one gated channel: ADC ready, channel setup, pin configured as output
      (there is no GPIO readiness test in this driver). */
  function ChannelInitSteps(pin: Pin, ch: Channel, c: ChannelInitHw): seq<Event>
  {
    [ Event(AdcReady(ch), ReadyRet(c.adcReady)), Event(ChannelSetup(ch), c.setup), Event(PinConfigure(pin), c.configure) ]
  }

  /** adc_init's calls for the battery channel: ADC ready, channel setup. */
  function BatteryInitSteps(hw: InitHw): seq<Event>
  {
    [ Event(AdcReady(BatteryAdc), ReadyRet(hw.batteryReady)), Event(ChannelSetup(BatteryAdc), hw.batterySetup) ]
  }

  /** adc_init's last calls: the three power pins driven low. */
  function PowerDownSteps(hw: InitHw): seq<Event>
  {
    [ Event(PinSet(HumidityPower, false), hw.humidityLow), Event(PinSet(TemperaturePower, false), hw.temperatureLow),
      Event(PinSet(LightPower, false), hw.lightLow) ]
  }

  /** adc_init's RET_IF_ERR chain of fourteen calls: humidity, temperature and light channels,
      the battery channel, then the power-down. */
  function InitSteps(hw: InitHw): seq<Event>
  {
    ChannelInitSteps(HumidityPower, HumidityAdc, hw.humidity) + AfterHumidity(hw)
  }

  function AfterHumidity(hw: InitHw): seq<Event>
  {
    ChannelInitSteps(TemperaturePower, TemperatureAdc, hw.temperature) + AfterTemperature(hw)
  }

  function AfterTemperature(hw: InitHw): seq<Event>
  {
    ChannelInitSteps(LightPower, LightAdc, hw.light) + AfterLight(hw)
  }

  function AfterLight(hw: InitHw): seq<Event>
  {
    BatteryInitSteps(hw) + PowerDownSteps(hw)
  }

  /** A successful adc_init checked every ADC's readiness and leaves all three sensors unpowered. */
  lemma {:induction false} InitPowersDown(t: seq<Event>, hw: InitHw)
    requires Status(InitSteps(hw)) == 0
    ensures hw.humidity.adcReady && hw.temperature.adcReady && hw.light.adcReady && hw.batteryReady
    ensures var t' := t + Executed(InitSteps(hw));
      LevelOf(t', HumidityPower) == Low && LevelOf(t', TemperaturePower) == Low && LevelOf(t', LightPower) == Low
  {
    var g1, g2, g3, g4, g5 := ChannelInitSteps(HumidityPower, HumidityAdc, hw.humidity),
      ChannelInitSteps(TemperaturePower, TemperatureAdc, hw.temperature), ChannelInitSteps(LightPower, LightAdc, hw.light),
      BatteryInitSteps(hw), PowerDownSteps(hw);
    ChainStep(t, g1, AfterHumidity(hw));
    ChainStep(t + g1, g2, AfterTemperature(hw));
    ChainStep(t + g1 + g2, g3, AfterLight(hw));
    ChainStep(t + g1 + g2 + g3, g4, g5);
    StatusZeroIffAllSucceed(g1);
    StatusZeroIffAllSucceed(g2);
    StatusZeroIffAllSucceed(g3);
    StatusZeroIffAllSucceed(g4);
    StatusZeroIffAllSucceed(g5);
    assert g1[0].ret == 0 && g2[0].ret == 0 && g3[0].ret == 0 && g4[0].ret == 0;
    var prefix := t + g1 + g2 + g3 + g4;
    assert t + Executed(InitSteps(hw)) == prefix + g5;
    assert g5[2].ret == 0 && g5[1].ret == 0 && g5[0].ret == 0;
    assert LevelOf(g5[..1], HumidityPower) == Low;
    assert LevelOf(g5[..2], HumidityPower) == Low && LevelOf(g5[..2], TemperaturePower) == Low;
    assert LevelOf(g5, HumidityPower) == Low && LevelOf(g5, TemperaturePower) == Low && LevelOf(g5, LightPower) == Low;
    LevelOfAppend(prefix, g5, HumidityPower);
    LevelOfAppend(prefix, g5, TemperaturePower);
    LevelOfAppend(prefix, g5, LightPower);
  }

  function HumiditySteps(hw: GatedReadHw): seq<Event>
  {
    GatedReadSteps(HumidityPower, HumidityAdc, HumiditySettleMs, hw)
  }

  function TemperatureSteps(hw: GatedReadHw): seq<Event>
  {
    GatedReadSteps(TemperaturePower, TemperatureAdc, TemperatureSettleMs, hw)
  }

  function LuminositySteps(hw: GatedReadHw): seq<Event>
  {
    GatedReadSteps(LightPower, LightAdc, LuminositySettleMs, hw)
  }

  function BatterySteps(hw: MillivoltHw): seq<Event>
  {
    MillivoltSteps(BatteryAdc, hw)
  }

  /** The ground humidity of a raw sample, calibrated by the dry and wet curves at the battery
      voltage. */
  function GroundHumidity(raw: int, volts: real, dry: Curve, wet: Curve): Float
  {
    Humidity.CalibratedPercent(raw, EvaluatePolynomial(volts, dry), EvaluatePolynomial(volts, wet))
  }

  /** At 0 V the calibration is that of the stand-alone humidity driver. */
  lemma GroundHumidityAtZeroVolts(raw: int, dry: Curve, wet: Curve)
    ensures GroundHumidity(raw, 0.0, dry, wet) == Humidity.Humidity(raw, dry, wet)
  {
  }

  /** The calibration points pass through the curves: when the curves meet at the measured voltage
      there is no number, and otherwise a sample at an integral dry or wet point reads 0 % or 100 %. */
  lemma GroundHumidityCalibration(volts: real, dry: Curve, wet: Curve, raw: int)
    ensures EvaluatePolynomial(volts, dry) == EvaluatePolynomial(volts, wet) ==> GroundHumidity(raw, volts, dry, wet) == NonFinite
    ensures raw as real == EvaluatePolynomial(volts, dry) != EvaluatePolynomial(volts, wet) ==>
      GroundHumidity(raw, volts, dry, wet) == Finite(0.0)
    ensures raw as real == EvaluatePolynomial(volts, wet) != EvaluatePolynomial(volts, dry) ==>
      GroundHumidity(raw, volts, dry, wet) == Finite(100.0)
  {
    var d, w := EvaluatePolynomial(volts, dry), EvaluatePolynomial(volts, wet);
    if d != w {
      ReaderUtils.MapRangeEndpoints(d, w, 0.0, 100.0);
    }
  }

  class AdcDriver {
    /** The devicetree's ground-humidity calibration curves. */
    const dry: Curve
    const wet: Curve
    /** The ground-temperature divider resistor in ohms (uint16_t). */
    const groundTempResistor: nat
    /** The natural logarithm the temperature conversion uses. */
    const ln: real -> real
    var isInitialized: bool
    /** The one sample buffer all four channels read into. */
    var sampleBuffer: Int16
    ghost var trace: seq<Event>

    constructor (dry: Curve, wet: Curve, groundTempResistor: nat, ln: real -> real)
      requires groundTempResistor < 0x1_0000
      ensures this.dry == dry && this.wet == wet
      ensures this.groundTempResistor == groundTempResistor && this.ln == ln
      ensures !isInitialized && sampleBuffer == 0 && trace == []
    {
      this.dry := dry;
      this.wet := wet;
      this.groundTempResistor := groundTempResistor;
      this.ln := ln;
      isInitialized := false;
      sampleBuffer := 0;
      trace := [];
    }

    /** adc_init: a repeat call returns 0; otherwise the fourteen calls run until the first
        failure, and only a complete chain marks the driver initialized. */
    method Init(hw: InitHw) returns (ret: int)
      modifies this
      ensures sampleBuffer == old(sampleBuffer)
      ensures old(isInitialized) ==> ret == 0 && isInitialized && trace == old(trace)
      ensures !old(isInitialized) ==>
        && trace == old(trace) + Executed(InitSteps(hw))
        && ret == Status(InitSteps(hw))
        && isInitialized == (ret == 0)
    {
      if isInitialized {
        return 0;
      }
      ChainStep(trace, ChannelInitSteps(HumidityPower, HumidityAdc, hw.humidity), AfterHumidity(hw));
      ret := InitChannel(HumidityPower, HumidityAdc, hw.humidity);
      if ret != 0 {
        return ret;
      }
      ChainStep(trace, ChannelInitSteps(TemperaturePower, TemperatureAdc, hw.temperature), AfterTemperature(hw));
      ret := InitChannel(TemperaturePower, TemperatureAdc, hw.temperature);
      if ret != 0 {
        return ret;
      }
      ChainStep(trace, ChannelInitSteps(LightPower, LightAdc, hw.light), AfterLight(hw));
      ret := InitChannel(LightPower, LightAdc, hw.light);
      if ret != 0 {
        return ret;
      }
      ChainStep(trace, BatteryInitSteps(hw), PowerDownSteps(hw));
      ret := InitBattery(hw);
      if ret != 0 {
        return ret;
      }
      ret := PowerDown(hw);
      if ret != 0 {
        return ret;
      }
      isInitialized := true;
      return 0;
    }

    /** The two adc_init calls for the battery channel, returning at the first failure. */
    method InitBattery(hw: InitHw) returns (ret: int)
      modifies this
      ensures isInitialized == old(isInitialized) && sampleBuffer == old(sampleBuffer)
      ensures trace == old(trace) + Executed(BatteryInitSteps(hw))
      ensures ret == Status(BatteryInitSteps(hw))
      ensures ret == 0 ==> trace == old(trace) + BatteryInitSteps(hw)
    {
      ghost var steps := BatteryInitSteps(hw);
      trace := trace + [steps[0]];
      if !hw.batteryReady {
        ExecutedStopsAt(steps, 0);
        return 1;
      }
      trace := trace + [steps[1]];
      if hw.batterySetup != 0 {
        ExecutedStopsAt(steps, 1);
        return hw.batterySetup;
      }
      ExecutedAll(steps);
      return 0;
    }

    /** The three power-down calls that end adc_init, returning at the first failure. */
    method PowerDown(hw: InitHw) returns (ret: int)
      modifies this
      ensures isInitialized == old(isInitialized) && sampleBuffer == old(sampleBuffer)
      ensures trace == old(trace) + Executed(PowerDownSteps(hw))
      ensures ret == Status(PowerDownSteps(hw))
      ensures ret == 0 ==> trace == old(trace) + PowerDownSteps(hw)
    {
      ghost var steps := PowerDownSteps(hw);
      trace := trace + [steps[0]];
      if hw.humidityLow != 0 {
        ExecutedStopsAt(steps, 0);
        return hw.humidityLow;
      }
      trace := trace + [steps[1]];
      if hw.temperatureLow != 0 {
        ExecutedStopsAt(steps, 1);
        return hw.temperatureLow;
      }
      trace := trace + [steps[2]];
      if hw.lightLow != 0 {
        ExecutedStopsAt(steps, 2);
        return hw.lightLow;
      }
      ExecutedAll(steps);
      return 0;
    }

    /** The three adc_init calls for one gated channel, returning at the first failure. */
    method InitChannel(pin: Pin, ch: Channel, c: ChannelInitHw) returns (ret: int)
      modifies this
      ensures isInitialized == old(isInitialized) && sampleBuffer == old(sampleBuffer)
      ensures trace == old(trace) + Executed(ChannelInitSteps(pin, ch, c))
      ensures ret == Status(ChannelInitSteps(pin, ch, c))
      ensures ret == 0 ==> trace == old(trace) + ChannelInitSteps(pin, ch, c)
    {
      ghost var steps := ChannelInitSteps(pin, ch, c);
      trace := trace + [steps[0]];
      if !c.adcReady {
        ExecutedStopsAt(steps, 0);
        return 1;
      }
      trace := trace + [steps[1]];
      if c.setup != 0 {
        ExecutedStopsAt(steps, 1);
        return c.setup;
      }
      trace := trace + [steps[2]];
      if c.configure != 0 {
        ExecutedStopsAt(steps, 2);
        return c.configure;
      }
      ExecutedAll(steps);
      return 0;
    }

    /** battery_voltage_read: -1 before init; otherwise sequence init, read and conversion, and
        only a complete chain writes the voltage. */
    method BatteryVoltageRead(hw: MillivoltHw) returns (ret: int, voltage: Option<real>)
      modifies this
      ensures isInitialized == old(isInitialized)
      ensures !old(isInitialized) ==>
        ret == -1 && voltage == None && trace == old(trace) && sampleBuffer == old(sampleBuffer)
      ensures old(isInitialized) ==>
        && trace == old(trace) + Executed(BatterySteps(hw))
        && ret == Status(BatterySteps(hw))
        && sampleBuffer == (if MillivoltSampleTaken(hw) then hw.sample else old(sampleBuffer))
        && voltage == (if ret == 0 then Some(Volts(hw.millivolts)) else None)
    {
      if !isInitialized {
        return -1, None;
      }
      ghost var steps := BatterySteps(hw);
      trace := trace + [steps[0]];
      if hw.seqInit != 0 {
        ExecutedStopsAt(steps, 0);
        return hw.seqInit, None;
      }
      trace := trace + [steps[1]];
      if hw.read != 0 {
        ExecutedStopsAt(steps, 1);
        return hw.read, None;
      }
      sampleBuffer := hw.sample;
      trace := trace + [steps[2]];
      if hw.convert != 0 {
        ExecutedStopsAt(steps, 2);
        return hw.convert, None;
      }
      ExecutedAll(steps);
      return 0, Some(Volts(hw.millivolts));
    }

    /** ground_humidity_read: -1 before init; otherwise the gated humidity chain, then (only if it
        succeeded) a battery-voltage read, which overwrites the shared sample buffer. The humidity
        is computed from the humidity sample saved before that read, calibrated at the measured
        voltage, and written only when both chains succeed. */
    method GroundHumidityRead(hw: GatedReadHw, bat: MillivoltHw) returns (ret: int, humidity: Option<Float>)
      modifies this
      ensures isInitialized == old(isInitialized)
      ensures !old(isInitialized) ==>
        ret == -1 && humidity == None && trace == old(trace) && sampleBuffer == old(sampleBuffer)
      ensures old(isInitialized) ==>
        var gated := Status(HumiditySteps(hw));
        && trace == old(trace) + Executed(HumiditySteps(hw))
                    + (if gated == 0 then Executed(BatterySteps(bat)) else [])
        && ret == (if gated != 0 then gated else Status(BatterySteps(bat)))
        && sampleBuffer == (if gated == 0 && MillivoltSampleTaken(bat) then bat.sample
                            else if SampleTaken(hw) then hw.sample else old(sampleBuffer))
        && humidity == (if ret == 0 then Some(GroundHumidity(hw.sample, Volts(bat.millivolts), dry, wet)) else None)
    {
      if !isInitialized {
        return -1, None;
      }
      ghost var steps := HumiditySteps(hw);
      trace := trace + [steps[0]];
      if hw.setHigh != 0 {
        ExecutedStopsAt(steps, 0);
        return hw.setHigh, None;
      }
      trace := trace + [steps[1]];
      trace := trace + [steps[2]];
      if hw.seqInit != 0 {
        ExecutedStopsAt(steps, 2);
        return hw.seqInit, None;
      }
      trace := trace + [steps[3]];
      if hw.read != 0 {
        ExecutedStopsAt(steps, 3);
        return hw.read, None;
      }
      sampleBuffer := hw.sample;
      trace := trace + [steps[4]];
      if hw.setLow != 0 {
        ExecutedStopsAt(steps, 4);
        return hw.setLow, None;
      }
      ExecutedAll(steps);
      var raw := sampleBuffer;
      var volts;
      ret, volts := BatteryVoltageRead(bat);
      if ret != 0 {
        return ret, None;
      }
      return 0, Some(GroundHumidity(raw, volts.value, dry, wet));
    }

    /** ground_temperature_read: -1 before init; otherwise the gated temperature chain (40 ms),
        and only a complete one writes the thermistor temperature of the sample. */
    method GroundTemperatureRead(hw: GatedReadHw) returns (ret: int, temperature: Option<Float>)
      modifies this
      ensures isInitialized == old(isInitialized)
      ensures !old(isInitialized) ==>
        ret == -1 && temperature == None && trace == old(trace) && sampleBuffer == old(sampleBuffer)
      ensures old(isInitialized) ==>
        && trace == old(trace) + Executed(TemperatureSteps(hw))
        && ret == Status(TemperatureSteps(hw))
        && sampleBuffer == (if SampleTaken(hw) then hw.sample else old(sampleBuffer))
        && temperature == (if ret == 0 then Some(NtcThermistor.GetTempC(hw.sample, groundTempResistor, ln)) else None)
    {
      if !isInitialized {
        return -1, None;
      }
      ghost var steps := TemperatureSteps(hw);
      trace := trace + [steps[0]];
      if hw.setHigh != 0 {
        ExecutedStopsAt(steps, 0);
        return hw.setHigh, None;
      }
      trace := trace + [steps[1]];
      trace := trace + [steps[2]];
      if hw.seqInit != 0 {
        ExecutedStopsAt(steps, 2);
        return hw.seqInit, None;
      }
      trace := trace + [steps[3]];
      if hw.read != 0 {
        ExecutedStopsAt(steps, 3);
        return hw.read, None;
      }
      sampleBuffer := hw.sample;
      trace := trace + [steps[4]];
      if hw.setLow != 0 {
        ExecutedStopsAt(steps, 4);
        return hw.setLow, None;
      }
      ExecutedAll(steps);
      return 0, Some(NtcThermistor.GetTempC(sampleBuffer, groundTempResistor, ln));
    }

    /** luminosity_read: -1 before init; otherwise the gated light chain (10 ms), and only a
        complete one writes the light intensity of the sample. */
    method LuminosityRead(hw: GatedReadHw) returns (ret: int, luminosity: Option<real>)
      modifies this
      ensures isInitialized == old(isInitialized)
      ensures !old(isInitialized) ==>
        ret == -1 && luminosity == None && trace == old(trace) && sampleBuffer == old(sampleBuffer)
      ensures old(isInitialized) ==>
        && trace == old(trace) + Executed(LuminositySteps(hw))
        && ret == Status(LuminositySteps(hw))
        && sampleBuffer == (if SampleTaken(hw) then hw.sample else old(sampleBuffer))
        && luminosity == (if ret == 0 then Some(Pt19.Intensity(hw.sample)) else None)
    {
      if !isInitialized {
        return -1, None;
      }
      ghost var steps := LuminositySteps(hw);
      trace := trace + [steps[0]];
      if hw.setHigh != 0 {
        ExecutedStopsAt(steps, 0);
        return hw.setHigh, None;
      }
      trace := trace + [steps[1]];
      trace := trace + [steps[2]];
      if hw.seqInit != 0 {
        ExecutedStopsAt(steps, 2);
        return hw.seqInit, None;
      }
      trace := trace + [steps[3]];
      if hw.read != 0 {
        ExecutedStopsAt(steps, 3);
        return hw.read, None;
      }
      sampleBuffer := hw.sample;
      trace := trace + [steps[4]];
      if hw.setLow != 0 {
        ExecutedStopsAt(steps, 4);
        return hw.setLow, None;
      }
      ExecutedAll(steps);
      return 0, Some(Pt19.Intensity(sampleBuffer));
    }
  }
}
