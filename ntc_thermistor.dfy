/**
 * Driver of the NTC thermistor (sensors-reader): a power-gated analog channel
 * whose sample is turned into a resistance and then a temperature by the
 * Steinhart-Hart equation.
 *
 * The natural logarithm is a parameter `ln`. Floating point is modelled by
 * reals, except where the formula leaves them: 1023.0 / 0 is +infinity, the
 * logarithm of 0 is -infinity and of a negative value NaN, and 1 / 0 is an
 * infinity; GetTempC follows those cases exactly and says NonFinite where the
 * result is an infinity or NaN.
 */
module NtcThermistor {
  import opened CTypes
  import opened Wrappers
  import opened Hal
  import opened RealFacts

  /** Steinhart-Hart coefficients and the Kelvin-to-Celsius offset. */
  const A: real := 0.001129148
  const B: real := 0.000234125
  const C: real := 0.0000000876741
  const KelvinOffset: real := 273.15

  /** Settle time after powering the thermistor, in milliseconds. */
  const SettleMs: nat := 10

  /** RESISTOR * (1023.0 / raw - 1.0): the thermistor's resistance in the divider, for a nonzero sample. */
  function Resistance(raw: int, resistor: nat): real
    requires raw != 0
  {
    resistor as real * (1023.0 / raw as real - 1.0)
  }

  /** The reciprocal of the absolute temperature, in terms of l = ln(resistance). */
  function SteinhartHart(l: real): real
  {
    A + (B + C * l * l) * l
  }

  /** getTempC: the temperature in Celsius of a sample, with the non-finite steps of the
      floating-point computation spelled out. */
  function GetTempC(raw: int, resistor: nat, ln: real -> real): (t: Float)
    ensures raw == 0 && resistor > 0 ==> t == Finite(-KelvinOffset)
    ensures raw != 0 && Resistance(raw, resistor) < 0.0 ==> t == NonFinite
    ensures raw != 0 && Resistance(raw, resistor) > 0.0 ==>
      (t.Finite? <==> SteinhartHart(ln(Resistance(raw, resistor))) != 0.0)
    ensures t.Finite? && raw != 0 && Resistance(raw, resistor) > 0.0 ==>
      (t.v + KelvinOffset) * SteinhartHart(ln(Resistance(raw, resistor))) == 1.0
  {
    if raw == 0 then
      // 1023.0 / 0 is +inf; RESISTOR * inf is +inf (NaN when RESISTOR is 0); log(+inf) is +inf,
      // the denominator is +inf and 1 / +inf is 0.
      if resistor == 0 then NonFinite else Finite(0.0 - KelvinOffset)
    else
      var r := Resistance(raw, resistor);
      if r < 0.0 then NonFinite                  // log of a negative value is NaN
      else if r == 0.0 then Finite(0.0 - KelvinOffset)  // log(0) is -inf, the denominator -inf, 1 / -inf is -0
      else
        var den := SteinhartHart(ln(r));
        if den == 0.0 then NonFinite else Finite(1.0 / den - KelvinOffset)
  }

  /** With a positive divider resistor, the resistance is positive exactly for samples strictly
      inside 0..1023, zero at 1023 and negative beyond it or below 0. */
  lemma {:induction false} ResistanceSign(raw: int, resistor: nat)
    requires raw != 0 && resistor > 0
    ensures Resistance(raw, resistor) > 0.0 <==> 0 < raw < 1023
    ensures Resistance(raw, resistor) == 0.0 <==> raw == 1023
  {
    var q := 1023.0 / raw as real;
    assert q * raw as real == 1023.0;
    if 0 < raw < 1023 {
      assert q > 1.0;
    } else if raw == 1023 {
      assert q == 1.0;
    } else if raw > 1023 {
      assert q < 1.0;
    } else {
      assert q < 0.0;
    }
  }

  /** The resistance falls as the sample rises (a higher voltage across the divider). */
  lemma {:induction false} ResistanceDecreasing(raw1: int, raw2: int, resistor: nat)
    requires 0 < raw1 < raw2 && resistor > 0
    ensures Resistance(raw2, resistor) < Resistance(raw1, resistor)
  {
    ReciprocalAntitone(raw1 as real, raw2 as real);
    assert 1023.0 / raw2 as real < 1023.0 / raw1 as real by {
      assert 1023.0 / raw2 as real == 1023.0 * (1.0 / raw2 as real);
      assert 1023.0 / raw1 as real == 1023.0 * (1.0 / raw1 as real);
    }
  }

  /** The Steinhart-Hart denominator is strictly increasing in ln(resistance). */
  lemma {:induction false} SteinhartHartIncreasing(l1: real, l2: real)
    requires l1 < l2
    ensures SteinhartHart(l1) < SteinhartHart(l2)
  {
    var s := l2 * l2 + l1 * l2 + l1 * l1;
    var u := l1 + l2 / 2.0;
    SquareNonNegative(u);
    SquareNonNegative(l2);
    assert s == u * u + 3.0 / 4.0 * (l2 * l2);
    assert SteinhartHart(l2) - SteinhartHart(l1) == (l2 - l1) * (B + C * s);
    assert (l2 - l1) * (B + C * s) > 0.0;
  }

  /** The NTC's law as the driver computes it: for samples inside the scale, a higher sample
      (a lower resistance) reads a higher temperature, when the logarithm is increasing and the
      warmer reading's denominator is positive. */
  lemma {:induction false} WarmerSampleReadsHigher(raw1: int, raw2: int, resistor: nat, ln: real -> real)
    requires 0 < raw1 < raw2 < 1023 && resistor > 0
    requires forall x: real, y: real :: 0.0 < x < y ==> ln(x) < ln(y)
    requires SteinhartHart(ln(Resistance(raw2, resistor))) > 0.0
    ensures GetTempC(raw1, resistor, ln).Finite? && GetTempC(raw2, resistor, ln).Finite?
    ensures GetTempC(raw1, resistor, ln).v < GetTempC(raw2, resistor, ln).v
  {
    var r1, r2 := Resistance(raw1, resistor), Resistance(raw2, resistor);
    ResistanceSign(raw1, resistor);
    ResistanceSign(raw2, resistor);
    ResistanceDecreasing(raw1, raw2, resistor);
    assert ln(r2) < ln(r1);
    SteinhartHartIncreasing(ln(r2), ln(r1));
    ReciprocalAntitone(SteinhartHart(ln(r2)), SteinhartHart(ln(r1)));
  }

  /** ntc_init's RET_IF_ERR chain. */
  function InitSteps(hw: GatedInitHw): seq<Event>
  {
    GatedInitSteps(TemperaturePower, TemperatureAdc, hw)
  }

  /** ntc_read's chain: pin high, 10 ms, sample, pin low. */
  function ReadSteps(hw: GatedReadHw): seq<Event>
  {
    GatedReadSteps(TemperaturePower, TemperatureAdc, SettleMs, hw)
  }

  class NtcDriver {
    /** The divider resistor in ohms, a uint16_t from the devicetree. */
    const resistor: nat
    /** The natural logarithm the temperature conversion uses. */
    const ln: real -> real
    var isInitialized: bool
    var sampleBuffer: Int16
    ghost var trace: seq<Event>

    constructor (resistor: nat, ln: real -> real)
      requires resistor < 0x1_0000
      ensures this.resistor == resistor && this.ln == ln
      ensures !isInitialized && sampleBuffer == 0 && trace == []
    {
      this.resistor := resistor;
      this.ln := ln;
      isInitialized := false;
      sampleBuffer := 0;
      trace := [];
    }

    /** ntc_init: a repeat call returns 0; otherwise only a complete chain marks the driver
        initialized. */
    method Init(hw: GatedInitHw) returns (ret: int)
      modifies this
      ensures sampleBuffer == old(sampleBuffer)
      ensures old(isInitialized) ==> ret == 0 && isInitialized && trace == old(trace)
      ensures !old(isInitialized) ==>
        && trace == old(trace) + Executed(InitSteps(hw))
        && ret == Status(InitSteps(hw))
        && isInitialized == (ret == 0)
    {
      if isInitialized {
        return 0;
      }
      ghost var steps := InitSteps(hw);
      trace := trace + [steps[0]];
      if !hw.adcReady {
        ExecutedStopsAt(steps, 0);
        return 1;
      }
      trace := trace + [steps[1]];
      if hw.setup != 0 {
        ExecutedStopsAt(steps, 1);
        return hw.setup;
      }
      trace := trace + [steps[2]];
      if !hw.gpioReady {
        ExecutedStopsAt(steps, 2);
        return 1;
      }
      trace := trace + [steps[3]];
      if hw.configure != 0 {
        ExecutedStopsAt(steps, 3);
        return hw.configure;
      }
      trace := trace + [steps[4]];
      if hw.setLow != 0 {
        ExecutedStopsAt(steps, 4);
        return hw.setLow;
      }
      ExecutedAll(steps);
      isInitialized := true;
      return 0;
    }

    /** ntc_read: 1 before init; otherwise the gated chain, and only a complete one writes the
        temperature of the sample. */
    method Read(hw: GatedReadHw) returns (ret: int, temperature: Option<Float>)
      modifies this
      ensures isInitialized == old(isInitialized)
      ensures !old(isInitialized) ==>
        ret == 1 && temperature == None && trace == old(trace) && sampleBuffer == old(sampleBuffer)
      ensures old(isInitialized) ==>
        && trace == old(trace) + Executed(ReadSteps(hw))
        && ret == Status(ReadSteps(hw))
        && sampleBuffer == (if SampleTaken(hw) then hw.sample else old(sampleBuffer))
        && temperature == (if ret == 0 then Some(GetTempC(hw.sample, resistor, ln)) else None)
    {
      if !isInitialized {
        return 1, None;
      }
      ghost var steps := ReadSteps(hw);
      trace := trace + [steps[0]];
      if hw.setHigh != 0 {
        ExecutedStopsAt(steps, 0);
        return hw.setHigh, None;
      }
      trace := trace + [steps[1]];
      trace := trace + [steps[2]];
      if hw.seqInit != 0 {
        ExecutedStopsAt(steps, 2);
        return hw.seqInit, None;
      }
      trace := trace + [steps[3]];
      if hw.read != 0 {
        ExecutedStopsAt(steps, 3);
        return hw.read, None;
      }
      sampleBuffer := hw.sample;
      trace := trace + [steps[4]];
      if hw.setLow != 0 {
        ExecutedStopsAt(steps, 4);
        return hw.setLow, None;
      }
      ExecutedAll(steps);
      return 0, Some(GetTempC(sampleBuffer, resistor, ln));
    }
  }
}
