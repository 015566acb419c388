/**
 * The Zephyr calls the analog drivers make (ADC, GPIO, sleep), as events of a
 * ghost trace: each event records the call and the code it returned. The
 * hardware's answers are inputs of the model; the level of a power pin is the
 * level of the last successful gpio_pin_set_dt on it.
 *
 * The drivers chain their calls with the sensors-reader's RET_IF_ERR, which
 * returns the failing call's code at once: Executed and Status say which calls
 * such a chain makes and what it returns.
 */
module Hal {
  import opened CTypes

  /** The power-enable GPIOs of the gated sensors. */
  datatype Pin = HumidityPower | TemperaturePower | LightPower

  /** The ADC channels of the four analog sensors. */
  datatype Channel = HumidityAdc | TemperatureAdc | LightAdc | BatteryAdc

  datatype Call =
    | AdcReady(ch: Channel)           // device_is_ready on the ADC; RET_IF_ERR sees !ready
    | ChannelSetup(ch: Channel)       // adc_channel_setup_dt
    | GpioReady(pin: Pin)             // device_is_ready on the GPIO port
    | PinConfigure(pin: Pin)          // gpio_pin_configure_dt(GPIO_OUTPUT)
    | PinSet(pin: Pin, high: bool)    // gpio_pin_set_dt
    | Sleep(ms: nat)                  // k_sleep; it cannot fail
    | SequenceInit(ch: Channel)       // adc_sequence_init_dt
    | AdcRead(ch: Channel)            // adc_read into the sample buffer
    | ToMillivolts(ch: Channel)       // adc_raw_to_millivolts_dt

  datatype Event = Event(call: Call, ret: int)

  /** The code RET_IF_ERR sees for a readiness test: the C value of !device_is_ready(...). */
  function ReadyRet(ready: bool): int
  {
    if ready then 0 else 1
  }

  /** Index of the first failing call of a chain, or its length when none fails. */
  function FirstFailure(steps: seq<Event>): (k: nat)
    ensures k <= |steps|
    ensures forall i :: 0 <= i < k ==> steps[i].ret == 0
    ensures k < |steps| ==> steps[k].ret != 0
  {
    if steps == [] then 0
    else if steps[0].ret != 0 then 0
    else 1 + FirstFailure(steps[1..])
  }

  /** The calls an early-returning RET_IF_ERR chain makes: all of them up to and including the first failure. */
  function Executed(steps: seq<Event>): seq<Event>
  {
    var k := FirstFailure(steps);
    if k < |steps| then steps[..k + 1] else steps
  }

  /** What the chain returns: the first failing call's code, or 0. */
  function Status(steps: seq<Event>): int
  {
    var k := FirstFailure(steps);
    if k < |steps| then steps[k].ret else 0
  }

  /** A chain returns 0 exactly when every call in it succeeds, and then it makes them all. */
  lemma StatusZeroIffAllSucceed(steps: seq<Event>)
    ensures Status(steps) == 0 <==> forall i :: 0 <= i < |steps| ==> steps[i].ret == 0
    ensures Status(steps) == 0 ==> Executed(steps) == steps
  {
  }

  /** A chain whose call k is its first failure makes calls 0..k and returns call k's code. */
  lemma ExecutedStopsAt(steps: seq<Event>, k: nat)
    requires k < |steps|
    requires forall i :: 0 <= i < k ==> steps[i].ret == 0
    requires steps[k].ret != 0
    ensures Executed(steps) == steps[..k + 1]
    ensures Status(steps) == steps[k].ret
  {
    var j := FirstFailure(steps);
    assert !(j < k) && !(k < j);
  }

  /** A chain whose calls all succeed makes them all and returns 0. */
  lemma ExecutedAll(steps: seq<Event>)
    requires forall i :: 0 <= i < |steps| ==> steps[i].ret == 0
    ensures Executed(steps) == steps
    ensures Status(steps) == 0
  {
  }

  /** The first failure of a concatenation is that of its first part, if there is one, and
      otherwise that of its second part, shifted. */
  lemma {:induction false} FirstFailureAppend(a: seq<Event>, b: seq<Event>)
    ensures FirstFailure(a + b) == if FirstFailure(a) < |a| then FirstFailure(a) else |a| + FirstFailure(b)
  {
    if a == [] {
      assert a + b == b;
    } else {
      assert (a + b)[1..] == a[1..] + b;
      FirstFailureAppend(a[1..], b);
    }
  }

  /** Chains compose: a chain followed by another stops inside the first if the first fails,
      and otherwise makes all of the first and then runs the second. */
  lemma ExecutedAppend(a: seq<Event>, b: seq<Event>)
    ensures Status(a) != 0 ==> Executed(a + b) == Executed(a) && Status(a + b) == Status(a)
    ensures Status(a) == 0 ==> Executed(a + b) == a + Executed(b) && Status(a + b) == Status(b)
  {
    FirstFailureAppend(a, b);
    var k := FirstFailure(a);
    if k < |a| {
      assert (a + b)[..k + 1] == a[..k + 1];
    } else {
      var j := FirstFailure(b);
      if j < |b| {
        assert (a + b)[..|a| + j + 1] == a + b[..j + 1];
      }
    }
  }

  /** The same, for a chain run on top of an existing trace t. */
  lemma ChainStep(t: seq<Event>, a: seq<Event>, b: seq<Event>)
    ensures Status(a) != 0 ==> t + Executed(a + b) == t + Executed(a) && Status(a + b) == Status(a)
    ensures Status(a) == 0 ==> t + Executed(a + b) == (t + a) + Executed(b) && Status(a + b) == Status(b)
  {
    ExecutedAppend(a, b);
  }

  datatype Level = Unknown | Low | High

  /** The level of a pin after a trace: that of the last successful gpio_pin_set_dt on it. */
  function LevelOf(trace: seq<Event>, pin: Pin): Level
  {
    if trace == [] then Unknown
    else
      var e := trace[|trace| - 1];
      if e.call.PinSet? && e.call.pin == pin && e.ret == 0 then (if e.call.high then High else Low)
      else LevelOf(trace[..|trace| - 1], pin)
  }

  /** Calls appended to a trace decide a pin's level if they set it; otherwise it is what it was. */
  lemma {:induction false} LevelOfAppend(t: seq<Event>, u: seq<Event>, pin: Pin)
    ensures LevelOf(t + u, pin) == if LevelOf(u, pin) != Unknown then LevelOf(u, pin) else LevelOf(t, pin)
  {
    if u == [] {
      assert t + u == t;
    } else {
      var n := |u| - 1;
      assert (t + u)[..|t + u| - 1] == t + u[..n];
      assert (t + u)[|t + u| - 1] == u[n];
      LevelOfAppend(t, u[..n], pin);
    }
  }

  /** What the hardware answers during one power-gated read: the codes of the pin-high,
      sequence-init, adc_read and pin-low calls, and the sample adc_read delivers. */
  datatype GatedReadHw = GatedReadHw(setHigh: int, seqInit: int, read: int, sample: Int16, setLow: int)

  /** A power-gated read: pin high, settle, sample, pin low (every K_MSEC wait is an event). */
  function GatedReadSteps(pin: Pin, ch: Channel, settleMs: nat, hw: GatedReadHw): seq<Event>
  {
    [ Event(PinSet(pin, true), hw.setHigh), Event(Sleep(settleMs), 0),
      Event(SequenceInit(ch), hw.seqInit), Event(AdcRead(ch), hw.read),
      Event(PinSet(pin, false), hw.setLow) ]
  }

  /** adc_read ran and succeeded, so the sample buffer now holds hw.sample. */
  predicate SampleTaken(hw: GatedReadHw)
  {
    hw.setHigh == 0 && hw.seqInit == 0 && hw.read == 0
  }

  /** Power gating under the early-returning RET_IF_ERR: a read that returns 0 made all five
      calls in order and left the pin low; a failed sequence init or adc_read returns before the
      power-down and leaves the pin high; a failed power-up leaves the pin as it was. */
  lemma {:induction false} GatedReadPowerGating(t: seq<Event>, pin: Pin, ch: Channel, settleMs: nat, hw: GatedReadHw)
    ensures var steps := GatedReadSteps(pin, ch, settleMs, hw);
      && (Status(steps) == 0 <==> SampleTaken(hw) && hw.setLow == 0)
      && (Status(steps) == 0 ==> Executed(steps) == steps && LevelOf(t + Executed(steps), pin) == Low)
      && (hw.setHigh != 0 ==> Executed(steps) == steps[..1] && LevelOf(t + Executed(steps), pin) == LevelOf(t, pin))
      && (hw.setHigh == 0 && (hw.seqInit != 0 || hw.read != 0) ==> LevelOf(t + Executed(steps), pin) == High)
      && (SampleTaken(hw) && hw.setLow != 0 ==> LevelOf(t + Executed(steps), pin) == High)
  {
    var steps := GatedReadSteps(pin, ch, settleMs, hw);
    StatusZeroIffAllSucceed(steps);
    if hw.setHigh != 0 {
      ExecutedStopsAt(steps, 0);
    } else if hw.seqInit != 0 {
      ExecutedStopsAt(steps, 2);
    } else if hw.read != 0 {
      ExecutedStopsAt(steps, 3);
    } else if hw.setLow != 0 {
      ExecutedStopsAt(steps, 4);
    } else {
      ExecutedAll(steps);
    }
    var e := Executed(steps);
    LevelOfAppend(t, e, pin);
    if hw.setHigh == 0 && (|e| < 5 || hw.setLow != 0) {
      // The power-up succeeded and no later call brought the pin down.
      var rest := e[1..];
      assert e == [e[0]] + rest;
      LevelOfNoSet(rest, pin);
      LevelOfAppend([e[0]], rest, pin);
      assert [e[0]][..0] == [];
    } else if hw.setHigh == 0 {
      assert e[..4] + [e[4]] == e;
    }
  }

  /** A trace with no successful set of the pin leaves its level unknown. */
  lemma {:induction false} LevelOfNoSet(u: seq<Event>, pin: Pin)
    requires forall i :: 0 <= i < |u| ==> !(u[i].call.PinSet? && u[i].call.pin == pin && u[i].ret == 0)
    ensures LevelOf(u, pin) == Unknown
  {
    if u != [] {
      LevelOfNoSet(u[..|u| - 1], pin);
    }
  }

  /** What the hardware answers during the init of a gated sensor (pt19, humidity, ntc). */
  datatype GatedInitHw = GatedInitHw(adcReady: bool, setup: int, gpioReady: bool, configure: int, setLow: int)

  /** The init chain of a gated sensor: ADC ready, channel setup, GPIO port ready, pin configured
      as output, pin driven low. */
  function GatedInitSteps(pin: Pin, ch: Channel, hw: GatedInitHw): seq<Event>
  {
    [ Event(AdcReady(ch), ReadyRet(hw.adcReady)), Event(ChannelSetup(ch), hw.setup),
      Event(GpioReady(pin), ReadyRet(hw.gpioReady)), Event(PinConfigure(pin), hw.configure),
      Event(PinSet(pin, false), hw.setLow) ]
  }

  /** A gated sensor's init that returns 0 checked readiness before it configured the pin, and
      leaves the sensor unpowered. */
  lemma {:induction false} GatedInitPowersDown(t: seq<Event>, pin: Pin, ch: Channel, hw: GatedInitHw)
    requires Status(GatedInitSteps(pin, ch, hw)) == 0
    ensures hw.adcReady && hw.gpioReady
    ensures LevelOf(t + Executed(GatedInitSteps(pin, ch, hw)), pin) == Low
  {
    var steps := GatedInitSteps(pin, ch, hw);
    StatusZeroIffAllSucceed(steps);
    assert steps[0].ret == 0 && steps[2].ret == 0;
    LevelOfAppend(t, steps, pin);
    assert steps == steps[..4] + [steps[4]];
  }

  /** What the hardware answers during a battery-voltage read: the codes of the sequence init,
      adc_read and millivolt conversion, the sample, and the int32 millivolts the conversion yields. */
  datatype MillivoltHw = MillivoltHw(seqInit: int, read: int, sample: Int16, convert: int, millivolts: int)

  /** The battery-voltage chain: sequence init, adc_read, raw-to-millivolt conversion (no power gate). */
  function MillivoltSteps(ch: Channel, hw: MillivoltHw): seq<Event>
  {
    [ Event(SequenceInit(ch), hw.seqInit), Event(AdcRead(ch), hw.read), Event(ToMillivolts(ch), hw.convert) ]
  }

  /** The conversion wrote its millivolts into a uint32_t; the driver divides that by 1000.0f. */
  function Volts(millivolts: int): (v: real)
    ensures 0 <= millivolts < 0x1_0000_0000 ==> v * 1000.0 == millivolts as real
  {
    ToUint32(millivolts) as real / 1000.0
  }

  /** A negative conversion result is read back as a huge unsigned millivolt count. */
  lemma VoltsOfNegative()
    ensures Volts(-1) == 4294967.295
  {
  }

  /** Whether a battery-voltage chain reached adc_read successfully, so that the sample buffer
      holds its sample. */
  predicate MillivoltSampleTaken(hw: MillivoltHw)
  {
    hw.seqInit == 0 && hw.read == 0
  }
}
