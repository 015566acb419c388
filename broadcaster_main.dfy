/**
 * The broadcaster's application (main.c): initialize the ADC, AHT20 and BLE
 * drivers, then forever read the sensors into the global sensors_data, re-read
 * them once on the first pass, encode and advertise, and sleep. The broadcaster's
 * RET_IF_ERR only logs, so every call is made whatever the earlier ones return.
 *
 * The sensor drivers are not re-run here: each read is given as its outcome (its
 * return code and the value it wrote, if any). The BLE driver is the BleDriver
 * of module Ble. The endless loop is run over a finite script of passes.
 */
module BroadcasterMain {
  import opened CTypes
  import opened Wrappers
  import opened Ble

  datatype SensorsData = SensorsData(temp: real, hum: real, lum: real, gndTemp: real, gndHum: real, bat: real)

  /** The static initializer of sensors_data. */
  const Zeroed := SensorsData(0.0, 0.0, 0.0, 0.0, 0.0, 0.0)

  /** What a sensor read returned, and the value it wrote through its out-parameter, if it did. */
  datatype Outcome = Outcome(ret: int, value: Option<real>)

  /** What aht20_read returned and wrote through its two out-parameters. */
  datatype AhtOutcome = AhtOutcome(ret: int, temp: Option<real>, hum: Option<real>)

  /** The outcomes of one call of read(): AHT20, luminosity, ground temperature, ground humidity
      and battery. */
  datatype Round = Round(aht: AhtOutcome, lum: Outcome, gndTemp: Outcome, gndHum: Outcome, bat: Outcome)

  /** One pass of the loop: the read, the warm-up re-read (used on the first pass only) and the
      codes of the advertising calls. */
  datatype Pass = Pass(read: Round, reread: Round, adv: AdvHw)

  /** The calls main makes, in order. */
  datatype Call =
    | AdcInit | Aht20Init | BleInit
    | Aht20Read | LuminosityRead | GroundTemperatureRead | GroundHumidityRead | BatteryVoltageRead
    | Encode | Advertise | Wait

  const InitCalls: seq<Call> := [AdcInit, Aht20Init, BleInit]
  const ReadCalls: seq<Call> := [Aht20Read, LuminosityRead, GroundTemperatureRead, GroundHumidityRead, BatteryVoltageRead]
  const SendCalls: seq<Call> := [Encode, Advertise]

  function Written(current: real, v: Option<real>): real
  {
    if v.Some? then v.value else current
  }

  /** sensors_data after read(): each field holds what its driver wrote, and keeps its previous
      value when the driver wrote nothing. */
  function AfterRead(d: SensorsData, r: Round): (d': SensorsData)
    ensures r.aht.temp.Some? ==> d'.temp == r.aht.temp.value
    ensures r.aht.temp.None? ==> d'.temp == d.temp
    ensures r.aht.hum.Some? ==> d'.hum == r.aht.hum.value
    ensures r.aht.hum.None? ==> d'.hum == d.hum
    ensures r.lum.value.Some? ==> d'.lum == r.lum.value.value
    ensures r.lum.value.None? ==> d'.lum == d.lum
    ensures r.gndTemp.value.Some? ==> d'.gndTemp == r.gndTemp.value.value
    ensures r.gndTemp.value.None? ==> d'.gndTemp == d.gndTemp
    ensures r.gndHum.value.Some? ==> d'.gndHum == r.gndHum.value.value
    ensures r.gndHum.value.None? ==> d'.gndHum == d.gndHum
    ensures r.bat.value.Some? ==> d'.bat == r.bat.value.value
    ensures r.bat.value.None? ==> d'.bat == d.bat
  {
    SensorsData(Written(d.temp, r.aht.temp), Written(d.hum, r.aht.hum), Written(d.lum, r.lum.value),
                Written(d.gndTemp, r.gndTemp.value), Written(d.gndHum, r.gndHum.value), Written(d.bat, r.bat.value))
  }

  /** sensors_data after the reads of one pass. */
  function PassData(d: SensorsData, p: Pass, first: bool): SensorsData
  {
    if first then AfterRead(AfterRead(d, p.read), p.reread) else AfterRead(d, p.read)
  }

  /** The calls of one pass. */
  function PassCalls(first: bool): seq<Call>
  {
    (if first then ReadCalls + ReadCalls else ReadCalls) + SendCalls + [Wait]
  }

  /** sensors_data after the reads of the passes in the script, the first of them being the
      first pass. */
  function DataAfter(d: SensorsData, script: seq<Pass>): SensorsData
    decreases |script|
  {
    if script == [] then d
    else PassData(DataAfter(d, script[..|script| - 1]), script[|script| - 1], |script| == 1)
  }

  function RunCalls(script: seq<Pass>): seq<Call>
    decreases |script|
  {
    if script == [] then []
    else RunCalls(script[..|script| - 1]) + PassCalls(|script| == 1)
  }

  /** The frame a pass advertises: the encoded readings of that pass, with the counter value the
      BLE driver has reached. */
  function FrameOf(d: SensorsData, counter: int): seq<Byte>
  {
    AdvFrame([ServiceUuid1, ServiceUuid2], counter, d.temp, d.hum, d.lum, d.gndHum, d.gndTemp, d.bat)
  }

  /** The frames of the passes in the script, the BLE counter starting at c0. */
  function Frames(d0: SensorsData, c0: int, script: seq<Pass>): seq<seq<Byte>>
    decreases |script|
  {
    if script == [] then []
    else Frames(d0, c0, script[..|script| - 1]) + [FrameOf(DataAfter(d0, script), c0 + |script| - 1)]
  }

  /** Each pass advertises exactly one frame; frame k is a full 22-byte service-data buffer
      with the UUID, the zero marker and the counter (c0 + k) modulo 256. */
  lemma {:induction false} FramesCarryCounter(d0: SensorsData, c0: int, script: seq<Pass>)
    ensures |Frames(d0, c0, script)| == |script|
    ensures forall k :: 0 <= k < |script| ==>
      |Frames(d0, c0, script)[k]| == ServiceDataLength
      && Frames(d0, c0, script)[k][..4] == [ServiceUuid1, ServiceUuid2, 0, (c0 + k) % 256]
    decreases |script|
  {
    if script != [] {
      var n := |script| - 1;
      FramesCarryCounter(d0, c0, script[..n]);
      var d := DataAfter(d0, script);
      AdvFrameLayout(c0 + n, d.temp, d.hum, d.lum, d.gndHum, d.gndTemp, d.bat);
      var prev, last := Frames(d0, c0, script[..n]), FrameOf(d, c0 + n);
      assert Frames(d0, c0, script) == prev + [last];
      forall k | 0 <= k < |script|
        ensures |Frames(d0, c0, script)[k]| == ServiceDataLength
        ensures Frames(d0, c0, script)[k][..4] == [ServiceUuid1, ServiceUuid2, 0, (c0 + k) % 256]
      {
        if k < n {
          assert Frames(d0, c0, script)[k] == prev[k];
        } else {
          assert Frames(d0, c0, script)[k] == last;
        }
      }
    }
  }

  function Repeat(x: seq<Call>, n: nat): (r: seq<Call>)
    ensures |r| == n * |x|
  {
    if n == 0 then [] else Repeat(x, n - 1) + x
  }

  /** Over n passes the only extra call is the warm-up read() at the very start: after it, every
      pass reads the five sensors once, encodes, advertises and sleeps. The calls thus depend on
      no return code and no reading, only on the number of passes. */
  lemma {:induction false} RunCallsShape(script: seq<Pass>)
    requires script != []
    ensures RunCalls(script) == ReadCalls + Repeat(ReadCalls + SendCalls + [Wait], |script|)
    decreases |script|
  {
    var n := |script| - 1;
    var body := ReadCalls + SendCalls + [Wait];
    if n > 0 {
      RunCallsShape(script[..n]);
      calc {
        RunCalls(script);
        RunCalls(script[..n]) + PassCalls(false);
        ReadCalls + Repeat(body, n) + body;
        ReadCalls + Repeat(body, n + 1);
      }
    } else {
      assert RunCalls(script) == RunCalls([]) + PassCalls(true);
    }
  }

  /** On the first pass the warm-up re-read wins: whatever it writes is what is sent, and a
      field it does not write keeps the value of the read before it. */
  lemma WarmUpReadWins(d: SensorsData, p: Pass)
    ensures p.reread.lum.value.Some? ==> PassData(d, p, true).lum == p.reread.lum.value.value
    ensures p.reread.lum.value.None? ==> PassData(d, p, true).lum == PassData(d, p, false).lum
    ensures p.reread.aht.temp.Some? ==> PassData(d, p, true).temp == p.reread.aht.temp.value
    ensures p.reread.aht.temp.None? ==> PassData(d, p, true).temp == PassData(d, p, false).temp
  {
  }

  lemma AppendAssoc<T>(a: seq<T>, b: seq<T>, c: seq<T>)
    ensures (a + b) + c == a + (b + c)
  {
  }

  /** Extending the passes run so far by the next one. */
  lemma PrefixStep(d0: SensorsData, c0: int, script: seq<Pass>, i: nat)
    requires i < |script|
    ensures RunCalls(script[..i + 1]) == RunCalls(script[..i]) + PassCalls(i == 0)
    ensures DataAfter(d0, script[..i + 1]) == PassData(DataAfter(d0, script[..i]), script[i], i == 0)
    ensures Frames(d0, c0, script[..i + 1])
         == Frames(d0, c0, script[..i]) + [FrameOf(DataAfter(d0, script[..i + 1]), c0 + i)]
  {
    assert script[..i + 1][..i] == script[..i];
  }

  /** The loop's bookkeeping after one more pass: the state a pass leaves, from the state
      reached after the first i passes, is the state after the first i + 1. */
  lemma LoopStep(d0: SensorsData, c0: int, a0: seq<seq<Byte>>, calls0: seq<Call>, script: seq<Pass>, i: nat,
                 data: SensorsData, calls: seq<Call>, advertised: seq<seq<Byte>>)
    requires i < |script|
    requires data == PassData(DataAfter(d0, script[..i]), script[i], i == 0)
    requires calls == calls0 + RunCalls(script[..i]) + PassCalls(i == 0)
    requires advertised == a0 + Frames(d0, c0, script[..i]) + [FrameOf(data, c0 + i)]
    ensures data == DataAfter(d0, script[..i + 1])
    ensures calls == calls0 + RunCalls(script[..i + 1])
    ensures advertised == a0 + Frames(d0, c0, script[..i + 1])
  {
    PrefixStep(d0, c0, script, i);
    AppendAssoc(calls0, RunCalls(script[..i]), PassCalls(i == 0));
    AppendAssoc(a0, Frames(d0, c0, script[..i]), [FrameOf(DataAfter(d0, script[..i + 1]), c0 + i)]);
  }

  class Application {
    const ble: BleDriver
    var data: SensorsData
    var firstRun: bool
    ghost var calls: seq<Call>

    ghost predicate Valid()
      reads this, ble
    {
      ble.Valid()
    }

    /** The state at boot. */
    constructor ()
      ensures Valid() && fresh(ble) && fresh(ble.serviceData)
      ensures data == Zeroed && firstRun && calls == []
      ensures ble.counter == 0 && !ble.isInitialized
    {
      ble := new BleDriver();
      data := Zeroed;
      firstRun := true;
      calls := [];
    }

    /** read(): the five driver reads in order, each attempted whatever the others returned. */
    method Read(r: Round)
      modifies this`data, this`calls
      ensures data == AfterRead(old(data), r) && calls == old(calls) + ReadCalls
    {
      calls := calls + [Aht20Read];
      data := data.(temp := Written(data.temp, r.aht.temp), hum := Written(data.hum, r.aht.hum));
      calls := calls + [LuminosityRead];
      data := data.(lum := Written(data.lum, r.lum.value));
      calls := calls + [GroundTemperatureRead];
      data := data.(gndTemp := Written(data.gndTemp, r.gndTemp.value));
      calls := calls + [GroundHumidityRead];
      data := data.(gndHum := Written(data.gndHum, r.gndHum.value));
      calls := calls + [BatteryVoltageRead];
      data := data.(bat := Written(data.bat, r.bat.value));
    }

    /** send(): encode, then advertise whatever the encoder returned. */
    method Send(adv: AdvHw)
      requires Valid() && ble.isInitialized
      modifies this`calls, ble`counter, ble`radio, ble`advertised, ble.serviceData
      ensures Valid() && ble.isInitialized
      ensures calls == old(calls) + SendCalls
      ensures ble.counter == old(ble.counter) + 1
      ensures ble.serviceData[..] == AdvFrame(old(ble.serviceData[..2]), old(ble.counter), data.temp, data.hum, data.lum,
                                             data.gndHum, data.gndTemp, data.bat)
      ensures ble.advertised == old(ble.advertised) + [ble.serviceData[..]]
    {
      calls := calls + [Encode];
      var r := ble.EncodeAdvData(data.temp, data.hum, data.lum, data.gndHum, data.gndTemp, data.bat);
      calls := calls + [Advertise];
      r := ble.Adv(adv);
    }

    /** One pass of the loop. */
    method Pass(p: Pass)
      requires Valid() && ble.isInitialized
      requires ble.serviceData[..2] == [ServiceUuid1, ServiceUuid2]
      modifies this`data, this`firstRun, this`calls, ble`counter, ble`radio, ble`advertised, ble.serviceData
      ensures Valid() && ble.isInitialized && ble.serviceData[..2] == [ServiceUuid1, ServiceUuid2]
      ensures !firstRun
      ensures data == PassData(old(data), p, old(firstRun))
      ensures calls == old(calls) + PassCalls(old(firstRun))
      ensures ble.counter == old(ble.counter) + 1
      ensures ble.advertised == old(ble.advertised) + [FrameOf(data, old(ble.counter))]
    {
      Read(p.read);
      if firstRun {
        Read(p.reread);
        firstRun := false;
      }
      Send(p.adv);
      calls := calls + [Wait];
    }

    /** main: the three inits, each only logged on failure, then the passes of the script. */
    method Run(bleHw: Ble.InitHw, script: seq<Pass>)
      requires Valid() && firstRun
      modifies this`data, this`firstRun, this`calls, ble`isInitialized, ble`counter, ble`radio, ble`advertised, ble.serviceData
      ensures Valid() && ble.isInitialized
      ensures calls == old(calls) + InitCalls + RunCalls(script)
      ensures data == DataAfter(old(data), script)
      ensures ble.counter == old(ble.counter) + |script|
      ensures ble.advertised == old(ble.advertised) + Frames(old(data), old(ble.counter), script)
    {
      calls := calls + [AdcInit];
      calls := calls + [Aht20Init];
      calls := calls + [BleInit];
      var r := ble.Init(bleHw);
      Loop(script);
    }

    /** The endless loop of main, over the passes of the script. */
    method Loop(script: seq<Pass>)
      requires Valid() && firstRun && ble.isInitialized && ble.serviceData[..2] == [ServiceUuid1, ServiceUuid2]
      modifies this`data, this`firstRun, this`calls, ble`counter, ble`radio, ble`advertised, ble.serviceData
      ensures Valid() && ble.isInitialized
      ensures calls == old(calls) + RunCalls(script)
      ensures data == DataAfter(old(data), script)
      ensures ble.counter == old(ble.counter) + |script|
      ensures ble.advertised == old(ble.advertised) + Frames(old(data), old(ble.counter), script)
    {
      ghost var d0, c0, a0, calls0 := data, ble.counter, ble.advertised, calls;
      var i := 0;
      while i < |script|
        invariant 0 <= i <= |script|
        invariant Valid() && ble.isInitialized && ble.serviceData[..2] == [ServiceUuid1, ServiceUuid2]
        invariant firstRun == (i == 0)
        invariant calls == calls0 + RunCalls(script[..i])
        invariant data == DataAfter(d0, script[..i])
        invariant ble.counter == c0 + i
        invariant ble.advertised == a0 + Frames(d0, c0, script[..i])
      {
        Pass(script[i]);
        LoopStep(d0, c0, a0, calls0, script, i, data, calls, ble.advertised);
        i := i + 1;
      }
      assert script[..i] == script;
    }
  }
}
