/**
 * Driver of the AHT20 temperature and humidity sensor on I2C bus 1
 * (sensors-reader): init (reset, initialize, status, calibration) and a read
 * that triggers a measurement, polls the 7-byte reply, decodes two 20-bit
 * fields and checks the CRC-8 of the first six bytes.
 *
 * The bus is modelled by a ghost trace of transfers with the codes they
 * returned; the hardware's answers are inputs. The driver keeps its I2C
 * result in a static uint8_t, so a transfer counts as failed when its int
 * result is nonzero modulo 256.
 */
module Aht20 {
  import opened CTypes
  import opened Wrappers
  import opened Crc

  const I2cAddress: int := 0x38
  const CmdReset: bv8 := 0xBA
  const CmdTriggerMeasure: bv8 := 0xAC
  const TriggerMeasureByte0: bv8 := 0x33
  const TriggerMeasureByte1: bv8 := 0x00
  const CmdGetStatus: bv8 := 0x71
  const CmdInitialize: bv8 := 0xBE

  /** The sensor's reply: status, 20 bits of humidity, 20 bits of temperature, CRC. */
  type Frame = s: seq<bv8> | |s| == 7 witness [0, 0, 0, 0, 0, 0, 0]

  datatype Transfer =
    | I2cWrite(addr: int, data: seq<bv8>)                        // i2c_write
    | I2cWriteRead(addr: int, data: seq<bv8>, readLen: nat)      // i2c_write_read
    | I2cRead(addr: int, readLen: nat)                           // i2c_read
    | Sleep(ms: nat)                                          // k_sleep

  datatype BusEvent = BusEvent(transfer: Transfer, ret: int)

  /** The test the driver applies to a transfer's result once stored in its uint8_t. */
  predicate Failed(ret: int)
  {
    ToUint8(ret) != 0
  }

  /** An error code that is a multiple of 256 passes the test as a success. */
  lemma FailedIsModulo256()
    ensures Failed(-5) && Failed(1) && !Failed(0) && !Failed(256) && !Failed(-256)
  {
  }

  // ---------------------------------------------------------------- decoding

  /** humidity_raw: byte 1, byte 2 and the high nibble of byte 3, assembled by shifts and ors. */
  function HumidityRaw(f: Frame): bv32
  {
    ((((f[1] as bv32) << 8) | (f[2] as bv32)) << 4) | ((f[3] >> 4) as bv32)
  }

  /** temperature_raw: the low nibble of byte 3, byte 4 and byte 5. */
  function TemperatureRaw(f: Frame): bv32
  {
    (((((f[3] & 0x0F) as bv32) << 8) | (f[4] as bv32)) << 8) | (f[5] as bv32)
  }

  /** The two raw values are the 20-bit fields of bytes 1..5, split in the middle of byte 3. */
  lemma RawFields(f: Frame)
    ensures HumidityRaw(f) == (f[1] as bv32) * 4096 + (f[2] as bv32) * 16 + (f[3] as bv32) / 16
    ensures TemperatureRaw(f) == ((f[3] as bv32) % 16) * 65536 + (f[4] as bv32) * 256 + (f[5] as bv32)
    ensures HumidityRaw(f) < 0x10_0000 && TemperatureRaw(f) < 0x10_0000
  {
  }

  /** The frame a sensor sends for a status, two 20-bit readings and a CRC byte. */
  function Pack(status: bv8, h: bv32, t: bv32, crc: bv8): Frame
    requires h < 0x10_0000 && t < 0x10_0000
  {
    [ status, (h >> 12) as bv8, ((h >> 4) & 0xFF) as bv8, (((h & 0xF) << 4) | (t >> 16)) as bv8,
      ((t >> 8) & 0xFF) as bv8, (t & 0xFF) as bv8, crc ]
  }

  /** Decoding inverts the sensor's packing: both 20-bit readings come back unchanged. */
  lemma DecodePackRoundTrip(status: bv8, h: bv32, t: bv32, crc: bv8)
    requires h < 0x10_0000 && t < 0x10_0000
    ensures HumidityRaw(Pack(status, h, t, crc)) == h
    ensures TemperatureRaw(Pack(status, h, t, crc)) == t
  {
  }

  /** ((float)humidity_raw * 100) / 0x100000 */
  function HumidityPercent(raw: bv32): real
  {
    (raw as int) as real * 100.0 / 1048576.0
  }

  /** ((float)temperature_raw * 200 / 0x100000) - 50 */
  function TemperatureCelsius(raw: bv32): real
  {
    (raw as int) as real * 200.0 / 1048576.0 - 50.0
  }

  lemma NarrowKeepsValue(x: bv32)
    requires x < 0x10_0000
    ensures (x as bv20) as int == x as int
  {
  }

  lemma Bv20Bound(y: bv20)
    ensures y as int < 0x10_0000
  {
  }

  lemma Below20Bits(x: bv32)
    requires x < 0x10_0000
    ensures x as int < 0x10_0000
  {
    NarrowKeepsValue(x);
    Bv20Bound(x as bv20);
  }

  /** Every frame decodes to a relative humidity in [0, 100) and a temperature in [-50, 150),
      the sensor's full scales. */
  lemma {:induction false} DecodedRanges(f: Frame)
    ensures 0.0 <= HumidityPercent(HumidityRaw(f)) < 100.0
    ensures -50.0 <= TemperatureCelsius(TemperatureRaw(f)) < 150.0
  {
    RawFields(f);
    Below20Bits(HumidityRaw(f));
    Below20Bits(TemperatureRaw(f));
  }

  /** Whether the CRC byte matches crc8 of the first six bytes. */
  predicate CrcValid(f: Frame)
  {
    Crc8(f[..6]) == f[6]
  }

  /** A frame with one corrupted header or data byte fails the CRC check. */
  lemma {:induction false} CorruptedFrameRejected(f: Frame, g: Frame, k: nat)
    requires k < 6 && f[k] != g[k] && f[6] == g[6]
    requires forall i :: 0 <= i < 6 && i != k ==> f[i] == g[i]
    ensures CrcValid(f) ==> !CrcValid(g)
  {
    SingleByteErrorDetected(f[..6], g[..6], k);
  }

  // ------------------------------------------------------------------- init

  /** The hardware's answers during aht20_init: bus readiness, the codes of the reset, initialize,
      status and calibration transfers, and the status byte the sensor replies. */
  datatype InitHw = InitHw(ready: bool, resetRet: int, initRet: int, statusRet: int, status: bv8, calibrateRet: int)

  /** What aht20_init returns, given the byte left in dataBuff[3] by earlier transfers (the
      calibration test reads it; the status reply lands in dataBuff[0]). */
  function InitRet(hw: InitHw, stale3: bv8): int
  {
    if !hw.ready then 1
    else if Failed(hw.resetRet) then 2
    else if Failed(hw.initRet) then 3
    else if Failed(hw.statusRet) then 4
    else if stale3 == 0 && Failed(hw.calibrateRet) then 5
    else 0
  }

  /** The transfers aht20_init makes. */
  function InitEvents(hw: InitHw, stale3: bv8): seq<BusEvent>
  {
    var reset := [BusEvent(I2cWrite(I2cAddress, [CmdReset]), hw.resetRet)];
    var init := [BusEvent(I2cWrite(I2cAddress, [CmdInitialize]), hw.initRet)];
    var status := [BusEvent(I2cWriteRead(I2cAddress, [CmdGetStatus], 1), hw.statusRet)];
    var calibrate := [BusEvent(I2cWrite(I2cAddress, [CmdInitialize]), hw.calibrateRet)];
    if !hw.ready then []
    else if Failed(hw.resetRet) then reset
    else if Failed(hw.initRet) then reset + init
    else if Failed(hw.statusRet) then reset + init + status
    else if stale3 != 0 then reset + init + status
    else if Failed(hw.calibrateRet) then reset + init + status + calibrate
    else reset + init + status + calibrate + [BusEvent(Sleep(10), 0)]
  }

  /** aht20_init's codes: 0 exactly when the bus is ready and every transfer it makes succeeds,
      otherwise the 1..5 of the first failing step; the calibration command is sent exactly when
      the byte it tests is 0 and the status query succeeded. */
  lemma InitOutcomes(hw: InitHw, stale3: bv8)
    ensures 0 <= InitRet(hw, stale3) <= 5
    ensures InitRet(hw, stale3) == 0 <==>
      hw.ready && forall i :: 0 <= i < |InitEvents(hw, stale3)| ==> !Failed(InitEvents(hw, stale3)[i].ret)
    ensures |InitEvents(hw, stale3)| == 5 <==> hw.ready && InitRet(hw, stale3) == 0 && stale3 == 0
    ensures InitRet(hw, stale3) == 5 ==> stale3 == 0
  {
    var ev := InitEvents(hw, stale3);
    if InitRet(hw, stale3) != 0 && hw.ready {
      var last := |ev| - 1;
      assert Failed(ev[last].ret);
    }
  }

  /** The first init after boot, with the zeroed buffer, always sends the calibration command
      when the status query succeeds, whatever the status says. */
  lemma FirstInitCalibrates(hw: InitHw)
    requires hw.ready && !Failed(hw.resetRet) && !Failed(hw.initRet) && !Failed(hw.statusRet)
    ensures InitEvents(hw, 0)[3] == BusEvent(I2cWrite(I2cAddress, [CmdInitialize]), hw.calibrateRet)
  {
  }

  // ------------------------------------------------------------------- read

  /** One pass of the polling loop: the i2c_read's code, the frame it delivers, and the byte
      that lies just past the 7-byte buffer in memory (which the loop as written tests). */
  datatype Poll = Poll(ret: int, frame: Frame, beyond: bv8)

  /** Bit 7 of the status byte: the sensor is still measuring. */
  predicate Busy(f: Frame)
  {
    f[0] & 0x80 != 0
  }

  /** The intended test of the polling loop: leave at a failed read or at a frame that is no
      longer busy. */
  predicate Stops(p: Poll)
  {
    Failed(p.ret) || !Busy(p.frame)
  }

  predicate EventuallyStops(polls: seq<Poll>)
  {
    exists i :: 0 <= i < |polls| && Stops(polls[i])
  }

  /** The pass at which the intended polling loop leaves. */
  function FirstStop(polls: seq<Poll>): (k: nat)
    requires EventuallyStops(polls)
    ensures k < |polls| && Stops(polls[k])
    ensures forall j :: 0 <= j < k ==> !Stops(polls[j])
  {
    if Stops(polls[0]) then 0
    else
      var i :| 0 <= i < |polls| && Stops(polls[i]);
      assert Stops(polls[1..][i - 1]);
      1 + FirstStop(polls[1..])
  }

  /** The loop's test as written: dataBuff[7], one byte past the buffer. */
  predicate StopsAsWritten(p: Poll)
  {
    Failed(p.ret) || p.beyond == 0
  }

  predicate EventuallyStopsAsWritten(polls: seq<Poll>)
  {
    exists i :: 0 <= i < |polls| && StopsAsWritten(polls[i])
  }

  /** The pass at which the loop as written leaves. */
  function FirstStopAsWritten(polls: seq<Poll>): (k: nat)
    requires EventuallyStopsAsWritten(polls)
    ensures k < |polls| && StopsAsWritten(polls[k])
    ensures forall j :: 0 <= j < k ==> !StopsAsWritten(polls[j])
  {
    if StopsAsWritten(polls[0]) then 0
    else
      var i :| 0 <= i < |polls| && StopsAsWritten(polls[i]);
      assert StopsAsWritten(polls[1..][i - 1]);
      1 + FirstStopAsWritten(polls[1..])
  }

  /** The loop as written decodes a frame the sensor still marks busy when the byte past the
      buffer is 0, and goes on polling past a ready frame when that byte is not 0. The loop that
      tests the status bit does neither. */
  lemma AsWrittenIgnoresBusyBit()
    ensures var busy, ready: Frame := [0x98, 0, 0, 0, 0, 0, 0], [0x18, 0, 0, 0, 0, 0, 0];
      var polls := [Poll(0, busy, 0), Poll(0, ready, 0)];
      && StopsAsWritten(polls[0]) && Stops(polls[1])
      && FirstStopAsWritten(polls) == 0 && Busy(polls[0].frame)
      && FirstStop(polls) == 1 && !Busy(polls[1].frame)
    ensures var ready: Frame := [0x18, 0, 0, 0, 0, 0, 0];
      var polls := [Poll(0, ready, 1), Poll(0, ready, 0)];
      && StopsAsWritten(polls[1]) && Stops(polls[0])
      && FirstStopAsWritten(polls) == 1 && FirstStop(polls) == 0
  {
    var busy, ready: Frame := [0x98, 0, 0, 0, 0, 0, 0], [0x18, 0, 0, 0, 0, 0, 0];
    var polls := [Poll(0, busy, 0), Poll(0, ready, 0)];
    assert StopsAsWritten(polls[0]) && !Stops(polls[0]) && Stops(polls[1]);
    var polls2 := [Poll(0, ready, 1), Poll(0, ready, 0)];
    assert !StopsAsWritten(polls2[0]) && StopsAsWritten(polls2[1]) && Stops(polls2[0]);
  }

  /** The transfers of the passes before the last: a successful read that did not end the loop,
      then 5 ms. */
  function PollEvents(polls: seq<Poll>): seq<BusEvent>
  {
    if polls == [] then []
    else [BusEvent(I2cRead(I2cAddress, 7), polls[0].ret), BusEvent(Sleep(5), 0)] + PollEvents(polls[1..])
  }

  lemma {:induction false} PollEventsAppend(polls: seq<Poll>, p: Poll)
    ensures PollEvents(polls + [p]) == PollEvents(polls) + PollEvents([p])
  {
    if polls != [] {
      assert (polls + [p])[1..] == polls[1..] + [p];
      PollEventsAppend(polls[1..], p);
    }
  }

  /** The trigger write, the 40 ms wait and the polling transfers of aht20_read when the loop
      leaves at pass k, up to and including the read of that pass. */
  function ReadEventsAt(trigger: int, polls: seq<Poll>, k: nat): seq<BusEvent>
    requires k < |polls|
  {
    var write := [BusEvent(I2cWrite(I2cAddress, [CmdTriggerMeasure, TriggerMeasureByte0, TriggerMeasureByte1]), trigger)];
    if Failed(trigger) then write
    else write + [BusEvent(Sleep(40), 0)] + PollEvents(polls[..k]) + [BusEvent(I2cRead(I2cAddress, 7), polls[k].ret)]
  }

  /** What aht20_read returns once initialized when the loop leaves at the pass p. */
  function ReadRetAt(trigger: int, p: Poll): int
  {
    if Failed(trigger) then 2
    else if Failed(p.ret) then 3
    else if !CrcValid(p.frame) then 4
    else 0
  }

  /** The transfers of aht20_read as written, whose loop tests dataBuff[7]. */
  function ReadEventsAsWritten(trigger: int, polls: seq<Poll>): seq<BusEvent>
    requires EventuallyStopsAsWritten(polls)
  {
    ReadEventsAt(trigger, polls, FirstStopAsWritten(polls))
  }

  /** What aht20_read as written returns once initialized. */
  function ReadRetAsWritten(trigger: int, polls: seq<Poll>): int
    requires EventuallyStopsAsWritten(polls)
  {
    ReadRetAt(trigger, polls[FirstStopAsWritten(polls)])
  }

  /** The transfers of aht20_read with the loop testing the busy bit, as intended. */
  function ReadEvents(trigger: int, polls: seq<Poll>): seq<BusEvent>
    requires EventuallyStops(polls)
  {
    ReadEventsAt(trigger, polls, FirstStop(polls))
  }

  /** What aht20_read with the intended loop returns once initialized. */
  function ReadRet(trigger: int, polls: seq<Poll>): int
    requires EventuallyStops(polls)
  {
    ReadRetAt(trigger, polls[FirstStop(polls)])
  }

  /** As written, a read that returns 0 or 4 decoded the first frame read with a zero byte past
      the buffer, whatever its status byte says, after passes whose reads succeeded with a
      nonzero byte there; 0 means its CRC matched. */
  lemma ReadAsWrittenDecodes(trigger: int, polls: seq<Poll>)
    requires EventuallyStopsAsWritten(polls)
    requires ReadRetAsWritten(trigger, polls) == 0 || ReadRetAsWritten(trigger, polls) == 4
    ensures var k := FirstStopAsWritten(polls);
      && polls[k].beyond == 0 && !Failed(polls[k].ret)
      && (forall j :: 0 <= j < k ==> polls[j].beyond != 0 && !Failed(polls[j].ret))
      && (ReadRetAsWritten(trigger, polls) == 0 <==> CrcValid(polls[k].frame))
  {
  }

  /** With the intended loop, a read that returns 0 or 4 decoded a frame that was no longer
      busy, after skipping only busy frames; 0 means its CRC matched. */
  lemma ReadDecodesReadyFrame(trigger: int, polls: seq<Poll>)
    requires EventuallyStops(polls)
    requires ReadRet(trigger, polls) == 0 || ReadRet(trigger, polls) == 4
    ensures var k := FirstStop(polls);
      && !Busy(polls[k].frame)
      && (forall j :: 0 <= j < k ==> Busy(polls[j].frame) && !Failed(polls[j].ret))
      && (ReadRet(trigger, polls) == 0 <==> CrcValid(polls[k].frame))
  {
  }

  /** The two loops leave at the same pass when the byte past the buffer happens to be zero
      exactly for the frames that are no longer busy. */
  lemma {:induction false} SameStopWhenBeyondMirrorsBusy(polls: seq<Poll>)
    requires EventuallyStops(polls)
    requires forall i :: 0 <= i < |polls| ==> (polls[i].beyond == 0 <==> !Busy(polls[i].frame))
    ensures EventuallyStopsAsWritten(polls)
    ensures FirstStopAsWritten(polls) == FirstStop(polls)
  {
    var k := FirstStop(polls);
    assert StopsAsWritten(polls[k]);
    if !Stops(polls[0]) {
      var rest := polls[1..];
      assert Stops(rest[k - 1]);
      SameStopWhenBeyondMirrorsBusy(rest);
    }
  }

  /** Then aht20_read as written returns and transfers what the intended read does. */
  lemma AsWrittenAgreesWhenBeyondMirrorsBusy(trigger: int, polls: seq<Poll>)
    requires EventuallyStops(polls)
    requires forall i :: 0 <= i < |polls| ==> (polls[i].beyond == 0 <==> !Busy(polls[i].frame))
    ensures EventuallyStopsAsWritten(polls)
    ensures ReadRetAsWritten(trigger, polls) == ReadRet(trigger, polls)
    ensures ReadEventsAsWritten(trigger, polls) == ReadEvents(trigger, polls)
  {
    SameStopWhenBeyondMirrorsBusy(polls);
  }

  class Aht20Driver {
    var isInitialized: bool
    const cmdBuff: array<bv8>
    const dataBuff: array<bv8>
    var humidityRaw: bv32
    var temperatureRaw: bv32
    ghost var bus: seq<BusEvent>

    ghost predicate Valid()
      reads this
    {
      cmdBuff.Length == 4 && dataBuff.Length == 7 && cmdBuff != dataBuff
    }

    constructor ()
      ensures Valid() && fresh(cmdBuff) && fresh(dataBuff)
      ensures !isInitialized && bus == [] && humidityRaw == 0 && temperatureRaw == 0
      ensures cmdBuff[..] == [0, 0, 0, 0] && dataBuff[..] == [0, 0, 0, 0, 0, 0, 0]
    {
      isInitialized := false;
      cmdBuff := new bv8[4](_ => 0);
      dataBuff := new bv8[7](_ => 0);
      humidityRaw := 0;
      temperatureRaw := 0;
      bus := [];
    }

    /** aht20_init. There is no guard against a second call; a failed call leaves the driver
        as initialized as it was. */
    method Init(hw: InitHw) returns (ret: int)
      requires Valid()
      modifies this`bus, this`isInitialized, cmdBuff, dataBuff
      ensures ret == InitRet(hw, old(dataBuff[3]))
      ensures bus == old(bus) + InitEvents(hw, old(dataBuff[3]))
      ensures isInitialized == (old(isInitialized) || ret == 0)
      ensures dataBuff[..] == (if hw.ready && ret != 2 && ret != 3 && ret != 4 then old(dataBuff[..])[0 := hw.status] else old(dataBuff[..]))
      ensures cmdBuff[1..] == old(cmdBuff[1..])
    {
      if !hw.ready {
        return 1;
      }
      var r := SendCommand(CmdReset, 0, hw.resetRet);
      if r != 0 {
        return 2;
      }
      r := SendCommand(CmdInitialize, 0, hw.initRet);
      if r != 0 {
        return 3;
      }
      r := SendCommand(CmdGetStatus, 1, hw.statusRet);
      if r != 0 {
        return 4;
      }
      dataBuff[0] := hw.status;
      if dataBuff[3] == 0 {
        r := SendCommand(CmdInitialize, 0, hw.calibrateRet);
        if r != 0 {
          return 5;
        }
        bus := bus + [BusEvent(Sleep(10), 0)];
      }
      isInitialized := true;
      return 0;
    }

    /** One single-byte command of aht20_init, placed in cmdBuff[0]; a reply length of 1 makes it
        the write-then-read of the status query. */
    method SendCommand(cmd: bv8, replyLen: nat, answer: int) returns (r: int)
      requires Valid()
      modifies this`bus, cmdBuff
      ensures r == ToUint8(answer)
      ensures cmdBuff[..] == old(cmdBuff[..])[0 := cmd]
      ensures bus == old(bus) + [BusEvent(if replyLen == 0 then I2cWrite(I2cAddress, [cmd]) else I2cWriteRead(I2cAddress, [cmd], replyLen), answer)]
    {
      cmdBuff[0] := cmd;
      assert cmdBuff[..1] == [cmd];
      if replyLen == 0 {
        bus := bus + [BusEvent(I2cWrite(I2cAddress, cmdBuff[..1]), answer)];
      } else {
        bus := bus + [BusEvent(I2cWriteRead(I2cAddress, cmdBuff[..1], replyLen), answer)];
      }
      r := ToUint8(answer);
    }

    /** aht20_read as written, its polling loop testing dataBuff[7]. Before init it returns 1
        and makes no transfer. The decoded values are written before the CRC check, so
        a CRC mismatch (4) still delivers them. */
    method Read(trigger: int, polls: seq<Poll>) returns (ret: int, temperature: Option<real>, humidity: Option<real>)
      requires Valid() && EventuallyStopsAsWritten(polls)
      modifies this`bus, this`humidityRaw, this`temperatureRaw, cmdBuff, dataBuff
      ensures !old(isInitialized) ==>
        && ret == 1 && temperature == None && humidity == None && bus == old(bus)
        && cmdBuff[..] == old(cmdBuff[..]) && dataBuff[..] == old(dataBuff[..])
        && humidityRaw == old(humidityRaw) && temperatureRaw == old(temperatureRaw)
      ensures old(isInitialized) ==>
        && ret == ReadRetAsWritten(trigger, polls)
        && bus == old(bus) + ReadEventsAsWritten(trigger, polls)
        && cmdBuff[..3] == [CmdTriggerMeasure, TriggerMeasureByte0, TriggerMeasureByte1] && cmdBuff[3] == old(cmdBuff[3])
      ensures old(isInitialized) ==>
        var k := FirstStopAsWritten(polls);
        dataBuff[..] == (if Failed(trigger) then old(dataBuff[..])
                         else if !Failed(polls[k].ret) then polls[k].frame
                         else if k > 0 then polls[k - 1].frame
                         else old(dataBuff[..]))
      ensures old(isInitialized) && (ret == 0 || ret == 4) ==>
        var f := polls[FirstStopAsWritten(polls)].frame;
        && humidityRaw == HumidityRaw(f) && temperatureRaw == TemperatureRaw(f)
        && humidity == Some(HumidityPercent(HumidityRaw(f))) && temperature == Some(TemperatureCelsius(TemperatureRaw(f)))
      ensures old(isInitialized) && ret != 0 && ret != 4 ==>
        && temperature == None && humidity == None
        && humidityRaw == old(humidityRaw) && temperatureRaw == old(temperatureRaw)
    {
      if !isInitialized {
        return 1, None, None;
      }
      var r := WriteTrigger(trigger);
      if r != 0 {
        return 2, None, None;
      }
      ret, temperature, humidity := Measure(polls);
    }

    /** The trigger-measurement write of aht20_read: the command and its two argument bytes. */
    method WriteTrigger(trigger: int) returns (r: int)
      requires Valid()
      modifies this`bus, cmdBuff
      ensures r == ToUint8(trigger)
      ensures bus == old(bus) + [BusEvent(I2cWrite(I2cAddress, [CmdTriggerMeasure, TriggerMeasureByte0, TriggerMeasureByte1]), trigger)]
      ensures cmdBuff[..3] == [CmdTriggerMeasure, TriggerMeasureByte0, TriggerMeasureByte1] && cmdBuff[3] == old(cmdBuff[3])
    {
      cmdBuff[0] := CmdTriggerMeasure;
      cmdBuff[1] := TriggerMeasureByte0;
      cmdBuff[2] := TriggerMeasureByte1;
      assert cmdBuff[..3] == [CmdTriggerMeasure, TriggerMeasureByte0, TriggerMeasureByte1];
      bus := bus + [BusEvent(I2cWrite(I2cAddress, cmdBuff[..3]), trigger)];
      r := ToUint8(trigger);
    }

    /** The rest of aht20_read after a successful trigger: the 40 ms wait, the polling loop, the
        decoding and the CRC check. */
    method Measure(polls: seq<Poll>) returns (ret: int, temperature: Option<real>, humidity: Option<real>)
      requires Valid() && EventuallyStopsAsWritten(polls)
      modifies this`bus, this`humidityRaw, this`temperatureRaw, dataBuff
      ensures var k := FirstStopAsWritten(polls);
        var p := polls[k];
        && ret == (if Failed(p.ret) then 3 else if !CrcValid(p.frame) then 4 else 0)
        && bus == old(bus) + [BusEvent(Sleep(40), 0)] + PollEvents(polls[..k]) + [BusEvent(I2cRead(I2cAddress, 7), p.ret)]
        && dataBuff[..] == (if !Failed(p.ret) then p.frame else if k > 0 then polls[k - 1].frame else old(dataBuff[..]))
        && (Failed(p.ret) ==>
              temperature == None && humidity == None
              && humidityRaw == old(humidityRaw) && temperatureRaw == old(temperatureRaw))
        && (!Failed(p.ret) ==>
              humidityRaw == HumidityRaw(p.frame) && temperatureRaw == TemperatureRaw(p.frame)
              && humidity == Some(HumidityPercent(HumidityRaw(p.frame)))
              && temperature == Some(TemperatureCelsius(TemperatureRaw(p.frame))))
    {
      bus := bus + [BusEvent(Sleep(40), 0)];
      var ready := PollUntilReady(polls);
      if !ready {
        return 3, None, None;
      }
      temperature, humidity := Decode();
      var crc := Crc8(dataBuff[..6]);
      if crc != dataBuff[6] {
        return 4, temperature, humidity;
      }
      return 0, temperature, humidity;
    }

    /** The polling loop of aht20_read: read 7 bytes until a read fails or the byte past the
        buffer is 0, waiting 5 ms after each other pass. */
    method PollUntilReady(polls: seq<Poll>) returns (ready: bool)
      requires Valid() && EventuallyStopsAsWritten(polls)
      modifies this`bus, dataBuff
      ensures var k := FirstStopAsWritten(polls);
        && ready == !Failed(polls[k].ret)
        && bus == old(bus) + PollEvents(polls[..k]) + [BusEvent(I2cRead(I2cAddress, 7), polls[k].ret)]
        && dataBuff[..] == (if ready then polls[k].frame else if k > 0 then polls[k - 1].frame else old(dataBuff[..]))
    {
      ghost var k := FirstStopAsWritten(polls);
      var i := 0;
      while true
        invariant 0 <= i <= k
        invariant bus == old(bus) + PollEvents(polls[..i])
        invariant dataBuff[..] == if i > 0 then polls[i - 1].frame else old(dataBuff[..])
        decreases k - i
      {
        var stop, ok := PollOnce(polls[i]);
        if stop {
          assert i == k;
          return ok;
        }
        PollEventsAppend(polls[..i], polls[i]);
        assert polls[..i + 1] == polls[..i] + [polls[i]];
        i := i + 1;
      }
    }

    /** One pass of the polling loop: the read transfer, then, unless the byte past the buffer is
        0, the 5 ms wait. dataBuff[7] lies outside the 7-byte array; the model takes whatever is
        stored there as p.beyond. */
    method PollOnce(p: Poll) returns (stop: bool, ok: bool)
      requires Valid()
      modifies this`bus, dataBuff
      ensures stop == StopsAsWritten(p) && ok == !Failed(p.ret)
      ensures bus == old(bus) + (if stop then [BusEvent(I2cRead(I2cAddress, 7), p.ret)] else PollEvents([p]))
      ensures dataBuff[..] == if ok then p.frame else old(dataBuff[..])
    {
      bus := bus + [BusEvent(I2cRead(I2cAddress, 7), p.ret)];
      var r := ToUint8(p.ret);
      if r != 0 {
        return true, false;
      }
      ReceiveFrame(p.frame);
      if p.beyond != 0 {
        bus := bus + [BusEvent(Sleep(5), 0)];
        return false, true;
      }
      return true, true;
    }

    /** The 7 bytes a successful read transfer leaves in dataBuff. */
    method ReceiveFrame(f: Frame)
      requires Valid()
      modifies dataBuff
      ensures dataBuff[..] == f
    {
      dataBuff[0], dataBuff[1], dataBuff[2], dataBuff[3] := f[0], f[1], f[2], f[3];
      dataBuff[4], dataBuff[5], dataBuff[6] := f[4], f[5], f[6];
      assert dataBuff[..] == f;
    }

    /** The decoding of aht20_read: the raw fields assembled by shifts and ors (on the uint32_t
        statics, here on locals stored at the end), then scaled. */
    method Decode() returns (temperature: Option<real>, humidity: Option<real>)
      requires Valid()
      modifies this`humidityRaw, this`temperatureRaw
      ensures humidityRaw == HumidityRaw(dataBuff[..]) && temperatureRaw == TemperatureRaw(dataBuff[..])
      ensures humidity == Some(HumidityPercent(humidityRaw)) && temperature == Some(TemperatureCelsius(temperatureRaw))
    {
      var f: Frame := dataBuff[..];
      var h := f[1] as bv32;
      h := h << 8;
      h := h | f[2] as bv32;
      h := h << 4;
      h := h | (f[3] >> 4) as bv32;
      var t := (f[3] & 0x0F) as bv32;
      t := t << 8;
      t := t | f[4] as bv32;
      t := t << 8;
      t := t | f[5] as bv32;
      humidityRaw, temperatureRaw := h, t;
      humidity := Some(HumidityPercent(h));
      temperature := Some(TemperatureCelsius(t));
    }
  }
}
