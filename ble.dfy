/**
 * The broadcaster's BLE driver (ble.c): a 22-byte service-data buffer that the
 * advertisement points at, written in place by the encoder, an init flag and an
 * advertising counter. The Bluetooth stack calls are abstract: their return codes
 * are inputs, and the calls made are recorded in a ghost trace. The broadcaster's
 * RET_IF_ERR only logs, so no failure of theirs changes the control flow.
 */
module Ble {
  import opened CTypes
  import opened BroadcasterUtils

  const TempId: Byte := 1
  const HumId: Byte := 2
  const LumId: Byte := 3
  const GndTempId: Byte := 4
  const GndHumId: Byte := 5
  const BatId: Byte := 254

  const ServiceUuid1: Byte := 0xab
  const ServiceUuid2: Byte := 0xcd

  const ServiceDataLength := 22

  /** The offsets ble_encode_adv_data writes its six triples at, in order. */
  const PairOffsets: seq<nat> := [4, 7, 10, 13, 16, 19]
  /** The tags it writes there: temperature, humidity, luminosity, ground temperature,
      ground humidity, battery. */
  const PairTags: seq<Byte> := [TempId, HumId, LumId, GndTempId, GndHumId, BatId]

  /** The (tag, whole, hundredths) triple of one reading. */
  function Pair(id: Byte, v: real): (r: seq<Byte>)
    ensures |r| == 3 && r[0] == id
    ensures 0.0 <= v < 256.0 ==> r[1] as int == v.Floor && r[2] as int <= 99
  {
    var s := FloatSeparator(v);
    assert 0.0 <= v < 256.0 ==> s.whole as int == v.Floor && s.decimal as int <= 99 by {
      if 0.0 <= v < 256.0 {
        FloatSeparatorInRange(v);
      }
    }
    [id, s.whole, s.decimal]
  }

  /** ble_encode_pair on the buffer's contents: the triple lands at pos..pos+2 and every other
      byte keeps its value. */
  function WritePair(buf: seq<Byte>, pos: nat, id: Byte, v: real): (r: seq<Byte>)
    requires pos + 3 <= |buf|
    ensures |r| == |buf| && r[pos..pos + 3] == Pair(id, v)
    ensures forall i :: 0 <= i < |buf| && !(pos <= i < pos + 3) ==> r[i] == buf[i]
  {
    buf[..pos] + Pair(id, v) + buf[pos + 3..]
  }

  /** The advertised service data after ble_encode_adv_data: the two bytes before it, the zero
      marker, the counter's low byte, then the six triples. */
  function AdvFrame(uuid: seq<Byte>, counter: int, temp: real, hum: real, lumino: real,
                    gndHum: real, gndTmp: real, battery: real): seq<Byte>
  {
    uuid + [0, ToUint8(counter)]
      + Pair(TempId, temp) + Pair(HumId, hum) + Pair(LumId, lumino)
      + Pair(GndTempId, gndTmp) + Pair(GndHumId, gndHum) + Pair(BatId, battery)
  }

  /** The frame's layout: it fills the 22-byte buffer exactly, its header is the UUID, a 0 and
      the counter modulo 256, and slot k (k < 6) holds tag PairTags[k] with the k-th reading. */
  lemma {:induction false} AdvFrameLayout(counter: int, temp: real, hum: real, lumino: real,
                                          gndHum: real, gndTmp: real, battery: real)
    ensures var f := AdvFrame([ServiceUuid1, ServiceUuid2], counter, temp, hum, lumino, gndHum, gndTmp, battery);
      var values := [temp, hum, lumino, gndTmp, gndHum, battery];
      && |f| == ServiceDataLength
      && f[..4] == [0xab, 0xcd, 0, counter % 256]
      && (forall k :: 0 <= k < 6 ==> f[PairOffsets[k]..PairOffsets[k] + 3] == Pair(PairTags[k], values[k]))
      && PairOffsets[5] + 2 == 21
  {
    var f := AdvFrame([ServiceUuid1, ServiceUuid2], counter, temp, hum, lumino, gndHum, gndTmp, battery);
    var values := [temp, hum, lumino, gndTmp, gndHum, battery];
    forall k | 0 <= k < 6
      ensures f[PairOffsets[k]..PairOffsets[k] + 3] == Pair(PairTags[k], values[k])
    {
      assert f[PairOffsets[k]..PairOffsets[k] + 3] == f[4 + 3 * k..7 + 3 * k];
    }
  }

  /** A call into the Bluetooth stack. AdvStart carries the service data the advertisement
      points at when advertising starts. */
  datatype RadioCall = AddrFromStr | IdCreate | Enable | AdvStart(payload: seq<Byte>) | AdvSleep | AdvStop

  datatype RadioEvent = RadioEvent(call: RadioCall, ret: int)

  /** The codes the three calls of ble_init return. */
  datatype InitHw = InitHw(addrRet: int, idRet: int, enableRet: int)

  /** The codes bt_le_adv_start and bt_le_adv_stop return. */
  datatype AdvHw = AdvHw(startRet: int, stopRet: int)

  class BleDriver {
    var counter: int
    var isInitialized: bool
    const serviceData: array<Byte>
    ghost var radio: seq<RadioEvent>
    /** The payloads of the advertising bursts started so far. */
    ghost var advertised: seq<seq<Byte>>

    ghost predicate Valid()
      reads this
    {
      serviceData.Length == ServiceDataLength
    }

    /** The statics at boot: all zero, not initialized. */
    constructor ()
      ensures Valid() && fresh(serviceData)
      ensures counter == 0 && !isInitialized && radio == [] && advertised == []
      ensures serviceData[..] == seq(ServiceDataLength, _ => 0)
    {
      counter := 0;
      isInitialized := false;
      serviceData := new Byte[ServiceDataLength](_ => 0);
      radio := [];
      advertised := [];
    }

    /** ble_init: the address, identity and enable calls are made and only logged; the UUID
        bytes are set and the driver is marked initialized whatever they return. */
    method Init(hw: InitHw) returns (ret: int)
      requires Valid()
      modifies this`isInitialized, this`radio, serviceData
      ensures ret == 0 && isInitialized
      ensures serviceData[..] == old(serviceData[..])[0 := ServiceUuid1][1 := ServiceUuid2]
      ensures radio == old(radio) + [RadioEvent(AddrFromStr, hw.addrRet), RadioEvent(IdCreate, hw.idRet), RadioEvent(Enable, hw.enableRet)]
    {
      radio := radio + [RadioEvent(AddrFromStr, hw.addrRet)];
      radio := radio + [RadioEvent(IdCreate, hw.idRet)];
      radio := radio + [RadioEvent(Enable, hw.enableRet)];
      serviceData[0] := ServiceUuid1;
      serviceData[1] := ServiceUuid2;
      isInitialized := true;
      return 0;
    }

    /** ble_encode_pair: floatSeparator cannot fail, so the triple is always written. */
    method EncodePair(pos: nat, id: Byte, val: real) returns (ret: int)
      requires Valid() && pos + 3 <= ServiceDataLength
      modifies serviceData
      ensures ret == 0
      ensures serviceData[..] == WritePair(old(serviceData[..]), pos, id, val)
    {
      var s := FloatSeparator(val);
      serviceData[pos] := id;
      serviceData[pos + 1] := s.whole;
      serviceData[pos + 2] := s.decimal;
      assert serviceData[..] == WritePair(old(serviceData[..]), pos, id, val);
      return 0;
    }

    /** ble_encode_adv_data: the marker and counter bytes, then the six triples; bytes 0 and 1
        are left as they are, and the call returns 0. */
    method EncodeAdvData(temp: real, hum: real, lumino: real, gndHum: real, gndTmp: real, battery: real)
      returns (ret: int)
      requires Valid()
      modifies serviceData
      ensures ret == 0
      ensures serviceData[..] == AdvFrame(old(serviceData[..2]), counter, temp, hum, lumino, gndHum, gndTmp, battery)
    {
      serviceData[2] := 0;
      serviceData[3] := ToUint8(counter);
      ghost var header := serviceData[..4];
      assert header == old(serviceData[..2]) + [0, ToUint8(counter)];
      var r := EncodePair(4, TempId, temp);
      r := EncodePair(7, HumId, hum);
      r := EncodePair(10, LumId, lumino);
      r := EncodePair(13, GndTempId, gndTmp);
      r := EncodePair(16, GndHumId, gndHum);
      r := EncodePair(19, BatId, battery);
      assert serviceData[..4] == header;
      assert serviceData[4..7] == Pair(TempId, temp);
      assert serviceData[7..10] == Pair(HumId, hum);
      assert serviceData[10..13] == Pair(LumId, lumino);
      assert serviceData[13..16] == Pair(GndTempId, gndTmp);
      assert serviceData[16..19] == Pair(GndHumId, gndHum);
      assert serviceData[19..22] == Pair(BatId, battery);
      assert serviceData[..] == serviceData[..4] + serviceData[4..7] + serviceData[7..10] + serviceData[10..13]
        + serviceData[13..16] + serviceData[16..19] + serviceData[19..22];
      return 0;
    }

    /** ble_adv: -1 before init, with nothing changed. Otherwise advertising is started with the
        buffer's contents, waited on and stopped, the codes of start and stop are only logged,
        and the counter goes up by one. */
    method Adv(hw: AdvHw) returns (ret: int)
      requires Valid()
      modifies this`counter, this`radio, this`advertised
      ensures !isInitialized ==>
        ret == -1 && counter == old(counter) && radio == old(radio) && advertised == old(advertised)
      ensures isInitialized ==>
        && ret == 0 && counter == old(counter) + 1
        && radio == old(radio) + [RadioEvent(AdvStart(serviceData[..]), hw.startRet), RadioEvent(AdvSleep, 0), RadioEvent(AdvStop, hw.stopRet)]
        && advertised == old(advertised) + [serviceData[..]]
    {
      if !isInitialized {
        return -1;
      }
      radio := radio + [RadioEvent(AdvStart(serviceData[..]), hw.startRet)];
      advertised := advertised + [serviceData[..]];
      radio := radio + [RadioEvent(AdvSleep, 0)];
      radio := radio + [RadioEvent(AdvStop, hw.stopRet)];
      counter := counter + 1;
      return 0;
    }
  }
}
