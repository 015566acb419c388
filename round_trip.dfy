/**
 * The whole chain from a greenhouse sensor node to the cloud document: the broadcaster
 * advertises its name and the 22 bytes of service data, the central prints one console
 * line for them, the receiver queues and parses that line, and send_data publishes the
 * readings. The lemmas here state that the readings and the counter survive the trip.
 */
module RoundTrip {
  import opened CTypes
  import opened Wrappers
  import opened PyStr
  import BroadcasterUtils
  import Ble
  import opened CentralNrf
  import opened SerreDevice
  import opened SerreReader
  import SerreMain

  const Flags: Byte := 0x01
  /** BT_LE_AD_GENERAL | BT_LE_AD_NO_BREDR */
  const FlagsValue: Byte := 0x06

  /** A legacy advertisement carries at most 31 bytes (Bluetooth Core Specification, Vol 3,
      Part C, section 11). ble.c's ad[] takes 3 for the flags, 2 + 22 for the service data and
      2 + n for a name of n bytes, so only names of at most 2 bytes fit. */
  const LegacyAdvLen := 31
  const MaxNameLen := LegacyAdvLen - 3 - (2 + Ble.ServiceDataLength) - 2

  /** s holds t at some position. */
  predicate Contains(s: string, t: string)
    decreases |s|
  {
    |s| >= |t| && (s[..|t|] == t || Contains(s[1..], t))
  }

  /** Text that survives the serial reader unchanged: printable ASCII (so no newline ends the
      readline early, no byte changes under UTF-8 decoding and no escape sequence starts), and
      neither of the two strings clean_str deletes. */
  predicate ConsoleSafe(s: string)
  {
    && (forall i :: 0 <= i < |s| ==> ' ' <= s[i] <= '~')
    && !Contains(s, "uart:~$ ") && !Contains(s, "^[[1;32mua")
  }

  /** The broadcaster's advertisement: flags, the service data, the complete name. */
  function BroadcastFields(name: seq<Byte>, serviceData: seq<Byte>): seq<AdField>
  {
    [AdField(Flags, [FlagsValue]), AdField(SvcData16, serviceData), AdField(NameComplete, name)]
  }

  /** The value the receiver rebuilds from the (whole, hundredths) pair of a reading. */
  function Received(v: real): real
  {
    var s := BroadcasterUtils.FloatSeparator(v);
    s.whole as real + s.decimal as real / 100.0
  }

  /** The central prints exactly one line for the broadcaster's advertisement, with its name
      and all of its service data when the name fits the 29 bytes it copies. */
  lemma ScannedLine(name: seq<Byte>, addr: string, serviceData: seq<Byte>)
    requires 1 <= |name| <= NameLen - 1 && 0 !in name
    requires 1 <= |serviceData| <= DataLen - 1
    ensures ScanLine(BroadcastFields(name, serviceData), addr) == Some(ConsoleLine(Chars(name), addr, serviceData))
  {
    var fields := BroadcastFields(name, serviceData);
    assert fields[0].adType !in NameTypes && fields[1].adType !in NameTypes && fields[2].adType in NameTypes;
    assert FirstOfType(fields, NameTypes) == Some(2);
    assert fields[0].adType !in {SvcData16} && fields[1].adType in {SvcData16};
    assert FirstOfType(fields, {SvcData16}) == Some(1);
    assert name[..Min(|name|, NameLen - 1)] == name;
    assert serviceData[..Min(|serviceData|, DataLen - 1)] == serviceData;
    assert '\0' !in Chars(name);
    CStringTerminated(Chars(name), []);
  }

  /** The reading thread right-strips the printed line back to "{name,addr,hex}" and queues
      it. */
  lemma ReceivedLine(name: string, addr: string, bs: seq<Byte>)
    requires |bs| >= 1 && Plain(name) && Plain(addr) && ConsoleSafe(name) && ConsoleSafe(addr)
    ensures RStrip(ConsoleLine(name, addr, bs), Whitespace) == Framed(name, addr, bs)
    ensures Queued(Framed(name, addr, bs))
  {
    var text := "{" + name + "," + addr + "," + Hyphenated(bs) + "}";
    assert ConsoleLine(name, addr, bs) == text + "\n";
    RStripSuffix(text, "\n", Whitespace);
    HyphenatedShape(bs);
    ValidWhenFramed(name, addr, Hyphenated(bs));
  }

  /** int(_, 16) reads the hexadecimal tokens back into the bytes. */
  lemma {:induction false} ParseAllHex(bs: seq<Byte>)
    ensures ParseAll(HexTokens(bs)).Some? && ParseAll(HexTokens(bs)).value == bs
    decreases |bs|
  {
    if |bs| > 0 {
      HexByteParses(bs[0]);
      assert HexTokens(bs)[1..] == HexTokens(bs[1..]);
      ParseAllHex(bs[1..]);
      assert bs == [bs[0]] + bs[1..];
    }
  }

  /** The line a queued console line is, for a name, an address and service data. */
  function Framed(name: string, addr: string, bs: seq<Byte>): string
    requires |bs| >= 1
  {
    "{" + name + "," + addr + "," + Hyphenated(bs) + "}"
  }

  /** Stripping the braces of "{name,addr,h}" leaves the three fields and their commas. */
  lemma BracesStripped(name: string, addr: string, h: string)
    requires |name| >= 1 && |h| >= 1 && Plain(name) && Plain(h)
    ensures Strip("{" + name + "," + addr + "," + h + "}", Braces) == name + "," + addr + "," + h
  {
    var inner := name + "," + addr + "," + h;
    assert "{" + name + "," + addr + "," + h + "}" == ['{'] + inner + ['}'];
    assert inner[0] == name[0] && name[0] in name;
    assert inner[|inner| - 1] == h[|h| - 1] && h[|h| - 1] in h;
    StripUnwraps('{', inner, '}', Braces);
  }

  /** Three comma-free fields joined by commas split back into themselves. */
  lemma CommasSplit(name: string, addr: string, h: string)
    requires ',' !in name && ',' !in addr && ',' !in h
    ensures Split(name + "," + addr + "," + h, ',') == [name, addr, h]
  {
    var parts := [name, addr, h];
    Join3(parts, ',');
    assert Join(parts, ',') == name + "," + addr + "," + h;
    SplitJoin(parts, ',');
  }

  /** A braced line of three plain comma fields, the first and last non-empty, strips and
      splits back into those fields. */
  lemma FieldsOfText(name: string, addr: string, h: string)
    requires |name| >= 1 && |h| >= 1 && Plain(name) && Plain(addr) && Plain(h)
    ensures Split(Strip("{" + name + "," + addr + "," + h + "}", Braces), ',') == [name, addr, h]
  {
    BracesStripped(name, addr, h);
    CommasSplit(name, addr, h);
  }

  /** The fields of a queued line as Device takes them apart. */
  lemma FieldsOfLine(name: string, addr: string, bs: seq<Byte>)
    requires |bs| >= 1 && |name| >= 1 && Plain(name) && Plain(addr)
    ensures Split(Strip(Framed(name, addr, bs), Braces), ',') == [name, addr, Hyphenated(bs)]
  {
    HyphenatedShape(bs);
    FieldsOfText(name, addr, Hyphenated(bs));
  }

  /** A line carrying service data that starts with the UUID ab cd, a 0 and a counter byte
      becomes a device whose id is that byte and whose data are the bytes after the UUID. */
  lemma ParsedLine(name: string, addr: string, bs: seq<Byte>)
    requires |bs| >= 4 && bs[0] == Ble.ServiceUuid1 && bs[1] == Ble.ServiceUuid2 && bs[2] == 0
    requires |name| >= 1 && Plain(name) && Plain(addr)
    ensures FromLine(Framed(name, addr, bs)) == Parsed(Device(name, addr, Values(bs[2..]), bs[3], name[|name| - 1]))
  {
    FieldsOfLine(name, addr, bs);
    HyphenatedSplits(bs);
    var tokens := HexTokens(bs);
    assert tokens[0] == "ab" && tokens[1] == "cd";
    assert tokens[2..] == HexTokens(bs[2..]);
    ParseAllHex(bs[2..]);
    assert bs[2..][0] == 0 && bs[2..][1] == bs[3];
    FromServiceFields(Framed(name, addr, bs), name, addr, Hyphenated(bs), bs[2..]);
  }

  /** Service data that does not start with ab cd gives a device without an id. */
  lemma OtherServiceIgnored(name: string, addr: string, bs: seq<Byte>)
    requires |bs| >= 2 && (bs[0] != Ble.ServiceUuid1 || bs[1] != Ble.ServiceUuid2)
    requires |name| >= 1 && Plain(name) && Plain(addr)
    ensures FromLine(Framed(name, addr, bs)).Parsed? && FromLine(Framed(name, addr, bs)).device.id == -1
  {
    FieldsOfLine(name, addr, bs);
    HyphenatedSplits(bs);
    var tokens := HexTokens(bs);
    HexByteParses(bs[0]);
    HexByteParses(bs[1]);
    assert ParseHex("ab") == Some(0xab) && ParseHex("cd") == Some(0xcd) by {
      HexByteParses(0xab);
      HexByteParses(0xcd);
    }
    assert !(tokens[0] == "ab" && tokens[1] == "cd");
  }

  /** One (tag, whole, hundredths) triple sets the reading of its tag. */
  lemma DecodedPair(table: map<int, real>, id: Byte, v: real, rest: seq<int>)
    ensures SerreMain.Decoded(table, Ble.Pair(id, v) + rest) == SerreMain.Decoded(table[id as int := Received(v)], rest)
  {
    var items := Ble.Pair(id, v) + rest;
    assert items[3..] == rest;
  }

  /** The six triples of a broadcaster frame fill the six readings of the table. */
  lemma DecodedReadings(temp: real, hum: real, lumino: real, gndHum: real, gndTmp: real, battery: real)
    ensures var items := Ble.Pair(Ble.TempId, temp) + Ble.Pair(Ble.HumId, hum) + Ble.Pair(Ble.LumId, lumino)
                       + Ble.Pair(Ble.GndTempId, gndTmp) + Ble.Pair(Ble.GndHumId, gndHum) + Ble.Pair(Ble.BatId, battery);
      SerreMain.Decoded(SerreMain.Defaults, items)
        == SerreMain.Defaults[SerreMain.TempTag := Received(temp)][SerreMain.HumTag := Received(hum)]
             [SerreMain.LumTag := Received(lumino)][SerreMain.GndTempTag := Received(gndTmp)]
             [SerreMain.GndHumTag := Received(gndHum)][SerreMain.BatTag := Received(battery)]
  {
    var p1, p2, p3 := Ble.Pair(Ble.TempId, temp), Ble.Pair(Ble.HumId, hum), Ble.Pair(Ble.LumId, lumino);
    var p4, p5, p6 := Ble.Pair(Ble.GndTempId, gndTmp), Ble.Pair(Ble.GndHumId, gndHum), Ble.Pair(Ble.BatId, battery);
    assert p1 + p2 + p3 + p4 + p5 + p6 == p1 + (p2 + (p3 + (p4 + (p5 + (p6 + [])))));
    var t0 := SerreMain.Defaults;
    var t1 := t0[1 := Received(temp)];
    var t2 := t1[2 := Received(hum)];
    var t3 := t2[3 := Received(lumino)];
    var t4 := t3[4 := Received(gndTmp)];
    var t5 := t4[5 := Received(gndHum)];
    var t6 := t5[254 := Received(battery)];
    DecodedPair(t0, Ble.TempId, temp, p2 + (p3 + (p4 + (p5 + (p6 + [])))));
    DecodedPair(t1, Ble.HumId, hum, p3 + (p4 + (p5 + (p6 + []))));
    DecodedPair(t2, Ble.LumId, lumino, p4 + (p5 + (p6 + [])));
    DecodedPair(t3, Ble.GndTempId, gndTmp, p5 + (p6 + []));
    DecodedPair(t4, Ble.GndHumId, gndHum, p6 + []);
    DecodedPair(t5, Ble.BatId, battery, []);
  }

  /** The readings survive the trip: send_data on the data of a parsed broadcaster frame
      publishes each reading within one hundredth below its value, for readings between 0
      and 256. */
  lemma ReadingsPublished(counter: int, temp: real, hum: real, lumino: real, gndHum: real, gndTmp: real, battery: real)
    requires 0.0 <= temp < 256.0 && 0.0 <= hum < 256.0 && 0.0 <= lumino < 256.0
    requires 0.0 <= gndHum < 256.0 && 0.0 <= gndTmp < 256.0 && 0.0 <= battery < 256.0
    ensures var frame := Ble.AdvFrame([Ble.ServiceUuid1, Ble.ServiceUuid2], counter, temp, hum, lumino, gndHum, gndTmp, battery);
      var table := SerreMain.Decoded(SerreMain.Defaults, SerreMain.QueueOf(frame[2..]));
      && table[SerreMain.TempTag] == Received(temp) && temp - 0.01 < Received(temp) <= temp
      && table[SerreMain.HumTag] == Received(hum) && hum - 0.01 < Received(hum) <= hum
      && table[SerreMain.LumTag] == Received(lumino) && lumino - 0.01 < Received(lumino) <= lumino
      && table[SerreMain.GndTempTag] == Received(gndTmp) && gndTmp - 0.01 < Received(gndTmp) <= gndTmp
      && table[SerreMain.GndHumTag] == Received(gndHum) && gndHum - 0.01 < Received(gndHum) <= gndHum
      && table[SerreMain.BatTag] == Received(battery) && battery - 0.01 < Received(battery) <= battery
  {
    var frame := Ble.AdvFrame([Ble.ServiceUuid1, Ble.ServiceUuid2], counter, temp, hum, lumino, gndHum, gndTmp, battery);
    var items := Ble.Pair(Ble.TempId, temp) + Ble.Pair(Ble.HumId, hum) + Ble.Pair(Ble.LumId, lumino)
               + Ble.Pair(Ble.GndTempId, gndTmp) + Ble.Pair(Ble.GndHumId, gndHum) + Ble.Pair(Ble.BatId, battery);
    assert SerreMain.QueueOf(frame[2..]) == items;
    DecodedReadings(temp, hum, lumino, gndHum, gndTmp, battery);
    BroadcasterUtils.FloatSeparatorApproximates(temp);
    BroadcasterUtils.FloatSeparatorApproximates(hum);
    BroadcasterUtils.FloatSeparatorApproximates(lumino);
    BroadcasterUtils.FloatSeparatorApproximates(gndHum);
    BroadcasterUtils.FloatSeparatorApproximates(gndTmp);
    BroadcasterUtils.FloatSeparatorApproximates(battery);
  }

  /** End to end: a node whose name fits the advertisement (1 or 2 bytes) and is printable
      text without comma or brace, seen at such an address, gets a device with its name,
      address and counter modulo 256, and send_data publishes its readings, each within one
      hundredth below its value. */
  lemma EndToEnd(name: seq<Byte>, addr: string, counter: int,
                 temp: real, hum: real, lumino: real, gndHum: real, gndTmp: real, battery: real)
    requires 1 <= |name| <= MaxNameLen && Plain(Chars(name)) && Plain(addr)
    requires ConsoleSafe(Chars(name)) && ConsoleSafe(addr)
    requires 0.0 <= temp < 256.0 && 0.0 <= hum < 256.0 && 0.0 <= lumino < 256.0
    requires 0.0 <= gndHum < 256.0 && 0.0 <= gndTmp < 256.0 && 0.0 <= battery < 256.0
    ensures var frame := Ble.AdvFrame([Ble.ServiceUuid1, Ble.ServiceUuid2], counter, temp, hum, lumino, gndHum, gndTmp, battery);
      var printed := ScanLine(BroadcastFields(name, frame), addr);
      && printed.Some?
      && var line := RStrip(printed.value, Whitespace);
         && Queued(line) && FromLine(line).Parsed?
         && var d := FromLine(line).device;
            && d.name == Chars(name) && d.addr == addr && d.id == counter % 256 && d.data.Values?
            && var table := SerreMain.Decoded(SerreMain.Defaults, SerreMain.QueueOf(d.data.values));
               && temp - 0.01 < table[SerreMain.TempTag] <= temp
               && hum - 0.01 < table[SerreMain.HumTag] <= hum
               && lumino - 0.01 < table[SerreMain.LumTag] <= lumino
               && gndTmp - 0.01 < table[SerreMain.GndTempTag] <= gndTmp
               && gndHum - 0.01 < table[SerreMain.GndHumTag] <= gndHum
               && battery - 0.01 < table[SerreMain.BatTag] <= battery
  {
    var frame := Ble.AdvFrame([Ble.ServiceUuid1, Ble.ServiceUuid2], counter, temp, hum, lumino, gndHum, gndTmp, battery);
    Ble.AdvFrameLayout(counter, temp, hum, lumino, gndHum, gndTmp, battery);
    assert frame[0] == frame[..4][0] == Ble.ServiceUuid1 && frame[1] == frame[..4][1] == Ble.ServiceUuid2;
    assert frame[2] == frame[..4][2] == 0 && frame[3] == frame[..4][3] == counter % 256;
    assert 0 !in name by {
      forall i | 0 <= i < |name| ensures name[i] != 0 {
        assert Chars(name)[i] == name[i] as char;
      }
    }
    ScannedLine(name, addr, frame);
    var printed := ScanLine(BroadcastFields(name, frame), addr);
    assert printed.value == ConsoleLine(Chars(name), addr, frame);
    ReceivedLine(Chars(name), addr, frame);
    var line := RStrip(printed.value, Whitespace);
    assert line == Framed(Chars(name), addr, frame);
    ParsedLine(Chars(name), addr, frame);
    var d := FromLine(line).device;
    assert d.data == Values(frame[2..]);
    ReadingsPublished(counter, temp, hum, lumino, gndHum, gndTmp, battery);
  }
}
