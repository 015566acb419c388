/**
 * The scanning central (central-nrf main.c): for each advertisement received, the
 * first name field and the first 16-bit service-data field are copied into
 * fixed-size buffers, and when both are non-empty one line
 * "{name,address,hh-hh-...-hh}\n" is printed on the console. An advertisement is a
 * sequence of already-delimited AD fields; the device address is given as its
 * printed form.
 */
module CentralNrf {
  import opened CTypes
  import opened Wrappers
  import opened PyStr

  const NameLen := 30
  const DataLen := 30
  /** The size of send_value's text buffer, DATA_LEN * 3. */
  const TextLen := DataLen * 3

  const NameShortened: Byte := 0x08
  const NameComplete: Byte := 0x09
  const SvcData16: Byte := 0x16
  const NameTypes: set<Byte> := {NameShortened, NameComplete}

  /** One AD structure of an advertisement: its type and its payload. */
  datatype AdField = AdField(adType: Byte, data: seq<Byte>)

  function Min(a: int, b: int): int
  {
    if a <= b then a else b
  }

  /** Bytes copied into a char buffer. */
  function Chars(bs: seq<Byte>): (s: string)
    ensures |s| == |bs| && forall i :: 0 <= i < |bs| ==> s[i] == bs[i] as char
  {
    seq(|bs|, i requires 0 <= i < |bs| => bs[i] as char)
  }

  /** The string a char buffer holds: everything before its first NUL. */
  function CString(s: string): (r: string)
    ensures |r| <= |s| && r == s[..|r|] && '\0' !in r
    ensures |r| < |s| ==> s[|r|] == '\0'
  {
    if |s| == 0 || s[0] == '\0' then [] else [s[0]] + CString(s[1..])
  }

  /** A NUL after p ends the string no later than p does. */
  lemma {:induction false} CStringTerminated(p: string, rest: string)
    ensures CString(p + ['\0'] + rest) == CString(p)
    ensures '\0' !in p ==> CString(p) == p
    decreases |p|
  {
    if |p| > 0 && p[0] != '\0' {
      assert (p + ['\0'] + rest)[1..] == p[1..] + ['\0'] + rest;
      CStringTerminated(p[1..], rest);
      assert p == [p[0]] + p[1..];
    }
  }

  function HexDigit(n: nat): (ch: char)
    requires n < 16
    ensures HexDigitValue(ch) == Some(n)
  {
    if n < 10 then ('0' as int + n) as char else ('a' as int + n - 10) as char
  }

  /** "%02x" of one byte: two lower-case hexadecimal digits. */
  function HexByte(b: Byte): (s: string)
    ensures |s| == 2 && '-' !in s && '\0' !in s && ',' !in s && '{' !in s && '}' !in s
  {
    [HexDigit(b / 16), HexDigit(b % 16)]
  }

  /** int(HexByte(b), 16) == b */
  lemma HexByteParses(b: Byte)
    ensures ParseHex(HexByte(b)) == Some(b as nat)
  {
    var s := HexByte(b);
    assert HexValue(s[..1]) == Some(b / 16) by {
      assert s[..1][..0] == [];
    }
    assert s[..|s| - 1] == s[..1];
  }

  function HexTokens(bs: seq<Byte>): (ts: seq<string>)
    ensures |ts| == |bs| && forall i :: 0 <= i < |bs| ==> ts[i] == HexByte(bs[i])
  {
    seq(|bs|, i requires 0 <= i < |bs| => HexByte(bs[i]))
  }

  /** The text convertArray is meant to produce: the bytes in hexadecimal, joined by hyphens. */
  function Hyphenated(bs: seq<Byte>): string
    requires |bs| >= 1
  {
    Join(HexTokens(bs), '-')
  }

  /** What the loop of convertArray has written after i bytes: "hh-" for each. */
  function Dashed(bs: seq<Byte>): (s: string)
    ensures |s| == 3 * |bs|
  {
    if |bs| == 0 then [] else Dashed(bs[..|bs| - 1]) + HexByte(bs[|bs| - 1]) + ['-']
  }

  /** Replacing the final hyphen of the loop's output leaves the hyphen-joined text. */
  lemma {:induction false} DashedIsHyphenated(bs: seq<Byte>)
    requires |bs| >= 1
    ensures Dashed(bs) == Hyphenated(bs) + ['-']
    decreases |bs|
  {
    if |bs| > 1 {
      var init := bs[..|bs| - 1];
      DashedIsHyphenated(init);
      assert HexTokens(bs) == HexTokens(init) + [HexByte(bs[|bs| - 1])];
      JoinSnoc(HexTokens(init), HexByte(bs[|bs| - 1]), '-');
    }
  }

  /** The hyphen-joined text has 3 * n - 1 characters, none of them a NUL, a comma or a brace. */
  lemma HyphenatedShape(bs: seq<Byte>)
    requires |bs| >= 1
    ensures |Hyphenated(bs)| == 3 * |bs| - 1
    ensures '\0' !in Hyphenated(bs) && ',' !in Hyphenated(bs)
    ensures '{' !in Hyphenated(bs) && '}' !in Hyphenated(bs)
  {
    DashedIsHyphenated(bs);
    DashedChars(bs);
    assert Hyphenated(bs) == Dashed(bs)[..3 * |bs| - 1];
  }

  lemma {:induction false} DashedChars(bs: seq<Byte>)
    ensures '\0' !in Dashed(bs) && ',' !in Dashed(bs) && '{' !in Dashed(bs) && '}' !in Dashed(bs)
    decreases |bs|
  {
    if |bs| > 0 {
      DashedChars(bs[..|bs| - 1]);
    }
  }

  /** Splitting the text at its hyphens and reading each piece with int(_, 16) gives the
      bytes back. */
  lemma HyphenatedSplits(bs: seq<Byte>)
    requires |bs| >= 1
    ensures Split(Hyphenated(bs), '-') == HexTokens(bs)
    ensures forall i :: 0 <= i < |bs| ==> ParseHex(HexTokens(bs)[i]) == Some(bs[i] as nat)
  {
    SplitJoin(HexTokens(bs), '-');
    forall i | 0 <= i < |bs|
      ensures ParseHex(HexTokens(bs)[i]) == Some(bs[i] as nat)
    {
      HexByteParses(bs[i]);
    }
  }

  /** What snprintf stores for a format expanding to text in a buffer of size bytes: at most
      size - 1 characters of it and a NUL, nothing at all when size is 0. */
  function SnprintfOut(size: nat, text: string): (out: string)
    ensures |out| == if size == 0 then 0 else Min(|text|, size - 1) + 1
  {
    if size == 0 then [] else text[..Min(|text|, size - 1)] + ['\0']
  }

  /** snprintf(buf + at, size, fmt, ...) for a format expanding to text: it returns the length
      of the full expansion whatever it could store. */
  method Snprintf(buf: array<char>, at: nat, size: nat, text: string) returns (n: int)
    requires at + size <= buf.Length
    modifies buf
    ensures n == |text|
    ensures buf[..] == old(buf[..at]) + SnprintfOut(size, text) + old(buf[at + |SnprintfOut(size, text)|..])
  {
    var out := SnprintfOut(size, text);
    forall j | 0 <= j < |out| {
      buf[at + j] := out[j];
    }
    assert buf[..] == old(buf[..at]) + out + old(buf[at + |out|..]);
    return |text|;
  }

  /** The step of convertArray that fails for a buffer of the given size: the first i with
      size - 3 * i <= 3. */
  function FailStep(size: nat): (k: nat)
    ensures 3 * k <= size && size - 3 * k <= 3
    ensures size > 3 ==> 3 * k < size
  {
    if size <= 3 then 0 else (size - 1) / 3
  }

  /** The last, truncated "hh-" written into the `avail` characters left when convertArray
      gives up. */
  function Truncated(avail: nat, b: Byte): (s: string)
    requires avail <= 3
    ensures |s| == avail
  {
    SnprintfOut(avail, HexByte(b) + ['-'])
  }

  /** convertArray: it succeeds exactly when the buffer has room for 3 * length characters
      and a NUL, and then it holds the hyphen-joined hexadecimal text, terminated; otherwise it
      holds the whole "hh-" groups that fit and the truncated output of the failing snprintf.
      The source indexes result[currentIndex - 1], so it needs at least one byte. */
  method ConvertArray(arr: seq<Byte>, length: nat, result: array<char>) returns (ret: int)
    requires 1 <= length <= |arr|
    modifies result
    ensures ret == 0 || ret == 1
    ensures ret == 0 <==> result.Length > 3 * length
    ensures ret == 0 ==> result[..] == Hyphenated(arr[..length]) + ['\0', '\0'] + old(result[3 * length + 1..])
    ensures ret == 1 ==>
      var k := FailStep(result.Length);
      k < length && result[..] == Dashed(arr[..k]) + Truncated(result.Length - 3 * k, arr[k])
  {
    ghost var orig := result[..];
    var currentIndex := 0;
    var i := 0;
    while i < length
      invariant 0 <= i <= length && currentIndex == 3 * i && result.Length == |orig|
      invariant i > 0 ==> 3 * i < |orig|
      invariant result[..] == Progress(arr, i, orig)
    {
      var bytesWritten := WriteGroup(arr, i, currentIndex, result, orig);
      if bytesWritten < 0 || bytesWritten >= result.Length - currentIndex {
        return 1;
      }
      currentIndex := currentIndex + bytesWritten;
      i := i + 1;
    }
    Terminate(arr, length, currentIndex, result, orig);
    return 0;
  }

  /** The statement after convertArray's loop: the last hyphen becomes a NUL. */
  method Terminate(arr: seq<Byte>, length: nat, currentIndex: nat, result: array<char>, ghost orig: string)
    requires 1 <= length <= |arr| && currentIndex == 3 * length < |orig| == result.Length
    requires result[..] == Progress(arr, length, orig)
    modifies result
    ensures result[..] == Hyphenated(arr[..length]) + ['\0', '\0'] + orig[3 * length + 1..]
  {
    ghost var before := result[..];
    result[currentIndex - 1] := '\0';
    assert arr[..length][..length] == arr[..length];
    Terminated(arr[..length], before, result[..], orig);
  }

  /** The buffer after i successful turns of convertArray's loop: the groups written, the NUL
      of the last snprintf, and the original contents after it. */
  ghost function Progress(arr: seq<Byte>, i: nat, orig: string): string
    requires i <= |arr| && (i > 0 ==> 3 * i < |orig|)
  {
    if i == 0 then orig else Dashed(arr[..i]) + ['\0'] + orig[3 * i + 1..]
  }

  /** One turn of convertArray's loop: snprintf of "hh-" at the current index, with what it
      leaves in the buffer whether or not the group fits. */
  method WriteGroup(arr: seq<Byte>, i: nat, currentIndex: nat, result: array<char>, ghost orig: string)
    returns (bytesWritten: int)
    requires i < |arr| && currentIndex == 3 * i && result.Length == |orig|
    requires i > 0 ==> 3 * i < |orig|
    requires result[..] == Progress(arr, i, orig)
    modifies result
    ensures bytesWritten == 3
    ensures 3 < |orig| - 3 * i ==> result[..] == Progress(arr, i + 1, orig)
    ensures |orig| - 3 * i <= 3 ==>
      i == FailStep(|orig|) && result[..] == Dashed(arr[..i]) + Truncated(|orig| - 3 * i, arr[i])
  {
    ghost var before := result[..];
    bytesWritten := Snprintf(result, currentIndex, result.Length - currentIndex, HexByte(arr[i]) + ['-']);
    if bytesWritten >= result.Length - currentIndex {
      StepFailed(arr, i, before, result[..], orig);
    } else {
      StepWritten(arr, i, before, result[..], orig);
    }
  }

  /** Overwriting the last hyphen with a NUL ends the text. */
  lemma Terminated(bs: seq<Byte>, before: string, after: string, orig: string)
    requires |bs| >= 1 && |orig| == |before| && 3 * |bs| < |orig|
    requires before == Dashed(bs) + ['\0'] + orig[3 * |bs| + 1..]
    requires after == before[3 * |bs| - 1 := '\0']
    ensures after == Hyphenated(bs) + ['\0', '\0'] + orig[3 * |bs| + 1..]
  {
    DashedIsHyphenated(bs);
    NulOverHyphen(Hyphenated(bs), orig[3 * |bs| + 1..]);
  }

  lemma NulOverHyphen(h: string, tail: string)
    ensures (h + ['-'] + ['\0'] + tail)[|h| := '\0'] == h + ['\0', '\0'] + tail
  {
    var w := (h + ['-'] + ['\0'] + tail)[|h| := '\0'];
    assert forall k :: 0 <= k < |w| ==> w[k] == (h + ['\0', '\0'] + tail)[k];
  }

  /** The failing step of convertArray: it is step FailStep, after which the buffer holds the
      whole groups and the truncated last one. */
  lemma StepFailed(arr: seq<Byte>, i: nat, before: string, now: string, orig: string)
    requires i < |arr| && |orig| == |before| && |orig| - 3 * i <= 3
    requires i == 0 ==> before == orig
    requires i > 0 ==> 3 * i < |orig| && before == Dashed(arr[..i]) + ['\0'] + orig[3 * i + 1..]
    requires |before| >= 3 * i + |SnprintfOut(|orig| - 3 * i, HexByte(arr[i]) + ['-'])|
    requires now == before[..3 * i] + SnprintfOut(|orig| - 3 * i, HexByte(arr[i]) + ['-'])
                    + before[3 * i + |SnprintfOut(|orig| - 3 * i, HexByte(arr[i]) + ['-'])|..]
    ensures i == FailStep(|orig|)
    ensures now == Dashed(arr[..i]) + Truncated(|orig| - 3 * i, arr[i])
  {
    assert before[..3 * i] == Dashed(arr[..i]);
  }

  /** One successful step of convertArray's loop: "hh-" and a NUL land after the groups
      already written. */
  lemma StepWritten(arr: seq<Byte>, i: nat, before: string, now: string, orig: string)
    requires i < |arr| && |orig| == |before| && 3 * i + 4 <= |orig|
    requires i == 0 ==> before == orig
    requires i > 0 ==> before == Dashed(arr[..i]) + ['\0'] + orig[3 * i + 1..]
    requires now == before[..3 * i] + SnprintfOut(|orig| - 3 * i, HexByte(arr[i]) + ['-']) + before[3 * i + 4..]
    ensures now == Dashed(arr[..i + 1]) + ['\0'] + orig[3 * (i + 1) + 1..]
  {
    assert arr[..i + 1][..i] == arr[..i];
    assert before[..3 * i] == Dashed(arr[..i]);
    assert before[3 * i + 4..] == orig[3 * i + 4..];
  }

  /** The first field of one of the given types, as bt_data_parse with a callback that stops
      there finds it. */
  function FirstOfType(fields: seq<AdField>, types: set<Byte>): (r: Option<nat>)
    ensures r.Some? ==> r.value < |fields| && fields[r.value].adType in types
    ensures forall j :: 0 <= j < |fields| && (r.None? || j < r.value) ==> fields[j].adType !in types
    decreases |fields|
  {
    if |fields| == 0 then None
    else if fields[0].adType in types then Some(0)
    else match FirstOfType(fields[1..], types)
      case None => None
      case Some(k) => Some(k + 1)
  }

  /** The name buffer after data_cb_name has taken a name field: at most NAME_LEN - 1 bytes of
      it and a NUL, the rest of the buffer as it was. */
  function CopiedName(field: AdField, buf: string): string
    requires |buf| == NameLen
  {
    var len := Min(|field.data|, NameLen - 1);
    Chars(field.data[..len]) + ['\0'] + buf[len + 1..]
  }

  /** data_cb_name: a shortened or complete name is copied and parsing stops; any other field
      is passed over. */
  method DataCbName(field: AdField, name: array<char>) returns (more: bool)
    requires name.Length == NameLen
    modifies name
    ensures more <==> field.adType !in NameTypes
    ensures more ==> name[..] == old(name[..])
    ensures !more ==> name[..] == CopiedName(field, old(name[..]))
  {
    if field.adType == NameShortened || field.adType == NameComplete {
      var len := Min(|field.data|, NameLen - 1);
      forall j | 0 <= j < len {
        name[j] := field.data[j] as char;
      }
      name[len] := '\0';
      assert name[..] == CopiedName(field, old(name[..]));
      return false;
    }
    return true;
  }

  /** bt_data_parse(ad, data_cb_name, name): the fields are visited in order until the callback
      asks to stop. */
  method ParseName(fields: seq<AdField>, name: array<char>)
    requires name.Length == NameLen
    modifies name
    ensures FirstOfType(fields, NameTypes).None? ==> name[..] == old(name[..])
    ensures FirstOfType(fields, NameTypes).Some? ==>
      name[..] == CopiedName(fields[FirstOfType(fields, NameTypes).value], old(name[..]))
  {
    var i := 0;
    while i < |fields|
      invariant 0 <= i <= |fields|
      invariant forall j :: 0 <= j < i ==> fields[j].adType !in NameTypes
      invariant name[..] == old(name[..])
    {
      var more := DataCbName(fields[i], name);
      if !more {
        return;
      }
      i := i + 1;
    }
  }

  /** struct service_data: a length and a DATA_LEN-byte buffer. */
  class ServiceData {
    var len: Byte
    const data: array<Byte>

    /** The initializer in scan_recv: length 0, all bytes 0. */
    constructor ()
      ensures len == 0 && fresh(data) && data.Length == DataLen && data[..] == seq(DataLen, _ => 0)
    {
      len := 0;
      data := new Byte[DataLen](_ => 0);
    }
  }

  /** The service-data buffer after data_cb_service has taken a field: at most DATA_LEN - 1
      bytes of it and a 0, the rest as it was. */
  function CopiedService(field: AdField, buf: seq<Byte>): seq<Byte>
    requires |buf| == DataLen
  {
    var len := Min(|field.data|, DataLen - 1);
    field.data[..len] + [0] + buf[len + 1..]
  }

  /** data_cb_service: 16-bit-UUID service data is copied and parsing stops; any other field is
      passed over. */
  method DataCbService(field: AdField, svc: ServiceData) returns (more: bool)
    requires svc.data.Length == DataLen
    modifies svc`len, svc.data
    ensures more <==> field.adType != SvcData16
    ensures more ==> svc.len == old(svc.len) && svc.data[..] == old(svc.data[..])
    ensures !more ==>
      svc.len == Min(|field.data|, DataLen - 1) && svc.data[..] == CopiedService(field, old(svc.data[..]))
  {
    if field.adType == SvcData16 {
      svc.len := Min(|field.data|, DataLen - 1);
      forall j | 0 <= j < svc.len {
        svc.data[j] := field.data[j];
      }
      svc.data[svc.len] := 0;
      assert svc.data[..] == CopiedService(field, old(svc.data[..]));
      return false;
    }
    return true;
  }

  /** bt_data_parse(buf, data_cb_service, &svc_data) */
  method ParseService(fields: seq<AdField>, svc: ServiceData)
    requires svc.data.Length == DataLen
    modifies svc`len, svc.data
    ensures FirstOfType(fields, {SvcData16}).None? ==> svc.len == old(svc.len) && svc.data[..] == old(svc.data[..])
    ensures FirstOfType(fields, {SvcData16}).Some? ==>
      var f := fields[FirstOfType(fields, {SvcData16}).value];
      svc.len == Min(|f.data|, DataLen - 1) && svc.data[..] == CopiedService(f, old(svc.data[..]))
  {
    var i := 0;
    while i < |fields|
      invariant 0 <= i <= |fields|
      invariant forall j :: 0 <= j < i ==> fields[j].adType != SvcData16
      invariant svc.len == old(svc.len) && svc.data[..] == old(svc.data[..])
    {
      var more := DataCbService(fields[i], svc);
      if !more {
        return;
      }
      i := i + 1;
    }
  }

  /** The console line printed for a device: "{name,address,hex}" and a newline. */
  function ConsoleLine(name: string, addr: string, payload: seq<Byte>): (r: string)
    requires |payload| >= 1
    ensures |r| == |name| + |addr| + 3 * |payload| + 4
    ensures r[0] == '{' && r[|r| - 2..] == "}\n"
  {
    HyphenatedShape(payload);
    "{" + name + "," + addr + "," + Hyphenated(payload) + "}\n"
  }

  /** send_value: the service data converted into a DATA_LEN * 3 buffer, which 29 bytes always
      fit, and printed with the name and address. */
  method SendValue(name: string, addr: string, svc: ServiceData) returns (line: string)
    requires svc.data.Length == DataLen && 1 <= svc.len <= DataLen - 1
    ensures line == ConsoleLine(name, addr, svc.data[..svc.len])
  {
    var data := new char[TextLen](_ => '\0');
    var r := ConvertArray(svc.data[..], svc.len, data);
    assert svc.data[..][..svc.len] == svc.data[..svc.len];
    HyphenatedShape(svc.data[..svc.len]);
    CStringTerminated(Hyphenated(svc.data[..svc.len]), ['\0'] + data[3 * svc.len + 1..]);
    assert data[..] == Hyphenated(svc.data[..svc.len]) + ['\0'] + (['\0'] + data[3 * svc.len + 1..]);
    line := "{" + name + "," + addr + "," + CString(data[..]) + "}\n";
  }

  /** What scan_recv prints for an advertisement: nothing unless it has a name field whose
      copied text is not empty and a 16-bit service-data field with at least one byte;
      otherwise the console line of that name, the address and the copied service data. */
  function ScanLine(fields: seq<AdField>, addr: string): (r: Option<string>)
    ensures r.Some? ==> FirstOfType(fields, NameTypes).Some? && FirstOfType(fields, {SvcData16}).Some?
    ensures r.Some? ==> |r.value| >= 2 && r.value[0] == '{' && r.value[|r.value| - 1] == '\n'
  {
    match FirstOfType(fields, NameTypes)
    case None => None
    case Some(i) =>
      var name := CString(Chars(fields[i].data[..Min(|fields[i].data|, NameLen - 1)]));
      if name == [] then None
      else match FirstOfType(fields, {SvcData16})
        case None => None
        case Some(j) =>
          var payload := fields[j].data[..Min(|fields[j].data|, DataLen - 1)];
          if |payload| == 0 then None else Some(ConsoleLine(name, addr, payload))
  }

  /** scan_recv, with the device address given in printed form. */
  method ScanRecv(fields: seq<AdField>, addr: string) returns (line: Option<string>)
    ensures line == ScanLine(fields, addr)
  {
    var name := new char[NameLen](_ => '\0');
    ghost var zeros := name[..];
    ParseName(fields, name);
    NameBuffer(fields, zeros, name[..]);
    if name[0] == '\0' {
      return None;
    }
    var svc := new ServiceData();
    ParseService(fields, svc);
    if svc.len < 1 {
      return None;
    }
    ServiceBuffer(fields, svc.len, svc.data[..]);
    var s := SendValue(CString(name[..]), addr, svc);
    return Some(s);
  }

  /** What the name buffer tells scan_recv: its first byte is NUL exactly when the line has no
      name, and otherwise it holds that name. */
  lemma NameBuffer(fields: seq<AdField>, zeros: string, name: string)
    requires zeros == seq(NameLen, _ => '\0')
    requires FirstOfType(fields, NameTypes).None? ==> name == zeros
    requires FirstOfType(fields, NameTypes).Some? ==>
      name == CopiedName(fields[FirstOfType(fields, NameTypes).value], zeros)
    ensures |name| == NameLen
    ensures FirstOfType(fields, NameTypes).None? ==> name[0] == '\0'
    ensures FirstOfType(fields, NameTypes).Some? ==>
      var f := fields[FirstOfType(fields, NameTypes).value];
      var text := CString(Chars(f.data[..Min(|f.data|, NameLen - 1)]));
      CString(name) == text && (name[0] == '\0' <==> text == [])
  {
    if FirstOfType(fields, NameTypes).Some? {
      var f := fields[FirstOfType(fields, NameTypes).value];
      var len := Min(|f.data|, NameLen - 1);
      CStringTerminated(Chars(f.data[..len]), zeros[len + 1..]);
    }
  }

  /** What the service-data buffer tells scan_recv once its length is positive. */
  lemma ServiceBuffer(fields: seq<AdField>, len: Byte, data: seq<Byte>)
    requires len >= 1
    requires FirstOfType(fields, {SvcData16}).None? ==> len == 0
    requires FirstOfType(fields, {SvcData16}).Some? ==>
      var f := fields[FirstOfType(fields, {SvcData16}).value];
      len == Min(|f.data|, DataLen - 1) && |data| == DataLen && data == CopiedService(f, seq(DataLen, _ => 0))
    ensures FirstOfType(fields, {SvcData16}).Some?
    ensures var f := fields[FirstOfType(fields, {SvcData16}).value];
      len <= DataLen - 1 && data[..len] == f.data[..Min(|f.data|, DataLen - 1)]
  {
  }
}
