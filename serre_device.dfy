/**
 * The receiver's Device (device.py): one console line "{name,addr,hh-hh-...}" parsed
 * into a name, an address, the service-data bytes and the advertising counter ("id"),
 * which stays -1 when the line does not carry the greenhouse service. The exceptions
 * Python raises on the way are a result of the parse.
 */
module SerreDevice {
  import opened Wrappers
  import opened PyStr

  datatype PyError = IndexError | ValueError

  /** The data list: the hyphen-separated tokens as long as the service check has not
      passed, the integers read from them after it. */
  datatype Data = Tokens(tokens: seq<string>) | Values(values: seq<int>)

  datatype Device = Device(name: string, addr: string, data: Data, id: int, index: char)

  /** Device(line): the object, or the exception the constructor raises. */
  datatype Parsed = Parsed(device: Device) | Raised(error: PyError)

  const Braces: set<char> := {'{', '}'}

  /** [int(d, 16) for d in tokens], None for the ValueError of the first token that is not
      hexadecimal. */
  function ParseAll(tokens: seq<string>): (r: Option<seq<nat>>)
    ensures r.Some? ==> |r.value| == |tokens| && forall i :: 0 <= i < |tokens| ==> ParseHex(tokens[i]) == Some(r.value[i])
    ensures r.None? ==> exists i :: 0 <= i < |tokens| && ParseHex(tokens[i]).None?
    decreases |tokens|
  {
    if |tokens| == 0 then Some([])
    else match (ParseHex(tokens[0]), ParseAll(tokens[1..]))
      case (Some(v), Some(vs)) => Some([v] + vs)
      case (None, _) => None
      case (_, None) => assert ParseAll(tokens[1..]).None?; None
  }

  /** Device.__init__: braces stripped from both ends, the comma fields taken as name,
      address and data, the index is the last character of the name; the id is set only when
      the data starts with the service UUID ab-cd followed by a 0 byte, and is then the byte
      after it. Too few fields, an empty name and too short a data list raise IndexError, a
      token that is not hexadecimal raises ValueError. */
  function FromLine(line: string): Parsed
  {
    var val := Split(Strip(line, Braces), ',');
    if |val| < 3 then Raised(IndexError)
    else
      var name := val[0];
      var addr := val[1];
      var tokens := Split(val[2], '-');
      if |name| == 0 then Raised(IndexError)
      else
        var index := name[|name| - 1];
        if !(|tokens| >= 2 && tokens[0] == "ab" && tokens[1] == "cd") then
          Parsed(Device(name, addr, Tokens(tokens), -1, index))
        else match ParseAll(tokens[2..])
          case None => Raised(ValueError)
          case Some(values) =>
            if |values| == 0 then Raised(IndexError)
            else if values[0] != 0 then Parsed(Device(name, addr, Values(values), -1, index))
            else if |values| < 2 then Raised(IndexError)
            else Parsed(Device(name, addr, Values(values), values[1], index))
  }

  /** What a parsed device always satisfies: its name is non-empty and ends with its index,
      neither name nor address holds a comma, and its id is either -1 or the byte after the 0
      marker of a data list read from hexadecimal. */
  lemma ParsedDevice(line: string)
    requires FromLine(line).Parsed?
    ensures var d := FromLine(line).device;
      && |d.name| > 0 && d.index == d.name[|d.name| - 1]
      && ',' !in d.name && ',' !in d.addr
      && (d.id == -1 || (d.data.Values? && |d.data.values| >= 2 && d.data.values[0] == 0 && d.id == d.data.values[1] >= 0))
  {
  }

  /** The id is set exactly when the third field starts with ab-cd, every further token is
      hexadecimal, and the first of them reads 0 and has a successor. */
  lemma {:induction false} IdSetIff(line: string)
    requires FromLine(line).Parsed?
    ensures var val := Split(Strip(line, Braces), ',');
      var tokens := Split(val[2], '-');
      FromLine(line).device.id != -1 <==>
        && |tokens| >= 4 && tokens[0] == "ab" && tokens[1] == "cd"
        && (forall i :: 2 <= i < |tokens| ==> ParseHex(tokens[i]).Some?)
        && ParseHex(tokens[2]) == Some(0)
  {
    var val := Split(Strip(line, Braces), ',');
    var tokens := Split(val[2], '-');
    if |tokens| >= 2 && tokens[0] == "ab" && tokens[1] == "cd" {
      var rest := tokens[2..];
      assert forall i :: 2 <= i < |tokens| ==> tokens[i] == rest[i - 2];
    }
  }

  /** A line whose third field is ab-cd followed by hexadecimal tokens reading 0 and then a
      byte gives a device holding the values read, with that byte as id. */
  lemma FromServiceFields(line: string, name: string, addr: string, text: string, values: seq<nat>)
    requires Split(Strip(line, Braces), ',') == [name, addr, text] && |name| >= 1
    requires var tokens := Split(text, '-');
      |tokens| >= 2 && tokens[0] == "ab" && tokens[1] == "cd" && ParseAll(tokens[2..]) == Some(values)
    requires |values| >= 2 && values[0] == 0
    ensures FromLine(line) == Parsed(Device(name, addr, Values(values), values[1], name[|name| - 1]))
  {
  }

  /** getDataQueue: the data after the 0 marker and the id, in order, or nothing when the
      list has at most two elements. */
  method GetDataQueue<T>(data: seq<T>) returns (queue: seq<T>)
    ensures |data| <= 2 ==> queue == []
    ensures |data| > 2 ==> queue == data[2..]
  {
    queue := [];
    if |data| <= 2 {
      return;
    }
    var i := 2;
    while i < |data|
      invariant 2 <= i <= |data|
      invariant queue == data[2..i]
    {
      queue := queue + [data[i]];
      i := i + 1;
    }
    assert data[2..i] == data[2..];
  }

  /** Any Python value __eq__ may be handed; the builtin class `object` is not a Device. */
  datatype PyValue = DeviceValue(device: Device) | ObjectClass | OtherValue

  /** Device.__eq__ as written: it asks whether the builtin `object` is a Device, which it
      never is, so it answers False whatever it is compared with. */
  function EqAsWritten(self: Device, other: PyValue): bool
  {
    var checked := ObjectClass;
    if !checked.DeviceValue? then false
    else self.addr == checked.device.addr && self.name == checked.device.name
  }

  /** As written, a device is not even equal to itself. */
  lemma EqAsWrittenNeverHolds(d: Device, other: PyValue)
    ensures !EqAsWritten(d, other)
    ensures !EqAsWritten(d, DeviceValue(d))
  {
  }

  /** Device.__eq__ as its doc string describes it: the other value is a Device with the same
      address and name. */
  function Eq(self: Device, other: PyValue): (r: bool)
    ensures r ==> other.DeviceValue?
  {
    other.DeviceValue? && self.addr == other.device.addr && self.name == other.device.name
  }

  /** The intended comparison is an equivalence on devices and ignores the data and the id. */
  lemma EqIsEquivalence(a: Device, b: Device, c: Device)
    ensures Eq(a, DeviceValue(a))
    ensures Eq(a, DeviceValue(b)) <==> Eq(b, DeviceValue(a))
    ensures Eq(a, DeviceValue(b)) && Eq(b, DeviceValue(c)) ==> Eq(a, DeviceValue(c))
    ensures Eq(a, DeviceValue(b)) <==> a.addr == b.addr && a.name == b.name
  {
  }
}
