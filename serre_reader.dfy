/**
 * The receiver's serial reader (reader.py). Two threads share a FIFO of lines: the
 * reading thread forwards log lines, drops lines that are not of the form
 * "{name,addr,data}" and queues the others; the parsing thread takes the oldest line,
 * builds a Device from it and hands it to the data callback when it is the first from
 * its address or its id moved forward (or jumped by more than 5). The callbacks are
 * recorded as the sequences of values they were given; each thread turn is one method.
 */
module SerreReader {
  import opened Wrappers
  import opened PyStr
  import opened SerreDevice

  /** No comma and no brace. */
  predicate Plain(s: string)
  {
    ',' !in s && '{' !in s && '}' !in s
  }

  /** __is_valid: the message logged by the first check the line fails, None when it passes
      all three (braces at both ends, at most one of each, exactly two commas). */
  function ValidationError(data: string): (r: Option<string>)
    requires |data| >= 1
    ensures r.Some? ==> |r.value| >= |data| + 8 && r.value[..8] == "[Error] " && r.value[|r.value| - |data|..] == data
  {
    if data[0] != '{' || data[|data| - 1] != '}' then
      ErrorMessageEnds("The data is not in the right format for line: ", data);
      Some("[Error] " + "The data is not in the right format for line: " + data)
    else if Count(data, '{') > 1 || Count(data, '}') > 1 then
      ErrorMessageEnds("There is more than one {} in the data for line: ", data);
      Some("[Error] " + "There is more than one {} in the data for line: " + data)
    else if Count(data, ',') != 2 then
      ErrorMessageEnds("There is not the right amount of commas for line: ", data);
      Some("[Error] " + "There is not the right amount of commas for line: " + data)
    else None
  }

  /** A logged message is "[Error] ", its reason, then the offending line. */
  lemma ErrorMessageEnds(reason: string, data: string)
    ensures var m := "[Error] " + reason + data;
      |m| >= |data| + 8 && m[..8] == "[Error] " && m[|m| - |data|..] == data
  {
    var m := "[Error] " + reason + data;
    assert m[..8] == "[Error] ";
    assert m[8 + |reason|..] == data;
  }

  predicate IsValid(data: string)
    requires |data| >= 1
  {
    ValidationError(data).None?
  }

  /** The occurrences of a character in a framed line: those of the brackets, the two commas
      and the three fields. */
  lemma CountFramed(name: string, addr: string, payload: string, c: char)
    ensures Count("{" + name + "," + addr + "," + payload + "}", c)
      == Count("{", c) + Count(name, c) + 2 * Count(",", c) + Count(addr, c) + Count(payload, c) + Count("}", c)
  {
    CountConcat("{" + name + "," + addr + "," + payload, "}", c);
    CountConcat("{" + name + "," + addr + ",", payload, c);
    CountConcat("{" + name + "," + addr, ",", c);
    CountConcat("{" + name + ",", addr, c);
    CountConcat("{" + name, ",", c);
    CountConcat("{", name, c);
  }

  lemma CountPlain(s: string)
    requires Plain(s)
    ensures Count(s, '{') == 0 && Count(s, '}') == 0 && Count(s, ',') == 0
  {
    CountAbsent(s, '{');
    CountAbsent(s, '}');
    CountAbsent(s, ',');
  }

  /** Every line "{name,addr,data}" whose three fields hold no comma or brace passes. */
  lemma ValidWhenFramed(name: string, addr: string, payload: string)
    requires Plain(name) && Plain(addr) && Plain(payload)
    ensures IsValid("{" + name + "," + addr + "," + payload + "}")
  {
    CountPlain(name);
    CountPlain(addr);
    CountPlain(payload);
    CountFramed(name, addr, payload, '{');
    CountFramed(name, addr, payload, '}');
    CountFramed(name, addr, payload, ',');
  }

  /** Every line that passes is such a line: the text between the braces splits into three
      fields without commas or braces. */
  lemma FramedWhenValid(data: string)
    requires |data| >= 1 && IsValid(data)
    ensures |data| >= 2
    ensures var parts := Split(data[1..|data| - 1], ',');
      && |parts| == 3 && Plain(parts[0]) && Plain(parts[1]) && Plain(parts[2])
      && data == "{" + parts[0] + "," + parts[1] + "," + parts[2] + "}"
  {
    ValidInner(data);
    var inner := data[1..|data| - 1];
    SplitCount(inner, ',');
    JoinSplit(inner, ',');
    FramedParts(data, inner, Split(inner, ','));
  }

  /** The three pieces between the braces, put back together. */
  lemma FramedParts(data: string, inner: string, parts: seq<string>)
    requires '{' !in inner && '}' !in inner && data == "{" + inner + "}"
    requires |parts| == 3 && Join(parts, ',') == inner
    requires forall i :: 0 <= i < |parts| ==> ',' !in parts[i]
    ensures Plain(parts[0]) && Plain(parts[1]) && Plain(parts[2])
    ensures data == "{" + parts[0] + "," + parts[1] + "," + parts[2] + "}"
  {
    Join3(parts, ',');
    BracesInPieces(inner, parts);
  }

  /** Between the braces of a line that passes there is no brace and there are two commas. */
  lemma ValidInner(data: string)
    requires |data| >= 1 && IsValid(data)
    ensures |data| >= 2
    ensures var inner := data[1..|data| - 1];
      '{' !in inner && '}' !in inner && Count(inner, ',') == 2 && data == "{" + inner + "}"
  {
    if |data| == 1 {
      assert false;
    }
    var inner := data[1..|data| - 1];
    assert data == "{" + inner + "}";
    CountConcat("{" + inner, "}", '{');
    CountConcat("{", inner, '{');
    CountConcat("{" + inner, "}", '}');
    CountConcat("{", inner, '}');
    CountConcat("{" + inner, "}", ',');
    CountConcat("{", inner, ',');
    CountAbsent(inner, '{');
    CountAbsent(inner, '}');
  }

  lemma Join3(parts: seq<string>, c: char)
    requires |parts| == 3
    ensures Join(parts, c) == parts[0] + [c] + (parts[1] + [c] + parts[2])
  {
    assert parts[1..][1..] == [parts[2]];
    assert Join(parts[1..], c) == parts[1] + [c] + Join(parts[1..][1..], c);
  }

  /** The pieces of a split keep no character the whole string lacks. */
  lemma BracesInPieces(inner: string, parts: seq<string>)
    requires '{' !in inner && '}' !in inner && |parts| == 3
    requires inner == parts[0] + [','] + (parts[1] + [','] + parts[2])
    requires forall i :: 0 <= i < 3 ==> ',' !in parts[i]
    ensures Plain(parts[0]) && Plain(parts[1]) && Plain(parts[2])
  {
    assert forall i :: 0 <= i < |parts[0]| ==> parts[0][i] == inner[i];
    assert forall i :: 0 <= i < |parts[1]| ==> parts[1][i] == inner[|parts[0]| + 1 + i];
    assert forall i :: 0 <= i < |parts[2]| ==> parts[2][i] == inner[|parts[0]| + |parts[1]| + 2 + i];
  }

  /** The deduplication rule: a new id is forwarded when it is larger than the stored one or
      more than 5 away from it. */
  predicate Accepts(newId: int, storedId: int)
  {
    newId > storedId || (if newId >= storedId then newId - storedId else storedId - newId) > 5
  }

  /** The rule rejects exactly the ids from five below the stored one up to the stored one. */
  lemma AcceptsIff(newId: int, storedId: int)
    ensures !Accepts(newId, storedId) <==> storedId - 5 <= newId <= storedId
  {
  }

  /** The broadcaster's counter is sent modulo 256; its next value is always accepted, also
      when it wraps from 255 to 0. */
  lemma NextCounterAccepted(counter: int)
    ensures Accepts((counter + 1) % 256, counter % 256)
  {
  }

  /** What the parsing thread has done so far: the last device kept per address, the devices
      given to the data callback and the messages given to the log callback, in order, and
      whether the thread is still running. */
  datatype ParserState = ParserState(devices: map<string, Device>, forwarded: seq<Device>,
                                     logs: seq<string>, alive: bool)

  /** One turn of the parsing thread on the oldest queued line. An exception from Device ends
      the thread. */
  function Step(s: ParserState, parsed: Parsed, line: string): (r: ParserState)
    ensures r.alive == (s.alive && parsed.Parsed?)
    ensures s.forwarded <= r.forwarded && |r.forwarded| <= |s.forwarded| + 1
    ensures |r.forwarded| > |s.forwarded| ==>
      parsed.Parsed? && parsed.device.id != -1 && r.forwarded[|s.forwarded|] == parsed.device
      && r.devices == s.devices[parsed.device.addr := parsed.device]
    ensures |r.forwarded| == |s.forwarded| ==> r.devices == s.devices
  {
    match parsed
    case Raised(_) => s.(alive := false)
    case Parsed(d) =>
      if d.id == -1 then s.(logs := s.logs + ["[Error] The device is not valid for line: " + line])
      else if d.addr !in s.devices || Accepts(d.id, s.devices[d.addr].id) then
        s.(devices := s.devices[d.addr := d], forwarded := s.forwarded + [d])
      else s
  }

  /** The last device forwarded for an address. */
  function LastFrom(forwarded: seq<Device>, addr: string): (r: Option<Device>)
    ensures r.Some? ==> r.value in forwarded && r.value.addr == addr
    ensures r.None? ==> forall i :: 0 <= i < |forwarded| ==> forwarded[i].addr != addr
    decreases |forwarded|
  {
    if |forwarded| == 0 then None
    else if forwarded[|forwarded| - 1].addr == addr then Some(forwarded[|forwarded| - 1])
    else LastFrom(forwarded[..|forwarded| - 1], addr)
  }

  /** The invariant the parsing thread keeps: the devices it stores are exactly the last ones it
      forwarded from each address, and each has a valid id. */
  ghost predicate Consistent(s: ParserState)
  {
    && (forall a :: a in s.devices <==> LastFrom(s.forwarded, a).Some?)
    && (forall a :: a in s.devices ==> s.devices[a] == LastFrom(s.forwarded, a).value && s.devices[a].id != -1)
  }

  lemma StepConsistent(s: ParserState, parsed: Parsed, line: string)
    requires Consistent(s)
    ensures Consistent(Step(s, parsed, line))
  {
    if parsed.Parsed? && parsed.device.id != -1 {
      var d := parsed.device;
      if d.addr !in s.devices || Accepts(d.id, s.devices[d.addr].id) {
        ForwardConsistent(s, d);
      }
    }
  }

  /** Forwarding a device with a valid id and storing it under its address keeps the
      invariant. */
  lemma ForwardConsistent(s: ParserState, d: Device)
    requires Consistent(s) && d.id != -1
    ensures Consistent(s.(devices := s.devices[d.addr := d], forwarded := s.forwarded + [d]))
  {
    var f := s.forwarded + [d];
    assert f[..|f| - 1] == s.forwarded;
    assert forall a :: LastFrom(f, a) == if a == d.addr then Some(d) else LastFrom(s.forwarded, a);
  }

  /** The same line taken twice in a row is forwarded at most once: the scanner reports a
      burst's frame many times, and only the first copy reaches the data callback. */
  lemma RepeatedLineForwardedOnce(s: ParserState, parsed: Parsed, line: string)
    ensures Step(Step(s, parsed, line), parsed, line).forwarded == Step(s, parsed, line).forwarded
    ensures Step(Step(s, parsed, line), parsed, line).devices == Step(s, parsed, line).devices
  {
    var t := Step(s, parsed, line);
    if parsed.Parsed? && t.forwarded != s.forwarded {
      var d := parsed.device;
      assert t.devices[d.addr] == d;
      assert !Accepts(d.id, d.id);
    }
  }

  /** What the reading thread does with one received line: an empty line is ignored, a log
      line (starting with '[') goes to the log callback, an invalid one is dropped after its
      message is logged, and the rest is queued. */
  function ReadLogs(line: string): seq<string>
  {
    if line == [] then []
    else if line[0] == '[' then [line]
    else match ValidationError(line)
      case Some(m) => [m]
      case None => []
  }

  predicate Queued(line: string)
  {
    line != [] && line[0] != '[' && IsValid(line)
  }

  /** A queued line is always one of the form "{name,addr,data}", and a log line is never
      queued. */
  lemma QueuedLinesAreFramed(line: string)
    requires Queued(line)
    ensures line[0] == '{' && line[|line| - 1] == '}'
    ensures |Split(line[1..|line| - 1], ',')| == 3
  {
    FramedWhenValid(line);
  }

  class Reader {
    var inputBuffer: seq<string>
    var devices: map<string, Device>
    var forwarded: seq<Device>
    var logs: seq<string>
    var parserAlive: bool

    function State(): ParserState
      reads this
    {
      ParserState(devices, forwarded, logs, parserAlive)
    }

    /** Reader.__init__: an empty buffer and device table, both threads started. */
    constructor ()
      ensures inputBuffer == [] && devices == map[] && forwarded == [] && logs == [] && parserAlive
      ensures Consistent(State())
    {
      inputBuffer := [];
      devices := map[];
      forwarded := [];
      logs := [];
      parserAlive := true;
    }

    /** One turn of __read on a line already read, decoded, right-stripped and cleaned. */
    method Read(line: string)
      modifies this`inputBuffer, this`logs
      ensures inputBuffer == old(inputBuffer) + (if Queued(line) then [line] else [])
      ensures logs == old(logs) + ReadLogs(line)
    {
      if line == "" {
        return;
      }
      if line[0] == '[' {
        logs := logs + [line];
        return;
      }
      var error := ValidationError(line);
      if error.Some? {
        logs := logs + [error.value];
        return;
      }
      inputBuffer := inputBuffer + [line];
    }

    /** One turn of __input_buffer_parser: nothing while the buffer is empty or after the thread
        has died; otherwise the oldest line is taken and Step applied to it. */
    method ParseNext()
      modifies this
      ensures !old(parserAlive) || old(inputBuffer) == [] ==>
        inputBuffer == old(inputBuffer) && State() == old(State())
      ensures old(parserAlive) && old(inputBuffer) != [] ==>
        inputBuffer == old(inputBuffer[1..]) && State() == Step(old(State()), FromLine(old(inputBuffer[0])), old(inputBuffer[0]))
    {
      if !parserAlive || inputBuffer == [] {
        return;
      }
      var line := inputBuffer[0];
      inputBuffer := inputBuffer[1..];
      var parsed := FromLine(line);
      if parsed.Raised? {
        parserAlive := false;
        return;
      }
      var device := parsed.device;
      if device.id == -1 {
        logs := logs + ["[Error] The device is not valid for line: " + line];
        return;
      }
      if device.addr !in devices {
        devices := devices[device.addr := device];
        forwarded := forwarded + [device];
        return;
      }
      if device.id > devices[device.addr].id || Abs(device.id - devices[device.addr].id) > 5 {
        forwarded := forwarded + [device];
        devices := devices[device.addr := device];
      }
    }
  }

  function Abs(x: int): (r: nat)
    ensures r == x || r == -x
  {
    if x >= 0 then x else -x
  }
}
