/**
 * The receiver's cloud side (main.py): every forwarded device's data queue is read as
 * (tag, whole, hundredths) triples into a table of six readings that start at 99.99,
 * and one document update publishes the six readings and the id under the device's
 * index; log messages are appended to the log document with their date. The cloud
 * object is a class recording the updates it was sent; dates are parameters.
 */
module SerreMain {
  import opened SerreDevice

  const TempTag := 1
  const HumTag := 2
  const LumTag := 3
  const GndTempTag := 4
  const GndHumTag := 5
  const BatTag := 254

  /** The value a reading keeps when the device did not send it. */
  const Missing: real := 99.99

  const Defaults: map<int, real> :=
    map[TempTag := Missing, HumTag := Missing, LumTag := Missing, GndTempTag := Missing,
        GndHumTag := Missing, BatTag := Missing]

  datatype LogEntry = LogEntry(date: string, text: string)

  /** A value of a published document field. */
  datatype DocValue = Number(r: real) | Id(i: int) | Logs(entries: seq<LogEntry>)

  /** The table after the loop of send_data has consumed the items: each complete triple sets
      the reading of its tag to whole + hundredths / 100; a shorter tail is left in the
      queue. */
  function Decoded(table: map<int, real>, items: seq<int>): (r: map<int, real>)
    ensures table.Keys <= r.Keys
    decreases |items|
  {
    if |items| < 3 then table
    else Decoded(table[items[0] := items[1] as real + items[2] as real / 100.0], items[3..])
  }

  /** A tag that heads no triple keeps its value. */
  lemma {:induction false} DecodedKeeps(table: map<int, real>, items: seq<int>, tag: int)
    requires tag in table
    requires forall j :: 0 <= j < |items| / 3 ==> items[3 * j] != tag
    ensures Decoded(table, items)[tag] == table[tag]
    decreases |items|
  {
    if |items| >= 3 {
      assert items[3 * 0] != tag;
      forall j | 0 <= j < |items[3..]| / 3
        ensures items[3..][3 * j] != tag
      {
        assert items[3..][3 * j] == items[3 * (j + 1)];
      }
      DecodedKeeps(table[items[0] := items[1] as real + items[2] as real / 100.0], items[3..], tag);
    }
  }

  /** The triples are consumed front to back: decoding a concatenation whose first part is
      whole triples decodes the parts in turn. */
  lemma {:induction false} DecodedAppend(table: map<int, real>, a: seq<int>, b: seq<int>)
    requires |a| % 3 == 0
    ensures Decoded(table, a + b) == Decoded(Decoded(table, a), b)
    decreases |a|
  {
    if |a| == 0 {
      assert a + b == b;
    } else {
      assert (a + b)[3..] == a[3..] + b;
      assert (a + b)[0] == a[0] && (a + b)[1] == a[1] && (a + b)[2] == a[2];
      DecodedAppend(table[a[0] := a[1] as real + a[2] as real / 100.0], a[3..], b);
    }
  }

  /** A tail shorter than a triple is ignored. */
  lemma {:induction false} DecodedIgnoresTail(table: map<int, real>, items: seq<int>)
    ensures Decoded(table, items) == Decoded(table, items[..|items| - |items| % 3])
    decreases |items|
  {
    if |items| >= 3 {
      var rest := items[3..];
      DecodedIgnoresTail(table[items[0] := items[1] as real + items[2] as real / 100.0], rest);
      var cut := items[..|items| - |items| % 3];
      assert cut[3..] == rest[..|rest| - |rest| % 3];
    }
  }

  /** The fields publishing one device: its six readings and its id under /doc/<index>. */
  function Doc(index: char, table: map<int, real>, id: int): map<string, DocValue>
    requires Defaults.Keys <= table.Keys
  {
    var path := "/doc/" + [index];
    map[path + "/humidity" := Number(table[HumTag]),
        path + "/temperature" := Number(table[TempTag]),
        path + "/luminosite" := Number(table[LumTag]),
        path + "/gnd_temperature" := Number(table[GndTempTag]),
        path + "/gnd_humidity" := Number(table[GndHumTag]),
        path + "/batterie" := Number(table[BatTag]),
        path + "/id" := Id(id)]
  }

  /** The seven fields are distinct, so each carries its own reading. */
  lemma DocFields(index: char, table: map<int, real>, id: int)
    requires Defaults.Keys <= table.Keys
    ensures var path := "/doc/" + [index];
      var doc := Doc(index, table, id);
      && doc[path + "/humidity"] == Number(table[HumTag])
      && doc[path + "/temperature"] == Number(table[TempTag])
      && doc[path + "/luminosite"] == Number(table[LumTag])
      && doc[path + "/gnd_temperature"] == Number(table[GndTempTag])
      && doc[path + "/gnd_humidity"] == Number(table[GndHumTag])
      && doc[path + "/batterie"] == Number(table[BatTag])
      && doc[path + "/id"] == Id(id)
  {
    var path := "/doc/" + [index];
    var doc := Doc(index, table, id);
    assert doc[path + "/humidity"] == Number(table[HumTag]) by {
      Differ(path, "/humidity", "/temperature", 1);
      Differ(path, "/humidity", "/luminosite", 1);
      Differ(path, "/humidity", "/gnd_temperature", 1);
      Differ(path, "/humidity", "/gnd_humidity", 1);
      Differ(path, "/humidity", "/batterie", 1);
      Differ(path, "/humidity", "/id", 1);
    }
    assert doc[path + "/temperature"] == Number(table[TempTag]) by {
      Differ(path, "/temperature", "/luminosite", 1);
      Differ(path, "/temperature", "/gnd_temperature", 1);
      Differ(path, "/temperature", "/gnd_humidity", 1);
      Differ(path, "/temperature", "/batterie", 1);
      Differ(path, "/temperature", "/id", 1);
    }
    assert doc[path + "/luminosite"] == Number(table[LumTag]) by {
      Differ(path, "/luminosite", "/gnd_temperature", 1);
      Differ(path, "/luminosite", "/gnd_humidity", 1);
      Differ(path, "/luminosite", "/batterie", 1);
      Differ(path, "/luminosite", "/id", 1);
    }
    assert doc[path + "/gnd_temperature"] == Number(table[GndTempTag]) by {
      Differ(path, "/gnd_temperature", "/gnd_humidity", 5);
      Differ(path, "/gnd_temperature", "/batterie", 1);
      Differ(path, "/gnd_temperature", "/id", 1);
    }
    assert doc[path + "/gnd_humidity"] == Number(table[GndHumTag]) by {
      Differ(path, "/gnd_humidity", "/batterie", 1);
      Differ(path, "/gnd_humidity", "/id", 1);
    }
    assert doc[path + "/batterie"] == Number(table[BatTag]) by {
      Differ(path, "/batterie", "/id", 1);
    }
    assert doc[path + "/id"] == Id(id);
  }

  /** Two field names under the same path differ when their suffixes differ at some
      position. */
  lemma Differ(path: string, x: string, y: string, k: nat)
    requires k < |x| && k < |y| && x[k] != y[k]
    ensures path + x != path + y
  {
    assert (path + x)[|path| + k] == x[k];
    assert (path + y)[|path| + k] == y[k];
  }

  /** The aliot object: the log document and every update sent to it, in order. */
  class Cloud {
    var logs: seq<LogEntry>
    var updates: seq<map<string, DocValue>>

    constructor ()
      ensures logs == [] && updates == []
    {
      logs := [];
      updates := [];
    }

    /** update_doc */
    method UpdateDoc(fields: map<string, DocValue>)
      modifies this`updates
      ensures updates == old(updates) + [fields]
    {
      updates := updates + [fields];
    }

    /** send_logs: the message, dated, appended to the log document, which is sent back whole. */
    method SendLogs(msg: string, date: string)
      modifies this
      ensures logs == old(logs) + [LogEntry(date, msg)]
      ensures updates == old(updates) + [map["/doc/logs" := Logs(logs)]]
    {
      var entries := logs;
      entries := entries + [LogEntry(date, msg)];
      logs := entries;
      UpdateDoc(map["/doc/logs" := Logs(entries)]);
    }
  }

  /** The data queue of a device as getDataQueue gives it. */
  function QueueOf(values: seq<int>): seq<int>
  {
    if |values| <= 2 then [] else values[2..]
  }

  /** send_data, for the devices the reader forwards (whose data list has been read as
      integers): the readings decoded from the data queue, starting from the defaults,
      published with the id. */
  method SendData(cloud: Cloud, device: Device)
    requires device.data.Values?
    modifies cloud`updates
    ensures cloud.updates == old(cloud.updates) + [Doc(device.index, Decoded(Defaults, QueueOf(device.data.values)), device.id)]
  {
    var sensorsValues := Defaults;
    var dataQueue := GetDataQueue(device.data.values);
    while dataQueue != [] && |dataQueue| >= 3
      invariant Decoded(sensorsValues, dataQueue) == Decoded(Defaults, QueueOf(device.data.values))
      decreases |dataQueue|
    {
      var valId := dataQueue[0];
      var wholeVal := dataQueue[1];
      var decimalVal := dataQueue[2];
      dataQueue := dataQueue[3..];
      sensorsValues := sensorsValues[valId := wholeVal as real + decimalVal as real / 100.0];
    }
    cloud.UpdateDoc(Doc(device.index, sensorsValues, device.id));
  }
}
