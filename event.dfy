/**
 * The telemetry event assembled in the callback of `pollLocalServer`
 * (src/TelemetryManager.cpp), as a JSON tree. Compact serialisation, key
 * order in the output bytes and number formatting are not part of the tree.
 */
module Event {
  import opened Wrappers
  import opened Xml

  datatype Json = JString(str: string) | JNumber(num: Num) | JObject(fields: map<string, Json>)

  /** The value stored under `key`, when `j` is an object that has it. */
  function Get(j: Json, key: string): Option<Json>
  {
    if j.JObject? && key in j.fields then Some(j.fields[key]) else None
  }

  /** The keys of an object; a string or a number has none. */
  function Keys(j: Json): set<string>
  {
    if j.JObject? then j.fields.Keys else {}
  }

  /** The value reached by following `path` from `j`. */
  function At(j: Json, path: seq<string>): Option<Json>
    decreases |path|
  {
    if path == [] then Some(j)
    else match Get(j, path[0])
      case None => None
      case Some(c) => At(c, path[1..])
  }

  /** The event assembled for one sample: identity, wall-clock timestamp and the two values. */
  function TelemetryEvent(uuid: string, flightId: string, timestamp: string, s: Sample): (r: Json)
    ensures r.JObject? && Keys(r) == {"uuid", "mission", "current_state"}
    ensures Get(r, "uuid") == Some(JString(uuid))
  {
    var mission := JObject(map["flight_id" := JString(flightId)]);
    var uas := JObject(map["altitude_abs" := JNumber(s.altitude)]);
    var attitude := JObject(map["roll" := JNumber(s.roll)]);
    var state := JObject(map["timestamp" := JString(timestamp), "uas" := uas, "attitude" := attitude]);
    JObject(map["uuid" := JString(uuid), "mission" := mission, "current_state" := state])
  }

  /** The five leaves a collector reads back from an event. */
  datatype Fields = Fields(uuid: string, flightId: string, timestamp: string, altitude: Num, roll: Num)

  function StringAt(j: Json, path: seq<string>): Option<string>
  {
    match At(j, path)
    case Some(JString(s)) => Some(s)
    case _ => None
  }

  function NumberAt(j: Json, path: seq<string>): Option<Num>
  {
    match At(j, path)
    case Some(JNumber(n)) => Some(n)
    case _ => None
  }

  /** Reads an event by the external field names; None when any leaf is missing or of the wrong kind. */
  function ReadEvent(j: Json): Option<Fields>
  {
    var u := StringAt(j, ["uuid"]);
    var f := StringAt(j, ["mission", "flight_id"]);
    var t := StringAt(j, ["current_state", "timestamp"]);
    var a := NumberAt(j, ["current_state", "uas", "altitude_abs"]);
    var r := NumberAt(j, ["current_state", "attitude", "roll"]);
    if u.Some? && f.Some? && t.Some? && a.Some? && r.Some?
    then Some(Fields(u.value, f.value, t.value, a.value, r.value))
    else None
  }

  /**
   * The event has exactly the documented nesting: three top-level keys,
   * `mission` = {flight_id}, `current_state` = {timestamp, uas, attitude},
   * `uas` = {altitude_abs}, `attitude` = {roll}.
   */
  lemma EventShape(uuid: string, flightId: string, timestamp: string, s: Sample)
    ensures var e := TelemetryEvent(uuid, flightId, timestamp, s);
      Keys(e) == {"uuid", "mission", "current_state"} &&
      At(e, ["mission"]).Some? && Keys(At(e, ["mission"]).value) == {"flight_id"} &&
      At(e, ["current_state"]).Some? &&
      Keys(At(e, ["current_state"]).value) == {"timestamp", "uas", "attitude"} &&
      At(e, ["current_state", "uas"]).Some? &&
      Keys(At(e, ["current_state", "uas"]).value) == {"altitude_abs"} &&
      At(e, ["current_state", "attitude"]).Some? &&
      Keys(At(e, ["current_state", "attitude"]).value) == {"roll"}
  {
    var e := TelemetryEvent(uuid, flightId, timestamp, s);
    assert ["current_state", "uas"][1..] == ["uas"];
    assert ["current_state", "attitude"][1..] == ["attitude"];
  }

  /** The identity leaves are the identity and the timestamp, unchanged. */
  lemma IdentityLeaves(uuid: string, flightId: string, timestamp: string, s: Sample)
    ensures var e := TelemetryEvent(uuid, flightId, timestamp, s);
      StringAt(e, ["uuid"]) == Some(uuid) &&
      StringAt(e, ["mission", "flight_id"]) == Some(flightId) &&
      StringAt(e, ["current_state", "timestamp"]) == Some(timestamp)
  {
    assert ["mission", "flight_id"][1..] == ["flight_id"];
    assert ["current_state", "timestamp"][1..] == ["timestamp"];
  }

  /** The numeric leaves are the parsed altitude and roll, unchanged. */
  lemma SampleLeaves(uuid: string, flightId: string, timestamp: string, s: Sample)
    ensures var e := TelemetryEvent(uuid, flightId, timestamp, s);
      NumberAt(e, ["current_state", "uas", "altitude_abs"]) == Some(s.altitude) &&
      NumberAt(e, ["current_state", "attitude", "roll"]) == Some(s.roll)
  {
    assert ["current_state", "uas", "altitude_abs"][1..] == ["uas", "altitude_abs"];
    assert ["uas", "altitude_abs"][1..] == ["altitude_abs"];
    assert ["current_state", "attitude", "roll"][1..] == ["attitude", "roll"];
    assert ["attitude", "roll"][1..] == ["roll"];
  }

  /** Every leaf carries its input unchanged: reading the event back yields the inputs. */
  lemma EventRoundTrip(uuid: string, flightId: string, timestamp: string, s: Sample)
    ensures ReadEvent(TelemetryEvent(uuid, flightId, timestamp, s))
            == Some(Fields(uuid, flightId, timestamp, s.altitude, s.roll))
  {
    IdentityLeaves(uuid, flightId, timestamp, s);
    SampleLeaves(uuid, flightId, timestamp, s);
  }

  /** Distinct inputs give distinct events. */
  lemma EventInjective(u1: string, f1: string, t1: string, s1: Sample,
                       u2: string, f2: string, t2: string, s2: Sample)
    requires TelemetryEvent(u1, f1, t1, s1) == TelemetryEvent(u2, f2, t2, s2)
    ensures u1 == u2 && f1 == f2 && t1 == t2 && s1 == s2
  {
    EventRoundTrip(u1, f1, t1, s1);
    EventRoundTrip(u2, f2, t2, s2);
  }
}
