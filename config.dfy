/**
 * Configuration validation of the relay (src/ConfigManager.cpp, include/ConfigManager.h).
 *
 * The INI file behind QSettings is abstracted as a map from (group, key) to the
 * string the library would return; a key the map does not hold reads as "",
 * as `QSettings::value(...).toString()` does for a missing key.
 */
module Config {

  /** What QSettings would return for each (group, key) of the INI file. */
  type Settings = map<(string, string), string>

  /** `settings.beginGroup(group); settings.value(key).toString()`: "" when absent. */
  function Value(settings: Settings, group: string, key: string): string
  {
    if (group, key) in settings then settings[(group, key)] else ""
  }

  /** The four (group, key) pairs `load` reads, in the order it reads them. */
  const RequiredKeys: seq<(string, string)> :=
    [("telemetry", "uuid"), ("telemetry", "flight_id"), ("source", "endpoint"), ("destination", "endpoint")]

  /** The acceptance test of `load`: none of the four values is empty. */
  predicate Complete(uuid: string, flightId: string, sourceEndpoint: string, destEndpoint: string)
    ensures Complete(uuid, flightId, sourceEndpoint, destEndpoint) <==>
      |uuid| > 0 && |flightId| > 0 && |sourceEndpoint| > 0 && |destEndpoint| > 0
  {
    !(uuid == "" || flightId == "" || sourceEndpoint == "" || destEndpoint == "")
  }

  /** A key is usable when the file holds it with a non-empty value. */
  predicate Present(settings: Settings, gk: (string, string))
  {
    gk in settings && settings[gk] != ""
  }

  /**
   * `load` accepts a settings map exactly when every required key is present
   * with a non-empty value: a missing key is rejected just like an empty one.
   */
  lemma AcceptsIffAllPresent(settings: Settings)
    ensures Complete(Value(settings, "telemetry", "uuid"), Value(settings, "telemetry", "flight_id"),
                     Value(settings, "source", "endpoint"), Value(settings, "destination", "endpoint"))
            <==> forall i :: 0 <= i < |RequiredKeys| ==> Present(settings, RequiredKeys[i])
  {
    assert RequiredKeys[0] == ("telemetry", "uuid") && RequiredKeys[1] == ("telemetry", "flight_id");
    assert RequiredKeys[2] == ("source", "endpoint") && RequiredKeys[3] == ("destination", "endpoint");
  }

  class ConfigManager {
    const filePath: string
    var uuid: string
    var flightId: string
    var sourceEndpoint: string
    var destEndpoint: string

    /** Stores the file path; the four values start as empty QStrings. */
    constructor (filePath: string)
      ensures this.filePath == filePath
      ensures uuid == "" && flightId == "" && sourceEndpoint == "" && destEndpoint == ""
    {
      this.filePath := filePath;
      uuid, flightId, sourceEndpoint, destEndpoint := "", "", "", "";
    }

    /**
     * Reads the four values into the fields, then validates them. The fields
     * keep what was read even when the result is false.
     */
    method Load(settings: Settings) returns (ok: bool)
      modifies this
      ensures uuid == Value(settings, "telemetry", "uuid")
      ensures flightId == Value(settings, "telemetry", "flight_id")
      ensures sourceEndpoint == Value(settings, "source", "endpoint")
      ensures destEndpoint == Value(settings, "destination", "endpoint")
      ensures ok <==> uuid != "" && flightId != "" && sourceEndpoint != "" && destEndpoint != ""
      ensures ok <==> forall i :: 0 <= i < |RequiredKeys| ==> Present(settings, RequiredKeys[i])
    {
      uuid := Value(settings, "telemetry", "uuid");
      flightId := Value(settings, "telemetry", "flight_id");
      sourceEndpoint := Value(settings, "source", "endpoint");
      destEndpoint := Value(settings, "destination", "endpoint");
      if !Complete(uuid, flightId, sourceEndpoint, destEndpoint) {
        AcceptsIffAllPresent(settings);
        return false;
      }
      AcceptsIffAllPresent(settings);
      return true;
    }

    method Uuid() returns (r: string)
      ensures r == uuid
    {
      r := uuid;
    }

    method FlightId() returns (r: string)
      ensures r == flightId
    {
      r := flightId;
    }

    method SourceEndpoint() returns (r: string)
      ensures r == sourceEndpoint
    {
      r := sourceEndpoint;
    }

    method DestEndpoint() returns (r: string)
      ensures r == destEndpoint
    {
      r := destEndpoint;
    }
  }
}
