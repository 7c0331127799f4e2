# TelemetryBridge relay: a verified model

TelemetryBridge polls a local flight-data server for a small XML status
document. It extracts the altitude and roll values and re-encodes them,
with the relay's identity and a timestamp, as a JSON telemetry event. It
then posts that event to a remote collector. Delivery goes through a
dispatcher with two parts: an in-flight flag, so at most one post is
outstanding, and a FIFO buffer of serialized payloads, which holds events
that arrive during a post and events whose post failed.

The model has six modules:

- `Config` (`config.dfy`) is `ConfigManager`. It reads four values from
  an abstract settings map keyed by (group, key), where a missing key
  reads as `""`. It stores them in the object's fields and accepts only
  when all four are non-empty. It also has the four getters.
- `Xml` (`xml.dfy`) is the accept/reject rule of `parseXml`, over a
  parsed document. A document is a root element with a list of
  (tag, text) children. Numeric conversion is a partial function passed
  in by the caller.
- `Event` (`event.dfy`) is the JSON event that the poll callback
  assembles, as a tree. `ReadEvent` reads the five leaves back, and
  `EventRoundTrip` proves that it inverts `TelemetryEvent`.
- `Dispatch` (`dispatch.dfy`) is the dispatcher as a pure state machine.
  `Send` is `sendTelemetry`, `Finish` is the reply-finished callback and
  `Flush` is `flushQueue`. The machine also keeps audit logs that exist
  only to state properties: payloads submitted, posted, attempted and
  delivered, and the failure count. The lemmas about traces of events
  are here.
- `Telemetry` (`telemetry.dfy`) is the class `TelemetryManager`. Its
  fields `postInProgress` and `buffer` are updated in place, and each
  method is proved against the `Dispatch` machine. The class also has a
  field `outstanding`. It stands for the `json` that the callback of the
  live `QNetworkReply` captured. The failure branch re-enqueues exactly
  that value. The class invariant `Valid()` is `Dispatch.Inv`:
  - the flag is set iff one attempt is outstanding;
  - posts finish one at a time, in posting order;
  - as multisets, submitted = delivered + buffer + outstanding;
  - while no attempt has failed, delivery is strictly FIFO.
- `Wrappers` (`wrappers.dfy`) holds the `Option` type.

The model pins down the ordering quirk after a failure:
`Dispatch.FailureReordersDelivery`. A failed reply leaves the dispatcher
idle with a non-empty buffer, and it appends the failed payload behind
anything queued during the attempt. The next fresh payload is then posted
at once, bypassing the buffer. With `a`, `b`, `c` submitted in that order,
one failure followed by successes delivers `c, b, a`. The model keeps
this behaviour exactly as the code has it.

The poll and post URLs are hard-coded in `src/TelemetryManager.cpp`, so
the code has no branch for "source unset → skip cycle" or "destination
unset → abandon the event without retry", and the model has none either.
`src/TelemetryManager.cpp` never reads any of the `m_*` fields
(include/TelemetryManager.h:25-28) that `setConfig` is declared to set.
The event uses the fields `uuid` and `flightId`, which the constructor
fills from `config.json`, with defaults as a fallback; both URLs are
literals.

## Model

| member | source | states |
|---|---|---|
| `Config.ConfigManager.constructor` | src/ConfigManager.cpp:5-7 | keeps the file path; the four values start empty |
| `Config.ConfigManager.Load` | src/ConfigManager.cpp:9-37 | the four fields hold the values read from telemetry/uuid, telemetry/flight_id, source/endpoint and destination/endpoint, `""` for a missing key, even when the result is false; the result is true iff all four are non-empty, iff every required key is present with a non-empty value |
| `Config.Complete` | src/ConfigManager.cpp:25 | the acceptance test: true iff all four values are non-empty; `Load` and `AcceptsIffAllPresent` are proved about it |
| `Config.AcceptsIffAllPresent` | src/ConfigManager.cpp:12-27 | the acceptance test on the four read values holds iff each of the four (group, key) pairs is in the settings with a non-empty value, so absence is rejected like emptiness |
| `Config.ConfigManager.Uuid` | include/ConfigManager.h:9 | returns the stored uuid unchanged and modifies nothing |
| `Config.ConfigManager.FlightId` | include/ConfigManager.h:10 | returns the stored flight id unchanged and modifies nothing |
| `Config.ConfigManager.SourceEndpoint` | include/ConfigManager.h:11 | returns the stored source endpoint unchanged and modifies nothing |
| `Config.ConfigManager.DestEndpoint` | include/ConfigManager.h:12 | returns the stored destination endpoint unchanged and modifies nothing |
| `Xml.FirstChildIndex` | src/TelemetryManager.cpp:82-83 | `firstChildElement`: when found, the index of the first child with exactly that tag (no earlier child has it); not found iff no child has the tag |
| `Xml.ParseXml` | src/TelemetryManager.cpp:77-99 | a sample iff the document parsed, both `cmd.pos.altitude` and `est.att.roll` children exist and the text of the first of each converts; the sample is exactly those two converted texts |
| `Xml.RollMissingRejected` | src/TelemetryManager.cpp:82-85 | every document with no `est.att.roll` child is rejected, whatever its other children and for every conversion function |
| `Xml.AltitudeOnlyRejected` | src/TelemetryManager.cpp:82-85 | the document holding only `<cmd.pos.altitude>500</cmd.pos.altitude>` is rejected |
| `Xml.ReferenceDocumentAccepted` | src/TelemetryManager.cpp:95-98 | the reference document with altitude 123.4 and roll -2.1 yields exactly those two values |
| `Event.TelemetryEvent` | src/TelemetryManager.cpp:54-65 | the assembled event is an object with exactly the keys uuid, mission, current_state, and uuid is the identity unchanged; `EventShape`, `EventRoundTrip` and `EventInjective` are proved about it |
| `Event.EventShape` | src/TelemetryManager.cpp:54-65 | the event has exactly the keys uuid, mission, current_state; mission = {flight_id}; current_state = {timestamp, uas, attitude}; uas = {altitude_abs}; attitude = {roll} |
| `Event.IdentityLeaves` | src/TelemetryManager.cpp:55-63 | uuid, mission.flight_id and current_state.timestamp are the identity and timestamp, unchanged |
| `Event.SampleLeaves` | src/TelemetryManager.cpp:56-61 | current_state.uas.altitude_abs and current_state.attitude.roll are the parsed altitude and roll, unchanged |
| `Event.EventRoundTrip` | src/TelemetryManager.cpp:54-65 | reading the five leaves back from an assembled event yields exactly its inputs |
| `Event.EventInjective` | src/TelemetryManager.cpp:54-65 | two events are equal only when built from equal identity, timestamp and sample |
| `Dispatch.InitInv` | include/TelemetryManager.h:39-40 | the dispatcher starts idle with an empty buffer and satisfies the invariant |
| `Dispatch.Send` | src/TelemetryManager.cpp:101-114 | afterwards a post is always in flight; something is posted iff none was running, and then it is exactly `json`, now outstanding, with the buffer unchanged; otherwise `json` joins the tail and the outstanding attempt is unchanged; the class method `SendTelemetry` is proved equal to it |
| `Dispatch.Flush` | src/TelemetryManager.cpp:135-141 | an empty buffer changes nothing and posts nothing; on an idle dispatcher a non-empty buffer has its head posted as the new outstanding attempt and keeps its tail in order; the class method `FlushQueue` is proved equal to it |
| `Dispatch.Submit` | src/TelemetryManager.cpp:70 | the fresh payload is logged as submitted and then sent as by `Send`; `SubmitInv` is proved about it |
| `Dispatch.Finish` | src/TelemetryManager.cpp:116-130 | the only thing a finished reply can post is the head of a non-empty buffer after a success, and that becomes the outstanding attempt; the attempt is logged; success delivers the payload, failure appends it at the tail and counts a failure; `FinishCases`, `FinishInv`, `Drain` and `RunInv` are proved about it |
| `Dispatch.SubmitInv` | src/TelemetryManager.cpp:101-114 | a fresh payload, queued behind a running post or posted at once, preserves the invariant (flag iff outstanding, one post at a time, conservation, FIFO while failure-free) |
| `Dispatch.FinishCases` | src/TelemetryManager.cpp:116-141 | failure: idle, the identical payload appended at the tail, nothing posted; success with empty buffer: idle, empty, no further post; success with a non-empty buffer: the head is posted and outstanding, the rest keeps its order |
| `Dispatch.FinishInv` | src/TelemetryManager.cpp:116-130 | a finished reply, successful or failed, preserves the invariant |
| `Dispatch.RunInv` | src/TelemetryManager.cpp:101-141 | every state reachable from construction satisfies the invariant: flag iff exactly one attempt outstanding, posts == attempted + outstanding, submitted = delivered + buffer + outstanding as multisets |
| `Dispatch.FifoWithoutFailures` | src/TelemetryManager.cpp:104-140 | in any trace with no failed reply, submitted == delivered + outstanding + buffer as sequences and an idle dispatcher has an empty buffer |
| `Dispatch.SuccessStep` | src/TelemetryManager.cpp:117-121 | a successful reply delivers the outstanding payload and, when the buffer is non-empty, posts its head |
| `Dispatch.Drain` | src/TelemetryManager.cpp:135-140 | from an in-flight state, buffer-length + 1 successes deliver the outstanding payload then every queued one, oldest first, post each queued one once, and leave the dispatcher idle and empty |
| `Dispatch.FailureReordersDelivery` | src/TelemetryManager.cpp:104-126 | after a, b and a failed reply the buffer is [b, a] while idle; a fresh c is then posted at once with the buffer untouched, and three successes deliver c, b, a |
| `Telemetry.TelemetryManager.constructor` | include/TelemetryManager.h:39-40 | starts idle with an empty buffer and the invariant established |
| `Telemetry.TelemetryManager.SendTelemetry` | src/TelemetryManager.cpp:101-114 | behind a running post: payload at the tail, flag and outstanding unchanged, nothing posted; idle: flag set, that exact payload outstanding and posted, buffer unchanged even when non-empty |
| `Telemetry.TelemetryManager.FlushQueue` | src/TelemetryManager.cpp:135-141 | empty buffer: nothing changes and nothing is posted; otherwise the head is dequeued and sent |
| `Telemetry.TelemetryManager.Submit` | src/TelemetryManager.cpp:70 | a fresh payload is logged as submitted and sent; the invariant is preserved |
| `Telemetry.TelemetryManager.PostFinished` | src/TelemetryManager.cpp:116-130 | clears the flag; failure appends the identical payload at the tail and posts nothing; success delivers it and flushes the queue, so an empty buffer stays idle and a non-empty one posts its head; the invariant is preserved |
| `Telemetry.TelemetryManager.PollFinished` | src/TelemetryManager.cpp:46-74 | a document `parseXml` rejects changes nothing; an accepted one is submitted as the serialized event for this identity, timestamp and sample |

## Left out

- HTTP transport: the GET of the poll (src/TelemetryManager.cpp:44-45) and the POST with its content-type header (src/TelemetryManager.cpp:109-114). A reply's outcome is an input to `PostFinished`, and a post is the payload returned by the method that issued it. `reply->readAll()` and `deleteLater()` are not modelled.
- The 100 ms `QTimer` cadence and overlapping poll fetches: these are timing and concurrency. Each fetch completion is one call of `PollFinished`.
- QDomDocument parsing and `QString::toDouble`: the parsed document is an input, and conversion is a caller-supplied partial function. Numbers are exact reals, not doubles.
- Xml.ParseXml: when both tags are present but a conversion fails, `parseXml` still writes both out-parameters (src/TelemetryManager.cpp:96-97); the caller ignores them (src/TelemetryManager.cpp:53), so the model returns no value at all. The early returns at lines 79 and 85 write neither.
- JSON serialisation: the compact bytes, key order and number formatting become a caller-supplied serializer. The wall-clock ISO-8601 timestamp is a parameter.
- The constructor's `config.json` reading and its defaults "0000-0000" / "UNKNOWN" (src/TelemetryManager.cpp:12-33): the identity is a constructor parameter.
- The INI file reading through QSettings (src/ConfigManager.cpp:10): `Load` takes an abstract settings map.
- `setConfig` (include/TelemetryManager.h:15-18) has no definition in these files and is not modelled. The `m_*` fields it is declared to set are never read by src/TelemetryManager.cpp, so they are not modelled either. `start()` only logs. src/main.cpp is startup wiring and is not part of this model.
- All logging (`qDebug`, `qWarning`, `qInfo`).
- A "destination unset" abandonment branch: the code has none, because both URLs are hard-coded.
- A reply-finished event while nothing is outstanding cannot occur in the program; the trace function `Dispatch.Apply` treats it as a no-op.
