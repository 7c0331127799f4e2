/**
 * The relay object of src/TelemetryManager.cpp: the in-flight flag and the
 * buffer it updates in place, the payload captured by the callback of the
 * live reply, and the poll callback that turns a fetched document into a
 * submitted payload. Each method is proved against the state machine of
 * module Dispatch.
 */
module Telemetry {
  import opened Wrappers
  import opened Xml
  import opened Event
  import opened Dispatch

  class TelemetryManager {
    const uuid: string
    const flightId: string

    /** `postInProgress` */
    var postInProgress: bool
    /** `buffer`, the QQueue of payloads not yet delivered */
    var buffer: seq<Payload>
    /** the `json` captured by the finished-callback of the live reply, if a post is running */
    var outstanding: Option<Payload>

    ghost var submitted: seq<Payload>
    ghost var posts: seq<Payload>
    ghost var attempted: seq<Payload>
    ghost var delivered: seq<Payload>
    ghost var failures: nat

    ghost function Model(): Machine
      reads this
    {
      Machine(postInProgress, buffer, outstanding, submitted, posts, attempted, delivered, failures)
    }

    ghost predicate Valid()
      reads this
    {
      Inv(Model())
    }

    /** Starts idle with an empty buffer; the identity is given rather than read from config.json. */
    constructor (uuid: string, flightId: string)
      ensures this.uuid == uuid && this.flightId == flightId
      ensures Model() == Init() && Valid()
      ensures !postInProgress && buffer == []
    {
      this.uuid := uuid;
      this.flightId := flightId;
      postInProgress := false;
      buffer := [];
      outstanding := None;
      submitted, posts, attempted, delivered, failures := [], [], [], [], 0;
      InitInv();
    }

    /**
     * `sendTelemetry(json)`. Behind a running post the payload joins the tail
     * of the buffer and nothing is posted; otherwise the flag is set and
     * `json` itself is posted, bypassing the buffer even when it is not empty.
     * This is the private `sendTelemetry`: it does not log `json` as
     * submitted, so it keeps `Valid()` only when called from `Submit` or
     * `FlushQueue`; clients submit a fresh payload through `Submit`.
     */
    method SendTelemetry(json: Payload) returns (post: Option<Payload>)
      modifies this
      ensures Step(Model(), post) == Send(old(Model()), json)
      ensures old(postInProgress) ==>
        postInProgress && outstanding == old(outstanding) && buffer == old(buffer) + [json] && post == None
      ensures !old(postInProgress) ==>
        postInProgress && outstanding == Some(json) && buffer == old(buffer) && post == Some(json)
    {
      if postInProgress {
        buffer := buffer + [json];
        return None;
      }
      postInProgress := true;
      outstanding := Some(json);
      posts := posts + [json];
      post := Some(json);
    }

    /** `flushQueue()`: nothing on an empty buffer, else the head is dequeued and sent. */
    method FlushQueue() returns (post: Option<Payload>)
      modifies this
      ensures Step(Model(), post) == Flush(old(Model()))
      ensures old(buffer) == [] ==> Model() == old(Model()) && post == None
      ensures old(buffer) != [] && !old(postInProgress) ==>
        postInProgress && outstanding == Some(old(buffer)[0]) && buffer == old(buffer)[1..] &&
        post == Some(old(buffer)[0])
    {
      if buffer == [] {
        return None;
      }
      var next := buffer[0];
      buffer := buffer[1..];
      post := SendTelemetry(next);
    }

    /** A fresh payload from the poll callback: logged as submitted, then sent. */
    method Submit(json: Payload) returns (post: Option<Payload>)
      requires Valid()
      modifies this
      ensures Valid()
      ensures Step(Model(), post) == Dispatch.Submit(old(Model()), json)
      ensures submitted == old(submitted) + [json]
    {
      ghost var m := Model();
      submitted := submitted + [json];
      post := SendTelemetry(json);
      SubmitInv(m, json);
    }

    /**
     * The finished-callback of the live reply. The flag is cleared. On
     * success the outstanding payload is delivered and the buffer is flushed:
     * its head, if any, becomes the new outstanding post and the rest stays
     * in order. On failure the byte-identical payload is appended at the
     * tail, after whatever was queued during the attempt, and nothing is posted.
     */
    method PostFinished(success: bool) returns (post: Option<Payload>)
      requires Valid() && postInProgress
      modifies this
      ensures Valid()
      ensures Step(Model(), post) == Finish(old(Model()), success)
      ensures attempted == old(attempted) + [old(outstanding).value]
      ensures !success ==>
        !postInProgress && outstanding == None && buffer == old(buffer) + [old(outstanding).value] &&
        post == None && delivered == old(delivered)
      ensures success ==> delivered == old(delivered) + [old(outstanding).value]
      ensures success && old(buffer) == [] ==>
        !postInProgress && outstanding == None && buffer == [] && post == None
      ensures success && old(buffer) != [] ==>
        postInProgress && outstanding == Some(old(buffer)[0]) && buffer == old(buffer)[1..] &&
        post == Some(old(buffer)[0])
    {
      ghost var m := Model();
      var json := outstanding.value;
      postInProgress := false;
      outstanding := None;
      attempted := attempted + [json];
      if success {
        delivered := delivered + [json];
        post := FlushQueue();
      } else {
        buffer := buffer + [json];
        failures := failures + 1;
        post := None;
      }
      assert Step(Model(), post) == Finish(m, success);
      FinishCases(m, success);
      FinishInv(m, success);
    }

    /**
     * The poll callback: a document that `parseXml` rejects reaches no
     * further; an accepted one is assembled into an event, serialized and
     * submitted.
     */
    method PollFinished(doc: Option<Document>, toNum: string -> Option<Num>, timestamp: string,
                        serialize: Json -> Payload) returns (post: Option<Payload>)
      requires Valid()
      modifies this
      ensures Valid()
      ensures ParseXml(doc, toNum).None? ==> Model() == old(Model()) && post == None
      ensures ParseXml(doc, toNum).Some? ==>
        Step(Model(), post) ==
        Dispatch.Submit(old(Model()), serialize(TelemetryEvent(uuid, flightId, timestamp, ParseXml(doc, toNum).value)))
    {
      var sample := ParseXml(doc, toNum);
      if sample.None? {
        return None;
      }
      var json := serialize(TelemetryEvent(uuid, flightId, timestamp, sample.value));
      post := Submit(json);
    }
  }
}
