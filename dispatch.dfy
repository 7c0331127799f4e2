/**
 * The delivery dispatcher of src/TelemetryManager.cpp as a pure state
 * machine: `sendTelemetry`, the reply-finished callback and `flushQueue`.
 *
 * A Machine holds the dispatcher's own state (the in-flight flag, the FIFO
 * buffer of serialized payloads, and the payload captured by the callback
 * of the one live reply) together with five audit logs that exist only to
 * state properties: the fresh payloads submitted, every payload handed to
 * the network, every payload whose attempt has finished, the payloads
 * delivered, and the number of failed attempts.
 */
module Dispatch {
  import opened Wrappers

  /** A serialized event, as the bytes of a QByteArray. */
  type Payload = seq<bv8>

  /**
   * The dispatcher's state plus append-only logs used only to state
   * properties: the fresh payloads submitted, every payload handed to the
   * network, every payload whose attempt has finished (in completion
   * order), the payloads delivered, and the number of failed attempts.
   */
  datatype Machine = Machine(
    inFlight: bool,
    buffer: seq<Payload>,
    outstanding: Option<Payload>,
    submitted: seq<Payload>,
    posts: seq<Payload>,
    attempted: seq<Payload>,
    delivered: seq<Payload>,
    failures: nat)

  /** The machine after an operation, and the payload the operation posted, if any. */
  datatype Step = Step(next: Machine, post: Option<Payload>)

  /** At construction: idle, nothing queued, nothing logged. */
  function Init(): Machine
  {
    Machine(false, [], None, [], [], [], [], 0)
  }

  /** `sendTelemetry(json)`: queue behind a running post, or start posting `json` at once. */
  function Send(m: Machine, json: Payload): (r: Step)
    ensures r.next.inFlight
    ensures r.next.submitted == m.submitted && r.next.attempted == m.attempted
    ensures r.next.delivered == m.delivered && r.next.failures == m.failures
    ensures r.post.Some? <==> !m.inFlight
    ensures r.post.Some? ==>
      r.post == Some(json) && r.next.outstanding == r.post && r.next.buffer == m.buffer && r.next.posts == m.posts + [json]
    ensures r.post.None? ==>
      r.next.outstanding == m.outstanding && r.next.buffer == m.buffer + [json] && r.next.posts == m.posts
  {
    if m.inFlight then Step(m.(buffer := m.buffer + [json]), None)
    else Step(m.(inFlight := true, outstanding := Some(json), posts := m.posts + [json]), Some(json))
  }

  /** `flushQueue()`: nothing when the buffer is empty, else dequeue the head and send it. */
  function Flush(m: Machine): (r: Step)
    ensures m.buffer == [] ==> r == Step(m, None)
    ensures m.buffer != [] && !m.inFlight ==>
      r.next.inFlight && r.post == Some(m.buffer[0]) && r.next.outstanding == r.post && r.next.buffer == m.buffer[1..]
    ensures m.buffer != [] && m.inFlight ==>
      r.post == None && r.next.outstanding == m.outstanding && r.next.buffer == m.buffer[1..] + [m.buffer[0]]
  {
    if m.buffer == [] then Step(m, None)
    else Send(m.(buffer := m.buffer[1..]), m.buffer[0])
  }

  /** A fresh payload handed to `sendTelemetry` by the poll callback. */
  function Submit(m: Machine, json: Payload): (r: Step)
    ensures r.next.submitted == m.submitted + [json]
    ensures r.post.Some? <==> !m.inFlight
    ensures r.post.Some? ==> r.post == Some(json) && r.next.outstanding == r.post && r.next.buffer == m.buffer
    ensures r.post.None? ==> r.next.outstanding == m.outstanding && r.next.buffer == m.buffer + [json]
  {
    Send(m.(submitted := m.submitted + [json]), json)
  }

  /**
   * The reply-finished callback of the outstanding post: clear the flag;
   * on success flush the queue, on failure append the captured payload.
   */
  function Finish(m: Machine, success: bool): (r: Step)
    requires m.outstanding.Some?
    ensures r.next.outstanding == r.post && (r.next.inFlight <==> r.post.Some?)
    ensures r.post.Some? ==> success && m.buffer != [] && r.post == Some(m.buffer[0])
    ensures r.next.attempted == m.attempted + [m.outstanding.value] && r.next.submitted == m.submitted
    ensures success ==> r.next.delivered == m.delivered + [m.outstanding.value] && r.next.failures == m.failures
    ensures !success ==>
      r.next.buffer == m.buffer + [m.outstanding.value] && r.next.delivered == m.delivered &&
      r.next.failures == m.failures + 1
  {
    var json := m.outstanding.value;
    var idle := m.(inFlight := false, outstanding := None, attempted := m.attempted + [json]);
    if success then Flush(idle.(delivered := idle.delivered + [json]))
    else Step(idle.(buffer := idle.buffer + [json], failures := idle.failures + 1), None)
  }

  /**
   * The cases of a finished reply. Failure: idle, the payload appended at
   * the tail, nothing posted. Success on an empty buffer: idle, empty, no
   * further post. Success on a non-empty buffer: the head is posted and
   * becomes the outstanding attempt; the rest of the buffer keeps its order.
   */
  lemma FinishCases(m: Machine, success: bool)
    requires m.outstanding.Some?
    ensures var r := Finish(m, success);
      r.next.attempted == m.attempted + [m.outstanding.value] && r.next.submitted == m.submitted &&
      (!success ==>
        !r.next.inFlight && r.next.outstanding == None && r.next.buffer == m.buffer + [m.outstanding.value] &&
        r.post == None && r.next.delivered == m.delivered && r.next.failures == m.failures + 1) &&
      (success ==> r.next.delivered == m.delivered + [m.outstanding.value] && r.next.failures == m.failures) &&
      (success && m.buffer == [] ==>
        !r.next.inFlight && r.next.outstanding == None && r.next.buffer == [] && r.post == None) &&
      (success && m.buffer != [] ==>
        r.next.inFlight && r.next.outstanding == Some(m.buffer[0]) && r.next.buffer == m.buffer[1..] &&
        r.post == Some(m.buffer[0]))
  {
  }

  /** What can happen to the dispatcher: a fresh payload, or the live reply finishing. */
  datatype Input = Fresh(json: Payload) | Reply(success: bool)

  /** A reply can only finish while one is outstanding; any other Reply event changes nothing. */
  function Apply(m: Machine, e: Input): Machine
  {
    match e
    case Fresh(p) => Submit(m, p).next
    case Reply(ok) => if m.outstanding.Some? then Finish(m, ok).next else m
  }

  function RunFrom(m: Machine, evs: seq<Input>): Machine
    decreases |evs|
  {
    if evs == [] then m else RunFrom(Apply(m, evs[0]), evs[1..])
  }

  /** The dispatcher after a sequence of events from construction. */
  function Run(evs: seq<Input>): Machine
  {
    RunFrom(Init(), evs)
  }

  /** n successful replies in a row. */
  function Successes(n: nat): seq<Input>
  {
    if n == 0 then [] else [Reply(true)] + Successes(n - 1)
  }

  /** The outstanding payload as a sequence of length zero or one. */
  function Pending(m: Machine): seq<Payload>
  {
    if m.outstanding.Some? then [m.outstanding.value] else []
  }

  /** The flag is set exactly when one attempt is outstanding. */
  ghost predicate Flagged(m: Machine)
  {
    m.inFlight <==> m.outstanding.Some?
  }

  /** Posts finish one at a time, in the order they were posted; only the outstanding one is unfinished. */
  ghost predicate OneAtATime(m: Machine)
  {
    m.posts == m.attempted + Pending(m) && |m.attempted| == |m.delivered| + m.failures
  }

  /** No payload is lost or duplicated: submitted = delivered + buffer + outstanding, as multisets. */
  ghost predicate Conserved(m: Machine)
  {
    multiset(m.submitted) == multiset(m.delivered) + multiset(m.buffer) + multiset(Pending(m))
  }

  /** While no attempt has failed, delivery is first-in first-out and an idle dispatcher has nothing queued. */
  ghost predicate Fifo(m: Machine)
  {
    m.failures == 0 ==> m.submitted == m.delivered + Pending(m) + m.buffer && (!m.inFlight ==> m.buffer == [])
  }

  /** The dispatcher's invariant. */
  ghost predicate Inv(m: Machine)
  {
    Flagged(m) && OneAtATime(m) && Conserved(m) && Fifo(m)
  }

  lemma InitInv()
    ensures Inv(Init())
  {
  }

  lemma SubmitShape(m: Machine, json: Payload)
    requires Flagged(m) && OneAtATime(m)
    ensures Flagged(Submit(m, json).next) && OneAtATime(Submit(m, json).next)
  {
    if !m.inFlight {
      assert Pending(m) == [];
    }
  }

  lemma SubmitConserved(m: Machine, json: Payload)
    requires Flagged(m) && Conserved(m)
    ensures Conserved(Submit(m, json).next)
  {
    var r := Submit(m, json).next;
    assert multiset(r.submitted) == multiset(m.submitted) + multiset{json};
    if m.inFlight {
      assert Pending(r) == Pending(m);
      assert multiset(r.buffer) == multiset(m.buffer) + multiset{json};
    } else {
      assert Pending(m) == [] && Pending(r) == [json];
    }
  }

  lemma SubmitFifo(m: Machine, json: Payload)
    requires Flagged(m) && Fifo(m)
    ensures Fifo(Submit(m, json).next)
  {
    var r := Submit(m, json).next;
    if m.failures == 0 {
      var d := m.delivered;
      if m.inFlight {
        assert Pending(r) == Pending(m) && r.buffer == m.buffer + [json];
        assert (d + Pending(m) + m.buffer) + [json] == d + Pending(r) + r.buffer;
      } else {
        assert Pending(r) == [json] && r.buffer == [];
        assert d + [] + [] + [json] == d + Pending(r) + r.buffer;
      }
    }
  }

  /** A fresh payload keeps the invariant whether it is posted at once or queued. */
  lemma SubmitInv(m: Machine, json: Payload)
    requires Inv(m)
    ensures Inv(Submit(m, json).next)
  {
    SubmitShape(m, json);
    SubmitConserved(m, json);
    SubmitFifo(m, json);
  }

  lemma FinishShape(m: Machine, success: bool)
    requires Flagged(m) && OneAtATime(m) && m.outstanding.Some?
    ensures Flagged(Finish(m, success).next) && OneAtATime(Finish(m, success).next)
  {
    assert Pending(m) == [m.outstanding.value];
  }

  lemma FinishConserved(m: Machine, success: bool)
    requires Conserved(m) && m.outstanding.Some?
    ensures Conserved(Finish(m, success).next)
  {
    var json := m.outstanding.value;
    var r := Finish(m, success).next;
    assert Pending(m) == [json];
    if !success {
      assert multiset(r.buffer) == multiset(m.buffer) + multiset{json};
    } else if m.buffer != [] {
      assert m.buffer == [m.buffer[0]] + m.buffer[1..];
      assert Pending(r) == [m.buffer[0]];
      assert multiset(r.delivered) == multiset(m.delivered) + multiset{json};
    }
  }

  lemma FinishFifo(m: Machine, success: bool)
    requires Flagged(m) && Fifo(m) && m.outstanding.Some?
    ensures Fifo(Finish(m, success).next)
  {
    var json := m.outstanding.value;
    var r := Finish(m, success).next;
    if success && m.failures == 0 {
      assert Pending(m) == [json];
      var d := m.delivered;
      if m.buffer != [] {
        var b := m.buffer;
        assert Pending(r) == [b[0]] && r.buffer == b[1..] && r.delivered == d + [json];
        assert b == [b[0]] + b[1..];
        assert d + [json] + b == d + [json] + [b[0]] + b[1..];
      } else {
        assert r.delivered == d + [json] && Pending(r) == [] && r.buffer == [];
      }
    }
  }

  /** Finishing the outstanding attempt keeps the invariant, on success and on failure. */
  lemma FinishInv(m: Machine, success: bool)
    requires Inv(m) && m.outstanding.Some?
    ensures Inv(Finish(m, success).next)
  {
    FinishShape(m, success);
    FinishConserved(m, success);
    FinishFifo(m, success);
  }

  lemma {:induction false} RunFromInv(m: Machine, evs: seq<Input>)
    requires Inv(m)
    ensures Inv(RunFrom(m, evs))
    decreases |evs|
  {
    if evs != [] {
      match evs[0] {
        case Fresh(p) => SubmitInv(m, p);
        case Reply(ok) => if m.outstanding.Some? { FinishInv(m, ok); }
      }
      RunFromInv(Apply(m, evs[0]), evs[1..]);
    }
  }

  /** Every reachable dispatcher satisfies the invariant. */
  lemma {:induction false} RunInv(evs: seq<Input>)
    ensures Inv(Run(evs))
  {
    InitInv();
    RunFromInv(Init(), evs);
  }

  /** Without a failed reply among the events, the failure count does not move. */
  lemma {:induction false} NoFailuresKept(m: Machine, evs: seq<Input>)
    requires Reply(false) !in evs
    ensures RunFrom(m, evs).failures == m.failures
    decreases |evs|
  {
    if evs != [] {
      assert evs[0] in evs;
      assert forall e :: e in evs[1..] ==> e in evs;
      NoFailuresKept(Apply(m, evs[0]), evs[1..]);
    }
  }

  /**
   * While the destination never fails, payloads are delivered in exactly
   * the order they were submitted: what was submitted is what was
   * delivered, then the outstanding one, then the buffer.
   */
  lemma {:induction false} FifoWithoutFailures(evs: seq<Input>)
    requires Reply(false) !in evs
    ensures var m := Run(evs);
      m.submitted == m.delivered + Pending(m) + m.buffer && (!m.inFlight ==> m.buffer == [])
  {
    RunInv(evs);
    NoFailuresKept(Init(), evs);
  }

  /** One successful reply: the outstanding payload is delivered and the head of the buffer, if any, is posted. */
  lemma SuccessStep(m: Machine)
    requires Flagged(m) && m.inFlight
    ensures var r := Finish(m, true).next;
      r.delivered == m.delivered + Pending(m) && r.submitted == m.submitted && Flagged(r) &&
      (m.buffer == [] ==> !r.inFlight && r.buffer == [] && r.posts == m.posts) &&
      (m.buffer != [] ==> r.inFlight && r.outstanding == Some(m.buffer[0]) && r.buffer == m.buffer[1..] &&
                          r.posts == m.posts + [m.buffer[0]])
  {
  }

  lemma RunOneSuccess(m: Machine, n: nat)
    requires m.outstanding.Some?
    ensures RunFrom(m, Successes(n + 1)) == RunFrom(Finish(m, true).next, Successes(n))
  {
    assert Successes(n + 1) == [Reply(true)] + Successes(n);
    assert ([Reply(true)] + Successes(n))[1..] == Successes(n);
  }

  /**
   * Draining: from a dispatcher with an attempt outstanding, |buffer| + 1
   * successful replies deliver the outstanding payload and then every
   * queued payload once, oldest first, posting each of them once, and leave
   * the dispatcher idle with an empty buffer.
   */
  lemma {:induction false} Drain(m: Machine)
    requires Flagged(m) && m.inFlight
    ensures Drained(m, RunFrom(m, Successes(|m.buffer| + 1)))
    decreases |m.buffer|
  {
    var m1 := Finish(m, true).next;
    SuccessStep(m);
    RunOneSuccess(m, |m.buffer|);
    if m.buffer != [] {
      Drain(m1);
      DrainedAfterStep(m, m1, RunFrom(m1, Successes(|m1.buffer| + 1)));
    }
  }

  /** r is m fully drained: idle, nothing queued, the outstanding payload and then the buffer delivered and posted. */
  ghost predicate Drained(m: Machine, r: Machine)
  {
    !r.inFlight && r.buffer == [] && r.submitted == m.submitted &&
    r.delivered == m.delivered + Pending(m) + m.buffer && r.posts == m.posts + m.buffer
  }

  lemma DrainedAfterStep(m: Machine, m1: Machine, r: Machine)
    requires m.buffer != [] && Flagged(m) && m.inFlight
    requires m1.delivered == m.delivered + Pending(m) && m1.submitted == m.submitted
    requires m1.outstanding == Some(m.buffer[0]) && m1.buffer == m.buffer[1..] && m1.posts == m.posts + [m.buffer[0]]
    requires Drained(m1, r)
    ensures Drained(m, r)
  {
    var b := m.buffer;
    assert b == [b[0]] + b[1..];
    assert Pending(m1) == [b[0]];
    assert m.delivered + Pending(m) + [b[0]] + b[1..] == m.delivered + Pending(m) + b;
    assert m.posts + [b[0]] + b[1..] == m.posts + b;
  }

  /**
   * The ordering exception after a failure. With a outstanding and b
   * queued, a failed reply appends a behind b and leaves the dispatcher
   * idle with a non-empty buffer; a fresh c is then posted at once,
   * bypassing the queue, and three successes deliver c, b, a although a, b, c
   * were submitted in that order.
   */
  lemma FailureReordersDelivery(a: Payload, b: Payload, c: Payload)
    ensures var m := Run([Fresh(a), Fresh(b), Reply(false)]);
      !m.inFlight && m.buffer == [b, a]
    ensures var m := Run([Fresh(a), Fresh(b), Reply(false), Fresh(c)]);
      m.inFlight && m.outstanding == Some(c) && m.buffer == [b, a] && m.submitted == [a, b, c] &&
      RunFrom(m, Successes(3)).delivered == [c, b, a]
  {
    var m1 := Apply(Init(), Fresh(a));
    var m2 := Apply(m1, Fresh(b));
    var m3 := Apply(m2, Reply(false));
    var m4 := Apply(m3, Fresh(c));
    var e3 := [Fresh(a), Fresh(b), Reply(false)];
    var e4 := [Fresh(a), Fresh(b), Reply(false), Fresh(c)];
    assert RunFrom(Init(), e3) == RunFrom(m1, e3[1..]) == RunFrom(m2, e3[2..]) == RunFrom(m3, e3[3..]);
    assert e3[3..] == [];
    assert RunFrom(Init(), e4) == RunFrom(m1, e4[1..]) == RunFrom(m2, e4[2..]) == RunFrom(m3, e4[3..])
        == RunFrom(m4, e4[4..]);
    assert e4[4..] == [];
    Drain(m4);
  }
}
