/** The HTTP idempotency middleware and the manager whose state it drives. */
module Idempotency {
  import opened Ledger
  import opened Json

  // ---- the manager --------------------------------------------------------------------------

  /** The unified JSON envelope. */
  datatype Response = Response(code: int, message: string, body: Json, requestId: string)

  /** The envelope decoded into the Response struct, whose body has type any. */
  function Decoded(r: Response): Response { r.(body := ThroughAny(r.body)) }

  datatype Failure = Failure(code: int, message: string, status: int)

  /** What is stored under a live key. */
  datatype Entry =
    | Processing(fingerprint: string, owner: nat)
    | Completed(fingerprint: string, response: Response)
    | Failed(fingerprint: string, failure: Failure)

  type Entries = map<string, Entry>

  datatype Decision = Acquired(owner: nat) | InProgress | Replay(response: Response) | ReplayFailure(failure: Failure) | Conflict

  function Decide(es: Entries, key: string, fingerprint: string, owner: nat): Decision {
    if key !in es then Acquired(owner)
    else if es[key].fingerprint != fingerprint then Conflict
    else
      match es[key]
      case Processing(_, _) => InProgress
      case Completed(_, r) => Replay(r)
      case Failed(_, f) => ReplayFailure(f)
  }

  function Begun(es: Entries, key: string, fingerprint: string, owner: nat): Entries {
    if key !in es then es[key := Processing(fingerprint, owner)] else es
  }

  predicate Owns(es: Entries, key: string, owner: nat) {
    key in es && es[key].Processing? && es[key].owner == owner
  }

  /** The first client error status. */
  const BAD_REQUEST: int := 400

  /** Complete or Fail by the owner, with a decoded envelope; anyone else's call is refused and changes nothing. */
  function Settled(es: Entries, key: string, owner: nat, status: int, r: Response): Entries {
    if !Owns(es, key, owner) then es
    else if status >= BAD_REQUEST then es[key := Failed(es[key].fingerprint, Failure(r.code, r.message, status))]
    else es[key := Completed(es[key].fingerprint, Decoded(r).(requestId := ""))]
  }

  class Manager {
    var entries: Entries
    var owners: nat

    constructor ()
      ensures entries == map[] && owners == 0
    {
      entries, owners := map[], 0;
    }

    method Begin(key: string, fingerprint: string) returns (d: Decision)
      modifies this
      ensures d == Decide(old(entries), key, fingerprint, old(owners))
      ensures key !in old(entries) ==> d == Acquired(old(owners))
      ensures key in old(entries) ==>
        var entry := old(entries)[key];
        && (d == Conflict <==> entry.fingerprint != fingerprint)
        && (d == InProgress <==> entry.fingerprint == fingerprint && entry.Processing?)
        && (entry.fingerprint == fingerprint && entry.Completed? ==> d == Replay(entry.response))
        && (entry.fingerprint == fingerprint && entry.Failed? ==> d == ReplayFailure(entry.failure))
      ensures entries == Begun(old(entries), key, fingerprint, old(owners)) && owners == old(owners) + 1
    {
      d := Decide(entries, key, fingerprint, owners);
      if d.Acquired? {
        entries := entries[key := Processing(fingerprint, owners)];
      }
      owners := owners + 1;
    }

    method Complete(key: string, owner: nat, r: Response) returns (ok: bool)
      modifies this`entries
      ensures ok <==> Owns(old(entries), key, owner)
      ensures entries == if ok then old(entries)[key := Completed(old(entries)[key].fingerprint, r)] else old(entries)
    {
      ok := Owns(entries, key, owner);
      if ok {
        entries := entries[key := Completed(entries[key].fingerprint, r)];
      }
    }

    method Fail(key: string, owner: nat, f: Failure) returns (ok: bool)
      modifies this`entries
      ensures ok <==> Owns(old(entries), key, owner)
      ensures entries == if ok then old(entries)[key := Failed(old(entries)[key].fingerprint, f)] else old(entries)
    {
      ok := Owns(entries, key, owner);
      if ok {
        entries := entries[key := Failed(entries[key].fingerprint, f)];
      }
    }

    method Expire(key: string)
      modifies this`entries
      ensures entries == old(entries) - {key}
    {
      entries := entries - {key};
    }
  }

  // ---- the middleware -----------------------------------------------------------------------

  /** responseCapture: everything written goes to the client and into the buffer. */
  class Capture {
    var body: string
    var sent: string

    constructor ()
      ensures body == "" && sent == ""
    {
      body, sent := "", "";
    }

    method Write(value: string)
      modifies this
      ensures body == old(body) + value && sent == old(sent) + value
    {
      body := body + value;
      sent := sent + value;
    }
  }

  function Joined(chunks: seq<string>): string {
    if chunks == [] then "" else Joined(chunks[..|chunks| - 1]) + chunks[|chunks| - 1]
  }

  /** What the client receives: the handler's own bytes, or an envelope from the middleware. */
  datatype Sent = Bytes(status: int, text: string) | Envelope(status: int, response: Response)

  /** The refusals of the middleware, each with its HTTP status, code and message. */
  datatype Refusal = Unreadable | Unavailable | Undecodable | UnknownState | Busy | Different

  function Refuse(why: Refusal, requestId: string): Sent {
    match why
    case Unreadable => Envelope(400, Response(10001, "read idempotent request", Json.Null, requestId))
    case Unavailable => Envelope(503, Response(50003, "idempotency is unavailable", Json.Null, requestId))
    case Undecodable => Envelope(503, Response(50003, "idempotency response is unavailable", Json.Null, requestId))
    case UnknownState => Envelope(503, Response(50003, "idempotency state is invalid", Json.Null, requestId))
    case Busy => Envelope(409, Response(30010, "request is already processing", Json.Null, requestId))
    case Different => Envelope(409, Response(30009, "idempotency key belongs to a different request", Json.Null, requestId))
  }

  /**
   * What goes well around a request: its body can be read, the manager answers, with a state it knows, a stored
   * response can be decoded, and the result can be stored.
   */
  datatype Conditions = Conditions(readable: bool, available: bool, known: bool, decodable: bool, persists: bool)

  const FINE: Conditions := Conditions(true, true, true, true, true)

  /** What the handler would do if called: its status and its writes. */
  datatype Handler = Handler(status: int, chunks: seq<string>)

  datatype Outcome = Outcome(entries: Entries, sent: Sent, ran: bool)

  /**
   * IdempotencyExecution for a request it applies to; `parse` reads an envelope from its JSON text.
   */
  function Executed(es: Entries, owner: nat, key: string, fingerprint: string, requestId: string, h: Handler,
                    parse: string -> Option<Response>, c: Conditions): Outcome {
    if !c.readable then Outcome(es, Refuse(Unreadable, requestId), false)
    else if !c.available then Outcome(es, Refuse(Refusal.Unavailable, requestId), false)
    else if !c.known then Outcome(es, Refuse(UnknownState, requestId), false)
    else
      match Decide(es, key, fingerprint, owner)
      case Replay(r) =>
        Outcome(es, if c.decodable then Envelope(200, Decoded(r).(requestId := requestId)) else Refuse(Undecodable, requestId),
                false)
      case ReplayFailure(f) => Outcome(es, Envelope(f.status, Response(f.code, f.message, Json.Null, requestId)), false)
      case InProgress => Outcome(es, Refuse(Busy, requestId), false)
      case Conflict => Outcome(es, Refuse(Different, requestId), false)
      case Acquired(_) =>
        var text, begun := Joined(h.chunks), Begun(es, key, fingerprint, owner);
        var parsed := parse(text);
        Outcome(if parsed.Some? && c.persists then Settled(begun, key, owner, h.status, parsed.value) else begun,
                Bytes(h.status, text), true)
  }

  method Execute(m: Manager, key: string, fingerprint: string, requestId: string, h: Handler,
                 parse: string -> Option<Response>, c: Conditions)
    returns (sent: Sent, ran: bool)
    modifies m
    ensures Outcome(m.entries, sent, ran)
         == Executed(old(m.entries), old(m.owners), key, fingerprint, requestId, h, parse, c)
    ensures ran <==> c.readable && c.available && c.known && key !in old(m.entries)
    ensures !c.readable ==> sent == Envelope(400, Response(10001, "read idempotent request", Json.Null, requestId))
    ensures c.readable && !c.available ==> sent == Envelope(503, Response(50003, "idempotency is unavailable", Json.Null, requestId))
    ensures c.readable && c.available && !c.known ==> sent == Envelope(503, Response(50003, "idempotency state is invalid", Json.Null, requestId))
    ensures c.readable && c.available && c.known && key in old(m.entries) ==>
      var entry := old(m.entries)[key];
      && m.entries == old(m.entries)
      && (entry.fingerprint != fingerprint ==>
            sent == Envelope(409, Response(30009, "idempotency key belongs to a different request", Json.Null, requestId)))
      && (entry.fingerprint == fingerprint && entry.Processing? ==>
            sent == Envelope(409, Response(30010, "request is already processing", Json.Null, requestId)))
      && (entry.fingerprint == fingerprint && entry.Completed? && !c.decodable ==>
            sent == Envelope(503, Response(50003, "idempotency response is unavailable", Json.Null, requestId)))
      && (entry.fingerprint == fingerprint && entry.Failed? ==>
            sent == Envelope(entry.failure.status, Response(entry.failure.code, entry.failure.message, Json.Null, requestId)))
    ensures ran ==> sent == Bytes(h.status, Joined(h.chunks))
  {
    if !c.readable {
      return Refuse(Unreadable, requestId), false;
    }
    if !c.available {
      return Refuse(Refusal.Unavailable, requestId), false;
    }
    if !c.known {
      return Refuse(UnknownState, requestId), false;
    }
    var decision := m.Begin(key, fingerprint);
    match decision
    case Replay(stored) =>
      if !c.decodable {
        return Refuse(Undecodable, requestId), false;
      }
      var replay := Decoded(stored);
      return Envelope(200, replay.(requestId := requestId)), false;
    case ReplayFailure(f) => return Envelope(f.status, Response(f.code, f.message, Json.Null, requestId)), false;
    case InProgress => return Refuse(Busy, requestId), false;
    case Conflict => return Refuse(Different, requestId), false;
    case Acquired(owner) =>
      var capture := new Capture();
      for i := 0 to |h.chunks|
        modifies capture
        invariant capture.body == capture.sent == Joined(h.chunks[..i])
      {
        capture.Write(h.chunks[i]);
        assert h.chunks[..i + 1][..i] == h.chunks[..i];
      }
      assert h.chunks[..|h.chunks|] == h.chunks;
      sent, ran := Bytes(h.status, capture.sent), true;
      var parsed := parse(capture.body);
      if parsed.None? || !c.persists {
        return;
      }
      var r := Decoded(parsed.value).(requestId := "");
      if h.status >= BAD_REQUEST {
        var _ := m.Fail(key, owner, Failure(r.code, r.message, h.status));
      } else {
        var _ := m.Complete(key, owner, r);
      }
  }

  /** The client's request and its repetition under the same key, answered by a handler that writes envelope r. */
  function Repeated(es: Entries, owner: nat, again: nat, key: string, fingerprint: string, requestId: string, h: Handler,
                    parse: string -> Option<Response>, r: Response, other: Handler): (Outcome, Outcome) {
    var first := Executed(es, owner, key, fingerprint, r.requestId, h, parse, FINE);
    (first, Executed(first.entries, again, key, fingerprint, requestId, other, parse, FINE))
  }

  /**
   * A repeated request does not run the handler; its answer is the first one with the request id replaced exactly
   * when the first answer had status 200 and only numbers that survive a float, or was an error without a body.
   */
  lemma ReplayRepeatsTheAnswer(es: Entries, owner: nat, again: nat, key: string, fingerprint: string, requestId: string,
                               h: Handler, parse: string -> Option<Response>, r: Response, other: Handler)
    requires key !in es && parse(Joined(h.chunks)) == Some(r)
    ensures var (first, second) := Repeated(es, owner, again, key, fingerprint, requestId, h, parse, r, other);
      && first.ran && !second.ran && second.entries == first.entries
      && (second.sent == Envelope(h.status, r.(requestId := requestId))
          <==> (h.status == 200 && Survives(r.body)) || (h.status >= BAD_REQUEST && r.body == Json.Null))
  {
    hide ThroughAny, Survives, Joined;
    DecodedTwice(r);
    UnchangedIffSurvives(r.body);
  }

  lemma DecodedTwice(r: Response)
    ensures Decoded(Decoded(r)) == Decoded(r)
  {
    hide ThroughAny, Survives;
    SecondPassChangesNothing(r.body);
    UnchangedIffSurvives(ThroughAny(r.body));
  }

  /** How every handler of the service answers: OK with status 200, or Fail with an error status and no body. */
  predicate Unified(status: int, r: Response) {
    status == 200 || (status >= BAD_REQUEST && r.body == Json.Null)
  }

  /** So a replay repeats every failure, and every success without a number beyond 2^53. */
  lemma UnifiedAnswersReplay(es: Entries, owner: nat, again: nat, key: string, fingerprint: string, requestId: string,
                             h: Handler, parse: string -> Option<Response>, r: Response, other: Handler)
    requires key !in es && parse(Joined(h.chunks)) == Some(r) && Unified(h.status, r)
    ensures var (_, second) := Repeated(es, owner, again, key, fingerprint, requestId, h, parse, r, other);
      && (second.sent == Envelope(h.status, r.(requestId := requestId)) <==> Survives(r.body))
      && (Small(r.body) ==> second.sent == Envelope(h.status, r.(requestId := requestId)))
  {
    hide Joined, Repeated;
    ReplayRepeatsTheAnswer(es, owner, again, key, fingerprint, requestId, h, parse, r, other);
    if Small(r.body) {
      SmallValuesSurvive(r.body);
    }
  }

  /** The success envelope around a body. */
  function Success(body: Json, requestId: string): Response { Response(0, "success", body, requestId) }

  /** A success is replayed with the body that comes out of any. */
  lemma SuccessIsReplayedThroughAny(key: string, fingerprint: string, parse: string -> Option<Response>, text: string,
                                    body: Json, other: Handler)
    requires parse(text) == Some(Success(body, "first"))
    ensures var (_, second) := Repeated(map[], 0, 1, key, fingerprint, "second", Handler(200, [text]), parse,
                                        Success(body, "first"), other);
      second.sent == Envelope(200, Success(ThroughAny(body), "second"))
  {
    hide ThroughAny;
    assert [text][..0] == [];
    assert Joined([text]) == text;
    DecodedTwice(Success(body, "first"));
  }
}
