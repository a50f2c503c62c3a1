/** Requests with idempotency keys running at once: what the middleware guarantees over every run. */
module IdempotentRuns {
  import opened Ledger
  import opened Idempotency
  import opened Json

  /** A request whose handler is running. */
  datatype Running = Running(key: string, fingerprint: string, owner: nat)

  /** What happened, in order. */
  datatype Event =
    | Started(key: string, fingerprint: string, owner: nat)
    /** `saved` if the answer was an envelope and the manager could be reached with it. */
    | Returned(key: string, fingerprint: string, owner: nat, status: int, response: Option<Response>, saved: bool)
    | Replayed(key: string, fingerprint: string, requestId: string, sent: Sent)
    | Refused(key: string, fingerprint: string, sent: Sent)
    | Expired(key: string)

  datatype Sys = Sys(entries: Entries, owners: nat, running: map<nat, Running>, log: seq<Event>)

  const INIT: Sys := Sys(map[], 0, map[], [])

  datatype Action =
    | Arrive(n: nat, key: string, fingerprint: string, requestId: string)
    /** The handler returned; the result may fail to be stored, or not be an envelope. */
    | Return(n: nat, status: int, response: Option<Response>, persists: bool)
    /** The process died or the client of the manager never came back. */
    | Vanish(n: nat)
    /** A time to live ran out. */
    | Expire(key: string)

  predicate Enabled(s: Sys, a: Action) {
    match a
    case Arrive(n, _, _, _) => n !in s.running
    case Return(n, _, _, _) => n in s.running
    case Vanish(n) => n in s.running
    case Expire(_) => true
  }

  function Apply(s: Sys, a: Action): Sys
    requires Enabled(s, a)
  {
    match a
    case Arrive(n, key, fingerprint, requestId) =>
      var t := s.(entries := Begun(s.entries, key, fingerprint, s.owners), owners := s.owners + 1);
      (match Decide(s.entries, key, fingerprint, s.owners)
       case Acquired(owner) =>
         t.(running := s.running[n := Running(key, fingerprint, owner)], log := s.log + [Started(key, fingerprint, owner)])
       case Replay(r) =>
         t.(log := s.log + [Replayed(key, fingerprint, requestId, Envelope(200, Decoded(r).(requestId := requestId)))])
       case ReplayFailure(f) =>
         t.(log := s.log + [Replayed(key, fingerprint, requestId,
                                     Envelope(f.status, Response(f.code, f.message, Json.Null, requestId)))])
       case InProgress => t.(log := s.log + [Refused(key, fingerprint, Refuse(Busy, requestId))])
       case Conflict => t.(log := s.log + [Refused(key, fingerprint, Refuse(Different, requestId))]))
    case Return(n, status, response, persists) =>
      var r := s.running[n];
      s.(running := s.running - {n}, log := s.log + [Returned(r.key, r.fingerprint, r.owner, status, response, response.Some? && persists)],
         entries := if response.Some? && persists then Settled(s.entries, r.key, r.owner, status, response.value)
                    else s.entries)
    case Vanish(n) => s.(running := s.running - {n})
    case Expire(key) => s.(entries := s.entries - {key}, log := s.log + [Expired(key)])
  }

  function Exec(actions: seq<Action>): Option<Sys> {
    if actions == [] then Some(INIT)
    else
      var before := Exec(actions[..|actions| - 1]);
      if before.Some? && Enabled(before.value, actions[|actions| - 1])
      then Some(Apply(before.value, actions[|actions| - 1])) else None
  }

  // ---- the invariant ------------------------------------------------------------------------

  /** The key did not expire between positions i and j. */
  ghost predicate LiveBetween(log: seq<Event>, key: string, i: int, j: int) {
    forall k :: i < k < j && 0 <= k < |log| ==> log[k] != Expired(key)
  }

  /** A key without an entry has expired since each of its starts. */
  ghost predicate FreeKeysExpired(es: Entries, log: seq<Event>) {
    forall i :: 0 <= i < |log| && log[i].Started? && log[i].key !in es ==> !LiveBetween(log, log[i].key, i, |log|)
  }

  /** Two starts under one key have an expiry between them. */
  ghost predicate StartsAreSeparate(log: seq<Event>) {
    forall i, j :: 0 <= i < j < |log| && log[i].Started? && log[j].Started? && log[i].key == log[j].key ==>
      !LiveBetween(log, log[i].key, i, j)
  }

  /** The event is a return that the stored result could have come from. */
  ghost predicate Origin(e: Event, key: string, entry: Entry) {
    && e.Returned? && e.key == key && e.fingerprint == entry.fingerprint && e.response.Some?
    && match entry
       case Processing(_, _) => false
       case Completed(_, r) => e.status < BAD_REQUEST && r == Decoded(e.response.value).(requestId := "")
       case Failed(_, f) =>
         e.status >= BAD_REQUEST && f == Failure(e.response.value.code, e.response.value.message, e.status)
  }

  /** Every stored result comes from a return since which the key has not expired. */
  ghost predicate ResultsHaveOrigin(es: Entries, log: seq<Event>) {
    forall key :: key in es && !es[key].Processing? ==>
      exists i :: 0 <= i < |log| && Origin(log[i], key, es[key]) && LiveBetween(log, key, i, |log|)
  }

  /** The answer is the returned one with the request id replaced, as far as the store keeps it. */
  predicate Repeats(e: Event, requestId: string, sent: Sent)
    requires e.Returned? && e.response.Some?
  {
    var r := e.response.value;
    sent == if e.status < BAD_REQUEST then Envelope(200, Decoded(r).(requestId := requestId))
            else Envelope(e.status, Response(r.code, r.message, Json.Null, requestId))
  }

  ghost predicate ReplayAt(log: seq<Event>, i: int, j: int)
    requires 0 <= i < j < |log| && log[j].Replayed?
  {
    && log[i].Returned? && log[i].key == log[j].key && log[i].fingerprint == log[j].fingerprint
    && log[i].response.Some? && Repeats(log[i], log[j].requestId, log[j].sent)
    && LiveBetween(log, log[j].key, i, j)
  }

  ghost predicate ReplaysHold(log: seq<Event>) {
    forall j :: 0 <= j < |log| && log[j].Replayed? ==> exists i :: 0 <= i < j && ReplayAt(log, i, j)
  }

  /** Owners are drawn once; an owner's entry carries its request's fingerprint. */
  ghost predicate OwnersHold(s: Sys) {
    && (forall n :: n in s.running ==> s.running[n].owner < s.owners)
    && (forall key :: key in s.entries && s.entries[key].Processing? ==> s.entries[key].owner < s.owners)
    && (forall n :: n in s.running && Owns(s.entries, s.running[n].key, s.running[n].owner) ==>
          s.entries[s.running[n].key].fingerprint == s.running[n].fingerprint)
  }

  // ---- the life of a key, read off the log ---------------------------------------------------

  /** The start at i holds the key just before j: the key has not expired in between. */
  ghost predicate HeldBy(log: seq<Event>, key: string, i: int, j: int) {
    0 <= i < j <= |log| && log[i].Started? && log[i].key == key && LiveBetween(log, key, i, j)
  }

  /** The result of the start at i was saved before j. */
  ghost predicate SavedBy(log: seq<Event>, i: int, j: int)
    requires 0 <= i < j <= |log| && log[i].Started?
  {
    exists k :: i < k < j && log[k].Returned? && log[k].key == log[i].key && log[k].owner == log[i].owner && log[k].saved
  }

  /** An entry is that of the start that holds the key, with a result exactly if one was saved. */
  ghost predicate EntryMatches(entry: Entry, log: seq<Event>, key: string, i: int) {
    && HeldBy(log, key, i, |log|) && entry.fingerprint == log[i].fingerprint
    && (entry.Processing? <==> !SavedBy(log, i, |log|))
    && (entry.Processing? ==> entry.owner == log[i].owner)
  }

  ghost predicate EntriesMatch(es: Entries, log: seq<Event>) {
    forall key :: key in es ==> exists i :: EntryMatches(es[key], log, key, i)
  }

  /** What a client hears: 409 with a code, for a request under way and for a different request. */
  predicate SaysBusy(sent: Sent) { sent.Envelope? && sent.status == 409 && sent.response.code == 30010 }

  predicate SaysDifferent(sent: Sent) { sent.Envelope? && sent.status == 409 && sent.response.code == 30009 }

  /** The refusal or replay at j fits the start at i that holds its key. */
  ghost predicate AnswerFits(log: seq<Event>, i: int, j: int)
    requires 0 <= j < |log| && (log[j].Refused? || log[j].Replayed?)
  {
    && HeldBy(log, log[j].key, i, j)
    && (log[j].Replayed? <==> log[i].fingerprint == log[j].fingerprint && SavedBy(log, i, j))
    && (log[j].Refused? ==>
          && (SaysBusy(log[j].sent) <==> log[i].fingerprint == log[j].fingerprint && !SavedBy(log, i, j))
          && (SaysDifferent(log[j].sent) <==> log[i].fingerprint != log[j].fingerprint))
  }

  ghost predicate AnswersFit(log: seq<Event>) {
    forall j :: 0 <= j < |log| && (log[j].Refused? || log[j].Replayed?) ==> exists i :: AnswerFits(log, i, j)
  }

  ghost predicate Inv(s: Sys) {
    && EntriesMatch(s.entries, s.log) && AnswersFit(s.log)
    && FreeKeysExpired(s.entries, s.log) && StartsAreSeparate(s.log)
    && ResultsHaveOrigin(s.entries, s.log) && ReplaysHold(s.log) && OwnersHold(s)
  }

  // ---- one event more -----------------------------------------------------------------------

  lemma LiveBetweenSnoc(log: seq<Event>, e: Event, key: string, i: int)
    requires i < |log|
    ensures LiveBetween(log + [e], key, i, |log| + 1) <==> LiveBetween(log, key, i, |log|) && e != Expired(key)
  {
    var more := log + [e];
    if LiveBetween(more, key, i, |log| + 1) {
      assert more[|log|] == e;
      forall k | i < k < |log| && 0 <= k ensures log[k] != Expired(key) {
        assert more[k] == log[k];
      }
    }
  }

  lemma LiveBetweenFrame(log: seq<Event>, e: Event, key: string, i: int, j: int)
    requires j <= |log|
    ensures LiveBetween(log + [e], key, i, j) <==> LiveBetween(log, key, i, j)
  {
    assert forall k :: 0 <= k < |log| ==> (log + [e])[k] == log[k];
  }

  /** An event that is no expiry keeps what is known of free keys, as long as entries stay or are added. */
  lemma FreeKeysSnoc(es: Entries, fs: Entries, log: seq<Event>, e: Event)
    requires FreeKeysExpired(es, log)
    requires e.Expired? ==> fs == es - {e.key}
    requires !e.Expired? ==> es.Keys <= fs.Keys && (e.Started? ==> e.key in fs)
    ensures FreeKeysExpired(fs, log + [e])
  {
    hide LiveBetween;
    var more := log + [e];
    forall i | 0 <= i < |more| && more[i].Started? && more[i].key !in fs ensures !LiveBetween(more, more[i].key, i, |more|) {
      if i < |log| {
        assert more[i] == log[i];
        LiveBetweenSnoc(log, e, log[i].key, i);
      }
    }
  }

  lemma StartsSnoc(es: Entries, log: seq<Event>, e: Event)
    requires StartsAreSeparate(log) && FreeKeysExpired(es, log) && (e.Started? ==> e.key !in es)
    ensures StartsAreSeparate(log + [e])
  {
    hide LiveBetween;
    var more := log + [e];
    forall i, j | 0 <= i < j < |more| && more[i].Started? && more[j].Started? && more[i].key == more[j].key
      ensures !LiveBetween(more, more[i].key, i, j)
    {
      assert more[i] == log[i];
      LiveBetweenFrame(log, e, log[i].key, i, j);
    }
  }

  lemma ResultsSnoc(es: Entries, fs: Entries, log: seq<Event>, e: Event)
    requires ResultsHaveOrigin(es, log)
    requires forall key :: key in fs && !fs[key].Processing? ==>
      (key in es && fs[key] == es[key] && e != Expired(key)) || Origin(e, key, fs[key])
    ensures ResultsHaveOrigin(fs, log + [e])
  {
    hide LiveBetween, Origin;
    var more := log + [e];
    forall key | key in fs && !fs[key].Processing?
      ensures exists i :: 0 <= i < |more| && Origin(more[i], key, fs[key]) && LiveBetween(more, key, i, |more|)
    {
      if Origin(e, key, fs[key]) {
        assert more[|log|] == e;
        NothingAfter(more, key);
      } else {
        var i :| 0 <= i < |log| && Origin(log[i], key, es[key]) && LiveBetween(log, key, i, |log|);
        LiveBetweenSnoc(log, e, key, i);
        assert more[i] == log[i];
      }
    }
  }

  lemma NothingAfter(log: seq<Event>, key: string)
    ensures LiveBetween(log, key, |log| - 1, |log|)
  {
  }

  lemma ReplaysSnoc(es: Entries, log: seq<Event>, e: Event)
    requires ReplaysHold(log) && ResultsHaveOrigin(es, log)
    requires e.Replayed? ==> e.key in es && !es[e.key].Processing? && es[e.key].fingerprint == e.fingerprint
    requires e.Replayed? ==> e.sent == StoredAnswer(es[e.key], e.requestId)
    ensures ReplaysHold(log + [e])
  {
    hide LiveBetween;
    var more := log + [e];
    forall j | 0 <= j < |more| && more[j].Replayed? ensures exists i :: 0 <= i < j && ReplayAt(more, i, j) {
      if j < |log| {
        assert more[j] == log[j];
        var i :| 0 <= i < j && ReplayAt(log, i, j);
        assert more[i] == log[i];
        LiveBetweenFrame(log, e, log[j].key, i, j);
        assert ReplayAt(more, i, j);
      } else {
        assert more[j] == e;
        var i :| 0 <= i < |log| && Origin(log[i], e.key, es[e.key]) && LiveBetween(log, e.key, i, |log|);
        assert more[i] == log[i];
        LiveBetweenFrame(log, e, e.key, i, j);
        OriginRepeats(log[i], e.key, es[e.key], e.requestId);
        assert ReplayAt(more, i, j);
      }
    }
  }

  lemma HeldSnoc(log: seq<Event>, e: Event, key: string, i: int, j: int)
    requires j <= |log|
    ensures HeldBy(log + [e], key, i, j) <==> HeldBy(log, key, i, j)
    ensures HeldBy(log, key, i, j) ==> (SavedBy(log + [e], i, j) <==> SavedBy(log, i, j))
  {
    hide LiveBetween;
    var more := log + [e];
    LiveBetweenFrame(log, e, key, i, j);
    if HeldBy(log, key, i, j) {
      assert forall k :: 0 <= k < |log| ==> more[k] == log[k];
    }
  }

  /** One event later the start still holds the key, unless that expired, and its result may have been saved. */
  lemma HeldLonger(log: seq<Event>, e: Event, key: string, i: int)
    requires HeldBy(log, key, i, |log|) && e != Expired(key)
    ensures HeldBy(log + [e], key, i, |log| + 1)
    ensures SavedBy(log + [e], i, |log| + 1)
       <==> SavedBy(log, i, |log|) || (e.Returned? && e.key == key && e.owner == log[i].owner && e.saved)
  {
    hide LiveBetween;
    var more := log + [e];
    LiveBetweenSnoc(log, e, key, i);
    assert forall k :: 0 <= k < |log| ==> more[k] == log[k];
    if e.Returned? && e.key == key && e.owner == log[i].owner && e.saved {
      assert more[|log|] == e;
    }
    if SavedBy(log, i, |log|) {
      var k :| i < k < |log| && log[k].Returned? && log[k].key == log[i].key && log[k].owner == log[i].owner && log[k].saved;
      assert more[k] == log[k];
    }
  }

  lemma JustStarted(log: seq<Event>, e: Event)
    requires e.Started?
    ensures HeldBy(log + [e], e.key, |log|, |log| + 1) && !SavedBy(log + [e], |log|, |log| + 1)
  {
    assert (log + [e])[|log|] == e;
  }

  /** What a step may do to an entry, given the event it logs. */
  predicate EntryStep(es: Entries, fs: Entries, key: string, e: Event)
    requires key in fs
  {
    if key !in es then e.Started? && e.key == key && fs[key] == Processing(e.fingerprint, e.owner)
    else
      && !(e.Started? && e.key == key) && e != Expired(key) && fs[key].fingerprint == es[key].fingerprint
      && if e.Returned? && e.key == key && e.saved && Owns(es, key, e.owner) then !fs[key].Processing? else fs[key] == es[key]
  }

  lemma EntriesSnoc(es: Entries, fs: Entries, log: seq<Event>, e: Event)
    requires EntriesMatch(es, log) && forall key :: key in fs ==> EntryStep(es, fs, key, e)
    ensures EntriesMatch(fs, log + [e])
  {
    hide HeldBy, SavedBy;
    forall key | key in fs ensures exists i :: EntryMatches(fs[key], log + [e], key, i) {
      assert EntryStep(es, fs, key, e);
      EntrySnoc(es, fs, log, e, key);
    }
  }

  lemma EntrySnoc(es: Entries, fs: Entries, log: seq<Event>, e: Event, key: string)
    requires EntriesMatch(es, log) && key in fs && EntryStep(es, fs, key, e)
    ensures exists i :: EntryMatches(fs[key], log + [e], key, i)
  {
    hide HeldBy, SavedBy, EntriesMatch;
    if key !in es {
      JustStarted(log, e);
      assert (log + [e])[|log|] == e;
      assert EntryMatches(fs[key], log + [e], key, |log|);
    } else {
      var i := MatchOf(es, log, key);
      HeldLonger(log, e, key, i);
      HeldIndex(log, key, i, |log|);
      assert (log + [e])[i] == log[i];
      assert EntryMatches(fs[key], log + [e], key, i);
    }
  }

  lemma MatchOf(es: Entries, log: seq<Event>, key: string) returns (i: int)
    requires EntriesMatch(es, log) && key in es
    ensures EntryMatches(es[key], log, key, i)
  {
    i :| EntryMatches(es[key], log, key, i);
  }

  lemma HeldIndex(log: seq<Event>, key: string, i: int, j: int)
    requires HeldBy(log, key, i, j)
    ensures 0 <= i < j <= |log| && log[i].Started? && log[i].key == key
  {
  }

  /** The answer to a request under a live key, by the state of its entry. */
  predicate AnswerStep(es: Entries, e: Event)
    requires e.Refused? || e.Replayed?
  {
    && e.key in es
    && (e.Replayed? <==> es[e.key].fingerprint == e.fingerprint && !es[e.key].Processing?)
    && (e.Refused? ==>
          && (SaysBusy(e.sent) <==> es[e.key].fingerprint == e.fingerprint && es[e.key].Processing?)
          && (SaysDifferent(e.sent) <==> es[e.key].fingerprint != e.fingerprint))
  }

  lemma AnswersSnoc(es: Entries, log: seq<Event>, e: Event)
    requires AnswersFit(log) && EntriesMatch(es, log) && (e.Refused? || e.Replayed? ==> AnswerStep(es, e))
    ensures AnswersFit(log + [e])
  {
    hide HeldBy, SavedBy, EntriesMatch, SaysBusy, SaysDifferent;
    var more := log + [e];
    forall j | 0 <= j < |more| && (more[j].Refused? || more[j].Replayed?) ensures exists i :: AnswerFits(more, i, j) {
      if j < |log| {
        assert more[j] == log[j];
        var i :| AnswerFits(log, i, j);
        HeldSnoc(log, e, log[j].key, i, j);
        HeldIndex(log, log[j].key, i, j);
        assert more[i] == log[i];
        assert AnswerFits(more, i, j);
      } else {
        assert more[j] == e;
        var i := MatchOf(es, log, e.key);
        HeldSnoc(log, e, e.key, i, |log|);
        HeldIndex(log, e.key, i, |log|);
        assert more[i] == log[i];
        assert AnswerFits(more, i, j);
      }
    }
  }

  /** What the middleware sends for a stored result. */
  function StoredAnswer(entry: Entry, requestId: string): Sent
    requires !entry.Processing?
  {
    match entry
    case Completed(_, r) => Envelope(200, Decoded(r).(requestId := requestId))
    case Failed(_, f) => Envelope(f.status, Response(f.code, f.message, Json.Null, requestId))
  }

  lemma OriginRepeats(e: Event, key: string, entry: Entry, requestId: string)
    requires Origin(e, key, entry)
    ensures !entry.Processing? && Repeats(e, requestId, StoredAnswer(entry, requestId))
  {
    hide ThroughAny;
    DecodedTwice(e.response.value);
  }

  // ---- steps --------------------------------------------------------------------------------

  lemma ArriveSteps(s: Sys, a: Action)
    requires a.Arrive? && Enabled(s, a)
    ensures var t := Apply(s, a);
      && |t.log| == |s.log| + 1 && t.log == s.log + [t.log[|s.log|]]
      && (forall key :: key in t.entries ==> EntryStep(s.entries, t.entries, key, t.log[|s.log|]))
  {
    hide Decoded, Refuse;
  }

  lemma ArriveAnswers(s: Sys, a: Action)
    requires a.Arrive? && Enabled(s, a)
    ensures var t := Apply(s, a);
      var e := t.log[|s.log|];
      && !e.Returned? && !e.Expired? && s.entries.Keys <= t.entries.Keys
      && (e.Started? ==> e.key in t.entries && e.key !in s.entries)
      && (e.Refused? || e.Replayed? ==> AnswerStep(s.entries, e))
      && (e.Replayed? ==> e.sent == StoredAnswer(s.entries[e.key], e.requestId))
  {
    hide Decoded;
  }

  lemma ArriveKeepsOwners(s: Sys, a: Action)
    requires a.Arrive? && Enabled(s, a) && OwnersHold(s)
    ensures OwnersHold(Apply(s, a))
  {
    hide Decoded, Refuse;
  }

  lemma ArriveKeepsInv(s: Sys, a: Action)
    requires a.Arrive? && Inv(s) && Enabled(s, a)
    ensures Inv(Apply(s, a))
  {
    hide LiveBetween, Origin, FreeKeysExpired, StartsAreSeparate, ResultsHaveOrigin, ReplaysHold, EntriesMatch, AnswersFit,
      OwnersHold, Apply, StoredAnswer;
    var t := Apply(s, a);
    ArriveSteps(s, a);
    ArriveAnswers(s, a);
    ArriveKeepsOwners(s, a);
    var e := t.log[|s.log|];
    EntriesSnoc(s.entries, t.entries, s.log, e);
    AnswersSnoc(s.entries, s.log, e);
    FreeKeysSnoc(s.entries, t.entries, s.log, e);
    StartsSnoc(s.entries, s.log, e);
    ResultsSnoc(s.entries, t.entries, s.log, e);
    ReplaysSnoc(s.entries, s.log, e);
  }

  lemma SettledOrigin(s: Sys, a: Action)
    requires a.Return? && OwnersHold(s) && Enabled(s, a)
    ensures var t := Apply(s, a);
      forall key :: key in t.entries && !t.entries[key].Processing? ==>
        (key in s.entries && t.entries[key] == s.entries[key]) || Origin(t.log[|s.log|], key, t.entries[key])
  {
  }

  lemma ReturnKeepsOwners(s: Sys, a: Action)
    requires a.Return? && OwnersHold(s) && Enabled(s, a)
    ensures OwnersHold(Apply(s, a)) && Apply(s, a).entries.Keys == s.entries.Keys
  {
  }

  lemma ReturnStep(s: Sys, a: Action)
    requires a.Return? && Enabled(s, a)
    ensures var t := Apply(s, a); forall key :: key in t.entries ==> EntryStep(s.entries, t.entries, key, t.log[|s.log|])
  {
  }

  lemma ReturnKeepsInv(s: Sys, a: Action)
    requires a.Return? && Inv(s) && Enabled(s, a)
    ensures Inv(Apply(s, a))
  {
    hide LiveBetween, Origin, FreeKeysExpired, StartsAreSeparate, ResultsHaveOrigin, ReplaysHold, OwnersHold, Settled,
      EntriesMatch, AnswersFit, EntryStep;
    var t := Apply(s, a);
    var e := t.log[|s.log|];
    assert t.log == s.log + [e];
    ReturnStep(s, a);
    EntriesSnoc(s.entries, t.entries, s.log, e);
    AnswersSnoc(s.entries, s.log, e);
    ReturnKeepsOwners(s, a);
    SettledOrigin(s, a);
    FreeKeysSnoc(s.entries, t.entries, s.log, e);
    StartsSnoc(s.entries, s.log, e);
    ResultsSnoc(s.entries, t.entries, s.log, e);
    ReplaysSnoc(s.entries, s.log, e);
  }

  lemma ExpireKeepsInv(s: Sys, key: string)
    requires Inv(s)
    ensures Inv(Apply(s, Expire(key)))
  {
    hide LiveBetween, Origin, FreeKeysExpired, StartsAreSeparate, ResultsHaveOrigin, ReplaysHold, EntriesMatch, AnswersFit;
    var t, e := Apply(s, Expire(key)), Expired(key);
    EntriesSnoc(s.entries, t.entries, s.log, e);
    AnswersSnoc(s.entries, s.log, e);
    FreeKeysSnoc(s.entries, t.entries, s.log, e);
    StartsSnoc(s.entries, s.log, e);
    ResultsSnoc(s.entries, t.entries, s.log, e);
    ReplaysSnoc(s.entries, s.log, e);
  }

  lemma {:induction false} RunsKeepInv(actions: seq<Action>)
    requires Exec(actions).Some?
    ensures Inv(Exec(actions).value)
  {
    if actions != [] {
      RunsKeepInv(actions[..|actions| - 1]);
      StepKeepsInv(Exec(actions[..|actions| - 1]).value, actions[|actions| - 1]);
    }
  }

  lemma StepKeepsInv(s: Sys, a: Action)
    requires Inv(s) && Enabled(s, a)
    ensures Inv(Apply(s, a))
  {
    hide Inv;
    match a
    case Arrive(_, _, _, _) => ArriveKeepsInv(s, a);
    case Return(_, _, _, _) => ReturnKeepsInv(s, a);
    case Vanish(n) => VanishKeepsInv(s, n);
    case Expire(key) => ExpireKeepsInv(s, key);
  }

  lemma VanishKeepsInv(s: Sys, n: nat)
    requires Inv(s) && Enabled(s, Vanish(n))
    ensures Inv(Apply(s, Vanish(n)))
  {
    hide FreeKeysExpired, StartsAreSeparate, ResultsHaveOrigin, ReplaysHold, EntriesMatch, AnswersFit;
  }

  // ---- what every run guarantees ------------------------------------------------------------

  /** Two handler executions under one key always have an expiry of that key between them. */
  lemma EveryRunStartsOncePerLiveKey(actions: seq<Action>, i: nat, j: nat)
    requires Exec(actions).Some? && i < j < |Exec(actions).value.log|
    requires var log := Exec(actions).value.log; log[i].Started? && log[j].Started? && log[i].key == log[j].key
    ensures exists k :: i < k < j && Exec(actions).value.log[k] == Expired(Exec(actions).value.log[i].key)
  {
    hide Exec;
    RunsKeepInv(actions);
    assert !LiveBetween(Exec(actions).value.log, Exec(actions).value.log[i].key, i, j);
  }

  /**
   * Every replay answers a request with the same key and fingerprint as an earlier return, since which the key has
   * not expired; a stored success is sent with only the request id replaced.
   */
  lemma EveryRunReplaysAReturn(actions: seq<Action>, j: nat) returns (i: nat)
    requires Exec(actions).Some? && j < |Exec(actions).value.log| && Exec(actions).value.log[j].Replayed?
    ensures i < j && ReplayAt(Exec(actions).value.log, i, j)
  {
    hide Exec, ReplayAt;
    RunsKeepInv(actions);
    i :| 0 <= i < j && ReplayAt(Exec(actions).value.log, i, j);
  }

  /**
   * What becomes of a request, read off the log alone. If a start i holds its key, the request is told that it differs
   * exactly if its fingerprint does; it is told that the first one is under way exactly if the fingerprint is the same
   * and no result was saved; and it gets a replay exactly if one was. It starts a handler exactly if no start holds the
   * key.
   */
  lemma EveryRunAnswersByTheLog(actions: seq<Action>, i: int, j: nat)
    requires Exec(actions).Some? && j < |Exec(actions).value.log|
    requires var e := Exec(actions).value.log[j]; e.Started? || e.Refused? || e.Replayed?
    requires HeldBy(Exec(actions).value.log, Exec(actions).value.log[j].key, i, j)
    ensures var log := Exec(actions).value.log;
      var same := log[i].fingerprint == log[j].fingerprint;
      && !log[j].Started?
      && (log[j].Refused? && SaysDifferent(log[j].sent) <==> !same)
      && (log[j].Refused? && SaysBusy(log[j].sent) <==> same && !SavedBy(log, i, j))
      && (log[j].Replayed? <==> same && SavedBy(log, i, j))
  {
    hide Exec, SavedBy, LiveBetween, SaysBusy, SaysDifferent;
    RunsKeepInv(actions);
    var log := Exec(actions).value.log;
    if log[j].Refused? || log[j].Replayed? {
      var h :| AnswerFits(log, h, j);
      OneHolder(log, log[j].key, h, i, j);
    }
  }

  lemma EveryRunStartsFreeKeys(actions: seq<Action>, j: nat)
    requires Exec(actions).Some? && j < |Exec(actions).value.log|
    requires var e := Exec(actions).value.log[j]; e.Started? || e.Refused? || e.Replayed?
    requires forall i :: !HeldBy(Exec(actions).value.log, Exec(actions).value.log[j].key, i, j)
    ensures Exec(actions).value.log[j].Started?
  {
    hide Exec, SavedBy, LiveBetween, SaysBusy, SaysDifferent, HeldBy;
    RunsKeepInv(actions);
  }

  /** At most one start holds a key at a time. */
  lemma OneHolder(log: seq<Event>, key: string, h: int, i: int, j: int)
    requires StartsAreSeparate(log) && HeldBy(log, key, h, j) && HeldBy(log, key, i, j)
    ensures h == i
  {
  }

  /** A request under a live key never starts a handler, whatever its fingerprint and whatever the entry's state. */
  lemma LiveKeyNeverStarts(s: Sys, a: Action)
    requires a.Arrive? && Enabled(s, a) && a.key in s.entries
    ensures var t := Apply(s, a);
      && t.running == s.running && t.entries == s.entries
      && !t.log[|s.log|].Started?
      && (s.entries[a.key].fingerprint != a.fingerprint || s.entries[a.key].Processing? ==> t.log[|s.log|].Refused?)
  {
  }
}
