/**
 * A client that posts one usage batch again and again under one idempotency key, through the middleware and the
 * RecordUsage handler, while stored answers expire and other callers commit.
 */
module HttpRetry {
  import opened Ledger
  import opened Text
  import opened Ingestion
  import opened Validation
  import opened Soundness
  import opened Service
  import opened Retry
  import opened HttpAnswers

  // ---- runs ---------------------------------------------------------------------------------

  /** The batch and the key it is sent under. */
  datatype Client = Client(codec: Codec, inputs: seq<UsageInput>, key: string, fingerprint: string)

  datatype World = World(store: Store, entries: Middleware.Entries, owners: nat, answers: seq<Sent>)

  datatype Step =
    | Post(try: Try, requestId: string, conditions: Middleware.Conditions)
    /** The stored answer's time to live ran out. */
    | Expire
    /** Other callers committed. */
    | Others(later: Store)

  ghost predicate Enabled(c: Client, w: World, step: Step) {
    match step
    case Post(t, _, _) => |t.ids| == |c.inputs| && FreshSupply(w.store, t.ids)
    case Expire => true
    case Others(later) => Sound(later) && Extends(w.store, later)
  }

  /** The outcome of one request. */
  function Outcome(c: Client, w: World, p: Step): Middleware.Outcome
    requires p.Post? && |p.try.ids| == |c.inputs|
  {
    Middleware.Executed(w.entries, w.owners, c.key, c.fingerprint, p.requestId,
                        Replies(c.codec, ReplyOf(Attempt(w.store, c.inputs, p.try)), p.requestId), c.codec.decode,
                        p.conditions)
  }

  ghost function Apply(c: Client, w: World, step: Step): World
    requires Enabled(c, w, step)
  {
    match step
    case Post(t, _, _) =>
      var out := Outcome(c, w, step);
      World(if out.ran then Attempt(w.store, c.inputs, t).store else w.store, out.entries, w.owners + 1,
            w.answers + [out.sent])
    case Expire => w.(entries := w.entries - {c.key})
    case Others(later) => w.(store := later)
  }

  /** The world after a run from tables `s`, if every step was enabled in its turn. */
  ghost function Exec(c: Client, s: Store, steps: seq<Step>): Option<World> {
    if steps == [] then Some(World(s, map[], 0, []))
    else
      var before := Exec(c, s, steps[..|steps| - 1]);
      if before.Some? && Enabled(c, before.value, steps[|steps| - 1])
      then Some(Apply(c, before.value, steps[|steps| - 1])) else None
  }

  // ---- the invariant ------------------------------------------------------------------------

  /** Result i names event i of the batch and the fact that owns it. */
  ghost predicate Owned(s: Store, inputs: seq<UsageInput>, rs: seq<RecordResult>) {
    |rs| == |inputs| && forall i :: 0 <= i < |rs| ==>
      && rs[i].eventId == Trim(inputs[i].eventId) && rs[i].eventId in s.keys
      && s.keys[rs[i].eventId].factId == rs[i].factId
  }

  /** A success lists the owners. */
  ghost predicate Truthful(c: Client, s: Store, r: Response) {
    r.code == CODE_OK ==> exists rs :: r.body == Listed(c.codec, rs) && Owned(s, c.inputs, rs)
  }

  /** What the client reads. */
  function Read(c: Codec, sent: Sent): Option<Response> {
    match sent
    case Bytes(_, text) => c.decode(text)
    case Envelope(_, r) => Some(r)
  }

  ghost predicate TruthfulSent(c: Client, s: Store, sent: Sent) {
    Read(c.codec, sent).Some? ==> Truthful(c, s, Read(c.codec, sent).value)
  }

  ghost predicate TruthfulEntry(c: Client, s: Store, entry: Middleware.Entry) {
    match entry
    case Processing(_, _) => true
    case Completed(_, r) => Truthful(c, s, r)
    case Failed(_, f) => f.code != CODE_OK
  }

  ghost predicate Inv(c: Client, w: World) {
    && Sound(w.store)
    && (c.key in w.entries ==> TruthfulEntry(c, w.store, w.entries[c.key]))
    && (forall i :: 0 <= i < |w.answers| ==> TruthfulSent(c, w.store, w.answers[i]))
  }

  lemma TruthfulStays(c: Client, s: Store, t: Store, r: Response)
    requires Truthful(c, s, r) && Extends(s, t)
    ensures Truthful(c, t, r)
  {
    if r.code == CODE_OK {
      var rs :| r.body == Listed(c.codec, rs) && Owned(s, c.inputs, rs);
      assert Owned(t, c.inputs, rs);
    }
  }

  lemma InvStays(c: Client, w: World, t: Store)
    requires Inv(c, w) && Sound(t) && Extends(w.store, t)
    ensures Inv(c, w.(store := t))
  {
    hide Sound, Extends, Truthful;
    forall i | 0 <= i < |w.answers| ensures TruthfulSent(c, t, w.answers[i]) {
      assert TruthfulSent(c, w.store, w.answers[i]);
      if Read(c.codec, w.answers[i]).Some? {
        TruthfulStays(c, w.store, t, Read(c.codec, w.answers[i]).value);
      }
    }
    if c.key in w.entries && w.entries[c.key].Completed? {
      TruthfulStays(c, w.store, t, w.entries[c.key].response);
    }
  }

  // ---- one request --------------------------------------------------------------------------

  /** A successful attempt answers with the owners. */
  lemma AttemptOwns(s: Store, inputs: seq<UsageInput>, t: Try)
    requires |t.ids| == |inputs| && Attempt(s, inputs, t).error.None?
    ensures Owned(Attempt(s, inputs, t).store, inputs, Attempt(s, inputs, t).results)
  {
    hide CheckEach, Ingest, Process, Extends, SameTarget, Trim;
    var env := Env(t.caller, t.verify, s.meters, t.now);
    var fs := CheckEach(env, inputs, t.ids).value;
    var landed := Ingest(s, fs, t.now, t.caller.id);
    ExtendsIsReflexive(landed);
    CheckEachLength(env, inputs, t.ids);
    ProcessResults(s.keys, fs);
    forall i | 0 <= i < |fs| ensures OwnedLater(s, fs, landed, i) && fs[i].eventId == Trim(inputs[i].eventId) {
      LandedStays(s, fs, t.now, t.caller.id, landed, i);
      CheckedEvent(env, inputs, t.ids, i);
    }
  }

  lemma CheckedEvent(env: Env, inputs: seq<UsageInput>, ids: seq<Id>, i: nat)
    requires |ids| == |inputs| && CheckEach(env, inputs, ids).Ok? && i < |inputs|
    ensures |CheckEach(env, inputs, ids).value| == |inputs|
    ensures CheckEach(env, inputs, ids).value[i].eventId == Trim(inputs[i].eventId)
  {
    hide CheckOne, Trim, Code;
    CollectAligns(Checks(env, inputs, ids));
    assert Checks(env, inputs, ids)[i] == Ok(CheckEach(env, inputs, ids).value[i]);
    CheckedOneIsSound(env, inputs[i], ids[i]);
  }

  lemma EnvelopeIsTruthful(c: Client, s: Store, t: Try, requestId: string)
    requires |t.ids| == |c.inputs|
    ensures var recorded := Attempt(s, c.inputs, t);
      Truthful(c, recorded.store, Envelope(c.codec, ReplyOf(recorded), requestId))
  {
    hide Attempt, Owned;
    if Attempt(s, c.inputs, t).error.None? {
      AttemptOwns(s, c.inputs, t);
    }
  }

  /** Whatever the request meets, the answer and the stored entry are truthful on the tables it leaves. */
  lemma OutcomeIsTruthful(c: Client, w: World, p: Step)
    requires RoundTrips(c.codec) && Inv(c, w) && p.Post? && Enabled(c, w, p)
    ensures var out := Outcome(c, w, p);
      var after := if out.ran then Attempt(w.store, c.inputs, p.try).store else w.store;
      && TruthfulSent(c, after, out.sent)
      && (out.ran ==> c.key !in w.entries && c.key in out.entries && TruthfulEntry(c, after, out.entries[c.key]))
      && (!out.ran ==> out.entries == w.entries)
  {
    hide Sound, Attempt, Owned, FreshSupply, J.ThroughAny, Truthful, Middleware.Decoded, Envelope;
    var recorded := Attempt(w.store, c.inputs, p.try);
    var r := Envelope(c.codec, ReplyOf(recorded), p.requestId);
    EnvelopeIsTruthful(c, w.store, p.try, p.requestId);
    JoinedOne(c.codec.encode(r));
    assert c.codec.decode(c.codec.encode(r)) == Some(r);
    DecodedIsTruthful(c, recorded.store, r);
    FailureHasNoSuccessCode(c.codec, recorded, p.requestId);
    if c.key in w.entries && w.entries[c.key].Completed? {
      DecodedIsTruthful(c, w.store, w.entries[c.key].response);
    }
    ErrorsAreTruthful(c, w.store);
  }

  /** An envelope with another code promises nothing. */
  lemma ErrorsAreTruthful(c: Client, s: Store)
    ensures forall r: Response :: r.code != CODE_OK ==> Truthful(c, s, r)
  {
  }

  lemma FailureHasNoSuccessCode(c: Codec, recorded: Recorded, requestId: string)
    ensures recorded.error.Some? <==> Envelope(c, ReplyOf(recorded), requestId).code != CODE_OK
  {
  }

  /** The request id and a passage through any change nothing a success says. */
  lemma DecodedIsTruthful(c: Client, s: Store, r: Response)
    requires Truthful(c, s, r)
    ensures forall id :: Truthful(c, s, Middleware.Decoded(r).(requestId := id))
  {
    hide J.ThroughAny, Owned, Listed;
    if r.code == CODE_OK {
      var rs :| r.body == Listed(c.codec, rs) && Owned(s, c.inputs, rs);
      ListedSurvives(c.codec, rs);
      assert Middleware.Decoded(r).body == Listed(c.codec, rs);
    }
  }

  lemma PostKeepsInv(c: Client, w: World, p: Step)
    requires RoundTrips(c.codec) && Inv(c, w) && p.Post? && Enabled(c, w, p)
    ensures Inv(c, Apply(c, w, p)) && Extends(w.store, Apply(c, w, p).store)
  {
    hide Sound, Extends, Outcome, TruthfulSent, TruthfulEntry, FreshSupply, RoundTrips;
    var t := Apply(c, w, p);
    AttemptExtends(w.store, c.inputs, p.try);
    ExtendsIsReflexive(w.store);
    InvStays(c, w, t.store);
    OutcomeIsTruthful(c, w, p);
    forall i | 0 <= i < |t.answers| ensures TruthfulSent(c, t.store, t.answers[i]) {
      if i < |w.answers| {
        assert t.answers[i] == w.(store := t.store).answers[i];
      }
    }
  }

  lemma AttemptExtends(s: Store, inputs: seq<UsageInput>, t: Try)
    requires Sound(s) && |t.ids| == |inputs| && FreshSupply(s, t.ids)
    ensures Sound(Attempt(s, inputs, t).store) && Extends(s, Attempt(s, inputs, t).store)
  {
    hide Sound, Extends, Record, FreshSupply;
    RecordKeepsSound(s, t.caller, t.verify, inputs, t.ids, t.now, t.fate);
  }

  lemma StepKeepsInv(c: Client, w: World, step: Step)
    requires RoundTrips(c.codec) && Inv(c, w) && Enabled(c, w, step)
    ensures Inv(c, Apply(c, w, step)) && Extends(w.store, Apply(c, w, step).store)
  {
    hide Sound, Extends, TruthfulSent, TruthfulEntry, FreshSupply, RoundTrips, Outcome, Attempt;
    ExtendsIsReflexive(w.store);
    match step
    case Post(_, _, _) => PostKeepsInv(c, w, step);
    case Expire =>
    case Others(later) => InvStays(c, w, later);
  }

  lemma {:induction false} RunsKeepInv(c: Client, s: Store, steps: seq<Step>, n: nat)
    requires RoundTrips(c.codec) && Sound(s) && n <= |steps| && Exec(c, s, steps).Some?
    ensures Exec(c, s, steps[..n]).Some?
    ensures Inv(c, Exec(c, s, steps[..n]).value) && Inv(c, Exec(c, s, steps).value)
    ensures Extends(Exec(c, s, steps[..n]).value.store, Exec(c, s, steps).value.store)
    decreases |steps|
  {
    hide RoundTrips, Sound, Extends, Enabled, Apply, TruthfulSent, TruthfulEntry;
    if n == |steps| {
      assert steps[..n] == steps;
      ExtendsIsReflexive(Exec(c, s, steps).value.store);
    }
    if steps != [] {
      var m := |steps| - 1;
      var k := if n < m then n else m;
      RunsKeepInv(c, s, steps[..m], k);
      StepKeepsInv(c, Exec(c, s, steps[..m]).value, steps[m]);
      if n <= m {
        assert steps[..m][..k] == steps[..n];
        ExtendsIsTransitive(Exec(c, s, steps[..n]).value.store, Exec(c, s, steps[..m]).value.store,
                            Exec(c, s, steps).value.store);
      }
    }
  }

  /** Once the stored answer has expired the next request reaches the handler again. */
  lemma ExpiryReopens(c: Client, w: World, p: Step)
    requires p.Post? && |p.try.ids| == |c.inputs|
    ensures Enabled(c, w, Expire) && c.key !in Apply(c, w, Expire).entries
    ensures Outcome(c, Apply(c, w, Expire), p).ran <==> p.conditions.readable && p.conditions.available && p.conditions.known
  {
    hide Attempt;
  }

  // ---- what the client can rely on ----------------------------------------------------------

  /** Both lists name the same facts, event by event; they may differ in the duplicate marks. */
  predicate SameFacts(a: seq<RecordResult>, b: seq<RecordResult>) {
    |a| == |b| && forall i :: 0 <= i < |a| ==> a[i].eventId == b[i].eventId && a[i].factId == b[i].factId
  }

  /** Answer i of the run is a success that lists `rs`. */
  ghost predicate Succeeds(c: Client, w: World, i: nat, rs: seq<RecordResult>) {
    && i < |w.answers| && Read(c.codec, w.answers[i]).Some?
    && Read(c.codec, w.answers[i]).value.code == CODE_OK
    && Read(c.codec, w.answers[i]).value.body == Listed(c.codec, rs)
  }

  lemma SuccessIsOwned(c: Client, w: World, i: nat, rs: seq<RecordResult>)
    requires RoundTrips(c.codec) && Inv(c, w) && Succeeds(c, w, i, rs)
    ensures Owned(w.store, c.inputs, rs)
  {
    hide Sound, Owned, TruthfulEntry, Listed, RoundTrips;
    assert TruthfulSent(c, w.store, w.answers[i]);
    var r := Read(c.codec, w.answers[i]).value;
    var mine :| r.body == Listed(c.codec, mine) && Owned(w.store, c.inputs, mine);
    ListedIsInjective(c.codec, mine, rs);
  }

  /**
   * All successes of a run name the same facts, whether the handler ran or a stored answer was replayed, and each
   * named event has exactly that one fact.
   */
  lemma SuccessesAgree(c: Client, s: Store, steps: seq<Step>, i: nat, a: seq<RecordResult>, j: nat, b: seq<RecordResult>)
    requires RoundTrips(c.codec) && Sound(s) && Exec(c, s, steps).Some?
    requires Succeeds(c, Exec(c, s, steps).value, i, a) && Succeeds(c, Exec(c, s, steps).value, j, b)
    ensures SameFacts(a, b) && |a| == |c.inputs|
    ensures forall k :: 0 <= k < |a| ==> SingleFact(Exec(c, s, steps).value.store, a[k])
  {
    hide Exec, Succeeds, RoundTrips, EventFacts, OneToOne, OutboxMatches, AllAdmitted, Trim;
    var w := Exec(c, s, steps).value;
    RunsKeepInv(c, s, steps, 0);
    SuccessIsOwned(c, w, i, a);
    SuccessIsOwned(c, w, j, b);
    forall k | 0 <= k < |a| ensures SingleFact(w.store, a[k]) {
      OneFactPerEvent(w.store.keys, w.store.facts, a[k].eventId);
    }
  }

  lemma {:induction false} PrefixRuns(c: Client, s: Store, steps: seq<Step>, n: nat)
    requires n <= |steps| && Exec(c, s, steps).Some?
    ensures Exec(c, s, steps[..n]).Some?
    ensures n < |steps| ==>
      && Enabled(c, Exec(c, s, steps[..n]).value, steps[n])
      && Exec(c, s, steps[..n + 1]) == Some(Apply(c, Exec(c, s, steps[..n]).value, steps[n]))
    decreases |steps|
  {
    hide Enabled, Apply;
    var m := |steps| - 1;
    if n < m {
      PrefixRuns(c, s, steps[..m], n);
      assert steps[..m][..n] == steps[..n] && steps[..m][..n + 1] == steps[..n + 1];
    } else {
      assert steps[..|steps|] == steps;
    }
  }

  /** The tables after the first n steps of a run. */
  ghost function StoreAt(c: Client, s: Store, steps: seq<Step>, n: nat): Store
    requires n <= |steps| && Exec(c, s, steps).Some?
  {
    PrefixRuns(c, s, steps, n);
    Exec(c, s, steps[..n]).value.store
  }

  lemma StoresExtend(c: Client, s: Store, steps: seq<Step>, k: nat, n: nat)
    requires RoundTrips(c.codec) && Sound(s) && Exec(c, s, steps).Some? && k <= n <= |steps|
    ensures Sound(StoreAt(c, s, steps, n)) && Extends(StoreAt(c, s, steps, k), StoreAt(c, s, steps, n))
  {
    hide RoundTrips, Sound, Extends, Exec, TruthfulSent, TruthfulEntry;
    PrefixRuns(c, s, steps, n);
    RunsKeepInv(c, s, steps[..n], k);
    assert steps[..n][..k] == steps[..k];
  }

  /** A request leaves the tables of its attempt, or the tables as they were. */
  lemma PostEffect(c: Client, s: Store, steps: seq<Step>, n: nat)
    requires Exec(c, s, steps).Some? && n < |steps| && steps[n].Post?
    ensures |steps[n].try.ids| == |c.inputs|
    ensures var before, after := StoreAt(c, s, steps, n), StoreAt(c, s, steps, n + 1);
      after == before || after == Attempt(before, c.inputs, steps[n].try).store
  {
    hide Exec, Attempt, FreshSupply, Outcome;
    PrefixRuns(c, s, steps, n);
  }

  /** Of all requests of a run, executed or replayed, at most one changes the tables. */
  lemma OnePostChangesTheTables(c: Client, s: Store, steps: seq<Step>, k: nat, n: nat)
    requires RoundTrips(c.codec) && Sound(s) && Exec(c, s, steps).Some?
    requires k < n < |steps| && steps[k].Post? && steps[n].Post?
    ensures StoreAt(c, s, steps, k + 1) == StoreAt(c, s, steps, k) || StoreAt(c, s, steps, n + 1) == StoreAt(c, s, steps, n)
  {
    hide RoundTrips, Sound, Extends, Accepted, Attempt, Exec, StoreAt, SingleFact;
    PostEffect(c, s, steps, k);
    PostEffect(c, s, steps, n);
    var before, later := StoreAt(c, s, steps, k), StoreAt(c, s, steps, n);
    if StoreAt(c, s, steps, k + 1) != before {
      StoresExtend(c, s, steps, k + 1, n);
      OnlyLandedAttemptsChange(before, c.inputs, steps[k].try);
      RetryConverges(before, c.inputs, steps[k].try, later, steps[n].try);
    }
  }
}
