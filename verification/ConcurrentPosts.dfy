/**
 * Posts of one batch under one idempotency key, all running at once: each goes through the middleware, and the
 * statements of those that reach the handler are interleaved with one another and with every other call.
 */
module ConcurrentPosts {
  import opened Ledger
  import opened Text
  import opened Ingestion
  import opened Validation
  import opened Soundness
  import opened HttpAnswers
  import Calls = Interleaving
  import CallProofs = InterleavingProofs
  import CallRuns = Runs
  import Retrying = HttpRetry

  // ---- states and steps ---------------------------------------------------------------------

  type Client = Retrying.Client

  type Entries = Middleware.Entries

  /** A post whose handler was started: its owner in the manager, and its results once a commit was heard. */
  datatype Post = Post(owner: nat, requestId: string, outcome: Option<seq<RecordResult>>)

  /** The statements so far, the manager's entries, the posts under way and the answers sent. */
  datatype World = World(trace: seq<Calls.Action>, entries: Entries, owners: nat, posts: map<nat, Post>, answers: seq<Sent>)

  const START: World := World([], map[], 0, map[], [])

  datatype Step =
    | Arrive(n: nat, caller: Caller, ids: seq<Id>, now: int, requestId: string, conditions: Middleware.Conditions)
    /** A statement, an abort or a commit of any call, of a post or of anyone else. */
    | Statement(action: Calls.Action)
    /** The handler answers, with the results of a commit it heard of, else with some error. */
    | Return(n: nat, error: Error, persists: bool)
    /** The handler's process died; its transaction was aborted or had ended. */
    | Vanish(n: nat)
    | Expire
    /** Requests with other keys or fingerprints. */
    | Elsewhere(entries: Entries)

  /** The state of the calls. */
  function State(w: World): Calls.Sys
    requires Calls.Exec(w.trace).Some?
  {
    Calls.Exec(w.trace).value
  }

  /** The entry under the client's key, if it is the client's. */
  function Ours(c: Client, es: Entries): Option<Middleware.Entry> {
    if c.key in es && es[c.key].fingerprint == c.fingerprint then Some(es[c.key]) else None
  }

  /** The action begins a call with this number. */
  predicate Begins(a: Calls.Action, n: nat) {
    (a.Submit? || a.ReadMeter? || a.InsertMeter?) && a.n == n
  }

  predicate Enabled(c: Client, w: World, step: Step)
    requires Calls.Exec(w.trace).Some?
  {
    match step
    case Arrive(n, _, ids, _, _, _) =>
      && n !in w.posts && n !in State(w).attempts && |ids| == |c.inputs|
      && (forall i :: 0 <= i < |ids| ==> ids[i] !in State(w).used)
      && (forall i, j :: 0 <= i < j < |ids| ==> ids[i] != ids[j])
    case Statement(a) => Calls.Enabled(State(w), a) && forall n :: n in w.posts ==> !Begins(a, n)
    case Return(n, _, _) => n in w.posts && n !in State(w).attempts
    case Vanish(n) => n in w.posts && n !in State(w).attempts
    case Expire => true
    case Elsewhere(es) => Ours(c, es) == Ours(c, w.entries)
  }

  /** What the middleware does with a request before it calls the handler. */
  function Opening(c: Client, w: World, requestId: string, conditions: Middleware.Conditions): Middleware.Outcome {
    Middleware.Executed(w.entries, w.owners, c.key, c.fingerprint, requestId, Middleware.Handler(200, []), c.codec.decode,
                        conditions.(persists := false))
  }

  /** RecordUsage gets past its first two checks. */
  predicate Admits(c: Client, caller: Caller) {
    caller.Principal? && 0 < |c.inputs| <= MAX_BATCH
  }

  /** The answer of the handler of a post. */
  function ReplyTo(p: Post, error: Error): Result<Shown> {
    if p.outcome.Some? then Ok(Results(p.outcome.value)) else Err(error)
  }

  /** A heard commit of a post gives it its results. */
  function Heard(posts: map<nat, Post>, s: Calls.Sys, a: Calls.Action): map<nat, Post>
    requires Calls.Enabled(s, a)
  {
    if a.Commit? && a.heard && a.n in posts then posts[a.n := posts[a.n].(outcome := Some(s.attempts[a.n].tx.results))]
    else posts
  }

  function Apply(c: Client, w: World, step: Step): World
    requires Calls.Exec(w.trace).Some? && Enabled(c, w, step)
  {
    match step
    case Arrive(n, caller, ids, now, requestId, conditions) =>
      var out := Opening(c, w, requestId, conditions);
      if !out.ran then w.(answers := w.answers + [out.sent], owners := w.owners + 1)
      else World(if Admits(c, caller) then w.trace + [Calls.Submit(n, caller, c.inputs, ids, now)] else w.trace,
                 out.entries, w.owners + 1, w.posts[n := Post(w.owners, requestId, None)], w.answers)
    case Statement(a) => w.(trace := w.trace + [a], posts := Heard(w.posts, State(w), a))
    case Return(n, error, persists) =>
      var p := w.posts[n];
      var h, r := Replies(c.codec, ReplyTo(p, error), p.requestId), Envelope(c.codec, ReplyTo(p, error), p.requestId);
      w.(entries := if persists then Middleware.Settled(w.entries, c.key, p.owner, h.status, r) else w.entries,
         posts := w.posts - {n}, answers := w.answers + [Middleware.Bytes(h.status, c.codec.encode(r))])
    case Vanish(n) => w.(posts := w.posts - {n})
    case Expire => w.(entries := w.entries - {c.key})
    case Elsewhere(es) => w.(entries := es)
  }

  /** The world after a run, if every step was enabled in its turn. */
  function Exec(c: Client, steps: seq<Step>): Option<World> {
    if steps == [] then Some(START)
    else
      var before := Exec(c, steps[..|steps| - 1]);
      if before.Some? && Calls.Exec(before.value.trace).Some? && Enabled(c, before.value, steps[|steps| - 1])
      then Some(Apply(c, before.value, steps[|steps| - 1])) else None
  }

  // ---- the invariant ------------------------------------------------------------------------

  /** The facts are those of the first events of the batch, in order. */
  ghost predicate EventsOf(inputs: seq<UsageInput>, fs: seq<Fact>) {
    |fs| <= |inputs| && forall i :: 0 <= i < |fs| ==> fs[i].eventId == Trim(inputs[i].eventId)
  }

  /** The call records this batch. */
  ghost predicate Records(inputs: seq<UsageInput>, a: Calls.Attempt) {
    match a
    case Checking(_, ins, _, _, _, _, facts) => ins == inputs && EventsOf(inputs, facts)
    case Claiming(tx) => EventsOf(inputs, tx.facts) && |tx.facts| == |inputs|
    case Inserting(tx) => EventsOf(inputs, tx.facts) && |tx.facts| == |inputs|
    case Emitting(tx) => EventsOf(inputs, tx.facts) && |tx.facts| == |inputs|
    case _ => false
  }

  /** A post under way records the batch; one that heard of its commit has the owners of the events. */
  ghost predicate PostHolds(c: Client, s: Calls.Sys, n: nat, p: Post) {
    && (n in s.attempts ==> p.outcome == None && Records(c.inputs, s.attempts[n]))
    && (p.outcome.Some? ==> Retrying.Owned(s.store, c.inputs, p.outcome.value))
  }

  ghost predicate EntryHolds(c: Client, s: Store, es: Entries) {
    Ours(c, es).Some? ==> Retrying.TruthfulEntry(c, s, Ours(c, es).value)
  }

  ghost predicate AnswersHold(c: Client, s: Store, answers: seq<Sent>) {
    forall i :: 0 <= i < |answers| ==> Retrying.TruthfulSent(c, s, answers[i])
  }

  ghost predicate PostsHold(c: Client, s: Calls.Sys, posts: map<nat, Post>) {
    forall n :: n in posts ==> PostHolds(c, s, n, posts[n])
  }

  ghost predicate Inv(c: Client, w: World) {
    && Calls.Exec(w.trace).Some?
    && PostsHold(c, State(w), w.posts)
    && EntryHolds(c, State(w).store, w.entries)
    && AnswersHold(c, State(w).store, w.answers)
  }

  // ---- statements ---------------------------------------------------------------------------

  lemma {:induction false} CheckedEventId(c: Caller, verdict: Verdict, meter: Option<Meter>, now: int, raw: UsageInput, id: Id)
    requires CheckWith(c, verdict, meter, now, raw, id).Ok?
    ensures CheckWith(c, verdict, meter, now, raw, id).value.eventId == Trim(raw.eventId)
  {
    hide Trim, Code, DimensionsFit, CheckCaller, VerdictError;
  }

  lemma {:induction false} CheckRecords(inputs: seq<UsageInput>, a: Calls.Attempt, ms: seq<Meter>, verdict: Verdict)
    requires a.Checking? && |a.facts| < |a.inputs| == |a.ids| && Records(inputs, a) && Calls.CheckStep(a, ms, verdict).Some?
    ensures Records(inputs, Calls.CheckStep(a, ms, verdict).value)
  {
    hide Trim, CheckWith, MeterByCode, Normal;
    var i := |a.facts|;
    var input := Normal(a.inputs[i]);
    var known := ScopeIn(input) in a.verified;
    var meter := if input.meter in a.cache then Some(a.cache[input.meter]) else MeterByCode(ms, input.meter);
    CheckedEventId(a.caller, if known then Granted else verdict, meter, a.now, a.inputs[i], a.ids[i]);
  }

  /** Whatever step is taken, a call that records the batch goes on recording it. */
  lemma {:induction false} StepRecords(inputs: seq<UsageInput>, s: Calls.Sys, a: Calls.Action, n: nat)
    requires Calls.Enabled(s, a) && n in s.attempts && Records(inputs, s.attempts[n]) && n in Calls.Apply(s, a).attempts
    ensures Records(inputs, Calls.Apply(s, a).attempts[n])
  {
    hide Calls.CheckStep, Calls.NextRow, EventsOf, Ingestion.Scopes;
    if a.Check? && a.n == n {
      CheckRecords(inputs, s.attempts[n], s.store.meters, a.verdict);
    }
  }

  /** A commit of the batch leaves every event with the owner it answers. */
  lemma {:induction false} CommitIsOwned(inputs: seq<UsageInput>, s: Store, tx: Calls.Tx)
    requires Calls.Fine(s, Calls.Emitting(tx)) && |tx.rows| == |Ingestion.Scopes(tx.inserted)|
    requires EventsOf(inputs, tx.facts) && |tx.facts| == |inputs|
    ensures Retrying.Owned(Calls.Publishing(s, tx), inputs, tx.results)
  {
    hide Calls.Fine, Calls.Publishing, Ingestion.Scopes, Process, Trim, Owner, IsNew;
    CallProofs.CommitIsAtomic(s, tx);
    ProcessResults(s.keys, tx.facts);
    forall i | 0 <= i < |tx.facts|
      ensures tx.facts[i].eventId in Calls.Publishing(s, tx).keys && tx.results[i].eventId == tx.facts[i].eventId
      ensures Calls.Publishing(s, tx).keys[tx.facts[i].eventId].factId == tx.results[i].factId
    {
      CallRuns.CommitOwnsItsEvents(s, tx, i);
      assert ResultAt(s.keys, tx.facts, i, tx.results[i]);
    }
  }

  lemma {:induction false} TraceGrows(trace: seq<Calls.Action>, a: Calls.Action)
    requires Calls.Exec(trace).Some? && Calls.Enabled(Calls.Exec(trace).value, a)
    ensures Calls.Exec(trace + [a]) == Some(Calls.Apply(Calls.Exec(trace).value, a))
  {
    hide Calls.Enabled, Calls.Apply;
    assert (trace + [a])[..|trace|] == trace;
  }

  lemma {:induction false} OwnedStays(s: Store, t: Store, inputs: seq<UsageInput>, rs: seq<RecordResult>)
    requires Retrying.Owned(s, inputs, rs) && Extends(s, t)
    ensures Retrying.Owned(t, inputs, rs)
  {
    hide Trim;
  }

  lemma {:induction false} AnswersStay(c: Client, s: Store, t: Store, answers: seq<Sent>)
    requires AnswersHold(c, s, answers) && Extends(s, t)
    ensures AnswersHold(c, t, answers)
  {
    hide Extends, Retrying.Truthful;
    forall i | 0 <= i < |answers| ensures Retrying.TruthfulSent(c, t, answers[i]) {
      assert Retrying.TruthfulSent(c, s, answers[i]);
      if Retrying.Read(c.codec, answers[i]).Some? {
        Retrying.TruthfulStays(c, s, t, Retrying.Read(c.codec, answers[i]).value);
      }
    }
  }

  lemma {:induction false} EntryStays(c: Client, s: Store, t: Store, es: Entries)
    requires EntryHolds(c, s, es) && Extends(s, t)
    ensures EntryHolds(c, t, es)
  {
    hide Extends, Retrying.Truthful;
    if Ours(c, es).Some? && Ours(c, es).value.Completed? {
      Retrying.TruthfulStays(c, s, t, Ours(c, es).value.response);
    }
  }

  /** One statement, as the post with number n sees it. */
  lemma {:induction false} StatementKeepsPost(c: Client, s: Calls.Sys, a: Calls.Action, posts: map<nat, Post>, n: nat)
    requires Calls.Inv(s) && Calls.Enabled(s, a) && Extends(s.store, Calls.Apply(s, a).store)
    requires n in posts && PostHolds(c, s, n, posts[n]) && !Begins(a, n)
    ensures PostHolds(c, Calls.Apply(s, a), n, Heard(posts, s, a)[n])
  {
    hide Calls.Inv, Extends, Records, Retrying.Owned, Calls.CheckStep, Calls.ClaimStep, Calls.InsertStep, Calls.NextRow,
      Calls.Publishing, Ingestion.Scopes, Calls.FreeKey, Calls.FreeRow, Calls.FreeName, Calls.Without;
    var t, p := Calls.Apply(s, a), posts[n];
    if p.outcome.Some? {
      OwnedStays(s.store, t.store, c.inputs, p.outcome.value);
    }
    if n in t.attempts {
      NoNewCall(s, a, n);
      StepRecords(c.inputs, s, a, n);
    }
    if a.Commit? && a.n == n {
      CommitEnds(s, n, a.heard);
      CommittedPost(c, s, n, a.heard);
    }
  }

  lemma {:induction false} CommitEnds(s: Calls.Sys, n: nat, heard: bool)
    requires Calls.Enabled(s, Calls.Commit(n, heard))
    ensures n !in Calls.Apply(s, Calls.Commit(n, heard)).attempts
  {
  }

  lemma {:induction false} NoNewCall(s: Calls.Sys, a: Calls.Action, n: nat)
    requires Calls.Enabled(s, a) && !Begins(a, n) && n in Calls.Apply(s, a).attempts
    ensures n in s.attempts
  {
    hide Calls.CheckStep, Calls.ClaimStep, Calls.InsertStep, Calls.NextRow, Ingestion.Scopes;
  }

  lemma {:induction false} CommittedPost(c: Client, s: Calls.Sys, n: nat, heard: bool)
    requires Calls.Inv(s) && Calls.Enabled(s, Calls.Commit(n, heard)) && Records(c.inputs, s.attempts[n])
    ensures Retrying.Owned(Calls.Apply(s, Calls.Commit(n, heard)).store, c.inputs, s.attempts[n].tx.results)
  {
    hide Sound, Calls.AcksHold, Calls.Fine, Ingestion.Scopes, EventsOf, Retrying.Owned, Calls.Publishing;
    CallProofs.AttemptIsFine(s, n);
    CommitIsOwned(c.inputs, s.store, s.attempts[n].tx);
  }

  lemma {:induction false} StatementKeepsInv(c: Client, w: World, a: Calls.Action)
    requires Inv(c, w) && Enabled(c, w, Statement(a))
    ensures Inv(c, Apply(c, w, Statement(a)))
    ensures Extends(State(w).store, State(Apply(c, w, Statement(a))).store)
  {
    hide Calls.Exec, Calls.Inv, Calls.Enabled, Calls.Apply, Extends, PostHolds, EntryHolds, AnswersHold;
    var s, t := State(w), Calls.Apply(State(w), a);
    CallProofs.RunsKeepInv(w.trace);
    CallRuns.StepExtends(s, a);
    TraceGrows(w.trace, a);
    AnswersStay(c, s.store, t.store, w.answers);
    EntryStays(c, s.store, t.store, w.entries);
    var posts := Heard(w.posts, s, a);
    forall n | n in posts ensures PostHolds(c, t, n, posts[n]) {
      StatementKeepsPost(c, s, a, w.posts, n);
    }
  }

  // ---- the middleware -----------------------------------------------------------------------

  /** A request that is not let through gets a truthful answer; one that is finds no entry of the client's. */
  lemma {:induction false} OpeningIsTruthful(c: Client, w: World, s: Store, requestId: string, conditions: Middleware.Conditions)
    requires EntryHolds(c, s, w.entries)
    ensures var out := Opening(c, w, requestId, conditions);
      && (!out.ran ==> out.entries == w.entries && Retrying.TruthfulSent(c, s, out.sent))
      && (out.ran ==> EntryHolds(c, s, out.entries))
  {
    hide Retrying.Truthful, Middleware.Decoded;
    Retrying.ErrorsAreTruthful(c, s);
    if c.key in w.entries && w.entries[c.key].fingerprint == c.fingerprint && w.entries[c.key].Completed? {
      Retrying.DecodedIsTruthful(c, s, w.entries[c.key].response);
    }
  }

  /** Nobody's call n, with no number in use, is submitted or refused at once. */
  lemma {:induction false} ArriveKeepsInv(c: Client, w: World, step: Step)
    requires step.Arrive? && Inv(c, w) && Enabled(c, w, step)
    ensures Inv(c, Apply(c, w, step))
    ensures Extends(State(w).store, State(Apply(c, w, step)).store)
  {
    hide Calls.Exec, Extends, EntryHolds, Retrying.TruthfulSent, Opening, PostHolds;
    OpeningIsTruthful(c, w, State(w).store, step.requestId, step.conditions);
    ExtendsIsReflexive(State(w).store);
    var t := Apply(c, w, step);
    if Opening(c, w, step.requestId, step.conditions).ran {
      if Admits(c, step.caller) {
        TraceGrows(w.trace, Calls.Submit(step.n, step.caller, c.inputs, step.ids, step.now));
      }
      var s, u := State(w), State(t);
      forall n | n in t.posts ensures PostHolds(c, u, n, t.posts[n]) {
        ArrivalKeepsPost(c, s, u, step, n, t.posts[n]);
      }
    }
  }

  lemma {:induction false} ArrivalKeepsPost(c: Client, s: Calls.Sys, u: Calls.Sys, step: Step, n: nat, p: Post)
    requires step.Arrive? && step.n !in s.attempts
    requires u == s || (u.store == s.store && u.attempts == s.attempts[step.n :=
                        Calls.Checking(step.caller, c.inputs, step.ids, step.now, {}, map[], [])])
    requires if n == step.n then p.outcome == None else PostHolds(c, s, n, p)
    ensures PostHolds(c, u, n, p)
  {
    hide Retrying.Owned;
  }

  lemma {:induction false} ReturnKeepsInv(c: Client, w: World, step: Step)
    requires step.Return? && RoundTrips(c.codec) && Inv(c, w) && Enabled(c, w, step)
    ensures Inv(c, Apply(c, w, step))
  {
    hide Calls.Exec, RoundTrips, PostHolds, Retrying.Truthful, Envelope;
    var p, s := w.posts[step.n], State(w);
    var r := Envelope(c.codec, ReplyTo(p, step.error), p.requestId);
    DecodesEnvelope(c.codec, r);
    ReplyIsTruthful(c, s, step.n, p, step.error);
    EnvelopeCode(c.codec, ReplyTo(p, step.error), p.requestId);
    Retrying.DecodedIsTruthful(c, s.store, r);
  }

  lemma {:induction false} ReplyIsTruthful(c: Client, s: Calls.Sys, n: nat, p: Post, error: Error)
    requires PostHolds(c, s, n, p)
    ensures Retrying.Truthful(c, s.store, Envelope(c.codec, ReplyTo(p, error), p.requestId))
  {
    hide Retrying.Owned, Listed;
  }

  /** Successes have status 200 and code 0, failures neither. */
  lemma {:induction false} EnvelopeCode(c: Codec, reply: Result<Shown>, requestId: string)
    ensures reply.Err? ==> Envelope(c, reply, requestId).code != CODE_OK && Replies(c, reply, requestId).status >= Middleware.BAD_REQUEST
    ensures reply.Ok? ==> Replies(c, reply, requestId).status < Middleware.BAD_REQUEST
  {
  }

  lemma {:induction false} StepKeepsInv(c: Client, w: World, step: Step)
    requires RoundTrips(c.codec) && Inv(c, w) && Enabled(c, w, step)
    ensures Inv(c, Apply(c, w, step))
    ensures Extends(State(w).store, State(Apply(c, w, step)).store)
  {
    hide Calls.Exec, RoundTrips, Extends, PostHolds, AnswersHold, Retrying.TruthfulEntry;
    ExtendsIsReflexive(State(w).store);
    match step
    case Arrive(_, _, _, _, _, _) => ArriveKeepsInv(c, w, step);
    case Statement(a) => StatementKeepsInv(c, w, a);
    case Return(_, _, _) => ReturnKeepsInv(c, w, step);
    case Vanish(_) =>
    case Expire =>
    case Elsewhere(_) =>
  }

  // ---- what every run guarantees ------------------------------------------------------------

  lemma {:induction false} RunsKeepInv(c: Client, steps: seq<Step>)
    requires RoundTrips(c.codec) && Exec(c, steps).Some?
    ensures Inv(c, Exec(c, steps).value)
  {
    hide Inv, Enabled, Apply, RoundTrips, Calls.Exec;
    if steps == [] {
      NothingPosted(c);
    } else {
      RunsKeepInv(c, steps[..|steps| - 1]);
      StepKeepsInv(c, Exec(c, steps[..|steps| - 1]).value, steps[|steps| - 1]);
    }
  }

  lemma {:induction false} NothingPosted(c: Client)
    ensures Inv(c, START)
  {
  }

  lemma {:induction false} PrefixRuns(c: Client, steps: seq<Step>, n: nat)
    requires n <= |steps| && Exec(c, steps).Some?
    ensures Exec(c, steps[..n]).Some?
    decreases |steps|
  {
    hide Enabled, Apply, Calls.Exec;
    if n == |steps| {
      assert steps[..n] == steps;
    } else {
      PrefixRuns(c, steps[..|steps| - 1], n);
      assert steps[..|steps| - 1][..n] == steps[..n];
    }
  }

  /** The world after the first n steps of a run. */
  function WorldAt(c: Client, steps: seq<Step>, n: nat): World
    requires n <= |steps| && Exec(c, steps).Some?
  {
    PrefixRuns(c, steps, n);
    Exec(c, steps[..n]).value
  }

  lemma {:induction false} WorldHolds(c: Client, steps: seq<Step>, n: nat)
    requires RoundTrips(c.codec) && n <= |steps| && Exec(c, steps).Some?
    ensures Inv(c, WorldAt(c, steps, n))
  {
    hide Inv, Enabled, Apply, RoundTrips, Calls.Exec;
    PrefixRuns(c, steps, n);
    RunsKeepInv(c, steps[..n]);
  }

  /** The step leads from one world to the next, and only adds to the tables. */
  ghost predicate Leads(c: Client, w: World, step: Step, next: World) {
    && Calls.Exec(w.trace).Some? && Calls.Exec(next.trace).Some?
    && Enabled(c, w, step) && next == Apply(c, w, step) && Extends(State(w).store, State(next).store)
  }

  lemma {:induction false} StepOfRun(c: Client, steps: seq<Step>, n: nat)
    requires RoundTrips(c.codec) && n < |steps| && Exec(c, steps).Some?
    ensures Leads(c, WorldAt(c, steps, n), steps[n], WorldAt(c, steps, n + 1))
  {
    hide Inv, Enabled, Apply, RoundTrips, Extends, Calls.Exec;
    WorldHolds(c, steps, n);
    PrefixRuns(c, steps, n + 1);
    assert steps[..n + 1][..n] == steps[..n];
    InvHasState(c, WorldAt(c, steps, n));
    StepKeepsInv(c, WorldAt(c, steps, n), steps[n]);
    WorldHolds(c, steps, n + 1);
    InvHasState(c, WorldAt(c, steps, n + 1));
  }

  lemma {:induction false} InvHasState(c: Client, w: World)
    requires Inv(c, w)
    ensures Calls.Exec(w.trace).Some?
  {
  }

  /** The tables after the first n steps. */
  function StoreAt(c: Client, steps: seq<Step>, n: nat): Store
    requires RoundTrips(c.codec) && n <= |steps| && Exec(c, steps).Some?
  {
    WorldHolds(c, steps, n);
    State(WorldAt(c, steps, n)).store
  }

  lemma {:induction false} StoresExtend(c: Client, steps: seq<Step>, k: nat, n: nat)
    requires RoundTrips(c.codec) && k <= n <= |steps| && Exec(c, steps).Some?
    ensures Extends(StoreAt(c, steps, k), StoreAt(c, steps, n))
    decreases n - k
  {
    hide Inv, Enabled, Apply, RoundTrips, Extends, Calls.Exec, WorldAt, Exec;
    if k == n {
      ExtendsIsReflexive(StoreAt(c, steps, k));
    } else {
      StoresExtend(c, steps, k + 1, n);
      StepOfRun(c, steps, k);
      ExtendsIsTransitive(StoreAt(c, steps, k), StoreAt(c, steps, k + 1), StoreAt(c, steps, n));
    }
  }

  /** Answer i of the world is a success that lists `rs`. */
  ghost predicate Succeeds(c: Client, w: World, i: nat, rs: seq<RecordResult>) {
    && i < |w.answers| && Retrying.Read(c.codec, w.answers[i]).Some?
    && Retrying.Read(c.codec, w.answers[i]).value.code == CODE_OK
    && Retrying.Read(c.codec, w.answers[i]).value.body == Listed(c.codec, rs)
  }

  lemma {:induction false} SuccessIsOwned(c: Client, w: World, i: nat, rs: seq<RecordResult>)
    requires RoundTrips(c.codec) && Inv(c, w) && Succeeds(c, w, i, rs)
    ensures Retrying.Owned(State(w).store, c.inputs, rs)
  {
    hide Calls.Exec, Retrying.Owned, RoundTrips, Listed, PostsHold, EntryHolds;
    var s := State(w).store;
    assert Retrying.TruthfulSent(c, s, w.answers[i]);
    var r := Retrying.Read(c.codec, w.answers[i]).value;
    var mine :| r.body == Listed(c.codec, mine) && Retrying.Owned(s, c.inputs, mine);
    ListedIsInjective(c.codec, mine, rs);
  }

  /**
   * All successes that concurrent posts of one batch are answered with, by the handler or from the store, name the
   * same facts, and each named event has exactly that one fact.
   */
  lemma {:induction false} ConcurrentSuccessesAgree(c: Client, steps: seq<Step>, i: nat, a: seq<RecordResult>, j: nat,
                                                    b: seq<RecordResult>)
    requires RoundTrips(c.codec) && Exec(c, steps).Some?
    requires Succeeds(c, Exec(c, steps).value, i, a) && Succeeds(c, Exec(c, steps).value, j, b)
    ensures Retrying.SameFacts(a, b) && |a| == |c.inputs|
    ensures Calls.Exec(Exec(c, steps).value.trace).Some?
    ensures forall k :: 0 <= k < |a| ==> Retrying.Retry.SingleFact(State(Exec(c, steps).value).store, a[k])
  {
    hide Exec, Calls.Exec, Succeeds, RoundTrips, EventFacts, OneToOne, OutboxMatches, AllAdmitted, Trim, PostsHold, EntryHolds,
      AnswersHold, Calls.AcksHold, Calls.AttemptsHold;
    var w := Exec(c, steps).value;
    RunsKeepInv(c, steps);
    SuccessIsOwned(c, w, i, a);
    SuccessIsOwned(c, w, j, b);
    CallProofs.RunsKeepInv(w.trace);
    var s := State(w).store;
    forall k | 0 <= k < |a| ensures Retrying.Retry.SingleFact(s, a[k]) {
      OneFactPerEvent(s.keys, s.facts, a[k].eventId);
    }
  }

  /** The step commits the transaction of a post. */
  predicate CommitsPost(w: World, step: Step) {
    step.Statement? && step.action.Commit? && step.action.n in w.posts
  }

  /** Every event of the batch has a key. */
  ghost predicate Landed(c: Client, s: Store) {
    forall i :: 0 <= i < |c.inputs| ==> Trim(c.inputs[i].eventId) in s.keys
  }

  lemma {:induction false} CommitLands(c: Client, w: World, step: Step)
    requires Inv(c, w) && Enabled(c, w, step) && CommitsPost(w, step)
    ensures Calls.Exec(Apply(c, w, step).trace).Some? && Landed(c, State(Apply(c, w, step)).store)
    ensures Landed(c, State(w).store) ==> State(Apply(c, w, step)).store == State(w).store
  {
    hide Calls.Exec, Calls.Inv, Calls.Apply, EntryHolds, AnswersHold, Trim, Ingestion.Scopes;
    var s, a := State(w), step.action;
    TraceGrows(w.trace, a);
    CallProofs.RunsKeepInv(w.trace);
    assert PostHolds(c, s, a.n, w.posts[a.n]);
    CommittedPost(c, s, a.n, a.heard);
    var tx := s.attempts[a.n].tx;
    if Landed(c, s.store) {
      CallRuns.RepeatCommitChangesNothing(w.trace, a.n, a.heard);
    }
  }

  /** Of all posts, however they are interleaved, only the first commit changes the tables. */
  lemma {:induction false} PostsCommitOnce(c: Client, steps: seq<Step>, k: nat, n: nat)
    requires RoundTrips(c.codec) && Exec(c, steps).Some? && k < n < |steps|
    requires CommitsPost(WorldAt(c, steps, k), steps[k]) && CommitsPost(WorldAt(c, steps, n), steps[n])
    ensures StoreAt(c, steps, n + 1) == StoreAt(c, steps, n)
  {
    hide Exec, WorldAt, Inv, Enabled, Apply, RoundTrips, CommitsPost, Extends, State;
    WorldHolds(c, steps, k);
    WorldHolds(c, steps, n);
    StepOfRun(c, steps, k);
    StepOfRun(c, steps, n);
    CommitLands(c, WorldAt(c, steps, k), steps[k]);
    StoresExtend(c, steps, k + 1, n);
    LandedStays(c, StoreAt(c, steps, k + 1), StoreAt(c, steps, n));
    CommitLands(c, WorldAt(c, steps, n), steps[n]);
  }

  lemma {:induction false} LandedStays(c: Client, s: Store, t: Store)
    requires Landed(c, s) && Extends(s, t)
    ensures Landed(c, t)
  {
    hide Trim;
  }
}
