/**
 * Any number of service calls running at once. Every statement is a step of its own; a step of one call
 * may come between any two steps of another. The database contributes what its locks and unique keys give:
 * uncommitted rows are seen only by their own transaction, and a statement that would touch a key or row
 * held by another open transaction does not run until that transaction ends.
 */
module Interleaving {
  import opened Ledger
  import opened Ingestion
  import opened Validation
  import opened Meters
  import opened Soundness

  // ---- states -------------------------------------------------------------------------------

  /** An open ingestion transaction: its batch, how far it is, and its uncommitted rows. */
  datatype Tx = Tx(facts: seq<Fact>, pos: nat, keys: map<string, Key>, inserted: seq<Fact>,
                   results: seq<RecordResult>, rows: seq<Row>, at: int, actor: string)

  datatype Attempt =
    /** RecordUsage, validating event |facts| outside any transaction. */
    | Checking(caller: Caller, inputs: seq<UsageInput>, ids: seq<Id>, now: int,
               verified: set<Scope>, cache: map<string, Meter>, facts: seq<Fact>)
    /** About to claim the key of fact pos. */
    | Claiming(tx: Tx)
    /** The key of fact pos is claimed, its fact not yet inserted. */
    | Inserting(tx: Tx)
    /** Adding outbox rows. */
    | Emitting(tx: Tx)
    /** UpdateMeter after its read, before its transaction. */
    | Revising(value: Meter, expected: int)
    /** UpdateMeter after its compare-and-set, holding the row until the commit. */
    | Locked(value: Meter, expected: int)
    /** CreateMeter after its insert, holding the id and the code until the commit. */
    | Creating(value: Meter, at: int, actor: string)

  /** The committed tables, the calls under way, the ids drawn so far and the results that callers were given. */
  datatype Sys = Sys(store: Store, attempts: map<nat, Attempt>, used: set<Id>, acks: seq<RecordResult>)

  const INIT: Sys := Sys(EMPTY, map[], {}, [])

  datatype Action =
    | Submit(n: nat, caller: Caller, inputs: seq<UsageInput>, ids: seq<Id>, now: int)
    | Check(n: nat, verdict: Verdict)
    | Begin(n: nat)
    | ClaimKey(n: nat)
    | InsertFact(n: nat)
    | Finish(n: nat)
    | AddRow(n: nat)
    /** The commit reaches the tables; the caller may or may not hear of it. */
    | Commit(n: nat, heard: bool)
    /** Any failure before the commit: an error of a statement, a refused commit, a crash. */
    | Abort(n: nat)
    | InsertMeter(n: nat, meter: Meter, at: int, actor: string)
    | CommitMeter(n: nat)
    | ReadMeter(n: nat, id: Id, name: string, description: string, status: Status, expected: int, now: int, actor: string)
    | CompareAndSet(n: nat)
    | CommitVersion(n: nat)

  // ---- steps --------------------------------------------------------------------------------

  /** The event keys an attempt has claimed and not committed. */
  function Held(a: Attempt): set<string> {
    if a.Claiming? || a.Inserting? || a.Emitting? then a.tx.keys.Keys else {}
  }

  /** The ids drawn for an attempt's facts. */
  function Ids(a: Attempt): set<Id> {
    match a
    case Checking(_, _, ids, _, _, _, _) => set i | 0 <= i < |ids| :: ids[i]
    case Claiming(tx) => set i | 0 <= i < |tx.facts| :: tx.facts[i].id
    case Inserting(tx) => set i | 0 <= i < |tx.facts| :: tx.facts[i].id
    case Emitting(tx) => set i | 0 <= i < |tx.facts| :: tx.facts[i].id
    case Revising(_, _) => {}
    case Locked(_, _) => {}
    case Creating(_, _, _) => {}
  }

  function With(s: Sys, n: nat, a: Attempt): Sys { s.(attempts := s.attempts[n := a]) }

  function Without(s: Sys, n: nat): Sys { s.(attempts := s.attempts - {n}) }

  predicate FreeKey(s: Sys, n: nat, e: string) {
    forall m :: m in s.attempts && m != n ==> e !in Held(s.attempts[m])
  }

  predicate FreeRow(s: Sys, n: nat, id: Id) {
    forall m :: m in s.attempts && m != n ==> !(s.attempts[m].Locked? && s.attempts[m].value.id == id)
  }

  /** The two meters cannot both be rows: id and code are unique. */
  predicate Collide(a: Meter, b: Meter) { a.id == b.id || a.code == b.code }

  predicate FreeName(s: Sys, n: nat, m: Meter) {
    forall k :: k in s.attempts && k != n ==> !(s.attempts[k].Creating? && Collide(s.attempts[k].value, m))
  }

  /** One event of the validation loop, on the meters as committed now. */
  function CheckStep(a: Attempt, ms: seq<Meter>, verdict: Verdict): Option<Attempt>
    requires a.Checking? && |a.facts| < |a.inputs| == |a.ids|
  {
    var i := |a.facts|;
    var input := Normal(a.inputs[i]);
    var known := ScopeIn(input) in a.verified;
    var meter := if input.meter in a.cache then Some(a.cache[input.meter]) else MeterByCode(ms, input.meter);
    var r := CheckWith(a.caller, if known then Granted else verdict, meter, a.now, a.inputs[i], a.ids[i]);
    if r.Err? || meter.None? then None
    else Some(a.(verified := a.verified + {ScopeIn(input)}, cache := a.cache[input.meter := meter.value],
                 facts := a.facts + [r.value]))
  }

  /** The next outbox row of the batch. */
  function NextRow(tx: Tx): Row
    requires |tx.rows| < |Scopes(tx.inserted)|
  {
    ScopeRow(tx.inserted, Scopes(tx.inserted)[|tx.rows|], tx.at, tx.actor)
  }

  function ClaimStep(tx: Tx, keys: map<string, Key>): Option<Attempt>
    requires tx.pos < |tx.facts|
  {
    var f := tx.facts[tx.pos];
    match ClaimOf(keys + tx.keys, f)
    case Clash => None
    case Duplicate(id) =>
      Some(Claiming(tx.(pos := tx.pos + 1, results := tx.results + [RecordResult(f.eventId, id, true)])))
    case Claimed =>
      Some(Inserting(tx.(keys := tx.keys[f.eventId := KeyOf(f)],
                         results := tx.results + [RecordResult(f.eventId, f.id, false)])))
  }

  /** The insert of fact pos, unless a row with its primary key (id, occurred_at) exists. */
  function InsertStep(tx: Tx, facts: seq<Fact>): Option<Attempt>
    requires tx.pos < |tx.facts|
  {
    var f := tx.facts[tx.pos];
    if exists g :: g in facts + tx.inserted && g.id == f.id && g.occurredAt == f.occurredAt then None
    else Some(Claiming(tx.(pos := tx.pos + 1, inserted := tx.inserted + [f])))
  }

  function Publishing(s: Store, tx: Tx): Store {
    s.(keys := s.keys + tx.keys, facts := s.facts + tx.inserted, outbox := s.outbox + tx.rows)
  }

  /** An attempt goes on, or ends with an error and leaves nothing. */
  function Continue(s: Sys, n: nat, a: Option<Attempt>): Sys {
    if a.Some? then With(s, n, a.value) else Without(s, n)
  }

  predicate Enabled(s: Sys, a: Action) {
    match a
    case Submit(n, caller, inputs, ids, _) =>
      && n !in s.attempts && caller.Principal? && 0 < |inputs| <= MAX_BATCH && |ids| == |inputs|
      && (forall i :: 0 <= i < |ids| ==> ids[i] !in s.used)
      && (forall i, j :: 0 <= i < j < |ids| ==> ids[i] != ids[j])
    case Check(n, _) =>
      && n in s.attempts && s.attempts[n].Checking?
      && |s.attempts[n].facts| < |s.attempts[n].inputs| == |s.attempts[n].ids|
    case Begin(n) =>
      n in s.attempts && s.attempts[n].Checking? && |s.attempts[n].facts| == |s.attempts[n].inputs|
    case ClaimKey(n) =>
      && n in s.attempts && s.attempts[n].Claiming? && s.attempts[n].tx.pos < |s.attempts[n].tx.facts|
      && FreeKey(s, n, s.attempts[n].tx.facts[s.attempts[n].tx.pos].eventId)
    case InsertFact(n) =>
      n in s.attempts && s.attempts[n].Inserting? && s.attempts[n].tx.pos < |s.attempts[n].tx.facts|
    case Finish(n) =>
      n in s.attempts && s.attempts[n].Claiming? && s.attempts[n].tx.pos == |s.attempts[n].tx.facts|
    case AddRow(n) =>
      n in s.attempts && s.attempts[n].Emitting? && |s.attempts[n].tx.rows| < |Scopes(s.attempts[n].tx.inserted)|
    case Commit(n, _) =>
      n in s.attempts && s.attempts[n].Emitting? && |s.attempts[n].tx.rows| == |Scopes(s.attempts[n].tx.inserted)|
    case Abort(n) => n in s.attempts
    case InsertMeter(n, m, _, _) =>
      n !in s.attempts && m.audit.version == 1 && Unused(s.store.meters, m) && FreeName(s, n, m)
    case CommitMeter(n) => n in s.attempts && s.attempts[n].Creating?
    case ReadMeter(n, id, _, _, _, _, _, _) => n !in s.attempts && MeterById(s.store.meters, id).Some?
    case CompareAndSet(n) =>
      n in s.attempts && s.attempts[n].Revising? && FreeRow(s, n, s.attempts[n].value.id)
    case CommitVersion(n) => n in s.attempts && s.attempts[n].Locked?
  }

  function Apply(s: Sys, a: Action): Sys
    requires Enabled(s, a)
  {
    match a
    case Submit(n, caller, inputs, ids, now) =>
      With(s, n, Checking(caller, inputs, ids, now, {}, map[], []))
        .(used := s.used + set i | 0 <= i < |ids| :: ids[i])
    case Check(n, verdict) => Continue(s, n, CheckStep(s.attempts[n], s.store.meters, verdict))
    case Begin(n) =>
      var c := s.attempts[n];
      With(s, n, Claiming(Tx(c.facts, 0, map[], [], [], [], c.now, ActorOf(c.caller))))
    case ClaimKey(n) => Continue(s, n, ClaimStep(s.attempts[n].tx, s.store.keys))
    case InsertFact(n) => Continue(s, n, InsertStep(s.attempts[n].tx, s.store.facts))
    case Finish(n) => With(s, n, Emitting(s.attempts[n].tx))
    case AddRow(n) =>
      var tx := s.attempts[n].tx;
      With(s, n, Emitting(tx.(rows := tx.rows + [NextRow(tx)])))
    case Commit(n, heard) =>
      var tx := s.attempts[n].tx;
      Without(s, n).(store := Publishing(s.store, tx), acks := if heard then s.acks + tx.results else s.acks)
    case Abort(n) => Without(s, n)
    case InsertMeter(n, m, at, actor) => With(s, n, Creating(m, at, actor))
    case CommitMeter(n) =>
      var c := s.attempts[n];
      Without(s, n).(store := CommitCreate(s.store, c.value, c.at, c.actor))
    case ReadMeter(n, id, name, description, status, expected, now, actor) =>
      var read := MeterById(s.store.meters, id).value;
      With(s, n, Revising(Revised(read, name, description, status, expected, now, actor), expected))
    case CompareAndSet(n) =>
      var r := s.attempts[n];
      Continue(s, n, if AnyMatch(s.store.meters, r.value.id, r.expected) then Some(Locked(r.value, r.expected)) else None)
    case CommitVersion(n) =>
      var l := s.attempts[n];
      Without(s, n).(store := CommitUpdate(s.store, l.value, l.expected, l.value.audit.updatedAt, l.value.audit.updatedBy))
  }

  /** The state after a run, if every action was enabled in its turn. */
  function Exec(actions: seq<Action>): Option<Sys> {
    if actions == [] then Some(INIT)
    else
      var before := Exec(actions[..|actions| - 1]);
      if before.Some? && Enabled(before.value, actions[|actions| - 1])
      then Some(Apply(before.value, actions[|actions| - 1])) else None
  }

  // ---- the invariant ------------------------------------------------------------------------

  /** The transaction has done what an uninterrupted one would have done by now on the committed tables. */
  ghost predicate TxOk(s: Store, tx: Tx) {
    && tx.pos <= |tx.facts|
    && tx.keys.Keys !! s.keys.Keys
    && Process(s.keys, tx.facts[..tx.pos]) == Progress(s.keys + tx.keys, tx.inserted, tx.results, false)
    && (forall i, j :: 0 <= i < j < |tx.facts| ==> tx.facts[i].id != tx.facts[j].id)
    && AllAdmitted(s.meters, tx.facts)
  }

  /** The transaction with the pending insert of fact pos done. */
  function Completed(tx: Tx): Tx
    requires tx.pos < |tx.facts|
  {
    tx.(pos := tx.pos + 1, inserted := tx.inserted + [tx.facts[tx.pos]])
  }

  /** Some row has the identity of this meter. */
  ghost predicate Stored(ms: seq<Meter>, m: Meter) {
    exists i :: 0 <= i < |ms| && SameIdentity(m, ms[i])
  }

  ghost predicate CacheOk(ms: seq<Meter>, cache: map<string, Meter>) {
    forall c :: c in cache ==> cache[c].code == c && Stored(ms, cache[c])
  }

  /** The row the update waits to write still has the version it was compared with. */
  ghost predicate LockOk(ms: seq<Meter>, v: Meter, expected: int) {
    exists i :: 0 <= i < |ms| && SameIdentity(v, ms[i]) && ms[i].audit.version == expected
  }

  ghost predicate CheckingOk(s: Store, a: Attempt)
    requires a.Checking?
  {
    && |a.facts| <= |a.inputs| == |a.ids|
    && (forall i, j :: 0 <= i < j < |a.ids| ==> a.ids[i] != a.ids[j])
    && (forall i :: 0 <= i < |a.facts| ==> a.facts[i].id == a.ids[i])
    && AllAdmitted(s.meters, a.facts)
    && CacheOk(s.meters, a.cache)
  }

  ghost predicate Fine(s: Store, a: Attempt) {
    match a
    case Checking(_, _, _, _, _, _, _) => CheckingOk(s, a)
    case Claiming(tx) => TxOk(s, tx) && tx.rows == []
    case Inserting(tx) => tx.pos < |tx.facts| && TxOk(s, Completed(tx)) && tx.rows == []
    case Emitting(tx) =>
      && TxOk(s, tx) && tx.pos == |tx.facts|
      && |tx.rows| <= |Scopes(tx.inserted)| && tx.rows == Rows(tx.inserted, tx.at, tx.actor)[..|tx.rows|]
    case Revising(v, expected) => Stored(s.meters, v) && v.audit.version == expected + 1
    case Locked(v, expected) => LockOk(s.meters, v, expected) && v.audit.version == expected + 1
    case Creating(m, _, _) => m.audit.version == 1 && Unused(s.meters, m)
  }

  function FactIds(fs: seq<Fact>): set<Id> { set i | 0 <= i < |fs| :: fs[i].id }

  /** Two attempts share no id, no claimed key, no locked row and no name of a new row. */
  ghost predicate Apart(a: Attempt, b: Attempt) {
    && Ids(a) !! Ids(b) && Held(a) !! Held(b)
    && !(a.Locked? && b.Locked? && a.value.id == b.value.id)
    && !(a.Creating? && b.Creating? && Collide(a.value, b.value))
  }

  ghost predicate Supplied(s: Sys, a: Attempt) {
    Ids(a) <= s.used && Ids(a) !! FactIds(s.store.facts)
  }

  /** What a caller was told is what the tables say. */
  predicate Honoured(keys: map<string, Key>, r: RecordResult) {
    r.eventId in keys && keys[r.eventId].factId == r.factId
  }

  ghost predicate AcksHold(s: Sys) {
    forall i :: 0 <= i < |s.acks| ==> Honoured(s.store.keys, s.acks[i])
  }

  ghost predicate AttemptsHold(s: Sys) {
    && (forall n :: n in s.attempts ==> Fine(s.store, s.attempts[n]) && Supplied(s, s.attempts[n]))
    && (forall m, n :: m in s.attempts && n in s.attempts && m != n ==> Apart(s.attempts[m], s.attempts[n]))
  }

  ghost predicate Inv(s: Sys) {
    && Sound(s.store) && FactIds(s.store.facts) <= s.used
    && AcksHold(s) && AttemptsHold(s)
  }
}
