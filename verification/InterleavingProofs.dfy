/** Every step of the interleaved system keeps its invariant. */
module InterleavingProofs {
  import opened Ledger
  import opened Ingestion
  import opened Validation
  import opened Meters
  import opened Soundness
  import opened Interleaving

  // ---- steps that change one attempt only ---------------------------------------------------

  /** The attempt may take this shape without touching what others hold. */
  ghost predicate Room(s: Sys, n: nat, a: Attempt) {
    && Supplied(s, a)
    && forall m :: m in s.attempts && m != n ==> Apart(a, s.attempts[m]) && Apart(s.attempts[m], a)
  }

  lemma WithKeepsAttempts(s: Sys, n: nat, a: Attempt)
    requires AttemptsHold(s) && Fine(s.store, a) && Room(s, n, a)
    ensures AttemptsHold(With(s, n, a))
  {
    hide Fine, Apart;
  }

  lemma WithoutKeepsAttempts(s: Sys, n: nat)
    requires AttemptsHold(s)
    ensures AttemptsHold(Without(s, n))
  {
    hide Fine, Apart, Supplied;
    var t := Without(s, n);
    forall m | m in t.attempts ensures Fine(t.store, t.attempts[m]) && Supplied(t, t.attempts[m]) {
      SuppliedDepends(s, t, s.attempts[m]);
    }
  }

  lemma SuppliedDepends(s: Sys, t: Sys, a: Attempt)
    requires Supplied(s, a) && s.used <= t.used && t.store.facts == s.store.facts
    ensures Supplied(t, a)
  {
  }

  /** An attempt that draws no new id and holds no more than before has room. */
  lemma RoomToShrink(s: Sys, n: nat, a: Attempt)
    requires AttemptsHold(s) && n in s.attempts
    requires Ids(a) <= Ids(s.attempts[n]) && Held(a) <= Held(s.attempts[n]) && !a.Locked? && !a.Creating?
    ensures Room(s, n, a)
  {
    hide Fine, Ids, Held;
  }

  /** A free key can be claimed. */
  lemma RoomForKey(s: Sys, n: nat, a: Attempt, e: string)
    requires AttemptsHold(s) && n in s.attempts && FreeKey(s, n, e)
    requires Ids(a) <= Ids(s.attempts[n]) && Held(a) <= Held(s.attempts[n]) + {e} && !a.Locked? && !a.Creating?
    ensures Room(s, n, a)
  {
    hide Fine, Ids, Held;
  }

  lemma RoomForRow(s: Sys, n: nat, a: Attempt)
    requires AttemptsHold(s) && n in s.attempts && a.Locked? && FreeRow(s, n, a.value.id)
    ensures Room(s, n, a)
  {
    hide Fine;
  }

  lemma RoomForName(s: Sys, n: nat, a: Attempt)
    requires AttemptsHold(s) && a.Creating? && FreeName(s, n, a.value)
    ensures Room(s, n, a)
  {
    hide Fine;
  }

  lemma RoomToRead(s: Sys, n: nat, a: Attempt)
    requires a.Revising?
    ensures Room(s, n, a)
  {
  }

  // ---- Fine, step by step -------------------------------------------------------------------

  lemma StoredMeterAdmits(ms: seq<Meter>, m: Meter, f: Fact)
    requires Stored(ms, m) && Fits(f, m) && Normalised(f)
    ensures Admitted(ms, f)
  {
    var i :| 0 <= i < |ms| && SameIdentity(m, ms[i]);
    assert Fits(f, ms[i]);
  }

  lemma FoundMeterIsStored(ms: seq<Meter>, code: string)
    requires MeterByCode(ms, code).Some?
    ensures Stored(ms, MeterByCode(ms, code).value) && MeterByCode(ms, code).value.code == code
  {
    MeterByCodeFinds(ms, code);
    var i :| 0 <= i < |ms| && ms[i] == MeterByCode(ms, code).value;
    assert SameIdentity(ms[i], ms[i]);
  }

  lemma CheckStepFine(s: Store, a: Attempt, verdict: Verdict)
    requires a.Checking? && CheckingOk(s, a) && |a.facts| < |a.inputs|
    requires CheckStep(a, s.meters, verdict).Some?
    ensures var b := CheckStep(a, s.meters, verdict).value;
      b.Checking? && CheckingOk(s, b) && Ids(b) == Ids(a)
  {
    hide CheckWith, Admitted, MeterByCode, Stored, AllAdmitted, CacheOk, Normal;
    var i := |a.facts|;
    var input := Normal(a.inputs[i]);
    var known := ScopeIn(input) in a.verified;
    var meter := if input.meter in a.cache then Some(a.cache[input.meter]) else MeterByCode(s.meters, input.meter);
    UsedMeterIsStored(s.meters, a.cache, input.meter);
    NormalMeter(a.inputs[i]);
    CheckedFactIsSound(a.caller, if known then Granted else verdict, meter, a.now, a.inputs[i], a.ids[i]);
    var f := CheckWith(a.caller, if known then Granted else verdict, meter, a.now, a.inputs[i], a.ids[i]).value;
    StoredMeterAdmits(s.meters, meter.value, f);
    AdmittedAppend(s.meters, a.facts, f);
    CacheGrows(s.meters, a.cache, meter.value);
  }

  lemma NormalMeter(raw: UsageInput)
    ensures Normal(raw).meter == Text.Code(raw.meter)
  {
  }

  /** The meter of a check, from the cache or just looked up, is a stored one with the code. */
  lemma UsedMeterIsStored(ms: seq<Meter>, cache: map<string, Meter>, code: string)
    requires CacheOk(ms, cache)
    ensures var meter := if code in cache then Some(cache[code]) else MeterByCode(ms, code);
      meter.Some? ==> meter.value.code == code && Stored(ms, meter.value)
  {
    hide Stored, MeterByCode;
    if code !in cache && MeterByCode(ms, code).Some? {
      FoundMeterIsStored(ms, code);
    }
  }

  lemma AdmittedAppend(ms: seq<Meter>, fs: seq<Fact>, f: Fact)
    requires AllAdmitted(ms, fs) && Admitted(ms, f)
    ensures AllAdmitted(ms, fs + [f])
  {
    hide Admitted;
  }

  lemma CacheGrows(ms: seq<Meter>, cache: map<string, Meter>, m: Meter)
    requires CacheOk(ms, cache) && Stored(ms, m)
    ensures CacheOk(ms, cache[m.code := m])
  {
    hide Stored;
  }

  lemma BeginFine(s: Store, a: Attempt)
    requires a.Checking? && CheckingOk(s, a) && |a.facts| == |a.inputs|
    ensures var b := Claiming(Tx(a.facts, 0, map[], [], [], [], a.now, ActorOf(a.caller)));
      Fine(s, b) && Ids(b) <= Ids(a)
  {
    assert a.facts[..0] == [];
    assert s.keys + map[] == s.keys;
  }

  lemma ClaimFine(s: Store, tx: Tx)
    requires TxOk(s, tx) && tx.rows == [] && tx.pos < |tx.facts| && ClaimStep(tx, s.keys).Some?
    ensures var b := ClaimStep(tx, s.keys).value;
      && (b.Claiming? || b.Inserting?)
      && Fine(s, b) && b.tx.facts == tx.facts
      && b.tx.keys.Keys <= tx.keys.Keys + {tx.facts[tx.pos].eventId}
  {
    hide AllAdmitted, Process;
    var f := tx.facts[tx.pos];
    ProcessNext(s.keys, tx.facts, tx.pos);
    if f.eventId !in s.keys + tx.keys {
      assert (s.keys + tx.keys)[f.eventId := KeyOf(f)] == s.keys + tx.keys[f.eventId := KeyOf(f)];
    }
  }

  lemma ProcessNext(keys: map<string, Key>, fs: seq<Fact>, n: nat)
    requires n < |fs|
    ensures Process(keys, fs[..n + 1]) == Advance(Process(keys, fs[..n]), fs[n])
  {
    assert fs[..n + 1][..n] == fs[..n] && fs[..n + 1][n] == fs[n];
  }

  /** The primary key of usage_facts never stands in the way: ids are fresh. */
  lemma InsertSucceeds(s: Store, tx: Tx)
    requires tx.pos < |tx.facts| && TxOk(s, Completed(tx))
    requires Ids(Inserting(tx)) !! FactIds(s.facts)
    ensures InsertStep(tx, s.facts) == Some(Claiming(Completed(tx)))
  {
    hide AllAdmitted, Process;
    var f := tx.facts[tx.pos];
    assert f.id in Ids(Inserting(tx));
    forall g | g in s.facts + tx.inserted ensures g.id != f.id {
      if g in s.facts {
        assert g.id in FactIds(s.facts);
      } else {
        InsertedBefore(s.keys, tx.facts, tx.pos, tx.inserted, g);
      }
    }
  }

  lemma InsertedBefore(keys: map<string, Key>, fs: seq<Fact>, n: nat, ins: seq<Fact>, g: Fact)
    requires n < |fs| && !Process(keys, fs[..n + 1]).clashed
    requires Process(keys, fs[..n + 1]).inserted == ins + [fs[n]] && g in ins
    requires forall i :: 0 <= i < n ==> fs[i].id != fs[n].id
    ensures g.id != fs[n].id
  {
    assert fs[..n + 1][..n] == fs[..n];
    InsertedFromBatch(keys, fs[..n]);
    var p, q := Process(keys, fs[..n]), Process(keys, fs[..n + 1]);
    assert forall f :: f in p.inserted ==> f.id != fs[n].id;
    assert fs[n] in ins + [fs[n]];
    assert q.inserted == p.inserted + [fs[n]];
    assert (ins + [fs[n]])[..|ins|] == ins && (p.inserted + [fs[n]])[..|p.inserted|] == p.inserted;
  }

  lemma RowFine(s: Store, tx: Tx)
    requires Fine(s, Emitting(tx)) && |tx.rows| < |Scopes(tx.inserted)|
    ensures Fine(s, Emitting(tx.(rows := tx.rows + [NextRow(tx)])))
  {
    hide Process, AllAdmitted;
    var all, k := Rows(tx.inserted, tx.at, tx.actor), |tx.rows|;
    RowAt(tx.inserted, Scopes(tx.inserted), tx.at, tx.actor, k);
    assert all[..k + 1] == all[..k] + [all[k]];
  }

  lemma {:induction false} RowAt(ins: seq<Fact>, ss: seq<Scope>, at: int, actor: string, k: nat)
    requires (forall s :: s in ss ==> s in Scopes(ins)) && k < |ss|
    ensures RowsFor(ins, ss, at, actor)[k] == ScopeRow(ins, ss[k], at, actor)
  {
    var n := |ss| - 1;
    assert forall s :: s in ss[..n] ==> s in ss;
    if k < n {
      RowAt(ins, ss[..n], at, actor, k);
    }
  }

  // ---- commits of other attempts ------------------------------------------------------------

  /** What another commit may do under an attempt that holds `held`. */
  ghost predicate Grows(s: Store, t: Store, held: set<string>) {
    && MetersPersist(s.meters, t.meters)
    && (forall e :: e in s.keys ==> e in t.keys && t.keys[e] == s.keys[e])
    && (forall e :: e in t.keys && e !in s.keys ==> e !in held)
  }

  lemma AllAdmittedPersists(before: seq<Meter>, after: seq<Meter>, fs: seq<Fact>)
    requires MetersPersist(before, after) && AllAdmitted(before, fs)
    ensures AllAdmitted(after, fs)
  {
    hide Admitted, MetersPersist;
    forall i | 0 <= i < |fs| ensures Admitted(after, fs[i]) {
      AdmittedPersists(before, after, fs[i]);
    }
  }

  lemma TxStays(s: Store, t: Store, tx: Tx)
    requires TxOk(s, tx) && Grows(s, t, tx.keys.Keys)
    ensures TxOk(t, tx)
  {
    hide AllAdmitted, MetersPersist, Process;
    AllAdmittedPersists(s.meters, t.meters, tx.facts);
    var extra := map e | e in t.keys && e !in s.keys :: t.keys[e];
    assert t.keys == s.keys + extra;
    ProcessGrows(s.keys, extra, tx.facts[..tx.pos]);
    assert s.keys + tx.keys + extra == t.keys + tx.keys;
  }

  lemma StoredStays(before: seq<Meter>, after: seq<Meter>, m: Meter)
    requires MetersPersist(before, after) && Stored(before, m)
    ensures Stored(after, m)
  {
    var i :| 0 <= i < |before| && SameIdentity(m, before[i]);
    assert SameIdentity(before[i], after[i]);
    assert SameIdentity(m, after[i]);
  }

  /** No commit under the row lock of v changes its row. */
  ghost predicate RowKept(s: Store, t: Store, id: Id) {
    forall i :: 0 <= i < |s.meters| && s.meters[i].id == id ==> i < |t.meters| && t.meters[i] == s.meters[i]
  }

  /** What the database promises an attempt: its locked row stays, and its new row's id and code stay free. */
  ghost predicate LocksKept(s: Store, t: Store, a: Attempt) {
    && (a.Locked? ==> RowKept(s, t, a.value.id))
    && (a.Creating? && Unused(s.meters, a.value) ==> Unused(t.meters, a.value))
  }

  lemma FineStays(s: Store, t: Store, a: Attempt)
    requires Fine(s, a) && Grows(s, t, Held(a)) && LocksKept(s, t, a)
    ensures Fine(t, a)
  {
    hide TxOk, Scopes, Rows, MetersPersist, Stored, SameIdentity, AllAdmitted, Unused;
    match a
    case Checking(_, _, _, _, _, cache, facts) =>
      AllAdmittedPersists(s.meters, t.meters, facts);
      forall c | c in cache ensures Stored(t.meters, cache[c]) {
        StoredStays(s.meters, t.meters, cache[c]);
      }
    case Claiming(tx) => TxStays(s, t, tx);
    case Inserting(tx) => TxStays(s, t, Completed(tx));
    case Emitting(tx) => TxStays(s, t, tx);
    case Revising(v, _) => StoredStays(s.meters, t.meters, v);
    case Locked(v, expected) => LockStays(s, t, v, expected);
    case Creating(_, _, _) =>
  }

  lemma LockStays(s: Store, t: Store, v: Meter, expected: int)
    requires LockOk(s.meters, v, expected) && RowKept(s, t, v.id)
    ensures LockOk(t.meters, v, expected)
  {
    var i :| 0 <= i < |s.meters| && SameIdentity(v, s.meters[i]) && s.meters[i].audit.version == expected;
    assert t.meters[i] == s.meters[i];
  }

  /** The commit of one attempt, as all the others see it. */
  lemma OthersStay(s: Sys, t: Sys, gone: set<nat>)
    requires AttemptsHold(s) && t.attempts == s.attempts - gone && s.used <= t.used
    requires forall n :: n in t.attempts ==>
      && Grows(s.store, t.store, Held(s.attempts[n])) && Supplied(t, s.attempts[n])
      && LocksKept(s.store, t.store, s.attempts[n])
    ensures AttemptsHold(t)
  {
    hide Fine, Apart, Grows, Supplied, LocksKept;
    forall n | n in t.attempts ensures Fine(t.store, t.attempts[n]) {
      FineStays(s.store, t.store, s.attempts[n]);
    }
  }

  lemma AcksStay(s: Sys, t: Sys)
    requires AcksHold(s) && t.acks == s.acks && Extends(s.store, t.store)
    ensures AcksHold(t)
  {
  }

  // ---- commits ------------------------------------------------------------------------------

  /**
   * Atomicity: although its statements ran between those of other calls, the commit of an ingestion changes
   * the tables, and answers, exactly as if the whole batch ran at this moment.
   */
  lemma CommitIsAtomic(s: Store, tx: Tx)
    requires Fine(s, Emitting(tx)) && |tx.rows| == |Scopes(tx.inserted)|
    ensures !Process(s.keys, tx.facts).clashed
    ensures Publishing(s, tx) == Ingest(s, tx.facts, tx.at, tx.actor)
    ensures tx.results == Process(s.keys, tx.facts).results
  {
    hide Process, Scopes, AllAdmitted;
    assert tx.facts[..|tx.facts|] == tx.facts;
    var all := Rows(tx.inserted, tx.at, tx.actor);
    assert all[..|all|] == all;
  }

  lemma TxIsFresh(s: Sys, n: nat)
    requires AttemptsHold(s) && n in s.attempts && s.attempts[n].Emitting?
    ensures FreshIds(s.attempts[n].tx.facts, s.store.facts)
  {
    hide Process, AllAdmitted, Rows, Scopes;
    var tx := s.attempts[n].tx;
    forall i, j | 0 <= i < |tx.facts| && 0 <= j < |s.store.facts| ensures tx.facts[i].id != s.store.facts[j].id {
      assert tx.facts[i].id in Ids(s.attempts[n]);
      assert s.store.facts[j].id in FactIds(s.store.facts);
    }
  }

  lemma CommitKeepsStore(s: Sys, n: nat)
    requires Sound(s.store) && AttemptsHold(s) && n in s.attempts && s.attempts[n].Emitting?
    requires |s.attempts[n].tx.rows| == |Scopes(s.attempts[n].tx.inserted)|
    ensures var t := Publishing(s.store, s.attempts[n].tx); Sound(t) && Extends(s.store, t)
  {
    hide Sound, Extends, Process, Rows, Scopes, Ingest, Publishing, FreshIds;
    var tx := s.attempts[n].tx;
    AttemptIsFine(s, n);
    CommitIsAtomic(s.store, tx);
    TxIsFresh(s, n);
    IngestKeepsSound(s.store, tx.facts, tx.at, tx.actor);
  }

  /** The facts a commit adds carry only ids of its own attempt. */
  lemma CommittedIds(s: Sys, n: nat)
    requires AttemptsHold(s) && n in s.attempts && s.attempts[n].Emitting?
    ensures FactIds(s.store.facts + s.attempts[n].tx.inserted) <= FactIds(s.store.facts) + Ids(s.attempts[n])
  {
    hide AllAdmitted, Rows, Scopes, Process;
    var tx := s.attempts[n].tx;
    InsertedFromBatch(s.store.keys, tx.facts[..tx.pos]);
    var all := s.store.facts + tx.inserted;
    forall i | 0 <= i < |all| ensures all[i].id in FactIds(s.store.facts) + Ids(s.attempts[n]) {
      if i >= |s.store.facts| {
        assert all[i] in tx.inserted;
        var j :| 0 <= j < |tx.facts| && tx.facts[j] == all[i];
        assert tx.facts[j].id in Ids(s.attempts[n]);
      } else {
        assert s.store.facts[i].id in FactIds(s.store.facts);
      }
    }
  }

  lemma CommitLeavesOthers(s: Sys, n: nat, m: nat)
    requires AttemptsHold(s) && n in s.attempts && s.attempts[n].Emitting? && m in s.attempts && m != n
    requires Extends(s.store, Publishing(s.store, s.attempts[n].tx))
    ensures var t := Publishing(s.store, s.attempts[n].tx);
      && Grows(s.store, t, Held(s.attempts[m])) && Ids(s.attempts[m]) !! FactIds(t.facts)
  {
    hide Fine, Ids, FactIds;
    CommittedIds(s, n);
    assert Apart(s.attempts[m], s.attempts[n]);
  }

  lemma CommitKeepsInv(s: Sys, n: nat, heard: bool)
    requires Inv(s) && Enabled(s, Commit(n, heard))
    ensures Inv(Apply(s, Commit(n, heard)))
  {
    hide Sound, Extends, Publishing, Fine, Apart, Ids, FactIds, Grows, LocksKept, Scopes, Held;
    var t, tx := Apply(s, Commit(n, heard)), s.attempts[n].tx;
    CommitKeepsStore(s, n);
    CommittedIds(s, n);
    PublishedParts(s.store, tx);
    forall m | m in t.attempts
      ensures Grows(s.store, t.store, Held(s.attempts[m])) && Supplied(t, s.attempts[m])
      ensures LocksKept(s.store, t.store, s.attempts[m])
    {
      CommitLeavesOthers(s, n, m);
      RowsUntouched(s.store, t.store, s.attempts[m]);
    }
    OthersStay(s, t, {n});
    CommitKeepsAcks(s, n, heard);
  }

  lemma PublishedParts(s: Store, tx: Tx)
    ensures Publishing(s, tx).facts == s.facts + tx.inserted && Publishing(s, tx).meters == s.meters
  {
  }

  lemma RowsUntouched(s: Store, t: Store, a: Attempt)
    requires t.meters == s.meters
    ensures LocksKept(s, t, a)
  {
  }

  lemma CommitKeepsAcks(s: Sys, n: nat, heard: bool)
    requires Inv(s) && Enabled(s, Commit(n, heard))
    ensures AcksHold(Apply(s, Commit(n, heard)))
  {
    hide Sound, AttemptsHold, AcksHold, Scopes, Extends;
    var t, tx := Apply(s, Commit(n, heard)), s.attempts[n].tx;
    CommitKeepsStore(s, n);
    AcksStay(s, t.(acks := s.acks));
    AttemptIsFine(s, n);
    CommitIsAtomic(s.store, tx);
    ResultsAreHonoured(s.store.keys, tx.facts);
    AcksAppend(s, t, tx.results);
  }

  lemma AttemptIsFine(s: Sys, n: nat)
    requires AttemptsHold(s) && n in s.attempts
    ensures Fine(s.store, s.attempts[n])
  {
  }

  lemma AcksAppend(s: Sys, t: Sys, results: seq<RecordResult>)
    requires AcksHold(t.(acks := s.acks)) && (t.acks == s.acks || t.acks == s.acks + results)
    requires forall i :: 0 <= i < |results| ==> Honoured(t.store.keys, results[i])
    ensures AcksHold(t)
  {
    hide Honoured;
    forall i | 0 <= i < |t.acks| ensures Honoured(t.store.keys, t.acks[i]) {
      if i < |s.acks| {
        assert t.acks[i] == t.(acks := s.acks).acks[i];
      }
    }
  }

  lemma ResultsAreHonoured(keys: map<string, Key>, fs: seq<Fact>)
    requires !Process(keys, fs).clashed
    ensures forall i :: 0 <= i < |Process(keys, fs).results| ==>
      Honoured(Process(keys, fs).keys, Process(keys, fs).results[i])
  {
    hide Process, Owner, IsNew;
    var p := Process(keys, fs);
    ProcessResults(keys, fs);
    ProcessKeys(keys, fs);
    forall i | 0 <= i < |p.results| ensures Honoured(p.keys, p.results[i]) {
      assert ResultAt(keys, fs, i, p.results[i]);
      assert Lookup(p.keys, fs[i].eventId) == Owner(keys, fs, fs[i].eventId);
    }
  }

  // ---- meter commits ------------------------------------------------------------------------

  lemma MeterCommitKeepsInv(s: Sys, t: Sys, gone: set<nat>)
    requires Inv(s) && Sound(t.store) && Extends(s.store, t.store)
    requires t == s.(store := t.store, attempts := s.attempts - gone)
    requires t.store.keys == s.store.keys && t.store.facts == s.store.facts
    requires forall n :: n in t.attempts ==> LocksKept(s.store, t.store, s.attempts[n])
    ensures Inv(t)
  {
    hide Sound, Fine, Apart, LocksKept, Held;
    forall n | n in t.attempts ensures Grows(s.store, t.store, Held(s.attempts[n])) && Supplied(t, s.attempts[n]) {
      SuppliedDepends(s, t, s.attempts[n]);
    }
    OthersStay(s, t, gone);
    AcksStay(s, t);
  }

  lemma InsertMeterKeepsInv(s: Sys, a: Action)
    requires a.InsertMeter? && Inv(s) && Enabled(s, a)
    ensures Inv(Apply(s, a))
  {
    hide Sound, AttemptsHold, AcksHold, FactIds, Room;
    var c := Creating(a.meter, a.at, a.actor);
    RoomForName(s, a.n, c);
    LocalKeepsInv(s, a.n, Some(c));
  }

  lemma CommitMeterKeepsInv(s: Sys, n: nat)
    requires Inv(s) && Enabled(s, CommitMeter(n))
    ensures Inv(Apply(s, CommitMeter(n)))
  {
    hide Sound, AcksHold, Extends, FactIds, Supplied, Ids, Held;
    var t, c := Apply(s, CommitMeter(n)), s.attempts[n];
    assert Fine(s.store, c);
    CreateKeepsSound(s.store, c.value, c.at, c.actor);
    forall m | m in t.attempts ensures LocksKept(s.store, t.store, s.attempts[m]) {
      assert Apart(s.attempts[m], c);
      AddedRowKeepsLocks(s.store, t.store, c.value, s.attempts[m]);
    }
    MeterCommitKeepsInv(s, t, {n});
  }

  lemma AddedRowKeepsLocks(s: Store, t: Store, m: Meter, a: Attempt)
    requires t.meters == s.meters + [m] && (a.Creating? ==> !Collide(a.value, m))
    ensures LocksKept(s, t, a)
  {
  }

  lemma RewrittenRowKeepsLocks(s: Store, t: Store, k: nat, v: Meter, a: Attempt)
    requires k < |s.meters| && t.meters == s.meters[k := v] && SameIdentity(v, s.meters[k])
    requires a.Locked? ==> a.value.id != v.id
    ensures LocksKept(s, t, a)
  {
  }

  lemma LockedUpdateKeepsSound(s: Store, v: Meter, expected: int, k: nat)
    requires Sound(s) && k < |s.meters| && SameIdentity(v, s.meters[k])
    requires s.meters[k].audit.version == expected && v.audit.version == expected + 1
    ensures var t := CommitUpdate(s, v, expected, v.audit.updatedAt, v.audit.updatedBy);
      Sound(t) && Extends(s, t) && t.meters == s.meters[k := v]
  {
    hide Sound, Extends, CommitUpdate;
    StaleReadIsHarmless(v, s.meters[k], v.name, v.description, v.status, expected, v.audit.updatedAt, v.audit.updatedBy);
    UpdateKeepsSound(s, v, k, v.audit.updatedAt, v.audit.updatedBy);
  }

  /** The row a call has locked is as it was when it was compared. */
  lemma LockedRow(s: Sys, n: nat) returns (k: nat)
    requires AttemptsHold(s) && n in s.attempts && s.attempts[n].Locked?
    ensures var l := s.attempts[n];
      && k < |s.store.meters| && SameIdentity(l.value, s.store.meters[k])
      && s.store.meters[k].audit.version == l.expected && l.value.audit.version == l.expected + 1
  {
    hide Apart, Supplied, SameIdentity;
    assert Fine(s.store, s.attempts[n]);
    k :| 0 <= k < |s.store.meters| && SameIdentity(s.attempts[n].value, s.store.meters[k])
      && s.store.meters[k].audit.version == s.attempts[n].expected;
  }

  lemma AttemptsAreApart(s: Sys, m: nat, n: nat)
    requires AttemptsHold(s) && m in s.attempts && n in s.attempts && m != n
    ensures Apart(s.attempts[m], s.attempts[n])
  {
    hide Apart, Fine, Supplied;
  }

  lemma CommitVersionKeepsInv(s: Sys, n: nat)
    requires Inv(s) && Enabled(s, CommitVersion(n))
    ensures Inv(Apply(s, CommitVersion(n)))
  {
    hide Sound, AcksHold, AttemptsHold, Extends, FactIds, SameIdentity, LocksKept;
    var t, l := Apply(s, CommitVersion(n)), s.attempts[n];
    var k := LockedRow(s, n);
    LockedUpdateKeepsSound(s.store, l.value, l.expected, k);
    forall m | m in t.attempts ensures LocksKept(s.store, t.store, s.attempts[m]) {
      AttemptsAreApart(s, m, n);
      RewrittenRowKeepsLocks(s.store, t.store, k, l.value, s.attempts[m]);
    }
    MeterCommitKeepsInv(s, t, {n});
  }

  // ---- all steps ----------------------------------------------------------------------------

  lemma LocalKeepsInv(s: Sys, n: nat, a: Option<Attempt>)
    requires Inv(s) && (a.Some? ==> Fine(s.store, a.value) && Room(s, n, a.value))
    ensures Inv(Continue(s, n, a))
  {
    hide Sound, AttemptsHold, FactIds, Fine, Room;
    if a.Some? { WithKeepsAttempts(s, n, a.value); } else { WithoutKeepsAttempts(s, n); }
  }

  lemma SubmitKeepsInv(s: Sys, a: Action)
    requires a.Submit? && Inv(s) && Enabled(s, a)
    ensures Inv(Apply(s, a))
  {
    hide Sound, Fine, AttemptsHold, FactIds, Room;
    var c := Checking(a.caller, a.inputs, a.ids, a.now, {}, map[], []);
    var grown := s.(used := s.used + Ids(c));
    SupplyGrows(s, Ids(c));
    RoomForNew(s, a.n, c);
    NewAttemptIsFine(s.store, c);
    WithKeepsAttempts(grown, a.n, c);
  }

  lemma SupplyGrows(s: Sys, ids: set<Id>)
    requires AttemptsHold(s)
    ensures AttemptsHold(s.(used := s.used + ids))
  {
    hide Fine, Apart, FactIds;
  }

  /** A call with new ids only has room. */
  lemma RoomForNew(s: Sys, n: nat, c: Attempt)
    requires AttemptsHold(s) && FactIds(s.store.facts) <= s.used && c.Checking? && Ids(c) !! s.used
    ensures Room(s.(used := s.used + Ids(c)), n, c)
  {
    hide Fine, Ids, FactIds;
    forall m | m in s.attempts ensures Ids(s.attempts[m]) <= s.used {
      assert Supplied(s, s.attempts[m]);
    }
  }

  lemma NewAttemptIsFine(s: Store, c: Attempt)
    requires c.Checking? && c.facts == [] && c.cache == map[] && |c.ids| == |c.inputs|
    requires forall i, j :: 0 <= i < j < |c.ids| ==> c.ids[i] != c.ids[j]
    ensures Fine(s, c)
  {
  }

  lemma CheckKeepsInv(s: Sys, a: Action)
    requires (a.Check? || a.Begin?) && Inv(s) && Enabled(s, a)
    ensures Inv(Apply(s, a))
  {
    hide Sound, AcksHold, Apart, Supplied, CheckStep, CheckingOk, TxOk;
    var c := s.attempts[a.n];
    assert Fine(s.store, c);
    if a.Begin? {
      BeginFine(s.store, c);
      var b := Claiming(Tx(c.facts, 0, map[], [], [], [], c.now, ActorOf(c.caller)));
      RoomToShrink(s, a.n, b);
      LocalKeepsInv(s, a.n, Some(b));
    } else {
      var b := CheckStep(c, s.store.meters, a.verdict);
      if b.Some? {
        CheckStepFine(s.store, c, a.verdict);
        RoomToShrink(s, a.n, b.value);
      }
      LocalKeepsInv(s, a.n, b);
    }
  }

  lemma ClaimKeepsInv(s: Sys, n: nat)
    requires Inv(s) && Enabled(s, ClaimKey(n))
    ensures Inv(Apply(s, ClaimKey(n)))
  {
    hide Sound, AcksHold, Apart, Supplied, ClaimStep, TxOk;
    var tx := s.attempts[n].tx;
    var b := ClaimStep(tx, s.store.keys);
    assert Fine(s.store, s.attempts[n]);
    if b.Some? {
      ClaimFine(s.store, tx);
      RoomForKey(s, n, b.value, tx.facts[tx.pos].eventId);
    }
    LocalKeepsInv(s, n, b);
  }

  lemma InsertKeepsInv(s: Sys, n: nat)
    requires Inv(s) && Enabled(s, InsertFact(n))
    ensures Inv(Apply(s, InsertFact(n)))
  {
    hide Sound, AcksHold, Apart, InsertStep, TxOk;
    var tx := s.attempts[n].tx;
    assert Fine(s.store, s.attempts[n]) && Supplied(s, s.attempts[n]);
    InsertSucceeds(s.store, tx);
    RoomToShrink(s, n, Claiming(Completed(tx)));
    LocalKeepsInv(s, n, Some(Claiming(Completed(tx))));
  }

  lemma EmitKeepsInv(s: Sys, a: Action)
    requires (a.Finish? || a.AddRow?) && Inv(s) && Enabled(s, a)
    ensures Inv(Apply(s, a))
  {
    hide Sound, AcksHold, Apart, Supplied, TxOk, Scopes, NextRow, Rows;
    var tx := s.attempts[a.n].tx;
    assert Fine(s.store, s.attempts[a.n]);
    var b := Emitting(if a.Finish? then tx else tx.(rows := tx.rows + [NextRow(tx)]));
    if a.AddRow? {
      RowFine(s.store, tx);
    } else {
      FinishFine(s.store, tx);
    }
    RoomToShrink(s, a.n, b);
    LocalKeepsInv(s, a.n, Some(b));
  }

  lemma FinishFine(s: Store, tx: Tx)
    requires TxOk(s, tx) && tx.rows == [] && tx.pos == |tx.facts|
    ensures Fine(s, Emitting(tx))
  {
    hide TxOk, Rows, Scopes;
    assert Rows(tx.inserted, tx.at, tx.actor)[..0] == [];
  }

  lemma ReadKeepsInv(s: Sys, a: Action)
    requires a.ReadMeter? && Inv(s) && Enabled(s, a)
    ensures Inv(Apply(s, a))
  {
    hide Sound, AcksHold, AttemptsHold, Stored, Room, FactIds;
    var read := MeterById(s.store.meters, a.id).value;
    var v := Revised(read, a.name, a.description, a.status, a.expected, a.now, a.actor);
    MeterByIdFinds(s.store.meters, a.id);
    ReadIsStored(s.store.meters, read, v);
    RoomToRead(s, a.n, Revising(v, a.expected));
    LocalKeepsInv(s, a.n, Some(Revising(v, a.expected)));
  }

  lemma ReadIsStored(ms: seq<Meter>, read: Meter, v: Meter)
    requires read in ms && SameIdentity(v, read)
    ensures Stored(ms, v)
  {
    var i :| 0 <= i < |ms| && ms[i] == read;
  }

  lemma CompareAndSetKeepsInv(s: Sys, n: nat)
    requires Inv(s) && Enabled(s, CompareAndSet(n))
    ensures Inv(Apply(s, CompareAndSet(n)))
  {
    hide AcksHold, AttemptsHold, FreeRow, SameIdentity, Sound, Room, FactIds;
    var r := s.attempts[n];
    AttemptIsFine(s, n);
    if AnyMatch(s.store.meters, r.value.id, r.expected) {
      SoundMetersAreUnique(s.store);
      MatchIsLockable(s.store.meters, r.value, r.expected);
      hide LockOk, UniqueMeters, Stored;
      RoomForRow(s, n, Locked(r.value, r.expected));
      LocalKeepsInv(s, n, Some(Locked(r.value, r.expected)));
    } else {
      LocalKeepsInv(s, n, None);
    }
  }

  /** The row the comparison matched is the row that was read. */
  lemma MatchIsLockable(ms: seq<Meter>, v: Meter, expected: int)
    requires UniqueMeters(ms) && Stored(ms, v) && AnyMatch(ms, v.id, expected)
    ensures LockOk(ms, v, expected)
  {
    var i :| 0 <= i < |ms| && SameIdentity(v, ms[i]);
    var k :| 0 <= k < |ms| && Matches(ms[k], v.id, expected);
    assert i < k || k < i || i == k;
  }

  lemma StepKeepsInv(s: Sys, a: Action)
    requires Inv(s) && Enabled(s, a)
    ensures Inv(Apply(s, a))
  {
    hide Inv;
    match a
    case Submit(_, _, _, _, _) => SubmitKeepsInv(s, a);
    case Check(_, _) => CheckKeepsInv(s, a);
    case Begin(_) => CheckKeepsInv(s, a);
    case ClaimKey(n) => ClaimKeepsInv(s, n);
    case InsertFact(n) => InsertKeepsInv(s, n);
    case Finish(_) => EmitKeepsInv(s, a);
    case AddRow(_) => EmitKeepsInv(s, a);
    case Commit(n, heard) => CommitKeepsInv(s, n, heard);
    case Abort(n) => LocalKeepsInv(s, n, None);
    case InsertMeter(_, _, _, _) => InsertMeterKeepsInv(s, a);
    case CommitMeter(n) => CommitMeterKeepsInv(s, n);
    case ReadMeter(_, _, _, _, _, _, _, _) => ReadKeepsInv(s, a);
    case CompareAndSet(n) => CompareAndSetKeepsInv(s, n);
    case CommitVersion(n) => CommitVersionKeepsInv(s, n);
  }

  lemma InitHasInv()
    ensures Inv(INIT)
  {
    assert Payloads([]) == [];
  }

  /** The invariant holds after every run, whatever the interleaving, the failures and the lost answers. */
  lemma {:induction false} RunsKeepInv(actions: seq<Action>)
    requires Exec(actions).Some?
    ensures Inv(Exec(actions).value)
  {
    hide Inv, Enabled, Apply;
    if actions == [] {
      InitHasInv();
    } else {
      RunsKeepInv(actions[..|actions| - 1]);
      StepKeepsInv(Exec(actions[..|actions| - 1]).value, actions[|actions| - 1]);
    }
  }
}
