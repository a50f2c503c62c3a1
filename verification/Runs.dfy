/** What holds in every run of interleaved calls. */
module Runs {
  import opened Ledger
  import opened Partition
  import opened Ingestion
  import opened Meters
  import opened Soundness
  import opened Interleaving
  import opened InterleavingProofs

  // ---- prefixes of a run --------------------------------------------------------------------

  lemma {:induction false} PrefixRuns(actions: seq<Action>, k: nat)
    requires k <= |actions| && Exec(actions).Some?
    ensures Exec(actions[..k]).Some?
    decreases |actions|
  {
    hide Enabled, Apply;
    if k == |actions| {
      assert actions[..k] == actions;
    } else {
      var m := |actions| - 1;
      PrefixRuns(actions[..m], k);
      assert actions[..m][..k] == actions[..k];
    }
  }

  /** The state after the first k steps of a run. */
  function StateAt(actions: seq<Action>, k: nat): Sys
    requires k <= |actions| && Exec(actions).Some?
  {
    PrefixRuns(actions, k);
    Exec(actions[..k]).value
  }

  lemma {:induction false} StateOfPrefix(actions: seq<Action>, m: nat, k: nat)
    requires k <= m <= |actions| && Exec(actions).Some?
    ensures Exec(actions[..m]).Some? && StateAt(actions[..m], k) == StateAt(actions, k)
  {
    hide Exec;
    PrefixRuns(actions, m);
    assert actions[..m][..k] == actions[..k];
  }

  /** Each step of a run was enabled when it was taken. */
  lemma {:induction false} StepOfRun(actions: seq<Action>, k: nat)
    requires k < |actions| && Exec(actions).Some?
    ensures Enabled(StateAt(actions, k), actions[k]) && StateAt(actions, k + 1) == Apply(StateAt(actions, k), actions[k])
  {
    hide Enabled, Apply;
    PrefixRuns(actions, k + 1);
    assert actions[..k + 1][..k] == actions[..k];
  }

  // ---- the tables only grow -----------------------------------------------------------------

  lemma StepExtends(s: Sys, a: Action)
    requires Inv(s) && Enabled(s, a)
    ensures Extends(s.store, Apply(s, a).store) && s.acks <= Apply(s, a).acks
  {
    hide Extends, Sound, AttemptsHold, AcksHold, CommitCreate, CommitUpdate, Publishing;
    ExtendsIsReflexive(s.store);
    match a
    case Commit(n, _) => CommitKeepsStore(s, n);
    case CommitMeter(n) => MeterExtends(s, n);
    case CommitVersion(n) => VersionExtends(s, n);
    case _ =>
  }

  lemma MeterExtends(s: Sys, n: nat)
    requires Inv(s) && Enabled(s, CommitMeter(n))
    ensures Extends(s.store, Apply(s, CommitMeter(n)).store)
  {
    hide Sound, AcksHold, Extends, CommitCreate, Apart, Supplied;
    var c := s.attempts[n];
    assert Fine(s.store, c);
    CreateKeepsSound(s.store, c.value, c.at, c.actor);
  }

  lemma VersionExtends(s: Sys, n: nat)
    requires Inv(s) && Enabled(s, CommitVersion(n))
    ensures Extends(s.store, Apply(s, CommitVersion(n)).store)
  {
    hide Sound, AcksHold, AttemptsHold, Extends, CommitUpdate, SameIdentity;
    var l := s.attempts[n];
    var k := LockedRow(s, n);
    LockedUpdateKeepsSound(s.store, l.value, l.expected, k);
  }

  /** From any point of a run to its end rows are only added: facts and keys are immutable, answers stay given. */
  lemma {:induction false} RunsOnlyExtend(actions: seq<Action>, n: nat)
    requires n <= |actions| && Exec(actions).Some?
    ensures Exec(actions[..n]).Some?
    ensures Extends(Exec(actions[..n]).value.store, Exec(actions).value.store)
    ensures Exec(actions[..n]).value.acks <= Exec(actions).value.acks
  {
    hide Inv, Enabled, Apply, Extends;
    if n == |actions| {
      assert actions[..n] == actions;
      ExtendsIsReflexive(Exec(actions).value.store);
    } else {
      var m := |actions| - 1;
      assert actions[..m][..n] == actions[..n];
      RunsOnlyExtend(actions[..m], n);
      RunsKeepInv(actions[..m]);
      StepExtends(Exec(actions[..m]).value, actions[m]);
      ExtendsIsTransitive(Exec(actions[..n]).value.store, Exec(actions[..m]).value.store, Exec(actions).value.store);
    }
  }

  // ---- the ledger ---------------------------------------------------------------------------

  lemma EventFactsAreOfEvent(facts: seq<Fact>, e: string)
    ensures forall f :: f in EventFacts(facts, e) ==> f.eventId == e
    ensures EventFacts(facts, e) != [] ==> EventFacts(facts, e)[0] in EventFacts(facts, e)
  {
    SelectMembers(EventOf, e, facts);
  }

  /**
   * How a claim ends: a new event is claimed, an event of the same target is answered with the stored id, and an event of
   * another tenant, application or meter ends the call.
   */
  lemma ClaimEndings(tx: Tx, keys: map<string, Key>)
    requires tx.pos < |tx.facts|
    ensures var f, all, next := tx.facts[tx.pos], keys + tx.keys, ClaimStep(tx, keys);
      if f.eventId !in all then
        next == Some(Inserting(tx.(keys := tx.keys[f.eventId := Key(f.id, f.scope, f.meter, f.occurredAt, f.audit)],
                                   results := tx.results + [RecordResult(f.eventId, f.id, false)])))
      else if all[f.eventId].scope == f.scope && all[f.eventId].meter == f.meter then
        next == Some(Claiming(tx.(pos := tx.pos + 1,
                                  results := tx.results + [RecordResult(f.eventId, all[f.eventId].factId, true)])))
      else next == None
  {
  }

  /** An abort is always possible and takes everything back: the tables and all other calls stay as they are. */
  lemma AbortLeavesNothing(s: Sys, n: nat)
    requires n in s.attempts
    ensures Enabled(s, Abort(n))
    ensures var t := Apply(s, Abort(n));
      && t.store == s.store && t.acks == s.acks && n !in t.attempts
      && forall m :: m in s.attempts && m != n ==> m in t.attempts && t.attempts[m] == s.attempts[m]
  {
  }

  /** No run gives an event two facts; a committed key has exactly its fact, and a fact its key. */
  lemma EveryRunOneFactPerEvent(actions: seq<Action>, e: string)
    requires Exec(actions).Some?
    ensures var s := Exec(actions).value.store;
      && OneToOne(s.keys, s.facts)
      && |EventFacts(s.facts, e)| == (if e in s.keys then 1 else 0)
      && (e in s.keys ==>
            var k, f := s.keys[e], EventFacts(s.facts, e)[0];
            && f.eventId == e && k.factId == f.id && k.scope.tenant == f.scope.tenant && k.scope.app == f.scope.app
            && k.meter == f.meter && k.occurredAt == f.occurredAt && k.audit == f.audit)
  {
    EventFactsAreOfEvent(Exec(actions).value.store.facts, e);
    hide OneToOne, EventFacts, Exec, AcksHold, AttemptsHold, OutboxMatches, LogsHold, AllAdmitted;
    RunsKeepInv(actions);
    OneFactPerEvent(Exec(actions).value.store.keys, Exec(actions).value.store.facts, e);
  }

  /** In every run the published usage is the facts table: nothing lost, repeated or left from a failed batch. */
  lemma EveryRunPublishesTheLedger(actions: seq<Action>)
    requires Exec(actions).Some?
    ensures OutboxMatches(Exec(actions).value.store)
  {
    hide OutboxMatches, Exec, AcksHold, AttemptsHold;
    RunsKeepInv(actions);
  }

  /** The rows of one committed batch: one for each scope in first-insert order, with that scope's facts in insert order. */
  lemma BatchRows(ins: seq<Fact>, at: int, actor: string)
    ensures var rows, ss := Rows(ins, at, actor), Scopes(ins);
      && |rows| == |ss| && Distinct(ss)
      && forall k :: 0 <= k < |ss| ==>
        && rows[k].UsageRecorded? && rows[k].scope == ss[k] && rows[k].at == at && rows[k].actor == actor
        && rows[k].facts == Map(Publish, Select(ScopeOf, ss[k], ins)) != []
        && rows[k].aggregateId == Select(ScopeOf, ss[k], ins)[0].id
  {
    ScopesAreDistinct(ins);
    var rows, ss := Rows(ins, at, actor), Scopes(ins);
    forall k | 0 <= k < |ss|
      ensures rows[k] == ScopeRow(ins, ss[k], at, actor) && Select(ScopeOf, ss[k], ins) != []
    {
      RowAt(ins, ss, at, actor, k);
      ScopeHasFacts(ins, ss[k]);
    }
  }

  // ---- meters -------------------------------------------------------------------------------

  /**
   * In every run a meter at version v has exactly v published versions, 1 to v in order, all with its code,
   * unit, aggregation and keys, and the last of them is the stored row.
   */
  lemma EveryRunMeterLog(actions: seq<Action>, i: nat)
    requires Exec(actions).Some? && i < |Exec(actions).value.store.meters|
    ensures var s := Exec(actions).value.store; GoodLog(s.meters[i], Log(s.outbox, s.meters[i].id))
  {
    hide Exec, AcksHold, AttemptsHold, OneToOne, OutboxMatches, AllAdmitted, GoodLog;
    RunsKeepInv(actions);
  }

  /** A fact once committed stays as it is, under a meter that admits its dimensions, to the end of the run. */
  lemma EveryRunKeepsFacts(actions: seq<Action>, n: nat, i: nat)
    requires n <= |actions| && Exec(actions).Some?
    requires Exec(actions[..n]).Some? && i < |Exec(actions[..n]).value.store.facts|
    ensures var s, t := Exec(actions[..n]).value.store, Exec(actions).value.store;
      i < |t.facts| && t.facts[i] == s.facts[i] && Admitted(s.meters, s.facts[i]) && Admitted(t.meters, t.facts[i])
  {
    hide Exec, AcksHold, AttemptsHold, OneToOne, OutboxMatches, LogsHold, Admitted;
    RunsKeepInv(actions[..n]);
    RunsKeepInv(actions);
    RunsOnlyExtend(actions, n);
  }

  // ---- retries ------------------------------------------------------------------------------

  /** All answers ever given for an event name the same fact, the only one the event has. */
  lemma EveryRunAnswersAgree(actions: seq<Action>, i: nat, j: nat)
    requires Exec(actions).Some?
    requires i < |Exec(actions).value.acks| && j < |Exec(actions).value.acks|
    requires Exec(actions).value.acks[i].eventId == Exec(actions).value.acks[j].eventId
    ensures var s := Exec(actions).value;
      && s.acks[i].factId == s.acks[j].factId
      && |EventFacts(s.store.facts, s.acks[i].eventId)| == 1
      && EventFacts(s.store.facts, s.acks[i].eventId)[0].id == s.acks[i].factId
  {
    hide Exec, AttemptsHold, Sound, EventFacts, OneToOne;
    RunsKeepInv(actions);
    EveryRunOneFactPerEvent(actions, Exec(actions).value.acks[i].eventId);
  }

  lemma AgreeingKeysAreTargets(keys: map<string, Key>, fs: seq<Fact>, i: nat)
    requires !Process(keys, fs).clashed && i < |fs| && fs[i].eventId in keys
    ensures SameTarget(keys[fs[i].eventId], fs[i])
  {
    hide Process;
    ProcessClashes(keys, fs);
    assert AgreesAt(keys, fs, i);
    OwnerIsStored(keys, fs, fs[i].eventId);
  }

  /** A batch whose events are all recorded commits without a change and answers with the recorded facts. */
  lemma RepeatCommitChangesNothing(actions: seq<Action>, n: nat, heard: bool)
    requires Exec(actions).Some? && Enabled(Exec(actions).value, Commit(n, heard))
    requires var s := Exec(actions).value;
      forall i :: 0 <= i < |s.attempts[n].tx.facts| ==> s.attempts[n].tx.facts[i].eventId in s.store.keys
    ensures var s := Exec(actions).value;
      var tx := s.attempts[n].tx;
      && Apply(s, Commit(n, heard)).store == s.store
      && |tx.results| == |tx.facts|
      && forall i :: 0 <= i < |tx.facts| ==>
        tx.results[i] == RecordResult(tx.facts[i].eventId, s.store.keys[tx.facts[i].eventId].factId, true)
  {
    hide Exec, Sound, AcksHold, AttemptsHold, Fine, Scopes, Process, Ingest;
    RunsKeepInv(actions);
    var s := Exec(actions).value;
    var tx := s.attempts[n].tx;
    AttemptIsFine(s, n);
    CommitIsAtomic(s.store, tx);
    forall i | 0 <= i < |tx.facts| ensures SameTarget(s.store.keys[tx.facts[i].eventId], tx.facts[i]) {
      AgreeingKeysAreTargets(s.store.keys, tx.facts, i);
    }
    RepeatIngest(s.store, tx.facts, tx.at, tx.actor);
  }

  lemma RepeatIngest(s: Store, fs: seq<Fact>, at: int, actor: string)
    requires forall i :: 0 <= i < |fs| ==> fs[i].eventId in s.keys && SameTarget(s.keys[fs[i].eventId], fs[i])
    ensures Ingest(s, fs, at, actor) == s
    ensures Process(s.keys, fs).results
      == seq(|fs|, i requires 0 <= i < |fs| => RecordResult(fs[i].eventId, s.keys[fs[i].eventId].factId, true))
  {
    hide Process;
    ProcessRepeats(s.keys, fs);
    assert Rows([], at, actor) == [];
    assert s.facts + [] == s.facts && s.outbox + [] == s.outbox;
  }

  // ---- concurrent attempts of one batch -----------------------------------------------------

  function Events(fs: seq<Fact>): set<string> { set i | 0 <= i < |fs| :: fs[i].eventId }

  /** The batch of the ingestion that commits in step k. */
  function BatchAt(actions: seq<Action>, k: nat): Tx
    requires k < |actions| && Exec(actions).Some? && actions[k].Commit?
  {
    StepOfRun(actions, k);
    StateAt(actions, k).attempts[actions[k].n].tx
  }

  /** Both answers name the same fact for an event they share. */
  ghost predicate NameSameFacts(a: Tx, b: Tx) {
    forall i, j :: 0 <= i < |a.facts| && 0 <= j < |b.facts| && a.facts[i].eventId == b.facts[j].eventId ==>
      i < |a.results| && j < |b.results| && a.results[i].factId == b.results[j].factId
  }

  /** A commit leaves every event of its batch with the key it answered. */
  lemma {:induction false} CommitOwnsItsEvents(s: Store, tx: Tx, i: nat)
    requires Fine(s, Emitting(tx)) && |tx.rows| == |Scopes(tx.inserted)| && i < |tx.facts|
    ensures var keys := Publishing(s, tx).keys;
      && |tx.results| == |tx.facts| && tx.facts[i].eventId in keys
      && keys[tx.facts[i].eventId].factId == tx.results[i].factId
  {
    hide Fine, Process, Owner, IsNew, Scopes;
    CommitIsAtomic(s, tx);
    ProcessResults(s.keys, tx.facts);
    ProcessKeys(s.keys, tx.facts);
    assert ResultAt(s.keys, tx.facts, i, tx.results[i]);
    assert Lookup(Process(s.keys, tx.facts).keys, tx.facts[i].eventId) == Owner(s.keys, tx.facts, tx.facts[i].eventId);
  }

  /**
   * However the attempts of one batch are interleaved, with each other and with anything else, only the first commit
   * changes the tables, and every later one answers with the same facts.
   */
  lemma {:induction false} SameBatchCommitsOnce(actions: seq<Action>, i: nat, j: nat)
    requires Exec(actions).Some? && i < j < |actions| && actions[i].Commit? && actions[j].Commit?
    requires Events(BatchAt(actions, j).facts) <= Events(BatchAt(actions, i).facts)
    ensures StateAt(actions, j + 1).store == StateAt(actions, j).store
    ensures NameSameFacts(BatchAt(actions, i), BatchAt(actions, j))
  {
    hide Exec, Inv, Enabled, Apply, Extends, StateAt;
    var a, b := BatchAt(actions, i), BatchAt(actions, j);
    forall x | 0 <= x < |a.facts| ensures KeptFrom(actions, i, j, x) { OwnedUntil(actions, i, j, x); }
    forall y | 0 <= y < |b.facts| ensures b.facts[y].eventId in StateAt(actions, j).store.keys {
      assert b.facts[y].eventId in Events(a.facts);
      var x :| 0 <= x < |a.facts| && a.facts[x].eventId == b.facts[y].eventId;
      assert KeptFrom(actions, i, j, x);
    }
    RepeatOfRun(actions, j);
    forall x, y | 0 <= x < |a.facts| && 0 <= y < |b.facts| && a.facts[x].eventId == b.facts[y].eventId
      ensures x < |a.results| && y < |b.results| && a.results[x].factId == b.results[y].factId
    {
      assert KeptFrom(actions, i, j, x);
    }
  }

  /** At step j event x of the batch committed in step i still has the key it was answered with. */
  ghost predicate KeptFrom(actions: seq<Action>, i: nat, j: nat, x: int)
    requires Exec(actions).Some? && i < j < |actions| && actions[i].Commit?
  {
    var a, keys := BatchAt(actions, i), StateAt(actions, j).store.keys;
    0 <= x < |a.facts| && x < |a.results| && a.facts[x].eventId in keys && keys[a.facts[x].eventId].factId == a.results[x].factId
  }

  lemma {:induction false} OwnedUntil(actions: seq<Action>, i: nat, j: nat, x: nat)
    requires Exec(actions).Some? && i < j < |actions| && actions[i].Commit? && x < |BatchAt(actions, i).facts|
    ensures KeptFrom(actions, i, j, x)
  {
    hide Exec, Sound, AcksHold, Fine, Scopes, Publishing, Extends;
    StepOfRun(actions, i);
    PrefixRuns(actions, i);
    RunsKeepInv(actions[..i]);
    AttemptIsFine(StateAt(actions, i), actions[i].n);
    CommitOwnsItsEvents(StateAt(actions, i).store, BatchAt(actions, i), x);
    KeysStay(actions, i + 1, j);
  }

  lemma {:induction false} KeysStay(actions: seq<Action>, i: nat, j: nat)
    requires Exec(actions).Some? && i <= j <= |actions|
    ensures var before, after := StateAt(actions, i).store.keys, StateAt(actions, j).store.keys;
      forall e :: e in before ==> e in after && after[e] == before[e]
  {
    hide Exec, MetersPersist;
    PrefixRuns(actions, j);
    RunsOnlyExtend(actions[..j], i);
    assert actions[..j][..i] == actions[..i];
  }

  lemma {:induction false} RepeatOfRun(actions: seq<Action>, j: nat)
    requires Exec(actions).Some? && j < |actions| && actions[j].Commit?
    requires forall y :: 0 <= y < |BatchAt(actions, j).facts| ==>
      BatchAt(actions, j).facts[y].eventId in StateAt(actions, j).store.keys
    ensures StateAt(actions, j + 1).store == StateAt(actions, j).store
    ensures var b, keys := BatchAt(actions, j), StateAt(actions, j).store.keys;
      |b.results| == |b.facts| &&
      forall y :: 0 <= y < |b.facts| ==> b.results[y].factId == keys[b.facts[y].eventId].factId
  {
    hide Exec, Inv, Apply;
    StepOfRun(actions, j);
    PrefixRuns(actions, j);
    var tx := Exec(actions[..j]).value.attempts[actions[j].n].tx;
    assert tx == BatchAt(actions, j);
    RepeatCommitChangesNothing(actions[..j], actions[j].n, actions[j].heard);
  }
}
