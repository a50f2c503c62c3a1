/** The database behind the service: committed tables, one open transaction at a time, and its commit outcomes. */
module Database {
  import opened Ledger
  import opened Ingestion
  import opened Meters
  import opened Soundness

  /**
   * How Transactor.Within ends. A callback error is rolled back, and under RollbackFails, where the connection is
   * gone and no commit could land either, the caller hears of the failed rollback instead.
   */
  datatype Fate = BeginFails | RollbackFails | CommitFails | CommitLost | Commits

  /** The commit reaches the tables, whether or not the caller hears of it. */
  predicate Lands(fate: Fate) { fate.Commits? || fate.CommitLost? }

  class Connection {
    /** The committed tables. */
    var store: Store
    /** The tables as the open transaction sees them. */
    var work: Store

    ghost predicate Valid()
      reads this
    {
      Sound(store)
    }

    constructor ()
      ensures Valid() && store == EMPTY
    {
      store, work := EMPTY, EMPTY;
      assert Payloads([]) == [];
    }

    method Begin()
      modifies this`work
      ensures work == store
    {
      work := store;
    }

    /** The database drops the transaction's rows even if the rollback reports an error. */
    method Rollback(fate: Fate) returns (ok: bool)
      modifies this`work
      ensures work == store
      ensures ok <==> !fate.RollbackFails?
    {
      work := store;
      ok := !fate.RollbackFails?;
    }

    method Commit(fate: Fate) returns (ok: bool)
      modifies this`store
      ensures store == if Lands(fate) then work else old(store)
      ensures ok <==> fate.Commits?
    {
      if Lands(fate) {
        store := work;
      }
      ok := fate.Commits?;
    }

    /** INSERT ... ON CONFLICT (event_id) DO NOTHING, and on a conflict the comparison with the stored row. */
    method ClaimUsage(f: Fact) returns (c: Claim)
      modifies this`work
      ensures c == ClaimOf(old(work).keys, f)
      ensures work == if c.Claimed? then old(work).(keys := old(work).keys[f.eventId := KeyOf(f)]) else old(work)
    {
      if f.eventId !in work.keys {
        work := work.(keys := work.keys[f.eventId := KeyOf(f)]);
        return Claimed;
      }
      var existing := work.keys[f.eventId];
      if existing.scope.tenant != f.scope.tenant || existing.scope.app != f.scope.app || existing.meter != f.meter {
        return Clash;
      }
      return Duplicate(existing.factId);
    }

    /** The insert fails on a second row with the primary key (id, occurred_at). */
    method InsertUsage(f: Fact) returns (ok: bool)
      modifies this`work
      ensures ok <==> forall i :: 0 <= i < |old(work).facts| ==>
        old(work).facts[i].id != f.id || old(work).facts[i].occurredAt != f.occurredAt
      ensures work == if ok then old(work).(facts := old(work).facts + [f]) else old(work)
    {
      if exists i :: 0 <= i < |work.facts| && work.facts[i].id == f.id && work.facts[i].occurredAt == f.occurredAt {
        return false;
      }
      work := work.(facts := work.facts + [f]);
      return true;
    }

    /** Transactions of other callers. */
    method Meanwhile(others: Store -> Store)
      modifies this`store
      ensures store == others(old(store))
    {
      store := others(store);
    }

    method AddOutbox(row: Row)
      modifies this`work
      ensures work == old(work).(outbox := old(work).outbox + [row])
    {
      work := work.(outbox := work.outbox + [row]);
    }

    /** The insert fails on a used id or code. */
    method CreateMeter(m: Meter) returns (ok: bool)
      modifies this`work
      ensures ok <==> Unused(old(work).meters, m)
      ensures work == if ok then old(work).(meters := old(work).meters + [m]) else old(work)
    {
      ok := Unused(work.meters, m);
      if ok {
        work := work.(meters := work.meters + [m]);
      }
    }

    /** No affected row means the expected version is not the stored one. */
    method UpdateMeter(v: Meter, expected: int) returns (ok: bool)
      modifies this`work
      ensures ok <==> AnyMatch(old(work).meters, v.id, expected)
      ensures work == old(work).(meters := UpdateWhere(old(work).meters, v, expected))
    {
      ok := AnyMatch(work.meters, v.id, expected);
      work := work.(meters := UpdateWhere(work.meters, v, expected));
    }
  }

  /** SELECT ... FROM usage_facts WHERE tenant_id = ? AND application_id = ? AND id = ? */
  function UsageById(facts: seq<Fact>, scope: Scope, id: Id): Option<Fact> {
    if facts == [] then None
    else if facts[0].scope == scope && facts[0].id == id then Some(facts[0])
    else UsageById(facts[1..], scope, id)
  }

  lemma {:induction false} UsageByIdIsFact(facts: seq<Fact>, scope: Scope, id: Id)
    ensures var found := UsageById(facts, scope, id);
      && (found.Some? ==> found.value in facts && found.value.scope == scope && found.value.id == id)
      && (found.None? ==> forall f :: f in facts ==> f.scope != scope || f.id != id)
  {
    if facts != [] {
      UsageByIdIsFact(facts[1..], scope, id);
      assert facts == [facts[0]] + facts[1..];
    }
  }

  /** With unique ids the lookup returns the fact itself. */
  lemma {:induction false} UsageByIdFinds(facts: seq<Fact>, i: nat)
    requires i < |facts|
    requires forall j, k :: 0 <= j < k < |facts| ==> facts[j].id != facts[k].id
    ensures UsageById(facts, facts[i].scope, facts[i].id) == Some(facts[i])
  {
    if i > 0 {
      UsageByIdFinds(facts[1..], i - 1);
    }
  }
}
