/** What the usage.recorded rows tell a consumer about the facts table. */
module PublishedFacts {
  import opened Ledger
  import opened Partition
  import opened Ingestion
  import opened Interleaving
  import opened Runs

  /** The payload has every field of the fact, and its dimensions as a map that is empty where they are absent. */
  ghost predicate Carries(p: Published, f: Fact) {
    && p.fact.(dims := f.dims) == f
    && match f.dims
       case Null => p.dims == map[]
       case Object(m) => p.dims == m
  }

  lemma PublishCarries(f: Fact)
    ensures Carries(Publish(f), f)
  {
  }

  function IdOf(p: Published): Id { p.fact.id }

  function FactId(f: Fact): Id { f.id }

  lemma {:induction false} SelectById(facts: seq<Fact>, i: nat)
    requires i < |facts| && forall j, k :: 0 <= j < k < |facts| ==> facts[j].id != facts[k].id
    ensures Select(FactId, facts[i].id, facts) == [facts[i]]
  {
    if i > 0 {
      SelectById(facts[1..], i - 1);
    } else {
      SelectNone(facts[1..], facts[0].id);
    }
  }

  lemma {:induction false} SelectNone(facts: seq<Fact>, id: Id)
    requires forall j :: 0 <= j < |facts| ==> facts[j].id != id
    ensures Select(FactId, id, facts) == []
  {
    if facts != [] {
      SelectNone(facts[1..], id);
    }
  }

  /** Each stored fact has exactly one payload under its id, which carries it. */
  lemma FactIsPublishedOnce(s: Store, i: nat)
    requires OneToOne(s.keys, s.facts) && OutboxMatches(s) && i < |s.facts|
    ensures var ps := Select(IdOf, s.facts[i].id, Payloads(s.outbox)); |ps| == 1 && Carries(ps[0], s.facts[i])
  {
    hide OneToOne, Publish, Carries, Payloads;
    var f := s.facts[i];
    IdsDiffer(s);
    PublishKeepsId();
    SelectPermuted(IdOf, f.id, Payloads(s.outbox), Map(Publish, s.facts));
    SelectMap(Publish, FactId, IdOf, f.id, s.facts);
    SelectById(s.facts, i);
    assert Map(Publish, [f]) == [Publish(f)];
    OneOnly(Select(IdOf, f.id, Payloads(s.outbox)), Publish(f));
    PublishCarries(f);
  }

  lemma IdsDiffer(s: Store)
    requires OneToOne(s.keys, s.facts)
    ensures forall j, k :: 0 <= j < k < |s.facts| ==> s.facts[j].id != s.facts[k].id
  {
  }

  lemma PublishKeepsId()
    ensures forall f: Fact :: IdOf(Publish(f)) == FactId(f)
  {
  }

  /** And no payload is published for anything else. */
  lemma PayloadHasFact(s: Store, p: Published)
    requires OutboxMatches(s) && p in Payloads(s.outbox)
    ensures exists i :: 0 <= i < |s.facts| && Carries(p, s.facts[i])
  {
    hide Publish, Carries, Payloads;
    assert p in multiset(Payloads(s.outbox));
    assert p in Map(Publish, s.facts);
    var i :| 0 <= i < |s.facts| && Map(Publish, s.facts)[i] == p;
    PublishCarries(s.facts[i]);
  }

  /** In every run the payloads are the facts: one for each, with all its fields. */
  lemma EveryRunPublishesEachFact(actions: seq<Action>, i: nat)
    requires Exec(actions).Some? && i < |Exec(actions).value.store.facts|
    ensures var s := Exec(actions).value.store;
      var ps := Select(IdOf, s.facts[i].id, Payloads(s.outbox));
      && |ps| == 1 && Carries(ps[0], s.facts[i])
      && forall p :: p in Payloads(s.outbox) ==> exists j :: 0 <= j < |s.facts| && Carries(p, s.facts[j])
  {
    hide Exec, OneToOne, OutboxMatches, Carries, Payloads, EventFacts;
    var s := Exec(actions).value.store;
    EveryRunPublishesTheLedger(actions);
    EveryRunOneFactPerEvent(actions, s.facts[i].eventId);
    FactIsPublishedOnce(s, i);
    forall p | p in Payloads(s.outbox) ensures exists j :: 0 <= j < |s.facts| && Carries(p, s.facts[j]) {
      PayloadHasFact(s, p);
    }
  }

  // ---- the consumer -------------------------------------------------------------------------

  /** What a bill is made for. */
  datatype Account = Account(scope: Scope, meter: string)

  function AccountOf(f: Fact): Account { Account(f.scope, f.meter) }

  function PayloadAccount(p: Published): Account { Account(p.fact.scope, p.fact.meter) }

  function QuantityOf(f: Fact): int { f.quantity }

  function PayloadQuantity(p: Published): int { p.fact.quantity }

  lemma PublishKeepsBill()
    ensures forall f: Fact :: PayloadAccount(Publish(f)) == AccountOf(f) && PayloadQuantity(Publish(f)) == QuantityOf(f)
  {
  }

  /** A consumer that adds up the published quantities of a tenant, application and meter gets what is stored for them. */
  lemma EveryRunBillsTheLedger(actions: seq<Action>, a: Account)
    requires Exec(actions).Some?
    ensures var s := Exec(actions).value.store;
      Total(PayloadQuantity, Select(PayloadAccount, a, Payloads(s.outbox))) == Total(QuantityOf, Select(AccountOf, a, s.facts))
  {
    hide Exec, Publish, Payloads;
    var s := Exec(actions).value.store;
    EveryRunPublishesTheLedger(actions);
    PublishKeepsBill();
    SelectPermuted(PayloadAccount, a, Payloads(s.outbox), Map(Publish, s.facts));
    TotalPermuted(PayloadQuantity, Select(PayloadAccount, a, Payloads(s.outbox)),
                  Select(PayloadAccount, a, Map(Publish, s.facts)));
    SelectMap(Publish, AccountOf, PayloadAccount, a, s.facts);
    TotalMap(Publish, QuantityOf, PayloadQuantity, Select(AccountOf, a, s.facts));
  }

  /** A row of scope s carries the facts it was written for, one after the other, and all of them are of that scope. */
  lemma RowsCarryTheirFacts(ins: seq<Fact>, at: int, actor: string, k: nat, x: nat)
    requires k < |Rows(ins, at, actor)| && k < |Scopes(ins)| && Rows(ins, at, actor)[k].UsageRecorded?
    requires x < |Rows(ins, at, actor)[k].facts|
    ensures var row, of := Rows(ins, at, actor)[k], Select(ScopeOf, Scopes(ins)[k], ins);
      && |row.facts| == |of| && Carries(row.facts[x], of[x])
      && row.facts[x].fact.scope == row.scope && row.aggregateId == row.facts[0].fact.id
      && row.at == at && row.actor == actor
  {
    hide Carries, Publish, Scopes, Rows;
    BatchRows(ins, at, actor);
    var of := Select(ScopeOf, Scopes(ins)[k], ins);
    SelectMembers(ScopeOf, Scopes(ins)[k], ins);
    assert of[x] in of && of[0] in of;
    PublishCarries(of[x]);
    PublishCarries(of[0]);
    ScopeIsKept(Publish(of[x]), of[x]);
    ScopeIsKept(Publish(of[0]), of[0]);
  }

  lemma ScopeIsKept(p: Published, f: Fact)
    requires Carries(p, f)
    ensures p.fact.scope == ScopeOf(f) && p.fact.id == f.id
  {
  }
}
