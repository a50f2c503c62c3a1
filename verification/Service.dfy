/** metering.Service: the write operations and the read-back of an adjustment. */
module Service {
  import opened Ledger
  import opened Text
  import opened Partition
  import opened Ingestion
  import opened Validation
  import opened Meters
  import opened Soundness
  import opened Database
  import opened Order

  // ---- specifications -----------------------------------------------------------------------

  datatype Recorded = Recorded(store: Store, results: seq<RecordResult>, error: Option<Error>)

  /** RecordUsage as a function of the tables; results may come with an error. */
  function Record(s: Store, caller: Caller, verify: Scope -> Verdict, inputs: seq<UsageInput>, ids: seq<Id>,
                  now: int, fate: Fate): Recorded
    requires |ids| == |inputs|
  {
    RecordChecked(s, caller, |inputs|, CheckEach(Env(caller, verify, s.meters, now), inputs, ids), now, fate)
  }

  /** RecordUsage on a batch of n events, given the outcome of their checks. */
  function RecordChecked(s: Store, caller: Caller, n: nat, checked: Result<seq<Fact>>, now: int, fate: Fate): Recorded {
    if caller.Anonymous? then Recorded(s, [], Some(Unauthorized))
    else if n == 0 || n > MAX_BATCH then Recorded(s, [], Some(Invalid))
    else
      match checked
      case Err(e) => Recorded(s, [], Some(e))
      case Ok(fs) => Transact(s, fs, now, caller.id, fate)
  }

  /** What the caller hears of a callback error: a failed rollback hides it. */
  function AfterRollback(e: Error, fate: Fate): Error { if fate.RollbackFails? then Internal else e }

  /** The transaction on checked facts. */
  function Transact(s: Store, fs: seq<Fact>, now: int, actor: string, fate: Fate): Recorded {
    var p := Process(s.keys, fs);
    if fate.BeginFails? then Recorded(s, [], Some(Internal))
    else if p.clashed then Recorded(s, p.results, Some(AfterRollback(EventClash, fate)))
    else Recorded(if Lands(fate) then Ingest(s, fs, now, actor) else s, p.results,
                  if fate.Commits? then None else Some(Internal))
  }

  /** The id supply has not been used before. */
  ghost predicate FreshSupply(s: Store, ids: seq<Id>) {
    Distinct(ids) && forall i, j :: 0 <= i < |ids| && 0 <= j < |s.facts| ==> ids[i] != s.facts[j].id
  }

  lemma CheckedFactsAreFresh(s: Store, env: Env, inputs: seq<UsageInput>, ids: seq<Id>)
    requires |ids| == |inputs| && CheckEach(env, inputs, ids).Ok? && FreshSupply(s, ids)
    ensures FreshIds(CheckEach(env, inputs, ids).value, s.facts)
    ensures AllAdmitted(env.meters, CheckEach(env, inputs, ids).value)
  {
    var fs := CheckEach(env, inputs, ids).value;
    CollectAligns(Checks(env, inputs, ids));
    forall i | 0 <= i < |fs| ensures fs[i].id == ids[i] && Admitted(env.meters, fs[i]) {
      assert Checks(env, inputs, ids)[i] == Ok(fs[i]);
      CheckedOneIsSound(env, inputs[i], ids[i]);
      var m :| m in env.meters && Fits(fs[i], m);
    }
  }

  lemma TransactKeepsSound(s: Store, fs: seq<Fact>, now: int, actor: string, fate: Fate)
    requires Sound(s) && FreshIds(fs, s.facts) && AllAdmitted(s.meters, fs)
    ensures Sound(Transact(s, fs, now, actor, fate).store) && Extends(s, Transact(s, fs, now, actor, fate).store)
  {
    hide Sound, Extends, Ingest;
    ExtendsIsReflexive(s);
    IngestKeepsSound(s, fs, now, actor);
  }

  lemma RecordCheckedKeepsSound(s: Store, caller: Caller, n: nat, checked: Result<seq<Fact>>, now: int, fate: Fate)
    requires Sound(s) && (checked.Ok? ==> FreshIds(checked.value, s.facts) && AllAdmitted(s.meters, checked.value))
    ensures Sound(RecordChecked(s, caller, n, checked, now, fate).store)
    ensures Extends(s, RecordChecked(s, caller, n, checked, now, fate).store)
  {
    hide Sound, Extends, Transact;
    ExtendsIsReflexive(s);
    if caller.Principal? && checked.Ok? {
      TransactKeepsSound(s, checked.value, now, caller.id, fate);
    }
  }

  /** Whatever the outcome, recording keeps the tables sound and only adds to them. */
  lemma RecordKeepsSound(s: Store, caller: Caller, verify: Scope -> Verdict, inputs: seq<UsageInput>, ids: seq<Id>,
                         now: int, fate: Fate)
    requires Sound(s) && |ids| == |inputs| && FreshSupply(s, ids)
    ensures Sound(Record(s, caller, verify, inputs, ids, now, fate).store)
    ensures Extends(s, Record(s, caller, verify, inputs, ids, now, fate).store)
  {
    hide Sound, Extends, CheckEach, RecordChecked;
    var env := Env(caller, verify, s.meters, now);
    var checked := CheckEach(env, inputs, ids);
    if checked.Ok? {
      CheckedFactsAreFresh(s, env, inputs, ids);
    }
    RecordCheckedKeepsSound(s, caller, |inputs|, checked, now, fate);
  }

  /** What each ending of the transaction does to the tables, and what the caller hears of it. */
  lemma TransactionEndings(s: Store, fs: seq<Fact>, now: int, actor: string, fate: Fate)
    ensures var p, r := Process(s.keys, fs), Transact(s, fs, now, actor, fate);
      && (fate == BeginFails ==> r == Recorded(s, [], Some(Internal)))
      && (fate == RollbackFails && p.clashed ==> r == Recorded(s, p.results, Some(Internal)))
      && (fate in [CommitFails, CommitLost, Commits] && p.clashed ==> r == Recorded(s, p.results, Some(EventClash)))
      && (fate in [RollbackFails, CommitFails] && !p.clashed ==> r == Recorded(s, p.results, Some(Internal)))
      && (fate in [CommitLost, Commits] && !p.clashed ==>
            && r.store == Store(s.meters, p.keys, s.facts + p.inserted, s.outbox + Rows(p.inserted, now, actor))
            && r.results == p.results && r.error == if fate == Commits then None else Some(Internal))
  {
    hide Process, Rows;
  }

  /** Two batches are refused before anything is looked at: those of nobody, and those too small or too large. */
  lemma BatchesRefusedAtOnce(s: Store, caller: Caller, verify: Scope -> Verdict, inputs: seq<UsageInput>, ids: seq<Id>,
                             now: int, fate: Fate)
    requires |ids| == |inputs|
    ensures var r := Record(s, caller, verify, inputs, ids, now, fate);
      && (caller.Anonymous? ==> r == Recorded(s, [], Some(Unauthorized)))
      && (caller.Principal? && (inputs == [] || |inputs| > 500) ==> r == Recorded(s, [], Some(Invalid)))
      && (caller.Principal? && 0 < |inputs| <= 500 && CheckEach(Env(caller, verify, s.meters, now), inputs, ids).Err? ==>
            r == Recorded(s, [], Some(CheckEach(Env(caller, verify, s.meters, now), inputs, ids).error)))
  {
    hide CheckEach, Transact;
  }

  lemma CheckOfOne(env: Env, raw: UsageInput, id: Id)
    ensures var one := CheckOne(env, raw, id);
      CheckEach(env, [raw], [id]) == if one.Ok? then Ok([one.value]) else Err(one.error)
  {
    hide CheckOne;
    var rs := Checks(env, [raw], [id]);
    assert rs == [CheckOne(env, raw, id)];
    CollectOne(rs);
  }

  lemma CollectOne(rs: seq<Result<Fact>>)
    requires |rs| == 1
    ensures Collect(rs) == if rs[0].Ok? then Ok([rs[0].value]) else Err(rs[0].error)
  {
    assert rs[..0] == [];
    assert Collect(rs[..0]) == Ok([]);
    var none: seq<Fact> := [];
    if rs[0].Ok? {
      assert none + [rs[0].value] == [rs[0].value];
    }
  }

  /**
   * What the status of a stored meter means: with an event that lacks nothing else, a meter that is disabled or archived
   * lets no batch of it through, and an active one does.
   */
  lemma StatusDecidesRecording(t: Store, v: Meter, caller: Caller, verify: Scope -> Verdict, raw: UsageInput, id: Id,
                               now: int, fate: Fate)
    requires Sound(t) && v in t.meters && Code(raw.meter) == v.code
    requires Acceptable(caller, verify(Scope(Trim(raw.tenant), Trim(raw.app))), Some(v.(status := Active)), now, raw)
    ensures var r := Record(t, caller, verify, [raw], [id], now, fate);
      && (StatusName(v.status) in ["disabled", "archived"] ==> r == Recorded(t, [], Some(MeterInactive)))
      && (StatusName(v.status) == "active" && fate == Commits && Trim(raw.eventId) !in t.keys ==>
            r.error == None && |r.store.facts| == |t.facts| + 1)
  {
    hide Sound, CheckWith, Trim, Code, Lower, Rows, DimensionsFit, CheckEach, Payloads;
    var env := Env(caller, verify, t.meters, now);
    SoundMetersAreUnique(t);
    RowIsFound(t.meters, v);
    AcceptedExactly(caller, verify(Scope(Trim(raw.tenant), Trim(raw.app))), Some(v), now, raw, id);
    RefusedExactly(caller, verify(Scope(Trim(raw.tenant), Trim(raw.app))), Some(v), now, raw, id);
    CheckOfOne(env, raw, id);
    if v.status == Active {
      FactCarriesTheEvent(caller, verify(Scope(Trim(raw.tenant), Trim(raw.app))), Some(v), now, raw, id);
      ProcessOne(t.keys, CheckOne(env, raw, id).value);
    }
  }

  lemma RowIsFound(ms: seq<Meter>, v: Meter)
    requires UniqueMeters(ms) && v in ms
    ensures MeterByCode(ms, v.code) == Some(v)
  {
    var i :| 0 <= i < |ms| && ms[i] == v;
    MeterByCodeIs(ms, i);
  }

  // ---- the grouping of the outbox loop ------------------------------------------------------

  /** The loop's map and order after inserting `ins`. */
  ghost predicate Grouped(groups: map<Scope, seq<Published>>, order: seq<Scope>, ins: seq<Fact>) {
    && order == Scopes(ins)
    && (forall s :: s in groups <==> s in order)
    && (forall s :: s in groups ==> groups[s] == Map(Publish, Select(ScopeOf, s, ins)))
  }

  lemma NothingGrouped()
    ensures Grouped(map[], [], [])
  {
  }

  lemma SelectSnoc(s: Scope, ins: seq<Fact>, f: Fact)
    ensures Select(ScopeOf, s, ins + [f]) == Select(ScopeOf, s, ins) + (if f.scope == s then [f] else [])
  {
    SelectAppend(ScopeOf, s, ins, [f]);
    assert [f][1..] == [];
    assert ScopeOf(f) == f.scope;
  }

  lemma NoScopeNoFacts(s: Scope, ins: seq<Fact>)
    requires s !in Scopes(ins)
    ensures Select(ScopeOf, s, ins) == []
  {
    ScopesAreDistinct(ins);
    SelectMembers(ScopeOf, s, ins);
    HeadIsMember(Select(ScopeOf, s, ins));
  }

  lemma GroupedGrows(groups: map<Scope, seq<Published>>, order: seq<Scope>, ins: seq<Fact>, f: Fact)
    requires Grouped(groups, order, ins)
    ensures Grouped(groups[f.scope := (if f.scope in groups then groups[f.scope] else []) + [Publish(f)]],
                    if f.scope in groups then order else order + [f.scope], ins + [f])
  {
    assert (ins + [f])[..|ins|] == ins;
    var s := f.scope;
    if s !in groups {
      NoScopeNoFacts(s, ins);
    }
    forall t ensures Select(ScopeOf, t, ins + [f]) == Select(ScopeOf, t, ins) + (if s == t then [f] else []) {
      SelectSnoc(t, ins, f);
    }
    MapAppend(Publish, Select(ScopeOf, s, ins), [f]);
    assert Map(Publish, [f]) == [Publish(f)];
    assert Map(Publish, []) == [];
  }

  // ---- the service --------------------------------------------------------------------------

  class Service {
    const db: Connection

    constructor (db: Connection)
      ensures this.db == db
    {
      this.db := db;
    }

    /** The claim and insert loop of the transaction. */
    method ClaimAndInsert(facts: seq<Fact>)
      returns (results: seq<RecordResult>, groups: map<Scope, seq<Published>>, order: seq<Scope>, error: Option<Error>)
      requires FreshIds(facts, db.work.facts)
      modifies db`work
      ensures var p := Process(old(db.work).keys, facts);
        && results == p.results
        && error == (if p.clashed then Some(EventClash) else None)
        && (!p.clashed ==>
              && db.work == old(db.work).(keys := p.keys, facts := old(db.work).facts + p.inserted)
              && Grouped(groups, order, p.inserted))
    {
      hide FreshIds, Grouped;
      results, groups, order := [], map[], [];
      NothingGrouped();
      ghost var start, ins := db.work, [];
      assert start.facts + ins == start.facts;
      for i := 0 to |facts|
        invariant Process(start.keys, facts[..i]) == Progress(db.work.keys, ins, results, false)
        invariant db.work == start.(keys := db.work.keys, facts := start.facts + ins)
        invariant Grouped(groups, order, ins)
      {
        var fact := facts[i];
        assert facts[..i + 1][..i] == facts[..i] && facts[..i + 1][i] == fact;
        var claim := db.ClaimUsage(fact);
        if claim.Clash? {
          ClashStays(start.keys, facts, i + 1);
          return results, groups, order, Some(EventClash);
        }
        results := results + [RecordResult(fact.eventId, if claim.Claimed? then fact.id else claim.factId, !claim.Claimed?)];
        if claim.Duplicate? {
          continue;
        }
        NewIdIsFree(start.keys, start.facts, facts, i);
        var ok := db.InsertUsage(fact);
        if !ok {
          assert false;
        }
        GroupedGrows(groups, order, ins, fact);
        var scope := fact.scope;
        if scope !in groups {
          order := order + [scope];
        }
        groups := groups[scope := (if scope in groups then groups[scope] else []) + [Publish(fact)]];
        ins := ins + [fact];
        assert start.facts + ins == start.facts + ins[..|ins| - 1] + [fact];
      }
      assert facts[..|facts|] == facts;
      error := None;
    }

    /** The outbox loop of the transaction. */
    method EmitRows(groups: map<Scope, seq<Published>>, order: seq<Scope>, ghost ins: seq<Fact>, now: int, actor: string)
      requires Grouped(groups, order, ins)
      modifies db`work
      ensures db.work == old(db.work).(outbox := old(db.work).outbox + Rows(ins, now, actor))
    {
      ghost var start := db.work;
      assert start.outbox + RowsFor(ins, [], now, actor) == start.outbox;
      for i := 0 to |order|
        invariant forall s :: s in order[..i] ==> s in Scopes(ins)
        invariant db.work == start.(outbox := start.outbox + RowsFor(ins, order[..i], now, actor))
      {
        var scope := order[i];
        ScopeHasFacts(ins, scope);
        var values := groups[scope];
        assert order[..i + 1][..i] == order[..i] && order[..i + 1][i] == scope;
        var row := UsageRecorded(values[0].fact.id, scope, values, now, actor);
        assert values[0] == Publish(Select(ScopeOf, scope, ins)[0]);
        assert row == ScopeRow(ins, scope, now, actor);
        db.AddOutbox(row);
        assert start.outbox + RowsFor(ins, order[..i + 1], now, actor)
            == start.outbox + RowsFor(ins, order[..i], now, actor) + [ScopeRow(ins, scope, now, actor)];
      }
      assert order[..|order|] == order;
    }

    /** Records a batch: all of it or nothing, and each event at most once. */
    method RecordUsage(caller: Caller, verify: Scope -> Verdict, inputs: seq<UsageInput>, ids: seq<Id>, now: int, fate: Fate)
      returns (results: seq<RecordResult>, error: Option<Error>)
      requires db.Valid() && |ids| == |inputs| && FreshSupply(db.store, ids)
      modifies db
      ensures db.Valid() && Extends(old(db.store), db.store)
      ensures Recorded(db.store, results, error) == Record(old(db.store), caller, verify, inputs, ids, now, fate)
    {
      RecordKeepsSound(db.store, caller, verify, inputs, ids, now, fate);
      if caller.Anonymous? {
        return [], Some(Unauthorized);
      }
      if |inputs| == 0 || |inputs| > MAX_BATCH {
        return [], Some(Invalid);
      }
      var env := Env(caller, verify, db.store.meters, now);
      var checked, _ := CheckBatch(env, inputs, ids);
      if checked.Err? {
        return [], Some(checked.error);
      }
      CheckedFactsAreFresh(db.store, env, inputs, ids);
      results, error := Within(checked.value, now, caller.id, fate);
    }

    /** Transactor.Within around the ingestion callback. */
    method Within(facts: seq<Fact>, now: int, actor: string, fate: Fate)
      returns (results: seq<RecordResult>, error: Option<Error>)
      requires FreshIds(facts, db.store.facts)
      modifies db
      ensures Recorded(db.store, results, error) == Transact(old(db.store), facts, now, actor, fate)
    {
      if fate.BeginFails? {
        return [], Some(Internal);
      }
      db.Begin();
      var groups, order;
      results, groups, order, error := ClaimAndInsert(facts);
      if error.Some? {
        var undone := db.Rollback(fate);
        error := if undone then error else Some(Internal);
        return;
      }
      EmitRows(groups, order, Process(db.store.keys, facts).inserted, now, actor);
      var ok := db.Commit(fate);
      error := if ok then None else Some(Internal);
    }

    /**
     * Reads a fact. A caller that is not authenticated, a user of another tenant, a scope that is not granted and a
     * fact that is not there are refused, in this order; a user gets facts of its own tenant only.
     */
    method GetUsage(caller: Caller, verify: Scope -> Verdict, tenant: string, app: string, id: Id) returns (r: Result<Fact>)
      ensures r == ReadUsage(db.store, caller, verify, tenant, app, id)
      ensures var scope := Scope(Trim(tenant), Trim(app));
        var own := caller.Principal? && (caller.kind == User ==> caller.tenant == Trim(tenant) != "");
        var there := exists f :: f in db.store.facts && f.scope == scope && f.id == id;
        && (r.Ok? <==> own && verify(scope) == Granted && there)
        && (r.Ok? ==> r.value in db.store.facts && r.value.scope == scope && r.value.id == id)
        && (r.Ok? && caller.kind == User ==> r.value.scope.tenant == caller.tenant)
        && (caller.Anonymous? ==> r == Err(Unauthorized))
        && (caller.Principal? && !own ==> r == Err(Forbidden))
        && (own && verify(scope) == NotGranted ==> r == Err(Forbidden))
        && (own && verify(scope) == Broken ==> r == Err(Unavailable))
        && (own && verify(scope) == Granted && !there ==> r == Err(NotFound))
    {
      var refusal := AuthorizeTenant(caller, tenant);
      if refusal.Some? {
        return Err(refusal.value);
      }
      var scope := Scope(Trim(tenant), Trim(app));
      var bad := VerdictError(verify(scope));
      if bad.Some? {
        return Err(bad.value);
      }
      var found := UsageById(db.store.facts, scope, id);
      UsageByIdIsFact(db.store.facts, scope, id);
      return if found.Some? then Ok(found.value) else Err(NotFound);
    }

    /**
     * The gRPC AdjustUsage: record one event, then, after whatever others commit in between, read its fact back.
     * Whenever the record succeeds the read does too, and it returns the fact that owns the requested event,
     * duplicate or not.
     */
    method AdjustUsage(caller: Caller, verify: Scope -> Verdict, request: UsageInput, id: Id, now: int, fate: Fate,
                       others: Store -> Store)
      returns (r: Result<Fact>, duplicate: bool)
      requires db.Valid() && FreshSupply(db.store, [id]) && OnlyExtends(others)
      modifies db
      ensures db.Valid() && Extends(old(db.store), db.store)
      ensures var input := request.(source := "metering-service", adjustment := true);
        var recorded := Record(old(db.store), caller, verify, [input], [id], now, fate);
        && db.store == (if r.Ok? then others(recorded.store) else recorded.store)
        && (r.Ok? <==> recorded.error.None?)
        && (r.Err? ==> r.error == recorded.error.value)
        && (r.Ok? ==> r.value in db.store.facts && Answers(r.value, request))
        && (r.Ok? ==> (duplicate <==> r.value in old(db.store).facts))
    {
      hide Record, Trim, Code, Sound, Extends, ReadUsage, FreshSupply, Distinct, OnlyExtends;
      var input := request.(source := "metering-service", adjustment := true);
      ghost var before := db.store;
      var results, error := RecordUsage(caller, verify, [input], [id], now, fate);
      if error.Some? {
        return Err(error.value), false;
      }
      ghost var recorded := db.store;
      OthersExtend(others, recorded);
      ExtendsIsTransitive(before, recorded, others(recorded));
      AdjustReadsBack(before, caller, verify, input, id, now, fate, others(recorded));
      db.Meanwhile(others);
      r := GetUsage(caller, verify, request.tenant, request.app, results[0].factId);
      duplicate := results[0].duplicate;
    }

    /** CreateMeter, with the request's aggregation still text. */
    method CreateMeter(caller: Caller, id: Id, code: string, name: string, description: string, unit: string,
                       aggregation: string, dimensionKeys: seq<string>, now: int, fate: Fate)
      returns (r: Result<Meter>)
      requires db.Valid()
      requires forall i :: 0 <= i < |db.store.meters| ==> db.store.meters[i].id != id
      modifies db
      ensures db.Valid() && Extends(old(db.store), db.store)
      ensures var wanted := NewMeter(caller, id, code, name, description, unit, aggregation, dimensionKeys, now);
        Changed(db.store, r) == Creation(old(db.store), wanted, now, fate)
      ensures r.Ok? ==>
        && AsRequested(r.value, id, code, name, description, unit, aggregation, dimensionKeys)
        && caller.Principal? && r.value.audit == Audit(1, now, now, caller.id, caller.id) && r.value.status == Active
        && r.value in db.store.meters
        && db.store.outbox == old(db.store).outbox + [MeterChanged(r.value, Created, now, caller.id)]
      ensures caller.Anonymous? ==> r == Err(Unauthorized)
      ensures caller.Principal? && !Creatable(code, name, unit, aggregation, dimensionKeys) ==> r == Err(Invalid)
      ensures r == Err(Invalid) ==> !Creatable(code, name, unit, aggregation, dimensionKeys)
      ensures var used := exists m :: m in old(db.store).meters && m.code == Code(code);
        caller.Principal? && Creatable(code, name, unit, aggregation, dimensionKeys) ==>
        && (used ==> r == Err(Internal) && db.store == old(db.store))
        && (!used && fate == Commits ==> r.Ok?)
    {
      CreatedAsRequested(caller, id, code, name, description, unit, aggregation, dimensionKeys, now);
      ExtendsIsReflexive(db.store);
      UnusedCode(db.store.meters, id, Code(code));
      hide Creatable, Sound, Extends, Trim, Code, IsMeterCode, ValidKeys, SortedKeys, ParseAggregation, Unused, Sorted;
      if caller.Anonymous? {
        return Err(Unauthorized);
      }
      var keys := NormalizeKeys(dimensionKeys);
      var kind := ParseAggregation(Code(aggregation));
      if !IsMeterCode(Code(code)) || Trim(name) == "" || Trim(unit) == "" || keys.None? || kind.None? {
        return Err(Invalid);
      }
      var m := Meter(id, Code(code), Trim(name), Trim(description), Trim(unit), kind.value, keys.value, Active,
                     Audit(1, now, now, caller.id, caller.id));
      CreationKeepsSound(db.store, Ok(m), now, fate);
      r := CommitMeter(m, now, fate);
    }

    /** Transactor.Within around the insert of a meter and its event. */
    method CommitMeter(m: Meter, now: int, fate: Fate) returns (r: Result<Meter>)
      modifies db
      ensures Changed(db.store, r) == Creation(old(db.store), Ok(m), now, fate)
    {
      if fate.BeginFails? {
        return Err(Internal);
      }
      db.Begin();
      var created := db.CreateMeter(m);
      if !created {
        var _ := db.Rollback(fate);
        return Err(Internal);
      }
      db.AddOutbox(MeterChanged(m, Created, now, m.audit.createdBy));
      var ok := db.Commit(fate);
      return if ok then Ok(m) else Err(Internal);
    }

    /** UpdateMeter: read, then compare-and-set on the version with the event row in the same transaction. */
    method UpdateMeter(caller: Caller, id: Id, name: string, description: string, status: string, expected: int,
                       now: int, fate: Fate) returns (r: Result<Meter>)
      requires db.Valid()
      modifies db
      ensures db.Valid() && Extends(old(db.store), db.store)
      ensures var wanted := NewVersion(old(db.store).meters, caller, id, name, description, status, expected, now);
        Changed(db.store, r) == Revision(old(db.store), wanted, expected, now, fate)
      ensures r.Ok? ==>
        && r.value in db.store.meters && r.value.id == id
        && r.value.name == Trim(name) && r.value.description == Trim(description) && StatusName(r.value.status) == status
        && r.value.audit.version == expected + 1
        && caller.Principal? && r.value.audit.updatedAt == now && r.value.audit.updatedBy == caller.id
        && db.store.outbox == old(db.store).outbox + [MeterChanged(r.value, Updated, now, caller.id)]
      ensures r.Ok? ==> exists m :: m in old(db.store).meters && m.audit.version == expected && SameIdentity(m, r.value)
      ensures caller.Anonymous? ==> r == Err(Unauthorized)
      ensures var valid := expected >= 1 && Trim(name) != "" && status in ["active", "disabled", "archived"];
        var there := exists m :: m in old(db.store).meters && m.id == id;
        var current := exists m :: m in old(db.store).meters && m.id == id && m.audit.version == expected;
        && (caller.Principal? && !valid ==> r == Err(Invalid))
        && (caller.Principal? && valid && !there ==> r == Err(NotFound))
        && (caller.Principal? && valid && there && !current ==>
              r == Err(if fate in [BeginFails, RollbackFails] then Internal else StaleVersion))
        && (caller.Principal? && valid && current ==> r.Ok? || r == Err(Internal))
        && (caller.Principal? && valid && current && fate == Commits ==> r.Ok?)
    {
      hide Sound, Trim, ParseStatus, UpdateWhere, AnyMatch, Extends;
      ExtendsIsReflexive(db.store);
      NamesAreRead(status);
      MatchIsMember(db.store.meters, id, expected);
      assert StatusName(Active) == "active" && StatusName(Disabled) == "disabled" && StatusName(Archived) == "archived";
      if caller.Anonymous? {
        return Err(Unauthorized);
      }
      var parsed := ParseStatus(status);
      if expected < 1 || Trim(name) == "" || parsed.None? {
        return Err(Invalid);
      }
      var found := MeterById(db.store.meters, id);
      MeterByIdFinds(db.store.meters, id);
      if found.None? {
        return Err(NotFound);
      }
      var v := Revised(found.value, Trim(name), Trim(description), parsed.value, expected, now, caller.id);
      RevisionKeepsSound(db.store, found.value, v, expected, now, fate);
      r := CommitVersion(v, expected, now, fate);
    }

    /** Transactor.Within around the compare-and-set and its event. */
    method CommitVersion(v: Meter, expected: int, now: int, fate: Fate) returns (r: Result<Meter>)
      modifies db
      ensures Changed(db.store, r) == Revision(old(db.store), Ok(v), expected, now, fate)
    {
      if fate.BeginFails? {
        return Err(Internal);
      }
      db.Begin();
      var matched := db.UpdateMeter(v, expected);
      if !matched {
        var undone := db.Rollback(fate);
        return Err(if undone then StaleVersion else Internal);
      }
      db.AddOutbox(MeterChanged(v, Updated, now, v.audit.updatedBy));
      var ok := db.Commit(fate);
      return if ok then Ok(v) else Err(Internal);
    }
  }

  /** What CreateMeter asks of a request. */
  ghost predicate Creatable(code: string, name: string, unit: string, aggregation: string, dimensionKeys: seq<string>) {
    && IsMeterCode(Code(code)) && Trim(name) != "" && Trim(unit) != ""
    && Code(aggregation) in ["sum", "count", "max", "last"] && ValidKeys(dimensionKeys)
  }

  /** The meter has the requested id and texts, trimmed, and its keys are the requested ones, sorted. */
  ghost predicate AsRequested(m: Meter, id: Id, code: string, name: string, description: string, unit: string,
                              aggregation: string, dimensionKeys: seq<string>)
  {
    && m.id == id && m.code == Code(code) && m.name == Trim(name) && m.description == Trim(description)
    && m.unit == Trim(unit) && AggregationName(m.aggregation) == Code(aggregation)
    && Sorted(Less, m.keys) && forall k :: k in m.keys <==> exists i :: 0 <= i < |dimensionKeys| && Code(dimensionKeys[i]) == k
  }

  lemma MatchIsMember(ms: seq<Meter>, id: Id, expected: int)
    ensures AnyMatch(ms, id, expected) <==> exists m :: m in ms && m.id == id && m.audit.version == expected
  {
    if i :| 0 <= i < |ms| && Matches(ms[i], id, expected) {
      assert ms[i] in ms;
    }
  }

  lemma UnusedCode(ms: seq<Meter>, id: Id, code: string)
    requires forall i :: 0 <= i < |ms| ==> ms[i].id != id
    ensures forall m: Meter :: m.id == id && m.code == code ==> (Unused(ms, m) <==> !exists u :: u in ms && u.code == code)
  {
  }

  lemma CreatedAsRequested(caller: Caller, id: Id, code: string, name: string, description: string, unit: string,
                           aggregation: string, dimensionKeys: seq<string>, now: int)
    ensures var r := NewMeter(caller, id, code, name, description, unit, aggregation, dimensionKeys, now);
      && (r.Ok? <==> caller.Principal? && Creatable(code, name, unit, aggregation, dimensionKeys))
      && (caller.Principal? && r.Err? ==> r == Err(Invalid))
      && (r.Ok? ==> AsRequested(r.value, id, code, name, description, unit, aggregation, dimensionKeys))
  {
    hide Trim, Code, IsMeterCode, ValidKeys, Sorted;
    NamesAreRead(Code(aggregation));
    SortedKeysAreSorted(dimensionKeys);
  }

  datatype Changed = Changed(store: Store, result: Result<Meter>)

  /** The transaction of CreateMeter: a used code is refused, else the row and its event are committed together. */
  function Creation(s: Store, wanted: Result<Meter>, now: int, fate: Fate): Changed {
    if wanted.Err? then Changed(s, wanted)
    else if fate.BeginFails? || !Unused(s.meters, wanted.value) then Changed(s, Err(Internal))
    else Changed(if Lands(fate) then CommitCreate(s, wanted.value, now, wanted.value.audit.createdBy) else s,
                 if fate.Commits? then wanted else Err(Internal))
  }

  /** The transaction of UpdateMeter: a version other than the expected one is refused as stale. */
  function Revision(s: Store, wanted: Result<Meter>, expected: int, now: int, fate: Fate): Changed {
    if wanted.Err? then Changed(s, wanted)
    else if fate.BeginFails? then Changed(s, Err(Internal))
    else if !AnyMatch(s.meters, wanted.value.id, expected) then Changed(s, Err(AfterRollback(StaleVersion, fate)))
    else Changed(if Lands(fate) then CommitUpdate(s, wanted.value, expected, now, wanted.value.audit.updatedBy) else s,
                 if fate.Commits? then wanted else Err(Internal))
  }

  lemma CreationKeepsSound(s: Store, wanted: Result<Meter>, now: int, fate: Fate)
    requires Sound(s) && (wanted.Ok? ==> wanted.value.audit.version == 1)
    ensures var t := Creation(s, wanted, now, fate).store; Sound(t) && Extends(s, t)
  {
    hide Sound, Extends, CommitCreate;
    ExtendsIsReflexive(s);
    if wanted.Ok? && Unused(s.meters, wanted.value) {
      CreateKeepsSound(s, wanted.value, now, wanted.value.audit.createdBy);
    }
  }

  /** An update built from a row that was read keeps the tables sound, and leaves the published value as the row. */
  lemma RevisionKeepsSound(s: Store, read: Meter, v: Meter, expected: int, now: int, fate: Fate)
    requires Sound(s) && read in s.meters
    requires v == Revised(read, v.name, v.description, v.status, expected, v.audit.updatedAt, v.audit.updatedBy)
    ensures var t := Revision(s, Ok(v), expected, now, fate);
      && Sound(t.store) && Extends(s, t.store)
      && (t.result.Ok? ==> v in t.store.meters && read.audit.version == expected)
  {
    hide Sound, Extends, CommitUpdate, UniqueMeters;
    ExtendsIsReflexive(s);
    SoundMetersAreUnique(s);
    if AnyMatch(s.meters, v.id, expected) {
      var k :| 0 <= k < |s.meters| && Matches(s.meters[k], v.id, expected);
      ReadIsTheRow(s.meters, read, k);
      StaleReadIsHarmless(read, s.meters[k], v.name, v.description, v.status, expected, v.audit.updatedAt, v.audit.updatedBy);
      UpdateKeepsSound(s, v, k, now, v.audit.updatedBy);
      assert s.meters[k := v][k] == v;
    }
  }

  lemma ReadIsTheRow(ms: seq<Meter>, read: Meter, k: nat)
    requires UniqueMeters(ms) && k < |ms| && read in ms && read.id == ms[k].id
    ensures read == ms[k]
  {
    var i :| 0 <= i < |ms| && ms[i] == read;
    assert i < k || k < i || i == k;
  }

  lemma {:induction false} ClashStays(keys: map<string, Key>, fs: seq<Fact>, n: nat)
    requires n <= |fs| && Process(keys, fs[..n]).clashed
    ensures Process(keys, fs) == Process(keys, fs[..n])
  {
    if n == |fs| {
      assert fs[..n] == fs;
    } else {
      var m := |fs| - 1;
      assert fs[..m][..n] == fs[..n];
      ClashStays(keys, fs[..m], n);
    }
  }

  /** A fresh id never meets the primary key of usage_facts. */
  lemma NewIdIsFree(keys: map<string, Key>, facts: seq<Fact>, fs: seq<Fact>, i: nat)
    requires FreshIds(fs, facts) && i < |fs|
    ensures var all := facts + Process(keys, fs[..i]).inserted;
      forall j :: 0 <= j < |all| ==> all[j].id != fs[i].id
  {
    InsertedFromBatch(keys, fs[..i]);
    var all := facts + Process(keys, fs[..i]).inserted;
    forall j | 0 <= j < |all| ensures all[j].id != fs[i].id {
      if j >= |facts| {
        assert all[j] in fs[..i];
      }
    }
  }

  function ReadUsage(s: Store, caller: Caller, verify: Scope -> Verdict, tenant: string, app: string, id: Id): Result<Fact> {
    var scope := Scope(Trim(tenant), Trim(app));
    if AuthorizeTenant(caller, tenant).Some? then Err(AuthorizeTenant(caller, tenant).value)
    else if VerdictError(verify(scope)).Some? then Err(VerdictError(verify(scope)).value)
    else
      var found := UsageById(s.facts, scope, id);
      if found.Some? then Ok(found.value) else Err(NotFound)
  }

  /** The fact has the event, tenant, application and meter the request asks for, all normalised. */
  predicate Answers(f: Fact, request: UsageInput) {
    && f.eventId == Trim(request.eventId) && f.scope == Scope(Trim(request.tenant), Trim(request.app))
    && f.meter == Code(request.meter)
  }

  lemma SuccessMeansCommitted(s: Store, caller: Caller, verify: Scope -> Verdict, inputs: seq<UsageInput>, ids: seq<Id>,
                              now: int, fate: Fate)
    requires |ids| == |inputs| && Record(s, caller, verify, inputs, ids, now, fate).error.None?
    ensures fate.Commits?
  {
    hide CheckEach, Process, Ingest;
  }

  /** Commits of other callers: from sound tables they lead to sound tables with more rows. */
  ghost predicate OnlyExtends(others: Store -> Store) {
    forall s :: Sound(s) ==> Sound(others(s)) && Extends(s, others(s))
  }

  lemma OthersExtend(others: Store -> Store, s: Store)
    requires OnlyExtends(others) && Sound(s)
    ensures Sound(others(s)) && Extends(s, others(s))
  {
  }

  /**
   * After a successful record of one event the owner's fact is found under the answered id, at once and after any
   * further commits.
   */
  lemma AdjustReadsBack(s: Store, caller: Caller, verify: Scope -> Verdict, input: UsageInput, id: Id, now: int, fate: Fate,
                        later: Store)
    requires Sound(s) && FreshSupply(s, [id])
    requires Record(s, caller, verify, [input], [id], now, fate).error.None?
    requires Sound(later) && Extends(Record(s, caller, verify, [input], [id], now, fate).store, later)
    ensures var t := Record(s, caller, verify, [input], [id], now, fate);
      |t.results| == 1 && ReadsBack(s, later, caller, verify, input, t.results[0])
  {
    hide Record, Sound, Extends, FreshSupply, ReadsBack;
    RecordReadsBack(s, caller, verify, input, id, now, fate);
    var t := Record(s, caller, verify, [input], [id], now, fate);
    ReadsStay(s, t.store, later, caller, verify, input, t.results[0]);
  }

  lemma RecordReadsBack(s: Store, caller: Caller, verify: Scope -> Verdict, input: UsageInput, id: Id, now: int, fate: Fate)
    requires Sound(s) && FreshSupply(s, [id])
    requires Record(s, caller, verify, [input], [id], now, fate).error.None?
    ensures var t := Record(s, caller, verify, [input], [id], now, fate);
      |t.results| == 1 && ReadsBack(s, t.store, caller, verify, input, t.results[0])
  {
    hide CheckOne, Process, Transact, Trim, Code, ReadsBack, OutboxMatches, LogsHold, AllAdmitted, AuthorizeTenant,
      VerdictError, OneToOne, FreshIds, FreshSupply, Normalised, Fits;
    SuccessMeansCommitted(s, caller, verify, [input], [id], now, fate);
    var env := Env(caller, verify, s.meters, now);
    var checked := CheckEach(env, [input], [id]);
    CheckedFactsAreFresh(s, env, [input], [id]);
    CollectAligns(Checks(env, [input], [id]));
    assert Checks(env, [input], [id])[0] == Ok(checked.value[0]);
    assert checked.value == [checked.value[0]];
    CheckedOneIsSound(env, input, id);
    CheckedOneMayRead(env, input, id);
    CheckedReadsBack(s, caller, verify, input, checked.value[0], now);
  }

  /** Rows that are added later hide no fact. */
  lemma ReadsStay(s: Store, t: Store, later: Store, caller: Caller, verify: Scope -> Verdict, input: UsageInput,
                  result: RecordResult)
    requires ReadsBack(s, t, caller, verify, input, result) && Sound(later) && Extends(t, later)
    ensures ReadsBack(s, later, caller, verify, input, result)
  {
    hide Trim, Code, AuthorizeTenant, VerdictError, OutboxMatches, LogsHold, AllAdmitted, MetersPersist, UsageById;
    var scope := Scope(Trim(input.tenant), Trim(input.app));
    UsageByIdIsFact(t.facts, scope, result.factId);
    var f := UsageById(t.facts, scope, result.factId).value;
    var i :| 0 <= i < |t.facts| && t.facts[i] == f;
    assert later.facts[i] == f;
    UsageByIdFinds(later.facts, i);
  }

  /** Reading under the answered id returns the event's fact, an old one exactly for a duplicate. */
  predicate ReadsBack(s: Store, t: Store, caller: Caller, verify: Scope -> Verdict, input: UsageInput, result: RecordResult) {
    var r := ReadUsage(t, caller, verify, input.tenant, input.app, result.factId);
    r.Ok? && r.value in t.facts && Answers(r.value, input) && (result.duplicate <==> r.value in s.facts)
  }

  /** A caller allowed to record an event is allowed to read in its scope. */
  lemma CheckedOneMayRead(env: Env, input: UsageInput, id: Id)
    requires CheckOne(env, input, id).Ok?
    ensures AuthorizeTenant(env.caller, input.tenant).None?
    ensures VerdictError(env.verify(Scope(Trim(input.tenant), Trim(input.app)))).None?
  {
    TrimIsNormal(input.tenant);
  }

  lemma CheckedReadsBack(s: Store, caller: Caller, verify: Scope -> Verdict, input: UsageInput, f: Fact, now: int)
    requires OneToOne(s.keys, s.facts) && FreshIds([f], s.facts) && caller.Principal? && Describes(f, input)
    requires Transact(s, [f], now, caller.id, Commits).error.None?
    requires AuthorizeTenant(caller, input.tenant).None?
    requires VerdictError(verify(Scope(Trim(input.tenant), Trim(input.app)))).None?
    ensures var t := Transact(s, [f], now, caller.id, Commits);
      |t.results| == 1 && ReadsBack(s, t.store, caller, verify, input, t.results[0])
  {
    hide OneToOne, FreshIds, Process, UsageById, Trim, Code, Rows, AuthorizeTenant, VerdictError;
    var p := Process(s.keys, [f]);
    SingleOutcome(s.keys, f);
    ProcessKeepsOneToOne(s.keys, s.facts, [f]);
    OwnerIsFound(s.keys, s.facts, p.keys, s.facts + p.inserted, f);
  }

  lemma SingleOutcome(keys: map<string, Key>, f: Fact)
    requires !Process(keys, [f]).clashed
    ensures var p := Process(keys, [f]);
      && f.eventId in p.keys && SameTarget(p.keys[f.eventId], f)
      && p.results == [RecordResult(f.eventId, p.keys[f.eventId].factId, f.eventId in keys)]
      && p.inserted == if f.eventId in keys then [] else [f]
  {
    ProcessOne(keys, f);
  }

  lemma OwnerIsFound(keys: map<string, Key>, facts: seq<Fact>, keys': map<string, Key>, facts': seq<Fact>, f: Fact)
    requires OneToOne(keys, facts) && OneToOne(keys', facts')
    requires f.eventId in keys' && SameTarget(keys'[f.eventId], f)
    requires facts' == facts + if f.eventId in keys then [] else [f]
    ensures var found := UsageById(facts', f.scope, keys'[f.eventId].factId);
      && found.Some? && found.value in facts' && found.value.eventId == f.eventId
      && found.value.scope == f.scope && found.value.meter == f.meter
      && (f.eventId in keys <==> found.value in facts)
  {
    KeyLeadsToFact(keys', facts', f.eventId);
    var g := UsageById(facts', f.scope, keys'[f.eventId].factId).value;
    if g in facts {
      assert g.eventId in keys;
    }
  }

  /** A key leads to the one fact it was claimed for. */
  lemma KeyLeadsToFact(keys: map<string, Key>, facts: seq<Fact>, e: string)
    requires OneToOne(keys, facts) && e in keys
    ensures var found := UsageById(facts, keys[e].scope, keys[e].factId);
      found.Some? && found.value in facts && found.value.eventId == e && KeyOf(found.value) == keys[e]
  {
    var i :| 0 <= i < |facts| && facts[i].eventId == e;
    UsageByIdFinds(facts, i);
  }
}
