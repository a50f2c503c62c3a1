/** The checks RecordUsage makes on each event before it opens a transaction. */
module Validation {
  import opened Ledger
  import opened Text
  import opened Partition

  const MAX_BATCH: nat := 500
  const FIVE_MINUTES: int := 300_000_000_000

  /** The answer of the application-access verifier. */
  datatype Verdict = Granted | NotGranted | Broken

  /** What the checks read: the caller, a stable verifier, the meters and the clock. */
  datatype Env = Env(caller: Caller, verify: Scope -> Verdict, meters: seq<Meter>, now: int)

  /** authorizeTenant */
  function AuthorizeTenant(c: Caller, tenant: string): Option<Error> {
    match c
    case Anonymous => Some(Unauthorized)
    case Principal(_, kind, own) =>
      if kind == ServiceAccount || kind == System then None
      else if own == "" || own != Trim(tenant) then Some(Forbidden)
      else None
  }

  function VerdictError(v: Verdict): Option<Error> {
    match v
    case Granted => None
    case NotGranted => Some(Forbidden)
    case Broken => Some(Unavailable)
  }

  function Normal(input: UsageInput): UsageInput {
    input.(eventId := Trim(input.eventId), tenant := Trim(input.tenant), app := Trim(input.app),
           meter := Code(input.meter), source := Trim(input.source))
  }

  predicate Complete(input: UsageInput) {
    && input.eventId != "" && input.tenant != "" && input.app != "" && input.meter != ""
    && input.source != "" && input.quantity != 0
  }

  function ScopeIn(input: UsageInput): Scope { Scope(input.tenant, input.app) }

  /** Every dimension is one of the meter's keys and has a value. */
  predicate DimensionsFit(keys: seq<string>, entries: map<string, string>) {
    forall k :: k in entries ==> k in keys && Trim(entries[k]) != ""
  }

  /** The checks that need neither the verifier nor the meter. */
  function CheckCaller(c: Caller, input: UsageInput): Option<Error> {
    if !Complete(input) then Some(Invalid)
    else if input.adjustment && Trim(input.reason) == "" then Some(Invalid)
    else AuthorizeTenant(c, input.tenant)
  }

  function ActorOf(c: Caller): string {
    match c case Anonymous => "" case Principal(id, _, _) => id
  }

  /** The checks against the meter, and the fact they let through. */
  function BuildFact(c: Caller, meter: Meter, now: int, input: UsageInput, id: Id): Result<Fact> {
    var at := if input.occurredAt.None? then now else input.occurredAt.value;
    if meter.status != Active then Err(MeterInactive)
    else if !DimensionsFit(meter.keys, Entries(input.dims)) then Err(Invalid)
    else if at > now + FIVE_MINUTES then Err(Invalid)
    else
      Ok(Fact(id, input.eventId, ScopeIn(input), input.meter, input.quantity, input.dims, at, input.source,
              Trim(input.sourceId), input.adjustment, Trim(input.reason),
              Audit(1, now, now, ActorOf(c), ActorOf(c))))
  }

  /** One event, given the verifier's answer for its scope and the row found for its meter code. */
  function CheckWith(c: Caller, verdict: Verdict, meter: Option<Meter>, now: int, raw: UsageInput, id: Id): Result<Fact> {
    var input := Normal(raw);
    var refusal := CheckCaller(c, input);
    if refusal.Some? then Err(refusal.value)
    else if VerdictError(verdict).Some? then Err(VerdictError(verdict).value)
    else if meter.None? then Err(NotFound)
    else BuildFact(c, meter.value, now, input, id)
  }

  /** One event checked on its own, without caches. */
  function CheckOne(env: Env, raw: UsageInput, id: Id): Result<Fact> {
    CheckWith(env.caller, env.verify(ScopeIn(Normal(raw))), MeterByCode(env.meters, Normal(raw).meter), env.now, raw, id)
  }

  /** The values of the results, or the first error among them. */
  function Collect<T>(rs: seq<Result<T>>): Result<seq<T>> {
    if rs == [] then Ok([])
    else
      var before, last := Collect(rs[..|rs| - 1]), rs[|rs| - 1];
      if before.Err? then before
      else if last.Err? then Err(last.error)
      else Ok(before.value + [last.value])
  }

  lemma {:induction false} FirstErrorStays<T>(rs: seq<Result<T>>, n: nat)
    requires n <= |rs| && Collect(rs[..n]).Err?
    ensures Collect(rs) == Collect(rs[..n])
  {
    if n == |rs| {
      assert rs[..n] == rs;
    } else {
      var m := |rs| - 1;
      assert rs[..m][..n] == rs[..n];
      FirstErrorStays(rs[..m], n);
    }
  }

  lemma CollectNext<T>(rs: seq<Result<T>>, i: nat)
    requires i < |rs| && Collect(rs[..i]).Ok?
    ensures rs[i].Ok? ==> Collect(rs[..i + 1]) == Ok(Collect(rs[..i]).value + [rs[i].value])
    ensures rs[i].Err? ==> Collect(rs) == Err(rs[i].error)
  {
    assert rs[..i + 1][..i] == rs[..i] && rs[..i + 1][i] == rs[i];
    if rs[i].Err? {
      FirstErrorStays(rs, i + 1);
    }
  }

  lemma {:induction false} CollectAligns<T>(rs: seq<Result<T>>)
    requires Collect(rs).Ok?
    ensures |Collect(rs).value| == |rs|
    ensures forall i :: 0 <= i < |rs| ==> rs[i] == Ok(Collect(rs).value[i])
  {
    if rs != [] {
      var n := |rs| - 1;
      CollectAligns(rs[..n]);
      forall i | 0 <= i < n ensures rs[i] == Ok(Collect(rs).value[i]) {
        assert rs[i] == rs[..n][i];
      }
    }
  }

  /** Each event checked on its own. */
  function Checks(env: Env, inputs: seq<UsageInput>, ids: seq<Id>): seq<Result<Fact>>
    requires |ids| == |inputs|
  {
    seq(|inputs|, i requires 0 <= i < |inputs| => CheckOne(env, inputs[i], ids[i]))
  }

  /** Each event on its own, in order, up to the first error. */
  function CheckEach(env: Env, inputs: seq<UsageInput>, ids: seq<Id>): Result<seq<Fact>>
    requires |ids| == |inputs|
  {
    Collect(Checks(env, inputs, ids))
  }

  /** The caches hold only what a fresh look would return. */
  ghost predicate CachesHold(env: Env, verified: set<Scope>, cache: map<string, Meter>) {
    && (forall s :: s in verified ==> env.verify(s) == Granted)
    && (forall c :: c in cache ==> MeterByCode(env.meters, c) == Some(cache[c]))
  }

  /** validateDimensions: the allowed keys are collected first, then every entry is tried. */
  method ValidateDimensions(keys: seq<string>, entries: map<string, string>) returns (ok: bool)
    ensures ok <==> DimensionsFit(keys, entries)
  {
    var allowed: set<string> := {};
    for i := 0 to |keys|
      invariant forall k :: k in allowed <==> k in keys[..i]
    {
      allowed := allowed + {keys[i]};
    }
    assert keys[..|keys|] == keys;
    var left := entries.Keys;
    while left != {}
      invariant left <= entries.Keys
      invariant forall k :: k in entries && k !in left ==> k in keys && Trim(entries[k]) != ""
      decreases left
    {
      var k :| k in left;
      if k !in allowed || Trim(entries[k]) == "" {
        return false;
      }
      left := left - {k};
    }
    return true;
  }

  /** One event with the caches of the batch loop; `calls` lists the scopes the verifier was asked about. */
  method CheckNext(env: Env, raw: UsageInput, id: Id, verified: set<Scope>, cache: map<string, Meter>)
    returns (r: Result<Fact>, verified': set<Scope>, cache': map<string, Meter>, asked: bool)
    requires CachesHold(env, verified, cache)
    ensures r == CheckOne(env, raw, id)
    ensures r.Ok? ==> CachesHold(env, verified', cache')
    ensures asked ==> ScopeIn(Normal(raw)) !in verified
    ensures r.Ok? ==> verified' == verified + (if asked then {ScopeIn(Normal(raw))} else {})
  {
    var input := Normal(raw);
    var scope := ScopeIn(input);
    verified', cache', asked := verified, cache, false;
    var refusal := CheckCaller(env.caller, input);
    if refusal.Some? {
      return Err(refusal.value), verified', cache', asked;
    }
    if scope !in verified {
      asked := true;
      var bad := VerdictError(env.verify(scope));
      if bad.Some? {
        return Err(bad.value), verified', cache', asked;
      }
      verified' := verified + {scope};
    }
    if input.meter !in cache {
      var found := MeterByCode(env.meters, input.meter);
      if found.None? {
        return Err(NotFound), verified', cache', asked;
      }
      cache' := cache[input.meter := found.value];
    }
    var meter := cache'[input.meter];
    if meter.status != Active {
      return Err(MeterInactive), verified', cache', asked;
    }
    var fit := ValidateDimensions(meter.keys, Entries(input.dims));
    if !fit {
      return Err(Invalid), verified', cache', asked;
    }
    r := BuildFact(env.caller, meter, env.now, input, id);
  }

  function BatchScopes(inputs: seq<UsageInput>): set<Scope> {
    set i | 0 <= i < |inputs| :: ScopeIn(Normal(inputs[i]))
  }

  /**
   * The validation loop. With its meter and scope caches it returns the facts, or the first error, that
   * checking every event on its own would return, and asks the verifier at most once about a scope.
   */
  method CheckBatch(env: Env, inputs: seq<UsageInput>, ids: seq<Id>) returns (r: Result<seq<Fact>>, calls: seq<Scope>)
    requires |ids| == |inputs|
    ensures r == CheckEach(env, inputs, ids)
    ensures Distinct(calls)
    ensures forall s :: s in calls ==> s in BatchScopes(inputs)
  {
    var facts: seq<Fact>, verified: set<Scope>, cache: map<string, Meter> := [], {}, map[];
    calls := [];
    ghost var rs := Checks(env, inputs, ids);
    for i := 0 to |inputs|
      invariant Collect(rs[..i]) == Ok(facts)
      invariant CachesHold(env, verified, cache)
      invariant Distinct(calls) && forall s :: s in calls ==> s in verified
      invariant verified <= BatchScopes(inputs)
    {
      var item, verified', cache', asked := CheckNext(env, inputs[i], ids[i], verified, cache);
      CollectNext(rs, i);
      if asked {
        calls := calls + [ScopeIn(Normal(inputs[i]))];
      }
      if item.Err? {
        return Err(item.error), calls;
      }
      facts, verified, cache := facts + [item.value], verified', cache';
    }
    assert rs[..|inputs|] == rs;
    return Ok(facts), calls;
  }

  // ---- what a checked fact is like ----------------------------------------------------------

  /** The fact names the meter and uses only its dimension keys. */
  predicate Fits(f: Fact, m: Meter) {
    m.code == f.meter && forall k :: k in Entries(f.dims) ==> k in m.keys
  }

  /** The fact carries the event's normalised ids. */
  predicate Describes(f: Fact, raw: UsageInput) {
    && f.eventId == Trim(raw.eventId) != "" && f.scope == Scope(Trim(raw.tenant), Trim(raw.app))
    && f.meter == Code(raw.meter) && f.quantity == raw.quantity != 0 && f.dims == raw.dims
  }

  predicate Normalised(f: Fact) {
    Trimmed(f.eventId) && Trimmed(f.scope.tenant) && Trimmed(f.scope.app)
  }

  lemma CheckedFactIsSound(c: Caller, verdict: Verdict, meter: Option<Meter>, now: int, raw: UsageInput, id: Id)
    requires CheckWith(c, verdict, meter, now, raw, id).Ok?
    requires meter.Some? ==> meter.value.code == Code(raw.meter)
    ensures var f := CheckWith(c, verdict, meter, now, raw, id).value;
      && f.id == id && Describes(f, raw) && Normalised(f)
      && meter.Some? && Fits(f, meter.value)
      && verdict == Granted && f.occurredAt <= now + FIVE_MINUTES
  {
    TrimIsNormal(raw.eventId);
    TrimIsNormal(raw.tenant);
    TrimIsNormal(raw.app);
  }

  /** All that is asked of an event, its caller, the verifier and the meter. */
  predicate Acceptable(c: Caller, verdict: Verdict, meter: Option<Meter>, now: int, raw: UsageInput) {
    && Trim(raw.eventId) != "" && Trim(raw.tenant) != "" && Trim(raw.app) != "" && Trim(raw.meter) != ""
    && Trim(raw.source) != "" && raw.quantity != 0 && (raw.adjustment ==> Trim(raw.reason) != "")
    && c.Principal? && (c.kind == User ==> c.tenant == Trim(raw.tenant))
    && verdict == Granted && meter.Some? && meter.value.status == Active
    && (forall k :: k in Entries(raw.dims) ==> k in meter.value.keys && Trim(Entries(raw.dims)[k]) != "")
    && (raw.occurredAt.Some? ==> raw.occurredAt.value <= now + 5 * 60 * 1_000_000_000)
  }

  /** An event is accepted exactly when nothing is missing; its fact keeps the requested time, or now, and the caller. */
  lemma AcceptedExactly(c: Caller, verdict: Verdict, meter: Option<Meter>, now: int, raw: UsageInput, id: Id)
    ensures var r := CheckWith(c, verdict, meter, now, raw, id);
      && (r.Ok? <==> Acceptable(c, verdict, meter, now, raw))
      && (r.Ok? ==> r.value.occurredAt == if raw.occurredAt.Some? then raw.occurredAt.value else now)
      && (r.Ok? ==> r.value.audit.createdBy == c.id)
  {
    hide Trim;
    TrimIsNormal(raw.tenant);
    assert |Code(raw.meter)| == |Trim(raw.meter)|;
  }

  /** The stored fact carries every field of the event, the texts trimmed, and is of version 1 by its caller. */
  lemma FactCarriesTheEvent(c: Caller, verdict: Verdict, meter: Option<Meter>, now: int, raw: UsageInput, id: Id)
    requires CheckWith(c, verdict, meter, now, raw, id).Ok?
    ensures var f := CheckWith(c, verdict, meter, now, raw, id).value;
      && f.id == id && f.eventId == Trim(raw.eventId) && f.scope.tenant == Trim(raw.tenant) && f.scope.app == Trim(raw.app)
      && f.meter == Lower(Trim(raw.meter)) && f.quantity == raw.quantity && f.dims == raw.dims
      && f.source == Trim(raw.source) && f.sourceId == Trim(raw.sourceId)
      && f.adjustment == raw.adjustment && f.reason == Trim(raw.reason)
      && f.audit.version == 1 && f.audit.createdAt == f.audit.updatedAt == now
      && c.Principal? && f.audit.createdBy == f.audit.updatedBy == c.id
  {
    hide Trim, Lower, DimensionsFit;
  }

  /** Why an event is refused: the first of the checks that fails, in this order. */
  lemma RefusedExactly(c: Caller, verdict: Verdict, meter: Option<Meter>, now: int, raw: UsageInput, id: Id)
    ensures var r := CheckWith(c, verdict, meter, now, raw, id);
      var complete := Trim(raw.eventId) != "" && Trim(raw.tenant) != "" && Trim(raw.app) != "" && Trim(raw.meter) != ""
        && Trim(raw.source) != "" && raw.quantity != 0 && (raw.adjustment ==> Trim(raw.reason) != "");
      var own := c.Principal? && (c.kind == User ==> c.tenant == Trim(raw.tenant));
      && (!complete ==> r == Err(Invalid))
      && (complete && c.Anonymous? ==> r == Err(Unauthorized))
      && (complete && c.Principal? && !own ==> r == Err(Forbidden))
      && (complete && own && verdict == NotGranted ==> r == Err(Forbidden))
      && (complete && own && verdict == Broken ==> r == Err(Unavailable))
      && (complete && own && verdict == Granted && meter.None? ==> r == Err(NotFound))
      && (complete && own && verdict == Granted && meter.Some? && meter.value.status != Active ==> r == Err(MeterInactive))
      && (complete && own && verdict == Granted && meter.Some? && meter.value.status == Active && r.Err? ==> r == Err(Invalid))
  {
    hide Trim, DimensionsFit;
    TrimIsNormal(raw.tenant);
    assert |Code(raw.meter)| == |Trim(raw.meter)|;
  }

  lemma CheckedOneIsSound(env: Env, raw: UsageInput, id: Id)
    requires CheckOne(env, raw, id).Ok?
    ensures var f := CheckOne(env, raw, id).value;
      && f.id == id && Describes(f, raw) && Normalised(f)
      && exists m :: m in env.meters && Fits(f, m)
  {
    var found := MeterByCode(env.meters, Code(raw.meter));
    MeterByCodeFinds(env.meters, Code(raw.meter));
    CheckedFactIsSound(env.caller, env.verify(ScopeIn(Normal(raw))), found, env.now, raw, id);
  }
}
