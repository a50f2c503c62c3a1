/** The entities of the usage ledger and the tables that hold them. */
module Ledger {

  datatype Option<+T> = None | Some(value: T)

  /** apperror.Error, one constructor for each kind and conflict message. */
  datatype Error =
    | Invalid | NotFound | Unauthorized | Forbidden | Unavailable | Internal
    | MeterInactive | StaleVersion | EventClash

  datatype Result<+T> = Ok(value: T) | Err(error: Error)

  /** A random identifier. Identifiers are compared, never computed with. */
  type Id = nat

  datatype Scope = Scope(tenant: string, app: string)

  /** dimensions_json: absent dimensions are stored as JSON null, which is not the empty object. */
  datatype Dimensions = Null | Object(entries: map<string, string>)

  datatype Audit = Audit(version: int, createdAt: int, updatedAt: int, createdBy: string, updatedBy: string)

  datatype Aggregation = Sum | Count | Max | Last

  datatype Status = Active | Disabled | Archived

  datatype Meter = Meter(id: Id, code: string, name: string, description: string, unit: string,
                         aggregation: Aggregation, keys: seq<string>, status: Status, audit: Audit)

  datatype Fact = Fact(id: Id, eventId: string, scope: Scope, meter: string, quantity: int, dims: Dimensions,
                       occurredAt: int, source: string, sourceId: string, adjustment: bool, reason: string,
                       audit: Audit)

  /** A row of usage_ingestion_keys, stored under its event_id. */
  datatype Key = Key(factId: Id, scope: Scope, meter: string, occurredAt: int, audit: Audit)

  /** The fact as published: JSON null and the empty object both become the empty map. */
  datatype Published = Published(fact: Fact, dims: map<string, string>)

  function Entries(d: Dimensions): map<string, string> {
    match d
    case Null => map[]
    case Object(m) => m
  }

  /** ToProtoUsageFact */
  function Publish(f: Fact): Published {
    Published(f.(dims := Null), Entries(f.dims))
  }

  datatype Change = Created | Updated

  /** A row of metering_outbox_events, with its envelope decoded. */
  datatype Row =
    | MeterChanged(meter: Meter, change: Change, at: int, actor: string)
    | UsageRecorded(aggregateId: Id, scope: Scope, facts: seq<Published>, at: int, actor: string)

  /** The committed tables. */
  datatype Store = Store(meters: seq<Meter>, keys: map<string, Key>, facts: seq<Fact>, outbox: seq<Row>)

  const EMPTY: Store := Store([], map[], [], [])

  datatype RecordResult = RecordResult(eventId: string, factId: Id, duplicate: bool)

  datatype UsageInput = UsageInput(eventId: string, tenant: string, app: string, meter: string, quantity: int,
                                   dims: Dimensions, occurredAt: Option<int>, source: string, sourceId: string,
                                   adjustment: bool, reason: string)

  datatype PrincipalKind = User | ServiceAccount | System

  /** The authenticated principal of the request context, if any. */
  datatype Caller = Anonymous | Principal(id: string, kind: PrincipalKind, tenant: string)

  // ---- meters -------------------------------------------------------------------------------

  /** SELECT ... FROM meters WHERE code = ? */
  function MeterByCode(ms: seq<Meter>, code: string): Option<Meter> {
    if ms == [] then None else if ms[0].code == code then Some(ms[0]) else MeterByCode(ms[1..], code)
  }

  /** SELECT ... FROM meters WHERE id = ? */
  function MeterById(ms: seq<Meter>, id: Id): Option<Meter> {
    if ms == [] then None else if ms[0].id == id then Some(ms[0]) else MeterById(ms[1..], id)
  }

  lemma {:induction false} MeterByCodeFinds(ms: seq<Meter>, code: string)
    ensures MeterByCode(ms, code).Some? <==> exists m :: m in ms && m.code == code
    ensures MeterByCode(ms, code).Some? ==>
      MeterByCode(ms, code).value in ms && MeterByCode(ms, code).value.code == code
  {
    if ms != [] {
      MeterByCodeFinds(ms[1..], code);
      assert ms == [ms[0]] + ms[1..];
    }
  }

  lemma {:induction false} MeterByIdFinds(ms: seq<Meter>, id: Id)
    ensures MeterById(ms, id).Some? <==> exists m :: m in ms && m.id == id
    ensures MeterById(ms, id).Some? ==> MeterById(ms, id).value in ms && MeterById(ms, id).value.id == id
  {
    if ms != [] {
      MeterByIdFinds(ms[1..], id);
      assert ms == [ms[0]] + ms[1..];
    }
  }
}
