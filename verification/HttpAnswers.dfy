/** What the HTTP handlers answer, and what the middleware makes of their answers. */
module HttpAnswers {
  import opened Ledger
  import opened Meters
  import opened Service
  import opened QueryService
  import opened QueryAnswers
  import Middleware = Idempotency
  import J = Json

  type Response = Middleware.Response
  type Sent = Middleware.Sent

  /** Envelopes as JSON text; ids, times and error messages as strings. */
  datatype Codec = Codec(encode: Response -> string, decode: string -> Option<Response>,
                         name: Id -> string, id: string -> Option<Id>, stamp: int -> string, time: string -> Option<int>,
                         message: Error -> string)

  ghost predicate RoundTrips(c: Codec) {
    && (forall r :: c.decode(c.encode(r)) == Some(r))
    && (forall a: Id :: c.id(c.name(a)) == Some(a))
    && (forall t :: c.time(c.stamp(t)) == Some(t))
  }

  // ---- bodies -------------------------------------------------------------------------------

  /** recordUsageResults */
  function Listed(c: Codec, rs: seq<RecordResult>): J.Json {
    J.Array(seq(|rs|, i requires 0 <= i < |rs| => ListedOne(c, rs[i])))
  }

  function ListedOne(c: Codec, r: RecordResult): J.Json {
    J.Object(map["event_id" := J.Text(r.eventId), "fact_id" := J.Text(c.name(r.factId)), "duplicate" := J.Bool(r.duplicate)])
  }

  /** Different results give different entries. */
  lemma ListedOneIsInjective(c: Codec, a: RecordResult, b: RecordResult)
    requires RoundTrips(c) && ListedOne(c, a) == ListedOne(c, b)
    ensures a == b
  {
    var m, n := ListedOne(c, a).fields, ListedOne(c, b).fields;
    assert m["event_id"] == n["event_id"] && m["fact_id"] == n["fact_id"] && m["duplicate"] == n["duplicate"];
  }

  lemma ListedIsInjective(c: Codec, a: seq<RecordResult>, b: seq<RecordResult>)
    requires RoundTrips(c) && Listed(c, a) == Listed(c, b)
    ensures a == b
  {
    hide RoundTrips, ListedOne;
    var m, n := Listed(c, a).items, Listed(c, b).items;
    assert |m| == |n|;
    forall i | 0 <= i < |a| ensures a[i] == b[i] {
      assert m[i] == n[i];
      ListedOneIsInjective(c, a[i], b[i]);
    }
  }

  /** A result list has no numbers, so it comes back from the store as it was written. */
  lemma ListedSurvives(c: Codec, rs: seq<RecordResult>)
    ensures J.Survives(Listed(c, rs)) && J.ThroughAny(Listed(c, rs)) == Listed(c, rs)
  {
    hide J.ThroughAny;
    forall i | 0 <= i < |rs| ensures J.Survives(ListedOne(c, rs[i])) {
      EntrySurvives(c, rs[i]);
    }
    J.UnchangedIffSurvives(Listed(c, rs));
  }

  lemma EntrySurvives(c: Codec, r: RecordResult)
    ensures J.Survives(ListedOne(c, r))
  {
    var m := ListedOne(c, r).fields;
    assert J.Survives(m["event_id"]) && J.Survives(m["fact_id"]) && J.Survives(m["duplicate"]);
  }

  /** A dimension map: a nil one prints as null. */
  function DimsBody(d: Dimensions): J.Json {
    match d
    case Null => J.Null
    case Object(m) => J.Object(map k | k in m :: J.Text(m[k]))
  }

  /** UsagePointBody */
  function ItemBody(c: Codec, i: UsagePoint): J.Json {
    J.Object(map["window_start" := J.Text(c.stamp(i.start)), "window_end" := J.Text(c.stamp(i.end)),
                 "quantity" := J.Number(i.quantity), "dimensions" := DimsBody(i.dims)])
  }

  /** UsagePageResponseBody */
  function PageBody(c: Codec, a: Answer): J.Json {
    J.Object(map["items" := J.Array(seq(|a.items|, i requires 0 <= i < |a.items| => ItemBody(c, a.items[i]))),
                 "total" := J.Number(a.total), "page" := J.Number(a.page), "page_size" := J.Number(a.size),
                 "total_quantity" := J.Number(a.quantity)])
  }

  lemma DimsBodyIsInjective(a: Dimensions, b: Dimensions)
    requires DimsBody(a) == DimsBody(b)
    ensures a == b
  {
    if a.Object? && b.Object? {
      var m, n := DimsBody(a).fields, DimsBody(b).fields;
      assert m.Keys == a.entries.Keys && n.Keys == b.entries.Keys;
      forall k | k in a.entries ensures a.entries[k] == b.entries[k] {
        assert m[k] == n[k];
      }
      assert a.entries == b.entries;
    }
  }

  /** Over HTTP different items of a request always print differently in window or dimensions. */
  lemma HttpItemsDiffer(c: Codec, u: Setup, r: Request, i: nat, j: nat)
    requires RoundTrips(c) && Query.Injective(u.setting.text) && Accepts(u, r) && i < j < |AllItems(u, r)|
    ensures var m, n := ItemBody(c, AllItems(u, r)[i]).fields, ItemBody(c, AllItems(u, r)[j]).fields;
      m["window_start"] != n["window_start"] || m["dimensions"] != n["dimensions"]
  {
    hide Query.Injective, Accepts, AllItems, DimsBody;
    ItemsDiffer(u, r, i, j);
    var a, b := AllItems(u, r)[i], AllItems(u, r)[j];
    if DimsBody(a.dims) == DimsBody(b.dims) {
      DimsBodyIsInjective(a.dims, b.dims);
    }
  }

  /** MeterView */
  function MeterBody(c: Codec, m: Meter): J.Json {
    J.Object(map["id" := J.Text(c.name(m.id)), "code" := J.Text(m.code), "name" := J.Text(m.name),
                 "description" := J.Text(m.description), "unit" := J.Text(m.unit),
                 "aggregation" := J.Text(AggregationName(m.aggregation)),
                 "dimension_keys" := J.Array(seq(|m.keys|, i requires 0 <= i < |m.keys| => J.Text(m.keys[i]))),
                 "status" := J.Text(StatusName(m.status)), "version" := J.Number(m.audit.version),
                 "created_at" := J.Text(c.stamp(m.audit.createdAt)), "updated_at" := J.Text(c.stamp(m.audit.updatedAt)),
                 "created_by" := J.Text(m.audit.createdBy), "updated_by" := J.Text(m.audit.updatedBy)])
  }

  // ---- what a client reads ------------------------------------------------------------------

  function TextAt(j: J.Json, field: string): Option<string> {
    if j.Object? && field in j.fields && j.fields[field].Text? then Some(j.fields[field].text) else None
  }

  function NumberAt(j: J.Json, field: string): Option<int> {
    if j.Object? && field in j.fields && j.fields[field].Number? then Some(j.fields[field].number) else None
  }

  /** The entry of a result list tells event, fact and whether it is a duplicate. */
  lemma ResultIsReadable(c: Codec, r: RecordResult)
    requires RoundTrips(c)
    ensures var j := ListedOne(c, r);
      && TextAt(j, "event_id") == Some(r.eventId)
      && TextAt(j, "fact_id").Some? && c.id(TextAt(j, "fact_id").value) == Some(r.factId)
      && j.Object? && "duplicate" in j.fields && j.fields["duplicate"] == J.Bool(r.duplicate)
  {
  }

  /** A client can read a meter's id and texts, */
  lemma MeterIdIsReadable(c: Codec, m: Meter)
    requires RoundTrips(c)
    ensures var id := TextAt(MeterBody(c, m), "id"); id.Some? && c.id(id.value) == Some(m.id)
  {
    hide AggregationName, StatusName;
  }

  lemma MeterTextsAreReadable(c: Codec, m: Meter)
    ensures var j := MeterBody(c, m);
      && TextAt(j, "code") == Some(m.code) && TextAt(j, "name") == Some(m.name)
      && TextAt(j, "description") == Some(m.description) && TextAt(j, "unit") == Some(m.unit)
  {
    hide AggregationName, StatusName;
  }

  /** its aggregation, status and keys, */
  lemma MeterKindIsReadable(c: Codec, m: Meter)
    ensures var j := MeterBody(c, m);
      && TextAt(j, "aggregation").Some? && ParseAggregation(TextAt(j, "aggregation").value) == Some(m.aggregation)
      && TextAt(j, "status").Some? && ParseStatus(TextAt(j, "status").value) == Some(m.status)
      && j.Object? && "dimension_keys" in j.fields && j.fields["dimension_keys"].Array?
      && |j.fields["dimension_keys"].items| == |m.keys|
      && forall i :: 0 <= i < |m.keys| ==> j.fields["dimension_keys"].items[i] == J.Text(m.keys[i])
  {
    NamesAreRead(AggregationName(m.aggregation));
    NamesAreRead(StatusName(m.status));
  }

  /** and its version and history. */
  lemma MeterAuditIsReadable(c: Codec, m: Meter)
    requires RoundTrips(c)
    ensures var j := MeterBody(c, m);
      && NumberAt(j, "version") == Some(m.audit.version)
      && TextAt(j, "created_at").Some? && c.time(TextAt(j, "created_at").value) == Some(m.audit.createdAt)
      && TextAt(j, "updated_at").Some? && c.time(TextAt(j, "updated_at").value) == Some(m.audit.updatedAt)
      && TextAt(j, "created_by") == Some(m.audit.createdBy) && TextAt(j, "updated_by") == Some(m.audit.updatedBy)
  {
    hide AggregationName, StatusName;
  }

  /** So different meters are shown differently. */
  lemma MeterBodyIsInjective(c: Codec, a: Meter, b: Meter)
    requires RoundTrips(c) && MeterBody(c, a) == MeterBody(c, b)
    ensures a == b
  {
    hide MeterBody, RoundTrips;
    MeterIdIsReadable(c, a);
    MeterIdIsReadable(c, b);
    MeterTextsAreReadable(c, a);
    MeterTextsAreReadable(c, b);
    MeterKindIsReadable(c, a);
    MeterKindIsReadable(c, b);
    MeterAuditIsReadable(c, a);
    MeterAuditIsReadable(c, b);
    assert a.keys == b.keys;
  }

  /** An item tells its window, its quantity and its dimensions, null or an object of texts. */
  lemma ItemIsReadable(c: Codec, i: UsagePoint)
    requires RoundTrips(c)
    ensures var j := ItemBody(c, i);
      && TextAt(j, "window_start").Some? && c.time(TextAt(j, "window_start").value) == Some(i.start)
      && TextAt(j, "window_end").Some? && c.time(TextAt(j, "window_end").value) == Some(i.end)
      && NumberAt(j, "quantity") == Some(i.quantity)
      && j.Object? && "dimensions" in j.fields
      && (i.dims == Null <==> j.fields["dimensions"] == J.Null)
      && (i.dims != Null ==>
            && j.fields["dimensions"].Object? && j.fields["dimensions"].fields.Keys == i.dims.entries.Keys
            && forall k :: k in i.dims.entries ==> TextAt(j.fields["dimensions"], k) == Some(i.dims.entries[k]))
  {
  }

  /** A page tells its items in order, its numbers and the total quantity. */
  lemma PageIsReadable(c: Codec, a: Answer)
    ensures var j := PageBody(c, a);
      && NumberAt(j, "total") == Some(a.total) && NumberAt(j, "page") == Some(a.page)
      && NumberAt(j, "page_size") == Some(a.size) && NumberAt(j, "total_quantity") == Some(a.quantity)
      && j.Object? && "items" in j.fields && j.fields["items"].Array? && |j.fields["items"].items| == |a.items|
      && forall i :: 0 <= i < |a.items| ==> j.fields["items"].items[i] == ItemBody(c, a.items[i])
  {
    hide ItemBody;
  }

  /** Different items are printed differently. */
  lemma ItemBodyIsInjective(c: Codec, a: UsagePoint, b: UsagePoint)
    requires RoundTrips(c) && ItemBody(c, a) == ItemBody(c, b)
    ensures a == b
  {
    var m, n := ItemBody(c, a).fields, ItemBody(c, b).fields;
    ItemIsReadable(c, a);
    ItemIsReadable(c, b);
    assert m["dimensions"] == n["dimensions"];
    DimsBodyIsInjective(a.dims, b.dims);
  }

  /** The version is the only number of a meter. */
  lemma MeterSurvivesExactly(c: Codec, m: Meter)
    ensures J.Survives(MeterBody(c, m)) <==> J.Reprint(m.audit.version) == m.audit.version
  {
    hide J.Reprint;
    var fields := MeterBody(c, m).fields;
    assert J.Survives(fields["dimension_keys"]);
    assert J.Survives(fields["version"]) <==> J.Reprint(m.audit.version) == m.audit.version;
    forall k | k in fields && k != "version" ensures J.Survives(fields[k]) {
      assert fields[k].Text? || k == "dimension_keys";
    }
  }

  // ---- envelopes ----------------------------------------------------------------------------

  const CODE_OK: int := 0

  function StatusOf(e: Error): (status: int)
    ensures status >= Middleware.BAD_REQUEST
  {
    match e
    case Invalid => 400
    case NotFound => 404
    case Unauthorized => 401
    case Forbidden => 403
    case Unavailable => 503
    case Internal => 500
    case MeterInactive => 409
    case StaleVersion => 409
    case EventClash => 409
  }

  function CodeOf(e: Error): (code: int)
    ensures code != CODE_OK
  {
    match e
    case Invalid => 10001
    case NotFound => 10004
    case Unauthorized => 20001
    case Forbidden => 20003
    case Unavailable => 50003
    case Internal => 50000
    case MeterInactive => 30009
    case StaleVersion => 30009
    case EventClash => 30009
  }

  /** What a handler shows on success. */
  datatype Shown = Results(results: seq<RecordResult>) | Single(result: RecordResult) | MeterView(meter: Meter) | Page(answer: Answer)

  function BodyOf(c: Codec, shown: Shown): J.Json {
    match shown
    case Results(rs) => Listed(c, rs)
    case Single(r) => ListedOne(c, r)
    case MeterView(m) => MeterBody(c, m)
    case Page(a) => PageBody(c, a)
  }

  /** OK or Fail. */
  function Envelope(c: Codec, reply: Result<Shown>, requestId: string): Response {
    match reply
    case Ok(shown) => Middleware.Success(BodyOf(c, shown), requestId)
    case Err(e) => Middleware.Response(CodeOf(e), c.message(e), J.Null, requestId)
  }

  function Replies(c: Codec, reply: Result<Shown>, requestId: string): Middleware.Handler {
    Middleware.Handler(if reply.Ok? then 200 else StatusOf(reply.error), [c.encode(Envelope(c, reply, requestId))])
  }

  /** The reply of the RecordUsage handler: partial results beside an error are dropped. */
  function ReplyOf(recorded: Recorded): Result<Shown> {
    match recorded.error
    case None => Ok(Results(recorded.results))
    case Some(e) => Err(e)
  }

  /** What a failed record looks like to the client: no body, and the status and code of its error. */
  lemma FailuresOnTheWire(c: Codec, recorded: Recorded, e: Error, requestId: string)
    requires recorded.error == Some(e)
    ensures var reply := ReplyOf(recorded);
      var r, status := Envelope(c, reply, requestId), Replies(c, reply, requestId).status;
      && r.body == J.Null && r.requestId == requestId
      && (e == Invalid <==> (status, r.code) == (400, 10001))
      && (e == Unauthorized <==> (status, r.code) == (401, 20001))
      && (e == Forbidden <==> (status, r.code) == (403, 20003))
      && (e == NotFound <==> (status, r.code) == (404, 10004))
      && (e in [MeterInactive, StaleVersion, EventClash] <==> (status, r.code) == (409, 30009))
      && (e == Internal <==> (status, r.code) == (500, 50000))
      && (e == Unavailable <==> (status, r.code) == (503, 50003))
  {
  }

  /** Everything in the reply comes back from the store as it was written. */
  predicate Keeps(c: Codec, reply: Result<Shown>) {
    match reply
    case Err(_) => true
    case Ok(Results(_)) => true
    case Ok(Single(_)) => true
    case Ok(MeterView(m)) => J.Reprint(m.audit.version) == m.audit.version
    case Ok(Page(a)) => J.Survives(PageBody(c, a))
  }

  lemma JoinedOne(text: string)
    ensures Middleware.Joined([text]) == text
  {
    assert [text][..0] == [];
  }

  lemma DecodesEnvelope(c: Codec, r: Response)
    requires RoundTrips(c)
    ensures c.decode(c.encode(r)) == Some(r)
  {
  }

  /**
   * The middleware repeats every failure and every answer of the record and adjust routes with the new request id; a
   * meter exactly if its version survives a float, and a query answer exactly if all its numbers do.
   */
  lemma ReplyIsRepeatedExactly(c: Codec, reply: Result<Shown>, es: Middleware.Entries, owner: nat, again: nat, key: string,
                               fingerprint: string, requestId: string, newId: string, other: Middleware.Handler)
    requires RoundTrips(c) && key !in es
    ensures var h, r := Replies(c, reply, requestId), Envelope(c, reply, requestId);
      var (first, second) := Middleware.Repeated(es, owner, again, key, fingerprint, newId, h, c.decode, r, other);
      && first.sent == Middleware.Bytes(h.status, c.encode(r))
      && (second.sent == Middleware.Envelope(h.status, r.(requestId := newId)) <==> Keeps(c, reply))
  {
    hide RoundTrips, Listed, ListedOne, MeterBody, PageBody, J.Reprint, J.Survives, Middleware.Decoded;
    var h, r := Replies(c, reply, requestId), Envelope(c, reply, requestId);
    JoinedOne(c.encode(r));
    DecodesEnvelope(c, r);
    BodySurvivesExactly(c, reply, requestId);
    Middleware.UnifiedAnswersReplay(es, owner, again, key, fingerprint, newId, h, c.decode, r, other);
  }

  lemma BodySurvivesExactly(c: Codec, reply: Result<Shown>, requestId: string)
    ensures J.Survives(Envelope(c, reply, requestId).body) <==> Keeps(c, reply)
  {
    hide Listed, ListedOne, MeterBody, PageBody;
    match reply
    case Ok(Results(rs)) => ListedSurvives(c, rs);
    case Ok(Single(r)) => EntrySurvives(c, r);
    case Ok(MeterView(m)) => MeterSurvivesExactly(c, m);
    case _ =>
  }

  /** A reply of one of the routes that shipped configurations list: meters created or updated, usage recorded or adjusted. */
  predicate FromListedRoute(reply: Result<Shown>) {
    reply.Ok? ==> !reply.value.Page?
  }

  /** All such replies are repeated, those with a meter as long as it has at most 2^53 versions. */
  lemma ListedRoutesReplay(c: Codec, reply: Result<Shown>)
    requires FromListedRoute(reply)
    ensures (reply.Ok? && reply.value.MeterView? ==> 1 <= reply.value.meter.audit.version <= J.TWO_53) ==> Keeps(c, reply)
  {
    hide J.Reprint;
    if reply.Ok? && reply.value.MeterView? && 1 <= reply.value.meter.audit.version <= J.TWO_53 {
      J.SmallSurvives(reply.value.meter.audit.version);
    }
  }
}
