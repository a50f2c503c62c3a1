/** Meter definitions: creation, version-locked updates, and the meter.changed log they leave in the outbox. */
module Meters {
  import opened Ledger
  import opened Text
  import opened Order

  // ---- requests -----------------------------------------------------------------------------

  function ParseAggregation(s: string): Option<Aggregation> {
    if s == "sum" then Some(Sum) else if s == "count" then Some(Count)
    else if s == "max" then Some(Max) else if s == "last" then Some(Last) else None
  }

  function ParseStatus(s: string): Option<Status> {
    if s == "active" then Some(Active) else if s == "disabled" then Some(Disabled)
    else if s == "archived" then Some(Archived) else None
  }

  /** The names of the four aggregations and the three states. */
  function AggregationName(a: Aggregation): string {
    match a
    case Sum => "sum"
    case Count => "count"
    case Max => "max"
    case Last => "last"
  }

  function StatusName(s: Status): string {
    match s
    case Active => "active"
    case Disabled => "disabled"
    case Archived => "archived"
  }

  /** Reading a name gives what it names, and no other text is a name. */
  lemma NamesAreRead(text: string)
    ensures forall a :: ParseAggregation(text) == Some(a) <==> AggregationName(a) == text
    ensures forall s :: ParseStatus(text) == Some(s) <==> StatusName(s) == text
  {
  }

  predicate ValidKeys(values: seq<string>) {
    forall i :: 0 <= i < |values| ==> IsDimensionKey(Code(values[i]))
  }

  /** The keys of a request: lowered, without repeats, sorted. */
  function SortedKeys(values: seq<string>): seq<string> {
    if values == [] then [] else Insert(Less, Code(values[|values| - 1]), SortedKeys(values[..|values| - 1]))
  }

  lemma NothingSorted()
    ensures Sorted(Less, [])
  {
  }

  lemma {:induction false} SortedKeysAreSorted(values: seq<string>)
    ensures Sorted(Less, SortedKeys(values))
    ensures forall k :: k in SortedKeys(values) <==> exists i :: 0 <= i < |values| && Code(values[i]) == k
  {
    hide Code, Less, Insert, Sorted, StrictTotal;
    if values == [] {
      NothingSorted();
    } else {
      var n := |values| - 1;
      var pre := values[..n];
      SortedKeysAreSorted(pre);
      LessIsStrictTotal();
      InsertKeepsSorted(Less, Code(values[n]), SortedKeys(pre));
      InsertMembers(Less, Code(values[n]), SortedKeys(pre));
      assert forall i :: 0 <= i < n ==> pre[i] == values[i];
      forall k ensures k in SortedKeys(values) <==> exists i :: 0 <= i < |values| && Code(values[i]) == k {
        if k in SortedKeys(pre) {
          var i :| 0 <= i < n && Code(pre[i]) == k;
          assert Code(values[i]) == k;
        }
      }
    }
  }

  /** normalizeDimensionKeys: normalise, refuse a bad key, drop repeats, then sort. */
  method NormalizeKeys(values: seq<string>) returns (r: Option<seq<string>>)
    ensures r.Some? <==> ValidKeys(values)
    ensures r.Some? ==> r.value == SortedKeys(values)
  {
    hide Less, Insert, Sorted, StrictTotal, Code, IsDimensionKey;
    var seen: set<string>, result: seq<string> := {}, [];
    for i := 0 to |values|
      invariant ValidKeys(values[..i])
      invariant forall k :: k in seen <==> k in result
      invariant forall k :: k in result <==> exists j :: 0 <= j < i && Code(values[j]) == k
    {
      var value := Code(values[i]);
      if !IsDimensionKey(value) {
        return None;
      }
      if value !in seen {
        seen := seen + {value};
        result := result + [value];
      }
    }
    assert values[..|values|] == values;
    var sorted := [];
    NothingSorted();
    LessIsStrictTotal();
    for i := 0 to |result|
      invariant Sorted(Less, sorted)
      invariant forall k :: k in sorted <==> k in result[..i]
    {
      InsertKeepsSorted(Less, result[i], sorted);
      InsertMembers(Less, result[i], sorted);
      sorted := Insert(Less, result[i], sorted);
      assert result[..i + 1] == result[..i] + [result[i]];
    }
    assert result[..|result|] == result;
    SortedKeysAreSorted(values);
    SortedIsUnique(Less, sorted, SortedKeys(values));
    return Some(sorted);
  }

  // ---- rows ---------------------------------------------------------------------------------

  /** The fields an update never writes. */
  predicate SameIdentity(a: Meter, b: Meter) {
    && a.id == b.id && a.code == b.code && a.unit == b.unit && a.aggregation == b.aggregation && a.keys == b.keys
    && a.audit.createdAt == b.audit.createdAt && a.audit.createdBy == b.audit.createdBy
  }

  /** The value UpdateMeter builds from the row it read and then publishes. */
  function Revised(read: Meter, name: string, description: string, status: Status, expected: int, now: int,
                   actor: string): Meter {
    read.(name := name, description := description, status := status,
          audit := read.audit.(version := expected + 1, updatedAt := now, updatedBy := actor))
  }

  /** UPDATE meters SET name, description, status, version = version + 1, updated_at, updated_by on one row. */
  function Rewrite(m: Meter, v: Meter): Meter {
    m.(name := v.name, description := v.description, status := v.status,
       audit := m.audit.(version := m.audit.version + 1, updatedAt := v.audit.updatedAt, updatedBy := v.audit.updatedBy))
  }

  /** ... WHERE id = ? AND version = ? */
  predicate Matches(m: Meter, id: Id, expected: int) {
    m.id == id && m.audit.version == expected
  }

  function UpdateWhere(ms: seq<Meter>, v: Meter, expected: int): seq<Meter> {
    seq(|ms|, i requires 0 <= i < |ms| => if Matches(ms[i], v.id, expected) then Rewrite(ms[i], v) else ms[i])
  }

  predicate AnyMatch(ms: seq<Meter>, id: Id, expected: int) {
    exists i :: 0 <= i < |ms| && Matches(ms[i], id, expected)
  }

  /** The read outside the transaction may be stale; what it published is still what the row became. */
  lemma StaleReadIsHarmless(read: Meter, row: Meter, name: string, description: string, status: Status,
                            expected: int, now: int, actor: string)
    requires SameIdentity(read, row) && row.audit.version == expected
    ensures Rewrite(row, Revised(read, name, description, status, expected, now, actor))
         == Revised(read, name, description, status, expected, now, actor)
  {
  }

  function CommitCreate(s: Store, m: Meter, at: int, actor: string): Store {
    s.(meters := s.meters + [m], outbox := s.outbox + [MeterChanged(m, Created, at, actor)])
  }

  function CommitUpdate(s: Store, v: Meter, expected: int, at: int, actor: string): Store {
    s.(meters := UpdateWhere(s.meters, v, expected), outbox := s.outbox + [MeterChanged(v, Updated, at, actor)])
  }

  /** The meter CreateMeter builds, or why it refuses. */
  function NewMeter(caller: Caller, id: Id, code: string, name: string, description: string, unit: string,
                    aggregation: string, dimensionKeys: seq<string>, now: int): Result<Meter> {
    var kind := ParseAggregation(Code(aggregation));
    if caller.Anonymous? then Err(Unauthorized)
    else if !IsMeterCode(Code(code)) || Trim(name) == "" || Trim(unit) == "" || !ValidKeys(dimensionKeys) || kind.None?
    then Err(Invalid)
    else Ok(Meter(id, Code(code), Trim(name), Trim(description), Trim(unit), kind.value, SortedKeys(dimensionKeys),
                  Active, Audit(1, now, now, caller.id, caller.id)))
  }

  /** The value UpdateMeter writes and publishes, or why it refuses, given the tables it reads. */
  function NewVersion(ms: seq<Meter>, caller: Caller, id: Id, name: string, description: string, status: string,
                      expected: int, now: int): Result<Meter> {
    var parsed, found := ParseStatus(status), MeterById(ms, id);
    if caller.Anonymous? then Err(Unauthorized)
    else if expected < 1 || Trim(name) == "" || parsed.None? then Err(Invalid)
    else if found.None? then Err(NotFound)
    else Ok(Revised(found.value, Trim(name), Trim(description), parsed.value, expected, now, caller.id))
  }

  // ---- the log ------------------------------------------------------------------------------

  /** The meter.changed rows of one id, in outbox order. */
  function Log(rows: seq<Row>, id: Id): (log: seq<Row>)
    ensures forall i :: 0 <= i < |log| ==> log[i].MeterChanged?
  {
    if rows == [] then []
    else
      var last := rows[|rows| - 1];
      Log(rows[..|rows| - 1], id) + (if last.MeterChanged? && last.meter.id == id then [last] else [])
  }

  lemma LogSnoc(rows: seq<Row>, row: Row, id: Id)
    ensures Log(rows + [row], id) == Log(rows, id) + (if row.MeterChanged? && row.meter.id == id then [row] else [])
  {
    assert (rows + [row])[..|rows|] == rows;
  }

  lemma {:induction false} LogIgnoresUsage(rows: seq<Row>, more: seq<Row>, id: Id)
    requires forall i :: 0 <= i < |more| ==> more[i].UsageRecorded?
    ensures Log(rows + more, id) == Log(rows, id)
  {
    if more == [] {
      assert rows + more == rows;
    } else {
      var n := |more| - 1;
      var all := rows + more;
      assert all[..|all| - 1] == rows + more[..n] && all[|all| - 1] == more[n];
      LogIgnoresUsage(rows, more[..n], id);
    }
  }

  /** Entry i of a log: version i + 1 of the meter, created first and updated ever after. */
  predicate GoodEntry(m: Meter, row: Row, i: nat) {
    && row.MeterChanged? && row.meter.audit.version == i + 1 && SameIdentity(row.meter, m)
    && row.change == if i == 0 then Created else Updated
  }

  /** Versions 1, 2, ..., v once each and in order, one identity throughout, the last entry the row itself. */
  ghost predicate GoodLog(m: Meter, log: seq<Row>) {
    && |log| == m.audit.version >= 1
    && (forall i :: 0 <= i < |log| ==> GoodEntry(m, log[i], i))
    && log[|log| - 1].meter == m
  }

  ghost predicate UniqueMeters(ms: seq<Meter>) {
    forall i, j :: 0 <= i < j < |ms| ==> ms[i].id != ms[j].id && ms[i].code != ms[j].code
  }

  /** Every row has its complete log, and nothing is logged for any other id. */
  ghost predicate LogsHold(s: Store) {
    && UniqueMeters(s.meters)
    && (forall i :: 0 <= i < |s.meters| ==> GoodLog(s.meters[i], Log(s.outbox, s.meters[i].id)))
    && (forall id :: Log(s.outbox, id) != [] ==> exists i :: 0 <= i < |s.meters| && s.meters[i].id == id)
  }

  /** A code leads to its row. */
  lemma MeterByCodeIs(ms: seq<Meter>, i: nat)
    requires UniqueMeters(ms) && i < |ms|
    ensures MeterByCode(ms, ms[i].code) == Some(ms[i])
  {
    MeterByCodeFinds(ms, ms[i].code);
    assert ms[i] in ms;
    var m := MeterByCode(ms, ms[i].code).value;
    var j :| 0 <= j < |ms| && ms[j] == m;
    assert i < j || j < i || i == j;
  }

  predicate Unused(ms: seq<Meter>, m: Meter) {
    forall i :: 0 <= i < |ms| ==> ms[i].id != m.id && ms[i].code != m.code
  }

  lemma NothingLogged(s: Store, id: Id)
    requires LogsHold(s) && forall i :: 0 <= i < |s.meters| ==> s.meters[i].id != id
    ensures Log(s.outbox, id) == []
  {
  }

  lemma LoggedStays(s: Store, t: Store, m: Meter, id: Id)
    requires LogsHold(s) && |s.meters| <= |t.meters|
    requires forall i :: 0 <= i < |s.meters| ==> t.meters[i].id == s.meters[i].id
    requires exists i :: 0 <= i < |t.meters| && t.meters[i].id == m.id
    requires Log(s.outbox, id) != [] || id == m.id
    ensures exists i :: 0 <= i < |t.meters| && t.meters[i].id == id
  {
    if id != m.id {
      var i :| 0 <= i < |s.meters| && s.meters[i].id == id;
      assert t.meters[i].id == id;
    }
  }

  lemma FirstLog(m: Meter, at: int, actor: string)
    requires m.audit.version == 1
    ensures GoodLog(m, [MeterChanged(m, Created, at, actor)])
  {
  }

  /** The log of the new meter is its created row, and no other log changes. */
  lemma CreateLogs(s: Store, m: Meter, at: int, actor: string)
    requires LogsHold(s) && Unused(s.meters, m)
    ensures Log(CommitCreate(s, m, at, actor).outbox, m.id) == [MeterChanged(m, Created, at, actor)]
    ensures forall id :: id != m.id ==> Log(CommitCreate(s, m, at, actor).outbox, id) == Log(s.outbox, id)
  {
    hide Log, GoodLog;
    var row := MeterChanged(m, Created, at, actor);
    forall id ensures Log(s.outbox + [row], id) == Log(s.outbox, id) + if id == m.id then [row] else [] {
      LogSnoc(s.outbox, row, id);
    }
    NothingLogged(s, m.id);
  }

  lemma CreateKeepsLogs(s: Store, m: Meter, at: int, actor: string)
    requires LogsHold(s) && Unused(s.meters, m) && m.audit.version == 1
    ensures LogsHold(CommitCreate(s, m, at, actor))
    ensures Log(CommitCreate(s, m, at, actor).outbox, m.id) == [MeterChanged(m, Created, at, actor)]
    ensures forall id :: id != m.id ==> Log(CommitCreate(s, m, at, actor).outbox, id) == Log(s.outbox, id)
  {
    hide Log, GoodLog;
    var t := CommitCreate(s, m, at, actor);
    assert t.meters[|s.meters|].id == m.id;
    CreateLogs(s, m, at, actor);
    FirstLog(m, at, actor);
    forall i | 0 <= i < |t.meters| ensures GoodLog(t.meters[i], Log(t.outbox, t.meters[i].id)) {
      if i < |s.meters| {
        assert t.meters[i] == s.meters[i];
      }
    }
    CreateLogsOnlyMeters(s, m, at, actor);
  }

  lemma CreateLogsOnlyMeters(s: Store, m: Meter, at: int, actor: string)
    requires LogsHold(s)
    ensures var t := CommitCreate(s, m, at, actor);
      forall id :: Log(t.outbox, id) != [] ==> exists i :: 0 <= i < |t.meters| && t.meters[i].id == id
  {
    var t, row := CommitCreate(s, m, at, actor), MeterChanged(m, Created, at, actor);
    assert t.meters[|s.meters|].id == m.id;
    forall id | Log(t.outbox, id) != [] ensures exists i :: 0 <= i < |t.meters| && t.meters[i].id == id {
      LogSnoc(s.outbox, row, id);
      LoggedStays(s, t, m, id);
    }
  }

  lemma UpdateTouchesOneRow(ms: seq<Meter>, v: Meter, k: nat)
    requires UniqueMeters(ms) && k < |ms| && ms[k].id == v.id
    ensures UpdateWhere(ms, v, ms[k].audit.version) == ms[k := Rewrite(ms[k], v)]
  {
    forall i | 0 <= i < |ms| && i != k ensures ms[i].id != ms[k].id {
      assert i < k || k < i;
    }
  }

  lemma GoodLogGrows(m: Meter, log: seq<Row>, v: Meter, at: int, actor: string)
    requires GoodLog(m, log) && SameIdentity(v, m) && v.audit.version == m.audit.version + 1
    ensures GoodLog(v, log + [MeterChanged(v, Updated, at, actor)])
  {
    var more := log + [MeterChanged(v, Updated, at, actor)];
    forall i | 0 <= i < |log| ensures GoodEntry(v, more[i], i) {
      assert GoodEntry(m, log[i], i);
    }
  }

  /** A compare-and-set that matches row k, published with the value the row takes, extends the log by one version. */
  lemma UpdateKeepsLogs(s: Store, v: Meter, k: nat, at: int, actor: string)
    requires LogsHold(s) && k < |s.meters| && SameIdentity(v, s.meters[k])
    requires v == Rewrite(s.meters[k], v)
    ensures LogsHold(CommitUpdate(s, v, s.meters[k].audit.version, at, actor))
    ensures CommitUpdate(s, v, s.meters[k].audit.version, at, actor).meters == s.meters[k := v]
    ensures var t := CommitUpdate(s, v, s.meters[k].audit.version, at, actor);
      forall id :: Log(t.outbox, id) == Log(s.outbox, id) + if id == v.id then [MeterChanged(v, Updated, at, actor)] else []
  {
    var t := CommitUpdate(s, v, s.meters[k].audit.version, at, actor);
    UpdateTouchesOneRow(s.meters, v, k);
    assert t.meters == s.meters[k := v];
    var row := MeterChanged(v, Updated, at, actor);
    assert t.meters[k].id == v.id;
    GoodLogGrows(s.meters[k], Log(s.outbox, v.id), v, at, actor);
    forall id ensures Log(t.outbox, id) == Log(s.outbox, id) + if id == v.id then [row] else [] {
      LogSnoc(s.outbox, row, id);
    }
    hide GoodLog, Log;
    forall i | 0 <= i < |t.meters| ensures GoodLog(t.meters[i], Log(t.outbox, t.meters[i].id)) {
      if i != k {
        assert t.meters[i] == s.meters[i];
        assert i < k || k < i;
      }
    }
    forall id | Log(t.outbox, id) != [] ensures exists i :: 0 <= i < |t.meters| && t.meters[i].id == id {
      LoggedStays(s, t, v, id);
    }
  }

  lemma UsageKeepsLogs(s: Store, t: Store, more: seq<Row>)
    requires LogsHold(s) && t.meters == s.meters && t.outbox == s.outbox + more
    requires forall i :: 0 <= i < |more| ==> more[i].UsageRecorded?
    ensures LogsHold(t) && forall id :: Log(t.outbox, id) == Log(s.outbox, id)
  {
    forall id ensures Log(t.outbox, id) == Log(s.outbox, id) { LogIgnoresUsage(s.outbox, more, id); }
  }
}
