/** Concrete runs in which the service does not do what a caller may expect. */
module Scenarios {
  import opened Ledger
  import opened Text
  import opened Calendar
  import opened Partition
  import opened Ingestion
  import opened Validation
  import opened Meters
  import opened Database
  import opened Service
  import opened Interleaving
  import opened Query
  import opened QueryService
  import opened QueryAnswers
  import opened HttpAnswers

  // ---- a meter, its caller and its events ---------------------------------------------------

  const METER: Meter := Meter(0, "m", "n", "", "u", Sum, [], Active, Audit(1, 0, 0, "p", "p"))

  const CALLER: Caller := Principal("p", System, "")

  function Event(id: string, quantity: int, dims: Dimensions): UsageInput {
    UsageInput(id, "t", "a", "m", quantity, dims, None, "s", "", false, "")
  }

  /** The fact the service builds from such an event at time 0. */
  function FactOf(event: string, quantity: int, dims: Dimensions, id: Id): Fact {
    Fact(id, event, Scope("t", "a"), "m", quantity, dims, 0, "s", "", false, "", Audit(1, 0, 0, "p", "p"))
  }

  /** The tables once the meter is there. */
  function MeterOnly(): Store { CommitCreate(EMPTY, METER, 0, "p") }

  lemma {:induction false} OneCharacterIsNormal(s: string)
    requires |s| == 1 && 'a' <= s[0] <= 'z'
    ensures Trim(s) == s && Code(s) == s
  {
    TrimIsNormal(s);
    assert Lower(s) == s;
  }

  lemma {:induction false} EventIsAccepted(event: string, quantity: int, dims: Dimensions, id: Id)
    requires |event| == 1 && 'a' <= event[0] <= 'z' && quantity != 0 && Entries(dims) == map[]
    ensures CheckWith(CALLER, Granted, Some(METER), 0, Event(event, quantity, dims), id) == Ok(FactOf(event, quantity, dims, id))
    ensures Normal(Event(event, quantity, dims)) == Event(event, quantity, dims)
  {
    OneCharacterIsNormal(event);
    OneCharacterIsNormal("t");
    OneCharacterIsNormal("a");
    OneCharacterIsNormal("m");
    OneCharacterIsNormal("s");
    TrimIsNormal("");
    hide Trim, Code;
  }

  // ---- a meter disabled under a batch -------------------------------------------------------

  function Batch(): UsageInput { Event("e", 1, Null) }

  function Recorded(): Fact { FactOf("e", 1, Null, 7) }

  function Unchecked(): Attempt { Checking(CALLER, [Batch()], [7], 0, {}, map[], []) }

  function Checked(): Attempt {
    Checking(CALLER, [Batch()], [7], 0, {Scope("t", "a")}, map["m" := METER], [Recorded()])
  }

  function Opened(): Tx { Tx([Recorded()], 0, map[], [], [], [], 0, "p") }

  function Claimed(): Tx {
    Opened().(keys := map["e" := KeyOf(Recorded())], results := [RecordResult("e", 7, false)])
  }

  function Inserted(): Tx { Claimed().(pos := 1, inserted := [Recorded()]) }

  /** The meter as its administrator disables it. */
  function Off(): Meter { Revised(METER, "n", "", Disabled, 1, 0, "p") }

  /** The tables once the meter is disabled. */
  function MeterOff(): Store { CommitUpdate(MeterOnly(), Off(), 1, 0, "p") }

  lemma {:induction false} CheckPasses()
    ensures CheckStep(Unchecked(), [METER], Granted) == Some(Checked())
  {
    EventIsAccepted("e", 1, Null, 7);
    assert MeterByCode([METER], "m") == Some(METER);
    hide CheckWith, Normal, Event;
    var scopes: set<Scope>, meters: map<string, Meter>, facts: seq<Fact> := {}, map[], [];
    assert scopes + {Scope("t", "a")} == {Scope("t", "a")};
    assert meters["m" := METER] == map["m" := METER];
    assert facts + [Recorded()] == [Recorded()];
  }

  lemma {:induction false} ClaimPasses()
    ensures ClaimStep(Opened(), map[]) == Some(Inserting(Claimed()))
    ensures InsertStep(Claimed(), []) == Some(Claiming(Inserted()))
  {
    var keys: map<string, Key>, results: seq<RecordResult>, facts: seq<Fact> := map[], [], [];
    assert keys["e" := KeyOf(Recorded())] == map["e" := KeyOf(Recorded())];
    assert results + [RecordResult("e", 7, false)] == [RecordResult("e", 7, false)];
    assert facts + [Recorded()] == [Recorded()];
  }

  lemma {:induction false} OneScope()
    ensures Scopes([Recorded()]) == [Scope("t", "a")]
  {
    assert [Recorded()][..0] == [];
  }

  lemma {:induction false} MeterSteps()
    ensures MeterOnly().meters == [METER] && MeterOnly().keys == map[] && MeterOnly().facts == []
    ensures AnyMatch([METER], 0, 1) && MeterById([METER], 0) == Some(METER)
    ensures MeterOff().meters == [Off()] && MeterOff().keys == map[] && MeterOff().facts == []
  {
    assert Matches([METER][0], 0, 1);
  }

  predicate Same(s: Sys, t: Sys) {
    s.store == t.store && s.attempts == t.attempts && s.used == t.used && s.acks == t.acks
  }

  /** The run so far, and one step more. */
  lemma {:induction false} Go(actions: seq<Action>, before: Sys, a: Action, after: Sys) returns (longer: seq<Action>)
    requires Exec(actions) == Some(before) && Interleaving.Enabled(before, a) && Same(Interleaving.Apply(before, a), after)
    ensures Exec(longer) == Some(after)
  {
    hide Interleaving.Enabled, Interleaving.Apply;
    longer := actions + [a];
    assert longer[..|actions|] == actions;
  }

  lemma {:induction false} NothingRan()
    ensures Exec([]) == Some(INIT)
  {
  }

  lemma {:induction false} MeterMade() returns (actions: seq<Action>)
    ensures Exec(actions) == Some(Sys(MeterOnly(), map[], {}, []))
  {
    hide Exec;
    NothingRan();
    actions := Go([], INIT, InsertMeter(0, METER, 0, "p"), Sys(EMPTY, map[0 := Creating(METER, 0, "p")], {}, []));
    actions := Go(actions, Sys(EMPTY, map[0 := Creating(METER, 0, "p")], {}, []), CommitMeter(0),
                  Sys(MeterOnly(), map[], {}, []));
  }

  lemma {:induction false} Started() returns (actions: seq<Action>)
    ensures Exec(actions) == Some(Sys(MeterOnly(), map[1 := Unchecked()], {7}, []))
  {
    hide Exec, MeterOnly;
    actions := MeterMade();
    assert Ids(Unchecked()) == {7} by { assert [7][0] == 7; }
    actions := Go(actions, Sys(MeterOnly(), map[], {}, []), Submit(1, CALLER, [Batch()], [7], 0),
                  Sys(MeterOnly(), map[1 := Unchecked()], {7}, []));
  }

  function Now(s: Store, a: Attempt): Sys { Sys(s, map[1 := a], {7}, []) }

  lemma {:induction false} BatchUnderWay() returns (actions: seq<Action>)
    ensures Exec(actions) == Some(Now(MeterOnly(), Claiming(Inserted())))
  {
    hide Exec, CheckStep, ClaimStep, InsertStep, MeterOnly;
    CheckPasses();
    ClaimPasses();
    MeterSteps();
    var s := MeterOnly();
    actions := Started();
    actions := Go(actions, Now(s, Unchecked()), Check(1, Granted), Now(s, Checked()));
    actions := Go(actions, Now(s, Checked()), Interleaving.Begin(1), Now(s, Claiming(Opened())));
    actions := Go(actions, Now(s, Claiming(Opened())), ClaimKey(1), Now(s, Inserting(Claimed())));
    actions := Go(actions, Now(s, Inserting(Claimed())), InsertFact(1), Now(s, Claiming(Inserted())));
  }

  lemma {:induction false} VersionWritten(before: seq<Action>, t: Sys) returns (actions: seq<Action>)
    requires Exec(before) == Some(t)
    requires t == Now(MeterOnly(), Claiming(Inserted())).(attempts := map[1 := Claiming(Inserted()), 2 := Revising(Off(), 1)])
    ensures Exec(actions) == Some(Now(MeterOff(), Claiming(Inserted())))
  {
    hide Exec, MeterOnly, AnyMatch, MeterById, CommitUpdate, Inserted;
    MeterSteps();
    var u := t.(attempts := t.attempts[2 := Locked(Off(), 1)]);
    actions := Go(before, t, CompareAndSet(2), u);
    actions := Go(actions, u, CommitVersion(2), Now(MeterOff(), Claiming(Inserted())));
  }

  lemma {:induction false} DisabledUnderWay() returns (actions: seq<Action>)
    ensures Exec(actions) == Some(Now(MeterOff(), Claiming(Inserted())))
  {
    hide Exec, MeterOnly, AnyMatch, MeterById, CommitUpdate, Inserted;
    MeterSteps();
    actions := BatchUnderWay();
    var s := Now(MeterOnly(), Claiming(Inserted()));
    var t := s.(attempts := s.attempts[2 := Revising(Off(), 1)]);
    actions := Go(actions, s, ReadMeter(2, 0, "n", "", Disabled, 1, 0, "p"), t);
    actions := VersionWritten(actions, t);
  }

  /** The row of the batch. */
  function WithRow(): Tx
  {
    OneScope();
    Inserted().(rows := [NextRow(Inserted())])
  }

  lemma {:induction false} RowAdded() returns (actions: seq<Action>)
    ensures Exec(actions) == Some(Now(MeterOff(), Emitting(WithRow())))
  {
    hide Exec, MeterOff, NextRow, Scopes, Recorded;
    OneScope();
    var s := MeterOff();
    assert Inserted().rows + [NextRow(Inserted())] == WithRow().rows;
    actions := DisabledUnderWay();
    actions := Go(actions, Now(s, Claiming(Inserted())), Finish(1), Now(s, Emitting(Inserted())));
    actions := Go(actions, Now(s, Emitting(Inserted())), AddRow(1), Now(s, Emitting(WithRow())));
  }

  /** The meter is disabled while the batch is under way, and the batch commits all the same. */
  lemma {:induction false} FactOfDisabledMeter() returns (actions: seq<Action>)
    ensures Exec(actions).Some?
    ensures var s := Exec(actions).value.store;
      && s.facts == [Recorded()] && s.meters == [Off()] && Off().code == Recorded().meter && Off().status == Disabled
      && Exec(actions).value.acks == [RecordResult("e", 7, false)]
  {
    hide Exec, MeterOff, NextRow, Scopes;
    OneScope();
    MeterSteps();
    var s, tx := MeterOff(), WithRow();
    actions := RowAdded();
    actions := Go(actions, Now(s, Emitting(tx)), Interleaving.Commit(1, true),
                  Sys(Publishing(s, tx), map[], {7}, tx.results));
    assert s.facts + tx.inserted == [Recorded()];
  }

  // ---- queries ------------------------------------------------------------------------------

  function Grant(): Scope -> Verdict { (s: Scope) => Granted }

  /** The hour from time 0 on, all dimensions. */
  function Hourly(): Request { Request("t", "a", "m", Some(0), Some(1), map[], "hour", 1, 20) }

  function SetupOn(e: Setting, s: Store): Setup { Setup(e, s, CALLER, Grant()) }

  lemma {:induction false} HourlyIsAccepted(e: Setting, s: Store)
    requires s.meters == [METER]
    ensures Accepts(SetupOn(e, s), Hourly()) && FilterOf(Hourly()) == Filter(Scope("t", "a"), "m", 0, 1, map[])
    ensures GranularityOf(Hourly()) == Hour && MeterByCode(s.meters, "m") == Some(METER)
  {
    assert MeterByCode([METER], "m") == Some(METER);
  }

  lemma {:induction false} TwoEventsRecorded(a: UsageInput, b: UsageInput, f: Fact, g: Fact)
    requires CheckWith(CALLER, Granted, Some(METER), 0, a, 7) == Ok(f) && Normal(a).meter == "m"
    requires CheckWith(CALLER, Granted, Some(METER), 0, b, 8) == Ok(g) && Normal(b).meter == "m"
    requires f.eventId != g.eventId
    ensures var r := Record(MeterOnly(), CALLER, Grant(), [a, b], [7, 8], 0, Commits);
      r.error == None && r.store.meters == [METER] && r.store.facts == [f, g]
  {
    MeterSteps();
    assert MeterByCode([METER], "m") == Some(METER);
    var env := Env(CALLER, Grant(), [METER], 0);
    hide CheckWith, Normal, Rows, MeterOnly;
    var rs := Checks(env, [a, b], [7, 8]);
    assert rs == [Ok(f), Ok(g)];
    TwoCollected(f, g);
    TwoProcessed(f, g);
  }

  lemma {:induction false} TwoCollected(f: Fact, g: Fact)
    ensures Collect([Ok(f), Ok(g)]) == Ok([f, g])
  {
    assert [Ok(f), Ok(g)][..1] == [Ok(f)] && [Ok(f)][..0] == [];
    assert Collect([Ok(f)]) == Ok([f]) by { var facts: seq<Fact> := []; assert facts + [f] == [f]; }
    assert [f] + [g] == [f, g];
  }

  lemma {:induction false} TwoProcessed(f: Fact, g: Fact)
    requires f.eventId != g.eventId
    ensures !Process(map[], [f, g]).clashed && Process(map[], [f, g]).inserted == [f, g]
  {
    assert [f, g][..1] == [f];
    ProcessOne(map[], f);
    var facts: seq<Fact> := [];
    assert facts + [f] == [f] && [f] + [g] == [f, g];
  }

  lemma {:induction false} SelectBoth<K>(key: Fact -> K, k: K, f: Fact, g: Fact)
    requires key(f) == k && key(g) == k
    ensures Select(key, k, [f, g]) == [f, g]
  {
    assert [f, g][1..] == [g];
    assert Select(key, k, [g]) == [g] + Select(key, k, []) by { assert [g][1..] == []; }
  }

  lemma {:induction false} BothMatch(q: Filter, f: Fact, g: Fact)
    requires Passes(q, f) && Passes(q, g)
    ensures Matching(q, [f, g]) == [f, g]
  {
    SelectBoth(Where(q), true, f, g);
  }

  /**
   * Two events, one without dimensions and one with the empty object, are accepted and recorded; the gRPC query of
   * their hour answers with two items that look alike.
   */
  lemma {:induction false} LookAlikesHappen(e: Setting)
    requires Injective(e.text)
    ensures var r := Record(MeterOnly(), CALLER, Grant(), [Event("e", 1, Null), Event("f", 1, Object(map[]))], [7, 8], 0, Commits);
      && r.error == None && Accepts(SetupOn(e, r.store), Hourly())
      && HasLookAlikes(AllGrpcItems(SetupOn(e, r.store), Hourly()))
  {
    hide Injective, HasLookAlikes, AllGrpcItems, Accepts, Record, Bucket;
    var f, g := FactOf("e", 1, Null, 7), FactOf("f", 1, Object(map[]), 8);
    EventIsAccepted("e", 1, Null, 7);
    EventIsAccepted("f", 1, Object(map[]), 8);
    TwoEventsRecorded(Event("e", 1, Null), Event("f", 1, Object(map[])), f, g);
    var s := Record(MeterOnly(), CALLER, Grant(), [Event("e", 1, Null), Event("f", 1, Object(map[]))], [7, 8], 0, Commits).store;
    HourlyIsAccepted(e, s);
    BothMatch(FilterOf(Hourly()), f, g);
    assert Mixed(Hour, [f, g][0], [f, g][1]);
    AnswersLookAlikeIff(SetupOn(e, s), Hourly());
  }

  // ---- a total too large for a float --------------------------------------------------------

  /**
   * Events of total quantity 2^53 + 1 are accepted and recorded, and the query of their hour answers with that total.
   * If the query route is one of the idempotent ones, the replay of this answer says 2^53.
   */
  lemma {:induction false} LargeTotalIsReplayedWrong(e: Setting, c: Codec, key: string, fingerprint: string,
                                                     parse: string -> Option<Middleware.Response>, text: string,
                                                     other: Middleware.Handler)
    requires Injective(e.text)
    ensures var r := Record(MeterOnly(), CALLER, Grant(), [Event("e", J.TWO_53, Null), Event("f", 1, Null)], [7, 8], 0, Commits);
      var answer := AskOn(SetupOn(e, r.store), Hourly());
      && r.error == None && answer.Ok? && answer.value.quantity == J.TWO_53 + 1
      && (parse(text) == Some(Middleware.Success(PageBody(c, answer.value), "first")) ==>
            var (_, second) := Middleware.Repeated(map[], 0, 1, key, fingerprint, "second", Middleware.Handler(200, [text]), parse,
                                                   Middleware.Success(PageBody(c, answer.value), "first"), other);
            && second.sent.Envelope? && second.sent.response.body.Object?
            && "total_quantity" in second.sent.response.body.fields
            && second.sent.response.body.fields["total_quantity"] == J.Number(J.TWO_53))
  {
    hide Injective, Accepts, Record, PageBody, Middleware.Repeated;
    var a, b := Event("e", J.TWO_53, Null), Event("f", 1, Null);
    var f, g := FactOf("e", J.TWO_53, Null, 7), FactOf("f", 1, Null, 8);
    EventIsAccepted("e", J.TWO_53, Null, 7);
    EventIsAccepted("f", 1, Null, 8);
    TwoEventsRecorded(a, b, f, g);
    var s := Record(MeterOnly(), CALLER, Grant(), [a, b], [7, 8], 0, Commits).store;
    TotalOfTwo(e, s, f, g);
    var body := PageBody(c, AskOn(SetupOn(e, s), Hourly()).value);
    TotalIsRounded(AskOn(SetupOn(e, s), Hourly()).value, c);
    if parse(text) == Some(Middleware.Success(body, "first")) {
      Middleware.SuccessIsReplayedThroughAny(key, fingerprint, parse, text, body, other);
    }
  }

  lemma {:induction false} TotalOfTwo(e: Setting, s: Store, f: Fact, g: Fact)
    requires Injective(e.text) && s.meters == [METER] && s.facts == [f, g]
    requires Passes(FilterOf(Hourly()), f) && Passes(FilterOf(Hourly()), g)
    ensures var answer := AskOn(SetupOn(e, s), Hourly()); answer.Ok? && answer.value.quantity == f.quantity + g.quantity
  {
    HourlyIsAccepted(e, s);
    var u := SetupOn(e, s);
    hide Injective, Points, Passes, ItemOf;
    BothMatch(FilterOf(Hourly()), f, g);
    assert Hourly().(page := 1) == Hourly();
    FittingAnswer(u, Hourly(), 1);
    AnswersConserveQuantity(e, s, CALLER, Grant(), Hourly());
    TotalOfBoth(Quantity, f, g);
  }

  lemma {:induction false} TotalOfBoth(weight: Fact -> int, f: Fact, g: Fact)
    ensures Total(weight, [f, g]) == weight(f) + weight(g)
  {
    assert [f, g][1..] == [g] && [g][1..] == [];
    assert Total(weight, [g]) == weight(g) + Total(weight, []);
  }

  lemma {:induction false} TotalIsRounded(a: Answer, c: Codec)
    requires a.quantity == J.TWO_53 + 1
    ensures var b := J.ThroughAny(PageBody(c, a));
      b.Object? && "total_quantity" in b.fields && b.fields["total_quantity"] == J.Number(J.TWO_53)
  {
    hide J.Reprint, ItemBody;
    J.FirstLoss();
    var fields := PageBody(c, a).fields;
    assert fields["total_quantity"] == J.Number(J.TWO_53 + 1);
    assert J.ThroughAny(fields["total_quantity"]) == J.Number(J.TWO_53);
  }
}
