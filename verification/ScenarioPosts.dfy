/** Concrete runs of the middleware: the life of a key, and a batch that is posted twice. */
module ScenarioPosts {
  import opened Ledger
  import opened Ingestion
  import opened Validation
  import opened HttpAnswers
  import opened Scenarios
  import Calls = Interleaving
  import Keys = IdempotentRuns
  import Posts = ConcurrentPosts

  // ---- the life of a key --------------------------------------------------------------------

  /** The run so far, and one request, return or expiry more. */
  lemma {:induction false} Next(actions: seq<Keys.Action>, a: Keys.Action) returns (longer: seq<Keys.Action>)
    requires Keys.Exec(actions).Some? && Keys.Enabled(Keys.Exec(actions).value, a)
    ensures longer == actions + [a] && Keys.Exec(longer) == Some(Keys.Apply(Keys.Exec(actions).value, a))
  {
    hide Keys.Enabled, Keys.Apply;
    longer := actions + [a];
    assert longer[..|actions|] == actions;
  }

  const BODY: J.Json := J.Text("x")

  function Answer(): Middleware.Response { Middleware.Success(BODY, "a") }

  /**
   * A request starts; while it runs its repetition is told so and another request that it differs; after its return the
   * repetition gets its answer; and after the expiry of the key the other request starts.
   */
  lemma {:induction false} LifeOfAKey() returns (actions: seq<Keys.Action>)
    ensures Keys.Exec(actions).Some?
    ensures Keys.Exec(actions).value.log == [
      Keys.Started("k", "f", 0),
      Keys.Refused("k", "f", Middleware.Refuse(Middleware.Busy, "b")),
      Keys.Refused("k", "g", Middleware.Refuse(Middleware.Different, "c")),
      Keys.Returned("k", "f", 0, 200, Some(Answer()), true),
      Keys.Replayed("k", "f", "d", Middleware.Envelope(200, Middleware.Success(BODY, "d"))),
      Keys.Expired("k"),
      Keys.Started("k", "g", 4)]
  {
    hide Keys.Exec;
    NothingHappened();
    actions := Next([], Keys.Arrive(1, "k", "f", "a"));
    actions := Next(actions, Keys.Arrive(2, "k", "f", "b"));
    actions := Next(actions, Keys.Arrive(3, "k", "g", "c"));
    assert Keys.Exec(actions).value.entries == map["k" := Middleware.Processing("f", 0)];
    actions := Next(actions, Keys.Return(1, 200, Some(Answer()), true));
    assert Keys.Exec(actions).value.entries == map["k" := Middleware.Completed("f", Middleware.Success(BODY, ""))];
    actions := Next(actions, Keys.Arrive(4, "k", "f", "d"));
    actions := Next(actions, Keys.Expire("k"));
    actions := Next(actions, Keys.Arrive(5, "k", "g", "e"));
  }

  lemma {:induction false} NothingHappened()
    ensures Keys.Exec([]) == Some(Keys.INIT)
  {
  }

  // ---- a batch posted twice -----------------------------------------------------------------

  /** A client that posts the batch of one event. */
  function ClientOf(c: Codec): Posts.Client { Posts.Retrying.Client(c, [Batch()], "k", "f") }

  function Results1(): seq<RecordResult> { [RecordResult("e", 7, false)] }

  /** The run so far, and one step more. */
  lemma {:induction false} Then(c: Codec, steps: seq<Posts.Step>, w: Posts.World, step: Posts.Step) returns (longer: seq<Posts.Step>)
    requires Posts.Exec(ClientOf(c), steps) == Some(w) && Calls.Exec(w.trace).Some? && Posts.Enabled(ClientOf(c), w, step)
    ensures Posts.Exec(ClientOf(c), longer) == Some(Posts.Apply(ClientOf(c), w, step))
  {
    hide Posts.Enabled, Posts.Apply, Calls.Exec;
    longer := steps + [step];
    assert longer[..|steps|] == steps;
  }

  /** One statement that leads the calls from one state to another. */
  lemma {:induction false} Say(c: Codec, steps: seq<Posts.Step>, w: Posts.World, s: Calls.Sys, a: Calls.Action, t: Calls.Sys)
    returns (longer: seq<Posts.Step>, next: Posts.World)
    requires Posts.Exec(ClientOf(c), steps) == Some(w) && Calls.Exec(w.trace) == Some(s)
    requires Calls.Enabled(s, a) && Same(Calls.Apply(s, a), t) && forall n :: n in w.posts ==> !Posts.Begins(a, n)
    ensures Posts.Exec(ClientOf(c), longer) == Some(next) && Calls.Exec(next.trace) == Some(t)
    ensures next == w.(trace := next.trace, posts := Posts.Heard(w.posts, s, a))
  {
    hide Calls.Enabled, Calls.Apply, Calls.Exec, Posts.Exec, Posts.Heard;
    Posts.TraceGrows(w.trace, a);
    longer := Then(c, steps, w, Posts.Statement(a));
    next := Posts.Apply(ClientOf(c), w, Posts.Statement(a));
  }

  lemma {:induction false} MeterThere(c: Codec) returns (steps: seq<Posts.Step>, w: Posts.World)
    ensures Posts.Exec(ClientOf(c), steps) == Some(w) && Calls.Exec(w.trace) == Some(Calls.Sys(MeterOnly(), map[], {}, []))
    ensures w == Posts.START.(trace := w.trace)
  {
    hide Calls.Exec, Posts.Exec;
    NothingRan();
    NothingPosted(c);
    var creating := Calls.Sys(EMPTY, map[0 := Calls.Creating(METER, 0, "p")], {}, []);
    steps, w := Say(c, [], Posts.START, Calls.INIT, Calls.InsertMeter(0, METER, 0, "p"), creating);
    steps, w := Say(c, steps, w, creating, Calls.CommitMeter(0), Calls.Sys(MeterOnly(), map[], {}, []));
  }

  lemma {:induction false} NothingPosted(c: Codec)
    ensures Posts.Exec(ClientOf(c), []) == Some(Posts.START)
  {
  }

  /** The first post is let through, and its handler submits the batch. */
  lemma {:induction false} FirstPost(c: Codec) returns (steps: seq<Posts.Step>, w: Posts.World)
    ensures Posts.Exec(ClientOf(c), steps) == Some(w) && Calls.Exec(w.trace) == Some(Now(MeterOnly(), Unchecked()))
    ensures Underway(w)
  {
    hide Calls.Exec, Posts.Exec, MeterOnly;
    steps, w := MeterThere(c);
    var s := Calls.Sys(MeterOnly(), map[], {}, []);
    var submit := Calls.Submit(1, CALLER, [Batch()], [7], 0);
    Submits();
    Posts.TraceGrows(w.trace, submit);
    var arrive := Posts.Arrive(1, CALLER, [7], 0, "a", Middleware.FINE);
    steps := Then(c, steps, w, arrive);
    w := Posts.Apply(ClientOf(c), w, arrive);
  }

  lemma {:induction false} Submits()
    ensures var s := Calls.Sys(MeterOnly(), map[], {}, []);
      var a := Calls.Submit(1, CALLER, [Batch()], [7], 0);
      Calls.Enabled(s, a) && Calls.Apply(s, a) == Now(MeterOnly(), Unchecked())
  {
    hide MeterOnly;
    var s := Calls.Sys(MeterOnly(), map[], {}, []);
    assert Calls.Ids(Unchecked()) == {7} by { assert [7][0] == 7; }
    assert Same(Calls.Apply(s, Calls.Submit(1, CALLER, [Batch()], [7], 0)), Now(MeterOnly(), Unchecked()));
  }

  /** The world of the first post, whose handler is running. */
  predicate Underway(w: Posts.World) {
    w == Posts.World(w.trace, map["k" := Middleware.Processing("f", 0)], 1, map[1 := Posts.Post(0, "a", None)], [])
  }

  /** One statement of the first post. */
  lemma {:induction false} Do(c: Codec, steps: seq<Posts.Step>, w: Posts.World, before: Calls.Attempt, a: Calls.Action,
                              after: Calls.Attempt)
    returns (longer: seq<Posts.Step>, next: Posts.World)
    requires Underway(w) && Posts.Exec(ClientOf(c), steps) == Some(w) && Calls.Exec(w.trace) == Some(Now(MeterOnly(), before))
    requires Calls.Enabled(Now(MeterOnly(), before), a) && !a.Commit? && !Posts.Begins(a, 1)
    requires Same(Calls.Apply(Now(MeterOnly(), before), a), Now(MeterOnly(), after))
    ensures Underway(next) && Posts.Exec(ClientOf(c), longer) == Some(next) && Calls.Exec(next.trace) == Some(Now(MeterOnly(), after))
  {
    hide Calls.Enabled, Calls.Apply, Calls.Exec, Posts.Exec, MeterOnly, Now;
    longer, next := Say(c, steps, w, Now(MeterOnly(), before), a, Now(MeterOnly(), after));
  }

  /** Its event is checked and claimed, and its fact inserted. */
  lemma {:induction false} FirstInsert(c: Codec) returns (steps: seq<Posts.Step>, w: Posts.World)
    ensures Underway(w) && Posts.Exec(ClientOf(c), steps) == Some(w)
    ensures Calls.Exec(w.trace) == Some(Now(MeterOnly(), Calls.Claiming(Inserted())))
  {
    hide Calls.Exec, Posts.Exec, Calls.CheckStep, Calls.ClaimStep, Calls.InsertStep, MeterOnly;
    CheckPasses();
    ClaimPasses();
    MeterSteps();
    steps, w := FirstPost(c);
    hide Underway;
    steps, w := Do(c, steps, w, Unchecked(), Calls.Check(1, Granted), Checked());
    steps, w := Do(c, steps, w, Checked(), Calls.Begin(1), Calls.Claiming(Opened()));
    steps, w := Do(c, steps, w, Calls.Claiming(Opened()), Calls.ClaimKey(1), Calls.Inserting(Scenarios.Claimed()));
    steps, w := Do(c, steps, w, Calls.Inserting(Scenarios.Claimed()), Calls.InsertFact(1), Calls.Claiming(Inserted()));
  }

  /** Its outbox row is added. */
  lemma {:induction false} FirstBatch(c: Codec) returns (steps: seq<Posts.Step>, w: Posts.World)
    ensures Underway(w) && Posts.Exec(ClientOf(c), steps) == Some(w)
    ensures Calls.Exec(w.trace) == Some(Now(MeterOnly(), Calls.Emitting(WithRow())))
  {
    hide Calls.Exec, Posts.Exec, Calls.NextRow, Scopes, MeterOnly, Underway;
    OneScope();
    assert Inserted().rows + [Calls.NextRow(Inserted())] == WithRow().rows;
    steps, w := FirstInsert(c);
    steps, w := Do(c, steps, w, Calls.Claiming(Inserted()), Calls.Finish(1), Calls.Emitting(Inserted()));
    steps, w := Do(c, steps, w, Calls.Emitting(Inserted()), Calls.AddRow(1), Calls.Emitting(WithRow()));
  }

  /** The first post commits and hears of it. */
  lemma {:induction false} FirstCommit(c: Codec) returns (steps: seq<Posts.Step>, w: Posts.World)
    ensures Posts.Exec(ClientOf(c), steps) == Some(w)
    ensures Calls.Exec(w.trace) == Some(Calls.Sys(Calls.Publishing(MeterOnly(), WithRow()), map[], {7}, Results1()))
    ensures w == Posts.World(w.trace, map["k" := Middleware.Processing("f", 0)], 1,
                             map[1 := Posts.Post(0, "a", Some(Results1()))], [])
  {
    hide Calls.Exec, Posts.Exec, MeterOnly, Scopes, Calls.NextRow;
    OneScope();
    steps, w := FirstBatch(c);
    steps, w := Say(c, steps, w, Now(MeterOnly(), Calls.Emitting(WithRow())), Calls.Commit(1, true),
                    Calls.Sys(Calls.Publishing(MeterOnly(), WithRow()), map[], {7}, Results1()));
    assert w.posts == map[1 := Posts.Post(0, "a", Some(Results1()))];
  }

  lemma {:induction false} OneFactStored()
    ensures Calls.Publishing(MeterOnly(), WithRow()).facts == [Recorded()]
  {
    hide Calls.NextRow, Scopes;
    MeterSteps();
  }

  /** It returns its results, which are saved. */
  lemma {:induction false} FirstAnswer(c: Codec) returns (steps: seq<Posts.Step>, w: Posts.World)
    requires RoundTrips(c)
    ensures Posts.Exec(ClientOf(c), steps) == Some(w)
    ensures Calls.Exec(w.trace).Some? && Calls.Exec(w.trace).value.store.facts == [Recorded()]
    ensures Calls.Exec(w.trace).value.attempts == map[] && Calls.Exec(w.trace).value.used == {7}
    ensures var r := Middleware.Success(Listed(c, Results1()), "a");
      w == Posts.World(w.trace, map["k" := Middleware.Completed("f", r.(requestId := ""))], 1, map[],
                       [Middleware.Bytes(200, c.encode(r))])
  {
    hide Calls.Exec, Posts.Exec, Calls.Publishing, WithRow, MeterOnly, Listed, RoundTrips;
    OneFactStored();
    ListedSurvives(c, Results1());
    steps, w := FirstCommit(c);
    var back := Posts.Return(1, Internal, true);
    steps := Then(c, steps, w, back);
    w := Posts.Apply(ClientOf(c), w, back);
    assert w.posts == map[];
  }

  /** The second post gets the answer of the first, with its own request id, and the batch has its one fact. */
  lemma {:induction false} PostedTwice(c: Codec) returns (steps: seq<Posts.Step>, w: Posts.World)
    requires RoundTrips(c)
    ensures Posts.Exec(ClientOf(c), steps) == Some(w)
    ensures Calls.Exec(w.trace).Some? && Calls.Exec(w.trace).value.store.facts == [Recorded()]
    ensures w.answers == [Middleware.Bytes(200, c.encode(Middleware.Success(Listed(c, Results1()), "a"))),
                          Middleware.Envelope(200, Middleware.Success(Listed(c, Results1()), "b"))]
  {
    hide Calls.Exec, Posts.Exec, Listed, RoundTrips;
    ListedSurvives(c, Results1());
    steps, w := FirstAnswer(c);
    var arrive := Posts.Arrive(2, CALLER, [8], 0, "b", Middleware.FINE);
    steps := Then(c, steps, w, arrive);
    w := Posts.Apply(ClientOf(c), w, arrive);
  }
}
