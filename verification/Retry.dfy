/** A client that retries one batch until it gets through. */
module Retry {
  import opened Ledger
  import opened Text
  import opened Ingestion
  import opened Validation
  import opened Soundness
  import opened Database
  import opened Service
  import opened Runs

  /** One attempt of the batch: who sends it, with which ids and clock, and how its transaction ends. */
  datatype Try = Try(caller: Caller, verify: Scope -> Verdict, ids: seq<Id>, now: int, fate: Fate)

  function Attempt(s: Store, inputs: seq<UsageInput>, t: Try): Recorded
    requires |t.ids| == |inputs|
  {
    Record(s, t.caller, t.verify, inputs, t.ids, t.now, t.fate)
  }

  /** The batch passes its checks and meets no clash, so its transaction runs to the commit. */
  predicate Accepted(s: Store, inputs: seq<UsageInput>, t: Try)
    requires |t.ids| == |inputs|
  {
    && t.caller.Principal? && 0 < |inputs| <= MAX_BATCH && !t.fate.BeginFails?
    && var checked := CheckEach(Env(t.caller, t.verify, s.meters, t.now), inputs, t.ids);
      checked.Ok? && !Process(s.keys, checked.value).clashed
  }

  /** An attempt changes the tables only if it is accepted and its commit lands. */
  lemma OnlyLandedAttemptsChange(s: Store, inputs: seq<UsageInput>, t: Try)
    requires |t.ids| == |inputs|
    ensures Attempt(s, inputs, t).store != s ==> Accepted(s, inputs, t) && Lands(t.fate)
    ensures Attempt(s, inputs, t).error.None? <==> Accepted(s, inputs, t) && t.fate.Commits?
  {
    hide CheckEach, Ingest, Process;
  }

  /** Both attempts build, from event i, facts for the same event and target. */
  lemma SameEvents(env1: Env, env2: Env, inputs: seq<UsageInput>, ids1: seq<Id>, ids2: seq<Id>, i: nat)
    requires |ids1| == |ids2| == |inputs| && i < |inputs|
    requires CheckEach(env1, inputs, ids1).Ok? && CheckEach(env2, inputs, ids2).Ok?
    ensures var fs, gs := CheckEach(env1, inputs, ids1).value, CheckEach(env2, inputs, ids2).value;
      && |fs| == |gs| == |inputs|
      && fs[i].eventId == gs[i].eventId && fs[i].scope == gs[i].scope && fs[i].meter == gs[i].meter
  {
    hide CheckOne, Trim, Code;
    var fs, gs := CheckEach(env1, inputs, ids1).value, CheckEach(env2, inputs, ids2).value;
    CollectAligns(Checks(env1, inputs, ids1));
    CollectAligns(Checks(env2, inputs, ids2));
    assert Checks(env1, inputs, ids1)[i] == Ok(fs[i]);
    assert Checks(env2, inputs, ids2)[i] == Ok(gs[i]);
    CheckedOneIsSound(env1, inputs[i], ids1[i]);
    CheckedOneIsSound(env2, inputs[i], ids2[i]);
  }

  /** After a landed batch each of its events is owned by the target it names, under the answered id. */
  lemma LandedEventsAreOwned(keys: map<string, Key>, fs: seq<Fact>, i: nat)
    requires !Process(keys, fs).clashed && i < |fs|
    ensures var p := Process(keys, fs);
      && |p.results| == |fs| && fs[i].eventId in p.keys && SameTarget(p.keys[fs[i].eventId], fs[i])
      && p.keys[fs[i].eventId].factId == p.results[i].factId
  {
    hide Process, Owner, IsNew;
    ProcessClashes(keys, fs);
    assert AgreesAt(keys, fs, i);
    ProcessKeys(keys, fs);
    assert Lookup(Process(keys, fs).keys, fs[i].eventId) == Owner(keys, fs, fs[i].eventId);
    ProcessResults(keys, fs);
    assert ResultAt(keys, fs, i, Process(keys, fs).results[i]);
  }

  /** The answer of a retry: the facts of the first landing, all called duplicates. */
  ghost predicate Repeats(first: Recorded, again: Recorded) {
    && |again.results| == |first.results|
    && forall i :: 0 <= i < |first.results| ==> again.results[i] == first.results[i].(duplicate := true)
  }

  /**
   * Retry convergence. Once an attempt has landed, heard or not, then after any further commits of anyone a
   * retry of the batch, with new ids and a new clock, changes nothing; if accepted it answers with the facts of
   * the landing, and each event has exactly one fact, the answered one.
   */
  lemma RetryConverges(s: Store, inputs: seq<UsageInput>, first: Try, later: Store, again: Try)
    requires |first.ids| == |again.ids| == |inputs|
    requires Accepted(s, inputs, first) && Lands(first.fate)
    requires Sound(later) && Extends(Attempt(s, inputs, first).store, later)
    ensures Attempt(later, inputs, again).store == later
    ensures Accepted(later, inputs, again) ==> Repeats(Attempt(s, inputs, first), Attempt(later, inputs, again))
    ensures forall i :: 0 <= i < |Attempt(s, inputs, first).results| ==>
      SingleFact(later, Attempt(s, inputs, first).results[i])
  {
    hide CheckEach, Ingest, Process, Sound, Extends, SameTarget;
    var env1, env2 := Env(first.caller, first.verify, s.meters, first.now), Env(again.caller, again.verify, later.meters, again.now);
    var fs := CheckEach(env1, inputs, first.ids).value;
    forall i | 0 <= i < |fs| ensures OwnedLater(s, fs, later, i) {
      LandedStays(s, fs, first.now, first.caller.id, later, i);
    }
    ProcessResults(s.keys, fs);
    forall i | 0 <= i < |fs| ensures SingleFact(later, Process(s.keys, fs).results[i]) {
      assert OwnedLater(s, fs, later, i);
      OwnedOnce(s, fs, later, i);
    }
    if CheckEach(env2, inputs, again.ids).Ok? {
      var gs := CheckEach(env2, inputs, again.ids).value;
      CheckEachLength(env1, inputs, first.ids);
      CheckEachLength(env2, inputs, again.ids);
      forall i | 0 <= i < |gs| ensures gs[i].eventId in later.keys && SameTarget(later.keys[gs[i].eventId], gs[i])
                                    && gs[i].eventId == fs[i].eventId
      {
        assert OwnedLater(s, fs, later, i);
        SameEvents(env1, env2, inputs, first.ids, again.ids, i);
        SameTargetAgain(later, fs[i], gs[i]);
      }
      RepeatIngest(later, gs, again.now, ActorOf(again.caller));
      ProcessRepeats(later.keys, gs);
      forall i | 0 <= i < |gs|
        ensures Process(later.keys, gs).results[i] == Process(s.keys, fs).results[i].(duplicate := true)
      {
        assert OwnedLater(s, fs, later, i);
        assert ResultAt(s.keys, fs, i, Process(s.keys, fs).results[i]);
      }
    }
  }

  /** Event i of the landed batch is still owned by its target, under the answered id. */
  ghost predicate OwnedLater(s: Store, fs: seq<Fact>, later: Store, i: nat)
    requires i < |fs|
  {
    && fs[i].eventId in later.keys && SameTarget(later.keys[fs[i].eventId], fs[i])
    && i < |Process(s.keys, fs).results|
    && later.keys[fs[i].eventId].factId == Process(s.keys, fs).results[i].factId
    && Process(s.keys, fs).results[i].eventId == fs[i].eventId
  }

  /** The answered event has one fact, with the answered id. */
  ghost predicate SingleFact(s: Store, r: RecordResult) {
    |EventFacts(s.facts, r.eventId)| == 1 && EventFacts(s.facts, r.eventId)[0].id == r.factId
  }

  lemma LandedStays(s: Store, fs: seq<Fact>, now: int, actor: string, later: Store, i: nat)
    requires !Process(s.keys, fs).clashed && i < |fs| && Extends(Ingest(s, fs, now, actor), later)
    ensures OwnedLater(s, fs, later, i)
  {
    hide Process, Owner, IsNew, Rows;
    LandedEventsAreOwned(s.keys, fs, i);
    ProcessResults(s.keys, fs);
    assert ResultAt(s.keys, fs, i, Process(s.keys, fs).results[i]);
  }

  lemma OwnedOnce(s: Store, fs: seq<Fact>, later: Store, i: nat)
    requires i < |fs| && OwnedLater(s, fs, later, i) && Sound(later)
    ensures SingleFact(later, Process(s.keys, fs).results[i])
  {
    hide Process, OneToOne, EventFacts, OutboxMatches, AllAdmitted;
    OneFactPerEvent(later.keys, later.facts, fs[i].eventId);
  }

  lemma SameTargetAgain(s: Store, f: Fact, g: Fact)
    requires f.eventId in s.keys && SameTarget(s.keys[f.eventId], f)
    requires f.eventId == g.eventId && f.scope == g.scope && f.meter == g.meter
    ensures SameTarget(s.keys[g.eventId], g)
  {
  }

  lemma CheckEachLength(env: Env, inputs: seq<UsageInput>, ids: seq<Id>)
    requires |ids| == |inputs| && CheckEach(env, inputs, ids).Ok?
    ensures |CheckEach(env, inputs, ids).value| == |inputs|
  {
    CollectAligns(Checks(env, inputs, ids));
  }

  // ---- a whole sequence of attempts ---------------------------------------------------------

  /** The tables after a sequence of attempts of the same batch. */
  function After(s: Store, inputs: seq<UsageInput>, tries: seq<Try>): Store
    requires forall i :: 0 <= i < |tries| ==> |tries[i].ids| == |inputs|
  {
    if tries == [] then s else Attempt(After(s, inputs, tries[..|tries| - 1]), inputs, tries[|tries| - 1]).store
  }

  /** The ids of every attempt were unused when it started. */
  ghost predicate FreshTries(s: Store, inputs: seq<UsageInput>, tries: seq<Try>)
    requires forall i :: 0 <= i < |tries| ==> |tries[i].ids| == |inputs|
  {
    forall i :: 0 <= i < |tries| ==> FreshSupply(After(s, inputs, tries[..i]), tries[i].ids)
  }

  lemma {:induction false} AfterKeepsSound(s: Store, inputs: seq<UsageInput>, tries: seq<Try>, n: nat)
    requires forall i :: 0 <= i < |tries| ==> |tries[i].ids| == |inputs|
    requires Sound(s) && FreshTries(s, inputs, tries) && n <= |tries|
    ensures Sound(After(s, inputs, tries[..n]))
  {
    hide Sound, Attempt, FreshSupply;
    if n > 0 {
      AfterKeepsSound(s, inputs, tries, n - 1);
      assert tries[..n][..n - 1] == tries[..n - 1];
      assert FreshSupply(After(s, inputs, tries[..n - 1]), tries[n - 1].ids);
      AttemptKeepsSound(After(s, inputs, tries[..n - 1]), inputs, tries[n - 1]);
    }
  }

  lemma AttemptKeepsSound(s: Store, inputs: seq<UsageInput>, t: Try)
    requires Sound(s) && |t.ids| == |inputs| && FreshSupply(s, t.ids)
    ensures Sound(Attempt(s, inputs, t).store)
  {
    hide Sound, Record, FreshSupply;
    RecordKeepsSound(s, t.caller, t.verify, inputs, t.ids, t.now, t.fate);
  }

  /** Whatever the mix of failures and lost answers, the tables change at most once: at the first landing, k. */
  lemma {:induction false} TriesChangeAtMostOnce(s: Store, inputs: seq<UsageInput>, tries: seq<Try>, k: nat, n: nat)
    requires forall i :: 0 <= i < |tries| ==> |tries[i].ids| == |inputs|
    requires Sound(s) && FreshTries(s, inputs, tries) && k < n <= |tries|
    requires Accepted(After(s, inputs, tries[..k]), inputs, tries[k]) && Lands(tries[k].fate)
    ensures After(s, inputs, tries[..n]) == After(s, inputs, tries[..k + 1])
  {
    hide Sound, Attempt, FreshTries, Accepted, Extends;
    if n > k + 1 {
      TriesChangeAtMostOnce(s, inputs, tries, k, n - 1);
      assert tries[..n][..n - 1] == tries[..n - 1];
      assert tries[..k + 1][..k] == tries[..k];
      var landed := After(s, inputs, tries[..k + 1]);
      AfterKeepsSound(s, inputs, tries, k + 1);
      ExtendsIsReflexive(landed);
      RetryConverges(After(s, inputs, tries[..k]), inputs, tries[k], landed, tries[n - 1]);
    }
  }
}
