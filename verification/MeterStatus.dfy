/**
 * The status of a meter between the check of an event and the commit of its fact. RecordUsage reads the meter before
 * its transaction, so the meter is active when it is read and may be disabled when the fact is committed.
 */
module MeterStatus {
  import opened Ledger
  import opened Validation
  import opened Meters
  import opened Soundness
  import opened Interleaving
  import opened InterleavingProofs
  import opened Runs

  // ---- where the meter of a fact was read ---------------------------------------------------

  /** Step r of the run is the check in which call n looked the code up, found m, and has been under way since. */
  ghost predicate ReadAt(actions: seq<Action>, n: nat, r: nat, code: string, m: Meter)
    requires Exec(actions).Some?
  {
    && r < |actions| && actions[r].Check? && actions[r].n == n
    && LooksUp(StateAt(actions, r), n, code)
    && MeterByCode(StateAt(actions, r).store.meters, code) == Some(m)
    && forall k :: r <= k <= |actions| ==> n in StateAt(actions, k).attempts
  }

  /** The next event call n checks names a meter it has not looked up yet. */
  predicate LooksUp(s: Sys, n: nat, code: string) {
    && n in s.attempts && s.attempts[n].Checking? && |s.attempts[n].facts| < |s.attempts[n].inputs|
    && Normal(s.attempts[n].inputs[|s.attempts[n].facts|]).meter == code && code !in s.attempts[n].cache
  }

  ghost predicate WasRead(actions: seq<Action>, n: nat, code: string, m: Meter)
    requires Exec(actions).Some?
  {
    exists r :: ReadAt(actions, n, r, code, m)
  }

  ghost predicate WasReadActive(actions: seq<Action>, n: nat, code: string)
    requires Exec(actions).Some?
  {
    exists m: Meter :: m.status == Active && WasRead(actions, n, code, m)
  }

  function CacheOf(a: Attempt): map<string, Meter> { if a.Checking? then a.cache else map[] }

  function FactsOf(a: Attempt): seq<Fact> {
    match a
    case Checking(_, _, _, _, _, _, facts) => facts
    case Claiming(tx) => tx.facts
    case Inserting(tx) => tx.facts
    case Emitting(tx) => tx.facts
    case Revising(_, _) => []
    case Locked(_, _) => []
    case Creating(_, _, _) => []
  }

  /** Every meter call n has in its cache was read, and every fact it built had an active meter when that was read. */
  ghost predicate Grounded(actions: seq<Action>, n: nat, a: Attempt)
    requires Exec(actions).Some?
  {
    && (forall code :: code in CacheOf(a) ==> WasRead(actions, n, code, CacheOf(a)[code]))
    && (forall i :: 0 <= i < |FactsOf(a)| ==> WasReadActive(actions, n, FactsOf(a)[i].meter))
  }

  lemma {:induction false} WasReadStays(actions: seq<Action>, n: nat, code: string, m: Meter)
    requires actions != [] && Exec(actions).Some? && n in Exec(actions).value.attempts
    requires Exec(actions[..|actions| - 1]).Some? && WasRead(actions[..|actions| - 1], n, code, m)
    ensures WasRead(actions, n, code, m)
  {
    hide Exec, StateAt, LooksUp;
    var pre := actions[..|actions| - 1];
    var r: nat :| ReadAt(pre, n, r, code, m);
    StateOfPrefix(actions, |pre|, r);
    forall k | r <= k <= |actions| ensures n in StateAt(actions, k).attempts {
      if k <= |pre| {
        StateOfPrefix(actions, |pre|, k);
      } else {
        EndState(actions);
      }
    }
    assert ReadAt(actions, n, r, code, m);
  }

  lemma {:induction false} EndState(actions: seq<Action>)
    requires Exec(actions).Some?
    ensures StateAt(actions, |actions|) == Exec(actions).value
  {
    assert actions[..|actions|] == actions;
  }

  /** What one step does to the facts and the cache of an attempt that is there afterwards. */
  lemma {:induction false} StepKeepsReads(s: Sys, a: Action, n: nat)
    requires Enabled(s, a) && n in Apply(s, a).attempts
    requires forall m :: a != Check(n, m)
    ensures var next := Apply(s, a).attempts[n];
      if n in s.attempts
      then FactsOf(next) == FactsOf(s.attempts[n]) && (CacheOf(next) == CacheOf(s.attempts[n]) || CacheOf(next) == map[])
      else FactsOf(next) == [] && CacheOf(next) == map[]
  {
    hide NextRow, CheckStep, ClaimStep, InsertStep, Publishing, CommitUpdate, CommitCreate, Revised, AnyMatch, MeterById;
    match a
    case ClaimKey(m) => ClaimKeepsFacts(s.attempts[m].tx, s.store.keys);
    case InsertFact(m) => InsertKeepsFacts(s.attempts[m].tx, s.store.facts);
    case _ =>
  }

  lemma {:induction false} ClaimKeepsFacts(tx: Tx, keys: map<string, Key>)
    requires tx.pos < |tx.facts|
    ensures var next := ClaimStep(tx, keys); next.Some? ==> FactsOf(next.value) == tx.facts && CacheOf(next.value) == map[]
  {
  }

  lemma {:induction false} InsertKeepsFacts(tx: Tx, facts: seq<Fact>)
    requires tx.pos < |tx.facts|
    ensures var next := InsertStep(tx, facts); next.Some? ==> FactsOf(next.value) == tx.facts && CacheOf(next.value) == map[]
  {
  }

  /** A checked event: its fact names the meter just used, which was active, from the cache or just read. */
  lemma {:induction false} CheckStepReads(a: Attempt, ms: seq<Meter>, verdict: Verdict)
    requires a.Checking? && |a.facts| < |a.inputs| == |a.ids| && CheckStep(a, ms, verdict).Some?
    ensures var b, code := CheckStep(a, ms, verdict).value, Normal(a.inputs[|a.facts|]).meter;
      && b.Checking? && |b.facts| == |a.facts| + 1 && b.facts[..|a.facts|] == a.facts
      && b.facts[|a.facts|].meter == code
      && code in b.cache && b.cache[code].status == Active && b.cache == a.cache[code := b.cache[code]]
      && (if code in a.cache then b.cache == a.cache else MeterByCode(ms, code) == Some(b.cache[code]))
  {
    hide CheckCaller, VerdictError, DimensionsFit, MeterByCode;
  }

  lemma {:induction false} GroundedStays(actions: seq<Action>, n: nat, prev: Attempt, next: Attempt)
    requires actions != [] && Exec(actions).Some? && n in Exec(actions).value.attempts
    requires Exec(actions[..|actions| - 1]).Some? && Grounded(actions[..|actions| - 1], n, prev)
    requires FactsOf(next) == FactsOf(prev) && (CacheOf(next) == CacheOf(prev) || CacheOf(next) == map[])
    ensures Grounded(actions, n, next)
  {
    hide Exec, FactsOf, CacheOf, WasRead;
    var pre := actions[..|actions| - 1];
    forall code | code in CacheOf(next) ensures WasRead(actions, n, code, CacheOf(next)[code]) {
      WasReadStays(actions, n, code, CacheOf(prev)[code]);
    }
    forall i | 0 <= i < |FactsOf(next)| ensures WasReadActive(actions, n, FactsOf(next)[i].meter) {
      assert WasReadActive(pre, n, FactsOf(prev)[i].meter);
      var m: Meter :| m.status == Active && WasRead(pre, n, FactsOf(prev)[i].meter, m);
      WasReadStays(actions, n, FactsOf(prev)[i].meter, m);
    }
  }

  lemma {:induction false} CheckGrounds(actions: seq<Action>, n: nat, verdict: Verdict)
    requires actions != [] && actions[|actions| - 1] == Check(n, verdict) && Exec(actions).Some?
    requires n in Exec(actions).value.attempts && Exec(actions[..|actions| - 1]).Some?
    requires var s := Exec(actions[..|actions| - 1]).value;
      Enabled(s, Check(n, verdict)) && Grounded(actions[..|actions| - 1], n, s.attempts[n])
    requires Exec(actions).value == Apply(Exec(actions[..|actions| - 1]).value, Check(n, verdict))
    ensures Grounded(actions, n, Exec(actions).value.attempts[n])
  {
    hide Exec, WasRead, CheckStep, MeterByCode, LooksUp, Normal;
    var pre := actions[..|actions| - 1];
    var s := Exec(pre).value;
    var a := s.attempts[n];
    var i := |a.facts|;
    var code := Normal(a.inputs[i]).meter;
    CheckStepReads(a, s.store.meters, verdict);
    var b := Exec(actions).value.attempts[n];
    if code !in a.cache {
      JustRead(actions, n, verdict, b.cache[code]);
    }
    forall x | x in b.cache ensures WasRead(actions, n, x, b.cache[x]) {
      if x in a.cache {
        assert x in CacheOf(a);
        WasReadStays(actions, n, x, a.cache[x]);
      }
    }
    forall j | 0 <= j < |b.facts| ensures WasReadActive(actions, n, b.facts[j].meter) {
      if j < i {
        assert b.facts[j] == a.facts[j] == FactsOf(a)[j];
        assert WasReadActive(pre, n, FactsOf(a)[j].meter);
        var m: Meter :| m.status == Active && WasRead(pre, n, a.facts[j].meter, m);
        WasReadStays(actions, n, a.facts[j].meter, m);
      }
    }
  }

  lemma {:induction false} JustRead(actions: seq<Action>, n: nat, verdict: Verdict, m: Meter)
    requires actions != [] && actions[|actions| - 1] == Check(n, verdict) && Exec(actions).Some?
    requires n in Exec(actions).value.attempts && Exec(actions[..|actions| - 1]).Some?
    requires var s := Exec(actions[..|actions| - 1]).value;
      && n in s.attempts && s.attempts[n].Checking? && |s.attempts[n].facts| < |s.attempts[n].inputs|
      && var code := Normal(s.attempts[n].inputs[|s.attempts[n].facts|]).meter;
      && code !in s.attempts[n].cache && MeterByCode(s.store.meters, code) == Some(m)
    ensures var a := Exec(actions[..|actions| - 1]).value.attempts[n];
      WasRead(actions, n, Normal(a.inputs[|a.facts|]).meter, m)
  {
    hide Exec, MeterByCode, Normal;
    var last := |actions| - 1;
    EndState(actions);
    var a := StateAt(actions, last).attempts[n];
    assert ReadAt(actions, n, last, Normal(a.inputs[|a.facts|]).meter, m);
  }

  lemma {:induction false} RunsAreGrounded(actions: seq<Action>, n: nat)
    requires Exec(actions).Some? && n in Exec(actions).value.attempts
    ensures Grounded(actions, n, Exec(actions).value.attempts[n])
  {
    hide Enabled, Apply, FactsOf, CacheOf, Grounded;
    assert actions != [];
    var pre, a := actions[..|actions| - 1], actions[|actions| - 1];
    var s := Exec(pre).value;
    if n in s.attempts {
      RunsAreGrounded(pre, n);
    }
    if a.Check? && a.n == n {
      CheckedWasThere(s, a);
      CheckGrounds(actions, n, a.verdict);
    } else {
      StepKeepsReads(s, a, n);
      if n in s.attempts {
        GroundedStays(actions, n, s.attempts[n], Exec(actions).value.attempts[n]);
      } else {
        NewIsGrounded(actions, n, Exec(actions).value.attempts[n]);
      }
    }
  }

  lemma {:induction false} CheckedWasThere(s: Sys, a: Action)
    requires a.Check? && Enabled(s, a)
    ensures a.n in s.attempts
  {
  }

  lemma {:induction false} NewIsGrounded(actions: seq<Action>, n: nat, a: Attempt)
    requires Exec(actions).Some? && FactsOf(a) == [] && CacheOf(a) == map[]
    ensures Grounded(actions, n, a)
  {
  }

  // ---- what becomes of the row --------------------------------------------------------------

  /** The last version of the meter that was committed at step r or later. */
  function LastVersion(actions: seq<Action>, r: nat, code: string): Option<Meter>
    requires Exec(actions).Some?
  {
    if |actions| <= r then None
    else
      var before, a := Exec(actions[..|actions| - 1]).value, actions[|actions| - 1];
      if a.CommitVersion? && before.attempts[a.n].value.code == code then Some(before.attempts[a.n].value)
      else LastVersion(actions[..|actions| - 1], r, code)
  }

  /** One step: the row takes the committed version of its meter, else it stays. */
  lemma {:induction false} StepMovesRow(s: Sys, a: Action, code: string)
    requires Inv(s) && Enabled(s, a) && Inv(Apply(s, a)) && MeterByCode(s.store.meters, code).Some?
    ensures MeterByCode(Apply(s, a).store.meters, code)
         == if a.CommitVersion? && s.attempts[a.n].value.code == code then Some(s.attempts[a.n].value)
            else MeterByCode(s.store.meters, code)
  {
    hide Sound, AttemptsHold, AcksHold, UpdateWhere;
    match a
    case CommitMeter(n) => AddedMovesNoRow(s.store.meters, s.attempts[n].value, code);
    case CommitVersion(n) => VersionMovesRow(s, n, code);
    case _ =>
  }

  lemma {:induction false} AddedMovesNoRow(ms: seq<Meter>, m: Meter, code: string)
    requires MeterByCode(ms, code).Some?
    ensures MeterByCode(ms + [m], code) == MeterByCode(ms, code)
  {
    assert (ms + [m])[0] == ms[0];
    if ms[0].code != code {
      assert (ms + [m])[1..] == ms[1..] + [m];
      AddedMovesNoRow(ms[1..], m, code);
    }
  }

  lemma {:induction false} VersionMovesRow(s: Sys, n: nat, code: string)
    requires Sound(s.store) && AttemptsHold(s) && n in s.attempts && s.attempts[n].Locked?
    requires MeterByCode(s.store.meters, code).Some?
    ensures var l := s.attempts[n];
      MeterByCode(UpdateWhere(s.store.meters, l.value, l.expected), code)
      == if s.attempts[n].value.code == code then Some(s.attempts[n].value) else MeterByCode(s.store.meters, code)
  {
    hide Sound, AttemptsHold, Extends, UpdateWhere, UniqueMeters, MeterByCode;
    var l, ms := s.attempts[n], s.store.meters;
    var k := LockedRow(s, n);
    LockedUpdateKeepsSound(s.store, l.value, l.expected, k);
    SoundMetersAreUnique(s.store);
    SoundMetersAreUnique(CommitUpdate(s.store, l.value, l.expected, l.value.audit.updatedAt, l.value.audit.updatedBy));
    MeterByCodeIs(ms[k := l.value], k);
    if l.value.code != code {
      MeterByCodeFinds(ms, code);
      var m := MeterByCode(ms, code).value;
      var i :| 0 <= i < |ms| && ms[i] == m;
      assert ms[k := l.value][i] == m;
      MeterByCodeIs(ms[k := l.value], i);
    }
  }

  /** At the end of a run the row is the last version committed since step r, else what it was at r. */
  lemma {:induction false} RowHistory(actions: seq<Action>, r: nat, code: string)
    requires r <= |actions| && Exec(actions).Some? && MeterByCode(StateAt(actions, r).store.meters, code).Some?
    ensures MeterByCode(Exec(actions).value.store.meters, code)
         == if LastVersion(actions, r, code).Some? then LastVersion(actions, r, code)
            else MeterByCode(StateAt(actions, r).store.meters, code)
    decreases |actions|
  {
    hide Enabled, Apply, Inv, MeterByCode, StateAt;
    if |actions| == r {
      EndState(actions);
    } else {
      var pre := actions[..|actions| - 1];
      StateOfPrefix(actions, |pre|, r);
      RowHistory(pre, r, code);
      RunsKeepInv(pre);
      RunsKeepInv(actions);
      StepMovesRow(Exec(pre).value, actions[|actions| - 1], code);
    }
  }

  /**
   * When a batch commits, the meter of each of its facts was active in the check, step r, in which the call read it;
   * and it is active now exactly if no version of it was committed since, or the last one left it active.
   */
  lemma {:induction false} MeterStatusAtCommit(actions: seq<Action>, n: nat, heard: bool, i: nat) returns (r: nat, read: Meter)
    requires Exec(actions).Some? && Enabled(Exec(actions).value, Commit(n, heard))
    requires i < |Exec(actions).value.attempts[n].tx.facts|
    ensures var code := Exec(actions).value.attempts[n].tx.facts[i].meter;
      var now, last := MeterByCode(Exec(actions).value.store.meters, code), LastVersion(actions, r, code);
      && ReadAt(actions, n, r, code, read) && read.status == Active
      && now.Some? && (now.value.status == Active <==> last.None? || last.value.status == Active)
  {
    hide Exec, WasRead, MeterByCode, LastVersion, LooksUp;
    var s := Exec(actions).value;
    var code := s.attempts[n].tx.facts[i].meter;
    RunsAreGrounded(actions, n);
    assert FactsOf(s.attempts[n])[i].meter == code;
    var m: Meter :| m.status == Active && WasRead(actions, n, code, m);
    read := m;
    r := ReadStep(actions, n, code, m);
    RowHistory(actions, r, code);
  }

  lemma {:induction false} ReadStep(actions: seq<Action>, n: nat, code: string, m: Meter) returns (r: nat)
    requires Exec(actions).Some? && WasRead(actions, n, code, m)
    ensures ReadAt(actions, n, r, code, m)
  {
    r :| ReadAt(actions, n, r, code, m);
  }
}
