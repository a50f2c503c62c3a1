/**
 * What one ingestion transaction does: claim the event keys in order, insert the facts of newly claimed
 * events, and add one outbox row for each scope that gained a fact.
 */
module Ingestion {
  import opened Ledger
  import opened Partition

  // ---- claiming -----------------------------------------------------------------------------

  function KeyOf(f: Fact): Key {
    Key(f.id, f.scope, f.meter, f.occurredAt, f.audit)
  }

  /** A repeated event must name the same tenant, application and meter; nothing else is compared. */
  predicate SameTarget(k: Key, f: Fact) {
    k.scope == f.scope && k.meter == f.meter
  }

  datatype Claim = Claimed | Duplicate(factId: Id) | Clash

  /** ClaimUsage against the visible keys. */
  function ClaimOf(keys: map<string, Key>, f: Fact): Claim {
    if f.eventId !in keys then Claimed
    else if SameTarget(keys[f.eventId], f) then Duplicate(keys[f.eventId].factId)
    else Clash
  }

  /** The state of the transaction's loop over the batch. */
  datatype Progress = Progress(keys: map<string, Key>, inserted: seq<Fact>, results: seq<RecordResult>, clashed: bool)

  function Advance(p: Progress, f: Fact): Progress {
    if p.clashed then p else
      match ClaimOf(p.keys, f)
      case Clash => p.(clashed := true)
      case Duplicate(id) => p.(results := p.results + [RecordResult(f.eventId, id, true)])
      case Claimed => Progress(p.keys[f.eventId := KeyOf(f)], p.inserted + [f],
                               p.results + [RecordResult(f.eventId, f.id, false)], false)
  }

  function Process(keys: map<string, Key>, fs: seq<Fact>): Progress {
    if fs == [] then Progress(keys, [], [], false)
    else Advance(Process(keys, fs[..|fs| - 1]), fs[|fs| - 1])
  }

  // ---- what the loop amounts to -------------------------------------------------------------

  function Lookup(keys: map<string, Key>, e: string): Option<Key> {
    if e in keys then Some(keys[e]) else None
  }

  /** The row that owns event e once the batch is in: the stored one, else that of the event's first fact. */
  function Owner(keys: map<string, Key>, fs: seq<Fact>, e: string): Option<Key> {
    if fs == [] then Lookup(keys, e)
    else
      var n := |fs| - 1;
      var before := Owner(keys, fs[..n], e);
      if before.Some? then before else if fs[n].eventId == e then Some(KeyOf(fs[n])) else None
  }

  /** Event i of the batch was never seen before, neither in the table nor earlier in the batch. */
  predicate IsNew(keys: map<string, Key>, fs: seq<Fact>, i: nat)
    requires i < |fs|
  {
    fs[i].eventId !in keys && forall j :: 0 <= j < i ==> fs[j].eventId != fs[i].eventId
  }

  /** The batch names event i for the tenant, application and meter that own it. */
  predicate AgreesAt(keys: map<string, Key>, fs: seq<Fact>, i: nat)
    requires i < |fs|
  {
    var owner := Owner(keys, fs, fs[i].eventId);
    owner.Some? && SameTarget(owner.value, fs[i])
  }

  ghost predicate Agrees(keys: map<string, Key>, fs: seq<Fact>) {
    forall i :: 0 <= i < |fs| ==> AgreesAt(keys, fs, i)
  }

  /** The facts of the new events, in batch order. */
  function News(keys: map<string, Key>, fs: seq<Fact>): seq<Fact> {
    if fs == [] then []
    else News(keys, fs[..|fs| - 1]) + (if IsNew(keys, fs, |fs| - 1) then [fs[|fs| - 1]] else [])
  }

  lemma {:induction false} OwnerIsStored(keys: map<string, Key>, fs: seq<Fact>, e: string)
    requires e in keys
    ensures Owner(keys, fs, e) == Some(keys[e])
  {
    if fs != [] {
      OwnerIsStored(keys, fs[..|fs| - 1], e);
    }
  }

  lemma {:induction false} OwnerIsFirst(keys: map<string, Key>, fs: seq<Fact>, i: nat)
    requires i < |fs| && IsNew(keys, fs, i)
    ensures Owner(keys, fs, fs[i].eventId) == Some(KeyOf(fs[i]))
  {
    var n := |fs| - 1;
    if i < n {
      assert fs[..n][i] == fs[i] && IsNew(keys, fs[..n], i);
      OwnerIsFirst(keys, fs[..n], i);
    } else {
      OwnerIsAbsent(keys, fs[..n], fs[n].eventId);
    }
  }

  lemma {:induction false} OwnerIsAbsent(keys: map<string, Key>, fs: seq<Fact>, e: string)
    ensures Owner(keys, fs, e).None? <==> e !in keys && forall i :: 0 <= i < |fs| ==> fs[i].eventId != e
  {
    if fs != [] {
      var n := |fs| - 1;
      OwnerIsAbsent(keys, fs[..n], e);
      assert forall i :: 0 <= i < n ==> fs[..n][i] == fs[i];
    }
  }

  lemma NewIffUnowned(keys: map<string, Key>, fs: seq<Fact>, i: nat)
    requires i < |fs|
    ensures IsNew(keys, fs, i) <==> Owner(keys, fs[..i], fs[i].eventId).None?
  {
    OwnerIsAbsent(keys, fs[..i], fs[i].eventId);
    assert forall j :: 0 <= j < i ==> fs[..i][j] == fs[j];
  }

  lemma {:induction false} ProcessKeys(keys: map<string, Key>, fs: seq<Fact>)
    requires !Process(keys, fs).clashed
    ensures forall e :: Lookup(Process(keys, fs).keys, e) == Owner(keys, fs, e)
  {
    if fs != [] {
      ProcessKeys(keys, fs[..|fs| - 1]);
    }
  }

  lemma {:induction false} OwnerOfMember(keys: map<string, Key>, fs: seq<Fact>, i: nat)
    requires i < |fs|
    ensures Owner(keys, fs, fs[i].eventId).Some?
  {
    if i < |fs| - 1 {
      OwnerOfMember(keys, fs[..|fs| - 1], i);
    }
  }

  lemma AgreesSnoc(keys: map<string, Key>, fs: seq<Fact>)
    requires fs != []
    ensures Agrees(keys, fs) <==> Agrees(keys, fs[..|fs| - 1]) && AgreesAt(keys, fs, |fs| - 1)
  {
    var n := |fs| - 1;
    var pre := fs[..n];
    forall i | 0 <= i < n ensures AgreesAt(keys, fs, i) <==> AgreesAt(keys, pre, i) {
      OwnerOfMember(keys, pre, i);
      assert pre[i] == fs[i];
    }
  }

  /** The batch clashes exactly when some event is owned by another tenant, application or meter. */
  lemma {:induction false} ProcessClashes(keys: map<string, Key>, fs: seq<Fact>)
    ensures Process(keys, fs).clashed <==> !Agrees(keys, fs)
  {
    if fs != [] {
      var n := |fs| - 1;
      ProcessClashes(keys, fs[..n]);
      AgreesSnoc(keys, fs);
      if !Process(keys, fs[..n]).clashed {
        ProcessKeys(keys, fs[..n]);
        assert Lookup(Process(keys, fs[..n]).keys, fs[n].eventId) == Owner(keys, fs[..n], fs[n].eventId);
      }
    }
  }

  /** The answer for event i: the owner's fact id, called a duplicate unless the event is new. */
  predicate ResultAt(keys: map<string, Key>, fs: seq<Fact>, i: nat, r: RecordResult)
    requires i < |fs|
  {
    var owner := Owner(keys, fs, fs[i].eventId);
    owner.Some? && r == RecordResult(fs[i].eventId, owner.value.factId, !IsNew(keys, fs, i))
  }

  lemma ResultOfPrefix(keys: map<string, Key>, fs: seq<Fact>, i: nat, r: RecordResult)
    requires i < |fs| - 1 && ResultAt(keys, fs[..|fs| - 1], i, r)
    ensures ResultAt(keys, fs, i, r)
  {
    var pre := fs[..|fs| - 1];
    assert fs[i] == pre[i];
    assert IsNew(keys, fs, i) <==> IsNew(keys, pre, i);
  }

  /** Results stand in batch order, one for each event. */
  lemma {:induction false} ProcessResults(keys: map<string, Key>, fs: seq<Fact>)
    requires !Process(keys, fs).clashed
    ensures |Process(keys, fs).results| == |fs|
    ensures forall i :: 0 <= i < |fs| ==> ResultAt(keys, fs, i, Process(keys, fs).results[i])
  {
    if fs != [] {
      var n := |fs| - 1;
      ProcessResults(keys, fs[..n]);
      var rs := Process(keys, fs).results;
      assert rs[..n] == Process(keys, fs[..n]).results;
      forall i | 0 <= i < n ensures ResultAt(keys, fs, i, rs[i]) {
        assert rs[i] == rs[..n][i];
        ResultOfPrefix(keys, fs, i, rs[i]);
      }
      LastResult(keys, fs);
    }
  }

  lemma LastResult(keys: map<string, Key>, fs: seq<Fact>)
    requires fs != [] && !Process(keys, fs).clashed
    ensures Process(keys, fs).results != []
    ensures ResultAt(keys, fs, |fs| - 1, Process(keys, fs).results[|Process(keys, fs).results| - 1])
    ensures Process(keys, fs).inserted
         == Process(keys, fs[..|fs| - 1]).inserted + (if IsNew(keys, fs, |fs| - 1) then [fs[|fs| - 1]] else [])
  {
    var n := |fs| - 1;
    var p := Process(keys, fs[..n]);
    ProcessKeys(keys, fs[..n]);
    assert Lookup(p.keys, fs[n].eventId) == Owner(keys, fs[..n], fs[n].eventId);
    NewIffUnowned(keys, fs, n);
  }

  /** The inserted facts are those of the new events. */
  lemma {:induction false} ProcessInserts(keys: map<string, Key>, fs: seq<Fact>)
    requires !Process(keys, fs).clashed
    ensures Process(keys, fs).inserted == News(keys, fs)
  {
    if fs != [] {
      ProcessInserts(keys, fs[..|fs| - 1]);
      LastResult(keys, fs);
    }
  }

  /** A clash leaves the results of the events before it, which is what the caller gets beside the error. */
  lemma {:induction false} ClashKeepsPartialResults(keys: map<string, Key>, fs: seq<Fact>)
    requires Process(keys, fs).clashed
    ensures var k := |Process(keys, fs).results|;
      && k < |fs|
      && Agrees(keys, fs[..k]) && !AgreesAt(keys, fs[..k + 1], k)
      && Process(keys, fs).results == Process(keys, fs[..k]).results
  {
    hide Agrees, AgreesAt;
    var n := |fs| - 1;
    var pre := fs[..n];
    if Process(keys, pre).clashed {
      ClashKeepsPartialResults(keys, pre);
      var k := |Process(keys, pre).results|;
      assert pre[..k] == fs[..k] && pre[..k + 1] == fs[..k + 1];
    } else {
      ProcessResults(keys, pre);
      ProcessClashes(keys, pre);
      ProcessClashes(keys, fs);
      AgreesSnoc(keys, fs);
      assert fs[..n + 1] == fs;
    }
  }

  // ---- one batch, many batches --------------------------------------------------------------

  /** The same events recorded one batch each; a clash stops. */
  function RecordEach(keys: map<string, Key>, facts: seq<Fact>, fs: seq<Fact>): Option<(map<string, Key>, seq<Fact>)> {
    if fs == [] then Some((keys, facts))
    else
      var before := RecordEach(keys, facts, fs[..|fs| - 1]);
      if before.None? then None
      else
        var p := Process(before.value.0, [fs[|fs| - 1]]);
        if p.clashed then None else Some((p.keys, before.value.1 + p.inserted))
  }

  lemma ProcessOne(keys: map<string, Key>, f: Fact)
    ensures Process(keys, [f]) == Advance(Progress(keys, [], [], false), f)
  {
    assert [f][..0] == [];
  }

  /** A batch leaves the keys and facts that recording its events one by one would leave. */
  lemma {:induction false} BatchIsFoldOfSingles(keys: map<string, Key>, facts: seq<Fact>, fs: seq<Fact>)
    ensures var p := Process(keys, fs);
      RecordEach(keys, facts, fs) == if p.clashed then None else Some((p.keys, facts + p.inserted))
  {
    if fs == [] {
      assert facts + [] == facts;
    } else {
      var n := |fs| - 1;
      BatchIsFoldOfSingles(keys, facts, fs[..n]);
      var p := Process(keys, fs[..n]);
      AdvanceIsSingle(p, fs[n]);
      hide Advance;
      if !p.clashed {
        var one := Process(p.keys, [fs[n]]);
        assert facts + (p.inserted + one.inserted) == facts + p.inserted + one.inserted;
      }
    }
  }

  /** One event more does what the event on its own does to the keys so far. */
  lemma AdvanceIsSingle(p: Progress, f: Fact)
    ensures var one, all := Process(p.keys, [f]), Advance(p, f);
      !p.clashed ==> all.clashed == one.clashed && all.keys == one.keys && all.inserted == p.inserted + one.inserted
  {
    ProcessOne(p.keys, f);
  }

  /** Keys that other transactions add, away from those this batch uses, change nothing it does. */
  lemma {:induction false} ProcessGrows(keys: map<string, Key>, extra: map<string, Key>, fs: seq<Fact>)
    requires !Process(keys, fs).clashed
    requires extra.Keys !! Process(keys, fs).keys.Keys
    ensures Process(keys + extra, fs) == Process(keys, fs).(keys := Process(keys, fs).keys + extra)
  {
    if fs != [] {
      var n := |fs| - 1;
      var p, f := Process(keys, fs[..n]), fs[n];
      ProcessGrows(keys, extra, fs[..n]);
      if f.eventId !in p.keys {
        assert f.eventId in Process(keys, fs).keys;
        assert (p.keys + extra)[f.eventId := KeyOf(f)] == p.keys[f.eventId := KeyOf(f)] + extra;
      }
    }
  }

  /** Once every event of a batch is owned by its target, the batch inserts nothing and reports only duplicates. */
  lemma {:induction false} ProcessRepeats(keys: map<string, Key>, fs: seq<Fact>)
    requires forall i :: 0 <= i < |fs| ==> fs[i].eventId in keys && SameTarget(keys[fs[i].eventId], fs[i])
    ensures Process(keys, fs) == Progress(keys, [],
      seq(|fs|, i requires 0 <= i < |fs| => RecordResult(fs[i].eventId, keys[fs[i].eventId].factId, true)), false)
  {
    if fs != [] {
      ProcessRepeats(keys, fs[..|fs| - 1]);
    }
  }

  // ---- the outbox ---------------------------------------------------------------------------

  function ScopeOf(f: Fact): Scope { f.scope }

  /** The scopes of the inserted facts in the order of their first fact. */
  function Scopes(ins: seq<Fact>): seq<Scope> {
    if ins == [] then []
    else
      var before := Scopes(ins[..|ins| - 1]);
      var s := ins[|ins| - 1].scope;
      if s in before then before else before + [s]
  }

  lemma ScopesGrow(ins: seq<Fact>)
    requires ins != [] && Distinct(Scopes(ins[..|ins| - 1])) && Covers(ScopeOf, Scopes(ins[..|ins| - 1]), ins[..|ins| - 1])
    ensures Distinct(Scopes(ins)) && Covers(ScopeOf, Scopes(ins), ins)
  {
    hide Scopes, Distinct, Covers;
    var pre, last := ins[..|ins| - 1], ins[|ins| - 1];
    assert ins == pre + [last];
    ScopesNext(ins);
    NewScope(Scopes(pre), last.scope);
    NewCovered(Scopes(pre), Scopes(ins), pre, last);
  }

  lemma ScopesNext(ins: seq<Fact>)
    requires ins != []
    ensures var before, s := Scopes(ins[..|ins| - 1]), ins[|ins| - 1].scope;
      Scopes(ins) == if s in before then before else before + [s]
  {
  }

  lemma NewCovered(ss: seq<Scope>, more: seq<Scope>, fs: seq<Fact>, f: Fact)
    requires Covers(ScopeOf, ss, fs) && ss <= more && f.scope in more
    ensures Covers(ScopeOf, more, fs + [f])
  {
    forall x | x in fs + [f] ensures ScopeOf(x) in more {
      if x in fs {
        assert ScopeOf(x) in ss;
      }
    }
  }

  lemma NewScope(ss: seq<Scope>, s: Scope)
    requires Distinct(ss)
    ensures s !in ss ==> Distinct(ss + [s])
  {
  }

  lemma {:induction false} ScopesAreDistinct(ins: seq<Fact>)
    ensures Distinct(Scopes(ins))
    ensures Covers(ScopeOf, Scopes(ins), ins)
    ensures forall s :: s in Scopes(ins) ==> exists i :: 0 <= i < |ins| && ins[i].scope == s
  {
    if ins != [] {
      var n := |ins| - 1;
      ScopesAreDistinct(ins[..n]);
      ScopesGrow(ins);
      hide Distinct, Covers;
      forall s | s in Scopes(ins) ensures exists i :: 0 <= i < |ins| && ins[i].scope == s {
        ScopeComesFromFact(ins, ins[..n], s);
      }
    }
  }

  lemma ScopeComesFromFact(ins: seq<Fact>, pre: seq<Fact>, s: Scope)
    requires ins != [] && pre == ins[..|ins| - 1] && s in Scopes(ins)
    requires s in Scopes(pre) ==> exists i :: 0 <= i < |pre| && pre[i].scope == s
    ensures exists i :: 0 <= i < |ins| && ins[i].scope == s
  {
    if s in Scopes(pre) {
      var i :| 0 <= i < |pre| && pre[i].scope == s;
      assert ins[i].scope == s;
    } else {
      assert ins[|ins| - 1].scope == s;
    }
  }

  lemma ScopeHasFacts(ins: seq<Fact>, s: Scope)
    requires s in Scopes(ins)
    ensures Select(ScopeOf, s, ins) != []
  {
    ScopesAreDistinct(ins);
    SelectMembers(ScopeOf, s, ins);
    var i :| 0 <= i < |ins| && ins[i].scope == s;
    assert ScopeOf(ins[i]) == s && ins[i] in ins;
  }

  /** The usage.recorded row of scope s. */
  function ScopeRow(ins: seq<Fact>, s: Scope, at: int, actor: string): Row
    requires s in Scopes(ins)
  {
    ScopeHasFacts(ins, s);
    var values := Select(ScopeOf, s, ins);
    UsageRecorded(values[0].id, s, Map(Publish, values), at, actor)
  }

  /** The rows of the first scopes, in order. */
  function RowsFor(ins: seq<Fact>, ss: seq<Scope>, at: int, actor: string): (rows: seq<Row>)
    requires forall s :: s in ss ==> s in Scopes(ins)
    ensures |rows| == |ss|
  {
    if ss == [] then []
    else
      assert forall s :: s in ss[..|ss| - 1] ==> s in ss;
      RowsFor(ins, ss[..|ss| - 1], at, actor) + [ScopeRow(ins, ss[|ss| - 1], at, actor)]
  }

  /** All outbox rows of a batch that inserted `ins`. */
  function Rows(ins: seq<Fact>, at: int, actor: string): seq<Row> {
    RowsFor(ins, Scopes(ins), at, actor)
  }

  /** The published facts of a stretch of the outbox. */
  function Payloads(rows: seq<Row>): seq<Published> {
    if rows == [] then []
    else Payloads(rows[..|rows| - 1]) + PayloadOf(rows[|rows| - 1])
  }

  function PayloadOf(row: Row): seq<Published> {
    if row.UsageRecorded? then row.facts else []
  }

  lemma {:induction false} PayloadsAppend(a: seq<Row>, b: seq<Row>)
    ensures Payloads(a + b) == Payloads(a) + Payloads(b)
  {
    if b == [] {
      assert a + b == a;
    } else {
      var n := |b| - 1;
      hide PayloadOf;
      PayloadsAppend(a, b[..n]);
      assert (a + b)[..|a + b| - 1] == a + b[..n];
      assert (a + b)[|a + b| - 1] == b[n];
      assert Payloads(a) + Payloads(b[..n]) + PayloadOf(b[n]) == Payloads(a) + (Payloads(b[..n]) + PayloadOf(b[n]));
    }
  }

  lemma {:induction false} PayloadsOfRows(ins: seq<Fact>, ss: seq<Scope>, at: int, actor: string)
    requires forall s :: s in ss ==> s in Scopes(ins)
    ensures Payloads(RowsFor(ins, ss, at, actor)) == Map(Publish, Regroup(ScopeOf, ss, ins))
  {
    if ss != [] {
      var n := |ss| - 1;
      assert forall s :: s in ss[..n] ==> s in ss;
      assert ss == ss[..n] + [ss[n]];
      PayloadsOfRows(ins, ss[..n], at, actor);
      RegroupSnoc(ScopeOf, ss[..n], ss[n], ins);
      MapAppend(Publish, Regroup(ScopeOf, ss[..n], ins), Select(ScopeOf, ss[n], ins));
      var rows := RowsFor(ins, ss, at, actor);
      assert rows[..n] == RowsFor(ins, ss[..n], at, actor);
    }
  }

  /** The rows of a batch publish exactly its inserted facts, each once. */
  lemma RowsPublishInserted(ins: seq<Fact>, at: int, actor: string)
    ensures multiset(Payloads(Rows(ins, at, actor))) == multiset(Map(Publish, ins))
  {
    ScopesAreDistinct(ins);
    PayloadsOfRows(ins, Scopes(ins), at, actor);
    RegroupIsPermutation(Publish, ScopeOf, Scopes(ins), ins);
  }

  // ---- the store ----------------------------------------------------------------------------

  /** The committed effect of one ingestion transaction. */
  function Ingest(s: Store, fs: seq<Fact>, at: int, actor: string): Store {
    var p := Process(s.keys, fs);
    if p.clashed then s
    else Store(s.meters, p.keys, s.facts + p.inserted, s.outbox + Rows(p.inserted, at, actor))
  }

  /** Keys and facts correspond one to one, with equal ids, scope, meter and time. */
  ghost predicate OneToOne(keys: map<string, Key>, facts: seq<Fact>) {
    && (forall i :: 0 <= i < |facts| ==> facts[i].eventId in keys && keys[facts[i].eventId] == KeyOf(facts[i]))
    && (forall e :: e in keys ==> exists i :: 0 <= i < |facts| && facts[i].eventId == e)
    && (forall i, j :: 0 <= i < j < |facts| ==> facts[i].eventId != facts[j].eventId && facts[i].id != facts[j].id)
  }

  /** The usage.recorded rows publish the facts table, each fact exactly once. */
  ghost predicate OutboxMatches(s: Store) {
    multiset(Payloads(s.outbox)) == multiset(Map(Publish, s.facts))
  }

  /** The batch's ids are new and all different. */
  ghost predicate FreshIds(fs: seq<Fact>, facts: seq<Fact>) {
    && (forall i, j :: 0 <= i < j < |fs| ==> fs[i].id != fs[j].id)
    && (forall i, j :: 0 <= i < |fs| && 0 <= j < |facts| ==> fs[i].id != facts[j].id)
  }

  lemma {:induction false} InsertedFromBatch(keys: map<string, Key>, fs: seq<Fact>)
    ensures forall f :: f in Process(keys, fs).inserted ==> f in fs
  {
    if fs != [] {
      InsertedFromBatch(keys, fs[..|fs| - 1]);
    }
  }

  lemma {:induction false} ProcessKeepsOneToOne(keys: map<string, Key>, facts: seq<Fact>, fs: seq<Fact>)
    requires OneToOne(keys, facts) && FreshIds(fs, facts)
    ensures OneToOne(Process(keys, fs).keys, facts + Process(keys, fs).inserted)
  {
    if fs == [] {
      assert facts + [] == facts;
    } else {
      var n := |fs| - 1;
      var p, f := Process(keys, fs[..n]), fs[n];
      FreshPrefix(fs, facts);
      ProcessKeepsOneToOne(keys, facts, fs[..n]);
      InsertedFromBatch(keys, fs[..n]);
      LastIdIsFresh(facts, p.inserted, fs);
      hide OneToOne, FreshIds, Advance, ClaimOf;
      AdvanceKeepsOneToOne(p, facts, f);
    }
  }

  lemma AdvanceKeepsOneToOne(p: Progress, facts: seq<Fact>, f: Fact)
    requires OneToOne(p.keys, facts + p.inserted)
    requires forall i :: 0 <= i < |facts + p.inserted| ==> (facts + p.inserted)[i].id != f.id
    ensures OneToOne(Advance(p, f).keys, facts + Advance(p, f).inserted)
  {
    hide OneToOne;
    if !p.clashed && ClaimOf(p.keys, f) == Claimed {
      assert facts + (p.inserted + [f]) == facts + p.inserted + [f];
      AppendKeepsOneToOne(p.keys, facts + p.inserted, f);
    }
  }

  lemma FreshPrefix(fs: seq<Fact>, facts: seq<Fact>)
    requires fs != [] && FreshIds(fs, facts)
    ensures FreshIds(fs[..|fs| - 1], facts)
  {
  }

  lemma LastIdIsFresh(facts: seq<Fact>, ins: seq<Fact>, fs: seq<Fact>)
    requires fs != [] && FreshIds(fs, facts) && forall f :: f in ins ==> f in fs[..|fs| - 1]
    ensures forall i :: 0 <= i < |facts + ins| ==> (facts + ins)[i].id != fs[|fs| - 1].id
  {
    forall i | |facts| <= i < |facts + ins| ensures (facts + ins)[i].id != fs[|fs| - 1].id {
      assert (facts + ins)[i] in ins;
    }
  }

  lemma AppendKeepsOneToOne(keys: map<string, Key>, facts: seq<Fact>, f: Fact)
    requires OneToOne(keys, facts) && f.eventId !in keys
    requires forall i :: 0 <= i < |facts| ==> facts[i].id != f.id
    ensures OneToOne(keys[f.eventId := KeyOf(f)], facts + [f])
  {
    var all := facts + [f];
    var grown := keys[f.eventId := KeyOf(f)];
    forall e | e in grown ensures exists i :: 0 <= i < |all| && all[i].eventId == e {
      if e == f.eventId {
        assert all[|facts|].eventId == e;
      } else {
        var i :| 0 <= i < |facts| && facts[i].eventId == e;
        assert all[i].eventId == e;
      }
    }
  }

  /** An ingestion keeps keys and facts in one-to-one correspondence and the outbox equal to the ledger. */
  lemma IngestKeepsLedger(s: Store, fs: seq<Fact>, at: int, actor: string)
    requires OneToOne(s.keys, s.facts) && OutboxMatches(s) && FreshIds(fs, s.facts)
    ensures OneToOne(Ingest(s, fs, at, actor).keys, Ingest(s, fs, at, actor).facts)
    ensures OutboxMatches(Ingest(s, fs, at, actor))
  {
    var p := Process(s.keys, fs);
    ProcessKeepsOneToOne(s.keys, s.facts, fs);
    RowsPublishInserted(p.inserted, at, actor);
    PayloadsAppend(s.outbox, Rows(p.inserted, at, actor));
    MapAppend(Publish, s.facts, p.inserted);
  }

  function EventOf(f: Fact): string { f.eventId }

  /** The facts of event e. */
  function EventFacts(facts: seq<Fact>, e: string): seq<Fact> {
    Select(EventOf, e, facts)
  }

  /** No event has two facts, and an event has a fact exactly when it has a key, which it matches. */
  lemma OneFactPerEvent(keys: map<string, Key>, facts: seq<Fact>, e: string)
    requires OneToOne(keys, facts)
    ensures |EventFacts(facts, e)| == if e in keys then 1 else 0
    ensures e in keys ==> KeyOf(EventFacts(facts, e)[0]) == keys[e]
  {
    if e in keys {
      var i :| 0 <= i < |facts| && facts[i].eventId == e;
      SingleEventFact(facts, i);
    } else {
      NoEventFacts(facts, e);
    }
  }

  lemma SingleEventFact(facts: seq<Fact>, i: nat)
    requires i < |facts|
    requires forall j :: 0 <= j < |facts| && j != i ==> facts[j].eventId != facts[i].eventId
    ensures EventFacts(facts, facts[i].eventId) == [facts[i]]
  {
    var e := facts[i].eventId;
    var tail := [facts[i]] + facts[i + 1..];
    assert facts == facts[..i] + tail;
    SelectAppend(EventOf, e, facts[..i], tail);
    NoEventFacts(facts[..i], e);
    NoEventFacts(facts[i + 1..], e);
    assert tail[1..] == facts[i + 1..];
  }

  lemma {:induction false} NoEventFacts(facts: seq<Fact>, e: string)
    requires forall i :: 0 <= i < |facts| ==> facts[i].eventId != e
    ensures EventFacts(facts, e) == []
  {
    if facts != [] {
      NoEventFacts(facts[1..], e);
    }
  }
}
