/** The invariant of the committed tables, and the three kinds of commit that keep it. */
module Soundness {
  import opened Ledger
  import opened Ingestion
  import opened Validation
  import opened Meters

  /** The fact is normalised and some meter admits it. */
  ghost predicate Admitted(ms: seq<Meter>, f: Fact) {
    Normalised(f) && exists i :: 0 <= i < |ms| && Fits(f, ms[i])
  }

  ghost predicate AllAdmitted(ms: seq<Meter>, fs: seq<Fact>) {
    forall i :: 0 <= i < |fs| ==> Admitted(ms, fs[i])
  }

  ghost predicate Sound(s: Store) {
    && OneToOne(s.keys, s.facts)
    && OutboxMatches(s)
    && LogsHold(s)
    && AllAdmitted(s.meters, s.facts)
  }

  lemma SoundMetersAreUnique(s: Store)
    requires Sound(s)
    ensures UniqueMeters(s.meters)
  {
  }

  /** Meters are never deleted and never change code or keys. */
  ghost predicate MetersPersist(before: seq<Meter>, after: seq<Meter>) {
    |before| <= |after| && forall i :: 0 <= i < |before| ==> SameIdentity(before[i], after[i])
  }

  /** What every commit does to the tables: rows are added, and only the mutable part of a meter is rewritten. */
  ghost predicate Extends(s: Store, t: Store) {
    && MetersPersist(s.meters, t.meters)
    && (forall e :: e in s.keys ==> e in t.keys && t.keys[e] == s.keys[e])
    && s.facts <= t.facts
    && s.outbox <= t.outbox
  }

  lemma ExtendsIsReflexive(s: Store)
    ensures Extends(s, s)
  {
  }

  lemma ExtendsIsTransitive(s: Store, t: Store, u: Store)
    requires Extends(s, t) && Extends(t, u)
    ensures Extends(s, u)
  {
  }

  lemma AdmittedPersists(before: seq<Meter>, after: seq<Meter>, f: Fact)
    requires MetersPersist(before, after) && Admitted(before, f)
    ensures Admitted(after, f)
  {
    var i :| 0 <= i < |before| && Fits(f, before[i]);
    assert SameIdentity(before[i], after[i]);
    assert Fits(f, after[i]);
  }

  lemma RowsAreUsage(ins: seq<Fact>, ss: seq<Scope>, at: int, actor: string)
    requires forall s :: s in ss ==> s in Scopes(ins)
    ensures forall i :: 0 <= i < |ss| ==> RowsFor(ins, ss, at, actor)[i].UsageRecorded?
  {
    if ss != [] {
      assert forall s :: s in ss[..|ss| - 1] ==> s in ss;
      RowsAreUsage(ins, ss[..|ss| - 1], at, actor);
    }
  }

  lemma {:induction false} ProcessKeepsKeys(keys: map<string, Key>, fs: seq<Fact>)
    ensures forall e :: e in keys ==> e in Process(keys, fs).keys && Process(keys, fs).keys[e] == keys[e]
  {
    if fs != [] {
      ProcessKeepsKeys(keys, fs[..|fs| - 1]);
    }
  }

  lemma InsertedAreAdmitted(ms: seq<Meter>, keys: map<string, Key>, facts: seq<Fact>, fs: seq<Fact>)
    requires AllAdmitted(ms, facts) && AllAdmitted(ms, fs)
    ensures AllAdmitted(ms, facts + Process(keys, fs).inserted)
  {
    InsertedFromBatch(keys, fs);
    var ins := Process(keys, fs).inserted;
    forall i | 0 <= i < |ins| ensures Admitted(ms, ins[i]) {
      assert ins[i] in fs;
    }
  }

  lemma IngestKeepsSound(s: Store, fs: seq<Fact>, at: int, actor: string)
    requires Sound(s) && FreshIds(fs, s.facts) && AllAdmitted(s.meters, fs)
    ensures Sound(Ingest(s, fs, at, actor)) && Extends(s, Ingest(s, fs, at, actor))
  {
    var t, p := Ingest(s, fs, at, actor), Process(s.keys, fs);
    if !p.clashed {
      IngestKeepsLedger(s, fs, at, actor);
      RowsAreUsage(p.inserted, Scopes(p.inserted), at, actor);
      UsageKeepsLogs(s, t, Rows(p.inserted, at, actor));
      InsertedAreAdmitted(s.meters, s.keys, s.facts, fs);
      ProcessKeepsKeys(s.keys, fs);
    }
  }

  lemma MeterCommitKeepsSound(s: Store, t: Store, row: Row)
    requires Sound(s) && LogsHold(t) && MetersPersist(s.meters, t.meters)
    requires row.MeterChanged? && t == s.(meters := t.meters, outbox := s.outbox + [row])
    ensures Sound(t) && Extends(s, t)
  {
    PayloadsAppend(s.outbox, [row]);
    assert [row][..0] == [];
    forall i | 0 <= i < |t.facts| ensures Admitted(t.meters, t.facts[i]) {
      AdmittedPersists(s.meters, t.meters, s.facts[i]);
    }
  }

  lemma CreateKeepsSound(s: Store, m: Meter, at: int, actor: string)
    requires Sound(s) && Unused(s.meters, m) && m.audit.version == 1
    ensures Sound(CommitCreate(s, m, at, actor)) && Extends(s, CommitCreate(s, m, at, actor))
  {
    CreateKeepsLogs(s, m, at, actor);
    MeterCommitKeepsSound(s, CommitCreate(s, m, at, actor), MeterChanged(m, Created, at, actor));
  }

  /** A commit of the compare-and-set on row k with a value built from any read of that meter. */
  lemma UpdateKeepsSound(s: Store, v: Meter, k: nat, at: int, actor: string)
    requires Sound(s) && k < |s.meters| && SameIdentity(v, s.meters[k])
    requires v == Rewrite(s.meters[k], v)
    ensures var t := CommitUpdate(s, v, s.meters[k].audit.version, at, actor);
      Sound(t) && Extends(s, t) && t.meters == s.meters[k := v]
  {
    UpdateKeepsLogs(s, v, k, at, actor);
    MeterCommitKeepsSound(s, CommitUpdate(s, v, s.meters[k].audit.version, at, actor),
                          MeterChanged(v, Updated, at, actor));
  }
}
