/** The `last` aggregate over a group of facts, in both SQL dialects. */
module LastAggregate {
  import opened Ledger
  import opened Decimal
  import opened Dialects
  import opened Partition
  import opened Query

  function InsertNewest(f: Fact, s: seq<Fact>): seq<Fact> {
    if s == [] then [f]
    else if Newer(f, s[0]) then [f] + s
    else [s[0]] + InsertNewest(f, s[1..])
  }

  /** The group in ORDER BY occurred_at DESC, id DESC order. */
  function NewestFirst(fs: seq<Fact>): seq<Fact> {
    if fs == [] then [] else InsertNewest(fs[0], NewestFirst(fs[1..]))
  }

  ghost predicate Descending(s: seq<Fact>) {
    forall i, j :: 0 <= i < j < |s| ==> !Newer(s[j], s[i])
  }

  lemma {:induction false} InsertAddsOne(f: Fact, s: seq<Fact>)
    ensures multiset(InsertNewest(f, s)) == multiset(s) + multiset{f}
  {
    hide Newer;
    if s != [] {
      assert s == [s[0]] + s[1..];
      if Newer(f, s[0]) {
        assert InsertNewest(f, s) == [f] + s;
      } else {
        InsertAddsOne(f, s[1..]);
        assert InsertNewest(f, s) == [s[0]] + InsertNewest(f, s[1..]);
      }
    }
  }

  lemma {:induction false} InsertMembers(f: Fact, s: seq<Fact>)
    ensures forall g :: g in InsertNewest(f, s) ==> g == f || g in s
  {
    hide Newer;
    if s != [] {
      InsertMembers(f, s[1..]);
      assert s == [s[0]] + s[1..];
    }
  }

  lemma {:induction false} InsertKeepsDescending(f: Fact, s: seq<Fact>)
    requires Descending(s)
    ensures Descending(InsertNewest(f, s))
  {
    if s != [] {
      if Newer(f, s[0]) {
        assert forall j :: 0 < j < |s| ==> !Newer(s[j], s[0]);
      } else {
        InsertKeepsDescending(f, s[1..]);
        InsertMembers(f, s[1..]);
        HeadStaysFirst(s[0], s[1..], InsertNewest(f, s[1..]), f);
      }
    }
  }

  lemma HeadStaysFirst(head: Fact, before: seq<Fact>, rest: seq<Fact>, f: Fact)
    requires Descending([head] + before) && Descending(rest) && !Newer(f, head)
    requires forall g :: g in rest ==> g == f || g in before
    ensures Descending([head] + rest)
  {
    var all := [head] + before;
    forall j | 0 <= j < |rest| ensures !Newer(rest[j], head) {
      if rest[j] != f {
        assert rest[j] in before;
        var i :| 0 <= i < |before| && before[i] == rest[j];
        assert all[i + 1] == rest[j] && all[0] == head;
      }
    }
  }

  lemma {:induction false} NewestFirstOrders(fs: seq<Fact>)
    ensures Descending(NewestFirst(fs)) && multiset(NewestFirst(fs)) == multiset(fs)
  {
    hide Newer, Descending;
    if fs == [] {
      EmptyDescends();
    } else {
      NewestFirstOrders(fs[1..]);
      InsertKeepsDescending(fs[0], NewestFirst(fs[1..]));
      InsertAddsOne(fs[0], NewestFirst(fs[1..]));
      assert fs == [fs[0]] + fs[1..];
    }
  }

  lemma EmptyDescends()
    ensures Descending([])
  {
  }

  lemma {:induction false} NewestComesFirst(fs: seq<Fact>)
    requires fs != []
    ensures NewestFirst(fs) != [] && NewestFirst(fs)[0] == Newest(fs)
  {
    hide Newer;
    if |fs| > 1 {
      NewestComesFirst(fs[1..]);
    } else {
      assert fs[1..] == [];
    }
  }

  /** For every group of 64-bit quantities both dialects return the newest quantity, from 20 characters on. */
  lemma LastIsDialectFree(fs: seq<Fact>, limit: nat)
    requires fs != [] && limit >= 20
    requires forall f :: f in fs ==> MIN_INT64 <= f.quantity <= MAX_INT64
    ensures var qs := Map(Quantity, NewestFirst(fs));
      qs != [] && MysqlLast(qs, limit) == PostgresLast(qs) == Aggregate(Last, fs)
  {
    hide MysqlLast;
    NewestFirstOrders(fs);
    NewestComesFirst(fs);
    var all := NewestFirst(fs);
    assert all[0] in multiset(all) && all[0] in fs;
    assert Map(Quantity, all)[0] == Quantity(all[0]) == all[0].quantity;
    LastAgreesFromTwenty(Map(Quantity, all), limit);
  }
}
