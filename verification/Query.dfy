/**
 * The aggregate query: filter, group by window and dimensions, aggregate, order, page. `text` is how the
 * server renders stored dimensions, which is what it orders by; different dimensions render differently.
 */
module Query {
  import opened Ledger
  import opened Calendar
  import opened Order
  import opened Partition
  import opened Meters

  // ---- the denotation -----------------------------------------------------------------------

  type Rendering = Dimensions -> string

  ghost predicate Injective(text: Rendering) {
    forall a, b :: text(a) == text(b) ==> a == b
  }

  /** The WHERE clause. */
  datatype Filter = Filter(scope: Scope, meter: string, start: int, end: int, dims: map<string, string>)

  /** dimensions_json @> filter: JSON null contains nothing; an empty filter is left out of the clause. */
  predicate Contains(d: Dimensions, filter: map<string, string>) {
    filter == map[] || (d.Object? && forall k :: k in filter ==> k in d.entries && d.entries[k] == filter[k])
  }

  predicate Passes(q: Filter, f: Fact) {
    f.scope == q.scope && f.meter == q.meter && q.start <= f.occurredAt < q.end && Contains(f.dims, q.dims)
  }

  function Where(q: Filter): Fact -> bool { f => Passes(q, f) }

  /** The facts a query ranges over. */
  function Matching(q: Filter, facts: seq<Fact>): seq<Fact> {
    Select(Where(q), true, facts)
  }

  datatype GroupKey = GroupKey(window: int, dims: Dimensions)

  function KeyOfFact(g: Granularity, f: Fact): GroupKey { GroupKey(Bucket(g, f.occurredAt), f.dims) }

  function GroupBy(g: Granularity): Fact -> GroupKey { f => KeyOfFact(g, f) }

  /** ORDER BY window_start, dimensions_json */
  function Before(text: Rendering): (GroupKey, GroupKey) -> bool {
    (a: GroupKey, b: GroupKey) => a.window < b.window || (a.window == b.window && Less(text(a.dims), text(b.dims)))
  }

  /** The groups in order. */
  function Keys(text: Rendering, g: Granularity, fs: seq<Fact>): seq<GroupKey> {
    if fs == [] then [] else Insert(Before(text), KeyOfFact(g, fs[|fs| - 1]), Keys(text, g, fs[..|fs| - 1]))
  }

  function Quantity(f: Fact): int { f.quantity }

  function One(f: Fact): int { 1 }

  function MaxQuantity(fs: seq<Fact>): int
    requires fs != []
  {
    if |fs| == 1 then fs[0].quantity
    else
      var rest := MaxQuantity(fs[1..]);
      if fs[0].quantity > rest then fs[0].quantity else rest
  }

  /** ORDER BY occurred_at DESC, id DESC */
  predicate Newer(f: Fact, g: Fact) {
    f.occurredAt > g.occurredAt || (f.occurredAt == g.occurredAt && f.id > g.id)
  }

  function Newest(fs: seq<Fact>): Fact
    requires fs != []
  {
    if |fs| == 1 then fs[0]
    else
      var rest := Newest(fs[1..]);
      if Newer(fs[0], rest) then fs[0] else rest
  }

  /** The aggregate of a group; the query has no empty group. */
  function Aggregate(agg: Aggregation, fs: seq<Fact>): int {
    if fs == [] then 0
    else
      match agg
      case Sum => Total(Quantity, fs)
      case Count => Total(One, fs)
      case Max => MaxQuantity(fs)
      case Last => Newest(fs).quantity
  }

  datatype Point = Point(window: int, dims: Dimensions, quantity: int)

  function PointAt(g: Granularity, agg: Aggregation, fs: seq<Fact>): GroupKey -> Point {
    (k: GroupKey) => Point(k.window, k.dims, Aggregate(agg, Select(GroupBy(g), k, fs)))
  }

  /** All rows of the grouped query, in order. */
  function Points(text: Rendering, g: Granularity, agg: Aggregation, fs: seq<Fact>): seq<Point> {
    Map(PointAt(g, agg, fs), Keys(text, g, fs))
  }

  function PointQuantity(p: Point): int { p.quantity }

  // ---- order --------------------------------------------------------------------------------

  lemma BeforeIsStrictTotal(text: Rendering)
    requires Injective(text)
    ensures StrictTotal(Before(text))
  {
    LessIsStrictTotal();
    var less := Before(text);
    forall a, b, c | less(a, b) && less(b, c) ensures less(a, c) {
      if a.window == b.window == c.window {
        LessIsTransitive(text(a.dims), text(b.dims), text(c.dims));
      }
    }
    forall a, b ensures less(a, b) || a == b || less(b, a) {
      LessIsConnected(text(a.dims), text(b.dims));
    }
    forall a ensures !less(a, a) {
      LessIsIrreflexive(text(a.dims));
    }
  }

  /** The groups stand in strict (window, dimensions) order, and a group is listed exactly when it has a fact. */
  lemma {:induction false} KeysAreGroups(text: Rendering, g: Granularity, fs: seq<Fact>)
    requires Injective(text)
    ensures Sorted(Before(text), Keys(text, g, fs))
    ensures forall k :: k in Keys(text, g, fs) ==> exists f :: f in fs && KeyOfFact(g, f) == k
    ensures forall f :: f in fs ==> KeyOfFact(g, f) in Keys(text, g, fs)
  {
    hide Injective, Bucket, StrictTotal;
    if fs != [] {
      var n := |fs| - 1;
      var pre, k := Keys(text, g, fs[..n]), KeyOfFact(g, fs[n]);
      KeysAreGroups(text, g, fs[..n]);
      BeforeIsStrictTotal(text);
      InsertKeepsSorted(Before(text), k, pre);
      InsertMembers(Before(text), k, pre);
      forall x | x in Keys(text, g, fs) ensures exists f :: f in fs && KeyOfFact(g, f) == x {
        if x in pre {
          var f :| f in fs[..n] && KeyOfFact(g, f) == x;
          assert f in fs;
        } else {
          assert fs[n] in fs;
        }
      }
      forall f | f in fs ensures KeyOfFact(g, f) in Keys(text, g, fs) {
        assert f in fs[..n] || f == fs[n];
      }
    }
  }

  lemma KeysPartition(text: Rendering, g: Granularity, fs: seq<Fact>)
    requires Injective(text)
    ensures Distinct(Keys(text, g, fs)) && Covers(GroupBy(g), Keys(text, g, fs), fs)
  {
    hide Injective, Bucket, StrictTotal, Sorted, Before, Keys;
    KeysAreGroups(text, g, fs);
    BeforeIsStrictTotal(text);
    SortedIsDistinct(Before(text), Keys(text, g, fs));
  }

  lemma GroupIsNonEmpty(text: Rendering, g: Granularity, fs: seq<Fact>, k: GroupKey)
    requires Injective(text) && k in Keys(text, g, fs)
    ensures Select(GroupBy(g), k, fs) != []
  {
    hide Injective, Bucket, Before, Keys, Sorted;
    KeysAreGroups(text, g, fs);
    SelectMembers(GroupBy(g), k, fs);
    var f :| f in fs && KeyOfFact(g, f) == k;
    assert GroupBy(g)(f) == k;
  }

  // ---- conservation -------------------------------------------------------------------------

  function Weight(agg: Aggregation): Fact -> int {
    if agg.Count? then One else Quantity
  }

  /** Sums and counts add up over any list of groups. */
  lemma {:induction false} TotalOfPoints(g: Granularity, agg: Aggregation, fs: seq<Fact>, ks: seq<GroupKey>)
    requires agg.Sum? || agg.Count?
    ensures Total(PointQuantity, Map(PointAt(g, agg, fs), ks)) == Total(Weight(agg), Regroup(GroupBy(g), ks, fs))
  {
    hide Bucket;
    if ks != [] {
      var ps, group := Map(PointAt(g, agg, fs), ks), Select(GroupBy(g), ks[0], fs);
      assert ps[1..] == Map(PointAt(g, agg, fs), ks[1..]);
      TotalOfPoints(g, agg, fs, ks[1..]);
      TotalAppend(Weight(agg), group, Regroup(GroupBy(g), ks[1..], fs));
      assert ps[0].quantity == Total(Weight(agg), group);
    }
  }

  lemma {:induction false} TotalOneIsLength(fs: seq<Fact>)
    ensures Total(One, fs) == |fs|
  {
    if fs != [] { TotalOneIsLength(fs[1..]); }
  }

  /** The total over all points of a sum or count meter is the sum or count of the matching facts, at every granularity. */
  lemma QuantityIsConserved(text: Rendering, g: Granularity, agg: Aggregation, fs: seq<Fact>)
    requires Injective(text)
    ensures agg.Sum? ==> Total(PointQuantity, Points(text, g, agg, fs)) == Total(Quantity, fs)
    ensures agg.Count? ==> Total(PointQuantity, Points(text, g, agg, fs)) == |fs|
  {
    hide Injective, Keys, Distinct, Covers;
    if agg.Sum? || agg.Count? {
      KeysPartition(text, g, fs);
      TotalOfPoints(g, agg, fs, Keys(text, g, fs));
      TotalRegroup(GroupBy(g), Keys(text, g, fs), Weight(agg), fs);
      TotalOneIsLength(fs);
    }
  }

  // ---- noninterference ----------------------------------------------------------------------

  function InTarget(scope: Scope, meter: string): Fact -> bool { (f: Fact) => f.scope == scope && f.meter == meter }

  /** Only facts of the query's tenant, application and meter can contribute. */
  lemma OnlyTargetContributes(q: Filter, facts: seq<Fact>)
    ensures Matching(q, Select(InTarget(q.scope, q.meter), true, facts)) == Matching(q, facts)
    ensures forall f :: f in Matching(q, facts) ==> f in facts && Passes(q, f)
  {
    hide Passes;
    PassesNeedsTarget(q);
    SelectWithin(Where(q), true, InTarget(q.scope, q.meter), true, facts);
    SelectMembers(Where(q), true, facts);
  }

  lemma PassesNeedsTarget(q: Filter)
    ensures forall f :: Passes(q, f) ==> InTarget(q.scope, q.meter)(f)
  {
  }

  // ---- what a filter and an aggregate mean --------------------------------------------------

  /**
   * What the WHERE clause lets through: the facts of the tenant, application and meter, from start up to but not at end,
   * and, if dimensions are asked for, only those that carry each of them with its value.
   */
  lemma MatchingExactly(q: Filter, facts: seq<Fact>, f: Fact)
    ensures f in Matching(q, facts) <==>
      && f in facts && f.scope.tenant == q.scope.tenant && f.scope.app == q.scope.app && f.meter == q.meter
      && q.start <= f.occurredAt && f.occurredAt < q.end
      && (q.dims != map[] ==> f.dims != Null && q.dims.Items <= Entries(f.dims).Items)
  {
    SelectMembers(Where(q), true, facts);
    ContainsItems(f.dims, q.dims);
  }

  lemma ContainsItems(d: Dimensions, filter: map<string, string>)
    ensures Contains(d, filter) <==> (filter != map[] ==> d != Null && filter.Items <= Entries(d).Items)
  {
    if d.Object? {
      if filter.Items <= d.entries.Items {
        forall k | k in filter ensures k in d.entries && d.entries[k] == filter[k] {
          assert (k, filter[k]) in filter.Items;
        }
      }
    }
  }

  function SumOf(fs: seq<Fact>): int { if fs == [] then 0 else fs[0].quantity + SumOf(fs[1..]) }

  /** A value is the named aggregate of the quantities of a group. */
  ghost predicate Means(name: string, fs: seq<Fact>, value: int) {
    && (name == "sum" ==> value == SumOf(fs))
    && (name == "count" ==> value == |fs|)
    && (name == "max" ==> (forall f :: f in fs ==> f.quantity <= value) && exists f :: f in fs && f.quantity == value)
    && (name == "last" ==> exists f :: IsLatest(f, fs) && f.quantity == value)
  }

  /** No fact of the group is later, and none of the same time has a greater id. */
  ghost predicate IsLatest(f: Fact, fs: seq<Fact>) {
    f in fs && forall g :: g in fs ==> g.occurredAt < f.occurredAt || (g.occurredAt == f.occurredAt && g.id <= f.id)
  }

  lemma {:induction false} TotalIsSum(fs: seq<Fact>)
    ensures Total(Quantity, fs) == SumOf(fs)
  {
    if fs != [] { TotalIsSum(fs[1..]); }
  }

  lemma {:induction false} MaxIsGreatest(fs: seq<Fact>)
    requires fs != []
    ensures forall f :: f in fs ==> f.quantity <= MaxQuantity(fs)
    ensures exists f :: f in fs && f.quantity == MaxQuantity(fs)
  {
    assert fs[0] in fs;
    if |fs| > 1 {
      MaxIsGreatest(fs[1..]);
      assert fs == [fs[0]] + fs[1..];
      var f :| f in fs[1..] && f.quantity == MaxQuantity(fs[1..]);
      assert f in fs;
    }
  }

  lemma {:induction false} NewestIsLatest(fs: seq<Fact>)
    requires fs != []
    ensures IsLatest(Newest(fs), fs)
  {
    assert fs[0] in fs;
    if |fs| > 1 {
      NewestIsLatest(fs[1..]);
      assert fs == [fs[0]] + fs[1..];
    }
  }

  /** The aggregate of a group is what its name says. */
  lemma AggregateMeans(agg: Aggregation, fs: seq<Fact>)
    requires fs != []
    ensures Means(AggregationName(agg), fs, Aggregate(agg, fs))
  {
    match agg
    case Sum => TotalIsSum(fs);
    case Count => TotalOneIsLength(fs);
    case Max => MaxIsGreatest(fs);
    case Last => NewestIsLatest(fs);
  }

  /**
   * Each point of a query carries the named aggregate of exactly the facts with its dimensions that lie in its window:
   * from its start up to but not at the start of the next one.
   */
  lemma PointMeans(text: Rendering, g: Granularity, agg: Aggregation, fs: seq<Fact>, p: Point) returns (group: seq<Fact>)
    requires Injective(text) && p in Points(text, g, agg, fs)
    ensures group != [] && Means(AggregationName(agg), group, p.quantity)
    ensures forall f :: f in group <==>
      f in fs && f.dims == p.dims && p.window <= f.occurredAt && f.occurredAt < NextWindow(g, p.window, Fixed(SHANGHAI))
  {
    hide Injective, Bucket, Aggregate, Keys, NextWindow, Means;
    var i :| 0 <= i < |Points(text, g, agg, fs)| && Points(text, g, agg, fs)[i] == p;
    var k := Keys(text, g, fs)[i];
    assert p == PointAt(g, agg, fs)(k);
    group := Select(GroupBy(g), k, fs);
    GroupIsNonEmpty(text, g, fs, k);
    AggregateMeans(agg, group);
    SelectMembers(GroupBy(g), k, fs);
    var first := group[0];
    assert first in group;
    assert GroupBy(g)(first) == KeyOfFact(g, first);
    WindowsTileTime(g, first.occurredAt);
    assert forall f :: GroupBy(g)(f) == KeyOfFact(g, f);
  }
}
