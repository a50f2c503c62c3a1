/** Laws between granularities: a coarse point is determined by the finer points inside it. */
module Rollup {
  import opened Ledger
  import opened Calendar
  import opened Order
  import opened Partition
  import opened Query

  ghost predicate DistinctIds(fs: seq<Fact>) {
    forall i, j :: 0 <= i < j < |fs| ==> fs[i].id != fs[j].id
  }

  /** The coarse group a finer group lies in. */
  function Coarser(c: Granularity): GroupKey -> GroupKey {
    (k: GroupKey) => GroupKey(Bucket(c, k.window), k.dims)
  }

  /** The coarse group a finer point lies in. */
  function GroupOfPoint(c: Granularity): Point -> GroupKey {
    (p: Point) => GroupKey(Bucket(c, p.window), p.dims)
  }

  /** The points of the finer query that lie in coarse group k, in order. */
  function FinerPoints(c: Granularity, k: GroupKey, ps: seq<Point>): seq<Point> {
    Select(GroupOfPoint(c), k, ps)
  }

  function MaxPoint(ps: seq<Point>): int
    requires ps != []
  {
    if |ps| == 1 then ps[0].quantity
    else
      var rest := MaxPoint(ps[1..]);
      if ps[0].quantity > rest then ps[0].quantity else rest
  }

  /** A coarse quantity from finer points alone: sum of sums or counts, max of maxes, the last window's last. */
  function Combine(agg: Aggregation, ps: seq<Point>): int {
    if ps == [] then 0
    else
      match agg
      case Sum => Total(PointQuantity, ps)
      case Count => Total(PointQuantity, ps)
      case Max => MaxPoint(ps)
      case Last => ps[|ps| - 1].quantity
  }

  // ---- groups inside a group ----------------------------------------------------------------

  lemma FactsNest(fine: Granularity, coarse: Granularity)
    requires Refines(fine, coarse)
    ensures forall f :: Coarser(coarse)(GroupBy(fine)(f)) == GroupBy(coarse)(f)
  {
    hide Bucket;
    forall f: Fact ensures Coarser(coarse)(GroupBy(fine)(f)) == GroupBy(coarse)(f) {
      WindowsNest(fine, coarse, f.occurredAt);
    }
  }

  /** The finer groups inside coarse group k, and the facts of k. */
  function Inside(text: Rendering, fine: Granularity, coarse: Granularity, fs: seq<Fact>, k: GroupKey): seq<GroupKey> {
    Select(Coarser(coarse), k, Keys(text, fine, fs))
  }

  function Facts(coarse: Granularity, fs: seq<Fact>, k: GroupKey): seq<Fact> {
    Select(GroupBy(coarse), k, fs)
  }

  lemma InsideGroupIsWhole(fine: Granularity, coarse: Granularity, fs: seq<Fact>, k: GroupKey, j: GroupKey)
    requires Refines(fine, coarse) && Coarser(coarse)(j) == k
    ensures Select(GroupBy(fine), j, Facts(coarse, fs, k)) == Select(GroupBy(fine), j, fs)
  {
    hide Bucket, Select;
    FactsNest(fine, coarse);
    SelectWithin(GroupBy(fine), j, GroupBy(coarse), k, fs);
  }

  lemma InsideMembers(text: Rendering, fine: Granularity, coarse: Granularity, fs: seq<Fact>, k: GroupKey)
    requires Injective(text) && Refines(fine, coarse)
    ensures forall j :: j in Inside(text, fine, coarse, fs, k) ==>
      j in Keys(text, fine, fs) && Coarser(coarse)(j) == k
    ensures forall f :: f in Facts(coarse, fs, k) ==>
      f in fs && GroupBy(fine)(f) in Inside(text, fine, coarse, fs, k)
  {
    hide Bucket, Keys, Injective, Select, Sorted;
    FactsNest(fine, coarse);
    SelectMembers(Coarser(coarse), k, Keys(text, fine, fs));
    SelectMembers(GroupBy(coarse), k, fs);
    KeysAreGroups(text, fine, fs);
    forall f | f in Facts(coarse, fs, k) ensures GroupBy(fine)(f) in Inside(text, fine, coarse, fs, k) {
      var j := GroupBy(fine)(f);
      assert j == KeyOfFact(fine, f);
      assert Coarser(coarse)(j) == k;
    }
  }

  lemma InsideIsSorted(text: Rendering, fine: Granularity, coarse: Granularity, fs: seq<Fact>, k: GroupKey)
    requires Injective(text)
    ensures Sorted(Before(text), Inside(text, fine, coarse, fs, k)) && Distinct(Inside(text, fine, coarse, fs, k))
  {
    hide Bucket, Keys, Injective, Sorted, Distinct, Before;
    KeysAreGroups(text, fine, fs);
    SelectIsSorted(Before(text), Coarser(coarse), k, Keys(text, fine, fs));
    BeforeIsStrictTotal(text);
    SortedIsDistinct(Before(text), Inside(text, fine, coarse, fs, k));
  }

  lemma FinerPointsAreInside(text: Rendering, fine: Granularity, coarse: Granularity, agg: Aggregation, fs: seq<Fact>,
                             k: GroupKey)
    ensures FinerPoints(coarse, k, Points(text, fine, agg, fs))
         == Map(PointAt(fine, agg, fs), Inside(text, fine, coarse, fs, k))
  {
    hide Bucket, Keys, Select, Aggregate;
    SelectMap(PointAt(fine, agg, fs), Coarser(coarse), GroupOfPoint(coarse), k, Keys(text, fine, fs));
  }

  // ---- sums and counts ----------------------------------------------------------------------

  lemma {:induction false} RegroupInside(fine: Granularity, coarse: Granularity, fs: seq<Fact>, k: GroupKey, js: seq<GroupKey>)
    requires Refines(fine, coarse) && forall j :: j in js ==> Coarser(coarse)(j) == k
    ensures Regroup(GroupBy(fine), js, Facts(coarse, fs, k)) == Regroup(GroupBy(fine), js, fs)
  {
    hide Facts, Bucket;
    if js != [] {
      assert js[0] in js && forall j :: j in js[1..] ==> j in js;
      InsideGroupIsWhole(fine, coarse, fs, k, js[0]);
      RegroupInside(fine, coarse, fs, k, js[1..]);
    }
  }

  lemma SumsRollUp(text: Rendering, fine: Granularity, coarse: Granularity, agg: Aggregation, fs: seq<Fact>, k: GroupKey)
    requires Injective(text) && Refines(fine, coarse) && (agg.Sum? || agg.Count?)
    ensures Total(PointQuantity, Map(PointAt(fine, agg, fs), Inside(text, fine, coarse, fs, k)))
         == Total(Weight(agg), Facts(coarse, fs, k))
  {
    hide Injective, Bucket, Inside, Facts, Weight, Distinct, Before, Sorted;
    var js := Inside(text, fine, coarse, fs, k);
    InsideMembers(text, fine, coarse, fs, k);
    InsideIsSorted(text, fine, coarse, fs, k);
    TotalOfPoints(fine, agg, fs, js);
    RegroupInside(fine, coarse, fs, k, js);
    TotalRegroup(GroupBy(fine), js, Weight(agg), Facts(coarse, fs, k));
  }

  // ---- maxima -------------------------------------------------------------------------------

  lemma {:induction false} MaxPointIsGreatest(ps: seq<Point>)
    requires ps != []
    ensures forall p :: p in ps ==> p.quantity <= MaxPoint(ps)
    ensures exists p :: p in ps && p.quantity == MaxPoint(ps)
  {
    assert ps[0] in ps;
    if |ps| > 1 {
      MaxPointIsGreatest(ps[1..]);
      assert ps == [ps[0]] + ps[1..];
      var p :| p in ps[1..] && p.quantity == MaxPoint(ps[1..]);
      assert p in ps;
    }
  }

  lemma MaxRollsUp(text: Rendering, fine: Granularity, coarse: Granularity, fs: seq<Fact>, k: GroupKey)
    requires Injective(text) && Refines(fine, coarse) && Facts(coarse, fs, k) != []
    ensures var ps := Map(PointAt(fine, Max, fs), Inside(text, fine, coarse, fs, k));
      ps != [] && MaxPoint(ps) == MaxQuantity(Facts(coarse, fs, k))
  {
    hide Injective, Bucket, Inside, Facts, MaxQuantity, MaxPoint, Select, Keys;
    var js, all := Inside(text, fine, coarse, fs, k), Facts(coarse, fs, k);
    var ps := Map(PointAt(fine, Max, fs), js);
    InsideMembers(text, fine, coarse, fs, k);
    MaxIsGreatest(all);
    var top :| top in all && top.quantity == MaxQuantity(all);
    assert GroupBy(fine)(top) in js;
    MaxPointIsGreatest(ps);
    var best :| best in ps && best.quantity == MaxPoint(ps);
    var i :| 0 <= i < |ps| && ps[i] == best;
    PointMax(text, fine, coarse, fs, k, js[i]);
    var f :| f in all && f.quantity == best.quantity;
    var j :| 0 <= j < |js| && js[j] == GroupBy(fine)(top);
    PointMax(text, fine, coarse, fs, k, js[j]);
    assert ps[j] in ps;
  }

  /** The quantity of a finer max point is taken by a fact of the coarse group and bounds the facts of its own. */
  lemma PointMax(text: Rendering, fine: Granularity, coarse: Granularity, fs: seq<Fact>, k: GroupKey, j: GroupKey)
    requires Injective(text) && Refines(fine, coarse) && j in Inside(text, fine, coarse, fs, k)
    ensures exists f :: f in Facts(coarse, fs, k) && f.quantity == PointAt(fine, Max, fs)(j).quantity
    ensures forall f :: f in Facts(coarse, fs, k) && GroupBy(fine)(f) == j ==>
      f.quantity <= PointAt(fine, Max, fs)(j).quantity
  {
    hide Injective, Bucket, MaxQuantity, Keys, Inside, Facts;
    InsideMembers(text, fine, coarse, fs, k);
    GroupIsNonEmpty(text, fine, fs, j);
    InsideGroupIsWhole(fine, coarse, fs, k, j);
    var group := Select(GroupBy(fine), j, fs);
    MaxIsGreatest(group);
    SelectMembers(GroupBy(fine), j, Facts(coarse, fs, k));
    var f :| f in group && f.quantity == MaxQuantity(group);
    assert f in Facts(coarse, fs, k);
  }

  // ---- last ---------------------------------------------------------------------------------

  lemma {:induction false} NewestIsNewest(fs: seq<Fact>)
    requires fs != []
    ensures Newest(fs) in fs
    ensures forall f :: f in fs ==> !Newer(f, Newest(fs))
  {
    assert fs[0] in fs;
    if |fs| > 1 {
      NewestIsNewest(fs[1..]);
      assert fs == [fs[0]] + fs[1..];
    }
  }

  /** With different ids only one fact is not older than any other. */
  lemma NewestIsUnique(fs: seq<Fact>, f: Fact)
    requires fs != [] && DistinctIds(fs) && f in fs && forall g :: g in fs ==> !Newer(g, f)
    ensures Newest(fs) == f
  {
    NewestIsNewest(fs);
    var i :| 0 <= i < |fs| && fs[i] == f;
    var j :| 0 <= j < |fs| && fs[j] == Newest(fs);
    assert i < j || j < i || i == j;
  }

  lemma {:induction false} SelectKeepsDistinctIds<K>(key: Fact -> K, k: K, fs: seq<Fact>)
    requires DistinctIds(fs)
    ensures DistinctIds(Select(key, k, fs))
  {
    if fs != [] {
      SelectKeepsDistinctIds(key, k, fs[1..]);
      SelectMembers(key, k, fs[1..]);
      var rest := Select(key, k, fs[1..]);
      forall i | 0 <= i < |rest| ensures rest[i].id != fs[0].id {
        assert rest[i] in fs[1..];
        var j :| 0 <= j < |fs[1..]| && fs[1..][j] == rest[i];
        assert fs[j + 1] == rest[i];
      }
    }
  }

  /** The newest fact of a coarse group lies in the last of the finer groups inside it. */
  lemma NewestIsInLastGroup(text: Rendering, fine: Granularity, coarse: Granularity, fs: seq<Fact>, k: GroupKey)
    requires Injective(text) && Refines(fine, coarse) && Facts(coarse, fs, k) != []
    ensures var js := Inside(text, fine, coarse, fs, k);
      js != [] && js[|js| - 1] == GroupBy(fine)(Newest(Facts(coarse, fs, k)))
  {
    hide Injective, Bucket, Inside, Facts, Newest, Keys, Select, Distinct;
    var js, all := Inside(text, fine, coarse, fs, k), Facts(coarse, fs, k);
    var top := Newest(all);
    NewestIsNewest(all);
    InsideMembers(text, fine, coarse, fs, k);
    InsideIsSorted(text, fine, coarse, fs, k);
    var i :| 0 <= i < |js| && js[i] == GroupBy(fine)(top);
    var last := js[|js| - 1];
    if i < |js| - 1 {
      assert Before(text)(js[i], last);
      LaterGroupHasNewerFact(text, fine, coarse, fs, k, top, last);
    }
  }

  lemma LaterGroupHasNewerFact(text: Rendering, fine: Granularity, coarse: Granularity, fs: seq<Fact>, k: GroupKey,
                               top: Fact, last: GroupKey)
    requires Injective(text) && Refines(fine, coarse) && last in Inside(text, fine, coarse, fs, k)
    requires top in Facts(coarse, fs, k) && Before(text)(GroupBy(fine)(top), last)
    ensures exists f :: f in Facts(coarse, fs, k) && Newer(f, top)
  {
    hide Injective, Bucket, Inside, Facts, Keys;
    InsideMembers(text, fine, coarse, fs, k);
    GroupIsNonEmpty(text, fine, fs, last);
    InsideGroupIsWhole(fine, coarse, fs, k, last);
    SelectMembers(GroupBy(fine), last, Facts(coarse, fs, k));
    var f := Select(GroupBy(fine), last, fs)[0];
    assert f in Select(GroupBy(fine), last, Facts(coarse, fs, k));
    assert f in Facts(coarse, fs, k) && GroupBy(fine)(f) == last;
    SameGroupSameDims(text, fine, coarse, fs, k, top, f);
    LessIsIrreflexive(text(top.dims));
    if f.occurredAt <= top.occurredAt {
      WindowIndexIsMonotone(fine, f.occurredAt, top.occurredAt);
    }
  }

  lemma SameGroupSameDims(text: Rendering, fine: Granularity, coarse: Granularity, fs: seq<Fact>, k: GroupKey, f: Fact, g: Fact)
    requires f in Facts(coarse, fs, k) && g in Facts(coarse, fs, k)
    ensures f.dims == g.dims
  {
    hide Bucket;
    SelectMembers(GroupBy(coarse), k, fs);
  }

  lemma LastRollsUp(text: Rendering, fine: Granularity, coarse: Granularity, fs: seq<Fact>, k: GroupKey)
    requires Injective(text) && Refines(fine, coarse) && DistinctIds(fs) && Facts(coarse, fs, k) != []
    ensures var js := Inside(text, fine, coarse, fs, k);
      js != [] && PointAt(fine, Last, fs)(js[|js| - 1]).quantity == Newest(Facts(coarse, fs, k)).quantity
  {
    hide Injective, Bucket, Inside, Facts, Newest, Keys, DistinctIds, Newer, Select;
    var js, all := Inside(text, fine, coarse, fs, k), Facts(coarse, fs, k);
    NewestIsInLastGroup(text, fine, coarse, fs, k);
    var last := js[|js| - 1];
    InsideMembers(text, fine, coarse, fs, k);
    GroupIsNonEmpty(text, fine, fs, last);
    InsideGroupIsWhole(fine, coarse, fs, k, last);
    NewestIsNewest(all);
    SelectMembers(GroupBy(fine), last, all);
    SelectKeepsDistinctIds(GroupBy(fine), last, fs);
    NewestIsUnique(Select(GroupBy(fine), last, fs), Newest(all));
  }

  // ---- the law ------------------------------------------------------------------------------

  /**
   * Rollup: for every fact set and aggregation, a point of the coarse query is the combination of the finer
   * query's points inside it, and such points exist exactly where the coarse point does.
   */
  lemma PointsRollUp(text: Rendering, fine: Granularity, coarse: Granularity, agg: Aggregation, fs: seq<Fact>, k: GroupKey)
    requires Injective(text) && Refines(fine, coarse) && DistinctIds(fs)
    ensures var ps := FinerPoints(coarse, k, Points(text, fine, agg, fs));
      && (ps != [] <==> k in Keys(text, coarse, fs))
      && Combine(agg, ps) == PointAt(coarse, agg, fs)(k).quantity
  {
    hide Injective, Bucket, Inside, Keys, DistinctIds, Points, MaxPoint, MaxQuantity, Newest;
    FinerPointsAreInside(text, fine, coarse, agg, fs, k);
    GroupsMatch(text, fine, coarse, fs, k);
    if Facts(coarse, fs, k) != [] {
      match agg
      case Sum => SumsRollUp(text, fine, coarse, agg, fs, k);
      case Count => SumsRollUp(text, fine, coarse, agg, fs, k);
      case Max => MaxRollsUp(text, fine, coarse, fs, k);
      case Last => LastRollsUp(text, fine, coarse, fs, k);
    }
  }

  /** A coarse group, its facts and the finer groups inside it are empty or not together. */
  lemma GroupsMatch(text: Rendering, fine: Granularity, coarse: Granularity, fs: seq<Fact>, k: GroupKey)
    requires Injective(text) && Refines(fine, coarse)
    ensures k in Keys(text, coarse, fs) <==> Facts(coarse, fs, k) != []
    ensures Inside(text, fine, coarse, fs, k) == [] <==> Facts(coarse, fs, k) == []
  {
    hide Injective, Bucket, Inside, Facts, Keys, Before, Sorted;
    InsideMembers(text, fine, coarse, fs, k);
    HeadIsMember(Facts(coarse, fs, k));
    FactsAreTheGroup(coarse, fs, k);
    KeysAreGroups(text, coarse, fs);
    var js := Inside(text, fine, coarse, fs, k);
    if js != [] {
      assert js[0] in js;
      InsideHasFacts(text, fine, coarse, fs, k, js[0]);
    }
  }

  lemma FactsAreTheGroup(coarse: Granularity, fs: seq<Fact>, k: GroupKey)
    ensures forall f :: f in Facts(coarse, fs, k) ==> f in fs && KeyOfFact(coarse, f) == k
    ensures forall f :: f in fs && KeyOfFact(coarse, f) == k ==> f in Facts(coarse, fs, k)
  {
    hide Bucket;
    SelectMembers(GroupBy(coarse), k, fs);
    assert forall f :: GroupBy(coarse)(f) == KeyOfFact(coarse, f);
  }

  lemma InsideHasFacts(text: Rendering, fine: Granularity, coarse: Granularity, fs: seq<Fact>, k: GroupKey, j: GroupKey)
    requires Injective(text) && Refines(fine, coarse) && j in Inside(text, fine, coarse, fs, k)
    ensures Facts(coarse, fs, k) != []
  {
    hide Injective, Bucket, Inside, Facts, Keys;
    InsideMembers(text, fine, coarse, fs, k);
    GroupIsNonEmpty(text, fine, fs, j);
    InsideGroupIsWhole(fine, coarse, fs, k, j);
  }
}
