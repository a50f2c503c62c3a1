/** What the answers to one request, asked page by page, add up to, and when two of their items look alike. */
module QueryAnswers {
  import opened Ledger
  import opened Text
  import opened Calendar
  import opened Decimal
  import opened Order
  import opened Partition
  import opened Meters
  import opened Validation
  import opened Query
  import opened QueryService

  /** What a query is asked on and by whom. */
  datatype Setup = Setup(setting: Setting, store: Store, caller: Caller, verify: Scope -> Verdict)

  function AskOn(u: Setup, r: Request): Result<Answer> {
    Ask(u.setting, u.store, u.caller, u.verify, r)
  }

  predicate Accepts(u: Setup, r: Request): (ok: bool)
    ensures ok ==> Pagination(r.page, r.size).Some? && ParseGranularity(r.granularity).Some?
    ensures ok ==> ValidRange(r) && MeterByCode(u.store.meters, r.meter).Some?
  {
    Refusal(u.store.meters, u.caller, u.verify, r).None?
  }

  function PageSize(r: Request): nat
    requires Pagination(r.page, r.size).Some?
  {
    Pagination(r.page, r.size).value.1
  }

  function GranularityOf(r: Request): Granularity
    requires ParseGranularity(r.granularity).Some?
  {
    ParseGranularity(r.granularity).value
  }

  function PointsOf(u: Setup, r: Request): seq<Point>
    requires Accepts(u, r)
  {
    AllPoints(u.setting, u.store, r)
  }

  /** All points of a request as items. */
  function AllItems(u: Setup, r: Request): seq<UsagePoint>
    requires Accepts(u, r)
  {
    Map(ItemOf(GranularityOf(r), u.setting.location), PointsOf(u, r))
  }

  /** What page p should be answered with. */
  function Intended(u: Setup, r: Request, p: int): Answer
    requires Accepts(u, r) && p >= 1
  {
    Answer(PageOf(AllItems(u, r), p, PageSize(r)), |AllItems(u, r)|, p, PageSize(r), Total(PointQuantity, PointsOf(u, r)))
  }

  /** The items of the answers to pages 1 to n, one after the other. */
  function ItemsUpTo(u: Setup, r: Request, n: nat): seq<UsagePoint> {
    if n == 0 then []
    else ItemsUpTo(u, r, n - 1) + (match AskOn(u, r.(page := n)) case Ok(a) => a.items case Err(_) => [])
  }

  function ItemQuantity(i: UsagePoint): int { i.quantity }

  /** Why a request is refused: the first check that fails, in this order; one that fails none is accepted. */
  lemma RefusedExactly(u: Setup, r: Request)
    ensures var refusal := Refusal(u.store.meters, u.caller, u.verify, r);
      var shaped := r.size <= 100 && r.tenant != "" && r.app != "" && r.meter != "" && r.start.Some? && r.end.Some?
        && 0 < r.end.value - r.start.value <= 366 * 24 * 3_600_000_000_000;
      var own := u.caller.Principal? && (u.caller.kind == User ==> u.caller.tenant == Trim(r.tenant) != "");
      var verdict := u.verify(Scope(Trim(r.tenant), Trim(r.app)));
      var known := exists m :: m in u.store.meters && m.code == r.meter;
      && (!shaped ==> refusal == Some(Invalid))
      && (shaped && u.caller.Anonymous? ==> refusal == Some(Unauthorized))
      && (shaped && u.caller.Principal? && !own ==> refusal == Some(Forbidden))
      && (shaped && own && verdict == NotGranted ==> refusal == Some(Forbidden))
      && (shaped && own && verdict == Broken ==> refusal == Some(Unavailable))
      && (shaped && own && verdict == Granted && !known ==> refusal == Some(NotFound))
      && (shaped && own && verdict == Granted && known && r.granularity !in ["hour", "day", "month"] ==> refusal == Some(Invalid))
      && (shaped && own && verdict == Granted && known && r.granularity in ["hour", "day", "month"] ==> refusal == None)
  {
    hide Trim;
    MeterByCodeFinds(u.store.meters, r.meter);
  }

  /** Missing numbers mean page 1 and 20 items, and the three granularities go by their names. */
  lemma DefaultsAndNames(u: Setup, r: Request)
    requires Accepts(u, r)
    ensures Pagination(r.page, r.size).value.0 == if r.page <= 0 then 1 else r.page
    ensures PageSize(r) == (if r.size <= 0 then 20 else r.size) && 1 <= PageSize(r) <= 100
    ensures r.granularity == match GranularityOf(r) case Hour => "hour" case Day => "day" case Month => "month"
  {
  }

  // ---- one page -----------------------------------------------------------------------------

  /** The page number changes neither the verdict nor the points. */
  lemma PageIsIrrelevant(u: Setup, r: Request, p: int)
    requires Accepts(u, r) && p >= 1
    ensures Accepts(u, r.(page := p)) && Pagination(p, r.size) == Some((p, PageSize(r)))
    ensures PointsOf(u, r.(page := p)) == PointsOf(u, r) && AllItems(u, r.(page := p)) == AllItems(u, r)
    ensures PageSize(r) >= 1
  {
  }

  lemma MapSlice<T, U>(f: T -> U, s: seq<T>, limit: nat, offset: nat)
    ensures Map(f, Slice(s, limit, offset)) == Slice(Map(f, s), limit, offset)
  {
  }

  lemma AnswerAt(u: Setup, r: Request, p: int)
    requires Accepts(u, r) && p >= 1
    ensures var offset := Offset(p, PageSize(r));
      AskOn(u, r.(page := p)) == if offset < 0 then Err(Internal)
        else Ok(Intended(u, r, p).(items := Slice(AllItems(u, r), PageSize(r), offset)))
  {
    hide AllPoints, ItemOf, Refusal, Slice, Offset;
    PageIsIrrelevant(u, r, p);
    var offset := Offset(p, PageSize(r));
    if offset >= 0 {
      MapSlice(ItemOf(GranularityOf(r), u.setting.location), PointsOf(u, r), PageSize(r), offset);
    }
  }

  /**
   * With a 64-bit total, page p is answered with its page exactly when (p - 1) * size fits 64 bits or wraps to an
   * offset past the end; otherwise the caller gets an error or a page from elsewhere.
   */
  lemma AnswerIsIntendedExactly(u: Setup, r: Request, p: int)
    requires Accepts(u, r) && p >= 1 && |AllItems(u, r)| <= MAX_INT64
    ensures AskOn(u, r.(page := p)) == Ok(Intended(u, r, p))
       <==> (p - 1) * PageSize(r) <= MAX_INT64 || Offset(p, PageSize(r)) >= |AllItems(u, r)|
  {
    hide AllItems, Accepts, Pagination, AskOn, Offset;
    PageIsIrrelevant(u, r, p);
    AnswerAt(u, r, p);
    OffsetIsExact(p, PageSize(r));
    SlicesDiffer(AllItems(u, r), p, PageSize(r), Offset(p, PageSize(r)));
  }

  lemma SlicesDiffer<T>(s: seq<T>, p: int, size: nat, offset: int)
    requires p >= 1 && size >= 1 && |s| <= MAX_INT64
    ensures (p - 1) * size >= 0
    ensures offset == (p - 1) * size ==> Slice(s, size, offset) == PageOf(s, p, size)
    ensures offset >= 0 && (p - 1) * size > MAX_INT64 ==>
      (Slice(s, size, offset) == PageOf(s, p, size) <==> offset >= |s|)
  {
    PageIsEmptyIff(s, p, size);
  }

  /** With 64 items a page, page 2^58 + 1 of every accepted request shows page 1 again. */
  lemma OverflowShowsFirstPage(u: Setup, r: Request)
    requires Accepts(u, r) && r.size == 64
    ensures var again := 288_230_376_151_711_745;
      && again <= MAX_INT64 && AskOn(u, r.(page := again)).Ok? && AskOn(u, r.(page := 1)).Ok?
      && AskOn(u, r.(page := again)).value.items == AskOn(u, r.(page := 1)).value.items
  {
    hide AllItems, Accepts, AskOn;
    AnswerAt(u, r, 1);
    AnswerAt(u, r, 288_230_376_151_711_745);
  }

  // ---- all pages ----------------------------------------------------------------------------

  lemma FittingAnswer(u: Setup, r: Request, p: int)
    requires Accepts(u, r) && p >= 1 && (p - 1) * PageSize(r) <= MAX_INT64
    ensures AskOn(u, r.(page := p)) == Ok(Intended(u, r, p))
  {
    hide AllItems, Accepts, Pagination, AskOn, Offset, Slice, PageOf;
    PageIsIrrelevant(u, r, p);
    AnswerAt(u, r, p);
    SliceIsPage(AllItems(u, r), p, PageSize(r));
  }

  lemma {:induction false} ItemsArePages(u: Setup, r: Request, n: nat)
    requires Accepts(u, r) && (n - 1) * PageSize(r) <= MAX_INT64
    ensures ItemsUpTo(u, r, n) == Pages(AllItems(u, r), PageSize(r), n)
  {
    hide AllItems, Accepts, AskOn, PageSize, PageOf;
    if n > 0 {
      assert (n - 2) * PageSize(r) <= (n - 1) * PageSize(r);
      ItemsArePages(u, r, n - 1);
      FittingAnswer(u, r, n);
    }
  }

  /** ORDER BY window_start, dimensions_json */
  function PointBefore(text: Rendering): (Point, Point) -> bool {
    (p: Point, q: Point) => Before(text)(GroupKey(p.window, p.dims), GroupKey(q.window, q.dims))
  }

  /**
   * Asking page after page, up to the last one, gives every item of the request exactly once, in strict order of
   * window and dimensions.
   */
  lemma AnswersAreTheList(u: Setup, r: Request)
    requires Injective(u.setting.text) && Accepts(u, r)
    requires (PageCount(|AllItems(u, r)|, PageSize(r)) - 1) * PageSize(r) <= MAX_INT64
    ensures ItemsUpTo(u, r, PageCount(|AllItems(u, r)|, PageSize(r))) == AllItems(u, r)
    ensures Sorted(PointBefore(u.setting.text), PointsOf(u, r))
  {
    hide Injective, AllItems, Accepts, AskOn, PageSize, PageCount, PageOf, PointsOf, Sorted;
    PageIsIrrelevant(u, r, 1);
    PagesAreTheList(AllItems(u, r), PageSize(r));
    ItemsArePages(u, r, PageCount(|AllItems(u, r)|, PageSize(r)));
    RequestPointsAreSorted(u, r);
  }

  lemma RequestPointsAreSorted(u: Setup, r: Request)
    requires Injective(u.setting.text) && Accepts(u, r)
    ensures Sorted(PointBefore(u.setting.text), PointsOf(u, r))
  {
    hide Injective, Points, Matching, Sorted;
    PointsAreSorted(u.setting.text, GranularityOf(r), MeterByCode(u.store.meters, r.meter).value.aggregation,
                    Matching(FilterOf(r), u.store.facts));
  }

  lemma PointsAreSorted(text: Rendering, g: Granularity, agg: Aggregation, fs: seq<Fact>)
    requires Injective(text)
    ensures Sorted(PointBefore(text), Points(text, g, agg, fs))
  {
    hide Injective, Aggregate, Before, Bucket, Select;
    KeysAreGroups(text, g, fs);
    var ks, ps := Keys(text, g, fs), Points(text, g, agg, fs);
    forall i, j | 0 <= i < j < |ps| ensures PointBefore(text)(ps[i], ps[j]) {
      assert Before(text)(ks[i], ks[j]);
    }
  }

  /**
   * What an item of an answer says: its quantity is the aggregate of the meter over exactly the facts of the request's
   * tenant, application and meter, within its range and with the requested dimensions, that have the item's dimensions
   * and lie in its window; and its end is the next window's start as the location of the process has it.
   */
  lemma ItemMeans(u: Setup, r: Request, i: nat) returns (group: seq<Fact>)
    requires Injective(u.setting.text) && Accepts(u, r) && i < |AllItems(u, r)|
    ensures var item, agg := AllItems(u, r)[i], MeterByCode(u.store.meters, r.meter).value.aggregation;
      && group != [] && Means(AggregationName(agg), group, item.quantity)
      && item.end == NextWindow(GranularityOf(r), item.start, u.setting.location)
      && forall f :: f in group <==>
        && f in u.store.facts && f.scope.tenant == r.tenant && f.scope.app == r.app && f.meter == r.meter
        && r.start.value <= f.occurredAt && f.occurredAt < r.end.value
        && (r.dims != map[] ==> f.dims != Null && r.dims.Items <= Entries(f.dims).Items)
        && f.dims == item.dims
        && item.start <= f.occurredAt && f.occurredAt < NextWindow(GranularityOf(r), item.start, Fixed(SHANGHAI))
  {
    hide Injective, Points, Matching, NextWindow, Accepts, Means;
    var agg := MeterByCode(u.store.meters, r.meter).value.aggregation;
    var p := PointsOf(u, r)[i];
    assert AllItems(u, r)[i] == ItemOf(GranularityOf(r), u.setting.location)(p);
    assert p in PointsOf(u, r);
    group := PointMeans(u.setting.text, GranularityOf(r), agg, Matching(FilterOf(r), u.store.facts), p);
    forall f { MatchingExactly(FilterOf(r), u.store.facts, f); }
  }

  /** The order of the items: by window, and within one by the text of their dimensions. */
  lemma ItemsInOrder(u: Setup, r: Request, i: nat, j: nat)
    requires Injective(u.setting.text) && Accepts(u, r) && i < j < |AllItems(u, r)|
    ensures var a, b := AllItems(u, r)[i], AllItems(u, r)[j];
      a.start < b.start || (a.start == b.start && Less(u.setting.text(a.dims), u.setting.text(b.dims)))
  {
    hide Injective, AllPoints, NextWindow, Accepts, Less;
    RequestPointsAreSorted(u, r);
    var p, q := PointsOf(u, r)[i], PointsOf(u, r)[j];
    assert PointBefore(u.setting.text)(p, q);
    var item := ItemOf(GranularityOf(r), u.setting.location);
    assert AllItems(u, r)[i] == item(p) && AllItems(u, r)[j] == item(q);
    assert item(p).start == p.window && item(p).dims == p.dims && item(q).start == q.window && item(q).dims == q.dims;
    assert Before(u.setting.text)(GroupKey(p.window, p.dims), GroupKey(q.window, q.dims));
  }

  /** A page has an item exactly up to the last page, as far as the offset fits. */
  lemma LaterPagesAreEmpty(u: Setup, r: Request, p: int)
    requires Accepts(u, r) && p >= 1 && (p - 1) * PageSize(r) <= MAX_INT64
    ensures AskOn(u, r.(page := p)).Ok?
    ensures AskOn(u, r.(page := p)).value.items == [] <==> p > PageCount(|AllItems(u, r)|, PageSize(r))
  {
    hide AllItems, Accepts, AskOn, PageSize, PageCount, PageOf, Pages;
    PageIsIrrelevant(u, r, 1);
    FittingAnswer(u, r, p);
    PagesAreTheList(AllItems(u, r), PageSize(r));
  }

  /** For every aggregation each answer's total_quantity is the sum of the quantities of the items on all pages. */
  lemma AnswersCarryTheTotal(u: Setup, r: Request, p: int)
    requires Injective(u.setting.text) && Accepts(u, r) && p >= 1 && AskOn(u, r.(page := p)).Ok?
    requires (PageCount(|AllItems(u, r)|, PageSize(r)) - 1) * PageSize(r) <= MAX_INT64
    ensures AskOn(u, r.(page := p)).value.quantity
         == Total(ItemQuantity, ItemsUpTo(u, r, PageCount(|AllItems(u, r)|, PageSize(r))))
    ensures AskOn(u, r.(page := p)).value.total == |ItemsUpTo(u, r, PageCount(|AllItems(u, r)|, PageSize(r)))|
  {
    hide Injective, Accepts, AskOn, PageSize, PageCount, PointsOf, Slice, Offset, ItemsUpTo, PointBefore, Sorted;
    AnswersAreTheList(u, r);
    AnswerAt(u, r, p);
    TotalOfItems(GranularityOf(r), u.setting.location, PointsOf(u, r));
  }

  lemma {:induction false} TotalOfItems(g: Granularity, location: Zone, ps: seq<Point>)
    ensures Total(ItemQuantity, Map(ItemOf(g, location), ps)) == Total(PointQuantity, ps)
  {
    hide NextWindow;
    if ps != [] {
      TotalOfItems(g, location, ps[1..]);
      var items := Map(ItemOf(g, location), ps);
      assert items[1..] == Map(ItemOf(g, location), ps[1..]);
      assert items[0].quantity == ps[0].quantity;
    }
  }

  // ---- items that look alike ----------------------------------------------------------------

  /** Different items of a request differ in window or dimensions: absent ones are told from the empty object. */
  lemma ItemsDiffer(u: Setup, r: Request, i: nat, j: nat)
    requires Injective(u.setting.text) && Accepts(u, r) && i < j < |AllItems(u, r)|
    ensures AllItems(u, r)[i].start != AllItems(u, r)[j].start || AllItems(u, r)[i].dims != AllItems(u, r)[j].dims
  {
    hide Injective, Matching, Keys, Aggregate, NextWindow, Accepts;
    KeysDiffer(u.setting.text, GranularityOf(r), Matching(FilterOf(r), u.store.facts), i, j);
  }

  /** A point as gRPC sends it: a map field of a protobuf message is never absent. */
  datatype GrpcPoint = GrpcPoint(start: int, end: int, quantity: int, dims: map<string, string>)

  function GrpcItem(i: UsagePoint): GrpcPoint { GrpcPoint(i.start, i.end, i.quantity, Entries(i.dims)) }

  /** All points of a request as gRPC sends them. */
  function AllGrpcItems(u: Setup, r: Request): seq<GrpcPoint>
    requires Accepts(u, r)
  {
    Map(GrpcItem, AllItems(u, r))
  }

  /** A gRPC point shows its item, with an empty map for absent dimensions. */
  lemma GrpcShowsItems(u: Setup, r: Request, i: nat)
    requires Accepts(u, r) && i < |AllItems(u, r)|
    ensures |AllGrpcItems(u, r)| == |AllItems(u, r)|
    ensures var shown, item := AllGrpcItems(u, r)[i], AllItems(u, r)[i];
      && shown.start == item.start && shown.end == item.end && shown.quantity == item.quantity
      && (item.dims == Null ==> shown.dims == map[]) && (item.dims != Null ==> Object(shown.dims) == item.dims)
  {
    hide AllItems, Accepts;
    assert AllGrpcItems(u, r)[i] == GrpcItem(AllItems(u, r)[i]);
  }

  ghost predicate LookAlike(a: GrpcPoint, b: GrpcPoint) {
    a.start == b.start && a.dims == b.dims
  }

  /** Two of the items show the same window and the same dimensions. */
  ghost predicate HasLookAlikes(items: seq<GrpcPoint>) {
    exists i, j :: 0 <= i < j < |items| && LookAlike(items[i], items[j])
  }

  predicate Mixed(g: Granularity, a: Fact, b: Fact) {
    Bucket(g, a.occurredAt) == Bucket(g, b.occurredAt) && a.dims == Null && b.dims == Object(map[])
  }

  /** One window has a fact recorded without dimensions and one recorded with the empty object. */
  ghost predicate Mixes(g: Granularity, fs: seq<Fact>) {
    exists i, j :: 0 <= i < |fs| && 0 <= j < |fs| && Mixed(g, fs[i], fs[j])
  }

  /** The Null and the empty group of one window. */
  predicate Twins(j: GroupKey, k: GroupKey) {
    j.window == k.window && j.dims == Null && k.dims == Object(map[])
  }

  /** Items of different groups look alike exactly if the groups are twins. */
  lemma GroupsLookAlike(a: GrpcPoint, b: GrpcPoint, j: GroupKey, k: GroupKey)
    requires j != k && a.start == j.window && a.dims == Entries(j.dims) && b.start == k.window && b.dims == Entries(k.dims)
    ensures LookAlike(a, b) <==> Twins(j, k) || Twins(k, j)
  {
  }

  function GrpcItems(text: Rendering, g: Granularity, agg: Aggregation, fs: seq<Fact>, location: Zone): seq<GrpcPoint> {
    Map(GrpcItem, Map(ItemOf(g, location), Points(text, g, agg, fs)))
  }

  lemma ItemsMatchGroups(text: Rendering, g: Granularity, agg: Aggregation, fs: seq<Fact>, location: Zone)
    ensures |GrpcItems(text, g, agg, fs, location)| == |Keys(text, g, fs)|
  {
  }

  lemma ItemShowsGroup(text: Rendering, g: Granularity, agg: Aggregation, fs: seq<Fact>, location: Zone, i: nat)
    requires i < |Keys(text, g, fs)|
    ensures var items, k := GrpcItems(text, g, agg, fs, location), Keys(text, g, fs)[i];
      |items| == |Keys(text, g, fs)| && items[i].start == k.window && items[i].dims == Entries(k.dims)
  {
    hide Aggregate, NextWindow, Keys;
    var k := Keys(text, g, fs)[i];
    var p := Points(text, g, agg, fs)[i];
    assert p == PointAt(g, agg, fs)(k);
    assert Map(ItemOf(g, location), Points(text, g, agg, fs))[i] == ItemOf(g, location)(p);
    assert GrpcItems(text, g, agg, fs, location)[i] == GrpcItem(ItemOf(g, location)(p));
  }

  /** Two items look alike exactly when two facts of one window mix absent and empty dimensions. */
  lemma ItemsLookAlikeIff(text: Rendering, g: Granularity, agg: Aggregation, fs: seq<Fact>, location: Zone)
    requires Injective(text)
    ensures HasLookAlikes(GrpcItems(text, g, agg, fs, location)) <==> Mixes(g, fs)
  {
    hide Injective, GrpcItems, Keys, LookAlike, Twins, Distinct, Mixes;
    var items, ks := GrpcItems(text, g, agg, fs, location), Keys(text, g, fs);
    ItemsMatchGroups(text, g, agg, fs, location);
    forall i, j | 0 <= i < j < |ks| ensures LookAlike(items[i], items[j]) <==> Twins(ks[i], ks[j]) || Twins(ks[j], ks[i]) {
      ItemShowsGroup(text, g, agg, fs, location, i);
      ItemShowsGroup(text, g, agg, fs, location, j);
      KeysDiffer(text, g, fs, i, j);
      GroupsLookAlike(items[i], items[j], ks[i], ks[j]);
    }
    TwinsAreMixed(text, g, fs);
    if i, j :| 0 <= i < j < |items| && LookAlike(items[i], items[j]) {
      assert ks[i] in ks && ks[j] in ks;
    }
    if j, k :| j in ks && k in ks && Twins(j, k) {
      var a :| 0 <= a < |ks| && ks[a] == j;
      var b :| 0 <= b < |ks| && ks[b] == k;
      TwinsDiffer(j, k);
      var x, y := if a < b then a else b, if a < b then b else a;
      assert LookAlike(items[x], items[y]);
    }
  }

  lemma TwinsDiffer(j: GroupKey, k: GroupKey)
    requires Twins(j, k)
    ensures j != k
  {
  }

  lemma KeysDiffer(text: Rendering, g: Granularity, fs: seq<Fact>, i: nat, j: nat)
    requires Injective(text) && i < j < |Keys(text, g, fs)|
    ensures Keys(text, g, fs)[i] != Keys(text, g, fs)[j]
  {
    hide Injective, Keys, Covers;
    KeysPartition(text, g, fs);
  }

  /** There are twin groups exactly when facts mix. */
  lemma TwinsAreMixed(text: Rendering, g: Granularity, fs: seq<Fact>)
    requires Injective(text)
    ensures (exists j, k :: j in Keys(text, g, fs) && k in Keys(text, g, fs) && Twins(j, k)) <==> Mixes(g, fs)
  {
    hide Injective, Keys, Sorted, Before, Bucket;
    KeysAreGroups(text, g, fs);
    if j, k :| j in Keys(text, g, fs) && k in Keys(text, g, fs) && Twins(j, k) {
      GroupsMix(g, fs, j, k);
    }
    if x, y :| 0 <= x < |fs| && 0 <= y < |fs| && Mixed(g, fs[x], fs[y]) {
      assert Twins(KeyOfFact(g, fs[x]), KeyOfFact(g, fs[y]));
    }
  }

  lemma GroupsMix(g: Granularity, fs: seq<Fact>, j: GroupKey, k: GroupKey)
    requires Twins(j, k)
    requires (exists f :: f in fs && KeyOfFact(g, f) == j) && (exists f :: f in fs && KeyOfFact(g, f) == k)
    ensures Mixes(g, fs)
  {
    hide Bucket;
    var a :| a in fs && KeyOfFact(g, a) == j;
    var b :| b in fs && KeyOfFact(g, b) == k;
    var x :| 0 <= x < |fs| && fs[x] == a;
    var y :| 0 <= y < |fs| && fs[y] == b;
    assert Mixed(g, fs[x], fs[y]);
  }

  /** The gRPC pages of a request hold look-alike items exactly when its filter lets such facts of one window through. */
  lemma AnswersLookAlikeIff(u: Setup, r: Request)
    requires Injective(u.setting.text) && Accepts(u, r)
    ensures HasLookAlikes(AllGrpcItems(u, r)) <==> Mixes(GranularityOf(r), Matching(FilterOf(r), u.store.facts))
  {
    hide Injective, HasLookAlikes, Mixes, ItemOf, Points, Matching;
    ItemsLookAlikeIff(u.setting.text, GranularityOf(r), MeterByCode(u.store.meters, r.meter).value.aggregation,
                      Matching(FilterOf(r), u.store.facts), u.setting.location);
  }
}
