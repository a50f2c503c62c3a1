/** QueryUsage: the checks, the paging and the answer, with the laws a caller can rely on. */
module QueryService {
  import opened Ledger
  import opened Text
  import opened Calendar
  import opened Decimal
  import opened Order
  import opened Partition
  import opened Validation
  import opened Soundness
  import opened Query
  import opened Rollup

  // ---- paging -------------------------------------------------------------------------------

  const TWO_63: int := 0x8000_0000_0000_0000
  const TWO_64: int := 0x1_0000_0000_0000_0000

  /** pagination: defaults for missing values, a bound on the size. */
  function Pagination(page: int, size: int): Option<(int, int)> {
    var p, z := if page <= 0 then 1 else page, if size <= 0 then 20 else size;
    if z > 100 then None else Some((p, z))
  }

  /** 64-bit wrap-around. */
  function Wrap64(x: int): int { (x + TWO_63) % TWO_64 - TWO_63 }

  /** (page-1)*pageSize in machine arithmetic. */
  function Offset(page: int, size: int): int { Wrap64((page - 1) * size) }

  function Min(a: int, b: int): int { if a <= b then a else b }

  /** LIMIT limit OFFSET offset */
  function Slice<T>(s: seq<T>, limit: nat, offset: nat): seq<T> {
    s[Min(offset, |s|)..Min(offset + limit, |s|)]
  }

  /** Page p, counted from 1, of a list. */
  function PageOf<T>(s: seq<T>, page: int, size: nat): seq<T>
    requires page >= 1
  {
    Slice(s, size, (page - 1) * size)
  }

  /** The offset is the intended one exactly when the product fits; past that the query reads somewhere else. */
  lemma OffsetIsExact(page: int, size: int)
    requires page >= 1 && size >= 1
    ensures Offset(page, size) == (page - 1) * size <==> (page - 1) * size <= MAX_INT64
  {
    var x := (page - 1) * size;
    assert x >= 0;
  }

  /** Pages 1 to n, one after the other. */
  function Pages<T>(s: seq<T>, size: nat, n: nat): seq<T> {
    if n == 0 then [] else Pages(s, size, n - 1) + PageOf(s, n, size)
  }

  lemma {:induction false} PagesArePrefix<T>(s: seq<T>, size: nat, n: nat)
    ensures n * size >= 0 && Pages(s, size, n) == s[..Min(n * size, |s|)]
  {
    if n > 0 {
      PagesArePrefix(s, size, n - 1);
      assert n * size == (n - 1) * size + size;
      var a, b := Min((n - 1) * size, |s|), Min(n * size, |s|);
      assert s[..a] + s[a..b] == s[..b];
    }
  }

  function PageCount(total: nat, size: nat): nat
    requires size >= 1
  {
    (total + size - 1) / size
  }

  lemma PageCountCovers(total: nat, size: nat)
    requires size >= 1
    ensures PageCount(total, size) * size >= total
    ensures forall n: nat :: n < PageCount(total, size) ==> n * size < total
  {
    var c := PageCount(total, size);
    var x := total + size - 1;
    assert x == size * (x / size) + x % size;
    forall n: nat | n < c ensures n * size < total {
      assert (n + 1) * size <= c * size;
    }
  }

  lemma PageIsEmptyIff<T>(s: seq<T>, page: int, size: nat)
    requires page >= 1 && size >= 1
    ensures (page - 1) * size >= 0 && (PageOf(s, page, size) == [] <==> (page - 1) * size >= |s|)
  {
  }

  lemma PageNumbers(total: nat, page: int, size: nat)
    requires page >= 1 && size >= 1
    ensures (page - 1) * size >= total <==> page > PageCount(total, size)
  {
    hide PageCount;
    var c := PageCount(total, size);
    PageCountCovers(total, size);
    if page > c {
      assert (page - 1) * size >= c * size;
    }
  }

  /** Pages 1 to ceil(total/size) are the list, nothing lost or repeated; each of them has an item; later pages are empty. */
  lemma PagesAreTheList<T>(s: seq<T>, size: nat)
    requires size >= 1
    ensures Pages(s, size, PageCount(|s|, size)) == s
    ensures forall p :: p >= 1 ==> (PageOf(s, p, size) == [] <==> p > PageCount(|s|, size))
  {
    hide PageCount, PageOf;
    PageCountCovers(|s|, size);
    PagesArePrefix(s, size, PageCount(|s|, size));
    forall p | p >= 1 ensures PageOf(s, p, size) == [] <==> p > PageCount(|s|, size) {
      PageIsEmptyIff(s, p, size);
      PageNumbers(|s|, p, size);
    }
  }

  // ---- the answer ---------------------------------------------------------------------------

  /** A point of an answer. Decoding JSON null leaves a nil map, which is not the empty one: dims is Null then. */
  datatype UsagePoint = UsagePoint(start: int, end: int, quantity: int, dims: Dimensions)

  datatype Answer = Answer(items: seq<UsagePoint>, total: nat, page: int, size: int, quantity: int)

  datatype Request = Request(tenant: string, app: string, meter: string, start: Option<int>, end: Option<int>,
                             dims: map<string, string>, granularity: string, page: int, size: int)

  /** What the server and the process add: the rendering of dimensions, and the location scanned times carry. */
  datatype Setting = Setting(text: Rendering, location: Zone)

  function ItemOf(g: Granularity, location: Zone): Point -> UsagePoint {
    (p: Point) => UsagePoint(p.window, NextWindow(g, p.window, location), p.quantity, p.dims)
  }

  function ParseGranularity(s: string): Option<Granularity> {
    if s == "hour" then Some(Hour) else if s == "day" then Some(Day) else if s == "month" then Some(Month) else None
  }

  predicate ValidRange(r: Request) {
    r.start.Some? && r.end.Some? && r.start.value < r.end.value <= r.start.value + MAX_RANGE
  }

  function FilterOf(r: Request): Filter
    requires ValidRange(r)
  {
    Filter(Scope(r.tenant, r.app), r.meter, r.start.value, r.end.value, r.dims)
  }

  /** Everything the request is refused for, in the order of the code. */
  function Refusal(ms: seq<Meter>, caller: Caller, verify: Scope -> Verdict, r: Request): Option<Error> {
    if Pagination(r.page, r.size).None? then Some(Invalid)
    else if r.tenant == "" || r.app == "" || r.meter == "" || !ValidRange(r) then Some(Invalid)
    else if AuthorizeTenant(caller, r.tenant).Some? then AuthorizeTenant(caller, r.tenant)
    else if VerdictError(verify(Scope(Trim(r.tenant), Trim(r.app)))).Some?
    then VerdictError(verify(Scope(Trim(r.tenant), Trim(r.app))))
    else if MeterByCode(ms, r.meter).None? then Some(NotFound)
    else if ParseGranularity(r.granularity).None? then Some(Invalid)
    else None
  }

  /** All points of an accepted request, before paging. */
  function AllPoints(e: Setting, s: Store, r: Request): seq<Point>
    requires ValidRange(r) && ParseGranularity(r.granularity).Some? && MeterByCode(s.meters, r.meter).Some?
  {
    Points(e.text, ParseGranularity(r.granularity).value, MeterByCode(s.meters, r.meter).value.aggregation,
           Matching(FilterOf(r), s.facts))
  }

  /** QueryUsage as a function of one snapshot of the tables. */
  function Ask(e: Setting, s: Store, caller: Caller, verify: Scope -> Verdict, r: Request): Result<Answer> {
    var refusal := Refusal(s.meters, caller, verify, r);
    if refusal.Some? then Err(refusal.value)
    else
      var (page, size) := Pagination(r.page, r.size).value;
      var ps, g := AllPoints(e, s, r), ParseGranularity(r.granularity).value;
      if Offset(page, size) < 0 then Err(Internal)
      else Ok(Answer(Map(ItemOf(g, e.location), Slice(ps, size, Offset(page, size))), |ps|, page, size,
                     Total(PointQuantity, ps)))
  }

  /** AggregateUsage: the two statements, then the loop that turns rows into points. */
  method AggregateUsage(e: Setting, facts: seq<Fact>, q: Filter, g: Granularity, agg: Aggregation, limit: nat, offset: nat)
    returns (items: seq<UsagePoint>, total: nat, quantity: int)
    ensures var ps := Points(e.text, g, agg, Matching(q, facts));
      && items == Map(ItemOf(g, e.location), Slice(ps, limit, offset))
      && total == |ps| && quantity == Total(PointQuantity, ps)
  {
    var grouped := Points(e.text, g, agg, Matching(q, facts));
    total, quantity := |grouped|, Total(PointQuantity, grouped);
    var rows := Slice(grouped, limit, offset);
    items := [];
    for i := 0 to |rows|
      invariant items == Map(ItemOf(g, e.location), rows[..i])
    {
      var row := rows[i];
      items := items + [UsagePoint(row.window, NextWindow(g, row.window, e.location), row.quantity, row.dims)];
      assert rows[..i + 1] == rows[..i] + [row];
    }
    assert rows[..|rows|] == rows;
  }

  method QueryUsage(e: Setting, s: Store, caller: Caller, verify: Scope -> Verdict, r: Request) returns (a: Result<Answer>)
    ensures a == Ask(e, s, caller, verify, r)
  {
    hide Points, Matching, NextWindow, Trim;
    var paging := Pagination(r.page, r.size);
    if paging.None? {
      return Err(Invalid);
    }
    var (page, size) := paging.value;
    if r.tenant == "" || r.app == "" || r.meter == "" || !ValidRange(r) {
      return Err(Invalid);
    }
    var denied := AuthorizeTenant(caller, r.tenant);
    if denied.Some? {
      return Err(denied.value);
    }
    var bad := VerdictError(verify(Scope(Trim(r.tenant), Trim(r.app))));
    if bad.Some? {
      return Err(bad.value);
    }
    var meter := MeterByCode(s.meters, r.meter);
    if meter.None? {
      return Err(NotFound);
    }
    var g := ParseGranularity(r.granularity);
    if g.None? {
      return Err(Invalid);
    }
    var offset := Offset(page, size);
    if offset < 0 {
      return Err(Internal);
    }
    var items, total, quantity := AggregateUsage(e, s.facts, FilterOf(r), g.value, meter.value.aggregation, size, offset);
    return Ok(Answer(items, total, page, size, quantity));
  }

  // ---- laws of the answer -------------------------------------------------------------------

  lemma SliceIsPage<T>(s: seq<T>, page: int, size: nat)
    requires page >= 1 && size >= 1 && (page - 1) * size <= MAX_INT64
    ensures Offset(page, size) >= 0 && Slice(s, size, Offset(page, size)) == PageOf(s, page, size)
  {
    OffsetIsExact(page, size);
  }

  /** With no overflow an answer is its page of all points, with their number and total. */
  lemma AnswerIsItsPage(e: Setting, s: Store, caller: Caller, verify: Scope -> Verdict, r: Request)
    requires Refusal(s.meters, caller, verify, r).None?
    requires var (page, size) := Pagination(r.page, r.size).value; (page - 1) * size <= MAX_INT64
    ensures var ps, (page, size) := AllPoints(e, s, r), Pagination(r.page, r.size).value;
      Ask(e, s, caller, verify, r) == Ok(Answer(
        Map(ItemOf(ParseGranularity(r.granularity).value, e.location), PageOf(ps, page, size)),
        |ps|, page, size, Total(PointQuantity, ps)))
  {
    var (page, size) := Pagination(r.page, r.size).value;
    hide AllPoints, ItemOf, Offset, Slice, PageOf, Trim, AuthorizeTenant, VerdictError, MeterByCode;
    SliceIsPage(AllPoints(e, s, r), page, size);
  }

  /** Every answer of a sum or count meter reports the sum or count of all facts its filter lets through. */
  lemma AnswersConserveQuantity(e: Setting, s: Store, caller: Caller, verify: Scope -> Verdict, r: Request)
    requires Injective(e.text) && Ask(e, s, caller, verify, r).Ok?
    ensures ValidRange(r) && MeterByCode(s.meters, r.meter).Some?
    ensures var agg, fs := MeterByCode(s.meters, r.meter).value.aggregation, Matching(FilterOf(r), s.facts);
      var quantity := Ask(e, s, caller, verify, r).value.quantity;
      && (agg.Sum? ==> quantity == Total(Quantity, fs))
      && (agg.Count? ==> quantity == |fs|)
  {
    hide Injective, Points, Matching, ItemOf, Trim, AuthorizeTenant, VerdictError, MeterByCode, Offset, Slice;
    QuantityIsConserved(e.text, ParseGranularity(r.granularity).value, MeterByCode(s.meters, r.meter).value.aggregation,
                        Matching(FilterOf(r), s.facts));
  }

  /** A query answer depends on no fact outside its tenant, application and meter. */
  lemma AnswersDoNotInterfere(e: Setting, s: Store, t: Store, caller: Caller, verify: Scope -> Verdict, r: Request)
    requires t.meters == s.meters
    requires Select(InTarget(Scope(r.tenant, r.app), r.meter), true, s.facts)
          == Select(InTarget(Scope(r.tenant, r.app), r.meter), true, t.facts)
    ensures Ask(e, s, caller, verify, r) == Ask(e, t, caller, verify, r)
  {
    hide Points, Matching, InTarget, ItemOf, Trim, AuthorizeTenant, VerdictError, MeterByCode;
    if ValidRange(r) {
      OnlyTargetContributes(FilterOf(r), s.facts);
      OnlyTargetContributes(FilterOf(r), t.facts);
    }
  }

  /** Every fact a user's answer is made of belongs to that user's tenant, although the query does not trim its ids. */
  lemma UsersSeeTheirTenant(e: Setting, s: Store, caller: Caller, verify: Scope -> Verdict, r: Request, f: Fact)
    requires Ask(e, s, caller, verify, r).Ok? && caller.Principal? && caller.kind == User
    requires Sound(s) && ValidRange(r) && f in Matching(FilterOf(r), s.facts)
    ensures f.scope.tenant == caller.tenant != ""
  {
    hide Points, Matching, MeterByCode, Trim, Slice, ItemOf, Sound;
    OnlyTargetContributes(FilterOf(r), s.facts);
    StoredFactIsNormal(s, f);
    TrimIsNormal(r.tenant);
  }

  lemma StoredFactIsNormal(s: Store, f: Fact)
    requires Sound(s) && f in s.facts
    ensures Normalised(f)
  {
    hide Ingestion.OneToOne, Ingestion.OutboxMatches, Meters.LogsHold, Fits, Normalised;
    var i :| 0 <= i < |s.facts| && s.facts[i] == f;
    assert Admitted(s.meters, s.facts[i]);
  }

  /** On sound tables, and for every range and dimension filter, coarse points follow from the finer points inside them. */
  lemma QueriesRollUp(text: Rendering, fine: Granularity, coarse: Granularity, agg: Aggregation, s: Store, q: Filter, k: GroupKey)
    requires Injective(text) && Refines(fine, coarse) && Sound(s)
    ensures var fs := Matching(q, s.facts);
      var ps := FinerPoints(coarse, k, Points(text, fine, agg, fs));
      && (ps != [] <==> k in Keys(text, coarse, fs))
      && Combine(agg, ps) == PointAt(coarse, agg, fs)(k).quantity
  {
    hide Injective, FinerPoints, Points, Keys, Combine, PointAt;
    assert DistinctIds(s.facts);
    SelectKeepsDistinctIds(Where(q), true, s.facts);
    PointsRollUp(text, fine, coarse, agg, Matching(q, s.facts), k);
  }

  // ---- how many points ----------------------------------------------------------------------

  function DimsOf(p: Point): Dimensions { p.dims }

  lemma {:induction false} RisingIsShort(xs: seq<int>, lo: int, hi: int)
    requires forall i :: 0 <= i < |xs| ==> lo <= xs[i] <= hi
    requires forall i, j :: 0 <= i < j < |xs| ==> xs[i] < xs[j]
    ensures xs == [] || |xs| <= hi - lo + 1
  {
    if |xs| > 1 {
      RisingIsShort(xs[..|xs| - 1], lo, xs[|xs| - 1] - 1);
    }
  }

  function WindowOf(g: Granularity): Point -> int { (p: Point) => WindowIndex(g, p.window) }

  /** A point starts the window of some matching fact. */
  lemma PointStartsWindow(text: Rendering, g: Granularity, agg: Aggregation, fs: seq<Fact>, p: Point)
    requires Injective(text) && p in Points(text, g, agg, fs)
    ensures exists f :: f in fs && f.dims == p.dims && WindowIndex(g, f.occurredAt) == WindowIndex(g, p.window)
                     && p.window == WindowStart(g, WindowIndex(g, p.window))
  {
    hide Injective, Aggregate, Before, Sorted, WindowIndex, WindowStart;
    var i :| 0 <= i < |Keys(text, g, fs)| && Points(text, g, agg, fs)[i] == p;
    KeysAreGroups(text, g, fs);
    assert Keys(text, g, fs)[i] in Keys(text, g, fs);
    var f :| f in fs && KeyOfFact(g, f) == Keys(text, g, fs)[i];
    WindowIndexOfStart(g, WindowIndex(g, f.occurredAt));
  }

  predicate Rising(ps: seq<Point>) {
    forall i, j :: 0 <= i < j < |ps| ==> ps[i].window < ps[j].window
  }

  lemma PointsRise(text: Rendering, g: Granularity, agg: Aggregation, fs: seq<Fact>, d: Dimensions)
    requires Injective(text)
    ensures Rising(Select(DimsOf, d, Points(text, g, agg, fs)))
  {
    hide Injective, Aggregate, Bucket;
    var ks := Keys(text, g, fs);
    KeysAreGroups(text, g, fs);
    SelectMap(PointAt(g, agg, fs), KeyDims, DimsOf, d, ks);
    SelectIsSorted(Before(text), KeyDims, d, ks);
    SelectMembers(KeyDims, d, ks);
    var js := Select(KeyDims, d, ks);
    forall i, j | 0 <= i < j < |js| ensures js[i].window < js[j].window {
      assert js[i] in js && js[j] in js;
      assert Before(text)(js[i], js[j]);
      LessIsIrreflexive(text(d));
    }
  }

  function KeyDims(k: GroupKey): Dimensions { k.dims }

  /** For each dimension value an accepted query has at most 8785 hour, 367 day or 14 month points. */
  lemma PointsAreFew(text: Rendering, g: Granularity, agg: Aggregation, q: Filter, facts: seq<Fact>, d: Dimensions)
    requires Injective(text) && q.start < q.end <= q.start + MAX_RANGE
    ensures |Select(DimsOf, d, Points(text, g, agg, Matching(q, facts)))| <= MaxWindows(g)
  {
    hide Injective, Points, Matching, WindowIndex, WindowStart, Select;
    var fs := Matching(q, facts);
    var ps := Select(DimsOf, d, Points(text, g, agg, fs));
    var xs := Map(WindowOf(g), ps);
    PointsRise(text, g, agg, fs, d);
    SelectMembers(DimsOf, d, Points(text, g, agg, fs));
    forall i | 0 <= i < |xs|
      ensures WindowIndex(g, q.start) <= xs[i] <= WindowIndex(g, q.end - 1)
      ensures ps[i].window == WindowStart(g, xs[i])
    {
      assert ps[i] in ps;
      WindowInRange(text, g, agg, q, facts, ps[i]);
    }
    forall i, j | 0 <= i < j < |xs| ensures xs[i] < xs[j] {
      assert ps[i].window < ps[j].window;
      assert ps[i].window == WindowStart(g, xs[i]) && ps[j].window == WindowStart(g, xs[j]);
      WindowStartIsMonotone(g, xs[i], xs[j]);
    }
    RisingIsShort(xs, WindowIndex(g, q.start), WindowIndex(g, q.end - 1));
    RangeTouchesFewWindows(g, q.start, q.end);
  }

  lemma WindowInRange(text: Rendering, g: Granularity, agg: Aggregation, q: Filter, facts: seq<Fact>, p: Point)
    requires Injective(text) && p in Points(text, g, agg, Matching(q, facts))
    ensures WindowIndex(g, q.start) <= WindowIndex(g, p.window) <= WindowIndex(g, q.end - 1)
    ensures p.window == WindowStart(g, WindowIndex(g, p.window))
  {
    hide Injective, Points, Matching, WindowIndex, WindowStart, Contains;
    PointStartsWindow(text, g, agg, Matching(q, facts), p);
    var f :| f in Matching(q, facts) && f.dims == p.dims && WindowIndex(g, f.occurredAt) == WindowIndex(g, p.window)
          && p.window == WindowStart(g, WindowIndex(g, p.window));
    OnlyTargetContributes(q, facts);
    WindowIndexIsMonotone(g, q.start, f.occurredAt);
    WindowIndexIsMonotone(g, f.occurredAt, q.end - 1);
  }
}
