/** The product-listing endpoint: range check, text and equality filters,
    composition filter, sort-key check, sort, pagination and the response
    envelope. */
module Listing {
  import opened Base
  import opened Errors
  import opened Catalog
  import opened Ranges
  import opened Ordering
  import opened Paging

  /** The decoded query parameters of one listing request. */
  datatype Query = Query(
    page: int,
    pageSize: int,
    q: Option<string>,
    brand: Option<string>,
    source: Option<string>,
    carbonated: Option<bool>,
    bounds: Bounds,
    profile: Option<Profile>,
    sortBy: string,
    sortDir: Dir)

  /** The handler's parameter defaults: first page of 20, sorted by brand
      ascending, no search, no filter, no bound and no profile. */
  const DefaultQuery := Query(1, 20, None, None, None, None, NoBounds, None, "brand", Asc)

  /** What the framework enforces before the handler runs. */
  predicate ValidPaging(query: Query)
  {
    query.page >= 1 && 1 <= query.pageSize <= 100
  }

  /** The `filters` block of the response: the parameters as received. */
  datatype FilterEcho = FilterEcho(
    q: Option<string>, brand: Option<string>, source: Option<string>,
    carbonated: Option<bool>, profile: Option<Profile>, bounds: Bounds)

  /** The `sort` echo: the key as given and the direction as `"asc"` or
      `"desc"`. */
  datatype SortEcho = SortEcho(key: string, dir: string)

  datatype Envelope = Envelope(
    items: seq<Product>, pagination: Pagination, sort: SortEcho, filters: FilterEcho)

  // ---- Per-product conditions ----

  /** Python truthiness of an optional string: present and non-empty. */
  predicate Given(s: Option<string>)
  {
    s.Some? && |s.value| > 0
  }

  /** The search condition for an already lowered query `ql`. */
  predicate MatchesSearch(p: Product, ql: string)
  {
    || Contains(Lower(p.name), ql)
    || Contains(Lower(p.brand), ql)
    || (Given(p.source) && Contains(Lower(p.source.value), ql))
  }

  predicate PassesSearch(p: Product, q: Option<string>)
  {
    Given(q) ==> MatchesSearch(p, Lower(q.value))
  }

  predicate PassesBrand(p: Product, brand: Option<string>)
  {
    Given(brand) ==> Lower(p.brand) == Lower(brand.value)
  }

  predicate PassesSource(p: Product, source: Option<string>)
  {
    Given(source) ==> Given(p.source) && Lower(p.source.value) == Lower(source.value)
  }

  predicate PassesCarbonated(p: Product, carbonated: Option<bool>)
  {
    carbonated.Some? ==> p.carbonated == carbonated
  }

  /** The composition filter is switched on by any bound or by a profile. */
  predicate CompositionActive(query: Query)
  {
    AnyBound(query.bounds) || query.profile.Some?
  }

  predicate PassesComposition(p: Product, query: Query)
  {
    CompositionActive(query) ==> AdmitsComposition(p.composition, query.bounds)
  }

  /** Every filter of the request lets `p` through. */
  predicate Admits(p: Product, query: Query)
  {
    && PassesSearch(p, query.q)
    && PassesBrand(p, query.brand)
    && PassesSource(p, query.source)
    && PassesCarbonated(p, query.carbonated)
    && PassesComposition(p, query)
  }

  /** `r` keeps, in order, exactly the elements of `s` (with their
      multiplicity) for which `keep` holds. */
  ghost predicate Selects(r: seq<Product>, s: seq<Product>, keep: Product -> bool)
  {
    && IsSubsequence(r, s)
    && forall x :: multiset(r)[x] == (if keep(x) then multiset(s)[x] else 0)
  }

  // ---- The filters, in the order the endpoint applies them ----

  function Search(items: seq<Product>, q: Option<string>): (r: seq<Product>)
    ensures IsSubsequence(r, items)
    ensures forall x :: multiset(r)[x] == (if PassesSearch(x, q) then multiset(items)[x] else 0)
  {
    if Given(q) then
      var ql := Lower(q.value);
      Filter(items, (p: Product) => MatchesSearch(p, ql))
    else
      SubsequenceReflexive(items);
      items
  }

  function BrandFilter(items: seq<Product>, brand: Option<string>): (r: seq<Product>)
    ensures IsSubsequence(r, items)
    ensures forall x :: multiset(r)[x] == (if PassesBrand(x, brand) then multiset(items)[x] else 0)
  {
    if Given(brand) then
      Filter(items, (p: Product) => Lower(p.brand) == Lower(brand.value))
    else
      SubsequenceReflexive(items);
      items
  }

  function SourceFilter(items: seq<Product>, source: Option<string>): (r: seq<Product>)
    ensures IsSubsequence(r, items)
    ensures forall x :: multiset(r)[x] == (if PassesSource(x, source) then multiset(items)[x] else 0)
  {
    if Given(source) then
      Filter(items, (p: Product) => Given(p.source) && Lower(p.source.value) == Lower(source.value))
    else
      SubsequenceReflexive(items);
      items
  }

  function CarbonatedFilter(items: seq<Product>, carbonated: Option<bool>): (r: seq<Product>)
    ensures IsSubsequence(r, items)
    ensures forall x :: multiset(r)[x] == (if PassesCarbonated(x, carbonated) then multiset(items)[x] else 0)
  {
    if carbonated.Some? then
      Filter(items, (p: Product) => p.carbonated == carbonated)
    else
      SubsequenceReflexive(items);
      items
  }

  /** The endpoint's `filt` as a per-product test. */
  function WithinBounds(b: Bounds): Product -> bool
  {
    (p: Product) => AdmitsComposition(p.composition, b)
  }

  function CompositionFilter(items: seq<Product>, query: Query): (r: seq<Product>)
    ensures IsSubsequence(r, items)
    ensures forall x :: multiset(r)[x] == (if PassesComposition(x, query) then multiset(items)[x] else 0)
  {
    if AnyBound(query.bounds) || query.profile.Some? then
      Filter(items, WithinBounds(query.bounds))
    else
      SubsequenceReflexive(items);
      items
  }

  /** The catalog after all five filters: in catalog order, exactly the
      products every filter admits. */
  function Filtered(catalog: seq<Product>, query: Query): (r: seq<Product>)
    ensures IsSubsequence(r, catalog)
    ensures forall x :: multiset(r)[x] == (if Admits(x, query) then multiset(catalog)[x] else 0)
    ensures forall p :: p in r <==> p in catalog && Admits(p, query)
  {
    var s1 := Search(catalog, query.q);
    var s2 := BrandFilter(s1, query.brand);
    var s3 := SourceFilter(s2, query.source);
    var s4 := CarbonatedFilter(s3, query.carbonated);
    var s5 := CompositionFilter(s4, query);
    SubsequenceTransitive(s2, s1, catalog);
    SubsequenceTransitive(s3, s2, catalog);
    SubsequenceTransitive(s4, s3, catalog);
    SubsequenceTransitive(s5, s4, catalog);
    assert forall p :: p in s5 <==> multiset(s5)[p] > 0;
    assert forall p :: p in catalog <==> multiset(catalog)[p] > 0;
    s5
  }

  /** When every product passes every filter, the listing is the whole
      catalog in catalog order. */
  lemma FilteredAll(catalog: seq<Product>, query: Query)
    requires forall p :: p in catalog ==> Admits(p, query)
    ensures Filtered(catalog, query) == catalog
  {
    var r := Filtered(catalog, query);
    assert multiset(r) == multiset(catalog) by {
      forall x ensures multiset(r)[x] == multiset(catalog)[x] {
        if !Admits(x, query) {
          assert x !in catalog;
        }
      }
    }
    assert |r| == |multiset(r)| == |multiset(catalog)| == |catalog|;
    SubsequenceOfSameLength(r, catalog);
  }

  // ---- The endpoint ----

  function Echo(query: Query): FilterEcho
  {
    FilterEcho(query.q, query.brand, query.source, query.carbonated, query.profile, query.bounds)
  }

  /** The filtered products in response order: a permutation of them,
      ordered by the key in the requested direction, with equal keys kept
      in catalog order. */
  function Ranked(catalog: seq<Product>, query: Query, f: SortField): (r: seq<Product>)
    ensures multiset(r) == multiset(Filtered(catalog, query))
    ensures SortedBy(r, SortKey(f), query.sortDir)
    ensures forall k :: Filter(r, HasKey(SortKey(f), k))
                        == Filter(Filtered(catalog, query), HasKey(SortKey(f), k))
  {
    var items := Filtered(catalog, query);
    SortByStableAll(items, SortKey(f), query.sortDir);
    SortBy(items, SortKey(f), query.sortDir)
  }

  lemma SortByStableAll(s: seq<Product>, key: Product -> Key, d: Dir)
    ensures forall k :: Filter(SortBy(s, key, d), HasKey(key, k)) == Filter(s, HasKey(key, k))
  {
    forall k ensures Filter(SortBy(s, key, d), HasKey(key, k)) == Filter(s, HasKey(key, k)) {
      SortByStable(s, key, d, k);
    }
  }

  /** The success envelope for the products in response order. */
  function Respond(ranked: seq<Product>, query: Query): (env: Envelope)
    requires ValidPaging(query)
    ensures |env.items| <= query.pageSize
    ensures |env.items| == (if Start(query.page, query.pageSize) < |ranked|
                            then Min(query.pageSize, |ranked| - Start(query.page, query.pageSize))
                            else 0)
    ensures forall i :: 0 <= i < |env.items| ==>
              Start(query.page, query.pageSize) + i < |ranked|
              && env.items[i] == ranked[Start(query.page, query.pageSize) + i]
    ensures env.pagination.page == query.page && env.pagination.pageSize == query.pageSize
    ensures env.pagination.totalItems == |ranked|
    ensures (env.pagination.totalPages - 1) * query.pageSize < |ranked|
              <= env.pagination.totalPages * query.pageSize
    ensures env.sort == SortEcho(query.sortBy, DirName(query.sortDir))
    ensures env.filters.bounds == query.bounds && env.filters.profile == query.profile
    ensures env.filters.q == query.q && env.filters.brand == query.brand
            && env.filters.source == query.source && env.filters.carbonated == query.carbonated
  {
    var n := |ranked|;
    var items := PageItems(ranked, query.page, query.pageSize);
    var pages := TotalPages(n, query.pageSize);
    Envelope(
      items,
      Pagination(query.page, query.pageSize, n, pages),
      SortEcho(query.sortBy, DirName(query.sortDir)),
      Echo(query))
  }

  /** `list_products`. The profile only switches the composition filter
      on: every bound the handler checks, applies and echoes is the
      caller's own. */
  function ListProducts(catalog: seq<Product>, query: Query): (r: Result<Envelope, ApiError>)
    requires ValidPaging(query)
    ensures (exists a: Attr :: Inverted(RangeOf(query.bounds, a))) ==>
              r.Err? && r.error.BadRequest? && r.error.code == InvalidRange
    ensures (forall a: Attr :: !Inverted(RangeOf(query.bounds, a))) && query.sortBy !in AllowList ==>
              r == Err(SortByError())
    ensures r.Ok? <==> (forall a: Attr :: !Inverted(RangeOf(query.bounds, a))) && query.sortBy in AllowList
    ensures r.Ok? ==> ParseSortBy(query.sortBy).Some?
                      && r.value == Respond(Ranked(catalog, query, ParseSortBy(query.sortBy).value), query)
  {
    match CheckRanges(query.bounds)
    case Some(e) => Err(e)
    case None =>
      match ParseSortBy(query.sortBy)
      case None => Err(SortByError())
      case Some(f) => Ok(Respond(Ranked(catalog, query, f), query))
  }

  /** A failing range check names the first inverted pair in check order,
      whatever `sortBy` holds. */
  lemma RangeErrorNamesFirst(catalog: seq<Product>, query: Query, a: Attr)
    requires ValidPaging(query)
    requires Inverted(RangeOf(query.bounds, a))
    requires forall a': Attr :: Rank(a') < Rank(a) ==> !Inverted(RangeOf(query.bounds, a'))
    ensures ListProducts(catalog, query) == Err(RangeError(a))
  {
    var e := CheckRanges(query.bounds);
    var a0: Attr :| e.value == RangeError(a0) && Inverted(RangeOf(query.bounds, a0))
                    && forall a': Attr :: Rank(a') < Rank(a0) ==> !Inverted(RangeOf(query.bounds, a'));
    if Rank(a0) < Rank(a) {
    } else if Rank(a) < Rank(a0) {
    } else {
      RankInjective(a0, Rank(a));
    }
  }

  /** The profile never changes a bound: which profile is chosen makes no
      difference to the result beyond its echo. */
  lemma ProfileChoiceIrrelevant(catalog: seq<Product>, query: Query, p1: Profile, p2: Profile)
    requires ValidPaging(query)
    ensures var r1 := ListProducts(catalog, query.(profile := Some(p1)));
            var r2 := ListProducts(catalog, query.(profile := Some(p2)));
            && r1.Ok? == r2.Ok?
            && (r1.Err? ==> r1 == r2)
            && (r1.Ok? ==> r1.value.items == r2.value.items
                           && r1.value.pagination == r2.value.pagination
                           && r1.value.filters.bounds == query.bounds)
  {
    var q1 := query.(profile := Some(p1));
    var q2 := query.(profile := Some(p2));
    assert forall p :: Admits(p, q1) == Admits(p, q2);
    FilteredDependsOnlyOnAdmits(catalog, q1, q2);
  }

  /** Two queries whose filters admit the same products filter alike. */
  lemma FilteredDependsOnlyOnAdmits(catalog: seq<Product>, q1: Query, q2: Query)
    requires forall p :: Admits(p, q1) == Admits(p, q2)
    ensures Filtered(catalog, q1) == Filtered(catalog, q2)
  {
    SelectsUnique(Filtered(catalog, q1), Filtered(catalog, q2), catalog,
                  (p: Product) => Admits(p, q1));
  }

  /** `Selects` determines its result. */
  lemma {:induction false} SelectsUnique(r1: seq<Product>, r2: seq<Product>, s: seq<Product>,
                                         keep: Product -> bool)
    requires Selects(r1, s, keep) && Selects(r2, s, keep)
    ensures r1 == r2
    decreases |s|
  {
    if |s| == 0 {
    } else {
      var x := s[0];
      assert s == [x] + s[1..];
      SelectsTail(r1, s, keep);
      SelectsTail(r2, s, keep);
      if keep(x) {
        SelectsUnique(r1[1..], r2[1..], s[1..], keep);
        assert r1 == [r1[0]] + r1[1..] && r2 == [r2[0]] + r2[1..];
      } else {
        SelectsUnique(r1, r2, s[1..], keep);
      }
    }
  }

  /** Peeling the first catalog element off a selection. */
  lemma SelectsTail(r: seq<Product>, s: seq<Product>, keep: Product -> bool)
    requires |s| > 0 && Selects(r, s, keep)
    ensures keep(s[0]) ==> |r| > 0 && r[0] == s[0] && Selects(r[1..], s[1..], keep)
    ensures !keep(s[0]) ==> Selects(r, s[1..], keep)
  {
    var x := s[0];
    assert s == [x] + s[1..];
    if keep(x) {
      assert multiset(r)[x] > 0;
      assert |r| > 0;
      if r[0] == x && IsSubsequence(r[1..], s[1..]) {
        assert r == [r[0]] + r[1..];
      } else {
        assert IsSubsequence(r, s[1..]);
        SubsequenceCount(r, s[1..], x);
        assert false;
      }
    } else {
      assert multiset(r)[x] == 0;
      if |r| > 0 && r[0] == x {
        assert false;
      }
      assert IsSubsequence(r, s[1..]);
    }
  }

  /** A subsequence holds no more copies of anything than its source. */
  lemma {:induction false} SubsequenceCount<T>(a: seq<T>, b: seq<T>, x: T)
    requires IsSubsequence(a, b)
    ensures multiset(a)[x] <= multiset(b)[x]
    decreases |b|
  {
    if |a| == 0 {
    } else if a[0] == b[0] && IsSubsequence(a[1..], b[1..]) {
      SubsequenceCount(a[1..], b[1..], x);
      assert a == [a[0]] + a[1..] && b == [b[0]] + b[1..];
    } else {
      SubsequenceCount(a, b[1..], x);
      assert b == [b[0]] + b[1..];
    }
  }

  /** With only a profile set, the result is exactly the fully measured
      products: presets are never applied, yet a missing measurement of any
      attribute excludes the product. */
  lemma ProfileAloneKeepsFullyMeasured(catalog: seq<Product>, query: Query, p: Product)
    requires query.profile.Some? && query.bounds == NoBounds
    requires !Given(query.q) && !Given(query.brand) && !Given(query.source) && query.carbonated.None?
    ensures p in Filtered(catalog, query) <==> p in catalog && FullyMeasured(p.composition)
  {
    AdmitsUnboundedIffFullyMeasured(p.composition);
  }

  /** Without any bound or profile, composition is ignored entirely. */
  lemma NoCompositionFilterWithoutBounds(catalog: seq<Product>, query: Query, p: Product)
    requires query.profile.None? && query.bounds == NoBounds
    ensures Admits(p, query) <==> PassesSearch(p, query.q) && PassesBrand(p, query.brand)
                                  && PassesSource(p, query.source)
                                  && PassesCarbonated(p, query.carbonated)
  {
    assert !AnyBound(NoBounds);
  }
}
