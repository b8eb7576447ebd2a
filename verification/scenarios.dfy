/** Requests against the seed catalog, with the answers the endpoints give. */
module Scenarios {
  import opened Base
  import opened Errors
  import opened Catalog
  import opened Ranges
  import opened Ordering
  import opened Paging
  import opened Listing

  const MaxSodium20 := NoBounds.(na := Range(None, Some(20.0)))

  /** `?maxNa=20`. */
  const LowSodiumQuery := DefaultQuery.(bounds := MaxSodium20)

  /** `maxNa=20` keeps the three products with at most 20 mg/L sodium, in
      brand order, on a single page. */
  lemma MaxSodiumTwenty()
    ensures var r := ListProducts(Seed, LowSodiumQuery);
            && r.Ok?
            && r.value.items == [Akmina, Kizilay, Sirma]
            && r.value.pagination.totalItems == 3
            && r.value.pagination.totalPages == 1
  {
    SodiumBoundConsistent();
    assert ParseSortBy("brand") == Some(ByBrand);
    LowSodiumPage();
  }

  /** The envelope for the ranked low-sodium products. */
  lemma LowSodiumPage()
    ensures var env := Respond(Ranked(Seed, LowSodiumQuery, ByBrand), LowSodiumQuery);
            && env.items == [Akmina, Kizilay, Sirma]
            && env.pagination.totalItems == 3
            && env.pagination.totalPages == 1
  {
    LowSodiumRanked();
    SinglePage([Akmina, Kizilay, Sirma], LowSodiumQuery);
  }

  /** A non-empty list that fits on the first page is that page, whole. */
  lemma SinglePage(ranked: seq<Product>, query: Query)
    requires ValidPaging(query) && query.page == 1
    requires 0 < |ranked| <= query.pageSize
    ensures Respond(ranked, query).items == ranked
    ensures Respond(ranked, query).pagination.totalPages == 1
  {
    var env := Respond(ranked, query);
    var n, ps, t := |ranked|, query.pageSize, env.pagination.totalPages;
    assert Start(1, ps) == 0;
    assert |env.items| == n;
    assert env.items == ranked;
    if t >= 2 {
      MultiplyMonotone(1, t - 1, ps);
    } else if t <= 0 {
      MultiplyMonotone(t, 0, ps);
    }
  }

  lemma SodiumBoundConsistent()
    ensures CheckRanges(MaxSodium20).None?
  {
    forall a: Attr ensures !Inverted(RangeOf(MaxSodium20, a)) {
      AttrCases(a);
    }
  }

  lemma LowSodiumRanked()
    ensures Ranked(Seed, LowSodiumQuery, ByBrand) == [Akmina, Kizilay, Sirma]
  {
    LowSodiumFiltered();
    BrandOrder();
  }

  lemma LowSodiumFiltered()
    ensures Filtered(Seed, LowSodiumQuery) == [Akmina, Kizilay, Sirma]
  {
    assert AnyBound(MaxSodium20) by {
      assert RangeOf(MaxSodium20, Na) != Open;
    }
    LowSodiumSelection();
  }

  /** The composition filter under `maxNa=20`, product by product. */
  lemma LowSodiumSelection()
    ensures Filter(Seed, WithinBounds(MaxSodium20)) == [Akmina, Kizilay, Sirma]
  {
    SodiumVerdicts();
    FilterFive(Beypazari, Akmina, Kizilay, Uludag, Sirma, WithinBounds(MaxSodium20));
  }

  /** Only sodium is bounded: Beypazarı (350) and Uludağ (30) exceed 20. */
  lemma SodiumVerdicts()
    ensures !WithinBounds(MaxSodium20)(Beypazari)
    ensures WithinBounds(MaxSodium20)(Akmina)
    ensures WithinBounds(MaxSodium20)(Kizilay)
    ensures !WithinBounds(MaxSodium20)(Uludag)
    ensures WithinBounds(MaxSodium20)(Sirma)
  {
  }

  /** "Akmina" < "Kızılay" < "Sırma" by their first letters. */
  lemma BrandOrder()
    ensures SortBy([Akmina, Kizilay, Sirma], SortKey(ByBrand), Asc) == [Akmina, Kizilay, Sirma]
  {
    var key := SortKey(ByBrand);
    BrandOrderTail();
    BrandsAscending();
    assert [Akmina, Kizilay, Sirma][1..] == [Kizilay, Sirma];
    assert Insert(Akmina, [Kizilay, Sirma], key, Asc) == [Akmina, Kizilay, Sirma];
  }

  lemma BrandOrderTail()
    ensures SortBy([Kizilay, Sirma], SortKey(ByBrand), Asc) == [Kizilay, Sirma]
  {
    var key := SortKey(ByBrand);
    BrandsAscending();
    assert SortBy([Sirma], key, Asc) == [Sirma];
    assert [Kizilay, Sirma][1..] == [Sirma];
    assert Insert(Kizilay, [Sirma], key, Asc) == [Kizilay, Sirma];
  }

  lemma BrandsAscending()
    ensures !Before(Asc, SortKey(ByBrand)(Kizilay), SortKey(ByBrand)(Akmina))
    ensures !Before(Asc, SortKey(ByBrand)(Sirma), SortKey(ByBrand)(Kizilay))
  {
    assert Kizilay.brand[0] == 'K' && Akmina.brand[0] == 'A' && Sirma.brand[0] == 'S';
  }

  // ---- Filtering short literal sequences one element at a time ----

  /** What filtering contributes for one element. */
  function Keep<T>(x: T, keep: T -> bool): seq<T>
  {
    if keep(x) then [x] else []
  }

  lemma FilterTwo<T(!new)>(d: T, e: T, keep: T -> bool)
    ensures Filter([d, e], keep) == Keep(d, keep) + Keep(e, keep)
  {
    FilterCons(e, [], keep);
    assert [d, e] == [d] + [e];
    FilterCons(d, [e], keep);
  }

  lemma FilterThree<T(!new)>(c: T, d: T, e: T, keep: T -> bool)
    ensures Filter([c, d, e], keep) == Keep(c, keep) + (Keep(d, keep) + Keep(e, keep))
  {
    var rest := [d, e];
    assert [c, d, e] == [c] + rest;
    FilterCons(c, rest, keep);
    FilterTwo(d, e, keep);
  }

  lemma FilterFour<T(!new)>(b: T, c: T, d: T, e: T, keep: T -> bool)
    ensures Filter([b, c, d, e], keep) == Keep(b, keep) + (Keep(c, keep) + (Keep(d, keep) + Keep(e, keep)))
  {
    var rest := [c, d, e];
    assert [b, c, d, e] == [b] + rest;
    FilterCons(b, rest, keep);
    FilterThree(c, d, e, keep);
  }

  lemma FilterFive<T(!new)>(a: T, b: T, c: T, d: T, e: T, keep: T -> bool)
    ensures Filter([a, b, c, d, e], keep) == Keep(a, keep) + (Keep(b, keep) + (Keep(c, keep) + (Keep(d, keep) + Keep(e, keep))))
  {
    var rest := [b, c, d, e];
    assert [a, b, c, d, e] == [a] + rest;
    FilterCons(a, rest, keep);
    FilterFour(b, c, d, e, keep);
  }

  // ---- Validation and lookup ----

  /** With no bound given, no pair can be inverted. */
  lemma NoBoundsConsistent()
    ensures CheckRanges(NoBounds).None?
  {
    forall a: Attr ensures !Inverted(RangeOf(NoBounds, a)) {
      AttrCases(a);
    }
  }

  /** `?sortBy=bogus`. */
  const BogusSortQuery := DefaultQuery.(sortBy := "bogus")

  /** An unknown sort key is rejected with the allow-list error, whatever
      the catalog holds. */
  lemma BogusSortKey(catalog: seq<Product>)
    ensures var r := ListProducts(catalog, BogusSortQuery);
            && r == Err(SortByError())
            && r.error.BadRequest? && r.error.code == InvalidParam && r.error.field == "sortBy"
  {
    NoBoundsConsistent();
    assert "bogus" !in AllowList;
  }

  /** `minNa=10&maxNa=5`. */
  const SodiumFlipped := NoBounds.(na := Range(Some(10.0), Some(5.0)))

  /** `?minNa=10&maxNa=5&sortBy=bogus`. */
  const FlippedQuery := DefaultQuery.(bounds := SodiumFlipped, sortBy := "bogus")

  /** The inverted sodium range is reported before the unknown sort key,
      whatever the catalog holds. */
  lemma InvertedRangeBeforeSortKey(catalog: seq<Product>)
    ensures ListProducts(catalog, FlippedQuery) == Err(BadRequest(InvalidRange, "Na min cannot exceed max", "Na"))
  {
    FlippedQueryFacts();
    RangeErrorNamesFirst(catalog, FlippedQuery, Na);
  }

  lemma FlippedQueryFacts()
    ensures ValidPaging(FlippedQuery)
    ensures Inverted(RangeOf(FlippedQuery.bounds, Na))
    ensures RangeError(Na) == BadRequest(InvalidRange, "Na min cannot exceed max", "Na")
  {
  }

  /** An id that no product carries is not found. */
  lemma UnknownId()
    ensures GetProduct(Seed, "unknown-id") == Err(NotFound("product not found"))
  {
  }

  // ---- Profiles ----

  /** The intended merge: an explicit `maxNa=5` beats the sodium preset's
      20, and the preset fills `maxNa` only when it is left empty. */
  lemma ExplicitBoundBeatsPreset()
    ensures MergePreset(NoBounds.(na := Range(None, Some(5.0))), Preset(SodiumRestricted)).na.hi == Some(5.0)
    ensures MergePreset(NoBounds, Preset(SodiumRestricted)).na.hi == Some(20.0)
  {
    assert BoundOf(NoBounds.(na := Range(None, Some(5.0))), Na, MaxBound) == Some(5.0);
    assert BoundOf(NoBounds, Na, MaxBound).None?;
  }

  /** `?profile=sodiumRestricted`. */
  const SodiumProfileQuery := DefaultQuery.(profile := Some(SodiumRestricted))

  /** The handler itself never applies that merge: with the sodium profile
      and no bound, Beypazarı (350 mg/L sodium) is still listed. */
  lemma SodiumProfileKeepsSaltyWater()
    ensures var r := ListProducts(Seed, SodiumProfileQuery);
            && r.Ok?
            && r.value.pagination.totalItems == 5
            && r.value.filters.bounds == NoBounds
  {
    NoBoundsConsistent();
    assert ParseSortBy("brand") == Some(ByBrand);
    SodiumProfileRanked();
  }

  lemma SodiumProfileRanked()
    ensures |Ranked(Seed, SodiumProfileQuery, ByBrand)| == 5
  {
    var r := Ranked(Seed, SodiumProfileQuery, ByBrand);
    SodiumProfileFiltered();
    assert |r| == |multiset(r)| == |multiset(Filtered(Seed, SodiumProfileQuery))|;
  }

  lemma SodiumProfileFiltered()
    ensures Filtered(Seed, SodiumProfileQuery) == Seed
  {
    forall p | p in Seed ensures Admits(p, SodiumProfileQuery) {
      AdmitsUnboundedIffFullyMeasured(p.composition);
    }
    FilteredAll(Seed, SodiumProfileQuery);
  }
}
