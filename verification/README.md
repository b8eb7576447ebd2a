# Mineral-water catalog API: the listing and lookup core

A Dafny model of the query core of the "Soda Analiz" mineral-water products
API (`main.py`). It covers two endpoints:

- `GET /products` (`list_products`): checks the 11 min/max composition
  ranges, then applies the text search, the brand, source and carbonation
  filters, and the composition filter. It then validates `sortBy`, sorts
  stably on the chosen key, cuts out the requested page and builds the
  response envelope.
- `GET /products/{id}` (`get_product`): a linear scan for an exact id.

Everything is pure. The catalog is an immutable `seq<Product>`. A request
is a `Query` record, and `Listing.DefaultQuery` is the request with the
handler's parameter defaults (main.py:134-156). An endpoint returns `Result<Envelope, ApiError>` or
`Result<Product, ApiError>`. HTTP exceptions become `ApiError` values.

Modules:

- `Base`: `Option`, `Result`, order-preserving `Filter`, subsequences, and
  ASCII lower-casing and substring search.
- `Errors`: the error codes and the error payloads.
- `Catalog`: `Composition`, `Product`, the five seed products and the id
  lookup.
- `Ranges`: the 22 bounds, `check_range`, `within`, `filt`,
  `any_comp_param`, the profile preset table, and the merge the preset loop
  intends.
- `Ordering`: code-point string order, the sort keys, the allow-list of
  `sortBy` values, and a stable insertion sort with its correctness and
  stability proofs.
- `Paging`: the page slice and the page count.
- `Listing`: the endpoint, assembled from the above.
- `Scenarios`: concrete requests against the seed catalog.

Three behaviours are modelled as the code behaves, where the API's own
description of itself and the comments in the code promise otherwise:

1. **A profile never changes a bound.** The preset loop writes through
   `locals()`. In CPython that does not rebind the handler's parameters. So
   the preset values reach neither the range check, nor the composition
   filter, nor the echoed `filters`. A profile only switches the composition
   filter on. The intended "fill only the bounds the caller left empty"
   merge is `Ranges.MergePreset`, proved on its own. The listing does not use
   it. `Listing.ProfileChoiceIrrelevant` and
   `Scenarios.SodiumProfileKeepsSaltyWater` state the consequence.
2. **A missing measurement excludes a product once the composition filter is
   on.** `within` rejects an absent value even for an attribute with no
   bound, and `filt` checks all 11 attributes.
3. **Unmeasured products come first in descending order.** The key
   `(val is None, val)` puts them last when ascending. `reverse=True` turns
   that around. The comment beside the key says "put the Nones at the end",
   which holds only for `asc`.

## Model

| member | source | states |
|---|---|---|
| Catalog.GetProduct | main.py:259-264 | A found product carries exactly the requested id (no case folding) and no earlier catalog product carries it. The result is `NotFound("product not found")` exactly when no product has that id. |
| Catalog.GetProductUnique | main.py:259-264 | When ids are unique, every catalog product is returned when looked up by its own id. |
| Catalog.SeedIdsUnique | main.py:47-113 | The five seed products have pairwise distinct ids. |
| Ranges.CheckRanges | main.py:166-174 | No error exactly when no attribute has both bounds with min > max. Otherwise the error is INVALID_RANGE for an inverted attribute, and every attribute earlier in the order Na, K, Ca, Mg, HCO3, SO4, CL, NO3, F, TDS, PH is consistent. |
| Ranges.Within | main.py:192-199 | An absent value fails. A present value passes exactly when it is not below `lo` and not above `hi`, where given. Both ends are inclusive. |
| Ranges.AdmitsComposition | main.py:201-215 | `filt` holds exactly when `within` holds for every one of the 11 attributes with that attribute's bounds. |
| Ranges.AdmitsOnlyFullyMeasured | main.py:192-215 | A composition that passes `filt` under any bounds has all 11 measurements. |
| Ranges.AdmitsUnboundedIffFullyMeasured | main.py:192-215 | With no bound at all, `filt` holds exactly for the fully measured compositions. |
| Ranges.AnyBound | main.py:218 | `any_comp_param` holds exactly when some attribute has a min or a max given. |
| Ranges.MergePreset | main.py:158-163 | The intended preset merge: every bound the caller gave is kept; every preset entry whose bound was empty is filled with the preset value; bounds the preset does not name are unchanged. |
| Ranges.PresetKeysDistinct | main.py:120-126 | No preset names the same bound twice, as the keys of a dictionary cannot. |
| Ordering.KeyLtIrreflexive | main.py:227-233 | No sort key sorts before itself. |
| Ordering.KeyLtTransitive | main.py:227-233 | The key order is transitive: code-point order on brand and name; on composition keys, present values ordered by value, all before absent ones. |
| Ordering.KeyLtTotal | main.py:227-233 | Any two distinct keys are ordered one way or the other, so the sort order is total. |
| Ordering.ParseSortBy | main.py:116 | A field is resolved exactly for the eight allowed names. A resolved field is sortable and its name is the requested string. |
| Ordering.ParseSortByRoundTrip | main.py:116 | Every sortable field is resolved from its own name. |
| Ordering.SortByError | main.py:223-224 | INVALID_PARAM on field `sortBy`, with a message that lists the allow-list sorted ascending and joined by ", ". |
| Ordering.SortBy | main.py:234 | The sort returns a permutation of its input, ordered by key in the requested direction. |
| Ordering.SortByStable | main.py:234 | For every key value, the elements with that key appear in the same order as in the input, in both directions. |
| Ordering.AbsentPlacement | main.py:225-234 | In a list sorted by a composition key, an unmeasured product is followed only by unmeasured ones when ascending. A measured product is followed only by measured ones when descending. |
| Paging.PageItems | main.py:238-240 | The page holds at most `pageSize` items. Its length is `min(pageSize, len - start)` when `start = (page-1)*pageSize` is below the length, and 0 otherwise. Item `i` is input item `start + i`. |
| Paging.TotalPages | main.py:241 | The page count is the ceiling of items over `pageSize`: enough pages to hold every item, and one fewer would not be. |
| Paging.PageBeyondLastIsEmpty | main.py:237-241 | A page past the last one is empty. |
| Paging.PageUpToLastIsNonEmpty | main.py:237-241 | Every page from the first to the last holds at least one item. |
| Paging.PagesCoverItems | main.py:237-241 | Item `i` appears on page `i / pageSize + 1` at offset `i % pageSize`. |
| Listing.Search | main.py:178-181 | Keeps, in order and with multiplicity, exactly the products whose lowered name or brand, or non-empty lowered source, contains the lowered `q`. Skipped when `q` is absent or empty. |
| Listing.BrandFilter | main.py:184-185 | Keeps, in order, exactly the products whose lowered brand equals the lowered `brand`. Skipped when `brand` is absent or empty. |
| Listing.SourceFilter | main.py:186-187 | Keeps, in order, exactly the products with a non-empty source equal to `source` ignoring case. Skipped when `source` is absent or empty. |
| Listing.CarbonatedFilter | main.py:188-189 | Keeps, in order, exactly the products whose `carbonated` equals the requested value. Skipped only when it is absent. |
| Listing.CompositionFilter | main.py:217-220 | When some bound is given or a profile is chosen, keeps, in order, exactly the products passing `filt`. Otherwise it keeps everything. |
| Listing.Filtered | main.py:176-220 | The five filters together keep a subsequence of the catalog holding exactly the products every filter admits, with their multiplicity. |
| Listing.FilteredAll | main.py:176-220 | When every catalog product passes every filter, the listing is the catalog in catalog order. |
| Listing.FilteredDependsOnlyOnAdmits | main.py:176-220 | Two requests whose filters admit the same products yield the same filtered list. |
| Listing.Ranked | main.py:222-234 | The response order is a permutation of the filtered products, sorted by the chosen key in the chosen direction, with equal keys in catalog order. |
| Listing.Respond | main.py:236-257 | The page items: `min(pageSize, n - start)` of them (none when `start` is at or past the end), item `i` being ranked product `start + i`. Then `totalItems` equal to the filtered count, `totalPages` as the ceiling, and the echoed page, pageSize, sort (direction spelled `asc`/`desc`), bounds, profile and text filters equal to the request's. |
| Listing.ListProducts | main.py:132-257 | INVALID_RANGE whenever some pair is inverted. Otherwise, when `sortBy` is not allowed, exactly the `sortBy` error: INVALID_PARAM on field `sortBy` with the sorted allow-list in its message. Otherwise success, with the envelope of the ranked filtered products. |
| Listing.RangeErrorNamesFirst | main.py:165-174 | The range error names the first inverted pair in check order, whatever `sortBy` holds. |
| Listing.ProfileChoiceIrrelevant | main.py:158-163 | Choosing one profile instead of another changes neither the outcome (an error is the very same error), the items nor the pagination, and the echoed bounds are the caller's own. |
| Listing.ProfileAloneKeepsFullyMeasured | main.py:217-220 | With only a profile set, a product is listed exactly when it is in the catalog and fully measured. |
| Listing.NoCompositionFilterWithoutBounds | main.py:217-220 | With no bound and no profile, composition plays no part in whether a product is listed. |
| Scenarios.MaxSodiumTwenty | main.py:132-257 | On the seed catalog, `maxNa=20` lists Akmina, Kızılay and Sırma in brand order: 3 items on 1 page. |
| Scenarios.BogusSortKey | main.py:223-224 | With every other parameter at its default (`Listing.DefaultQuery`), `sortBy=bogus` is rejected with the allow-list error, INVALID_PARAM on field `sortBy`, whatever the catalog holds. |
| Scenarios.InvertedRangeBeforeSortKey | main.py:166-174 | `minNa=10&maxNa=5&sortBy=bogus` gives INVALID_RANGE "Na min cannot exceed max" on field `Na`, not the sort-key error, whatever the catalog holds. |
| Scenarios.UnknownId | main.py:259-264 | An id carried by no seed product gives `NotFound("product not found")`. |
| Scenarios.ExplicitBoundBeatsPreset | main.py:158-163 | Under the intended merge, an explicit `maxNa=5` stays 5 with the sodium preset, and an empty `maxNa` becomes 20. |
| Scenarios.SodiumProfileKeepsSaltyWater | main.py:158-163 | With `profile=sodiumRestricted` and no bounds, all five seed products are listed (Beypazarı included, at 350 mg/L sodium), and the echoed bounds stay empty. |

## Left out

- The FastAPI application, the CORS middleware and the mapping of errors to HTTP status codes 400 and 404 (main.py:8-14). Errors are an `ApiError` datatype.
- The framework's bounds on `page` (at least 1) and `pageSize` (1 to 100) (main.py:134-135). Out-of-range values are rejected by the framework before the handler runs. The model takes them as the precondition `ValidPaging`.
- Parsing of the `profile` and `sortDir` literals (main.py:154, 156). They are Dafny datatypes, so an invalid value cannot be expressed. The parameter defaults of main.py:134-156 are `Listing.DefaultQuery`, and every scenario request is built from it.
- The `/health` endpoint, which reads the wall clock (main.py:128-130).
- The `/profiles` endpoint, a fixed response with no logic (main.py:266-304). Its thresholds are the ones in `Ranges.Preset`.
- Pydantic serialisation of products in the response (`.dict()`, main.py:244). The envelope holds the products themselves.
- Python's Unicode `str.lower()`. `Lower` lower-cases the ASCII capitals `A`-`Z` only. Python also lowers non-ASCII capitals such as `İ`, `Ş`, `Ğ`, `Ü`, `Ç` and `Ö`, which `Listing.Search`, `Listing.BrandFilter` and `Listing.SourceFilter` leave unchanged. Python's `'İ'.lower()` is two code points long, so Python's lowered text can also differ in length from the original, while `Lower` always keeps the length.
- Floating point. Measurements and bounds are `real`, so NaN and infinities are not modelled. The code only compares them and never computes with them.
- The `locals()` mechanics of the preset loop (main.py:159-163). Only their observable outcome is modelled: the bounds are left as given.
- The iteration order of the Python set `ALLOWED_SORT`. Only membership and the sorted listing in the error message depend on it, so it is a sequence here.
- Comparing a brand or name key with a composition key. One sort never mixes them. The `Key` order puts text first only so that it is total.
- The `getattr(..., None)` fall-backs of `sort_key` (main.py:230, 233). The allow-list admits only fields that exist.
- Timsort. The sort is a stable insertion sort. A stable sort's output is fixed by its input and key, so the order is the same.
- Ordering.SortByError: states that the message lists a sorted permutation of the allow-list rather than spelling out the literal text. The eight names are distinct, so the ascending order is the one `sorted()` gives.
