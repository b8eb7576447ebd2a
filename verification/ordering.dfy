/** The `sortBy`/`sortDir` part of the listing endpoint: the allow-list of
    sort keys, the key each product sorts by, and the stable sort. */
module Ordering {
  import opened Base
  import opened Errors
  import opened Catalog

  // ---- Python's order on strings ----

  /** Python's `<` on `str`: lexicographic by code point, a proper prefix
      first. */
  predicate StrLt(a: string, b: string)
    decreases |a|
  {
    if |a| == 0 then |b| > 0
    else if |b| == 0 then false
    else a[0] < b[0] || (a[0] == b[0] && StrLt(a[1..], b[1..]))
  }

  lemma {:induction false} StrLtIrreflexive(a: string)
    ensures !StrLt(a, a)
    decreases |a|
  {
    if |a| > 0 {
      StrLtIrreflexive(a[1..]);
    }
  }

  lemma {:induction false} StrLtTransitive(a: string, b: string, c: string)
    requires StrLt(a, b) && StrLt(b, c)
    ensures StrLt(a, c)
    decreases |a|
  {
    if |a| > 0 && a[0] == b[0] && b[0] == c[0] {
      StrLtTransitive(a[1..], b[1..], c[1..]);
    }
  }

  lemma {:induction false} StrLtTotal(a: string, b: string)
    ensures a == b || StrLt(a, b) || StrLt(b, a)
    decreases |a|
  {
    if |a| > 0 && |b| > 0 && a[0] == b[0] {
      StrLtTotal(a[1..], b[1..]);
      assert a == [a[0]] + a[1..] && b == [b[0]] + b[1..];
    }
  }

  // ---- Sort keys ----

  /** What `sort_key` returns: a string for `brand`/`name`, and for a
      composition field the pair `(value is None, value)`, represented by
      the optional value itself. */
  datatype Key = Text(s: string) | Level(v: Option<real>)

  /** Python's `<` on the pair `(v is None, v)`: present values compare by
      value and precede every absent one; two absent keys are equal. */
  predicate LevelLt(u: Option<real>, w: Option<real>)
  {
    match (u, w)
    case (Some(p), Some(q)) => p < q
    case (Some(_), None) => true
    case (None, _) => false
  }

  /** `<` on keys. One sort only ever compares keys of one kind; the mixed
      case is ordered arbitrarily so that the order is total. */
  predicate KeyLt(x: Key, y: Key)
  {
    match (x, y)
    case (Text(s), Text(t)) => StrLt(s, t)
    case (Level(u), Level(w)) => LevelLt(u, w)
    case (Text(_), Level(_)) => true
    case (Level(_), Text(_)) => false
  }

  lemma KeyLtIrreflexive(x: Key)
    ensures !KeyLt(x, x)
  {
    if x.Text? {
      StrLtIrreflexive(x.s);
    }
  }

  lemma KeyLtTransitive(x: Key, y: Key, z: Key)
    requires KeyLt(x, y) && KeyLt(y, z)
    ensures KeyLt(x, z)
  {
    if x.Text? && y.Text? && z.Text? {
      StrLtTransitive(x.s, y.s, z.s);
    }
  }

  lemma KeyLtTotal(x: Key, y: Key)
    ensures x == y || KeyLt(x, y) || KeyLt(y, x)
  {
    if x.Text? && y.Text? {
      StrLtTotal(x.s, y.s);
    }
  }

  datatype Dir = Asc | Desc

  /** The direction as the query string spells it. */
  function DirName(d: Dir): string
  {
    if d == Asc then "asc" else "desc"
  }

  /** Key `x` goes strictly before key `y` in direction `d`
      (`reverse=True` flips the comparison). */
  predicate Before(d: Dir, x: Key, y: Key)
  {
    if d == Asc then KeyLt(x, y) else KeyLt(y, x)
  }

  lemma BeforeAsymmetric(d: Dir, x: Key, y: Key)
    requires Before(d, x, y)
    ensures !Before(d, y, x)
  {
    if Before(d, y, x) {
      if d == Asc {
        KeyLtTransitive(x, y, x);
      } else {
        KeyLtTransitive(y, x, y);
      }
      KeyLtIrreflexive(x);
      KeyLtIrreflexive(y);
    }
  }

  /** "Not after" is transitive: the order is a total preorder. */
  lemma NotBeforeTransitive(d: Dir, x: Key, y: Key, z: Key)
    requires !Before(d, y, x) && !Before(d, z, y)
    ensures !Before(d, z, x)
  {
    KeyLtTotal(x, y);
    KeyLtTotal(y, z);
    if x != y && y != z {
      if d == Asc {
        KeyLtTransitive(x, y, z);
      } else {
        KeyLtTransitive(z, y, x);
      }
      BeforeAsymmetric(d, x, z);
    }
  }

  // ---- Stable sorting by a key ----

  /** No element comes after one it should precede. */
  ghost predicate SortedBy<T>(s: seq<T>, key: T -> Key, d: Dir)
  {
    forall i, j :: 0 <= i < j < |s| ==> !Before(d, key(s[j]), key(s[i]))
  }

  /** Inserts `x` before the first element it does not follow strictly, so
      `x` lands ahead of every element with an equal key. */
  function Insert<T>(x: T, s: seq<T>, key: T -> Key, d: Dir): seq<T>
    decreases |s|
  {
    if |s| == 0 then [x]
    else if Before(d, key(s[0]), key(x)) then [s[0]] + Insert(x, s[1..], key, d)
    else [x] + s
  }

  lemma {:induction false} InsertPermutes<T>(x: T, s: seq<T>, key: T -> Key, d: Dir)
    ensures multiset(Insert(x, s, key, d)) == multiset(s) + multiset{x}
    decreases |s|
  {
    if |s| > 0 && Before(d, key(s[0]), key(x)) {
      InsertPermutes(x, s[1..], key, d);
      assert s == [s[0]] + s[1..];
    }
  }

  lemma {:induction false} InsertSorted<T>(x: T, s: seq<T>, key: T -> Key, d: Dir)
    requires SortedBy(s, key, d)
    ensures SortedBy(Insert(x, s, key, d), key, d)
    decreases |s|
  {
    var r := Insert(x, s, key, d);
    if |s| == 0 {
    } else if Before(d, key(s[0]), key(x)) {
      var rest := Insert(x, s[1..], key, d);
      InsertSorted(x, s[1..], key, d);
      InsertPermutes(x, s[1..], key, d);
      forall j | 0 <= j < |rest| ensures !Before(d, key(rest[j]), key(s[0])) {
        assert rest[j] in multiset(rest);
        if rest[j] == x {
          BeforeAsymmetric(d, key(s[0]), key(x));
        } else {
          assert rest[j] in multiset(s[1..]);
          var k :| 0 <= k < |s[1..]| && s[1..][k] == rest[j];
          assert s[k + 1] == rest[j];
        }
      }
      assert r == [s[0]] + rest;
    } else {
      forall j | 0 <= j < |s| ensures !Before(d, key(s[j]), key(x)) {
        if j > 0 {
          NotBeforeTransitive(d, key(x), key(s[0]), key(s[j]));
        }
      }
      assert r == [x] + s;
    }
  }

  /** The elements whose key is `k`. */
  function HasKey<T>(key: T -> Key, k: Key): T -> bool
  {
    x => key(x) == k
  }

  /** Insertion keeps `x` ahead of the elements sharing its key. */
  lemma {:induction false} InsertStable<T(!new)>(x: T, s: seq<T>, key: T -> Key, d: Dir, k: Key)
    ensures Filter(Insert(x, s, key, d), HasKey(key, k)) == Filter([x] + s, HasKey(key, k))
    decreases |s|
  {
    if |s| > 0 && Before(d, key(s[0]), key(x)) {
      var y, t := s[0], s[1..];
      var rest := Insert(x, t, key, d);
      assert Insert(x, s, key, d) == [y] + rest;
      assert s == [y] + t;
      InsertStable(x, t, key, d, k);
      if key(x) == k {
        PassKeptElement(x, y, t, rest, key, d, k);
      } else {
        PassDroppedElement(x, y, t, rest, key, k);
      }
    }
  }

  /** Moving a kept `x` past an element `y` that sorts strictly before it:
      `y` has another key, so the kept elements do not change order. */
  lemma PassKeptElement<T(!new)>(x: T, y: T, t: seq<T>, rest: seq<T>, key: T -> Key, d: Dir, k: Key)
    requires key(x) == k && Before(d, key(y), key(x))
    requires Filter(rest, HasKey(key, k)) == Filter([x] + t, HasKey(key, k))
    ensures Filter([y] + rest, HasKey(key, k)) == Filter([x] + ([y] + t), HasKey(key, k))
  {
    var keep := HasKey(key, k);
    KeyLtIrreflexive(key(x));
    assert !keep(y);
    FilterCons(y, rest, keep);
    FilterCons(x, t, keep);
    FilterCons(x, [y] + t, keep);
    FilterCons(y, t, keep);
  }

  /** Moving an `x` that the filter drops past any element `y`. */
  lemma PassDroppedElement<T(!new)>(x: T, y: T, t: seq<T>, rest: seq<T>, key: T -> Key, k: Key)
    requires key(x) != k
    requires Filter(rest, HasKey(key, k)) == Filter([x] + t, HasKey(key, k))
    ensures Filter([y] + rest, HasKey(key, k)) == Filter([x] + ([y] + t), HasKey(key, k))
  {
    var keep := HasKey(key, k);
    FilterCons(y, rest, keep);
    FilterCons(x, t, keep);
    FilterCons(x, [y] + t, keep);
    FilterCons(y, t, keep);
  }

  /** Python's `list.sort(key=..., reverse=...)` and `sorted`: a permutation
      ordered by key. */
  function SortBy<T>(s: seq<T>, key: T -> Key, d: Dir): (r: seq<T>)
    ensures multiset(r) == multiset(s)
    ensures SortedBy(r, key, d)
    decreases |s|
  {
    if |s| == 0 then []
    else
      var rest := SortBy(s[1..], key, d);
      InsertPermutes(s[0], rest, key, d);
      InsertSorted(s[0], rest, key, d);
      assert s == [s[0]] + s[1..];
      Insert(s[0], rest, key, d)
  }

  /** Stability: for every key, the elements carrying it keep their
      relative order, ascending and descending alike. */
  lemma {:induction false} SortByStable<T(!new)>(s: seq<T>, key: T -> Key, d: Dir, k: Key)
    ensures Filter(SortBy(s, key, d), HasKey(key, k)) == Filter(s, HasKey(key, k))
    decreases |s|
  {
    if |s| > 0 {
      var keep := HasKey(key, k);
      var rest := SortBy(s[1..], key, d);
      SortByStable(s[1..], key, d, k);
      InsertStable(s[0], rest, key, d, k);
      FilterCons(s[0], rest, keep);
      FilterCons(s[0], s[1..], keep);
      assert s == [s[0]] + s[1..];
    }
  }

  // ---- The allow-list ----

  /** A resolved `sortBy`: a product field, or a composition field. */
  datatype SortField = ByBrand | ByName | ByComposition(attr: Attr)

  /** The attribute name of a composition field, as the class declares it. */
  function FieldName(a: Attr): string
  {
    match a
    case Na => "na"
    case K => "k"
    case Ca => "ca"
    case Mg => "mg"
    case HCO3 => "hco3"
    case SO4 => "so4"
    case CL => "cl"
    case NO3 => "no3"
    case F => "f"
    case TDS => "tds"
    case PH => "ph"
  }

  function SortFieldName(f: SortField): string
  {
    match f
    case ByBrand => "brand"
    case ByName => "name"
    case ByComposition(a) => "composition." + FieldName(a)
  }

  /** Only six composition fields may be sorted on. */
  predicate Sortable(f: SortField)
  {
    f.ByComposition? ==> f.attr in {Na, Mg, Ca, HCO3, TDS, PH}
  }

  /** `ALLOWED_SORT`, in declaration order. */
  const AllowList: seq<string> := [
    "brand", "name", "composition.na", "composition.mg", "composition.ca",
    "composition.hco3", "composition.tds", "composition.ph"]

  /** Resolves `sortBy` against the allow-list. */
  function ParseSortBy(s: string): (r: Option<SortField>)
    ensures r.Some? <==> s in AllowList
    ensures r.Some? ==> Sortable(r.value) && SortFieldName(r.value) == s
  {
    if s == "brand" then Some(ByBrand)
    else if s == "name" then Some(ByName)
    else if s == "composition.na" then Some(ByComposition(Na))
    else if s == "composition.mg" then Some(ByComposition(Mg))
    else if s == "composition.ca" then Some(ByComposition(Ca))
    else if s == "composition.hco3" then Some(ByComposition(HCO3))
    else if s == "composition.tds" then Some(ByComposition(TDS))
    else if s == "composition.ph" then Some(ByComposition(PH))
    else None
  }

  /** Every sortable field is reachable through its own name. */
  lemma ParseSortByRoundTrip(f: SortField)
    requires Sortable(f)
    ensures ParseSortBy(SortFieldName(f)) == Some(f)
  {
    match f
    case ByBrand =>
    case ByName =>
    case ByComposition(a) =>
      var name := "composition." + FieldName(a);
      match a {
        case Na => assert name == "composition.na";
        case Mg => assert name == "composition.mg";
        case Ca => assert name == "composition.ca";
        case HCO3 => assert name == "composition.hco3";
        case TDS => assert name == "composition.tds";
        case PH => assert name == "composition.ph";
      }
  }

  /** `sep.join(xs)`. */
  function Join(xs: seq<string>, sep: string): string
  {
    if |xs| == 0 then ""
    else if |xs| == 1 then xs[0]
    else xs[0] + sep + Join(xs[1..], sep)
  }

  function TextKey(s: string): Key
  {
    Text(s)
  }

  /** The INVALID_PARAM error for a `sortBy` outside the allow-list; its
      message lists `sorted(ALLOWED_SORT)`. */
  function SortByError(): (e: ApiError)
    ensures e.BadRequest? && e.code == InvalidParam && e.field == "sortBy"
    ensures exists names :: e.message == "sortBy must be one of: " + Join(names, ", ")
                            && SortedBy(names, TextKey, Asc)
                            && multiset(names) == multiset(AllowList)
  {
    var names := SortBy(AllowList, TextKey, Asc);
    BadRequest(InvalidParam, "sortBy must be one of: " + Join(names, ", "), "sortBy")
  }

  // ---- The product sort ----

  /** The endpoint's `sort_key` for a resolved field. */
  function SortKey(f: SortField): Product -> Key
  {
    (p: Product) => match f
         case ByBrand => Text(p.brand)
         case ByName => Text(p.name)
         case ByComposition(a) => Level(Measure(p.composition, a))
  }

  /** Placement of unmeasured products: after every measured one when
      ascending, before every measured one when descending. */
  lemma AbsentPlacement(s: seq<Product>, a: Attr, d: Dir, i: int, j: int)
    requires SortedBy(s, SortKey(ByComposition(a)), d)
    requires 0 <= i < j < |s|
    ensures d == Asc && Measure(s[i].composition, a).None? ==> Measure(s[j].composition, a).None?
    ensures d == Desc && Measure(s[i].composition, a).Some? ==> Measure(s[j].composition, a).Some?
  {
  }
}
