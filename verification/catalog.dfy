/** The product data model, the seed catalog and the lookup by id. */
module Catalog {
  import opened Base
  import opened Errors

  /** The eleven measured attributes, in the order the listing endpoint
      declares and checks their bounds. */
  datatype Attr = Na | K | Ca | Mg | HCO3 | SO4 | CL | NO3 | F | TDS | PH

  /** Concentrations in mg/L (pH unitless); every one may be unmeasured. */
  datatype Composition = Composition(
    na: Option<real>, k: Option<real>, ca: Option<real>, mg: Option<real>,
    hco3: Option<real>, so4: Option<real>, cl: Option<real>, no3: Option<real>,
    f: Option<real>, tds: Option<real>, ph: Option<real>)

  /** The composition field an attribute names. */
  function Measure(c: Composition, a: Attr): Option<real>
  {
    match a
    case Na => c.na
    case K => c.k
    case Ca => c.ca
    case Mg => c.mg
    case HCO3 => c.hco3
    case SO4 => c.so4
    case CL => c.cl
    case NO3 => c.no3
    case F => c.f
    case TDS => c.tds
    case PH => c.ph
  }

  /** Every attribute is one of the eleven constructors. */
  lemma AttrCases(a: Attr)
    ensures a == Na || a == K || a == Ca || a == Mg || a == HCO3 || a == SO4
            || a == CL || a == NO3 || a == F || a == TDS || a == PH
  {
  }

  /** All eleven measurements are present. */
  predicate FullyMeasured(c: Composition)
  {
    forall a: Attr :: Measure(c, a).Some?
  }

  datatype Product = Product(
    id: string,
    name: string,
    brand: string,
    source: Option<string>,
    volumeMl: Option<int>,
    packSize: Option<int>,
    carbonated: Option<bool>,
    composition: Composition,
    imageUrl: Option<string>,
    isActive: bool,
    createdAt: string,
    updatedAt: string)

  /** A composition with every attribute measured. */
  function Measured(na: real, k: real, ca: real, mg: real, hco3: real, so4: real,
                    cl: real, no3: real, f: real, tds: real, ph: real): (c: Composition)
    ensures FullyMeasured(c)
  {
    Composition(Some(na), Some(k), Some(ca), Some(mg), Some(hco3), Some(so4),
                Some(cl), Some(no3), Some(f), Some(tds), Some(ph))
  }

  const Beypazari := Product(
    "beypazari-200-6", "Doğal Maden Suyu 200ml (6'lı)", "Beypazarı",
    Some("Beypazarı / Ankara"), Some(200), Some(6), Some(true),
    Measured(350.0, 30.0, 100.0, 60.0, 1800.0, 120.0, 80.0, 2.0, 0.8, 2300.0, 6.3),
    None, true, "2025-09-24T10:00:00Z", "2025-09-27T18:00:00Z")

  const Akmina := Product(
    "akmina-200-6", "Doğal Maden Suyu 200ml (6'lı)", "Akmina",
    Some("Afyon"), Some(200), Some(6), Some(true),
    Measured(20.0, 5.0, 60.0, 25.0, 450.0, 40.0, 15.0, 1.0, 0.2, 700.0, 7.2),
    None, true, "2025-09-23T09:00:00Z", "2025-09-27T18:00:00Z")

  const Kizilay := Product(
    "kizilay-erzincan-200-6", "Erzincan Doğal Maden Suyu 200ml (6'lı)", "Kızılay",
    Some("Erzincan"), Some(200), Some(6), Some(true),
    Measured(10.0, 2.0, 220.0, 65.0, 1800.0, 35.0, 10.0, 0.5, 0.1, 2200.0, 6.5),
    None, true, "2025-09-20T12:00:00Z", "2025-09-26T15:45:10Z")

  const Uludag := Product(
    "uludag-200-6", "Uludağ Doğal Maden Suyu 200ml (6'lı)", "Uludağ",
    Some("Bursa"), Some(200), Some(6), Some(true),
    Measured(30.0, 4.0, 80.0, 35.0, 600.0, 50.0, 20.0, 1.0, 0.3, 900.0, 6.9),
    None, true, "2025-09-22T10:00:00Z", "2025-09-22T10:00:00Z")

  const Sirma := Product(
    "sirma-200-6", "Sırma Doğal Maden Suyu 200ml (6'lı)", "Sırma",
    Some("Sakarya"), Some(200), Some(6), Some(true),
    Measured(8.0, 1.5, 50.0, 20.0, 400.0, 20.0, 8.0, 0.8, 0.1, 600.0, 7.4),
    None, true, "2025-09-10T08:00:00Z", "2025-09-20T08:00:00Z")

  /** The mock catalog the service starts with, in declaration order. */
  const Seed: seq<Product> := [Beypazari, Akmina, Kizilay, Uludag, Sirma]

  /** No two products of the catalog share an id. */
  predicate UniqueIds(catalog: seq<Product>)
  {
    forall i, j :: 0 <= i < j < |catalog| ==> catalog[i].id != catalog[j].id
  }

  /** Position of the first product carrying `id`, or `|catalog|` if none does. */
  function FirstWithId(catalog: seq<Product>, id: string): (i: nat)
    ensures i <= |catalog|
    ensures forall j :: 0 <= j < i ==> catalog[j].id != id
    ensures i < |catalog| ==> catalog[i].id == id
    decreases |catalog|
  {
    if |catalog| == 0 then 0
    else if catalog[0].id == id then 0
    else 1 + FirstWithId(catalog[1..], id)
  }

  /** The single-product endpoint: a linear scan for an exact id match. */
  function GetProduct(catalog: seq<Product>, id: string): (r: Result<Product, ApiError>)
    ensures r.Ok? ==> r.value.id == id
    ensures r.Ok? ==> exists i :: 0 <= i < |catalog| && catalog[i] == r.value
                                  && forall j :: 0 <= j < i ==> catalog[j].id != id
    ensures r.Err? <==> forall p :: p in catalog ==> p.id != id
    ensures r.Err? ==> r.error == NotFound("product not found")
  {
    var i := FirstWithId(catalog, id);
    if i < |catalog| then Ok(catalog[i]) else Err(NotFound("product not found"))
  }

  /** With unique ids the lookup finds exactly the product carrying the id. */
  lemma GetProductUnique(catalog: seq<Product>, p: Product)
    requires UniqueIds(catalog)
    requires p in catalog
    ensures GetProduct(catalog, p.id) == Ok(p)
  {
    var k :| 0 <= k < |catalog| && catalog[k] == p;
    var i := FirstWithId(catalog, p.id);
    assert i <= k;
  }

  lemma SeedIdsUnique()
    ensures UniqueIds(Seed)
  {
  }
}
