/** The composition bounds of a listing request: the consistency check,
    the per-attribute `within` test, the all-attributes filter and the
    health-profile presets. */
module Ranges {
  import opened Base
  import opened Errors
  import opened Catalog

  /** One `min<Attr>`/`max<Attr>` query-parameter pair; both ends inclusive. */
  datatype Range = Range(lo: Option<real>, hi: Option<real>)

  const Open := Range(None, None)

  /** The 22 bound parameters of the listing endpoint, one pair per attribute. */
  datatype Bounds = Bounds(
    na: Range, k: Range, ca: Range, mg: Range, hco3: Range, so4: Range,
    cl: Range, no3: Range, f: Range, tds: Range, ph: Range)

  const NoBounds := Bounds(Open, Open, Open, Open, Open, Open, Open, Open, Open, Open, Open)

  function RangeOf(b: Bounds, a: Attr): Range
  {
    match a
    case Na => b.na
    case K => b.k
    case Ca => b.ca
    case Mg => b.mg
    case HCO3 => b.hco3
    case SO4 => b.so4
    case CL => b.cl
    case NO3 => b.no3
    case F => b.f
    case TDS => b.tds
    case PH => b.ph
  }

  /** `b` with the pair of attribute `a` replaced by `r`. */
  function WithRange(b: Bounds, a: Attr, r: Range): (b': Bounds)
    ensures RangeOf(b', a) == r
    ensures forall a' :: a' != a ==> RangeOf(b', a') == RangeOf(b, a')
  {
    match a
    case Na => b.(na := r)
    case K => b.(k := r)
    case Ca => b.(ca := r)
    case Mg => b.(mg := r)
    case HCO3 => b.(hco3 := r)
    case SO4 => b.(so4 := r)
    case CL => b.(cl := r)
    case NO3 => b.(no3 := r)
    case F => b.(f := r)
    case TDS => b.(tds := r)
    case PH => b.(ph := r)
  }

  // ---- Range consistency ----

  /** The order in which the endpoint checks the pairs. */
  const CheckOrder: seq<Attr> := [Na, K, Ca, Mg, HCO3, SO4, CL, NO3, F, TDS, PH]

  /** Position of an attribute in `CheckOrder`. */
  function Rank(a: Attr): (n: nat)
    ensures n < |CheckOrder| && CheckOrder[n] == a
  {
    match a
    case Na => 0
    case K => 1
    case Ca => 2
    case Mg => 3
    case HCO3 => 4
    case SO4 => 5
    case CL => 6
    case NO3 => 7
    case F => 8
    case TDS => 9
    case PH => 10
  }

  /** The name an INVALID_RANGE error carries in its `field`. */
  function AttrName(a: Attr): string
  {
    match a
    case Na => "Na"
    case K => "K"
    case Ca => "Ca"
    case Mg => "Mg"
    case HCO3 => "HCO3"
    case SO4 => "SO4"
    case CL => "CL"
    case NO3 => "NO3"
    case F => "F"
    case TDS => "TDS"
    case PH => "PH"
  }

  /** Both ends are given and the minimum exceeds the maximum. */
  predicate Inverted(r: Range)
  {
    r.lo.Some? && r.hi.Some? && r.lo.value > r.hi.value
  }

  /** Position in `attrs` of the first inverted pair, `|attrs|` if none is. */
  function FirstInverted(b: Bounds, attrs: seq<Attr>): (i: nat)
    ensures i <= |attrs|
    ensures forall j :: 0 <= j < i ==> !Inverted(RangeOf(b, attrs[j]))
    ensures i < |attrs| ==> Inverted(RangeOf(b, attrs[i]))
    decreases |attrs|
  {
    if |attrs| == 0 then 0
    else if Inverted(RangeOf(b, attrs[0])) then 0
    else 1 + FirstInverted(b, attrs[1..])
  }

  function RangeError(a: Attr): ApiError
  {
    BadRequest(InvalidRange, AttrName(a) + " min cannot exceed max", AttrName(a))
  }

  /** The pairs before position `i` of the check order are exactly the
      attributes of lower rank. */
  lemma CheckOrderPrefix(b: Bounds)
    ensures var i := FirstInverted(b, CheckOrder);
            (forall a: Attr :: Rank(a) < i ==> !Inverted(RangeOf(b, a)))
            && (i < |CheckOrder| ==> Rank(CheckOrder[i]) == i)
  {
    var i := FirstInverted(b, CheckOrder);
    forall a: Attr | Rank(a) < i ensures !Inverted(RangeOf(b, a)) {
      assert CheckOrder[Rank(a)] == a;
    }
    if i < |CheckOrder| {
      RankInjective(CheckOrder[i], i);
    }
  }

  lemma RankInjective(a: Attr, i: nat)
    requires i < |CheckOrder| && CheckOrder[i] == a
    ensures Rank(a) == i
  {
  }

  /** The eleven `check_range` calls: the error for the first inverted pair
      in check order, or `None` when every pair is consistent. */
  function CheckRanges(b: Bounds): (r: Option<ApiError>)
    ensures r.None? <==> forall a: Attr :: !Inverted(RangeOf(b, a))
    ensures r.Some? ==> exists a: Attr :: r.value == RangeError(a) && Inverted(RangeOf(b, a))
                           && forall a': Attr :: Rank(a') < Rank(a) ==> !Inverted(RangeOf(b, a'))
  {
    var i := FirstInverted(b, CheckOrder);
    CheckOrderPrefix(b);
    if i < |CheckOrder| then
      Some(RangeError(CheckOrder[i]))
    else
      None
  }

  // ---- The composition filter ----

  /** The endpoint's `within`: an absent measurement never passes; a present
      one must not fall below `lo` nor exceed `hi`, where given. */
  function Within(v: Option<real>, r: Range): (ok: bool)
    ensures ok <==> v.Some? && (r.lo.None? || r.lo.value <= v.value)
                            && (r.hi.None? || v.value <= r.hi.value)
  {
    if v.None? then false
    else if r.lo.Some? && v.value < r.lo.value then false
    else if r.hi.Some? && v.value > r.hi.value then false
    else true
  }

  /** The endpoint's `filt`: all eleven `within` checks, the unbounded
      attributes included. */
  function AdmitsComposition(c: Composition, b: Bounds): (ok: bool)
    ensures ok <==> forall a: Attr :: Within(Measure(c, a), RangeOf(b, a))
  {
    var ok :=
      && Within(c.na, b.na) && Within(c.k, b.k) && Within(c.ca, b.ca)
      && Within(c.mg, b.mg) && Within(c.hco3, b.hco3) && Within(c.so4, b.so4)
      && Within(c.cl, b.cl) && Within(c.no3, b.no3) && Within(c.f, b.f)
      && Within(c.tds, b.tds) && Within(c.ph, b.ph);
    assert ok ==> forall a: Attr :: Within(Measure(c, a), RangeOf(b, a)) by {
      forall a: Attr | ok ensures Within(Measure(c, a), RangeOf(b, a)) {
        AttrCases(a);
      }
    }
    assert (forall a: Attr :: Within(Measure(c, a), RangeOf(b, a))) ==> ok by {
      if forall a: Attr :: Within(Measure(c, a), RangeOf(b, a)) {
        assert Within(Measure(c, Na), RangeOf(b, Na)) && Within(Measure(c, K), RangeOf(b, K));
        assert Within(Measure(c, Ca), RangeOf(b, Ca)) && Within(Measure(c, Mg), RangeOf(b, Mg));
        assert Within(Measure(c, HCO3), RangeOf(b, HCO3)) && Within(Measure(c, SO4), RangeOf(b, SO4));
        assert Within(Measure(c, CL), RangeOf(b, CL)) && Within(Measure(c, NO3), RangeOf(b, NO3));
        assert Within(Measure(c, F), RangeOf(b, F)) && Within(Measure(c, TDS), RangeOf(b, TDS));
        assert Within(Measure(c, PH), RangeOf(b, PH));
      }
    }
    ok
  }

  /** A product passes `filt` only if it is fully measured. */
  lemma AdmitsOnlyFullyMeasured(c: Composition, b: Bounds)
    requires AdmitsComposition(c, b)
    ensures FullyMeasured(c)
  {
    forall a: Attr ensures Measure(c, a).Some? {
      assert Within(Measure(c, a), RangeOf(b, a));
    }
  }

  /** Without bounds, `filt` keeps exactly the fully measured compositions. */
  lemma AdmitsUnboundedIffFullyMeasured(c: Composition)
    ensures AdmitsComposition(c, NoBounds) <==> FullyMeasured(c)
  {
    if FullyMeasured(c) {
      forall a: Attr ensures Within(Measure(c, a), RangeOf(NoBounds, a)) {
        assert Measure(c, a).Some?;
      }
    } else if AdmitsComposition(c, NoBounds) {
      AdmitsOnlyFullyMeasured(c, NoBounds);
    }
  }

  /** The endpoint's `any_comp_param`: some one of the 22 bounds is given. */
  function AnyBound(b: Bounds): (any: bool)
    ensures any <==> exists a: Attr :: RangeOf(b, a) != Open
  {
    var any :=
      || b.na.lo.Some? || b.na.hi.Some? || b.k.lo.Some? || b.k.hi.Some?
      || b.ca.lo.Some? || b.ca.hi.Some? || b.mg.lo.Some? || b.mg.hi.Some?
      || b.hco3.lo.Some? || b.hco3.hi.Some? || b.so4.lo.Some? || b.so4.hi.Some?
      || b.cl.lo.Some? || b.cl.hi.Some? || b.no3.lo.Some? || b.no3.hi.Some?
      || b.f.lo.Some? || b.f.hi.Some? || b.tds.lo.Some? || b.tds.hi.Some?
      || b.ph.lo.Some? || b.ph.hi.Some?;
    assert (exists a: Attr :: RangeOf(b, a) != Open) ==> any by {
      if exists a: Attr :: RangeOf(b, a) != Open {
        var a: Attr :| RangeOf(b, a) != Open;
        AttrCases(a);
      }
    }
    assert any ==> exists a: Attr :: RangeOf(b, a) != Open by {
      if any {
        if b.na != Open { assert RangeOf(b, Na) != Open; }
        else if b.k != Open { assert RangeOf(b, K) != Open; }
        else if b.ca != Open { assert RangeOf(b, Ca) != Open; }
        else if b.mg != Open { assert RangeOf(b, Mg) != Open; }
        else if b.hco3 != Open { assert RangeOf(b, HCO3) != Open; }
        else if b.so4 != Open { assert RangeOf(b, SO4) != Open; }
        else if b.cl != Open { assert RangeOf(b, CL) != Open; }
        else if b.no3 != Open { assert RangeOf(b, NO3) != Open; }
        else if b.f != Open { assert RangeOf(b, F) != Open; }
        else if b.tds != Open { assert RangeOf(b, TDS) != Open; }
        else { assert RangeOf(b, PH) != Open; }
      }
    }
    any
  }

  // ---- Health-profile presets ----

  datatype Profile = SodiumRestricted | BicarbonateRich | MagnesiumRich | CalciumRich | LowNitrate

  datatype Side = MinBound | MaxBound

  /** One entry of a preset: a default for the `min`/`max` bound of an attribute. */
  datatype Threshold = Threshold(attr: Attr, side: Side, value: real)

  /** The static preset table. */
  function Preset(p: Profile): seq<Threshold>
  {
    match p
    case SodiumRestricted => [Threshold(Na, MaxBound, 20.0)]
    case BicarbonateRich => [Threshold(HCO3, MinBound, 600.0)]
    case MagnesiumRich => [Threshold(Mg, MinBound, 50.0)]
    case CalciumRich => [Threshold(Ca, MinBound, 150.0)]
    case LowNitrate => [Threshold(NO3, MaxBound, 10.0)]
  }

  function BoundOf(b: Bounds, a: Attr, s: Side): Option<real>
  {
    if s == MinBound then RangeOf(b, a).lo else RangeOf(b, a).hi
  }

  function WithBound(b: Bounds, a: Attr, s: Side, v: real): (b': Bounds)
    ensures BoundOf(b', a, s) == Some(v)
    ensures forall a', s' :: (a', s') != (a, s) ==> BoundOf(b', a', s') == BoundOf(b, a', s')
  {
    var r := RangeOf(b, a);
    WithRange(b, a, if s == MinBound then r.(lo := Some(v)) else r.(hi := Some(v)))
  }

  /** A preset names every bound at most once, as the keys of a dictionary do. */
  predicate DistinctKeys(preset: seq<Threshold>)
  {
    forall i, j :: 0 <= i < j < |preset| ==>
      (preset[i].attr, preset[i].side) != (preset[j].attr, preset[j].side)
  }

  /** The merge the preset loop intends: a preset value fills a bound only
      where the caller left it empty; explicit bounds win. */
  function MergePreset(b: Bounds, preset: seq<Threshold>): (m: Bounds)
    requires DistinctKeys(preset)
    ensures forall a, s :: BoundOf(b, a, s).Some? ==> BoundOf(m, a, s) == BoundOf(b, a, s)
    ensures forall i :: 0 <= i < |preset| && BoundOf(b, preset[i].attr, preset[i].side).None?
                        ==> BoundOf(m, preset[i].attr, preset[i].side) == Some(preset[i].value)
    ensures forall a, s :: (forall t :: t in preset ==> (t.attr, t.side) != (a, s))
                           ==> BoundOf(m, a, s) == BoundOf(b, a, s)
    decreases |preset|
  {
    if |preset| == 0 then b
    else
      var t := preset[0];
      var b' := if BoundOf(b, t.attr, t.side).None? then WithBound(b, t.attr, t.side, t.value) else b;
      assert forall i :: 1 <= i < |preset| ==> (preset[i].attr, preset[i].side) != (t.attr, t.side);
      var m := MergePreset(b', preset[1..]);
      assert forall i :: 1 <= i < |preset| ==> preset[i] == preset[1..][i - 1];
      m
  }

  lemma PresetKeysDistinct(p: Profile)
    ensures DistinctKeys(Preset(p))
  {
  }
}
