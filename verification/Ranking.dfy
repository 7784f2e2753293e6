/** Ranking services: six normalised features, a weighted score shown with the contributions that make
    it up, and an order in which no two services tie.

    `0.5 ** x` and `log1p` are parameters; `Analytic` is all that is known of them. */
module Ranking {
  import opened Options
  import opened Orders
  import opened Rounding
  import opened Text
  import opened Exposure

  const HOP_HALF_LIFE := 2.0
  const RECENCY_HALF_LIFE_DAYS := 7.0
  const CONTINUITY_PENALTY := 0.4
  const VOLUME_DUST_INR := 1_000.0
  const VOLUME_SATURATION_INR := 10_000_000.0

  datatype Analysis = Analysis(half: real -> real, log1p: real -> real)

  ghost predicate Analytic(an: Analysis) {
    && (forall x: real :: x >= 0.0 ==> 0.0 < an.half(x) <= 1.0)
    && (forall x: real, y: real :: 0.0 <= x <= y ==> an.half(y) <= an.half(x))
    && (forall x: real :: x >= 0.0 ==> an.log1p(x) >= 0.0)
    && (forall x: real, y: real :: 0.0 <= x <= y ==> an.log1p(x) <= an.log1p(y))
    && an.log1p(VOLUME_SATURATION_INR / VOLUME_DUST_INR) > 0.0
    && an.half(0.0) == 1.0
    && (forall x: real :: x >= 0.0 ==> Halves(an, x))
    && (forall x: real, y: real :: x >= 0.0 && y >= 0.0 ==> LogAdds(an, x, y))
  }

  /** `0.5 ** (x + 1) == 0.5 ** x / 2` */
  ghost predicate Halves(an: Analysis, x: real) { an.half(x + 1.0) == an.half(x) / 2.0 }

  /** `log((1 + x) * (1 + y)) == log(1 + x) + log(1 + y)` */
  ghost predicate LogAdds(an: Analysis, x: real, y: real) {
    an.log1p((1.0 + x) * (1.0 + y) - 1.0) == an.log1p(x) + an.log1p(y)
  }

  // ---------------------------------------------------------------------------
  // Label trust
  // ---------------------------------------------------------------------------

  const DEFAULT_SOURCE_TRUST := 0.6

  function TrustOf(source: string): real {
    match source
    case "ofac_sdn" => 1.0
    case "graphsense_ofac" => 0.95
    case "etherscan_labels" => 0.9
    case "walletexplorer" => 0.85
    case "graphsense_tagpacks" => 0.8
    case "synthetic" => 1.0
    case "behavioural_classifier" => 0.4
    case _ => DEFAULT_SOURCE_TRUST
  }

  /** `_source_trust`: the best source decides. */
  function SourceTrust(sources: set<string>): real {
    if sources == {} then DEFAULT_SOURCE_TRUST
    else if exists s :: s in sources && TrustOf(s) == 1.0 then 1.0
    else if exists s :: s in sources && TrustOf(s) == 0.95 then 0.95
    else if exists s :: s in sources && TrustOf(s) == 0.9 then 0.9
    else if exists s :: s in sources && TrustOf(s) == 0.85 then 0.85
    else if exists s :: s in sources && TrustOf(s) == 0.8 then 0.8
    else if exists s :: s in sources && TrustOf(s) == 0.6 then 0.6
    else 0.4
  }

  lemma TrustLevels(source: string)
    ensures TrustOf(source) in {1.0, 0.95, 0.9, 0.85, 0.8, 0.6, 0.4}
  {}

  lemma SourceTrustIsBest(sources: set<string>)
    requires sources != {}
    ensures exists s :: s in sources && TrustOf(s) == SourceTrust(sources)
    ensures forall s :: s in sources ==> TrustOf(s) <= SourceTrust(sources)
  {
    forall s ensures TrustOf(s) in {1.0, 0.95, 0.9, 0.85, 0.8, 0.6, 0.4} { TrustLevels(s); }
    hide TrustOf;
    var s :| s in sources;
    assert TrustOf(s) in {1.0, 0.95, 0.9, 0.85, 0.8, 0.6, 0.4};
  }

  /** Which source decides, best first; a source that is not known counts 0.6, and so does having none. */
  lemma TrustByRank(sources: set<string>)
    ensures SourceTrust(sources) ==
            if "ofac_sdn" in sources || "synthetic" in sources then 1.0
            else if "graphsense_ofac" in sources then 0.95
            else if "etherscan_labels" in sources then 0.9
            else if "walletexplorer" in sources then 0.85
            else if "graphsense_tagpacks" in sources then 0.8
            else if sources != {} && sources <= {"behavioural_classifier"} then 0.4
            else 0.6
  {
    if sources != {} {
      forall s | s in sources ensures TrustOf(s) in {1.0, 0.95, 0.9, 0.85, 0.8, 0.6, 0.4} { TrustLevels(s); }
      KnownSources();
      hide SourceTrust;
      SourceTrustIsBest(sources);
      if sources <= {"behavioural_classifier"} {
        assert sources == {"behavioural_classifier"};
      }
    }
  }

  lemma KnownSources()
    ensures forall s :: TrustOf(s) == 1.0 <==> s in {"ofac_sdn", "synthetic"}
    ensures forall s :: TrustOf(s) == 0.95 <==> s == "graphsense_ofac"
    ensures forall s :: TrustOf(s) == 0.9 <==> s == "etherscan_labels"
    ensures forall s :: TrustOf(s) == 0.85 <==> s == "walletexplorer"
    ensures forall s :: TrustOf(s) == 0.8 <==> s == "graphsense_tagpacks"
    ensures forall s :: TrustOf(s) == 0.4 <==> s == "behavioural_classifier"
  {}

  lemma SourceTrustRange(sources: set<string>)
    ensures 0.4 <= SourceTrust(sources) <= 1.0
  {
    hide TrustOf;
  }

  // ---------------------------------------------------------------------------
  // Normalised features
  // ---------------------------------------------------------------------------

  datatype Feature = HopFeature | VolumeFeature | RecencyFeature | FrequencyFeature | ContinuityFeature | LabelFeature

  function Weight(f: Feature): real {
    match f
    case HopFeature => 0.22
    case VolumeFeature => 0.24
    case RecencyFeature => 0.16
    case FrequencyFeature => 0.12
    case ContinuityFeature => 0.10
    case LabelFeature => 0.16
  }

  function Least(x: real, y: real): real { if x < y then x else y }

  /** Division; the divisor is never zero for the logarithm the code calls (`Analytic`). */
  function Ratio(x: real, y: real): real { if y == 0.0 then 0.0 else x / y }

  function HopPart(an: Analysis, hop: int): real {
    an.half(((if hop > 1 then hop else 1) - 1) as real / HOP_HALF_LIFE)
  }

  /** How far up the logarithmic scale, 1 at saturation. */
  function LogShare(an: Analysis, inr: real): real {
    Ratio(an.log1p(inr / VOLUME_DUST_INR), an.log1p(VOLUME_SATURATION_INR / VOLUME_DUST_INR))
  }

  function PricedPart(an: Analysis, inr: real): real {
    if inr < VOLUME_DUST_INR then 0.0
    else Least(LogShare(an, inr), 1.0)
  }

  /** Rupees on an absolute scale where there is a price, else the share of the largest rival. */
  function VolumePart(an: Analysis, f: Features, maxVolume: real): real
  {
    match f.arrived.inr
    case Some(v) => PricedPart(an, v.total)
    case None => if maxVolume > 0.0 then f.arrived.totalVolume / maxVolume else 0.0
  }

  function RecencyPart(an: Analysis, sinceLast: Option<real>): real {
    match sinceLast
    case None => 0.0
    case Some(s) => an.half((if s > 0.0 then s else 0.0) / 86400.0 / RECENCY_HALF_LIFE_DAYS)
  }

  function FrequencyPart(count: nat): real { Least(count as real / 10.0, 1.0) }

  function ContinuityPart(ok: bool): real { if ok then 1.0 else CONTINUITY_PENALTY }

  function LabelPart(f: Features): real { f.labelConfidence * SourceTrust(f.labelSources) }

  lemma RatioRange(x: real, y: real)
    requires 0.0 <= x && 0.0 < y
    ensures 0.0 <= Ratio(x, y)
    ensures x <= y ==> Ratio(x, y) <= 1.0
  {}

  lemma RatioGrows(x: real, z: real, y: real)
    requires x <= z && 0.0 < y
    ensures Ratio(x, y) <= Ratio(z, y)
  {}

  predicate Unit(x: real) { 0.0 <= x <= 1.0 }

  lemma HopPartFacts(an: Analysis, hop: int, nearer: int)
    requires Analytic(an) && nearer <= hop
    ensures Unit(HopPart(an, hop)) && HopPart(an, hop) <= HopPart(an, nearer)
  {
    var x := ((if hop > 1 then hop else 1) - 1) as real / HOP_HALF_LIFE;
    var y := ((if nearer > 1 then nearer else 1) - 1) as real / HOP_HALF_LIFE;
    assert 0.0 <= y <= x;
  }

  lemma LogShareGrows(an: Analysis, inr: real, more: real)
    requires Analytic(an) && 0.0 <= inr <= more
    ensures 0.0 <= LogShare(an, inr) <= LogShare(an, more)
  {
    var top := VOLUME_SATURATION_INR / VOLUME_DUST_INR;
    var x, z := inr / VOLUME_DUST_INR, more / VOLUME_DUST_INR;
    assert 0.0 <= x <= z;
    RatioRange(an.log1p(x), an.log1p(top));
    RatioGrows(an.log1p(x), an.log1p(z), an.log1p(top));
  }

  lemma LogShareAtSaturation(an: Analysis)
    requires Analytic(an)
    ensures LogShare(an, VOLUME_SATURATION_INR) == 1.0
  {}

  /** Nothing below the dust floor, everything from the saturation point on, and never falling. */
  lemma PricedPartFacts(an: Analysis, inr: real, more: real)
    requires Analytic(an) && inr <= more
    ensures Unit(PricedPart(an, inr)) && PricedPart(an, inr) <= PricedPart(an, more)
    ensures inr < VOLUME_DUST_INR ==> PricedPart(an, inr) == 0.0
    ensures inr >= VOLUME_SATURATION_INR ==> PricedPart(an, inr) == 1.0
  {
    if more >= VOLUME_DUST_INR {
      LogShareGrows(an, more, more);
    }
    if inr >= VOLUME_DUST_INR {
      LogShareGrows(an, inr, more);
    }
    if inr >= VOLUME_SATURATION_INR {
      LogShareAtSaturation(an);
      LogShareGrows(an, VOLUME_SATURATION_INR, inr);
    }
    hide LogShare, Analytic;
  }

  lemma RecencyPartFacts(an: Analysis, since: Option<real>, later: Option<real>)
    requires Analytic(an) && (since.Some? ==> later.Some? && later.value <= since.value)
    ensures Unit(RecencyPart(an, since)) && RecencyPart(an, since) <= RecencyPart(an, later)
  {
    var x := if since.Some? && since.value > 0.0 then since.value else 0.0;
    var y := if later.Some? && later.value > 0.0 then later.value else 0.0;
    assert 0.0 <= x / 86400.0 / RECENCY_HALF_LIFE_DAYS;
    assert 0.0 <= y / 86400.0 / RECENCY_HALF_LIFE_DAYS;
    if since.Some? {
      assert y / 86400.0 / RECENCY_HALF_LIFE_DAYS <= x / 86400.0 / RECENCY_HALF_LIFE_DAYS;
    }
  }

  lemma FrequencyPartFacts(count: nat, more: nat)
    requires count <= more
    ensures Unit(FrequencyPart(count)) && FrequencyPart(count) <= FrequencyPart(more)
  {}

  // ---------------------------------------------------------------------------
  // What the parts are, in numbers
  // ---------------------------------------------------------------------------

  /** One hop counts in full, and every two hops further halve proximity. */
  lemma ProximityHalves(an: Analysis, hop: int)
    requires Analytic(an)
    ensures hop <= 1 ==> HopPart(an, hop) == 1.0
    ensures hop >= 1 ==> HopPart(an, hop + 2) == HopPart(an, hop) / 2.0
  {
    if hop >= 1 {
      var x := (hop - 1) as real / 2.0;
      assert Halves(an, x);
      assert (hop + 1) as real / 2.0 == x + 1.0;
    }
  }

  function Weeks(seconds: real): real { seconds / 86400.0 / RECENCY_HALF_LIFE_DAYS }

  lemma WeekLater(seconds: real)
    ensures Weeks(seconds + 604_800.0) == Weeks(seconds) + 1.0
    ensures seconds >= 0.0 ==> Weeks(seconds) >= 0.0
  {}

  /** A transfer that has just arrived counts in full, every week halves it, and without a time it
      counts nothing. */
  lemma RecencyHalves(an: Analysis, seconds: real)
    requires Analytic(an)
    ensures RecencyPart(an, None) == 0.0
    ensures seconds <= 0.0 ==> RecencyPart(an, Some(seconds)) == 1.0
    ensures seconds >= 0.0 ==> RecencyPart(an, Some(seconds + 604_800.0)) == RecencyPart(an, Some(seconds)) / 2.0
  {
    assert Weeks(0.0) == 0.0;
    if seconds >= 0.0 {
      WeekLater(seconds);
      hide Analytic;
      assert Halves(an, Weeks(seconds)) by { assert Analytic(an); }
      assert RecencyPart(an, Some(seconds)) == an.half(Weeks(seconds));
      assert RecencyPart(an, Some(seconds + 604_800.0)) == an.half(Weeks(seconds + 604_800.0));
    }
  }

  /** A tenth for each transfer up to ten; a route that runs backwards in time counts 0.4. */
  lemma FrequencyAndContinuity(count: nat)
    ensures count <= 10 ==> FrequencyPart(count) * 10.0 == count as real
    ensures count >= 10 ==> FrequencyPart(count) == 1.0
    ensures ContinuityPart(true) == 1.0 && ContinuityPart(false) == 0.4
  {}

  /** Between the dust floor and saturation the rupee scale is logarithmic: multiplying out
      `1 + rupees / 1000` adds up the parts. */
  lemma RupeeScaleIsLogarithmic(an: Analysis, a: real, b: real, c: real)
    requires Analytic(an) && a >= 1000.0 && b >= 1000.0 && c <= 10_000_000.0
    requires (1.0 + a / 1000.0) * (1.0 + b / 1000.0) == 1.0 + c / 1000.0
    ensures PricedPart(an, c) == PricedPart(an, a) + PricedPart(an, b)
  {
    var x, y, z := a / 1000.0, b / 1000.0, c / 1000.0;
    ProductIsLarger(1.0 + x, 1.0 + y);
    assert LogAdds(an, x, y);
    assert (1.0 + x) * (1.0 + y) - 1.0 == z;
    assert a <= c && b <= c;
    LogShareAtSaturation(an);
    LogShareGrows(an, a, 10_000_000.0);
    LogShareGrows(an, b, 10_000_000.0);
    LogShareGrows(an, c, 10_000_000.0);
    hide Analytic;
    LogShareAdds(an, a, b, c);
  }

  lemma ProductIsLarger(u: real, v: real)
    requires u >= 1.0 && v >= 1.0
    ensures u * v >= u && u * v >= v
  {
    ScaleMonotone(1.0, u, v);
    ScaleMonotone(1.0, v, u);
    assert u * v == v * u;
  }

  lemma LogShareAdds(an: Analysis, a: real, b: real, c: real)
    requires an.log1p(c / 1000.0) == an.log1p(a / 1000.0) + an.log1p(b / 1000.0)
    ensures LogShare(an, c) == LogShare(an, a) + LogShare(an, b)
  {}

  /** A label counts with its confidence, in full from a legal designation, by three fifths without a
      source, and by two fifths from the classifier alone. */
  lemma LabelCounts(f: Features)
    ensures "ofac_sdn" in f.labelSources ==> LabelPart(f) == f.labelConfidence
    ensures f.labelSources == {} ==> LabelPart(f) * 5.0 == f.labelConfidence * 3.0
    ensures f.labelSources == {"behavioural_classifier"} ==> LabelPart(f) * 5.0 == f.labelConfidence * 2.0
  {
    TrustByRank(f.labelSources);
    hide SourceTrust;
  }

  /** Unpriced, a volume counts as its share of the largest; priced, the others do not matter. */
  lemma VolumeScale(an: Analysis, f: Features, m: real, n: real)
    ensures f.arrived.inr.None? && m > 0.0 ==> VolumePart(an, f, m) * m == f.arrived.totalVolume
    ensures f.arrived.inr.None? && m <= 0.0 ==> VolumePart(an, f, m) == 0.0
    ensures f.arrived.inr.Some? ==> VolumePart(an, f, m) == VolumePart(an, f, n)
  {}

  lemma UnitProduct(x: real, y: real)
    requires Unit(x) && Unit(y)
    ensures Unit(x * y)
  {
    ScaleMonotone(0.0, x, y);
    ScaleMonotone(x, 1.0, y);
    assert 1.0 * y == y;
    assert x * y <= y;
  }

  lemma LabelPartRange(f: Features)
    requires Unit(f.labelConfidence)
    ensures Unit(LabelPart(f))
  {
    SourceTrustRange(f.labelSources);
    UnitProduct(f.labelConfidence, SourceTrust(f.labelSources));
  }

  // ---------------------------------------------------------------------------
  // The score of one candidate
  // ---------------------------------------------------------------------------

  /** A feature as measured, for display. */
  datatype Raw = Count(n: int) | Amount(x: real) | Seconds(s: Option<real>) | Flag(b: bool)

  datatype Part = Part(feature: Feature, value: real, raw: Raw)

  function Weighted(p: Part): real { Weight(p.feature) * p.value }

  /** The parts in the order of the weight table. */
  function Parts(an: Analysis, f: Features, maxVolume: real): seq<Part> {
    [ Part(HopFeature, HopPart(an, f.hop), Count(f.hop)),
      Part(VolumeFeature, VolumePart(an, f, maxVolume),
           Amount(if f.arrived.inr.Some? then f.arrived.inr.value.total else f.arrived.totalVolume)),
      Part(RecencyFeature, RecencyPart(an, f.sinceLast), Seconds(f.sinceLast)),
      Part(FrequencyFeature, FrequencyPart(f.arrived.transferCount), Count(f.arrived.transferCount)),
      Part(ContinuityFeature, ContinuityPart(f.continuityOk), Flag(f.continuityOk)),
      Part(LabelFeature, LabelPart(f), Amount(f.labelConfidence)) ]
  }

  function Total(parts: seq<Part>): real { Sum(Map(parts, (p: Part) => Weighted(p))) }

  /** One displayed row: the measurement, and its part and contribution, each to four places. */
  datatype Line = Line(feature: Feature, raw: Raw, normalised: real, weight: real, contribution: real)

  function LineOf(p: Part): Line {
    Line(p.feature, p.raw, Round4(p.value), Weight(p.feature), Round4(Weighted(p)))
  }

  /** `volume_basis`: a relative volume is marked, so that nobody reads it as an absolute one. */
  function VolumeBasis(f: Features): string {
    if f.arrived.inr.Some? then "INR"
    else (if f.arrived.asset == "" then "native" else f.arrived.asset) + " (relative - asset not priceable)"
  }

  function ByWeighted(): (Part, Part) -> bool {
    (p: Part, q: Part) => Weighted(p) >= Weighted(q)
  }

  datatype Scored = Scored(features: Features, volumeBasis: string, score: real, rank: nat, explanation: seq<Line>)

  function ScoreOne(an: Analysis, f: Features, maxVolume: real): Scored {
    var parts := Parts(an, f, maxVolume);
    Scored(f, VolumeBasis(f), Round4(Total(parts)), 0, Map(Sort(parts, ByWeighted()), (p: Part) => LineOf(p)))
  }

  lemma SumOfSix(s: seq<real>)
    requires |s| == 6
    ensures Sum(s) == s[0] + s[1] + s[2] + s[3] + s[4] + s[5]
  {
    SumAppend(s[..3], s[3..]);
    assert s == s[..3] + s[3..];
    SumOfThree(s[..3]);
    SumOfThree(s[3..]);
  }

  lemma SumOfThree(s: seq<real>)
    requires |s| == 3
    ensures Sum(s) == s[0] + s[1] + s[2]
  {
    assert s[..2][..1] == s[..1] && s[..1][..0] == [];
    assert Sum(s[..1]) == s[0];
    assert Sum(s[..2]) == Sum(s[..1]) + s[1];
  }

  lemma TotalOfParts(an: Analysis, f: Features, m: real)
    ensures Total(Parts(an, f, m)) ==
            0.22 * HopPart(an, f.hop) + 0.24 * VolumePart(an, f, m) + 0.16 * RecencyPart(an, f.sinceLast)
            + 0.12 * FrequencyPart(f.arrived.transferCount) + 0.10 * ContinuityPart(f.continuityOk) + 0.16 * LabelPart(f)
  {
    hide HopPart, VolumePart, RecencyPart, FrequencyPart, ContinuityPart, LabelPart, Sum;
    var s := Map(Parts(an, f, m), (p: Part) => Weighted(p));
    SumOfSix(s);
    assert s[0] == 0.22 * HopPart(an, f.hop) && s[1] == 0.24 * VolumePart(an, f, m);
    assert s[2] == 0.16 * RecencyPart(an, f.sinceLast) && s[3] == 0.12 * FrequencyPart(f.arrived.transferCount);
    assert s[4] == 0.10 * ContinuityPart(f.continuityOk) && s[5] == 0.16 * LabelPart(f);
  }

  /** What extraction guarantees of a candidate: label confidences are fractions and an unpriced volume
      is nonnegative and no larger than the largest. */
  ghost predicate Measured(f: Features, maxVolume: real) {
    Unit(f.labelConfidence) && 0.0 <= f.arrived.totalVolume <= maxVolume
  }

  lemma VolumePartRange(an: Analysis, f: Features, m: real)
    requires Analytic(an) && Measured(f, m)
    ensures Unit(VolumePart(an, f, m))
  {
    match f.arrived.inr
    case Some(v) => PricedPartFacts(an, v.total, v.total);
    case None => if m > 0.0 { RatioRange(f.arrived.totalVolume, m); }
  }

  /** Every score lies between 0 and 1. */
  lemma ScoreInUnit(an: Analysis, f: Features, m: real)
    requires Analytic(an) && Measured(f, m)
    ensures Unit(ScoreOne(an, f, m).score)
  {
    TotalOfParts(an, f, m);
    HopPartFacts(an, f.hop, f.hop);
    VolumePartRange(an, f, m);
    RecencyPartFacts(an, f.sinceLast, f.sinceLast);
    FrequencyPartFacts(f.arrived.transferCount, f.arrived.transferCount);
    LabelPartRange(f);
    hide HopPart, VolumePart, RecencyPart, FrequencyPart, LabelPart, Total, Parts;
    Round4Range(Total(Parts(an, f, m)));
  }

  function Shown(lines: seq<Line>): real { Sum(Map(lines, (l: Line) => l.contribution)) }

  /** The displayed contributions, in whatever order they are shown, add up to the displayed score
      within 0.00035: half a unit of the fourth place for each of six rows and for the score. */
  lemma ContributionsAddUp(an: Analysis, f: Features, m: real)
    ensures -0.00035 <= Shown(ScoreOne(an, f, m).explanation) - ScoreOne(an, f, m).score <= 0.00035
    ensures |ScoreOne(an, f, m).explanation| == 6
  {
    var parts := Parts(an, f, m);
    assert |parts| == 6;
    hide Parts, Weighted, Total, Sum, Shown;
    ByWeightedIsTotal();
    SortFacts(parts, ByWeighted());
    hide ByWeighted, Sort;
    ShownInAnyOrder(Sort(parts, ByWeighted()), parts);
    RoundedSix(parts);
  }

  /** The six rows shown, each with its measurement and weight, by falling contribution. */
  lemma RowsShown(an: Analysis, f: Features, m: real)
    ensures (var e := ScoreOne(an, f, m).explanation;
             && |e| == 6 && multiset(e) == multiset(Lines(an, f, m))
             && forall i, j :: 0 <= i < j < 6 ==> e[i].contribution >= e[j].contribution)
  {
    var parts := Parts(an, f, m);
    assert |parts| == 6;
    LinesAreParts(an, f, m);
    hide Parts, Lines;
    FallingRows(parts);
  }

  lemma FallingRows(parts: seq<Part>)
    ensures (var e := Map(Sort(parts, ByWeighted()), (p: Part) => LineOf(p));
             && |e| == |parts| && multiset(e) == multiset(Map(parts, (p: Part) => LineOf(p)))
             && forall i, j :: 0 <= i < j < |e| ==> e[i].contribution >= e[j].contribution)
  {
    hide Weighted, Round4, Sort, Nearest;
    var sorted := Sort(parts, ByWeighted());
    ByWeightedIsTotal();
    SortFacts(parts, ByWeighted());
    MapKeepsArrangement(sorted, parts, (p: Part) => LineOf(p));
    forall i, j | 0 <= i < j < |sorted| ensures LineOf(sorted[i]).contribution >= LineOf(sorted[j]).contribution {
      assert ByWeighted()(sorted[i], sorted[j]);
      Round4Monotone(Weighted(sorted[j]), Weighted(sorted[i]));
    }
  }

  lemma LinesAreParts(an: Analysis, f: Features, m: real)
    ensures Map(Parts(an, f, m), (p: Part) => LineOf(p)) == Lines(an, f, m)
  {
    hide HopPart, VolumePart, RecencyPart, FrequencyPart, ContinuityPart, LabelPart, Round4;
  }

  /** The rows before they are sorted. */
  ghost function Lines(an: Analysis, f: Features, m: real): seq<Line> {
    var hop, volume, recency := HopPart(an, f.hop), VolumePart(an, f, m), RecencyPart(an, f.sinceLast);
    var frequency, continuity, trust := FrequencyPart(f.arrived.transferCount), ContinuityPart(f.continuityOk), LabelPart(f);
    var amount := if f.arrived.inr.Some? then f.arrived.inr.value.total else f.arrived.totalVolume;
    [ Line(HopFeature, Count(f.hop), Round4(hop), 0.22, Round4(0.22 * hop)),
      Line(VolumeFeature, Amount(amount), Round4(volume), 0.24, Round4(0.24 * volume)),
      Line(RecencyFeature, Seconds(f.sinceLast), Round4(recency), 0.16, Round4(0.16 * recency)),
      Line(FrequencyFeature, Count(f.arrived.transferCount), Round4(frequency), 0.12, Round4(0.12 * frequency)),
      Line(ContinuityFeature, Flag(f.continuityOk), Round4(continuity), 0.10, Round4(0.10 * continuity)),
      Line(LabelFeature, Amount(f.labelConfidence), Round4(trust), 0.16, Round4(0.16 * trust)) ]
  }

  /** The basis says rupees exactly when there is a price, and otherwise starts with the asset. */
  lemma BasisTellsThePrice(f: Features)
    ensures VolumeBasis(f) == "INR" <==> f.arrived.inr.Some?
    ensures f.arrived.inr.None? ==> (if f.arrived.asset == "" then "native" else f.arrived.asset) <= VolumeBasis(f)
  {}

  lemma ShownInAnyOrder(sorted: seq<Part>, parts: seq<Part>)
    requires multiset(sorted) == multiset(parts)
    ensures Shown(Map(sorted, (p: Part) => LineOf(p))) == Sum(Map(parts, (p: Part) => Round4(Weighted(p))))
  {
    hide Round4, Weighted, Sum;
    var c := (p: Part) => Round4(Weighted(p));
    MapKeepsArrangement(sorted, parts, c);
    SumIgnoresOrder(Map(sorted, c), Map(parts, c));
    assert Map(Map(sorted, (p: Part) => LineOf(p)), (l: Line) => l.contribution) == Map(sorted, c);
  }

  lemma RoundedSix(parts: seq<Part>)
    requires |parts| == 6
    ensures -0.0003 <= Sum(Map(parts, (p: Part) => Round4(Weighted(p)))) - Total(parts) <= 0.0003
  {
    hide Sum, Weighted;
    SumOfSix(Map(parts, (p: Part) => Round4(Weighted(p))));
    SumOfSix(Map(parts, (p: Part) => Weighted(p)));
  }

  lemma ByWeightedIsTotal()
    ensures TotalOrder(ByWeighted())
  {
    hide Weighted;
  }

  /** At least as near, as large, as recent, as frequent, as continuous and as well labelled. */
  ghost predicate AtLeastAsStrong(f: Features, g: Features) {
    && f.arrived.inr.Some? && g.arrived.inr.Some? && g.arrived.inr.value.total <= f.arrived.inr.value.total
    && f.hop <= g.hop
    && (g.sinceLast.Some? ==> f.sinceLast.Some? && f.sinceLast.value <= g.sinceLast.value)
    && g.arrived.transferCount <= f.arrived.transferCount
    && (g.continuityOk ==> f.continuityOk)
    && LabelPart(g) <= LabelPart(f)
  }

  /** Stronger evidence on every feature never scores lower, whatever the rivals are. */
  lemma StrongerNeverScoresLower(an: Analysis, f: Features, g: Features, m: real, n: real)
    requires Analytic(an) && AtLeastAsStrong(f, g)
    ensures ScoreOne(an, g, n).score <= ScoreOne(an, f, m).score
  {
    TotalOfParts(an, f, m);
    TotalOfParts(an, g, n);
    HopPartFacts(an, g.hop, f.hop);
    PricedPartFacts(an, g.arrived.inr.value.total, f.arrived.inr.value.total);
    RecencyPartFacts(an, g.sinceLast, f.sinceLast);
    FrequencyPartFacts(g.arrived.transferCount, f.arrived.transferCount);
    hide HopPart, PricedPart, RecencyPart, FrequencyPart, LabelPart, Total, Parts, Analytic;
    Round4Monotone(Total(Parts(an, g, n)), Total(Parts(an, f, m)));
  }

  // ---------------------------------------------------------------------------
  // The ranking
  // ---------------------------------------------------------------------------

  /** Score down, then hops up, then name up. */
  function RankOrder(): (Scored, Scored) -> bool {
    (a: Scored, b: Scored) =>
      a.score > b.score
      || (a.score == b.score
          && (a.features.hop < b.features.hop
              || (a.features.hop == b.features.hop && AtMost(a.features.service, b.features.service))))
  }

  lemma RankOrderIsTotal()
    ensures TotalOrder(RankOrder())
  {
    forall a: Scored, b: Scored ensures RankOrder()(a, b) || RankOrder()(b, a) {
      LessTotal(a.features.service, b.features.service);
    }
    forall a: Scored, b: Scored, c: Scored | RankOrder()(a, b) && RankOrder()(b, c) ensures RankOrder()(a, c) {
      if AtMost(a.features.service, b.features.service) && AtMost(b.features.service, c.features.service) {
        AtMostTransitive(a.features.service, b.features.service, c.features.service);
      }
    }
  }

  function MaxVolume(cs: seq<Features>): real { MaxOf(Map(cs, (f: Features) => f.arrived.totalVolume), 0.0) }

  function Scores(an: Analysis, cs: seq<Features>): seq<Scored> {
    var m := MaxVolume(cs);
    Map(cs, (f: Features) => ScoreOne(an, f, m))
  }

  function WithRanks(s: seq<Scored>): (r: seq<Scored>)
    ensures |r| == |s| && forall i :: 0 <= i < |s| ==> r[i] == s[i].(rank := i + 1)
  {
    seq(|s|, i requires 0 <= i < |s| => s[i].(rank := i + 1))
  }

  function Ranked(an: Analysis, cs: seq<Features>): seq<Scored> {
    WithRanks(Sort(Scores(an, cs), RankOrder()))
  }

  /** `score_candidates` */
  method ScoreCandidates(an: Analysis, candidates: seq<Features>) returns (scored: seq<Scored>)
    ensures scored == Ranked(an, candidates)
  {
    if candidates == [] {
      return [];
    }
    var maxVolume := MaxVolume(candidates);
    hide MaxVolume, ScoreOne;
    var unranked: seq<Scored> := [];
    for i := 0 to |candidates|
      invariant unranked == Scores(an, candidates)[..i]
    {
      unranked := unranked + [ScoreOne(an, candidates[i], maxVolume)];
    }
    assert Scores(an, candidates)[..|candidates|] == Scores(an, candidates);
    hide Scores, RankOrder, Sort;
    scored := AssignRanks(Sort(unranked, RankOrder()));
  }

  /** The last loop: ranks in place, from 1. */
  method AssignRanks(ordered: seq<Scored>) returns (scored: seq<Scored>)
    ensures scored == WithRanks(ordered)
  {
    scored := ordered;
    for i := 0 to |ordered|
      invariant |scored| == |ordered|
      invariant forall j :: 0 <= j < |ordered| ==> scored[j] == if j < i then ordered[j].(rank := j + 1) else ordered[j]
    {
      scored := scored[i := scored[i].(rank := i + 1)];
    }
  }

  /** Ranks run 1, 2, 3, ... down the scores, and the entries are the candidates' scores. */
  lemma RankingIsSorted(an: Analysis, cs: seq<Features>)
    ensures (var r := Ranked(an, cs);
             && |r| == |cs|
             && (forall i :: 0 <= i < |r| ==> r[i].rank == i + 1)
             && (forall i, j :: 0 <= i < j < |r| ==> r[i].score >= r[j].score)
             && (forall i, j :: 0 <= i < j < |r| && r[i].score == r[j].score ==>
                   && r[i].features.hop <= r[j].features.hop
                   && (r[i].features.hop == r[j].features.hop ==> AtMost(r[i].features.service, r[j].features.service)))
             && multiset(Map(r, (x: Scored) => x.(rank := 0))) == multiset(Scores(an, cs)))
  {
    RankOrderIsTotal();
    SortFacts(Scores(an, cs), RankOrder());
    var s, r := Sort(Scores(an, cs), RankOrder()), Ranked(an, cs);
    assert |Scores(an, cs)| == |cs|;
    hide Scores, TotalOrder, Sort;
    ScoresUnranked(an, cs);
    Unranked(s, r, Scores(an, cs));
    hide AtMost;
    forall i, j | 0 <= i < j < |r|
      ensures r[i].score >= r[j].score
      ensures r[i].score == r[j].score ==>
                && r[i].features.hop <= r[j].features.hop
                && (r[i].features.hop == r[j].features.hop ==> AtMost(r[i].features.service, r[j].features.service))
    {
      assert RankOrder()(s[i], s[j]);
    }
  }

  lemma Unranked(s: seq<Scored>, r: seq<Scored>, scores: seq<Scored>)
    requires r == WithRanks(s) && multiset(s) == multiset(scores) && forall x :: x in scores ==> x.rank == 0
    ensures Map(r, (x: Scored) => x.(rank := 0)) == s
  {
    forall i | 0 <= i < |s| ensures s[i].rank == 0 { SameElements(s, scores, s[i]); }
  }

  lemma ScoresUnranked(an: Analysis, cs: seq<Features>)
    ensures forall x :: x in Scores(an, cs) ==> x.rank == 0
  {
    hide MaxVolume;
  }

  ghost predicate DistinctServices(cs: seq<Features>) {
    forall i, j :: 0 <= i < j < |cs| ==> cs[i].service != cs[j].service
  }

  /** Any permutation of the candidates gives the same ranked list. */
  lemma RankingIgnoresOrder(an: Analysis, a: seq<Features>, b: seq<Features>)
    requires multiset(a) == multiset(b) && DistinctServices(a)
    ensures Ranked(an, a) == Ranked(an, b)
  {
    RankOrderIsTotal();
    MaxVolumeIgnoresOrder(a, b);
    var m := MaxVolume(a);
    MapKeepsArrangement(a, b, (f: Features) => ScoreOne(an, f, m));
    NoTiedServices(an, a);
    hide MaxVolume, ScoreOne, RankOrder;
    SortIgnoresOrder(Scores(an, a), Scores(an, b), RankOrder());
  }

  lemma MaxVolumeIgnoresOrder(a: seq<Features>, b: seq<Features>)
    requires multiset(a) == multiset(b)
    ensures MaxVolume(a) == MaxVolume(b)
  {
    forall f ensures f in a <==> f in b { SameElements(a, b, f); }
    MaxOfMap(a, b, (f: Features) => f.arrived.totalVolume);
  }

  lemma NoTiedServices(an: Analysis, cs: seq<Features>)
    requires DistinctServices(cs)
    ensures NoTies(Scores(an, cs), RankOrder())
  {
    hide ScoreOne, MaxVolume, Scores, RankOrder;
    var s := Scores(an, cs);
    forall x, y | x in s && y in s && RankOrder()(x, y) && RankOrder()(y, x) ensures x == y {
      TiedInRank(x, y);
      ScoresMembers(an, cs, x);
      ScoresMembers(an, cs, y);
    }
  }

  lemma TiedInRank(x: Scored, y: Scored)
    requires RankOrder()(x, y) && RankOrder()(y, x)
    ensures x.features.service == y.features.service
  {
    AtMostAntisymmetric(x.features.service, y.features.service);
  }

  /** A priced candidate's score and breakdown are absolute: they are the same among any rivals. */
  lemma PricedScoreIgnoresRivals(an: Analysis, a: seq<Features>, b: seq<Features>, x: Scored, y: Scored)
    requires x in Ranked(an, a) && y in Ranked(an, b)
    requires x.features == y.features && x.features.arrived.inr.Some?
    ensures x.score == y.score && x.explanation == y.explanation
  {
    RankedIsScored(an, a, x);
    RankedIsScored(an, b, y);
  }

  lemma RankedIsScored(an: Analysis, cs: seq<Features>, x: Scored)
    requires x in Ranked(an, cs)
    ensures x.(rank := 0) == ScoreOne(an, x.features, MaxVolume(cs))
    ensures x.features in cs
  {
    RankOrderIsTotal();
    SortFacts(Scores(an, cs), RankOrder());
    hide ScoreOne, MaxVolume, RankOrder, Sort, Sorted, TotalOrder;
    var s, r := Sort(Scores(an, cs), RankOrder()), Ranked(an, cs);
    var i :| 0 <= i < |r| && r[i] == x;
    SameElements(s, Scores(an, cs), s[i]);
    assert s[i] in Scores(an, cs);
    ScoresMembers(an, cs, s[i]);
  }

  lemma ScoresMembers(an: Analysis, cs: seq<Features>, x: Scored)
    requires x in Scores(an, cs)
    ensures x.features in cs && x == ScoreOne(an, x.features, MaxVolume(cs)) && x.rank == 0
  {
    hide ScoreOne, MaxVolume;
    var j :| 0 <= j < |cs| && Scores(an, cs)[j] == x;
    ScoreOneKeeps(an, cs[j], MaxVolume(cs));
  }

  lemma ScoreOneKeeps(an: Analysis, f: Features, m: real)
    ensures ScoreOne(an, f, m).features == f && ScoreOne(an, f, m).rank == 0
  {}
}
