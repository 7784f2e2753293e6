/** Fraud-linkage risk: time-decayed points per reported case, a saturating score, three labels, and
    a classifier that may add a few capped points.

    `exp` and `0.5 ** x` are parameters; `Exponential` and `HalfPower` are all that is known of them. */
module Risk {
  import opened Options
  import opened Orders
  import opened Rounding

  const BASE_POINTS_PER_CASE := 10.0
  const SATURATION := 60.0
  const MIXER_BONUS := 8.0
  const SANCTIONED_BONUS := 40.0

  const MEDIUM_THRESHOLD := 40.0
  const HIGH_THRESHOLD := 70.0

  // ---------------------------------------------------------------------------
  // The exponential
  // ---------------------------------------------------------------------------

  ghost predicate Adds(exp: real -> real, a: real, b: real) {
    exp(a + b) == exp(a) * exp(b)
  }

  ghost predicate Exponential(exp: real -> real) {
    && (forall a, b :: Adds(exp, a, b))
    && forall x :: exp(x) >= 1.0 + x
  }

  lemma OneFromSquare(e: real)
    requires e == e * e && e >= 1.0
    ensures e == 1.0
  {
    if e > 1.0 { ScaleStrict(1.0, e, e); }
  }

  lemma PositiveFromSquare(e: real, h: real, inverse: real)
    requires e == h * h && e * inverse == 1.0
    ensures e > 0.0
  {}

  lemma ProductOfExps(exp: real -> real, a: real, b: real, c: real)
    requires Exponential(exp) && a + b == c
    ensures exp(c) == exp(a) * exp(b)
  {
    assert Adds(exp, a, b);
  }

  lemma ExpPositive(exp: real -> real, x: real)
    requires Exponential(exp)
    ensures exp(0.0) == 1.0
    ensures exp(x) > 0.0
  {
    ProductOfExps(exp, 0.0, 0.0, 0.0);
    ProductOfExps(exp, x, -x, 0.0);
    ProductOfExps(exp, x / 2.0, x / 2.0, x);
    assert exp(0.0) >= 1.0;
    hide Exponential;
    OneFromSquare(exp(0.0));
    PositiveFromSquare(exp(x), exp(x / 2.0), exp(-x));
  }

  lemma InverseOfLarge(w: real, v: real)
    requires w >= 1.0 && v > 0.0 && w * v == 1.0
    ensures v <= 1.0
  {
    ScaleMonotone(1.0, w, v);
  }

  /** A further step of `d` multiplies by a factor between `1 - d` and 1. */
  lemma ExpStep(exp: real -> real, x: real, d: real)
    requires Exponential(exp) && d >= 0.0
    ensures exp(-x) * (1.0 - d) <= exp(-(x + d)) <= exp(-x)
  {
    hide *;
    ExpPositive(exp, -x);
    ProductOfExps(exp, -x, -d, -(x + d));
    FactorRange(exp, d);
    ProductRange(exp(-x), 1.0 - d, exp(-d), exp(-(x + d)));
  }

  lemma ProductRange(u: real, low: real, v: real, w: real)
    requires u > 0.0 && low <= v <= 1.0 && w == u * v
    ensures u * low <= w <= u
  {
    ScaleMonotone(low, v, u);
    ScaleMonotone(v, 1.0, u);
    assert low * u == u * low && v * u == u * v && 1.0 * u == u;
  }

  lemma FactorRange(exp: real -> real, d: real)
    requires Exponential(exp) && d >= 0.0
    ensures 1.0 - d <= exp(-d) <= 1.0
  {
    ExpPositive(exp, -d);
    ProductOfExps(exp, d, -d, 0.0);
    assert exp(d) >= 1.0 && exp(-d) >= 1.0 - d;
    hide Exponential;
    InverseOfLarge(exp(d), exp(-d));
  }

  // ---------------------------------------------------------------------------
  // Score and label
  // ---------------------------------------------------------------------------

  function NonNegative(x: real): real { if x > 0.0 then x else 0.0 }

  /** Points as a share of the saturation constant. */
  function Scaled(points: real): real { points / SATURATION }

  lemma ScaledIsLinear(a: real, b: real)
    ensures Scaled(a) * 60.0 == a
    ensures Scaled(b) * 60.0 == b
    ensures a <= b <==> Scaled(a) <= Scaled(b)
    ensures Scaled(b) - Scaled(a) == Scaled(b - a)
  {}

  /** The score before it is rounded. */
  function Curve(exp: real -> real, raw: real): real {
    100.0 * (1.0 - exp(-Scaled(NonNegative(raw))))
  }

  /** `_squash` */
  function Squash(exp: real -> real, raw: real): real {
    Round2(Curve(exp, raw))
  }

  datatype Label = Low | Medium | High

  /** `label_for` */
  function LabelFor(score: real): Label {
    if score >= HIGH_THRESHOLD then High
    else if score >= MEDIUM_THRESHOLD then Medium
    else Low
  }

  /** What is left of the room above a score `s` after the share `k` of it is used. */
  function Left(s: real, k: real): real { (100.0 - s) * (1.0 - k) }

  /** Adding `m` points never lowers the curve and uses at most `m / 60` of the room above. */
  lemma CurveStep(exp: real -> real, raw: real, m: real)
    requires Exponential(exp) && m >= 0.0
    ensures 0.0 <= Curve(exp, raw) <= Curve(exp, raw + m) < 100.0
    ensures 100.0 - Curve(exp, raw + m) >= Left(Curve(exp, raw), Scaled(m))
  {
    var x, y := Scaled(NonNegative(raw)), Scaled(NonNegative(raw + m));
    ScaledIsLinear(NonNegative(raw), NonNegative(raw + m));
    ScaledIsLinear(NonNegative(raw + m) - NonNegative(raw), m);
    ScaledIsLinear(0.0, NonNegative(raw));
    ScaledIsLinear(0.0, m);
    hide Scaled, Exponential;
    var d, k := y - x, Scaled(m);
    assert 0.0 <= d <= k && 0.0 <= x;
    ExpStep(exp, x, d);
    ExpStep(exp, 0.0, x);
    ExpPositive(exp, -y);
    assert x + d == y && 0.0 + x == x && -0.0 == 0.0;
    CurveArithmetic(exp(-x), exp(-y), d, k);
  }

  lemma CurveArithmetic(u: real, v: real, d: real, k: real)
    requires 0.0 < v <= u <= 1.0 && d <= k && u * (1.0 - d) <= v
    ensures 100.0 - 100.0 * (1.0 - v) >= Left(100.0 * (1.0 - u), k)
  {
    ScaleMonotone(1.0 - k, 1.0 - d, u);
    assert (100.0 * u) * (1.0 - k) == 100.0 * (u * (1.0 - k));
    assert 100.0 - 100.0 * (1.0 - u) == 100.0 * u;
  }

  lemma SquashIsNear(exp: real -> real, raw: real)
    ensures -0.005 <= Squash(exp, raw) - Curve(exp, raw) <= 0.005
  {
    hide Curve;
  }

  /** Scores lie in 0..100 and more points never lower one. */
  lemma SquashMonotone(exp: real -> real, raw: real, m: real)
    requires Exponential(exp) && m >= 0.0
    ensures 0.0 <= Squash(exp, raw) <= Squash(exp, raw + m) <= 100.0
  {
    CurveStep(exp, raw, m);
    CurveStep(exp, raw + m, 0.0);
    hide Curve, Nearest, Exponential;
    Round2Monotone(Curve(exp, raw), Curve(exp, raw + m));
    Round2Range(Curve(exp, raw));
    Round2Range(Curve(exp, raw + m));
  }

  lemma LeftMeans(s: real, k: real)
    ensures Left(s, k) == (100.0 - s) - (100.0 - s) * k
  {}

  /** A step that leaves `Left` of the room lifts a score by at most the share `k` of all the room. */
  lemma LiftedByShare(s: real, t: real, k: real)
    requires 100.0 - t >= Left(s, k) && 0.0 <= s && 0.0 <= k
    ensures t - s <= 100.0 * k
  {
    LeftMeans(s, k);
    ScaleMonotone(100.0 - s, 100.0, k);
    hide Left;
    var used := (100.0 - s) * k;
    assert t - s <= used;
  }

  /** It keeps the rest of any room there was. */
  lemma LiftedBelow(s: real, t: real, k: real, room: real)
    requires 100.0 - t >= Left(s, k) && k <= 1.0 && room <= 100.0 - s
    ensures t <= 100.0 - room * (1.0 - k)
  {
    ScaleMonotone(room, 100.0 - s, 1.0 - k);
  }

  /** How far `m` further points can move a displayed score. */
  lemma Displacement(exp: real -> real, raw: real, m: real)
    requires Exponential(exp) && m >= 0.0
    ensures 0.0 <= Squash(exp, raw + m) - Squash(exp, raw) <= 100.0 * Scaled(m) + 0.01
  {
    SquashMonotone(exp, raw, m);
    SquashIsNear(exp, raw);
    SquashIsNear(exp, raw + m);
    CurveStep(exp, raw, m);
    ScaledIsLinear(0.0, m);
    hide *;
    LiftedByShare(Curve(exp, raw), Curve(exp, raw + m), Scaled(m));
  }

  /** No amount up to 29 points turns a displayed "low" into a displayed "high". */
  lemma LowNeverTurnsHigh(exp: real -> real, raw: real, m: real)
    requires Exponential(exp) && 0.0 <= m <= 29.0
    requires LabelFor(Squash(exp, raw)) == Low
    ensures LabelFor(Squash(exp, raw + m)) != High
  {
    SquashIsNear(exp, raw);
    SquashIsNear(exp, raw + m);
    CurveStep(exp, raw, m);
    LabelMeans(Squash(exp, raw));
    LabelMeans(Squash(exp, raw + m));
    ScaledIsLinear(0.0, m);
    hide *;
    LowRoom(Curve(exp, raw), Curve(exp, raw + m), Scaled(m), m);
  }

  lemma LowRoom(s: real, t: real, k: real, m: real)
    requires s < 40.005 && k * 60.0 == m && 0.0 <= m <= 29.0 && 100.0 - t >= Left(s, k)
    ensures t <= 69.01
  {
    hide Left;
    assert 0.0 <= k <= 29.0 / 60.0;
    LiftedBelow(s, t, k, 59.995);
  }

  /** Six points do move a label by one: the curve climbs from 0 past 70 in steps of six, and no step
      jumps from "low" to "high". */
  lemma SixPointsCanMoveALabel(exp: real -> real)
    requires Exponential(exp)
    ensures exists raw: real :: raw >= 0.0 && LabelFor(Squash(exp, raw)) == Medium && LabelFor(Squash(exp, raw + 6.0)) == High
    ensures exists raw: real :: raw >= 0.0 && LabelFor(Squash(exp, raw)) == Low && LabelFor(Squash(exp, raw + 6.0)) == Medium
  {
    ScoreOfNothing(exp);
    FarUpTheCurve(exp);
    hide Squash, LabelFor;
    var top := StepAcross(exp, HIGH_THRESHOLD, 100);
    var bottom := StepAcross(exp, MEDIUM_THRESHOLD, 100);
    assert LabelFor(Squash(exp, top)) == Medium && LabelFor(Squash(exp, top + 6.0)) == High by {
      LabelMeans(Squash(exp, top));
      LabelMeans(Squash(exp, top + 6.0));
      if LabelFor(Squash(exp, top)) == Low { LowNeverTurnsHigh(exp, top, 6.0); }
    }
    assert LabelFor(Squash(exp, bottom)) == Low && LabelFor(Squash(exp, bottom + 6.0)) == Medium by {
      LabelMeans(Squash(exp, bottom));
      LabelMeans(Squash(exp, bottom + 6.0));
      LowNeverTurnsHigh(exp, bottom, 6.0);
    }
  }

  lemma LabelMeans(score: real)
    ensures LabelFor(score) == High <==> score >= 70.0
    ensures LabelFor(score) == Low <==> score < 40.0
  {}

  /** 600 raw points score above 90. */
  lemma FarUpTheCurve(exp: real -> real)
    requires Exponential(exp)
    ensures Squash(exp, 600.0) >= HIGH_THRESHOLD
  {
    ExpPositive(exp, -10.0);
    ProductOfExps(exp, 10.0, -10.0, 0.0);
    assert Scaled(NonNegative(600.0)) == 10.0 by { ScaledIsLinear(0.0, 600.0); }
    var big, small := exp(10.0), exp(-10.0);
    assert big >= 11.0 && big * small == 1.0;
    ScaleMonotone(11.0, big, small);
    assert small <= 1.0 / 11.0;
  }

  lemma {:induction false} StepAcross(exp: real -> real, level: real, n: nat) returns (raw: real)
    requires Squash(exp, 0.0) < level && Squash(exp, n as real * 6.0) >= level
    ensures raw >= 0.0 && Squash(exp, raw) < level && Squash(exp, raw + 6.0) >= level
    decreases n
  {
    hide *;
    assert n != 0 by { assert 0.0 * 6.0 == 0.0; }
    var before := (n - 1) as real * 6.0;
    if Squash(exp, before) >= level {
      raw := StepAcross(exp, level, n - 1);
    } else {
      raw := before;
      assert raw + 6.0 == n as real * 6.0;
    }
  }

  // ---------------------------------------------------------------------------
  // The classifier's points
  // ---------------------------------------------------------------------------

  /** `0.5 ** n` for a count. */
  function Half(n: nat): (h: real)
    ensures 0.0 < h <= 1.0
  {
    if n == 0 then 1.0 else Half(n - 1) / 2.0
  }

  /** The cap's share for a count, before rounding. */
  function Share(cap: real, n: nat): real { cap * (1.0 - Half(n)) }

  /** `risk_contribution`; the cap comes from the model artifact. */
  function RiskContribution(available: bool, cap: real, flagged: int): real {
    if flagged <= 0 then 0.0
    else if !available then 0.0
    else Round3(Share(cap, flagged))
  }

  lemma {:induction false} HalfFalls(m: nat, n: nat)
    requires m <= n
    ensures Half(n) <= Half(m)
  {
    if m < n { HalfFalls(m, n - 1); }
  }

  /** Half powers fall below any positive bound. */
  lemma {:induction false} HalfTimesCount(n: nat)
    ensures Half(n) * (n + 1) as real <= 1.0
  {
    if n > 0 {
      HalfTimesCount(n - 1);
      var h := Half(n - 1);
      assert h * n as real <= 1.0;
      assert Half(n) * (n + 1) as real == h / 2.0 * (n as real + 1.0);
      assert h / 2.0 * (n as real + 1.0) == (h * n as real) / 2.0 + h / 2.0;
    }
  }

  lemma HalfGetsSmall(c: real, eps: real) returns (n: nat)
    requires c > 0.0 && eps > 0.0
    ensures n > 0 && c * Half(n) < eps
  {
    n := (c / eps).Floor + 1;
    HalfTimesCount(n);
    var h := Half(n);
    assert n as real > c / eps;
    assert n as real * eps > c by { assert (c / eps) * eps == c; }
    assert h * (n + 1) as real == h * n as real + h;
    ScaleStrict(c, n as real * eps, h);
    assert (n as real * eps) * h == (h * n as real) * eps;
    ScaleMonotone(h * n as real, 1.0, eps);
  }

  lemma ShareGrows(cap: real, m: nat, n: nat)
    requires cap >= 0.0 && m <= n
    ensures 0.0 <= Share(cap, m) <= Share(cap, n) <= cap
  {
    HalfFalls(m, n);
    hide Half;
    ScaleMonotone(0.0, 1.0 - Half(m), cap);
    ScaleMonotone(1.0 - Half(m), 1.0 - Half(n), cap);
    ScaleMonotone(1.0 - Half(n), 1.0, cap);
  }

  /** More flags never give fewer points. */
  lemma ContributionGrows(available: bool, cap: real, m: int, n: int)
    requires cap >= 0.0 && m <= n
    ensures 0.0 <= RiskContribution(available, cap, m) <= RiskContribution(available, cap, n) <= cap + 0.0005
  {
    if n > 0 {
      ShareGrows(cap, if m > 0 then m else 0, n);
      Round3Zero();
      hide Share, Nearest;
      Round3Monotone(0.0, Share(cap, n));
      if m > 0 {
        Round3Monotone(0.0, Share(cap, m));
        Round3Monotone(Share(cap, m), Share(cap, n));
      }
    }
  }

  lemma Round3Zero()
    ensures Round3(0.0) == 0.0
  {
    NearestBelow(0.0, 0);
  }

  function Fraction(x: real): real { x - x.Floor as real }

  /** Rounding to three places respects a cap exactly when the cap itself does not round up. */
  predicate CapRoundsDown(cap: real) {
    cap >= 0.0 && Fraction(cap * 1000.0) <= 0.5
  }

  /** The points stay within the cap for every count exactly when the cap does not round up in its
      third decimal; a cap given to three decimals, such as 6, never does. */
  lemma CapHoldsExactly(cap: real)
    ensures (forall n: int :: RiskContribution(true, cap, n) <= cap) <==> CapRoundsDown(cap)
  {
    if CapRoundsDown(cap) {
      forall n: int ensures RiskContribution(true, cap, n) <= cap {
        CapHolds(cap, n);
      }
    } else if cap < 0.0 {
      assert RiskContribution(true, cap, 0) > cap;
    } else {
      var n := CapBreaks(cap);
      assert RiskContribution(true, cap, n) > cap;
    }
  }

  lemma ShareScaled(cap: real, n: nat)
    ensures Share(cap, n) * 1000.0 == cap * 1000.0 - cap * 1000.0 * Half(n)
  {
    hide Half;
  }

  lemma CapHolds(cap: real, n: int)
    requires CapRoundsDown(cap)
    ensures RiskContribution(true, cap, n) <= cap
  {
    if n > 0 {
      ShareScaled(cap, n);
      var c, x := cap * 1000.0, Share(cap, n) * 1000.0;
      hide Share, Half;
      assert x == c == 0.0 || x < c by {
        if c > 0.0 { ScaleStrict(0.0, c, Half(n)); }
      }
      if c == 0.0 { NearestBelow(x, 0); } else { NearestBelow(x, c.Floor); }
      hide Nearest;
      assert Nearest(x) as real <= c;
    }
  }

  lemma CapBreaks(cap: real) returns (n: nat)
    requires cap >= 0.0 && Fraction(cap * 1000.0) > 0.5
    ensures RiskContribution(true, cap, n) > cap
  {
    var c := cap * 1000.0;
    assert c > 0.0;
    n := HalfGetsSmall(c, Fraction(c) - 0.5);
    ShareScaled(cap, n);
    var x := Share(cap, n) * 1000.0;
    hide Share, Half;
    assert x > c.Floor as real + 0.5;
    NearestBelow(x, c.Floor);
    hide Nearest;
    assert Nearest(x) as real > c;
  }

  /** With the shipped cap of 6 (indeed any cap up to 28.5) the classifier alone never moves an entity
      from "low" to "high", however many transactions it flags. */
  lemma ClassifierCannotDecide(exp: real -> real, raw: real, available: bool, cap: real, flagged: int)
    requires Exponential(exp) && 0.0 <= cap <= 28.5
    requires LabelFor(Squash(exp, raw)) == Low
    ensures LabelFor(Squash(exp, raw + RiskContribution(available, cap, flagged))) != High
  {
    var p := RiskContribution(available, cap, flagged);
    ContributionGrows(available, cap, if flagged > 0 then 0 else flagged, flagged);
    hide *;
    LowNeverTurnsHigh(exp, raw, p);
  }

  // ---------------------------------------------------------------------------
  // Cases
  // ---------------------------------------------------------------------------

  /** What is known of `0.5 ** x` for `x >= 0`. */
  ghost predicate HalfPower(half: real -> real) {
    && (forall x: real :: x >= 0.0 ==> 0.0 < half(x) <= 1.0)
    && (forall x: real, y: real :: 0.0 <= x <= y ==> half(y) <= half(x))
    && half(0.0) == 1.0
    && forall x: real :: x >= 0.0 ==> Halves(half, x)
  }

  /** `0.5 ** (x + 1) == 0.5 ** x / 2` */
  ghost predicate Halves(half: real -> real, x: real) { half(x + 1.0) == half(x) / 2.0 }

  datatype Case = Case(id: string, number: string, reportedAt: Option<int>, amountInr: Option<real>)

  /** A row of `cases_terminating_at`. */
  datatype Hit = Hit(caseNumber: Option<string>, terminal: string)

  datatype Contribution = Contribution(caseId: string, caseNumber: string, reportedAt: int, ageDays: nat, weight: real,
                                       points: real, terminal: string, amountInr: Option<real>)

  /** What a score is computed against: the cases the database knows, the clock and the half-life. */
  datatype Context = Context(rows: map<string, Case>, now: int, halfLifeDays: int)

  /** `decay_weight` */
  function DecayWeight(half: real -> real, ageDays: real, halfLifeDays: int): real {
    if halfLifeDays <= 0 then 1.0
    else half(NonNegative(ageDays) / halfLifeDays as real)
  }

  /** Whole days, rounded down, and never negative. */
  function AgeDays(now: int, reportedAt: int): nat {
    var days := (now - reportedAt) / 86400;
    if days > 0 then days else 0
  }

  /** The case a hit counts for: known to the database and dated. */
  function CaseOf(cx: Context, hit: Hit): Option<Case> {
    if hit.caseNumber.None? || hit.caseNumber.value !in cx.rows then None
    else if cx.rows[hit.caseNumber.value].reportedAt.None? then None
    else Some(cx.rows[hit.caseNumber.value])
  }

  function CaseWeight(half: real -> real, cx: Context, c: Case): real {
    if c.reportedAt.None? then 0.0
    else DecayWeight(half, AgeDays(cx.now, c.reportedAt.value) as real, cx.halfLifeDays)
  }

  function PointsFor(weight: real): real { BASE_POINTS_PER_CASE * weight }

  function HitPoints(half: real -> real, cx: Context, hit: Hit): real {
    match CaseOf(cx, hit)
    case None => 0.0
    case Some(c) => PointsFor(CaseWeight(half, cx, c))
  }

  function ContributionOf(half: real -> real, cx: Context, hit: Hit): seq<Contribution> {
    match CaseOf(cx, hit)
    case None => []
    case Some(c) =>
      var age := AgeDays(cx.now, c.reportedAt.value);
      var w := DecayWeight(half, age as real, cx.halfLifeDays);
      [Contribution(c.id, c.number, c.reportedAt.value, age, Round4(w), Round3(PointsFor(w)), hit.terminal, c.amountInr)]
  }

  function Contributions(half: real -> real, cx: Context, hits: seq<Hit>): seq<Contribution> {
    if hits == [] then []
    else Contributions(half, cx, hits[..|hits| - 1]) + ContributionOf(half, cx, hits[|hits| - 1])
  }

  function CasePoints(half: real -> real, cx: Context, hits: seq<Hit>): real {
    Sum(Map(hits, (h: Hit) => HitPoints(half, cx, h)))
  }

  lemma CasePointsLast(half: real -> real, cx: Context, hits: seq<Hit>, hit: Hit)
    ensures CasePoints(half, cx, hits + [hit]) == CasePoints(half, cx, hits) + HitPoints(half, cx, hit)
    ensures Contributions(half, cx, hits + [hit]) == Contributions(half, cx, hits) + ContributionOf(half, cx, hit)
  {
    hide HitPoints, ContributionOf;
    var f := (h: Hit) => HitPoints(half, cx, h);
    assert Map(hits + [hit], f)[..|hits|] == Map(hits, f);
    assert (hits + [hit])[..|hits|] == hits;
  }

  function Bonus(mixer: bool, entityType: string): real {
    (if mixer then MIXER_BONUS else 0.0) + (if entityType == "sanctioned" then SANCTIONED_BONUS else 0.0)
  }

  /** `model_info`; the precision is missing when the artifact's sweep has no row at the threshold. */
  datatype ModelInfo = ModelInfo(available: bool, version: string, threshold: real, precision: Option<real>, cap: real)

  /** What the graph query counts. */
  datatype Signal = Signal(flagged: int, scored: int)

  /** The sentences shown with a score, without their wording. */
  datatype Factor =
    | ReportedCases(count: nat, halfLifeDays: int)
    | TouchedMixer
    | OnSanctionsList
    | Classifier(signal: Signal, threshold: real, version: string, precision: real, cap: real)
    | NoReportedCases

  datatype RiskResult = RiskResult(score: real, riskLabel: Label, caseIds: seq<string>, contributions: seq<Contribution>,
                                   factors: seq<Factor>)

  function ByPoints(): (Contribution, Contribution) -> bool {
    (a: Contribution, b: Contribution) => a.points >= b.points
  }

  lemma ByPointsIsTotal()
    ensures TotalOrder(ByPoints())
  {}

  /** The raw points, in the order `score_entity` adds them. */
  function RawPoints(cases: real, mixer: bool, entityType: string, ml: real): real {
    cases + Bonus(mixer, entityType) + (if ml > 0.0 then ml else 0.0)
  }

  /** The classifier's points for a signal. */
  function MlPoints(info: ModelInfo, signal: Signal): real {
    RiskContribution(info.available, info.cap, signal.flagged)
  }

  function CaseFactor(count: nat, halfLifeDays: int): seq<Factor> {
    if count > 0 then [ReportedCases(count, halfLifeDays)] else []
  }

  function ClassifierFactor(info: ModelInfo, signal: Signal): seq<Factor> {
    if MlPoints(info, signal) > 0.0 && info.precision.Some?
    then [Classifier(signal, info.threshold, info.version, info.precision.value, info.cap)] else []
  }

  function Factors(count: nat, halfLifeDays: int, mixer: bool, entityType: string, info: ModelInfo, signal: Signal)
    : seq<Factor>
  {
    var all := CaseFactor(count, halfLifeDays) + (if mixer then [TouchedMixer] else [])
               + (if entityType == "sanctioned" then [OnSanctionsList] else []) + ClassifierFactor(info, signal);
    if all == [] then [NoReportedCases] else all
  }

  /** `score_entity`, given what its queries return. Formatting a missing precision raises, so there is
      no result when the classifier adds points and its precision is unknown. The breakdown is sorted
      by points, ties in the order of the cases (`SortStable`). */
  method ScoreEntity(half: real -> real, exp: real -> real, cx: Context, hits: seq<Hit>, entityType: string, mixer: bool,
                     info: ModelInfo, signal: Signal)
    returns (r: Option<RiskResult>)
    ensures r.None? <==> MlPoints(info, signal) > 0.0 && info.precision.None?
    ensures r.Some? ==>
              var cs := Contributions(half, cx, hits);
              && r.value.score
                 == Squash(exp, RawPoints(CasePoints(half, cx, hits), mixer, entityType, MlPoints(info, signal)))
              && r.value.riskLabel == LabelFor(r.value.score)
              && r.value.contributions == Sort(cs, ByPoints())
              && r.value.caseIds == Map(Sort(cs, ByPoints()), (c: Contribution) => c.caseId)
              && r.value.factors == Factors(|cs|, cx.halfLifeDays, mixer, entityType, info, signal)
  {
    var rawPoints, contributions := AccumulateCases(half, cx, hits);
    hide Squash, CasePoints, RiskContribution, Contributions, LabelFor, Sort;
    var factors: seq<Factor> := [];
    if contributions != [] {
      factors := factors + [ReportedCases(|contributions|, cx.halfLifeDays)];
    }
    if mixer {
      rawPoints := rawPoints + MIXER_BONUS;
      factors := factors + [TouchedMixer];
    }
    if entityType == "sanctioned" {
      rawPoints := rawPoints + SANCTIONED_BONUS;
      factors := factors + [OnSanctionsList];
    }
    var mlPoints := MlPoints(info, signal);
    if mlPoints > 0.0 {
      rawPoints := rawPoints + mlPoints;
      if info.precision.None? {
        return None;
      }
      factors := factors + [Classifier(signal, info.threshold, info.version, info.precision.value, info.cap)];
    }
    var score := Squash(exp, rawPoints);
    if factors == [] {
      factors := [NoReportedCases];
    }
    var sorted := Sort(contributions, ByPoints());
    r := Some(RiskResult(score, LabelFor(score), Map(sorted, (c: Contribution) => c.caseId), sorted, factors));
  }

  /** The breakdown lists every counted case once, by falling points, ties as they came. */
  lemma BreakdownIsComplete(half: real -> real, cx: Context, hits: seq<Hit>, c: Contribution)
    ensures (var cs := Contributions(half, cx, hits);
             && multiset(Sort(cs, ByPoints())) == multiset(cs)
             && Sorted(Sort(cs, ByPoints()), ByPoints())
             && (forall i, j :: 0 <= i < j < |Sort(cs, ByPoints())| ==>
                   Sort(cs, ByPoints())[i].points >= Sort(cs, ByPoints())[j].points)
             && Tied(Sort(cs, ByPoints()), c, ByPoints()) == Tied(cs, c, ByPoints()))
  {
    hide *;
    ByPointsIsTotal();
    SortFacts(Contributions(half, cx, hits), ByPoints());
    SortStable(Contributions(half, cx, hits), c, ByPoints());
    PointsFall(Sort(Contributions(half, cx, hits), ByPoints()));
  }

  lemma PointsFall(cs: seq<Contribution>)
    requires Sorted(cs, ByPoints())
    ensures forall i, j :: 0 <= i < j < |cs| ==> cs[i].points >= cs[j].points
  {
    forall i, j | 0 <= i < j < |cs| ensures cs[i].points >= cs[j].points {
      assert ByPoints()(cs[i], cs[j]);
    }
  }

  /** "No reported cases" is shown exactly for a score with nothing behind it, and that score is 0. */
  lemma NothingToShow(half: real -> real, exp: real -> real, cx: Context, hits: seq<Hit>, entityType: string, mixer: bool,
                      info: ModelInfo, signal: Signal)
    requires Exponential(exp) && (MlPoints(info, signal) > 0.0 ==> info.precision.Some?)
    ensures (var cs := Contributions(half, cx, hits);
             var shown := Factors(|cs|, cx.halfLifeDays, mixer, entityType, info, signal);
             && (shown == [NoReportedCases] <==>
                   cs == [] && !mixer && entityType != "sanctioned" && MlPoints(info, signal) <= 0.0)
             && (shown == [NoReportedCases] ==>
                   Squash(exp, RawPoints(CasePoints(half, cx, hits), mixer, entityType, MlPoints(info, signal))) == 0.0))
  {
    FactorsShown(|Contributions(half, cx, hits)|, cx.halfLifeDays, mixer, entityType, info, signal);
    if Contributions(half, cx, hits) == [] { NoContributionNoPoints(half, cx, hits); }
    ScoreOfNothing(exp);
    hide Contributions, CasePoints, Squash, MlPoints, Factors, Exponential;
  }

  lemma FactorsShown(count: nat, halfLifeDays: int, mixer: bool, entityType: string, info: ModelInfo, signal: Signal)
    requires MlPoints(info, signal) > 0.0 ==> info.precision.Some?
    ensures Factors(count, halfLifeDays, mixer, entityType, info, signal) == [NoReportedCases] <==>
              count == 0 && !mixer && entityType != "sanctioned" && MlPoints(info, signal) <= 0.0
  {
    hide MlPoints;
    var all := CaseFactor(count, halfLifeDays) + (if mixer then [TouchedMixer] else [])
               + (if entityType == "sanctioned" then [OnSanctionsList] else []) + ClassifierFactor(info, signal);
    assert all != [] ==> all[0] != NoReportedCases;
  }

  lemma {:induction false} NoContributionNoPoints(half: real -> real, cx: Context, hits: seq<Hit>)
    requires Contributions(half, cx, hits) == []
    ensures CasePoints(half, cx, hits) == 0.0
  {
    if hits == [] {
      NoHits(half, cx);
    } else {
      var before, hit := hits[..|hits| - 1], hits[|hits| - 1];
      assert hits == before + [hit];
      CasePointsLast(half, cx, before, hit);
      OnePoint(half, cx, hit);
      hide CasePoints, Contributions, HitPoints, ContributionOf;
      NoContributionNoPoints(half, cx, before);
    }
  }

  lemma ScoreOfNothing(exp: real -> real)
    requires Exponential(exp)
    ensures Squash(exp, 0.0) == 0.0
  {
    ExpPositive(exp, 0.0);
    ScaledIsLinear(0.0, 0.0);
    assert -Scaled(NonNegative(0.0)) == 0.0;
    NearestBelow(0.0, 0);
  }

  lemma NoHits(half: real -> real, cx: Context)
    ensures CasePoints(half, cx, []) == 0.0 && Contributions(half, cx, []) == []
  {}

  lemma HitCounts(half: real -> real, cx: Context, hit: Hit)
    requires hit.caseNumber.Some? && hit.caseNumber.value in cx.rows && cx.rows[hit.caseNumber.value].reportedAt.Some?
    ensures (var c := cx.rows[hit.caseNumber.value];
             var age := AgeDays(cx.now, c.reportedAt.value);
             var w := DecayWeight(half, age as real, cx.halfLifeDays);
             && HitPoints(half, cx, hit) == PointsFor(w)
             && ContributionOf(half, cx, hit)
                == [Contribution(c.id, c.number, c.reportedAt.value, age, Round4(w), Round3(PointsFor(w)), hit.terminal, c.amountInr)])
  {
    hide Round4, Round3, DecayWeight, AgeDays;
  }

  lemma HitSkipped(half: real -> real, cx: Context, hit: Hit)
    requires !(hit.caseNumber.Some? && hit.caseNumber.value in cx.rows && cx.rows[hit.caseNumber.value].reportedAt.Some?)
    ensures HitPoints(half, cx, hit) == 0.0 && ContributionOf(half, cx, hit) == []
  {
    hide Round4, Round3, DecayWeight, AgeDays;
  }

  /** The loop of `score_entity` over the cases. */
  method AccumulateCases(half: real -> real, cx: Context, hits: seq<Hit>)
    returns (rawPoints: real, contributions: seq<Contribution>)
    ensures rawPoints == CasePoints(half, cx, hits)
    ensures contributions == Contributions(half, cx, hits)
  {
    rawPoints, contributions := 0.0, [];
    NoHits(half, cx);
    hide *;
    assert hits[..0] == [];
    for i := 0 to |hits|
      invariant rawPoints == CasePoints(half, cx, hits[..i])
      invariant contributions == Contributions(half, cx, hits[..i])
    {
      var hit := hits[i];
      assert hits[..i + 1] == hits[..i] + [hit];
      CasePointsLast(half, cx, hits[..i], hit);
      if hit.caseNumber.Some? && hit.caseNumber.value in cx.rows && cx.rows[hit.caseNumber.value].reportedAt.Some? {
        var case_ := cx.rows[hit.caseNumber.value];
        var age := AgeDays(cx.now, case_.reportedAt.value);
        var weight := DecayWeight(half, age as real, cx.halfLifeDays);
        var points := PointsFor(weight);
        HitCounts(half, cx, hit);
        rawPoints := rawPoints + points;
        contributions := contributions
          + [Contribution(case_.id, case_.number, case_.reportedAt.value, age, Round4(weight), Round3(points), hit.terminal,
                          case_.amountInr)];
      } else {
        HitSkipped(half, cx, hit);
      }
    }
    assert hits[..|hits|] == hits;
  }

  // ---------------------------------------------------------------------------
  // What the score means
  // ---------------------------------------------------------------------------

  lemma HitPointsRange(half: real -> real, cx: Context, hit: Hit)
    requires HalfPower(half)
    ensures 0.0 <= HitPoints(half, cx, hit) <= BASE_POINTS_PER_CASE
  {}

  /** The order in which the graph returns the cases does not matter. */
  lemma PointsIgnoreOrder(half: real -> real, cx: Context, a: seq<Hit>, b: seq<Hit>)
    requires multiset(a) == multiset(b)
    ensures CasePoints(half, cx, a) == CasePoints(half, cx, b)
  {
    var f := (h: Hit) => HitPoints(half, cx, h);
    MapKeepsArrangement(a, b, f);
    SumIgnoresOrder(Map(a, f), Map(b, f));
  }

  /** One more complaint never lowers the score. */
  lemma MoreCasesNeverLower(half: real -> real, exp: real -> real, cx: Context, hits: seq<Hit>, hit: Hit, other: real)
    requires HalfPower(half) && Exponential(exp)
    ensures Squash(exp, CasePoints(half, cx, hits) + other) <= Squash(exp, CasePoints(half, cx, hits + [hit]) + other)
  {
    CasePointsLast(half, cx, hits, hit);
    HitPointsRange(half, cx, hit);
    SquashMonotone(exp, CasePoints(half, cx, hits) + other, HitPoints(half, cx, hit));
    hide *;
    assert CasePoints(half, cx, hits) + other + HitPoints(half, cx, hit) == CasePoints(half, cx, hits + [hit]) + other;
  }

  function Displayed(cs: seq<Contribution>): real {
    Sum(Map(cs, (c: Contribution) => c.points))
  }

  lemma DisplayedLast(cs: seq<Contribution>, c: Contribution)
    ensures Displayed(cs + [c]) == Displayed(cs) + c.points
  {
    var f := (c: Contribution) => c.points;
    assert Map(cs + [c], f)[..|cs|] == Map(cs, f);
  }

  ghost predicate Near(shown: real, exact: real, slack: real) {
    -slack <= shown - exact <= slack
  }

  /** Half a unit of the third place for each row. */
  function Slack(rows: nat): real { 0.0005 * rows as real }

  lemma NearMore(a: real, b: real, rows: nat, c: real, d: real)
    requires Near(a, b, Slack(rows)) && Near(c, d, 0.0005)
    ensures Near(a + c, b + d, Slack(rows + 1))
  {}

  lemma NearNothing()
    ensures Near(0.0, 0.0, Slack(0))
  {}

  lemma NothingDisplayed()
    ensures Displayed([]) == 0.0
  {}

  lemma {:induction false} DisplayedPoints(half: real -> real, cx: Context, hits: seq<Hit>)
    ensures Near(Displayed(Contributions(half, cx, hits)), CasePoints(half, cx, hits),
                 Slack(|Contributions(half, cx, hits)|))
  {
    hide *;
    if hits == [] {
      NoHits(half, cx);
      NothingDisplayed();
      NearNothing();
    } else {
      var before, hit := hits[..|hits| - 1], hits[|hits| - 1];
      assert hits == before + [hit];
      DisplayedPoints(half, cx, before);
      CasePointsLast(half, cx, before, hit);
      var cs, c := Contributions(half, cx, before), ContributionOf(half, cx, hit);
      OnePoint(half, cx, hit);
      if c == [] {
        assert cs + c == cs;
      } else {
        assert cs + c == cs + [c[0]];
        DisplayedLast(cs, c[0]);
        NearMore(Displayed(cs), CasePoints(half, cx, before), |cs|, c[0].points, HitPoints(half, cx, hit));
      }
    }
  }

  lemma OnePoint(half: real -> real, cx: Context, hit: Hit)
    ensures (var c := ContributionOf(half, cx, hit);
             if c == [] then HitPoints(half, cx, hit) == 0.0
             else |c| == 1 && Near(c[0].points, HitPoints(half, cx, hit), 0.0005))
  {}

  /** The published breakdown reconstructs the score: recomputing from the displayed, rounded points
      lands within the rounding of the rows. */
  lemma Reconstructable(half: real -> real, exp: real -> real, cx: Context, hits: seq<Hit>, shown: seq<Contribution>,
                        other: real)
    requires Exponential(exp)
    requires multiset(shown) == multiset(Contributions(half, cx, hits))
    ensures Near(Squash(exp, Displayed(shown) + other), Squash(exp, CasePoints(half, cx, hits) + other),
                 100.0 * Scaled(Slack(|shown|)) + 0.01)
  {
    hide *;
    ShownInAnyOrder(shown, Contributions(half, cx, hits));
    DisplayedPoints(half, cx, hits);
    NearShift(Displayed(shown), CasePoints(half, cx, hits), other, Slack(|shown|));
    NearScores(exp, Displayed(shown) + other, CasePoints(half, cx, hits) + other, Slack(|shown|));
  }

  lemma NearShift(a: real, b: real, x: real, slack: real)
    requires Near(a, b, slack)
    ensures Near(a + x, b + x, slack)
  {}

  lemma NearScores(exp: real -> real, a: real, b: real, slack: real)
    requires Exponential(exp) && Near(a, b, slack)
    ensures Near(Squash(exp, a), Squash(exp, b), 100.0 * Scaled(slack) + 0.01)
  {
    ScaledIsLinear(a - b, slack);
    ScaledIsLinear(b - a, slack);
    hide Squash, Scaled, Exponential;
    if a >= b {
      Displacement(exp, b, a - b);
      assert b + (a - b) == a;
    } else {
      Displacement(exp, a, b - a);
      assert a + (b - a) == b;
    }
  }

  lemma ShownInAnyOrder(a: seq<Contribution>, b: seq<Contribution>)
    requires multiset(a) == multiset(b)
    ensures Displayed(a) == Displayed(b) && |a| == |b|
  {
    SameLength(a, b);
    var f := (c: Contribution) => c.points;
    MapKeepsArrangement(a, b, f);
    SumIgnoresOrder(Map(a, f), Map(b, f));
  }

  // ---------------------------------------------------------------------------
  // What a case, a flag and a bonus are worth
  // ---------------------------------------------------------------------------

  predicate Dated(cx: Context, hit: Hit) {
    && hit.caseNumber.Some? && hit.caseNumber.value in cx.rows
    && cx.rows[hit.caseNumber.value].reportedAt.Some?
  }

  /** When a dated hit's case was reported. */
  function ReportedAt(cx: Context, hit: Hit): int
    requires Dated(cx, hit)
  {
    cx.rows[hit.caseNumber.value].reportedAt.value
  }

  /** A case reported less than a day ago, or dated in the future, is worth ten points, and so is any
      case without a half-life; an unknown or undated one nothing. */
  lemma FreshCaseIsTenPoints(half: real -> real, cx: Context, hit: Hit)
    requires HalfPower(half)
    ensures !Dated(cx, hit) ==> HitPoints(half, cx, hit) == 0.0
    ensures Dated(cx, hit) && cx.now < ReportedAt(cx, hit) + 86400 ==> HitPoints(half, cx, hit) == 10.0
    ensures Dated(cx, hit) && cx.halfLifeDays <= 0 ==> HitPoints(half, cx, hit) == 10.0
  {
    if Dated(cx, hit) && cx.now < ReportedAt(cx, hit) + 86400 {
      AgeInDays(cx.now, ReportedAt(cx, hit));
      if cx.halfLifeDays > 0 { NoAge(cx.halfLifeDays); }
    }
  }

  lemma NoAge(halfLifeDays: int)
    requires halfLifeDays > 0
    ensures NonNegative(0.0) / halfLifeDays as real == 0.0
  {}

  /** Ages are whole days, rounded down; the future counts as today. */
  lemma AgeInDays(now: int, reportedAt: int)
    ensures now >= reportedAt ==> 86400 * AgeDays(now, reportedAt) <= now - reportedAt < 86400 * (AgeDays(now, reportedAt) + 1)
    ensures now < reportedAt ==> AgeDays(now, reportedAt) == 0
    ensures forall days: nat :: now >= reportedAt ==> AgeDays(now + 86400 * days, reportedAt) == AgeDays(now, reportedAt) + days
  {}

  /** One half-life later every case that has been reported is worth half as much. */
  lemma CasesHalve(half: real -> real, cx: Context, hit: Hit)
    requires HalfPower(half) && cx.halfLifeDays > 0 && Dated(cx, hit) && ReportedAt(cx, hit) <= cx.now
    ensures HitPoints(half, cx.(now := cx.now + 86400 * cx.halfLifeDays), hit) == HitPoints(half, cx, hit) / 2.0
  {
    var age := AgeDays(cx.now, ReportedAt(cx, hit));
    AgeInDays(cx.now, ReportedAt(cx, hit));
    WeightHalves(half, age, cx.halfLifeDays);
    hide DecayWeight, AgeDays, HalfPower;
  }

  lemma WeightHalves(half: real -> real, age: nat, halfLifeDays: int)
    requires HalfPower(half) && halfLifeDays > 0
    ensures DecayWeight(half, (age + halfLifeDays) as real, halfLifeDays) == DecayWeight(half, age as real, halfLifeDays) / 2.0
  {
    var x := age as real / halfLifeDays as real;
    assert x >= 0.0 by { NotNegative(age, halfLifeDays); }
    assert Halves(half, x);
    OneMoreHalfLife(age as real, halfLifeDays as real);
    assert (age + halfLifeDays) as real == age as real + halfLifeDays as real;
  }

  lemma OneMoreHalfLife(a: real, b: real)
    requires b > 0.0
    ensures (a + b) / b == a / b + 1.0
  {
    var q := a / b;
    assert a + b == (q + 1.0) * b by {
      assert a == q * b;
      assert (q + 1.0) * b == q * b + b;
    }
    Quotient(a + b, q + 1.0, b);
  }

  lemma Quotient(n: real, q: real, b: real)
    requires b > 0.0 && n == q * b
    ensures n / b == q
  {}

  lemma NotNegative(a: nat, b: int)
    requires b > 0
    ensures a as real / b as real >= 0.0
  {}

  lemma ShareLeft(cap: real, n: nat)
    ensures cap - Share(cap, n) == cap * Half(n)
  {
    hide Half;
  }

  lemma HalvedProduct(cap: real, h: real)
    ensures cap * (h / 2.0) == cap * h / 2.0
  {}

  /** The first flagged transaction earns half the cap, and each further one half of what is left;
      a model that did not load earns nothing. */
  lemma EachFlagHalvesTheRest(cap: real, n: nat)
    ensures Share(cap, 0) == 0.0
    ensures cap - Share(cap, n + 1) == (cap - Share(cap, n)) / 2.0
    ensures n > 0 ==> -0.0005 <= RiskContribution(true, cap, n) - Share(cap, n) <= 0.0005
    ensures RiskContribution(true, cap, 0) == 0.0 && RiskContribution(false, cap, n) == 0.0
  {
    ShareLeft(cap, n);
    ShareLeft(cap, n + 1);
    HalvedProduct(cap, Half(n));
    hide Share;
    assert Half(n + 1) == Half(n) / 2.0;
  }

  /** A mixer adds eight points, the sanctions list forty, the classifier what it contributes. */
  lemma WhatIsAdded(cases: real, mixer: bool, entityType: string, ml: real)
    ensures RawPoints(cases, true, entityType, ml) == RawPoints(cases, false, entityType, ml) + 8.0
    ensures RawPoints(cases, mixer, "sanctioned", ml) == RawPoints(cases, mixer, "", ml) + 40.0
    ensures entityType != "sanctioned" ==> RawPoints(cases, false, entityType, ml) == cases + NonNegative(ml)
  {}

  lemma ReciprocalBound(exp: real -> real, x: real)
    requires Exponential(exp) && x >= 0.0
    ensures exp(-x) * (1.0 + x) <= 1.0
  {
    ProductOfExps(exp, x, -x, 0.0);
    ExpPositive(exp, -x);
    assert exp(x) >= 1.0 + x;
    hide Exponential;
    ScaleMonotone(1.0 + x, exp(x), exp(-x));
    assert exp(-x) * (1.0 + x) == (1.0 + x) * exp(-x);
  }

  /** A sanctioned destination is never labelled low, whatever else is known of it. */
  lemma SanctionedIsNeverLow(exp: real -> real, cases: real, mixer: bool, ml: real)
    requires Exponential(exp) && cases >= 0.0
    ensures LabelFor(Squash(exp, RawPoints(cases, mixer, "sanctioned", ml))) != Low
  {
    var raw := RawPoints(cases, mixer, "sanctioned", ml);
    assert raw >= 40.0;
    FortyPoints(exp);
    SquashMonotone(exp, 40.0, raw - 40.0);
    LabelMeans(Squash(exp, raw));
    hide *;
    assert 40.0 + (raw - 40.0) == raw;
  }

  lemma FortyPoints(exp: real -> real)
    requires Exponential(exp)
    ensures Squash(exp, 40.0) >= 40.0
  {
    var x := Scaled(NonNegative(40.0));
    ScaledIsLinear(0.0, 40.0);
    ReciprocalBound(exp, x);
    assert x * 3.0 == 2.0;
    assert exp(-x) <= 0.6 by { FactorAtMost(exp(-x), x); }
    hide Exponential;
    assert Curve(exp, 40.0) >= 40.0;
    Round2Monotone(40.0, Curve(exp, 40.0));
    NearestBelow(40.0 * 100.0, 4000);
  }

  lemma FactorAtMost(u: real, x: real)
    requires u * (1.0 + x) <= 1.0 && x * 3.0 == 2.0
    ensures u <= 0.6
  {}

  /** At the saturation constant itself the score is at most 75, not about 81 as its comment says. */
  lemma SixtyPoints(exp: real -> real)
    requires Exponential(exp)
    ensures 50.0 <= Squash(exp, 60.0) <= 75.0
  {
    assert Scaled(NonNegative(60.0)) == 1.0 by { ScaledIsLinear(0.0, 60.0); }
    ReciprocalBound(exp, 1.0);
    ProductOfExps(exp, -0.5, -0.5, -1.0);
    var h := exp(-0.5);
    assert h >= 0.5;
    hide Exponential;
    AtLeastAQuarter(h);
    assert 50.0 <= Curve(exp, 60.0) <= 75.0;
    Round2Monotone(50.0, Curve(exp, 60.0));
    Round2Monotone(Curve(exp, 60.0), 75.0);
    NearestBelow(5000.0, 5000);
    NearestBelow(7500.0, 7500);
  }

  lemma AtLeastAQuarter(h: real)
    requires h >= 0.5
    ensures h * h >= 0.25
  {
    ScaleMonotone(0.5, h, h);
    ScaleMonotone(0.5, h, 0.5);
  }

  /** Fewer than 24 points are low: a mixer with one reported case is. */
  lemma FewPointsAreLow(exp: real -> real, raw: real)
    requires Exponential(exp) && raw <= 23.9
    ensures LabelFor(Squash(exp, raw)) == Low
  {
    ScoreOfNothing(exp);
    LabelMeans(Squash(exp, raw));
    if raw >= 0.0 {
      Displacement(exp, 0.0, raw);
      ScaledIsLinear(0.0, raw);
      hide *;
      assert 0.0 + raw == raw;
      assert Scaled(raw) <= 23.9 / 60.0;
    } else {
      assert NonNegative(raw) == NonNegative(0.0);
      assert Squash(exp, raw) == Squash(exp, 0.0);
    }
  }

  /** Each factor is shown exactly for its reason. */
  lemma FactorsMean(count: nat, halfLifeDays: int, mixer: bool, entityType: string, info: ModelInfo, signal: Signal)
    requires MlPoints(info, signal) > 0.0 ==> info.precision.Some?
    ensures var fs := Factors(count, halfLifeDays, mixer, entityType, info, signal);
            && (TouchedMixer in fs <==> mixer)
            && (OnSanctionsList in fs <==> entityType == "sanctioned")
            && (forall n: nat, h :: ReportedCases(n, h) in fs <==> n == count > 0 && h == halfLifeDays)
            && (forall f :: f in fs && f.Classifier? <==> MlPoints(info, signal) > 0.0 && f == Classifier(signal, info.threshold, info.version, info.precision.value, info.cap))
  {
    hide MlPoints;
  }
}
