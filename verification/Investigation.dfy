/** From raw paths to ranked services: grouping, measuring and ranking together. */
module Investigation {
  import opened Chains
  import GraphState
  import opened Orders
  import opened Exposure
  import opened Ranking

  /** The services reached, in order of first appearance. */
  function Services(rows: seq<PathRow>): seq<string> {
    if rows == [] then []
    else
      var before, s := Services(rows[..|rows| - 1]), rows[|rows| - 1].service;
      if s in before then before else before + [s]
  }

  /** The rows of one service, in their order. */
  function RowsOf(rows: seq<PathRow>, s: string): seq<PathRow> {
    if rows == [] then []
    else
      var before, r := RowsOf(rows[..|rows| - 1], s), rows[|rows| - 1];
      if r.service == s then before + [r] else before
  }

  lemma {:induction false} ServicesMean(rows: seq<PathRow>, s: string)
    ensures s in Services(rows) <==> exists r :: r in rows && r.service == s
    ensures NoRepeats(Services(rows))
  {
    if rows != [] {
      var init, last := rows[..|rows| - 1], rows[|rows| - 1];
      ServicesMean(init, s);
      assert forall r :: r in rows <==> r in init || r == last;
    }
  }

  /** Grouping loses no row, invents none and keeps every repetition. */
  lemma {:induction false} RowsOfCount(rows: seq<PathRow>, s: string, r: PathRow)
    ensures multiset(RowsOf(rows, s))[r] == if r.service == s then multiset(rows)[r] else 0
  {
    if rows != [] {
      RowsOfCount(rows[..|rows| - 1], s, r);
      WithoutLast(rows);
    }
  }

  lemma RowsOfMembers(rows: seq<PathRow>, s: string, r: PathRow)
    ensures r in RowsOf(rows, s) <==> r in rows && r.service == s
  {
    RowsOfCount(rows, s, r);
    assert r in RowsOf(rows, s) <==> r in multiset(RowsOf(rows, s));
    assert r in rows <==> r in multiset(rows);
  }

  /** Row `i` is the first of the service. */
  ghost predicate FirstOf(rows: seq<PathRow>, s: string, i: nat) {
    i < |rows| && rows[i].service == s && forall j :: 0 <= j < i ==> rows[j].service != s
  }

  /** Where the services first appear: each at a later row than the one before. */
  lemma {:induction false} ServicesInOrder(rows: seq<PathRow>) returns (at: seq<nat>)
    ensures |at| == |Services(rows)|
    ensures forall k :: 0 <= k < |at| ==> FirstOf(rows, Services(rows)[k], at[k])
    ensures forall k, l :: 0 <= k < l < |at| ==> at[k] < at[l]
  {
    at := [];
    if rows != [] {
      var n := |rows| - 1;
      at := ServicesInOrder(rows[..n]);
      forall s, i | FirstOf(rows[..n], s, i) ensures FirstOf(rows, s, i) { StaysFirst(rows, s, i); }
      assert forall k :: 0 <= k < |at| ==> at[k] < n;
      if rows[n].service !in Services(rows[..n]) {
        LastIsFirst(rows);
        at := at + [n];
      }
    }
  }

  lemma StaysFirst(rows: seq<PathRow>, s: string, i: nat)
    requires rows != [] && FirstOf(rows[..|rows| - 1], s, i)
    ensures FirstOf(rows, s, i)
  {
    assert forall j :: 0 <= j <= i ==> rows[..|rows| - 1][j] == rows[j];
  }

  lemma LastIsFirst(rows: seq<PathRow>)
    requires rows != [] && rows[|rows| - 1].service !in Services(rows[..|rows| - 1])
    ensures FirstOf(rows, rows[|rows| - 1].service, |rows| - 1)
  {
    var n := |rows| - 1;
    ServicesMean(rows[..n], rows[n].service);
    forall j | 0 <= j < n ensures rows[j].service != rows[n].service { assert rows[j] == rows[..n][j] && rows[j] in rows[..n]; }
  }

  /** The rows of a service in the order they came: at rising places, and at every place it has. */
  lemma {:induction false} RowsOfInOrder(rows: seq<PathRow>, s: string) returns (at: seq<nat>)
    ensures |at| == |RowsOf(rows, s)|
    ensures forall k :: 0 <= k < |at| ==> at[k] < |rows| && rows[at[k]] == RowsOf(rows, s)[k]
    ensures forall k, l :: 0 <= k < l < |at| ==> at[k] < at[l]
    ensures forall i :: 0 <= i < |rows| ==> (rows[i].service == s <==> i in at)
  {
    at := [];
    if rows != [] {
      var n := |rows| - 1;
      at := RowsOfInOrder(rows[..n], s);
      if rows[n].service == s {
        at := at + [n];
      }
    }
  }

  /** `group_by_service` */
  method GroupByService(rows: seq<PathRow>) returns (order: seq<string>, grouped: map<string, seq<PathRow>>)
    ensures order == Services(rows)
    ensures forall s :: s in grouped <==> s in order
    ensures forall s :: s in grouped ==> grouped[s] == RowsOf(rows, s)
  {
    order, grouped := [], map[];
    for i := 0 to |rows|
      invariant order == Services(rows[..i])
      invariant forall s :: s in grouped <==> s in order
      invariant forall s :: s in grouped ==> grouped[s] == RowsOf(rows[..i], s)
      invariant forall s :: s !in grouped ==> RowsOf(rows[..i], s) == []
    {
      var row := rows[i];
      assert rows[..i + 1][..i] == rows[..i];
      if row.service !in grouped {
        order := order + [row.service];
        grouped := grouped[row.service := []];
      }
      grouped := grouped[row.service := grouped[row.service] + [row]];
    }
    assert rows[..|rows|] == rows;
  }

  lemma ServiceHasRows(rows: seq<PathRow>, s: string)
    requires s in Services(rows)
    ensures RowsOf(rows, s) != []
  {
    ServicesMean(rows, s);
    var r :| r in rows && r.service == s;
    RowsOfMembers(rows, s, r);
  }

  /** One candidate for each service, measured on that service's rows. */
  function Candidates(rows: seq<PathRow>, price: Price, now: real): (cs: seq<Features>)
    ensures |cs| == |Services(rows)|
  {
    seq(|Services(rows)|, i requires 0 <= i < |Services(rows)| =>
      ServiceHasRows(rows, Services(rows)[i]);
      FeaturesOf(RowsOf(rows, Services(rows)[i]), price, now))
  }

  lemma CandidateAt(rows: seq<PathRow>, price: Price, now: real, i: nat)
    requires i < |Services(rows)|
    ensures RowsOf(rows, Services(rows)[i]) != []
    ensures Candidates(rows, price, now)[i] == FeaturesOf(RowsOf(rows, Services(rows)[i]), price, now)
  {
    ServiceHasRows(rows, Services(rows)[i]);
    hide FeaturesOf;
  }

  /** The indirect branch of `analyse_exposure`, after its queries. */
  method RankServices(an: Analysis, rows: seq<PathRow>, price: Price, now: real) returns (scored: seq<Scored>)
    ensures scored == Ranked(an, Candidates(rows, price, now))
  {
    var order, grouped := GroupByService(rows);
    var features: seq<Features> := [];
    hide FeaturesOf, Candidates, Services, RowsOf, Ranked;
    for i := 0 to |order|
      invariant features == Candidates(rows, price, now)[..i]
    {
      CandidateAt(rows, price, now, i);
      assert order[i] in grouped;
      var f := ExtractPathFeatures(grouped[order[i]], price, now);
      features := features + [f.value.features];
    }
    assert Candidates(rows, price, now)[..|order|] == Candidates(rows, price, now);
    scored := ScoreCandidates(an, features);
  }

  lemma CandidateService(rows: seq<PathRow>, price: Price, now: real, s: string)
    requires s in Services(rows)
    ensures RowsOf(rows, s) != [] && FeaturesOf(RowsOf(rows, s), price, now).service == s
  {
    ServiceHasRows(rows, s);
    var own := RowsOf(rows, s);
    InHopOrderFacts(own);
    RowsOfMembers(rows, s, InHopOrder(own)[0]);
  }

  /** The candidates that reach the ranking carry distinct service names. */
  lemma CandidatesAreDistinct(rows: seq<PathRow>, price: Price, now: real)
    ensures DistinctServices(Candidates(rows, price, now))
  {
    ServicesMean(rows, "");
    var cs := Candidates(rows, price, now);
    forall i | 0 <= i < |cs| ensures cs[i].service == Services(rows)[i] {
      CandidateService(rows, price, now, Services(rows)[i]);
    }
  }

  lemma OwnRowsQueried(g: GraphState.Graph, chain: Chain, rows: seq<PathRow>, s: string)
    requires Queried(g, chain, rows)
    ensures Queried(g, chain, RowsOf(rows, s)) && OneService(RowsOf(rows, s))
  {
    hide OnEdge;
    forall r ensures r in RowsOf(rows, s) ==> r in rows && r.service == s { RowsOfMembers(rows, s, r); }
  }

  lemma OwnRowsRearranged(a: seq<PathRow>, b: seq<PathRow>, s: string)
    requires multiset(a) == multiset(b)
    ensures multiset(RowsOf(a, s)) == multiset(RowsOf(b, s))
    ensures s in Services(a) <==> s in Services(b)
  {
    forall r ensures multiset(RowsOf(a, s))[r] == multiset(RowsOf(b, s))[r] && (r in a <==> r in b) {
      RowsOfCount(a, s, r);
      RowsOfCount(b, s, r);
      SameElements(a, b, r);
    }
    ServicesMean(a, s);
    ServicesMean(b, s);
  }

  /** A service's measurements, path count included, are the same for rearranged rows. */
  lemma SameCandidate(g: GraphState.Graph, chain: Chain, a: seq<PathRow>, b: seq<PathRow>, price: Price, now: real, s: string)
    requires Queried(g, chain, a) && multiset(a) == multiset(b) && s in Services(a)
    ensures s in Services(b) && RowsOf(a, s) != [] && RowsOf(b, s) != []
    ensures FeaturesOf(RowsOf(a, s), price, now) == FeaturesOf(RowsOf(b, s), price, now)
  {
    hide *;
    OwnRowsRearranged(a, b, s);
    ServiceHasRows(a, s);
    ServiceHasRows(b, s);
    OwnRowsQueried(g, chain, a, s);
    FeaturesIgnoreOrder(g, chain, RowsOf(a, s), RowsOf(b, s), price, now);
  }

  lemma CandidatesSubset(g: GraphState.Graph, chain: Chain, a: seq<PathRow>, b: seq<PathRow>, price: Price, now: real, f: Features)
    requires Queried(g, chain, a) && multiset(a) == multiset(b)
    requires f in Candidates(a, price, now)
    ensures f in Candidates(b, price, now)
  {
    hide FeaturesOf, Queried;
    var i :| 0 <= i < |Services(a)| && Candidates(a, price, now)[i] == f;
    var s := Services(a)[i];
    SameCandidate(g, chain, a, b, price, now, s);
    var j :| 0 <= j < |Services(b)| && Services(b)[j] == s;
    assert Candidates(b, price, now)[j] == f;
  }

  lemma QueriedRearranged(g: GraphState.Graph, chain: Chain, a: seq<PathRow>, b: seq<PathRow>)
    requires multiset(a) == multiset(b) && Queried(g, chain, a)
    ensures Queried(g, chain, b)
  {
    hide OnEdge;
    forall r ensures r in a <==> r in b { SameElements(a, b, r); }
  }

  /** The whole analysis of rows read off the graph does not depend on the order in which the graph
      returns the paths. */
  lemma AnalysisIgnoresRowOrder(an: Analysis, g: GraphState.Graph, chain: Chain, a: seq<PathRow>, b: seq<PathRow>,
                                price: Price, now: real)
    requires Queried(g, chain, a) && multiset(a) == multiset(b)
    ensures Ranked(an, Candidates(a, price, now)) == Ranked(an, Candidates(b, price, now))
  {
    QueriedRearranged(g, chain, a, b);
    var p, q := Candidates(a, price, now), Candidates(b, price, now);
    hide Candidates, Queried, Ranked;
    forall f ensures f in p <==> f in q {
      if f in p { CandidatesSubset(g, chain, a, b, price, now, f); }
      if f in q { CandidatesSubset(g, chain, b, a, price, now, f); }
    }
    CandidatesAreDistinct(a, price, now);
    CandidatesAreDistinct(b, price, now);
    Rearranged(p, q);
    RankingIgnoresOrder(an, p, q);
  }

  /** Label confidences are fractions and no amount is negative. */
  ghost predicate Sound(rows: seq<PathRow>) {
    forall r :: r in rows ==>
      && Unit(r.labelConfidence)
      && (forall a :: a in r.arrivals ==> a.leg.attributed >= 0.0)
      && forall l :: l in r.transfers ==> l.attributed >= 0.0
  }

  lemma {:induction false} SumNonNegative(s: seq<real>)
    requires forall i :: 0 <= i < |s| ==> s[i] >= 0.0
    ensures Sum(s) >= 0.0
  {
    if s != [] {
      SumNonNegative(s[..|s| - 1]);
    }
  }

  /** Landing amounts come from the rows, so none is negative if none of theirs is. */
  lemma LandingNonNegative(rows: seq<PathRow>, a: Arrival)
    requires Sound(rows) && a in Landing(rows)
    ensures a.leg.attributed >= 0.0
  {
    AllArrivalsMeans(rows, a);
    LastLegsMeans(rows, a);
    if a in AllArrivals(rows) {
      var r :| r in rows && a in r.arrivals;
    } else {
      var r :| r in rows && a in LastLeg(r);
      assert a.leg in r.transfers;
    }
  }

  lemma FeaturesMeasured(rows: seq<PathRow>, price: Price, now: real)
    requires rows != []
    requires Sound(rows)
    ensures Unit(FeaturesOf(rows, price, now).labelConfidence) && FeaturesOf(rows, price, now).arrived.totalVolume >= 0.0
  {
    MaxOfMeans(Confidences(rows), 0.0);
    var s := InHopOrder(rows);
    InHopOrderFacts(rows);
    var t := Kept(rows);
    FirstPerKeyMeans(Landing(s));
    hide Landing, InHopOrder, FirstPerKey, MaxOf;
    forall i | 0 <= i < |t| ensures Volumes(t)[i] >= 0.0 {
      assert t[i] in t;
      LandingNonNegative(s, t[i]);
    }
    SumNonNegative(Volumes(t));
    var c := MaxOf(Confidences(rows), 0.0);
    assert Confidences(rows) != [];
    var j :| 0 <= j < |rows| && Confidences(rows)[j] == c;
    assert rows[j] in rows;
  }

  lemma OwnRowsSound(rows: seq<PathRow>, s: string)
    requires Sound(rows)
    ensures Sound(RowsOf(rows, s))
  {
    forall r | r in RowsOf(rows, s) ensures r in rows { RowsOfMembers(rows, s, r); }
  }

  lemma CandidateMeasured(rows: seq<PathRow>, price: Price, now: real, i: nat)
    requires Sound(rows) && i < |Candidates(rows, price, now)|
    ensures Measured(Candidates(rows, price, now)[i], MaxVolume(Candidates(rows, price, now)))
  {
    var cs, s := Candidates(rows, price, now), Services(rows)[i];
    CandidateAt(rows, price, now, i);
    OwnRowsSound(rows, s);
    hide Candidates, FeaturesOf, Sound, RowsOf, Services;
    FeaturesMeasured(RowsOf(rows, s), price, now);
    var volumes := Map(cs, (f: Features) => f.arrived.totalVolume);
    MaxOfMeans(volumes, 0.0);
    hide MaxOf;
    var v := volumes[i];
    assert v in volumes;
  }

  /** Every candidate that extraction produces from sound rows scores between 0 and 1. */
  lemma EveryScoreInUnit(an: Analysis, rows: seq<PathRow>, price: Price, now: real, x: Scored)
    requires Analytic(an) && Sound(rows) && x in Ranked(an, Candidates(rows, price, now))
    ensures Unit(x.score)
  {
    hide Candidates, Sound, Ranked, ScoreOne, MaxVolume, Analytic, Measured;
    var cs := Candidates(rows, price, now);
    RankedIsScored(an, cs, x);
    var i :| 0 <= i < |cs| && cs[i] == x.features;
    CandidateMeasured(rows, price, now, i);
    ScoreInUnit(an, x.features, MaxVolume(cs));
  }
}
