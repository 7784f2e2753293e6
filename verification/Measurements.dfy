/** What the measurements of Exposure mean, stated without sorting, folding or deduplicating. */
module Measurements {
  import opened Options
  import opened Orders
  import opened Text
  import opened Exposure

  // ---------------------------------------------------------------------------
  // The median
  // ---------------------------------------------------------------------------

  function Below(x: real): real -> seq<real> { (y: real) => if y < x then [y] else [] }

  function Above(x: real): real -> seq<real> { (y: real) => if y > x then [y] else [] }

  /** How many values are smaller, or larger, than `x`. */
  function CountBelow(s: seq<real>, x: real): nat { |Pool(s, Below(x))| }

  function CountAbove(s: seq<real>, x: real): nat { |Pool(s, Above(x))| }

  lemma {:induction false} FewBelow(t: seq<real>, x: real, k: nat)
    requires forall i :: k <= i < |t| ==> t[i] >= x
    ensures CountBelow(t, x) <= k
  {
    if t != [] {
      var init := t[..|t| - 1];
      if |t| <= k { FewBelow(init, x, k - 1); } else { FewBelow(init, x, k); }
    }
  }

  lemma {:induction false} FewAbove(t: seq<real>, x: real, k: nat)
    requires k <= |t| && forall i :: 0 <= i < k ==> t[i] <= x
    ensures CountAbove(t, x) <= |t| - k
  {
    if |t| > k { FewAbove(t[..|t| - 1], x, k); }
    else if t != [] { FewAbove(t[..|t| - 1], x, k - 1); }
  }

  /** Half of the values lie on either side of `x`, place `k` of a sorted list. */
  lemma PlaceInOrder(s: seq<real>, k: nat)
    requires k < |s|
    ensures var x := InOrder(s)[k];
            x in s && CountBelow(s, x) <= k && CountAbove(s, x) <= |s| - k - 1
  {
    var t, x := InOrder(s), InOrder(s)[k];
    OrderedTimes(s);
    FewBelow(t, x, k);
    FewAbove(t, x, k + 1);
    assert x in t;
    SameElements(s, t, x);
    SameCounts(s, t, x);
  }

  lemma OrderedTimes(s: seq<real>)
    ensures multiset(InOrder(s)) == multiset(s)
    ensures forall i, j :: 0 <= i <= j < |s| ==> InOrder(s)[i] <= InOrder(s)[j]
  {
    NoLaterThanIsTotal();
    SortFacts(s, NoLaterThan());
    var t := InOrder(s);
    forall i, j | 0 <= i <= j < |t| ensures t[i] <= t[j] {
      if i < j { assert NoLaterThan()(t[i], t[j]); }
    }
  }

  lemma SameCounts(s: seq<real>, t: seq<real>, x: real)
    requires multiset(s) == multiset(t)
    ensures CountBelow(s, x) == CountBelow(t, x) && CountAbove(s, x) == CountAbove(t, x)
  {
    PoolKeepsArrangement(s, t, Below(x));
    SameLength(Pool(s, Below(x)), Pool(t, Below(x)));
    PoolKeepsArrangement(s, t, Above(x));
    SameLength(Pool(s, Above(x)), Pool(t, Above(x)));
  }

  /** `x` stands at place `k` of the values: at most `k` are smaller, and at most the rest larger. */
  ghost predicate Stands(s: seq<real>, x: real, k: nat) {
    k < |s| && x in s && CountBelow(s, x) <= k && CountAbove(s, x) <= |s| - k - 1
  }

  /** `m` is the mean of the values at two places. */
  ghost predicate MeanOf(s: seq<real>, i: nat, j: nat, m: real) {
    exists x, y :: Stands(s, x, i) && Stands(s, y, j) && m == (x + y) / 2.0
  }

  /** The median of an odd number of values is the one in the middle; of an even number the mean of the
      two in the middle; of none there is none. */
  lemma MedianMeans(s: seq<real>)
    ensures Median(s).None? <==> s == []
    ensures |s| % 2 == 1 ==> Stands(s, Median(s).value, |s| / 2)
    ensures s != [] && |s| % 2 == 0 ==> MeanOf(s, |s| / 2 - 1, |s| / 2, Median(s).value)
  {
    MedianIs(s);
    hide *;
    if |s| % 2 == 1 {
      StandsAt(s, |s| / 2);
    } else if s != [] {
      MeanAt(s, |s| / 2 - 1, |s| / 2);
    }
  }

  lemma MeanAt(s: seq<real>, i: nat, j: nat)
    requires i < |s| && j < |s|
    ensures MeanOf(s, i, j, (InOrder(s)[i] + InOrder(s)[j]) / 2.0)
  {
    hide Stands, InOrder;
    StandsAt(s, i);
    StandsAt(s, j);
  }

  lemma MedianIs(s: seq<real>)
    ensures s == [] ==> Median(s) == None
    ensures |s| % 2 == 1 ==> Median(s) == Some(InOrder(s)[|s| / 2])
    ensures s != [] && |s| % 2 == 0 ==> Median(s) == Some((InOrder(s)[|s| / 2 - 1] + InOrder(s)[|s| / 2]) / 2.0)
  {
    hide InOrder;
  }

  lemma StandsAt(s: seq<real>, k: nat)
    requires k < |s|
    ensures Stands(s, InOrder(s)[k], k)
  {
    hide InOrder;
    PlaceInOrder(s, k);
  }

  // ---------------------------------------------------------------------------
  // Times
  // ---------------------------------------------------------------------------

  /** First and last seen are the smallest and the largest time of arrival. */
  lemma SeenMeans(s: seq<Arrival>)
    ensures Seen(s).None? <==> forall a :: a in s ==> a.leg.at.None?
    ensures Seen(s).Some? ==>
              && (forall a :: a in s && a.leg.at.Some? ==> Seen(s).value.first <= a.leg.at.value <= Seen(s).value.last)
              && (exists a :: a in s && a.leg.at == Some(Seen(s).value.first))
              && (exists a :: a in s && a.leg.at == Some(Seen(s).value.last))
  {
    var times := ArrivalTimes(s);
    var t := InOrder(times);
    OrderedTimes(times);
    hide InOrder;
    forall x ensures x in t <==> exists a :: a in s && a.leg.at == Some(x) {
      TimesMean(s, x);
      SameElements(times, t, x);
    }
    if t != [] {
      assert t[0] in t && t[|t| - 1] in t;
      forall a | a in s && a.leg.at.Some? ensures t[0] <= a.leg.at.value <= t[|t| - 1] {
        var x := a.leg.at.value;
        assert x in t;
        var i :| 0 <= i < |t| && t[i] == x;
      }
    }
    if a :| a in s && a.leg.at.Some? { assert a.leg.at.value in t; }
  }

  lemma {:induction false} TimesMean(s: seq<Arrival>, x: real)
    ensures x in ArrivalTimes(s) <==> exists a :: a in s && a.leg.at == Some(x)
  {
    if s != [] {
      var init, last := s[..|s| - 1], s[|s| - 1];
      TimesMean(init, x);
      assert ArrivalTimes(s) == ArrivalTimes(init) + Stamp(last.leg);
      assert forall a :: a in s <==> a in init || a == last;
    }
  }

  /** Between consecutive stamps, how long it took, whichever came first. */
  lemma {:induction false} GapsMean(stamps: seq<real>)
    ensures |Gaps(stamps)| == if stamps == [] then 0 else |stamps| - 1
    ensures forall i :: 0 <= i < |Gaps(stamps)| ==>
              Gaps(stamps)[i] == if stamps[i + 1] >= stamps[i] then stamps[i + 1] - stamps[i] else stamps[i] - stamps[i + 1]
  {
    if |stamps| >= 2 { GapsMean(stamps[..|stamps| - 1]); }
  }

  // ---------------------------------------------------------------------------
  // What landed, and what is kept of it
  // ---------------------------------------------------------------------------

  ghost predicate LastStep(r: PathRow, a: Arrival) {
    && r.transfers != [] && |r.path| >= 2
    && a == Arrival(r.path[|r.path| - 2], r.path[|r.path| - 1], r.transfers[|r.transfers| - 1])
  }

  /** If any row has arrivals, exactly the arrivals landed; otherwise exactly the last step of each path. */
  lemma LandingMeans(rows: seq<PathRow>, a: Arrival)
    ensures (exists r :: r in rows && r.arrivals != []) ==>
              (a in Landing(rows) <==> exists r :: r in rows && a in r.arrivals)
    ensures (forall r :: r in rows ==> r.arrivals == []) ==>
              (a in Landing(rows) <==> exists r :: r in rows && LastStep(r, a))
  {
    AllArrivalsMeans(rows, a);
    LastLegsMeans(rows, a);
    if r :| r in rows && r.arrivals != [] {
      AllArrivalsMeans(rows, r.arrivals[0]);
      assert AllArrivals(rows) != [];
    } else if AllArrivals(rows) != [] {
      AllArrivalsMeans(rows, AllArrivals(rows)[0]);
    }
    assert forall r :: a in LastLeg(r) <==> LastStep(r, a);
  }

  /** One transfer for each transaction, sender and receiver that landed, and none twice. */
  lemma KeptMeans(rows: seq<PathRow>)
    requires rows != []
    ensures forall a :: a in Kept(rows) ==> a in Landing(InHopOrder(rows))
    ensures forall a :: a in Landing(InHopOrder(rows)) ==>
              exists b :: b in Kept(rows) && b.leg.txid == a.leg.txid && b.from == a.from && b.to == a.to
    ensures forall i, j :: 0 <= i < j < |Kept(rows)| ==>
              || Kept(rows)[i].leg.txid != Kept(rows)[j].leg.txid
              || Kept(rows)[i].from != Kept(rows)[j].from || Kept(rows)[i].to != Kept(rows)[j].to
  {
    var s := Landing(InHopOrder(rows));
    FirstPerKeyMeans(s);
    hide FirstPerKey, Landing, InHopOrder;
    forall a | a in s
      ensures exists b :: b in Kept(rows) && b.leg.txid == a.leg.txid && b.from == a.from && b.to == a.to
    {
      var b :| b in FirstPerKey(s) && KeyOf(b) == KeyOf(a);
    }
  }

  // ---------------------------------------------------------------------------
  // The features of a service
  // ---------------------------------------------------------------------------

  /** The asset shown is the alphabetically first that arrived. */
  lemma FirstAssetMeans(s: seq<Arrival>)
    ensures s == [] ==> FirstAsset(s) == ""
    ensures s != [] ==>
              && (exists a :: a in s && a.leg.asset == FirstAsset(s))
              && forall a :: a in s ==> AtMost(FirstAsset(s), a.leg.asset)
  {
    AlphabeticalIsTotal();
    SortFacts(Assets(s), Alphabetical());
    var names := Sort(Assets(s), Alphabetical());
    hide AtMost, Sort;
    if s != [] {
      assert names[0] in names;
      SameElements(names, Assets(s), names[0]);
      forall a | a in s ensures AtMost(names[0], a.leg.asset) {
        var i :| 0 <= i < |s| && s[i] == a;
        assert Assets(s)[i] in Assets(s);
        SameElements(names, Assets(s), a.leg.asset);
        var j :| 0 <= j < |names| && names[j] == a.leg.asset;
        assert j == 0 || Alphabetical()(names[0], names[j]);
        AtMostTotal(a.leg.asset, a.leg.asset);
      }
    }
  }

  /** A service stands as near as its nearest row, its label is as good as its best one, its money runs
      forward if it does on every path, and its age is that of the last arrival. */
  lemma FeaturesMean(rows: seq<PathRow>, price: Price, now: real)
    requires rows != []
    ensures var f := FeaturesOf(rows, price, now);
            && (forall r :: r in rows ==> f.hop <= r.hop && r.labelConfidence <= f.labelConfidence)
            && (exists r :: r in rows && f.hop == r.hop && f.service == r.service)
            && (exists r :: r in rows && f.labelConfidence == r.labelConfidence)
            && f.pathCount == |rows|
            && (f.continuityOk <==> forall r, i {:trigger Times(r.transfers)[i]} ::
                  r in rows && 0 < i < |Times(r.transfers)| ==> Times(r.transfers)[i - 1] <= Times(r.transfers)[i])
            && (forall s :: s in f.labelSources <==> s != "" && exists r :: r in rows && r.labelSource == Some(s))
            && (f.sinceLast.None? <==> f.arrived.seen.None?)
            && (f.sinceLast.Some? ==> f.sinceLast.value + f.arrived.seen.value.last == now)
  {
    InHopOrderFacts(rows);
    MaxOfMeans(Confidences(rows), 0.0);
    hide InHopOrder, MaxOf, MeasuresOf, Kept, Median, Times;
    var m := MaxOf(Confidences(rows), 0.0);
    assert Confidences(rows) != [] by { assert |Confidences(rows)| == |rows|; }
    var i :| 0 <= i < |rows| && Confidences(rows)[i] == m;
    assert rows[i] in rows && rows[i].labelConfidence == m;
    forall r | r in rows ensures r.labelConfidence <= m {
      var j :| 0 <= j < |rows| && rows[j] == r;
      assert Confidences(rows)[j] in Confidences(rows);
    }
    forall s
      ensures s in Sources(rows) <==> s != "" && exists r :: r in rows && r.labelSource == Some(s)
    {}
  }

  /** The median delay is that of all delays of all paths, and missing exactly if no path has two stamps. */
  lemma DelayIsPooled(rows: seq<PathRow>, price: Price, now: real)
    requires rows != []
    ensures FeaturesOf(rows, price, now).medianDelay == Median(Pool(rows, Delays))
    ensures FeaturesOf(rows, price, now).medianDelay.None? <==> forall r :: r in rows ==> |Times(r.transfers)| < 2
  {
    NoDelays(rows);
    DelayOf(rows, price, now);
    MedianMeans(Pool(rows, Delays));
    hide *;
    SameMedian(Pool(InHopOrder(rows), Delays), Pool(rows, Delays)) by {
      PoolKeepsArrangement(InHopOrder(rows), rows, Delays);
    }
  }

  lemma DelayOf(rows: seq<PathRow>, price: Price, now: real)
    requires rows != []
    ensures FeaturesOf(rows, price, now).medianDelay == Median(Pool(InHopOrder(rows), Delays))
  {
    hide InHopOrder, Kept, MeasuresOf, Pool, Median, Confidences, Sources, RunsForward, MaxOf;
  }

  lemma SameMedian(s: seq<real>, t: seq<real>)
    requires multiset(s) == multiset(t)
    ensures Median(s) == Median(t)
  {
    SameOrder(s, t);
  }

  lemma {:induction false} NoDelays(rows: seq<PathRow>)
    ensures Pool(rows, Delays) == [] <==> forall r :: r in rows ==> |Times(r.transfers)| < 2
  {
    if rows != [] {
      var init, last := rows[..|rows| - 1], rows[|rows| - 1];
      NoDelays(init);
      GapsMean(Times(last.transfers));
      assert Pool(rows, Delays) == Pool(init, Delays) + Delays(last);
      assert forall r :: r in rows <==> r in init || r == last;
    }
  }

  /** Volumes, counts and the valuation of the kept transfers. */
  lemma MeasuresMean(t: seq<Arrival>, price: Price)
    ensures var m := MeasuresOf(t, price);
            && (forall a :: a in t ==> a.leg.attributed <= m.maxTransfer)
            && (if t == [] then m.maxTransfer == 0.0 else exists a :: a in t && a.leg.attributed == m.maxTransfer)
            && m.transferCount == |t|
            && (m.mixedAssets <==> exists a, b :: a in t && b in t && a.leg.asset != b.leg.asset
                                                 && a.leg.asset != "" && b.leg.asset != "")
            && (m.inr.Some? <==> t != [] && forall a :: a in t ==> price(a).Some?)
  {
    MaxOfMeans(Volumes(t), 0.0);
    MixedMeans(t);
    hide MaxOf, Sum, Seen, FirstAsset, NamedAssets;
    if t != [] {
      var i :| 0 <= i < |t| && Volumes(t)[i] == MaxOf(Volumes(t), 0.0);
      assert t[i] in t;
    }
    forall a | a in t ensures a.leg.attributed <= MaxOf(Volumes(t), 0.0) {
      var j :| 0 <= j < |t| && t[j] == a;
      assert Volumes(t)[j] in Volumes(t);
    }
  }

  lemma MixedMeans(t: seq<Arrival>)
    ensures |NamedAssets(t)| > 1 <==>
              exists a, b :: a in t && b in t && a.leg.asset != b.leg.asset && a.leg.asset != "" && b.leg.asset != ""
  {
    var names := NamedAssets(t);
    if |names| > 1 {
      var x :| x in names;
      assert |names - {x}| == |names| - 1;
      var y :| y in names - {x};
      var a :| a in t && a.leg.asset == x;
      var b :| b in t && b.leg.asset == y;
    }
    if a, b :| a in t && b in t && a.leg.asset != b.leg.asset && a.leg.asset != "" && b.leg.asset != "" {
      assert {a.leg.asset, b.leg.asset} <= names;
      SubsetSize({a.leg.asset, b.leg.asset}, names);
    }
  }

  lemma {:induction false} SubsetSize<T>(a: set<T>, b: set<T>)
    requires a <= b
    ensures |a| <= |b|
  {
    if a != {} {
      var x :| x in a;
      SubsetSize(a - {x}, b - {x});
    }
  }

  /** Nothing measures nothing, and one more transfer adds its amount, its value and, if its sender is
      new, a counterparty. */
  lemma MeasuresAdd(t: seq<Arrival>, a: Arrival, price: Price)
    ensures MeasuresOf([], price).totalVolume == 0.0 && MeasuresOf([], price).counterparties == 0
    ensures var m, n := MeasuresOf(t, price), MeasuresOf(t + [a], price);
            && n.totalVolume == m.totalVolume + a.leg.attributed
            && n.counterparties == m.counterparties + (if exists b :: b in t && b.from == a.from then 0 else 1)
            && (t == [] && price(a).Some? ==> n.inr == Some(Valuation(price(a).value.inr, price(a).value.inr, {price(a).value.source})))
            && (m.inr.Some? && price(a).Some? ==>
                  && n.inr.Some? && n.inr.value.total == m.inr.value.total + price(a).value.inr
                  && n.inr.value.sources == m.inr.value.sources + {price(a).value.source})
  {
    CounterpartiesAdd(t, a);
    SumsAdd(t, a, price);
    if price(a).Some? { ValuedAdd(t, a, price); }
    assert Counterparties([]) == {};
    hide Seen, FirstAsset, NamedAssets, Valued, MaxOf, Sum, Counterparties;
  }

  lemma SumsAdd(t: seq<Arrival>, a: Arrival, price: Price)
    ensures Sum(Volumes([])) == 0.0
    ensures Sum(Volumes(t + [a])) == Sum(Volumes(t)) + a.leg.attributed
    ensures Sum(PricedVolumes(t + [a], price)) == Sum(PricedVolumes(t, price)) + Inr(price, a)
  {
    assert Volumes(t + [a])[..|t|] == Volumes(t);
    assert PricedVolumes(t + [a], price)[..|t|] == PricedVolumes(t, price);
  }

  lemma CounterpartiesAdd(t: seq<Arrival>, a: Arrival)
    ensures |Counterparties(t + [a])| == |Counterparties(t)| + (if exists b :: b in t && b.from == a.from then 0 else 1)
  {
    var before, after := Counterparties(t), Counterparties(t + [a]);
    assert forall b :: b in t + [a] <==> b in t || b == a;
    assert after == before + {a.from};
    assert a.from in before <==> exists b :: b in t && b.from == a.from;
    hide Counterparties;
    if a.from in before { assert after == before; }
  }

  lemma ValuedAdd(t: seq<Arrival>, a: Arrival, price: Price)
    requires price(a).Some?
    ensures t == [] ==> Valued(t + [a], price) == Some(Valuation(price(a).value.inr, price(a).value.inr, {price(a).value.source}))
    ensures Valued(t, price).Some? ==>
              && Valued(t + [a], price).Some?
              && Valued(t + [a], price).value.total == Valued(t, price).value.total + price(a).value.inr
              && Valued(t + [a], price).value.sources == Valued(t, price).value.sources + {price(a).value.source}
  {
    if t == [] {
      assert t + [a] == [a];
      ValuedOne(a, price);
    }
    SumsAdd(t, a, price);
    assert forall b :: b in t + [a] <==> b in t || b == a;
    hide MaxOf, Sum;
    if Valued(t, price).Some? {
      assert QuoteSources(t + [a], price) == QuoteSources(t, price) + {price(a).value.source};
    }
  }

  lemma ValuedOne(a: Arrival, price: Price)
    requires price(a).Some?
    ensures Valued([a], price) == Some(Valuation(price(a).value.inr, price(a).value.inr, {price(a).value.source}))
  {
    var one := PricedVolumes([a], price);
    assert one == [price(a).value.inr];
    SumOne(price(a).value.inr);
    MaxOfMeans(one, 0.0);
    hide MaxOf, Sum;
    assert QuoteSources([a], price) == {price(a).value.source};
  }
}
