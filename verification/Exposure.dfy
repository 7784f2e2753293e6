/** What reached a service: the transfers that land on it, each counted once, and the measurements
    taken over them. */
module Exposure {
  import opened Options
  import opened Orders
  import opened Text
  import opened Chains
  import GraphState

  /** One step of a path. A missing amount counts as zero; a missing or unreadable time as none. */
  datatype Leg = Leg(txid: string, attributed: real, asset: string, at: Option<real>)

  /** A transfer onto a service address. */
  datatype Arrival = Arrival(from: string, to: string, leg: Leg)

  datatype PathRow = PathRow(
    service: string,
    serviceType: string,
    hop: int,
    path: seq<string>,
    transfers: seq<Leg>,
    arrivals: seq<Arrival>,
    labelSource: Option<string>,
    labelConfidence: real)

  datatype Key = Key(txid: string, from: string, to: string)

  function KeyOf(a: Arrival): Key { Key(a.leg.txid, a.from, a.to) }

  // ---------------------------------------------------------------------------
  // The transfers that land
  // ---------------------------------------------------------------------------

  function AllArrivals(rows: seq<PathRow>): seq<Arrival> {
    if rows == [] then [] else AllArrivals(rows[..|rows| - 1]) + rows[|rows| - 1].arrivals
  }

  /** The final step of a path, for rows without arrivals. */
  function LastLeg(row: PathRow): seq<Arrival> {
    if row.transfers == [] || |row.path| < 2 then []
    else [Arrival(row.path[|row.path| - 2], row.path[|row.path| - 1], row.transfers[|row.transfers| - 1])]
  }

  function LastLegs(rows: seq<PathRow>): seq<Arrival> {
    if rows == [] then [] else LastLegs(rows[..|rows| - 1]) + LastLeg(rows[|rows| - 1])
  }

  function Landing(rows: seq<PathRow>): seq<Arrival> {
    if AllArrivals(rows) != [] then AllArrivals(rows) else LastLegs(rows)
  }

  predicate HasKey(s: seq<Arrival>, k: Key) {
    exists a :: a in s && KeyOf(a) == k
  }

  /** `setdefault` into a dictionary kept in insertion order. */
  function SetDefault(s: seq<Arrival>, a: Arrival): seq<Arrival> {
    if HasKey(s, KeyOf(a)) then s else s + [a]
  }

  function FirstPerKey(s: seq<Arrival>): seq<Arrival> {
    if s == [] then [] else SetDefault(FirstPerKey(s[..|s| - 1]), s[|s| - 1])
  }

  lemma FirstPerKeyLast(s: seq<Arrival>, a: Arrival)
    ensures FirstPerKey(s + [a]) == SetDefault(FirstPerKey(s), a)
  {
    assert (s + [a])[..|s|] == s;
  }

  /** What `_terminal_transfers` keeps: one transfer for every key that lands, the first of its key. */
  lemma {:induction false} FirstPerKeyMeans(s: seq<Arrival>)
    ensures forall a :: a in FirstPerKey(s) ==> a in s
    ensures forall a :: a in s ==> HasKey(FirstPerKey(s), KeyOf(a))
    ensures forall i, j :: 0 <= i < j < |FirstPerKey(s)| ==> KeyOf(FirstPerKey(s)[i]) != KeyOf(FirstPerKey(s)[j])
  {
    if s != [] {
      var init, last := s[..|s| - 1], s[|s| - 1];
      FirstPerKeyMeans(init);
      var before, after := FirstPerKey(init), FirstPerKey(s);
      assert after == SetDefault(before, last);
      assert forall a :: a in s ==> a in init || a == last;
      forall a | a in s ensures HasKey(after, KeyOf(a)) {
        if a in init {
          var b :| b in before && KeyOf(b) == KeyOf(a);
          assert b in after;
        } else if !HasKey(before, KeyOf(last)) {
          assert after[|before|] == last;
        }
      }
    }
  }

  /** `_terminal_transfers` */
  method TerminalTransfers(rows: seq<PathRow>) returns (terminal: seq<Arrival>)
    ensures terminal == FirstPerKey(Landing(rows))
  {
    terminal := [];
    for i := 0 to |rows|
      invariant terminal == FirstPerKey(AllArrivals(rows[..i]))
    {
      assert rows[..i + 1][..i] == rows[..i];
      terminal := AddArrivals(AllArrivals(rows[..i]), terminal, rows[i].arrivals);
    }
    assert rows[..|rows|] == rows;
    NoneKept(AllArrivals(rows));
    if terminal == [] {
      terminal := LastLegFallback(rows);
    }
  }

  /** The inner loop: one row's arrivals. */
  method AddArrivals(ghost before: seq<Arrival>, terminal: seq<Arrival>, arrivals: seq<Arrival>) returns (t: seq<Arrival>)
    requires terminal == FirstPerKey(before)
    ensures t == FirstPerKey(before + arrivals)
  {
    t := terminal;
    assert before + arrivals[..0] == before;
    for j := 0 to |arrivals|
      invariant t == FirstPerKey(before + arrivals[..j])
    {
      FirstPerKeyLast(before + arrivals[..j], arrivals[j]);
      hide FirstPerKey, HasKey, KeyOf;
      assert before + arrivals[..j + 1] == before + arrivals[..j] + [arrivals[j]];
      if !HasKey(t, KeyOf(arrivals[j])) {
        t := t + [arrivals[j]];
      }
    }
    assert arrivals[..|arrivals|] == arrivals;
  }

  /** The second loop: the final step of each path. */
  method LastLegFallback(rows: seq<PathRow>) returns (terminal: seq<Arrival>)
    ensures terminal == FirstPerKey(LastLegs(rows))
  {
    terminal := [];
    for i := 0 to |rows|
      invariant terminal == FirstPerKey(LastLegs(rows[..i]))
    {
      var row := rows[i];
      assert rows[..i + 1][..i] == rows[..i];
      hide FirstPerKey, HasKey, KeyOf;
      if row.transfers == [] || |row.path| < 2 {
        assert LastLegs(rows[..i + 1]) == LastLegs(rows[..i]);
      } else {
        var last := row.transfers[|row.transfers| - 1];
        var a := Arrival(row.path[|row.path| - 2], row.path[|row.path| - 1], last);
        assert LastLegs(rows[..i + 1]) == LastLegs(rows[..i]) + [a];
        FirstPerKeyLast(LastLegs(rows[..i]), a);
        if !HasKey(terminal, KeyOf(a)) {
          terminal := terminal + [a];
        }
      }
    }
    assert rows[..|rows|] == rows;
  }

  lemma NoneKept(s: seq<Arrival>)
    ensures FirstPerKey(s) == [] <==> s == []
  {
    FirstPerKeyMeans(s);
    if s != [] {
      assert s[0] in s;
    }
  }

  // ---------------------------------------------------------------------------
  // Measurements
  // ---------------------------------------------------------------------------

  function MaxOf(s: seq<real>, default_: real): real {
    if s == [] then default_
    else
      var m := MaxOf(s[..|s| - 1], s[|s| - 1]);
      if s[|s| - 1] > m then s[|s| - 1] else m
  }

  lemma {:induction false} MaxOfMeans(s: seq<real>, default_: real)
    ensures s == [] ==> MaxOf(s, default_) == default_
    ensures s != [] ==> MaxOf(s, default_) in s
    ensures forall x :: x in s ==> x <= MaxOf(s, default_)
  {
    if s != [] {
      var init, last := s[..|s| - 1], s[|s| - 1];
      var before, m := MaxOf(init, last), MaxOf(s, default_);
      assert m == if last > before then last else before;
      MaxOfMeans(init, last);
      hide MaxOf;
      LastOrBefore(s, m);
      forall x | x in s ensures x <= m { LastOrBefore(s, x); }
    }
  }

  lemma MaxOfSet(a: seq<real>, b: seq<real>, default_: real)
    requires SameMembers(a, b)
    ensures MaxOf(a, default_) == MaxOf(b, default_)
  {
    MaxOfMeans(a, default_);
    MaxOfMeans(b, default_);
    var x, y := MaxOf(a, default_), MaxOf(b, default_);
    if a != [] { assert x in b; }
    if b != [] { assert y in a; }
  }

  /** What a price feed answers: rupees at the time of the transfer, and where the rate came from. */
  datatype Quote = Quote(inr: real, source: string)

  /** `None` where there is no quote. */
  type Price = Arrival -> Option<Quote>

  predicate AllPriced(s: seq<Arrival>, price: Price) {
    s != [] && forall a :: a in s ==> price(a).Some?
  }

  function Inr(price: Price, a: Arrival): real {
    if price(a).Some? then price(a).value.inr else 0.0
  }

  function Volumes(s: seq<Arrival>): seq<real> { Map(s, (a: Arrival) => a.leg.attributed) }

  function PricedVolumes(s: seq<Arrival>, price: Price): seq<real> { Map(s, (a: Arrival) => Inr(price, a)) }

  function QuoteSources(s: seq<Arrival>, price: Price): set<string> {
    set a | a in s && price(a).Some? :: price(a).value.source
  }

  datatype Valuation = Valuation(total: real, largest: real, sources: set<string>)

  /** A partial valuation would understate the exposure, so it is all or nothing. */
  function Valued(s: seq<Arrival>, price: Price): Option<Valuation> {
    if AllPriced(s, price) then
      Some(Valuation(Sum(PricedVolumes(s, price)), MaxOf(PricedVolumes(s, price), 0.0),
                     QuoteSources(s, price)))
    else None
  }

  function Stamp(l: Leg): seq<real> { match l.at case None => [] case Some(t) => [t] }

  function Times(legs: seq<Leg>): seq<real> { Pool(legs, Stamp) }

  function ArrivalTimes(s: seq<Arrival>): seq<real> { Pool(s, (a: Arrival) => Stamp(a.leg)) }

  function NoLaterThan(): (real, real) -> bool { (x: real, y: real) => x <= y }

  function InOrder(s: seq<real>): (t: seq<real>)
    ensures |t| == |s|
  {
    NoLaterThanIsTotal();
    SortFacts(s, NoLaterThan());
    Sort(s, NoLaterThan())
  }

  lemma NoLaterThanIsTotal()
    ensures TotalOrder(NoLaterThan())
  {}

  datatype Span = Span(first: real, last: real)

  function Seen(s: seq<Arrival>): Option<Span> {
    var times := InOrder(ArrivalTimes(s));
    if times == [] then None else Some(Span(times[0], times[|times| - 1]))
  }

  /** `statistics.median` */
  function Median(s: seq<real>): Option<real> {
    var t := InOrder(s);
    var n := |t|;
    if n == 0 then None
    else if n % 2 == 1 then Some(t[n / 2])
    else Some((t[n / 2 - 1] + t[n / 2]) / 2.0)
  }

  function Gap(earlier: real, later: real): real { if later >= earlier then later - earlier else earlier - later }

  /** The delays between consecutive stamps. */
  function Gaps(stamps: seq<real>): seq<real> {
    if |stamps| < 2 then []
    else Gaps(stamps[..|stamps| - 1]) + [Gap(stamps[|stamps| - 2], stamps[|stamps| - 1])]
  }

  function Delays(row: PathRow): seq<real> { Gaps(Times(row.transfers)) }

  predicate Forward(stamps: seq<real>) {
    forall i {:trigger stamps[i]} :: 0 < i < |stamps| ==> stamps[i - 1] <= stamps[i]
  }

  predicate RunsForward(row: PathRow) { Forward(Times(row.transfers)) }

  function Alphabetical(): (string, string) -> bool { (x: string, y: string) => AtMost(x, y) }

  function Assets(s: seq<Arrival>): seq<string> { Map(s, (a: Arrival) => a.leg.asset) }

  /** The alphabetically first asset that arrived. */
  function FirstAsset(s: seq<Arrival>): string {
    var names := Sort(Assets(s), Alphabetical());
    if names == [] then "" else names[0]
  }

  function NamedAssets(s: seq<Arrival>): set<string> { set a | a in s && a.leg.asset != "" :: a.leg.asset }

  function Counterparties(s: seq<Arrival>): set<string> { set a | a in s :: a.from }

  /** What is measured on the transfers that landed. */
  datatype Measures = Measures(
    totalVolume: real,
    maxTransfer: real,
    transferCount: nat,
    counterparties: nat,
    seen: Option<Span>,
    asset: string,
    mixedAssets: bool,
    inr: Option<Valuation>)

  function MeasuresOf(t: seq<Arrival>, price: Price): Measures {
    Measures(Sum(Volumes(t)), MaxOf(Volumes(t), 0.0), |t|, |Counterparties(t)|, Seen(t), FirstAsset(t),
             |NamedAssets(t)| > 1, Valued(t, price))
  }

  datatype Features = Features(
    service: string,
    hop: int,
    pathCount: nat,
    arrived: Measures,
    sinceLast: Option<real>,
    medianDelay: Option<real>,
    continuityOk: bool,
    labelConfidence: real,
    labelSources: set<string>)

  /** The features, and what is copied from the first row for display. */
  datatype Extracted = Extracted(features: Features, serviceType: string, shortestPath: seq<string>)

  function ByHop(): (PathRow, PathRow) -> bool {
    (a: PathRow, b: PathRow) => a.hop <= b.hop
  }

  function SinceLast(seen: Option<Span>, now: real): Option<real> {
    match seen case None => None case Some(s) => Some(now - s.last)
  }

  function Confidences(rows: seq<PathRow>): seq<real> { Map(rows, (r: PathRow) => r.labelConfidence) }

  function Sources(rows: seq<PathRow>): set<string> {
    set r | r in rows && r.labelSource.Some? && r.labelSource.value != "" :: r.labelSource.value
  }

  /** The rows as `extract_path_features` looks at them. */
  function InHopOrder(rows: seq<PathRow>): (s: seq<PathRow>)
    ensures multiset(s) == multiset(rows) && (rows != [] ==> s != [])
  {
    ByHopIsTotal();
    SortFacts(rows, ByHop());
    Sort(rows, ByHop())
  }

  lemma ByHopIsTotal()
    ensures TotalOrder(ByHop())
  {}

  /** What is kept of the transfers behind some rows. */
  function Kept(rows: seq<PathRow>): seq<Arrival> { FirstPerKey(Landing(InHopOrder(rows))) }

  function FeaturesOf(rows: seq<PathRow>, price: Price, now: real): Features
    requires rows != []
  {
    var first := InHopOrder(rows)[0];
    var m := MeasuresOf(Kept(rows), price);
    Features(first.service, first.hop, |rows|, m, SinceLast(m.seen, now), Median(Pool(InHopOrder(rows), Delays)),
             forall r :: r in rows ==> RunsForward(r), MaxOf(Confidences(rows), 0.0), Sources(rows))
  }

  /** The pricing loop: it gives up at the first transfer without a quote. */
  method PriceAll(arrivals: seq<Arrival>, price: Price) returns (v: Option<Valuation>)
    ensures v == Valued(arrivals, price)
  {
    var values: seq<real>, sources: set<string> := [], {};
    ghost var all := PricedVolumes(arrivals, price);
    if arrivals == [] {
      return None;
    }
    for i := 0 to |arrivals|
      invariant values == all[..i]
      invariant sources == QuoteSources(arrivals[..i], price)
      invariant forall a :: a in arrivals[..i] ==> price(a).Some?
    {
      assert arrivals[..i + 1] == arrivals[..i] + [arrivals[i]];
      var quote := price(arrivals[i]);
      if quote.None? {
        assert arrivals[i] in arrivals;
        return None;
      }
      values := values + [quote.value.inr];
      sources := sources + {quote.value.source};
    }
    assert all[..|arrivals|] == all && arrivals[..|arrivals|] == arrivals;
    v := Some(Valuation(Sum(values), MaxOf(values, 0.0), sources));
  }

  /** The delay and continuity loop over one path. */
  method DelaysOf(transfers: seq<Leg>) returns (deltas: seq<real>, ok: bool)
    ensures deltas == Gaps(Times(transfers))
    ensures ok == Forward(Times(transfers))
  {
    var stamps: seq<real> := [];
    for i := 0 to |transfers|
      invariant stamps == Times(transfers[..i])
    {
      assert transfers[..i + 1][..i] == transfers[..i];
      if transfers[i].at.Some? {
        stamps := stamps + [transfers[i].at.value];
      }
    }
    assert transfers[..|transfers|] == transfers;
    deltas, ok := GapsOf(stamps);
  }

  method GapsOf(stamps: seq<real>) returns (deltas: seq<real>, ok: bool)
    ensures deltas == Gaps(stamps)
    ensures ok == Forward(stamps)
  {
    deltas, ok := [], true;
    if stamps == [] {
      return;
    }
    NoGaps(stamps);
    for k := 1 to |stamps|
      invariant deltas == Gaps(stamps[..k])
      invariant ok == Forward(stamps[..k])
    {
      var gap := stamps[k] - stamps[k - 1];
      OneMoreStamp(stamps, k);
      deltas := deltas + [if gap >= 0.0 then gap else -gap];
      if gap < 0.0 {
        ok := false;
      }
    }
    assert stamps[..|stamps|] == stamps;
  }

  lemma NoGaps(stamps: seq<real>)
    requires stamps != []
    ensures Gaps(stamps[..1]) == [] && Forward(stamps[..1])
  {}

  lemma OneMoreStamp(stamps: seq<real>, k: nat)
    requires 0 < k < |stamps|
    ensures Gaps(stamps[..k + 1]) == Gaps(stamps[..k]) + [Gap(stamps[k - 1], stamps[k])]
    ensures Forward(stamps[..k + 1]) <==> Forward(stamps[..k]) && stamps[k - 1] <= stamps[k]
  {
    var s, t := stamps[..k], stamps[..k + 1];
    assert t[..k] == s && t[k] == stamps[k];
    assert Gaps(t) == Gaps(s) + [Gap(stamps[k - 1], stamps[k])];
    hide Gaps;
    if Forward(t) {
      assert t[k - 1] <= t[k];
      forall i {:trigger s[i]} | 0 < i < |s| ensures s[i - 1] <= s[i] { assert t[i - 1] <= t[i]; }
    }
    if Forward(s) && stamps[k - 1] <= stamps[k] {
      forall i {:trigger t[i]} | 0 < i < |t| ensures t[i - 1] <= t[i] { assert i < k ==> s[i - 1] <= s[i]; }
    }
  }

  /** The same over all paths, pooled. */
  method PoolDelays(rows: seq<PathRow>) returns (deltas: seq<real>, continuityOk: bool)
    ensures deltas == Pool(rows, Delays)
    ensures continuityOk == forall r :: r in rows ==> RunsForward(r)
  {
    deltas, continuityOk := [], true;
    for i := 0 to |rows|
      invariant deltas == Pool(rows[..i], Delays)
      invariant continuityOk == forall r :: r in rows[..i] ==> RunsForward(r)
    {
      var more, ok := DelaysOf(rows[i].transfers);
      assert ok == RunsForward(rows[i]) && more == Delays(rows[i]);
      hide RunsForward, Delays;
      assert rows[..i + 1] == rows[..i] + [rows[i]];
      assert rows[..i + 1][..i] == rows[..i];
      deltas := deltas + more;
      if !ok {
        continuityOk := false;
      }
    }
    assert rows[..|rows|] == rows;
  }

  /** `extract_path_features` for the rows of one service; it raises on an empty list. */
  method ExtractPathFeatures(rows: seq<PathRow>, price: Price, now: real) returns (x: Option<Extracted>)
    ensures x == if rows == [] then None
                 else Some(Extracted(FeaturesOf(rows, price, now), InHopOrder(rows)[0].serviceType, InHopOrder(rows)[0].path))
  {
    if rows == [] {
      return None;
    }
    var sorted := InHopOrder(rows);
    var terminal := TerminalTransfers(sorted);
    var inr := PriceAll(terminal, price);
    var deltas, continuityOk := PoolDelays(sorted);
    SameRowsForward(rows);
    hide Sum, MaxOf, Seen, FirstAsset, NamedAssets, Valued, Median, InHopOrder, Landing, FirstPerKey, RunsForward, Sources;
    var m := Measures(Sum(Volumes(terminal)), MaxOf(Volumes(terminal), 0.0), |terminal|, |Counterparties(terminal)|,
                      Seen(terminal), FirstAsset(terminal), |NamedAssets(terminal)| > 1, inr);
    var f := Features(sorted[0].service, sorted[0].hop, |rows|, m, SinceLast(m.seen, now), Median(deltas), continuityOk,
                      MaxOf(Confidences(rows), 0.0), Sources(rows));
    x := Some(Extracted(f, sorted[0].serviceType, sorted[0].path));
  }

  lemma SameRowsForward(rows: seq<PathRow>)
    ensures (forall r :: r in InHopOrder(rows) ==> RunsForward(r)) <==> (forall r :: r in rows ==> RunsForward(r))
  {
    InHopOrderFacts(rows);
    hide RunsForward, InHopOrder;
  }

  // ---------------------------------------------------------------------------
  // Rows read off the graph
  // ---------------------------------------------------------------------------

  /** The arrival is a TRANSFERRED edge of the graph, with that edge's properties. */
  ghost predicate OnEdge(g: GraphState.Graph, chain: Chain, a: Arrival) {
    var k := GraphState.TransferEdge(GraphState.AddrId(chain, a.from), GraphState.AddrId(chain, a.to), a.leg.txid);
    && k in g.transferred
    && var p := g.transferred[k];
       a.leg == Leg(k.txid, p.attributed, p.assetKey, Some(p.timestamp as real))
  }

  /** What the two queries return: each step of a path and each arrival is an edge. */
  ghost predicate Queried(g: GraphState.Graph, chain: Chain, rows: seq<PathRow>) {
    forall r :: r in rows ==>
      && |r.path| == |r.transfers| + 1
      && (forall i :: 0 <= i < |r.transfers| ==> OnEdge(g, chain, Arrival(r.path[i], r.path[i + 1], r.transfers[i])))
      && forall a :: a in r.arrivals ==> OnEdge(g, chain, a)
  }

  lemma LandingOnEdges(g: GraphState.Graph, chain: Chain, rows: seq<PathRow>, a: Arrival)
    requires Queried(g, chain, rows) && a in Landing(rows)
    ensures OnEdge(g, chain, a)
  {
    hide OnEdge;
    AllArrivalsMeans(rows, a);
    LastLegsMeans(rows, a);
    if a in AllArrivals(rows) {
      var r :| r in rows && a in r.arrivals;
    } else {
      var r :| r in rows && a in LastLeg(r);
      assert a == Arrival(r.path[|r.transfers| - 1], r.path[|r.transfers|], r.transfers[|r.transfers| - 1]);
    }
  }

  /** Equal keys carry equal transfers. */
  ghost predicate Consistent(rows: seq<PathRow>) {
    forall a, b :: a in Landing(rows) && b in Landing(rows) && KeyOf(a) == KeyOf(b) ==> a == b
  }

  /** The writer keeps one edge per transaction and pair of addresses, which is the key transfers are
      deduplicated by: two transfers with one key are one edge. */
  lemma QueriedAreConsistent(g: GraphState.Graph, chain: Chain, rows: seq<PathRow>)
    requires Queried(g, chain, rows)
    ensures Consistent(rows)
  {
    hide Landing, Queried;
    forall a, b | a in Landing(rows) && b in Landing(rows) && KeyOf(a) == KeyOf(b) ensures a == b {
      LandingOnEdges(g, chain, rows, a);
      LandingOnEdges(g, chain, rows, b);
    }
  }

  // ---------------------------------------------------------------------------
  // Repeats and order do not matter
  // ---------------------------------------------------------------------------

  lemma {:induction false} AllArrivalsMeans(rows: seq<PathRow>, a: Arrival)
    ensures a in AllArrivals(rows) <==> exists r :: r in rows && a in r.arrivals
  {
    if rows != [] {
      var init, last := rows[..|rows| - 1], rows[|rows| - 1];
      AllArrivalsMeans(init, a);
      assert forall r :: r in rows <==> r in init || r == last;
    }
  }

  lemma {:induction false} LastLegsMeans(rows: seq<PathRow>, a: Arrival)
    ensures a in LastLegs(rows) <==> exists r :: r in rows && a in LastLeg(r)
  {
    if rows != [] {
      var init, last := rows[..|rows| - 1], rows[|rows| - 1];
      LastLegsMeans(init, a);
      assert forall r :: r in rows <==> r in init || r == last;
    }
  }

  lemma LandingOfSameRows(a: seq<PathRow>, b: seq<PathRow>)
    requires SameMembers(a, b)
    ensures SameMembers(Landing(a), Landing(b))
  {
    forall x ensures (x in AllArrivals(a) <==> x in AllArrivals(b)) && (x in LastLegs(a) <==> x in LastLegs(b)) {
      AllArrivalsMeans(a, x);
      AllArrivalsMeans(b, x);
      LastLegsMeans(a, x);
      LastLegsMeans(b, x);
    }
    SameEmptiness(AllArrivals(a), AllArrivals(b));
  }

  /** What is kept, as a set, is what landed; so it depends on nothing but the set of rows. */
  lemma KeptIsLanded(rows: seq<PathRow>)
    requires Consistent(rows)
    ensures SameMembers(FirstPerKey(Landing(rows)), Landing(rows)) && NoRepeats(FirstPerKey(Landing(rows)))
  {
    var s := Landing(rows);
    FirstPerKeyMeans(s);
    forall a ensures a in FirstPerKey(s) <==> a in s {
      if a in s {
        var b :| b in FirstPerKey(s) && KeyOf(b) == KeyOf(a);
      }
    }
  }

  lemma KeptRearranged(a: seq<PathRow>, b: seq<PathRow>)
    requires SameMembers(a, b) && Consistent(a)
    ensures multiset(FirstPerKey(Landing(a))) == multiset(FirstPerKey(Landing(b)))
  {
    LandingOfSameRows(a, b);
    KeptIsLanded(a);
    KeptIsLanded(b);
    hide Landing, FirstPerKey;
    Rearranged(FirstPerKey(Landing(a)), FirstPerKey(Landing(b)));
  }

  lemma MapMembers<A(!new), B>(s: seq<A>, t: seq<A>, f: A -> B, x: B)
    requires SameMembers(s, t) && x in Map(s, f)
    ensures x in Map(t, f)
  {
    var i :| 0 <= i < |s| && Map(s, f)[i] == x;
    assert s[i] in t;
    var j :| 0 <= j < |t| && t[j] == s[i];
    assert Map(t, f)[j] == x;
  }

  lemma MaxOfMap<A(!new)>(s: seq<A>, t: seq<A>, f: A -> real)
    requires SameMembers(s, t)
    ensures MaxOf(Map(s, f), 0.0) == MaxOf(Map(t, f), 0.0)
  {
    forall x ensures x in Map(s, f) <==> x in Map(t, f) {
      if x in Map(s, f) { MapMembers(s, t, f, x); }
      if x in Map(t, f) { MapMembers(t, s, f, x); }
    }
    MaxOfSet(Map(s, f), Map(t, f), 0.0);
  }

  lemma SameOrder(a: seq<real>, b: seq<real>)
    requires multiset(a) == multiset(b)
    ensures InOrder(a) == InOrder(b)
  {
    NoLaterThanIsTotal();
    assert NoTies(a, NoLaterThan());
    SortIgnoresOrder(a, b, NoLaterThan());
  }

  lemma SameSeen(s: seq<Arrival>, t: seq<Arrival>)
    requires multiset(s) == multiset(t)
    ensures Seen(s) == Seen(t)
  {
    PoolKeepsArrangement(s, t, (a: Arrival) => Stamp(a.leg));
    SameOrder(ArrivalTimes(s), ArrivalTimes(t));
  }

  lemma AlphabeticalIsTotal()
    ensures TotalOrder(Alphabetical())
  {
    hide AtMost;
    forall x: string, y: string ensures AtMost(x, y) || AtMost(y, x) { AtMostTotal(x, y); }
    forall x: string, y: string, z: string | AtMost(x, y) && AtMost(y, z) ensures AtMost(x, z) { AtMostTransitive(x, y, z); }
  }

  lemma AtMostTotal(x: string, y: string)
    ensures AtMost(x, y) || AtMost(y, x)
  {
    LessTotal(x, y);
  }

  lemma SameAssets(s: seq<Arrival>, t: seq<Arrival>)
    requires multiset(s) == multiset(t)
    ensures FirstAsset(s) == FirstAsset(t)
  {
    MapKeepsArrangement(s, t, (a: Arrival) => a.leg.asset);
    AlphabeticalIsTotal();
    forall x, y | x in Assets(s) && y in Assets(s) && Alphabetical()(x, y) && Alphabetical()(y, x) ensures x == y {
      AtMostAntisymmetric(x, y);
    }
    SortIgnoresOrder(Assets(s), Assets(t), Alphabetical());
  }

  lemma SameValuation(s: seq<Arrival>, t: seq<Arrival>, price: Price)
    requires multiset(s) == multiset(t) && SameMembers(s, t)
    ensures Valued(s, price) == Valued(t, price)
  {
    MapKeepsArrangement(s, t, (a: Arrival) => Inr(price, a));
    SumIgnoresOrder(PricedVolumes(s, price), PricedVolumes(t, price));
    MaxOfMap(s, t, (a: Arrival) => Inr(price, a));
    SameEmptiness(s, t);
    hide Sum, MaxOf, Inr, PricedVolumes;
    assert QuoteSources(s, price) == QuoteSources(t, price);
    assert AllPriced(s, price) <==> AllPriced(t, price);
  }

  /** Measurements over rearranged transfers agree. */
  lemma SameMeasures(s: seq<Arrival>, t: seq<Arrival>, price: Price)
    requires multiset(s) == multiset(t)
    ensures MeasuresOf(s, price) == MeasuresOf(t, price)
  {
    SameLength(s, t);
    forall x ensures x in s <==> x in t { SameElements(s, t, x); }
    assert SameMembers(s, t);
    MapKeepsArrangement(s, t, (a: Arrival) => a.leg.attributed);
    SumIgnoresOrder(Volumes(s), Volumes(t));
    MaxOfMap(s, t, (a: Arrival) => a.leg.attributed);
    SameSeen(s, t);
    SameAssets(s, t);
    SameValuation(s, t, price);
    hide Sum, MaxOf, Seen, FirstAsset, Valued;
    assert Counterparties(s) == Counterparties(t) && NamedAssets(s) == NamedAssets(t);
  }

  lemma InHopOrderFacts(rows: seq<PathRow>)
    ensures SameMembers(InHopOrder(rows), rows)
    ensures rows != [] ==> InHopOrder(rows)[0] in rows && forall r :: r in rows ==> InHopOrder(rows)[0].hop <= r.hop
  {
    ByHopIsTotal();
    SortFacts(rows, ByHop());
    var s := InHopOrder(rows);
    forall r ensures r in s <==> r in rows { SameElements(s, rows, r); }
    if rows != [] {
      assert s[0] in s;
      forall r | r in rows ensures s[0].hop <= r.hop {
        assert r in s;
        var i :| 0 <= i < |s| && s[i] == r;
        assert i == 0 || ByHop()(s[0], s[i]);
      }
    }
  }

  ghost predicate OneService(rows: seq<PathRow>) {
    forall r, q :: r in rows && q in rows ==> r.service == q.service
  }

  lemma KeptInHopOrder(g: GraphState.Graph, chain: Chain, a: seq<PathRow>, b: seq<PathRow>)
    requires SameMembers(a, b) && Queried(g, chain, a)
    ensures multiset(Kept(a)) == multiset(Kept(b))
  {
    InHopOrderFacts(a);
    InHopOrderFacts(b);
    QueriedAreConsistent(g, chain, InHopOrder(a));
    hide Landing, InHopOrder, FirstPerKey, KeyOf;
    KeptRearranged(InHopOrder(a), InHopOrder(b));
  }

  lemma SameFirstRow(a: seq<PathRow>, b: seq<PathRow>)
    requires a != [] && SameMembers(a, b) && OneService(a)
    ensures b != []
    ensures InHopOrder(a)[0].hop == InHopOrder(b)[0].hop && InHopOrder(a)[0].service == InHopOrder(b)[0].service
  {
    SameEmptiness(a, b);
    InHopOrderFacts(a);
    InHopOrderFacts(b);
    hide InHopOrder;
    var r, q := InHopOrder(a)[0], InHopOrder(b)[0];
    assert q in a && r in b;
  }

  lemma SameLabels(a: seq<PathRow>, b: seq<PathRow>)
    requires SameMembers(a, b)
    ensures Sources(a) == Sources(b) && MaxOf(Confidences(a), 0.0) == MaxOf(Confidences(b), 0.0)
    ensures (forall r :: r in a ==> RunsForward(r)) <==> (forall r :: r in b ==> RunsForward(r))
  {
    hide RunsForward;
    MaxOfMap(a, b, (r: PathRow) => r.labelConfidence);
  }

  /** Duplicating or reordering the path rows of a service changes no measurement but the number of
      paths and the delay pooled over them. */
  lemma FeaturesIgnoreRepeats(g: GraphState.Graph, chain: Chain, a: seq<PathRow>, b: seq<PathRow>, price: Price, now: real)
    requires Queried(g, chain, a) && a != [] && b != [] && SameMembers(a, b) && OneService(a)
    ensures FeaturesOf(a, price, now)
         == FeaturesOf(b, price, now).(pathCount := |a|, medianDelay := FeaturesOf(a, price, now).medianDelay)
  {
    KeptInHopOrder(g, chain, a, b);
    SameFirstRow(a, b);
    SameLabels(a, b);
    hide Queried, SameMembers, OneService, Kept, InHopOrder, MaxOf, SinceLast, MeasuresOf, Median, RunsForward, Sources,
         Confidences;
    SameMeasures(Kept(a), Kept(b), price);
  }

  /** Reordering them changes none at all. */
  lemma FeaturesIgnoreOrder(g: GraphState.Graph, chain: Chain, a: seq<PathRow>, b: seq<PathRow>, price: Price, now: real)
    requires Queried(g, chain, a) && a != [] && b != [] && multiset(a) == multiset(b) && OneService(a)
    ensures FeaturesOf(a, price, now) == FeaturesOf(b, price, now)
  {
    SameLength(a, b);
    forall r ensures r in a <==> r in b { SameElements(a, b, r); }
    FeaturesIgnoreRepeats(g, chain, a, b, price, now);
    SameDelays(a, b);
    hide Queried, OneService, Kept, InHopOrder, MaxOf, SinceLast, MeasuresOf, Median, RunsForward, Sources, Confidences;
  }

  lemma SameDelays(a: seq<PathRow>, b: seq<PathRow>)
    requires multiset(a) == multiset(b)
    ensures Median(Pool(InHopOrder(a), Delays)) == Median(Pool(InHopOrder(b), Delays))
  {
    hide InHopOrder, Pool, Delays, InOrder;
    PoolKeepsArrangement(InHopOrder(a), InHopOrder(b), Delays);
    SameOrder(Pool(InHopOrder(a), Delays), Pool(InHopOrder(b), Delays));
  }
}
