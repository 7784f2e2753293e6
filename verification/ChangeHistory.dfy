/** What every event keeps, and why no transaction ever gets a second change output. */
module ChangeHistory {
  import opened Options
  import opened Chains
  import opened GraphState
  import opened Clustering

  /** `first_seen` only moves back, and null stays null. */
  predicate SeenNoLater(before: Option<int>, after: Option<int>) {
    match before case None => after.None? case Some(s) => after.Some? && after.value <= s
  }

  predicate NodeGrew(n: AddrNode, n': AddrNode) {
    SeenNoLater(n.firstSeen, n'.firstSeen) && (n.txCount > 0 ==> n'.txCount > 0)
  }

  ghost predicate AddrsGrew(m: map<AddrId, AddrNode>, m': map<AddrId, AddrNode>) {
    forall a :: a in m ==> a in m' && NodeGrew(m[a], m'[a])
  }

  ghost predicate TxsGrew(m: map<TxId, TxNode>, m': map<TxId, TxNode>) {
    forall t :: t in m ==> t in m' && m'[t].timestamp == m[t].timestamp
  }

  /** Nothing is ever removed from the part of the graph the heuristics read. */
  ghost predicate Grew(g: Graph, h: Graph) {
    && AddrsGrew(g.addrs, h.addrs)
    && TxsGrew(g.txs, h.txs)
    && g.sent.Keys <= h.sent.Keys
    && g.received.Keys <= h.received.Keys
    && g.transferred.Keys <= h.transferred.Keys
    && g.sameOwner <= h.sameOwner
  }

  lemma GrewSelf(g: Graph)
    ensures Grew(g, g)
  {}

  lemma GrewTransitive(f: Graph, g: Graph, h: Graph)
    requires Grew(f, g) && Grew(g, h)
    ensures Grew(f, h)
  {
    forall a | a in f.addrs ensures a in h.addrs && NodeGrew(f.addrs[a], h.addrs[a]) {
      assert NodeGrew(f.addrs[a], g.addrs[a]) && NodeGrew(g.addrs[a], h.addrs[a]);
    }
  }

  lemma MergeGrows(g: Graph, r: Record)
    ensures Grew(g, MergeTx(g, r))
  {
    hide Touched, SentKeys, RecvKeys, TransferKeys, FirstSent, FirstReceived, LastFlag, PropsOf;
  }

  lemma {:induction false} MergeAllGrows(g: Graph, rs: seq<Record>)
    ensures Grew(g, MergeAll(g, rs))
  {
    hide MergeTx;
    if rs != [] {
      var before := MergeAll(g, rs[..|rs| - 1]);
      MergeAllGrows(g, rs[..|rs| - 1]);
      MergeGrows(before, rs[|rs| - 1]);
      GrewTransitive(g, before, MergeAll(g, rs));
    }
  }

  lemma RefreshGrows(g: Graph, h: Graph, chains: set<Chain>)
    requires Grew(g, h)
    ensures Grew(g, Refresh(h, chains))
  {
    hide SentCount, ReceivedCount;
  }

  lemma SeedGrows(g: Graph, a: AddrId)
    ensures Grew(g, SeedTag(g, a))
  {}

  /** A clustering step leaves addresses, transactions and the keys of their edges as they are. */
  lemma PassesGrow(g: Graph, chain: Chain)
    ensures Grew(g, ApplyCommonInput(g, chain))
    ensures Grew(g, ApplyChange(g, chain))
    ensures Grew(g, Resolve(g, chain))
  {
    hide CommonInputEdges, ChangeEdges, SelectsChange, ActiveOn, MembersAfter, ClustersWritten, Pruned, KeyOf;
  }

  lemma StepGrows(g: Graph, e: Event)
    ensures Grew(g, Step(g, e))
  {
    hide Grew, MergeAll, Refresh, SeedTag, ApplyCommonInput, ApplyChange, Resolve;
    match e {
      case Merge(rs) => MergeAllGrows(g, rs);
      case RefreshCounts(c) => GrewSelf(g); RefreshGrows(g, g, {c});
      case Seed(a) => SeedGrows(g, a);
      case CommonInputPass(c) => PassesGrow(g, c);
      case ChangePass(c) => PassesGrow(g, c);
      case ResolvePass(c) => PassesGrow(g, c);
    }
  }

  lemma {:induction false} RunGrows(g: Graph, es: seq<Event>)
    ensures Grew(g, Run(g, es))
  {
    hide Step;
    if es != [] {
      var before := Run(g, es[..|es| - 1]);
      RunGrows(g, es[..|es| - 1]);
      StepGrows(before, es[|es| - 1]);
      GrewTransitive(g, before, Run(g, es));
    }
  }

  // ---------------------------------------------------------------------------
  // At most one change output per transaction, ever
  // ---------------------------------------------------------------------------

  lemma TwoElements<T>(s: set<T>, x: T, y: T, z: T)
    requires |s| == 2 && x in s && y in s && z in s && x != y
    ensures z == x || z == y
  {
    assert |s - {x}| == 1;
    assert |s - {x} - {y}| == 0;
    assert z !in s - {x} - {y};
  }

  lemma OtherElement<T>(s: set<T>, x: T) returns (y: T)
    requires |s| == 2 && x in s
    ensures y in s && y != x
  {
    assert |s - {x}| == 1;
    y :| y in s - {x};
  }

  /** Every RECEIVED_BY edge of a transaction has a row, and only one without a spend. */
  lemma RowOf(g: Graph, e: RecvEdge) returns (r: Row)
    requires e in g.received
    ensures r in Rows(g, e.tx) && r.out == e && (r.spent.None? <==> SpentBack(g, e) == {})
  {
    if SpentBack(g, e) == {} {
      r := Row(e, None);
    } else {
      var s :| s in SpentBack(g, e);
      r := Row(e, Some(s));
    }
  }

  lemma RowFacts(g: Graph, t: TxId, r: Row)
    requires r in Rows(g, t)
    ensures r.out in g.received && r.out.tx == t
    ensures r.spent.None? <==> SpentBack(g, r.out) == {}
  {}

  /** Being spent back and losing one's debut are permanent. */
  lemma FreshnessIsOnlyLost(g: Graph, h: Graph, e: RecvEdge)
    requires Grew(g, h) && e.tx in g.txs && e.to in g.addrs
    requires Debut(h, e.to, e.tx) && SpentBack(h, e) == {}
    ensures Debut(g, e.to, e.tx) && SpentBack(g, e) == {}
  {
    assert NodeGrew(g.addrs[e.to], h.addrs[e.to]);
    assert SpentBack(g, e) <= SpentBack(h, e);
  }

  /** Endpoints of edges exist. */
  ghost predicate EdgesAnchored(g: Graph) {
    && (forall e :: e in g.sent ==> e.from in g.addrs && e.from.chain == e.tx.chain && e.tx in g.txs)
    && (forall e :: e in g.received ==> e.to in g.addrs && e.to.chain == e.tx.chain && e.tx in g.txs)
    && (forall e :: e in g.transferred ==> e.from in g.addrs && e.to in g.addrs && e.from.chain == e.to.chain)
  }

  /** Whatever is written between two passes, late-arriving older transactions included, the outputs
      the heuristic selects for one transaction are one output. */
  lemma SelectionIsStable(g: Graph, h: Graph, e: RecvEdge, e': RecvEdge)
    requires Grew(g, h) && EdgesAnchored(g) && e.tx == e'.tx
    requires SelectsChange(g, e) && SelectsChange(h, e')
    ensures e == e'
  {
    hide Grew, Rows, Debut, SpentBack, AddrsGrew;
    if e != e' {
      var t := e.tx;
      assert Row(e, None) in FreshRows(g, t);
      var other := OtherElement(Rows(g, t), Row(e, None));
      RowFacts(g, t, other);
      RowFacts(g, t, Row(e, None));
      assert other !in FreshRows(g, t);
      if other.out == e { RowsAgree(g, t, other, Row(e, None)); }
      KeysGrew(g, h, e);
      KeysGrew(g, h, other.out);
      var re := RowOf(h, e);
      var ro := RowOf(h, other.out);
      RowFacts(h, t, Row(e', None));
      TwoElements(Rows(h, t), re, ro, Row(e', None));
      assert e' == other.out;
      FreshnessIsOnlyLost(g, h, e');
      assert false;
    }
  }

  lemma KeysGrew(g: Graph, h: Graph, e: RecvEdge)
    requires Grew(g, h) && e in g.received
    ensures e in h.received
  {}

  lemma RowsAgree(g: Graph, t: TxId, r: Row, s: Row)
    requires r in Rows(g, t) && s in Rows(g, t) && r.out == s.out && s.spent.None?
    ensures r == s
  {}
}
