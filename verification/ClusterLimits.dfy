/** Where writer and clustering part from what the documentation says of them: exactly when rewriting a
    transaction keeps the change flag, and exactly which addresses get clustered. */
module ClusterLimits {
  import opened Options
  import opened Chains
  import opened Transactions
  import opened Transfers
  import opened GraphState
  import opened Clustering
  import opened ChangeHistory
  import opened ClusterInvariant
  import opened ClusterRuns

  // ---------------------------------------------------------------------------
  // The change flag under a rewrite
  // ---------------------------------------------------------------------------

  /** Writing a transaction again puts the connector's own flag on each of its outputs, so a flag the
      heuristic set survives exactly where the connector sets it too. */
  lemma RewriteKeepsTheFlagExactly(g: Graph, r: Record, e: RecvEdge)
    requires SelectsChange(g, e) && e in RecvKeys(r.tx, r.tx.outputs)
    ensures e in ApplyChange(g, BTC).received && ApplyChange(g, BTC).received[e].isChange
    ensures e in WriteAll(ApplyChange(g, BTC), [r]).received
    ensures WriteAll(ApplyChange(g, BTC), [r]).received[e].isChange <==> LastFlag(r.tx, r.tx.outputs, e)
  {
    var flagged := ApplyChange(g, BTC);
    SelectedIsReceived(g, e);
    hide SelectsChange, LastFlag, RecvKeys, SentCount, ReceivedCount, ChangeEdges;
    assert [r][..0] == [];
    assert MergeAll(flagged, [r]) == MergeTx(flagged, r);
  }

  /** A rewrite after a change pass is idempotent exactly when the connector flags every output that
      the pass selected in the transaction. */
  lemma RewriteIsIdempotentExactly(g: Graph, r: Record)
    requires MergeTx(g, r) == g
    ensures MergeTx(ApplyChange(g, BTC), r) == ApplyChange(g, BTC)
       <==> forall e :: e in RecvKeys(r.tx, r.tx.outputs) && SelectsChange(g, e) ==> LastFlag(r.tx, r.tx.outputs, e)
  {
    hide SelectsChange, LastFlag, RecvKeys, FirstReceived, ChangeEdges, Pairs, Touched, SentAfter, TransferredAfter,
         AddrsAfter, TxsAfter;
    var f := ApplyChange(g, BTC);
    var h := MergeTx(f, r);
    assert h == f.(received := h.received);
    assert g.received == ReceivedAfter(g.received, r.tx, r.tx.outputs);
    forall e | e in f.received
      ensures e in h.received
      ensures h.received[e] == f.received[e]
         <==> (e in RecvKeys(r.tx, r.tx.outputs) && SelectsChange(g, e) ==> LastFlag(r.tx, r.tx.outputs, e))
    {
      assert e in g.received;
    }
    forall e | SelectsChange(g, e) ensures e in g.received { SelectedIsReceived(g, e); }
    assert h.received.Keys == f.received.Keys;
    assert h.received == f.received <==> forall e :: e in f.received ==> h.received[e] == f.received[e];
  }

  /** A spend of "a" back to itself with one new address. */
  function Spend(): Record {
    Record(ChainTransaction(BTC, "t", 0, [TxIO("a", 10.0, 0, false)],
                            [TxIO("a", 4.0, 0, false), TxIO("c", 6.0, 1, false)], None, 0.0, "BTC:native", Success),
           "indexer", None)
  }

  function SpendOutput(): RecvEdge { RecvEdge(TxId(BTC, "t"), AddrId(BTC, "c"), 1) }

  function SpendBack(): RecvEdge { RecvEdge(TxId(BTC, "t"), AddrId(BTC, "a"), 0) }

  function SpendInput(): SentEdge { SentEdge(AddrId(BTC, "a"), TxId(BTC, "t"), 0) }

  lemma SpendKeys()
    ensures (var tx := Spend().tx;
             && |tx.inputs| == 1 && |tx.outputs| == 2 && tx.outputs[0] != tx.outputs[1]
             && SentKey(tx, tx.inputs[0]) == SpendInput()
             && RecvKey(tx, tx.outputs[0]) == SpendBack() && RecvKey(tx, tx.outputs[1]) == SpendOutput()
             && !tx.outputs[1].isChange && IdOf(tx, tx.outputs[1]) == AddrId(BTC, "c"))
  {}

  lemma SpendEdges()
    ensures SentKeys(Spend().tx, Spend().tx.inputs) == {SpendInput()}
    ensures RecvKeys(Spend().tx, Spend().tx.outputs) == {SpendBack(), SpendOutput()}
    ensures !LastFlag(Spend().tx, Spend().tx.outputs, SpendOutput())
    ensures AddrId(BTC, "c") in Touched(Spend())
  {
    SpendKeys();
    hide Spend, SpendInput, SpendBack, SpendOutput, SentKey, RecvKey, IdOf;
    var tx := Spend().tx;
    forall io ensures io in tx.inputs <==> io == tx.inputs[0] {}
    forall io ensures io in tx.outputs <==> io == tx.outputs[0] || io == tx.outputs[1] {}
    assert IdOf(tx, tx.outputs[1]) in Ends(tx, tx.outputs);
  }

  /** The graph after the spend, as far as the change heuristic reads it. */
  lemma SpendGraph()
    ensures (var g := MergeTx(EmptyGraph, Spend());
             && g.sent.Keys == {SpendInput()} && g.received.Keys == {SpendBack(), SpendOutput()}
             && TxId(BTC, "t") in g.txs && g.txs[TxId(BTC, "t")].outputCount == 2
             && Debut(g, AddrId(BTC, "c"), TxId(BTC, "t")))
  {
    SpendEdges();
    hide Pairs, FirstSent, FirstReceived, LastFlag, SentKeys, RecvKeys, TransferredAfter, Touched, PropsOf,
         SpendInput, SpendBack, SpendOutput;
    var g, t, c := MergeTx(EmptyGraph, Spend()), TxId(BTC, "t"), AddrId(BTC, "c");
    assert Tid(Spend()) == t;
    assert g.txs[t] == TxAfter(None, Spend());
    assert g.addrs[c] == Touch(None, Spend().tx.timestamp, Spend().source);
  }

  lemma SpendIsSelected()
    ensures SelectsChange(MergeTx(EmptyGraph, Spend()), SpendOutput())
  {
    SpendGraph();
    hide MergeTx, Debut, Spend;
    var g, t := MergeTx(EmptyGraph, Spend()), TxId(BTC, "t");
    assert SpentBack(g, SpendBack()) == {SpendInput()};
    assert SpentBack(g, SpendOutput()) == {};
    SelectedAlone(g, t, SpendBack(), SpendInput(), SpendOutput());
  }

  lemma SelectedAlone(g: Graph, t: TxId, back: RecvEdge, s: SentEdge, e: RecvEdge)
    requires g.received.Keys == {back, e} && back != e && back.tx == e.tx == t && t.chain == BTC
    requires t in g.txs && g.txs[t].outputCount == 2 && Debut(g, e.to, t)
    requires SpentBack(g, back) == {s} && SpentBack(g, e) == {}
    ensures SelectsChange(g, e)
  {
    var spent, alone := Row(back, Some(s)), Row(e, None);
    TwoRows(g, t, back, s, e);
    hide Rows, Debut, SpentBack;
    forall r ensures r in FreshRows(g, t) <==> r == alone {}
    assert FreshRows(g, t) == {alone};
    assert |{spent, alone}| == 2;
  }

  lemma TwoRows(g: Graph, t: TxId, back: RecvEdge, s: SentEdge, e: RecvEdge)
    requires g.received.Keys == {back, e} && back != e && back.tx == e.tx == t
    requires SpentBack(g, back) == {s} && SpentBack(g, e) == {}
    ensures Rows(g, t) == {Row(back, Some(s)), Row(e, None)}
  {
    hide SpentBack;
    assert back in g.received && e in g.received;
    forall r ensures r in Rows(g, t) <==> r == Row(back, Some(s)) || r == Row(e, None) {
      if r == Row(back, Some(s)) { assert s in SpentBack(g, back); }
    }
  }

  /** A run in which the flag is lost: write, change pass, the same write again. */
  lemma FlagIsLostInARun()
    ensures (var es := [Merge([Spend()]), ChangePass(BTC)];
             && SpendOutput() in After(es).received && After(es).received[SpendOutput()].isChange
             && SpendOutput() in After(es + [Merge([Spend()])]).received
             && !After(es + [Merge([Spend()])]).received[SpendOutput()].isChange)
  {
    SpendIsSelected();
    SpendEdges();
    var r, e := Spend(), SpendOutput();
    var g := MergeTx(EmptyGraph, r);
    RewriteKeepsTheFlagExactly(g, r, e);
    RefreshLeavesFlags(MergeAll(ApplyChange(g, BTC), [r]), ChainsOf([r]));
    ThreeSteps(Merge([r]), ChangePass(BTC), Merge([r]));
    MergeOne(EmptyGraph, r);
    MergeOne(ApplyChange(g, BTC), r);
    ChangeStep(g);
    hide *;
    assert After([Merge([r]), ChangePass(BTC)]) == ApplyChange(g, BTC);
    assert After([Merge([r]), ChangePass(BTC)] + [Merge([r])]) == MergeTx(ApplyChange(g, BTC), r);
  }

  lemma ThreeSteps(a: Event, b: Event, c: Event)
    ensures After([a, b]) == Step(Step(EmptyGraph, a), b)
    ensures After([a, b] + [c]) == Step(After([a, b]), c)
  {
    hide Step;
    RunOne(EmptyGraph, [], a);
    RunOne(EmptyGraph, [a], b);
    RunOne(EmptyGraph, [a, b], c);
    assert [] + [a] == [a] && [a] + [b] == [a, b];
  }

  lemma MergeOne(g: Graph, r: Record)
    ensures Step(g, Merge([r])) == MergeTx(g, r) && MergeAll(g, [r]) == MergeTx(g, r)
  {
    hide MergeTx;
    assert [r][..0] == [] && [r][0] == r;
    assert MergeAll(g, []) == g;
    assert MergeAll(g, [r]) == MergeTx(g, r);
  }

  lemma ChangeStep(g: Graph)
    ensures Step(g, ChangePass(BTC)) == ApplyChange(g, BTC)
  {}

  lemma RefreshLeavesFlags(g: Graph, chains: set<Chain>)
    ensures Refresh(g, chains).received == g.received
  {
    hide SentCount, ReceivedCount;
  }

  // ---------------------------------------------------------------------------
  // Which addresses get clustered
  // ---------------------------------------------------------------------------

  /** Some refresh of its chain ran while the address existed. */
  ghost predicate CountedIn(es: seq<Event>, a: AddrId) {
    exists i :: 0 <= i < |es| && es[i] == RefreshCounts(a.chain) && a in After(es[..i]).addrs
  }

  lemma CountedMore(es: seq<Event>, e: Event, a: AddrId)
    ensures CountedIn(es + [e], a) <==> CountedIn(es, a) || (e == RefreshCounts(a.chain) && a in After(es).addrs)
  {
    hide Run;
    var more := es + [e];
    assert more[|es|] == e && more[..|es|] == es;
    assert forall i :: 0 <= i < |es| ==> more[i] == es[i] && more[..i] == es[..i];
    if CountedIn(more, a) {
      var i :| 0 <= i < |more| && more[i] == RefreshCounts(a.chain) && a in After(more[..i]).addrs;
      assert i < |es| ==> es[i] == RefreshCounts(a.chain) && a in After(es[..i]).addrs;
    }
    if CountedIn(es, a) {
      var i :| 0 <= i < |es| && es[i] == RefreshCounts(a.chain) && a in After(es[..i]).addrs;
      assert more[i] == RefreshCounts(a.chain) && a in After(more[..i]).addrs;
    }
  }

  /** What one step does to the count of an address. */
  lemma CountStep(g: Graph, e: Event, a: AddrId)
    requires a in Step(g, e).addrs
    ensures Step(g, e).addrs[a].txCount > 0
       <==> (a in g.addrs && g.addrs[a].txCount > 0) || (e == RefreshCounts(a.chain) && a in g.addrs)
  {
    hide MergeAll, Refresh, SeedTag, ApplyCommonInput, ApplyChange, Resolve;
    match e {
      case Merge(rs) => MergeLeavesCounts(g, rs, a);
      case RefreshCounts(c) => RefreshSetsCounts(g, c, a);
      case Seed(b) => SeedLeavesCounts(g, b, a);
      case CommonInputPass(c) => PassLeavesAddresses(g, c);
      case ChangePass(c) => PassLeavesAddresses(g, c);
      case ResolvePass(c) => PassLeavesAddresses(g, c);
    }
  }

  lemma {:induction false} MergeLeavesCounts(g: Graph, rs: seq<Record>, a: AddrId)
    ensures a in g.addrs ==> a in MergeAll(g, rs).addrs
    ensures a in MergeAll(g, rs).addrs ==>
              MergeAll(g, rs).addrs[a].txCount == if a in g.addrs then g.addrs[a].txCount else 0
  {
    if rs != [] {
      MergeLeavesCounts(g, rs[..|rs| - 1], a);
      hide MergeTx;
      MergeLeavesCount(MergeAll(g, rs[..|rs| - 1]), rs[|rs| - 1], a);
    }
  }

  lemma MergeLeavesCount(g: Graph, r: Record, a: AddrId)
    ensures a in g.addrs ==> a in MergeTx(g, r).addrs
    ensures a in MergeTx(g, r).addrs ==> MergeTx(g, r).addrs[a].txCount == if a in g.addrs then g.addrs[a].txCount else 0
  {
    hide Touched, SentAfter, ReceivedAfter, TransferredAfter, TxsAfter, Pairs;
  }

  lemma SeedLeavesCounts(g: Graph, b: AddrId, a: AddrId)
    requires a in SeedTag(g, b).addrs
    ensures SeedTag(g, b).addrs[a].txCount == if a in g.addrs then g.addrs[a].txCount else 0
  {}

  lemma RefreshSetsCounts(g: Graph, chain: Chain, a: AddrId)
    ensures Refresh(g, {chain}).addrs.Keys == g.addrs.Keys
    ensures a in g.addrs ==> if a.chain == chain then Refresh(g, {chain}).addrs[a].txCount > 0
                             else Refresh(g, {chain}).addrs[a] == g.addrs[a]
  {
    hide SentCount, ReceivedCount;
  }

  lemma PassLeavesAddresses(g: Graph, chain: Chain)
    ensures ApplyCommonInput(g, chain).addrs == g.addrs && ApplyChange(g, chain).addrs == g.addrs
    ensures Resolve(g, chain).addrs == g.addrs
  {
    hide CommonInputEdges, ChangeEdges, FlagChange, ActiveOn, MembersAfter, ClustersWritten, Pruned;
  }

  /** `count(*)` counts the unmatched row: an address has a positive `tx_count` exactly if a refresh of
      its chain ran since it came to exist, whether or not any transaction mentions it. */
  lemma {:induction false} CountedExactly(es: seq<Event>, a: AddrId)
    ensures CountedIn(es, a) ==> a in After(es).addrs
    ensures a in After(es).addrs ==> (After(es).addrs[a].txCount > 0 <==> CountedIn(es, a))
  {
    hide Step, CountedIn;
    if es == [] {
      NothingCounted(a);
    } else {
      var init, last := es[..|es| - 1], es[|es| - 1];
      assert es == init + [last];
      CountedExactly(init, a);
      RunOne(EmptyGraph, init, last);
      CountedMore(init, last, a);
      if a in After(init).addrs { StepKeepsAddress(After(init), last, a); }
      if a in After(es).addrs { CountStep(After(init), last, a); }
    }
  }

  lemma NothingCounted(a: AddrId)
    ensures !CountedIn([], a)
  {}

  lemma StepKeepsAddress(g: Graph, e: Event, a: AddrId)
    requires a in g.addrs
    ensures a in Step(g, e).addrs
  {
    hide Step;
    StepGrows(g, e);
  }

  ghost predicate Clustered(g: Graph, a: AddrId) {
    exists k :: MemberOf(g, a, k)
  }

  /** Right after a resolver pass of its chain an address is in a cluster exactly if it is active. */
  lemma PassClustersActive(g: Graph, a: AddrId)
    requires Inv(g)
    ensures Clustered(Resolve(g, a.chain), a) <==> Active(g, a)
  {
    hide Active, ResolveUtxo, ResolveAccount, ClustersSound, OwnersActive, OneCluster, EdgesAnchored;
    var h := Resolve(g, a.chain);
    if a.chain == BTC { ResolveUtxoKeepsInv(g); ResolveTouches(g); } else { AccountKeepsInv(g, a.chain); AccountTouches(g, a.chain); }
    ActivityUnaffected(g, h);
    if Clustered(h, a) {
      var k :| MemberOf(h, a, k);
      assert MemberSound(h, Membership(a, k));
    }
    if Active(g, a) {
      if a.chain == BTC {
        UtxoPassResolves(g);
        assert a in ActiveOn(h, BTC);
        MemberIfActive(h, a);
      } else {
        AccountMember(g, a.chain, Membership(a, SingleKey(a)));
        assert MemberOf(h, a, SingleKey(a));
      }
    }
  }

  lemma MemberIfActive(h: Graph, a: AddrId)
    requires Resolved(h) && a.chain == BTC && a in ActiveOn(h, BTC)
    ensures Clustered(h, a)
  {
    hide Active, ActiveOn, KeyOf;
    assert MemberOf(h, a, KeyOf(h, a));
  }

  /** Over any run, a resolver pass clusters exactly the addresses that have an edge or were counted by
      a refresh; so once its chain has been refreshed, every address the tag seed made is clustered. */
  lemma ClusteredExactly(es: seq<Event>, a: AddrId)
    ensures Clustered(After(es + [ResolvePass(a.chain)]), a)
       <==> a in After(es).addrs && (CountedIn(es, a) || HasEdges(After(es), a))
  {
    hide Inv, CountedIn, HasEdges, Resolve, Clustered, Run;
    AfterInv(es);
    CountedExactly(es, a);
    RunOne(EmptyGraph, es, ResolvePass(a.chain));
    PassClustersActive(After(es), a);
  }

  /** A seeded address that no write ever mentions: one write of its chain and one pass, and it is in a
      cluster although it has no edge. */
  lemma SeededAddressIsClustered(a: AddrId, r: Record)
    requires r.tx.chain == a.chain && a !in Touched(r)
    ensures var es := [Seed(a), Merge([r]), RefreshCounts(a.chain)];
            !HasEdges(After(es), a) && Clustered(After(es + [ResolvePass(a.chain)]), a)
  {
    hide Step, HasEdges, Clustered, CountedIn, Touched;
    var es := [Seed(a), Merge([r]), RefreshCounts(a.chain)];
    var g0 := SeedTag(EmptyGraph, a);
    var g1 := MergeTx(g0, r);
    RunOne(EmptyGraph, [], Seed(a));
    RunOne(EmptyGraph, [Seed(a)], Merge([r]));
    RunOne(EmptyGraph, [Seed(a), Merge([r])], RefreshCounts(a.chain));
    assert [] + [Seed(a)] == [Seed(a)] && [Seed(a)] + [Merge([r])] == [Seed(a), Merge([r])];
    assert [Seed(a), Merge([r])] + [RefreshCounts(a.chain)] == es;
    SeedStep(EmptyGraph, a);
    MergeOne(g0, r);
    RefreshStep(g1, a.chain);
    MergeAddsNoEdges(a, r);
    RefreshLeavesEdges(g1, a.chain, a);
    MergeGrows(g0, r);
    CountedByRefresh(es, a);
    ClusteredExactly(es, a);
    RefreshSetsCounts(g1, a.chain, a);
  }

  lemma SeedStep(g: Graph, a: AddrId)
    ensures Step(g, Seed(a)) == SeedTag(g, a)
  {}

  lemma CountedByRefresh(es: seq<Event>, a: AddrId)
    requires |es| == 3 && es[2] == RefreshCounts(a.chain) && a in After(es[..2]).addrs
    ensures CountedIn(es, a)
  {}

  lemma MergeAddsNoEdges(a: AddrId, r: Record)
    requires a !in Touched(r)
    ensures !HasEdges(MergeTx(SeedTag(EmptyGraph, a), r), a)
  {
    hide Pairs, NormOf, FirstSent, FirstReceived, LastFlag, PropsOf, Touch, TxAfter;
    var g := MergeTx(SeedTag(EmptyGraph, a), r);
    forall e | e in g.sent ensures e.from != a {
      var io :| io in r.tx.inputs && e == SentKey(r.tx, io);
      assert e.from in Ends(r.tx, r.tx.inputs);
    }
    forall e | e in g.received ensures e.to != a {
      var io :| io in r.tx.outputs && e == RecvKey(r.tx, io);
      assert e.to in Ends(r.tx, r.tx.outputs);
    }
    forall e | e in g.transferred ensures e.from != a && e.to != a {
      var p :| p in Pairs(r.tx) && e == TransferKey(r.tx, p);
      TransferEndsExist(r, p);
    }
  }

  lemma RefreshLeavesEdges(g: Graph, chain: Chain, a: AddrId)
    ensures HasEdges(Refresh(g, {chain}), a) <==> HasEdges(g, a)
  {
    hide SentCount, ReceivedCount;
  }

  /** An address the tag seed put there first never gets a first-seen time, so it is never taken for
      change, whatever is written later. */
  lemma SeededIsNeverChange(a: AddrId, es: seq<Event>, e: RecvEdge)
    ensures a in After([Seed(a)] + es).addrs && After([Seed(a)] + es).addrs[a].firstSeen == None
    ensures SelectsChange(After([Seed(a)] + es), e) ==> e.to != a
  {
    var g := Run(EmptyGraph, [Seed(a)]);
    RunAppend(EmptyGraph, [Seed(a)], es);
    RunGrows(g, es);
    assert g == SeedTag(EmptyGraph, a) by { assert [Seed(a)][..0] == []; }
    var n, n' := g.addrs[a], After([Seed(a)] + es).addrs[a];
    assert NodeGrew(n, n');
    hide Run;
    if SelectsChange(After([Seed(a)] + es), e) {
      assert Row(e, None) in FreshRows(After([Seed(a)] + es), e.tx);
    }
  }
}
