/** The invariant every state of every run keeps, and what holds right after a resolver pass. */
module ClusterInvariant {
  import opened Text
  import opened Chains
  import opened Transfers
  import opened GraphState
  import opened Ownership
  import opened Clustering
  import opened ChangeHistory

  // ---------------------------------------------------------------------------
  // The invariant
  // ---------------------------------------------------------------------------

  /** SAME_OWNER joins active Bitcoin addresses only. */
  ghost predicate OwnersActive(g: Graph) {
    forall e :: e in g.sameOwner ==>
      e.a.chain == BTC && e.b.chain == BTC && Active(g, e.a) && Active(g, e.b)
  }

  /** A Bitcoin membership names a connected active address. */
  ghost predicate Names(g: Graph, m: Membership, n: AddrId) {
    n.chain == BTC && Active(g, n) && m.key == Prefix(BTC) + n.norm && Connected(g.sameOwner, m.addr, n)
  }

  ghost predicate MemberSound(g: Graph, m: Membership) {
    && Active(g, m.addr)
    && m.key in g.clusters && g.clusters[m.key].chain == m.addr.chain
    && (m.addr.chain == BTC ==> exists n :: Names(g, m, n))
    && (m.addr.chain != BTC ==> m.key == SingleKey(m.addr))
  }

  ghost predicate MembersSound(g: Graph) {
    forall m :: m in g.members ==> MemberSound(g, m)
  }

  /** No address is a member of two clusters. */
  ghost predicate OneCluster(g: Graph) {
    forall m, n :: m in g.members && n in g.members && m.addr == n.addr ==> m == n
  }

  ghost function MembersOf(g: Graph, k: string): set<AddrId> {
    set m | m in g.members && m.key == k :: m.addr
  }

  /** Cluster keys start with their chain's prefix; a Bitcoin cluster is inhabited and its stored
      size is the number of its members. */
  ghost predicate ClusterSound(g: Graph, k: string) {
    k in g.clusters ==>
      && (exists n: string :: k == Prefix(g.clusters[k].chain) + n)
      && (g.clusters[k].chain == BTC ==> g.clusters[k].size == |MembersOf(g, k)| > 0)
  }

  ghost predicate ClustersSound(g: Graph) {
    forall k :: k in g.clusters ==> ClusterSound(g, k)
  }

  ghost predicate Inv(g: Graph) {
    EdgesAnchored(g) && OwnersActive(g) && MembersSound(g) && OneCluster(g) && ClustersSound(g)
  }

  lemma InvEmpty()
    ensures Inv(EmptyGraph)
  {}

  // ---------------------------------------------------------------------------
  // Growth keeps what is true of members and owners
  // ---------------------------------------------------------------------------

  lemma ActiveGrows(g: Graph, h: Graph, a: AddrId)
    requires Grew(g, h) && Active(g, a)
    ensures Active(h, a)
  {
    assert NodeGrew(g.addrs[a], h.addrs[a]);
    if g.addrs[a].txCount == 0 {
      if e :| e in g.transferred && (e.from == a || e.to == a) {
        assert e in h.transferred;
      } else if e :| e in g.sent && e.from == a {
        assert e in h.sent;
      } else {
        var e :| e in g.received && e.to == a;
        assert e in h.received;
      }
    }
  }

  lemma MemberSoundGrows(g: Graph, h: Graph, m: Membership)
    requires Grew(g, h) && MemberSound(g, m)
    requires m.key in h.clusters && h.clusters[m.key].chain == g.clusters[m.key].chain
    ensures MemberSound(h, m)
  {
    hide Active, Grew;
    ActiveGrows(g, h, m.addr);
    if m.addr.chain == BTC {
      var n :| Names(g, m, n);
      ActiveGrows(g, h, n);
      OwnersGrew(g, h);
      ConnectedGrows(g.sameOwner, h.sameOwner, m.addr, n);
      assert Names(h, m, n);
    }
  }

  lemma OwnersGrew(g: Graph, h: Graph)
    requires Grew(g, h)
    ensures g.sameOwner <= h.sameOwner
  {}

  /** A step that grows the graph, leaves memberships and clusters alone and adds no owner edges
      between inactive addresses keeps the invariant. */
  lemma GrowthKeepsInv(g: Graph, h: Graph)
    requires Inv(g) && Grew(g, h) && h.members == g.members && h.clusters == g.clusters
    requires EdgesAnchored(h)
    requires forall e :: e in h.sameOwner && e !in g.sameOwner ==>
               e.a.chain == BTC && e.b.chain == BTC && Active(h, e.a) && Active(h, e.b)
    ensures Inv(h)
  {
    hide Active, Grew, MemberSound, EdgesAnchored;
    forall m | m in h.members ensures MemberSound(h, m) {
      assert MemberSound(g, m) && m.key in g.clusters by { MemberKey(g, m); }
      MemberSoundGrows(g, h, m);
    }
    forall e | e in h.sameOwner
      ensures e.a.chain == BTC && e.b.chain == BTC && Active(h, e.a) && Active(h, e.b)
    {
      if e in g.sameOwner {
        ActiveGrows(g, h, e.a);
        ActiveGrows(g, h, e.b);
      }
    }
    forall k | k in h.clusters ensures ClusterSound(h, k) {
      assert ClusterSound(g, k);
      assert MembersOf(h, k) == MembersOf(g, k);
    }
  }

  lemma MemberKey(g: Graph, m: Membership)
    requires MembersSound(g) && m in g.members
    ensures MemberSound(g, m) && m.key in g.clusters
  {}

  // ---------------------------------------------------------------------------
  // Writes and seeds
  // ---------------------------------------------------------------------------

  lemma MergeAnchors(g: Graph, r: Record)
    requires EdgesAnchored(g)
    ensures EdgesAnchored(MergeTx(g, r))
  {
    var h := MergeTx(g, r);
    SentAnchored(g, r);
    ReceivedAnchored(g, r);
    TransferredAnchored(g, r);
  }

  lemma SentAnchored(g: Graph, r: Record)
    requires EdgesAnchored(g)
    ensures var h := MergeTx(g, r);
            forall e :: e in h.sent ==> e.from in h.addrs && e.from.chain == e.tx.chain && e.tx in h.txs
  {
    hide Touch, FirstSent, TxAfter, NormOf;
    var h := MergeTx(g, r);
    forall e | e in h.sent ensures e.from in h.addrs && e.from.chain == e.tx.chain && e.tx in h.txs {
      if e !in g.sent {
        var io :| io in r.tx.inputs && e == SentKey(r.tx, io);
        assert e.from in Touched(r);
      }
    }
  }

  lemma ReceivedAnchored(g: Graph, r: Record)
    requires EdgesAnchored(g)
    ensures var h := MergeTx(g, r);
            forall e :: e in h.received ==> e.to in h.addrs && e.to.chain == e.tx.chain && e.tx in h.txs
  {
    hide Touch, FirstReceived, LastFlag, TxAfter, NormOf;
    var h := MergeTx(g, r);
    forall e | e in h.received ensures e.to in h.addrs && e.to.chain == e.tx.chain && e.tx in h.txs {
      if e !in g.received {
        var io :| io in r.tx.outputs && e == RecvKey(r.tx, io);
        assert e.to in Touched(r);
      }
    }
  }

  lemma TransferredAnchored(g: Graph, r: Record)
    requires EdgesAnchored(g)
    ensures var h := MergeTx(g, r);
            forall e :: e in h.transferred ==> e.from in h.addrs && e.to in h.addrs && e.from.chain == e.to.chain
  {
    hide Touch, PropsOf, TxAfter, NormOf, Pairs, SentAfter, ReceivedAfter, TxsAfter;
    var h := MergeTx(g, r);
    forall e | e in h.transferred ensures e.from in h.addrs && e.to in h.addrs && e.from.chain == e.to.chain {
      if e !in g.transferred {
        var p :| p in Pairs(r.tx) && e == TransferKey(r.tx, p);
        TransferEndsExist(r, p);
      }
    }
  }

  /** The MATCH of a transfer's two ends never fails: both were merged just before. */
  lemma TransferEndsExist(r: Record, p: Transfer)
    requires p in Pairs(r.tx)
    ensures AddrId(r.tx.chain, p.from) in Touched(r) && AddrId(r.tx.chain, p.to) in Touched(r)
  {
    hide Pairs, NormOf;
    PairsFacts(r.tx);
    var i :| i in r.tx.inputs && NormOf(r.tx.chain, i) == p.from;
    var o :| o in r.tx.outputs && NormOf(r.tx.chain, o) == p.to;
    assert IdOf(r.tx, i) in Ends(r.tx, r.tx.inputs);
    assert IdOf(r.tx, o) in Ends(r.tx, r.tx.outputs);
  }

  lemma {:induction false} MergeAllAnchors(g: Graph, rs: seq<Record>)
    requires EdgesAnchored(g)
    ensures EdgesAnchored(MergeAll(g, rs))
    ensures MergeAll(g, rs).sameOwner == g.sameOwner
    ensures MergeAll(g, rs).members == g.members && MergeAll(g, rs).clusters == g.clusters
  {
    hide MergeTx, EdgesAnchored;
    if rs != [] {
      MergeAllAnchors(g, rs[..|rs| - 1]);
      MergeAnchors(MergeAll(g, rs[..|rs| - 1]), rs[|rs| - 1]);
      MergeKeepsRest(MergeAll(g, rs[..|rs| - 1]), rs[|rs| - 1]);
    }
  }

  lemma MergeKeepsRest(g: Graph, r: Record)
    ensures var h := MergeTx(g, r);
            h.sameOwner == g.sameOwner && h.members == g.members && h.clusters == g.clusters
  {}

  lemma RefreshAnchors(g: Graph, chains: set<Chain>)
    requires EdgesAnchored(g)
    ensures EdgesAnchored(Refresh(g, chains))
  {
    hide SentCount, ReceivedCount;
  }

  lemma MergeKeepsInv(g: Graph, rs: seq<Record>)
    requires Inv(g)
    ensures Inv(MergeAll(g, rs))
  {
    hide EdgesAnchored, MergeAll, OwnersActive, MembersSound, OneCluster, ClustersSound, Grew;
    MergeAllAnchors(g, rs);
    MergeAllGrows(g, rs);
    GrowthKeepsInv(g, MergeAll(g, rs));
  }

  lemma RefreshKeepsInv(g: Graph, chains: set<Chain>)
    requires Inv(g)
    ensures Inv(Refresh(g, chains))
  {
    hide EdgesAnchored, OwnersActive, MembersSound, OneCluster, ClustersSound, SentCount, ReceivedCount, Grew;
    RefreshAnchors(g, chains);
    GrewSelf(g);
    RefreshGrows(g, g, chains);
    GrowthKeepsInv(g, Refresh(g, chains));
  }

  lemma SeedKeepsInv(g: Graph, a: AddrId)
    requires Inv(g)
    ensures Inv(SeedTag(g, a))
  {
    hide OwnersActive, MembersSound, OneCluster, ClustersSound, Grew;
    SeedGrows(g, a);
    GrowthKeepsInv(g, SeedTag(g, a));
  }

  // ---------------------------------------------------------------------------
  // The two heuristics
  // ---------------------------------------------------------------------------

  lemma CommonInputKeepsInv(g: Graph, chain: Chain)
    requires Inv(g)
    ensures Inv(ApplyCommonInput(g, chain))
  {
    hide OwnersActive, MembersSound, OneCluster, ClustersSound, Grew, Active, EdgesAnchored, Less;
    var h := ApplyCommonInput(g, chain);
    PassesGrow(g, chain);
    forall e | e in h.sameOwner && e !in g.sameOwner
      ensures e.a.chain == BTC && e.b.chain == BTC && Active(h, e.a) && Active(h, e.b)
    {
      var s, t :| s in g.sent && t in g.sent && s.tx == t.tx && s.tx.chain == BTC
                  && e == OwnerEdge(s.from, t.from, CommonInput);
      SenderActive(g, h, s);
      SenderActive(g, h, t);
    }
    AnchorsUnaffected(g, h);
    GrowthKeepsInv(g, h);
  }

  lemma ChangeKeepsInv(g: Graph, chain: Chain)
    requires Inv(g)
    ensures Inv(ApplyChange(g, chain))
  {
    hide OwnersActive, MembersSound, OneCluster, ClustersSound, Grew, Rows, FreshRows, Active, EdgesAnchored;
    var h := ApplyChange(g, chain);
    PassesGrow(g, chain);
    forall e | e in h.sameOwner && e !in g.sameOwner
      ensures e.a.chain == BTC && e.b.chain == BTC && Active(h, e.a) && Active(h, e.b)
    {
      var r, s :| r in g.received && s in g.sent && SelectsChange(g, r) && s.tx == r.tx
                  && e == OwnerEdge(s.from, r.to, ChangeAddress);
      SenderActive(g, h, s);
      ReceiverActive(g, h, r);
    }
    AnchorsUnaffected(g, h);
    GrowthKeepsInv(g, h);
  }

  lemma SenderActive(g: Graph, h: Graph, s: SentEdge)
    requires EdgesAnchored(g) && s in g.sent && h.addrs == g.addrs && s in h.sent
    ensures Active(h, s.from) && s.from.chain == s.tx.chain
  {}

  lemma ReceiverActive(g: Graph, h: Graph, r: RecvEdge)
    requires EdgesAnchored(g) && r in g.received && h.addrs == g.addrs && r in h.received
    ensures Active(h, r.to) && r.to.chain == r.tx.chain
  {}

  lemma AnchorsUnaffected(g: Graph, h: Graph)
    requires EdgesAnchored(g) && h.addrs == g.addrs && h.txs == g.txs && h.transferred == g.transferred
    requires h.sent.Keys == g.sent.Keys && h.received.Keys == g.received.Keys
    ensures EdgesAnchored(h)
  {}

  // ---------------------------------------------------------------------------
  // Cluster keys
  // ---------------------------------------------------------------------------

  /** The prefixes of the three chains start with different letters. */
  lemma PrefixesDiffer(c: Chain, m: string, d: Chain, n: string)
    requires Prefix(c) + m == Prefix(d) + n
    ensures c == d && m == n
  {
    assert (Prefix(c) + m)[0] == Prefix(c)[0];
    assert (Prefix(d) + n)[0] == Prefix(d)[0];
    assert (Prefix(c) + m)[|Prefix(c)|..] == m;
    assert (Prefix(d) + n)[|Prefix(d)|..] == n;
  }

  /** The key of an address names the smallest active member of its component. */
  lemma KeyMeans(g: Graph, a: AddrId) returns (n: AddrId)
    requires a in ActiveOn(g, BTC)
    ensures n in ActiveOn(g, BTC) && Connected(g.sameOwner, a, n)
    ensures KeyOf(g, a) == Prefix(BTC) + n.norm
    ensures forall b :: b in ActiveOn(g, BTC) && Connected(g.sameOwner, a, b) ==> AtMost(n.norm, b.norm)
  {
    hide Active, Connected, AtMost;
    ConnectedSelf(g.sameOwner, a);
    var comp := Component(g, a);
    assert a.norm in Norms(comp);
    var s := SmallestOf(Norms(comp));
    n :| n in comp && n.norm == s;
    forall b | b in ActiveOn(g, BTC) && Connected(g.sameOwner, a, b) ensures AtMost(n.norm, b.norm) {
      assert b in comp;
      assert b.norm in Norms(comp);
    }
  }

  lemma ComponentsAgree(g: Graph, a: AddrId, b: AddrId)
    requires Connected(g.sameOwner, a, b)
    ensures Component(g, a) == Component(g, b)
  {
    hide Connected, ActiveOn;
    forall c ensures c in Component(g, a) <==> c in Component(g, b) {
      if Connected(g.sameOwner, a, c) {
        ConnectedSym(g.sameOwner, a, b);
        ConnectedTrans(g.sameOwner, b, a, c);
      }
      if Connected(g.sameOwner, b, c) {
        ConnectedTrans(g.sameOwner, a, b, c);
      }
    }
  }

  /** Two active addresses have one key exactly if they are connected. */
  lemma KeysAgree(g: Graph, a: AddrId, b: AddrId)
    requires a in ActiveOn(g, BTC) && b in ActiveOn(g, BTC)
    ensures KeyOf(g, a) == KeyOf(g, b) <==> Connected(g.sameOwner, a, b)
  {
    hide Active, Connected;
    if Connected(g.sameOwner, a, b) {
      ComponentsAgree(g, a, b);
    }
    if KeyOf(g, a) == KeyOf(g, b) {
      var m := KeyMeans(g, a);
      var n := KeyMeans(g, b);
      PrefixesDiffer(BTC, m.norm, BTC, n.norm);
      assert m == n;
      ConnectedSym(g.sameOwner, b, n);
      ConnectedTrans(g.sameOwner, a, n, b);
    }
  }

  lemma ActivityUnaffected(g: Graph, h: Graph)
    requires h == g.(members := h.members, clusters := h.clusters)
    ensures forall a :: Active(h, a) <==> Active(g, a)
    ensures forall c :: ActiveOn(h, c) == ActiveOn(g, c)
  {
    forall a ensures Active(h, a) <==> Active(g, a) { assert HasEdges(h, a) == HasEdges(g, a); }
  }

  /** Activity and keys read nothing a resolver pass writes. */
  lemma KeysUnaffected(g: Graph, h: Graph)
    requires h == g.(members := h.members, clusters := h.clusters)
    ensures forall a :: Active(h, a) <==> Active(g, a)
    ensures forall c :: ActiveOn(h, c) == ActiveOn(g, c)
    ensures forall a :: a in ActiveOn(g, BTC) ==> KeyOf(h, a) == KeyOf(g, a)
    ensures KeysInUse(h) == KeysInUse(g)
    ensures forall k :: Gathered(h, k) == Gathered(g, k)
  {
    ActivityUnaffected(g, h);
    hide AtMost, Connected, Active;
    forall a | a in ActiveOn(g, BTC) ensures KeyOf(h, a) == KeyOf(g, a) {
      assert Component(h, a) == Component(g, a);
    }
  }

  // ---------------------------------------------------------------------------
  // The resolver
  // ---------------------------------------------------------------------------

  lemma BitcoinMembersActive(g: Graph, m: Membership)
    requires MembersSound(g) && m in g.members && m.addr.chain == BTC
    ensures m.addr in ActiveOn(g, BTC)
  {
    hide Active;
    assert MemberSound(g, m);
  }

  /** A membership after a pass: an active Bitcoin address under its key, or an old one of another chain. */
  lemma MemberAfter(g: Graph, m: Membership)
    requires MembersSound(g)
    ensures m in MembersAfter(g)
       <==> (if m.addr.chain == BTC then m.addr in ActiveOn(g, BTC) && m.key == KeyOf(g, m.addr) else m in g.members)
  {
    hide Active, KeyOf, MembersSound;
    if m in g.members && m.addr.chain == BTC { BitcoinMembersActive(g, m); }
  }

  /** A key in use is a Bitcoin key, and no membership of another chain has it. */
  lemma KeysInUseAreBitcoin(g: Graph, k: string)
    requires Inv(g) && k in KeysInUse(g)
    ensures k in g.clusters ==> g.clusters[k].chain == BTC
    ensures forall m :: m in g.members && m.addr.chain != BTC ==> m.key != k
  {
    hide Active, Connected, KeyOf, EdgesAnchored, OwnersActive, OneCluster;
    var a :| a in ActiveOn(g, BTC) && KeyOf(g, a) == k;
    var n := KeyMeans(g, a);
    if k in g.clusters {
      assert ClusterSound(g, k);
      var x: string :| k == Prefix(g.clusters[k].chain) + x;
      PrefixesDiffer(BTC, n.norm, g.clusters[k].chain, x);
    }
    forall m | m in g.members && m.addr.chain != BTC ensures m.key != k {
      assert MemberSound(g, m);
      if m.key == k { PrefixesDiffer(BTC, n.norm, m.addr.chain, m.addr.norm); }
    }
  }

  /** A written Bitcoin cluster that survives pruning: its key is in use, and its members are the
      addresses gathered under it. */
  lemma SurvivingCluster(g: Graph, k: string)
    requires Inv(g) && k in ClustersWritten(g) && ClustersWritten(g)[k].chain == BTC
    requires Inhabited(MembersAfter(g), k)
    ensures k in KeysInUse(g)
  {
    hide Active, Connected, KeyOf, EdgesAnchored, OwnersActive, OneCluster, ClustersSound, MembersAfter, Gathered;
    var m :| m in MembersAfter(g) && m.key == k;
    MemberAfter(g, m);
    if m.addr.chain != BTC {
      assert MemberSound(g, m);
      if k in KeysInUse(g) { KeysInUseAreBitcoin(g, k); }
    }
  }

  lemma GatheredAreMembers(g: Graph, h: Graph, k: string)
    requires Inv(g) && h == ResolveUtxo(g) && ActiveOn(g, BTC) != {} && k in KeysInUse(g)
    ensures MembersOf(h, k) == Gathered(g, k) != {}
  {
    hide Active, Connected, KeyOf, EdgesAnchored, OwnersActive, OneCluster, ClustersSound, MembersAfter, ClustersWritten, Pruned;
    KeysInUseAreBitcoin(g, k);
    forall a ensures a in MembersOf(h, k) <==> a in Gathered(g, k) {
      MemberAfter(g, Membership(a, k));
      assert a in MembersOf(h, k) <==> Membership(a, k) in h.members by {
        if a in MembersOf(h, k) { var m :| m in h.members && m.key == k && m.addr == a; assert m == Membership(a, k); }
        if Membership(a, k) in h.members { assert Membership(a, k).addr == a; }
      }
    }
    var a :| a in ActiveOn(g, BTC) && KeyOf(g, a) == k;
    assert a in Gathered(g, k);
  }

  lemma NonEmptySet<T>(s: set<T>)
    requires s != {}
    ensures |s| > 0
  {}

  lemma ResolvedClusters(g: Graph, h: Graph, k: string)
    requires Inv(g) && h == ResolveUtxo(g) && ActiveOn(g, BTC) != {} && k in h.clusters
    ensures ClusterSound(h, k)
    ensures k !in KeysInUse(g) ==> k in g.clusters && h.clusters[k] == g.clusters[k]
  {
    hide Active, Connected, KeyOf, EdgesAnchored, OwnersActive, OneCluster, MembersAfter, Gathered, MembersSound, Inhabited;
    if k in KeysInUse(g) {
      KeysInUseAreBitcoin(g, k);
      GatheredAreMembers(g, h, k);
      NonEmptySet(MembersOf(h, k));
      var a :| a in ActiveOn(g, BTC) && KeyOf(g, a) == k;
      var n := KeyMeans(g, a);
      assert k == Prefix(BTC) + n.norm;
    } else {
      assert ClusterSound(g, k);
      assert h.clusters[k] == g.clusters[k];
      if h.clusters[k].chain == BTC {
        SurvivingCluster(g, k);
      }
    }
  }

  lemma ResolvedMember(g: Graph, h: Graph, m: Membership)
    requires Inv(g) && h == ResolveUtxo(g) && ActiveOn(g, BTC) != {} && m in h.members
    ensures MemberSound(h, m)
  {
    hide Active, Connected, KeyOf, EdgesAnchored, OwnersActive, OneCluster, MembersAfter, Gathered, ClustersSound, Inhabited;
    KeysUnaffected(g, h);
    MemberAfter(g, m);
    assert Inhabited(h.members, m.key) by { IsInhabited(h.members, m); }
    if m.addr.chain == BTC {
      assert m.key in KeysInUse(g);
      KeysInUseAreBitcoin(g, m.key);
      var n := KeyMeans(g, m.addr);
      assert Names(h, m, n);
    } else {
      assert MemberSound(g, m);
      if m.key in KeysInUse(g) { KeysInUseAreBitcoin(g, m.key); }
    }
  }

  lemma IsInhabited(members: map<Membership, Heuristic>, m: Membership)
    requires m in members
    ensures Inhabited(members, m.key)
  {}

  lemma ResolveUtxoKeepsInv(g: Graph)
    requires Inv(g)
    ensures Inv(ResolveUtxo(g))
  {
    hide Active, Connected, KeyOf, MembersAfter, ClustersWritten, Pruned, MemberSound, ClusterSound;
    var h := ResolveUtxo(g);
    if ActiveOn(g, BTC) != {} {
      KeysUnaffected(g, h);
      assert EdgesAnchored(h) && OwnersActive(h);
      forall m | m in h.members ensures MemberSound(h, m) { ResolvedMember(g, h, m); }
      forall m, n | m in h.members && n in h.members && m.addr == n.addr ensures m == n {
        MemberAfter(g, m);
        MemberAfter(g, n);
      }
      forall k | k in h.clusters ensures ClusterSound(h, k) { ResolvedClusters(g, h, k); }
    }
  }
}
