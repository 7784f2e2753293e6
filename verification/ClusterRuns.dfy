/** Clustering over whole runs: any interleaving of writes, tag seeds and clustering statements. */
module ClusterRuns {
  import opened Text
  import opened Chains
  import opened GraphState
  import opened Ownership
  import opened Clustering
  import opened ChangeHistory
  import opened ClusterInvariant

  // ---------------------------------------------------------------------------
  // The account-model branch
  // ---------------------------------------------------------------------------

  lemma AccountMember(g: Graph, chain: Chain, m: Membership)
    ensures m in ResolveAccount(g, chain).members
       <==> m in g.members || (m.addr in ActiveOn(g, chain) && m.key == SingleKey(m.addr))
  {
    hide Active, ActiveOn, SingleKey;
  }

  lemma AccountKeepsInv(g: Graph, chain: Chain)
    requires Inv(g) && chain != BTC
    ensures Inv(ResolveAccount(g, chain))
  {
    hide Active, Connected, MemberSound, ClusterSound, SingleKey;
    var h := ResolveAccount(g, chain);
    KeysUnaffected(g, h);
    assert EdgesAnchored(h) && OwnersActive(h);
    forall m | m in h.members ensures MemberSound(h, m) { AccountMemberSound(g, chain, m); }
    forall m, n | m in h.members && n in h.members && m.addr == n.addr ensures m == n {
      AccountMember(g, chain, m);
      AccountMember(g, chain, n);
      AccountKey(g, chain, m);
      AccountKey(g, chain, n);
    }
    forall k | k in h.clusters ensures ClusterSound(h, k) { AccountClusterSound(g, chain, k); }
  }

  /** A membership of an active account-chain address, old or new, has the address's own key. */
  lemma AccountKey(g: Graph, chain: Chain, m: Membership)
    requires Inv(g) && chain != BTC
    ensures m in g.members && m.addr.chain == chain ==> m.key == SingleKey(m.addr)
  {
    hide Active, Connected, SingleKey;
    if m in g.members { assert MemberSound(g, m); }
  }

  lemma AccountMemberSound(g: Graph, chain: Chain, m: Membership)
    requires Inv(g) && chain != BTC && m in ResolveAccount(g, chain).members
    ensures MemberSound(ResolveAccount(g, chain), m)
  {
    hide Active, Connected, EdgesAnchored, OwnersActive, OneCluster;
    var h := ResolveAccount(g, chain);
    ActivityUnaffected(g, h);
    AccountMember(g, chain, m);
    AccountEntries(g, chain);
    AccountNewCluster(g, chain, m.key);
    AccountTouches(g, chain);
    hide ResolveAccount, ActiveOn;
    if m in g.members {
      assert MemberSound(g, m);
      if m.addr.chain == BTC {
        var n :| Names(g, m, n);
        assert Names(h, m, n);
      }
    } else if m.key in g.clusters {
      assert ClusterSound(g, m.key);
      var x: string :| m.key == Prefix(g.clusters[m.key].chain) + x;
      PrefixesDiffer(chain, m.addr.norm, g.clusters[m.key].chain, x);
    }
  }

  lemma AccountNewCluster(g: Graph, chain: Chain, k: string)
    ensures var h := ResolveAccount(g, chain);
            k in h.clusters && k !in g.clusters ==> h.clusters[k] == Cluster(chain, AccountSingle, 1)
  {
    hide ActiveOn, SingleKey;
  }

  lemma AccountClusterSound(g: Graph, chain: Chain, k: string)
    requires Inv(g) && chain != BTC && k in ResolveAccount(g, chain).clusters
    ensures ClusterSound(ResolveAccount(g, chain), k)
  {
    hide Active, Connected, EdgesAnchored, OwnersActive, OneCluster, MembersSound, MembersOf;
    var h := ResolveAccount(g, chain);
    if k in g.clusters {
      assert ClusterSound(g, k);
      if g.clusters[k].chain == BTC { AccountLeavesBitcoin(g, chain, k); }
    } else {
      var a :| a in ActiveOn(g, chain) && SingleKey(a) == k;
      assert k == Prefix(chain) + a.norm;
    }
  }

  /** The members of a Bitcoin cluster are the same after an account-chain pass. */
  lemma AccountLeavesBitcoin(g: Graph, chain: Chain, k: string)
    requires ClustersSound(g) && chain != BTC && k in g.clusters && g.clusters[k].chain == BTC
    ensures MembersOf(ResolveAccount(g, chain), k) == MembersOf(g, k)
  {
    hide Active, Connected;
    var h := ResolveAccount(g, chain);
    assert ClusterSound(g, k);
    var x: string :| k == Prefix(BTC) + x;
    forall m: Membership | m.key == k ensures m in h.members <==> m in g.members {
      AccountMember(g, chain, m);
      if m.addr in ActiveOn(g, chain) && m.key == SingleKey(m.addr) { PrefixesDiffer(BTC, x, chain, m.addr.norm); }
    }
    forall a ensures a in MembersOf(h, k) <==> a in MembersOf(g, k) {
      if a in MembersOf(h, k) { var m :| m in h.members && m.key == k && m.addr == a; assert m in g.members; }
      if a in MembersOf(g, k) { var m :| m in g.members && m.key == k && m.addr == a; assert m in h.members; }
    }
  }

  // ---------------------------------------------------------------------------
  // Every state of every run
  // ---------------------------------------------------------------------------

  lemma StepKeepsInv(g: Graph, e: Event)
    requires Inv(g)
    ensures Inv(Step(g, e))
  {
    hide Inv, MergeAll, Refresh, SeedTag, ApplyCommonInput, ApplyChange, ResolveUtxo, ResolveAccount;
    match e {
      case Merge(rs) => MergeKeepsInv(g, rs);
      case RefreshCounts(c) => RefreshKeepsInv(g, {c});
      case Seed(a) => SeedKeepsInv(g, a);
      case CommonInputPass(c) => CommonInputKeepsInv(g, c);
      case ChangePass(c) => ChangeKeepsInv(g, c);
      case ResolvePass(c) => if c == BTC { ResolveUtxoKeepsInv(g); } else { AccountKeepsInv(g, c); }
    }
  }

  lemma {:induction false} RunKeepsInv(g: Graph, es: seq<Event>)
    requires Inv(g)
    ensures Inv(Run(g, es))
  {
    hide Inv, Step;
    if es != [] {
      RunKeepsInv(g, es[..|es| - 1]);
      StepKeepsInv(Run(g, es[..|es| - 1]), es[|es| - 1]);
    }
  }

  lemma {:induction false} RunAppend(g: Graph, a: seq<Event>, b: seq<Event>)
    ensures Run(g, a + b) == Run(Run(g, a), b)
    decreases |b|
  {
    hide Step;
    if b == [] {
      assert a + b == a;
    } else {
      assert (a + b)[..|a + b| - 1] == a + b[..|b| - 1];
      RunAppend(g, a, b[..|b| - 1]);
    }
  }

  /** The state after `es`, from an empty database. */
  ghost function After(es: seq<Event>): Graph { Run(EmptyGraph, es) }

  lemma AfterInv(es: seq<Event>)
    ensures Inv(After(es))
  {
    hide Inv;
    InvEmpty();
    RunKeepsInv(EmptyGraph, es);
  }

  // ---------------------------------------------------------------------------
  // A write is a run of its batches and refreshes
  // ---------------------------------------------------------------------------

  /** The database transactions of one `write_transactions`. */
  function WriterEvents(batches: seq<seq<Record>>, chains: seq<Chain>): seq<Event> {
    seq(|batches|, i requires 0 <= i < |batches| => Merge(batches[i]))
    + seq(|chains|, i requires 0 <= i < |chains| => RefreshCounts(chains[i]))
  }

  function Flat(batches: seq<seq<Record>>): seq<Record> {
    if batches == [] then [] else Flat(batches[..|batches| - 1]) + batches[|batches| - 1]
  }

  lemma {:induction false} BatchesMerge(g: Graph, batches: seq<seq<Record>>)
    ensures Run(g, WriterEvents(batches, [])) == MergeAll(g, Flat(batches))
  {
    hide MergeAll, Step;
    if batches == [] {
      assert MergeAll(g, []) == g by { NothingMerged(g); }
    } else {
      var init, last := batches[..|batches| - 1], batches[|batches| - 1];
      BatchesMerge(g, init);
      assert WriterEvents(batches, []) == WriterEvents(init, []) + [Merge(last)];
      RunOne(g, WriterEvents(init, []), Merge(last));
      MergeStep(Run(g, WriterEvents(init, [])), last);
      MergeAllAppend(g, Flat(init), last);
    }
  }

  lemma NothingMerged(g: Graph)
    ensures MergeAll(g, []) == g
  {}

  lemma MergeStep(g: Graph, rs: seq<Record>)
    ensures Step(g, Merge(rs)) == MergeAll(g, rs)
  {}

  lemma RefreshStep(g: Graph, c: Chain)
    ensures Step(g, RefreshCounts(c)) == Refresh(g, {c})
  {}

  /** However the records are cut into batches and in whatever order the chains are refreshed, an
      undisturbed write is the one transition of the writer. */
  lemma {:induction false} WriteIsARun(g: Graph, batches: seq<seq<Record>>, chains: seq<Chain>)
    ensures Run(g, WriterEvents(batches, chains)) == Refresh(MergeAll(g, Flat(batches)), set c | c in chains)
    decreases |chains|
  {
    hide MergeAll, Step, Refresh;
    var h := MergeAll(g, Flat(batches));
    if chains == [] {
      BatchesMerge(g, batches);
      NothingRefreshed(h);
      assert (set c | c in chains) == {};
    } else {
      var init, last := chains[..|chains| - 1], chains[|chains| - 1];
      WriteIsARun(g, batches, init);
      assert WriterEvents(batches, chains) == WriterEvents(batches, init) + [RefreshCounts(last)];
      RunOne(g, WriterEvents(batches, init), RefreshCounts(last));
      RefreshStep(Run(g, WriterEvents(batches, init)), last);
      RefreshOneMore(h, (set c | c in init), last);
      assert (set c | c in chains) == (set c | c in init) + {last};
    }
  }

  // ---------------------------------------------------------------------------
  // Right after a UTXO pass
  // ---------------------------------------------------------------------------

  ghost predicate MemberOf(g: Graph, a: AddrId, k: string) { Membership(a, k) in g.members }

  /** Every active address is a member under its own key, and of nothing else. */
  ghost predicate OwnMembers(g: Graph) {
    forall a: AddrId, k :: a.chain == BTC ==> (MemberOf(g, a, k) <==> a in ActiveOn(g, BTC) && k == KeyOf(g, a))
  }

  /** Clusters and connectedness agree. */
  ghost predicate MatesAreConnected(g: Graph) {
    forall a, b :: a in ActiveOn(g, BTC) && b in ActiveOn(g, BTC) ==>
      ((exists k :: MemberOf(g, a, k) && MemberOf(g, b, k)) <==> Connected(g.sameOwner, a, b))
  }

  /** Stored sizes are memberships, and no Bitcoin cluster is empty. */
  ghost predicate SizesTrue(g: Graph) {
    forall k :: k in g.clusters && g.clusters[k].chain == BTC ==> g.clusters[k].size == |MembersOf(g, k)| > 0
  }

  /** The clusters are exactly the components of the active addresses. */
  ghost predicate Resolved(g: Graph) {
    OwnMembers(g) && MatesAreConnected(g) && SizesTrue(g)
  }

  lemma UtxoPassResolves(g: Graph)
    requires Inv(g)
    ensures Resolved(ResolveUtxo(g))
  {
    var h := ResolveUtxo(g);
    ResolveUtxoKeepsInv(g);
    ResolvedSizes(h);
    hide Inv, ActiveOn, KeyOf, ResolveUtxo, MatesAreConnected, SizesTrue, MemberOf;
    forall a: AddrId, k | a.chain == BTC ensures MemberOf(h, a, k) <==> a in ActiveOn(h, BTC) && k == KeyOf(h, a) {
      ResolvedMembership(g, a, k);
    }
    ResolvedMates(h);
  }

  lemma ResolvedMates(h: Graph)
    requires OwnMembers(h)
    ensures MatesAreConnected(h)
  {
    hide Active, KeyOf, Connected;
    forall a, b | a in ActiveOn(h, BTC) && b in ActiveOn(h, BTC)
      ensures (exists k :: MemberOf(h, a, k) && MemberOf(h, b, k)) <==> Connected(h.sameOwner, a, b)
    {
      KeysAgree(h, a, b);
      assert MemberOf(h, a, KeyOf(h, a));
    }
  }

  /** After the pass an address is a member under its own key, if it is active, and of nothing else. */
  lemma ResolvedMembership(g: Graph, a: AddrId, k: string)
    requires Inv(g) && a.chain == BTC
    ensures var h := ResolveUtxo(g); MemberOf(h, a, k) <==> a in ActiveOn(h, BTC) && k == KeyOf(h, a)
  {
    hide Active, KeyOf, MembersAfter, ClustersWritten, Pruned, EdgesAnchored, OwnersActive, OneCluster, ClustersSound;
    KeysUnaffected(g, ResolveUtxo(g));
    if ActiveOn(g, BTC) == {} {
      if MemberOf(g, a, k) { BitcoinMembersActive(g, Membership(a, k)); }
    } else {
      MemberAfter(g, Membership(a, k));
    }
  }

  lemma ResolvedSizes(h: Graph)
    requires Inv(h)
    ensures SizesTrue(h)
  {
    hide EdgesAnchored, OwnersActive, OneCluster, MembersSound, MembersOf;
    forall k | k in h.clusters && h.clusters[k].chain == BTC ensures h.clusters[k].size == |MembersOf(h, k)| > 0 {
      assert ClusterSound(h, k);
    }
  }

  /** After any run that ends in a UTXO pass, clusters are exactly the SAME_OWNER components of the
      active addresses, keyed by their smallest member, with true sizes and no empty cluster. */
  lemma ClustersAreComponents(es: seq<Event>)
    ensures Resolved(After(es + [ResolvePass(BTC)]))
  {
    hide Inv, Resolved, ResolveUtxo;
    AfterInv(es);
    UtxoPassResolves(After(es));
    RunOne(EmptyGraph, es, ResolvePass(BTC));
  }

  lemma RunOne(g: Graph, es: seq<Event>, e: Event)
    ensures Run(g, es + [e]) == Step(Run(g, es), e)
  {
    hide Step;
    assert (es + [e])[..|es|] == es;
  }

  // ---------------------------------------------------------------------------
  // Clusters only coarsen
  // ---------------------------------------------------------------------------

  ghost predicate Together(g: Graph, a: AddrId, b: AddrId) {
    exists k :: MemberOf(g, a, k) && MemberOf(g, b, k)
  }

  /** Only resolver passes write memberships. */
  lemma QuietSteps(g: Graph, e: Event)
    requires Inv(g) && !e.ResolvePass?
    ensures Step(g, e).members == g.members
  {
    hide MergeAll, Refresh, EdgesAnchored, OwnersActive, MembersSound, OneCluster, ClustersSound,
         CommonInputEdges, ChangeEdges, FlagChange;
    if e.Merge? { MergeAllAnchors(g, e.records); }
    if e.RefreshCounts? { RefreshTouches(g, {e.chain}); }
  }

  lemma RefreshTouches(g: Graph, chains: set<Chain>)
    ensures var h := Refresh(g, chains); h == g.(addrs := h.addrs)
  {
    hide SentCount, ReceivedCount;
  }

  /** A membership survives every step, possibly under a smaller key. */
  lemma KeyNeverGrows(g: Graph, e: Event, a: AddrId, k: string)
    requires Inv(g) && MemberOf(g, a, k)
    ensures exists k' :: MemberOf(Step(g, e), a, k') && AtMost(k', k)
  {
    hide ResolveUtxo, ResolveAccount, AtMost, Inv, MergeAll, Refresh;
    SelfAtMost(k);
    var h := Step(g, e);
    if !e.ResolvePass? {
      QuietSteps(g, e);
      assert MemberOf(h, a, k);
    } else if e.chain != BTC {
      AccountMember(g, e.chain, Membership(a, k));
      assert MemberOf(h, a, k);
    } else {
      ResolvedKey(g, a, k);
    }
  }

  lemma SelfAtMost(k: string)
    ensures AtMost(k, k)
  {}

  lemma ResolvedKey(g: Graph, a: AddrId, k: string)
    requires Inv(g) && MemberOf(g, a, k)
    ensures exists k' :: MemberOf(ResolveUtxo(g), a, k') && AtMost(k', k)
  {
    hide Active, Connected, KeyOf, MembersAfter, ClustersWritten, Pruned, AtMost, EdgesAnchored, OwnersActive, OneCluster, ClustersSound;
    var h, m := ResolveUtxo(g), Membership(a, k);
    SelfAtMost(k);
    if ActiveOn(g, BTC) == {} {
      assert MemberOf(h, a, k);
    } else if a.chain == BTC {
      BitcoinMembersActive(g, m);
      MemberAfter(g, Membership(a, KeyOf(g, a)));
      assert MemberOf(h, a, KeyOf(g, a));
      SmallerKey(g, m);
    } else {
      MemberAfter(g, m);
      assert MemberOf(h, a, k);
    }
  }

  lemma SmallerKey(g: Graph, m: Membership)
    requires MembersSound(g) && m in g.members && m.addr.chain == BTC && m.addr in ActiveOn(g, BTC)
    ensures AtMost(KeyOf(g, m.addr), m.key)
  {
    hide Connected, KeyOf, Active, Less;
    assert MemberSound(g, m);
    var n :| Names(g, m, n);
    var s := KeyMeans(g, m.addr);
    assert AtMost(s.norm, n.norm);
    LessAfterPrefix(Prefix(BTC), s.norm, n.norm);
  }

  /** Addresses in one cluster stay in one cluster through every step. */
  lemma StepKeepsTogether(g: Graph, e: Event, a: AddrId, b: AddrId)
    requires Inv(g) && Together(g, a, b)
    ensures Together(Step(g, e), a, b)
  {
    hide ResolveUtxo, ResolveAccount, Inv, MergeAll, Refresh;
    var k :| MemberOf(g, a, k) && MemberOf(g, b, k);
    var h := Step(g, e);
    if !e.ResolvePass? {
      QuietSteps(g, e);
      assert MemberOf(h, a, k);
    } else if e.chain != BTC {
      AccountMember(g, e.chain, Membership(a, k));
      AccountMember(g, e.chain, Membership(b, k));
      assert MemberOf(h, a, k) && MemberOf(h, b, k);
    } else {
      ResolveKeepsTogether(g, a, b, k);
    }
  }

  lemma ResolveKeepsTogether(g: Graph, a: AddrId, b: AddrId, k: string)
    requires Inv(g) && MemberOf(g, a, k) && MemberOf(g, b, k)
    ensures Together(ResolveUtxo(g), a, b)
  {
    hide Active, Connected, KeyOf, MembersAfter, ClustersWritten, Pruned, EdgesAnchored, OwnersActive, OneCluster, ClustersSound;
    var h, ma, mb := ResolveUtxo(g), Membership(a, k), Membership(b, k);
    SameChain(g, ma, mb);
    if ActiveOn(g, BTC) == {} {
      assert MemberOf(h, a, k);
    } else if a.chain == BTC {
      BitcoinMembersActive(g, ma);
      BitcoinMembersActive(g, mb);
      ClusterMatesConnected(g, ma, mb);
      KeysAgree(g, a, b);
      MemberAfter(g, Membership(a, KeyOf(g, a)));
      MemberAfter(g, Membership(b, KeyOf(g, b)));
      assert MemberOf(h, a, KeyOf(g, a)) && MemberOf(h, b, KeyOf(g, b));
    } else {
      MemberAfter(g, ma);
      MemberAfter(g, mb);
      assert MemberOf(h, a, k) && MemberOf(h, b, k);
    }
  }

  lemma SameChain(g: Graph, m: Membership, n: Membership)
    requires MembersSound(g) && m in g.members && n in g.members && m.key == n.key
    ensures m.addr.chain == n.addr.chain
  {
    hide Active, Connected;
    assert MemberSound(g, m) && MemberSound(g, n);
  }

  /** In every state, not only after a pass, cluster mates are connected by SAME_OWNER edges. */
  lemma ClusterMatesConnected(g: Graph, m: Membership, n: Membership)
    requires MembersSound(g) && m in g.members && n in g.members && m.key == n.key
    requires m.addr.chain == BTC && n.addr.chain == BTC
    ensures Connected(g.sameOwner, m.addr, n.addr)
  {
    hide Active, Connected;
    assert MemberSound(g, m) && MemberSound(g, n);
    var x :| Names(g, m, x);
    var y :| Names(g, n, y);
    PrefixesDiffer(BTC, x.norm, BTC, y.norm);
    ConnectedSym(g.sameOwner, n.addr, y);
    ConnectedTrans(g.sameOwner, m.addr, x, n.addr);
  }

  /** Over any run: addresses once together stay together, and an address's key, once it has one,
      never becomes lexicographically larger. */
  lemma {:induction false} ClustersOnlyCoarsen(es: seq<Event>, more: seq<Event>, a: AddrId, b: AddrId, k: string)
    requires MemberOf(After(es), a, k)
    ensures exists k' :: MemberOf(After(es + more), a, k') && AtMost(k', k)
    ensures Together(After(es), a, b) ==> Together(After(es + more), a, b)
    decreases |more|
  {
    hide Inv, Step, MemberOf, AtMost, Together;
    if more == [] {
      assert es + more == es;
      SelfAtMost(k);
    } else {
      var init, last := more[..|more| - 1], more[|more| - 1];
      ClustersOnlyCoarsen(es, init, a, b, k);
      AfterInv(es + init);
      var g := After(es + init);
      var k1 :| MemberOf(g, a, k1) && AtMost(k1, k);
      KeyNeverGrows(g, last, a, k1);
      var k2 :| MemberOf(Step(g, last), a, k2) && AtMost(k2, k1);
      AtMostTransitive(k2, k1, k);
      if Together(g, a, b) { StepKeepsTogether(g, last, a, b); }
      assert es + more == (es + init) + [last];
      RunOne(EmptyGraph, es + init, last);
    }
  }

  // ---------------------------------------------------------------------------
  // A second pass changes nothing
  // ---------------------------------------------------------------------------

  lemma ResolveUtxoTwice(g: Graph)
    requires Inv(g)
    ensures ResolveUtxo(ResolveUtxo(g)) == ResolveUtxo(g)
  {
    var h := ResolveUtxo(g);
    if ActiveOn(g, BTC) != {} {
      hide Active, Connected, KeyOf, Inv, MembersAfter, ClustersWritten, Pruned;
      KeysUnaffected(g, h);
      ResolveUtxoKeepsInv(g);
      MembersStable(g, h);
      ClustersStable(g, h);
    }
  }

  lemma MembersStable(g: Graph, h: Graph)
    requires Inv(g) && Inv(h) && h == ResolveUtxo(g) && ActiveOn(g, BTC) != {}
    ensures MembersAfter(h) == h.members
  {
    hide Active, Connected, KeyOf, EdgesAnchored, OwnersActive, OneCluster, ClustersSound, MembersSound, Gathered, ClustersWritten, Pruned;
    KeysUnaffected(g, h);
    forall m ensures m in MembersAfter(h) <==> m in h.members {
      MemberAfter(g, m);
      MemberAfter(h, m);
    }
    assert MembersAfter(h).Keys == h.members.Keys;
    forall m | m in h.members ensures MembersAfter(h)[m] == h.members[m] {}
  }

  lemma ClustersStable(g: Graph, h: Graph)
    requires Inv(g) && Inv(h) && h == ResolveUtxo(g) && ActiveOn(g, BTC) != {}
    requires MembersAfter(h) == h.members
    ensures Pruned(ClustersWritten(h), MembersAfter(h), BTC) == h.clusters
  {
    hide Active, Connected, KeyOf, Inv, MembersAfter, ClustersWritten, Gathered, ActiveOn, ResolveUtxo;
    WrittenStable(g, h);
    forall k | k in h.clusters && h.clusters[k].chain == BTC ensures Inhabited(h.members, k) { StillInhabited(h, k); }
  }

  lemma StillInhabited(h: Graph, k: string)
    requires Inv(h) && k in h.clusters && h.clusters[k].chain == BTC
    ensures Inhabited(h.members, k)
  {
    hide EdgesAnchored, OwnersActive, OneCluster, MembersSound;
    assert ClusterSound(h, k);
    var a :| a in MembersOf(h, k);
  }

  lemma WrittenStable(g: Graph, h: Graph)
    requires Inv(g) && h == ResolveUtxo(g) && ActiveOn(g, BTC) != {}
    ensures ClustersWritten(h) == h.clusters
  {
    hide Active, Connected, KeyOf, Inv, MembersAfter, Pruned, ActiveOn;
    SameUse(g, h);
    hide ResolveUtxo, Gathered, KeysInUse;
    forall k | k in KeysInUse(h) ensures k in h.clusters && h.clusters[k].size == |Gathered(h, k)| {
      InUseSurvives(g, h, k);
    }
  }

  lemma SameUse(g: Graph, h: Graph)
    requires h == ResolveUtxo(g)
    ensures KeysInUse(h) == KeysInUse(g) && forall k :: Gathered(h, k) == Gathered(g, k)
  {
    hide Active, KeyOf, MembersAfter, ClustersWritten, Pruned, ActiveOn, Gathered, KeysInUse;
    KeysUnaffected(g, h);
  }

  lemma InUseSurvives(g: Graph, h: Graph, k: string)
    requires Inv(g) && h == ResolveUtxo(g) && ActiveOn(g, BTC) != {} && k in KeysInUse(g)
    ensures k in h.clusters && h.clusters[k].size == |Gathered(g, k)| && Inhabited(h.members, k)
  {
    hide Active, Connected, KeyOf, EdgesAnchored, OwnersActive, OneCluster, MembersSound, MembersAfter, Gathered;
    var a :| a in ActiveOn(g, BTC) && KeyOf(g, a) == k;
    MemberAfter(g, Membership(a, k));
    IsInhabited(h.members, Membership(a, k));
  }

  lemma AccountTwice(g: Graph, chain: Chain)
    ensures ResolveAccount(ResolveAccount(g, chain), chain) == ResolveAccount(g, chain)
  {
    hide *;
    var h := ResolveAccount(g, chain);
    AccountTouches(g, chain);
    SameActive(g, h, chain);
    AccountEntries(g, chain);
    AccountEntries(h, chain);
    AccountTouches(h, chain);
    var h2 := ResolveAccount(h, chain);
    assert h2.clusters == h.clusters;
    assert h2.members == h.members;
  }

  lemma SameActive(g: Graph, h: Graph, chain: Chain)
    requires h == g.(members := h.members, clusters := h.clusters)
    ensures ActiveOn(h, chain) == ActiveOn(g, chain)
  {
    ActivityUnaffected(g, h);
  }

  lemma AccountTouches(g: Graph, chain: Chain)
    ensures var h := ResolveAccount(g, chain); h == g.(members := h.members, clusters := h.clusters)
  {
    hide ActiveOn;
  }

  /** The entries an account pass leaves: the old ones as they were, and one per active address. */
  lemma AccountEntries(g: Graph, chain: Chain)
    ensures var h, act := ResolveAccount(g, chain), ActiveOn(g, chain);
            && (forall k :: k in h.clusters <==> k in g.clusters || exists a :: a in act && SingleKey(a) == k)
            && (forall k :: k in g.clusters ==> h.clusters[k] == g.clusters[k])
            && (forall m :: m in h.members <==> m in g.members || (m.addr in act && m.key == SingleKey(m.addr)))
            && (forall m :: m in g.members ==> h.members[m] == g.members[m])
  {
    hide ActiveOn, SingleKey;
  }

  /** The heuristics read nothing that a pass writes, so they select the same again. */
  lemma HeuristicsUnaffected(g: Graph, h: Graph)
    requires h == g.(received := h.received, sameOwner := h.sameOwner, members := h.members, clusters := h.clusters)
    requires h.received.Keys == g.received.Keys
    ensures CommonInputEdges(h) == CommonInputEdges(g)
    ensures forall e :: SelectsChange(h, e) <==> SelectsChange(g, e)
    ensures ChangeEdges(h) == ChangeEdges(g)
  {
    forall t ensures Rows(h, t) == Rows(g, t) && FreshRows(h, t) == FreshRows(g, t) {
      assert forall e :: SpentBack(h, e) == SpentBack(g, e);
      assert forall a :: Debut(h, a, t) == Debut(g, a, t);
      assert Rows(h, t) == Rows(g, t);
    }
    hide Rows, FreshRows;
    forall e ensures SelectsChange(h, e) <==> SelectsChange(g, e) {}
    hide SelectsChange;
    assert ChangeEdges(h) == ChangeEdges(g);
  }

  /** `run_clustering` twice with no write between is `run_clustering` once. */
  lemma RunClusteringTwice(g: Graph, chain: Chain)
    requires Inv(g)
    ensures RunClustering(RunClustering(g, chain), chain) == RunClustering(g, chain)
  {
    hide Inv, CommonInputEdges, ChangeEdges, SelectsChange, ResolveUtxo, ResolveAccount;
    if chain != BTC {
      AccountTwice(g, chain);
    } else {
      var c := ApplyCommonInput(g, chain);
      var d := ApplyChange(c, chain);
      var h := ResolveUtxo(d);
      CommonInputKeepsInv(g, chain);
      ChangeKeepsInv(c, chain);
      ResolveUtxoTwice(d);
      ResolveTouches(d);
      HeuristicsUnaffected(c, g);
      HeuristicsUnaffected(c, h);
      assert h.sameOwner + CommonInputEdges(h) == h.sameOwner;
      assert ApplyCommonInput(h, chain) == h;
      assert h.sameOwner + ChangeEdges(h) == h.sameOwner;
      assert FlagChange(h) == h.received;
      assert ApplyChange(h, chain) == h;
    }
  }

  lemma ResolveTouches(g: Graph)
    ensures var h := ResolveUtxo(g); h == g.(members := h.members, clusters := h.clusters)
  {
    hide MembersAfter, ClustersWritten, Pruned, ActiveOn;
  }

  // ---------------------------------------------------------------------------
  // Change outputs over whole runs
  // ---------------------------------------------------------------------------

  /** However writes and passes interleave, the heuristic never selects two different outputs of one
      transaction. */
  lemma OneChangeOutputEver(es: seq<Event>, more: seq<Event>, e: RecvEdge, e': RecvEdge)
    requires e.tx == e'.tx
    requires SelectsChange(After(es), e) && SelectsChange(After(es + more), e')
    ensures e == e'
  {
    hide SelectsChange, Grew, EdgesAnchored;
    AfterInv(es);
    RunAppend(EmptyGraph, es, more);
    RunGrows(After(es), more);
    SelectionIsStable(After(es), After(es + more), e, e');
  }

  lemma SelectedIsReceived(g: Graph, e: RecvEdge)
    requires SelectsChange(g, e)
    ensures e in g.received
  {}

  // ---------------------------------------------------------------------------
  // What a full pass concludes
  // ---------------------------------------------------------------------------

  lemma OwnersTogether(g: Graph, e: OwnerEdge)
    requires Inv(g) && e in g.sameOwner
    ensures Together(ResolveUtxo(g), e.a, e.b)
  {
    hide Active, Connected, KeyOf, EdgesAnchored, MembersSound, OneCluster, ClustersSound, MembersAfter, ClustersWritten, Pruned;
    ConnectedEdge(g.sameOwner, e);
    UtxoPassResolves(g);
    var h := ResolveUtxo(g);
    ResolveTouches(g);
    ActivityUnaffected(g, h);
    assert e.a in ActiveOn(h, BTC) && e.b in ActiveOn(h, BTC);
  }

  /** After `run_clustering` two Bitcoin addresses that ever spent into one transaction share a
      cluster, and so do a selected change output and every address that paid into its transaction. */
  lemma PassJoinsOwners(g: Graph, s: SentEdge, t: SentEdge, e: RecvEdge)
    requires Inv(g) && s in g.sent && s.tx.chain == BTC && s.from != t.from
    ensures t in g.sent && t.tx == s.tx ==> Together(RunClustering(g, BTC), s.from, t.from)
    ensures SelectsChange(g, e) && e.tx == s.tx && e.to != s.from ==> Together(RunClustering(g, BTC), s.from, e.to)
  {
    hide SelectsChange, ResolveUtxo, Together, Active, MembersSound, OneCluster, ClustersSound, OwnersActive, Less;
    var c := ApplyCommonInput(g, BTC);
    var d := ApplyChange(c, BTC);
    CommonInputKeepsInv(g, BTC);
    ChangeKeepsInv(c, BTC);
    HeuristicsUnaffected(c, g);
    if t in g.sent && t.tx == s.tx {
      LessTotal(s.from.norm, t.from.norm);
      var o := if Less(s.from.norm, t.from.norm) then OwnerEdge(s.from, t.from, CommonInput)
               else OwnerEdge(t.from, s.from, CommonInput);
      assert o in CommonInputEdges(g);
      OwnersTogether(d, o);
      TogetherSym(ResolveUtxo(d), o.a, o.b);
    }
    if SelectsChange(g, e) && e.tx == s.tx && e.to != s.from {
      SelectedIsReceived(g, e);
      assert OwnerEdge(s.from, e.to, ChangeAddress) in ChangeEdges(c);
      OwnersTogether(d, OwnerEdge(s.from, e.to, ChangeAddress));
    }
  }

  lemma TogetherSym(g: Graph, a: AddrId, b: AddrId)
    requires Together(g, a, b)
    ensures Together(g, b, a)
  {}
}
