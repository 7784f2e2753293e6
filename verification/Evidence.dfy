/** What a cluster rests on: over any run each owner edge has the transaction that justifies it, and the
    labels a resolver pass writes follow from the members alone. */
module Evidence {
  import opened Text
  import opened Chains
  import opened GraphState
  import opened Ownership
  import opened Clustering
  import opened ChangeHistory
  import opened ClusterInvariant
  import opened ClusterRuns

  // ---------------------------------------------------------------------------
  // Owner edges
  // ---------------------------------------------------------------------------

  /** Both addresses are inputs of one Bitcoin transaction. */
  ghost predicate CoSpent(g: Graph, a: AddrId, b: AddrId) {
    exists s, t :: s in g.sent && t in g.sent && s.tx == t.tx && s.tx.chain == BTC && s.from == a && t.from == b
  }

  /** `a` spent into a Bitcoin transaction that paid `b`. */
  ghost predicate Paid(g: Graph, a: AddrId, b: AddrId) {
    exists s, r :: s in g.sent && r in g.received && s.tx == r.tx && s.tx.chain == BTC && s.from == a && r.to == b
  }

  ghost predicate Justified(g: Graph, e: OwnerEdge) {
    && e.a.norm != e.b.norm
    && match e.heuristic
       case CommonInput => CoSpent(g, e.a, e.b)
       case ChangeAddress => Paid(g, e.a, e.b)
       case AccountSingle => false
  }

  ghost predicate AllJustified(g: Graph) {
    forall e :: e in g.sameOwner ==> Justified(g, e)
  }

  lemma JustifiedGrows(g: Graph, h: Graph, e: OwnerEdge)
    requires Grew(g, h) && Justified(g, e)
    ensures Justified(h, e)
  {
    hide AddrsGrew, TxsGrew;
  }

  lemma CommonInputJustified(g: Graph, e: OwnerEdge)
    requires e in CommonInputEdges(g)
    ensures Justified(g, e)
  {
    LessIrreflexive(e.a.norm);
    hide Less;
  }

  lemma ChangeJustified(g: Graph, e: OwnerEdge)
    requires e in ChangeEdges(g)
    ensures Justified(g, e)
  {
    hide Rows, FreshRows;
    var r, s :| r in g.received && s in g.sent && SelectsChange(g, r) && s.tx == r.tx && s.from.norm != r.to.norm
                && e == OwnerEdge(s.from, r.to, ChangeAddress);
  }

  lemma StepKeepsJustified(g: Graph, e: Event)
    requires AllJustified(g)
    ensures AllJustified(Step(g, e))
  {
    var h := Step(g, e);
    StepGrows(g, e);
    forall o | o in h.sameOwner ensures Justified(h, o) {
      NewOwners(g, e, o);
      hide Justified, Grew, Step;
      if o in g.sameOwner {
        JustifiedGrows(g, h, o);
      } else if o in CommonInputEdges(g) {
        CommonInputJustified(g, o);
        JustifiedGrows(g, h, o);
      } else {
        ChangeJustified(g, o);
        JustifiedGrows(g, h, o);
      }
    }
  }

  lemma NewOwners(g: Graph, e: Event, o: OwnerEdge)
    requires o in Step(g, e).sameOwner
    ensures o in g.sameOwner || o in CommonInputEdges(g) || o in ChangeEdges(g)
  {
    hide CommonInputEdges, ChangeEdges, FlagChange, ActiveOn, MembersAfter, ClustersWritten, Pruned, MergeTx, KeyOf;
    match e {
      case Merge(rs) => MergeAllKeepsOwners(g, rs);
      case _ =>
    }
  }

  lemma {:induction false} MergeAllKeepsOwners(g: Graph, rs: seq<Record>)
    ensures MergeAll(g, rs).sameOwner == g.sameOwner
  {
    if rs != [] { MergeAllKeepsOwners(g, rs[..|rs| - 1]); }
  }

  /** However writes and passes interleave, two addresses are joined only because they were inputs of
      one Bitcoin transaction, or because one paid the other in one. */
  lemma {:induction false} OwnersAreJustified(es: seq<Event>)
    ensures AllJustified(After(es))
  {
    hide Step, AllJustified;
    if es == [] {
      assert AllJustified(EmptyGraph) by { NoOwners(); }
    } else {
      OwnersAreJustified(es[..|es| - 1]);
      StepKeepsJustified(After(es[..|es| - 1]), es[|es| - 1]);
    }
  }

  lemma NoOwners()
    ensures AllJustified(EmptyGraph)
  {}

  // ---------------------------------------------------------------------------
  // Labels of clusters and memberships
  // ---------------------------------------------------------------------------

  /** After a Bitcoin pass a membership says common input exactly when its cluster has other members,
      and every cluster the pass creates says the same; its key is "btc:" and its smallest member. */
  lemma BitcoinLabels(g: Graph, m: Membership)
    requires Inv(g) && m.addr.chain == BTC && m in ResolveUtxo(g).members
    ensures var h := ResolveUtxo(g);
            && h.members[m] == (if |MembersOf(h, m.key)| > 1 then CommonInput else AccountSingle)
            && (m.key !in g.clusters ==> m.key in h.clusters && h.clusters[m.key].heuristic == h.members[m])
  {
    hide Active, KeyOf, MembersAfter, ClustersWritten, Pruned, EdgesAnchored, OwnersActive, OneCluster, ClustersSound,
         MembersSound;
    var h := ResolveUtxo(g);
    if ActiveOn(g, BTC) == {} {
      BitcoinMembersActive(g, m);
      assert false;
    }
    assert m in h.members ==> m in MembersAfter(g);
    MemberAfter(g, m);
    LabelsOfMember(g, m);
    assert m.key in KeysInUse(g);
    GatheredAreMembers(g, h, m.key);
    IsInhabited(MembersAfter(g), m);
    LabelOfCluster(g, m.key);
    hide MembersOf, Gathered;
  }

  lemma LabelsOfMember(g: Graph, m: Membership)
    requires m in MembersAfter(g) && m.addr in ActiveOn(g, BTC)
    ensures MembersAfter(g)[m] == if |Gathered(g, m.key)| > 1 then CommonInput else AccountSingle
  {
    hide KeyOf, Gathered, ActiveOn;
  }

  lemma LabelOfCluster(g: Graph, k: string)
    requires ActiveOn(g, BTC) != {} && k in KeysInUse(g) && Inhabited(MembersAfter(g), k)
    ensures var h := ResolveUtxo(g);
            && k in h.clusters
            && (k !in g.clusters ==> h.clusters[k].heuristic == if |Gathered(g, k)| > 1 then CommonInput else AccountSingle)
  {
    hide ActiveOn, KeysInUse, Gathered, MembersAfter, Inhabited;
  }

  // ---------------------------------------------------------------------------
  // Keys in words
  // ---------------------------------------------------------------------------

  lemma PrefixesInWords()
    ensures Prefix(BTC) == "btc:" && Prefix(ETH) == "eth:single:" && Prefix(TRON) == "tron:single:"
  {}

  /** In every sound state a Bitcoin member's cluster is named after a connected active address, and
      after a pass after the smallest; an account's cluster is named after itself. */
  lemma KeysInWords(g: Graph, m: Membership)
    requires Inv(g) && m in g.members
    ensures match m.addr.chain
            case BTC => exists n: AddrId :: n.chain == BTC && Connected(g.sameOwner, m.addr, n) && m.key == "btc:" + n.norm
            case ETH => m.key == "eth:single:" + m.addr.norm
            case TRON => m.key == "tron:single:" + m.addr.norm
  {
    PrefixesInWords();
    hide Active, Connected, EdgesAnchored, OwnersActive, OneCluster, ClustersSound, Prefix;
    assert MemberSound(g, m);
    if m.addr.chain == BTC {
      var n :| Names(g, m, n);
    }
  }

  lemma KeyIsSmallest(g: Graph, a: AddrId)
    requires a in ActiveOn(g, BTC)
    ensures exists n: AddrId ::
              && n in ActiveOn(g, BTC) && Connected(g.sameOwner, a, n) && KeyOf(g, a) == "btc:" + n.norm
              && forall b :: b in ActiveOn(g, BTC) && Connected(g.sameOwner, a, b) ==> AtMost(n.norm, b.norm)
  {
    PrefixesInWords();
    var n := KeyMeans(g, a);
    hide Active, Connected, AtMost, Prefix, ActiveOn, KeyOf;
  }
}
