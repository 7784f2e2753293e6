/** The clustering statements as transitions of the graph, and the invariant every state keeps. */
module Clustering {
  import opened Options
  import opened Text
  import opened Chains
  import opened GraphState
  import opened Ownership

  // ---------------------------------------------------------------------------
  // Activity: which addresses a clustering pass considers
  // ---------------------------------------------------------------------------

  predicate HasEdges(g: Graph, a: AddrId) {
    || (exists e :: e in g.transferred && (e.from == a || e.to == a))
    || (exists e :: e in g.sent && e.from == a)
    || (exists e :: e in g.received && e.to == a)
  }

  predicate Active(g: Graph, a: AddrId) {
    a in g.addrs && (g.addrs[a].txCount > 0 || HasEdges(g, a))
  }

  function ActiveOn(g: Graph, chain: Chain): (act: set<AddrId>)
    ensures forall a :: a in act <==> a.chain == chain && Active(g, a)
  {
    set a | a in g.addrs && a.chain == chain && Active(g, a)
  }

  // ---------------------------------------------------------------------------
  // Heuristic 1: `_COMMON_INPUT`
  // ---------------------------------------------------------------------------

  function CommonInputEdges(g: Graph): set<OwnerEdge> {
    set s, t | s in g.sent && t in g.sent && s.tx == t.tx && s.tx.chain == BTC && Less(s.from.norm, t.from.norm)
             :: OwnerEdge(s.from, t.from, CommonInput)
  }

  function ApplyCommonInput(g: Graph, chain: Chain): Graph {
    if chain != BTC then g else g.(sameOwner := g.sameOwner + CommonInputEdges(g))
  }

  // ---------------------------------------------------------------------------
  // Heuristic 2: `_CHANGE_ADDRESS`
  // ---------------------------------------------------------------------------

  /** A result row of the OPTIONAL MATCH: an output, and one SENT edge of its address into the same
      transaction if there is any. */
  datatype Row = Row(out: RecvEdge, spent: Option<SentEdge>)

  function SpentBack(g: Graph, out: RecvEdge): set<SentEdge> {
    set s | s in g.sent && s.tx == out.tx && s.from == out.to
  }

  function Rows(g: Graph, t: TxId): set<Row> {
    (set e | e in g.received && e.tx == t && SpentBack(g, e) == {} :: Row(e, None))
    + (set e, s | e in g.received && e.tx == t && s in SpentBack(g, e) :: Row(e, Some(s)))
  }

  /** First seen no earlier than the transaction; null compares as unknown, which is not true. */
  predicate Debut(g: Graph, a: AddrId, t: TxId) {
    a in g.addrs && t in g.txs && g.addrs[a].firstSeen.Some? && g.addrs[a].firstSeen.value >= g.txs[t].timestamp
  }

  function FreshRows(g: Graph, t: TxId): set<Row> {
    set r | r in Rows(g, t) && Debut(g, r.out.to, t) && r.spent.None?
  }

  /** The output `e` is selected as its transaction's change. */
  predicate SelectsChange(g: Graph, e: RecvEdge) {
    && e in g.received && e.tx.chain == BTC
    && e.tx in g.txs && g.txs[e.tx].outputCount == 2
    && |Rows(g, e.tx)| == 2
    && FreshRows(g, e.tx) == {Row(e, None)}
  }

  function ChangeEdges(g: Graph): set<OwnerEdge> {
    set e, s | e in g.received && s in g.sent && SelectsChange(g, e) && s.tx == e.tx && s.from.norm != e.to.norm
             :: OwnerEdge(s.from, e.to, ChangeAddress)
  }

  function FlagChange(g: Graph): map<RecvEdge, Recv> {
    map e | e in g.received :: if SelectsChange(g, e) then g.received[e].(isChange := true) else g.received[e]
  }

  function ApplyChange(g: Graph, chain: Chain): Graph {
    if chain != BTC then g else g.(received := FlagChange(g), sameOwner := g.sameOwner + ChangeEdges(g))
  }

  // ---------------------------------------------------------------------------
  // The resolver
  // ---------------------------------------------------------------------------

  function Prefix(chain: Chain): string {
    match chain case BTC => "btc:" case ETH => "eth:single:" case TRON => "tron:single:"
  }

  /** The active members of the component of `a`. */
  ghost function Component(g: Graph, a: AddrId): set<AddrId> {
    set b | b in ActiveOn(g, BTC) && Connected(g.sameOwner, a, b)
  }

  ghost function Norms(s: set<AddrId>): set<string> { set b | b in s :: b.norm }

  /** The cluster key of an address: the prefix and the smallest member of its component. */
  ghost function KeyOf(g: Graph, a: AddrId): string
    requires a in ActiveOn(g, BTC)
  {
    ConnectedSelf(g.sameOwner, a);
    assert a.norm in Norms(Component(g, a));
    Prefix(BTC) + SmallestOf(Norms(Component(g, a)))
  }

  ghost function KeysInUse(g: Graph): set<string> {
    set a | a in ActiveOn(g, BTC) :: KeyOf(g, a)
  }

  /** The addresses one cluster key gathers. */
  ghost function Gathered(g: Graph, key: string): set<AddrId> {
    set a | a in ActiveOn(g, BTC) && KeyOf(g, a) == key
  }

  function HeuristicFor(size: nat): Heuristic { if size > 1 then CommonInput else AccountSingle }

  /** MEMBER_OF after `_WRITE_CLUSTERS`: every active address has its one new membership; memberships
      of other addresses stay. */
  ghost function MembersAfter(g: Graph): map<Membership, Heuristic> {
    map m | m in (set x | x in g.members && x.addr !in ActiveOn(g, BTC))
               + (set a | a in ActiveOn(g, BTC) :: Membership(a, KeyOf(g, a)))
      :: if m.addr in ActiveOn(g, BTC) then HeuristicFor(|Gathered(g, m.key)|) else g.members[m]
  }

  /** Cluster nodes after `_WRITE_CLUSTERS`: the heuristic is set on creation only, the size always. */
  ghost function ClustersWritten(g: Graph): map<string, Cluster> {
    map k | k in g.clusters.Keys + KeysInUse(g)
      :: if k !in KeysInUse(g) then g.clusters[k]
         else if k in g.clusters then g.clusters[k].(size := |Gathered(g, k)|)
         else Cluster(BTC, HeuristicFor(|Gathered(g, k)|), |Gathered(g, k)|)
  }

  predicate Inhabited(members: map<Membership, Heuristic>, k: string) {
    exists m :: m in members && m.key == k
  }

  /** `_PRUNE_EMPTY_CLUSTERS` */
  function Pruned(clusters: map<string, Cluster>, members: map<Membership, Heuristic>, chain: Chain): map<string, Cluster> {
    map k | k in clusters && (clusters[k].chain != chain || Inhabited(members, k)) :: clusters[k]
  }

  ghost function ResolveUtxo(g: Graph): Graph {
    if ActiveOn(g, BTC) == {} then g
    else g.(members := MembersAfter(g), clusters := Pruned(ClustersWritten(g), MembersAfter(g), BTC))
  }

  function SingleKey(a: AddrId): string { Prefix(a.chain) + a.norm }

  /** The account-model branch: every active address its own cluster, nothing deleted. */
  function ResolveAccount(g: Graph, chain: Chain): Graph {
    var act := ActiveOn(g, chain);
    var keys := set a | a in act :: SingleKey(a);
    var ms := set a | a in act :: Membership(a, SingleKey(a));
    g.(clusters := map k | k in g.clusters.Keys + keys
                     :: if k in g.clusters then g.clusters[k] else Cluster(chain, AccountSingle, 1),
       members := map m | m in g.members.Keys + ms
                    :: if m in g.members then g.members[m] else AccountSingle)
  }

  ghost function Resolve(g: Graph, chain: Chain): Graph {
    if chain == BTC then ResolveUtxo(g) else ResolveAccount(g, chain)
  }

  /** `run_clustering` */
  ghost function RunClustering(g: Graph, chain: Chain): Graph {
    Resolve(ApplyChange(ApplyCommonInput(g, chain), chain), chain)
  }

  // ---------------------------------------------------------------------------
  // Runs
  // ---------------------------------------------------------------------------

  /** Everything that happens to the graph, one database transaction at a time: a batch of the writer,
      the count refresh of one chain, the tag seed, and the three statements of a clustering pass. */
  datatype Event =
    | Merge(records: seq<Record>)
    | RefreshCounts(chain: Chain)
    | Seed(addr: AddrId)
    | CommonInputPass(chain: Chain)
    | ChangePass(chain: Chain)
    | ResolvePass(chain: Chain)

  /** The tag seed's MERGE of an address: created without `first_seen`, otherwise left as it is. */
  function SeedTag(g: Graph, a: AddrId): Graph {
    if a in g.addrs then g else g.(addrs := g.addrs[a := AddrNode(None, None, 0, {})])
  }

  ghost function Step(g: Graph, e: Event): Graph {
    match e
    case Merge(rs) => MergeAll(g, rs)
    case RefreshCounts(c) => Refresh(g, {c})
    case Seed(a) => SeedTag(g, a)
    case CommonInputPass(c) => ApplyCommonInput(g, c)
    case ChangePass(c) => ApplyChange(g, c)
    case ResolvePass(c) => Resolve(g, c)
  }

  ghost function Run(g: Graph, es: seq<Event>): Graph {
    if es == [] then g else Step(Run(g, es[..|es| - 1]), es[|es| - 1])
  }
}
