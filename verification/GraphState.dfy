/** The money graph as a value, and each write as a transition of it.

    A Cypher MERGE creates the node or edge if its key is absent and then runs ON CREATE, ON MATCH and
    SET on it; here that is one update per key, from the old entry (or none) to the new one. */
module GraphState {
  import opened Options
  import opened Chains
  import opened Transactions
  import opened Transfers

  datatype AddrId = AddrId(chain: Chain, norm: string)

  datatype TxId = TxId(chain: Chain, txid: string)

  /** `firstSeen` and `lastSeen` are null on addresses the tag seed created. */
  datatype AddrNode = AddrNode(firstSeen: Option<int>, lastSeen: Option<int>, txCount: nat, sources: set<string>)

  datatype TxNode = TxNode(
    timestamp: int,
    blockHeight: Option<nat>,
    fee: real,
    inputCount: nat,
    outputCount: nat,
    assetKey: string,
    status: Status,
    dataSource: string,
    probability: Option<real>)

  datatype SentEdge = SentEdge(from: AddrId, tx: TxId, vin: int)

  datatype RecvEdge = RecvEdge(tx: TxId, to: AddrId, vout: int)

  datatype Recv = Recv(value: real, isChange: bool)

  datatype TransferEdge = TransferEdge(from: AddrId, to: AddrId, txid: string)

  datatype TransferProps = TransferProps(
    value: real, attributed: real, timestamp: int, assetKey: string, dataSource: string)

  datatype Heuristic = CommonInput | ChangeAddress | AccountSingle

  datatype OwnerEdge = OwnerEdge(a: AddrId, b: AddrId, heuristic: Heuristic)

  datatype Membership = Membership(addr: AddrId, key: string)

  datatype Cluster = Cluster(chain: Chain, heuristic: Heuristic, size: nat)

  datatype Graph = Graph(
    addrs: map<AddrId, AddrNode>,
    txs: map<TxId, TxNode>,
    sent: map<SentEdge, real>,
    received: map<RecvEdge, Recv>,
    transferred: map<TransferEdge, TransferProps>,
    sameOwner: set<OwnerEdge>,
    members: map<Membership, Heuristic>,
    clusters: map<string, Cluster>)

  const EmptyGraph := Graph(map[], map[], map[], map[], map[], {}, map[], map[])

  /** One transaction as handed to the writer: `_tx_to_params`. */
  datatype Record = Record(tx: ChainTransaction, source: string, probability: Option<real>)

  // ---------------------------------------------------------------------------
  // Updating some keys of a map
  // ---------------------------------------------------------------------------

  function Get<K, V>(m: map<K, V>, k: K): Option<V> {
    if k in m then Some(m[k]) else None
  }

  /** Every key in `ks` gets the entry `upd` makes of its old one; the others are untouched. */
  function Apply<K, V>(m: map<K, V>, ks: set<K>, upd: (Option<V>, K) -> V): (n: map<K, V>)
    ensures n.Keys == m.Keys + ks
    ensures forall k :: k in n ==> n[k] == if k in ks then upd(Get(m, k), k) else m[k]
  {
    map k | k in m.Keys + ks :: if k in ks then upd(Get(m, k), k) else m[k]
  }

  lemma ApplyCommutes<K, V>(m: map<K, V>, ks: set<K>, upd: (Option<V>, K) -> V,
                            ls: set<K>, vpd: (Option<V>, K) -> V)
    requires forall k, o :: k in ks && k in ls ==> vpd(Some(upd(o, k)), k) == upd(Some(vpd(o, k)), k)
    ensures Apply(Apply(m, ks, upd), ls, vpd) == Apply(Apply(m, ls, vpd), ks, upd)
  {
    var a, b := Apply(Apply(m, ks, upd), ls, vpd), Apply(Apply(m, ls, vpd), ks, upd);
    forall k | k in a ensures a[k] == b[k] {}
  }

  // ---------------------------------------------------------------------------
  // What one record touches
  // ---------------------------------------------------------------------------

  function Tid(r: Record): TxId { TxId(r.tx.chain, r.tx.txid) }

  function IdOf(tx: ChainTransaction, io: TxIO): AddrId { AddrId(tx.chain, NormOf(tx.chain, io)) }

  function Ends(tx: ChainTransaction, ios: seq<TxIO>): set<AddrId> {
    set io | io in ios :: IdOf(tx, io)
  }

  function Touched(r: Record): set<AddrId> { Ends(r.tx, r.tx.inputs) + Ends(r.tx, r.tx.outputs) }

  function SentKey(tx: ChainTransaction, io: TxIO): SentEdge {
    SentEdge(IdOf(tx, io), TxId(tx.chain, tx.txid), io.index)
  }

  function RecvKey(tx: ChainTransaction, io: TxIO): RecvEdge {
    RecvEdge(TxId(tx.chain, tx.txid), IdOf(tx, io), io.index)
  }

  function SentKeys(tx: ChainTransaction, ios: seq<TxIO>): set<SentEdge> {
    set io | io in ios :: SentKey(tx, io)
  }

  function RecvKeys(tx: ChainTransaction, ios: seq<TxIO>): set<RecvEdge> {
    set io | io in ios :: RecvKey(tx, io)
  }

  function TransferKey(tx: ChainTransaction, p: Transfer): TransferEdge {
    TransferEdge(AddrId(tx.chain, p.from), AddrId(tx.chain, p.to), tx.txid)
  }

  function TransferKeys(tx: ChainTransaction, ps: seq<Transfer>): set<TransferEdge> {
    set p | p in ps :: TransferKey(tx, p)
  }

  // ---------------------------------------------------------------------------
  // What each key becomes
  // ---------------------------------------------------------------------------

  function Earlier(o: Option<int>, t: int): Option<int> {
    match o case None => None case Some(s) => Some(if s > t then t else s)
  }

  function Later(o: Option<int>, t: int): Option<int> {
    match o case None => None case Some(s) => Some(if s < t then t else s)
  }

  /** MERGE of an address: created with this timestamp, or its range widened. A null stays null. */
  function Touch(o: Option<AddrNode>, t: int, source: string): AddrNode {
    match o
    case None => AddrNode(Some(t), Some(t), 0, {source})
    case Some(n) => n.(firstSeen := Earlier(n.firstSeen, t), lastSeen := Later(n.lastSeen, t),
                       sources := n.sources + {source})
  }

  /** MERGE of the transaction node. */
  function TxAfter(o: Option<TxNode>, r: Record): TxNode {
    var made := TxNode(r.tx.timestamp, r.tx.blockHeight, r.tx.fee, |r.tx.inputs|, |r.tx.outputs|,
                        r.tx.assetKey, r.tx.status, r.source, r.probability);
    match o
    case None => made
    case Some(n) => made.(timestamp := n.timestamp, blockHeight := n.blockHeight, fee := n.fee)
  }

  /** ON CREATE SET: the value of the first entry with the key. */
  function FirstSent(tx: ChainTransaction, ios: seq<TxIO>, k: SentEdge): real {
    if ios == [] then 0.0
    else if k in SentKeys(tx, ios[..|ios| - 1]) then FirstSent(tx, ios[..|ios| - 1], k)
    else ios[|ios| - 1].value
  }

  function FirstReceived(tx: ChainTransaction, ios: seq<TxIO>, k: RecvEdge): real {
    if ios == [] then 0.0
    else if k in RecvKeys(tx, ios[..|ios| - 1]) then FirstReceived(tx, ios[..|ios| - 1], k)
    else ios[|ios| - 1].value
  }

  /** SET: the flag of the last entry with the key. */
  function LastFlag(tx: ChainTransaction, ios: seq<TxIO>, k: RecvEdge): bool {
    if ios == [] then false
    else if RecvKey(tx, ios[|ios| - 1]) == k then ios[|ios| - 1].isChange
    else LastFlag(tx, ios[..|ios| - 1], k)
  }

  function SentAfter(m: map<SentEdge, real>, tx: ChainTransaction, ios: seq<TxIO>): map<SentEdge, real> {
    Apply(m, SentKeys(tx, ios), (o: Option<real>, k: SentEdge) =>
      match o case Some(v) => v case None => FirstSent(tx, ios, k))
  }

  function ReceivedAfter(m: map<RecvEdge, Recv>, tx: ChainTransaction, ios: seq<TxIO>): map<RecvEdge, Recv> {
    Apply(m, RecvKeys(tx, ios), (o: Option<Recv>, k: RecvEdge) =>
      Recv(match o case Some(e) => e.value case None => FirstReceived(tx, ios, k), LastFlag(tx, ios, k)))
  }

  function AddrsAfter(m: map<AddrId, AddrNode>, ids: set<AddrId>, t: int, source: string): map<AddrId, AddrNode> {
    Apply(m, ids, (o: Option<AddrNode>, k: AddrId) => Touch(o, t, source))
  }

  function TxsAfter(m: map<TxId, TxNode>, r: Record): map<TxId, TxNode> {
    Apply(m, {Tid(r)}, (o: Option<TxNode>, k: TxId) => TxAfter(o, r))
  }

  function PropsOf(r: Record, k: TransferEdge): TransferProps {
    TransferProps(Amount(r.tx.chain, r.tx.outputs, k.to.norm), Share(r.tx, k.from.norm, k.to.norm),
                  r.tx.timestamp, r.tx.assetKey, r.source)
  }

  function TransferredAfter(m: map<TransferEdge, TransferProps>, r: Record, ps: seq<Transfer>)
    : map<TransferEdge, TransferProps>
  {
    Apply(m, TransferKeys(r.tx, ps), (o: Option<TransferProps>, k: TransferEdge) => PropsOf(r, k))
  }

  /** `_MERGE_TX` for one record. */
  function MergeTx(g: Graph, r: Record): Graph {
    g.(addrs := AddrsAfter(g.addrs, Touched(r), r.tx.timestamp, r.source),
       txs := TxsAfter(g.txs, r),
       sent := SentAfter(g.sent, r.tx, r.tx.inputs),
       received := ReceivedAfter(g.received, r.tx, r.tx.outputs),
       transferred := TransferredAfter(g.transferred, r, Pairs(r.tx)))
  }

  function MergeAll(g: Graph, rs: seq<Record>): Graph {
    if rs == [] then g else MergeTx(MergeAll(g, rs[..|rs| - 1]), rs[|rs| - 1])
  }

  // ---------------------------------------------------------------------------
  // `_REFRESH_TX_COUNT`
  // ---------------------------------------------------------------------------

  /** `count(*)` after an OPTIONAL MATCH: the unmatched row counts too, so never zero. */
  function RowCount(n: nat): (c: nat)
    ensures c >= 1
  {
    if n == 0 then 1 else n
  }

  function SentCount(g: Graph, a: AddrId): nat { |set e | e in g.sent && e.from == a| }

  function ReceivedCount(g: Graph, a: AddrId): nat { |set e | e in g.received && e.to == a| }

  function Refresh(g: Graph, chains: set<Chain>): Graph {
    g.(addrs := map a | a in g.addrs ::
         if a.chain in chains then g.addrs[a].(txCount := RowCount(SentCount(g, a)) + RowCount(ReceivedCount(g, a)))
         else g.addrs[a])
  }

  function ChainsOf(rs: seq<Record>): set<Chain> { set r | r in rs :: r.tx.chain }

  /** `write_transactions` */
  function WriteAll(g: Graph, rs: seq<Record>): Graph { Refresh(MergeAll(g, rs), ChainsOf(rs)) }

  lemma NothingRefreshed(g: Graph)
    ensures Refresh(g, {}) == g
  {
    hide SentCount, ReceivedCount;
    assert Refresh(g, {}).addrs == g.addrs;
  }

  lemma RefreshOneMore(g: Graph, done: set<Chain>, chain: Chain)
    ensures Refresh(Refresh(g, done), {chain}) == Refresh(g, done + {chain})
  {
    var h := Refresh(g, done);
    forall a ensures SentCount(h, a) == SentCount(g, a) && ReceivedCount(h, a) == ReceivedCount(g, a) {}
    hide SentCount, ReceivedCount;
    assert Refresh(h, {chain}).addrs == Refresh(g, done + {chain}).addrs;
  }

  // ---------------------------------------------------------------------------
  // Order, repetition and batching do not matter
  // ---------------------------------------------------------------------------

  /** Records of one transaction are one record. */
  ghost predicate Consistent(rs: seq<Record>) {
    forall r, s :: r in rs && s in rs && Tid(r) == Tid(s) ==> r == s
  }

  lemma TouchTwice(o: Option<AddrNode>, t: int, s: string, u: int, v: string)
    ensures Touch(Some(Touch(o, t, s)), u, v) == Touch(Some(Touch(o, u, v)), t, s)
    ensures Touch(Some(Touch(o, t, s)), t, s) == Touch(o, t, s)
  {
    assert {s} + {v} == {v} + {s};
    match o {
      case None =>
      case Some(n) =>
        assert n.sources + {s} + {v} == n.sources + {v} + {s};
        assert n.sources + {s} + {s} == n.sources + {s};
    }
  }

  lemma AddrsTwice(m: map<AddrId, AddrNode>, ids: set<AddrId>, t: int, source: string)
    ensures AddrsAfter(AddrsAfter(m, ids, t, source), ids, t, source) == AddrsAfter(m, ids, t, source)
  {
    hide Touch;
    forall o ensures Touch(Some(Touch(o, t, source)), t, source) == Touch(o, t, source) {
      TouchTwice(o, t, source, t, source);
    }
  }

  lemma EdgesTwice(g: Graph, r: Record)
    ensures TxsAfter(TxsAfter(g.txs, r), r) == TxsAfter(g.txs, r)
    ensures var n := SentAfter(g.sent, r.tx, r.tx.inputs); SentAfter(n, r.tx, r.tx.inputs) == n
    ensures var n := ReceivedAfter(g.received, r.tx, r.tx.outputs); ReceivedAfter(n, r.tx, r.tx.outputs) == n
    ensures var n := TransferredAfter(g.transferred, r, Pairs(r.tx)); TransferredAfter(n, r, Pairs(r.tx)) == n
  {
    hide FirstSent, FirstReceived, LastFlag, PropsOf, Pairs, SentKeys, RecvKeys, TransferKeys;
  }

  /** Writing a record again changes nothing. */
  lemma MergeTwice(g: Graph, r: Record)
    ensures MergeTx(MergeTx(g, r), r) == MergeTx(g, r)
  {
    hide TxsAfter, SentAfter, ReceivedAfter, TransferredAfter, AddrsAfter, Pairs, Touched;
    AddrsTwice(g.addrs, Touched(r), r.tx.timestamp, r.source);
    EdgesTwice(g, r);
  }

  lemma KeysCarryTid(r: Record)
    ensures forall k :: k in SentKeys(r.tx, r.tx.inputs) ==> k.tx == Tid(r)
    ensures forall k :: k in RecvKeys(r.tx, r.tx.outputs) ==> k.tx == Tid(r)
    ensures forall k :: k in TransferKeys(r.tx, Pairs(r.tx)) ==>
              k.txid == r.tx.txid && k.from.chain == r.tx.chain && k.to.chain == r.tx.chain
  {}

  lemma AddrsCommute(m: map<AddrId, AddrNode>, ids: set<AddrId>, t: int, source: string,
                     ids': set<AddrId>, t': int, source': string)
    ensures AddrsAfter(AddrsAfter(m, ids, t, source), ids', t', source')
         == AddrsAfter(AddrsAfter(m, ids', t', source'), ids, t, source)
  {
    hide Touch;
    forall o ensures Touch(Some(Touch(o, t, source)), t', source') == Touch(Some(Touch(o, t', source')), t, source) {
      TouchTwice(o, t, source, t', source');
    }
    ApplyCommutes(m, ids, (o: Option<AddrNode>, k: AddrId) => Touch(o, t, source),
                  ids', (o: Option<AddrNode>, k: AddrId) => Touch(o, t', source'));
  }

  lemma SentCommute(m: map<SentEdge, real>, r: Record, s: Record)
    requires Tid(r) != Tid(s)
    ensures SentAfter(SentAfter(m, r.tx, r.tx.inputs), s.tx, s.tx.inputs)
         == SentAfter(SentAfter(m, s.tx, s.tx.inputs), r.tx, r.tx.inputs)
  {
    hide FirstSent, SentKeys;
    KeysCarryTid(r);
    KeysCarryTid(s);
  }

  lemma ReceivedCommute(m: map<RecvEdge, Recv>, r: Record, s: Record)
    requires Tid(r) != Tid(s)
    ensures ReceivedAfter(ReceivedAfter(m, r.tx, r.tx.outputs), s.tx, s.tx.outputs)
         == ReceivedAfter(ReceivedAfter(m, s.tx, s.tx.outputs), r.tx, r.tx.outputs)
  {
    hide FirstReceived, LastFlag, RecvKeys;
    KeysCarryTid(r);
    KeysCarryTid(s);
  }

  lemma TransferredCommute(m: map<TransferEdge, TransferProps>, r: Record, s: Record)
    requires Tid(r) != Tid(s)
    ensures TransferredAfter(TransferredAfter(m, r, Pairs(r.tx)), s, Pairs(s.tx))
         == TransferredAfter(TransferredAfter(m, s, Pairs(s.tx)), r, Pairs(r.tx))
  {
    hide PropsOf, Pairs, TransferKeys;
    KeysCarryTid(r);
    KeysCarryTid(s);
  }

  lemma TxsCommute(m: map<TxId, TxNode>, r: Record, s: Record)
    requires Tid(r) != Tid(s)
    ensures TxsAfter(TxsAfter(m, r), s) == TxsAfter(TxsAfter(m, s), r)
  {
    hide TxAfter;
  }

  /** Records of different transactions can be written in either order. */
  lemma MergeCommutes(g: Graph, r: Record, s: Record)
    requires Tid(r) != Tid(s)
    ensures MergeTx(MergeTx(g, r), s) == MergeTx(MergeTx(g, s), r)
  {
    hide TxsAfter, SentAfter, ReceivedAfter, TransferredAfter, AddrsAfter, Pairs, Touched;
    AddrsCommute(g.addrs, Touched(r), r.tx.timestamp, r.source, Touched(s), s.tx.timestamp, s.source);
    TxsCommute(g.txs, r, s);
    SentCommute(g.sent, r, s);
    ReceivedCommute(g.received, r, s);
    TransferredCommute(g.transferred, r, s);
  }

  /** Two records of one transaction that leave the same graph in either order: what a merge always
      overwrites agrees, and what it sets on creation only agrees or is already there. */
  predicate Interchangeable(g: Graph, r: Record, s: Record) {
    && NodesAgree(g, r, s)
    && (forall k :: k in SentKeys(r.tx, r.tx.inputs) && k in SentKeys(s.tx, s.tx.inputs) && k !in g.sent ==>
          FirstSent(r.tx, r.tx.inputs, k) == FirstSent(s.tx, s.tx.inputs, k))
    && (forall k :: k in RecvKeys(r.tx, r.tx.outputs) && k in RecvKeys(s.tx, s.tx.outputs) ==>
          && LastFlag(r.tx, r.tx.outputs, k) == LastFlag(s.tx, s.tx.outputs, k)
          && (k !in g.received ==> FirstReceived(r.tx, r.tx.outputs, k) == FirstReceived(s.tx, s.tx.outputs, k)))
    && (forall k :: k in TransferKeys(r.tx, Pairs(r.tx)) && k in TransferKeys(s.tx, Pairs(s.tx)) ==>
          PropsOf(r, k) == PropsOf(s, k))
  }

  predicate NodesAgree(g: Graph, r: Record, s: Record) {
    && |r.tx.inputs| == |s.tx.inputs| && |r.tx.outputs| == |s.tx.outputs|
    && r.tx.assetKey == s.tx.assetKey && r.tx.status == s.tx.status
    && r.source == s.source && r.probability == s.probability
    && (Tid(r) !in g.txs ==>
          r.tx.timestamp == s.tx.timestamp && r.tx.blockHeight == s.tx.blockHeight && r.tx.fee == s.tx.fee)
  }

  lemma TxsCommuteExactly(g: Graph, r: Record, s: Record)
    requires Tid(r) == Tid(s)
    ensures TxsAfter(TxsAfter(g.txs, r), s) == TxsAfter(TxsAfter(g.txs, s), r) <==> NodesAgree(g, r, s)
  {
    var a, b := TxsAfter(TxsAfter(g.txs, r), s), TxsAfter(TxsAfter(g.txs, s), r);
    assert forall t :: t != Tid(r) && t in a ==> a[t] == b[t];
    assert a == b <==> a[Tid(r)] == b[Tid(r)];
  }

  lemma SentCommuteExactly(m: map<SentEdge, real>, r: Record, s: Record)
    ensures SentAfter(SentAfter(m, r.tx, r.tx.inputs), s.tx, s.tx.inputs)
         == SentAfter(SentAfter(m, s.tx, s.tx.inputs), r.tx, r.tx.inputs)
       <==> forall k :: k in SentKeys(r.tx, r.tx.inputs) && k in SentKeys(s.tx, s.tx.inputs) && k !in m ==>
              FirstSent(r.tx, r.tx.inputs, k) == FirstSent(s.tx, s.tx.inputs, k)
  {
    hide FirstSent, SentKeys;
    var a, b := SentAfter(SentAfter(m, r.tx, r.tx.inputs), s.tx, s.tx.inputs),
                SentAfter(SentAfter(m, s.tx, s.tx.inputs), r.tx, r.tx.inputs);
    assert a == b <==> forall k :: k in a ==> a[k] == b[k];
  }

  lemma ReceivedCommuteExactly(m: map<RecvEdge, Recv>, r: Record, s: Record)
    ensures ReceivedAfter(ReceivedAfter(m, r.tx, r.tx.outputs), s.tx, s.tx.outputs)
         == ReceivedAfter(ReceivedAfter(m, s.tx, s.tx.outputs), r.tx, r.tx.outputs)
       <==> forall k :: k in RecvKeys(r.tx, r.tx.outputs) && k in RecvKeys(s.tx, s.tx.outputs) ==>
              && LastFlag(r.tx, r.tx.outputs, k) == LastFlag(s.tx, s.tx.outputs, k)
              && (k !in m ==> FirstReceived(r.tx, r.tx.outputs, k) == FirstReceived(s.tx, s.tx.outputs, k))
  {
    hide FirstReceived, LastFlag, RecvKeys;
    var a, b := ReceivedAfter(ReceivedAfter(m, r.tx, r.tx.outputs), s.tx, s.tx.outputs),
                ReceivedAfter(ReceivedAfter(m, s.tx, s.tx.outputs), r.tx, r.tx.outputs);
    assert a == b <==> forall k :: k in a ==> a[k] == b[k];
  }

  lemma TransferredCommuteExactly(m: map<TransferEdge, TransferProps>, r: Record, s: Record)
    ensures TransferredAfter(TransferredAfter(m, r, Pairs(r.tx)), s, Pairs(s.tx))
         == TransferredAfter(TransferredAfter(m, s, Pairs(s.tx)), r, Pairs(r.tx))
       <==> forall k :: k in TransferKeys(r.tx, Pairs(r.tx)) && k in TransferKeys(s.tx, Pairs(s.tx)) ==>
              PropsOf(r, k) == PropsOf(s, k)
  {
    hide PropsOf, Pairs, TransferKeys;
    var a, b := TransferredAfter(TransferredAfter(m, r, Pairs(r.tx)), s, Pairs(s.tx)),
                TransferredAfter(TransferredAfter(m, s, Pairs(s.tx)), r, Pairs(r.tx));
    assert a == b <==> forall k :: k in a ==> a[k] == b[k];
  }

  /** Records of one transaction commute exactly when they are interchangeable. */
  lemma SameTransactionCommutesExactly(g: Graph, r: Record, s: Record)
    requires Tid(r) == Tid(s)
    ensures MergeTx(MergeTx(g, r), s) == MergeTx(MergeTx(g, s), r) <==> Interchangeable(g, r, s)
  {
    hide TxsAfter, SentAfter, ReceivedAfter, TransferredAfter, AddrsAfter, Pairs, Touched, NodesAgree, SentKeys, RecvKeys,
         TransferKeys, FirstSent, FirstReceived, LastFlag, PropsOf;
    AddrsCommute(g.addrs, Touched(r), r.tx.timestamp, r.source, Touched(s), s.tx.timestamp, s.source);
    TxsCommuteExactly(g, r, s);
    SentCommuteExactly(g.sent, r, s);
    ReceivedCommuteExactly(g.received, r, s);
    TransferredCommuteExactly(g.transferred, r, s);
  }

  /** A record already written is absorbed wherever it comes again. */
  lemma {:induction false} MergeAbsorbs(g: Graph, rs: seq<Record>, r: Record)
    requires r in rs && Consistent(rs)
    ensures MergeTx(MergeAll(g, rs), r) == MergeAll(g, rs)
    decreases |rs|
  {
    hide MergeTx;
    var init, last := rs[..|rs| - 1], rs[|rs| - 1];
    assert rs == init + [last];
    if last == r {
      MergeTwice(MergeAll(g, init), r);
    } else {
      MergeAbsorbs(g, init, r);
      assert last in rs;
      MergeCommutes(MergeAll(g, init), last, r);
    }
  }

  lemma {:induction false} MergeAllAppend(g: Graph, a: seq<Record>, b: seq<Record>)
    ensures MergeAll(g, a + b) == MergeAll(MergeAll(g, a), b)
    decreases |b|
  {
    hide MergeTx;
    if b == [] {
      assert a + b == a;
    } else {
      assert (a + b)[..|a + b| - 1] == a + b[..|b| - 1];
      MergeAllAppend(g, a, b[..|b| - 1]);
    }
  }

  lemma {:induction false} MergeAllAbsorbs(g: Graph, rs: seq<Record>, more: seq<Record>)
    requires Consistent(rs) && forall r :: r in more ==> r in rs
    ensures MergeAll(MergeAll(g, rs), more) == MergeAll(g, rs)
    decreases |more|
  {
    hide MergeTx;
    if more != [] {
      MergeAllAbsorbs(g, rs, more[..|more| - 1]);
      assert more[|more| - 1] in more;
      MergeAbsorbs(g, rs, more[|more| - 1]);
    }
  }

  /** One record moves past a list of records of other transactions, or of itself. */
  lemma {:induction false} MergeMovesPast(g: Graph, rs: seq<Record>, r: Record)
    requires Consistent(rs + [r])
    ensures MergeTx(MergeAll(g, rs), r) == MergeAll(MergeTx(g, r), rs)
    decreases |rs|
  {
    hide MergeTx;
    if rs != [] {
      var init, last := rs[..|rs| - 1], rs[|rs| - 1];
      assert rs == init + [last];
      assert r in rs + [r] && last in rs + [r];
      assert forall x :: x in init + [r] ==> x in rs + [r];
      MergeMovesPast(g, init, r);
      if last != r { MergeCommutes(MergeAll(g, init), last, r); }
    }
  }

  lemma {:induction false} MergeAllCommutes(g: Graph, a: seq<Record>, b: seq<Record>)
    requires Consistent(a + b)
    ensures MergeAll(MergeAll(g, a), b) == MergeAll(MergeAll(g, b), a)
    decreases |b|
  {
    hide MergeTx;
    if b != [] {
      var init, last := b[..|b| - 1], b[|b| - 1];
      assert b == init + [last];
      assert forall x :: x in a + init || x in a + [last] ==> x in a + b;
      MergeAllCommutes(g, a, init);
      MergeMovesPast(MergeAll(g, init), a, last);
    }
  }

  /** Any order, any repetition: two lists of the same records leave the same graph, whatever graph
      they are written to. */
  lemma WriteOrderDoesNotMatter(g: Graph, a: seq<Record>, b: seq<Record>)
    requires Consistent(a) && forall r :: r in a <==> r in b
    ensures WriteAll(g, a) == WriteAll(g, b)
  {
    hide MergeTx, MergeAll, Refresh;
    assert forall r :: r in a + b <==> r in a;
    MergeAllCommutes(g, a, b);
    MergeAllAbsorbs(g, a, b);
    assert Consistent(b);
    MergeAllAbsorbs(g, b, a);
    assert ChainsOf(a) == ChainsOf(b);
  }

  // ---------------------------------------------------------------------------
  // First and last seen
  // ---------------------------------------------------------------------------

  ghost predicate Mentions(rs: seq<Record>, a: AddrId) {
    exists r :: r in rs && a in Touched(r)
  }

  /** `t` is the smallest (largest) timestamp among the records that mention `a`. */
  ghost predicate Earliest(rs: seq<Record>, a: AddrId, t: int) {
    && (exists r :: r in rs && a in Touched(r) && r.tx.timestamp == t)
    && forall r :: r in rs && a in Touched(r) ==> t <= r.tx.timestamp
  }

  ghost predicate Latest(rs: seq<Record>, a: AddrId, t: int) {
    && (exists r :: r in rs && a in Touched(r) && r.tx.timestamp == t)
    && forall r :: r in rs && a in Touched(r) ==> r.tx.timestamp <= t
  }

  /** The node agrees with the records that mention it. */
  ghost predicate Summarises(rs: seq<Record>, a: AddrId, n: AddrNode) {
    && n.firstSeen.Some? && Earliest(rs, a, n.firstSeen.value)
    && n.lastSeen.Some? && Latest(rs, a, n.lastSeen.value)
    && forall s :: s in n.sources <==> exists r :: r in rs && a in Touched(r) && r.source == s
  }

  lemma SummaryStarts(rs: seq<Record>, r: Record, a: AddrId)
    requires !Mentions(rs, a) && a in Touched(r)
    ensures Summarises(rs + [r], a, Touch(None, r.tx.timestamp, r.source))
  {
    hide Touched;
    assert r in rs + [r];
  }

  lemma SummaryGrows(rs: seq<Record>, r: Record, a: AddrId, n: AddrNode)
    requires Summarises(rs, a, n)
    ensures Summarises(rs + [r], a, if a in Touched(r) then Touch(Some(n), r.tx.timestamp, r.source) else n)
  {
    hide Touched;
    var n' := if a in Touched(r) then Touch(Some(n), r.tx.timestamp, r.source) else n;
    var lo :| lo in rs && a in Touched(lo) && lo.tx.timestamp == n.firstSeen.value;
    var hi :| hi in rs && a in Touched(hi) && hi.tx.timestamp == n.lastSeen.value;
    assert lo in rs + [r] && hi in rs + [r] && r in rs + [r];
    forall s ensures s in n'.sources <==> exists x :: x in rs + [r] && a in Touched(x) && x.source == s {
      if s in n.sources {
        var x :| x in rs && a in Touched(x) && x.source == s;
        assert x in rs + [r];
      }
    }
  }

  /** An address the writer created exists exactly if some record mentions it, and its `first_seen`,
      `last_seen` and sources are the minimum, maximum and set over the records that do. */
  lemma {:induction false} NewAddressSummary(g: Graph, rs: seq<Record>, a: AddrId)
    requires a !in g.addrs
    ensures a in MergeAll(g, rs).addrs <==> Mentions(rs, a)
    ensures a in MergeAll(g, rs).addrs ==> Summarises(rs, a, MergeAll(g, rs).addrs[a])
  {
    hide Touched, Touch, Summarises;
    if rs != [] {
      var init, last := rs[..|rs| - 1], rs[|rs| - 1];
      assert rs == init + [last];
      NewAddressSummary(g, init, a);
      var before := MergeAll(g, init);
      if a in before.addrs {
        SummaryGrows(init, last, a, before.addrs[a]);
      } else if a in Touched(last) {
        SummaryStarts(init, last, a);
      }
    }
  }

  /** The counts refreshed afterwards leave the summary alone. */
  lemma WrittenAddressSummary(g: Graph, rs: seq<Record>, a: AddrId)
    requires a !in g.addrs
    ensures a in WriteAll(g, rs).addrs <==> Mentions(rs, a)
    ensures a in WriteAll(g, rs).addrs ==> Summarises(rs, a, WriteAll(g, rs).addrs[a])
  {
    hide MergeAll, SentCount, ReceivedCount;
    NewAddressSummary(g, rs, a);
  }

  /** An address created by the tag seed, with no `first_seen`, never gets one. */
  lemma {:induction false} SeededStaysUnseen(g: Graph, rs: seq<Record>, a: AddrId)
    requires a in g.addrs && g.addrs[a].firstSeen == None
    ensures a in MergeAll(g, rs).addrs && MergeAll(g, rs).addrs[a].firstSeen == None
  {
    hide Touched;
    if rs != [] { SeededStaysUnseen(g, rs[..|rs| - 1], a); }
  }
}
