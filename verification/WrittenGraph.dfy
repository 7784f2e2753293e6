/** What the writer leaves in an empty graph, read off the records alone: which transactions, inputs,
    outputs and transfers are there, and with which properties. */
module WrittenGraph {
  import opened Options
  import opened Chains
  import opened Transactions
  import opened Transfers
  import opened GraphState

  function IsKey(tx: ChainTransaction, io: TxIO, a: AddrId, index: int): bool {
    a == AddrId(tx.chain, NormalizeAddress(tx.chain, io.address)) && io.index == index
  }

  /** `io` is the first of `ios` on address `a` with this index. */
  ghost predicate FirstOn(tx: ChainTransaction, ios: seq<TxIO>, a: AddrId, index: int, io: TxIO) {
    exists i :: 0 <= i < |ios| && ios[i] == io && IsKey(tx, io, a, index)
                && forall j :: 0 <= j < i ==> !IsKey(tx, ios[j], a, index)
  }

  ghost predicate LastOn(tx: ChainTransaction, ios: seq<TxIO>, a: AddrId, index: int, io: TxIO) {
    exists i :: 0 <= i < |ios| && ios[i] == io && IsKey(tx, io, a, index)
                && forall j :: i < j < |ios| ==> !IsKey(tx, ios[j], a, index)
  }

  // ---------------------------------------------------------------------------
  // Which input or output a key takes its properties from
  // ---------------------------------------------------------------------------

  lemma {:induction false} FirstSentMeans(tx: ChainTransaction, ios: seq<TxIO>, k: SentEdge)
    requires k in SentKeys(tx, ios)
    ensures exists io :: FirstOn(tx, ios, k.from, k.vin, io) && io.value == FirstSent(tx, ios, k)
  {
    var init, last := ios[..|ios| - 1], ios[|ios| - 1];
    if k in SentKeys(tx, init) {
      FirstSentMeans(tx, init, k);
      var io :| FirstOn(tx, init, k.from, k.vin, io) && io.value == FirstSent(tx, init, k);
      LongerFirst(tx, ios, k.from, k.vin, io);
    } else {
      assert SentKey(tx, last) == k;
      forall j | 0 <= j < |init| ensures !IsKey(tx, ios[j], k.from, k.vin) {
        assert ios[j] == init[j] && SentKey(tx, init[j]) in SentKeys(tx, init);
      }
      assert FirstOn(tx, ios, k.from, k.vin, last);
    }
  }

  lemma LongerFirst(tx: ChainTransaction, ios: seq<TxIO>, a: AddrId, index: int, io: TxIO)
    requires ios != [] && FirstOn(tx, ios[..|ios| - 1], a, index, io)
    ensures FirstOn(tx, ios, a, index, io)
  {
    var init := ios[..|ios| - 1];
    var i :| 0 <= i < |init| && init[i] == io && IsKey(tx, io, a, index)
             && forall j :: 0 <= j < i ==> !IsKey(tx, init[j], a, index);
    assert ios[i] == io && forall j :: 0 <= j < i ==> ios[j] == init[j];
  }

  lemma {:induction false} FirstReceivedMeans(tx: ChainTransaction, ios: seq<TxIO>, k: RecvEdge)
    requires k in RecvKeys(tx, ios)
    ensures exists io :: FirstOn(tx, ios, k.to, k.vout, io) && io.value == FirstReceived(tx, ios, k)
  {
    var init, last := ios[..|ios| - 1], ios[|ios| - 1];
    if k in RecvKeys(tx, init) {
      FirstReceivedMeans(tx, init, k);
      var io :| FirstOn(tx, init, k.to, k.vout, io) && io.value == FirstReceived(tx, init, k);
      LongerFirst(tx, ios, k.to, k.vout, io);
    } else {
      assert RecvKey(tx, last) == k;
      forall j | 0 <= j < |init| ensures !IsKey(tx, ios[j], k.to, k.vout) {
        assert ios[j] == init[j] && RecvKey(tx, init[j]) in RecvKeys(tx, init);
      }
      assert FirstOn(tx, ios, k.to, k.vout, last);
    }
  }

  lemma {:induction false} LastFlagMeans(tx: ChainTransaction, ios: seq<TxIO>, k: RecvEdge)
    requires k in RecvKeys(tx, ios)
    ensures exists io :: LastOn(tx, ios, k.to, k.vout, io) && io.isChange == LastFlag(tx, ios, k)
  {
    var init, last := ios[..|ios| - 1], ios[|ios| - 1];
    if RecvKey(tx, last) == k {
      assert LastOn(tx, ios, k.to, k.vout, last);
    } else {
      assert ios == init + [last] && k in RecvKeys(tx, init);
      assert LastFlag(tx, ios, k) == LastFlag(tx, init, k);
      LastFlagMeans(tx, init, k);
      hide LastOn, LastFlag;
      var io :| LastOn(tx, init, k.to, k.vout, io) && io.isChange == LastFlag(tx, init, k);
      LongerLast(tx, ios, k.to, k.vout, io);
    }
  }

  lemma LongerLast(tx: ChainTransaction, ios: seq<TxIO>, a: AddrId, index: int, io: TxIO)
    requires ios != [] && LastOn(tx, ios[..|ios| - 1], a, index, io) && !IsKey(tx, ios[|ios| - 1], a, index)
    ensures LastOn(tx, ios, a, index, io)
  {
    var init := ios[..|ios| - 1];
    hide IsKey;
    var i :| 0 <= i < |init| && init[i] == io && IsKey(tx, io, a, index)
             && forall j :: i < j < |init| ==> !IsKey(tx, init[j], a, index);
    forall j | i < j < |ios| ensures !IsKey(tx, ios[j], a, index) {
      assert j < |init| ==> ios[j] == init[j];
    }
    assert ios[i] == io;
  }

  // ---------------------------------------------------------------------------
  // The graph is the records'
  // ---------------------------------------------------------------------------

  ghost predicate FromTx(rs: seq<Record>, t: TxId) { exists r :: r in rs && t == Tid(r) }

  ghost predicate FromInput(rs: seq<Record>, k: SentEdge) { exists r :: r in rs && k in SentKeys(r.tx, r.tx.inputs) }

  ghost predicate FromOutput(rs: seq<Record>, k: RecvEdge) { exists r :: r in rs && k in RecvKeys(r.tx, r.tx.outputs) }

  ghost predicate FromPair(rs: seq<Record>, k: TransferEdge) {
    exists r :: r in rs && k in TransferKeys(r.tx, Pairs(r.tx))
  }

  /** Everything the graph holds about transactions comes from a record, as that record has it. */
  ghost predicate Holds(g: Graph, rs: seq<Record>) {
    && (forall t :: t in g.txs ==> FromTx(rs, t))
    && (forall k :: k in g.sent ==> FromInput(rs, k))
    && (forall k :: k in g.received ==> FromOutput(rs, k))
    && (forall k :: k in g.transferred ==> FromPair(rs, k))
    && (forall r :: r in rs ==> Stored(g, r))
  }

  /** A record's nodes and edges, with its properties. */
  ghost predicate Stored(g: Graph, r: Record) {
    && Tid(r) in g.txs && g.txs[Tid(r)] == TxAfter(None, r)
    && (forall k :: k in SentKeys(r.tx, r.tx.inputs) ==> k in g.sent && g.sent[k] == FirstSent(r.tx, r.tx.inputs, k))
    && (forall k :: k in RecvKeys(r.tx, r.tx.outputs) ==>
          k in g.received
          && g.received[k] == Recv(FirstReceived(r.tx, r.tx.outputs, k), LastFlag(r.tx, r.tx.outputs, k)))
    && (forall k :: k in TransferKeys(r.tx, Pairs(r.tx)) ==> k in g.transferred && g.transferred[k] == PropsOf(r, k))
  }

  lemma NewIsStored(g: Graph, r: Record)
    requires Tid(r) !in g.txs
    requires forall k :: k in SentKeys(r.tx, r.tx.inputs) ==> k !in g.sent
    requires forall k :: k in RecvKeys(r.tx, r.tx.outputs) ==> k !in g.received
    ensures Stored(MergeTx(g, r), r)
  {
    hide AddrsAfter, Touched, FirstSent, FirstReceived, LastFlag, PropsOf, Pairs, SentKeys, RecvKeys, TransferKeys;
  }

  /** Merging a stored record again changes no transaction and no edge. */
  lemma AgainIsStored(g: Graph, r: Record)
    requires Stored(g, r)
    ensures var h := MergeTx(g, r);
            h.txs == g.txs && h.sent == g.sent && h.received == g.received && h.transferred == g.transferred
  {
    hide AddrsAfter, Touched, FirstSent, FirstReceived, LastFlag, PropsOf, Pairs, SentKeys, RecvKeys, TransferKeys;
  }

  /** Another transaction's record leaves it alone. */
  lemma OtherIsStored(g: Graph, r: Record, q: Record)
    requires Stored(g, r) && Tid(q) != Tid(r)
    ensures Stored(MergeTx(g, q), r)
  {
    KeysCarryTid(r);
    KeysCarryTid(q);
    hide AddrsAfter, Touched, FirstSent, FirstReceived, LastFlag, PropsOf, Pairs, SentKeys, RecvKeys, TransferKeys;
  }

  lemma HoldsMore(g: Graph, rs: seq<Record>, q: Record)
    requires Holds(g, rs) && Consistent(rs + [q])
    ensures Holds(MergeTx(g, q), rs + [q])
  {
    hide Stored, FromTx, FromInput, FromOutput, FromPair, MergeTx, SentKeys, RecvKeys, TransferKeys, Pairs, Consistent, Tid;
    StoredMore(g, rs, q);
    KeysOnlyGrow(g, q);
    FromMore(rs, q);
  }

  lemma StoredMore(g: Graph, rs: seq<Record>, q: Record)
    requires Holds(g, rs) && Consistent(rs + [q])
    ensures forall r :: r in rs + [q] ==> Stored(MergeTx(g, q), r)
  {
    forall r | r in rs + [q] ensures Stored(MergeTx(g, q), r) {
      OneStored(g, rs, q, r);
    }
  }

  lemma OneStored(g: Graph, rs: seq<Record>, q: Record, r: Record)
    requires Holds(g, rs) && Consistent(rs + [q]) && r in rs + [q]
    ensures Stored(MergeTx(g, q), r)
  {
    hide FromTx, FromInput, FromOutput, FromPair, MergeTx, Stored;
    if q in rs {
      AgainIsStored(g, q);
      SameStored(g, MergeTx(g, q), r);
    } else if r == q {
      Untouched(g, rs, q);
      NewIsStored(g, q);
    } else {
      assert q in rs + [q] && Tid(q) != Tid(r);
      OtherIsStored(g, r, q);
    }
  }

  lemma FromMore(rs: seq<Record>, q: Record)
    ensures forall t :: FromTx(rs, t) || t == Tid(q) ==> FromTx(rs + [q], t)
    ensures forall k :: FromInput(rs, k) || k in SentKeys(q.tx, q.tx.inputs) ==> FromInput(rs + [q], k)
    ensures forall k :: FromOutput(rs, k) || k in RecvKeys(q.tx, q.tx.outputs) ==> FromOutput(rs + [q], k)
    ensures forall k :: FromPair(rs, k) || k in TransferKeys(q.tx, Pairs(q.tx)) ==> FromPair(rs + [q], k)
  {
    hide Pairs, SentKeys, RecvKeys, TransferKeys;
    assert q in rs + [q] && forall r :: r in rs ==> r in rs + [q];
  }

  lemma SameStored(g: Graph, h: Graph, r: Record)
    requires Stored(g, r)
    requires h.txs == g.txs && h.sent == g.sent && h.received == g.received && h.transferred == g.transferred
    ensures Stored(h, r)
  {}

  lemma KeysOnlyGrow(g: Graph, q: Record)
    ensures var h := MergeTx(g, q);
            && h.txs.Keys == g.txs.Keys + {Tid(q)}
            && h.sent.Keys == g.sent.Keys + SentKeys(q.tx, q.tx.inputs)
            && h.received.Keys == g.received.Keys + RecvKeys(q.tx, q.tx.outputs)
            && h.transferred.Keys == g.transferred.Keys + TransferKeys(q.tx, Pairs(q.tx))
  {
    hide AddrsAfter, Touched, FirstSent, FirstReceived, LastFlag, PropsOf, Pairs, SentKeys, RecvKeys, TransferKeys;
  }

  lemma Untouched(g: Graph, rs: seq<Record>, q: Record)
    requires Holds(g, rs) && Consistent(rs + [q]) && q !in rs
    ensures Tid(q) !in g.txs
    ensures forall k :: k in SentKeys(q.tx, q.tx.inputs) ==> k !in g.sent
    ensures forall k :: k in RecvKeys(q.tx, q.tx.outputs) ==> k !in g.received
  {
    hide Stored, Pairs;
    assert q in rs + [q];
    assert forall r :: r in rs ==> r in rs + [q] && Tid(r) != Tid(q);
    forall r | r in rs ensures forall k :: k in SentKeys(r.tx, r.tx.inputs) ==> k.tx == Tid(r) { KeysCarryTid(r); }
    forall r | r in rs ensures forall k :: k in RecvKeys(r.tx, r.tx.outputs) ==> k.tx == Tid(r) { KeysCarryTid(r); }
    KeysCarryTid(q);
    hide SentKeys, RecvKeys;
  }

  lemma {:induction false} MergedHolds(rs: seq<Record>)
    requires Consistent(rs)
    ensures Holds(MergeAll(EmptyGraph, rs), rs)
  {
    hide MergeTx;
    if rs == [] {
      NothingHeld();
    } else {
      var init, last := rs[..|rs| - 1], rs[|rs| - 1];
      assert rs == init + [last];
      FewerConsistent(init, last);
      MergedHolds(init);
      hide Holds, Consistent;
      HoldsMore(MergeAll(EmptyGraph, init), init, last);
    }
  }

  lemma NothingHeld()
    ensures Holds(EmptyGraph, [])
  {}

  lemma FewerConsistent(rs: seq<Record>, q: Record)
    requires Consistent(rs + [q])
    ensures Consistent(rs)
  {
    assert forall r :: r in rs ==> r in rs + [q];
  }

  // ---------------------------------------------------------------------------
  // Read off the records
  // ---------------------------------------------------------------------------

  lemma WrittenHolds(rs: seq<Record>)
    requires Consistent(rs)
    ensures Holds(WriteAll(EmptyGraph, rs), rs)
  {
    hide *;
    MergedHolds(rs);
    RefreshKeepsEdges(MergeAll(EmptyGraph, rs), rs);
    SameHolds(MergeAll(EmptyGraph, rs), WriteAll(EmptyGraph, rs), rs);
  }

  lemma RefreshKeepsEdges(g: Graph, rs: seq<Record>)
    requires g == MergeAll(EmptyGraph, rs)
    ensures var h := WriteAll(EmptyGraph, rs);
            h.txs == g.txs && h.sent == g.sent && h.received == g.received && h.transferred == g.transferred
  {
    hide MergeAll, SentCount, ReceivedCount, ChainsOf;
  }

  lemma SameHolds(g: Graph, h: Graph, rs: seq<Record>)
    requires Holds(g, rs)
    requires h.txs == g.txs && h.sent == g.sent && h.received == g.received && h.transferred == g.transferred
    ensures Holds(h, rs)
  {
    hide FromTx, FromInput, FromOutput, FromPair, Stored;
    forall r | r in rs ensures Stored(h, r) { SameStored(g, h, r); }
  }

  /** Transactions: one node for each record, with its own fields and the counts of its sides. */
  lemma WrittenTransactions(rs: seq<Record>, t: TxId)
    requires Consistent(rs)
    ensures var g := WriteAll(EmptyGraph, rs);
            && (t in g.txs <==> exists r :: r in rs && t == TxId(r.tx.chain, r.tx.txid))
            && forall r :: r in rs && t == TxId(r.tx.chain, r.tx.txid) ==>
                 g.txs[t] == TxNode(r.tx.timestamp, r.tx.blockHeight, r.tx.fee, |r.tx.inputs|, |r.tx.outputs|,
                                    r.tx.assetKey, r.tx.status, r.source, r.probability)
  {
    WrittenHolds(rs);
    hide WriteAll, FromInput, FromOutput, FromPair, Pairs;
  }

  /** The edge `k` has the amount of the first input with its address and position. */
  ghost predicate IsInput(r: Record, k: SentEdge, value: real) {
    exists io :: FirstOn(r.tx, r.tx.inputs, k.from, k.vin, io) && value == io.value
  }

  lemma StoredInput(g: Graph, r: Record, k: SentEdge)
    requires Stored(g, r) && k in SentKeys(r.tx, r.tx.inputs)
    ensures k in g.sent && IsInput(r, k, g.sent[k]) && k.tx == Tid(r)
  {
    FirstSentMeans(r.tx, r.tx.inputs, k);
    KeysCarryTid(r);
    hide FirstOn, Pairs, SentKeys, RecvKeys, FirstReceived, LastFlag, FirstSent, PropsOf;
  }

  /** Inputs: an edge for every record, address and position among its inputs. */
  lemma WrittenInputs(rs: seq<Record>, k: SentEdge)
    requires Consistent(rs)
    ensures var g := WriteAll(EmptyGraph, rs);
            if k in g.sent then
              exists r :: r in rs && k.tx == TxId(r.tx.chain, r.tx.txid) && IsInput(r, k, g.sent[k])
            else
              forall r, io :: r in rs && k.tx == TxId(r.tx.chain, r.tx.txid) && io in r.tx.inputs ==>
                                !IsKey(r.tx, io, k.from, k.vin)
  {
    WrittenHolds(rs);
    var g := WriteAll(EmptyGraph, rs);
    hide WriteAll, FromTx, FromOutput, FromPair, IsInput, Stored;
    if k in g.sent {
      var r :| r in rs && k in SentKeys(r.tx, r.tx.inputs);
      StoredInput(g, r, k);
    } else {
      forall r, io | r in rs && k.tx == TxId(r.tx.chain, r.tx.txid) && io in r.tx.inputs
        ensures !IsKey(r.tx, io, k.from, k.vin)
      {
        if IsKey(r.tx, io, k.from, k.vin) {
          assert SentKey(r.tx, io) in SentKeys(r.tx, r.tx.inputs);
          StoredInput(g, r, k);
        }
      }
    }
  }

  /** The edge `k` has the amount of the first output with its address and position, and the change flag
      of the last. */
  ghost predicate IsOutput(r: Record, k: RecvEdge, e: Recv) {
    && (exists io :: FirstOn(r.tx, r.tx.outputs, k.to, k.vout, io) && e.value == io.value)
    && (exists io :: LastOn(r.tx, r.tx.outputs, k.to, k.vout, io) && e.isChange == io.isChange)
  }

  lemma StoredOutput(g: Graph, r: Record, k: RecvEdge)
    requires Stored(g, r) && k in RecvKeys(r.tx, r.tx.outputs)
    ensures k in g.received && IsOutput(r, k, g.received[k]) && k.tx == Tid(r)
  {
    FirstReceivedMeans(r.tx, r.tx.outputs, k);
    LastFlagMeans(r.tx, r.tx.outputs, k);
    KeysCarryTid(r);
    hide FirstOn, LastOn, Pairs, SentKeys, RecvKeys, FirstReceived, LastFlag, FirstSent, PropsOf;
  }

  /** Outputs: likewise. */
  lemma WrittenOutputs(rs: seq<Record>, k: RecvEdge)
    requires Consistent(rs)
    ensures var g := WriteAll(EmptyGraph, rs);
            if k in g.received then
              exists r :: r in rs && k.tx == TxId(r.tx.chain, r.tx.txid) && IsOutput(r, k, g.received[k])
            else
              forall r, io :: r in rs && k.tx == TxId(r.tx.chain, r.tx.txid) && io in r.tx.outputs ==>
                                !IsKey(r.tx, io, k.to, k.vout)
  {
    WrittenHolds(rs);
    var g := WriteAll(EmptyGraph, rs);
    hide WriteAll, FromTx, FromInput, FromPair, IsOutput, Stored;
    if k in g.received {
      var r :| r in rs && k in RecvKeys(r.tx, r.tx.outputs);
      StoredOutput(g, r, k);
    } else {
      forall r, io | r in rs && k.tx == TxId(r.tx.chain, r.tx.txid) && io in r.tx.outputs
        ensures !IsKey(r.tx, io, k.to, k.vout)
      {
        if IsKey(r.tx, io, k.to, k.vout) {
          assert RecvKey(r.tx, io) in RecvKeys(r.tx, r.tx.outputs);
          StoredOutput(g, r, k);
        }
      }
    }
  }

  /** Transfers: an edge for every pair of every record, with the pair's raw and attributed amounts and
      the record's time, asset and source. */
  lemma WrittenTransfers(rs: seq<Record>, k: TransferEdge)
    requires Consistent(rs)
    ensures var g := WriteAll(EmptyGraph, rs);
            && (k in g.transferred <==>
                  exists r, p :: r in rs && p in Pairs(r.tx) && k == TransferEdge(AddrId(r.tx.chain, p.from), AddrId(r.tx.chain, p.to), r.tx.txid))
            && forall r, p :: r in rs && p in Pairs(r.tx) && k == TransferEdge(AddrId(r.tx.chain, p.from), AddrId(r.tx.chain, p.to), r.tx.txid) ==>
                 g.transferred[k] == TransferProps(p.value, p.attributed, r.tx.timestamp, r.tx.assetKey, r.source)
  {
    WrittenHolds(rs);
    var g := WriteAll(EmptyGraph, rs);
    hide WriteAll, FromTx, FromInput, FromOutput, Pairs;
    forall r, p | r in rs && p in Pairs(r.tx) && k == TransferEdge(AddrId(r.tx.chain, p.from), AddrId(r.tx.chain, p.to), r.tx.txid)
      ensures k in g.transferred
      ensures g.transferred[k] == TransferProps(p.value, p.attributed, r.tx.timestamp, r.tx.assetKey, r.source)
    {
      StoredPair(g, r, p);
    }
  }

  lemma StoredPair(g: Graph, r: Record, p: Transfer)
    requires Stored(g, r) && p in Pairs(r.tx)
    ensures var k := TransferKey(r.tx, p);
            k in g.transferred
            && g.transferred[k] == TransferProps(p.value, p.attributed, r.tx.timestamp, r.tx.assetKey, r.source)
  {
    PairsFacts(r.tx);
    hide Pairs, Share, Amount, FirstSent, FirstReceived, LastFlag, SentKeys, RecvKeys;
    assert TransferKey(r.tx, p) in TransferKeys(r.tx, Pairs(r.tx));
  }

  /** Counts: an address's spends and receipts, where none at all still counts as one each, because the
      unmatched row is counted too. */
  lemma WrittenCounts(rs: seq<Record>, a: AddrId)
    requires a in WriteAll(EmptyGraph, rs).addrs
    ensures var g := WriteAll(EmptyGraph, rs);
            var spends, receipts := |set k | k in g.sent && k.from == a|, |set k | k in g.received && k.to == a|;
            g.addrs[a].txCount == (if spends > 0 then spends else 1) + (if receipts > 0 then receipts else 1)
  {
    MentionedChain(rs, a);
    hide MergeAll, ChainsOf;
  }

  lemma MentionedChain(rs: seq<Record>, a: AddrId)
    requires a in WriteAll(EmptyGraph, rs).addrs
    ensures a in MergeAll(EmptyGraph, rs).addrs && a.chain in ChainsOf(rs)
  {
    hide MergeAll, SentCount, ReceivedCount;
    NewAddressSummary(EmptyGraph, rs, a);
    var r :| r in rs && a in Touched(r);
    assert a.chain == r.tx.chain;
  }
}
