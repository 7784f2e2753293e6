/** The change heuristic in terms of the chain's history: which output of a written transaction is taken
    for change, read off the records. */
module ChangeRule {
  import opened Options
  import opened Chains
  import opened Transactions
  import opened Transfers
  import opened GraphState
  import opened Clustering
  import opened WrittenGraph

  /** The positions at which an address funds the transaction. */
  function Funds(r: Record, a: AddrId): set<int> {
    set io | io in r.tx.inputs && a == AddrId(r.tx.chain, NormalizeAddress(r.tx.chain, io.address)) :: io.index
  }

  /** No record shows the address before this one's time. */
  ghost predicate Debuts(rs: seq<Record>, r: Record, a: AddrId) {
    forall q :: q in rs && a in Touched(q) ==> q.tx.timestamp >= r.tx.timestamp
  }

  lemma DebutIs(rs: seq<Record>, r: Record, a: AddrId)
    requires Consistent(rs) && r in rs && a in Touched(r)
    ensures var g := WriteAll(EmptyGraph, rs); Debut(g, a, Tid(r)) <==> Debuts(rs, r, a)
  {
    WrittenTransactions(rs, Tid(r));
    WrittenAddressSummary(EmptyGraph, rs, a);
    hide WriteAll, Touched;
    var n := WriteAll(EmptyGraph, rs).addrs[a];
    var lo :| lo in rs && a in Touched(lo) && lo.tx.timestamp == n.firstSeen.value;
  }

  lemma SpentBackIs(g: Graph, rs: seq<Record>, r: Record, e: RecvEdge)
    requires Consistent(rs) && r in rs && Holds(g, rs) && e.tx == Tid(r)
    ensures |SpentBack(g, e)| == |Funds(r, e.to)|
  {
    hide Holds, Consistent, Funds, SentKeys;
    forall s ensures s in SpentBack(g, e) <==> s.from == e.to && s.tx == Tid(r) && s.vin in Funds(r, e.to) {
      SentIs(g, rs, r, s);
    }
    hide SpentBack;
    SpendsCount(SpentBack(g, e), Funds(r, e.to), e.to, Tid(r));
  }

  lemma {:induction false} SpendsCount(spends: set<SentEdge>, vins: set<int>, a: AddrId, t: TxId)
    requires forall s :: s in spends <==> s.from == a && s.tx == t && s.vin in vins
    ensures |spends| == |vins|
    decreases vins
  {
    if vins == {} {
      assert spends == {};
    } else {
      var i := SomeElement(vins);
      var s := SentEdge(a, t, i);
      assert s in spends;
      SpendsCount(spends - {s}, vins - {i}, a, t);
    }
  }

  lemma SomeElement<T>(s: set<T>) returns (x: T)
    requires s != {}
    ensures x in s
  {
    x :| x in s;
  }

  lemma SentIs(g: Graph, rs: seq<Record>, r: Record, s: SentEdge)
    requires Consistent(rs) && r in rs && Holds(g, rs)
    ensures s in g.sent && s.tx == Tid(r) <==> s in SentKeys(r.tx, r.tx.inputs)
    ensures s in SentKeys(r.tx, r.tx.inputs) <==> s.tx == Tid(r) && s.vin in Funds(r, s.from)
  {
    hide FromTx, FromOutput, FromPair, Pairs;
    assert Stored(g, r);
    KeysCarryTid(r);
    if s in g.sent && s.tx == Tid(r) {
      var q := InputRecord(rs, s);
      KeysCarryTid(q);
    }
  }

  lemma InputRecord(rs: seq<Record>, s: SentEdge) returns (q: Record)
    requires FromInput(rs, s)
    ensures q in rs && s in SentKeys(q.tx, q.tx.inputs)
  {
    hide SentKeys;
    q :| q in rs && s in SentKeys(q.tx, q.tx.inputs);
  }

  lemma ReceivedIs(g: Graph, rs: seq<Record>, r: Record, k: RecvEdge)
    requires Consistent(rs) && r in rs && Holds(g, rs)
    ensures k in g.received && k.tx == Tid(r) <==> k in RecvKeys(r.tx, r.tx.outputs)
  {
    hide FromTx, FromInput, FromPair, Pairs;
    assert Stored(g, r);
    KeysCarryTid(r);
    if k in g.received && k.tx == Tid(r) {
      assert FromOutput(rs, k);
      var q :| q in rs && k in RecvKeys(q.tx, q.tx.outputs);
      KeysCarryTid(q);
    }
  }

  // ---------------------------------------------------------------------------
  // Two outputs
  // ---------------------------------------------------------------------------

  /** The rows one output contributes: one, or one for each spend of its address. */
  function RowsAt(g: Graph, e: RecvEdge): set<Row> {
    if SpentBack(g, e) == {} then {Row(e, None)} else set s | s in SpentBack(g, e) :: Row(e, Some(s))
  }

  lemma {:induction false} SpendRows(e: RecvEdge, spends: set<SentEdge>)
    ensures |set s | s in spends :: Row(e, Some(s))| == |spends|
  {
    if spends != {} {
      var s :| s in spends;
      SpendRows(e, spends - {s});
      assert (set x | x in spends :: Row(e, Some(x))) == (set x | x in spends - {s} :: Row(e, Some(x))) + {Row(e, Some(s))};
    }
  }

  lemma RowsAtCount(g: Graph, e: RecvEdge)
    ensures |RowsAt(g, e)| == if SpentBack(g, e) == {} then 1 else |SpentBack(g, e)|
    ensures forall x :: x in RowsAt(g, e) ==> x.out == e && (x.spent.None? <==> SpentBack(g, e) == {})
    ensures Row(e, None) in RowsAt(g, e) <==> SpentBack(g, e) == {}
  {
    hide SpentBack;
    SpendRows(e, SpentBack(g, e));
  }

  /** `e` and `f` are the outputs of transaction `t`. */
  ghost predicate OutputsAre(g: Graph, t: TxId, e: RecvEdge, f: RecvEdge) {
    && t in g.txs && g.txs[t].outputCount == 2 && t.chain == BTC
    && e != f && forall k :: k in g.received && k.tx == t <==> k == e || k == f
  }

  lemma RowsOfTwo(g: Graph, t: TxId, e: RecvEdge, f: RecvEdge)
    requires OutputsAre(g, t, e, f)
    ensures Rows(g, t) == RowsAt(g, e) + RowsAt(g, f)
    ensures |Rows(g, t)| == |RowsAt(g, e)| + |RowsAt(g, f)|
  {
    hide SpentBack;
    assert e in g.received && f in g.received && e.tx == t && f.tx == t;
    RowsAtCount(g, e);
    RowsAtCount(g, f);
    forall x ensures x in Rows(g, t) <==> x in RowsAt(g, e) || x in RowsAt(g, f) { RowIn(g, t, x); }
    hide Rows, RowsAt;
    assert RowsAt(g, e) !! RowsAt(g, f);
  }

  lemma RowIn(g: Graph, t: TxId, x: Row)
    ensures x in Rows(g, t) <==> x.out in g.received && x.out.tx == t && x in RowsAt(g, x.out)
  {
    hide SpentBack;
  }

  /** When one of two outputs is selected. */
  lemma SelectsOfTwo(g: Graph, t: TxId, e: RecvEdge, f: RecvEdge)
    requires OutputsAre(g, t, e, f)
    ensures SelectsChange(g, e) <==>
              && |SpentBack(g, e)| == 0 && Debut(g, e.to, t)
              && |SpentBack(g, f)| <= 1 && (|SpentBack(g, f)| == 0 ==> !Debut(g, f.to, t))
  {
    RowsOfTwo(g, t, e, f);
    RowsAtCount(g, e);
    RowsAtCount(g, f);
    assert e in g.received && e.tx == t && f.tx == t;
    hide SpentBack, RowsAt, Rows, Debut;
    FreshAre(g, t, e, f);
    NoSpends(SpentBack(g, e));
    NoSpends(SpentBack(g, f));
    hide FreshRows;
  }

  lemma NoSpends<T>(s: set<T>)
    ensures |s| == 0 <==> s == {}
  {}

  lemma FreshAre(g: Graph, t: TxId, e: RecvEdge, f: RecvEdge)
    requires e != f && e.tx == t && f.tx == t && Rows(g, t) == RowsAt(g, e) + RowsAt(g, f)
    ensures FreshRows(g, t) == {Row(e, None)} <==>
              SpentBack(g, e) == {} && Debut(g, e.to, t) && (SpentBack(g, f) == {} ==> !Debut(g, f.to, t))
  {
    RowsAtCount(g, e);
    RowsAtCount(g, f);
    hide SpentBack, RowsAt, Rows, Debut;
    var chosen := FreshRows(g, t);
    forall x
      ensures x in chosen <==> ((x == Row(e, None) && SpentBack(g, e) == {} && Debut(g, e.to, t))
                                || (x == Row(f, None) && SpentBack(g, f) == {} && Debut(g, f.to, t)))
    {
      if x in RowsAt(g, e) && x.spent.None? { assert x == Row(e, None); }
      if x in RowsAt(g, f) && x.spent.None? { assert x == Row(f, None); }
    }
    assert Row(e, None) != Row(f, None);
    if chosen == {Row(e, None)} {
      assert Row(e, None) in chosen;
      assert Row(f, None) !in chosen;
    }
  }

  // ---------------------------------------------------------------------------
  // The rule
  // ---------------------------------------------------------------------------

  /** In a freshly written graph the first of a Bitcoin transaction's two outputs is taken for change
      exactly when its address is new with this transaction and does not fund it, while the other's
      funds it once, or does not and is not new. Funding it twice hides the change, because the other
      output then yields two rows. */
  lemma ChangeRuleExactly(rs: seq<Record>, r: Record, o: TxIO, p: TxIO)
    requires Consistent(rs) && r in rs && r.tx.chain == BTC
    requires r.tx.outputs == [o, p] || r.tx.outputs == [p, o]
    requires RecvKey(r.tx, o) != RecvKey(r.tx, p)
    ensures var a, b := AddrId(BTC, o.address), AddrId(BTC, p.address);
            SelectsChange(WriteAll(EmptyGraph, rs), RecvKey(r.tx, o)) <==>
              && Funds(r, a) == {} && Debuts(rs, r, a)
              && (|Funds(r, b)| == 1 || (Funds(r, b) == {} && !Debuts(rs, r, b)))
  {
    var g, e, f := WriteAll(EmptyGraph, rs), RecvKey(r.tx, o), RecvKey(r.tx, p);
    OutputsWritten(rs, r, o, p);
    WrittenHolds(rs);
    DebutIs(rs, r, e.to);
    DebutIs(rs, r, f.to);
    SpentBackIs(g, rs, r, e);
    SpentBackIs(g, rs, r, f);
    hide WriteAll, Holds, Consistent, Debuts, Debut, SelectsChange, SpentBack, Funds, OutputsAre;
    SelectsOfTwo(g, Tid(r), e, f);
    NoSpends(Funds(r, e.to));
    NoSpends(Funds(r, f.to));
  }

  lemma OutputsWritten(rs: seq<Record>, r: Record, o: TxIO, p: TxIO)
    requires Consistent(rs) && r in rs && r.tx.chain == BTC
    requires r.tx.outputs == [o, p] || r.tx.outputs == [p, o]
    requires RecvKey(r.tx, o) != RecvKey(r.tx, p)
    ensures OutputsAre(WriteAll(EmptyGraph, rs), Tid(r), RecvKey(r.tx, o), RecvKey(r.tx, p))
    ensures RecvKey(r.tx, o).to in Touched(r) && RecvKey(r.tx, p).to in Touched(r)
  {
    hide *;
    WrittenHolds(rs);
    KeysOfTwo(r, o, p);
    OutputsHeld(WriteAll(EmptyGraph, rs), rs, r, RecvKey(r.tx, o), RecvKey(r.tx, p));
  }

  lemma OutputsHeld(g: Graph, rs: seq<Record>, r: Record, e: RecvEdge, f: RecvEdge)
    requires Holds(g, rs) && Consistent(rs) && r in rs && r.tx.chain == BTC && |r.tx.outputs| == 2
    requires e != f && RecvKeys(r.tx, r.tx.outputs) == {e, f}
    ensures OutputsAre(g, Tid(r), e, f)
  {
    hide *;
    StoredRecord(g, rs, r);
    StoredNode(g, r);
    forall k ensures k in g.received && k.tx == Tid(r) <==> k == e || k == f {
      ReceivedIs(g, rs, r, k);
    }
    OutputsAreTwo(g, Tid(r), e, f);
  }

  lemma OutputsAreTwo(g: Graph, t: TxId, e: RecvEdge, f: RecvEdge)
    requires t in g.txs && g.txs[t].outputCount == 2 && t.chain == BTC && e != f
    requires forall k :: k in g.received && k.tx == t <==> k == e || k == f
    ensures OutputsAre(g, t, e, f)
  {}

  lemma StoredRecord(g: Graph, rs: seq<Record>, r: Record)
    requires Holds(g, rs) && r in rs
    ensures Stored(g, r)
  {
    hide Stored;
  }

  lemma StoredNode(g: Graph, r: Record)
    requires Stored(g, r)
    ensures Tid(r) in g.txs && g.txs[Tid(r)].outputCount == |r.tx.outputs| && Tid(r).chain == r.tx.chain
  {}

  lemma KeysOfTwo(r: Record, o: TxIO, p: TxIO)
    requires r.tx.outputs == [o, p] || r.tx.outputs == [p, o]
    ensures RecvKeys(r.tx, r.tx.outputs) == {RecvKey(r.tx, o), RecvKey(r.tx, p)}
    ensures RecvKey(r.tx, o).to in Touched(r) && RecvKey(r.tx, p).to in Touched(r)
  {
    assert o in r.tx.outputs && p in r.tx.outputs;
    assert forall io :: io in r.tx.outputs <==> io == o || io == p;
    hide IdOf;
  }

  /** Nothing is selected on another chain or in a transaction that does not have two outputs. */
  lemma NoOtherChange(rs: seq<Record>, r: Record, e: RecvEdge)
    requires Consistent(rs) && r in rs && e.tx == Tid(r)
    requires r.tx.chain != BTC || |r.tx.outputs| != 2
    ensures !SelectsChange(WriteAll(EmptyGraph, rs), e)
  {
    WrittenHolds(rs);
    hide WriteAll, Rows, FreshRows, Consistent;
    StoredRecord(WriteAll(EmptyGraph, rs), rs, r);
    StoredNode(WriteAll(EmptyGraph, rs), r);
  }
}
