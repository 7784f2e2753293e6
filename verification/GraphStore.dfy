/** The graph database as an object: the writer and the clustering job, statement by statement, each
    proved to carry out its transition. */
module GraphStore {
  import opened Options
  import opened Text
  import opened Chains
  import opened Transactions
  import opened Transfers
  import opened GraphState
  import opened Ownership
  import opened Clustering
  import opened ClusterInvariant

  /** One entry of the `$clusters` parameter. */
  datatype ClusterRow = ClusterRow(key: string, members: seq<string>, size: nat, heuristic: Heuristic)

  // ---------------------------------------------------------------------------
  // Single MERGEs build up a record's transition
  // ---------------------------------------------------------------------------

  lemma TouchOneMore(m: map<AddrId, AddrNode>, ids: set<AddrId>, a: AddrId, t: int, source: string)
    ensures var n := AddrsAfter(m, ids, t, source);
            n[a := Touch(Get(n, a), t, source)] == AddrsAfter(m, ids + {a}, t, source)
  {
    hide Touch;
    TouchTwice(Get(m, a), t, source, t, source);
  }

  lemma SentOneMore(m: map<SentEdge, real>, tx: ChainTransaction, ios: seq<TxIO>, io: TxIO)
    ensures var n, k := SentAfter(m, tx, ios), SentKey(tx, io);
            SentAfter(m, tx, ios + [io]) == if k in n then n else n[k := io.value]
  {
    hide SentKey;
    assert (ios + [io])[..|ios|] == ios;
    assert SentKeys(tx, ios + [io]) == SentKeys(tx, ios) + {SentKey(tx, io)};
  }

  lemma ReceivedOneMore(m: map<RecvEdge, Recv>, tx: ChainTransaction, ios: seq<TxIO>, io: TxIO)
    ensures var n, k := ReceivedAfter(m, tx, ios), RecvKey(tx, io);
            ReceivedAfter(m, tx, ios + [io]) == n[k := Recv(if k in n then n[k].value else io.value, io.isChange)]
  {
    hide RecvKey, RecvKeys, FirstReceived, LastFlag;
    OutputsOneMore(tx, ios, io);
  }

  lemma OutputsOneMore(tx: ChainTransaction, ios: seq<TxIO>, io: TxIO)
    ensures RecvKeys(tx, ios + [io]) == RecvKeys(tx, ios) + {RecvKey(tx, io)}
    ensures forall k :: FirstReceived(tx, ios + [io], k) == if k in RecvKeys(tx, ios) then FirstReceived(tx, ios, k) else io.value
    ensures forall k :: LastFlag(tx, ios + [io], k) == if RecvKey(tx, io) == k then io.isChange else LastFlag(tx, ios, k)
  {
    hide RecvKey;
    assert (ios + [io])[..|ios|] == ios;
  }

  lemma TransferredOneMore(m: map<TransferEdge, TransferProps>, r: Record, ps: seq<Transfer>, p: Transfer)
    requires p in Pairs(r.tx)
    ensures TransferredAfter(m, r, ps + [p])
         == TransferredAfter(m, r, ps)[TransferKey(r.tx, p) :=
              TransferProps(p.value, p.attributed, r.tx.timestamp, r.tx.assetKey, r.source)]
  {
    hide Amount, Share, Pairs;
    PairsFacts(r.tx);
    assert p == PairOf(r.tx, p.from, p.to);
    assert TransferKeys(r.tx, ps + [p]) == TransferKeys(r.tx, ps) + {TransferKey(r.tx, p)};
  }

  lemma EndsOneMore(tx: ChainTransaction, ios: seq<TxIO>, io: TxIO)
    ensures Ends(tx, ios + [io]) == Ends(tx, ios) + {IdOf(tx, io)}
  {
    hide IdOf;
  }

  // ---------------------------------------------------------------------------
  // The resolver's loops
  // ---------------------------------------------------------------------------

  /** Memberships once the addresses in `done` have been processed. */
  ghost function MembersDone(g: Graph, done: set<AddrId>): map<Membership, Heuristic>
    requires done <= ActiveOn(g, BTC)
  {
    map m | m in (set x | x in g.members && x.addr !in done) + (set a | a in done :: Membership(a, KeyOf(g, a)))
      :: if m.addr in done then HeuristicFor(|Gathered(g, m.key)|) else g.members[m]
  }

  /** Clusters once the keys in `done` have been processed. */
  ghost function ClustersDone(g: Graph, done: set<string>): map<string, Cluster> {
    map k | k in g.clusters.Keys + done
      :: if k !in done then g.clusters[k]
         else if k in g.clusters then g.clusters[k].(size := |Gathered(g, k)|)
         else Cluster(BTC, HeuristicFor(|Gathered(g, k)|), |Gathered(g, k)|)
  }

  lemma MemberDoneMeans(g: Graph, done: set<AddrId>, m: Membership)
    requires done <= ActiveOn(g, BTC)
    ensures m in MembersDone(g, done) <==> if m.addr in done then m.key == KeyOf(g, m.addr) else m in g.members
    ensures m in MembersDone(g, done) ==>
              MembersDone(g, done)[m] == if m.addr in done then HeuristicFor(|Gathered(g, m.key)|) else g.members[m]
  {
    hide Active, ActiveOn, KeyOf, Gathered;
  }

  lemma MemberOneMore(g: Graph, done: set<AddrId>, a: AddrId, ms: map<Membership, Heuristic>)
    requires done <= ActiveOn(g, BTC) && a in ActiveOn(g, BTC)
    requires ms == MembersDone(g, done)
    ensures var k := KeyOf(g, a);
            var kept := map m | m in ms && !(m.addr == a && m.key != k) :: ms[m];
            kept[Membership(a, k) := HeuristicFor(|Gathered(g, k)|)] == MembersDone(g, done + {a})
  {
    hide *;
    var k, all := KeyOf(g, a), MembersDone(g, done + {a});
    var kept := map m | m in ms && !(m.addr == a && m.key != k) :: ms[m];
    var next := kept[Membership(a, k) := HeuristicFor(|Gathered(g, k)|)];
    forall m ensures m in next <==> m in all {
      MemberDoneMeans(g, done, m);
      MemberDoneMeans(g, done + {a}, m);
    }
    forall m | m in next ensures next[m] == all[m] {
      MemberDoneMeans(g, done, m);
      MemberDoneMeans(g, done + {a}, m);
    }
    assert next.Keys == all.Keys;
  }

  lemma ClusterOneMore(g: Graph, done: set<string>, k: string, cs: map<string, Cluster>)
    requires cs == ClustersDone(g, done)
    ensures var n := |Gathered(g, k)|;
            ClustersDone(g, done + {k}) == cs[k := if k in cs then cs[k].(size := n) else Cluster(BTC, HeuristicFor(n), n)]
  {
    hide Gathered;
  }

  /** What `gds.wcc.stream` yields for Bitcoin, each component sorted: the active addresses, split
      by connectedness. The algorithm itself is not part of this model. */
  ghost predicate WccStream(g: Graph, components: seq<seq<string>>) {
    && (forall i, x :: 0 <= i < |components| && x in components[i] ==> AddrId(BTC, x) in ActiveOn(g, BTC))
    && (forall a :: a in ActiveOn(g, BTC) ==> exists i :: 0 <= i < |components| && a.norm in components[i])
    && (forall i, j, x, y :: 0 <= i < |components| && 0 <= j < |components| && x in components[i] && y in components[j] ==>
          (i == j <==> Connected(g.sameOwner, AddrId(BTC, x), AddrId(BTC, y))))
    && (forall i, p, q :: 0 <= i < |components| && 0 <= p < q < |components[i]| ==>
          Less(components[i][p], components[i][q]))
  }

  ghost function AddrsIn(members: seq<string>): set<AddrId> {
    set x | x in members :: AddrId(BTC, x)
  }

  /** The row built from a component says what the graph says: its key is each member's key, and its
      members are all that the key gathers. */
  ghost predicate RowRight(g: Graph, row: ClusterRow) {
    && AddrsIn(row.members) == Gathered(g, row.key)
    && (forall x :: x in row.members ==> AddrId(BTC, x) in ActiveOn(g, BTC) && KeyOf(g, AddrId(BTC, x)) == row.key)
    && row.size == |Gathered(g, row.key)|
    && row.heuristic == HeuristicFor(row.size)
    && row.members != []
  }

  function RowOf(members: seq<string>): ClusterRow
    requires members != []
  {
    ClusterRow(Prefix(BTC) + members[0], members, |members|, HeuristicFor(|members|))
  }

  lemma {:induction false} DistinctCount(members: seq<string>)
    requires forall p, q :: 0 <= p < q < |members| ==> members[p] != members[q]
    ensures |AddrsIn(members)| == |members|
  {
    if members != [] {
      var init, last := members[..|members| - 1], members[|members| - 1];
      DistinctCount(init);
      assert members == init + [last];
      assert AddrsIn(members) == AddrsIn(init) + {AddrId(BTC, last)};
    }
  }

  /** The first of a sorted component is its smallest, so it names the key. */
  lemma ComponentKey(g: Graph, components: seq<seq<string>>, i: nat, x: string)
    requires WccStream(g, components) && i < |components| && x in components[i]
    ensures AddrId(BTC, x) in ActiveOn(g, BTC)
    ensures KeyOf(g, AddrId(BTC, x)) == Prefix(BTC) + components[i][0]
  {
    hide Active, ActiveOn, Connected, KeyOf, Less;
    var first := components[i][0];
    assert first in components[i];
    assert AddrId(BTC, first) in ActiveOn(g, BTC) && AddrId(BTC, x) in ActiveOn(g, BTC);
    assert Connected(g.sameOwner, AddrId(BTC, first), AddrId(BTC, x));
    KeysAgree(g, AddrId(BTC, first), AddrId(BTC, x));
    var n := KeyMeans(g, AddrId(BTC, first));
    ConnectedSelf(g.sameOwner, AddrId(BTC, first));
    assert AtMost(n.norm, first);
    var j :| 0 <= j < |components| && n.norm in components[j];
    BitcoinAddr(g, n);
    assert i == j;
    var q :| 0 <= q < |components[i]| && components[i][q] == n.norm;
    if q > 0 { AtMostAntisymmetric(n.norm, first); LessIrreflexive(first); }
  }

  lemma BitcoinAddr(g: Graph, n: AddrId)
    requires n in ActiveOn(g, BTC)
    ensures n == AddrId(BTC, n.norm)
  {}

  lemma ComponentRow(g: Graph, components: seq<seq<string>>, i: nat)
    requires WccStream(g, components) && i < |components| && components[i] != []
    ensures RowRight(g, RowOf(components[i]))
  {
    hide Active, ActiveOn, Connected, KeyOf, Prefix;
    var members := components[i];
    var key := Prefix(BTC) + members[0];
    forall x | x in members ensures KeyOf(g, AddrId(BTC, x)) == key && AddrId(BTC, x) in ActiveOn(g, BTC) {
      ComponentKey(g, components, i, x);
    }
    assert members[0] in members;
    forall a ensures a in AddrsIn(members) <==> a in Gathered(g, key) {
      if a in Gathered(g, key) {
        BitcoinAddr(g, a);
        KeysAgree(g, AddrId(BTC, members[0]), a);
        var j :| 0 <= j < |components| && a.norm in components[j];
        assert i == j;
      }
    }
    forall p, q | 0 <= p < q < |members| ensures members[p] != members[q] {
      LessIrreflexive(members[p]);
    }
    DistinctCount(members);
  }

  /** The rows cover every active address. */
  ghost predicate Cover(g: Graph, rows: seq<ClusterRow>) {
    forall a :: a in ActiveOn(g, BTC) ==> exists r :: 0 <= r < |rows| && a.norm in rows[r].members
  }

  /** The addresses, and the keys, of the first rows. */
  ghost function AddrsOf(rows: seq<ClusterRow>): set<AddrId> {
    if rows == [] then {} else AddrsOf(rows[..|rows| - 1]) + AddrsIn(rows[|rows| - 1].members)
  }

  ghost function KeysOf(rows: seq<ClusterRow>): set<string> {
    if rows == [] then {} else KeysOf(rows[..|rows| - 1]) + {rows[|rows| - 1].key}
  }

  lemma {:induction false} RowAddrs(rows: seq<ClusterRow>, r: nat, x: string)
    requires r < |rows| && x in rows[r].members
    ensures AddrId(BTC, x) in AddrsOf(rows) && rows[r].key in KeysOf(rows)
    decreases |rows|
  {
    if r < |rows| - 1 { RowAddrs(rows[..|rows| - 1], r, x); }
  }

  lemma {:induction false} RowsActive(g: Graph, rows: seq<ClusterRow>)
    requires forall r :: 0 <= r < |rows| ==> RowRight(g, rows[r])
    ensures AddrsOf(rows) <= ActiveOn(g, BTC)
    ensures KeysOf(rows) <= KeysInUse(g)
  {
    hide Active, KeyOf, Gathered, ActiveOn;
    if rows != [] {
      var last := rows[|rows| - 1];
      RowsActive(g, rows[..|rows| - 1]);
      assert RowRight(g, last);
      assert last.members[0] in last.members;
      var a := AddrId(BTC, last.members[0]);
      assert KeyOf(g, a) == last.key;
    }
  }

  lemma RowCovers(g: Graph, rows: seq<ClusterRow>, a: AddrId)
    requires Cover(g, rows) && forall r :: 0 <= r < |rows| ==> RowRight(g, rows[r])
    requires a in ActiveOn(g, BTC)
    ensures a in AddrsOf(rows) && KeyOf(g, a) in KeysOf(rows)
  {
    hide Active, KeyOf, Gathered, ActiveOn, RowRight, AddrsOf, KeysOf;
    var r :| 0 <= r < |rows| && a.norm in rows[r].members;
    RowAddrs(rows, r, a.norm);
    BitcoinAddr(g, a);
    RowKey(g, rows[r], a.norm);
  }

  /** All rows together: all active addresses and all keys in use. */
  lemma RowsComplete(g: Graph, rows: seq<ClusterRow>)
    requires Cover(g, rows) && forall r :: 0 <= r < |rows| ==> RowRight(g, rows[r])
    ensures AddrsOf(rows) == ActiveOn(g, BTC) && KeysOf(rows) == KeysInUse(g)
  {
    hide Active, KeyOf, Gathered, ActiveOn, RowRight, AddrsOf, KeysOf, Cover;
    RowsActive(g, rows);
    forall a | a in ActiveOn(g, BTC) ensures a in AddrsOf(rows) && KeyOf(g, a) in KeysOf(rows) {
      RowCovers(g, rows, a);
    }
  }

  lemma RowKey(g: Graph, row: ClusterRow, x: string)
    requires RowRight(g, row) && x in row.members
    ensures AddrId(BTC, x) in ActiveOn(g, BTC) && KeyOf(g, AddrId(BTC, x)) == row.key
  {
    hide ActiveOn, KeyOf, Gathered;
  }

  lemma AddrsInMore(members: seq<string>, n: nat)
    requires n < |members|
    ensures AddrsIn(members[..n + 1]) == AddrsIn(members[..n]) + {AddrId(BTC, members[n])}
  {
    assert members[..n + 1] == members[..n] + [members[n]];
  }

  // ---------------------------------------------------------------------------
  // The database
  // ---------------------------------------------------------------------------

  // ---------------------------------------------------------------------------
  // The other statements' loops
  // ---------------------------------------------------------------------------

  /** Addresses once the counts of those in `done` have been refreshed. */
  function CountsDone(g: Graph, done: set<AddrId>): map<AddrId, AddrNode> {
    map a | a in g.addrs ::
      if a in done then g.addrs[a].(txCount := RowCount(SentCount(g, a)) + RowCount(ReceivedCount(g, a))) else g.addrs[a]
  }

  lemma CountOneMore(g: Graph, done: set<AddrId>, a: AddrId)
    requires a in g.addrs
    ensures a in CountsDone(g, done)
    ensures CountsDone(g, done + {a})
         == CountsDone(g, done)[a := CountsDone(g, done)[a].(txCount :=
              RowCount(|set e | e in g.sent && e.from == a|) + RowCount(|set e | e in g.received && e.to == a|))]
  {
    assert SentCount(g, a) == |set e | e in g.sent && e.from == a|;
    assert ReceivedCount(g, a) == |set e | e in g.received && e.to == a|;
    hide SentCount, ReceivedCount, RowCount;
  }

  lemma NothingCounted(g: Graph)
    ensures CountsDone(g, {}) == g.addrs
  {
    hide SentCount, ReceivedCount;
  }

  lemma AllCounted(g: Graph, chain: Chain)
    ensures CountsDone(g, set a | a in g.addrs && a.chain == chain) == Refresh(g, {chain}).addrs
  {
    hide SentCount, ReceivedCount;
  }

  /** The elements a MATCH keeps. */
  function Matching<T>(s: set<T>, p: T -> bool): set<T> { set x | x in s && p(x) }

  lemma MatchingMore<T>(s: set<T>, p: T -> bool, x: T)
    requires x !in s
    ensures |Matching(s + {x}, p)| == |Matching(s, p)| + (if p(x) then 1 else 0)
  {
    assert Matching(s + {x}, p) == Matching(s, p) + (if p(x) then {x} else {});
  }

  /** The owner edges of co-spends with one edge from each set. */
  function CoSpends(a: set<SentEdge>, b: set<SentEdge>): set<OwnerEdge> {
    set s, t | s in a && t in b && s.tx == t.tx && s.tx.chain == BTC && Less(s.from.norm, t.from.norm)
             :: OwnerEdge(s.from, t.from, CommonInput)
  }

  lemma NoCoSpends(a: set<SentEdge>, b: set<SentEdge>)
    requires a == {}
    ensures CoSpends(a, b) == {}
  {}

  lemma OneCoSpend(s: SentEdge, done: set<SentEdge>, t: SentEdge)
    ensures CoSpends({s}, done + {t})
         == CoSpends({s}, done) + (if s.tx == t.tx && s.tx.chain == BTC && Less(s.from.norm, t.from.norm)
                                   then {OwnerEdge(s.from, t.from, CommonInput)} else {})
  {
    hide Less;
  }

  lemma MoreSpends(done: set<SentEdge>, s: SentEdge, all: set<SentEdge>)
    ensures CoSpends(done + {s}, all) == CoSpends(done, all) + CoSpends({s}, all)
  {
    hide Less;
  }

  lemma AllCoSpends(g: Graph)
    ensures CoSpends(g.sent.Keys, g.sent.Keys) == CommonInputEdges(g)
  {
    hide Less;
  }

  /** Flags and owner edges once the transactions in `done` have been processed. */
  function FlagsDone(g: Graph, done: set<TxId>): map<RecvEdge, Recv> {
    map e | e in g.received ::
      if e.tx in done && SelectsChange(g, e) then g.received[e].(isChange := true) else g.received[e]
  }

  function ChangeDone(g: Graph, done: set<TxId>): set<OwnerEdge> {
    set e, s | e in g.received && s in g.sent && e.tx in done && SelectsChange(g, e) && s.tx == e.tx
               && s.from.norm != e.to.norm
             :: OwnerEdge(s.from, e.to, ChangeAddress)
  }

  /** The owner edges from some spenders to one change output. */
  function Links(e: RecvEdge, a: set<SentEdge>): set<OwnerEdge> {
    set s | s in a && s.tx == e.tx && s.from.norm != e.to.norm :: OwnerEdge(s.from, e.to, ChangeAddress)
  }

  lemma OneLink(e: RecvEdge, done: set<SentEdge>, s: SentEdge)
    ensures Links(e, done + {s})
         == Links(e, done) + (if s.tx == e.tx && s.from.norm != e.to.norm
                              then {OwnerEdge(s.from, e.to, ChangeAddress)} else {})
  {}

  lemma NoChange(g: Graph)
    ensures FlagsDone(g, {}) == g.received && ChangeDone(g, {}) == {}
  {
    hide SelectsChange;
  }

  lemma AllChange(g: Graph)
    ensures FlagsDone(g, g.txs.Keys) == FlagChange(g) && ChangeDone(g, g.txs.Keys) == ChangeEdges(g)
  {
    forall e: RecvEdge | SelectsChange(g, e) ensures e.tx in g.txs {}
    hide SelectsChange;
  }

  /** A transaction none of whose outputs is selected adds nothing. */
  lemma NotSelected(g: Graph, done: set<TxId>, t: TxId)
    requires t.chain != BTC || t !in g.txs || g.txs[t].outputCount != 2 || forall e: RecvEdge :: e.tx == t ==> !SelectsChange(g, e)
    ensures FlagsDone(g, done + {t}) == FlagsDone(g, done) && ChangeDone(g, done + {t}) == ChangeDone(g, done)
  {
    forall e: RecvEdge | e.tx == t ensures !SelectsChange(g, e) {}
    hide SelectsChange;
  }

  lemma NoOutput(g: Graph, t: TxId)
    requires |Rows(g, t)| != 2 || |FreshRows(g, t)| != 1
    ensures forall e: RecvEdge :: e.tx == t ==> !SelectsChange(g, e)
  {
    hide Rows, FreshRows;
  }

  lemma OnlyOne<T>(s: set<T>, x: T)
    requires |s| == 1 && x in s
    ensures s == {x}
  {
    assert |s - {x}| == 0;
  }

  /** The one fresh row of a transaction names its selected output. */
  lemma SelectedOutput(g: Graph, t: TxId, x: Row)
    requires t in g.txs && t.chain == BTC && g.txs[t].outputCount == 2
    requires |Rows(g, t)| == 2 && FreshRows(g, t) == {x}
    ensures x.out in g.received && x.out.tx == t && SelectsChange(g, x.out)
    ensures forall e: RecvEdge :: e.tx == t && SelectsChange(g, e) ==> e == x.out
  {
    assert x in FreshRows(g, t);
    assert x == Row(x.out, None);
    hide Rows, FreshRows;
    forall e: RecvEdge | e.tx == t && SelectsChange(g, e) ensures e == x.out {
      assert Row(e, None) in FreshRows(g, t);
    }
  }

  lemma FlagsKeys(g: Graph, done: set<TxId>)
    ensures FlagsDone(g, done).Keys == g.received.Keys
  {
    hide SelectsChange;
  }

  lemma FlagOneMore(g: Graph, done: set<TxId>, e: RecvEdge)
    requires e in g.received && SelectsChange(g, e) && forall x: RecvEdge :: x.tx == e.tx && SelectsChange(g, x) ==> x == e
    requires e.tx !in done
    ensures e in FlagsDone(g, done)
    ensures FlagsDone(g, done + {e.tx})
         == FlagsDone(g, done)[e := FlagsDone(g, done)[e].(isChange := true)]
  {
    hide SelectsChange;
  }

  lemma LinkOneMore(g: Graph, done: set<TxId>, e: RecvEdge)
    requires e in g.received && SelectsChange(g, e) && forall x: RecvEdge :: x.tx == e.tx && SelectsChange(g, x) ==> x == e
    ensures ChangeDone(g, done + {e.tx}) == ChangeDone(g, done) + Links(e, g.sent.Keys)
  {
    hide SelectsChange;
  }

  /** Rows read the keys of the edges, not the flags set so far. */
  lemma SameRows(g: Graph, h: Graph, t: TxId)
    requires h.sent == g.sent && h.received.Keys == g.received.Keys
    ensures Rows(h, t) == Rows(g, t)
  {
    assert forall e :: SpentBack(h, e) == SpentBack(g, e);
    hide SpentBack;
  }

  lemma FreshMeans(g: Graph, h: Graph, t: TxId, outs: set<Row>)
    requires h.addrs == g.addrs && h.txs == g.txs && outs == Rows(g, t)
    ensures (set x | x in outs && Debut(h, x.out.to, t) && x.spent.None?) == FreshRows(g, t)
  {
    hide Rows;
  }

  /** The rows of the outputs in `done`. */
  function RowsOver(g: Graph, t: TxId, done: set<RecvEdge>): set<Row> {
    set r | r in Rows(g, t) && r.out in done
  }

  lemma RowsOneMore(g: Graph, t: TxId, done: set<RecvEdge>, e: RecvEdge)
    requires e in g.received
    ensures (var spends := set s | s in g.sent && s.tx == t && s.from == e.to;
             RowsOver(g, t, done + {e}) == RowsOver(g, t, done) +
               (if e.tx != t then {} else if spends == {} then {Row(e, None)} else set s | s in spends :: Row(e, Some(s))))
  {
    var spends := set s | s in g.sent && s.tx == t && s.from == e.to;
    assert e.tx == t ==> SpentBack(g, e) == spends;
    hide SpentBack;
    forall r: Row | r.out == e
      ensures r in Rows(g, t)
         <==> e.tx == t && if spends == {} then r == Row(e, None) else exists s :: s in spends && r == Row(e, Some(s))
    {}
  }

  lemma AllRows(g: Graph, t: TxId)
    ensures RowsOver(g, t, g.received.Keys) == Rows(g, t)
  {
    hide SpentBack;
  }

  /** A map after MERGE with ON CREATE SET of some keys. */
  function Created<K, V>(m: map<K, V>, ks: set<K>, v: V): map<K, V> {
    map k | k in m.Keys + ks :: if k in m then m[k] else v
  }

  lemma CreatedMore<K, V>(m: map<K, V>, ks: set<K>, k: K, v: V)
    ensures Created(m, {}, v) == m
    ensures Created(m, ks + {k}, v) == if k in Created(m, ks, v) then Created(m, ks, v) else Created(m, ks, v)[k := v]
  {}

  function SingleKeys(s: set<AddrId>): set<string> { set a | a in s :: SingleKey(a) }

  function SingleMembers(s: set<AddrId>): set<Membership> { set a | a in s :: Membership(a, SingleKey(a)) }

  lemma OneMoreSingle(s: set<AddrId>, a: AddrId)
    ensures SingleKeys({}) == {} && SingleMembers({}) == {}
    ensures SingleKeys(s + {a}) == SingleKeys(s) + {SingleKey(a)}
    ensures SingleMembers(s + {a}) == SingleMembers(s) + {Membership(a, SingleKey(a))}
  {
    hide SingleKey;
  }

  lemma AllAccounts(g: Graph, chain: Chain)
    ensures ResolveAccount(g, chain)
         == g.(clusters := Created(g.clusters, SingleKeys(ActiveOn(g, chain)), Cluster(chain, AccountSingle, 1)),
               members := Created(g.members, SingleMembers(ActiveOn(g, chain)), AccountSingle))
  {
    hide SingleKey, ActiveOn;
  }

  class MoneyGraph {
    var addrs: map<AddrId, AddrNode>
    var txs: map<TxId, TxNode>
    var sent: map<SentEdge, real>
    var received: map<RecvEdge, Recv>
    var transferred: map<TransferEdge, TransferProps>
    var sameOwner: set<OwnerEdge>
    var members: map<Membership, Heuristic>
    var clusters: map<string, Cluster>

    function State(): Graph
      reads this
    {
      Graph(addrs, txs, sent, received, transferred, sameOwner, members, clusters)
    }

    constructor ()
      ensures State() == EmptyGraph
    {
      addrs, txs, sent, received, transferred := map[], map[], map[], map[], map[];
      sameOwner, members, clusters := {}, map[], map[];
    }

    /** `_MERGE_TX` for one row; the number of transfer edges merged is returned. */
    method MergeTransaction(r: Record) returns (edges: nat)
      modifies this
      ensures State() == MergeTx(old(State()), r)
      ensures edges == |Pairs(r.tx)|
    {
      hide Touch, TxAfter, Pairs, SentAfter, ReceivedAfter, TransferredAfter, AddrsAfter, Ends;
      txs := MergeNode(txs, r);
      MergeInputs(r);
      MergeOutputs(r);
      AddrsUnion(old(addrs), Ends(r.tx, r.tx.inputs), Ends(r.tx, r.tx.outputs), r.tx.timestamp, r.source);
      assert Touched(r) <= addrs.Keys by { TouchedArePresent(old(addrs), r); }
      edges := MergeTransfers(r);
    }

    /** The transfers subquery: each pair whose two ends MATCH, which by now is every pair. */
    method MergeTransfers(r: Record) returns (edges: nat)
      requires Touched(r) <= addrs.Keys
      modifies this`transferred
      ensures transferred == TransferredAfter(old(transferred), r, Pairs(r.tx))
      ensures edges == |Pairs(r.tx)|
    {
      hide Pairs, Touched, TransferredAfter;
      var tx := r.tx;
      var pairs := TransferPairs(tx);
      edges := 0;
      NoTransfers(transferred, r);
      assert pairs[..0] == [];
      for n := 0 to |pairs|
        invariant transferred == TransferredAfter(old(transferred), r, pairs[..n])
        invariant edges == n
      {
        var p := pairs[n];
        assert p in pairs;
        TransferEndsExist(r, p);
        TransferredOneMore(old(transferred), r, pairs[..n], p);
        assert pairs[..n + 1] == pairs[..n] + [p];
        if AddrId(tx.chain, p.from) in addrs && AddrId(tx.chain, p.to) in addrs {
          transferred := transferred[TransferKey(tx, p) :=
            TransferProps(p.value, p.attributed, tx.timestamp, tx.assetKey, r.source)];
          edges := edges + 1;
        }
      }
      assert pairs[..|pairs|] == pairs;
    }

    /** The inputs subquery. */
    method MergeInputs(r: Record)
      modifies this`addrs, this`sent
      ensures addrs == AddrsAfter(old(addrs), Ends(r.tx, r.tx.inputs), r.tx.timestamp, r.source)
      ensures sent == SentAfter(old(sent), r.tx, r.tx.inputs)
    {
      hide Touch, FirstSent, SentKeys, Ends;
      var tx := r.tx;
      NothingMerged(r, addrs, sent, received);
      assert tx.inputs[..0] == [];
      for n := 0 to |tx.inputs|
        invariant addrs == AddrsAfter(old(addrs), Ends(tx, tx.inputs[..n]), tx.timestamp, r.source)
        invariant sent == SentAfter(old(sent), tx, tx.inputs[..n])
      {
        var io := tx.inputs[n];
        assert tx.inputs[..n + 1] == tx.inputs[..n] + [io];
        EndsOneMore(tx, tx.inputs[..n], io);
        TouchOneMore(old(addrs), Ends(tx, tx.inputs[..n]), IdOf(tx, io), tx.timestamp, r.source);
        SentOneMore(old(sent), tx, tx.inputs[..n], io);
        addrs := addrs[IdOf(tx, io) := Touch(Get(addrs, IdOf(tx, io)), tx.timestamp, r.source)];
        if SentKey(tx, io) !in sent {
          sent := sent[SentKey(tx, io) := io.value];
        }
      }
      assert tx.inputs[..|tx.inputs|] == tx.inputs;
    }

    /** The outputs subquery. */
    method MergeOutputs(r: Record)
      modifies this`addrs, this`received
      ensures addrs == AddrsAfter(old(addrs), Ends(r.tx, r.tx.outputs), r.tx.timestamp, r.source)
      ensures received == ReceivedAfter(old(received), r.tx, r.tx.outputs)
    {
      hide Touch, FirstReceived, LastFlag, RecvKeys, Ends;
      var tx := r.tx;
      NothingMerged(r, addrs, sent, received);
      assert tx.outputs[..0] == [];
      for n := 0 to |tx.outputs|
        invariant addrs == AddrsAfter(old(addrs), Ends(tx, tx.outputs[..n]), tx.timestamp, r.source)
        invariant received == ReceivedAfter(old(received), tx, tx.outputs[..n])
      {
        var io := tx.outputs[n];
        var k := RecvKey(tx, io);
        assert tx.outputs[..n + 1] == tx.outputs[..n] + [io];
        EndsOneMore(tx, tx.outputs[..n], io);
        TouchOneMore(old(addrs), Ends(tx, tx.outputs[..n]), IdOf(tx, io), tx.timestamp, r.source);
        ReceivedOneMore(old(received), tx, tx.outputs[..n], io);
        addrs := addrs[IdOf(tx, io) := Touch(Get(addrs, IdOf(tx, io)), tx.timestamp, r.source)];
        received := received[k := Recv(if k in received then received[k].value else io.value, io.isChange)];
      }
      assert tx.outputs[..|tx.outputs|] == tx.outputs;
    }

    /** `_REFRESH_TX_COUNT` for one chain, address by address. */
    method RefreshTxCount(chain: Chain)
      modifies this`addrs
      ensures State() == Refresh(old(State()), {chain})
    {
      hide SentCount, ReceivedCount, CountsDone;
      ghost var g, done := State(), {};
      var todo := set a | a in addrs && a.chain == chain;
      NothingCounted(g);
      while todo != {}
        invariant done + todo == set a | a in g.addrs && a.chain == chain
        invariant addrs == CountsDone(g, done)
      {
        var a :| a in todo;
        var sentRows := SentRows(a);
        var receivedRows := ReceivedRows(a);
        CountOneMore(g, done, a);
        addrs := addrs[a := addrs[a].(txCount := sentRows + receivedRows)];
        todo, done := todo - {a}, done + {a};
      }
      AllCounted(g, chain);
    }

    /** `count(*)` over the OPTIONAL MATCH of SENT edges: at least the unmatched row. */
    method SentRows(a: AddrId) returns (rows: nat)
      ensures rows == RowCount(|set e | e in sent && e.from == a|)
    {
      rows := 0;
      var todo := sent.Keys;
      ghost var done: set<SentEdge>, ends := {}, (e: SentEdge) => e.from == a;
      while todo != {}
        invariant done + todo == sent.Keys && done !! todo
        invariant rows == |Matching(done, ends)|
      {
        var e :| e in todo;
        MatchingMore(done, ends, e);
        if e.from == a {
          rows := rows + 1;
        }
        todo, done := todo - {e}, done + {e};
      }
      assert (set e | e in sent && e.from == a) == Matching(done, ends);
      if rows == 0 {
        rows := 1;
      }
    }

    method ReceivedRows(a: AddrId) returns (rows: nat)
      ensures rows == RowCount(|set e | e in received && e.to == a|)
    {
      rows := 0;
      var todo := received.Keys;
      ghost var done: set<RecvEdge>, ends := {}, (e: RecvEdge) => e.to == a;
      while todo != {}
        invariant done + todo == received.Keys && done !! todo
        invariant rows == |Matching(done, ends)|
      {
        var e :| e in todo;
        MatchingMore(done, ends, e);
        if e.to == a {
          rows := rows + 1;
        }
        todo, done := todo - {e}, done + {e};
      }
      assert (set e | e in received && e.to == a) == Matching(done, ends);
      if rows == 0 {
        rows := 1;
      }
    }

    /** `write_transactions`: the records in batches, then the counts of every chain among them. */
    method WriteTransactions(records: seq<Record>, batchSize: nat) returns (edges: nat)
      requires batchSize > 0
      modifies this
      ensures State() == WriteAll(old(State()), records)
      ensures edges == TotalPairs(records)
    {
      hide MergeAll, Refresh, TotalPairs;
      NothingWritten(State());
      if records == [] {
        return 0;
      }
      edges := MergeBatches(records, batchSize);
      RefreshTxCounts(ChainsOf(records));
    }

    method MergeBatches(records: seq<Record>, batchSize: nat) returns (edges: nat)
      requires batchSize > 0
      modifies this
      ensures State() == MergeAll(old(State()), records)
      ensures edges == TotalPairs(records)
    {
      hide MergeAll, MergeTx, TotalPairs;
      edges := 0;
      var start := 0;
      assert records[..0] == [];
      NothingWritten(State());
      while start < |records|
        invariant 0 <= start <= |records|
        invariant State() == MergeAll(old(State()), records[..start])
        invariant edges == TotalPairs(records[..start])
      {
        var stop := if start + batchSize < |records| then start + batchSize else |records|;
        for n := start to stop
          invariant State() == MergeAll(old(State()), records[..n])
          invariant edges == TotalPairs(records[..n])
        {
          OneMoreRecord(old(State()), records, n);
          var merged := MergeTransaction(records[n]);
          edges := edges + merged;
        }
        start := stop;
      }
      assert records[..|records|] == records;
    }

    /** The loop over the chains just written, in whatever order the set yields them. */
    method RefreshTxCounts(chains: set<Chain>)
      modifies this`addrs
      ensures State() == Refresh(old(State()), chains)
    {
      hide Refresh;
      var todo := chains;
      ghost var done: set<Chain> := {};
      NothingRefreshed(State());
      while todo != {}
        invariant done + todo == chains
        invariant State() == Refresh(old(State()), done)
      {
        var chain :| chain in todo;
        RefreshOneMore(old(State()), done, chain);
        RefreshTxCount(chain);
        todo, done := todo - {chain}, done + {chain};
      }
    }

    /** `apply_common_input_ownership`: every pair of SENT edges into one transaction. */
    method ApplyCommonInputOwnership(chain: Chain)
      modifies this`sameOwner
      ensures State() == ApplyCommonInput(old(State()), chain)
    {
      if chain != BTC {
        return;
      }
      hide CoSpends;
      var todo := sent.Keys;
      ghost var done: set<SentEdge> := {};
      NoCoSpends({}, sent.Keys);
      while todo != {}
        invariant done + todo == sent.Keys
        invariant sameOwner == old(sameOwner) + CoSpends(done, sent.Keys)
      {
        var s :| s in todo;
        MergeCoSpenders(s);
        MoreSpends(done, s, sent.Keys);
        todo, done := todo - {s}, done + {s};
      }
      AllCoSpends(State());
    }

    /** The rows of one first edge. */
    method MergeCoSpenders(s: SentEdge)
      modifies this`sameOwner
      ensures sameOwner == old(sameOwner) + CoSpends({s}, sent.Keys)
    {
      var todo := sent.Keys;
      ghost var done: set<SentEdge> := {};
      while todo != {}
        invariant done + todo == sent.Keys
        invariant sameOwner == old(sameOwner) + CoSpends({s}, done)
      {
        var t :| t in todo;
        if s.tx == t.tx && s.tx.chain == BTC && Less(s.from.norm, t.from.norm) {
          sameOwner := sameOwner + {OwnerEdge(s.from, t.from, CommonInput)};
        }
        OneCoSpend(s, done, t);
        todo, done := todo - {t}, done + {t};
      }
    }

    /** `apply_change_address`: every transaction with two outputs. */
    method ApplyChangeAddress(chain: Chain)
      modifies this`sameOwner, this`received
      ensures State() == ApplyChange(old(State()), chain)
    {
      if chain != BTC {
        return;
      }
      ghost var g, done := State(), {};
      var todo := txs.Keys;
      NoChange(g);
      while todo != {}
        invariant done + todo == txs.Keys && done !! todo
        invariant received == FlagsDone(g, done)
        invariant sameOwner == g.sameOwner + ChangeDone(g, done)
      {
        var t :| t in todo;
        if t.chain == chain && txs[t].outputCount == 2 {
          FlagTransaction(g, done, t);
        } else {
          NotSelected(g, done, t);
        }
        todo, done := todo - {t}, done + {t};
      }
      AllChange(g);
    }

    /** The rows of one transaction: collect its outputs, and if exactly one of two is fresh, flag it
        and link the spenders to it. */
    method FlagTransaction(ghost g: Graph, ghost done: set<TxId>, t: TxId)
      requires g.addrs == addrs && g.txs == txs && g.sent == sent && t in txs && t.chain == BTC && txs[t].outputCount == 2
      requires received == FlagsDone(g, done) && sameOwner == g.sameOwner + ChangeDone(g, done) && t !in done
      modifies this`sameOwner, this`received
      ensures received == FlagsDone(g, done + {t})
      ensures sameOwner == g.sameOwner + ChangeDone(g, done + {t})
    {
      hide Rows, FreshRows, Debut, SelectsChange, FlagsDone, ChangeDone, Links;
      FlagsKeys(g, done);
      var outs := CollectOutputs(t);
      SameRows(g, State(), t);
      var now := State();
      var freshOnes := set x | x in outs && Debut(now, x.out.to, t) && x.spent.None?;
      assert freshOnes == FreshRows(g, t) by { FreshMeans(g, now, t, outs); }
      if |outs| == 2 && |freshOnes| == 1 {
        var x :| x in freshOnes;
        OnlyOne(freshOnes, x);
        SelectedOutput(g, t, x);
        FlagOneMore(g, done, x.out);
        received := received[x.out := received[x.out].(isChange := true)];
        LinkSpenders(x.out);
        LinkOneMore(g, done, x.out);
      } else {
        NoOutput(g, t);
        NotSelected(g, done, t);
      }
    }

    /** The OPTIONAL MATCH of each output's address on the input side. */
    method CollectOutputs(t: TxId) returns (outs: set<Row>)
      ensures outs == Rows(State(), t)
    {
      hide Rows;
      outs := {};
      var todo := received.Keys;
      ghost var done: set<RecvEdge> := {};
      while todo != {}
        invariant done + todo == received.Keys
        invariant outs == RowsOver(State(), t, done)
      {
        var e :| e in todo;
        if e.tx == t {
          var spends := set s | s in sent && s.tx == t && s.from == e.to;
          outs := outs + (if spends == {} then {Row(e, None)} else set s | s in spends :: Row(e, Some(s)));
        }
        RowsOneMore(State(), t, done, e);
        todo, done := todo - {e}, done + {e};
      }
      AllRows(State(), t);
    }

    /** MERGE of an owner edge from each spender to the change address. */
    method LinkSpenders(e: RecvEdge)
      modifies this`sameOwner
      ensures sameOwner == old(sameOwner) + Links(e, sent.Keys)
    {
      var todo := sent.Keys;
      ghost var done: set<SentEdge> := {};
      while todo != {}
        invariant done + todo == sent.Keys
        invariant sameOwner == old(sameOwner) + Links(e, done)
      {
        var s :| s in todo;
        if s.tx == e.tx && s.from.norm != e.to.norm {
          sameOwner := sameOwner + {OwnerEdge(s.from, e.to, ChangeAddress)};
        }
        OneLink(e, done, s);
        todo, done := todo - {s}, done + {s};
      }
    }

    /** `resolve_clusters`; `components` is what the component stream yields for Bitcoin. */
    method ResolveClusters(chain: Chain, components: seq<seq<string>>)
      requires chain == BTC ==> WccStream(State(), components)
      modifies this`members, this`clusters
      ensures State() == Resolve(old(State()), chain)
    {
      hide ActiveOn, Active, KeyOf, WccStream, RowRight, Cover, Gathered, MembersAfter, ClustersWritten, Pruned;
      if chain != BTC {
        ResolveAccounts(chain);
        return;
      }
      ghost var g := State();
      var rows := BuildRows(g, components);
      if rows == [] {
        NoRows(g);
        return;
      }
      WriteRows(g, rows);
      RowsComplete(g, rows);
      SomeRow(g, rows);
      DoneIsAfter(g);
      PruneEmptyClusters(chain);
    }

    /** The account-model statement: each active address gets its own cluster. */
    method ResolveAccounts(chain: Chain)
      modifies this`members, this`clusters
      ensures State() == ResolveAccount(old(State()), chain)
    {
      hide ActiveOn, SingleKey, Created, SingleKeys, SingleMembers;
      ghost var g, done := State(), {};
      var single := Cluster(chain, AccountSingle, 1);
      var todo := ActiveOn(State(), chain);
      OneMoreSingle({}, AddrId(chain, ""));
      CreatedMore(clusters, {}, "", single);
      CreatedMore(members, {}, Membership(AddrId(chain, ""), ""), AccountSingle);
      while todo != {}
        invariant done + todo == ActiveOn(g, chain)
        invariant clusters == Created(g.clusters, SingleKeys(done), single)
        invariant members == Created(g.members, SingleMembers(done), AccountSingle)
      {
        var a :| a in todo;
        var m := Membership(a, SingleKey(a));
        OneMoreSingle(done, a);
        CreatedMore(g.clusters, SingleKeys(done), m.key, single);
        CreatedMore(g.members, SingleMembers(done), m, AccountSingle);
        if m.key !in clusters {
          clusters := clusters[m.key := single];
        }
        if m !in members {
          members := members[m := AccountSingle];
        }
        todo, done := todo - {a}, done + {a};
      }
      AllAccounts(g, chain);
    }

    /** `_PRUNE_EMPTY_CLUSTERS` */
    method PruneEmptyClusters(chain: Chain)
      modifies this`clusters
      ensures clusters == Pruned(old(clusters), members, chain)
    {
      hide Inhabited;
      var todo := clusters.Keys;
      while todo != {}
        invariant todo <= clusters.Keys <= old(clusters).Keys
        invariant forall k :: k in clusters ==> clusters[k] == old(clusters)[k]
        invariant forall k :: k in old(clusters) && k !in todo ==>
                    (k in clusters <==> old(clusters)[k].chain != chain || Inhabited(members, k))
      {
        var k :| k in todo;
        if clusters[k].chain == chain && !Inhabited(members, k) {
          clusters := clusters - {k};
        }
        todo := todo - {k};
      }
    }

    /** The loop building `$clusters`. */
    method BuildRows(ghost g: Graph, components: seq<seq<string>>) returns (rows: seq<ClusterRow>)
      requires WccStream(g, components)
      ensures forall r :: 0 <= r < |rows| ==> RowRight(g, rows[r])
      ensures Cover(g, rows)
    {
      hide ActiveOn, Active, KeyOf, RowRight, Gathered, RowOf;
      rows := [];
      for i := 0 to |components|
        invariant forall r :: 0 <= r < |rows| ==> RowRight(g, rows[r])
        invariant forall j, x :: 0 <= j < i && x in components[j] ==> exists r :: 0 <= r < |rows| && x in rows[r].members
      {
        if components[i] == [] {
          continue;
        }
        ComponentRow(g, components, i);
        RowOfMembers(components[i]);
        ghost var before := rows;
        rows := rows + [RowOf(components[i])];
        KeepsMembers(before, rows, components, i);
      }
    }

    /** The UNWIND of `_WRITE_CLUSTERS`. */
    method WriteRows(ghost g: Graph, rows: seq<ClusterRow>)
      requires g == State() && forall r :: 0 <= r < |rows| ==> RowRight(g, rows[r])
      modifies this`members, this`clusters
      ensures AddrsOf(rows) <= ActiveOn(g, BTC)
      ensures members == MembersDone(g, AddrsOf(rows)) && clusters == ClustersDone(g, KeysOf(rows))
    {
      hide ActiveOn, Active, KeyOf, RowRight, Gathered, MembersDone, ClustersDone, AddrsIn;
      NothingDone(g);
      assert rows[..0] == [];
      for n := 0 to |rows|
        invariant AddrsOf(rows[..n]) <= ActiveOn(g, BTC)
        invariant members == MembersDone(g, AddrsOf(rows[..n]))
        invariant clusters == ClustersDone(g, KeysOf(rows[..n]))
      {
        var row := rows[n];
        assert rows[..n + 1][..n] == rows[..n];
        ClusterOneMore(g, KeysOf(rows[..n]), row.key, clusters);
        RowSize(g, row);
        clusters := clusters[row.key :=
          if row.key in clusters then clusters[row.key].(size := row.size) else Cluster(BTC, row.heuristic, row.size)];
        WriteMembers(g, AddrsOf(rows[..n]), row);
      }
      assert rows[..|rows|] == rows;
    }

    /** The inner UNWIND: drop each member's stale memberships, then merge the new one. */
    method WriteMembers(ghost g: Graph, ghost done: set<AddrId>, row: ClusterRow)
      requires RowRight(g, row) && done <= ActiveOn(g, BTC) && members == MembersDone(g, done)
      modifies this`members
      ensures done + AddrsIn(row.members) <= ActiveOn(g, BTC)
      ensures members == MembersDone(g, done + AddrsIn(row.members))
    {
      hide ActiveOn, Active, KeyOf, RowRight, Gathered, MembersDone, AddrsIn;
      assert row.members[..0] == [];
      NoAddrs();
      assert done + {} == done;
      for n := 0 to |row.members|
        invariant done + AddrsIn(row.members[..n]) <= ActiveOn(g, BTC)
        invariant members == MembersDone(g, done + AddrsIn(row.members[..n]))
      {
        var a := AddrId(BTC, row.members[n]);
        ghost var sofar := done + AddrsIn(row.members[..n]);
        RowKey(g, row, row.members[n]);
        RowSize(g, row);
        MemberOneMore(g, sofar, a, members);
        AddrsInMore(row.members, n);
        assert done + AddrsIn(row.members[..n + 1]) == sofar + {a};
        members := map m | m in members && !(m.addr == a && m.key != row.key) :: members[m];
        members := members[Membership(a, row.key) := row.heuristic];
      }
      assert row.members[..|row.members|] == row.members;
    }

    /** `run_clustering` */
    method RunClusteringPass(chain: Chain, components: seq<seq<string>>)
      requires chain == BTC ==> WccStream(ApplyChange(ApplyCommonInput(State(), chain), chain), components)
      modifies this
      ensures State() == RunClustering(old(State()), chain)
    {
      hide Resolve, ApplyChange, ApplyCommonInput, WccStream;
      ApplyCommonInputOwnership(chain);
      ApplyChangeAddress(chain);
      ResolveClusters(chain, components);
    }
  }

  // ---------------------------------------------------------------------------
  // Facts the methods use
  // ---------------------------------------------------------------------------

  function TotalPairs(rs: seq<Record>): nat {
    if rs == [] then 0 else TotalPairs(rs[..|rs| - 1]) + |Pairs(rs[|rs| - 1].tx)|
  }

  lemma NothingWritten(g: Graph)
    ensures MergeAll(g, []) == g && WriteAll(g, []) == g && TotalPairs([]) == 0
  {
    hide SentCount, ReceivedCount;
    NothingRefreshed(g);
  }

  lemma OneMoreRecord(g: Graph, rs: seq<Record>, n: nat)
    requires n < |rs|
    ensures MergeAll(g, rs[..n + 1]) == MergeTx(MergeAll(g, rs[..n]), rs[n])
    ensures TotalPairs(rs[..n + 1]) == TotalPairs(rs[..n]) + |Pairs(rs[n].tx)|
  {
    hide MergeTx, Pairs;
    assert rs[..n + 1][..n] == rs[..n];
  }

  lemma RowOfMembers(members: seq<string>)
    requires members != []
    ensures RowOf(members).members == members
  {}

  lemma KeepsMembers(before: seq<ClusterRow>, rows: seq<ClusterRow>, components: seq<seq<string>>, i: nat)
    requires i < |components| && components[i] != [] && rows == before + [RowOf(components[i])]
    requires forall j, x :: 0 <= j < i && x in components[j] ==> exists r :: 0 <= r < |before| && x in before[r].members
    ensures forall j, x :: 0 <= j <= i && x in components[j] ==> exists r :: 0 <= r < |rows| && x in rows[r].members
  {
    forall j, x | 0 <= j <= i && x in components[j] ensures exists r :: 0 <= r < |rows| && x in rows[r].members {
      if j < i {
        var r :| 0 <= r < |before| && x in before[r].members;
        assert x in rows[r].members;
      } else {
        assert x in rows[|before|].members;
      }
    }
  }

  lemma NoRows(g: Graph)
    requires Cover(g, [])
    ensures ResolveUtxo(g) == g
  {
    hide Active;
    assert forall a :: a !in ActiveOn(g, BTC);
  }

  lemma SomeRow(g: Graph, rows: seq<ClusterRow>)
    requires rows != [] && forall r :: 0 <= r < |rows| ==> RowRight(g, rows[r])
    ensures ActiveOn(g, BTC) != {}
  {
    assert RowRight(g, rows[0]);
    assert rows[0].members[0] in rows[0].members;
  }

  lemma DoneIsAfter(g: Graph)
    ensures MembersDone(g, ActiveOn(g, BTC)) == MembersAfter(g)
    ensures ClustersDone(g, KeysInUse(g)) == ClustersWritten(g)
  {
    hide Active, ActiveOn, KeyOf, Gathered;
  }

  lemma NothingDone(g: Graph)
    ensures MembersDone(g, {}) == g.members && ClustersDone(g, {}) == g.clusters
  {
    hide Active, KeyOf, Gathered;
  }

  lemma NoAddrs()
    ensures AddrsIn([]) == {}
  {}

  lemma RowSize(g: Graph, row: ClusterRow)
    requires RowRight(g, row)
    ensures row.size == |Gathered(g, row.key)| && row.heuristic == HeuristicFor(row.size)
  {}

  function MergeNode(m: map<TxId, TxNode>, r: Record): (n: map<TxId, TxNode>)
    ensures n == TxsAfter(m, r)
  {
    m[Tid(r) := TxAfter(Get(m, Tid(r)), r)]
  }

  lemma TouchedArePresent(m: map<AddrId, AddrNode>, r: Record)
    ensures Touched(r) <= AddrsAfter(m, Touched(r), r.tx.timestamp, r.source).Keys
  {}

  lemma NothingMerged(r: Record, addrs: map<AddrId, AddrNode>, sent: map<SentEdge, real>, received: map<RecvEdge, Recv>)
    ensures AddrsAfter(addrs, Ends(r.tx, []), r.tx.timestamp, r.source) == addrs
    ensures SentAfter(sent, r.tx, []) == sent
    ensures ReceivedAfter(received, r.tx, []) == received
  {}

  lemma NoTransfers(transferred: map<TransferEdge, TransferProps>, r: Record)
    ensures TransferredAfter(transferred, r, []) == transferred
  {}

  lemma AddrsUnion(m: map<AddrId, AddrNode>, a: set<AddrId>, b: set<AddrId>, t: int, source: string)
    ensures AddrsAfter(AddrsAfter(m, a, t, source), b, t, source) == AddrsAfter(m, a + b, t, source)
  {
    hide Touch;
    forall o ensures Touch(Some(Touch(o, t, source)), t, source) == Touch(o, t, source) {
      TouchTwice(o, t, source, t, source);
    }
  }
}
