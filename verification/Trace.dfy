/** `trace_path`: the node and link sets assembled from shortest-path rows. */
module Trace {
  import opened Options

  datatype TransferRef = TransferRef(txid: Option<string>, value: real, asset: string)

  /** One row of the query: a reachable address, its shortest path and the transfer of each step. */
  datatype Row = Row(address: string, hop: nat, path: seq<string>, transfers: seq<TransferRef>,
                     entityName: Option<string>, clusterKey: Option<string>)

  datatype Role = ReportedSuspect | Terminal | Intermediate

  datatype Node = Node(address: string, hop: nat, role: Role, entityName: Option<string>, clusterKey: Option<string>)

  datatype LinkKey = LinkKey(source: string, target: string, txid: string)

  datatype Link = Link(source: string, target: string, txid: Option<string>, value: real, asset: string)

  // ---------------------------------------------------------------------------
  // Shortest paths
  // ---------------------------------------------------------------------------

  type Edges = set<(string, string)>

  ghost predicate Walk(e: Edges, p: seq<string>) {
    |p| > 0 && forall i :: 0 < i < |p| ==> (p[i - 1], p[i]) in e
  }

  function Last(p: seq<string>): string
    requires p != []
  {
    p[|p| - 1]
  }

  ghost predicate ShortestPath(e: Edges, root: string, p: seq<string>) {
    && Walk(e, p) && p[0] == root
    && forall q: seq<string> :: Walk(e, q) && q[0] == root && Last(q) == Last(p) ==> |p| <= |q|
  }

  /** `d` is the distance of `a` from the root. */
  ghost predicate At(e: Edges, root: string, a: string, d: nat) {
    exists p: seq<string> :: ShortestPath(e, root, p) && Last(p) == a && |p| == d + 1
  }

  /** What the query promises of a row. */
  ghost predicate RowOk(e: Edges, root: string, r: Row) {
    && ShortestPath(e, root, r.path) && Last(r.path) == r.address && r.address != root
    && |r.path| == |r.transfers| + 1 == r.hop + 1
  }

  lemma AtIsUnique(e: Edges, root: string, a: string, c: nat, d: nat)
    requires At(e, root, a, c) && At(e, root, a, d)
    ensures c == d
  {
    var p: seq<string> :| ShortestPath(e, root, p) && Last(p) == a && |p| == c + 1;
    var q: seq<string> :| ShortestPath(e, root, q) && Last(q) == a && |q| == d + 1;
    assert |p| <= |q| && |q| <= |p|;
  }

  lemma RootAtZero(e: Edges, root: string)
    ensures At(e, root, root, 0)
  {
    assert Walk(e, [root]);
    assert ShortestPath(e, root, [root]) && Last([root]) == root;
  }

  /** A prefix of a shortest path is a shortest path. */
  lemma PrefixIsShortest(e: Edges, root: string, p: seq<string>, n: nat)
    requires ShortestPath(e, root, p) && n < |p|
    ensures ShortestPath(e, root, p[..n + 1])
    ensures At(e, root, p[n], n)
  {
    var head := p[..n + 1];
    forall q: seq<string> | Walk(e, q) && q[0] == root && Last(q) == p[n] ensures |head| <= |q| {
      var joined := q + p[n + 1..];
      forall i | 0 < i < |joined| ensures (joined[i - 1], joined[i]) in e {
        if i == |q| {
          assert (p[n], p[n + 1]) in e;
        } else if i > |q| {
          assert joined[i] == p[n + 1 + i - |q|] && joined[i - 1] == p[n + i - |q|];
        }
      }
      assert Last(joined) == Last(p);
      assert |p| <= |joined|;
    }
    assert Last(head) == p[n];
  }

  // ---------------------------------------------------------------------------
  // Assembly
  // ---------------------------------------------------------------------------

  function KeyOf(t: TransferRef, src: string, dst: string): LinkKey {
    LinkKey(src, dst, match t.txid case Some(x) => x case None => "")
  }

  /** `setdefault` */
  function SetDefault(m: map<string, Node>, n: Node): map<string, Node> {
    if n.address in m then m else m[n.address := n]
  }

  function RowNode(r: Row): Node {
    Node(r.address, r.hop, if r.entityName.Some? && r.entityName.value != "" then Terminal else Intermediate, r.entityName, r.clusterKey)
  }

  function PlainNode(a: string, hop: nat): Node { Node(a, hop, Intermediate, None, None) }

  /** Every node sits at its distance. */
  ghost predicate NodesAt(e: Edges, root: string, nodes: map<string, Node>) {
    && root in nodes && nodes[root] == Node(root, 0, ReportedSuspect, None, None)
    && forall a :: a in nodes ==> nodes[a].address == a && At(e, root, a, nodes[a].hop)
  }

  /** Every link is a step of the graph between two nodes, one hop further from the root. */
  ghost predicate LinksLayered(e: Edges, nodes: map<string, Node>, links: map<LinkKey, Link>) {
    forall k :: k in links ==>
      && links[k].source == k.source && links[k].target == k.target
      && (k.source, k.target) in e
      && k.source in nodes && k.target in nodes
      && nodes[k.target].hop == nodes[k.source].hop + 1
  }

  /** The link of the `i`-th step of a row. */
  ghost predicate StepKey(r: Row, i: int, k: LinkKey) {
    && 0 <= i < |r.transfers| && |r.path| == |r.transfers| + 1
    && k == KeyOf(r.transfers[i], r.path[i], r.path[i + 1])
  }

  /** Everything on the first `n` steps of a row is present. */
  ghost predicate NodesPresent(r: Row, n: nat, nodes: map<string, Node>) {
    forall i :: 0 <= i <= n && i < |r.path| && n > 0 ==> r.path[i] in nodes
  }

  ghost predicate LinksPresent(r: Row, n: nat, links: map<LinkKey, Link>) {
    forall i, k :: 0 <= i < n && StepKey(r, i, k) ==> k in links
  }

  ghost predicate HasStep(r: Row, k: LinkKey) {
    exists i :: StepKey(r, i, k)
  }

  /** What a row's steps added: plain nodes of its path nearer than its end, and links of its steps. */
  ghost predicate NodesAdded(r: Row, nodes0: map<string, Node>, nodes: map<string, Node>) {
    && (forall a :: a in nodes0 ==> a in nodes && nodes[a] == nodes0[a])
    && forall a :: a in nodes && a !in nodes0 ==>
         a in r.path && nodes[a].hop < r.hop && nodes[a] == PlainNode(a, nodes[a].hop)
  }

  ghost predicate LinksAdded(r: Row, links0: map<LinkKey, Link>, links: map<LinkKey, Link>) {
    && links0.Keys <= links.Keys
    && forall k :: k in links && k !in links0 ==> HasStep(r, k)
  }

  lemma SetDefaultKeeps(e: Edges, root: string, nodes: map<string, Node>, links: map<LinkKey, Link>, n: Node)
    requires NodesAt(e, root, nodes) && LinksLayered(e, nodes, links) && At(e, root, n.address, n.hop)
    ensures NodesAt(e, root, SetDefault(nodes, n)) && LinksLayered(e, SetDefault(nodes, n), links)
    ensures n.address in SetDefault(nodes, n) && SetDefault(nodes, n)[n.address].hop == n.hop
  {
    if n.address in nodes { AtIsUnique(e, root, n.address, nodes[n.address].hop, n.hop); }
  }

  function AddLink(links: map<LinkKey, Link>, t: TransferRef, src: string, dst: string): map<LinkKey, Link> {
    var key := KeyOf(t, src, dst);
    if key in links then links else links[key := Link(src, dst, t.txid, t.value, t.asset)]
  }

  // ---------------------------------------------------------------------------
  // Which transfer a link shows
  // ---------------------------------------------------------------------------

  /** The steps of a path as links, in order. */
  function StepLinks(r: Row): seq<Link> {
    if |r.path| != |r.transfers| + 1 then []
    else seq(|r.transfers|, i requires 0 <= i < |r.transfers| =>
               Link(r.path[i], r.path[i + 1], r.transfers[i].txid, r.transfers[i].value, r.transfers[i].asset))
  }

  function AllSteps(rows: seq<Row>): seq<Link> {
    if rows == [] then [] else AllSteps(rows[..|rows| - 1]) + StepLinks(rows[|rows| - 1])
  }

  /** Two steps share a link if they join the same addresses in the same transaction. */
  ghost predicate SameLink(l: Link, k: LinkKey) {
    l.source == k.source && l.target == k.target && k.txid == if l.txid.Some? then l.txid.value else ""
  }

  /** The link of a key is the first step with that key. */
  ghost predicate FirstStep(steps: seq<Link>, k: LinkKey, l: Link) {
    exists p :: IsFirst(steps, k, l, p)
  }

  ghost predicate IsFirst(steps: seq<Link>, k: LinkKey, l: Link, p: nat) {
    p < |steps| && steps[p] == l && SameLink(l, k) && forall q :: 0 <= q < p ==> !SameLink(steps[q], k)
  }

  ghost predicate HasKey(steps: seq<Link>, k: LinkKey) {
    exists p :: 0 <= p < |steps| && SameLink(steps[p], k)
  }

  /** The links are the first steps of their keys, for every key there is. */
  ghost predicate LinksAreFirst(links: map<LinkKey, Link>, steps: seq<Link>) {
    && (forall k :: k in links <==> HasKey(steps, k))
    && forall k :: k in links ==> FirstStep(steps, k, links[k])
  }

  lemma AddLinkFirst(links: map<LinkKey, Link>, steps: seq<Link>, t: TransferRef, src: string, dst: string)
    requires LinksAreFirst(links, steps)
    ensures LinksAreFirst(AddLink(links, t, src, dst), steps + [Link(src, dst, t.txid, t.value, t.asset)])
  {
    var l, key := Link(src, dst, t.txid, t.value, t.asset), KeyOf(t, src, dst);
    var links', steps' := AddLink(links, t, src, dst), steps + [l];
    forall k ensures HasKey(steps', k) <==> HasKey(steps, k) || k == key {
      if p :| 0 <= p < |steps| && SameLink(steps[p], k) { assert steps'[p] == steps[p]; }
      if k == key { assert SameLink(steps'[|steps|], k); }
    }
    forall k | k in links' ensures FirstStep(steps', k, links'[k]) {
      if k in links {
        var p :| IsFirst(steps, k, links[k], p);
        assert forall q :: 0 <= q <= p ==> steps'[q] == steps[q];
        assert IsFirst(steps', k, links[k], p);
      } else {
        forall q | 0 <= q < |steps| ensures !SameLink(steps'[q], k) { assert steps'[q] == steps[q]; }
        assert IsFirst(steps', k, l, |steps|);
      }
    }
  }

  lemma AddLinkKeeps(e: Edges, nodes: map<string, Node>, links: map<LinkKey, Link>, t: TransferRef, src: string, dst: string)
    requires LinksLayered(e, nodes, links) && src in nodes && dst in nodes
    requires (src, dst) in e && nodes[dst].hop == nodes[src].hop + 1
    ensures LinksLayered(e, nodes, AddLink(links, t, src, dst))
  {}

  /** One step: two `setdefault`s and a link. */
  lemma StepKeeps(e: Edges, root: string, r: Row, i: nat, nodes: map<string, Node>, links: map<LinkKey, Link>)
    requires RowOk(e, root, r) && i < |r.transfers| && NodesAt(e, root, nodes) && LinksLayered(e, nodes, links)
    ensures var src, dst := r.path[i], r.path[i + 1];
            var nodes' := SetDefault(SetDefault(nodes, PlainNode(src, i)), PlainNode(dst, i + 1));
            NodesAt(e, root, nodes') && LinksLayered(e, nodes', AddLink(links, r.transfers[i], src, dst))
  {
    var src, dst := r.path[i], r.path[i + 1];
    PrefixIsShortest(e, root, r.path, i);
    PrefixIsShortest(e, root, r.path, i + 1);
    hide NodesAt, LinksLayered, ShortestPath, At, SetDefault, AddLink;
    var n1 := SetDefault(nodes, PlainNode(src, i));
    var n2 := SetDefault(n1, PlainNode(dst, i + 1));
    SetDefaultKeeps(e, root, nodes, links, PlainNode(src, i));
    SetDefaultKeeps(e, root, n1, links, PlainNode(dst, i + 1));
    SetDefaultStays(n1, PlainNode(dst, i + 1));
    assert (src, dst) in e by { PathStep(e, root, r.path, i); }
    AddLinkKeeps(e, n2, links, r.transfers[i], src, dst);
  }

  lemma SetDefaultStays(m: map<string, Node>, n: Node)
    ensures forall a :: a in m ==> a in SetDefault(m, n) && SetDefault(m, n)[a] == m[a]
    ensures forall a :: a in SetDefault(m, n) && a !in m ==> a == n.address && SetDefault(m, n)[a] == n
  {}

  lemma PathStep(e: Edges, root: string, p: seq<string>, i: nat)
    requires ShortestPath(e, root, p) && i + 1 < |p|
    ensures (p[i], p[i + 1]) in e
  {}

  lemma StepAddsNodes(r: Row, i: nat, nodes0: map<string, Node>, nodes: map<string, Node>)
    requires i < |r.transfers| && |r.path| == |r.transfers| + 1 == r.hop + 1
    requires NodesAdded(r, nodes0, nodes) && NodesPresent(r, i, nodes) && r.path[r.hop] in nodes0
    ensures var nodes' := SetDefault(SetDefault(nodes, PlainNode(r.path[i], i)), PlainNode(r.path[i + 1], i + 1));
            NodesAdded(r, nodes0, nodes') && NodesPresent(r, i + 1, nodes')
  {
    var n1 := SetDefault(nodes, PlainNode(r.path[i], i));
    SetDefaultStays(nodes, PlainNode(r.path[i], i));
    SetDefaultStays(n1, PlainNode(r.path[i + 1], i + 1));
  }

  lemma StepAddsLinks(r: Row, i: nat, links0: map<LinkKey, Link>, links: map<LinkKey, Link>)
    requires i < |r.transfers| && |r.path| == |r.transfers| + 1
    requires LinksAdded(r, links0, links) && LinksPresent(r, i, links)
    ensures var links' := AddLink(links, r.transfers[i], r.path[i], r.path[i + 1]);
            LinksAdded(r, links0, links') && LinksPresent(r, i + 1, links')
  {
    assert StepKey(r, i, KeyOf(r.transfers[i], r.path[i], r.path[i + 1]));
  }

  /** The loop over one row's transfers. */
  method AddSteps(ghost e: Edges, ghost root: string, r: Row, nodes0: map<string, Node>, links0: map<LinkKey, Link>,
                  ghost steps0: seq<Link>)
    returns (nodes: map<string, Node>, links: map<LinkKey, Link>)
    requires RowOk(e, root, r) && NodesAt(e, root, nodes0) && LinksLayered(e, nodes0, links0)
    requires r.address in nodes0 && LinksAreFirst(links0, steps0)
    ensures NodesAt(e, root, nodes) && LinksLayered(e, nodes, links)
    ensures LinksAreFirst(links, steps0 + StepLinks(r))
    ensures NodesPresent(r, r.hop, nodes) && LinksPresent(r, r.hop, links)
    ensures NodesAdded(r, nodes0, nodes) && LinksAdded(r, links0, links)
  {
    hide NodesAt, LinksLayered, NodesAdded, LinksAdded, NodesPresent, LinksPresent, SetDefault, AddLink, ShortestPath,
         LinksAreFirst;
    nodes, links := nodes0, links0;
    NothingAdded(r, nodes, links);
    assert steps0 + StepLinks(r)[..0] == steps0;
    for i := 0 to |r.transfers|
      invariant NodesAt(e, root, nodes) && LinksLayered(e, nodes, links)
      invariant NodesPresent(r, i, nodes) && LinksPresent(r, i, links)
      invariant NodesAdded(r, nodes0, nodes) && LinksAdded(r, links0, links)
      invariant LinksAreFirst(links, steps0 + StepLinks(r)[..i])
    {
      NextStep(e, root, steps0, r, i);
      AddLinkFirst(links, steps0 + StepLinks(r)[..i], r.transfers[i], r.path[i], r.path[i + 1]);
      StepKeeps(e, root, r, i, nodes, links);
      StepAddsNodes(r, i, nodes0, nodes);
      StepAddsLinks(r, i, links0, links);
      nodes := SetDefault(nodes, PlainNode(r.path[i], i));
      nodes := SetDefault(nodes, PlainNode(r.path[i + 1], i + 1));
      links := AddLink(links, r.transfers[i], r.path[i], r.path[i + 1]);
    }
    assert StepLinks(r)[..|r.transfers|] == StepLinks(r);
  }

  lemma NextStep(e: Edges, root: string, steps0: seq<Link>, r: Row, i: nat)
    requires RowOk(e, root, r) && i < |r.transfers|
    ensures |StepLinks(r)| == |r.transfers| && |r.path| == |r.transfers| + 1
    ensures var t := r.transfers[i];
            steps0 + StepLinks(r)[..i + 1] == (steps0 + StepLinks(r)[..i]) + [Link(r.path[i], r.path[i + 1], t.txid, t.value, t.asset)]
  {
    hide ShortestPath;
  }

  lemma NothingAdded(r: Row, nodes: map<string, Node>, links: map<LinkKey, Link>)
    ensures NodesAdded(r, nodes, nodes) && NodesPresent(r, 0, nodes)
    ensures LinksAdded(r, links, links) && LinksPresent(r, 0, links)
  {}

  // ---------------------------------------------------------------------------
  // All rows
  // ---------------------------------------------------------------------------

  /** Which of the first `n` rows is the first for an address. */
  function FirstRow(rows: seq<Row>, n: nat, a: string): Option<nat>
    requires n <= |rows|
  {
    if n == 0 then None
    else if FirstRow(rows, n - 1, a).Some? then FirstRow(rows, n - 1, a)
    else if rows[n - 1].address == a then Some(n - 1)
    else None
  }

  lemma {:induction false} FirstRowMeans(rows: seq<Row>, n: nat, a: string)
    requires n <= |rows|
    ensures match FirstRow(rows, n, a)
            case Some(j) => j < n && rows[j].address == a && forall k :: 0 <= k < j ==> rows[k].address != a
            case None => forall k :: 0 <= k < n ==> rows[k].address != a
  {
    if n > 0 { FirstRowMeans(rows, n - 1, a); }
  }

  /** ORDER BY hop */
  ghost predicate ByHop(rows: seq<Row>) {
    forall i, j :: 0 <= i < j < |rows| ==> rows[i].hop <= rows[j].hop
  }

  ghost predicate NearerThanSome(rows: seq<Row>, n: nat, hop: nat) {
    exists i :: 0 <= i < n && i < |rows| && hop < rows[i].hop
  }

  /** A node with a row carries that row's entity and cluster, never a bare placeholder. */
  ghost predicate PlacedAt(rows: seq<Row>, n: nat, a: string, node: Node)
    requires n <= |rows|
  {
    match FirstRow(rows, n, a)
    case Some(j) =>
      && j < |rows| && node.address == a && node.hop == rows[j].hop
      && node.entityName == rows[j].entityName && node.clusterKey == rows[j].clusterKey
      && node.role == if rows[j].entityName in {None, Some("")} then Intermediate else Terminal
    case None => node == Node(a, node.hop, Intermediate, None, None) && NearerThanSome(rows, n, node.hop)
  }

  ghost predicate Placed(rows: seq<Row>, n: nat, root: string, nodes: map<string, Node>)
    requires n <= |rows|
  {
    forall a :: a in nodes && a != root ==> PlacedAt(rows, n, a, nodes[a])
  }

  /** The query's promise, and where the assembly stands after `n` rows. */
  ghost predicate RowsOk(e: Edges, root: string, rows: seq<Row>) {
    forall i :: 0 <= i < |rows| ==> RowOk(e, root, rows[i])
  }

  ghost predicate OnRow(rows: seq<Row>, n: nat, a: string)
    requires n <= |rows|
  {
    exists i :: 0 <= i < n && a in rows[i].path
  }

  ghost predicate StepOfRow(rows: seq<Row>, n: nat, k: LinkKey)
    requires n <= |rows|
  {
    exists i :: 0 <= i < n && HasStep(rows[i], k)
  }

  /** Nodes and links are those of the rows, all of them and nothing else. */
  ghost predicate FromRows(rows: seq<Row>, n: nat, root: string, nodes: map<string, Node>, links: map<LinkKey, Link>)
    requires n <= |rows|
  {
    && (forall i :: 0 <= i < n ==> NodesPresent(rows[i], rows[i].hop, nodes) && LinksPresent(rows[i], rows[i].hop, links))
    && (forall a :: a in nodes && a != root ==> OnRow(rows, n, a))
    && (forall k :: k in links ==> StepOfRow(rows, n, k))
  }

  lemma RowInserted(e: Edges, root: string, rows: seq<Row>, n: nat, nodes: map<string, Node>)
    requires n < |rows| && ByHop(rows) && RowOk(e, root, rows[n])
    requires NodesAt(e, root, nodes) && Placed(rows, n, root, nodes)
    requires forall i :: 0 <= i < n ==> rows[i].address in nodes
    ensures Placed(rows, n + 1, root, SetDefault(nodes, RowNode(rows[n])))
  {
    hide ShortestPath;
    var r := rows[n];
    var after := SetDefault(nodes, RowNode(r));
    assert At(e, root, r.address, r.hop);
    forall a | a in after && a != root ensures PlacedAt(rows, n + 1, a, after[a]) {
      FirstRowMeans(rows, n, a);
      if a in nodes && FirstRow(rows, n, a).None? {
        assert PlacedAt(rows, n, a, nodes[a]);
        var i :| 0 <= i < n && i < |rows| && nodes[a].hop < rows[i].hop;
        assert NearerThanSome(rows, n + 1, nodes[a].hop);
        if a == r.address { AtIsUnique(e, root, a, nodes[a].hop, r.hop); }
      }
    }
  }

  lemma RowAdded(rows: seq<Row>, n: nat, root: string, nodes0: map<string, Node>, nodes: map<string, Node>)
    requires n < |rows| && Placed(rows, n + 1, root, nodes0) && NodesAdded(rows[n], nodes0, nodes)
    requires forall i :: 0 <= i <= n ==> rows[i].address in nodes0
    ensures Placed(rows, n + 1, root, nodes)
  {
    forall a | a in nodes && a != root && a !in nodes0 ensures PlacedAt(rows, n + 1, a, nodes[a]) {
      FirstRowMeans(rows, n + 1, a);
      assert nodes[a].hop < rows[n].hop;
      assert NearerThanSome(rows, n + 1, nodes[a].hop);
    }
  }

  lemma RowJoins(e: Edges, root: string, rows: seq<Row>, n: nat, nodes0: map<string, Node>, nodes1: map<string, Node>,
                 nodes: map<string, Node>, links0: map<LinkKey, Link>, links: map<LinkKey, Link>)
    requires n < |rows| && RowOk(e, root, rows[n]) && FromRows(rows, n, root, nodes0, links0)
    requires nodes1 == SetDefault(nodes0, RowNode(rows[n]))
    requires NodesAdded(rows[n], nodes1, nodes) && LinksAdded(rows[n], links0, links)
    requires NodesPresent(rows[n], rows[n].hop, nodes) && LinksPresent(rows[n], rows[n].hop, links)
    ensures FromRows(rows, n + 1, root, nodes, links)
  {
    hide ShortestPath, StepKey;
    SetDefaultStays(nodes0, RowNode(rows[n]));
    hide SetDefault;
    forall a | a in nodes && a != root ensures OnRow(rows, n + 1, a) {
      if a in nodes0 {
        var i :| 0 <= i < n && a in rows[i].path;
      } else {
        assert a in rows[n].path;
      }
    }
    forall k | k in links ensures StepOfRow(rows, n + 1, k) {
      if k in links0 {
        var i :| 0 <= i < n && HasStep(rows[i], k);
      } else {
        assert HasStep(rows[n], k);
      }
    }
  }

  lemma EndsPresent(e: Edges, root: string, rows: seq<Row>, n: nat, nodes: map<string, Node>, links: map<LinkKey, Link>)
    requires n <= |rows| && RowsOk(e, root, rows) && FromRows(rows, n, root, nodes, links)
    ensures forall i :: 0 <= i < n ==> rows[i].address in nodes
  {
    forall i | 0 <= i < n ensures rows[i].address in nodes {
      assert NodesPresent(rows[i], rows[i].hop, nodes);
      assert RowOk(e, root, rows[i]);
      assert rows[i].path[rows[i].hop] in nodes;
    }
  }

  /** `trace_path`, after the query: the two dictionaries. */
  method TracePath(ghost e: Edges, root: string, rows: seq<Row>)
    returns (nodes: map<string, Node>, links: map<LinkKey, Link>)
    requires RowsOk(e, root, rows) && ByHop(rows)
    ensures NodesAt(e, root, nodes) && LinksLayered(e, nodes, links)
    ensures FromRows(rows, |rows|, root, nodes, links)
    ensures Placed(rows, |rows|, root, nodes)
    ensures LinksAreFirst(links, AllSteps(rows))
  {
    hide NodesAt, LinksLayered, NodesAdded, LinksAdded, NodesPresent, LinksPresent, SetDefault, AddLink, ShortestPath, FromRows, Placed,
         LinksAreFirst, StepLinks;
    nodes := map[root := Node(root, 0, ReportedSuspect, None, None)];
    links := map[];
    Nothing(e, root, rows, nodes);
    for n := 0 to |rows|
      invariant NodesAt(e, root, nodes) && LinksLayered(e, nodes, links)
      invariant FromRows(rows, n, root, nodes, links)
      invariant Placed(rows, n, root, nodes)
      invariant LinksAreFirst(links, AllSteps(rows[..n]))
    {
      assert rows[..n + 1][..n] == rows[..n];
      ghost var nodes0, links0 := nodes, links;
      EndsPresent(e, root, rows, n, nodes, links);
      RowInserted(e, root, rows, n, nodes);
      RowIsAt(e, root, rows[n]);
      SetDefaultKeeps(e, root, nodes, links, RowNode(rows[n]));
      SetDefaultStays(nodes, RowNode(rows[n]));
      nodes := SetDefault(nodes, RowNode(rows[n]));
      ghost var nodes1 := nodes;
      nodes, links := AddSteps(e, root, rows[n], nodes, links, AllSteps(rows[..n]));
      RowAdded(rows, n, root, nodes1, nodes);
      RowJoins(e, root, rows, n, nodes0, nodes1, nodes, links0, links);
    }
    assert rows[..|rows|] == rows;
  }

  lemma RowIsAt(e: Edges, root: string, r: Row)
    requires RowOk(e, root, r)
    ensures At(e, root, r.address, r.hop)
  {}

  lemma Nothing(e: Edges, root: string, rows: seq<Row>, nodes: map<string, Node>)
    requires nodes == map[root := Node(root, 0, ReportedSuspect, None, None)]
    ensures NodesAt(e, root, nodes) && LinksLayered(e, nodes, map[])
    ensures FromRows(rows, 0, root, nodes, map[]) && Placed(rows, 0, root, nodes)
    ensures LinksAreFirst(map[], AllSteps(rows[..0]))
  {
    RootAtZero(e, root);
  }

  // ---------------------------------------------------------------------------
  // The links form a layered, acyclic graph
  // ---------------------------------------------------------------------------

  /** A walk along links. */
  ghost predicate LinkWalk(links: map<LinkKey, Link>, p: seq<string>) {
    |p| > 0 && forall i :: 0 < i < |p| ==> LinkBetween(links, p[i - 1], p[i])
  }

  ghost predicate LinkBetween(links: map<LinkKey, Link>, a: string, b: string) {
    exists k :: k in links && k.source == a && k.target == b
  }

  /** Along links the hop count goes up by one at every step. */
  lemma {:induction false} HopsCount(e: Edges, nodes: map<string, Node>, links: map<LinkKey, Link>, p: seq<string>)
    requires LinksLayered(e, nodes, links) && LinkWalk(links, p) && p[0] in nodes
    ensures Last(p) in nodes && nodes[Last(p)].hop == nodes[p[0]].hop + |p| - 1
    decreases |p|
  {
    if |p| > 1 {
      var init := p[..|p| - 1];
      assert LinkWalk(links, init);
      HopsCount(e, nodes, links, init);
      assert LinkBetween(links, p[|p| - 2], p[|p| - 1]);
    }
  }

  /** No walk along links returns to where it started. */
  lemma LinksAreAcyclic(e: Edges, nodes: map<string, Node>, links: map<LinkKey, Link>, p: seq<string>)
    requires LinksLayered(e, nodes, links) && LinkWalk(links, p) && |p| > 1
    ensures p[0] != Last(p)
  {
    assert LinkBetween(links, p[0], p[1]);
    HopsCount(e, nodes, links, p);
  }
}
