/** Connected components of SAME_OWNER, and smallest members. */
module Ownership {
  import opened Text
  import opened GraphState

  /** An edge joins the two addresses, in either direction. */
  ghost predicate Linked(edges: set<OwnerEdge>, a: AddrId, b: AddrId) {
    exists e :: e in edges && ((e.a == a && e.b == b) || (e.a == b && e.b == a))
  }

  ghost predicate Path(edges: set<OwnerEdge>, p: seq<AddrId>) {
    |p| > 0 && forall i :: 0 < i < |p| ==> Linked(edges, p[i - 1], p[i])
  }

  /** Weakly connected: what `gds.wcc` computes over the undirected projection. */
  ghost predicate Connected(edges: set<OwnerEdge>, a: AddrId, b: AddrId) {
    exists p: seq<AddrId> :: Path(edges, p) && p[0] == a && p[|p| - 1] == b
  }

  lemma ConnectedSelf(edges: set<OwnerEdge>, a: AddrId)
    ensures Connected(edges, a, a)
  {
    assert Path(edges, [a]);
  }

  lemma ConnectedEdge(edges: set<OwnerEdge>, e: OwnerEdge)
    requires e in edges
    ensures Connected(edges, e.a, e.b)
  {
    var p := [e.a, e.b];
    assert Linked(edges, e.a, e.b);
    assert Path(edges, p) && p[0] == e.a && p[|p| - 1] == e.b;
  }

  lemma ConnectedSym(edges: set<OwnerEdge>, a: AddrId, b: AddrId)
    requires Connected(edges, a, b)
    ensures Connected(edges, b, a)
  {
    var p: seq<AddrId> :| Path(edges, p) && p[0] == a && p[|p| - 1] == b;
    var q := seq(|p|, i requires 0 <= i < |p| => p[|p| - 1 - i]);
    forall i | 0 < i < |q| ensures Linked(edges, q[i - 1], q[i]) {
      assert Linked(edges, p[|p| - 1 - i], p[|p| - i]);
    }
    assert Path(edges, q) && q[0] == b && q[|q| - 1] == a;
  }

  lemma ConnectedTrans(edges: set<OwnerEdge>, a: AddrId, b: AddrId, c: AddrId)
    requires Connected(edges, a, b) && Connected(edges, b, c)
    ensures Connected(edges, a, c)
  {
    var p: seq<AddrId> :| Path(edges, p) && p[0] == a && p[|p| - 1] == b;
    var q: seq<AddrId> :| Path(edges, q) && q[0] == b && q[|q| - 1] == c;
    var r := p + q[1..];
    forall i | 0 < i < |r| ensures Linked(edges, r[i - 1], r[i]) {
      if i >= |p| {
        assert Linked(edges, q[i - |p|], q[i - |p| + 1]);
      }
    }
    assert Path(edges, r) && r[0] == a && r[|r| - 1] == c;
  }

  lemma ConnectedGrows(edges: set<OwnerEdge>, more: set<OwnerEdge>, a: AddrId, b: AddrId)
    requires edges <= more && Connected(edges, a, b)
    ensures Connected(more, a, b)
  {
    var p: seq<AddrId> :| Path(edges, p) && p[0] == a && p[|p| - 1] == b;
    forall i | 0 < i < |p| ensures Linked(more, p[i - 1], p[i]) {
      assert Linked(edges, p[i - 1], p[i]);
    }
    assert Path(more, p);
  }

  // ---------------------------------------------------------------------------
  // The smallest string of a set
  // ---------------------------------------------------------------------------

  ghost predicate Smallest(m: string, s: set<string>) {
    m in s && forall x :: x in s ==> AtMost(m, x)
  }

  lemma {:induction false} SmallestExists(s: set<string>)
    requires s != {}
    ensures exists m :: Smallest(m, s)
    decreases |s|
  {
    var x :| x in s;
    var rest := s - {x};
    assert forall y :: y in s ==> y == x || y in rest;
    if rest == {} {
      assert Smallest(x, s);
    } else {
      SmallestExists(rest);
      var m :| Smallest(m, rest);
      LessTotal(m, x);
      if AtMost(m, x) {
        assert Smallest(m, s);
      } else {
        forall y | y in s ensures AtMost(x, y) {
          if y != x { AtMostTransitive(x, m, y); }
        }
        assert Smallest(x, s);
      }
    }
  }

  ghost function SmallestOf(s: set<string>): (m: string)
    requires s != {}
    ensures Smallest(m, s)
  {
    SmallestExists(s);
    var m :| Smallest(m, s);
    m
  }
}
