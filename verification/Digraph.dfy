/** Directed graphs: walks, cycles, the least topological order, and strongly connected
    components in an order of their condensation. */
module Digraph {

  /** Identifiers stand in the order of their text. */
  type Node = nat

  datatype Graph = Graph(nodes: set<Node>, edges: set<(Node, Node)>)

  predicate Closed(g: Graph) {
    forall e :: e in g.edges ==> e.0 in g.nodes && e.1 in g.nodes
  }

  predicate Walk(g: Graph, p: seq<Node>) {
    forall i :: 0 <= i < |p| - 1 ==> (p[i], p[i + 1]) in g.edges
  }

  ghost predicate WalkFromTo(g: Graph, p: seq<Node>, u: Node, v: Node) {
    |p| >= 2 && p[0] == u && p[|p| - 1] == v && Walk(g, p)
  }

  /** A walk of at least one edge leads from `u` to `v`. */
  ghost predicate Reaches(g: Graph, u: Node, v: Node) {
    exists p :: WalkFromTo(g, p, u, v)
  }

  ghost predicate Cyclic(g: Graph) {
    exists v :: Reaches(g, v, v)
  }

  /** `u` and `v` lie in one strongly connected component. */
  ghost predicate Joined(g: Graph, u: Node, v: Node) {
    u == v || (Reaches(g, u, v) && Reaches(g, v, u))
  }

  lemma EdgeReaches(g: Graph, u: Node, v: Node)
    requires (u, v) in g.edges
    ensures Reaches(g, u, v)
  {
    assert WalkFromTo(g, [u, v], u, v);
  }

  lemma ReachesTransitive(g: Graph, u: Node, v: Node, w: Node)
    requires Reaches(g, u, v) && Reaches(g, v, w)
    ensures Reaches(g, u, w)
  {
    var p :| WalkFromTo(g, p, u, v);
    var q :| WalkFromTo(g, q, v, w);
    assert WalkFromTo(g, p + q[1..], u, w);
  }

  lemma JoinedTransitive(g: Graph, u: Node, v: Node, w: Node)
    requires Joined(g, u, v) && Joined(g, v, w)
    ensures Joined(g, u, w)
  {
    if u != v && v != w {
      ReachesTransitive(g, u, v, w);
      ReachesTransitive(g, w, v, u);
    }
  }

  /** The first edge of a walk, and the rest of it. */
  lemma ReachesByEdge(g: Graph, u: Node, v: Node) returns (w: Node)
    requires Reaches(g, u, v)
    ensures (u, w) in g.edges && (w == v || Reaches(g, w, v))
  {
    var p :| WalkFromTo(g, p, u, v);
    w := p[1];
    if |p| > 2 {
      assert WalkFromTo(g, p[1..], w, v);
    }
  }

  lemma ReachedIsNode(g: Graph, u: Node, v: Node)
    requires Closed(g) && Reaches(g, u, v)
    ensures u in g.nodes && v in g.nodes
  {
    var p :| WalkFromTo(g, p, u, v);
    assert (p[|p| - 2], p[|p| - 1]) in g.edges;
    assert (p[0], p[1]) in g.edges;
  }

  ghost function Above(g: Graph, v: Node): set<Node> {
    set u | u in g.nodes && (u == v || Reaches(g, u, v))
  }

  /** Some remaining component has no edge into it from another remaining component. */
  lemma SourceComponent(g: Graph, remaining: set<Node>, v0: Node) returns (v: Node)
    requires Closed(g) && remaining <= g.nodes && v0 in remaining
    ensures v in remaining
    ensures forall u, w :: u in remaining && (u, w) in g.edges && Joined(g, v, w) ==> Joined(g, v, u)
    decreases |Above(g, v0)|
  {
    if u, w :| u in remaining && (u, w) in g.edges && Joined(g, v0, w) && !Joined(g, v0, u) {
      EdgeReaches(g, u, w);
      if w != v0 { ReachesTransitive(g, u, w, v0); }
      forall x | x in Above(g, u) ensures x in Above(g, v0) {
        if x != u { ReachesTransitive(g, x, u, v0); }
      }
      assert v0 in Above(g, v0) && v0 !in Above(g, u);
      SmallerSubset(Above(g, u), Above(g, v0), v0);
      v := SourceComponent(g, remaining, u);
    } else {
      v := v0;
    }
  }

  lemma SmallerSubset(a: set<Node>, b: set<Node>, x: Node)
    requires a <= b && x in b && x !in a
    ensures |a| < |b|
  {
    assert a <= b - {x};
    SubsetSize(a, b - {x});
  }

  lemma {:induction false} SubsetSize(a: set<Node>, b: set<Node>)
    requires a <= b
    ensures |a| <= |b|
  {
    if x :| x in a {
      SubsetSize(a - {x}, b - {x});
    }
  }

  // ---- Orders -----------------------------------------------------------------------

  predicate NoRepeats(order: seq<Node>) {
    forall i, j :: 0 <= i < j < |order| ==> order[i] != order[j]
  }

  ghost predicate Permutes(order: seq<Node>, nodes: set<Node>) {
    NoRepeats(order) && (forall v :: v in order <==> v in nodes)
  }

  /** Every edge between listed nodes points forward. */
  predicate Forward(g: Graph, order: seq<Node>) {
    forall i, j :: 0 <= i < |order| && 0 <= j < |order| && (order[i], order[j]) in g.edges ==> i < j
  }

  lemma {:induction false} PermutationSize(order: seq<Node>, nodes: set<Node>)
    requires Permutes(order, nodes)
    ensures |order| == |nodes|
  {
    if order == [] {
      assert nodes == {};
    } else {
      assert forall i :: 0 <= i < |order[1..]| ==> order[1..][i] == order[i + 1];
      assert order == [order[0]] + order[1..];
      PermutationSize(order[1..], nodes - {order[0]});
    }
  }

  lemma {:induction false} ForwardWalk(g: Graph, order: seq<Node>, p: seq<Node>, i: nat, j: nat)
    requires Forward(g, order) && Walk(g, p) && |p| >= 2
    requires forall v :: v in p ==> v in order
    requires i < |order| && j < |order| && order[i] == p[0] && order[j] == p[|p| - 1] && NoRepeats(order)
    ensures i < j
    decreases |p|
  {
    assert p[1] in p && p[1] in order;
    var k :| 0 <= k < |order| && order[k] == p[1];
    assert (p[0], p[1]) in g.edges;
    if |p| > 2 {
      ForwardWalk(g, order, p[1..], k, j);
    }
  }

  /** A full order with every edge forward leaves no cycle. */
  lemma ForwardIsAcyclic(g: Graph, order: seq<Node>)
    requires Closed(g) && Permutes(order, g.nodes) && Forward(g, order)
    ensures !Cyclic(g)
  {
    forall v ensures !Reaches(g, v, v) {
      forall p ensures !WalkFromTo(g, p, v, v) {
        if WalkFromTo(g, p, v, v) {
          WalkInNodes(g, p);
          assert v in p && v in order;
          var i :| 0 <= i < |order| && order[i] == v;
          ForwardWalk(g, order, p, i, i);
        }
      }
    }
  }

  lemma WalkInNodes(g: Graph, p: seq<Node>)
    requires Closed(g) && |p| >= 2 && Walk(g, p)
    ensures forall v :: v in p ==> v in g.nodes
  {
    forall i | 0 <= i < |p| ensures p[i] in g.nodes {
      if i < |p| - 1 { assert (p[i], p[i + 1]) in g.edges; }
      else { assert (p[i - 1], p[i]) in g.edges; }
    }
  }

  /** The nodes no remaining node points to. */
  function Ready(g: Graph, remaining: set<Node>): set<Node> {
    set v | v in remaining && forall u :: u in remaining ==> (u, v) !in g.edges
  }

  predicate IsLeast(s: set<Node>, x: Node) {
    x in s && forall y :: y in s ==> x <= y
  }

  lemma {:induction false} LeastExists(s: set<Node>)
    requires s != {}
    ensures exists x :: IsLeast(s, x)
  {
    var x :| x in s;
    var rest := s - {x};
    if rest == {} {
      assert s == {x};
      assert IsLeast(s, x);
    } else {
      LeastExists(rest);
      var y :| IsLeast(rest, y);
      var z := if x <= y then x else y;
      forall w | w in s ensures z <= w { assert w == x || w in rest; }
      assert IsLeast(s, z);
    }
  }

  function Least(s: set<Node>): (x: Node)
    requires s != {}
    ensures x in s && forall y :: y in s ==> x <= y
  {
    LeastExists(s);
    var x :| IsLeast(s, x);
    x
  }

  /** The topological sort that always takes the least ready node. */
  function LeastOrder(g: Graph, remaining: set<Node>): seq<Node> {
    if Ready(g, remaining) == {} then []
    else
      var v := Least(Ready(g, remaining));
      [v] + LeastOrder(g, remaining - {v})
  }

  method LexicographicalSort(g: Graph) returns (order: seq<Node>)
    ensures order == LeastOrder(g, g.nodes)
  {
    order := [];
    var remaining := g.nodes;
    var ready := Ready(g, remaining);
    while ready != {}
      invariant ready == Ready(g, remaining)
      invariant order + LeastOrder(g, remaining) == LeastOrder(g, g.nodes)
      decreases remaining
    {
      var v := Least(ready);
      order := order + [v];
      remaining := remaining - {v};
      ready := Ready(g, remaining);
    }
  }

  /** What the sort lists: distinct remaining nodes, edges forward, and every node after
      all remaining nodes that point to it. */
  lemma {:induction false} LeastOrderSound(g: Graph, remaining: set<Node>)
    ensures var order := LeastOrder(g, remaining);
            && NoRepeats(order) && Forward(g, order)
            && (forall v :: v in order ==> v in remaining)
            && Ready(g, remaining - (set v | v in order)) == {}
    decreases remaining
  {
    var order := LeastOrder(g, remaining);
    if Ready(g, remaining) == {} {
      assert remaining - (set v | v in order) == remaining;
    } else {
      var v := Least(Ready(g, remaining));
      var rest := LeastOrder(g, remaining - {v});
      LeastOrderSound(g, remaining - {v});
      assert order == [v] + rest;
      assert remaining - (set x | x in order) == (remaining - {v}) - (set x | x in rest);
      assert forall u :: u in remaining ==> (u, v) !in g.edges;
      PrependForward(g, v, rest);
    }
  }

  lemma PrependForward(g: Graph, v: Node, rest: seq<Node>)
    requires NoRepeats(rest) && Forward(g, rest) && v !in rest
    requires (v, v) !in g.edges && forall u :: u in rest ==> (u, v) !in g.edges
    ensures NoRepeats([v] + rest) && Forward(g, [v] + rest)
  {
    var order := [v] + rest;
    assert forall i :: 0 < i < |order| ==> order[i] == rest[i - 1];
  }

  /** The sort lists every node exactly when the graph has no cycle. */
  lemma SortedIffAcyclic(g: Graph)
    requires Closed(g)
    ensures Permutes(LeastOrder(g, g.nodes), g.nodes) <==> !Cyclic(g)
    ensures |LeastOrder(g, g.nodes)| == |g.nodes| <==> !Cyclic(g)
  {
    var order := LeastOrder(g, g.nodes);
    LeastOrderSound(g, g.nodes);
    var listed := set v | v in order;
    assert Permutes(order, listed);
    PermutationSize(order, listed);
    var left := g.nodes - listed;
    if left == {} {
      forall v | v in g.nodes ensures v in listed { assert v !in left; }
      assert listed == g.nodes;
      ForwardIsAcyclic(g, order);
    } else {
      var v0 :| v0 in left;
      var v := SourceComponent(g, left, v0);
      SmallerSubset(listed, g.nodes, v0);
      assert v !in Ready(g, left);
      var u :| u in left && (u, v) in g.edges;
      assert Joined(g, v, u);
      EdgeReaches(g, u, v);
      if u != v { ReachesTransitive(g, v, u, v); }
      assert Reaches(g, v, v);
    }
  }

  predicate LexLeq(a: seq<Node>, b: seq<Node>) {
    a == [] || (b != [] && (a[0] < b[0] || (a[0] == b[0] && LexLeq(a[1..], b[1..]))))
  }

  /** Among all topological orders the sort returns the least one, node by node. */
  lemma {:induction false} LeastOrderIsLeast(g: Graph, remaining: set<Node>, other: seq<Node>)
    requires Permutes(other, remaining) && Forward(g, other)
    ensures LexLeq(LeastOrder(g, remaining), other)
    decreases remaining, 1
  {
    if remaining != {} && Ready(g, remaining) != {} {
      FirstIsReady(g, remaining, other);
      TailOrdered(g, remaining, other);
      LeastOrderIsLeastStep(g, remaining, other);
    }
  }

  lemma {:induction false} LeastOrderIsLeastStep(g: Graph, remaining: set<Node>, other: seq<Node>)
    requires other != [] && other[0] in Ready(g, remaining)
    requires Permutes(other[1..], remaining - {other[0]}) && Forward(g, other[1..])
    ensures LexLeq(LeastOrder(g, remaining), other)
    decreases remaining, 0
  {
    hide Ready, Permutes, Forward;
    var v := Least(Ready(g, remaining));
    if other[0] == v {
      assert v in remaining by { ReadyRemains(g, remaining); }
      LeastOrderIsLeast(g, remaining - {v}, other[1..]);
      assert LeastOrder(g, remaining)[1..] == LeastOrder(g, remaining - {v});
    }
  }

  lemma ReadyRemains(g: Graph, remaining: set<Node>)
    ensures Ready(g, remaining) <= remaining
  {
  }

  lemma TailOrdered(g: Graph, remaining: set<Node>, other: seq<Node>)
    requires Permutes(other, remaining) && Forward(g, other) && other != []
    ensures Permutes(other[1..], remaining - {other[0]}) && Forward(g, other[1..])
  {
    assert forall i :: 0 <= i < |other[1..]| ==> other[1..][i] == other[i + 1];
    assert other == [other[0]] + other[1..];
  }

  lemma FirstIsReady(g: Graph, remaining: set<Node>, other: seq<Node>)
    requires Permutes(other, remaining) && Forward(g, other) && remaining != {}
    ensures other != [] && other[0] in Ready(g, remaining)
  {
    var x :| x in remaining;
    assert x in other;
    forall u | u in remaining ensures (u, other[0]) !in g.edges {
      var i :| 0 <= i < |other| && other[i] == u;
    }
  }
}
