/** Strongly connected components, recycle groups, and the component-by-component order
    used when a flowsheet has recycles. */
module Components {
  import opened Digraph

  ghost function ComponentOf(g: Graph, v: Node): set<Node> {
    set w | w in g.nodes && Joined(g, v, w)
  }

  /** Every member's component, found by growing the set of reached nodes until no edge
      leaves it. */
  method ReachedFrom(g: Graph, v: Node) returns (reached: set<Node>)
    requires Closed(g)
    ensures forall w :: w in reached <==> Reaches(g, v, w)
  {
    reached := set e | e in g.edges && e.0 == v :: e.1;
    forall w | w in reached ensures Reaches(g, v, w) { EdgeReaches(g, v, w); }
    var open := set e | e in g.edges && e.0 in reached && e.1 !in reached;
    while open != {}
      invariant forall w :: w in reached ==> Reaches(g, v, w)
      invariant forall e :: e in g.edges && e.0 == v ==> e.1 in reached
      invariant open == set e | e in g.edges && e.0 in reached && e.1 !in reached
      invariant reached <= g.nodes
      decreases g.nodes - reached
    {
      var e :| e in open;
      EdgeReaches(g, e.0, e.1);
      ReachesTransitive(g, v, e.0, e.1);
      reached := reached + {e.1};
      open := set e | e in g.edges && e.0 in reached && e.1 !in reached;
    }
    forall e | e in g.edges && e.0 in reached ensures e.1 in reached { assert e !in open; }
    forall w | Reaches(g, v, w) ensures w in reached {
      var p :| WalkFromTo(g, p, v, w);
      StaysInside(g, reached, p);
    }
  }

  /** A walk cannot leave a set that its first edge enters and no edge leaves. */
  lemma {:induction false} StaysInside(g: Graph, inside: set<Node>, p: seq<Node>)
    requires |p| >= 2 && Walk(g, p)
    requires forall e :: e in g.edges && (e.0 == p[0] || e.0 in inside) ==> e.1 in inside
    ensures p[|p| - 1] in inside
    decreases |p|
  {
    assert (p[0], p[1]) in g.edges;
    if |p| > 2 {
      StaysInside(g, inside, p[1..]);
    }
  }

  /** The components, each once: they cover the nodes and each is the component of all
      its members. */
  ghost predicate Partition(g: Graph, components: seq<set<Node>>) {
    && (forall i, v :: 0 <= i < |components| && v in components[i] ==> components[i] == ComponentOf(g, v))
    && (forall i :: 0 <= i < |components| ==> components[i] != {} && components[i] <= g.nodes)
    && (forall i, j :: 0 <= i < j < |components| ==> components[i] !! components[j])
  }

  ghost predicate Covers(components: seq<set<Node>>, nodes: set<Node>) {
    forall v :: v in nodes <==> exists i :: 0 <= i < |components| && v in components[i]
  }

  method StrongComponents(g: Graph) returns (components: seq<set<Node>>)
    requires Closed(g)
    ensures Partition(g, components) && Covers(components, g.nodes)
  {
    var reach: map<Node, set<Node>> := map[];
    var pending := g.nodes;
    while pending != {}
      invariant pending <= g.nodes && reach.Keys == g.nodes - pending
      invariant forall v, w :: v in reach ==> (w in reach[v] <==> Reaches(g, v, w))
      decreases pending
    {
      var v :| v in pending;
      var reached := ReachedFrom(g, v);
      reach := reach[v := reached];
      pending := pending - {v};
    }
    components := [];
    var remaining := g.nodes;
    while remaining != {}
      invariant remaining <= g.nodes
      invariant Partition(g, components) && Covers(components, g.nodes - remaining)
      decreases remaining
    {
      var v :| v in remaining;
      var component := set w | w in g.nodes && (w == v || (w in reach[v] && v in reach[w]));
      assert component == ComponentOf(g, v);
      ExtendPartition(g, components, remaining, v);
      components := components + [component];
      remaining := remaining - component;
    }
    assert g.nodes - remaining == g.nodes;
  }

  lemma ComponentIsClass(g: Graph, v: Node, w: Node)
    requires v in g.nodes && w in ComponentOf(g, v)
    ensures ComponentOf(g, w) == ComponentOf(g, v) && v in ComponentOf(g, v)
  {
    forall x | x in g.nodes ensures Joined(g, w, x) <==> Joined(g, v, x) {
      if Joined(g, w, x) { JoinedTransitive(g, v, w, x); }
      if Joined(g, v, x) { JoinedTransitive(g, w, v, x); }
    }
  }

  lemma ExtendPartition(g: Graph, components: seq<set<Node>>, remaining: set<Node>, v: Node)
    requires Partition(g, components) && remaining <= g.nodes && v in remaining
    requires Covers(components, g.nodes - remaining)
    ensures Partition(g, components + [ComponentOf(g, v)])
    ensures Covers(components + [ComponentOf(g, v)], g.nodes - (remaining - ComponentOf(g, v)))
    ensures v in ComponentOf(g, v)
  {
    var c := ComponentOf(g, v);
    var all := components + [c];
    assert v in c by { ComponentIsClass(g, v, v); }
    forall w | w in c ensures ComponentOf(g, w) == c { ComponentIsClass(g, v, w); }
    forall i, w | 0 <= i < |components| && w in components[i] ensures w !in c {
      if w in c { SharedMember(g, components, i, v, w); }
    }
    forall i, x | 0 <= i < |all| && x in all[i] ensures x in g.nodes - (remaining - c) {
      if i < |components| { assert all[i] == components[i]; }
    }
    forall x | x in g.nodes - (remaining - c) ensures exists i :: 0 <= i < |all| && x in all[i] {
      if x in c {
        assert all[|components|] == c;
      } else {
        assert x in g.nodes - remaining;
        var i :| 0 <= i < |components| && x in components[i];
        assert all[i] == components[i];
      }
    }
  }

  lemma SharedMember(g: Graph, components: seq<set<Node>>, i: nat, v: Node, w: Node)
    requires Partition(g, components) && i < |components| && v in g.nodes
    requires w in components[i] && w in ComponentOf(g, v)
    ensures v in components[i]
  {
    ComponentIsClass(g, v, w);
  }

  /** Whether the compiler reports the component as a recycle group. */
  predicate IsRecycle(g: Graph, component: set<Node>) {
    |component| > 1 || exists v :: v in component && (v, v) in g.edges
  }

  /** A component is a recycle group exactly when a cycle runs through it: then through
      every member. */
  lemma RecycleIffCycle(g: Graph, v: Node)
    requires Closed(g) && v in g.nodes
    ensures IsRecycle(g, ComponentOf(g, v)) <==> Reaches(g, v, v)
  {
    var c := ComponentOf(g, v);
    ComponentIsClass(g, v, v);
    if Reaches(g, v, v) {
      var w := ReachesByEdge(g, v, v);
      EdgeReaches(g, v, w);
      if w != v {
        ReachedIsNode(g, v, w);
        assert {v, w} <= c;
        SubsetSize({v, w}, c);
      }
    } else {
      forall w | w in c ensures w == v {
        if w != v { ReachesTransitive(g, v, w, v); }
      }
      assert c == {v};
      forall w | w in c ensures (w, w) !in g.edges {
        if (w, w) in g.edges { EdgeReaches(g, w, w); }
      }
    }
  }

  /** A set's members in ascending order. */
  function Sorted(s: set<Node>): seq<Node> {
    if s == {} then [] else [Least(s)] + Sorted(s - {Least(s)})
  }

  lemma {:induction false} SortedPermutes(s: set<Node>)
    ensures Permutes(Sorted(s), s)
    ensures forall i, j :: 0 <= i < j < |Sorted(s)| ==> Sorted(s)[i] < Sorted(s)[j]
  {
    if s != {} {
      var x := Least(s);
      SortedPermutes(s - {x});
      assert Sorted(s) == [x] + Sorted(s - {x});
      forall i | 0 < i < |Sorted(s)| ensures Sorted(s)[i] in s && x < Sorted(s)[i] {
        assert Sorted(s)[i] in Sorted(s - {x});
      }
      assert forall v :: v in Sorted(s) <==> v == x || v in Sorted(s - {x});
    }
  }

  /** Members of one component stand together. */
  ghost predicate Contiguous(g: Graph, order: seq<Node>) {
    forall i, j, k :: 0 <= i < j < k < |order| && Joined(g, order[i], order[k]) ==> Joined(g, order[i], order[j])
  }

  /** An edge between different components points forward. */
  ghost predicate CrossForward(g: Graph, order: seq<Node>) {
    forall i, j :: 0 <= i < |order| && 0 <= j < |order| && (order[i], order[j]) in g.edges ==>
      i < j || Joined(g, order[i], order[j])
  }

  /** No edge and no shared component leads from outside into the set. */
  ghost predicate Upstream(g: Graph, done: set<Node>) {
    && (forall e :: e in g.edges && e.1 in done ==> e.0 in done)
    && (forall u, v :: u in done && v in g.nodes && Joined(g, u, v) ==> v in done)
  }

  /** The nodes already ordered. */
  ghost predicate Settled(g: Graph, order: seq<Node>, done: set<Node>) {
    Permutes(order, done) && Contiguous(g, order) && CrossForward(g, order) && Upstream(g, done)
  }

  lemma AppendPermutes(order: seq<Node>, done: set<Node>, tail: seq<Node>, c: set<Node>)
    requires Permutes(order, done) && Permutes(tail, c) && done !! c
    ensures Permutes(order + tail, done + c)
  {
    forall i | 0 <= i < |order + tail|
      ensures if i < |order| then (order + tail)[i] in done else (order + tail)[i] in c
    {
      if i < |order| { assert order[i] in order; }
      else { assert tail[i - |order|] in tail; }
    }
    assert forall x :: x in order + tail <==> x in order || x in tail;
  }

  /** The whole component of `v`, none of it settled yet. */
  ghost predicate Block(g: Graph, done: set<Node>, c: set<Node>) {
    && c <= g.nodes && done !! c
    && (forall x, y :: x in c && y in c ==> Joined(g, x, y))
    && (forall x, y :: x in c && y in g.nodes && Joined(g, x, y) ==> y in c)
    && (forall e :: e in g.edges && e.1 in c ==> e.0 in c || e.0 in done)
  }

  lemma ComponentIsBlock(g: Graph, done: set<Node>, v: Node)
    requires Closed(g) && done <= g.nodes && Upstream(g, done) && v in g.nodes - done
    requires forall e :: e in g.edges && e.1 in ComponentOf(g, v) && e.0 !in done ==> e.0 in ComponentOf(g, v)
    ensures Block(g, done, ComponentOf(g, v))
  {
    var c := ComponentOf(g, v);
    forall x, y | x in c && y in c ensures Joined(g, x, y) { JoinedTransitive(g, x, v, y); }
    forall x, y | x in c && y in g.nodes && Joined(g, x, y) ensures y in c { JoinedTransitive(g, v, x, y); }
    forall x | x in c ensures x !in done { assert Joined(g, x, v); }
  }

  lemma BlockIsUpstream(g: Graph, done: set<Node>, c: set<Node>)
    requires Upstream(g, done) && Block(g, done, c)
    ensures Upstream(g, done + c)
  {
    hide Joined;
  }

  /** Which side of the seam an index of `order + tail` falls on. */
  lemma Seam(order: seq<Node>, done: set<Node>, tail: seq<Node>, c: set<Node>, i: nat)
    requires Permutes(order, done) && Permutes(tail, c) && i < |order + tail|
    ensures if i < |order| then (order + tail)[i] == order[i] && order[i] in done
            else (order + tail)[i] == tail[i - |order|] && tail[i - |order|] in c
  {
  }

  lemma JoinedSymmetric(g: Graph, u: Node, v: Node)
    requires Joined(g, u, v)
    ensures Joined(g, v, u)
  {
  }

  lemma SettleBlock(g: Graph, order: seq<Node>, done: set<Node>, c: set<Node>)
    requires Closed(g) && done <= g.nodes && Settled(g, order, done) && Block(g, done, c)
    ensures Settled(g, order + Sorted(c), done + c)
  {
    hide Joined, Sorted;
    var tail := Sorted(c);
    SortedPermutes(c);
    AppendPermutes(order, done, tail, c);
    BlockIsUpstream(g, done, c);
    var all := order + tail;
    forall i, j, k | 0 <= i < j < k < |all| && Joined(g, all[i], all[k]) ensures Joined(g, all[i], all[j]) {
      Seam(order, done, tail, c, i);
      Seam(order, done, tail, c, j);
      Seam(order, done, tail, c, k);
    }
    forall i, j | 0 <= i < |all| && 0 <= j < |all| && (all[i], all[j]) in g.edges
      ensures i < j || Joined(g, all[i], all[j])
    {
      Seam(order, done, tail, c, i);
      Seam(order, done, tail, c, j);
    }
  }

  /** A remaining component that no other remaining component feeds. */
  lemma NextComponent(g: Graph, components: seq<set<Node>>, remaining: set<Node>)
    requires Closed(g) && Partition(g, components) && Covers(components, g.nodes)
    requires remaining <= g.nodes && remaining != {} && Upstream(g, g.nodes - remaining)
    ensures exists i :: 0 <= i < |components| && NextBlock(g, components[i], remaining)
  {
    hide Joined;
    var v0 :| v0 in remaining;
    var v := SourceComponent(g, remaining, v0);
    var i :| 0 <= i < |components| && v in components[i];
    assert components[i] == ComponentOf(g, v);
    NextIsBlock(g, remaining, v);
  }

  predicate NextBlock(g: Graph, component: set<Node>, remaining: set<Node>) {
    component <= remaining && forall e :: e in g.edges && e.1 in component && e.0 in remaining ==> e.0 in component
  }

  lemma NextIsBlock(g: Graph, remaining: set<Node>, v: Node)
    requires Closed(g) && remaining <= g.nodes && v in remaining && Upstream(g, g.nodes - remaining)
    requires forall u, w :: u in remaining && (u, w) in g.edges && Joined(g, v, w) ==> Joined(g, v, u)
    ensures NextBlock(g, ComponentOf(g, v), remaining)
  {
    hide Joined;
    forall w | w in ComponentOf(g, v) ensures w in remaining {
      JoinedSymmetric(g, v, w);
    }
    forall e | e in g.edges && e.1 in ComponentOf(g, v) && e.0 in remaining ensures e.0 in ComponentOf(g, v) {
      assert (e.0, e.1) in g.edges;
    }
  }

  /** One turn of the condensed order. */
  lemma SettleNext(g: Graph, components: seq<set<Node>>, order: seq<Node>, remaining: set<Node>, i: nat)
    requires Closed(g) && Partition(g, components) && i < |components|
    requires remaining <= g.nodes && Settled(g, order, g.nodes - remaining)
    requires NextBlock(g, components[i], remaining)
    ensures Settled(g, order + Sorted(components[i]), g.nodes - (remaining - components[i]))
    ensures components[i] != {} && components[i] <= remaining
  {
    hide Joined, Sorted, Settled;
    var w :| w in components[i];
    assert Upstream(g, g.nodes - remaining) by { SettledUpstream(g, order, g.nodes - remaining); }
    assert components[i] == ComponentOf(g, w);
    ComponentIsBlock(g, g.nodes - remaining, w);
    SettleBlock(g, order, g.nodes - remaining, components[i]);
    assert g.nodes - remaining + components[i] == g.nodes - (remaining - components[i]);
  }

  lemma SettledUpstream(g: Graph, order: seq<Node>, done: set<Node>)
    requires Settled(g, order, done)
    ensures Upstream(g, done)
  {
  }

  /** The order used when the graph has cycles: any topological order of the condensation,
      each component spelled out in ascending order. */
  method CondensedOrder(g: Graph, components: seq<set<Node>>) returns (order: seq<Node>)
    requires Closed(g) && Partition(g, components) && Covers(components, g.nodes)
    ensures Permutes(order, g.nodes) && Contiguous(g, order) && CrossForward(g, order)
  {
    hide Joined, Sorted, NextBlock, Partition, Covers;
    order := [];
    var remaining := g.nodes;
    while remaining != {}
      invariant remaining <= g.nodes
      invariant Settled(g, order, g.nodes - remaining)
      decreases remaining
    {
      NextComponent(g, components, remaining);
      var i :| 0 <= i < |components| && NextBlock(g, components[i], remaining);
      SettleNext(g, components, order, remaining, i);
      order := order + Sorted(components[i]);
      remaining := remaining - components[i];
    }
    assert g.nodes - remaining == g.nodes;
  }
}
