/** Hop distances in a graph whose edges all cost one. */
module NoCHops {
  import opened Dijkstra

  // Every edge costs one and leads to a node of the graph.
  ghost predicate UnitGraph(g: Graph) {
    forall u, i :: 0 <= u < |g| && 0 <= i < |g[u]| ==> g[u][i].to < |g| && g[u][i].weight == 1.0
  }

  ghost predicate Linked(g: Graph, u: nat, v: nat) {
    u < |g| && v < |g| && Edge(v, 1.0) in g[u]
  }

  // A chain of linked nodes.
  ghost predicate Chain(g: Graph, nodes: seq<nat>) {
    && |nodes| > 0 && nodes[0] < |g|
    && forall i :: 0 < i < |nodes| ==> Linked(g, nodes[i - 1], nodes[i])
  }

  ghost predicate ChainBetween(g: Graph, nodes: seq<nat>, s: nat, t: nat) {
    Chain(g, nodes) && nodes[0] == s && nodes[|nodes| - 1] == t
  }

  ghost predicate Reachable(g: Graph, s: nat, t: nat) {
    exists nodes :: ChainBetween(g, nodes, s, t)
  }

  ghost function LeastFrom(g: Graph, s: nat, t: nat, nodes: seq<nat>): (k: nat)
    requires ChainBetween(g, nodes, s, t)
    ensures exists m :: ChainBetween(g, m, s, t) && |m| == k + 1
    ensures forall m :: ChainBetween(g, m, s, t) ==> |m| >= k + 1
    decreases |nodes|
  {
    if shorter :| ChainBetween(g, shorter, s, t) && |shorter| < |nodes| then LeastFrom(g, s, t, shorter) else |nodes| - 1
  }

  // The number of hops of a shortest chain.
  ghost function Hops(g: Graph, s: nat, t: nat): (k: nat)
    requires Reachable(g, s, t)
    ensures exists m :: ChainBetween(g, m, s, t) && |m| == k + 1
    ensures forall m :: ChainBetween(g, m, s, t) ==> |m| >= k + 1
  {
    var nodes :| ChainBetween(g, nodes, s, t);
    LeastFrom(g, s, t, nodes)
  }

  lemma ShortestChain(g: Graph, s: nat, t: nat) returns (m: seq<nat>)
    requires Reachable(g, s, t)
    ensures ChainBetween(g, m, s, t) && |m| == Hops(g, s, t) + 1
  {
    m :| ChainBetween(g, m, s, t) && |m| == Hops(g, s, t) + 1;
  }

  // In a graph of unit weights, walks are chains and weigh their number of hops.
  lemma {:induction false} WalkIsChain(g: Graph, nodes: seq<nat>, w: real)
    requires UnitGraph(g)
    ensures Walk(g, nodes, w) <==> Chain(g, nodes) && w == (|nodes| - 1) as real
    decreases |nodes|
  {
    var n := |nodes|;
    if n > 1 {
      forall x ensures LastStep(g, nodes, x) <==> x == 1.0 && Linked(g, nodes[n - 2], nodes[n - 1]) {
        if HasEdge(g, nodes[n - 2], nodes[n - 1], x) {
          var i :| 0 <= i < |g[nodes[n - 2]]| && g[nodes[n - 2]][i] == Edge(nodes[n - 1], x);
        }
      }
      assert LastStep(g, nodes, 1.0) <==> Linked(g, nodes[n - 2], nodes[n - 1]);
      WalkIsChain(g, nodes[..n - 1], w - 1.0);
      assert Walk(g, nodes, w) <==> LastStep(g, nodes, 1.0) && Walk(g, nodes[..n - 1], w - 1.0);
      assert (n - 1) as real == (n - 2) as real + 1.0;
      ChainSnoc(g, nodes);
    }
  }

  lemma ChainSnoc(g: Graph, nodes: seq<nat>)
    requires |nodes| > 1
    ensures Chain(g, nodes) <==> Chain(g, nodes[..|nodes| - 1]) && Linked(g, nodes[|nodes| - 2], nodes[|nodes| - 1])
  {
  }

  lemma ChainPrepend(g: Graph, u: nat, nodes: seq<nat>)
    requires Chain(g, nodes) && Linked(g, u, nodes[0])
    ensures Chain(g, [u] + nodes)
  {
    var m := [u] + nodes;
    forall i | 0 < i < |m| ensures Linked(g, m[i - 1], m[i]) {
      if i > 1 { assert Linked(g, nodes[i - 2], nodes[i - 1]); }
    }
  }

  lemma ChainTail(g: Graph, nodes: seq<nat>)
    requires Chain(g, nodes) && |nodes| > 1
    ensures Chain(g, nodes[1..]) && Linked(g, nodes[0], nodes[1])
  {
    assert Linked(g, nodes[0], nodes[1]);
    var m := nodes[1..];
    forall i | 0 < i < |m| ensures Linked(g, m[i - 1], m[i]) { assert Linked(g, nodes[i], nodes[i + 1]); }
  }

  // One link brings a node at most one hop nearer.
  lemma LinkedHops(g: Graph, u: nat, v: nat, t: nat)
    requires Linked(g, u, v) && Reachable(g, v, t)
    ensures Reachable(g, u, t) && Hops(g, u, t) <= Hops(g, v, t) + 1
  {
    var m :| ChainBetween(g, m, v, t) && |m| == Hops(g, v, t) + 1;
    ChainPrepend(g, u, m);
    assert ChainBetween(g, [u] + m, u, t);
  }

  // The nodes along a shortest chain are one hop nearer each.
  lemma {:induction false} ShortestSuffix(g: Graph, nodes: seq<nat>, s: nat, t: nat, i: nat)
    requires ChainBetween(g, nodes, s, t) && |nodes| == Hops(g, s, t) + 1 && i < |nodes|
    ensures nodes[i] < |g| && Reachable(g, nodes[i], t) && Hops(g, nodes[i], t) == |nodes| - 1 - i
    decreases i
  {
    if i > 0 {
      ChainTail(g, nodes);
      var m := nodes[1..];
      assert ChainBetween(g, m, nodes[1], t);
      LinkedHops(g, nodes[0], nodes[1], t);
      ShortestSuffix(g, m, nodes[1], t, i - 1);
    }
  }

  lemma HopsZero(g: Graph, s: nat, t: nat)
    requires Reachable(g, s, t)
    ensures Hops(g, s, t) == 0 <==> s == t
  {
    if s == t {
      var nodes :| ChainBetween(g, nodes, s, t);
      assert ChainBetween(g, [s], s, t);
    }
  }

  // ------------------------------------------------------------------ closed forms

  ghost predicate StepDown(g: Graph, f: nat -> nat, v: nat) {
    exists x :: Linked(g, v, x) && f(x) + 1 == f(v)
  }

  // The potential vanishes only at t, and from everywhere else some link lowers it by one.
  ghost predicate Descends(g: Graph, t: nat, f: nat -> nat) {
    f(t) == 0 && forall v :: 0 <= v < |g| && v != t ==> f(v) > 0 && StepDown(g, f, v)
  }

  // A potential that no link lowers by more than one and some link lowers by one, down to zero at
  // the target, is the hop distance.
  lemma {:induction false} PotentialReaches(g: Graph, t: nat, f: nat -> nat, u: nat)
    requires t < |g| && u < |g|
    requires Descends(g, t, f)
    ensures Reachable(g, u, t) && Hops(g, u, t) <= f(u)
    decreases f(u)
  {
    if u == t {
      assert ChainBetween(g, [t], t, t);
      HopsZero(g, t, t);
    } else {
      assert StepDown(g, f, u);
      var x :| Linked(g, u, x) && f(x) + 1 == f(u);
      PotentialReaches(g, t, f, x);
      LinkedHops(g, u, x, t);
    }
  }

  lemma {:induction false} PotentialBounds(g: Graph, t: nat, f: nat -> nat, nodes: seq<nat>)
    requires Chain(g, nodes) && nodes[|nodes| - 1] == t && f(t) == 0
    requires forall v, x :: Linked(g, v, x) ==> f(v) <= f(x) + 1
    ensures f(nodes[0]) <= |nodes| - 1
    decreases |nodes|
  {
    if |nodes| > 1 {
      ChainTail(g, nodes);
      PotentialBounds(g, t, f, nodes[1..]);
    }
  }

  lemma PotentialIsHops(g: Graph, t: nat, f: nat -> nat, u: nat)
    requires t < |g| && u < |g|
    requires Descends(g, t, f)
    requires forall v, x :: Linked(g, v, x) ==> f(v) <= f(x) + 1
    ensures Reachable(g, u, t) && Hops(g, u, t) == f(u)
  {
    PotentialReaches(g, t, f, u);
    var m :| ChainBetween(g, m, u, t) && |m| == Hops(g, u, t) + 1;
    PotentialBounds(g, t, f, m);
  }
}
