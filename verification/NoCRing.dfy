/** The ring (C_Ring): its links and the closed form of its hop distances. */
module NoCRing {
  import opened Dijkstra
  import opened NoCHops
  import opened NoCRouting
  import opened NoCHopCount
  import opened NoCShapes

  function Succ(n: nat, u: nat): nat { if u + 1 == n then 0 else u + 1 }
  function Pred(n: nat, u: nat): nat requires n > 0 { if u == 0 then n - 1 else u - 1 }

  function RingRow(n: nat, bidirectional: bool, u: nat): (row: seq<Edge>)
    requires n > 0
  {
    [Edge(Succ(n, u), 1.0)] + if bidirectional then [Edge(Pred(n, u), 1.0)] else []
  }

  ghost function RingGraph(n: nat, bidirectional: bool): (g: Graph) {
    seq(n, u requires 0 <= u < n => RingRow(n, bidirectional, u))
  }

  lemma SuccIsModular(n: nat, u: nat)
    requires u < n
    ensures (u + 1) % n == Succ(n, u)
  {
    if u + 1 == n { assert n % n == 0; }
  }

  method RingLinks(noc: NoCBase, n: nat, bidirectional: bool, u: nat)
    requires u < n && n > 1 && BuiltUpTo(noc, RingGraph(n, bidirectional), u)
    modifies noc`routers, noc`outPorts, noc`inPorts, noc`links, noc`portTo, noc`graph
    ensures BuiltUpTo(noc, RingGraph(n, bidirectional), u + 1)
  {
    hide UnderWay, BuiltUpTo;
    ghost var full := RingGraph(n, bidirectional);
    var next := (u + 1) % n;
    var prev := if u == 0 then n - 1 else u - 1;
    SuccIsModular(n, u);
    assert full[u] == [] + Maybe(true, next) + Maybe(bidirectional, prev) && full[u] != [];
    RowStarts(noc, full, u);
    LinkPair(noc, u, true, next, bidirectional, prev, full, []);
    RowComplete(noc, full, u);
  }

  method BuildRing(n: nat, bidirectional: bool) returns (noc: NoCBase)
    ensures fresh(noc) && noc.Valid() && noc.tables == map[] && Numbered(noc.routers, n)
    ensures n > 1 ==> noc.graph == RingGraph(n, bidirectional)
  {
    noc := new NoCBase();
    if n == 1 {
      noc.AddRouter(0);  // a single router has no link that would create it
      return;
    }
    hide Consistent, RingRow;
    var u := 0;
    while u < n
      invariant u <= n && fresh(noc) && BuiltUpTo(noc, RingGraph(n, bidirectional), u)
    {
      RingLinks(noc, n, bidirectional, u);
      u := u + 1;
    }
    assert RingGraph(n, bidirectional)[..n] == RingGraph(n, bidirectional);
  }

  // ------------------------------------------------------------------ distances

  // The number of forward steps from u to t.
  function Forward(n: nat, u: nat, t: nat): (d: int) {
    if u <= t then t - u else t - u + n
  }

  // Forward steps only, or the shorter way round.
  function RingDistance(n: nat, bidirectional: bool, u: nat, t: nat): (d: nat)
    requires t < n && u < n
  {
    var d := Forward(n, u, t);
    if bidirectional && n - d < d then n - d else d
  }

  lemma ForwardIsModular(n: nat, u: nat, t: nat)
    requires t < n && u < n
    ensures Forward(n, u, t) == (t - u) % n
  {
    if u > t { assert (t - u + n) % n == t - u + n; }
  }

  lemma RingLinked(n: nat, bidirectional: bool, u: nat, v: nat)
    requires u < n
    ensures Linked(RingGraph(n, bidirectional), u, v) <==> v == Succ(n, u) || (bidirectional && v == Pred(n, u))
  {
    assert RingGraph(n, bidirectional)[u] == RingRow(n, bidirectional, u);
    assert Edge(v, 1.0) in RingRow(n, bidirectional, u) <==> v == Succ(n, u) || (bidirectional && v == Pred(n, u));
  }

  lemma RingDescends(n: nat, bidirectional: bool, u: nat, t: nat) returns (v: nat)
    requires u < n && t < n && u != t
    ensures v < n && Linked(RingGraph(n, bidirectional), u, v)
    ensures RingDistance(n, bidirectional, v, t) + 1 == RingDistance(n, bidirectional, u, t)
  {
    v := if RingDistance(n, bidirectional, u, t) == Forward(n, u, t) then Succ(n, u) else Pred(n, u);
    RingLinked(n, bidirectional, u, v);
    hide RingGraph, Linked;
  }

  lemma RingStep(n: nat, bidirectional: bool, u: nat, v: nat, t: nat)
    requires t < n && Linked(RingGraph(n, bidirectional), u, v)
    ensures u < n && v < n && RingDistance(n, bidirectional, u, t) <= RingDistance(n, bidirectional, v, t) + 1
  {
    RingLinked(n, bidirectional, u, v);
    hide RingGraph, Linked;
  }

  ghost predicate IsRingDistance(n: nat, bidirectional: bool, t: nat, f: nat -> nat)
    requires t < n
  {
    forall v: nat :: v < n ==> f(v) == RingDistance(n, bidirectional, v, t)
  }

  lemma RingPotentialDescends(n: nat, bidirectional: bool, t: nat, f: nat -> nat)
    requires t < n && IsRingDistance(n, bidirectional, t, f)
    ensures Descends(RingGraph(n, bidirectional), t, f)
  {
    hide RingDistance, RingRow, Linked;
    var g := RingGraph(n, bidirectional);
    RingDistanceSelf(n, bidirectional, t);
    assert f(t) == RingDistance(n, bidirectional, t, t);
    forall v | 0 <= v < |g| && v != t ensures f(v) > 0 && StepDown(g, f, v) {
      var x := RingDescends(n, bidirectional, v, t);
      assert f(v) == RingDistance(n, bidirectional, v, t) && f(x) == RingDistance(n, bidirectional, x, t);
      assert Linked(g, v, x) && f(x) + 1 == f(v);
    }
  }

  lemma RingPotentialStep(n: nat, bidirectional: bool, t: nat, f: nat -> nat, v: nat, x: nat)
    requires t < n && IsRingDistance(n, bidirectional, t, f) && Linked(RingGraph(n, bidirectional), v, x)
    ensures f(v) <= f(x) + 1
  {
    hide RingDistance, RingGraph, Linked;
    RingStep(n, bidirectional, v, x, t);
    assert f(v) == RingDistance(n, bidirectional, v, t) && f(x) == RingDistance(n, bidirectional, x, t);
  }

  // On a ring the hop distance is the number of steps the short way round.
  lemma RingHops(n: nat, bidirectional: bool, u: nat, t: nat)
    requires u < n && t < n
    ensures Reachable(RingGraph(n, bidirectional), u, t)
    ensures Hops(RingGraph(n, bidirectional), u, t) == RingDistance(n, bidirectional, u, t)
  {
    hide RingDistance, RingRow, Linked, Reachable, Descends;
    var g := RingGraph(n, bidirectional);
    var f := (v: nat) => if v < n then RingDistance(n, bidirectional, v, t) else 0;
    RingPotentialDescends(n, bidirectional, t, f);
    forall v, x | Linked(g, v, x) ensures f(v) <= f(x) + 1 { RingPotentialStep(n, bidirectional, t, f, v, x); }
    PotentialIsHops(g, t, f, u);
  }

  lemma RingDistanceSelf(n: nat, bidirectional: bool, t: nat)
    requires t < n
    ensures RingDistance(n, bidirectional, t, t) == 0
  {
  }

  lemma RingConnected(n: nat, bidirectional: bool)
    ensures Connected(RingGraph(n, bidirectional), n)
  {
    var g := RingGraph(n, bidirectional);
    forall s, t | 0 <= s < n && 0 <= t < n ensures Reachable(g, s, t) { RingHops(n, bidirectional, s, t); }
  }

  lemma RingHopsTo(n: nat, bidirectional: bool, g: Graph, u: nat, t: nat)
    requires u < n && t < n && (n > 1 ==> g == RingGraph(n, bidirectional))
    ensures Connected(g, n) && HopsTo(g, n, u, t) == RingDistance(n, bidirectional, u, t)
  {
    hide RingGraph;
    RingConnected(n, bidirectional);
    RingHops(n, bidirectional, u, t);
    if u == t { HopsZero(RingGraph(n, bidirectional), u, t); }
  }

  // A ring with its default routing: the model counts the steps the short way round.
  method RingHopCounts(n: nat, bidirectional: bool) returns (hops: array2<nat>)
    ensures hops.Length0 == hops.Length1 == n
    ensures forall r, t :: 0 <= r < n && 0 <= t < n ==> hops[r, t] == RingDistance(n, bidirectional, r, t)
  {
    hide RingGraph, RingDistance, Routes, Consistent;
    var noc := BuildRing(n, bidirectional);
    ghost var g := noc.graph;
    RingConnected(n, bidirectional);
    noc.BuildDefaultRoutingBidirectional(n);
    hops := HopCounts(n, noc.links, noc.tables, g);
    forall r, t | 0 <= r < n && 0 <= t < n ensures hops[r, t] == RingDistance(n, bidirectional, r, t) { RingHopsTo(n, bidirectional, g, r, t); }
  }
}
