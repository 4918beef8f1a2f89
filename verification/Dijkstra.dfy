/**
 Shortest paths with lazy deletion, early exit and a chain of parents (dijkstra.cpp).

 Weights are positive reals; the largest float stands for an infinite distance.
 */
module Dijkstra {
  import opened Options

  datatype Edge = Edge(to: nat, weight: real)

  type Graph = seq<seq<Edge>>

  datatype Cost = Infinite | Finite(w: real)

  // Every edge leads to a node of the graph and has a positive weight.
  ghost predicate Proper(g: Graph) {
    forall u, i :: 0 <= u < |g| && 0 <= i < |g[u]| ==> g[u][i].to < |g| && g[u][i].weight > 0.0
  }

  ghost predicate HasEdge(g: Graph, u: nat, v: nat, w: real) {
    u < |g| && Edge(v, w) in g[u]
  }

  // The last two nodes are joined by an edge of weight w.
  ghost predicate LastStep(g: Graph, nodes: seq<nat>, w: real) {
    |nodes| > 1 && HasEdge(g, nodes[|nodes| - 2], nodes[|nodes| - 1], w)
  }

  // The nodes form a walk along edges whose weights add up to w.
  ghost predicate Walk(g: Graph, nodes: seq<nat>, w: real)
    decreases |nodes|
  {
    var n := |nodes|;
    if n == 0 then false
    else if n == 1 then nodes[0] < |g| && w == 0.0
    else exists x :: LastStep(g, nodes, x) && Walk(g, nodes[..n - 1], w - x)
  }

  ghost predicate WalkBetween(g: Graph, nodes: seq<nat>, w: real, s: nat, t: nat) {
    Walk(g, nodes, w) && nodes[0] == s && nodes[|nodes| - 1] == t
  }

  // A walk from s to t that is as short as any.
  ghost predicate ShortestWalk(g: Graph, nodes: seq<nat>, w: real, s: nat, t: nat) {
    WalkBetween(g, nodes, w, s, t) && forall q, z :: WalkBetween(g, q, z, s, t) ==> w <= z
  }

  function Reversed(s: seq<nat>): (r: seq<nat>)
    ensures |r| == |s| && forall i :: 0 <= i < |s| ==> r[i] == s[|s| - 1 - i]
  {
    if s == [] then [] else Reversed(s[1..]) + [s[0]]
  }

  // ------------------------------------------------------------------ the state of the search

  type Queue = multiset<(nat, real)>

  predicate IsTop(q: Queue, e: (nat, real)) {
    e in q && forall f :: f in q ==> e.1 <= f.1
  }

  lemma {:induction false} TopExists(q: Queue)
    requires q != multiset{}
    ensures exists e :: IsTop(q, e)
    decreases |q|
  {
    var e :| e in q;
    var rest := q - multiset{e};
    if rest == multiset{} {
      assert q == multiset{e};
      assert IsTop(q, e);
    } else {
      TopExists(rest);
      var f :| IsTop(rest, f);
      assert q == rest + multiset{e};
      assert IsTop(q, if e.1 <= f.1 then e else f);
    }
  }

  // A finite distance is the weight of a recorded walk, whose last step leaves a settled node.
  ghost predicate NodeOk(g: Graph, s: nat, d: seq<Cost>, parent: seq<int>, walks: seq<seq<nat>>, settled: set<nat>, v: nat)
    requires |d| == |parent| == |walks| == |g| && v < |g|
  {
    if d[v].Infinite? then v != s && v !in settled
    else
      && WalkBetween(g, walks[v], d[v].w, s, v) && d[v].w >= 0.0
      && (v == s ==> d[v].w == 0.0 && walks[v] == [s])
      && (v != s ==>
            var u := parent[v];
            0 <= u < |g| && u in settled && d[u].Finite? && walks[v] == walks[u] + [v] && d[u].w < d[v].w)
  }

  // All edges of a node are relaxed.
  ghost predicate Relaxed(g: Graph, d: seq<Cost>, u: nat)
    requires |d| == |g| && u < |g| && Proper(g)
  {
    d[u].Finite? && forall i :: 0 <= i < |g[u]| ==> d[g[u][i].to].Finite? && d[g[u][i].to].w <= d[u].w + g[u][i].weight
  }

  // The queue holds, possibly among outdated entries, every reached node that is not settled, and
  // no settled node is farther than anything in it.
  ghost predicate QueueOk(g: Graph, d: seq<Cost>, settled: set<nat>, q: Queue)
    requires |d| == |g|
  {
    && (forall e :: e in q ==> e.0 < |g| && d[e.0].Finite? && d[e.0].w <= e.1)
    && (forall v: nat :: v < |g| && v !in settled && d[v].Finite? ==> (v, d[v].w) in q)
    && (forall u, e :: u in settled && e in q ==> u < |g| && d[u].Finite? && d[u].w <= e.1)
  }

  ghost predicate SearchInv(g: Graph, s: nat, d: seq<Cost>, parent: seq<int>, walks: seq<seq<nat>>, settled: set<nat>, q: Queue) {
    && Proper(g) && s < |g| && |d| == |parent| == |walks| == |g|
    && (forall v :: 0 <= v < |g| ==> NodeOk(g, s, d, parent, walks, settled, v))
    && (forall u :: u in settled ==> u < |g| && Relaxed(g, d, u))
    && QueueOk(g, d, settled, q)
    && d[s].Finite?
  }

  lemma WalkExtend(g: Graph, nodes: seq<nat>, w: real, v: nat, x: real)
    requires Walk(g, nodes, w) && HasEdge(g, nodes[|nodes| - 1], v, x)
    ensures Walk(g, nodes + [v], w + x)
  {
    var m := nodes + [v];
    assert m[..|nodes|] == nodes;
    assert (w + x) - x == w;
    assert LastStep(g, m, x);
  }

  // ------------------------------------------------------------------ optimality

  // Every walk from s is at least as long as the distance of its end or as the least entry.
  lemma {:induction false} WalksAreLong(g: Graph, s: nat, d: seq<Cost>, parent: seq<int>, walks: seq<seq<nat>>,
                                        settled: set<nat>, q: Queue, nodes: seq<nat>, w: real)
    requires SearchInv(g, s, d, parent, walks, settled, q)
    requires Walk(g, nodes, w) && nodes[0] == s
    ensures var v := nodes[|nodes| - 1];
      v < |g| && ((d[v].Finite? && d[v].w <= w) || exists e :: e in q && e.1 <= w)
    decreases |nodes|
  {
    var n := |nodes|;
    if n > 1 {
      var x :| LastStep(g, nodes, x) && Walk(g, nodes[..n - 1], w - x);
      var u, v := nodes[n - 2], nodes[n - 1];
      var i :| 0 <= i < |g[u]| && g[u][i] == Edge(v, x);
      WalksAreLong(g, s, d, parent, walks, settled, q, nodes[..n - 1], w - x);
      assert u !in settled && d[u].Finite? ==> (u, d[u].w) in q;
      if e :| e in q && e.1 <= w - x {
        assert e.1 <= w;
      } else if u in settled {
        assert Relaxed(g, d, u);
      }
    } else {
      assert NodeOk(g, s, d, parent, walks, settled, s);
    }
  }

  // ------------------------------------------------------------------ one relaxation

  ghost predicate EdgeRelaxed(g: Graph, d: seq<Cost>, u: nat, i: nat)
    requires |d| == |g| && u < |g| && i < |g[u]| && Proper(g) && d[u].Finite?
  {
    d[g[u][i].to].Finite? && d[g[u][i].to].w <= d[u].w + g[u][i].weight
  }

  // The nodes whose edges are all relaxed, apart from u.
  ghost predicate OthersRelaxed(g: Graph, d: seq<Cost>, settled: set<nat>, u: nat)
    requires |d| == |g| && Proper(g)
  {
    forall v :: v in settled ==> v < |g| && d[v].Finite? && (v != u ==> Relaxed(g, d, v))
  }

  // While the edges of u are scanned, u counts as settled and its first i edges are relaxed.  When
  // u was settled before (an outdated entry), all its edges are; when it was not, no settled node
  // is farther than u.
  ghost predicate ScanInv(g: Graph, s: nat, d: seq<Cost>, parent: seq<int>, walks: seq<seq<nat>>, settled: set<nat>, q: Queue,
                          u: nat, i: nat, outdated: bool) {
    && Proper(g) && s < |g| && |d| == |parent| == |walks| == |g| && u < |g| && i <= |g[u]|
    && u in settled && d[u].Finite? && d[s].Finite?
    && (forall v :: 0 <= v < |g| ==> NodeOk(g, s, d, parent, walks, settled, v))
    && OthersRelaxed(g, d, settled, u)
    && (forall k :: 0 <= k < i ==> EdgeRelaxed(g, d, u, k))
    && (if outdated then Relaxed(g, d, u) else forall v :: v in settled ==> d[v].w <= d[u].w)
    && QueueOk(g, d, settled, q)
  }

  lemma NodesAfterRelax(g: Graph, s: nat, d: seq<Cost>, parent: seq<int>, walks: seq<seq<nat>>, settled: set<nat>,
                        u: nat, v: nat, w: real, z: nat)
    requires Proper(g) && s < |g| && |d| == |parent| == |walks| == |g| && u in settled && u < |g| && d[u].Finite? && w > 0.0
    requires v < |g| && v !in settled && v != s && HasEdge(g, u, v, w) && z < |g|
    requires NodeOk(g, s, d, parent, walks, settled, z) && NodeOk(g, s, d, parent, walks, settled, u)
    ensures NodeOk(g, s, d[v := Finite(d[u].w + w)], parent[v := u], walks[v := walks[u] + [v]], settled, z)
  {
    if z == v { WalkExtend(g, walks[u], d[u].w, v, w); }
  }

  lemma RelaxQueue(g: Graph, d: seq<Cost>, settled: set<nat>, q: Queue, u: nat, v: nat, w: real)
    requires |d| == |g| && QueueOk(g, d, settled, q) && v < |g| && v !in settled && u < |g| && d[u].Finite?
    requires d[v].Infinite? || d[u].w + w < d[v].w
    requires w > 0.0 && forall z :: z in settled ==> z < |g| && d[z].Finite? && d[z].w <= d[u].w
    ensures QueueOk(g, d[v := Finite(d[u].w + w)], settled, q + multiset{(v, d[u].w + w)})
  {
    var d' := d[v := Finite(d[u].w + w)];
    var q' := q + multiset{(v, d[u].w + w)};
    assert forall e :: e in q' <==> e in q || e == (v, d[u].w + w);
  }

  lemma RelaxOthers(g: Graph, d: seq<Cost>, settled: set<nat>, u: nat, v: nat, c: real)
    requires |d| == |g| && Proper(g) && OthersRelaxed(g, d, settled, u) && v < |g| && v !in settled
    requires d[v].Infinite? || c < d[v].w
    ensures OthersRelaxed(g, d[v := Finite(c)], settled, u)
  {
    var d' := d[v := Finite(c)];
    forall z | z in settled && z != u ensures Relaxed(g, d', z) {
      assert Relaxed(g, d, z);
    }
  }

  // A node that u improves is neither settled nor the source.
  lemma RelaxTarget(g: Graph, s: nat, d: seq<Cost>, parent: seq<int>, walks: seq<seq<nat>>, settled: set<nat>, q: Queue,
                    u: nat, i: nat)
    requires ScanInv(g, s, d, parent, walks, settled, q, u, i, false) && i < |g[u]|
    requires var e := g[u][i]; d[e.to].Infinite? || d[u].w + e.weight < d[e.to].w
    ensures var e := g[u][i]; e.weight > 0.0 && e.to < |g| && e.to !in settled && e.to != s && HasEdge(g, u, e.to, e.weight)
  {
    hide QueueOk, Relaxed;
    assert NodeOk(g, s, d, parent, walks, settled, u) && NodeOk(g, s, d, parent, walks, settled, s);
    assert g[u][i] in g[u];
  }

  lemma RelaxEdges(g: Graph, d: seq<Cost>, d': seq<Cost>, u: nat, i: nat)
    requires |d| == |g| && Proper(g) && u < |g| && i < |g[u]| && d[u].Finite? && g[u][i].to != u
    requires var e := g[u][i]; d[e.to].Infinite? || d[u].w + e.weight < d[e.to].w
    requires forall k :: 0 <= k < i ==> EdgeRelaxed(g, d, u, k)
    requires d' == d[g[u][i].to := Finite(d[u].w + g[u][i].weight)]
    ensures forall k :: 0 <= k < i + 1 ==> EdgeRelaxed(g, d', u, k)
  {
    forall k | 0 <= k < i + 1 ensures EdgeRelaxed(g, d', u, k) {
      if k < i { assert EdgeRelaxed(g, d, u, k); }
    }
  }

  // A shorter way to v through u.
  lemma RelaxStep(g: Graph, s: nat, d: seq<Cost>, parent: seq<int>, walks: seq<seq<nat>>, settled: set<nat>, q: Queue,
                  u: nat, i: nat)
    requires ScanInv(g, s, d, parent, walks, settled, q, u, i, false) && i < |g[u]|
    requires var e := g[u][i]; d[e.to].Infinite? || d[u].w + e.weight < d[e.to].w
    ensures var e := g[u][i];
      ScanInv(g, s, d[e.to := Finite(d[u].w + e.weight)], parent[e.to := u], walks[e.to := walks[u] + [e.to]], settled,
              q + multiset{(e.to, d[u].w + e.weight)}, u, i + 1, false)
  {
    RelaxTarget(g, s, d, parent, walks, settled, q, u, i);
    hide NodeOk, QueueOk, Relaxed, HasEdge, EdgeRelaxed;
    var Edge(v, w) := g[u][i];
    var d', parent', walks' := d[v := Finite(d[u].w + w)], parent[v := u], walks[v := walks[u] + [v]];
    RelaxEdges(g, d, d', u, i);
    RelaxOthers(g, d, settled, u, v, d[u].w + w);
    RelaxQueue(g, d, settled, q, u, v, w);
    forall z | 0 <= z < |g| ensures NodeOk(g, s, d', parent', walks', settled, z) {
      NodesAfterRelax(g, s, d, parent, walks, settled, u, v, w, z);
    }
  }

  // The edge is already relaxed.
  lemma SkipStep(g: Graph, s: nat, d: seq<Cost>, parent: seq<int>, walks: seq<seq<nat>>, settled: set<nat>, q: Queue,
                 u: nat, i: nat, outdated: bool)
    requires ScanInv(g, s, d, parent, walks, settled, q, u, i, outdated) && i < |g[u]|
    requires var e := g[u][i]; d[e.to].Finite? && d[e.to].w <= d[u].w + e.weight
    ensures ScanInv(g, s, d, parent, walks, settled, q, u, i + 1, outdated)
  {
    hide NodeOk, QueueOk, OthersRelaxed, Relaxed;
    assert EdgeRelaxed(g, d, u, i);
  }

  lemma OutdatedIsRelaxed(g: Graph, s: nat, d: seq<Cost>, parent: seq<int>, walks: seq<seq<nat>>, settled: set<nat>, q: Queue,
                          u: nat, i: nat)
    requires ScanInv(g, s, d, parent, walks, settled, q, u, i, true) && i < |g[u]|
    ensures var e := g[u][i]; d[e.to].Finite? && d[e.to].w <= d[u].w + e.weight
  {
    assert Relaxed(g, d, u);
  }

  // Popping the least entry: its node is settled from now on.
  lemma PopStep(g: Graph, s: nat, d: seq<Cost>, parent: seq<int>, walks: seq<seq<nat>>, settled: set<nat>, q: Queue, top: (nat, real))
    requires SearchInv(g, s, d, parent, walks, settled, q) && IsTop(q, top)
    ensures ScanInv(g, s, d, parent, walks, settled + {top.0}, q - multiset{top}, top.0, 0, top.0 in settled)
  {
    var u := top.0;
    var q' := q - multiset{top};
    assert d[u].Finite? && u < |g|;
    if u !in settled { assert (u, d[u].w) in q; assert d[u].w == top.1; }
    forall v | 0 <= v < |g| ensures NodeOk(g, s, d, parent, walks, settled + {u}, v) {
      assert NodeOk(g, s, d, parent, walks, settled, v);
    }
    PopQueue(g, d, settled, q, top);
  }

  lemma PopQueue(g: Graph, d: seq<Cost>, settled: set<nat>, q: Queue, top: (nat, real))
    requires |d| == |g| && QueueOk(g, d, settled, q) && IsTop(q, top)
    requires top.0 !in settled ==> d[top.0].w == top.1
    ensures QueueOk(g, d, settled + {top.0}, q - multiset{top})
  {
    var q' := q - multiset{top};
    assert forall e :: e in q' ==> e in q;
    forall v: nat | v < |g| && v !in settled + {top.0} && d[v].Finite? ensures (v, d[v].w) in q' {
      assert (v, d[v].w) in q;
    }
  }

  // After the scan all edges of u are relaxed.
  lemma ScanDone(g: Graph, s: nat, d: seq<Cost>, parent: seq<int>, walks: seq<seq<nat>>, settled: set<nat>, q: Queue,
                 u: nat, outdated: bool)
    requires u < |g| && ScanInv(g, s, d, parent, walks, settled, q, u, |g[u]|, outdated)
    ensures SearchInv(g, s, d, parent, walks, settled, q)
  {
    assert Relaxed(g, d, u) by {
      forall k | 0 <= k < |g[u]| ensures d[g[u][k].to].Finite? && d[g[u][k].to].w <= d[u].w + g[u][k].weight {
        assert EdgeRelaxed(g, d, u, k);
      }
    }
  }

  // ------------------------------------------------------------------ the algorithm

  predicate IsNode(g: Graph, v: nat) { v < |g| }

  ghost function Nodes(g: Graph): set<nat> {
    set v: nat | v < |g| && IsNode(g, v)
  }

  ghost predicate StartOk(g: Graph, s: nat, d: seq<Cost>, parent: seq<int>) {
    && s < |g| && |d| == |parent| == |g|
    && (forall v :: 0 <= v < |g| ==> d[v] == if v == s then Finite(0.0) else Infinite)
    && (forall v :: 0 <= v < |g| ==> parent[v] == -1)
  }

  lemma StartInv(g: Graph, s: nat, d: seq<Cost>, parent: seq<int>)
    requires Proper(g) && StartOk(g, s, d, parent)
    ensures SearchInv(g, s, d, parent, seq(|g|, _ => [s]), {}, multiset{(s, 0.0)})
  {
    var walks := seq(|g|, _ => [s]);
    forall v | 0 <= v < |g| ensures NodeOk(g, s, d, parent, walks, {}, v) {
      assert Walk(g, [s], 0.0);
    }
  }

  // The early exit is sound: the destination's distance cannot improve any more.
  lemma TopIsShortest(g: Graph, s: nat, d: seq<Cost>, parent: seq<int>, walks: seq<seq<nat>>, settled: set<nat>, q: Queue, top: (nat, real))
    requires SearchInv(g, s, d, parent, walks, settled, q) && IsTop(q, top) && top.0 !in settled
    ensures top.0 < |g| && d[top.0].Finite? && ShortestWalk(g, walks[top.0], d[top.0].w, s, top.0)
  {
    var t := top.0;
    assert (t, d[t].w) in q;
    assert NodeOk(g, s, d, parent, walks, settled, t);
    forall p, z | WalkBetween(g, p, z, s, t) ensures d[t].w <= z {
      WalksAreLong(g, s, d, parent, walks, settled, q, p, z);
    }
  }

  // When the queue runs empty, a node that is not settled is not reachable.
  lemma EmptyMeansUnreachable(g: Graph, s: nat, d: seq<Cost>, parent: seq<int>, walks: seq<seq<nat>>, settled: set<nat>, t: nat)
    requires SearchInv(g, s, d, parent, walks, settled, multiset{}) && t < |g| && t !in settled
    ensures d[t].Infinite? && forall p, z :: !WalkBetween(g, p, z, s, t)
  {
    forall p, z | WalkBetween(g, p, z, s, t) ensures false {
      WalksAreLong(g, s, d, parent, walks, settled, multiset{}, p, z);
    }
  }

  // The loop over the edges of u.
  method Scan(g: Graph, s: nat, d0: seq<Cost>, parent0: seq<int>, ghost walks0: seq<seq<nat>>, ghost settled: set<nat>, q0: Queue,
              u: nat, ghost outdated: bool)
    returns (d: seq<Cost>, parent: seq<int>, ghost walks: seq<seq<nat>>, q: Queue)
    requires ScanInv(g, s, d0, parent0, walks0, settled, q0, u, 0, outdated)
    ensures SearchInv(g, s, d, parent, walks, settled, q)
    ensures outdated ==> q == q0
  {
    hide NodeOk, QueueOk, Relaxed, OthersRelaxed, EdgeRelaxed;
    d, parent, walks, q := d0, parent0, walks0, q0;
    var i := 0;
    while i < |g[u]|
      invariant i <= |g[u]| && ScanInv(g, s, d, parent, walks, settled, q, u, i, outdated)
      invariant outdated ==> q == q0
    {
      var v, w := g[u][i].to, g[u][i].weight;
      if d[v].Infinite? || d[v].w > d[u].w + w {
        if outdated { OutdatedIsRelaxed(g, s, d, parent, walks, settled, q, u, i); }
        RelaxStep(g, s, d, parent, walks, settled, q, u, i);
        walks := walks[v := walks[u] + [v]];
        d := d[v := Finite(d[u].w + w)];
        parent := parent[v := u];
        q := q + multiset{(v, d[v].w)};
      } else {
        SkipStep(g, s, d, parent, walks, settled, q, u, i, outdated);
      }
      i := i + 1;
    }
    ScanDone(g, s, d, parent, walks, settled, q, u, outdated);
  }

  method Search(g: Graph, source: nat, destination: nat)
    returns (d: seq<Cost>, parent: seq<int>, ghost walks: seq<seq<nat>>, ghost settled: set<nat>)
    requires Proper(g) && source < |g| && destination < |g|
    ensures |d| == |parent| == |walks| == |g|
    ensures forall v :: 0 <= v < |g| ==> NodeOk(g, source, d, parent, walks, settled, v)
    ensures d[destination].Finite? ==> ShortestWalk(g, walks[destination], d[destination].w, source, destination)
    ensures d[destination].Infinite? ==> forall p, z :: !WalkBetween(g, p, z, source, destination)
  {
    hide NodeOk, QueueOk, Relaxed, ScanInv, ShortestWalk, WalkBetween, Proper;
    d := seq(|g|, _ => Infinite);
    parent := seq(|g|, _ => -1);
    d := d[source := Finite(0.0)];
    var q: Queue := multiset{(source, 0.0)};
    walks, settled := seq(|g|, _ => [source]), {};
    StartInv(g, source, d, parent);
    while q != multiset{}
      invariant SearchInv(g, source, d, parent, walks, settled, q)
      invariant destination !in settled && settled <= Nodes(g)
      decreases Nodes(g) - settled, |q|
    {
      TopExists(q);
      var top :| IsTop(q, top);
      var u := top.0;
      if u == destination {
        TopIsShortest(g, source, d, parent, walks, settled, q, top);
        return;
      }
      PopStep(g, source, d, parent, walks, settled, q, top);
      assert IsNode(g, u) by { TopIsNode(g, source, d, parent, walks, settled, q, top); }
      ghost var outdated := u in settled;
      settled := settled + {u};
      d, parent, walks, q := Scan(g, source, d, parent, walks, settled, q - multiset{top}, u, outdated);
    }
    EmptyMeansUnreachable(g, source, d, parent, walks, settled, destination);
  }

  lemma TopIsNode(g: Graph, s: nat, d: seq<Cost>, parent: seq<int>, walks: seq<seq<nat>>, settled: set<nat>, q: Queue, top: (nat, real))
    requires SearchInv(g, s, d, parent, walks, settled, q) && IsTop(q, top)
    ensures top.0 < |g|
  {
  }

  // dijkstra: the nodes of a shortest walk from source to destination, last node first.  Without
  // such a walk the source follows the parent -1 out of its array; None stands for that.
  method Dijkstra(g: Graph, source: nat, destination: nat) returns (path: Option<seq<nat>>, ghost w: real)
    requires Proper(g) && source < |g| && destination < |g|
    ensures path.Some? ==> ShortestWalk(g, Reversed(path.value), w, source, destination)
    ensures path.None? <==> forall p, z :: !WalkBetween(g, p, z, source, destination)
  {
    ghost var walks, settled;
    var d, parent;
    d, parent, walks, settled := Search(g, source, destination);
    if d[destination] == Infinite { return None, 0.0; }
    w := d[destination].w;
    var p: nat := destination;
    var nodes: seq<nat> := [destination];
    assert NodeOk(g, source, d, parent, walks, settled, destination);
    hide ShortestWalk, Proper, Walk, NodeOk;
    while p != source
      invariant ChainOk(g, source, d, walks, p, nodes, walks[destination])
      decreases |walks[p]|
    {
      ChainStep(g, source, d, parent, walks, settled, p, nodes, walks[destination]);
      p := parent[p];
      nodes := nodes + [p];
    }
    ChainEnd(g, source, d, parent, walks, settled, nodes, walks[destination]);
    path := Some(nodes);
  }

  // The nodes collected so far, reversed, complete the walk that is recorded for p.
  ghost predicate ChainOk(g: Graph, s: nat, d: seq<Cost>, walks: seq<seq<nat>>, p: nat, nodes: seq<nat>, full: seq<nat>) {
    && |d| == |walks| == |g| && p < |g| && d[p].Finite?
    && |walks[p]| > 0 && walks[p][|walks[p]| - 1] == p && |nodes| > 0 && nodes[|nodes| - 1] == p
    && full == walks[p][..|walks[p]| - 1] + Reversed(nodes)
  }

  lemma ChainStep(g: Graph, s: nat, d: seq<Cost>, parent: seq<int>, walks: seq<seq<nat>>, settled: set<nat>, p: nat, nodes: seq<nat>, full: seq<nat>)
    requires ChainOk(g, s, d, walks, p, nodes, full) && p != s && |parent| == |g|
    requires forall v :: 0 <= v < |g| ==> NodeOk(g, s, d, parent, walks, settled, v)
    ensures 0 <= parent[p] < |g| && |walks[parent[p]]| < |walks[p]|
    ensures ChainOk(g, s, d, walks, parent[p], nodes + [parent[p] as nat], full)
  {
    assert NodeOk(g, s, d, parent, walks, settled, p);
    var u: nat := parent[p];
    assert NodeOk(g, s, d, parent, walks, settled, u);
    hide Walk;
    ReversedSnoc(nodes, u);
    assert walks[p][..|walks[p]| - 1] == walks[u] == walks[u][..|walks[u]| - 1] + [u];
  }

  lemma ChainEnd(g: Graph, s: nat, d: seq<Cost>, parent: seq<int>, walks: seq<seq<nat>>, settled: set<nat>, nodes: seq<nat>, full: seq<nat>)
    requires ChainOk(g, s, d, walks, s, nodes, full) && |parent| == |g| && NodeOk(g, s, d, parent, walks, settled, s)
    ensures Reversed(nodes) == full
  {
  }

  lemma {:induction false} ReversedSnoc(s: seq<nat>, x: nat)
    ensures Reversed(s + [x]) == [x] + Reversed(s)
  {
    if s != [] {
      assert (s + [x])[1..] == s[1..] + [x];
      ReversedSnoc(s[1..], x);
    }
  }
}
