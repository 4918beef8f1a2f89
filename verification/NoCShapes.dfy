/** Networks built router by router, and the mesh: its links and the closed form of its hop distances. */
module NoCShapes {
  import opened Dijkstra
  import opened NoCHops
  import opened NoCRouting
  import opened NoCHopCount

  // ------------------------------------------------------------------ graphs given row by row

  // The first link of a router appends its row, the next ones extend it.
  lemma GrowRow(g: Graph, done: seq<Edge>, dst: nat)
    ensures Grown(if done == [] then g else g + [done], |g|, dst) == g + [done + [Edge(dst, 1.0)]]
  {
    if done == [] {
      GrownIs(g, |g|, dst);
    } else {
      GrownIs(g + [done], |g|, dst);
    }
  }

  // ------------------------------------------------------------------ the mesh

  function MeshRow(sizeX: nat, sizeY: nat, u: nat): (row: seq<Edge>)
    requires sizeY > 0
  {
    var i, j := u / sizeY, u % sizeY;
    (if j + 1 < sizeY then [Edge(u + 1, 1.0)] else []) +
    (if j >= 1 then [Edge(u - 1, 1.0)] else []) +
    (if i + 1 < sizeX then [Edge(u + sizeY, 1.0)] else []) +
    (if i >= 1 then [Edge(u - sizeY, 1.0)] else [])
  }

  // Router i * sizeY + j sits in column i and row j.
  lemma Position(i: nat, j: nat, sizeY: nat)
    requires j < sizeY
    ensures (i * sizeY + j) / sizeY == i && (i * sizeY + j) % sizeY == j
  {
    var u := i * sizeY + j;
    var q := u / sizeY;
    assert (q - i) * sizeY == j - u % sizeY;
    assert q - i >= 1 ==> (q - i) * sizeY >= sizeY;
    assert q - i <= -1 ==> (q - i) * sizeY + sizeY <= 0;
  }

  lemma RowBound(i: nat, sizeX: nat, sizeY: nat)
    requires i < sizeX
    ensures (i + 1) * sizeY == i * sizeY + sizeY <= sizeX * sizeY
  {
    assert (i + 1) * sizeY <= sizeX * sizeY;
  }

  // The neighbours of the router in column i and row j.
  lemma MeshRowAt(sizeX: nat, sizeY: nat, i: nat, j: nat)
    requires i < sizeX && j < sizeY
    ensures var u := i * sizeY + j;
      && u < sizeX * sizeY
      && MeshRow(sizeX, sizeY, u) ==
           (if j + 1 < sizeY then [Edge(u + 1, 1.0)] else []) +
           (if j >= 1 then [Edge(u - 1, 1.0)] else []) +
           (if i + 1 < sizeX then [Edge(u + sizeY, 1.0)] else []) +
           (if i >= 1 then [Edge(u - sizeY, 1.0)] else [])
      && (j + 1 < sizeY ==> u + 1 < sizeX * sizeY) && (i + 1 < sizeX ==> u + sizeY < sizeX * sizeY)
      && (j >= 1 ==> u >= 1) && (i >= 1 ==> u >= sizeY)
  {
    Position(i, j, sizeY);
    RowBound(i, sizeX, sizeY);
    if i + 1 < sizeX { RowBound(i + 1, sizeX, sizeY); }
    if i >= 1 { assert i * sizeY == (i - 1) * sizeY + sizeY; }
  }

  ghost function MeshGraph(sizeX: nat, sizeY: nat): (g: Graph)
    requires sizeY > 0
  {
    seq(sizeX * sizeY, u requires 0 <= u < sizeX * sizeY => MeshRow(sizeX, sizeY, u))
  }

  // What a router constructor loop has built before router u gets its links.
  ghost predicate BuiltUpTo(noc: NoCBase, full: Graph, u: nat)
    requires u <= |full|
    reads noc
  {
    && noc.Valid() && noc.tables == map[] && noc.graph == full[..u]
    && (forall r: nat :: r < u ==> r in noc.routers)
    && Below(noc.routers, |full|)
  }

  ghost predicate Below(routers: set<nat>, n: nat) {
    forall r: nat :: r in routers ==> r < n
  }

  // The graph while the row of router u is being built.
  ghost function Partial(full: Graph, u: nat, done: seq<Edge>): Graph
    requires u <= |full|
  {
    if done == [] then full[..u] else full[..u] + [done]
  }

  // Router u has got the links in `done` so far.
  ghost predicate UnderWay(noc: NoCBase, full: Graph, u: nat, done: seq<Edge>)
    requires u < |full|
    reads noc
  {
    && noc.Valid() && noc.tables == map[] && noc.graph == Partial(full, u, done)
    && (forall r: nat :: r < u ==> r in noc.routers)
    && (done != [] ==> u in noc.routers)
    && Below(noc.routers, |full|)
  }

  lemma RowStarts(noc: NoCBase, full: Graph, u: nat)
    requires u < |full| && BuiltUpTo(noc, full, u)
    ensures UnderWay(noc, full, u, [])
  {
  }

  lemma RowComplete(noc: NoCBase, full: Graph, u: nat)
    requires u < |full| && UnderWay(noc, full, u, full[u]) && full[u] != []
    ensures BuiltUpTo(noc, full, u + 1)
  {
    assert full[..u] + [full[u]] == full[..u + 1];
  }

  // One link of the router under construction, if it has a neighbour on that side.
  method LinkIf(noc: NoCBase, has: bool, u: nat, v: int, ghost full: Graph, ghost done: seq<Edge>, ghost more: seq<Edge>)
    requires u < |full| && UnderWay(noc, full, u, done) && (has ==> 0 <= v < |full|)
    requires more == Maybe(has, v)
    modifies noc`routers, noc`outPorts, noc`inPorts, noc`links, noc`portTo, noc`graph
    ensures UnderWay(noc, full, u, done + more)
  {
    hide Consistent;
    if has {
      GrowRow(full[..u], done, v);
      noc.AddLink(u, v);
    } else {
      assert done + [] == done;
    }
  }

  function Maybe(has: bool, v: int): (es: seq<Edge>)
    requires has ==> v >= 0
  {
    if has then [Edge(v, 1.0)] else []
  }

  // Two links of the router under construction.
  method LinkPair(noc: NoCBase, u: nat, has1: bool, v1: int, has2: bool, v2: int, ghost full: Graph, ghost done: seq<Edge>)
    requires u < |full| && UnderWay(noc, full, u, done)
    requires (has1 ==> 0 <= v1 < |full|) && (has2 ==> 0 <= v2 < |full|)
    modifies noc`routers, noc`outPorts, noc`inPorts, noc`links, noc`portTo, noc`graph
    ensures UnderWay(noc, full, u, done + Maybe(has1, v1) + Maybe(has2, v2))
  {
    hide UnderWay, Maybe;
    LinkIf(noc, has1, u, v1, full, done, Maybe(has1, v1));
    LinkIf(noc, has2, u, v2, full, done + Maybe(has1, v1), Maybe(has2, v2));
  }

  lemma MeshRowNonEmpty(sizeX: nat, sizeY: nat, i: nat, j: nat)
    requires i < sizeX && j < sizeY && !(sizeX == 1 && sizeY == 1)
    ensures MeshRow(sizeX, sizeY, i * sizeY + j) != []
  {
    MeshRowAt(sizeX, sizeY, i, j);
  }

  // The links of one router: north, south, east and west.
  method CrossLinks(noc: NoCBase, u: nat, sizeY: nat, north: bool, south: bool, east: bool, west: bool, ghost full: Graph)
    requires u < |full| && BuiltUpTo(noc, full, u) && full[u] != []
    requires (north ==> u + 1 < |full|) && (south ==> u >= 1) && (east ==> u + sizeY < |full|) && (west ==> u >= sizeY)
    requires full[u] == Maybe(north, u + 1) + Maybe(south, u - 1) + Maybe(east, u + sizeY) + Maybe(west, u - sizeY)
    modifies noc`routers, noc`outPorts, noc`inPorts, noc`links, noc`portTo, noc`graph
    ensures BuiltUpTo(noc, full, u + 1)
  {
    hide UnderWay, BuiltUpTo, Maybe;
    RowStarts(noc, full, u);
    ghost var half := [] + Maybe(north, u + 1) + Maybe(south, u - 1);
    assert half == Maybe(north, u + 1) + Maybe(south, u - 1);
    LinkPair(noc, u, north, u + 1, south, u - 1, full, []);
    LinkPair(noc, u, east, u + sizeY, west, u - sizeY, full, half);
    RowComplete(noc, full, u);
  }

  method MeshLinks(noc: NoCBase, sizeX: nat, sizeY: nat, i: nat, j: nat)
    requires i < sizeX && j < sizeY && !(sizeX == 1 && sizeY == 1)
    requires i * sizeY + j < sizeX * sizeY && BuiltUpTo(noc, MeshGraph(sizeX, sizeY), i * sizeY + j)
    modifies noc`routers, noc`outPorts, noc`inPorts, noc`links, noc`portTo, noc`graph
    ensures BuiltUpTo(noc, MeshGraph(sizeX, sizeY), i * sizeY + j + 1)
  {
    var u := i * sizeY + j;
    MeshRowAt(sizeX, sizeY, i, j);
    MeshRowNonEmpty(sizeX, sizeY, i, j);
    assert MeshGraph(sizeX, sizeY)[u] == MeshRow(sizeX, sizeY, u);
    hide BuiltUpTo;
    CrossLinks(noc, u, sizeY, j + 1 < sizeY, j >= 1, i + 1 < sizeX, i >= 1, MeshGraph(sizeX, sizeY));
  }

  method BuildMesh(sizeX: nat, sizeY: nat) returns (noc: NoCBase)
    ensures fresh(noc) && noc.Valid() && noc.tables == map[] && Numbered(noc.routers, sizeX * sizeY)
    ensures sizeX * sizeY > 1 ==> noc.graph == MeshGraph(sizeX, sizeY)
  {
    noc := new NoCBase();
    if sizeX == 1 && sizeY == 1 {
      noc.AddRouter(0);  // a single router has no link that would create it
      return;
    }
    if sizeY == 0 { return; }
    hide Consistent, MeshRow;
    var i := 0;
    while i < sizeX
      invariant i <= sizeX && fresh(noc) && i * sizeY <= sizeX * sizeY && BuiltUpTo(noc, MeshGraph(sizeX, sizeY), i * sizeY)
    {
      RowBound(i, sizeX, sizeY);
      var j := 0;
      while j < sizeY
        invariant j <= sizeY && fresh(noc) && BuiltUpTo(noc, MeshGraph(sizeX, sizeY), i * sizeY + j)
      {
        MeshLinks(noc, sizeX, sizeY, i, j);
        j := j + 1;
      }
      i := i + 1;
    }
    assert MeshGraph(sizeX, sizeY)[..sizeX * sizeY] == MeshGraph(sizeX, sizeY);
  }

  // ------------------------------------------------------------------ distances on the mesh

  function Gap(a: int, b: int): nat { if a < b then b - a else a - b }

  function Manhattan(sizeY: nat, u: nat, t: nat): nat
    requires sizeY > 0
  {
    Gap(u / sizeY, t / sizeY) + Gap(u % sizeY, t % sizeY)
  }

  lemma PositiveFactor(a: int, b: nat)
    requires a * b > 0
    ensures a > 0
  {
  }

  lemma Coordinates(sizeX: nat, sizeY: nat, u: nat)
    requires u < sizeX * sizeY
    ensures sizeY > 0 && u / sizeY < sizeX && u % sizeY < sizeY && u == u / sizeY * sizeY + u % sizeY
  {
    var q := u / sizeY;
    assert u == q * sizeY + u % sizeY;
    assert (sizeX - q) * sizeY == sizeX * sizeY - q * sizeY;
    PositiveFactor(sizeX - q, sizeY);
  }

  lemma Grid(sizeX: nat, sizeY: nat, u: nat) returns (i: nat, j: nat)
    requires u < sizeX * sizeY
    ensures i < sizeX && j < sizeY && u == i * sizeY + j
  {
    Coordinates(sizeX, sizeY, u);
    i, j := u / sizeY, u % sizeY;
  }

  lemma PositionOf(u: nat, i: nat, j: nat, sizeY: nat)
    requires j < sizeY && u == i * sizeY + j
    ensures u / sizeY == i && u % sizeY == j
  {
    Position(i, j, sizeY);
  }

  lemma InRow(sizeX: nat, sizeY: nat, u: nat, i: nat, j: nat)
    requires i < sizeX && j < sizeY && u == i * sizeY + j
    ensures u < sizeX * sizeY && u / sizeY == i && u % sizeY == j
  {
    RowBound(i, sizeX, sizeY);
    PositionOf(u, i, j, sizeY);
  }

  lemma NextColumn(i: nat, sizeY: nat)
    ensures (i + 1) * sizeY == i * sizeY + sizeY
  {
  }

  lemma EastOf(sizeX: nat, sizeY: nat, u: nat, i: nat, j: nat)
    requires i + 1 < sizeX && j < sizeY && u == i * sizeY + j
    ensures u + sizeY < sizeX * sizeY && (u + sizeY) / sizeY == i + 1 && (u + sizeY) % sizeY == j
  {
    NextColumn(i, sizeY);
    InRow(sizeX, sizeY, u + sizeY, i + 1, j);
  }

  lemma WestOf(sizeX: nat, sizeY: nat, u: nat, i: nat, j: nat)
    requires 1 <= i < sizeX && j < sizeY && u == i * sizeY + j
    ensures u >= sizeY && (u - sizeY) / sizeY == i - 1 && (u - sizeY) % sizeY == j
  {
    NextColumn(i - 1, sizeY);
    InRow(sizeX, sizeY, u - sizeY, i - 1, j);
  }

  // The coordinates of the four neighbours.
  lemma Neighbours(sizeX: nat, sizeY: nat, u: nat, i: nat, j: nat)
    requires i < sizeX && j < sizeY && u == i * sizeY + j
    ensures j + 1 < sizeY ==> u + 1 < sizeX * sizeY && (u + 1) / sizeY == i && (u + 1) % sizeY == j + 1
    ensures j >= 1 ==> u >= 1 && (u - 1) / sizeY == i && (u - 1) % sizeY == j - 1
    ensures i + 1 < sizeX ==> u + sizeY < sizeX * sizeY && (u + sizeY) / sizeY == i + 1 && (u + sizeY) % sizeY == j
    ensures i >= 1 ==> u >= sizeY && (u - sizeY) / sizeY == i - 1 && (u - sizeY) % sizeY == j
  {
    if j + 1 < sizeY { InRow(sizeX, sizeY, u + 1, i, j + 1); }
    if j >= 1 { InRow(sizeX, sizeY, u - 1, i, j - 1); }
    if i + 1 < sizeX { EastOf(sizeX, sizeY, u, i, j); }
    if i >= 1 { WestOf(sizeX, sizeY, u, i, j); }
  }

  lemma MaybeHas(has: bool, w: int, v: nat)
    requires has ==> w >= 0
    ensures Edge(v, 1.0) in Maybe(has, w) <==> has && v == w
  {
  }

  lemma MeshLinked(sizeX: nat, sizeY: nat, u: nat, i: nat, j: nat, v: nat)
    requires i < sizeX && j < sizeY && u == i * sizeY + j
    ensures Linked(MeshGraph(sizeX, sizeY), u, v) <==>
      || (j + 1 < sizeY && v == u + 1) || (j >= 1 && v == u - 1)
      || (i + 1 < sizeX && v == u + sizeY) || (i >= 1 && v == u - sizeY)
  {
    hide MeshRow, Maybe, MeshGraph, Linked;
    MeshRowAt(sizeX, sizeY, i, j);
    MeshRowMaybe(sizeX, sizeY, i, j, u);
    MaybeHas(j + 1 < sizeY, u + 1, v);
    MaybeHas(j >= 1, u - 1, v);
    MaybeHas(i + 1 < sizeX, u + sizeY, v);
    MaybeHas(i >= 1, u - sizeY, v);
    InFour(Maybe(j + 1 < sizeY, u + 1), Maybe(j >= 1, u - 1), Maybe(i + 1 < sizeX, u + sizeY), Maybe(i >= 1, u - sizeY), Edge(v, 1.0));
    LinkedRow(sizeX, sizeY, u, v);
  }

  lemma InFour(a: seq<Edge>, b: seq<Edge>, c: seq<Edge>, d: seq<Edge>, e: Edge)
    ensures e in a + b + c + d <==> e in a || e in b || e in c || e in d
  {
  }

  lemma LinkedRow(sizeX: nat, sizeY: nat, u: nat, v: nat)
    requires sizeY > 0 && u < sizeX * sizeY
    ensures Linked(MeshGraph(sizeX, sizeY), u, v) <==> v < sizeX * sizeY && Edge(v, 1.0) in MeshRow(sizeX, sizeY, u)
  {
    hide MeshRow;
    assert MeshGraph(sizeX, sizeY)[u] == MeshRow(sizeX, sizeY, u);
  }

  lemma MeshRowMaybe(sizeX: nat, sizeY: nat, i: nat, j: nat, u: nat)
    requires i < sizeX && j < sizeY && u == i * sizeY + j
    ensures (j >= 1 ==> u >= 1) && (i >= 1 ==> u >= sizeY)
    ensures MeshRow(sizeX, sizeY, u) ==
      Maybe(j + 1 < sizeY, u + 1) + Maybe(j >= 1, u - 1) + Maybe(i + 1 < sizeX, u + sizeY) + Maybe(i >= 1, u - sizeY)
  {
    hide MeshRow;
    MeshRowAt(sizeX, sizeY, i, j);
  }

  lemma ManhattanIs(sizeY: nat, v: nat, vi: nat, vj: nat, t: nat, ti: nat, tj: nat)
    requires vj < sizeY && tj < sizeY && v == vi * sizeY + vj && t == ti * sizeY + tj
    ensures Manhattan(sizeY, v, t) == Gap(vi, ti) + Gap(vj, tj)
  {
    PositionOf(v, vi, vj, sizeY);
    PositionOf(t, ti, tj, sizeY);
  }

  // The coordinates of a neighbour differ from its own by one in one place.
  lemma LinkedAt(sizeX: nat, sizeY: nat, u: nat, i: nat, j: nat, v: nat) returns (vi: nat, vj: nat)
    requires i < sizeX && j < sizeY && u == i * sizeY + j && Linked(MeshGraph(sizeX, sizeY), u, v)
    ensures vi < sizeX && vj < sizeY && v == vi * sizeY + vj && Gap(vi, i) + Gap(vj, j) == 1
  {
    hide MeshGraph, Linked;
    MeshLinked(sizeX, sizeY, u, i, j, v);
    NextColumn(i, sizeY);
    if i >= 1 { NextColumn(i - 1, sizeY); }
    if j + 1 < sizeY && v == u + 1 { vi, vj := i, j + 1; }
    else if j >= 1 && v == u - 1 { vi, vj := i, j - 1; }
    else if i + 1 < sizeX && v == u + sizeY { vi, vj := i + 1, j; }
    else { vi, vj := i - 1, j; }
  }

  // A link changes the Manhattan distance to any target by at most one.
  lemma MeshStep(sizeX: nat, sizeY: nat, u: nat, v: nat, t: nat)
    requires u < sizeX * sizeY && t < sizeX * sizeY && sizeY > 0 && Linked(MeshGraph(sizeX, sizeY), u, v)
    ensures Manhattan(sizeY, u, t) <= Manhattan(sizeY, v, t) + 1
  {
    hide MeshGraph, Linked, Manhattan;
    var i, j := Grid(sizeX, sizeY, u);
    var ti, tj := Grid(sizeX, sizeY, t);
    var vi, vj := LinkedAt(sizeX, sizeY, u, i, j, v);
    ManhattanIs(sizeY, u, i, j, t, ti, tj);
    ManhattanIs(sizeY, v, vi, vj, t, ti, tj);
  }

  lemma DescendFrom(sizeX: nat, sizeY: nat, u: nat, i: nat, j: nat, ti: nat, tj: nat) returns (v: nat)
    requires i < sizeX && j < sizeY && u == i * sizeY + j && ti < sizeX && tj < sizeY && (i != ti || j != tj)
    ensures Linked(MeshGraph(sizeX, sizeY), u, v)
    ensures Gap(v / sizeY, ti) + Gap(v % sizeY, tj) + 1 == Gap(i, ti) + Gap(j, tj)
  {
    Neighbours(sizeX, sizeY, u, i, j);
    v := if i < ti then u + sizeY else if i > ti then u - sizeY else if j < tj then u + 1 else u - 1;
    MeshLinked(sizeX, sizeY, u, i, j, v);
    hide MeshGraph, Linked;
  }

  // Away from the target some link lowers the Manhattan distance by one.
  lemma MeshDescends(sizeX: nat, sizeY: nat, u: nat, t: nat) returns (v: nat)
    requires u < sizeX * sizeY && t < sizeX * sizeY && u != t && sizeY > 0
    ensures Linked(MeshGraph(sizeX, sizeY), u, v) && Manhattan(sizeY, v, t) + 1 == Manhattan(sizeY, u, t)
  {
    hide MeshGraph, Linked, Manhattan, Gap;
    var i, j := Grid(sizeX, sizeY, u);
    var ti, tj := Grid(sizeX, sizeY, t);
    v := DescendAt(sizeX, sizeY, u, t, i, j, ti, tj);
  }

  lemma DescendAt(sizeX: nat, sizeY: nat, u: nat, t: nat, i: nat, j: nat, ti: nat, tj: nat) returns (v: nat)
    requires i < sizeX && j < sizeY && ti < sizeX && tj < sizeY && u != t
    requires u == i * sizeY + j && t == ti * sizeY + tj
    ensures Linked(MeshGraph(sizeX, sizeY), u, v) && Manhattan(sizeY, v, t) + 1 == Manhattan(sizeY, u, t)
  {
    hide MeshGraph, Linked, Gap;
    v := DescendFrom(sizeX, sizeY, u, i, j, ti, tj);
    PositionOf(u, i, j, sizeY);
    PositionOf(t, ti, tj, sizeY);
  }

  ghost predicate IsManhattan(sizeY: nat, t: nat, f: nat -> nat)
    requires sizeY > 0
  {
    forall v: nat :: f(v) == Manhattan(sizeY, v, t)
  }

  lemma MeshPotentialDescends(sizeX: nat, sizeY: nat, t: nat, f: nat -> nat)
    requires t < sizeX * sizeY && sizeY > 0 && IsManhattan(sizeY, t, f)
    ensures Descends(MeshGraph(sizeX, sizeY), t, f)
  {
    hide Manhattan, MeshRow, Linked;
    var g := MeshGraph(sizeX, sizeY);
    ManhattanSelf(sizeY, t);
    assert f(t) == Manhattan(sizeY, t, t);
    forall v | 0 <= v < |g| && v != t ensures f(v) > 0 && StepDown(g, f, v) {
      var x := MeshDescends(sizeX, sizeY, v, t);
      assert f(v) == Manhattan(sizeY, v, t) && f(x) == Manhattan(sizeY, x, t);
      assert Linked(g, v, x) && f(x) + 1 == f(v);
    }
  }

  lemma ManhattanSelf(sizeY: nat, t: nat)
    requires sizeY > 0
    ensures Manhattan(sizeY, t, t) == 0
  {
  }

  lemma LinkedInside(sizeX: nat, sizeY: nat, u: nat, v: nat)
    requires sizeY > 0 && Linked(MeshGraph(sizeX, sizeY), u, v)
    ensures u < sizeX * sizeY
  {
    hide MeshRow;
  }

  lemma MeshPotentialStep(sizeX: nat, sizeY: nat, t: nat, f: nat -> nat, v: nat, x: nat)
    requires t < sizeX * sizeY && sizeY > 0 && IsManhattan(sizeY, t, f) && Linked(MeshGraph(sizeX, sizeY), v, x)
    ensures f(v) <= f(x) + 1
  {
    hide Manhattan, MeshGraph, Linked;
    LinkedInside(sizeX, sizeY, v, x);
    MeshStep(sizeX, sizeY, v, x, t);
    assert f(v) == Manhattan(sizeY, v, t) && f(x) == Manhattan(sizeY, x, t);
  }

  // On the mesh the hop distance is the Manhattan distance.
  lemma MeshHops(sizeX: nat, sizeY: nat, u: nat, t: nat)
    requires u < sizeX * sizeY && t < sizeX * sizeY
    ensures sizeY > 0 && Reachable(MeshGraph(sizeX, sizeY), u, t)
    ensures Hops(MeshGraph(sizeX, sizeY), u, t) == Manhattan(sizeY, u, t)
  {
    hide Manhattan, MeshRow, Linked, Reachable, Descends;
    Coordinates(sizeX, sizeY, t);
    var g := MeshGraph(sizeX, sizeY);
    var f := (v: nat) => Manhattan(sizeY, v, t);
    MeshPotentialDescends(sizeX, sizeY, t, f);
    forall v, x | Linked(g, v, x) ensures f(v) <= f(x) + 1 { MeshPotentialStep(sizeX, sizeY, t, f, v, x); }
    PotentialIsHops(g, t, f, u);
  }

  lemma MeshConnected(sizeX: nat, sizeY: nat)
    requires sizeY > 0
    ensures Connected(MeshGraph(sizeX, sizeY), sizeX * sizeY)
  {
    var n := sizeX * sizeY;
    var g := MeshGraph(sizeX, sizeY);
    forall s, t | 0 <= s < n && 0 <= t < n ensures Reachable(g, s, t) { MeshHops(sizeX, sizeY, s, t); }
  }

  lemma MeshDistance(sizeX: nat, sizeY: nat, g: Graph, u: nat, t: nat)
    requires u < sizeX * sizeY && t < sizeX * sizeY && sizeY > 0
    requires sizeX * sizeY > 1 ==> g == MeshGraph(sizeX, sizeY)
    ensures Connected(g, sizeX * sizeY) && HopsTo(g, sizeX * sizeY, u, t) == Manhattan(sizeY, u, t)
  {
    hide MeshGraph;
    MeshConnected(sizeX, sizeY);
    MeshHops(sizeX, sizeY, u, t);
    if u == t { HopsZero(MeshGraph(sizeX, sizeY), u, t); }
  }

  // A mesh with its default routing: the model counts Manhattan distances.
  method MeshHopCounts(sizeX: nat, sizeY: nat) returns (hops: array2<nat>)
    ensures hops.Length0 == hops.Length1 == sizeX * sizeY
    ensures sizeY > 0 ==> forall r, t :: 0 <= r < sizeX * sizeY && 0 <= t < sizeX * sizeY ==> hops[r, t] == Manhattan(sizeY, r, t)
  {
    hide MeshGraph, Manhattan, Routes, Consistent;
    var n := sizeX * sizeY;
    var noc := BuildMesh(sizeX, sizeY);
    ghost var g := noc.graph;
    if sizeY > 0 { MeshConnected(sizeX, sizeY); }
    noc.BuildDefaultRoutingBidirectional(n);
    hops := HopCounts(n, noc.links, noc.tables, g);
    forall r, t | 0 <= r < n && 0 <= t < n && sizeY > 0 ensures hops[r, t] == Manhattan(sizeY, r, t) { MeshDistance(sizeX, sizeY, g, r, t); }
  }
}
