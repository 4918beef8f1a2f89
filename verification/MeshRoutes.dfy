/** XY routes through the mesh of CoherenceInterconnect. */
module MeshRoutes {
  import opened NoCHops
  import opened NoCShapes

  datatype Port = East | Local | North | South | West
  datatype Pos = Pos(x: nat, y: nat)
  datatype Hop = Hop(x: nat, y: nat, port: Port)  // a router and the output port taken there
  type Route = seq<Hop>

  function Distance(s: Pos, d: Pos): nat { Gap(s.x, d.x) + Gap(s.y, d.y) }

  // Along x first, then along y, then out of the local port.
  function XYRoute(s: Pos, d: Pos): (r: Route)
    decreases Distance(s, d)
  {
    if d.x < s.x then [Hop(s.x, s.y, West)] + XYRoute(Pos(s.x - 1, s.y), d)
    else if d.x > s.x then [Hop(s.x, s.y, East)] + XYRoute(Pos(s.x + 1, s.y), d)
    else if d.y < s.y then [Hop(s.x, s.y, North)] + XYRoute(Pos(s.x, s.y - 1), d)
    else if d.y > s.y then [Hop(s.x, s.y, South)] + XYRoute(Pos(s.x, s.y + 1), d)
    else [Hop(s.x, s.y, Local)]
  }

  // The output port of hop h is wired to router p.
  predicate Wired(h: Hop, p: Pos) {
    match h.port
    case East => p == Pos(h.x + 1, h.y)
    case West => h.x == p.x + 1 && h.y == p.y
    case South => p == Pos(h.x, h.y + 1)
    case North => h.x == p.x && h.y == p.y + 1
    case Local => false
  }

  ghost predicate Inside(p: Pos, sizeX: nat, sizeY: nat) { p.x < sizeX && p.y < sizeY }

  function At(h: Hop): Pos { Pos(h.x, h.y) }

  // A chain of neighbouring routers that leaves by a local port at its end, and only there.
  ghost predicate RouteBetween(r: Route, s: Pos, d: Pos) {
    && |r| > 0 && At(r[0]) == s && r[|r| - 1] == Hop(d.x, d.y, Local)
    && forall k :: 0 <= k < |r| - 1 ==> Wired(r[k], At(r[k + 1]))
  }

  // The router after s and the hop to it.
  function Toward(s: Pos, d: Pos): (next: Pos)
    requires s != d
  {
    if d.x < s.x then Pos(s.x - 1, s.y) else if d.x > s.x then Pos(s.x + 1, s.y)
    else if d.y < s.y then Pos(s.x, s.y - 1) else Pos(s.x, s.y + 1)
  }

  lemma XYFirst(s: Pos, d: Pos) returns (h: Hop)
    requires s != d
    ensures XYRoute(s, d) == [h] + XYRoute(Toward(s, d), d)
    ensures At(h) == s && Wired(h, Toward(s, d)) && Distance(Toward(s, d), d) + 1 == Distance(s, d)
    ensures Toward(s, d).x <= (if s.x < d.x then d.x else s.x) && Toward(s, d).y <= (if s.y < d.y then d.y else s.y)
  {
    h := XYRoute(s, d)[0];
  }

  lemma RouteCons(h: Hop, r: Route, next: Pos, d: Pos)
    requires RouteBetween(r, next, d) && Wired(h, next)
    ensures RouteBetween([h] + r, At(h), d)
  {
    var t := [h] + r;
    forall k | 0 <= k < |t| - 1 ensures Wired(t[k], At(t[k + 1])) {
      if k > 0 { assert Wired(r[k - 1], At(r[k])); }
    }
  }

  lemma {:induction false} XYRouteLeads(s: Pos, d: Pos)
    ensures RouteBetween(XYRoute(s, d), s, d)
    ensures |XYRoute(s, d)| == Distance(s, d) + 1
    decreases Distance(s, d)
  {
    if s != d {
      var h := XYFirst(s, d);
      XYRouteLeads(Toward(s, d), d);
      RouteCons(h, XYRoute(Toward(s, d), d), Toward(s, d), d);
    }
  }

  // Every hop comes one nearer to the destination, so that no router is met twice, and the route
  // stays in the mesh when its ends do.
  lemma {:induction false} XYRouteNears(s: Pos, d: Pos, k: nat)
    requires k < |XYRoute(s, d)|
    ensures var r := XYRoute(s, d); |r| == Distance(At(r[k]), d) + 1 + k
    ensures forall sizeX: nat, sizeY: nat :: Inside(s, sizeX, sizeY) && Inside(d, sizeX, sizeY) ==> Inside(At(XYRoute(s, d)[k]), sizeX, sizeY)
    decreases k
  {
    XYRouteLeads(s, d);
    if k > 0 {
      var h := XYFirst(s, d);
      XYRouteNears(Toward(s, d), d, k - 1);
    }
  }

  lemma XYRouteSimple(s: Pos, d: Pos, i: nat, k: nat)
    requires i < k < |XYRoute(s, d)|
    ensures At(XYRoute(s, d)[i]) != At(XYRoute(s, d)[k])
  {
    XYRouteNears(s, d, i);
    XYRouteNears(s, d, k);
  }

  // The route leaves its row only in the column of the destination.
  lemma {:induction false} XYRouteXFirst(s: Pos, d: Pos, k: nat)
    requires k < |XYRoute(s, d)|
    ensures XYRoute(s, d)[k].y == s.y || XYRoute(s, d)[k].x == d.x
    ensures s.x == d.x ==> XYRoute(s, d)[k].x == d.x
    decreases k
  {
    if k == 0 {
      XYRouteLeads(s, d);
    } else {
      var h := XYFirst(s, d);
      XYRouteXFirst(Toward(s, d), d, k - 1);
    }
  }

  // A route may be charged to the routers of a mesh.
  ghost predicate RouteOk(r: Route, sizeX: nat, sizeY: nat) {
    && |r| > 0
    && (forall k :: 0 <= k < |r| ==> Inside(At(r[k]), sizeX, sizeY))
    && (forall k :: 0 <= k < |r| ==> (r[k].port == Local <==> k == |r| - 1))
    && (forall i, k :: 0 <= i < k < |r| ==> r[i] != r[k])
  }

  lemma XYRouteOk(s: Pos, d: Pos, sizeX: nat, sizeY: nat)
    requires Inside(s, sizeX, sizeY) && Inside(d, sizeX, sizeY)
    ensures RouteOk(XYRoute(s, d), sizeX, sizeY)
  {
    XYRouteLeads(s, d);
    var r := XYRoute(s, d);
    forall k | 0 <= k < |r| ensures Inside(At(r[k]), sizeX, sizeY) { XYRouteNears(s, d, k); }
    forall i, k | 0 <= i < k < |r| ensures r[i] != r[k] { XYRouteSimple(s, d, i, k); }
    forall k | 0 <= k < |r| ensures r[k].port == Local <==> k == |r| - 1 {
      if k < |r| - 1 { assert Wired(r[k], At(r[k + 1])); }
    }
  }

  lemma DistanceIsManhattan(s: Pos, d: Pos, sizeX: nat)
    requires s.x < sizeX && d.x < sizeX
    ensures Distance(s, d) == Manhattan(sizeX, s.y * sizeX + s.x, d.y * sizeX + d.x)
  {
    PositionOf(s.y * sizeX + s.x, s.y, s.x, sizeX);
    PositionOf(d.y * sizeX + d.x, d.y, d.x, sizeX);
  }

  // XY routes are shortest: they take as many hops as any chain of links of the mesh has to.
  lemma XYRouteShortest(s: Pos, d: Pos, sizeX: nat, sizeY: nat)
    requires Inside(s, sizeX, sizeY) && Inside(d, sizeX, sizeY)
    ensures var (g, u, t) := (MeshGraph(sizeY, sizeX), s.y * sizeX + s.x, d.y * sizeX + d.x);
      Reachable(g, u, t) && |XYRoute(s, d)| == Hops(g, u, t) + 1
  {
    hide MeshGraph, Manhattan, Distance, XYRoute, RouteBetween, Reachable;
    XYRouteLeads(s, d);
    DistanceIsManhattan(s, d, sizeX);
    RowBound(s.y, sizeY, sizeX);
    RowBound(d.y, sizeY, sizeX);
    MeshHops(sizeY, sizeX, s.y * sizeX + s.x, d.y * sizeX + d.x);
  }
}
