/** Output buffers of the mesh routers: ordered maps from packet ids to waiting times. */
module PacketBuffers {
  import opened Options
  import opened OrderedKeys
  import opened MeshRoutes

  type OutputBuffer = map<nat, real>
  type Buffers = map<Hop, OutputBuffer>  // by router and output port

  // operator[] makes a missing buffer empty.
  function Buffer(noc: Buffers, h: Hop): OutputBuffer { if h in noc then noc[h] else map[] }

  // ------------------------------------------------------------------ agreement with the packets

  // The packets whose route uses a port; packet ids start at one.
  ghost function Users(routes: seq<Route>, h: Hop): set<nat> {
    set k: nat | 1 <= k <= |routes| && Uses(routes, k, h)
  }

  ghost predicate Uses(routes: seq<Route>, k: nat, h: Hop) { 1 <= k <= |routes| && h in routes[k - 1] }

  // An id is in the buffer of a port exactly when that port is on its route.
  ghost predicate Agrees(noc: Buffers, routes: seq<Route>) {
    forall h :: Buffer(noc, h).Keys == Users(routes, h)
  }

  ghost predicate RoutesOk(routes: seq<Route>, sizeX: nat, sizeY: nat) {
    forall k :: 0 <= k < |routes| ==> RouteOk(routes[k], sizeX, sizeY)
  }

  // Waits are not negative, and the first packet in a buffer does not wait.
  ghost predicate WaitsOk(noc: Buffers) {
    forall h, k :: k in Buffer(noc, h) ==> WaitOk(Buffer(noc, h), k)
  }

  ghost predicate WaitOk(buffer: OutputBuffer, k: nat)
    requires k in buffer
  {
    buffer[k] >= 0.0 && (Lower(buffer.Keys, k) == {} ==> buffer[k] == 0.0)
  }

  // find() over a route; |r| is end()
  function IndexOf(r: Route, h: Hop): (i: nat)
    ensures i <= |r| && (h in r ==> i < |r| && r[i] == h)
  {
    if r == [] || r[0] == h then 0 else 1 + IndexOf(r[1..], h)
  }

  // ------------------------------------------------------------------ head-of-line blocking

  // The hop after h on the route of packet p.
  ghost function NextHop(routes: seq<Route>, p: nat, h: Hop): (b: Hop) {
    if 1 <= p <= |routes| && IndexOf(routes[p - 1], h) + 1 < |routes[p - 1]|
    then routes[p - 1][IndexOf(routes[p - 1], h) + 1] else h
  }

  function StepsBack(depth: nat, channels: nat): nat
    requires depth >= 1 && channels >= 1
  {
    if depth > 1 then
      assert depth * channels >= channels;
      depth * channels - 1
    else 0
  }

  // The head-of-line lookup of packet number c (counted from 0) at its i-th hop: the packet ahead of
  // it in the buffer goes on to another port b and is blocked there, and the waiting time of the
  // packet some places further ahead is looked up in the buffer of b.
  ghost function Lookup(routes: seq<Route>, c: nat, i: nat, depth: nat, channels: nat): Option<(Hop, Option<nat>)>
    requires c < |routes| && i < |routes[c]| && depth >= 1 && channels >= 1
  {
    var h := routes[c][i];
    var ks := Users(routes, h);
    if h.port == Local || Lower(ks, c + 1) == {} || i + 1 == |routes[c]| then None else
    var p := Before(ks, c + 1);
    var b := NextHop(routes, p, h);
    if b == routes[c][i + 1] || |Lower(Users(routes, b), p)| < depth * channels then None else
    Some((b, StepBack(ks, p, StepsBack(depth, channels))))
  }

  // The packet n places further ahead exists and goes on to port b.
  ghost predicate Found(ks: set<nat>, p: nat, n: nat, users: set<nat>) {
    exists q :: PlacesBefore(ks, p, n, q) && q in users
  }

  // Packet number c is not behind a packet p that is blocked in another port b, or the packet some
  // places ahead of p exists and goes on to b too.
  ghost predicate SafeHop(routes: seq<Route>, c: nat, i: nat, depth: nat, channels: nat)
    requires c < |routes| && i < |routes[c]| && depth >= 1 && channels >= 1
  {
    var h := routes[c][i];
    var ks := Users(routes, h);
    h.port != Local && Lower(ks, c + 1) != {} && i + 1 < |routes[c]| ==>
      var p := Before(ks, c + 1);
      var b := NextHop(routes, p, h);
      b != routes[c][i + 1] && |Lower(Users(routes, b), p)| >= depth * channels ==>
        Found(ks, p, StepsBack(depth, channels), Users(routes, b))
  }

  // That is when the iterator walk of the lookup stays in the buffer and finds its key.
  lemma SafeHopIsLookup(routes: seq<Route>, c: nat, i: nat, depth: nat, channels: nat)
    requires c < |routes| && i < |routes[c]| && depth >= 1 && channels >= 1
    ensures SafeHop(routes, c, i, depth, channels) <==>
      match Lookup(routes, c, i, depth, channels)
      case None => true
      case Some((b, q)) => q.Some? && q.value in Users(routes, b)
  {
    hide Found, StepsBack, Users;
    var h := routes[c][i];
    var ks := Users(routes, h);
    if h.port != Local && Lower(ks, c + 1) != {} && i + 1 < |routes[c]| {
      var p := Before(ks, c + 1);
      WalkFinds(ks, p, StepsBack(depth, channels), Users(routes, NextHop(routes, p, h)));
    }
  }

  lemma WalkFinds(ks: set<nat>, p: nat, n: nat, users: set<nat>)
    requires p in ks
    ensures var q := StepBack(ks, p, n); Found(ks, p, n, users) <==> q.Some? && q.value in users
  {
    hide StepBack, Lower;
    StepBackIs(ks, p, n);
    var s := StepBack(ks, p, n);
    if q :| PlacesBefore(ks, p, n, q) && q in users {
      if s.Some? { RankUnique(ks, q, s.value); }
    }
  }

  ghost predicate SafePacket(routes: seq<Route>, c: nat, upTo: nat, depth: nat, channels: nat)
    requires c < |routes| && upTo <= |routes[c]| && depth >= 1 && channels >= 1
  {
    forall i :: 0 <= i < upTo ==> SafeHop(routes, c, i, depth, channels)
  }

  // Every head-of-line lookup finds its packet.
  ghost predicate SafeDepth(routes: seq<Route>, upTo: nat, depth: nat, channels: nat)
    requires upTo <= |routes| && depth >= 1 && channels >= 1
  {
    forall c :: 0 <= c < upTo ==> SafePacket(routes, c, |routes[c]|, depth, channels)
  }

  lemma NextHopOnRoute(routes: seq<Route>, p: nat, h: Hop, sizeX: nat, sizeY: nat)
    requires RoutesOk(routes, sizeX, sizeY) && p in Users(routes, h) && h.port != Local
    ensures 1 <= p <= |routes| && IndexOf(routes[p - 1], h) + 1 < |routes[p - 1]|
    ensures p in Users(routes, NextHop(routes, p, h))
  {
    assert RouteOk(routes[p - 1], sizeX, sizeY);
  }

  // Buffers of depth one are always safe.
  lemma DepthOneSafe(routes: seq<Route>, channels: nat, sizeX: nat, sizeY: nat)
    requires RoutesOk(routes, sizeX, sizeY) && channels >= 1
    ensures SafeDepth(routes, |routes|, 1, channels)
  {
    forall c, i | 0 <= c < |routes| && 0 <= i < |routes[c]| ensures SafeHop(routes, c, i, 1, channels) {
      var h := routes[c][i];
      var ks := Users(routes, h);
      if h.port != Local && Lower(ks, c + 1) != {} {
        var p := Before(ks, c + 1);
        NextHopOnRoute(routes, p, h, sizeX, sizeY);
        assert PlacesBefore(ks, p, StepsBack(1, channels), p);
      }
    }
  }

  // Traffic that breaks every greater depth: k packets from router 1 to router 2, then one from 0 to
  // 2, which is alone in its first port but behind the k packets in the next one, then one from 0 to 1.
  ghost function Jam(k: nat): (routes: seq<Route>) {
    seq(k, _ => XYRoute(Pos(1, 0), Pos(2, 0))) + [XYRoute(Pos(0, 0), Pos(2, 0)), XYRoute(Pos(0, 0), Pos(1, 0))]
  }

  lemma JamRoutes(k: nat)
    ensures var (a, b) := (Hop(0, 0, East), Hop(1, 0, East));
      && |Jam(k)| == k + 2 && (forall j :: 0 <= j < k ==> Jam(k)[j] == [b, Hop(2, 0, Local)])
      && Jam(k)[k] == [a, b, Hop(2, 0, Local)] && Jam(k)[k + 1] == [a, Hop(1, 0, Local)]
  {
    assert XYRoute(Pos(2, 0), Pos(2, 0)) == [Hop(2, 0, Local)] && XYRoute(Pos(1, 0), Pos(1, 0)) == [Hop(1, 0, Local)];
    assert XYRoute(Pos(1, 0), Pos(2, 0)) == [Hop(1, 0, East), Hop(2, 0, Local)];
    assert XYRoute(Pos(0, 0), Pos(2, 0)) == [Hop(0, 0, East), Hop(1, 0, East), Hop(2, 0, Local)];
    assert XYRoute(Pos(0, 0), Pos(1, 0)) == [Hop(0, 0, East), Hop(1, 0, Local)];
  }

  lemma {:induction false} FirstIds(k: nat, ids: set<nat>)
    requires forall j: nat :: j in ids <==> 1 <= j <= k
    ensures |ids| == k
  {
    if k == 0 {
      assert ids == {};
    } else {
      FirstIds(k - 1, ids - {k});
    }
  }

  lemma JamUsers(k: nat)
    ensures Users(Jam(k), Hop(0, 0, East)) == {k + 1, k + 2}
    ensures forall j: nat :: j in Users(Jam(k), Hop(1, 0, East)) <==> 1 <= j <= k + 1
  {
    hide Jam, XYRoute;
    JamRoutes(k);
    var r := Jam(k);
    forall j: nat ensures j in Users(r, Hop(0, 0, East)) <==> j == k + 1 || j == k + 2
                  ensures j in Users(r, Hop(1, 0, East)) <==> 1 <= j <= k + 1
    {
      if 1 <= j <= k { assert r[j - 1] == [Hop(1, 0, East), Hop(2, 0, Local)]; }
      assert Uses(r, j, Hop(0, 0, East)) <==> j == k + 1 || j == k + 2;
      assert Uses(r, j, Hop(1, 0, East)) <==> 1 <= j <= k + 1;
    }
  }

  lemma JamHopUnsafe(depth: nat, channels: nat, k: nat)
    requires depth >= 2 && channels >= 1 && k == depth * channels >= 2
    ensures |Jam(k)| == k + 2 && |Jam(k)[k + 1]| == 2 && !SafeHop(Jam(k), k + 1, 0, depth, channels)
  {
    hide Jam, XYRoute, Users, Found, Lower;
    var r := Jam(k);
    var (a, b) := (Hop(0, 0, East), Hop(1, 0, East));
    JamRoutes(k);
    JamUsers(k);
    JamRanks(Users(r, a), Users(r, b), k);
    assert r[k][0] == a && IndexOf(r[k], a) == 0;
    assert NextHop(r, k + 1, a) == b;
    assert StepsBack(depth, channels) == k - 1;
  }

  lemma JamUnsafe(depth: nat, channels: nat)
    requires depth >= 2 && channels >= 1
    ensures var routes := Jam(depth * channels); !SafeDepth(routes, |routes|, depth, channels)
  {
    hide Jam, SafeHop;
    var k := depth * channels;
    assert k >= 2 by { assert depth * channels >= 2 * channels; }
    JamHopUnsafe(depth, channels, k);
    assert !SafePacket(Jam(k), k + 1, |Jam(k)[k + 1]|, depth, channels);
  }

  lemma JamRanks(first: set<nat>, next: set<nat>, k: nat)
    requires first == {k + 1, k + 2} && (forall j: nat :: j in next <==> 1 <= j <= k + 1) && k >= 2
    ensures Lower(first, k + 2) != {} && Before(first, k + 2) == k + 1
    ensures |Lower(next, k + 1)| == k && !Found(first, k + 1, k - 1, next)
  {
    assert k + 1 in Lower(first, k + 2);
    assert Lower(first, k + 1) == {};
    FirstIds(k, Lower(next, k + 1));
  }

  lemma JamOk(k: nat, sizeX: nat, sizeY: nat)
    requires sizeX >= 3 && sizeY >= 1
    ensures RoutesOk(Jam(k), sizeX, sizeY)
  {
    XYRouteOk(Pos(1, 0), Pos(2, 0), sizeX, sizeY);
    XYRouteOk(Pos(0, 0), Pos(2, 0), sizeX, sizeY);
    XYRouteOk(Pos(0, 0), Pos(1, 0), sizeX, sizeY);
    hide XYRoute, RouteOk;
  }

  ghost predicate AlwaysSafe(depth: nat, channels: nat, sizeX: nat, sizeY: nat)
    requires depth >= 1 && channels >= 1
  {
    forall routes :: RoutesOk(routes, sizeX, sizeY) ==> SafeDepth(routes, |routes|, depth, channels)
  }

  // On a mesh of three columns or more all traffic is safe exactly when the buffers have depth one.
  lemma SafeIffDepthOne(depth: nat, channels: nat, sizeX: nat, sizeY: nat)
    requires depth >= 1 && channels >= 1 && sizeX >= 3 && sizeY >= 1
    ensures AlwaysSafe(depth, channels, sizeX, sizeY) <==> depth == 1
  {
    hide SafeDepth, RoutesOk, Jam;
    if depth == 1 {
      forall routes | RoutesOk(routes, sizeX, sizeY) ensures SafeDepth(routes, |routes|, depth, channels) {
        DepthOneSafe(routes, channels, sizeX, sizeY);
      }
    } else {
      JamOk(depth * channels, sizeX, sizeY);
      JamUnsafe(depth, channels);
    }
  }
}
