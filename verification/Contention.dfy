/** The contention model of the mesh interconnect (CoherenceInterconnect). */
module Contention {
  import opened Options
  import opened OrderedKeys
  import opened NoCShapes
  import opened MeshRoutes
  import opened PacketBuffers
  import opened PacketLatencies
  import opened MeshTraffic

  function Routers(sizeX: nat, sizeY: nat): nat { sizeX * sizeY }

  // One counter goes up.
  function Charge(waits: seq<real>, r: nat, w: real): (s: seq<real>)
    requires r < |waits|
  {
    waits[r := waits[r] + w]
  }

  lemma ChargeTwice(waits: seq<real>, r: nat, w: real, w': real)
    requires r < |waits|
    ensures |Charge(waits, r, w)| == |waits| && Charge(Charge(waits, r, w), r, w') == Charge(waits, r, w + w')
  {
  }

  lemma IndexInside(h: Hop, sizeX: nat, sizeY: nat)
    requires Inside(At(h), sizeX, sizeY)
    ensures RouterIndex(h, sizeX) < Routers(sizeX, sizeY)
  {
    RowBound(h.y, sizeY, sizeX);
  }

  lemma HopInside(packets: seq<Packet>, c: nat, i: nat, sizeX: nat, sizeY: nat)
    requires RoutesOk(RoutesOf(packets), sizeX, sizeY) && c < |packets| && i < |packets[c].route|
    ensures RouterIndex(packets[c].route[i], sizeX) < Routers(sizeX, sizeY)
  {
    assert RouteOk(RoutesOf(packets)[c], sizeX, sizeY);
    IndexInside(packets[c].route[i], sizeX, sizeY);
  }

  lemma OnOwnRoute(noc: Buffers, packets: seq<Packet>, c: nat, i: nat)
    requires Agrees(noc, RoutesOf(packets)) && c < |packets| && i < |packets[c].route|
    ensures var h := packets[c].route[i]; Buffer(noc, h).Keys == Users(RoutesOf(packets), h) && c + 1 in Buffer(noc, h)
  {
    var h := packets[c].route[i];
    assert Uses(RoutesOf(packets), c + 1, h);
  }

  // What one hop adds to the wait of a packet, in terms of the buffers before.
  ghost function HopWait(t: Timing, noc: Buffers, packets: seq<Packet>, c: nat, i: nat, met: Met): Option<real>
    requires TimingOk(t) && c < |packets| && i < |packets[c].route|
  {
    match BlockedWait(t, noc, RoutesOf(packets), c, i)
    case None => None
    case Some(b) => Some(BufferWait(t, Buffer(noc, packets[c].route[i]), c + 1, met) + b)
  }

  lemma HopWaitIs(t: Timing, noc: Buffers, packets: seq<Packet>, c: nat, i: nat, met: Met)
    requires TimingOk(t) && c < |packets| && i < |packets[c].route|
    ensures |RoutesOf(packets)| == |packets| && RoutesOf(packets)[c] == packets[c].route
    ensures var w, b := BufferWait(t, Buffer(noc, packets[c].route[i]), c + 1, met), BlockedWait(t, noc, RoutesOf(packets), c, i);
      HopWait(t, noc, packets, c, i, met) == if b.Some? then Some(w + b.value) else None
  {
  }

  lemma HopWaitOk(t: Timing, noc: Buffers, packets: seq<Packet>, c: nat, i: nat, met: Met)
    requires TimingOk(t) && c < |packets| && i < |packets[c].route| && Agrees(noc, RoutesOf(packets)) && WaitsOk(noc)
    ensures var w := HopWait(t, noc, packets, c, i, met);
      && (w.Some? <==> SafeHop(RoutesOf(packets), c, i, t.depth, t.channels))
      && (w.Some? ==> w.value >= 0.0 && (Lower(Users(RoutesOf(packets), packets[c].route[i]), c + 1) == {} ==> w.value == 0.0))
  {
    var h := packets[c].route[i];
    assert forall k :: k in Buffer(noc, h) ==> WaitOk(Buffer(noc, h), k);
    SafeHopIsLookup(RoutesOf(packets), c, i, t.depth, t.channels);
    hide SafeHop;
    OnOwnRoute(noc, packets, c, i);
    match Lookup(RoutesOf(packets), c, i, t.depth, t.channels)
    case None =>
    case Some((b, q)) => if q.Some? && q.value in Buffer(noc, b) { assert WaitOk(Buffer(noc, b), q.value); }
  }

  // The packet's own entry plays no part in its blocking.
  lemma BlockedWaitFrame(t: Timing, noc: Buffers, routes: seq<Route>, c: nat, i: nat, w: real)
    requires TimingOk(t) && c < |routes| && i < |routes[c]|
    ensures BlockedWait(t, Recorded(noc, routes[c][i], c + 1, w), routes, c, i) == BlockedWait(t, noc, routes, c, i)
  {
    var h := routes[c][i];
    match Lookup(routes, c, i, t.depth, t.channels)
    case None =>
    case Some((b, q)) =>
      if q.Some? {
        var p := Before(Users(routes, h), c + 1);
        assert q == StepBack(Users(routes, h), p, StepsBack(t.depth, t.channels));
        assert q.value <= p < c + 1;
      }
  }

  lemma RecordedTwice(noc: Buffers, h: Hop, id: nat, w: real, w': real)
    ensures Recorded(Recorded(noc, h, id, w), h, id, w') == Recorded(noc, h, id, w')
  {
    assert Buffer(noc, h)[id := w][id := w'] == Buffer(noc, h)[id := w'];
  }

  lemma FirstIffNoneLower(ks: set<nat>, id: nat)
    requires id in ks
    ensures id == First(ks) <==> Lower(ks, id) == {}
  {
    if Lower(ks, id) == {} { assert First(ks) !in Lower(ks, id); }
  }

  lemma FirstUnblocked(t: Timing, noc: Buffers, routes: seq<Route>, c: nat, i: nat)
    requires TimingOk(t) && c < |routes| && i < |routes[c]| && Lower(Users(routes, routes[c][i]), c + 1) == {}
    ensures BlockedWait(t, noc, routes, c, i) == Some(0.0)
  {
  }

  // The packet ahead counts as met from its first common buffer on.
  ghost function NextMet(buffer: OutputBuffer, id: nat, met: Met): Met {
    if Lower(buffer.Keys, id) == {} then met else
    var p := Before(buffer.Keys, id);
    if met.id == Some(p) then met else Met(Some(p), buffer[p])
  }

  // The wait behind the packet ahead in the same buffer, if there is one.
  method QueueDelay(t: Timing, buffer: OutputBuffer, id: nat, met: Met) returns (ahead: Option<nat>, wait: real, met': Met)
    requires t.channels >= 1 && id in buffer
    ensures wait == BufferWait(t, buffer, id, met)
    ensures ahead == if Lower(buffer.Keys, id) == {} then None else Some(Before(buffer.Keys, id))
    ensures met' == NextMet(buffer, id, met)
  {
    FirstIffNoneLower(buffer.Keys, id);
    met' := met;
    if id == First(buffer.Keys) {
      return None, 0.0, met;
    }
    var p := Before(buffer.Keys, id);
    ahead := Some(p);
    if met.id == Some(p) {
      wait := if buffer[p] == met.wait then 0.0 else buffer[p];
    } else {
      wait := QueueWaitingTime(t, buffer[p], |buffer|);
      met' := Met(Some(p), buffer[p]);
    }
  }

  // The two parts of the wait of packet c at its i-th hop.
  method HopDelay(t: Timing, noc: Buffers, packets: seq<Packet>, c: nat, i: nat, met: Met, ghost sizeX: nat, ghost sizeY: nat)
    returns (wait: real, blocked: Option<real>, met': Met)
    requires TimingOk(t) && Interval(noc, packets, sizeX, sizeY) && c < |packets| && i < |packets[c].route|
    ensures packets[c].id == c + 1
    ensures wait == BufferWait(t, Buffer(noc, packets[c].route[i]), c + 1, met)
    ensures met' == NextMet(Buffer(noc, packets[c].route[i]), c + 1, met)
    ensures |RoutesOf(packets)| == |packets| && RoutesOf(packets)[c] == packets[c].route
    ensures blocked == BlockedWait(t, noc, RoutesOf(packets), c, i)
  {
    ghost var routes := RoutesOf(packets);
    OnOwnRoute(noc, packets, c, i);
    IntervalAt(noc, packets, c, sizeX, sizeY);
    hide Interval, Agrees, RoutesOf, BufferWait, BlockedWait, NextMet, Users, Recorded, Lower;
    var h, id := packets[c].route[i], packets[c].id;
    var ahead;
    ahead, wait, met' := QueueDelay(t, Buffer(noc, h), id, met);
    if ahead.None? {
      blocked := Some(0.0);
      FirstUnblocked(t, noc, routes, c, i);
    } else {
      var noc' := Recorded(noc, h, id, wait);  // the first part is recorded before the second is looked up
      IntervalRecorded(noc, packets, c, i, wait, sizeX, sizeY);
      blocked := HeadOfLine(t, noc', packets, c, i, ahead.value, sizeX, sizeY);
      BlockedWaitFrame(t, noc, routes, c, i, wait);
    }
  }

  class CoherenceInterconnect {
    const sizeX: nat
    const sizeY: nat
    const timing: Timing
    var noc: Buffers
    var packets: seq<Packet>       // packetBuffer
    var routerPackets: seq<nat>    // RouterPacketsCount
    var routerWaits: seq<real>     // RouterTotalLatency
    var totalDistance: nat
    var totalFlits: nat
    var packetsCount: nat
    var averageLatency: real
    var intervalStart: real
    var intervalEnd: real

    // Sets the entry of packet c at its i-th hop and charges the router.
    method Record(c: nat, i: nat, total: real, added: real)
      requires c < |packets| && i < |packets[c].route| && RouterIndex(packets[c].route[i], sizeX) < |routerWaits|
      modifies this`noc, this`routerWaits
      ensures noc == Recorded(old(noc), packets[c].route[i], packets[c].id, total)
      ensures routerWaits == Charge(old(routerWaits), RouterIndex(packets[c].route[i], sizeX), added)
      ensures |routerWaits| == old(|routerWaits|)
    {
      var h := packets[c].route[i];
      noc := Recorded(noc, h, packets[c].id, total);
      routerWaits := Charge(routerWaits, RouterIndex(h, sizeX), added);
    }

    // One hop of one packet; not ok when an iterator leaves its buffer or a key would be inserted.
    method ServeHop(c: nat, i: nat, met: Met) returns (ok: bool, wait: real, met': Met)
      requires TimingOk(timing) && Interval(noc, packets, sizeX, sizeY) && c < |packets| && i < |packets[c].route|
      requires RouterIndex(packets[c].route[i], sizeX) < |routerWaits|
      modifies this`noc, this`routerWaits
      ensures HopWait(timing, old(noc), packets, c, i, met) == if ok then Some(wait) else None
      ensures met' == NextMet(Buffer(old(noc), packets[c].route[i]), c + 1, met)
      ensures ok ==> noc == Recorded(old(noc), packets[c].route[i], c + 1, wait)
      ensures ok ==> routerWaits == Charge(old(routerWaits), RouterIndex(packets[c].route[i], sizeX), wait)
    {
      ghost var noc0, waits0 := noc, routerWaits;
      hide Interval, RoutesOf, BufferWait, BlockedWait, HopWait, NextMet, Recorded, Charge, RouterIndex;
      var blocked;
      wait, blocked, met' := HopDelay(timing, noc, packets, c, i, met, sizeX, sizeY);
      HopWaitIs(timing, noc, packets, c, i, met);
      Record(c, i, wait, wait);
      ok := blocked.Some?;
      if ok {
        ChargeTwice(waits0, RouterIndex(packets[c].route[i], sizeX), wait, blocked.value);
        RecordedTwice(noc0, packets[c].route[i], c + 1, wait, wait + blocked.value);
        Record(c, i, wait + blocked.value, blocked.value);
        wait := wait + blocked.value;
      }
    }

    // One more hop of a packet that is being served since `start`.
    method ServeNext(c: nat, i: nat, met: Met, total: real, ghost start: Buffers, ghost waits0: seq<real>)
      returns (ok: bool, total': real, met': Met)
      requires TimingOk(timing) && c < |packets| && i < |packets[c].route|
      requires Serving(timing, start, waits0, noc, routerWaits, met, packets, c, i, total, sizeX, sizeY)
      modifies this`noc, this`routerWaits
      ensures ok ==> Serving(timing, start, waits0, noc, routerWaits, met', packets, c, i + 1, total', sizeX, sizeY)
      ensures !ok ==> !PacketSafe(timing, packets, c)
    {
      hide Interval, RoutesOf, HopWait, NextMet, Recorded, Charge, RouterIndex, Routers, Serving, PacketSafe;
      ghost var noc0, waits1 := noc, routerWaits;
      ServingReady(timing, start, waits0, noc, routerWaits, met, packets, c, i, total, sizeX, sizeY);
      var wait;
      ok, wait, met' := ServeHop(c, i, met);
      ServingStep(timing, start, waits0, noc0, waits1, packets, c, i, total, met, if ok then Some(wait) else None, sizeX, sizeY);
      total' := total + wait;
    }

    // All hops of one packet.
    method ServePacket(c: nat) returns (ok: bool, total: real, ghost last: Met)
      requires TimingOk(timing) && Interval(noc, packets, sizeX, sizeY) && WaitsOk(noc) && c < |packets|
      requires |routerWaits| == Routers(sizeX, sizeY)
      modifies this`noc, this`routerWaits
      ensures ok ==> Serving(timing, old(noc), old(routerWaits), noc, routerWaits, last, packets, c, |packets[c].route|, total, sizeX, sizeY)
      ensures !ok ==> !PacketSafe(timing, packets, c)
    {
      hide Interval, WaitsOk, RoutesOf, Serving, PacketSafe, Routers, TimingOk;
      var met := Met(None, 0.0);
      total, ok, last := 0.0, true, met;
      ServingStarts(timing, noc, routerWaits, packets, c, sizeX, sizeY);
      var i := 0;
      while i < |packets[c].route|
        invariant i <= |packets[c].route| && ok
        invariant Serving(timing, old(noc), old(routerWaits), noc, routerWaits, met, packets, c, i, total, sizeX, sizeY)
      {
        ok, total, met := ServeNext(c, i, met, total, old(noc), old(routerWaits));
        last := met;
        if !ok { return; }
        i := i + 1;
      }
      last := met;
    }

    // The latencies of all packets of the interval, and their sum.
    method ComputePacketLatency() returns (ok: bool, sum: real)
      requires TimingOk(timing) && Interval(noc, packets, sizeX, sizeY) && NoWaits(noc) && |routerWaits| == Routers(sizeX, sizeY)
      modifies this`noc, this`routerWaits, this`packets
      ensures ok ==> Computed(timing, old(noc), old(packets), old(routerWaits), noc, routerWaits, packets, |packets|, sum, sizeX, sizeY)
      ensures !ok ==> !AllSafe(timing, old(packets))
    {
      hide Routers, Computed, Serving, Interval, WaitsOk, AllSafe, PacketSafe, RoutesOf, NoWaits, TimingOk;
      sum, ok := 0.0, true;
      NoWaitsOk(noc);
      ComputingStarts(timing, noc, routerWaits, packets, sizeX, sizeY);
      var c := 0;
      while c < |packets|
        invariant c <= |packets| && |packets| == old(|packets|)
        invariant Computed(timing, old(noc), old(packets), old(routerWaits), noc, routerWaits, packets, c, sum, sizeX, sizeY)
      {
        ghost var noc0, waits0 := noc, routerWaits;
        ComputedReady(timing, old(noc), old(packets), old(routerWaits), noc, routerWaits, packets, c, sum, sizeX, sizeY);
        var total;
        ghost var last;
        ok, total, last := ServePacket(c);
        if !ok {
          PacketUnsafe(timing, old(noc), old(packets), old(routerWaits), noc0, waits0, packets, c, sum, sizeX, sizeY);
          return;
        }
        ComputingStep(timing, old(noc), old(packets), old(routerWaits), noc0, waits0, noc, routerWaits, last, packets, c, sum, total, sizeX, sizeY);
        var latency := PacketLatency(timing, total, |packets[c].route|);
        packets := packets[c := packets[c].(latency := latency)];
        sum := sum + latency;
        c := c + 1;
      }
    }

    // One more hop of a new route: the flits enter the buffer of its port and its router counts them.
    method Traverse(path: Route, h: Hop, id: nat, flits: nat, ghost noc0: Buffers, ghost counts0: seq<nat>) returns (path': Route)
      requires Routing(noc0, counts0, noc, routerPackets, path, id, flits, sizeX, sizeY) && Inside(At(h), sizeX, sizeY)
      modifies this`noc, this`routerPackets
      ensures path' == path + [h] && Routing(noc0, counts0, noc, routerPackets, path', id, flits, sizeX, sizeY)
    {
      hide Entered, Counted, RouterIndex, Routers;
      path' := path + [h];
      ghost var noc1 := noc;
      NoneEntered(noc, h, id);
      var count := 0;
      while count < flits
        invariant count <= flits && routerPackets == old(routerPackets) && Entered(noc1, noc, [h], id, count)
      {
        OneEntered(noc1, noc, h, id, count);
        noc := Inserted(noc, h, id + count);
        count := count + 1;
      }
      EnteredMore(noc0, noc1, noc, path, h, id, flits);
      IndexInside(h, sizeX, sizeY);
      CountedMore(counts0, routerPackets, path, h, flits, sizeX);
      var r := RouterIndex(h, sizeX);
      routerPackets := routerPackets[r := routerPackets[r] + flits];
    }

    // The part of the route along x; i ends at the column of the destination unless it starts there.
    method RouteAlongX(src: Pos, dst: Pos, id: nat, flits: nat, ghost noc0: Buffers, ghost counts0: seq<nat>) returns (path: Route, i: nat)
      requires Inside(src, sizeX, sizeY) && Inside(dst, sizeX, sizeY)
      requires Routing(noc0, counts0, noc, routerPackets, [], id, flits, sizeX, sizeY)
      modifies this`noc, this`routerPackets
      ensures Routing(noc0, counts0, noc, routerPackets, path, id, flits, sizeX, sizeY)
      ensures path + XYRoute(Pos(dst.x, src.y), dst) == XYRoute(src, dst) && (src.x != dst.x ==> i == dst.x)
    {
      hide Routing, XYRoute, Inside;
      i, path := 0, [];
      assert path + XYRoute(src, dst) == XYRoute(src, dst);
      if dst.x < src.x {
        i := src.x;
        while i > dst.x
          invariant dst.x <= i <= src.x && path + XYRoute(Pos(i, src.y), dst) == XYRoute(src, dst)
          invariant Routing(noc0, counts0, noc, routerPackets, path, id, flits, sizeX, sizeY)
        {
          XYUnroll(path, Pos(i, src.y), dst);
          InsideBetween(src, dst, Pos(i, src.y), sizeX, sizeY);
          path := Traverse(path, Hop(i, src.y, West), id, flits, noc0, counts0);
          i := i - 1;
        }
      } else if dst.x > src.x {
        i := src.x;
        while i < dst.x
          invariant src.x <= i <= dst.x && path + XYRoute(Pos(i, src.y), dst) == XYRoute(src, dst)
          invariant Routing(noc0, counts0, noc, routerPackets, path, id, flits, sizeX, sizeY)
        {
          XYUnroll(path, Pos(i, src.y), dst);
          InsideBetween(src, dst, Pos(i, src.y), sizeX, sizeY);
          path := Traverse(path, Hop(i, src.y, East), id, flits, noc0, counts0);
          i := i + 1;
        }
      }
    }

    // The part along y.
    method RouteAlongY(path0: Route, i0: nat, src: Pos, dst: Pos, id: nat, flits: nat, ghost noc0: Buffers, ghost counts0: seq<nat>) returns (path: Route)
      requires Inside(src, sizeX, sizeY) && Inside(dst, sizeX, sizeY) && (src.x != dst.x ==> i0 == dst.x)
      requires Routing(noc0, counts0, noc, routerPackets, path0, id, flits, sizeX, sizeY)
      modifies this`noc, this`routerPackets
      ensures Routing(noc0, counts0, noc, routerPackets, path, id, flits, sizeX, sizeY)
      ensures path + XYRoute(dst, dst) == path0 + XYRoute(Pos(dst.x, src.y), dst)
    {
      hide Routing, XYRoute, Inside;
      var i := i0;
      path := path0;
      if dst.y < src.y {
        if dst.x == src.x { i := src.x; }
        var j := src.y;
        while j > dst.y
          invariant dst.y <= j <= src.y && path + XYRoute(Pos(i, j), dst) == path0 + XYRoute(Pos(i, src.y), dst)
          invariant Routing(noc0, counts0, noc, routerPackets, path, id, flits, sizeX, sizeY)
        {
          XYUnroll(path, Pos(i, j), dst);
          InsideBetween(src, dst, Pos(i, j), sizeX, sizeY);
          path := Traverse(path, Hop(i, j, North), id, flits, noc0, counts0);
          j := j - 1;
        }
      }
      if dst.y > src.y {
        if dst.x == src.x { i := src.x; }
        var j := src.y;
        while j < dst.y
          invariant src.y <= j <= dst.y && path + XYRoute(Pos(i, j), dst) == path0 + XYRoute(Pos(i, src.y), dst)
          invariant Routing(noc0, counts0, noc, routerPackets, path, id, flits, sizeX, sizeY)
        {
          XYUnroll(path, Pos(i, j), dst);
          InsideBetween(src, dst, Pos(i, j), sizeX, sizeY);
          path := Traverse(path, Hop(i, j, South), id, flits, noc0, counts0);
          j := j + 1;
        }
      }
    }

    method ComputeRouteAndUpdateRouters(src: Pos, dst: Pos, id: nat, flits: nat) returns (path: Route)
      requires Inside(src, sizeX, sizeY) && Inside(dst, sizeX, sizeY) && |routerPackets| == Routers(sizeX, sizeY)
      modifies this`noc, this`routerPackets
      ensures path == XYRoute(src, dst)
      ensures Routing(old(noc), old(routerPackets), noc, routerPackets, path, id, flits, sizeX, sizeY)
    {
      hide Routing, Inside, Routers;
      RoutingStarts(noc, routerPackets, id, flits, sizeX, sizeY);
      if dst == src {
        path := Traverse([], Hop(dst.x, dst.y, Local), id, flits, old(noc), old(routerPackets));
      } else {
        var i;
        path, i := RouteAlongX(src, dst, id, flits, old(noc), old(routerPackets));
        path := RouteAlongY(path, i, src, dst, id, flits, old(noc), old(routerPackets));
        path := Traverse(path, Hop(dst.x, dst.y, Local), id, flits, old(noc), old(routerPackets));
      }
    }

    method SavePacket(id: nat, path: Route, flits: nat)
      modifies this`packets
      ensures packets == old(packets) + Saved(id, path, flits)
    {
      var count := 0;
      while count < flits
        invariant count <= flits && packets == old(packets) + Saved(id, path, count)
      {
        packets := packets + [Packet(id + count, path, 0.0)];
        count := count + 1;
      }
    }

    ghost predicate Valid() reads this {
      && TimingOk(timing) && Interval(noc, packets, sizeX, sizeY) && NoWaits(noc) && totalFlits == |packets|
      && |routerPackets| == |routerWaits| == Routers(sizeX, sizeY)
      && Statistics(timing, RoutesOf(packets), routerPackets, routerWaits, totalDistance, packetsCount, averageLatency)
    }

    // One packet to one destination.
    method Inject(src: Pos, dst: Pos, flits: nat)
      requires Valid() && Inside(src, sizeX, sizeY) && Inside(dst, sizeX, sizeY)
      modifies this`noc, this`routerPackets, this`packets, this`totalDistance, this`totalFlits
      ensures Valid() && packets == old(packets) + Saved(old(|packets|) + 1, XYRoute(src, dst), flits)
      ensures totalDistance == old(totalDistance) + flits * (Distance(src, dst) + 1)
    {
      hide Inside, Interval, NoWaits, Statistics, RoutesOf, Routing, XYRoute, Distance, Saved, Routers, TimingOk;
      ghost var noc0, counts0 := noc, routerPackets;
      var path := ComputeRouteAndUpdateRouters(src, dst, totalFlits + 1, flits);
      XYRouteLeads(src, dst);
      Injected(noc0, counts0, noc, routerPackets, packets, src, dst, flits, sizeX, sizeY);
      InjectedStatistics(timing, noc0, counts0, noc, routerPackets, packets, src, dst, flits, routerWaits, totalDistance, packetsCount, averageLatency, sizeX, sizeY);
      totalDistance := totalDistance + flits * |path|;
      SavePacket(totalFlits + 1, path, flits);
      totalFlits := totalFlits + flits;
    }

    constructor (sizeX: nat, sizeY: nat, timing: Timing)
      requires TimingOk(timing)
      ensures this.sizeX == sizeX && this.sizeY == sizeY && this.timing == timing
      ensures Valid() && packets == [] && totalDistance == 0 && packetsCount == 0 && averageLatency == 0.0
    {
      this.sizeX, this.sizeY, this.timing := sizeX, sizeY, timing;
      noc, packets := map[], [];
      routerPackets, routerWaits := seq(Routers(sizeX, sizeY), _ => 0), seq(Routers(sizeX, sizeY), _ => 0.0);
      totalDistance, totalFlits, packetsCount, averageLatency := 0, 0, 0, 0.0;
      intervalStart, intervalEnd := 0.0, 0.0;
      SumZeros(Routers(sizeX, sizeY));
    }

    // One packet to every destination.
    method InjectAll(src: Pos, dests: seq<Pos>, flits: nat)
      requires Valid() && Inside(src, sizeX, sizeY) && forall d :: d in dests ==> Inside(d, sizeX, sizeY)
      modifies this`noc, this`routerPackets, this`packets, this`totalDistance, this`totalFlits
      ensures Valid() && packets == old(packets) + SavedAll(old(|packets|) + 1, src, dests, flits)
      ensures totalDistance == old(totalDistance) + flits * Distances(src, dests)
    {
      hide Inside, Interval, NoWaits, Statistics, RoutesOf, XYRoute, Distance, Routers, TimingOk, Distances, Saved, SavedAll;
      DistancesNone(src, dests);
      SavedNone(old(|packets|) + 1, src, dests, flits);
      var i := 0;
      while i < |dests|
        invariant i <= |dests| && Valid() && packets == old(packets) + SavedAll(old(|packets|) + 1, src, dests[..i], flits)
        invariant totalDistance == old(totalDistance) + flits * Distances(src, dests[..i])
      {
        SavedLength(old(|packets|) + 1, src, dests[..i], flits);
        SavedNext(old(|packets|) + 1, src, dests, i, flits);
        Inject(src, dests[i], flits);
        DistancesNext(src, dests, i, flits);
        i := i + 1;
      }
      assert dests[..|dests|] == dests;
    }

    // The end of an interval: latencies are added up and the interval is cleared.
    method CloseInterval() returns (ok: bool)
      requires Valid()
      modifies this`noc, this`routerWaits, this`packets, this`totalFlits, this`packetsCount, this`averageLatency
      ensures ok <==> AllSafe(timing, old(packets))
      ensures ok ==> Valid() && packets == [] && packetsCount == old(packetsCount + |packets|)
      ensures ok ==> WaitsOver(timing, old(noc), old(routerWaits), old(packets), routerWaits, sizeX)
    {
      hide Interval, NoWaits, Statistics, RoutesOf, Routers, TimingOk, Computed, AllSafe, WaitsOver;
      ghost var start, before, waits0 := noc, packets, routerWaits;
      var sum;
      ok, sum := ComputePacketLatency();
      if ok {
        IntervalClosed(timing, start, before, waits0, noc, routerWaits, packets, sum, routerPackets, totalDistance, packetsCount, averageLatency, sizeX, sizeY);
        averageLatency := averageLatency + sum;
        packetsCount := packetsCount + |packets|;
        packets, noc, totalFlits := [], map[], 0;
      }
    }

    method NetworkTimingModel(ts: real, src: Pos, dests: seq<Pos>, flits: nat) returns (ok: bool)
      requires Valid() && Inside(src, sizeX, sizeY) && forall d :: d in dests ==> Inside(d, sizeX, sizeY)
      modifies this
      ensures ok <==> (!old(Closes(ts)) || AllSafe(timing, old(packets)))
      ensures timing.depth == 1 ==> ok
      ensures ok ==> Valid() && packetsCount + |packets| == old(packetsCount + |packets|) + flits * |dests|
      ensures ok ==> var kept := if old(Closes(ts)) then [] else old(packets); packets == kept + SavedAll(|kept| + 1, src, dests, flits)
      ensures ok ==> if old(Closes(ts)) then WaitsOver(timing, old(noc), old(routerWaits), old(packets), routerWaits, sizeX) else routerWaits == old(routerWaits)
      ensures ok ==> packetsCount == old(packetsCount) + if old(Closes(ts)) then old(|packets|) else 0
      ensures ok ==> totalDistance == old(totalDistance) + flits * Distances(src, dests)
      ensures ok && (old(totalFlits) == 0 || old(Closes(ts))) ==> intervalStart == ts && intervalEnd == ts + timing.interval
      ensures old(totalFlits) > 0 && !old(Closes(ts)) ==> intervalStart == old(intervalStart) && intervalEnd == old(intervalEnd)
    {
      hide Inside, Interval, NoWaits, Statistics, RoutesOf, Routers, TimingOk, AllSafe, Distances, SavedAll, WaitsOver;
      SavedLength(|packets| + 1, src, dests, flits);
      SavedLength(1, src, dests, flits);
      ok := true;
      if timing.depth == 1 { DepthOneAllSafe(timing, noc, packets, sizeX, sizeY); }
      if totalFlits == 0 {
        intervalStart, intervalEnd := ts, ts + timing.interval;
        InjectAll(src, dests, flits);
      } else if intervalStart <= ts <= intervalEnd {
        InjectAll(src, dests, flits);
      } else {
        ok := CloseInterval();
        if ok {
          intervalStart, intervalEnd := ts, ts + timing.interval;
          InjectAll(src, dests, flits);
        }
      }
    }

    // A packet at time ts starts a new interval; time stamps may go back.
    ghost predicate Closes(ts: real) reads this { totalFlits > 0 && (ts > intervalEnd || ts < intervalStart) }
  }

  lemma IntervalAt(noc: Buffers, packets: seq<Packet>, c: nat, sizeX: nat, sizeY: nat)
    requires Interval(noc, packets, sizeX, sizeY) && c < |packets|
    ensures packets[c].id == c + 1 && Agrees(noc, RoutesOf(packets))
    ensures |RoutesOf(packets)| == |packets| && RoutesOf(packets)[c] == packets[c].route
  {
  }

  lemma IntervalRecorded(noc: Buffers, packets: seq<Packet>, c: nat, i: nat, w: real, sizeX: nat, sizeY: nat)
    requires Interval(noc, packets, sizeX, sizeY) && c < |packets| && i < |packets[c].route|
    ensures Interval(Recorded(noc, packets[c].route[i], c + 1, w), packets, sizeX, sizeY)
  {
    OnOwnRoute(noc, packets, c, i);
    var routes := RoutesOf(packets);
    var r := Recorded(noc, packets[c].route[i], c + 1, w);
    forall g ensures Buffer(r, g).Keys == Users(routes, g) {
      assert Buffer(noc, g).Keys == Users(routes, g);
    }
  }

  lemma IntervalParts(noc: Buffers, packets: seq<Packet>, sizeX: nat, sizeY: nat)
    requires Interval(noc, packets, sizeX, sizeY)
    ensures RoutesOk(RoutesOf(packets), sizeX, sizeY) && Agrees(noc, RoutesOf(packets))
  {
  }

  lemma ChargeSum(waits: seq<real>, r: nat, w: real)
    requires r < |waits|
    ensures |Charge(waits, r, w)| == |waits| && SumTimes(Charge(waits, r, w)) == SumTimes(waits) + w
  {
    SumTimesUpdate(waits, r, w);
  }

  // Recording the wait of one hop leaves the earlier hops and the other packets alone.
  lemma HopServed(noc: Buffers, packets: seq<Packet>, c: nat, i: nat, w: real, start: Buffers, sizeX: nat, sizeY: nat)
    requires Interval(noc, packets, sizeX, sizeY) && WaitsOk(noc) && c < |packets| && i < |packets[c].route| && OnlyOf(start, noc, c + 1)
    requires w >= 0.0 && (Lower(Users(RoutesOf(packets), packets[c].route[i]), c + 1) == {} ==> w == 0.0)
    ensures var noc' := Recorded(noc, packets[c].route[i], c + 1, w);
      && Interval(noc', packets, sizeX, sizeY) && WaitsOk(noc') && OnlyOf(start, noc', c + 1)
      && Waits(noc', packets[c].route, c + 1, i + 1) == Waits(noc, packets[c].route, c + 1, i) + w
  {
    var h := packets[c].route[i];
    var noc' := Recorded(noc, h, c + 1, w);
    OnOwnRoute(noc, packets, c, i);
    IntervalRecorded(noc, packets, c, i, w, sizeX, sizeY);
    RecordedKeeps(noc, RoutesOf(packets), h, c + 1, w);
    assert RouteOk(RoutesOf(packets)[c], sizeX, sizeY);
    hide Interval, Agrees, WaitsOk, RoutesOk;
    RecordedWaits(noc, packets[c].route, i, c + 1, w);
    OnlyOfRecorded(start, noc, h, c + 1, w);
  }

  lemma RecordedWaits(noc: Buffers, route: Route, i: nat, id: nat, w: real)
    requires i < |route| && forall k, j :: 0 <= k < j < |route| ==> route[k] != route[j]
    ensures Waits(Recorded(noc, route[i], id, w), route, id, i + 1) == Waits(noc, route, id, i) + w
  {
    WaitsFrame(noc, Recorded(noc, route[i], id, w), route, id, i);
  }

  lemma OnlyOfRecorded(start: Buffers, noc: Buffers, h: Hop, id: nat, w: real)
    requires OnlyOf(start, noc, id)
    ensures OnlyOf(start, Recorded(noc, h, id, w), id)
  {
    var r := Recorded(noc, h, id, w);
    forall g, k | k != id ensures Wait(start, g, k) == Wait(r, g, k) {
      assert Wait(noc, g, k) == Wait(r, g, k);
    }
  }

  // ------------------------------------------------------------------ the interval as a fold over hops and packets

  datatype Progress = Progress(noc: Buffers, met: Met, waits: seq<real>)

  // One hop of packet c: the wait is recorded and charged to the router of the hop.
  ghost function Advance(t: Timing, p: Progress, packets: seq<Packet>, c: nat, i: nat, sizeX: nat): Option<Progress>
    requires TimingOk(t) && c < |packets| && i < |packets[c].route|
  {
    var h := packets[c].route[i];
    match HopWait(t, p.noc, packets, c, i, p.met)
    case None => None
    case Some(w) =>
      if RouterIndex(h, sizeX) >= |p.waits| then None else
      Some(Progress(Recorded(p.noc, h, c + 1, w), NextMet(Buffer(p.noc, h), c + 1, p.met), Charge(p.waits, RouterIndex(h, sizeX), w)))
  }

  ghost function AfterHops(t: Timing, noc: Buffers, waits: seq<real>, packets: seq<Packet>, c: nat, i: nat, sizeX: nat): Option<Progress>
    requires TimingOk(t) && c < |packets| && i <= |packets[c].route|
  {
    if i == 0 then Some(Progress(noc, Met(None, 0.0), waits)) else
    match AfterHops(t, noc, waits, packets, c, i - 1, sizeX)
    case None => None
    case Some(p) => Advance(t, p, packets, c, i - 1, sizeX)
  }

  ghost function AfterPackets(t: Timing, noc: Buffers, waits: seq<real>, packets: seq<Packet>, c: nat, sizeX: nat): Option<(Buffers, seq<real>)>
    requires TimingOk(t) && c <= |packets|
  {
    if c == 0 then Some((noc, waits)) else
    match AfterPackets(t, noc, waits, packets, c - 1, sizeX)
    case None => None
    case Some((n, w)) =>
      match AfterHops(t, n, w, packets, c - 1, |packets[c - 1].route|, sizeX)
      case None => None
      case Some(p) => Some((p.noc, p.waits))
  }

  lemma Advances(t: Timing, noc: Buffers, met: Met, waits: seq<real>, packets: seq<Packet>, c: nat, i: nat, w: real, sizeX: nat)
    requires TimingOk(t) && c < |packets| && i < |packets[c].route| && RouterIndex(packets[c].route[i], sizeX) < |waits|
    requires HopWait(t, noc, packets, c, i, met) == Some(w)
    ensures Advance(t, Progress(noc, met, waits), packets, c, i, sizeX) ==
      Some(Progress(Recorded(noc, packets[c].route[i], c + 1, w), NextMet(Buffer(noc, packets[c].route[i]), c + 1, met),
                    Charge(waits, RouterIndex(packets[c].route[i], sizeX), w)))
  {
    hide HopWait, Recorded, NextMet, Charge, RouterIndex;
  }

  // Latencies play no part in the waits.
  lemma {:induction false} SameRoutesSameHops(t: Timing, noc: Buffers, waits: seq<real>, a: seq<Packet>, b: seq<Packet>, c: nat, i: nat, sizeX: nat)
    requires TimingOk(t) && RoutesOf(a) == RoutesOf(b) && c < |a| == |b| && i <= |a[c].route|
    ensures a[c].route == b[c].route && AfterHops(t, noc, waits, a, c, i, sizeX) == AfterHops(t, noc, waits, b, c, i, sizeX)
  {
    hide Recorded, NextMet, Charge, RouterIndex, BufferWait, BlockedWait;
    assert RoutesOf(a)[c] == a[c].route && RoutesOf(b)[c] == b[c].route;
    if i > 0 { SameRoutesSameHops(t, noc, waits, a, b, c, i - 1, sizeX); }
  }

  lemma PacketServed(t: Timing, start: Buffers, before: seq<Packet>, waits0: seq<real>, noc: Buffers, waits: seq<real>, packets: seq<Packet>, c: nat,
                     noc': Buffers, last: Met, waits': seq<real>, sizeX: nat)
    requires TimingOk(t) && c < |packets| == |before| && RoutesOf(packets) == RoutesOf(before)
    requires AfterPackets(t, start, waits0, before, c, sizeX) == Some((noc, waits))
    requires AfterHops(t, noc, waits, packets, c, |packets[c].route|, sizeX) == Some(Progress(noc', last, waits'))
    ensures AfterPackets(t, start, waits0, before, c + 1, sizeX) == Some((noc', waits'))
  {
    hide AfterHops;
    SameRoutesSameHops(t, noc, waits, packets, before, c, |packets[c].route|, sizeX);
  }

  // Every head-of-line lookup of packet c is safe.
  ghost predicate PacketSafe(t: Timing, packets: seq<Packet>, c: nat) {
    TimingOk(t) && c < |packets| && SafePacket(RoutesOf(packets), c, |packets[c].route|, t.depth, t.channels)
  }

  // Every head-of-line lookup is safe.
  ghost predicate AllSafe(t: Timing, packets: seq<Packet>) {
    TimingOk(t) && SafeDepth(RoutesOf(packets), |packets|, t.depth, t.channels)
  }

  // The first i hops of packet c are done: the waits so far are recorded and charged.
  ghost predicate Serving(t: Timing, start: Buffers, waits0: seq<real>, noc: Buffers, waits: seq<real>, met: Met, packets: seq<Packet>, c: nat, i: nat, total: real, sizeX: nat, sizeY: nat) {
    && TimingOk(t) && c < |packets| && i <= |packets[c].route|
    && Interval(noc, packets, sizeX, sizeY) && WaitsOk(noc) && OnlyOf(start, noc, c + 1)
    && SafePacket(RoutesOf(packets), c, i, t.depth, t.channels)
    && total == Waits(noc, packets[c].route, c + 1, i)
    && |waits| == |waits0| == Routers(sizeX, sizeY) && SumTimes(waits) == SumTimes(waits0) + total
    && AfterHops(t, start, waits0, packets, c, i, sizeX) == Some(Progress(noc, met, waits))
  }

  lemma ServingStarts(t: Timing, noc: Buffers, waits: seq<real>, packets: seq<Packet>, c: nat, sizeX: nat, sizeY: nat)
    requires TimingOk(t) && Interval(noc, packets, sizeX, sizeY) && WaitsOk(noc) && c < |packets| && |waits| == Routers(sizeX, sizeY)
    ensures Serving(t, noc, waits, noc, waits, Met(None, 0.0), packets, c, 0, 0.0, sizeX, sizeY)
  {
  }

  lemma ServingMeans(t: Timing, start: Buffers, waits0: seq<real>, noc: Buffers, waits: seq<real>, met: Met, packets: seq<Packet>, c: nat, i: nat, total: real, sizeX: nat, sizeY: nat)
    requires TimingOk(t) && c < |packets| && i <= |packets[c].route|
    requires Serving(t, start, waits0, noc, waits, met, packets, c, i, total, sizeX, sizeY)
    ensures Interval(noc, packets, sizeX, sizeY) && WaitsOk(noc) && OnlyOf(start, noc, c + 1)
    ensures |waits| == Routers(sizeX, sizeY) && SumTimes(waits) == SumTimes(waits0) + total
    ensures SafePacket(RoutesOf(packets), c, i, t.depth, t.channels) && total == Waits(noc, packets[c].route, c + 1, i)
    ensures AfterHops(t, start, waits0, packets, c, i, sizeX) == Some(Progress(noc, met, waits))
  {
  }

  lemma ServingReady(t: Timing, start: Buffers, waits0: seq<real>, noc: Buffers, waits: seq<real>, met: Met, packets: seq<Packet>, c: nat, i: nat, total: real, sizeX: nat, sizeY: nat)
    requires TimingOk(t) && c < |packets| && i < |packets[c].route|
    requires Serving(t, start, waits0, noc, waits, met, packets, c, i, total, sizeX, sizeY)
    ensures Interval(noc, packets, sizeX, sizeY) && RouterIndex(packets[c].route[i], sizeX) < |waits|
  {
    HopInside(packets, c, i, sizeX, sizeY);
  }

  // One more hop: its wait is recorded and charged, or its lookup is not safe.
  lemma ServingStep(t: Timing, start: Buffers, waits0: seq<real>, noc: Buffers, waits: seq<real>, packets: seq<Packet>, c: nat, i: nat, total: real, met: Met, w: Option<real>, sizeX: nat, sizeY: nat)
    requires TimingOk(t) && c < |packets| && i < |packets[c].route| && RouterIndex(packets[c].route[i], sizeX) < |waits|
    requires Serving(t, start, waits0, noc, waits, met, packets, c, i, total, sizeX, sizeY)
    requires w == HopWait(t, noc, packets, c, i, met)
    ensures w.None? ==> !PacketSafe(t, packets, c)
    ensures w.Some? ==>
      Serving(t, start, waits0, Recorded(noc, packets[c].route[i], c + 1, w.value), Charge(waits, RouterIndex(packets[c].route[i], sizeX), w.value),
              NextMet(Buffer(noc, packets[c].route[i]), c + 1, met), packets, c, i + 1, total + w.value, sizeX, sizeY)
  {
    hide Interval, RoutesOf, WaitsOk, HopWait, NextMet, Recorded, Charge, RouterIndex, OnlyOf, SafeHop, Waits, Advance;
    IntervalParts(noc, packets, sizeX, sizeY);
    HopWaitOk(t, noc, packets, c, i, met);
    IntervalAt(noc, packets, c, sizeX, sizeY);
    if w.Some? {
      HopServed(noc, packets, c, i, w.value, start, sizeX, sizeY);
      ChargeSum(waits, RouterIndex(packets[c].route[i], sizeX), w.value);
      Advances(t, noc, met, waits, packets, c, i, w.value, sizeX);
    }
  }

  // The first c packets have their latencies: zero-load latency plus recorded waits; the sum of the
  // latencies is the zero-load sum plus what the routers were charged.
  ghost predicate Computed(t: Timing, start: Buffers, before: seq<Packet>, waits0: seq<real>, noc: Buffers, waits: seq<real>, packets: seq<Packet>, c: nat, sum: real, sizeX: nat, sizeY: nat) {
    && TimingOk(t) && c <= |packets|
    && Interval(noc, packets, sizeX, sizeY) && WaitsOk(noc) && RoutesOf(packets) == RoutesOf(before)
    && SafeDepth(RoutesOf(packets), c, t.depth, t.channels)
    && (forall k :: 0 <= k < c ==> LatencyIs(t, noc, packets[k]))
    && |waits| == |waits0| == Routers(sizeX, sizeY)
    && sum == ZeroLoad(t, Length(RoutesOf(packets)[..c]), c) + SumTimes(waits) - SumTimes(waits0)
    && |before| == |packets| && AfterPackets(t, start, waits0, before, c, sizeX) == Some((noc, waits))
  }

  lemma ComputingStarts(t: Timing, noc: Buffers, waits: seq<real>, packets: seq<Packet>, sizeX: nat, sizeY: nat)
    requires TimingOk(t) && Interval(noc, packets, sizeX, sizeY) && WaitsOk(noc) && |waits| == Routers(sizeX, sizeY)
    ensures Computed(t, noc, packets, waits, noc, waits, packets, 0, 0.0, sizeX, sizeY)
  {
    assert RoutesOf(packets)[..0] == [];
  }

  lemma ComputedReady(t: Timing, start: Buffers, before: seq<Packet>, waits0: seq<real>, noc: Buffers, waits: seq<real>, packets: seq<Packet>, c: nat, sum: real, sizeX: nat, sizeY: nat)
    requires TimingOk(t) && c < |packets| && Computed(t, start, before, waits0, noc, waits, packets, c, sum, sizeX, sizeY)
    ensures Interval(noc, packets, sizeX, sizeY) && WaitsOk(noc) && |waits| == Routers(sizeX, sizeY)
  {
  }

  lemma PacketUnsafe(t: Timing, start: Buffers, before: seq<Packet>, waits0: seq<real>, noc: Buffers, waits: seq<real>, packets: seq<Packet>, c: nat, sum: real, sizeX: nat, sizeY: nat)
    requires TimingOk(t) && c < |packets| && Computed(t, start, before, waits0, noc, waits, packets, c, sum, sizeX, sizeY)
    ensures |RoutesOf(packets)| == |packets| == |before| == |RoutesOf(before)| && RoutesOf(packets)[c] == packets[c].route
    ensures !PacketSafe(t, packets, c) ==>
      !AllSafe(t, before)
  {
    assert |RoutesOf(packets)| == |RoutesOf(before)|;
  }

  // The latency of a packet is set.
  lemma LatencySet(packets: seq<Packet>, c: nat, latency: real)
    requires c < |packets|
    ensures RoutesOf(packets[c := packets[c].(latency := latency)]) == RoutesOf(packets)
  {
  }

  lemma LatencyKept(t: Timing, noc: Buffers, noc': Buffers, p: Packet, id: nat)
    requires LatencyIs(t, noc, p) && OnlyOf(noc, noc', id) && p.id != id
    ensures LatencyIs(t, noc', p)
  {
    WaitsFrame(noc, noc', p.route, p.id, |p.route|);
  }

  lemma SumStep(t: Timing, routes: seq<Route>, c: nat, total: real)
    requires c < |routes|
    ensures ZeroLoad(t, Length(routes[..c + 1]), c + 1) + total ==
      ZeroLoad(t, Length(routes[..c]), c) + PacketLatency(t, total, |routes[c]|)
  {
    assert routes[..c + 1][..c] == routes[..c];
    LatencyIsZeroLoad(t, total, |routes[c]|);
    ZeroLoadAdds(t, Length(routes[..c]), c, |routes[c]|, 1);
  }

  lemma ComputingStep(t: Timing, start: Buffers, before: seq<Packet>, waits0: seq<real>, noc: Buffers, waits: seq<real>, noc': Buffers, waits': seq<real>, last: Met,
                      packets: seq<Packet>, c: nat, sum: real, total: real, sizeX: nat, sizeY: nat)
    requires TimingOk(t) && c < |packets| && Computed(t, start, before, waits0, noc, waits, packets, c, sum, sizeX, sizeY)
    requires Serving(t, noc, waits, noc', waits', last, packets, c, |packets[c].route|, total, sizeX, sizeY)
    ensures var latency := PacketLatency(t, total, |packets[c].route|);
      Computed(t, start, before, waits0, noc', waits', packets[c := packets[c].(latency := latency)], c + 1, sum + latency, sizeX, sizeY)
  {
    hide Routers, Interval, OnlyOf, WaitsOk, RoutesOf, LatencyIs, Waits, ZeroLoad, PacketLatency, Length, SafePacket, SumTimes, Serving, AfterPackets, AfterHops;
    var latency := PacketLatency(t, total, |packets[c].route|);
    var packets' := packets[c := packets[c].(latency := latency)];
    ServingMeans(t, noc, waits, noc', waits', last, packets, c, |packets[c].route|, total, sizeX, sizeY);
    LatencySet(packets, c, latency);
    PacketServed(t, start, before, waits0, noc, waits, packets, c, noc', last, waits', sizeX);
    IntervalAt(noc, packets, c, sizeX, sizeY);
    SumStep(t, RoutesOf(packets), c, total);
    IntervalLatencySet(noc', packets, c, latency, sizeX, sizeY);
    LatencyNew(t, noc', packets[c], c + 1, total);
    forall k | 0 <= k < c + 1 ensures LatencyIs(t, noc', packets'[k]) {
      if k < c {
        IntervalAt(noc, packets, k, sizeX, sizeY);
        LatencyKept(t, noc, noc', packets[k], c + 1);
      }
    }
  }

  lemma IntervalLatencySet(noc: Buffers, packets: seq<Packet>, c: nat, latency: real, sizeX: nat, sizeY: nat)
    requires Interval(noc, packets, sizeX, sizeY) && c < |packets|
    ensures Interval(noc, packets[c := packets[c].(latency := latency)], sizeX, sizeY)
  {
    LatencySet(packets, c, latency);
  }

  lemma LatencyNew(t: Timing, noc: Buffers, p: Packet, id: nat, total: real)
    requires p.id == id && total == Waits(noc, p.route, id, |p.route|)
    ensures LatencyIs(t, noc, p.(latency := PacketLatency(t, total, |p.route|)))
  {
  }

  // The flits follow a path from buffers noc0 and counters counts0.
  ghost predicate Routing(noc0: Buffers, counts0: seq<nat>, noc: Buffers, counts: seq<nat>, path: Route, id: nat, flits: nat, sizeX: nat, sizeY: nat) {
    |counts0| == Routers(sizeX, sizeY) && Entered(noc0, noc, path, id, flits) && Counted(counts0, counts, path, flits, sizeX)
  }

  lemma RoutingStarts(noc: Buffers, counts: seq<nat>, id: nat, flits: nat, sizeX: nat, sizeY: nat)
    requires |counts| == Routers(sizeX, sizeY)
    ensures Routing(noc, counts, noc, counts, [], id, flits, sizeX, sizeY)
  {
  }

  // map::insert leaves a present key alone.
  function Inserted(noc: Buffers, h: Hop, id: nat): (r: Buffers) {
    if id in Buffer(noc, h) then noc else noc[h := Buffer(noc, h)[id := 0.0]]
  }

  lemma NoneEntered(noc: Buffers, h: Hop, id: nat)
    ensures Entered(noc, noc, [h], id, 0)
  {
  }

  lemma OneEntered(noc: Buffers, noc': Buffers, h: Hop, id: nat, count: nat)
    requires Entered(noc, noc', [h], id, count)
    ensures Entered(noc, Inserted(noc', h, id + count), [h], id, count + 1)
  {
    var r := Inserted(noc', h, id + count);
    forall g, k ensures Wait(r, g, k) == Wait(noc, g, k) { assert Wait(noc', g, k) == Wait(noc, g, k); }
  }

  lemma XYUnroll(path: Route, s: Pos, d: Pos)
    requires s != d
    ensures d.x < s.x ==> path + XYRoute(s, d) == path + [Hop(s.x, s.y, West)] + XYRoute(Pos(s.x - 1, s.y), d)
    ensures d.x > s.x ==> path + XYRoute(s, d) == path + [Hop(s.x, s.y, East)] + XYRoute(Pos(s.x + 1, s.y), d)
    ensures d.x == s.x && d.y < s.y ==> path + XYRoute(s, d) == path + [Hop(s.x, s.y, North)] + XYRoute(Pos(s.x, s.y - 1), d)
    ensures d.x == s.x && d.y > s.y ==> path + XYRoute(s, d) == path + [Hop(s.x, s.y, South)] + XYRoute(Pos(s.x, s.y + 1), d)
  {
  }

  lemma InsideBetween(s: Pos, d: Pos, p: Pos, sizeX: nat, sizeY: nat)
    requires Inside(s, sizeX, sizeY) && Inside(d, sizeX, sizeY)
    requires (p.x <= s.x || p.x <= d.x) && (p.y <= s.y || p.y <= d.y)
    ensures Inside(p, sizeX, sizeY)
  {
  }

  function Saved(id: nat, path: Route, flits: nat): (ps: seq<Packet>) {
    seq(flits, k requires 0 <= k < flits => Packet(id + k, path, 0.0))
  }

  // The packets to all destinations, with consecutive ids from `id` on.
  ghost function SavedAll(id: nat, src: Pos, dests: seq<Pos>, flits: nat): (ps: seq<Packet>) {
    if dests == [] then [] else
    var n := |dests| - 1;
    SavedAll(id, src, dests[..n], flits) + Saved(id + flits * n, XYRoute(src, dests[n]), flits)
  }

  lemma {:induction false} SavedLength(id: nat, src: Pos, dests: seq<Pos>, flits: nat)
    ensures |SavedAll(id, src, dests, flits)| == flits * |dests|
    decreases |dests|
  {
    hide XYRoute;
    if dests != [] {
      var n := |dests| - 1;
      SavedLength(id, src, dests[..n], flits);
      OneMore(flits, n);
    }
  }

  lemma SavedNone(id: nat, src: Pos, dests: seq<Pos>, flits: nat)
    ensures SavedAll(id, src, dests[..0], flits) == []
  {
  }

  lemma SavedNext(id: nat, src: Pos, dests: seq<Pos>, i: nat, flits: nat)
    requires i < |dests|
    ensures SavedAll(id, src, dests[..i + 1], flits) == SavedAll(id, src, dests[..i], flits) + Saved(id + flits * i, XYRoute(src, dests[i]), flits)
  {
    hide XYRoute, Saved;
    assert dests[..i + 1][..i] == dests[..i];
  }

  // The router waits after an interval: every packet has been served hop by hop, in order.
  ghost predicate WaitsOver(t: Timing, noc: Buffers, waits: seq<real>, packets: seq<Packet>, waits': seq<real>, sizeX: nat) {
    TimingOk(t) && exists noc' :: AfterPackets(t, noc, waits, packets, |packets|, sizeX) == Some((noc', waits'))
  }

  // The counters agree: routers have counted every hop of every flit, and the latencies of the
  // closed intervals are the zero-load latencies plus all the waits charged to routers.
  ghost predicate Statistics(t: Timing, routes: seq<Route>, counts: seq<nat>, waits: seq<real>, distance: nat, packetsCount: nat, latency: real) {
    && Sum(counts) == distance && Length(routes) <= distance
    && latency == ZeroLoad(t, distance - Length(routes), packetsCount) + SumTimes(waits)
  }

  lemma SavedRoutes(packets: seq<Packet>, path: Route, flits: nat)
    ensures var ps := packets + Saved(|packets| + 1, path, flits);
      |ps| == |packets| + flits && RoutesOf(ps) == RoutesOf(packets) + Copies(flits, path) && (Numbered(packets) ==> Numbered(ps))
  {
  }

  lemma Injected(noc: Buffers, counts: seq<nat>, noc': Buffers, counts': seq<nat>, packets: seq<Packet>, src: Pos, dst: Pos, flits: nat, sizeX: nat, sizeY: nat)
    requires Inside(src, sizeX, sizeY) && Inside(dst, sizeX, sizeY) && Interval(noc, packets, sizeX, sizeY) && NoWaits(noc)
    requires Routing(noc, counts, noc', counts', XYRoute(src, dst), |packets| + 1, flits, sizeX, sizeY)
    ensures var ps := packets + Saved(|packets| + 1, XYRoute(src, dst), flits);
      |ps| == |packets| + flits && |counts'| == |counts| && Interval(noc', ps, sizeX, sizeY) && NoWaits(noc')
  {
    hide Inside, XYRoute, Agrees, Saved;
    var path := XYRoute(src, dst);
    XYRouteOk(src, dst, sizeX, sizeY);
    SavedRoutes(packets, path, flits);
    EnteredAgrees(noc, noc', RoutesOf(packets), path, flits);
    forall h, k ensures Wait(noc', h, k) == 0.0 { assert Wait(noc', h, k) == Wait(noc, h, k) == 0.0; }
  }

  lemma InjectedStatistics(t: Timing, noc: Buffers, counts: seq<nat>, noc': Buffers, counts': seq<nat>, packets: seq<Packet>, src: Pos, dst: Pos, flits: nat,
                           waits: seq<real>, distance: nat, packetsCount: nat, latency: real, sizeX: nat, sizeY: nat)
    requires Inside(src, sizeX, sizeY) && Inside(dst, sizeX, sizeY)
    requires Routing(noc, counts, noc', counts', XYRoute(src, dst), |packets| + 1, flits, sizeX, sizeY)
    requires Statistics(t, RoutesOf(packets), counts, waits, distance, packetsCount, latency)
    ensures Statistics(t, RoutesOf(packets + Saved(|packets| + 1, XYRoute(src, dst), flits)), counts', waits,
                       distance + flits * |XYRoute(src, dst)|, packetsCount, latency)
  {
    hide Inside, XYRoute, Saved, Entered, Counted, Sum, SumTimes, ZeroLoad, Length;
    var path := XYRoute(src, dst);
    XYRouteOk(src, dst, sizeX, sizeY);
    SavedRoutes(packets, path, flits);
    LengthOfCopies(RoutesOf(packets), path, flits);
    forall k | 0 <= k < |path| ensures RouterIndex(path[k], sizeX) < |counts| { IndexInside(path[k], sizeX, sizeY); }
    CountedSum(counts, counts', path, flits, sizeX);
  }

  // The routers on the way to all destinations.
  ghost function Distances(src: Pos, dests: seq<Pos>): nat {
    if dests == [] then 0 else Distances(src, dests[..|dests| - 1]) + Distance(src, dests[|dests| - 1]) + 1
  }

  lemma DistancesNone(src: Pos, dests: seq<Pos>)
    ensures Distances(src, dests[..0]) == 0
  {
  }

  lemma DistancesNext(src: Pos, dests: seq<Pos>, i: nat, flits: nat)
    requires i < |dests|
    ensures flits * Distances(src, dests[..i + 1]) == flits * Distances(src, dests[..i]) + flits * (Distance(src, dests[i]) + 1)
  {
    assert dests[..i + 1][..i] == dests[..i];
    var a, b := Distances(src, dests[..i]), Distance(src, dests[i]) + 1;
    assert flits * (a + b) == flits * a + flits * b;
  }

  // With buffers of depth one every head-of-line lookup is safe.
  lemma DepthOneAllSafe(t: Timing, noc: Buffers, packets: seq<Packet>, sizeX: nat, sizeY: nat)
    requires TimingOk(t) && t.depth == 1 && Interval(noc, packets, sizeX, sizeY)
    ensures AllSafe(t, packets)
  {
    DepthOneSafe(RoutesOf(packets), t.channels, sizeX, sizeY);
  }

  lemma IntervalClosed(t: Timing, start: Buffers, before: seq<Packet>, waits0: seq<real>, noc: Buffers, waits: seq<real>, packets: seq<Packet>, sum: real,
                       counts: seq<nat>, distance: nat, packetsCount: nat, latency: real, sizeX: nat, sizeY: nat)
    requires Computed(t, start, before, waits0, noc, waits, packets, |packets|, sum, sizeX, sizeY)
    requires Statistics(t, RoutesOf(before), counts, waits0, distance, packetsCount, latency)
    ensures AllSafe(t, before) && |packets| == |before| && |waits| == Routers(sizeX, sizeY)
    ensures Interval(map[], [], sizeX, sizeY) && NoWaits(map[]) && WaitsOver(t, start, waits0, before, waits, sizeX)
    ensures Statistics(t, RoutesOf([]), counts, waits, distance, packetsCount + |packets|, latency + sum)
  {
    hide Sum, SumTimes, ZeroLoad, WaitsOk, LatencyIs, SafePacket, AfterPackets;
    var routes := RoutesOf(packets);
    assert |routes| == |packets| && |RoutesOf(before)| == |before|;
    assert routes[..|packets|] == routes;
    ZeroLoadAdds(t, distance - Length(routes), packetsCount, Length(routes), |packets|);
    assert RoutesOf([]) == [];
  }

  // Every computed latency is at least the zero-load latency, and equal to it for a packet that is
  // first in all its buffers.
  lemma ComputedLatencies(t: Timing, start: Buffers, before: seq<Packet>, waits0: seq<real>, noc: Buffers, waits: seq<real>, packets: seq<Packet>, sum: real, sizeX: nat, sizeY: nat, k: nat)
    requires Computed(t, start, before, waits0, noc, waits, packets, |packets|, sum, sizeX, sizeY) && k < |packets|
    ensures var hops := |packets[k].route|; packets[k].latency >= hops as real * t.router + (hops + 1) as real * t.link
    ensures (forall i :: 0 <= i < |packets[k].route| ==> Lower(Users(RoutesOf(before), packets[k].route[i]), k + 1) == {}) ==>
      var hops := |packets[k].route|; packets[k].latency == hops as real * t.router + (hops + 1) as real * t.link
  {
    hide PacketLatency, SafeDepth, WaitsOk, LatencyIs, ZeroLoad, SumTimes, Length, AfterPackets, Users, Lower, Interval, RoutesOf;
    LatencyWritten(t, 0.0, |packets[k].route|);
    AtLeastZeroLoad(t, noc, packets[k]);
    IntervalAt(noc, packets, k, sizeX, sizeY);
  }
}
