/** Waiting times of the packets of a contention interval (ComputePacketLatency and its helpers). */
module PacketLatencies {
  import opened Options
  import opened OrderedKeys
  import opened MeshRoutes
  import opened PacketBuffers

  datatype Packet = Packet(id: nat, route: Route, latency: real)

  function RoutesOf(packets: seq<Packet>): (routes: seq<Route>) {
    seq(|packets|, k requires 0 <= k < |packets| => packets[k].route)
  }

  // packetBuffer[k] has id k + 1.
  ghost predicate Numbered(packets: seq<Packet>) {
    forall k :: 0 <= k < |packets| ==> packets[k].id == k + 1
  }

  // The buffers and the packets of an interval agree.
  ghost predicate Interval(noc: Buffers, packets: seq<Packet>, sizeX: nat, sizeY: nat) {
    Numbered(packets) && RoutesOk(RoutesOf(packets), sizeX, sizeY) && Agrees(noc, RoutesOf(packets))
  }

  datatype Timing = Timing(router: real, link: real, interval: real, depth: nat, channels: nat)

  ghost predicate TimingOk(t: Timing) { t.router >= 0.0 && t.link >= 0.0 && t.depth >= 1 && t.channels >= 1 }

  // Fewer packets than virtual channels divide the interval by zero: the difference is minus
  // infinity and there is no wait.
  function QueueWaitingTime(t: Timing, wait: real, queue: nat): (w: real)
    requires t.channels >= 1
    ensures w >= 0.0 && (queue / t.channels == 0 ==> w == 0.0)
    ensures queue / t.channels > 0 ==>
      var owed := wait + t.router + t.link - t.interval / (queue / t.channels) as real; w >= owed && (w > 0.0 ==> w == owed)
    ensures TimingOk(t) && t.interval >= 0.0 && wait >= 0.0 ==> w <= wait + t.router + t.link
  {
    var share := queue / t.channels;
    if share == 0 then 0.0 else
    var w := wait + t.router + t.link - t.interval / share as real;
    assert t.interval >= 0.0 ==> t.interval / share as real >= 0.0;
    if w >= 0.0 then w else 0.0
  }

  function PacketLatency(t: Timing, totalWait: real, hops: nat): real {
    hops as real * t.router + (hops + 1) as real * t.link + totalWait
  }

  // Every hop costs a router and a link, the way into the network one more link.
  lemma LatencyWritten(t: Timing, totalWait: real, hops: nat)
    ensures PacketLatency(t, totalWait, hops) == hops as real * t.router + (hops + 1) as real * t.link + totalWait
  {
  }

  // The packet last met and its waiting time then.
  datatype Met = Met(id: Option<nat>, wait: real)

  // The wait in one buffer: none for the first packet, none or the wait of the packet ahead when
  // that one was met before, else the queueing delay.
  ghost function BufferWait(t: Timing, buffer: OutputBuffer, id: nat, met: Met): (w: real)
    requires t.channels >= 1
    ensures (forall k :: k in buffer ==> buffer[k] >= 0.0) ==> w >= 0.0
    ensures Lower(buffer.Keys, id) == {} ==> w == 0.0
  {
    if Lower(buffer.Keys, id) == {} then 0.0 else
    var p := Before(buffer.Keys, id);
    if met.id != Some(p) then QueueWaitingTime(t, buffer[p], |buffer|)
    else if buffer[p] == met.wait then 0.0 else buffer[p]
  }

  function Wait(noc: Buffers, h: Hop, id: nat): real { if id in Buffer(noc, h) then Buffer(noc, h)[id] else 0.0 }

  // No packet of the interval has been charged any waiting time yet.
  ghost predicate NoWaits(noc: Buffers) { forall h, k :: Wait(noc, h, k) == 0.0 }

  lemma NoWaitsOk(noc: Buffers)
    requires NoWaits(noc)
    ensures WaitsOk(noc)
  {
    forall h, k | k in Buffer(noc, h) ensures WaitOk(Buffer(noc, h), k) { assert Wait(noc, h, k) == 0.0; }
  }

  // The extra wait from head-of-line blocking, if the lookup finds its packet.
  ghost function BlockedWait(t: Timing, noc: Buffers, routes: seq<Route>, c: nat, i: nat): Option<real>
    requires TimingOk(t) && c < |routes| && i < |routes[c]|
  {
    match Lookup(routes, c, i, t.depth, t.channels)
    case None => Some(0.0)
    case Some((b, q)) => if q.Some? && q.value in Users(routes, b) then Some(Wait(noc, b, q.value)) else None
  }

  // Head-of-line blocking of packet c at its i-th hop behind packet p; None when the iterator steps
  // before begin() or a key would be inserted.
  method HeadOfLine(t: Timing, noc: Buffers, packets: seq<Packet>, c: nat, i: nat, p: nat, ghost sizeX: nat, ghost sizeY: nat)
    returns (blocked: Option<real>)
    requires TimingOk(t) && Interval(noc, packets, sizeX, sizeY) && c < |packets| && i < |packets[c].route|
    requires var ks := Users(RoutesOf(packets), packets[c].route[i]); Lower(ks, c + 1) != {} && p == Before(ks, c + 1)
    ensures blocked == BlockedWait(t, noc, RoutesOf(packets), c, i)
  {
    ghost var routes := RoutesOf(packets);
    var h := packets[c].route[i];
    blocked := Some(0.0);
    assert RouteOk(routes[c], sizeX, sizeY);
    if h.port != Local {
      var next := packets[c].route[i + 1];
      NextHopOnRoute(routes, p, h, sizeX, sizeY);
      hide RoutesOk, RouteOk;
      var ahead := packets[p - 1].route;
      var b := ahead[IndexOf(ahead, h) + 1];
      assert b == NextHop(routes, p, h);
      if next != b {
        var index := PositionIn(Buffer(noc, b).Keys, p);
        if index >= t.depth * t.channels {
          var q := StepBack(Buffer(noc, h).Keys, p, StepsBack(t.depth, t.channels));
          blocked := if q.Some? && q.value in Buffer(noc, b) then Some(Buffer(noc, b)[q.value]) else None;
        }
      }
    }
  }

  // ------------------------------------------------------------------ recorded waits

  // The entry of one packet in one buffer is set.
  function Recorded(noc: Buffers, h: Hop, id: nat, w: real): (r: Buffers) { noc[h := Buffer(noc, h)[id := w]] }

  lemma RecordedKeeps(noc: Buffers, routes: seq<Route>, h: Hop, id: nat, w: real)
    requires Agrees(noc, routes) && WaitsOk(noc) && id in Users(routes, h)
    requires w >= 0.0 && (Lower(Users(routes, h), id) == {} ==> w == 0.0)
    ensures Agrees(Recorded(noc, h, id, w), routes) && WaitsOk(Recorded(noc, h, id, w))
  {
    var r := Recorded(noc, h, id, w);
    forall g ensures Buffer(r, g).Keys == Users(routes, g) {
      assert Buffer(noc, g).Keys == Users(routes, g);
    }
    forall g, k | k in Buffer(r, g) ensures WaitOk(Buffer(r, g), k) {
      assert Buffer(noc, g).Keys == Users(routes, g) && WaitOk(Buffer(noc, g), k);
    }
  }

  // The waits of a packet over the first n hops of its route.
  ghost function Waits(noc: Buffers, route: Route, id: nat, n: nat): real
    requires n <= |route|
  {
    if n == 0 then 0.0 else Waits(noc, route, id, n - 1) + Wait(noc, route[n - 1], id)
  }

  lemma {:induction false} WaitsFrame(noc: Buffers, noc': Buffers, route: Route, id: nat, n: nat)
    requires n <= |route| && forall k :: 0 <= k < n ==> Wait(noc, route[k], id) == Wait(noc', route[k], id)
    ensures Waits(noc, route, id, n) == Waits(noc', route, id, n)
  {
    if n > 0 { WaitsFrame(noc, noc', route, id, n - 1); }
  }

  // Only entries of packet id differ.
  ghost predicate OnlyOf(noc: Buffers, noc': Buffers, id: nat) {
    forall h, k :: k != id ==> Wait(noc, h, k) == Wait(noc', h, k)
  }

  lemma {:induction false} WaitsNonNegative(noc: Buffers, route: Route, id: nat, n: nat)
    requires n <= |route| && WaitsOk(noc)
    ensures Waits(noc, route, id, n) >= 0.0
  {
    if n > 0 {
      WaitsNonNegative(noc, route, id, n - 1);
      if id in Buffer(noc, route[n - 1]) { assert WaitOk(Buffer(noc, route[n - 1]), id); }
    }
  }

  lemma {:induction false} FirstsDoNotWait(noc: Buffers, route: Route, id: nat, n: nat)
    requires n <= |route| && WaitsOk(noc)
    requires forall k :: 0 <= k < n ==> Lower(Buffer(noc, route[k]).Keys, id) == {}
    ensures Waits(noc, route, id, n) == 0.0
  {
    if n > 0 {
      FirstsDoNotWait(noc, route, id, n - 1);
      if id in Buffer(noc, route[n - 1]) { assert WaitOk(Buffer(noc, route[n - 1]), id); }
    }
  }

  // A latency is the zero-load latency plus the recorded waits.
  ghost predicate LatencyIs(t: Timing, noc: Buffers, p: Packet) {
    p.latency == PacketLatency(t, Waits(noc, p.route, p.id, |p.route|), |p.route|)
  }

  // No packet is faster than on an empty network, and one that is first in every buffer is as fast.
  lemma AtLeastZeroLoad(t: Timing, noc: Buffers, p: Packet)
    requires WaitsOk(noc) && LatencyIs(t, noc, p)
    ensures p.latency >= PacketLatency(t, 0.0, |p.route|)
    ensures (forall k :: 0 <= k < |p.route| ==> Lower(Buffer(noc, p.route[k]).Keys, p.id) == {}) ==>
      p.latency == PacketLatency(t, 0.0, |p.route|)
  {
    WaitsNonNegative(noc, p.route, p.id, |p.route|);
    if forall k :: 0 <= k < |p.route| ==> Lower(Buffer(noc, p.route[k]).Keys, p.id) == {} {
      FirstsDoNotWait(noc, p.route, p.id, |p.route|);
    }
  }

  // ------------------------------------------------------------------ totals

  ghost function SumTimes(s: seq<real>): real {
    if s == [] then 0.0 else SumTimes(s[..|s| - 1]) + s[|s| - 1]
  }

  lemma {:induction false} SumTimesUpdate(s: seq<real>, i: nat, w: real)
    requires i < |s|
    ensures SumTimes(s[i := s[i] + w]) == SumTimes(s) + w
  {
    var s' := s[i := s[i] + w];
    if i == |s| - 1 {
      assert s'[..|s| - 1] == s[..|s| - 1];
    } else {
      assert s'[..|s| - 1] == s[..|s| - 1][i := s[i] + w];
      SumTimesUpdate(s[..|s| - 1], i, w);
    }
  }

  ghost function Length(routes: seq<Route>): nat {
    if routes == [] then 0 else Length(routes[..|routes| - 1]) + |routes[|routes| - 1]|
  }

  // The latencies of `count` packets with `hops` hops in all, on an empty network.
  ghost function ZeroLoad(t: Timing, hops: int, count: int): real {
    hops as real * (t.router + t.link) + count as real * t.link
  }

  lemma ZeroLoadAdds(t: Timing, h1: int, c1: int, h2: int, c2: int)
    ensures ZeroLoad(t, h1 + h2, c1 + c2) == ZeroLoad(t, h1, c1) + ZeroLoad(t, h2, c2)
  {
    assert (h1 + h2) as real == h1 as real + h2 as real;
    assert (c1 + c2) as real == c1 as real + c2 as real;
    Distribute(h1 as real, h2 as real, t.router + t.link);
    Distribute(c1 as real, c2 as real, t.link);
  }

  lemma Distribute(a: real, b: real, c: real)
    ensures (a + b) * c == a * c + b * c
  {
  }

  lemma LatencyIsZeroLoad(t: Timing, w: real, hops: nat)
    ensures PacketLatency(t, w, hops) == ZeroLoad(t, hops, 1) + w
  {
    Distribute(t.router, t.link, hops as real);
    Distribute(hops as real, 1.0, t.link);
    assert (hops + 1) as real == hops as real + 1.0;
  }
}
