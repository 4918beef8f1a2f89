/** How long a packet of the contention model can wait. */
module ContentionBounds {
  import opened Options
  import opened OrderedKeys
  import opened MeshRoutes
  import opened PacketBuffers
  import opened PacketLatencies
  import opened MeshTraffic
  import opened Contention

  // A packet waits at most for what the packet ahead of it waits, in its own port and in the port
  // that blocks it, and for one router and one link.
  ghost function Bound(t: Timing, id: nat): real {
    if id <= 1 then 0.0 else 2.0 * Bound(t, id - 1) + t.router + t.link
  }

  // The bound over a whole route.
  ghost function RouteBound(t: Timing, hops: nat, id: nat): real { hops as real * Bound(t, id) }

  lemma {:induction false} BoundGrows(t: Timing, a: nat, b: nat)
    requires TimingOk(t) && a <= b
    ensures 0.0 <= Bound(t, a) <= Bound(t, b)
    decreases b
  {
    if b > 1 {
      BoundGrows(t, if a == b then a - 1 else a, b - 1);
    }
  }

  ghost predicate Within(t: Timing, buffer: OutputBuffer, k: nat)
    requires k in buffer
  {
    k >= 1 && 0.0 <= buffer[k] <= Bound(t, k)
  }

  ghost predicate Bounded(t: Timing, noc: Buffers) {
    forall h, k :: k in Buffer(noc, h) ==> Within(t, Buffer(noc, h), k)
  }

  lemma BufferWaitBound(t: Timing, noc: Buffers, h: Hop, c: nat, met: Met)
    requires TimingOk(t) && t.interval >= 0.0 && Bounded(t, noc)
    ensures var w := BufferWait(t, Buffer(noc, h), c + 1, met);
      0.0 <= w <= if c == 0 then 0.0 else Bound(t, c) + t.router + t.link
  {
    hide QueueWaitingTime;
    var buffer := Buffer(noc, h);
    BoundGrows(t, c, c);
    if Lower(buffer.Keys, c + 1) != {} {
      var p := Before(buffer.Keys, c + 1);
      assert Within(t, Buffer(noc, h), p);
      BoundGrows(t, p, c);
    }
  }

  lemma BlockedWaitBound(t: Timing, noc: Buffers, routes: seq<Route>, c: nat, i: nat)
    requires TimingOk(t) && Bounded(t, noc) && c < |routes| && i < |routes[c]|
    ensures var w := BlockedWait(t, noc, routes, c, i); w.Some? ==> 0.0 <= w.value <= if c == 0 then 0.0 else Bound(t, c)
  {
    BoundGrows(t, c, c);
    match Lookup(routes, c, i, t.depth, t.channels)
    case None =>
    case Some((b, q)) =>
      var p := Before(Users(routes, routes[c][i]), c + 1);
      assert 1 <= p <= c;
      if q.Some? {
        assert q == StepBack(Users(routes, routes[c][i]), p, StepsBack(t.depth, t.channels));
        BoundGrows(t, q.value, c);
        assert q.value in Buffer(noc, b) ==> Within(t, Buffer(noc, b), q.value);
      }
  }

  lemma HopWaitBound(t: Timing, noc: Buffers, packets: seq<Packet>, c: nat, i: nat, met: Met)
    requires TimingOk(t) && t.interval >= 0.0 && Bounded(t, noc) && c < |packets| && i < |packets[c].route|
    ensures var w := HopWait(t, noc, packets, c, i, met); w.Some? ==> 0.0 <= w.value <= Bound(t, c + 1)
  {
    hide BufferWait, BlockedWait, Bounded;
    BufferWaitBound(t, noc, packets[c].route[i], c, met);
    BlockedWaitBound(t, noc, RoutesOf(packets), c, i);
  }

  lemma RecordedBounded(t: Timing, noc: Buffers, h: Hop, id: nat, w: real)
    requires Bounded(t, noc) && id >= 1 && 0.0 <= w <= Bound(t, id)
    ensures Bounded(t, Recorded(noc, h, id, w))
  {
    hide Bound;
    var r := Recorded(noc, h, id, w);
    forall g, k | k in Buffer(r, g) ensures Within(t, Buffer(r, g), k) {
      if g != h || k != id { assert Within(t, Buffer(noc, g), k); }
    }
  }

  lemma {:induction false} HopsBounded(t: Timing, noc: Buffers, waits: seq<real>, packets: seq<Packet>, c: nat, i: nat, sizeX: nat)
    requires TimingOk(t) && t.interval >= 0.0 && Bounded(t, noc) && c < |packets| && i <= |packets[c].route|
    ensures var p := AfterHops(t, noc, waits, packets, c, i, sizeX); p.Some? ==> Bounded(t, p.value.noc)
  {
    hide Bounded, Bound, HopWait, Recorded, NextMet, Charge, RouterIndex;
    if i > 0 {
      HopsBounded(t, noc, waits, packets, c, i - 1, sizeX);
      var p := AfterHops(t, noc, waits, packets, c, i - 1, sizeX);
      if p.Some? {
        var w := HopWait(t, p.value.noc, packets, c, i - 1, p.value.met);
        HopWaitBound(t, p.value.noc, packets, c, i - 1, p.value.met);
        if w.Some? { RecordedBounded(t, p.value.noc, packets[c].route[i - 1], c + 1, w.value); }
      }
    }
  }

  // Serving all packets of an interval keeps every wait within its bound.
  lemma {:induction false} PacketsBounded(t: Timing, noc: Buffers, waits: seq<real>, packets: seq<Packet>, c: nat, sizeX: nat)
    requires TimingOk(t) && t.interval >= 0.0 && Bounded(t, noc) && c <= |packets|
    ensures var p := AfterPackets(t, noc, waits, packets, c, sizeX); p.Some? ==> Bounded(t, p.value.0)
  {
    hide Bounded, AfterHops;
    if c > 0 {
      PacketsBounded(t, noc, waits, packets, c - 1, sizeX);
      var p := AfterPackets(t, noc, waits, packets, c - 1, sizeX);
      if p.Some? { HopsBounded(t, p.value.0, p.value.1, packets, c - 1, |packets[c - 1].route|, sizeX); }
    }
  }

  lemma NoWaitsBounded(t: Timing, noc: Buffers, packets: seq<Packet>, sizeX: nat, sizeY: nat)
    requires TimingOk(t) && NoWaits(noc) && Interval(noc, packets, sizeX, sizeY)
    ensures Bounded(t, noc)
  {
    forall h, k | k in Buffer(noc, h) ensures Within(t, Buffer(noc, h), k) {
      assert Wait(noc, h, k) == 0.0;
      assert Buffer(noc, h).Keys == Users(RoutesOf(packets), h);
      BoundGrows(t, k, k);
    }
  }

  lemma {:induction false} WaitsBounded(t: Timing, noc: Buffers, route: Route, id: nat, n: nat)
    requires TimingOk(t) && Bounded(t, noc) && n <= |route|
    ensures Waits(noc, route, id, n) <= RouteBound(t, n, id)
  {
    hide Bound;
    BoundGrows(t, id, id);
    if n > 0 {
      WaitsBounded(t, noc, route, id, n - 1);
      assert id in Buffer(noc, route[n - 1]) ==> Within(t, Buffer(noc, route[n - 1]), id);
      Distribute((n - 1) as real, 1.0, Bound(t, id));
      assert n as real == (n - 1) as real + 1.0;
    }
  }

  // A packet is late by at most its bound at every hop.
  lemma LatencyBounded(t: Timing, start: Buffers, before: seq<Packet>, waits0: seq<real>, noc: Buffers, waits: seq<real>, packets: seq<Packet>, sum: real,
                       sizeX: nat, sizeY: nat, k: nat)
    requires TimingOk(t) && t.interval >= 0.0 && NoWaits(start) && Interval(start, before, sizeX, sizeY)
    requires Computed(t, start, before, waits0, noc, waits, packets, |packets|, sum, sizeX, sizeY) && k < |packets|
    ensures var hops := |packets[k].route|;
      packets[k].latency <= hops as real * t.router + (hops + 1) as real * t.link + RouteBound(t, hops, k + 1)
  {
    hide Bound, RouteBound, Bounded, AfterPackets, Waits, NoWaits, PacketLatency, SafeDepth, WaitsOk, ZeroLoad, SumTimes;
    NoWaitsBounded(t, start, before, sizeX, sizeY);
    PacketsBounded(t, start, waits0, before, |packets|, sizeX);
    WaitsBounded(t, noc, packets[k].route, k + 1, |packets[k].route|);
    IntervalAt(noc, packets, k, sizeX, sizeY);
    assert LatencyIs(t, noc, packets[k]);
    LateBy(t, noc, packets[k], RouteBound(t, |packets[k].route|, k + 1));
    LatencyWritten(t, RouteBound(t, |packets[k].route|, k + 1), |packets[k].route|);
  }

  lemma LateBy(t: Timing, noc: Buffers, p: Packet, late: real)
    requires LatencyIs(t, noc, p) && Waits(noc, p.route, p.id, |p.route|) <= late
    ensures p.latency <= PacketLatency(t, late, |p.route|)
  {
    hide Waits;
  }
}
