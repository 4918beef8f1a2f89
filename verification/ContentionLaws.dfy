/** What contention costs: packets that travel together, and packets that are blocked. */
module ContentionLaws {
  import opened Options
  import opened OrderedKeys
  import opened MeshRoutes
  import opened PacketBuffers
  import opened PacketLatencies
  import opened MeshTraffic
  import opened Contention

  // ------------------------------------------------------------------ packets on the same route

  // What each packet of k on the same route waits longer than the one ahead: one router and one link,
  // less its share of the contention interval.
  ghost function Gain(t: Timing, k: nat): (g: real)
    requires TimingOk(t)
  {
    var share := k / t.channels;
    if share == 0 then 0.0 else
    var owed := t.router + t.link - t.interval / share as real;
    if owed > 0.0 then owed else 0.0
  }

  // Every channel gets a packet, and together they need more time than the interval has.
  ghost predicate Overloaded(t: Timing, k: nat)
    requires TimingOk(t)
  {
    k >= t.channels && t.interval < (k / t.channels) as real * (t.router + t.link)
  }

  // There is a cost exactly when the packets need more time than the interval has.
  lemma GainPositive(t: Timing, k: nat)
    requires TimingOk(t)
    ensures Gain(t, k) >= 0.0
    ensures Gain(t, k) > 0.0 <==> Overloaded(t, k)
  {
    var share := k / t.channels;
    if share > 0 {
      var s := share as real;
      assert t.interval / s * s == t.interval;
      Scales(t.interval / s, t.router + t.link, s);
    }
  }

  lemma Scales(a: real, b: real, s: real)
    requires s > 0.0
    ensures a < b <==> a * s < s * b
  {
  }

  // The wait of the n-th packet, counted from 0.
  ghost function Lag(n: int, g: real): real { n as real * g }

  // The buffer at hop m of the common route while the first c packets have been served.
  ghost predicate InStep(buffer: OutputBuffer, m: nat, k: nat, g: real, c: nat) {
    && (forall j: nat :: j in buffer <==> 1 <= j <= k)
    && (forall j: nat :: j in buffer ==> buffer[j] == if m == 0 && j <= c then Lag(j - 1, g) else 0.0)
  }

  ghost predicate Together(noc: Buffers, route: Route, k: nat, g: real, c: nat) {
    forall m :: 0 <= m < |route| ==> InStep(Buffer(noc, route[m]), m, k, g, c)
  }

  ghost predicate SameRoute(packets: seq<Packet>, route: Route) {
    forall j :: 0 <= j < |packets| ==> packets[j].route == route
  }

  lemma {:induction false} IndexOfDistinct(r: Route, i: nat)
    requires i < |r| && forall a, b :: 0 <= a < b < |r| ==> r[a] != r[b]
    ensures IndexOf(r, r[i]) == i
  {
    if i > 0 {
      assert r[0] != r[i];
      var t := r[1..];
      forall a, b | 0 <= a < b < |t| ensures t[a] != t[b] { assert t[a] == r[a + 1] && t[b] == r[b + 1]; }
      IndexOfDistinct(t, i - 1);
    }
  }

  lemma SharedUsers(packets: seq<Packet>, route: Route, i: nat)
    requires SameRoute(packets, route) && i < |route|
    ensures forall j: nat :: j in Users(RoutesOf(packets), route[i]) <==> 1 <= j <= |packets|
  {
    forall j: nat ensures j in Users(RoutesOf(packets), route[i]) <==> 1 <= j <= |packets| {
      assert 1 <= j <= |packets| ==> RoutesOf(packets)[j - 1] == route;
      assert Uses(RoutesOf(packets), j, route[i]) <==> 1 <= j <= |packets|;
    }
  }

  // The packet ahead goes on to the same port: nothing is blocked.
  lemma NotBlocked(t: Timing, noc: Buffers, packets: seq<Packet>, route: Route, c: nat, i: nat, sizeX: nat, sizeY: nat)
    requires TimingOk(t) && SameRoute(packets, route) && RouteOk(route, sizeX, sizeY) && c < |packets| && i < |route|
    ensures |RoutesOf(packets)| == |packets| && RoutesOf(packets)[c] == route && BlockedWait(t, noc, RoutesOf(packets), c, i) == Some(0.0)
  {
    var routes := RoutesOf(packets);
    assert routes[c] == route;
    SharedUsers(packets, route, i);
    IndexOfDistinct(route, i);
    hide Users;
    var ks := Users(routes, route[i]);
    if Lower(ks, c + 1) != {} {
      var p := Before(ks, c + 1);
      assert routes[p - 1] == route;
    }
  }

  lemma AheadIs(ks: set<nat>, k: nat, c: nat)
    requires (forall j: nat :: j in ks <==> 1 <= j <= k) && c < k
    ensures |ks| == k && (Lower(ks, c + 1) == {} <==> c == 0) && (c > 0 ==> Before(ks, c + 1) == c)
  {
    FirstIds(k, ks);
    if c > 0 { assert c in Lower(ks, c + 1); }
  }

  lemma KeysCount(buffer: OutputBuffer)
    ensures |buffer| == |buffer.Keys|
  {
  }

  // The packet met from the first common buffer on.
  ghost function MetThere(c: nat, g: real, i: nat): Met {
    if i == 0 || c == 0 then Met(None, 0.0) else Met(Some(c), Lag(c - 1, g))
  }

  lemma OneLater(c: nat, g: real)
    requires c > 0
    ensures Lag(c - 1, g) + g == Lag(c, g)
  {
    Distribute((c - 1) as real, 1.0, g);
    assert c as real == (c - 1) as real + 1.0;
  }

  lemma QueueAddsGain(t: Timing, k: nat, c: nat)
    requires TimingOk(t) && 0 < c
    ensures QueueWaitingTime(t, Lag(c - 1, Gain(t, k)), k) == Lag(c, Gain(t, k))
  {
    OneLater(c, Gain(t, k));
    GainPositive(t, k);
    ProductNonNegative((c - 1) as real, Gain(t, k));
  }

  lemma ProductNonNegative(a: real, b: real)
    requires a >= 0.0 && b >= 0.0
    ensures a * b >= 0.0 && (b == 0.0 ==> a * b == 0.0)
  {
  }

  // Only the first common buffer costs anything.
  lemma TogetherWait(t: Timing, buffer: OutputBuffer, i: nat, k: nat, c: nat)
    requires TimingOk(t) && c < k && InStep(buffer, i, k, Gain(t, k), if i == 0 then c else c + 1)
    ensures BufferWait(t, buffer, c + 1, MetThere(c, Gain(t, k), i)) == if i == 0 then Lag(c, Gain(t, k)) else 0.0
    ensures NextMet(buffer, c + 1, MetThere(c, Gain(t, k), i)) == MetThere(c, Gain(t, k), i + 1)
  {
    hide QueueWaitingTime, Gain, Lag, Lower;
    LagNone(Gain(t, k));
    AheadIs(buffer.Keys, k, c);
    KeysCount(buffer);
    if c > 0 {
      assert c in buffer;
      if i == 0 { QueueAddsGain(t, k, c); }
    }
  }

  lemma LagNone(g: real)
    ensures Lag(0, g) == 0.0
  {
  }

  lemma TogetherRecords(noc: Buffers, route: Route, k: nat, g: real, c: nat, i: nat)
    requires c < k && i < |route| && Together(noc, route, k, g, if i == 0 then c else c + 1)
    requires forall a, b :: 0 <= a < b < |route| ==> route[a] != route[b]
    ensures Together(Recorded(noc, route[i], c + 1, if i == 0 then Lag(c, g) else 0.0), route, k, g, c + 1)
  {
    hide Lag;
    LagNone(g);
    var r := Recorded(noc, route[i], c + 1, if i == 0 then Lag(c, g) else 0.0);
    forall m | 0 <= m < |route| ensures InStep(Buffer(r, route[m]), m, k, g, c + 1) {
      assert InStep(Buffer(noc, route[m]), m, k, g, if i == 0 then c else c + 1);
      if m != i { assert route[m] != route[i]; }
    }
  }

  lemma TogetherHop(t: Timing, p: Progress, packets: seq<Packet>, route: Route, c: nat, i: nat, sizeX: nat, sizeY: nat)
    requires TimingOk(t) && SameRoute(packets, route) && RouteOk(route, sizeX, sizeY) && c < |packets| && i < |route|
    requires Together(p.noc, route, |packets|, Gain(t, |packets|), if i == 0 then c else c + 1)
    requires p.met == MetThere(c, Gain(t, |packets|), i)
    ensures packets[c].route == route
    ensures var p' := Advance(t, p, packets, c, i, sizeX);
      p'.Some? ==> Together(p'.value.noc, route, |packets|, Gain(t, |packets|), c + 1) && p'.value.met == MetThere(c, Gain(t, |packets|), i + 1)
  {
    hide Gain, Lag, BufferWait, BlockedWait, HopWait, NextMet, InStep, MetThere, Charge, RouterIndex, Recorded, RoutesOf;
    var (k, g) := (|packets|, Gain(t, |packets|));
    NotBlocked(t, p.noc, packets, route, c, i, sizeX, sizeY);
    assert InStep(Buffer(p.noc, route[i]), i, k, g, if i == 0 then c else c + 1);
    TogetherWait(t, Buffer(p.noc, route[i]), i, k, c);
    HopWaitIs(t, p.noc, packets, c, i, p.met);
    var w := if i == 0 then Lag(c, g) else 0.0;
    assert w + 0.0 == w;
    assert HopWait(t, p.noc, packets, c, i, p.met) == Some(w);
    TogetherRecords(p.noc, route, k, g, c, i);
  }

  lemma {:induction false} TogetherHops(t: Timing, noc: Buffers, waits: seq<real>, packets: seq<Packet>, route: Route, c: nat, i: nat, sizeX: nat, sizeY: nat)
    requires TimingOk(t) && SameRoute(packets, route) && RouteOk(route, sizeX, sizeY) && c < |packets| && i <= |route|
    requires Together(noc, route, |packets|, Gain(t, |packets|), c)
    ensures packets[c].route == route
    ensures var p := AfterHops(t, noc, waits, packets, c, i, sizeX);
      p.Some? ==>
        && Together(p.value.noc, route, |packets|, Gain(t, |packets|), if i == 0 then c else c + 1)
        && p.value.met == MetThere(c, Gain(t, |packets|), i)
    decreases i
  {
    hide Gain, Together, Advance;
    if i > 0 {
      TogetherHops(t, noc, waits, packets, route, c, i - 1, sizeX, sizeY);
      var p := AfterHops(t, noc, waits, packets, c, i - 1, sizeX);
      if p.Some? { TogetherHop(t, p.value, packets, route, c, i - 1, sizeX, sizeY); }
    }
  }

  lemma {:induction false} TogetherPackets(t: Timing, noc: Buffers, waits: seq<real>, packets: seq<Packet>, route: Route, c: nat, sizeX: nat, sizeY: nat)
    requires TimingOk(t) && SameRoute(packets, route) && RouteOk(route, sizeX, sizeY) && c <= |packets|
    requires Together(noc, route, |packets|, Gain(t, |packets|), 0)
    ensures var p := AfterPackets(t, noc, waits, packets, c, sizeX);
      p.Some? ==> Together(p.value.0, route, |packets|, Gain(t, |packets|), c)
    decreases c
  {
    hide Gain, Together, AfterHops;
    if c > 0 {
      TogetherPackets(t, noc, waits, packets, route, c - 1, sizeX, sizeY);
      var p := AfterPackets(t, noc, waits, packets, c - 1, sizeX);
      if p.Some? { TogetherHops(t, p.value.0, p.value.1, packets, route, c - 1, |route|, sizeX, sizeY); }
    }
  }

  lemma TogetherStart(noc: Buffers, packets: seq<Packet>, route: Route, g: real, sizeX: nat, sizeY: nat)
    requires Interval(noc, packets, sizeX, sizeY) && NoWaits(noc) && SameRoute(packets, route)
    ensures Together(noc, route, |packets|, g, 0)
  {
    hide Users;
    forall m | 0 <= m < |route| ensures InStep(Buffer(noc, route[m]), m, |packets|, g, 0) {
      SharedUsers(packets, route, m);
      assert Buffer(noc, route[m]).Keys == Users(RoutesOf(packets), route[m]);
      forall j | j in Buffer(noc, route[m]) ensures Buffer(noc, route[m])[j] == 0.0 { assert Wait(noc, route[m], j) == 0.0; }
    }
  }

  lemma {:induction false} TogetherWaits(noc: Buffers, route: Route, k: nat, g: real, j: nat, n: nat)
    requires Together(noc, route, k, g, k) && 1 <= j <= k && n <= |route|
    ensures Waits(noc, route, j, n) == if n == 0 then 0.0 else Lag(j - 1, g)
  {
    hide Lag;
    LagNone(g);
    if n > 0 {
      TogetherWaits(noc, route, k, g, j, n - 1);
      assert InStep(Buffer(noc, route[n - 1]), n - 1, k, g, k);
    }
  }

  lemma PlatoonWaits(t: Timing, start: Buffers, before: seq<Packet>, waits0: seq<real>, noc: Buffers, waits: seq<real>, route: Route, j: nat, sizeX: nat, sizeY: nat)
    requires TimingOk(t) && NoWaits(start) && Interval(start, before, sizeX, sizeY) && SameRoute(before, route) && j < |before|
    requires AfterPackets(t, start, waits0, before, |before|, sizeX) == Some((noc, waits))
    ensures Waits(noc, route, j + 1, |route|) == Lag(j, Gain(t, |before|))
  {
    hide Gain, Lag, Together, AfterPackets, Waits, NoWaits, RouteOk;
    assert RoutesOf(before)[j] == route;
    assert RouteOk(route, sizeX, sizeY);
    RouteNonEmpty(route, sizeX, sizeY);
    TogetherStart(start, before, route, Gain(t, |before|), sizeX, sizeY);
    TogetherPackets(t, start, waits0, before, route, |before|, sizeX, sizeY);
    TogetherWaits(noc, route, |before|, Gain(t, |before|), j + 1, |route|);
  }

  lemma RouteNonEmpty(route: Route, sizeX: nat, sizeY: nat)
    requires RouteOk(route, sizeX, sizeY)
    ensures |route| > 0
  {
  }

  // Packets of one interval that all take the same route, of any length: the j-th (counted from 0) is
  // j gains late, whatever the depth of the buffers.
  lemma PlatoonLaw(t: Timing, start: Buffers, before: seq<Packet>, waits0: seq<real>, noc: Buffers, waits: seq<real>, packets: seq<Packet>, sum: real,
                   sizeX: nat, sizeY: nat, route: Route, j: nat)
    requires TimingOk(t) && NoWaits(start) && Interval(start, before, sizeX, sizeY) && SameRoute(before, route)
    requires Computed(t, start, before, waits0, noc, waits, packets, |packets|, sum, sizeX, sizeY) && j < |packets|
    ensures var hops := |route|;
      packets[j].latency == hops as real * t.router + (hops + 1) as real * t.link + j as real * Gain(t, |packets|)
    ensures var hops := |route|;
      packets[j].latency > hops as real * t.router + (hops + 1) as real * t.link <==> j > 0 && Overloaded(t, |packets|)
  {
    hide Gain, Lag, Overloaded, AfterPackets, Waits, NoWaits, PacketLatency, SafeDepth, WaitsOk, ZeroLoad, SumTimes, RoutesOf, Interval;
    SameRoutesAt(before, packets, j);
    PlatoonWaits(t, start, before, waits0, noc, waits, route, j, sizeX, sizeY);
    IntervalAt(noc, packets, j, sizeX, sizeY);
    assert LatencyIs(t, noc, packets[j]);
    GainPositive(t, |packets|);
    LateExactly(t, j, Gain(t, |packets|), |route|);
    LatencyWritten(t, Lag(j, Gain(t, |packets|)), |route|);
    LatencyWritten(t, 0.0, |route|);
    LagIs(j, Gain(t, |packets|));
  }

  lemma LagIs(n: nat, g: real)
    ensures Lag(n, g) == n as real * g
  {
  }

  lemma SameRoutesAt(a: seq<Packet>, b: seq<Packet>, j: nat)
    requires RoutesOf(a) == RoutesOf(b) && j < |b|
    ensures |a| == |b| && a[j].route == b[j].route
  {
    assert |RoutesOf(a)| == |a| && |RoutesOf(b)| == |b|;
    assert RoutesOf(a)[j] == a[j].route && RoutesOf(b)[j] == b[j].route;
  }

  lemma LateExactly(t: Timing, j: nat, g: real, hops: nat)
    requires g >= 0.0
    ensures PacketLatency(t, Lag(j, g), hops) > PacketLatency(t, 0.0, hops) <==> j > 0 && g > 0.0
  {
    if j > 0 && g > 0.0 { assert j as real * g > 0.0; }
  }

  // ------------------------------------------------------------------ the waits of all traffic

  // Waiting for the packet ahead, a router and a link, less the share of the interval.
  ghost function Owed(t: Timing, wait: real, queue: nat): (w: real)
    requires TimingOk(t)
  {
    var share := queue / t.channels;
    if share == 0 then 0.0 else
    var owed := wait + t.router + t.link - t.interval / share as real;
    if owed > 0.0 then owed else 0.0
  }

  // The packet ahead of packet number c in the port of its i-th hop, if there is one.
  ghost function Ahead(routes: seq<Route>, c: nat, i: nat): Option<nat>
    requires c < |routes| && i < |routes[c]|
  {
    var ks := Users(routes, routes[c][i]);
    if Lower(ks, c + 1) == {} then None else Some(Before(ks, c + 1))
  }

  // The hop at which packet number c met the packet it last met before its i-th hop: a packet counts
  // as met from the first of a run of ports in which it is ahead.
  ghost function MetAt(routes: seq<Route>, c: nat, i: nat): (f: Option<nat>)
    requires c < |routes| && i <= |routes[c]|
    ensures f.Some? ==> f.value < i && Ahead(routes, c, f.value).Some?
  {
    if i == 0 then None else
    var f := MetAt(routes, c, i - 1);
    if Ahead(routes, c, i - 1).None? || (f.Some? && Ahead(routes, c, f.value) == Ahead(routes, c, i - 1)) then f else Some(i - 1)
  }

  // The wait behind the packet ahead: none for the first packet; if that packet was met at an earlier
  // hop, none or its wait here, if that differs from its wait there; else what is owed.
  ghost function Behind(t: Timing, noc: Buffers, routes: seq<Route>, c: nat, i: nat): real
    requires TimingOk(t) && c < |routes| && i < |routes[c]|
  {
    var h := routes[c][i];
    match Ahead(routes, c, i)
    case None => 0.0
    case Some(p) =>
      var f := MetAt(routes, c, i);
      if f.Some? && Ahead(routes, c, f.value) == Some(p)
      then if Wait(noc, h, p) == Wait(noc, routes[c][f.value], p) then 0.0 else Wait(noc, h, p)
      else Owed(t, Wait(noc, h, p), |Users(routes, h)|)
  }

  // The wait for the packet that blocks the head of the line.
  ghost function Blocking(t: Timing, noc: Buffers, routes: seq<Route>, c: nat, i: nat): real
    requires TimingOk(t) && c < |routes| && i < |routes[c]|
  {
    match Lookup(routes, c, i, t.depth, t.channels)
    case None => 0.0
    case Some((b, q)) => if q.Some? then Wait(noc, b, q.value) else 0.0
  }

  ghost predicate Exact(t: Timing, noc: Buffers, routes: seq<Route>, c: nat, i: nat)
    requires TimingOk(t) && c < |routes| && i < |routes[c]|
  {
    Wait(noc, routes[c][i], c + 1) == Behind(t, noc, routes, c, i) + Blocking(t, noc, routes, c, i)
  }

  lemma LookupEarlier(routes: seq<Route>, c: nat, i: nat, depth: nat, channels: nat)
    requires c < |routes| && i < |routes[c]| && depth >= 1 && channels >= 1
    ensures match Lookup(routes, c, i, depth, channels) case None => true case Some((b, q)) => q.Some? ==> q.value <= c
  {
    hide Users;
    var ks := Users(routes, routes[c][i]);
    match Lookup(routes, c, i, depth, channels)
    case None =>
    case Some((b, q)) => assert q == StepBack(ks, Before(ks, c + 1), StepsBack(depth, channels));
  }

  lemma AheadEarlier(routes: seq<Route>, c: nat, i: nat)
    requires c < |routes| && i < |routes[c]|
    ensures Ahead(routes, c, i).Some? ==> Ahead(routes, c, i).value <= c
  {
  }

  lemma WaitRecorded(noc: Buffers, h: Hop, id: nat, w: real, g: Hop, k: nat)
    ensures Wait(Recorded(noc, h, id, w), g, k) == if g == h && k == id then w else Wait(noc, g, k)
  {
  }

  // What a wait is made of does not change when an entry of a later packet, or of its own, is set.
  lemma PartsKept(t: Timing, noc: Buffers, routes: seq<Route>, c: nat, i: nat, h: Hop, id: nat, w: real)
    requires TimingOk(t) && c < |routes| && i < |routes[c]| && id > c
    ensures Behind(t, Recorded(noc, h, id, w), routes, c, i) == Behind(t, noc, routes, c, i)
    ensures Blocking(t, Recorded(noc, h, id, w), routes, c, i) == Blocking(t, noc, routes, c, i)
  {
    hide Lookup, Recorded, Wait, Users, Ahead, MetAt, Owed;
    LookupEarlier(routes, c, i, t.depth, t.channels);
    AheadEarlier(routes, c, i);
    var a := Ahead(routes, c, i);
    if a.Some? {
      WaitRecorded(noc, h, id, w, routes[c][i], a.value);
      var f := MetAt(routes, c, i);
      if f.Some? { WaitRecorded(noc, h, id, w, routes[c][f.value], a.value); }
    }
    match Lookup(routes, c, i, t.depth, t.channels)
    case None =>
    case Some((b, q)) => if q.Some? { WaitRecorded(noc, h, id, w, b, q.value); }
  }

  lemma ExactKept(t: Timing, noc: Buffers, routes: seq<Route>, c: nat, i: nat, h: Hop, id: nat, w: real)
    requires TimingOk(t) && c < |routes| && i < |routes[c]| && Exact(t, noc, routes, c, i)
    requires id > c + 1 || (id == c + 1 && h != routes[c][i])
    ensures Exact(t, Recorded(noc, h, id, w), routes, c, i)
  {
    hide Behind, Blocking, Recorded, Wait;
    PartsKept(t, noc, routes, c, i, h, id, w);
    WaitRecorded(noc, h, id, w, routes[c][i], c + 1);
  }

  // The packet met, as the loop remembers it.
  ghost function Remembered(noc: Buffers, routes: seq<Route>, c: nat, i: nat): Met
    requires c < |routes| && i <= |routes[c]|
  {
    match MetAt(routes, c, i)
    case None => Met(None, 0.0)
    case Some(f) => Met(Ahead(routes, c, f), Wait(noc, routes[c][f], Ahead(routes, c, f).value))
  }

  lemma RememberedKept(noc: Buffers, routes: seq<Route>, c: nat, i: nat, h: Hop, w: real)
    requires c < |routes| && i <= |routes[c]|
    ensures Remembered(Recorded(noc, h, c + 1, w), routes, c, i) == Remembered(noc, routes, c, i)
  {
    hide Recorded, Wait, Ahead, MetAt;
    match MetAt(routes, c, i)
    case None =>
    case Some(f) =>
      AheadEarlier(routes, c, f);
      WaitRecorded(noc, h, c + 1, w, routes[c][f], Ahead(routes, c, f).value);
  }

  lemma OwedIs(t: Timing, wait: real, queue: nat)
    requires TimingOk(t)
    ensures QueueWaitingTime(t, wait, queue) == Owed(t, wait, queue)
  {
  }

  lemma BehindIs(t: Timing, noc: Buffers, routes: seq<Route>, c: nat, i: nat)
    requires TimingOk(t) && c < |routes| && i < |routes[c]| && Agrees(noc, routes)
    ensures BufferWait(t, Buffer(noc, routes[c][i]), c + 1, Remembered(noc, routes, c, i)) == Behind(t, noc, routes, c, i)
    ensures NextMet(Buffer(noc, routes[c][i]), c + 1, Remembered(noc, routes, c, i)) == Remembered(noc, routes, c, i + 1)
  {
    hide QueueWaitingTime, Owed, Users, Lower;
    var h := routes[c][i];
    assert Buffer(noc, h).Keys == Users(routes, h);
    KeysCount(Buffer(noc, h));
    var a := Ahead(routes, c, i);
    if a.Some? { OwedIs(t, Wait(noc, h, a.value), |Users(routes, h)|); }
  }

  lemma BlockingIs(t: Timing, noc: Buffers, routes: seq<Route>, c: nat, i: nat)
    requires TimingOk(t) && c < |routes| && i < |routes[c]|
    ensures var b := BlockedWait(t, noc, routes, c, i); b.Some? ==> b.value == Blocking(t, noc, routes, c, i)
  {
    hide Lookup, Users, Wait;
  }

  ghost predicate PacketExact(t: Timing, noc: Buffers, routes: seq<Route>, c: nat, upTo: nat)
    requires TimingOk(t) && c < |routes| && upTo <= |routes[c]|
  {
    forall i :: 0 <= i < upTo ==> Exact(t, noc, routes, c, i)
  }

  ghost predicate AllExact(t: Timing, noc: Buffers, routes: seq<Route>, c: nat)
    requires TimingOk(t) && c <= |routes|
  {
    forall d :: 0 <= d < c ==> PacketExact(t, noc, routes, d, |routes[d]|)
  }

  // The state while packet c is served.
  ghost predicate ServingExactly(t: Timing, p: Progress, routes: seq<Route>, c: nat, i: nat)
    requires TimingOk(t) && c < |routes| && i <= |routes[c]|
  {
    && Agrees(p.noc, routes) && AllExact(t, p.noc, routes, c) && PacketExact(t, p.noc, routes, c, i)
    && p.met == Remembered(p.noc, routes, c, i)
  }

  lemma ExactNow(t: Timing, p: Progress, packets: seq<Packet>, c: nat, i: nat)
    requires TimingOk(t) && c < |packets| && i < |packets[c].route|
    requires |RoutesOf(packets)| == |packets| && RoutesOf(packets)[c] == packets[c].route
    requires Agrees(p.noc, RoutesOf(packets)) && p.met == Remembered(p.noc, RoutesOf(packets), c, i)
    ensures var w := HopWait(t, p.noc, packets, c, i, p.met); w.Some? ==>
      var noc' := Recorded(p.noc, packets[c].route[i], c + 1, w.value);
      && Exact(t, noc', RoutesOf(packets), c, i)
      && NextMet(Buffer(p.noc, packets[c].route[i]), c + 1, p.met) == Remembered(noc', RoutesOf(packets), c, i + 1)
  {
    hide BufferWait, BlockedWait, NextMet, Behind, Blocking, Remembered, Recorded, Wait, Agrees, RoutesOf;
    var routes := RoutesOf(packets);
    BehindIs(t, p.noc, routes, c, i);
    BlockingIs(t, p.noc, routes, c, i);
    var w := HopWait(t, p.noc, packets, c, i, p.met);
    if w.Some? {
      PartsKept(t, p.noc, routes, c, i, packets[c].route[i], c + 1, w.value);
      WaitRecorded(p.noc, packets[c].route[i], c + 1, w.value, packets[c].route[i], c + 1);
      RememberedKept(p.noc, routes, c, i + 1, packets[c].route[i], w.value);
    }
  }

  lemma ExactHop(t: Timing, p: Progress, packets: seq<Packet>, c: nat, i: nat, sizeX: nat, sizeY: nat)
    requires TimingOk(t) && c < |packets| && i < |packets[c].route| && RoutesOk(RoutesOf(packets), sizeX, sizeY)
    requires |RoutesOf(packets)| == |packets| && RoutesOf(packets)[c] == packets[c].route
    requires ServingExactly(t, p, RoutesOf(packets), c, i)
    ensures var p' := Advance(t, p, packets, c, i, sizeX); p'.Some? ==> ServingExactly(t, p'.value, RoutesOf(packets), c, i + 1)
  {
    hide Exact, HopWait, NextMet, Charge, RouterIndex, Recorded, Remembered, RoutesOf, Agrees, Users;
    var routes := RoutesOf(packets);
    var h := packets[c].route[i];
    var w := HopWait(t, p.noc, packets, c, i, p.met);
    OnOwnRoute(p.noc, packets, c, i);
    ExactNow(t, p, packets, c, i);
    DistinctHops(routes, c, sizeX, sizeY);
    if w.Some? {
      var noc' := Recorded(p.noc, h, c + 1, w.value);
      AgreesRecorded(p.noc, routes, h, c + 1, w.value);
      forall d | 0 <= d < c ensures PacketExact(t, noc', routes, d, |routes[d]|) {
        forall k | 0 <= k < |routes[d]| ensures Exact(t, noc', routes, d, k) {
          assert PacketExact(t, p.noc, routes, d, |routes[d]|);
          ExactKept(t, p.noc, routes, d, k, h, c + 1, w.value);
        }
      }
      forall k | 0 <= k < i + 1 ensures Exact(t, noc', routes, c, k) {
        if k < i { ExactKept(t, p.noc, routes, c, k, h, c + 1, w.value); }
      }
    }
  }

  lemma AgreesRecorded(noc: Buffers, routes: seq<Route>, h: Hop, id: nat, w: real)
    requires Agrees(noc, routes) && id in Users(routes, h)
    ensures Agrees(Recorded(noc, h, id, w), routes)
  {
    hide Users;
    var r := Recorded(noc, h, id, w);
    forall g ensures Buffer(r, g).Keys == Users(routes, g) { assert Buffer(noc, g).Keys == Users(routes, g); }
  }

  lemma DistinctHops(routes: seq<Route>, c: nat, sizeX: nat, sizeY: nat)
    requires RoutesOk(routes, sizeX, sizeY) && c < |routes|
    ensures forall a, b :: 0 <= a < b < |routes[c]| ==> routes[c][a] != routes[c][b]
  {
    assert RouteOk(routes[c], sizeX, sizeY);
  }

  lemma {:induction false} ExactHops(t: Timing, noc: Buffers, waits: seq<real>, packets: seq<Packet>, c: nat, i: nat, sizeX: nat, sizeY: nat)
    requires TimingOk(t) && c < |packets| && i <= |packets[c].route| && RoutesOk(RoutesOf(packets), sizeX, sizeY)
    requires |RoutesOf(packets)| == |packets| && RoutesOf(packets)[c] == packets[c].route
    requires Agrees(noc, RoutesOf(packets)) && AllExact(t, noc, RoutesOf(packets), c)
    ensures var p := AfterHops(t, noc, waits, packets, c, i, sizeX); p.Some? ==> ServingExactly(t, p.value, RoutesOf(packets), c, i)
    decreases i
  {
    hide Advance, RoutesOf, AllExact, Agrees;
    if i > 0 {
      ExactHops(t, noc, waits, packets, c, i - 1, sizeX, sizeY);
      var p := AfterHops(t, noc, waits, packets, c, i - 1, sizeX);
      if p.Some? { ExactHop(t, p.value, packets, c, i - 1, sizeX, sizeY); }
    }
  }

  lemma {:induction false} ExactPackets(t: Timing, noc: Buffers, waits: seq<real>, packets: seq<Packet>, c: nat, sizeX: nat, sizeY: nat)
    requires TimingOk(t) && c <= |packets| && RoutesOk(RoutesOf(packets), sizeX, sizeY) && Agrees(noc, RoutesOf(packets))
    ensures |RoutesOf(packets)| == |packets|
    ensures var p := AfterPackets(t, noc, waits, packets, c, sizeX);
      p.Some? ==> Agrees(p.value.0, RoutesOf(packets)) && AllExact(t, p.value.0, RoutesOf(packets), c)
    decreases c
  {
    hide AfterHops, Agrees, PacketExact, Remembered;
    if c > 0 {
      ExactPackets(t, noc, waits, packets, c - 1, sizeX, sizeY);
      var p := AfterPackets(t, noc, waits, packets, c - 1, sizeX);
      if p.Some? {
        assert RoutesOf(packets)[c - 1] == packets[c - 1].route;
        ExactHops(t, p.value.0, p.value.1, packets, c - 1, |packets[c - 1].route|, sizeX, sizeY);
      }
    }
  }

  // Over all traffic: the wait of every packet at every hop is its wait behind the packet ahead plus
  // its wait for the packet that blocks it, both read off the final waits of earlier packets.
  lemma WaitEquations(t: Timing, start: Buffers, before: seq<Packet>, waits0: seq<real>, noc: Buffers, waits: seq<real>, packets: seq<Packet>, sum: real,
                      sizeX: nat, sizeY: nat, c: nat, i: nat)
    requires TimingOk(t) && Interval(start, before, sizeX, sizeY)
    requires Computed(t, start, before, waits0, noc, waits, packets, |packets|, sum, sizeX, sizeY)
    requires c < |RoutesOf(before)| && i < |RoutesOf(before)[c]|
    ensures Wait(noc, RoutesOf(before)[c][i], c + 1) == Behind(t, noc, RoutesOf(before), c, i) + Blocking(t, noc, RoutesOf(before), c, i)
  {
    hide AfterPackets, RoutesOk, Agrees, WaitsOk, SafeDepth, ZeroLoad, SumTimes, RoutesOf, Behind, Blocking, Wait;
    ExactPackets(t, start, waits0, before, |before|, sizeX, sizeY);
    assert PacketExact(t, noc, RoutesOf(before), c, |RoutesOf(before)[c]|);
    assert Exact(t, noc, RoutesOf(before), c, i);
  }

  // Packet p is ahead of packet number c in the port of its i-th hop and goes on to another port b,
  // where at least as many packets are ahead of it as the buffers hold; q is the packet that many
  // places further ahead, and goes on to b too.
  ghost predicate Blocked(routes: seq<Route>, c: nat, i: nat, depth: nat, channels: nat, p: nat, b: Hop, q: nat)
    requires depth >= 1 && channels >= 1
  {
    && c < |routes| && i + 1 < |routes[c]| && routes[c][i].port != Local
    && var ks := Users(routes, routes[c][i]);
       && Lower(ks, c + 1) != {} && p == Before(ks, c + 1) && b == NextHop(routes, p, routes[c][i])
       && b != routes[c][i + 1] && |Lower(Users(routes, b), p)| >= depth * channels
       && PlacesBefore(ks, p, StepsBack(depth, channels), q) && q in Users(routes, b)
  }

  lemma BlockedLookup(routes: seq<Route>, c: nat, i: nat, depth: nat, channels: nat, p: nat, b: Hop, q: nat)
    requires depth >= 1 && channels >= 1 && Blocked(routes, c, i, depth, channels, p, b, q)
    ensures Lookup(routes, c, i, depth, channels) == Some((b, Some(q)))
  {
    hide Users, StepBack, StepsBack, PlacesBefore, NextHop;
    StepBackFinds(Users(routes, routes[c][i]), p, StepsBack(depth, channels), q);
  }

  // Head-of-line blocking, over all traffic: a blocked packet waits in its own port at least as long
  // as the packet that blocks it waits in the port that is blocked.
  lemma BlockedPays(t: Timing, start: Buffers, before: seq<Packet>, waits0: seq<real>, noc: Buffers, waits: seq<real>, packets: seq<Packet>, sum: real,
                    sizeX: nat, sizeY: nat, c: nat, i: nat, p: nat, b: Hop, q: nat)
    requires TimingOk(t) && Interval(start, before, sizeX, sizeY)
    requires Computed(t, start, before, waits0, noc, waits, packets, |packets|, sum, sizeX, sizeY)
    requires Blocked(RoutesOf(before), c, i, t.depth, t.channels, p, b, q)
    ensures Wait(noc, RoutesOf(before)[c][i], c + 1) >= Wait(noc, b, q)
  {
    hide Interval, RoutesOf, Lookup, Wait, Behind, AfterPackets, SafeDepth, WaitsOk, ZeroLoad, SumTimes;
    WaitEquations(t, start, before, waits0, noc, waits, packets, sum, sizeX, sizeY, c, i);
    BlockedLookup(RoutesOf(before), c, i, t.depth, t.channels, p, b, q);
    BehindNonNegative(t, noc, RoutesOf(before), c, i);
  }

  lemma BehindNonNegative(t: Timing, noc: Buffers, routes: seq<Route>, c: nat, i: nat)
    requires TimingOk(t) && c < |routes| && i < |routes[c]| && WaitsOk(noc)
    ensures Behind(t, noc, routes, c, i) >= 0.0
  {
    hide Users, Ahead, MetAt;
    var a := Ahead(routes, c, i);
    if a.Some? && a.value in Buffer(noc, routes[c][i]) { assert WaitOk(Buffer(noc, routes[c][i]), a.value); }
  }

  lemma StepBackFinds(ks: set<nat>, p: nat, n: nat, q: nat)
    requires p in ks && PlacesBefore(ks, p, n, q)
    ensures StepBack(ks, p, n) == Some(q)
  {
    hide StepBack, Lower;
    StepBackIs(ks, p, n);
    RankUnique(ks, q, StepBack(ks, p, n).value);
  }
}
