/** The topology of a network on chip and its default routing tables (C_NoCBase). */
module NoCRouting {
  import opened Options
  import opened Dijkstra
  import opened NoCHops

  type Links = map<(nat, nat), (nat, nat)>    // (router, output port) to (router, input port)
  type Ports = map<(nat, nat), nat>           // (router, neighbour) to output port
  type Tables = map<(nat, nat), nat>          // (router, target) to output port

  // Every recorded port leads to the neighbour it is recorded for.
  ghost predicate PortsLead(links: Links, portTo: Ports) {
    forall k :: k in portTo ==> (k.0, portTo[k]) in links && links[(k.0, portTo[k])].0 == k.1
  }

  // Every edge of the graph has a recorded port.
  ghost predicate EdgesHavePorts(g: Graph, portTo: Ports) {
    forall u: nat, v: nat :: Linked(g, u, v) ==> (u, v) in portTo
  }

  // NoCGraph after a link is added.
  function Grown(g: Graph, src: nat, dst: nat): (r: Graph) {
    var h := if src < |g| then g else g + seq(src + 1 - |g|, _ => []);
    h[src := h[src] + [Edge(dst, 1.0)]]
  }

  lemma GrownIs(g: Graph, src: nat, dst: nat)
    ensures var r := Grown(g, src, dst);
      && |r| == (if src < |g| then |g| else src + 1)
      && forall u :: 0 <= u < |r| ==>
           r[u] == (if u < |g| then g[u] else []) + if u == src then [Edge(dst, 1.0)] else []
  {
  }

  // The router that the table of r names for target t.
  ghost function NextRouter(links: Links, tables: Tables, r: nat, t: nat): nat {
    if (r, t) in tables && (r, tables[(r, t)]) in links then links[(r, tables[(r, t)])].0 else 0
  }

  // The entry of r for t leads one hop nearer to t.
  ghost predicate LeadsNearer(g: Graph, links: Links, tables: Tables, r: nat, t: nat) {
    && (r, t) in tables && (r, tables[(r, t)]) in links
    && var m := links[(r, tables[(r, t)])].0;
       Reachable(g, r, t) && m < |g| && Reachable(g, m, t) && Hops(g, r, t) == Hops(g, m, t) + 1
  }

  // Entries lead nearer, to the target or to a router that has an entry too; while a path is being
  // entered, its next router is still pending.
  ghost predicate TablesOk(g: Graph, links: Links, tables: Tables, t: nat, pending: int) {
    forall r: nat :: (r, t) in tables ==> r < |g| && LeadsNearer(g, links, tables, r, t) && Continues(links, tables, r, t, pending)
  }

  ghost predicate Continues(links: Links, tables: Tables, r: nat, t: nat, pending: int) {
    var m := NextRouter(links, tables, r, t);
    m == t || (m, t) in tables || m == pending
  }

  lemma UnitIsProper(g: Graph)
    requires UnitGraph(g)
    ensures Proper(g)
  {
  }

  lemma ShortestWalkHops(g: Graph, nodes: seq<nat>, w: real, s: nat, t: nat)
    requires UnitGraph(g) && ShortestWalk(g, nodes, w, s, t)
    ensures ChainBetween(g, nodes, s, t) && |nodes| == Hops(g, s, t) + 1
  {
    WalkIsChain(g, nodes, w);
    assert ChainBetween(g, nodes, s, t);
    var m := ShortestChain(g, s, t);
    WalkIsChain(g, m, (|m| - 1) as real);
    assert WalkBetween(g, m, (|m| - 1) as real, s, t);
  }

  lemma NoWalkMeansUnreachable(g: Graph, s: nat, t: nat)
    requires UnitGraph(g) && Reachable(g, s, t)
    ensures exists nodes, w :: WalkBetween(g, nodes, w, s, t)
  {
    var m: seq<nat> :| ChainBetween(g, m, s, t);
    WalkIsChain(g, m, (|m| - 1) as real);
    assert WalkBetween(g, m, (|m| - 1) as real, s, t);
  }

  // One more router of a shortest chain gets its entry.
  lemma EntryAdded(g: Graph, links: Links, portTo: Ports, tables: Tables, t: nat, cur: nat, next: nat)
    requires PortsLead(links, portTo) && EdgesHavePorts(g, portTo) && TablesOk(g, links, tables, t, cur)
    requires Linked(g, cur, next) && Reachable(g, cur, t) && Reachable(g, next, t) && Hops(g, cur, t) == Hops(g, next, t) + 1
    requires (cur, t) !in tables
    ensures (cur, next) in portTo
    ensures TablesOk(g, links, tables[(cur, t) := portTo[(cur, next)]], t, next)
  {
    var tables' := tables[(cur, t) := portTo[(cur, next)]];
    forall r: nat | (r, t) in tables'
      ensures r < |g| && LeadsNearer(g, links, tables', r, t) && Continues(links, tables', r, t, next)
    {
      if r != cur {
        assert (r, t) in tables && LeadsNearer(g, links, tables, r, t) && Continues(links, tables, r, t, cur);
      }
    }
  }

  lemma OtherTargetKept(g: Graph, links: Links, tables: Tables, t: nat, cur: nat, port: nat, other: nat)
    requires other != t && TablesOk(g, links, tables, other, -1)
    ensures TablesOk(g, links, tables[(cur, t) := port], other, -1)
  {
    var tables' := tables[(cur, t) := port];
    forall r: nat | (r, other) in tables'
      ensures r < |g| && LeadsNearer(g, links, tables', r, other) && Continues(links, tables', r, other, -1)
    {
      assert (r, other) in tables && LeadsNearer(g, links, tables, r, other) && Continues(links, tables, r, other, -1);
    }
  }

  // Every edge costs one, joins known routers and has a recorded port.
  ghost predicate GraphOk(g: Graph, routers: set<nat>, portTo: Ports) {
    forall u, i :: 0 <= u < |g| && 0 <= i < |g[u]| ==>
      g[u][i].weight == 1.0 && g[u][i].to in routers && u in routers && (u, g[u][i].to) in portTo
  }

  // Every router has a port counter.
  ghost predicate HasCounter(ports: map<nat, nat>, routers: set<nat>) {
    forall r :: r in routers <==> r in ports
  }

  lemma CounterSteps(ports: map<nat, nat>, routers: set<nat>, r: nat)
    requires HasCounter(ports, routers) && r in routers
    ensures r in ports && HasCounter(ports[r := ports[r] + 1], routers)
  {
  }

  // No link uses a port number that is still to be given out.
  ghost predicate PortsCounted(links: Links, routers: set<nat>, outPorts: map<nat, nat>) {
    && HasCounter(outPorts, routers)
    && (forall k :: k in links ==> k.0 in routers && k.1 < outPorts[k.0])
  }

  lemma GraphHasPorts(g: Graph, routers: set<nat>, portTo: Ports)
    requires GraphOk(g, routers, portTo)
    ensures EdgesHavePorts(g, portTo)
  {
    forall u: nat, v: nat | Linked(g, u, v) ensures (u, v) in portTo {
      var i :| 0 <= i < |g[u]| && g[u][i] == Edge(v, 1.0);
    }
  }

  lemma GrownOk(g: Graph, routers: set<nat>, portTo: Ports, src: nat, dst: nat, port: nat)
    requires GraphOk(g, routers, portTo) && src in routers && dst in routers
    ensures GraphOk(Grown(g, src, dst), routers, portTo[(src, dst) := port])
  {
    var r: Graph := Grown(g, src, dst);
    GrownIs(g, src, dst);
    forall u: int, i: int | 0 <= u < |r| && 0 <= i < |r[u]|
      ensures r[u][i].weight == 1.0 && r[u][i].to in routers && u in routers && (u, r[u][i].to) in portTo[(src, dst) := port]
    {
      if u < |g| && i < |g[u]| { assert r[u][i] == g[u][i]; }
    }
  }

  lemma LinkKeepsPorts(links: Links, portTo: Ports, routers: set<nat>, outPorts: map<nat, nat>, src: nat, dst: nat, inPort: nat)
    requires PortsLead(links, portTo) && PortsCounted(links, routers, outPorts) && src in routers
    ensures var port := outPorts[src];
      && (src, port) !in links
      && PortsLead(links[(src, port) := (dst, inPort)], portTo[(src, dst) := port])
      && PortsCounted(links[(src, port) := (dst, inPort)], routers, outPorts[src := port + 1])
  {
  }

  ghost predicate Consistent(routers: set<nat>, outPorts: map<nat, nat>, inPorts: map<nat, nat>, links: Links, portTo: Ports, g: Graph) {
    && HasCounter(inPorts, routers)
    && PortsCounted(links, routers, outPorts)
    && PortsLead(links, portTo)
    && GraphOk(g, routers, portTo)
  }

  lemma RouterAdded(routers: set<nat>, outPorts: map<nat, nat>, inPorts: map<nat, nat>, links: Links, portTo: Ports, g: Graph, id: nat)
    requires Consistent(routers, outPorts, inPorts, links, portTo, g) && id !in routers
    ensures Consistent(routers + {id}, outPorts[id := 0], inPorts[id := 0], links, portTo, g)
  {
  }

  lemma LinkAdded(routers: set<nat>, outPorts: map<nat, nat>, inPorts: map<nat, nat>, links: Links, portTo: Ports, g: Graph, src: nat, dst: nat)
    requires Consistent(routers, outPorts, inPorts, links, portTo, g) && src in routers && dst in routers
    ensures src in outPorts && dst in inPorts && (src, outPorts[src]) !in links
    ensures var p, q := outPorts[src], inPorts[dst];
      Consistent(routers, outPorts[src := p + 1], inPorts[dst := q + 1], links[(src, p) := (dst, q)], portTo[(src, dst) := p], Grown(g, src, dst))
  {
    CounterSteps(outPorts, routers, src);
    CounterSteps(inPorts, routers, dst);
    LinkKeepsPorts(links, portTo, routers, outPorts, src, dst, inPorts[dst]);
    GrownOk(g, routers, portTo, src, dst, outPorts[src]);
    hide PortsLead, PortsCounted, GraphOk, HasCounter, Grown;
  }

  class NoCBase {
    var routers: set<nat>            // SlowRouterIDs
    var outPorts: map<nat, nat>      // RouterOutputPortsCount
    var inPorts: map<nat, nat>       // RouterInputPortsCount
    var links: Links                 // Links
    var portTo: Ports                // Routers2Port
    var graph: Graph                 // NoCGraph
    var tables: Tables               // RoutingTables

    ghost predicate Valid()
      reads this
    {
      Consistent(routers, outPorts, inPorts, links, portTo, graph)
    }

    constructor ()
      ensures Valid() && routers == {} && graph == [] && tables == map[]
    {
      routers, outPorts, inPorts, links, portTo, graph, tables := {}, map[], map[], map[], map[], [], map[];
    }

    method AddRouter(id: nat)
      requires Valid()
      modifies this`routers, this`outPorts, this`inPorts
      ensures Valid() && routers == old(routers) + {id}
      ensures SameCounters(old(outPorts), outPorts) && SameCounters(old(inPorts), inPorts)
    {
      hide Consistent;
      CountersKnown(routers, outPorts, inPorts, links, portTo, graph);
      if id !in routers {
        RouterAdded(routers, outPorts, inPorts, links, portTo, graph, id);
        routers := routers + {id};
        inPorts := inPorts[id := 0];
        outPorts := outPorts[id := 0];
      }
    }

    // The new link takes the next free port numbers on both sides; its routers are created when
    // they do not exist yet.
    method AddLink(src: nat, dst: nat)
      requires Valid()
      modifies this`routers, this`outPorts, this`inPorts, this`links, this`portTo, this`graph
      ensures Valid() && routers == old(routers) + {src, dst}
      ensures graph == Grown(old(graph), src, dst)
      ensures Joined(old(links), links, old(portTo), portTo, src, Counter(old(outPorts), src), dst, Counter(old(inPorts), dst))
      ensures CountedUp(old(outPorts), outPorts, src) && CountedUp(old(inPorts), inPorts, dst)
    {
      hide Consistent, Grown, SameCounters, CountedUp, Joined, Counter;
      ghost var (out0, in0) := (outPorts, inPorts);
      SameAsItself(outPorts);
      SameAsItself(inPorts);
      if src !in routers { AddRouter(src); }
      ghost var (out1, in1) := (outPorts, inPorts);
      if dst !in routers {
        AddRouter(dst);
        SameTwice(out0, out1, outPorts);
        SameTwice(in0, in1, inPorts);
      }
      LinkAdded(routers, outPorts, inPorts, links, portTo, graph, src, dst);
      UpByOne(out0, outPorts, src);
      UpByOne(in0, inPorts, dst);
      var outPort, inPort := outPorts[src], inPorts[dst];
      JoinedNow(links, portTo, src, outPort, dst, inPort);
      outPorts := outPorts[src := outPort + 1];
      inPorts := inPorts[dst := inPort + 1];
      links := links[(src, outPort) := (dst, inPort)];
      portTo := portTo[(src, dst) := outPort];
      graph := Grown(graph, src, dst);
    }

    // The first entry for a router and a target stays.
    method AddRouting(src: nat, target: nat, port: nat) returns (added: bool)
      modifies this`tables
      ensures added <==> (src, target) !in old(tables)
      ensures tables == if added then old(tables)[(src, target) := port] else old(tables)
    {
      if (src, target) in tables { return false; }
      tables := tables[(src, target) := port];
      return true;
    }

    // Enters the path (last node first) into the tables for its target, up to the first router that
    // has an entry already.
    method AddPath(path: seq<nat>, ghost g: Graph)
      requires |path| > 1 && PortsLead(links, portTo) && EdgesHavePorts(g, portTo) && Descending(g, path)
      requires AllTablesOk(g, links, tables)
      modifies this`tables
      ensures AllTablesOk(g, links, tables)
      ensures forall k :: k in old(tables) ==> k in tables
      ensures (path[|path| - 1], path[0]) in tables
    {
      ghost var t := path[0];
      assert OnPath(g, path, 0);
      var i := |path| - 1;
      SplitTables(g, links, tables, t, path[i]);
      hide TablesOk, OthersOk, AllTablesOk, PortsLead, EdgesHavePorts, Descending, Reachable, Linked;
      while i > 0
        invariant 0 <= i < |path| && t == path[0] < |g|
        invariant TablesOk(g, links, tables, t, path[i]) && OthersOk(g, links, tables, t)
        invariant forall k :: k in old(tables) ==> k in tables
        invariant i < |path| - 1 ==> (path[|path| - 1], t) in tables
      {
        var cur, next := path[i], path[i - 1];
        PathStep(g, path, i);
        LinkedHasPort(g, portTo, cur, next);
        var port := portTo[(cur, next)];
        ghost var before := tables;
        var added := AddRouting(cur, path[0], port);
        if !added {
          JoinTables(g, links, tables, t, cur);
          return;
        }
        EntryAdded(g, links, portTo, before, t, cur, next);
        OthersKept(g, links, before, t, cur, port);
        i := i - 1;
      }
      JoinTables(g, links, tables, t, t);
    }

    // One pair of routers: unless it has an entry, a shortest path is searched and entered.
    method RoutePair(master: nat, slave: nat)
      requires Valid() && UnitGraph(graph) && master < |graph| && slave < |graph| && Reachable(graph, master, slave)
      requires AllTablesOk(graph, links, tables)
      modifies this`tables
      ensures AllTablesOk(graph, links, tables)
      ensures forall k :: k in old(tables) ==> k in tables
      ensures master != slave ==> (master, slave) in tables
    {
      if master != slave && (master, slave) !in tables {
        UnitIsProper(graph);
        GraphHasPorts(graph, routers, portTo);
        assert PortsLead(links, portTo);
        hide Consistent, PortsLead, EdgesHavePorts, TablesOk, UnitGraph, Proper, ShortestWalk, WalkBetween, Descending, Reachable;
        var path;
        ghost var w;
        path, w := Dijkstra.Dijkstra(graph, master, slave);
        PathFound(graph, path, w, master, slave);
        AddPath(path.value, graph);
      }
    }

    // The routers are visited in increasing order.
    method BuildDefaultRoutingBidirectional(n: nat)
      requires Valid() && tables == map[] && Numbered(routers, n) && Connected(graph, n)
      modifies this`tables, this`graph
      ensures Routes(old(graph), n, links, tables)
      ensures graph == []
    {
      ghost var g := graph;
      if n > 1 { ConnectedIsUnit(g, n, routers, portTo); }
      assert AllTablesOk(g, links, tables);
      hide Consistent, AllTablesOk, UnitGraph, Connected, Entered;
      EnteredStart(tables, n);
      var master := 0;
      while master < n
        invariant master <= n && graph == g && Valid() && AllTablesOk(g, links, tables) && Entered(tables, n, master, 0)
      {
        var slave := 0;
        while slave < n
          invariant slave <= n && graph == g && Valid() && AllTablesOk(g, links, tables) && Entered(tables, n, master, slave)
        {
          if n > 1 {
            ConnectedReaches(g, n, master, slave);
            ghost var before := tables;
            RoutePair(master, slave);
            EnteredNext(before, tables, n, master, slave);
          } else {
            EnteredSelf(tables, n, master, slave);
          }
          slave := slave + 1;
        }
        EnteredRow(tables, n, master);
        master := master + 1;
      }
      AllEntered(g, n, links, tables);
      graph := [];
    }
  }

  // The next free port number of a router.
  ghost function Counter(ports: map<nat, nat>, r: nat): nat { if r in ports then ports[r] else 0 }

  ghost predicate SameCounters(a: map<nat, nat>, b: map<nat, nat>) { forall r :: Counter(a, r) == Counter(b, r) }

  // One more port of router r is in use.
  ghost predicate CountedUp(a: map<nat, nat>, b: map<nat, nat>, r: nat) {
    Counter(b, r) == Counter(a, r) + 1 && forall s :: s != r ==> Counter(b, s) == Counter(a, s)
  }

  // The link from output port p of src to input port q of dst is new, and recorded as the way from src to dst.
  ghost predicate Joined(links: Links, links': Links, portTo: Ports, portTo': Ports, src: nat, p: nat, dst: nat, q: nat) {
    (src, p) !in links && links' == links[(src, p) := (dst, q)] && portTo' == portTo[(src, dst) := p]
  }

  lemma SameAsItself(a: map<nat, nat>)
    ensures SameCounters(a, a)
  {
  }

  lemma SameTwice(a: map<nat, nat>, b: map<nat, nat>, c: map<nat, nat>)
    requires SameCounters(a, b) && SameCounters(b, c)
    ensures SameCounters(a, c)
  {
    forall r ensures Counter(a, r) == Counter(c, r) { assert Counter(a, r) == Counter(b, r); }
  }

  lemma UpByOne(a: map<nat, nat>, b: map<nat, nat>, r: nat)
    requires SameCounters(a, b) && r in b
    ensures b[r] == Counter(a, r) && CountedUp(a, b[r := b[r] + 1], r)
  {
    assert Counter(a, r) == Counter(b, r);
    forall s | s != r ensures Counter(b[r := b[r] + 1], s) == Counter(a, s) { assert Counter(a, s) == Counter(b, s); }
  }

  lemma JoinedNow(links: Links, portTo: Ports, src: nat, p: nat, dst: nat, q: nat)
    requires (src, p) !in links
    ensures Joined(links, links[(src, p) := (dst, q)], portTo, portTo[(src, dst) := p], src, p, dst, q)
  {
  }

  lemma CountersKnown(routers: set<nat>, outPorts: map<nat, nat>, inPorts: map<nat, nat>, links: Links, portTo: Ports, g: Graph)
    requires Consistent(routers, outPorts, inPorts, links, portTo, g)
    ensures forall r :: r in routers <==> r in outPorts
    ensures forall r :: r in routers <==> r in inPorts
  {
  }

  ghost predicate Numbered(routers: set<nat>, n: nat) {
    forall r: nat :: r in routers <==> r < n
  }

  ghost predicate AllTablesOk(g: Graph, links: Links, tables: Tables) {
    forall t :: 0 <= t < |g| ==> TablesOk(g, links, tables, t, -1)
  }

  // All targets of the routers before master, and the targets before slave of master itself.
  ghost predicate Entered(tables: Tables, n: nat, master: nat, slave: nat) {
    forall r, t :: 0 <= r < n && 0 <= t < n && r != t && (r < master || (r == master && t < slave)) ==> (r, t) in tables
  }

  lemma EnteredStart(tables: Tables, n: nat)
    ensures Entered(tables, n, 0, 0)
  {
  }

  lemma EnteredNext(before: Tables, tables: Tables, n: nat, master: nat, slave: nat)
    requires Entered(before, n, master, slave) && forall k :: k in before ==> k in tables
    requires master != slave ==> (master, slave) in tables
    ensures Entered(tables, n, master, slave + 1)
  {
  }

  lemma EnteredSelf(tables: Tables, n: nat, master: nat, slave: nat)
    requires Entered(tables, n, master, slave) && n <= 1
    ensures Entered(tables, n, master, slave + 1)
  {
  }

  lemma EnteredRow(tables: Tables, n: nat, master: nat)
    requires Entered(tables, n, master, n)
    ensures Entered(tables, n, master + 1, 0)
  {
  }

  // Routers 0..n-1 and a path between any two of them; a single router needs no graph.
  ghost predicate Connected(g: Graph, n: nat) {
    n > 1 ==> |g| == n && forall s, t :: 0 <= s < n && 0 <= t < n ==> Reachable(g, s, t)
  }

  // Every entry for every pair of routers leads one hop nearer.
  ghost predicate Routes(g: Graph, n: nat, links: Links, tables: Tables) {
    forall r, t :: 0 <= r < n && 0 <= t < n && r != t ==> LeadsNearer(g, links, tables, r, t)
  }

  lemma ConnectedIsUnit(g: Graph, n: nat, routers: set<nat>, portTo: Ports)
    requires n > 1 && Connected(g, n) && GraphOk(g, routers, portTo) && Numbered(routers, n)
    ensures UnitGraph(g)
  {
  }

  lemma ConnectedReaches(g: Graph, n: nat, s: nat, t: nat)
    requires n > 1 && Connected(g, n) && s < n && t < n
    ensures |g| == n && Reachable(g, s, t)
  {
  }

  lemma PathFound(g: Graph, path: Option<seq<nat>>, w: real, s: nat, t: nat)
    requires UnitGraph(g) && Reachable(g, s, t) && s != t
    requires path.Some? ==> ShortestWalk(g, Reversed(path.value), w, s, t)
    requires path.None? <==> forall p, z :: !WalkBetween(g, p, z, s, t)
    ensures path.Some? && |path.value| > 1 && Descending(g, path.value)
    ensures path.value[|path.value| - 1] == s && path.value[0] == t
  {
    NoWalkMeansUnreachable(g, s, t);
    ShortestWalkHops(g, Reversed(path.value), w, s, t);
    ShortestPathDescends(g, path.value, s, t);
    HopsZero(g, s, t);
  }

  lemma AllEntered(g: Graph, n: nat, links: Links, tables: Tables)
    requires Connected(g, n) && AllTablesOk(g, links, tables) && Entered(tables, n, n, 0)
    ensures Routes(g, n, links, tables)
  {
    forall r, t | 0 <= r < n && 0 <= t < n && r != t ensures LeadsNearer(g, links, tables, r, t) {
      assert TablesOk(g, links, tables, t, -1);
    }
  }

  // The i-th node of a path (last node first) is i hops from the target and linked to the one before.
  ghost predicate OnPath(g: Graph, path: seq<nat>, i: nat)
    requires i < |path|
  {
    && path[i] < |g| && Reachable(g, path[i], path[0]) && Hops(g, path[i], path[0]) == i
    && (i > 0 ==> Linked(g, path[i], path[i - 1]))
  }

  ghost predicate Descending(g: Graph, path: seq<nat>) {
    forall i :: 0 <= i < |path| ==> OnPath(g, path, i)
  }

  lemma PathStep(g: Graph, path: seq<nat>, i: nat)
    requires Descending(g, path) && 0 < i < |path|
    ensures Linked(g, path[i], path[i - 1]) && Reachable(g, path[i], path[0]) && Reachable(g, path[i - 1], path[0])
    ensures Hops(g, path[i], path[0]) == Hops(g, path[i - 1], path[0]) + 1
  {
    assert OnPath(g, path, i) && OnPath(g, path, i - 1);
  }

  lemma NodeOnPath(g: Graph, path: seq<nat>, nodes: seq<nat>, s: nat, t: nat, i: nat)
    requires i < |path| == |nodes| && forall k :: 0 <= k < |nodes| ==> nodes[k] == path[|path| - 1 - k]
    requires ChainBetween(g, nodes, s, t) && |nodes| == Hops(g, s, t) + 1
    ensures OnPath(g, path, i)
  {
    ShortestSuffix(g, nodes, s, t, |path| - 1 - i);
    if i > 0 { assert Linked(g, nodes[|path| - 1 - i], nodes[|path| - i]); }
  }

  lemma ShortestPathDescends(g: Graph, path: seq<nat>, s: nat, t: nat)
    requires ChainBetween(g, Reversed(path), s, t) && |path| == Hops(g, s, t) + 1
    ensures Descending(g, path)
  {
    var nodes := Reversed(path);
    hide Chain, Reversed, OnPath, Reachable;
    forall i | 0 <= i < |path| ensures OnPath(g, path, i) {
      NodeOnPath(g, path, nodes, s, t, i);
    }
  }

  lemma LinkedHasPort(g: Graph, portTo: Ports, u: nat, v: nat)
    requires EdgesHavePorts(g, portTo) && Linked(g, u, v)
    ensures (u, v) in portTo
  {
  }

  // The tables for all targets but t.
  ghost predicate OthersOk(g: Graph, links: Links, tables: Tables, t: nat) {
    forall o :: 0 <= o < |g| && o != t ==> TablesOk(g, links, tables, o, -1)
  }

  lemma OthersKept(g: Graph, links: Links, tables: Tables, t: nat, cur: nat, port: nat)
    requires OthersOk(g, links, tables, t)
    ensures OthersOk(g, links, tables[(cur, t) := port], t)
  {
    var tables' := tables[(cur, t) := port];
    forall o | 0 <= o < |g| && o != t ensures TablesOk(g, links, tables', o, -1) {
      OtherTargetKept(g, links, tables, t, cur, port, o);
    }
  }

  lemma SplitTables(g: Graph, links: Links, tables: Tables, t: nat, pending: int)
    requires AllTablesOk(g, links, tables) && t < |g|
    ensures TablesOk(g, links, tables, t, pending) && OthersOk(g, links, tables, t)
  {
    assert TablesOk(g, links, tables, t, -1);
    assert forall r: nat :: Continues(links, tables, r, t, -1) ==> Continues(links, tables, r, t, pending);
  }

  // The pending router is the target or has an entry: nothing is pending any more.
  lemma JoinTables(g: Graph, links: Links, tables: Tables, t: nat, pending: nat)
    requires TablesOk(g, links, tables, t, pending) && OthersOk(g, links, tables, t) && t < |g|
    requires pending == t || (pending, t) in tables
    ensures AllTablesOk(g, links, tables)
  {
    assert forall r: nat :: Continues(links, tables, r, t, pending) ==> Continues(links, tables, r, t, -1);
    assert TablesOk(g, links, tables, t, -1);
  }
}
