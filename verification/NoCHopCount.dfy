/** Hop counts of the contention-free network model (C_NoCNoContention). */
module NoCHopCount {
  import opened Dijkstra
  import opened NoCHops
  import opened NoCRouting

  // Links[(router, RoutingTables[router][slave])]; operator[] makes a missing entry zero.
  function Next(links: Links, tables: Tables, router: nat, slave: nat): (nat, nat) {
    var port := if (router, slave) in tables then tables[(router, slave)] else 0;
    if (router, port) in links then links[(router, port)] else (0, 0)
  }

  ghost function HopsTo(g: Graph, n: nat, r: nat, t: nat): nat
    requires Connected(g, n) && r < n && t < n
  {
    if r == t then 0 else ConnectedReaches(g, n, r, t); Hops(g, r, t)
  }

  lemma NextIsNearer(g: Graph, n: nat, links: Links, tables: Tables, r: nat, t: nat)
    requires Connected(g, n) && Routes(g, n, links, tables) && r < n && t < n && r != t
    ensures var m := Next(links, tables, r, t).0; m < n && HopsTo(g, n, m, t) + 1 == HopsTo(g, n, r, t)
  {
    assert LeadsNearer(g, links, tables, r, t);
    var m := Next(links, tables, r, t).0;
    HopsZero(g, m, t);
  }

  // The loop that follows the tables from one router to one target.
  method CountHops(n: nat, next: array2<(nat, nat)>, router: nat, slave: nat, ghost g: Graph, ghost links: Links, ghost tables: Tables)
    returns (count: nat)
    requires next.Length0 == next.Length1 == n && router < n && slave < n
    requires forall r, t :: 0 <= r < n && 0 <= t < n ==> next[r, t] == Next(links, tables, r, t)
    requires Connected(g, n) && Routes(g, n, links, tables)
    ensures count == HopsTo(g, n, router, slave)
  {
    hide Connected, Routes;
    count := 0;
    var cur: nat := router;
    while cur != slave
      invariant cur < n && count + HopsTo(g, n, cur, slave) == HopsTo(g, n, router, slave)
      decreases HopsTo(g, n, cur, slave)
    {
      NextIsNearer(g, n, links, tables, cur, slave);
      var nexts := next[cur, slave];
      count := count + 1;
      cur := nexts.0;
    }
  }

  // before_end_of_elaboration: every hop count is the length of a shortest path.
  method HopCounts(n: nat, links: Links, tables: Tables, ghost g: Graph) returns (hops: array2<nat>)
    requires Connected(g, n) && Routes(g, n, links, tables)
    ensures fresh(hops) && hops.Length0 == hops.Length1 == n
    ensures forall r, t :: 0 <= r < n && 0 <= t < n ==> hops[r, t] == HopsTo(g, n, r, t)
  {
    hide Connected, Routes;
    var next := new (nat, nat)[n, n]((r: nat, t: nat) => Next(links, tables, r, t));
    hops := new nat[n, n];
    var router := 0;
    while router < n
      invariant router <= n
      invariant forall r, t :: 0 <= r < router && 0 <= t < n ==> hops[r, t] == HopsTo(g, n, r, t)
      modifies hops
    {
      var slave := 0;
      while slave < n
        invariant slave <= n
        invariant forall r, t :: 0 <= r < router && 0 <= t < n ==> hops[r, t] == HopsTo(g, n, r, t)
        invariant forall t :: 0 <= t < slave ==> hops[router, t] == HopsTo(g, n, router, t)
        modifies hops
      {
        var c := CountHops(n, next, router, slave, g, links, tables);
        hops[router, slave] := c;
        slave := slave + 1;
      }
      router := router + 1;
    }
  }
}
