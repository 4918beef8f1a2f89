/** What a new route does to the buffers and the counters of the mesh. */
module MeshTraffic {
  import opened NoCShapes
  import opened MeshRoutes
  import opened PacketBuffers
  import opened PacketLatencies

  // The counter of a router.
  function RouterIndex(h: Hop, sizeX: nat): nat { h.x + h.y * sizeX }

  // The flits id .. id + n - 1 have entered the buffers along a path; no waiting time has changed.
  ghost predicate Entered(noc: Buffers, noc': Buffers, path: Route, id: nat, n: nat) {
    && (forall g, k :: k in Buffer(noc', g) <==> k in Buffer(noc, g) || (g in path && id <= k < id + n))
    && (forall g, k :: Wait(noc', g, k) == Wait(noc, g, k))
  }

  lemma EnteredMore(noc: Buffers, noc': Buffers, noc'': Buffers, path: Route, h: Hop, id: nat, n: nat)
    requires Entered(noc, noc', path, id, n) && Entered(noc', noc'', [h], id, n)
    ensures Entered(noc, noc'', path + [h], id, n)
  {
    forall g, k ensures Wait(noc'', g, k) == Wait(noc, g, k) { assert Wait(noc'', g, k) == Wait(noc', g, k); }
    forall g, k ensures k in Buffer(noc'', g) <==> k in Buffer(noc, g) || (g in path + [h] && id <= k < id + n) {
      assert k in Buffer(noc'', g) <==> k in Buffer(noc', g) || (g in [h] && id <= k < id + n);
      assert g in path + [h] <==> g in path || g == h;
    }
  }

  ghost function Copies(n: nat, path: Route): seq<Route> { seq(n, _ => path) }

  // Saved packets and entered flits agree again.
  lemma EnteredAgrees(noc: Buffers, noc': Buffers, routes: seq<Route>, path: Route, n: nat)
    requires Agrees(noc, routes) && Entered(noc, noc', path, |routes| + 1, n)
    ensures Agrees(noc', routes + Copies(n, path))
  {
    var routes' := routes + Copies(n, path);
    forall h ensures Buffer(noc', h).Keys == Users(routes', h) {
      assert Buffer(noc, h).Keys == Users(routes, h);
      forall k: nat ensures k in Buffer(noc', h) <==> k in Users(routes', h) {
        assert Uses(routes', k, h) <==> Uses(routes, k, h) || (h in path && |routes| + 1 <= k < |routes| + 1 + n);
      }
    }
  }

  lemma {:induction false} LengthOfCopies(routes: seq<Route>, path: Route, n: nat)
    ensures Length(routes + Copies(n, path)) == Length(routes) + n * |path|
  {
    if n == 0 {
      assert routes + Copies(n, path) == routes;
    } else {
      assert (routes + Copies(n, path))[..|routes| + n - 1] == routes + Copies(n - 1, path);
      LengthOfCopies(routes, path, n - 1);
      assert n * |path| == (n - 1) * |path| + |path|;
    }
  }

  // ------------------------------------------------------------------ packet counters

  ghost function Sum(s: seq<nat>): nat { if s == [] then 0 else Sum(s[..|s| - 1]) + s[|s| - 1] }

  lemma {:induction false} SumUpdate(s: seq<nat>, i: nat, n: nat)
    requires i < |s|
    ensures Sum(s[i := s[i] + n]) == Sum(s) + n
  {
    var s' := s[i := s[i] + n];
    if i == |s| - 1 {
      assert s'[..|s| - 1] == s[..|s| - 1];
    } else {
      assert s'[..|s| - 1] == s[..|s| - 1][i := s[i] + n];
      SumUpdate(s[..|s| - 1], i, n);
    }
  }

  lemma {:induction false} SumZeros(n: nat)
    ensures Sum(seq(n, _ => 0)) == 0 && SumTimes(seq(n, _ => 0.0)) == 0.0
  {
    if n > 0 {
      assert seq(n, _ => 0)[..n - 1] == seq(n - 1, _ => 0) && seq(n, _ => 0.0)[..n - 1] == seq(n - 1, _ => 0.0);
      SumZeros(n - 1);
    }
  }

  // How often a path visits router r.
  ghost function Visits(path: Route, r: nat, sizeX: nat): nat {
    if path == [] then 0 else
    Visits(path[..|path| - 1], r, sizeX) + if RouterIndex(path[|path| - 1], sizeX) == r then 1 else 0
  }

  // Every router counts the flits once per visit.
  ghost predicate Counted(counts: seq<nat>, counts': seq<nat>, path: Route, n: nat, sizeX: nat) {
    |counts'| == |counts| && forall r :: 0 <= r < |counts| ==> counts'[r] == counts[r] + n * Visits(path, r, sizeX)
  }

  lemma CountedMore(counts: seq<nat>, counts': seq<nat>, path: Route, h: Hop, n: nat, sizeX: nat)
    requires Counted(counts, counts', path, n, sizeX) && RouterIndex(h, sizeX) < |counts|
    ensures |counts'| == |counts|
    ensures var r := RouterIndex(h, sizeX); Counted(counts, counts'[r := counts'[r] + n], path + [h], n, sizeX)
  {
    assert (path + [h])[..|path|] == path;
    forall r | 0 <= r < |counts| ensures n * Visits(path + [h], r, sizeX) ==
      n * Visits(path, r, sizeX) + if RouterIndex(h, sizeX) == r then n else 0
    {
      var v := Visits(path, r, sizeX);
      assert n * (v + 1) == n * v + n;
    }
  }

  lemma {:induction false} CountedSum(counts: seq<nat>, counts': seq<nat>, path: Route, n: nat, sizeX: nat)
    requires Counted(counts, counts', path, n, sizeX) && forall k :: 0 <= k < |path| ==> RouterIndex(path[k], sizeX) < |counts|
    ensures Sum(counts') == Sum(counts) + n * |path|
    decreases |path|
  {
    hide Counted, Visits, RouterIndex, Sum;
    if path == [] {
      CountedNone(counts, counts', n, sizeX);
    } else {
      var m := |path| - 1;
      var r := RouterIndex(path[m], sizeX);
      Uncount(counts, counts', path, n, sizeX);
      var mid := counts'[r := counts'[r] - n];
      CountedSum(counts, mid, path[..m], n, sizeX);
      SumUpdate(mid, r, n);
      assert mid[r := mid[r] + n] == counts';
      OneMore(n, m);
    }
  }

  lemma CountedNone(counts: seq<nat>, counts': seq<nat>, n: nat, sizeX: nat)
    requires Counted(counts, counts', [], n, sizeX)
    ensures counts' == counts
  {
  }

  lemma OneMore(n: nat, m: nat)
    ensures n * (m + 1) == n * m + n
  {
  }

  lemma Uncount(counts: seq<nat>, counts': seq<nat>, path: Route, n: nat, sizeX: nat)
    requires path != [] && Counted(counts, counts', path, n, sizeX) && RouterIndex(path[|path| - 1], sizeX) < |counts|
    ensures var (m, r) := (|path| - 1, RouterIndex(path[|path| - 1], sizeX));
      |counts'| == |counts| && counts'[r] >= n && Counted(counts, counts'[r := counts'[r] - n], path[..m], n, sizeX)
  {
    var m := |path| - 1;
    forall q | 0 <= q < |counts| ensures n * Visits(path, q, sizeX) ==
      n * Visits(path[..m], q, sizeX) + if RouterIndex(path[m], sizeX) == q then n else 0
    {
      var v := Visits(path[..m], q, sizeX);
      assert n * (v + 1) == n * v + n;
    }
  }

  // ------------------------------------------------------------------ one router

  lemma SameRouter(h: Hop, x: nat, y: nat, sizeX: nat)
    requires h.x < sizeX && x < sizeX
    ensures RouterIndex(h, sizeX) == x + y * sizeX <==> At(h) == Pos(x, y)
  {
    PositionOf(h.y * sizeX + h.x, h.y, h.x, sizeX);
    PositionOf(y * sizeX + x, y, x, sizeX);
  }

  // The path visits the router in column x and row y.
  ghost predicate Passes(path: Route, x: nat, y: nat) { exists k :: 0 <= k < |path| && At(path[k]) == Pos(x, y) }

  lemma PassesLast(path: Route, x: nat, y: nat)
    requires path != []
    ensures Passes(path, x, y) <==> Passes(path[..|path| - 1], x, y) || At(path[|path| - 1]) == Pos(x, y)
  {
    var m := |path| - 1;
    if k :| 0 <= k < m && At(path[..m][k]) == Pos(x, y) { assert At(path[k]) == Pos(x, y); }
    if k :| 0 <= k < m && At(path[k]) == Pos(x, y) { assert At(path[..m][k]) == Pos(x, y); }
  }

  lemma {:induction false} VisitsOnce(path: Route, x: nat, y: nat, sizeX: nat)
    requires x < sizeX && (forall k :: 0 <= k < |path| ==> path[k].x < sizeX)
    requires forall i, k :: 0 <= i < k < |path| ==> At(path[i]) != At(path[k])
    ensures Visits(path, x + y * sizeX, sizeX) == if Passes(path, x, y) then 1 else 0
    decreases |path|
  {
    hide Passes, RouterIndex;
    if path == [] {
      PassesNothing(x, y);
    } else {
      var m := |path| - 1;
      VisitsOnce(path[..m], x, y, sizeX);
      PassesLast(path, x, y);
      SameRouter(path[m], x, y, sizeX);
      if At(path[m]) == Pos(x, y) { NotEarlierRouter(path, x, y); }
    }
  }

  lemma PassesNothing(x: nat, y: nat)
    ensures !Passes([], x, y)
  {
  }

  lemma NotEarlierRouter(path: Route, x: nat, y: nat)
    requires path != [] && At(path[|path| - 1]) == Pos(x, y) && forall i, k :: 0 <= i < k < |path| ==> At(path[i]) != At(path[k])
    ensures !Passes(path[..|path| - 1], x, y)
  {
    var m := |path| - 1;
    forall k | 0 <= k < m ensures At(path[..m][k]) != Pos(x, y) { assert path[..m][k] == path[k]; }
  }

  // The counter at x + y * sizeX is the one of the router in column x and row y: it grows by the flits
  // exactly if the XY route passes that router.
  lemma RouterCounts(counts: seq<nat>, counts': seq<nat>, s: Pos, d: Pos, flits: nat, sizeX: nat, sizeY: nat, x: nat, y: nat)
    requires Counted(counts, counts', XYRoute(s, d), flits, sizeX) && |counts| == sizeX * sizeY
    requires Inside(s, sizeX, sizeY) && Inside(d, sizeX, sizeY) && x < sizeX && y < sizeY
    ensures x + y * sizeX < |counts| == |counts'|
    ensures counts'[x + y * sizeX] == counts[x + y * sizeX] + if Passes(XYRoute(s, d), x, y) then flits else 0
  {
    hide XYRoute, Passes, RouterIndex, Visits;
    var path := XYRoute(s, d);
    RowBound(y, sizeY, sizeX);
    forall k | 0 <= k < |path| ensures path[k].x < sizeX { XYRouteNears(s, d, k); assert Inside(At(path[k]), sizeX, sizeY); }
    forall i, k | 0 <= i < k < |path| ensures At(path[i]) != At(path[k]) { XYRouteSimple(s, d, i, k); }
    VisitsOnce(path, x, y, sizeX);
  }
}
