/** `StationGraph.findAllPaths`: the routes of Yen's algorithm, each with
    its legs re-read from the adjacency map, station coordinates, and its
    total cost and time. */
module AllPaths {
  import opened ExtReal
  import opened Results
  import opened StationGraph
  import opened Paths
  import opened Dijkstra
  import opened Yen

  datatype Coords = Coords(latitude: real, longitude: real)

  /** One formatted leg; `capacity` is always a number here. */
  datatype Leg = Leg(from: string, to: string, mode: string, cost: real, time: real, capacity: int,
                     fromCoords: Coords, toCoords: Coords)

  datatype Route = Route(path: seq<string>, legs: seq<Leg>, totalCost: Ext, totalTime: Ext)

  /** `edge.capacity || 1000`: a missing or zero capacity reads as 1000. */
  function LegCapacity(c: Option<int>): int {
    match c
    case Some(n) => if n != 0 then n else 1000
    case None => 1000
  }

  /** A route's legs always carry a table capacity: the mode's own, or
      1000 for a mode the table lacks. */
  lemma LegCapacityOfMode(mode: string)
    ensures LegCapacity(Capacity(mode)) in {1000, 2000, 5000}
    ensures Capacity(mode).Some? ==> LegCapacity(Capacity(mode)) == Capacity(mode).value
  {
  }

  /** The leg from `u` to `v`: the edge's values and both stations'
      coordinates. */
  function LegOf(g: Graph, u: string, v: string): Leg
    requires WellFormed(g) && HasEdge(g, u, v)
  {
    var e := g.adj[u][v];
    Leg(u, v, e.mode, e.cost, e.time, LegCapacity(e.capacity),
        Coords(g.nodes[u].lat, g.nodes[u].lng), Coords(g.nodes[v].lat, g.nodes[v].lng))
  }

  /** Leg `i` joins `p[i]` to `p[i + 1]`. */
  ghost predicate LegsFollow(g: Graph, p: seq<string>, legs: seq<Leg>) {
    && WellFormed(g)
    && |legs| == |p| - 1
    && forall i :: 0 <= i < |legs| ==>
         HasEdge(g, p[i], p[i + 1]) && legs[i] == LegOf(g, p[i], p[i + 1])
  }

  /** A route record for `path`: its legs and its sums in `g`. */
  ghost predicate Formatted(g: Graph, route: Route) {
    && LegsFollow(g, route.path, route.legs)
    && route.totalCost == PathSum(g, route.path, Cost)
    && route.totalTime == PathSum(g, route.path, Time)
  }

  /** The body of the `forEach`: one route record for a walk of the graph. */
  method FormatRoute(g: Graph, path: seq<string>) returns (route: Route)
    requires WellFormed(g) && |path| > 0 && IsWalk(g, path)
    ensures route.path == path
    ensures Formatted(g, route)
    ensures route.totalCost.Fin? && route.totalTime.Fin?
  {
    var legs: seq<Leg> := [];
    var i := 0;
    while i < |path| - 1
      invariant 0 <= i <= |path| - 1 && |legs| == i
      invariant forall t :: 0 <= t < i ==>
        HasEdge(g, path[t], path[t + 1]) && legs[t] == LegOf(g, path[t], path[t + 1])
    {
      assert HasEdge(g, path[i], path[i + 1]);
      var from, to := path[i], path[i + 1];
      var e := g.adj[from][to];
      var a, b := g.nodes[from], g.nodes[to];
      legs := legs + [Leg(from, to, e.mode, e.cost, e.time, LegCapacity(e.capacity),
                          Coords(a.lat, a.lng), Coords(b.lat, b.lng))];
      i := i + 1;
    }
    var cost := CalculatePathSum(g, path, Cost);
    var time := CalculatePathSum(g, path, Time);
    route := Route(path, legs, cost, time);
  }

  /** The `forEach` over the paths of Yen's algorithm. */
  method FormatRoutes(g: Graph, source: string, dest: string, ps: seq<PathInfo>) returns (routes: seq<Route>)
    requires WellFormed(g) && AllCandidates(g, source, dest, ps)
    ensures |routes| == |ps|
    ensures forall i :: 0 <= i < |ps| ==> routes[i].path == ps[i].path && Formatted(g, routes[i])
  {
    routes := [];
    var i := 0;
    while i < |ps|
      invariant 0 <= i <= |ps| && |routes| == i
      invariant forall t :: 0 <= t < i ==> routes[t].path == ps[t].path && Formatted(g, routes[t])
    {
      assert Candidate(g, source, dest, ps[i]);
      var route := FormatRoute(g, ps[i].path);
      routes := routes + [route];
      i := i + 1;
    }
  }

  /** `findAllPaths(source, destination, k)`: throws unless both stations
      exist; otherwise one route record per path of Yen's algorithm, in
      Yen's order (`ps`, with the candidate pools `pools` it picked them
      from, as `YenRoutes` states), the first a lowest-score path. */
  method FindAllPaths(g: Graph, source: string, dest: string, k: int)
    returns (r: Result<seq<Route>>, ghost ps: seq<PathInfo>, ghost pools: seq<seq<PathInfo>>)
    requires WellFormed(g) && NonNegative(g)
    ensures r.Failure? <==> source !in g.nodes || dest !in g.nodes
    ensures r.Success? ==> (|r.value| == 0 <==> !Reachable(g, source, dest))
    ensures r.Success? ==> |r.value| <= Max(k, 1)
    ensures r.Success? && |r.value| > 0 ==>
      Shortest(g, r.value[0].path, source, dest, Weighted(DefaultWeight, DefaultWeight))
    ensures r.Success? ==> forall i :: 0 <= i < |r.value| ==>
      IsPathFromTo(g, r.value[i].path, source, dest) && Formatted(g, r.value[i])
    ensures r.Success? ==> |r.value| == |ps| && forall i :: 0 <= i < |ps| ==> r.value[i].path == ps[i].path
    ensures r.Success? ==> YenRoutes(g, source, dest, k, ps, pools)
  {
    if source !in g.nodes || dest !in g.nodes {
      return Failure("Both source and destination stations must exist in the graph."), [], [];
    }
    var yen, after;
    yen, after, pools := YenKShortestPaths(g, source, dest, k);
    ps := yen.value;
    var routes := FormatRoutes(g, source, dest, yen.value);
    forall i | 0 <= i < |routes| ensures IsPathFromTo(g, routes[i].path, source, dest) {
      assert Candidate(g, source, dest, ps[i]);
    }
    if |routes| > 0 {
      ResultIsPath(g, source, dest, Weighted(DefaultWeight, DefaultWeight), ps[0]);
    }
    r := Success(routes);
  }
}
