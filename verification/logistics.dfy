/** The `findRoutes` controller: validates the request body, builds the
    station graph from its station and route tables, maps both coordinate
    pairs to their nearest stations, runs Yen's algorithm for three routes
    and formats them with a capacity check against the shipment weight. */
module Logistics {
  import opened ExtReal
  import opened Results
  import opened StationGraph
  import opened Paths
  import opened Dijkstra
  import opened Yen
  import opened MapUtils

  // ---------------------------------------------------------------------
  // Request values.

  /** A JSON-decoded request value. A string carries the number JavaScript
      converts it to (`None` for NaN); objects and arrays are `Obj`. */
  datatype JsValue = Undefined | Null | Bool(b: bool) | Num(n: real) | NaN | Str(s: string, asNumber: Option<real>) | Obj

  /** JavaScript truthiness: `undefined`, `null`, `false`, `0`, `NaN` and
      `""` are falsy. */
  predicate Truthy(v: JsValue) {
    match v
    case Undefined => false
    case Null => false
    case Bool(b) => b
    case Num(n) => n != 0.0
    case NaN => false
    case Str(s, _) => s != ""
    case Obj => true
  }

  /** The number a relational comparison converts a value to; `None` is
      NaN, against which every comparison is false. */
  function ToNumber(v: JsValue): Option<real> {
    match v
    case Undefined => None
    case Null => Some(0.0)
    case Bool(b) => Some(if b then 1.0 else 0.0)
    case Num(n) => Some(n)
    case NaN => None
    case Str(_, x) => x
    case Obj => None
  }

  datatype Coords = Coords(latitude: JsValue, longitude: JsValue)

  /** The body fields `findRoutes` reads; a coordinate object that is
      absent or not an object is `None`. */
  datatype Request = Request(source: JsValue, destination: JsValue, weight: JsValue, quantity: JsValue,
                             sourceCoords: Option<Coords>, destCoords: Option<Coords>)

  datatype Field = SourceField | DestinationField | WeightField | QuantityField | SourceCoordsField | DestCoordsField

  /** The position of a field in the error message. */
  function Position(f: Field): nat {
    match f
    case SourceField => 0
    case DestinationField => 1
    case WeightField => 2
    case QuantityField => 3
    case SourceCoordsField => 4
    case DestCoordsField => 5
  }

  /** `coords?.latitude && coords?.longitude` */
  predicate CoordsGiven(c: Option<Coords>) {
    c.Some? && Truthy(c.value.latitude) && Truthy(c.value.longitude)
  }

  /** Whether the validation treats field `f` as missing. */
  predicate Missing(req: Request, f: Field) {
    match f
    case SourceField => !Truthy(req.source)
    case DestinationField => !Truthy(req.destination)
    case WeightField => !Truthy(req.weight)
    case QuantityField => !Truthy(req.quantity)
    case SourceCoordsField => !CoordsGiven(req.sourceCoords)
    case DestCoordsField => !CoordsGiven(req.destCoords)
  }

  /** The six checks in the order the controller makes them. */
  const CheckOrder := [SourceField, DestinationField, WeightField, QuantityField, SourceCoordsField, DestCoordsField]

  ghost predicate InOrder(fs: seq<Field>) {
    forall i, j :: 0 <= i < j < |fs| ==> Position(fs[i]) < Position(fs[j])
  }

  /** The checks `fs`, made one after the other, each pushing its field
      when it is missing. */
  function Checks(req: Request, fs: seq<Field>): (r: seq<Field>)
    ensures forall f :: f in r <==> f in fs && Missing(req, f)
  {
    FilterMembers(fs, f => Missing(req, f));
    Filter(fs, f => Missing(req, f))
  }

  /** The fields of `fs` that `keep` selects, in the order of `fs`. */
  function Filter(fs: seq<Field>, keep: Field -> bool): seq<Field> {
    if fs == [] then [] else (if keep(fs[0]) then [fs[0]] else []) + Filter(fs[1..], keep)
  }

  lemma {:induction false} FilterMembers(fs: seq<Field>, keep: Field -> bool)
    ensures forall f :: f in Filter(fs, keep) <==> f in fs && keep(f)
  {
    if fs != [] {
      FilterMembers(fs[1..], keep);
      assert fs == [fs[0]] + fs[1..];
    }
  }

  /** Checks made in the fixed order report their fields in that order. */
  lemma {:induction false} FilterInOrder(fs: seq<Field>, keep: Field -> bool)
    requires InOrder(fs)
    ensures InOrder(Filter(fs, keep))
  {
    if fs != [] {
      var rest := Filter(fs[1..], keep);
      assert InOrder(fs[1..]) by {
        forall i, j | 0 <= i < j < |fs[1..]| ensures Position(fs[1..][i]) < Position(fs[1..][j]) {
          assert fs[1..][i] == fs[i + 1] && fs[1..][j] == fs[j + 1];
        }
      }
      FilterInOrder(fs[1..], keep);
      FilterMembers(fs[1..], keep);
      forall f | f in rest ensures Position(fs[0]) < Position(f) {
        var k :| 0 <= k < |fs[1..]| && fs[1..][k] == f;
        assert fs[k + 1] == f;
      }
      var r := Filter(fs, keep);
      forall i, j | 0 <= i < j < |r| ensures Position(r[i]) < Position(r[j]) {
        if keep(fs[0]) {
          if i == 0 {
            assert r[j] == rest[j - 1] && r[j] in rest;
          } else {
            assert r[i] == rest[i - 1] && r[j] == rest[j - 1];
          }
        } else {
          assert r == rest;
        }
      }
    }
  }

  /** The `missingFields` list: exactly the missing fields, each once, in
      the fixed order source, destination, weight, quantity, sourceCoords,
      destCoords. */
  function MissingFields(req: Request): (r: seq<Field>)
    ensures forall f :: f in r <==> Missing(req, f)
    ensures InOrder(r)
  {
    AllChecked();
    FilterInOrder(CheckOrder, f => Missing(req, f));
    Checks(req, CheckOrder)
  }

  lemma AllChecked()
    ensures forall f :: f in CheckOrder
    ensures InOrder(CheckOrder)
  {
    forall f ensures f in CheckOrder {
      assert CheckOrder[Position(f)] == f;
    }
  }

  /** A latitude or longitude of exactly 0 (the equator, the prime
      meridian) is falsy and so reported as missing. */
  lemma ZeroCoordinateIsMissing(req: Request)
    requires req.sourceCoords.Some? && (req.sourceCoords.value.latitude == Num(0.0) || req.sourceCoords.value.longitude == Num(0.0))
    ensures SourceCoordsField in MissingFields(req)
  {
  }

  // ---------------------------------------------------------------------
  // The station and route tables.

  datatype StationRow = StationRow(name: string, kind: string, modes: seq<string>, lat: real, lng: real)
  datatype RouteRow = RouteRow(from: string, to: string, mode: string, cost: real, time: real)

  function Names(rows: seq<StationRow>): set<string> {
    if rows == [] then {} else Names(rows[..|rows| - 1]) + {rows[|rows| - 1].name}
  }

  /** `stations.forEach(... graph.addStation ...)` */
  function AddStations(g: Graph, rows: seq<StationRow>): (g': Graph)
    requires WellFormed(g) && Symmetric(g) && NonNegative(g)
    ensures WellFormed(g') && Symmetric(g') && NonNegative(g')
    ensures g'.nodes.Keys == g.nodes.Keys + Names(rows)
    ensures forall u, v :: HasEdge(g', u, v) <==> HasEdge(g, u, v)
    ensures forall u, v :: HasEdge(g, u, v) ==> g'.adj[u][v] == g.adj[u][v]
  {
    if rows == [] then g
    else
      var r := rows[|rows| - 1];
      AddStation(AddStations(g, rows[..|rows| - 1]), r.name, r.kind, r.modes, r.lat, r.lng)
  }

  /** Every route of the table joins two stations of the table. */
  ghost predicate RoutesKnown(names: set<string>, rows: seq<RouteRow>) {
    forall r :: r in rows ==> r.from in names && r.to in names
  }

  ghost predicate NonNegativeRows(rows: seq<RouteRow>) {
    forall r :: r in rows ==> r.cost >= 0.0 && r.time >= 0.0
  }

  /** Route `x` joins `u` and `v`, in either direction. */
  predicate RowJoins(x: RouteRow, u: string, v: string) {
    (x.from == u && x.to == v) || (x.from == v && x.to == u)
  }

  /** The edge record `addRoute` writes for route `x`. */
  function RowEdge(x: RouteRow): Edge {
    Edge(x.mode, x.cost, x.time, Capacity(x.mode))
  }

  /** The last route of the table joining `u` and `v`: the one whose
      record `addRoute` leaves on the pair. */
  function LastRow(rows: seq<RouteRow>, u: string, v: string): (r: Option<RouteRow>)
    ensures r.None? <==> forall x :: x in rows ==> !RowJoins(x, u, v)
    ensures r.Some? ==> r.value in rows && RowJoins(r.value, u, v)
  {
    if rows == [] then None
    else if RowJoins(rows[|rows| - 1], u, v) then Some(rows[|rows| - 1])
    else
      RowsSnoc(rows);
      LastRow(rows[..|rows| - 1], u, v)
  }

  /** `LastRow` picks the route at the highest index joining the pair. */
  lemma {:induction false} LastRowIsLast(rows: seq<RouteRow>, u: string, v: string)
    requires LastRow(rows, u, v).Some?
    ensures exists i :: (
      && 0 <= i < |rows| && rows[i] == LastRow(rows, u, v).value
      && forall k :: i < k < |rows| ==> !RowJoins(rows[k], u, v))
  {
    var n := |rows| - 1;
    if RowJoins(rows[n], u, v) {
      assert rows[n] == LastRow(rows, u, v).value;
    } else {
      var init := rows[..n];
      LastRowIsLast(init, u, v);
      var i :| 0 <= i < |init| && init[i] == LastRow(init, u, v).value
        && forall k :: i < k < |init| ==> !RowJoins(init[k], u, v);
      assert rows[i] == init[i];
      forall k | i < k < |rows| ensures !RowJoins(rows[k], u, v) {
        if k < n {
          assert rows[k] == init[k];
        }
      }
    }
  }

  /** The edges of `h` are those of `g` plus every route of `rows` both
      ways; a pair some route joins carries the record of the last such
      route, any other pair keeps its record from `g`. */
  ghost predicate RoutedFrom(g: Graph, rows: seq<RouteRow>, h: Graph) {
    && (forall u, v :: HasEdge(h, u, v) <==> HasEdge(g, u, v) || LastRow(rows, u, v).Some?)
    && (forall u, v :: HasEdge(h, u, v) ==>
          h.adj[u][v] == if LastRow(rows, u, v).Some? then RowEdge(LastRow(rows, u, v).value) else g.adj[u][v])
  }

  /** One more `addRoute` call extends `RoutedFrom` by its route. */
  lemma RoutedStep(g: Graph, rows: seq<RouteRow>, h: Graph)
    requires |rows| > 0 && WellFormed(h) && RoutedFrom(g, rows[..|rows| - 1], h)
    requires
      var x := rows[|rows| - 1];
      AddRoute(h, x.from, x.to, x.mode, x.cost, x.time).Success?
    ensures
      var x := rows[|rows| - 1];
      RoutedFrom(g, rows, AddRoute(h, x.from, x.to, x.mode, x.cost, x.time).value)
  {
    var x, init := rows[|rows| - 1], rows[..|rows| - 1];
    var h' := AddRoute(h, x.from, x.to, x.mode, x.cost, x.time).value;
    forall u, v
      ensures HasEdge(h', u, v) <==> HasEdge(g, u, v) || LastRow(rows, u, v).Some?
      ensures HasEdge(h', u, v) ==>
        h'.adj[u][v] == if LastRow(rows, u, v).Some? then RowEdge(LastRow(rows, u, v).value) else g.adj[u][v]
    {
      if RowJoins(x, u, v) {
        assert LastRow(rows, u, v) == Some(x);
      } else {
        assert LastRow(rows, u, v) == LastRow(init, u, v);
      }
    }
  }

  /** `routes.forEach(... graph.addRoute ...)`: throws at the first route
      with an unknown station; otherwise the stations are kept, with the
      class invariants (the edges are stated by `AddRoutesEdges`). */
  function AddRoutes(g: Graph, rows: seq<RouteRow>): (r: Result<Graph>)
    requires WellFormed(g) && Symmetric(g) && NonNegative(g) && NonNegativeRows(rows)
    ensures r.Failure? <==> !RoutesKnown(g.nodes.Keys, rows)
    ensures r.Success? ==> r.value.nodes == g.nodes
    ensures r.Success? ==> WellFormed(r.value) && Symmetric(r.value) && NonNegative(r.value)
  {
    if rows == [] then Success(g)
    else
      var x := rows[|rows| - 1];
      var init := rows[..|rows| - 1];
      RowsSnoc(rows);
      match AddRoutes(g, init)
      case Failure(e) => Failure(e)
      case Success(h) => AddRoute(h, x.from, x.to, x.mode, x.cost, x.time)
  }

  /** After the table's routes are added, the edges are those of `g` plus
      every route both ways, a pair carrying the record of the last route
      that joins it. */
  lemma {:induction false} AddRoutesEdges(g: Graph, rows: seq<RouteRow>)
    requires WellFormed(g) && Symmetric(g) && NonNegative(g) && NonNegativeRows(rows)
    requires AddRoutes(g, rows).Success?
    ensures RoutedFrom(g, rows, AddRoutes(g, rows).value)
  {
    if rows != [] {
      var x, init := rows[|rows| - 1], rows[..|rows| - 1];
      assert AddRoutes(g, init).Success?;
      var h := AddRoutes(g, init).value;
      assert AddRoutes(g, rows) == AddRoute(h, x.from, x.to, x.mode, x.cost, x.time);
      AddRoutesEdges(g, init);
      RoutedStep(g, rows, h);
      assert RoutedFrom(g, rows, AddRoute(h, x.from, x.to, x.mode, x.cost, x.time).value);
    } else {
      assert AddRoutes(g, rows).value == g;
      assert forall u, v :: LastRow(rows, u, v).None?;
    }
  }

  lemma RowsSnoc(rows: seq<RouteRow>)
    requires |rows| > 0
    ensures forall y :: y in rows <==> y in rows[..|rows| - 1] || y == rows[|rows| - 1]
  {
    assert rows == rows[..|rows| - 1] + [rows[|rows| - 1]];
  }

  /** The graph the controller builds for every request. */
  function BuildGraph(stations: seq<StationRow>, routes: seq<RouteRow>): (r: Result<Graph>)
    requires NonNegativeRows(routes)
    ensures r.Failure? <==> !RoutesKnown(Names(stations), routes)
    ensures r.Success? ==> WellFormed(r.value) && Symmetric(r.value) && NonNegative(r.value)
    ensures r.Success? ==> r.value.nodes.Keys == Names(stations)
    ensures r.Success? ==> forall u, v :: HasEdge(r.value, u, v) <==> LastRow(routes, u, v).Some?
    ensures r.Success? ==> forall u, v :: HasEdge(r.value, u, v) ==> r.value.adj[u][v] == RowEdge(LastRow(routes, u, v).value)
  {
    var g := AddStations(Empty, stations);
    var r := AddRoutes(g, routes);
    if r.Success? then AddRoutesEdges(g, routes); r else r
  }

  /** `stations.map(([name, _, __, lat, lng]) => ({ name, lat, lng }))` */
  function NodeRefs(stations: seq<StationRow>): (r: seq<NodeRef>)
    ensures |r| == |stations|
    ensures forall i :: 0 <= i < |r| ==> r[i] == NodeRef(stations[i].name, stations[i].lat, stations[i].lng)
  {
    if stations == [] then []
    else NodeRefs(stations[..|stations| - 1]) + [NodeRef(stations[|stations| - 1].name, stations[|stations| - 1].lat, stations[|stations| - 1].lng)]
  }

  lemma NodeRefNames(stations: seq<StationRow>, i: nat)
    requires i < |stations|
    ensures NodeRefs(stations)[i].name in Names(stations)
  {
    if i < |stations| - 1 {
      NodeRefNames(stations[..|stations| - 1], i);
    }
  }

  // ---------------------------------------------------------------------
  // The response.

  /** `segment.capacity >= weight`: false for a mode without a capacity
      and for a weight that converts to NaN. */
  predicate Carries(capacity: Option<int>, weight: JsValue) {
    capacity.Some? && ToNumber(weight).Some? && capacity.value as real >= ToNumber(weight).value
  }

  /** `route.segments.every((segment) => segment.capacity >= weight)` */
  function Feasible(segs: seq<Segment>, weight: JsValue): (b: bool)
    ensures b <==> forall i :: 0 <= i < |segs| ==> Carries(segs[i].capacity, weight)
  {
    if segs == [] then true
    else Carries(segs[0].capacity, weight) && Feasible(segs[1..], weight)
  }

  datatype EndpointInfo = EndpointInfo(selected: JsValue, mappedTo: string, distance: real)

  datatype FormattedRoute = FormattedRoute(path: seq<string>, segments: seq<Segment>, totalCost: Ext, totalTime: Ext,
                                           feasible: bool, sourceInfo: EndpointInfo, destinationInfo: EndpointInfo)

  datatype NotFoundReason = NoNearestStation | NoRoute

  /** 400 with the missing fields, 404, 500 (an exception caught by the
      handler), or 200 with the routes. */
  datatype Response = BadRequest(missing: seq<Field>) | NotFound(reason: NotFoundReason) | ServerError | Ok(routes: seq<FormattedRoute>)

  function StatusCode(r: Response): int {
    match r
    case BadRequest(_) => 400
    case NotFound(_) => 404
    case ServerError => 500
    case Ok(_) => 200
  }

  /** `pathOptions.map(...)`: a route without `segments` would make
      `every` throw, which the handler would turn into a 500. Yen's routes
      always carry segments (`AllCandidates`), so `RoutesBetween` never
      sees `None` here. */
  method FormatRoutes(ps: seq<PathInfo>, weight: JsValue, src: EndpointInfo, dst: EndpointInfo)
    returns (out: Option<seq<FormattedRoute>>)
    ensures out.None? <==> exists i :: 0 <= i < |ps| && ps[i].segments.None?
    ensures out.Some? ==> |out.value| == |ps| && forall i :: 0 <= i < |ps| ==>
      && ps[i].segments.Some?
      && out.value[i] == FormattedRoute(ps[i].path, ps[i].segments.value, ps[i].cost, ps[i].time,
                                        Feasible(ps[i].segments.value, weight), src, dst)
  {
    var routes: seq<FormattedRoute> := [];
    var i := 0;
    while i < |ps|
      invariant 0 <= i <= |ps| && |routes| == i
      invariant forall t :: 0 <= t < i ==>
        && ps[t].segments.Some?
        && routes[t] == FormattedRoute(ps[t].path, ps[t].segments.value, ps[t].cost, ps[t].time,
                                       Feasible(ps[t].segments.value, weight), src, dst)
    {
      var p := ps[i];
      if p.segments.None? {
        return None;
      }
      routes := routes + [FormattedRoute(p.path, p.segments.value, p.cost, p.time, Feasible(p.segments.value, weight), src, dst)];
      i := i + 1;
    }
    out := Some(routes);
  }

  /** No station has a finite distance from the given coordinates. */
  ghost predicate NothingNear(c: Option<Coords>, nodes: seq<NodeRef>, dist: (JsValue, JsValue, real, real) -> Option<real>) {
    c.Some? && forall j :: 0 <= j < |nodes| ==> DistTo(c.value.latitude, c.value.longitude, nodes, dist, j).None?
  }

  /** `name` is the first station nearest to the given coordinates. */
  ghost predicate NearestIs(c: Option<Coords>, nodes: seq<NodeRef>, dist: (JsValue, JsValue, real, real) -> Option<real>, name: string) {
    c.Some? && exists i: nat :: FirstNearest(c.value.latitude, c.value.longitude, nodes, dist, i) && nodes[i].name == name
  }

  /** `name` is the first station nearest to the given coordinates, at
      distance `d`. */
  ghost predicate NearestAt(c: Option<Coords>, nodes: seq<NodeRef>, dist: (JsValue, JsValue, real, real) -> Option<real>,
                            name: string, d: real) {
    c.Some? && exists i: nat :: (
      && FirstNearest(c.value.latitude, c.value.longitude, nodes, dist, i)
      && nodes[i].name == name && DistTo(c.value.latitude, c.value.longitude, nodes, dist, i).value == d)
  }

  /** At most one station is the first nearest. */
  lemma NearestUnique(c: Option<Coords>, nodes: seq<NodeRef>, dist: (JsValue, JsValue, real, real) -> Option<real>, a: string, b: string)
    requires NearestIs(c, nodes, dist, a) && NearestIs(c, nodes, dist, b)
    ensures a == b
  {
    var i: nat :| FirstNearest(c.value.latitude, c.value.longitude, nodes, dist, i) && nodes[i].name == a;
    var j: nat :| FirstNearest(c.value.latitude, c.value.longitude, nodes, dist, j) && nodes[j].name == b;
    FirstNearestUnique(c.value.latitude, c.value.longitude, nodes, dist, i, j);
  }

  /** Without a station at finite distance there is no nearest station. */
  lemma NothingNearNoNearest(c: Option<Coords>, nodes: seq<NodeRef>, dist: (JsValue, JsValue, real, real) -> Option<real>)
    ensures NothingNear(c, nodes, dist) ==> forall a :: !NearestIs(c, nodes, dist, a)
  {
  }

  /** Once `s` and `d` are the nearest stations and joined by a path, no
      pair of nearest stations is unreachable. */
  lemma OnlyNearest(req: Request, nodes: seq<NodeRef>, dist: (JsValue, JsValue, real, real) -> Option<real>,
                    s: string, d: string, graph: Graph)
    requires NearestIs(req.sourceCoords, nodes, dist, s) && NearestIs(req.destCoords, nodes, dist, d)
    requires Reachable(graph, s, d)
    ensures forall s', d' :: NearestIs(req.sourceCoords, nodes, dist, s') && NearestIs(req.destCoords, nodes, dist, d') ==>
      Reachable(graph, s', d')
  {
    forall s', d' | NearestIs(req.sourceCoords, nodes, dist, s') && NearestIs(req.destCoords, nodes, dist, d')
      ensures Reachable(graph, s', d')
    {
      NearestUnique(req.sourceCoords, nodes, dist, s, s');
      NearestUnique(req.destCoords, nodes, dist, d, d');
    }
  }

  /** The number of routes the controller asks for. */
  const RouteCount := 3

  /** Yen's routes between the two nearest stations `s` and `d`, each
      formatted with the endpoint records; 404 when there is none. */
  method RoutesBetween(graph: Graph, s: string, d: string, weight: JsValue, src: EndpointInfo, dst: EndpointInfo)
    returns (resp: Response, ghost ps: seq<PathInfo>, ghost pools: seq<seq<PathInfo>>)
    requires WellFormed(graph) && NonNegative(graph) && s in graph.nodes && d in graph.nodes
    ensures resp.Ok? || resp == NotFound(NoRoute)
    ensures resp.Ok? <==> Reachable(graph, s, d)
    ensures YenRoutes(graph, s, d, RouteCount, ps, pools)
    ensures resp.Ok? ==> |resp.routes| == |ps| && forall i :: 0 <= i < |ps| ==>
      && ps[i].segments.Some?
      && resp.routes[i] == FormattedRoute(ps[i].path, ps[i].segments.value, ps[i].cost, ps[i].time,
                                          Feasible(ps[i].segments.value, weight), src, dst)
  {
    var pathOptions, after;
    pathOptions, after, pools := YenKShortestPaths(graph, s, d, RouteCount);
    ps := pathOptions.value;
    if |pathOptions.value| == 0 {
      return NotFound(NoRoute), ps, pools;
    }
    forall i | 0 <= i < |ps| ensures ps[i].segments.Some? {
      assert ps[i] in ps;
    }
    var formatted := FormatRoutes(pathOptions.value, weight, src, dst);
    resp := Ok(formatted.value);
  }

  /** A 200 answer: routes `ps` of Yen's algorithm (with its pools) between
      the first nearest stations, one formatted route each, with the
      requested names, the stations they map to and their distances. */
  ghost predicate Answered(req: Request, nodes: seq<NodeRef>, dist: (JsValue, JsValue, real, real) -> Option<real>,
                           graph: Graph, routes: seq<FormattedRoute>, ps: seq<PathInfo>, pools: seq<seq<PathInfo>>) {
    && 0 < |routes| == |ps|
    && var src, dst := routes[0].sourceInfo, routes[0].destinationInfo;
    && src.selected == req.source && dst.selected == req.destination
    && NearestAt(req.sourceCoords, nodes, dist, src.mappedTo, src.distance)
    && NearestAt(req.destCoords, nodes, dist, dst.mappedTo, dst.distance)
    && YenRoutes(graph, src.mappedTo, dst.mappedTo, RouteCount, ps, pools)
    && forall i :: 0 <= i < |ps| ==>
      && ps[i].segments.Some?
      && routes[i] == FormattedRoute(ps[i].path, ps[i].segments.value, ps[i].cost, ps[i].time,
                                     Feasible(ps[i].segments.value, req.weight), src, dst)
  }

  /** Both coordinates have a nearest station, and every pair of nearest
      stations is joined by a path. */
  ghost predicate Connected(req: Request, nodes: seq<NodeRef>, dist: (JsValue, JsValue, real, real) -> Option<real>, graph: Graph) {
    && !NothingNear(req.sourceCoords, nodes, dist) && !NothingNear(req.destCoords, nodes, dist)
    && forall s, d :: NearestIs(req.sourceCoords, nodes, dist, s) && NearestIs(req.destCoords, nodes, dist, d) ==>
         Reachable(graph, s, d)
  }

  /** Everything after the graph is built: the nearest stations, Yen's
      routes between them, and the formatted response. */
  method Respond(req: Request, graph: Graph, nodes: seq<NodeRef>, dist: (JsValue, JsValue, real, real) -> Option<real>)
    returns (resp: Response, ghost ps: seq<PathInfo>, ghost pools: seq<seq<PathInfo>>)
    requires WellFormed(graph) && NonNegative(graph)
    requires forall t :: 0 <= t < |nodes| ==> nodes[t].name in graph.nodes
    requires req.sourceCoords.Some? && req.destCoords.Some?
    ensures resp.NotFound? || resp.Ok?
    ensures resp == NotFound(NoNearestStation) <==>
      NothingNear(req.sourceCoords, nodes, dist) || NothingNear(req.destCoords, nodes, dist)
    ensures resp == NotFound(NoRoute) <==>
      exists s, d :: NearestIs(req.sourceCoords, nodes, dist, s) && NearestIs(req.destCoords, nodes, dist, d)
        && !Reachable(graph, s, d)
    ensures resp.Ok? <==> Connected(req, nodes, dist, graph)
    ensures resp.Ok? ==> |resp.routes| <= RouteCount
    ensures resp.Ok? ==> Answered(req, nodes, dist, graph, resp.routes, ps, pools)
  {
    var sc, dc := req.sourceCoords.value, req.destCoords.value;
    var nearestSource := FindNearestNode(sc.latitude, sc.longitude, nodes, dist);
    var nearestDest := FindNearestNode(dc.latitude, dc.longitude, nodes, dist);
    if nearestSource.None? || nearestDest.None? {
      NothingNearNoNearest(req.sourceCoords, nodes, dist);
      NothingNearNoNearest(req.destCoords, nodes, dist);
      return NotFound(NoNearestStation), [], [];
    }
    var s, d := nearestSource.value.nodeName, nearestDest.value.nodeName;
    assert NearestIs(req.sourceCoords, nodes, dist, s) && NearestIs(req.destCoords, nodes, dist, d);
    assert NearestAt(req.sourceCoords, nodes, dist, s, nearestSource.value.distance);
    assert NearestAt(req.destCoords, nodes, dist, d, nearestDest.value.distance);
    var src := EndpointInfo(req.source, s, nearestSource.value.distance);
    var dst := EndpointInfo(req.destination, d, nearestDest.value.distance);
    resp, ps, pools := RoutesBetween(graph, s, d, req.weight, src, dst);
    if resp.Ok? {
      OnlyNearest(req, nodes, dist, s, d, graph);
    }
  }

  /** `findRoutes(req, res)`; `dist` stands for `calculateDistance`. */
  method FindRoutes(req: Request, stations: seq<StationRow>, routes: seq<RouteRow>,
                    dist: (JsValue, JsValue, real, real) -> Option<real>)
    returns (resp: Response, ghost ps: seq<PathInfo>, ghost pools: seq<seq<PathInfo>>)
    requires NonNegativeRows(routes)
    ensures resp.BadRequest? <==> |MissingFields(req)| > 0
    ensures resp.BadRequest? ==> resp.missing == MissingFields(req)
    ensures resp.ServerError? <==> |MissingFields(req)| == 0 && !RoutesKnown(Names(stations), routes)
    ensures resp == NotFound(NoNearestStation) <==>
      && |MissingFields(req)| == 0 && RoutesKnown(Names(stations), routes)
      && (NothingNear(req.sourceCoords, NodeRefs(stations), dist) || NothingNear(req.destCoords, NodeRefs(stations), dist))
    ensures resp == NotFound(NoRoute) <==>
      && |MissingFields(req)| == 0 && RoutesKnown(Names(stations), routes)
      && exists s, d :: NearestIs(req.sourceCoords, NodeRefs(stations), dist, s)
           && NearestIs(req.destCoords, NodeRefs(stations), dist, d)
           && !Reachable(BuildGraph(stations, routes).value, s, d)
    ensures resp.Ok? <==>
      && |MissingFields(req)| == 0 && RoutesKnown(Names(stations), routes)
      && Connected(req, NodeRefs(stations), dist, BuildGraph(stations, routes).value)
    ensures resp.Ok? ==> |resp.routes| <= RouteCount
    ensures resp.Ok? ==> Answered(req, NodeRefs(stations), dist, BuildGraph(stations, routes).value, resp.routes, ps, pools)
  {
    var missing := MissingFields(req);
    if |missing| > 0 {
      return BadRequest(missing), [], [];
    }
    assert !Missing(req, SourceCoordsField) && !Missing(req, DestCoordsField);
    var built := BuildGraph(stations, routes);
    if built.Failure? {
      return ServerError, [], [];
    }
    var nodes := NodeRefs(stations);
    forall t | 0 <= t < |nodes| ensures nodes[t].name in built.value.nodes {
      NodeRefNames(stations, t);
    }
    resp, ps, pools := Respond(req, built.value, nodes, dist);
  }
}
