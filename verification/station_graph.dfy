/** The station graph of the route planner (`StationGraph`): a node table
    keyed by station name and an adjacency map from station to neighbour to
    edge record. */
module StationGraph {
  import opened Results

  datatype Station = Station(kind: string, modes: seq<string>, lat: real, lng: real)

  /** An edge record `{mode, cost, time, capacity}`; `capacity` is `None`
      where the mode has no entry in the capacity table (JavaScript
      `undefined`). */
  datatype Edge = Edge(mode: string, cost: real, time: real, capacity: Option<int>)

  datatype Graph = Graph(nodes: map<string, Station>, adj: map<string, map<string, Edge>>)

  /** The constructor's state: no stations, no routes. */
  const Empty := Graph(map[], map[])

  /** TRANSPORT_CAPACITY, looked up by mode. */
  function Capacity(mode: string): (c: Option<int>)
    ensures c.Some? <==> mode == "air" || mode == "land" || mode == "sea"
    ensures c.Some? ==> c.value >= 1000
  {
    if mode == "air" then Some(1000)
    else if mode == "land" then Some(2000)
    else if mode == "sea" then Some(5000)
    else None
  }

  predicate HasEdge(g: Graph, u: string, v: string) {
    u in g.adj && v in g.adj[u]
  }

  /** The class invariant that `addStation` and `addRoute` keep: every station
      has a (possibly empty) neighbour map and every neighbour is a station. */
  ghost predicate WellFormed(g: Graph) {
    && g.adj.Keys == g.nodes.Keys
    && forall u, v :: HasEdge(g, u, v) ==> v in g.nodes
  }

  /** Every edge is present in both directions with the same record. */
  ghost predicate Symmetric(g: Graph) {
    forall u, v :: HasEdge(g, u, v) ==> HasEdge(g, v, u) && g.adj[v][u] == g.adj[u][v]
  }

  ghost predicate NonNegative(g: Graph) {
    forall u, v :: HasEdge(g, u, v) ==> g.adj[u][v].cost >= 0.0 && g.adj[u][v].time >= 0.0
  }

  /** Both graphs have the same stations, and every edge of `h` is an edge of
      `g` with the same record. */
  ghost predicate SubGraph(h: Graph, g: Graph) {
    && h.nodes == g.nodes
    && h.adj.Keys == g.adj.Keys
    && forall u, v :: HasEdge(h, u, v) ==> HasEdge(g, u, v) && h.adj[u][v] == g.adj[u][v]
  }

  /** `addStation`: upserts the station record; an existing neighbour map is
      kept, a new station gets an empty one. */
  function AddStation(g: Graph, name: string, kind: string, modes: seq<string>, lat: real, lng: real): (g': Graph)
    ensures name in g'.nodes && g'.nodes[name] == Station(kind, modes, lat, lng)
    ensures forall s :: s in g.nodes && s != name ==> s in g'.nodes && g'.nodes[s] == g.nodes[s]
    ensures g'.nodes.Keys == g.nodes.Keys + {name}
    ensures g'.adj.Keys == g.adj.Keys + {name}
    ensures forall u, v :: HasEdge(g', u, v) <==> HasEdge(g, u, v)
    ensures forall u, v :: HasEdge(g, u, v) ==> HasEdge(g', u, v) && g'.adj[u][v] == g.adj[u][v]
    ensures WellFormed(g) ==> WellFormed(g')
    ensures Symmetric(g) ==> Symmetric(g')
    ensures NonNegative(g) ==> NonNegative(g')
  {
    var nodes := g.nodes[name := Station(kind, modes, lat, lng)];
    if name in g.adj then Graph(nodes, g.adj) else Graph(nodes, g.adj[name := map[]])
  }

  /** `addRoute`: fails unless both endpoints are stations; otherwise writes
      the same edge record, with the capacity of its mode, in both
      directions, overwriting an earlier route on the same pair. */
  function AddRoute(g: Graph, from: string, to: string, mode: string, cost: real, time: real): (r: Result<Graph>)
    requires WellFormed(g)
    ensures r.Failure? <==> from !in g.nodes || to !in g.nodes
    ensures r.Success? ==>
      var g' := r.value;
      && g'.nodes == g.nodes
      && WellFormed(g')
      && HasEdge(g', from, to) && HasEdge(g', to, from)
      && g'.adj[from][to] == Edge(mode, cost, time, Capacity(mode))
      && g'.adj[to][from] == Edge(mode, cost, time, Capacity(mode))
    ensures r.Success? ==>
      forall u, v :: (u, v) != (from, to) && (u, v) != (to, from) ==>
        (HasEdge(r.value, u, v) <==> HasEdge(g, u, v)) &&
        (HasEdge(g, u, v) ==> r.value.adj[u][v] == g.adj[u][v])
    ensures r.Success? ==> forall u, v :: HasEdge(g, u, v) ==> HasEdge(r.value, u, v)
    ensures r.Success? && Symmetric(g) ==> Symmetric(r.value)
    ensures r.Success? && NonNegative(g) && cost >= 0.0 && time >= 0.0 ==> NonNegative(r.value)
  {
    if from !in g.nodes || to !in g.nodes then
      Failure("Both stations must exist in the graph.")
    else
      var e := Edge(mode, cost, time, Capacity(mode));
      var g' := SetEdge(SetEdge(g, from, to, e), to, from, e);
      SetBothWays(g, from, to, e);
      Success(g')
  }

  /** The edges after writing `e` in both directions between `from` and `to`. */
  lemma BothWaysEdges(g: Graph, from: string, to: string, e: Edge)
    requires from in g.adj && to in g.adj
    ensures var g' := SetEdge(SetEdge(g, from, to, e), to, from, e);
      forall u, v :: HasEdge(g', u, v) <==> HasEdge(g, u, v) || (u, v) == (from, to) || (u, v) == (to, from)
    ensures var g' := SetEdge(SetEdge(g, from, to, e), to, from, e);
      forall u, v :: HasEdge(g', u, v) ==>
        g'.adj[u][v] == if (u, v) == (from, to) || (u, v) == (to, from) then e else g.adj[u][v]
  {
  }

  lemma SetBothWays(g: Graph, from: string, to: string, e: Edge)
    requires WellFormed(g) && from in g.nodes && to in g.nodes
    ensures var g' := SetEdge(SetEdge(g, from, to, e), to, from, e);
      && WellFormed(g')
      && (forall u, v :: HasEdge(g, u, v) ==> HasEdge(g', u, v))
      && (Symmetric(g) ==> Symmetric(g'))
      && (NonNegative(g) && e.cost >= 0.0 && e.time >= 0.0 ==> NonNegative(g'))
  {
    BothWaysEdges(g, from, to, e);
  }

  /** `this.adjList[u][v] = e`: one direction, overwriting. */
  function SetEdge(g: Graph, u: string, v: string, e: Edge): (g': Graph)
    requires u in g.adj
    ensures g'.nodes == g.nodes && g'.adj.Keys == g.adj.Keys
    ensures HasEdge(g', u, v) && g'.adj[u][v] == e
    ensures forall x, y :: (x, y) != (u, v) ==>
      (HasEdge(g', x, y) <==> HasEdge(g, x, y)) && (HasEdge(g, x, y) ==> g'.adj[x][y] == g.adj[x][y])
  {
    Graph(g.nodes, g.adj[u := g.adj[u][v := e]])
  }
}
