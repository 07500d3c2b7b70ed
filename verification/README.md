# Route planner core, modelled in Dafny

This project models the route-finding core of a logistics back end. It has three parts:

- **The station graph** (`utils/graph.js`):
  - stations and undirected routes with a per-mode capacity table;
  - Dijkstra's search for the cheapest path under a weighted cost/time score;
  - the path cost and time sums;
  - the variant of Yen's k-shortest-paths algorithm the planner uses;
  - the formatting of all routes.
- **Map utilities** (`utils/mapUtils.js`): the nearest-station lookup and the fare table.
- **The `findRoutes` controller** (`controllers/logistics.js`):
  - request validation;
  - building the graph from the station and route tables;
  - mapping both coordinate pairs to their nearest stations;
  - asking for three routes;
  - the capacity ("feasible") check;
  - the response codes 400, 404, 500 and 200.

Files, one module each:

| file | module | contents |
|---|---|---|
| `ext_real.dfy` | `ExtReal` | reals with `Infinity`, and the order a JavaScript `(a, b) => a - b` comparator induces on them |
| `results.dfy` | `Results` | `Option` and `Result` (a thrown `Error` becomes `Failure`) |
| `stable_sort.dfy` | `StableSort` | the stable `sort` followed by `shift()` that both the Dijkstra queue and Yen's candidate pool use |
| `station_graph.dfy` | `StationGraph` | the graph, `addStation`, `addRoute`, `TRANSPORT_CAPACITY` |
| `paths.dfy` | `Paths` | walks, and the reference path sum behind `calculatePathCost` and `calculatePathTime` |
| `dijkstra.dfy` | `Dijkstra` | `dijkstra`, with its optimality proof |
| `yen.dfy` | `Yen` | `yenKShortestPaths` |
| `all_paths.dfy` | `AllPaths` | `findAllPaths` |
| `map_utils.dfy` | `MapUtils` | `findNearestNode`, `calculateFare` |
| `logistics.dfy` | `Logistics` | `findRoutes` |

Modelling choices that follow the code rather than the intent:

- **Numbers.** They are `real`. `Infinity` (a path sum over a missing hop) is `ExtReal.Inf`. The comparator `a - b` gives NaN on two infinities, and `sort` reads NaN as "equal", so `Le` treats the two as equal.
- **The Dijkstra queue.** It is re-sorted and shifted on every iteration, so the search always takes the first entry of least score. The order in which neighbours are visited (JavaScript object key order) is chosen nondeterministically. Every contract therefore holds for every visiting order.
- **Yen's algorithm, modelled as written.**
  - Accepted paths and candidates are never de-duplicated.
  - Root-path stations are not removed from the graph.
  - The candidate pool persists across rounds and is sorted by the candidates' recorded cost.
  - Only the forward direction of each blocked edge is deleted.
  - Restoring the deleted edges gives back the same map of neighbours. In JavaScript a deleted and re-assigned key moves to the end of its object's key order, so later searches may visit neighbours in another order; the model leaves that order open anyway.
  - A candidate's cost and time are computed in the graph with edges deleted, so they are either `Infinity` or the path's true sums.
  - A candidate's `modes` and `segments` come from a second search from the source in that reduced graph, not from the candidate's own path.
  - That second search always finds a path. Every deleted hop leaves the spur station, so the accepted route up to its first visit of the spur station survives the deletions (`SpurReachesFromSource`). Every route therefore carries segments. The 500 that `findRoutes` would give for a route without segments (the `every` call throwing) cannot happen.
- **Validation.** A field is missing when it is falsy. A latitude or longitude of exactly `0` is therefore reported missing (`ZeroCoordinateIsMissing`).
- **Capacity.**
  - A mode without a capacity entry gives `undefined`, modelled as `None`. The `capacity >= weight` comparison is then false.
  - `findAllPaths` reads `capacity || 1000`, so a missing or zero capacity becomes 1000.
- **Costs and times must be non-negative.** Dijkstra's search and everything built on it require this, for the costs and times in the graph and for the weights. With a negative edge the predecessor links can form a cycle, and the reconstruction loop would then never end. The routes `findRoutes` builds all have non-negative costs and times.

## Model

| member | source | states |
|---|---|---|
| StationGraph.AddStation | utils/graph.js:26-31 | the station record is stored (replacing an earlier one); an existing neighbour map is kept and a new station gets an empty one; no edge changes; well-formedness, symmetry and non-negative weights are preserved |
| StationGraph.AddRoute | utils/graph.js:42-50 | for names that are not `Object.prototype` members, fails exactly when an endpoint is not a station; otherwise the same record with the mode's capacity from the table (air 1000, land 2000, sea 5000, none for other modes) is written in both directions, overwriting an earlier route on that pair; every other edge is unchanged and no edge is lost; the graph invariants are preserved |
| StationGraph.Capacity | utils/graph.js:3-7 | a mode has a capacity exactly when it is air, land or sea, and every capacity is at least 1000 |
| AllPaths.LegCapacityOfMode | utils/graph.js:3-7 | a formatted leg's capacity is always one of 1000, 2000, 5000: the table's value for a known mode, 1000 otherwise |
| Paths.PathSum | utils/graph.js:143-172 | reference path sum: finite exactly when every consecutive pair is an edge; 0 for paths of at most one station |
| Paths.CalculatePathSum | utils/graph.js:143-172 | the left-to-right loop equals the reference sum and returns Infinity exactly when some consecutive pair is not an edge |
| Paths.PathSumJoin | utils/graph.js:143-172 | the sum over two joined paths is the sum of their sums (Infinity absorbing) |
| Paths.PathSumPrefixLe | utils/graph.js:143-172 | with non-negative weights a prefix of a walk never sums to more than the walk |
| Paths.PathSumSubGraph | utils/graph.js:143-172 | a sum that is finite in a graph with edges removed is the same in the full graph |
| StableSort.SortByIsSorted | utils/graph.js:81 | the stable sort orders by key |
| StableSort.SortHeadIsFirstMin | utils/graph.js:81-82 | after the stable sort the shifted head is the earliest entry of least key |
| Dijkstra.VisitSettles | utils/graph.js:79-88 | an unvisited station popped with the least queued score has a distance no path from the start beats |
| Dijkstra.RelaxEdge | utils/graph.js:92-101 | relaxing one edge out of the visited station keeps the search invariants, leaves the neighbour with a distance no larger than through that station, and raises no distance |
| Dijkstra.RelaxNeighbours | utils/graph.js:90-102 | relaxing every edge of the visited station keeps the search invariants and leaves every visited station relaxed |
| Dijkstra.Search | utils/graph.js:65-103 | on exit, visited stations are settled and linked to the start through predecessor edges carrying their distances; the end is visited if it got a distance, and otherwise every reached station was visited |
| Dijkstra.Reconstruct | utils/graph.js:105-119 | following the predecessor links back from the end yields a path from the start whose score is the end's distance, with the stored mode of every hop |
| Dijkstra.BuildSegments | utils/graph.js:127-134 | segment i joins path[i] to path[i+1] with that edge's mode, cost, time and capacity |
| Dijkstra.ShortestPath | utils/graph.js:65-135 | the empty record exactly when the end is unreachable; otherwise a path from start to end that no other path beats under the weighted score, with its modes, its cost and time sums and its segments |
| Dijkstra.Dijkstra | utils/graph.js:60-63 | for names that are not `Object.prototype` members, throws exactly when either station is missing; otherwise the result described for ShortestPath |
| Yen.DeleteEdge | utils/graph.js:218 | exactly the one directed edge disappears; every other edge keeps its record and the stations are unchanged |
| Yen.RestoreEdge | utils/graph.js:239 | the directed edge is present again with the recorded values; every other edge and the stations are unchanged |
| Yen.RemoveRootEdges | utils/graph.js:206-221 | deletes exactly the forward hop after the root of every accepted path that shares the root, recording each deleted edge with its original record; the result is the reference reduced graph `Reduced` |
| Yen.RestoreEdges | utils/graph.js:237-240 | writing the recorded edges back gives the adjacency map from before the deletions, as a map (the key order of a JavaScript object is not part of the model) |
| Yen.BlocksLeaveSpur | utils/graph.js:210-219 | every deleted hop starts at the spur station |
| Yen.SpurSearch | utils/graph.js:223-235 | a candidate exists exactly when the destination is reachable from the spur station in the reduced graph; it is a path from source to destination in the full graph sharing the root, and its part from the spur station on is a shortest path there in the reduced graph; its cost and time are its sums in the reduced graph; its modes and segments are those of a Dijkstra search from source to destination in the reduced graph, and that search succeeds, so segments are present |
| Yen.SpurReachesFromSource | utils/graph.js:206-230 | when every deleted hop leaves the spur station, a spur path in the reduced graph makes the destination reachable from the source there too |
| Yen.SpurCandidates | utils/graph.js:203-241 | spur index j adds one candidate exactly when the spur station reaches the destination in the reduced graph, and that candidate is the one `SpurCand` describes; the rest of the pool is kept and the graph is left as it was |
| Yen.SpurIndices | utils/graph.js:202-203 | the spur indices below n that yield a candidate are exactly those whose spur station reaches the destination in its reduced graph, in increasing order |
| Yen.ExtendPool | utils/graph.js:202-241 | one round over the spur stations turns the pool into the old pool followed by exactly one candidate per spur index that reaches the destination, in index order; the graph is left as it was |
| Yen.PopCheapest | utils/graph.js:244-247 | the chosen candidate is the first one of least cost; the rest of the pool is no cheaper, stays sorted and loses nothing else |
| Yen.Round | utils/graph.js:202-247 | one pass of the outer loop extends the pool as ExtendPool states and records it; it stops exactly when that pool is empty, and otherwise appends the pool's first cheapest candidate to the routes and keeps the rest as the next pool |
| Yen.YenKShortestPaths | utils/graph.js:181-250 | for names that are not `Object.prototype` members, throws exactly when an endpoint is missing; otherwise `YenRoutes`: no routes exactly when the destination is unreachable; the first route is Dijkstra's; with `pools[t]` the pool after round t, pool t is the pool before it (empty, or what the previous pop left) followed by the candidates of round t's spur searches from route t, and route t+1 is the first cheapest candidate of pool t; the routes stop at max(k, 1), or earlier exactly when a round ends with an empty pool; every route and pooled candidate is a path from source to destination with segments; the adjacency map is restored |
| AllPaths.FormatRoute | utils/graph.js:272-305 | one leg per hop with the edge's values and both stations' coordinates; the totals are the path's finite cost and time |
| AllPaths.FindAllPaths | utils/graph.js:259-309 | for names that are not `Object.prototype` members, throws exactly when an endpoint is missing; empty exactly when unreachable; one route per path of Yen's algorithm, in Yen's order (the paths and pools satisfy `YenRoutes`), each a path from source to destination with its legs and sums, the first a lowest-score path |
| MapUtils.FindNearestNode | utils/mapUtils.js:62-100 | null exactly when no station has a finite distance; otherwise the first station of least distance, with that distance and its coordinates |
| MapUtils.FirstNearestUnique | utils/mapUtils.js:75-91 | the first nearest station is unique |
| MapUtils.FareFor | utils/mapUtils.js:26-29 | the fare is the larger of the metered fare and the minimum |
| MapUtils.MinimumUntil | utils/mapUtils.js:26-29 | the minimum is charged exactly when the per-km part does not exceed minimum minus base |
| MapUtils.CalculateFare | utils/mapUtils.js:18-53 | every class pays at least its minimum (25, 30, 50, 70), and bike ≤ auto ≤ economy cab ≤ premium cab at any distance |
| MapUtils.FareMonotone | utils/mapUtils.js:18-53 | every fare is non-decreasing in the distance |
| MapUtils.ShortTripsPayMinimum | utils/mapUtils.js:18-53 | up to 15/7 km every class pays exactly its minimum fare |
| Logistics.MissingFields | controllers/logistics.js:24-32 | the list holds exactly the falsy fields, each once, in the fixed order source, destination, weight, quantity, sourceCoords, destCoords |
| Logistics.FilterInOrder | controllers/logistics.js:24-32 | checks made in a fixed order report their fields in that order |
| Logistics.ZeroCoordinateIsMissing | controllers/logistics.js:29-30 | a coordinate of exactly 0 makes sourceCoords missing |
| Logistics.AddStations | controllers/logistics.js:120-123 | the stations are the table's names; no edge changes; the graph invariants hold |
| Logistics.AddRoutes | controllers/logistics.js:125-128 | throws exactly when some route names an unknown station; otherwise the stations are kept and the invariants hold |
| Logistics.LastRowIsLast | controllers/logistics.js:125-128 | the route `LastRow` picks for a pair is the one at the highest index that joins the pair |
| Logistics.AddRoutesEdges | controllers/logistics.js:125-128 | the edges are those before plus every route both ways; a pair some route joins carries the record (mode, cost, time, the mode's capacity) of the last route joining it, so a later route on a pair overrides an earlier one |
| Logistics.BuildGraph | controllers/logistics.js:120-128 | the graph has exactly the table's stations and fails exactly when a route names an unknown one; its edges are exactly the routes both ways, each pair with the record of the last route joining it |
| Logistics.NodeRefs | controllers/logistics.js:132-136 | the lookup list has one entry per station row, in order, with the row's name and coordinates |
| Logistics.Feasible | controllers/logistics.js:183 | a route is feasible exactly when every segment's capacity is a number at least the weight |
| Logistics.FormatRoutes | controllers/logistics.js:178-194 | fails (the handler's 500) exactly when some route lacks segments; otherwise one formatted route per path, in order, with its path, segments, sums, feasibility and endpoint info |
| Logistics.RoutesBetween | controllers/logistics.js:163-194 | 404 exactly when the nearest stations are not connected; otherwise 200 with one formatted route per route of Yen's algorithm for k = 3 (as `YenRoutes` states), in order, with its path, segments, cost, time and feasibility; the 500 for a route without segments does not occur |
| Logistics.NearestUnique | utils/mapUtils.js:75-91 | two first-nearest station names are equal |
| Logistics.Respond | controllers/logistics.js:138-194 | never 400 or 500; 404 for no nearest station exactly when either point has no station at finite distance; 404 for no route exactly when the two nearest stations are not connected; 200 exactly when both nearest stations exist and are connected, and then the routes are one formatted route per route of Yen's algorithm between them for k = 3, in order, each with its path, segments, cost, time and feasibility, and endpoint info naming the requested names, the first nearest stations and their distances |
| Logistics.FindRoutes | controllers/logistics.js:9-207 | 400 exactly when some field is missing, listing those fields; 500 exactly when no field is missing and a route names an unknown station; the 404 and 200 cases as for Respond, in the graph built from the tables |

## Left out

- `calculateDistance` (the haversine formula) is a parameter of `FindNearestNode` and `FindRoutes`: it is floating-point trigonometry. A NaN or infinite distance is `None`.
- Floating point in general is not modelled: numbers are exact reals. Rounding, NaN beyond the cases named above, and the JSON rendering of `Infinity` as `null` are left out.
- The literal station and route tables of `findRoutes` (controllers/logistics.js:45-118) are parameters of `FindRoutes`. Stating them as constants made the proofs about them too expensive. `FindRoutes` requires their costs and times to be non-negative, which the literal tables satisfy.
- `generateOTP` is left out: it uses randomness and is not part of the route planner.
- Logging (`console.log`), Express's `res.status().json()`, the `success` flag and message texts, and the `stack` field of the 500 response are left out. The response is a datatype carrying the status and the data.
- `findNearestNode`'s `maxDistance` argument is left out: the function never reads it.
- The visiting order of neighbours (JavaScript object key order) is left out: the model chooses it nondeterministically, so the results hold for any order.
- Dijkstra.Dijkstra: requires non-negative costs, times and weights. With negative ones the source's reconstruction loop can cycle forever, so there is no result to state.
- Yen.RemoveRootEdges: compares the paths as sequences. The source compares `rootPath.join()` strings, which also match distinct paths whose station names contain commas.
- Yen.RemoveRootEdges: does not model a station literally named "undefined". Reading one past the end of a path gives `undefined` in the source, and such a station would match it.
- Dijkstra.Reconstruct: does not model a station named by the empty string. The source's `while (current)` and `if (prev[current])` treat such a predecessor as the end of the chain.
- StationGraph.AddRoute: does not model station or mode names that are members of `Object.prototype` ("toString", "constructor", "__proto__" and the like). The source tests `!this.nodes[name]` and reads `TRANSPORT_CAPACITY[mode]` on plain objects, so such a name finds an inherited property: `addRoute("toString", …)` does not throw, and the capacity of a mode named "toString" is a function, not `undefined`. The same holds for the station checks of `dijkstra`, `yenKShortestPaths` and `findAllPaths`. The model treats the station map and the capacity table as plain maps.
- Logistics.ToNumber: the conversion of strings, objects and arrays to numbers is not computed. A string carries the number it converts to. Every object and array converts to NaN here, although JavaScript converts `[]` to 0 and a one-element array to its element.
