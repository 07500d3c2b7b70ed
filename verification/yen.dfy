/** `StationGraph.yenKShortestPaths`: up to `k` alternative routes between
    two stations, found by deleting the next hop of every accepted route
    that shares a root with the route being varied, searching again from
    the spur station, and restoring the deleted edges afterwards. */
module Yen {
  import opened ExtReal
  import opened Results
  import opened StationGraph
  import opened Paths
  import opened StableSort
  import opened Dijkstra

  // ---------------------------------------------------------------------
  // Deleting and restoring edges of the adjacency map.

  /** An entry of `removedEdges`: the deleted direction and its record. */
  datatype Removed = Removed(from: string, to: string, data: Edge)

  /** The station pairs of a list of removed edges. */
  function PairsOf(rs: seq<Removed>): set<(string, string)> {
    if rs == [] then {} else PairsOf(rs[..|rs| - 1]) + {(rs[|rs| - 1].from, rs[|rs| - 1].to)}
  }

  /** `h` is `g` without the directed edges `S`: same stations, same
      neighbour maps except that the pairs in `S` are missing. */
  ghost predicate Lacks(h: Graph, g: Graph, S: set<(string, string)>) {
    && h.nodes == g.nodes
    && h.adj.Keys == g.adj.Keys
    && (forall u, v :: HasEdge(h, u, v) <==> HasEdge(g, u, v) && (u, v) !in S)
    && (forall u, v :: HasEdge(h, u, v) ==> h.adj[u][v] == g.adj[u][v])
  }

  /** `delete this.adjList[from][to]`: one direction only. */
  function DeleteEdge(h: Graph, u: string, v: string): (h': Graph)
    requires HasEdge(h, u, v)
    ensures !HasEdge(h', u, v)
    ensures forall x, y :: HasEdge(h', x, y) <==> HasEdge(h, x, y) && (x, y) != (u, v)
    ensures forall x, y :: HasEdge(h', x, y) ==> HasEdge(h, x, y) && h'.adj[x][y] == h.adj[x][y]
    ensures h'.nodes == h.nodes && h'.adj.Keys == h.adj.Keys
  {
    h.(adj := h.adj[u := h.adj[u] - {v}])
  }

  /** `this.adjList[edge.from][edge.to] = edge.data`. */
  function RestoreEdge(h: Graph, r: Removed): (h': Graph)
    requires r.from in h.adj
    ensures HasEdge(h', r.from, r.to) && h'.adj[r.from][r.to] == r.data
    ensures forall x, y :: (x, y) != (r.from, r.to) ==>
      (HasEdge(h', x, y) <==> HasEdge(h, x, y)) && (HasEdge(h, x, y) ==> h'.adj[x][y] == h.adj[x][y])
    ensures h'.nodes == h.nodes && h'.adj.Keys == h.adj.Keys
  {
    h.(adj := h.adj[r.from := h.adj[r.from][r.to := r.data]])
  }

  lemma LacksNothing(h: Graph, g: Graph)
    requires Lacks(h, g, {})
    ensures h == g
  {
    forall u | u in g.adj
      ensures h.adj[u] == g.adj[u]
    {
      assert h.adj[u].Keys == g.adj[u].Keys by {
        forall v ensures v in h.adj[u] <==> v in g.adj[u] {
          assert HasEdge(h, u, v) <==> HasEdge(g, u, v);
        }
      }
      forall v | v in g.adj[u] ensures h.adj[u][v] == g.adj[u][v] {
        assert HasEdge(h, u, v);
      }
    }
  }

  /** A graph with edges deleted keeps the class invariant and the
      non-negative weights, and is a subgraph of the original. */
  lemma LacksFacts(h: Graph, g: Graph, S: set<(string, string)>)
    requires Lacks(h, g, S)
    ensures SubGraph(h, g)
    ensures WellFormed(g) ==> WellFormed(h)
    ensures NonNegative(g) ==> NonNegative(h)
  {
  }

  lemma DeleteStep(h: Graph, g: Graph, S: set<(string, string)>, u: string, v: string)
    requires Lacks(h, g, S) && HasEdge(h, u, v)
    ensures Lacks(DeleteEdge(h, u, v), g, S + {(u, v)})
  {
    var h' := DeleteEdge(h, u, v);
    forall x, y | HasEdge(h', x, y) ensures h'.adj[x][y] == g.adj[x][y] {
      assert HasEdge(h, x, y);
    }
  }

  lemma RestoreStep(h: Graph, g: Graph, S: set<(string, string)>, r: Removed)
    requires Lacks(h, g, S)
    requires HasEdge(g, r.from, r.to) && r.data == g.adj[r.from][r.to]
    ensures Lacks(RestoreEdge(h, r), g, S - {(r.from, r.to)})
  {
    var h' := RestoreEdge(h, r);
    forall x, y
      ensures HasEdge(h', x, y) <==> HasEdge(g, x, y) && (x, y) !in S - {(r.from, r.to)}
      ensures HasEdge(h', x, y) ==> h'.adj[x][y] == g.adj[x][y]
    {
      if (x, y) != (r.from, r.to) {
        assert HasEdge(h', x, y) <==> HasEdge(h, x, y);
      }
    }
  }

  // ---------------------------------------------------------------------
  // The edges deleted for one spur station.

  /** `p` shares the root `root = A[i-1].path[..j+1]` and its next hop is
      `u` to `v`. */
  predicate SpurEdge(p: seq<string>, root: seq<string>, j: nat, u: string, v: string) {
    |p| > j + 1 && p[..j + 1] == root && p[j] == u && p[j + 1] == v
  }

  /** Some accepted path has the root and the hop `u` to `v` after it. */
  predicate Blocks(A: seq<PathInfo>, root: seq<string>, j: nat, u: string, v: string) {
    |A| > 0 && (Blocks(A[..|A| - 1], root, j, u, v) || SpurEdge(A[|A| - 1].path, root, j, u, v))
  }

  lemma BlocksNext(A: seq<PathInfo>, t: nat, root: seq<string>, j: nat)
    requires t < |A|
    ensures forall u, v :: Blocks(A[..t + 1], root, j, u, v) <==>
      Blocks(A[..t], root, j, u, v) || SpurEdge(A[t].path, root, j, u, v)
  {
    assert A[..t + 1][..t] == A[..t];
  }

  /** Reference definition of the graph a spur search runs in: `g` without
      every hop that `Blocks` names for this root. */
  ghost function Reduced(g: Graph, A: seq<PathInfo>, root: seq<string>, j: nat): Graph {
    g.(adj := map u | u in g.adj :: map v | v in g.adj[u] && !Blocks(A, root, j, u, v) :: g.adj[u][v])
  }

  /** A graph lacking exactly the blocked hops is the reduced graph. */
  lemma ReducedMatches(h: Graph, g: Graph, S: set<(string, string)>, A: seq<PathInfo>, root: seq<string>, j: nat)
    requires Lacks(h, g, S)
    requires forall u, v :: HasEdge(h, u, v) <==> HasEdge(g, u, v) && !Blocks(A, root, j, u, v)
    ensures h == Reduced(g, A, root, j)
  {
    var R := Reduced(g, A, root, j);
    forall u | u in g.adj
      ensures h.adj[u] == R.adj[u]
    {
      assert h.adj[u].Keys == R.adj[u].Keys by {
        forall v ensures v in h.adj[u] <==> v in R.adj[u] {
          assert HasEdge(h, u, v) <==> HasEdge(g, u, v) && !Blocks(A, root, j, u, v);
        }
      }
      forall v | v in R.adj[u] ensures h.adj[u][v] == R.adj[u][v] {
        assert HasEdge(h, u, v);
      }
    }
    assert h.adj == R.adj;
  }

  /** Every blocked hop leaves the spur station `root[j]`. */
  lemma {:induction false} BlocksLeaveSpur(A: seq<PathInfo>, root: seq<string>, j: nat, u: string, v: string)
    requires |root| == j + 1 && Blocks(A, root, j, u, v)
    ensures u == root[j]
    decreases |A|
  {
    var p := A[|A| - 1].path;
    if SpurEdge(p, root, j, u, v) {
      assert root[j] == p[..j + 1][j];
    } else {
      BlocksLeaveSpur(A[..|A| - 1], root, j, u, v);
    }
  }

  /** The loop over `A` that fills `removedEdges`: deletes exactly the
      hops after the root of the accepted paths sharing the root, and
      records each deleted edge with its original record. */
  method RemoveRootEdges(g: Graph, A: seq<PathInfo>, root: seq<string>, j: nat)
    returns (h: Graph, removed: seq<Removed>)
    ensures Lacks(h, g, PairsOf(removed))
    ensures forall r :: r in removed ==> HasEdge(g, r.from, r.to) && r.data == g.adj[r.from][r.to]
    ensures forall u, v :: HasEdge(h, u, v) <==> HasEdge(g, u, v) && !Blocks(A, root, j, u, v)
    ensures h == Reduced(g, A, root, j)
  {
    h, removed := g, [];
    var t := 0;
    while t < |A|
      invariant t <= |A|
      invariant Lacks(h, g, PairsOf(removed))
      invariant forall r :: r in removed ==> HasEdge(g, r.from, r.to) && r.data == g.adj[r.from][r.to]
      invariant forall u, v :: HasEdge(h, u, v) <==> HasEdge(g, u, v) && !Blocks(A[..t], root, j, u, v)
    {
      var p := A[t].path;
      BlocksNext(A, t, root, j);
      if |p| > j && p[..j + 1] == root {
        if |p| > j + 1 && HasEdge(h, p[j], p[j + 1]) {
          var r := Removed(p[j], p[j + 1], h.adj[p[j]][p[j + 1]]);
          DeleteStep(h, g, PairsOf(removed), p[j], p[j + 1]);
          assert (removed + [r])[..|removed|] == removed;
          removed := removed + [r];
          h := DeleteEdge(h, p[j], p[j + 1]);
        }
      }
      t := t + 1;
    }
    assert A[..t] == A;
    ReducedMatches(h, g, PairsOf(removed), A, root, j);
  }

  /** The loop over `removedEdges` that writes every record back: the
      adjacency map is the one before the deletions. */
  method RestoreEdges(h: Graph, removed: seq<Removed>, ghost g: Graph) returns (h': Graph)
    requires Lacks(h, g, PairsOf(removed))
    requires forall r :: r in removed ==> HasEdge(g, r.from, r.to) && r.data == g.adj[r.from][r.to]
    ensures h' == g
  {
    h' := h;
    var t := 0;
    while t < |removed|
      invariant t <= |removed|
      invariant Lacks(h', g, PairsOf(removed) - PairsOf(removed[..t]))
    {
      var r := removed[t];
      assert removed[..t + 1][..t] == removed[..t];
      RestoreStep(h', g, PairsOf(removed) - PairsOf(removed[..t]), r);
      h' := RestoreEdge(h', r);
      t := t + 1;
    }
    assert removed[..t] == removed;
    LacksNothing(h', g);
  }

  // ---------------------------------------------------------------------
  // Candidates and the pool `B`.

  function CostKey(a: PathInfo): Ext {
    a.cost
  }

  /** `B.sort((a, b) => a.cost - b.cost); B.shift()`: the first cheapest
      candidate, and the rest of the pool in sorted order. */
  function PopCheapest(B: seq<PathInfo>): (r: (PathInfo, seq<PathInfo>))
    requires |B| > 0
    ensures r.0 == B[FirstMin(B, CostKey)]
    ensures multiset(r.1) + multiset{r.0} == multiset(B)
    ensures forall c :: c in r.1 ==> Le(r.0.cost, c.cost)
    ensures Sorted(r.1, CostKey)
  {
    var s := SortBy(B, CostKey);
    SortHeadIsFirstMin(B, CostKey);
    SortByIsSorted(B, CostKey);
    SortedPop(s, CostKey);
    (s[0], s[1..])
  }

  /** What every accepted path and every pooled candidate satisfies: a
      path from source to destination in the graph, whose recorded cost
      and time are either Infinity or the path's cost and time there. */
  ghost predicate Candidate(g: Graph, source: string, dest: string, c: PathInfo) {
    && IsPathFromTo(g, c.path, source, dest)
    && (c.cost.Inf? || c.cost == PathSum(g, c.path, Cost))
    && (c.time.Inf? || c.time == PathSum(g, c.path, Time))
  }

  /** A sum computed in a graph with edges deleted is Infinity or the sum
      in the full graph. */
  lemma SumInSubGraph(h: Graph, g: Graph, p: seq<string>, m: Metric)
    requires SubGraph(h, g)
    ensures PathSum(h, p, m).Inf? || PathSum(h, p, m) == PathSum(g, p, m)
  {
    if PathSum(h, p, m).Fin? {
      PathSumSubGraph(h, g, p, m);
    }
  }

  /** Root path plus spur path is a path from the source to the destination. */
  lemma SpliceIsPath(g: Graph, h: Graph, root: seq<string>, spurPath: seq<string>,
                     source: string, spur: string, dest: string)
    requires SubGraph(h, g)
    requires |root| > 0 && root[0] == source && root[|root| - 1] == spur && IsWalk(g, root)
    requires IsPathFromTo(h, spurPath, spur, dest)
    ensures IsPathFromTo(g, root + spurPath[1..], source, dest)
  {
    PathSumSubGraph(h, g, spurPath, Cost);
    WalkJoin(g, root, spurPath);
    var t := root + spurPath[1..];
    if |spurPath| == 1 {
      assert t == root;
    } else {
      assert t[|t| - 1] == spurPath[|spurPath| - 1];
    }
  }

  /** The candidate built for spur index `j` of `last`. */
  lemma SpliceCandidate(g: Graph, h: Graph, source: string, dest: string, last: seq<string>, j: nat,
                        spurPath: seq<string>, c: PathInfo)
    requires SubGraph(h, g) && IsPathFromTo(g, last, source, dest) && j < |last| - 1
    requires IsPathFromTo(h, spurPath, last[j], dest)
    requires c.path == last[..j + 1] + spurPath[1..]
    requires c.cost == PathSum(h, c.path, Cost) && c.time == PathSum(h, c.path, Time)
    ensures Candidate(g, source, dest, c) && |c.path| > j && c.path[..j + 1] == last[..j + 1]
  {
    WalkPrefix(g, last, j + 1);
    SpliceIsPath(g, h, last[..j + 1], spurPath, source, last[j], dest);
    SumInSubGraph(h, g, c.path, Cost);
    SumInSubGraph(h, g, c.path, Time);
    assert c.path[..j + 1] == last[..j + 1];
  }

  /** The first position of `x` in `s`. */
  function FirstIndex(s: seq<string>, x: string): (r: nat)
    requires x in s
    ensures r < |s| && s[r] == x
    ensures forall t :: 0 <= t < r ==> s[t] != x
  {
    if s[0] == x then 0 else 1 + FirstIndex(s[1..], x)
  }

  /** When every deleted hop leaves the spur station `last[j]`, the
      stretch of `last` up to the first visit of that station survives the
      deletions; so a spur path in the reduced graph makes the destination
      reachable from the source in it too. */
  lemma SpurReachesFromSource(g: Graph, h: Graph, last: seq<string>, source: string, dest: string, j: nat)
    requires IsPathFromTo(g, last, source, dest) && j < |last|
    requires forall u, v :: HasEdge(g, u, v) && !HasEdge(h, u, v) ==> u == last[j]
    requires Reachable(h, last[j], dest)
    ensures Reachable(h, source, dest)
  {
    var i0 := FirstIndex(last, last[j]);
    assert i0 <= j;
    var q := last[..i0 + 1];
    forall i | 0 <= i < |q| - 1
      ensures HasEdge(h, q[i], q[i + 1])
    {
      assert q[i] == last[i] && q[i + 1] == last[i + 1];
      assert HasEdge(g, last[i], last[i + 1]);
    }
    var p :| IsPathFromTo(h, p, last[j], dest);
    WalkJoin(h, q, p);
    var t := q + p[1..];
    if |p| == 1 {
      assert t == q;
    } else {
      assert t[|t| - 1] == p[|p| - 1];
    }
    assert IsPathFromTo(h, t, source, dest);
  }

  /** The searches in the reduced graph `h`: the spur path from
      `last[j]`, and when there is one the candidate it makes. */
  method SpurSearch(g: Graph, h: Graph, source: string, dest: string, last: seq<string>, j: nat)
    returns (c: Option<PathInfo>)
    requires WellFormed(h) && NonNegative(h) && SubGraph(h, g)
    requires source in g.nodes && dest in g.nodes
    requires IsPathFromTo(g, last, source, dest) && j < |last| - 1
    requires forall u, v :: HasEdge(g, u, v) && !HasEdge(h, u, v) ==> u == last[j]
    ensures c.Some? <==> Reachable(h, last[j], dest)
    ensures c.Some? ==> Candidate(g, source, dest, c.value) && |c.value.path| > j && c.value.path[..j + 1] == last[..j + 1]
    ensures c.Some? ==> Shortest(h, c.value.path[j..], last[j], dest, Weighted(DefaultWeight, DefaultWeight))
    ensures c.Some? ==> c.value.cost == PathSum(h, c.value.path, Cost) && c.value.time == PathSum(h, c.value.path, Time)
    ensures c.Some? ==> Reachable(h, source, dest) && c.value.segments.Some?
    ensures c.Some? ==> exists info :: (
      && IsDijkstraResult(h, source, dest, Weighted(DefaultWeight, DefaultWeight), info)
      && c.value.modes == info.modes && c.value.segments == info.segments)
  {
    assert HasEdge(g, last[j], last[j + 1]);
    var spurInfo := ShortestPath(h, last[j], dest, DefaultWeight, DefaultWeight);
    if |spurInfo.path| == 0 {
      return None;
    }
    ResultIsPath(h, last[j], dest, Weighted(DefaultWeight, DefaultWeight), spurInfo);
    SpurReachesFromSource(g, h, last, source, dest, j);
    var total := last[..j + 1] + spurInfo.path[1..];
    assert total[j..] == spurInfo.path;
    var combined := ShortestPath(h, source, dest, DefaultWeight, DefaultWeight);
    var cost := CalculatePathSum(h, total, Cost);
    var time := CalculatePathSum(h, total, Time);
    var cand := PathInfo(total, combined.modes, cost, time, combined.segments);
    SpliceCandidate(g, h, source, dest, last, j, spurInfo.path, cand);
    c := Some(cand);
  }

  /** The spur station `last[j]` of the last accepted route reaches the
      destination once the blocked hops after its root are deleted. */
  ghost predicate ReachSpur(g: Graph, A: seq<PathInfo>, dest: string, j: nat)
    requires |A| > 0 && j < |A[|A| - 1].path|
  {
    var last := A[|A| - 1].path;
    Reachable(Reduced(g, A, last[..j + 1], j), last[j], dest)
  }

  /** The spur indices below `n` that yield a candidate, in increasing
      order: the order in which the `for (let j …)` loop pushes them. */
  ghost function SpurIndices(g: Graph, A: seq<PathInfo>, dest: string, n: nat): (r: seq<nat>)
    requires |A| > 0 && (n == 0 || n < |A[|A| - 1].path|)
    ensures forall j: nat :: j in r <==> j < n && ReachSpur(g, A, dest, j)
    ensures forall t :: 0 <= t < |r| ==> r[t] < n
    ensures forall s, t :: 0 <= s < t < |r| ==> r[s] < r[t]
    decreases n
  {
    if n == 0 then []
    else
      var r0 := SpurIndices(g, A, dest, n - 1);
      r0 + (if ReachSpur(g, A, dest, n - 1) then [n - 1] else [])
  }

  /** The candidate spur index `j` pushes: a path from source to
      destination that keeps the root `last[..j + 1]` and continues with a
      shortest path from the spur station in the reduced graph; cost and
      time summed in the reduced graph; modes and segments of a search
      from the source in the reduced graph, which reaches the destination. */
  ghost predicate SpurCand(g: Graph, A: seq<PathInfo>, source: string, dest: string, j: nat, c: PathInfo)
    requires |A| > 0 && j + 1 < |A[|A| - 1].path|
  {
    var last := A[|A| - 1].path;
    var h := Reduced(g, A, last[..j + 1], j);
    && Candidate(g, source, dest, c) && c.segments.Some?
    && |c.path| > j && c.path[..j + 1] == last[..j + 1]
    && Shortest(h, c.path[j..], last[j], dest, Weighted(DefaultWeight, DefaultWeight))
    && c.cost == PathSum(h, c.path, Cost) && c.time == PathSum(h, c.path, Time)
    && exists info :: (
      && IsDijkstraResult(h, source, dest, Weighted(DefaultWeight, DefaultWeight), info)
      && c.modes == info.modes && c.segments == info.segments)
  }

  /** One spur station: delete the root's next hops, search from the spur
      station, add the candidate `rootPath + spurPath[1..]` (with the modes
      and segments of a fresh search from the source in the same reduced
      graph) and restore the deleted edges. */
  method SpurCandidates(g: Graph, source: string, dest: string, A: seq<PathInfo>, j: nat, B: seq<PathInfo>)
    returns (B': seq<PathInfo>, g': Graph)
    requires WellFormed(g) && NonNegative(g) && source in g.nodes && dest in g.nodes
    requires |A| > 0 && Candidate(g, source, dest, A[|A| - 1]) && j < |A[|A| - 1].path| - 1
    ensures g' == g
    ensures |B| <= |B'| <= |B| + 1 && B'[..|B|] == B
    ensures |B'| == |B| + 1 <==> ReachSpur(g, A, dest, j)
    ensures |B'| == |B| + 1 ==> SpurCand(g, A, source, dest, j, B'[|B|])
  {
    var last := A[|A| - 1].path;
    var h, removed := RemoveRootEdges(g, A, last[..j + 1], j);
    LacksFacts(h, g, PairsOf(removed));
    forall u, v | HasEdge(g, u, v) && !HasEdge(h, u, v)
      ensures u == last[j]
    {
      BlocksLeaveSpur(A, last[..j + 1], j, u, v);
    }
    var c := SpurSearch(g, h, source, dest, last, j);
    B' := if c.Some? then B + [c.value] else B;
    g' := RestoreEdges(h, removed, g);
  }

  /** Every accepted route and pooled candidate is a candidate and carries
      segments. */
  ghost predicate AllCandidates(g: Graph, source: string, dest: string, cs: seq<PathInfo>) {
    forall c :: c in cs ==> Candidate(g, source, dest, c) && c.segments.Some?
  }

  /** `B'` is `B` followed by one candidate per index of `js`. */
  ghost predicate AddedFor(g: Graph, source: string, dest: string, A: seq<PathInfo>,
                           B: seq<PathInfo>, B': seq<PathInfo>, js: seq<nat>)
    requires |A| > 0
  {
    && |B'| == |B| + |js| && B'[..|B|] == B
    && forall t :: 0 <= t < |js| ==>
      js[t] + 1 < |A[|A| - 1].path| && SpurCand(g, A, source, dest, js[t], B'[|B| + t])
  }

  /** A round of spur searches from the last accepted route turns pool `B`
      into `B'`: `B` followed by the candidate of every spur index that
      reaches the destination, in increasing index order. */
  ghost predicate Extends(g: Graph, source: string, dest: string, A: seq<PathInfo>,
                          B: seq<PathInfo>, B': seq<PathInfo>)
    requires |A| > 0
  {
    var n := if |A[|A| - 1].path| > 0 then |A[|A| - 1].path| - 1 else 0;
    AddedFor(g, source, dest, A, B, B', SpurIndices(g, A, dest, n))
  }

  lemma AddedStep(g: Graph, source: string, dest: string, A: seq<PathInfo>, B: seq<PathInfo>,
                  B': seq<PathInfo>, js: seq<nat>, j: nat, B'': seq<PathInfo>)
    requires |A| > 0 && AddedFor(g, source, dest, A, B, B', js)
    requires |B'| <= |B''| <= |B'| + 1 && B''[..|B'|] == B'
    requires |B''| == |B'| + 1 ==> j + 1 < |A[|A| - 1].path| && SpurCand(g, A, source, dest, j, B''[|B'|])
    ensures AddedFor(g, source, dest, A, B, B'', js + (if |B''| == |B'| + 1 then [j] else []))
  {
    var js' := js + (if |B''| == |B'| + 1 then [j] else []);
    assert B''[..|B|] == B''[..|B'|][..|B|];
    forall t | 0 <= t < |js'|
      ensures js'[t] + 1 < |A[|A| - 1].path| && SpurCand(g, A, source, dest, js'[t], B''[|B| + t])
    {
      if t < |js| {
        assert js'[t] == js[t];
        assert B''[|B| + t] == B''[..|B'|][|B| + t];
      }
    }
  }

  /** One spur index of `ExtendPool`'s loop. */
  lemma ExtendStep(g: Graph, source: string, dest: string, A: seq<PathInfo>, B: seq<PathInfo>,
                   B': seq<PathInfo>, j: nat, B'': seq<PathInfo>)
    requires |A| > 0 && j + 1 < |A[|A| - 1].path|
    requires AddedFor(g, source, dest, A, B, B', SpurIndices(g, A, dest, j))
    requires AllCandidates(g, source, dest, B')
    requires |B'| <= |B''| <= |B'| + 1 && B''[..|B'|] == B'
    requires |B''| == |B'| + 1 <==> ReachSpur(g, A, dest, j)
    requires |B''| == |B'| + 1 ==> SpurCand(g, A, source, dest, j, B''[|B'|])
    ensures AddedFor(g, source, dest, A, B, B'', SpurIndices(g, A, dest, j + 1))
    ensures AllCandidates(g, source, dest, B'')
  {
    var js := SpurIndices(g, A, dest, j);
    AddedStep(g, source, dest, A, B, B', js, j, B'');
    assert SpurIndices(g, A, dest, j + 1) == js + (if |B''| == |B'| + 1 then [j] else []);
    CandidatesStep(g, source, dest, B', B'');
  }

  lemma CandidatesStep(g: Graph, source: string, dest: string, B': seq<PathInfo>, B'': seq<PathInfo>)
    requires AllCandidates(g, source, dest, B')
    requires |B'| <= |B''| <= |B'| + 1 && B''[..|B'|] == B'
    requires |B''| == |B'| + 1 ==> Candidate(g, source, dest, B''[|B'|]) && B''[|B'|].segments.Some?
    ensures AllCandidates(g, source, dest, B'')
  {
    assert forall c :: c in B'' ==> c in B' || (|B''| == |B'| + 1 && c == B''[|B'|]) by {
      assert B'' == B''[..|B'|] + B''[|B'|..];
    }
  }

  /** The loop over the spur stations of the last accepted path: every
      spur station adds at most one candidate to the pool. */
  method ExtendPool(g: Graph, source: string, dest: string, A: seq<PathInfo>, B: seq<PathInfo>)
    returns (B': seq<PathInfo>, g': Graph)
    requires WellFormed(g) && NonNegative(g) && source in g.nodes && dest in g.nodes
    requires |A| > 0 && Candidate(g, source, dest, A[|A| - 1])
    requires AllCandidates(g, source, dest, B)
    ensures g' == g
    ensures Extends(g, source, dest, A, B, B')
    ensures AllCandidates(g, source, dest, B')
  {
    var last := A[|A| - 1];
    B', g' := B, g;
    var j := 0;
    while j < |last.path| - 1
      invariant g' == g
      invariant j <= |last.path| - 1
      invariant AddedFor(g, source, dest, A, B, B', SpurIndices(g, A, dest, j))
      invariant AllCandidates(g, source, dest, B')
    {
      var B'', g'' := SpurCandidates(g', source, dest, A, j, B');
      ExtendStep(g, source, dest, A, B, B', j, B'');
      B', g' := B'', g'';
      j := j + 1;
    }
  }

  function Max(a: int, b: int): int {
    if a < b then b else a
  }

  /** Route `t + 1` is the first cheapest candidate of pool `t`. */
  ghost predicate Picked(routes: seq<PathInfo>, pools: seq<seq<PathInfo>>) {
    forall t :: 0 <= t < |routes| - 1 ==>
      t < |pools| && |pools[t]| > 0 && routes[t + 1] == pools[t][FirstMin(pools[t], CostKey)]
  }

  /** The pool a round starts from: empty before the first round, then
      what the previous round's pop left. */
  ghost function PoolBefore(pools: seq<seq<PathInfo>>, t: nat): seq<PathInfo>
    requires t <= |pools| && (t > 0 ==> |pools[t - 1]| > 0)
  {
    if t == 0 then [] else PopCheapest(pools[t - 1]).1
  }

  /** Pool `t` is what round `t` of spur searches, from route `t`, makes
      of the pool before it. */
  ghost predicate GrownAt(g: Graph, source: string, dest: string, routes: seq<PathInfo>,
                          pools: seq<seq<PathInfo>>, t: nat)
    requires t < |pools|
  {
    && t < |routes| && (t > 0 ==> |pools[t - 1]| > 0)
    && Extends(g, source, dest, routes[..t + 1], PoolBefore(pools, t), pools[t])
  }

  ghost predicate Grown(g: Graph, source: string, dest: string, routes: seq<PathInfo>, pools: seq<seq<PathInfo>>) {
    forall t: nat :: t < |pools| ==> GrownAt(g, source, dest, routes, pools, t)
  }

  ghost predicate AllPools(g: Graph, source: string, dest: string, pools: seq<seq<PathInfo>>) {
    forall t :: 0 <= t < |pools| ==> AllCandidates(g, source, dest, pools[t])
  }

  /** A round of spur searches that yields pool `B`, then a pop from it. */
  lemma PickStep(routes: seq<PathInfo>, pools: seq<seq<PathInfo>>, B: seq<PathInfo>)
    requires Picked(routes, pools) && |pools| == |routes| - 1 && |B| > 0
    ensures Picked(routes + [B[FirstMin(B, CostKey)]], pools + [B])
  {
    var routes', pools' := routes + [B[FirstMin(B, CostKey)]], pools + [B];
    forall t | 0 <= t < |routes'| - 1
      ensures t < |pools'| && |pools'[t]| > 0 && routes'[t + 1] == pools'[t][FirstMin(pools'[t], CostKey)]
    {
      if t < |pools| {
        assert pools'[t] == pools[t];
        assert routes'[t + 1] == routes[t + 1];
      } else {
        assert pools'[t] == B;
      }
    }
  }

  /** A round that ends with an empty pool picks nothing. */
  lemma StopStep(routes: seq<PathInfo>, pools: seq<seq<PathInfo>>, B: seq<PathInfo>)
    requires Picked(routes, pools) && |pools| == |routes| - 1
    ensures Picked(routes, pools + [B])
  {
    forall t | 0 <= t < |routes| - 1
      ensures (pools + [B])[t] == pools[t]
    {
    }
  }

  lemma GrownStep(g: Graph, source: string, dest: string, A: seq<PathInfo>, pools: seq<seq<PathInfo>>,
                  P: seq<PathInfo>)
    requires Grown(g, source, dest, A, pools) && |pools| == |A| - 1
    requires |pools| > 0 ==> |pools[|pools| - 1]| > 0
    requires Extends(g, source, dest, A, PoolBefore(pools, |pools|), P)
    ensures Grown(g, source, dest, A, pools + [P])
  {
    var pools' := pools + [P];
    forall t: nat | t < |pools'|
      ensures GrownAt(g, source, dest, A, pools', t)
    {
      if t < |pools| {
        assert GrownAt(g, source, dest, A, pools, t);
        assert pools'[t] == pools[t];
        assert t > 0 ==> pools'[t - 1] == pools[t - 1];
        assert PoolBefore(pools', t) == PoolBefore(pools, t);
      } else {
        assert A[..t + 1] == A;
        assert t > 0 ==> pools'[t - 1] == pools[t - 1];
      }
    }
  }

  /** Accepting one more route leaves the pools' history as it was. */
  lemma GrownPick(g: Graph, source: string, dest: string, A: seq<PathInfo>, pools: seq<seq<PathInfo>>,
                  x: PathInfo)
    requires Grown(g, source, dest, A, pools) && |pools| <= |A|
    ensures Grown(g, source, dest, A + [x], pools)
  {
    forall t: nat | t < |pools|
      ensures GrownAt(g, source, dest, A + [x], pools, t)
    {
      assert GrownAt(g, source, dest, A, pools, t);
      assert (A + [x])[..t + 1] == A[..t + 1];
    }
  }

  lemma AllPoolsStep(g: Graph, source: string, dest: string, pools: seq<seq<PathInfo>>, B: seq<PathInfo>)
    requires AllPools(g, source, dest, pools) && AllCandidates(g, source, dest, B)
    ensures AllPools(g, source, dest, pools + [B])
  {
    forall t | 0 <= t < |pools| + 1
      ensures AllCandidates(g, source, dest, (pools + [B])[t])
    {
      if t < |pools| {
        assert (pools + [B])[t] == pools[t];
      }
    }
  }

  /** Popping from a pool of candidates leaves candidates. */
  lemma PopCandidates(g: Graph, source: string, dest: string, B: seq<PathInfo>)
    requires |B| > 0 && AllCandidates(g, source, dest, B)
    ensures Candidate(g, source, dest, PopCheapest(B).0) && PopCheapest(B).0.segments.Some?
    ensures AllCandidates(g, source, dest, PopCheapest(B).1)
  {
    var next := PopCheapest(B);
    assert next.0 in multiset(B);
    assert forall c :: c in next.1 ==> c in multiset(B);
  }

  /** What Yen's loop keeps between rounds: routes and pools are
      candidates, there is one pool per route after the first, each route
      after the first was picked from its pool, and the current pool `B` is
      what the last pop left. */
  ghost predicate Rounds(g: Graph, source: string, dest: string, A: seq<PathInfo>, B: seq<PathInfo>,
                         pools: seq<seq<PathInfo>>) {
    && |A| > 0 && |pools| == |A| - 1
    && AllCandidates(g, source, dest, A) && AllCandidates(g, source, dest, B)
    && AllPools(g, source, dest, pools) && Picked(A, pools) && Grown(g, source, dest, A, pools)
    && (|pools| > 0 ==> |pools[|pools| - 1]| > 0)
    && B == PoolBefore(pools, |pools|)
  }

  /** One pass of the `for (let i = 1; i < k; i++)` loop: extend the pool
      from the last route, then stop if it is empty, or move its first
      cheapest candidate to the routes. */
  method Round(g: Graph, source: string, dest: string, A: seq<PathInfo>, B: seq<PathInfo>,
               ghost pools: seq<seq<PathInfo>>)
    returns (A': seq<PathInfo>, B': seq<PathInfo>, after: Graph, stop: bool, ghost pools': seq<seq<PathInfo>>)
    requires WellFormed(g) && NonNegative(g) && source in g.nodes && dest in g.nodes
    requires Rounds(g, source, dest, A, B, pools)
    ensures after == g
    ensures |pools'| == |pools| + 1 && pools'[..|pools|] == pools
    ensures Extends(g, source, dest, A, B, pools'[|pools|])
    ensures stop <==> pools'[|pools|] == []
    ensures stop ==> A' == A && Picked(A, pools') && AllPools(g, source, dest, pools') && Grown(g, source, dest, A, pools')
    ensures !stop ==> A' == A + [pools'[|pools|][FirstMin(pools'[|pools|], CostKey)]]
    ensures !stop ==> Rounds(g, source, dest, A', B', pools')
  {
    var pool;
    pool, after := ExtendPool(g, source, dest, A, B);
    GrownStep(g, source, dest, A, pools, pool);
    AllPoolsStep(g, source, dest, pools, pool);
    pools' := pools + [pool];
    assert pools'[..|pools|] == pools;
    if |pool| == 0 {
      StopStep(A, pools, pool);
      return A, pool, after, true, pools';
    }
    PickStep(A, pools, pool);
    var next := PopCheapest(pool);
    PopCandidates(g, source, dest, pool);
    GrownPick(g, source, dest, A, pools', next.0);
    assert PoolBefore(pools', |pools'|) == next.1;
    A', B', stop := A + [next.0], next.1, false;
  }

  /** What `yenKShortestPaths` returns for two existing stations, with
      `pools[t]` the pool `B` after round `t` of spur searches: no routes
      exactly when the destination is unreachable; otherwise the Dijkstra
      route first; pool `t` is the pool before it extended from route `t`;
      route `t + 1` is the first cheapest candidate of pool `t`; and the
      rounds stop at `k` routes, or earlier exactly when a round ends with
      an empty pool. */
  ghost predicate YenRoutes(g: Graph, source: string, dest: string, k: int,
                            routes: seq<PathInfo>, pools: seq<seq<PathInfo>>) {
    && (|routes| == 0 <==> !Reachable(g, source, dest))
    && (|routes| == 0 ==> pools == [])
    && (|routes| > 0 ==> IsDijkstraResult(g, source, dest, Weighted(DefaultWeight, DefaultWeight), routes[0]))
    && |routes| <= Max(k, 1)
    && AllCandidates(g, source, dest, routes)
    && AllPools(g, source, dest, pools)
    && Picked(routes, pools)
    && Grown(g, source, dest, routes, pools)
    && (0 < |routes| < Max(k, 1) ==> |pools| == |routes| && pools[|pools| - 1] == [])
    && (|routes| == Max(k, 1) ==> |pools| == |routes| - 1)
  }

  /** `yenKShortestPaths(source, destination, k)`. Throws unless both
      stations exist; otherwise the routes and pools of `YenRoutes`. The
      adjacency map is left as it was. */
  method YenKShortestPaths(g: Graph, source: string, dest: string, k: int)
    returns (r: Result<seq<PathInfo>>, after: Graph, ghost pools: seq<seq<PathInfo>>)
    requires WellFormed(g) && NonNegative(g)
    ensures after == g
    ensures r.Failure? <==> source !in g.nodes || dest !in g.nodes
    ensures r.Failure? ==> pools == []
    ensures r.Success? ==> YenRoutes(g, source, dest, k, r.value, pools)
  {
    after, pools := g, [];
    if source !in g.nodes || dest !in g.nodes {
      return Failure("Both source and destination stations must exist in the graph."), after, pools;
    }
    var first := ShortestPath(g, source, dest, DefaultWeight, DefaultWeight);
    if |first.path| == 0 {
      return Success([]), after, pools;
    }
    var cost := CalculatePathSum(g, first.path, Cost);
    var time := CalculatePathSum(g, first.path, Time);
    var A := [PathInfo(first.path, first.modes, cost, time, first.segments)];
    assert A[0] == first;
    var B: seq<PathInfo> := [];
    var i := 1;
    while i < k
      invariant 1 <= |A| == i <= Max(k, 1)
      invariant after == g
      invariant A[0] == first
      invariant Rounds(g, source, dest, A, B, pools)
      decreases k - i
    {
      var stop;
      A, B, after, stop, pools := Round(after, source, dest, A, B, pools);
      if stop {
        break;
      }
      i := i + 1;
    }
    r := Success(A);
  }
}
