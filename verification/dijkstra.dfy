/** `StationGraph.dijkstra`: the lowest-score path between two stations,
    where an edge scores `cost * costWeight + time * timeWeight`. */
module Dijkstra {
  import opened ExtReal
  import opened Results
  import opened StationGraph
  import opened Paths
  import opened StableSort

  /** One leg of a returned path, read from the adjacency map. */
  datatype Segment = Segment(from: string, to: string, mode: string, cost: real, time: real, capacity: Option<int>)

  /** The record `dijkstra` returns and Yen's algorithm stores; the record
      for an unreachable target has no `segments` field. */
  datatype PathInfo = PathInfo(path: seq<string>, modes: seq<string>, cost: Ext, time: Ext, segments: Option<seq<Segment>>)

  const Unreachable := PathInfo([], [], Fin(0.0), Fin(0.0), None)

  /** A frontier entry `{ station, score }`. */
  datatype Entry = Entry(station: string, score: real)

  function EntryKey(e: Entry): Ext {
    Fin(e.score)
  }

  function SegmentOf(g: Graph, u: string, v: string): Segment
    requires HasEdge(g, u, v)
  {
    var e := g.adj[u][v];
    Segment(u, v, e.mode, e.cost, e.time, e.capacity)
  }

  /** Segment `i` runs from `p[i]` to `p[i + 1]` with that edge's values. */
  ghost predicate SegmentsFollow(g: Graph, p: seq<string>, segs: seq<Segment>) {
    && |segs| == |p| - 1
    && forall i :: 0 <= i < |segs| ==> HasEdge(g, p[i], p[i + 1]) && segs[i] == SegmentOf(g, p[i], p[i + 1])
  }

  /** Mode `i` is the mode of the edge from `p[i]` to `p[i + 1]`. */
  ghost predicate ModesFollow(g: Graph, p: seq<string>, modes: seq<string>) {
    && |modes| == |p| - 1
    && forall i :: 0 <= i < |modes| ==> HasEdge(g, p[i], p[i + 1]) && modes[i] == g.adj[p[i]][p[i + 1]].mode
  }

  /** `p` runs from `s` to `t` and no path from `s` to `t` scores less. */
  ghost predicate Shortest(g: Graph, p: seq<string>, s: string, t: string, m: Metric) {
    && IsPathFromTo(g, p, s, t)
    && forall q :: IsPathFromTo(g, q, s, t) ==> PathSum(g, p, m).val <= PathSum(g, q, m).val
  }

  /** What a successful `dijkstra` call returns. */
  ghost predicate IsDijkstraResult(g: Graph, start: string, end: string, m: Metric, info: PathInfo) {
    if !Reachable(g, start, end) then
      info == Unreachable
    else
      && Shortest(g, info.path, start, end, m)
      && ModesFollow(g, info.path, info.modes)
      && info.cost == PathSum(g, info.path, Cost)
      && info.time == PathSum(g, info.path, Time)
      && info.segments.Some?
      && SegmentsFollow(g, info.path, info.segments.value)
  }

  // ---------------------------------------------------------------------
  // Invariants of the search loop, one concept each.

  /** Every neighbour of `u` has a distance no larger than through `u`. */
  ghost predicate Relaxed(g: Graph, m: Metric, D: map<string, real>, u: string) {
    && u in D
    && forall v :: HasEdge(g, u, v) ==> v in D && D[v] <= D[u] + Weight(g.adj[u][v], m)
  }

  /** The distance of `u` is no larger than the score of any path to it. */
  ghost predicate Settled(g: Graph, m: Metric, start: string, D: map<string, real>, u: string) {
    && u in D
    && forall p :: IsPathFromTo(g, p, start, u) ==> D[u] <= PathSum(g, p, m).val
  }

  /** Distances are known only for stations, are never negative, and the
      start is at distance 0; visited stations have distances. */
  ghost predicate Domains(g: Graph, start: string, D: map<string, real>, V: set<string>) {
    && D.Keys <= g.nodes.Keys && V <= D.Keys
    && start in D && D[start] == 0.0
    && forall v :: v in D ==> D[v] >= 0.0
  }

  /** Visited stations are numbered below `n` in visiting order. */
  ghost predicate Ranked(V: set<string>, rank: map<string, nat>, n: nat) {
    && (forall v :: v in rank <==> v in V)
    && forall v :: v in rank ==> rank[v] < n
  }

  /** Every queued score is at least the queued station's distance and at
      least the last popped score. */
  ghost predicate Queued(D: map<string, real>, Q: seq<Entry>, last: real) {
    forall e :: e in Q ==> e.station in D && D[e.station] <= e.score && last <= e.score
  }

  /** Every station with a distance but not yet visited is queued with
      exactly that distance. */
  ghost predicate Frontier(D: map<string, real>, V: set<string>, Q: seq<Entry>) {
    forall v :: v in D && v !in V ==> Entry(v, D[v]) in Q
  }

  /** Visited stations are settled, no further than the last popped score. */
  ghost predicate AllSettled(g: Graph, m: Metric, start: string, D: map<string, real>, V: set<string>, last: real) {
    forall x :: x in V ==> Settled(g, m, start, D, x) && D[x] <= last
  }

  /** The predecessor links form a tree rooted at `start` whose edges carry
      the distances; a visited station's parent was visited before it. */
  ghost predicate Tree(g: Graph, m: Metric, start: string, D: map<string, real>, prev: map<string, string>,
                       modes: map<string, string>, V: set<string>, rank: map<string, nat>) {
    && start !in prev
    && (forall v :: v in D ==> v == start || v in prev)
    // Triggering on `prev[v]` (not `v in prev`) keeps the solver from
    // walking up the tree without end.
    && forall v {:trigger prev[v]} :: v in prev ==>
         && v in D && prev[v] in V && prev[v] in D && prev[v] in rank
         && HasEdge(g, prev[v], v)
         && D[v] == D[prev[v]] + Weight(g.adj[prev[v]][v], m)
         && v in modes && modes[v] == g.adj[prev[v]][v].mode
         && (v in rank ==> rank[prev[v]] < rank[v])
  }

  ghost predicate SearchState(g: Graph, m: Metric, start: string, D: map<string, real>,
                              prev: map<string, string>, modes: map<string, string>, V: set<string>,
                              Q: seq<Entry>, rank: map<string, nat>, n: nat, last: real) {
    && Domains(g, start, D, V)
    && Ranked(V, rank, n)
    && Queued(D, Q, last)
    && Frontier(D, V, Q)
    && AllSettled(g, m, start, D, V, last)
    && Tree(g, m, start, D, prev, modes, V, rank)
  }

  /** What the search loop leaves behind for the path reconstruction. */
  ghost predicate SearchDone(g: Graph, m: Metric, start: string, end: string, D: map<string, real>,
                             prev: map<string, string>, modes: map<string, string>,
                             V: set<string>, rank: map<string, nat>) {
    && V <= D.Keys
    && start in D && D[start] == 0.0
    && (forall v :: v in rank <==> v in V)
    && Tree(g, m, start, D, prev, modes, V, rank)
    && (forall x :: x in V ==> Settled(g, m, start, D, x))
    && (forall x :: x in V && x != end ==> Relaxed(g, m, D, x))
    && (end in D ==> end in V)
    && (end !in D ==> start in V && V == D.Keys)
  }

  // ---------------------------------------------------------------------
  // The correctness argument.

  /** The first hop of a path that leaves the set `V`. */
  lemma FirstLeaving(p: seq<string>, V: set<string>) returns (k: nat)
    requires |p| > 0 && p[0] in V && p[|p| - 1] !in V
    ensures 1 <= k < |p| && p[k - 1] in V && p[k] !in V
  {
    k := 1;
    while p[k] in V
      invariant 1 <= k < |p| && p[k - 1] in V
      decreases |p| - k
    {
      k := k + 1;
    }
  }

  /** The popped station's distance cannot be beaten: any path to it leaves
      the visited set at some station whose queued distance is at least the
      popped score. */
  lemma {:induction false} VisitSettles(g: Graph, m: Metric, start: string, D: map<string, real>,
                                       V: set<string>, Q: seq<Entry>, u: string)
    requires NonNegative(g) && NonNegativeMetric(m)
    requires V <= D.Keys
    requires forall x :: x in V ==> Relaxed(g, m, D, x)
    requires forall x :: x in V ==> Settled(g, m, start, D, x)
    requires Frontier(D, V, Q)
    requires u in D && u !in V
    requires forall e :: e in Q ==> D[u] <= e.score
    requires start in V || (u == start && D[start] == 0.0)
    ensures Settled(g, m, start, D, u)
  {
    forall p | IsPathFromTo(g, p, start, u)
      ensures D[u] <= PathSum(g, p, m).val
    {
      PathSumPrefixLe(g, p, 1, m);
      if start in V {
        var k := FirstLeaving(p, V);
        var x, y := p[k - 1], p[k];
        assert HasEdge(g, x, y);
        PathSumPrefixLe(g, p, k, m);
        PathSumPrefixLe(g, p, k + 1, m);
        assert IsPathFromTo(g, p[..k], start, x);
        assert p[..k + 1][..k] == p[..k];
        assert p[..k + 1][k - 1] == x && p[..k + 1][k] == y;
        assert PathSum(g, p[..k + 1], m).val == PathSum(g, p[..k], m).val + Weight(g.adj[x][y], m);
        assert Entry(y, D[y]) in Q;
      } else {
        assert p[..1] == [start];
      }
    }
  }

  /** When the search has stopped with nothing queued, every path from the
      start stays inside the visited set. */
  lemma ClosedVisited(g: Graph, m: Metric, start: string, D: map<string, real>, V: set<string>, p: seq<string>, t: string)
    requires start in V && V == D.Keys
    requires forall x :: x in V ==> Relaxed(g, m, D, x)
    requires IsPathFromTo(g, p, start, t)
    ensures t in V
  {
    var i := 0;
    while i < |p| - 1
      invariant 0 <= i < |p| && p[i] in V
    {
      assert HasEdge(g, p[i], p[i + 1]);
      i := i + 1;
    }
  }

  /** Taking the head of the stably sorted frontier takes an entry of least
      score and leaves the other entries queued. */
  lemma PopFacts(Q: seq<Entry>)
    requires |Q| > 0
    ensures var sorted := SortBy(Q, EntryKey);
      && |sorted| == |Q|
      && (forall e :: e in Q <==> e == sorted[0] || e in sorted[1..])
      && (forall e :: e in Q ==> sorted[0].score <= e.score)
  {
    var sorted := SortBy(Q, EntryKey);
    SortHeadIsFirstMin(Q, EntryKey);
    assert sorted == [sorted[0]] + sorted[1..];
    forall e
      ensures e in Q <==> e == sorted[0] || e in sorted[1..]
    {
      calc {
        e in Q;
        e in multiset(Q);
        e in multiset(sorted);
        e in multiset([sorted[0]] + sorted[1..]);
        e == sorted[0] || e in sorted[1..];
      }
    }
    var k := FirstMin(Q, EntryKey);
    forall e | e in Q
      ensures sorted[0].score <= e.score
    {
      var j :| 0 <= j < |Q| && Q[j] == e;
      assert Le(EntryKey(Q[k]), EntryKey(Q[j]));
    }
  }

  lemma ReachableIsVisited(g: Graph, m: Metric, start: string, D: map<string, real>, V: set<string>, t: string)
    requires start in V && V == D.Keys
    requires forall x :: x in V ==> Relaxed(g, m, D, x)
    ensures Reachable(g, start, t) ==> t in V
  {
    if Reachable(g, start, t) {
      var p :| IsPathFromTo(g, p, start, t);
      ClosedVisited(g, m, start, D, V, p, t);
    }
  }

  // ---------------------------------------------------------------------
  // One lemma per invariant and loop step.

  /** Popping an entry of an already visited station keeps the queue
      invariants. */
  lemma SkipVisited(D: map<string, real>, V: set<string>, Q: seq<Entry>, last: real)
    requires Queued(D, Q, last) && Frontier(D, V, Q)
    requires |Q| > 0 && SortBy(Q, EntryKey)[0].station in V
    ensures Queued(D, SortBy(Q, EntryKey)[1..], last)
    ensures Frontier(D, V, SortBy(Q, EntryKey)[1..])
  {
    PopFacts(Q);
  }

  /** Popping the entry of an unvisited station: its queued score is its
      distance and no queued score is lower. */
  lemma PopUnvisited(D: map<string, real>, V: set<string>, Q: seq<Entry>, last: real)
    requires Queued(D, Q, last) && Frontier(D, V, Q)
    requires |Q| > 0 && SortBy(Q, EntryKey)[0].station !in V
    ensures var cur := SortBy(Q, EntryKey)[0];
      && cur.station in D && D[cur.station] == cur.score && last <= cur.score
      && (forall e :: e in Q ==> cur.score <= e.score)
      && Queued(D, SortBy(Q, EntryKey)[1..], cur.score)
      && Frontier(D, V + {cur.station}, SortBy(Q, EntryKey)[1..])
  {
    PopFacts(Q);
    var cur := SortBy(Q, EntryKey)[0];
    assert cur in Q;
    assert Entry(cur.station, D[cur.station]) in Q;
  }

  lemma VisitKeepsSettled(g: Graph, m: Metric, start: string, D: map<string, real>, V: set<string>,
                          last: real, u: string, score: real)
    requires AllSettled(g, m, start, D, V, last)
    requires Settled(g, m, start, D, u) && D[u] == score && last <= score
    ensures AllSettled(g, m, start, D, V + {u}, score)
  {
  }

  lemma VisitKeepsTree(g: Graph, m: Metric, start: string, D: map<string, real>, prev: map<string, string>,
                       modes: map<string, string>, V: set<string>, rank: map<string, nat>, n: nat, u: string)
    requires Tree(g, m, start, D, prev, modes, V, rank) && Ranked(V, rank, n)
    requires u !in V
    ensures Tree(g, m, start, D, prev, modes, V + {u}, rank[u := n])
    ensures Ranked(V + {u}, rank[u := n], n + 1)
  {
    var V', rank' := V + {u}, rank[u := n];
    forall v | v in prev
      ensures prev[v] in V' && prev[v] in rank'
      ensures v in rank' ==> rank'[prev[v]] < rank'[v]
    {
      assert prev[v] in V && prev[v] != u;
    }
  }

  /** Lowering the distance of an unvisited station `nb` to `d`, reached
      from the visited station `u`. */
  ghost predicate Improves(g: Graph, m: Metric, D: map<string, real>, V: set<string>, u: string, nb: string, d: real) {
    && u in V && u in D && nb !in V
    && HasEdge(g, u, nb)
    && d == D[u] + Weight(g.adj[u][nb], m)
    && (nb !in D || d < D[nb])
  }

  /** A visited station is never improved: its distance is at most the
      last popped score. */
  lemma VisitedNotImproved(g: Graph, m: Metric, start: string, D: map<string, real>, V: set<string>,
                           last: real, nb: string, d: real)
    requires Domains(g, start, D, V) && AllSettled(g, m, start, D, V, last)
    requires nb in V && last <= d
    ensures nb in D && D[nb] <= d
  {
  }

  lemma ImproveKeepsDomains(g: Graph, m: Metric, start: string, D: map<string, real>, V: set<string>,
                            u: string, nb: string, d: real)
    requires WellFormed(g) && NonNegative(g) && NonNegativeMetric(m)
    requires Domains(g, start, D, V) && Improves(g, m, D, V, u, nb, d)
    ensures Domains(g, start, D[nb := d], V)
    ensures nb != start
  {
    WeightNonNegative(g.adj[u][nb], m);
  }

  lemma ImproveKeepsQueue(D: map<string, real>, V: set<string>, Q: seq<Entry>, last: real, nb: string, d: real)
    requires Queued(D, Q, last) && Frontier(D, V, Q)
    requires last <= d && (nb !in D || d < D[nb])
    ensures Queued(D[nb := d], Q + [Entry(nb, d)], last)
    ensures Frontier(D[nb := d], V, Q + [Entry(nb, d)])
  {
  }

  lemma ImproveKeepsSettled(g: Graph, m: Metric, start: string, D: map<string, real>, V: set<string>,
                            last: real, nb: string, d: real)
    requires AllSettled(g, m, start, D, V, last) && nb !in V
    ensures AllSettled(g, m, start, D[nb := d], V, last)
  {
    forall x | x in V
      ensures Settled(g, m, start, D[nb := d], x)
    {
      assert Settled(g, m, start, D, x);
    }
  }

  lemma ImproveKeepsTree(g: Graph, m: Metric, start: string, D: map<string, real>, prev: map<string, string>,
                         modes: map<string, string>, V: set<string>, rank: map<string, nat>, n: nat,
                         u: string, nb: string, d: real)
    requires Tree(g, m, start, D, prev, modes, V, rank) && Ranked(V, rank, n)
    requires Improves(g, m, D, V, u, nb, d) && nb != start
    ensures Tree(g, m, start, D[nb := d], prev[nb := u], modes[nb := g.adj[u][nb].mode], V, rank)
  {
    var D', prev', modes' := D[nb := d], prev[nb := u], modes[nb := g.adj[u][nb].mode];
    forall v | v in prev'
      ensures v in D' && prev'[v] in V && prev'[v] in D' && prev'[v] in rank
      ensures HasEdge(g, prev'[v], v)
      ensures D'[v] == D'[prev'[v]] + Weight(g.adj[prev'[v]][v], m)
      ensures v in modes' && modes'[v] == g.adj[prev'[v]][v].mode
      ensures v in rank ==> rank[prev'[v]] < rank[v]
    {
      if v != nb {
        assert prev'[v] == prev[v] && prev[v] in V;
      }
    }
  }

  lemma ImproveKeepsRelaxed(g: Graph, m: Metric, D: map<string, real>, V: set<string>, u: string, nb: string, d: real)
    requires forall x :: x in V && x != u ==> Relaxed(g, m, D, x)
    requires Improves(g, m, D, V, u, nb, d)
    ensures forall x :: x in V && x != u ==> Relaxed(g, m, D[nb := d], x)
  {
    forall x | x in V && x != u
      ensures Relaxed(g, m, D[nb := d], x)
    {
      assert Relaxed(g, m, D, x);
    }
  }

  /** Visiting the head of the queue: it is settled at its queued score. */
  lemma SettleHead(g: Graph, m: Metric, start: string, D: map<string, real>, V: set<string>,
                   Q: seq<Entry>, last: real)
    requires NonNegative(g) && NonNegativeMetric(m)
    requires Domains(g, start, D, V) && Queued(D, Q, last) && Frontier(D, V, Q)
    requires AllSettled(g, m, start, D, V, last)
    requires forall x :: x in V ==> Relaxed(g, m, D, x)
    requires V != {} ==> start in V
    requires V == {} ==> Q == [Entry(start, 0.0)]
    requires |Q| > 0 && SortBy(Q, EntryKey)[0].station !in V
    ensures var cur := SortBy(Q, EntryKey)[0];
      && cur.station in D && D[cur.station] == cur.score
      && start in V + {cur.station}
      && Domains(g, start, D, V + {cur.station})
      && Queued(D, SortBy(Q, EntryKey)[1..], cur.score)
      && Frontier(D, V + {cur.station}, SortBy(Q, EntryKey)[1..])
      && AllSettled(g, m, start, D, V + {cur.station}, cur.score)
  {
    var cur := SortBy(Q, EntryKey)[0];
    var u := cur.station;
    PopUnvisited(D, V, Q, last);
    if V == {} {
      assert cur in Q;
    }
    VisitSettles(g, m, start, D, V, Q, u);
    VisitKeepsSettled(g, m, start, D, V, last, u, cur.score);
  }

  /** Popping the entry of an unvisited station visits it: its distance
      is final and all invariants but its own relaxation carry over. */
  lemma VisitStep(g: Graph, m: Metric, start: string, D: map<string, real>,
                  prev: map<string, string>, modes: map<string, string>, V: set<string>,
                  Q: seq<Entry>, rank: map<string, nat>, n: nat, last: real)
    requires NonNegative(g) && NonNegativeMetric(m)
    requires SearchState(g, m, start, D, prev, modes, V, Q, rank, n, last)
    requires forall x :: x in V ==> Relaxed(g, m, D, x)
    requires V != {} ==> start in V
    requires V == {} ==> Q == [Entry(start, 0.0)]
    requires |Q| > 0 && SortBy(Q, EntryKey)[0].station !in V
    ensures var cur := SortBy(Q, EntryKey)[0];
      && cur.station in D && D[cur.station] == cur.score
      && start in V + {cur.station}
      && SearchState(g, m, start, D, prev, modes, V + {cur.station}, SortBy(Q, EntryKey)[1..],
                     rank[cur.station := n], n + 1, cur.score)
  {
    SettleHead(g, m, start, D, V, Q, last);
    VisitKeepsTree(g, m, start, D, prev, modes, V, rank, n, SortBy(Q, EntryKey)[0].station);
  }


  /** Lowering the distance of `nb` through `u` keeps every invariant. */
  lemma ImproveStep(g: Graph, m: Metric, start: string, u: string, nb: string, d: real,
                    D: map<string, real>, prev: map<string, string>, modes: map<string, string>,
                    V: set<string>, Q: seq<Entry>, rank: map<string, nat>, n: nat, last: real)
    requires WellFormed(g) && NonNegative(g) && NonNegativeMetric(m)
    requires SearchState(g, m, start, D, prev, modes, V, Q, rank, n, last)
    requires forall x :: x in V && x != u ==> Relaxed(g, m, D, x)
    requires Improves(g, m, D, V, u, nb, d) && last <= d
    ensures SearchState(g, m, start, D[nb := d], prev[nb := u], modes[nb := g.adj[u][nb].mode], V,
                        Q + [Entry(nb, d)], rank, n, last)
    ensures forall x :: x in V && x != u ==> Relaxed(g, m, D[nb := d], x)
  {
    ImproveKeepsDomains(g, m, start, D, V, u, nb, d);
    ImproveKeepsQueue(D, V, Q, last, nb, d);
    ImproveKeepsSettled(g, m, start, D, V, last, nb, d);
    ImproveKeepsTree(g, m, start, D, prev, modes, V, rank, n, u, nb, d);
    ImproveKeepsRelaxed(g, m, D, V, u, nb, d);
  }

  /** One pass of the `for (let neighbor in adjList[currStation])` loop: a
      neighbour whose distance improves gets the new distance, `u` as
      predecessor, the edge's mode, and a new frontier entry. */
  method RelaxEdge(g: Graph, m: Metric, start: string, u: string, nb: string,
                   D0: map<string, real>, prev0: map<string, string>, modes0: map<string, string>,
                   V: set<string>, Q0: seq<Entry>, ghost rank: map<string, nat>, ghost n: nat, ghost last: real)
    returns (D: map<string, real>, prev: map<string, string>, modes: map<string, string>, Q: seq<Entry>)
    requires WellFormed(g) && NonNegative(g) && NonNegativeMetric(m)
    requires SearchState(g, m, start, D0, prev0, modes0, V, Q0, rank, n, last)
    requires u in V && D0[u] == last && HasEdge(g, u, nb)
    requires forall x :: x in V && x != u ==> Relaxed(g, m, D0, x)
    ensures SearchState(g, m, start, D, prev, modes, V, Q, rank, n, last)
    ensures u in D && D[u] == last
    ensures forall x :: x in V && x != u ==> Relaxed(g, m, D, x)
    ensures nb in D && D[nb] <= D[u] + Weight(g.adj[u][nb], m)
    ensures forall v :: v in D0 ==> v in D && D[v] <= D0[v]
  {
    D, prev, modes, Q := D0, prev0, modes0, Q0;
    var edge := g.adj[u][nb];
    var newDist := D[u] + Weight(edge, m);
    WeightNonNegative(edge, m);
    if nb in V {
      VisitedNotImproved(g, m, start, D, V, last, nb, newDist);
    }
    if nb !in D || newDist < D[nb] {
      ImproveStep(g, m, start, u, nb, newDist, D, prev, modes, V, Q, rank, n, last);
      D := D[nb := newDist];
      prev := prev[nb := u];
      modes := modes[nb := edge.mode];
      Q := Q + [Entry(nb, newDist)];
    }
  }

  /** The `for (let neighbor in adjList[currStation])` loop; neighbours are
      taken in an arbitrary order. */
  method RelaxNeighbours(g: Graph, m: Metric, start: string, u: string,
                         D0: map<string, real>, prev0: map<string, string>, modes0: map<string, string>,
                         V: set<string>, Q0: seq<Entry>, ghost rank: map<string, nat>, ghost n: nat, ghost last: real)
    returns (D: map<string, real>, prev: map<string, string>, modes: map<string, string>, Q: seq<Entry>)
    requires WellFormed(g) && NonNegative(g) && NonNegativeMetric(m)
    requires SearchState(g, m, start, D0, prev0, modes0, V, Q0, rank, n, last)
    requires u in V && D0[u] == last
    requires forall x :: x in V && x != u ==> Relaxed(g, m, D0, x)
    ensures SearchState(g, m, start, D, prev, modes, V, Q, rank, n, last)
    ensures forall x :: x in V ==> Relaxed(g, m, D, x)
  {
    D, prev, modes, Q := D0, prev0, modes0, Q0;
    var rest := g.adj[u].Keys;
    while rest != {}
      invariant SearchState(g, m, start, D, prev, modes, V, Q, rank, n, last)
      invariant rest <= g.adj[u].Keys
      invariant u in D && D[u] == last
      invariant forall x :: x in V && x != u ==> Relaxed(g, m, D, x)
      invariant NeighboursDone(g, m, D, u, rest, last)
      decreases rest
    {
      var nb :| nb in rest;
      ghost var D1 := D;
      D, prev, modes, Q := RelaxEdge(g, m, start, u, nb, D, prev, modes, V, Q, rank, n, last);
      NeighbourDone(g, m, D1, D, u, rest, nb, last);
      rest := rest - {nb};
    }
    AllNeighboursDone(g, m, D, V, u, last);
  }

  /** Every neighbour of `u` outside `rest` is no further than through `u`. */
  ghost predicate NeighboursDone(g: Graph, m: Metric, D: map<string, real>, u: string, rest: set<string>, last: real) {
    u in g.adj && forall v :: v in g.adj[u] && v !in rest ==> v in D && D[v] <= last + Weight(g.adj[u][v], m)
  }

  lemma NeighbourDone(g: Graph, m: Metric, D0: map<string, real>, D: map<string, real>, u: string,
                      rest: set<string>, nb: string, last: real)
    requires NeighboursDone(g, m, D0, u, rest, last)
    requires forall v :: v in D0 ==> v in D && D[v] <= D0[v]
    requires nb in g.adj[u] && nb in D && D[nb] <= last + Weight(g.adj[u][nb], m)
    ensures NeighboursDone(g, m, D, u, rest - {nb}, last)
  {
  }

  lemma AllNeighboursDone(g: Graph, m: Metric, D: map<string, real>, V: set<string>, u: string, last: real)
    requires NeighboursDone(g, m, D, u, {}, last) && u in D && D[u] == last
    requires forall x :: x in V && x != u ==> Relaxed(g, m, D, x)
    ensures forall x :: x in V ==> Relaxed(g, m, D, x)
  {
    assert Relaxed(g, m, D, u);
  }

  /** The search loop of `dijkstra` (the `while (queue.length)` loop): pop
      the least-score entry after a stable sort, skip it if already visited,
      stop at `end`, otherwise relax every neighbour. */
  method Search(g: Graph, m: Metric, start: string, end: string)
    returns (D: map<string, real>, prev: map<string, string>, modes: map<string, string>,
             V: set<string>, ghost rank: map<string, nat>)
    requires WellFormed(g) && NonNegative(g) && NonNegativeMetric(m)
    requires start in g.nodes
    ensures start in V && start in D && D[start] == 0.0
    ensures forall x :: x in V ==> Settled(g, m, start, D, x)
    ensures end in D ==> end in V
    ensures end !in D ==> V == D.Keys && forall x :: x in V ==> Relaxed(g, m, D, x)
    ensures SearchDone(g, m, start, end, D, prev, modes, V, rank)
  {
    D := map[start := 0.0];
    prev := map[];
    modes := map[];
    V := {};
    var Q := [Entry(start, 0.0)];
    rank := map[];
    ghost var n: nat := 0;
    ghost var last: real := 0.0;

    while Q != []
      invariant SearchState(g, m, start, D, prev, modes, V, Q, rank, n, last)
      invariant forall x :: x in V ==> Relaxed(g, m, D, x)
      invariant V != {} ==> start in V
      invariant V == {} ==> Q == [Entry(start, 0.0)]
      invariant end !in V
      decreases g.nodes.Keys - V, |Q|
    {
      var sorted := SortBy(Q, EntryKey);
      var current := sorted[0];
      var u := current.station;
      if u in V {
        SkipVisited(D, V, Q, last);
        Q := sorted[1..];
        continue;
      }
      VisitStep(g, m, start, D, prev, modes, V, Q, rank, n, last);
      Q := sorted[1..];
      V := V + {u};
      rank := rank[u := n];
      n := n + 1;
      last := current.score;
      if u == end {
        break;
      }
      D, prev, modes, Q := RelaxNeighbours(g, m, start, u, D, prev, modes, V, Q, rank, n, last);
    }
    SearchEnds(g, m, start, end, D, prev, modes, V, Q, rank, n, last);
  }

  /** The loop stops when the queue runs empty (every station with a
      distance is then visited) or right after visiting `end`. */
  lemma SearchEnds(g: Graph, m: Metric, start: string, end: string, D: map<string, real>,
                   prev: map<string, string>, modes: map<string, string>, V: set<string>,
                   Q: seq<Entry>, rank: map<string, nat>, n: nat, last: real)
    requires SearchState(g, m, start, D, prev, modes, V, Q, rank, n, last)
    requires forall x :: x in V && x != end ==> Relaxed(g, m, D, x)
    requires V != {} ==> start in V
    requires V == {} ==> Q == [Entry(start, 0.0)]
    requires Q == [] || end in V
    ensures SearchDone(g, m, start, end, D, prev, modes, V, rank)
  {
  }

  /** Putting a predecessor in front of a walk adds its edge. */
  lemma PrependHop(g: Graph, m: Metric, path: seq<string>, tm: seq<string>, p: string)
    requires |path| > 0 && IsWalk(g, path) && ModesFollow(g, path, tm)
    requires HasEdge(g, p, path[0])
    ensures IsWalk(g, [p] + path)
    ensures PathSum(g, [p] + path, m) == Add(Fin(Weight(g.adj[p][path[0]], m)), PathSum(g, path, m))
    ensures ModesFollow(g, [p] + path, [g.adj[p][path[0]].mode] + tm)
  {
    var hop := [p, path[0]];
    assert hop[..1] == [p];
    PathSumJoin(g, hop, path, m);
    WalkJoin(g, hop, path);
    assert hop + path[1..] == [p] + path;
    var tm' := [g.adj[p][path[0]].mode] + tm;
    var path' := [p] + path;
    forall i | 0 <= i < |tm'|
      ensures HasEdge(g, path'[i], path'[i + 1]) && tm'[i] == g.adj[path'[i]][path'[i + 1]].mode
    {
      if i > 0 {
        assert tm'[i] == tm[i - 1] && path'[i] == path[i - 1] && path'[i + 1] == path[i];
      }
    }
  }

  /** The reconstruction loop (`while (current)`): follow the predecessor
      links back from `end`, collecting the stored modes. */
  method Reconstruct(g: Graph, m: Metric, start: string, end: string, D: map<string, real>,
                     prev: map<string, string>, modes: map<string, string>,
                     ghost V: set<string>, ghost rank: map<string, nat>)
    returns (path: seq<string>, tm: seq<string>)
    requires Tree(g, m, start, D, prev, modes, V, rank)
    requires start in D && D[start] == 0.0
    requires end in V && V <= D.Keys && forall v :: v in rank <==> v in V
    ensures IsPathFromTo(g, path, start, end) && PathSum(g, path, m) == Fin(D[end])
    ensures ModesFollow(g, path, tm)
  {
    path := [end];
    tm := [];
    var current := end;
    while current in prev
      invariant current in V && current in D && current in rank
      invariant |path| > 0 && path[0] == current && path[|path| - 1] == end
      invariant IsWalk(g, path)
      invariant PathSum(g, path, m) == Fin(D[end] - D[current])
      invariant ModesFollow(g, path, tm)
      decreases rank[current]
    {
      var p := prev[current];
      var tm' := [modes[current]] + tm;
      var path' := [p] + path;
      PrependHop(g, m, path, tm, p);
      tm, path, current := tm', path', p;
    }
    assert current == start;
  }

  /** A path that scores exactly the settled distance is a shortest one. */
  lemma SettledIsShortest(g: Graph, m: Metric, start: string, end: string, D: map<string, real>, path: seq<string>)
    requires Settled(g, m, start, D, end)
    requires IsPathFromTo(g, path, start, end) && PathSum(g, path, m) == Fin(D[end])
    ensures Shortest(g, path, start, end, m)
  {
  }

  /** The `segments` of a reachable result: segment `i` joins `path[i]` to
      `path[i + 1]` with mode `tm[i]` and the edge's cost, time and
      capacity. */
  method BuildSegments(g: Graph, path: seq<string>, tm: seq<string>) returns (segs: seq<Segment>)
    requires |path| > 0 && ModesFollow(g, path, tm)
    ensures SegmentsFollow(g, path, segs)
  {
    segs := [];
    var i := 0;
    while i < |path| - 1
      invariant 0 <= i <= |path| - 1
      invariant |segs| == i
      invariant forall j :: 0 <= j < i ==> segs[j] == SegmentOf(g, path[j], path[j + 1])
    {
      assert HasEdge(g, path[i], path[i + 1]) && tm[i] == g.adj[path[i]][path[i + 1]].mode;
      var edge := g.adj[path[i]][path[i + 1]];
      segs := segs + [Segment(path[i], path[i + 1], tm[i], edge.cost, edge.time, edge.capacity)];
      i := i + 1;
    }
  }

  /** `dijkstra` for two known stations. */
  method ShortestPath(g: Graph, start: string, end: string, costWeight: real, timeWeight: real)
    returns (info: PathInfo)
    requires WellFormed(g) && NonNegative(g) && costWeight >= 0.0 && timeWeight >= 0.0
    requires start in g.nodes && end in g.nodes
    ensures IsDijkstraResult(g, start, end, Weighted(costWeight, timeWeight), info)
  {
    var m := Weighted(costWeight, timeWeight);
    var D, prev, modes, V, rank := Search(g, m, start, end);
    if end !in D {
      ReachableIsVisited(g, m, start, D, V, end);
      return Unreachable;
    }
    var path, tm := Reconstruct(g, m, start, end, D, prev, modes, V, rank);
    SettledIsShortest(g, m, start, end, D, path);
    var segs := BuildSegments(g, path, tm);
    var cost := CalculatePathSum(g, path, Cost);
    var time := CalculatePathSum(g, path, Time);
    info := PathInfo(path, tm, cost, time, Some(segs));
  }

  /** A non-empty result is a path between the two stations. */
  lemma ResultIsPath(g: Graph, start: string, end: string, m: Metric, info: PathInfo)
    requires IsDijkstraResult(g, start, end, m, info) && |info.path| > 0
    ensures IsPathFromTo(g, info.path, start, end)
  {
  }

  /** The weights `dijkstra` uses when called without them. */
  const DefaultWeight: real := 0.5

  /** `dijkstra(start, end, costWeight, timeWeight)`: throws unless both
      stations exist. */
  method Dijkstra(g: Graph, start: string, end: string, costWeight: real, timeWeight: real)
    returns (r: Result<PathInfo>)
    requires WellFormed(g) && NonNegative(g) && costWeight >= 0.0 && timeWeight >= 0.0
    ensures r.Failure? <==> start !in g.nodes || end !in g.nodes
    ensures r.Success? ==> IsDijkstraResult(g, start, end, Weighted(costWeight, timeWeight), r.value)
  {
    if start !in g.nodes || end !in g.nodes {
      return Failure("Both start and end stations must exist in the graph.");
    }
    var info := ShortestPath(g, start, end, costWeight, timeWeight);
    r := Success(info);
  }
}
