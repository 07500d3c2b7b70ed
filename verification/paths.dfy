/** Paths over the station graph and the sums `calculatePathCost` and
    `calculatePathTime` take along them. */
module Paths {
  import opened ExtReal
  import opened StationGraph

  /** What is summed along a path: cost, time, or the score Dijkstra
      minimises, `cost * costWeight + time * timeWeight`. */
  datatype Metric = Cost | Time | Weighted(costWeight: real, timeWeight: real)

  function Weight(e: Edge, m: Metric): real {
    match m
    case Cost => e.cost
    case Time => e.time
    case Weighted(cw, tw) => e.cost * cw + e.time * tw
  }

  ghost predicate NonNegativeMetric(m: Metric) {
    m.Weighted? ==> m.costWeight >= 0.0 && m.timeWeight >= 0.0
  }

  lemma WeightNonNegative(e: Edge, m: Metric)
    requires e.cost >= 0.0 && e.time >= 0.0 && NonNegativeMetric(m)
    ensures Weight(e, m) >= 0.0
  {
    if m.Weighted? {
      assert e.cost * m.costWeight >= 0.0;
      assert e.time * m.timeWeight >= 0.0;
    }
  }

  /** Every consecutive pair is an edge. */
  ghost predicate IsWalk(g: Graph, p: seq<string>) {
    forall i :: 0 <= i < |p| - 1 ==> HasEdge(g, p[i], p[i + 1])
  }

  ghost predicate IsPathFromTo(g: Graph, p: seq<string>, s: string, t: string) {
    |p| > 0 && p[0] == s && p[|p| - 1] == t && IsWalk(g, p)
  }

  ghost predicate Reachable(g: Graph, s: string, t: string) {
    exists p :: IsPathFromTo(g, p, s, t)
  }

  /** Reference definition of the path sums: the metric added over
      consecutive pairs, Infinity as soon as one pair is not an edge. */
  function PathSum(g: Graph, p: seq<string>, m: Metric): (r: Ext)
    ensures r.Fin? <==> IsWalk(g, p)
    ensures |p| <= 1 ==> r == Fin(0.0)
  {
    if |p| <= 1 then Fin(0.0)
    else
      var q := p[..|p| - 1];
      var s := PathSum(g, q, m);
      WalkSnoc(g, p);
      if s.Inf? || !HasEdge(g, p[|p| - 2], p[|p| - 1]) then Inf
      else Fin(s.val + Weight(g.adj[p[|p| - 2]][p[|p| - 1]], m))
  }

  /** A walk of two or more stations is a shorter walk plus one last edge. */
  lemma WalkSnoc(g: Graph, p: seq<string>)
    requires |p| >= 2
    ensures IsWalk(g, p) <==> IsWalk(g, p[..|p| - 1]) && HasEdge(g, p[|p| - 2], p[|p| - 1])
  {
    var q := p[..|p| - 1];
    if IsWalk(g, q) && HasEdge(g, p[|p| - 2], p[|p| - 1]) {
      forall i | 0 <= i < |p| - 1
        ensures HasEdge(g, p[i], p[i + 1])
      {
        if i < |p| - 2 {
          assert q[i] == p[i] && q[i + 1] == p[i + 1];
        }
      }
    }
    if IsWalk(g, p) {
      forall i | 0 <= i < |q| - 1
        ensures HasEdge(g, q[i], q[i + 1])
      {
        assert q[i] == p[i] && q[i + 1] == p[i + 1];
      }
    }
  }

  lemma WalkPrefix(g: Graph, p: seq<string>, k: nat)
    requires IsWalk(g, p) && k <= |p|
    ensures IsWalk(g, p[..k])
  {
    var q := p[..k];
    forall i | 0 <= i < |q| - 1
      ensures HasEdge(g, q[i], q[i + 1])
    {
      assert q[i] == p[i] && q[i + 1] == p[i + 1];
    }
  }

  /** `calculatePathCost` / `calculatePathTime`: a left-to-right loop that
      returns Infinity at the first missing hop. */
  method CalculatePathSum(g: Graph, p: seq<string>, m: Metric) returns (r: Ext)
    ensures r == PathSum(g, p, m)
    ensures r.Inf? <==> exists i :: 0 <= i < |p| - 1 && !HasEdge(g, p[i], p[i + 1])
  {
    var total := 0.0;
    var i := 0;
    while i + 1 < |p|
      invariant |p| > 0 ==> i < |p|
      invariant |p| == 0 ==> total == 0.0
      invariant |p| > 0 ==> Fin(total) == PathSum(g, p[..i + 1], m)
    {
      var from := p[i];
      var to := p[i + 1];
      assert p[..i + 2][..i + 1] == p[..i + 1];
      if from in g.adj && to in g.adj[from] {
        total := total + Weight(g.adj[from][to], m);
        i := i + 1;
      } else {
        assert !HasEdge(g, p[i], p[i + 1]);
        assert PathSum(g, p, m).Inf?;
        return Inf;
      }
    }
    if |p| > 0 {
      assert p[..i + 1] == p;
    }
    assert Fin(total) == PathSum(g, p, m);
    r := Fin(total);
  }

  /** Joining a walk that ends where another begins adds their sums. */
  lemma {:induction false} PathSumJoin(g: Graph, p: seq<string>, q: seq<string>, m: Metric)
    requires |p| > 0 && |q| > 0 && p[|p| - 1] == q[0]
    ensures PathSum(g, p + q[1..], m) == Add(PathSum(g, p, m), PathSum(g, q, m))
    decreases |q|
  {
    if |q| == 1 {
      assert p + q[1..] == p;
    } else {
      var q' := q[..|q| - 1];
      var j := p + q[1..];
      JoinDropLast(p, q);
      PathSumJoin(g, p, q', m);
      PathSumSnoc(g, q, m);
      PathSumSnoc(g, j, m);
      HopAdd(g, PathSum(g, p, m), PathSum(g, q', m), q[|q| - 2], q[|q| - 1], m);
    }
  }

  lemma JoinDropLast<T>(p: seq<T>, q: seq<T>)
    requires |p| > 0 && |q| >= 2 && p[|p| - 1] == q[0]
    ensures var j := p + q[1..];
      |j| >= 2 && j[..|j| - 1] == p + q[..|q| - 1][1..] && j[|j| - 1] == q[|q| - 1] && j[|j| - 2] == q[|q| - 2]
  {
    var j := p + q[1..];
    assert j[..|j| - 1] == p + q[..|q| - 1][1..];
  }

  lemma HopAdd(g: Graph, a: Ext, b: Ext, u: string, v: string, m: Metric)
    ensures Hop(g, Add(a, b), u, v, m) == Add(a, Hop(g, b, u, v, m))
  {
  }

  /** The last hop of a path of two or more stations, added to the rest. */
  function Hop(g: Graph, s: Ext, u: string, v: string, m: Metric): Ext {
    if s.Inf? || !HasEdge(g, u, v) then Inf else Fin(s.val + Weight(g.adj[u][v], m))
  }

  lemma PathSumSnoc(g: Graph, p: seq<string>, m: Metric)
    requires |p| >= 2
    ensures PathSum(g, p, m) == Hop(g, PathSum(g, p[..|p| - 1], m), p[|p| - 2], p[|p| - 1], m)
  {
  }

  lemma WalkJoin(g: Graph, p: seq<string>, q: seq<string>)
    requires |p| > 0 && |q| > 0 && p[|p| - 1] == q[0]
    requires IsWalk(g, p) && IsWalk(g, q)
    ensures IsWalk(g, p + q[1..])
  {
    var j := p + q[1..];
    forall i | 0 <= i < |j| - 1
      ensures HasEdge(g, j[i], j[i + 1])
    {
      if i < |p| - 1 {
        assert j[i] == p[i] && j[i + 1] == p[i + 1];
      } else {
        assert j[i] == q[i - |p| + 1] && j[i + 1] == q[i - |p| + 2];
      }
    }
  }

  /** With non-negative weights a prefix of a walk never sums to more than
      the walk. */
  lemma {:induction false} PathSumPrefixLe(g: Graph, p: seq<string>, k: nat, m: Metric)
    requires NonNegative(g) && NonNegativeMetric(m)
    requires 1 <= k <= |p| && IsWalk(g, p)
    ensures IsWalk(g, p[..k])
    ensures PathSum(g, p[..k], m).val <= PathSum(g, p, m).val
    decreases |p|
  {
    WalkPrefix(g, p, k);
    if k < |p| {
      var q := p[..|p| - 1];
      WalkSnoc(g, p);
      assert q[..k] == p[..k];
      PathSumPrefixLe(g, q, k, m);
      WeightNonNegative(g.adj[p[|p| - 2]][p[|p| - 1]], m);
    } else {
      assert p[..k] == p;
    }
  }

  /** A path sum that is finite in a subgraph is the same in the full graph. */
  lemma {:induction false} PathSumSubGraph(h: Graph, g: Graph, p: seq<string>, m: Metric)
    requires SubGraph(h, g)
    requires IsWalk(h, p)
    ensures IsWalk(g, p)
    ensures PathSum(h, p, m) == PathSum(g, p, m)
    decreases |p|
  {
    if |p| > 1 {
      var q := p[..|p| - 1];
      WalkSnoc(h, p);
      WalkSnoc(g, p);
      PathSumSubGraph(h, g, q, m);
    }
  }
}
