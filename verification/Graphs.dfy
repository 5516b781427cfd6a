/** Finite directed graphs as adjacency lists, and walks in them. */
module Graphs {

  type Node = nat

  /** A node that is not a key has no successors, as with `get(id)?.connections ?? []`. */
  type Graph = map<Node, seq<Node>>

  function Successors(g: Graph, v: Node): seq<Node> {
    if v in g then g[v] else []
  }

  predicate Edge(g: Graph, v: Node, w: Node) {
    v in g && w in g[v]
  }

  /** The `i`-th step of a list of nodes follows an edge. */
  ghost predicate Step(g: Graph, p: seq<Node>, i: nat) {
    i + 1 < |p| && Edge(g, p[i], p[i + 1])
  }

  /** A non-empty list of nodes, each joined to the next by an edge. */
  ghost predicate Walk(g: Graph, p: seq<Node>) {
    |p| > 0 && forall i: nat :: i + 1 < |p| ==> Step(g, p, i)
  }

  ghost predicate WalkBetween(g: Graph, p: seq<Node>, v: Node, w: Node) {
    Walk(g, p) && p[0] == v && p[|p| - 1] == w
  }

  ghost predicate Reaches(g: Graph, v: Node, w: Node) {
    exists p :: WalkBetween(g, p, v, w)
  }

  /** A walk of at least one edge back to where it started. */
  ghost predicate Cycle(g: Graph, p: seq<Node>) {
    Walk(g, p) && |p| >= 2 && p[0] == p[|p| - 1]
  }

  lemma WalkPrefix(g: Graph, p: seq<Node>, n: nat)
    requires Walk(g, p) && 0 < n <= |p|
    ensures Walk(g, p[..n])
  {
    forall i: nat | i + 1 < n ensures Step(g, p[..n], i) {
      assert Step(g, p, i);
    }
  }

  lemma WalkSuffix(g: Graph, p: seq<Node>, n: nat)
    requires Walk(g, p) && n < |p|
    ensures Walk(g, p[n..])
  {
    forall i: nat | i + 1 < |p[n..]| ensures Step(g, p[n..], i) {
      assert Step(g, p, n + i);
    }
  }

  lemma WalkExtend(g: Graph, p: seq<Node>, w: Node)
    requires Walk(g, p) && Edge(g, p[|p| - 1], w)
    ensures Walk(g, p + [w])
  {
    forall i: nat | i + 1 < |p + [w]| ensures Step(g, p + [w], i) {
      if i + 1 < |p| {
        assert Step(g, p, i);
      }
    }
  }

  lemma ReachesExtend(g: Graph, v: Node, u: Node, w: Node)
    requires Reaches(g, v, u) && Edge(g, u, w)
    ensures Reaches(g, v, w)
  {
    var p :| WalkBetween(g, p, v, u);
    WalkExtend(g, p, w);
    assert WalkBetween(g, p + [w], v, w);
  }

  lemma ReachesSelf(g: Graph, v: Node)
    ensures WalkBetween(g, [v], v, v) && Reaches(g, v, v)
  {
    assert WalkBetween(g, [v], v, v);
  }

  /** Two walks that meet join into one, whose edges are those of both. */
  lemma WalkJoin(g: Graph, p: seq<Node>, q: seq<Node>, v: Node, u: Node, w: Node)
    requires WalkBetween(g, p, v, u) && WalkBetween(g, q, u, w)
    ensures WalkBetween(g, p + q[1..], v, w)
  {
    var r := p + q[1..];
    forall i: nat | i + 1 < |r| ensures Step(g, r, i) {
      if i + 1 < |p| {
        assert Step(g, p, i);
      } else {
        assert Step(g, q, i - (|p| - 1));
      }
    }
  }

  lemma ReachesJoin(g: Graph, v: Node, u: Node, w: Node)
    requires Reaches(g, v, u) && Reaches(g, u, w)
    ensures Reaches(g, v, w)
  {
    var p :| WalkBetween(g, p, v, u);
    var q :| WalkBetween(g, q, u, w);
    WalkJoin(g, p, q, v, u, w);
  }

  /** The last edge of a walk of two nodes or more. */
  lemma WalkLast(g: Graph, p: seq<Node>)
    requires Walk(g, p) && |p| > 1
    ensures Walk(g, p[..|p| - 1])
    ensures Edge(g, p[|p| - 2], p[|p| - 1])
  {
    WalkPrefix(g, p, |p| - 1);
    assert Step(g, p, |p| - 2);
  }

  /** A walk out of a set that is closed under edges stays in that set. */
  lemma {:induction false} ClosedSetHoldsWalk(g: Graph, s: set<Node>, p: seq<Node>)
    requires Walk(g, p) && p[0] in s
    requires forall v, w :: v in s && Edge(g, v, w) ==> w in s
    ensures p[|p| - 1] in s
  {
    if |p| > 1 {
      WalkLast(g, p);
      ClosedSetHoldsWalk(g, s, p[..|p| - 1]);
    }
  }

  /** A rank that falls along every edge of a walk is lower at its end than at its start. */
  lemma {:induction false} RankFallsAlongWalk(g: Graph, rank: map<Node, nat>, p: seq<Node>)
    requires Walk(g, p)
    requires forall v :: v in p ==> v in rank
    requires forall i: nat :: i + 1 < |p| && Edge(g, p[i], p[i + 1]) ==> rank[p[i + 1]] < rank[p[i]]
    ensures rank[p[|p| - 1]] <= rank[p[0]]
    ensures |p| >= 2 ==> rank[p[|p| - 1]] < rank[p[0]]
  {
    if |p| > 1 {
      WalkLast(g, p);
      var q := p[..|p| - 1];
      forall i: nat | i + 1 < |q| && Edge(g, q[i], q[i + 1]) ensures rank[q[i + 1]] < rank[q[i]] {
        assert Edge(g, p[i], p[i + 1]);
      }
      RankFallsAlongWalk(g, rank, q);
      assert Edge(g, p[|p| - 2], p[|p| - 2 + 1]);
    }
  }
}
