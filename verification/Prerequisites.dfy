/** The prerequisite graph of a content catalog and its cycle check. */
module Prerequisites {
  import opened Common
  import opened Graphs
  import opened Content

  function Required(prerequisites: seq<Prerequisite>): seq<Node> {
    if prerequisites == [] then []
    else
      var first := prerequisites[0];
      (if first.NeedsRank? then [] else [first.required.definitionId]) + Required(prerequisites[1..])
  }

  /** `prerequisiteGraph`: a later revision replaces the edges of an earlier one. */
  function PrerequisiteGraph(records: seq<Definition>): Graph {
    if records == [] then map[]
    else
      var last := records[|records| - 1];
      var earlier := PrerequisiteGraph(records[..|records| - 1]);
      if last.OptionDefinition? then earlier[last.ref.definitionId := Required(last.prerequisites)] else earlier
  }

  // ----- The recursive visit -----

  datatype VisitState = VisitState(visiting: set<Node>, visited: set<Node>)

  function Seen(s: VisitState): set<Node> {
    s.visiting + s.visited
  }

  function Visit(g: Graph, names: set<Node>, s: VisitState, id: Node): (r: (VisitState, bool))
    requires forall v, w :: w in Successors(g, v) ==> w in names
    requires id in names
    ensures Seen(s) <= Seen(r.0)
    decreases |names - Seen(s)|, 0
  {
    if id in s.visiting then (s, true)
    else if id in s.visited then (s, false)
    else
      var entered := s.(visiting := s.visiting + {id});
      assert names - Seen(entered) == (names - Seen(s)) - {id};
      var (left, cyclic) := VisitSome(g, names, entered, Successors(g, id));
      (VisitState(left.visiting - {id}, left.visited + {id}), cyclic)
  }

  /** `some(visit)`: stops at the first successor that reports a cycle. */
  function VisitSome(g: Graph, names: set<Node>, s: VisitState, ids: seq<Node>): (r: (VisitState, bool))
    requires forall v, w :: w in Successors(g, v) ==> w in names
    requires forall id :: id in ids ==> id in names
    ensures Seen(s) <= Seen(r.0)
    decreases |names - Seen(s)|, |ids|
  {
    if ids == [] then (s, false)
    else
      var (next, cyclic) := Visit(g, names, s, ids[0]);
      SubsetCardinality(names - Seen(next), names - Seen(s));
      if cyclic then (next, true) else VisitSome(g, names, next, ids[1..])
  }

  /** The closure `visit` with the two sets it captures. */
  class Visitor {
    const g: Graph
    ghost const names: set<Node>
    var visiting: set<Node>
    var visited: set<Node>

    constructor (g: Graph, ghost names: set<Node>)
      ensures this.g == g && this.names == names && State() == VisitState({}, {})
    {
      this.g, this.names := g, names;
      visiting, visited := {}, {};
    }

    function State(): VisitState
      reads this
    {
      VisitState(visiting, visited)
    }

    method VisitNode(id: Node) returns (cyclic: bool)
      requires forall v, w :: w in Successors(g, v) ==> w in names
      requires id in names
      modifies this
      ensures (State(), cyclic) == Visit(g, names, old(State()), id)
      decreases |names - Seen(State())|
    {
      if id in visiting { return true; }
      if id in visited { return false; }
      assert names - Seen(State().(visiting := visiting + {id})) == (names - Seen(State())) - {id};
      visiting := visiting + {id};
      ghost var entered := State();
      var required := Successors(g, id);
      cyclic := false;
      var i := 0;
      while i < |required| && !cyclic
        invariant 0 <= i <= |required|
        invariant Seen(entered) <= Seen(State())
        invariant VisitSome(g, names, entered, required) ==
          if cyclic then (State(), true) else VisitSome(g, names, State(), required[i..])
      {
        SubsetCardinality(names - Seen(State()), names - Seen(entered));
        cyclic := VisitNode(required[i]);
        i := i + 1;
      }
      visiting := visiting - {id};
      visited := visited + {id};
    }
  }

  // ----- What a visit establishes -----

  ghost predicate HasCycle(g: Graph) {
    exists p :: Cycle(g, p)
  }

  /** Nodes are ranked in the order in which the visit left them, below what they require. */
  ghost predicate Ranked(g: Graph, rank: map<Node, nat>) {
    && (forall v :: v in rank ==> rank[v] < |rank|)
    && (forall v, w :: v in rank && w in Successors(g, v) ==> w in rank && rank[w] < rank[v])
  }

  /** The nodes being visited are a walk. */
  ghost predicate OnPath(g: Graph, s: VisitState, path: seq<Node>) {
    && s.visiting == Elements(path)
    && (path != [] ==> Walk(g, path))
  }

  ghost predicate Inv(g: Graph, s: VisitState, path: seq<Node>, rank: map<Node, nat>) {
    && s.visiting !! s.visited
    && rank.Keys == s.visited
    && Ranked(g, rank)
    && OnPath(g, s, path)
  }

  ghost predicate Next(g: Graph, path: seq<Node>, id: Node) {
    path == [] || Edge(g, path[|path| - 1], id)
  }

  lemma BackEdgeIsCycle(g: Graph, s: VisitState, path: seq<Node>, id: Node)
    requires OnPath(g, s, path) && Next(g, path, id) && id in s.visiting
    ensures HasCycle(g)
  {
    var k :| 0 <= k < |path| && path[k] == id;
    WalkSuffix(g, path, k);
    WalkExtend(g, path[k..], id);
    assert Cycle(g, path[k..] + [id]);
  }

  lemma EnteringExtendsPath(g: Graph, s: VisitState, path: seq<Node>, id: Node)
    requires OnPath(g, s, path) && Next(g, path, id)
    ensures OnPath(g, s.(visiting := s.visiting + {id}), path + [id])
  {
    assert Elements(path + [id]) == Elements(path) + {id};
    if path == [] {
      assert Walk(g, path + [id]);
    } else {
      WalkExtend(g, path, id);
    }
  }

  lemma LeavingShortensPath(g: Graph, s: VisitState, path: seq<Node>, id: Node)
    requires OnPath(g, s, path + [id]) && id !in path
    ensures OnPath(g, VisitState(s.visiting - {id}, s.visited + {id}), path)
  {
    assert Elements(path + [id]) == Elements(path) + {id};
    if path != [] {
      WalkPrefix(g, path + [id], |path|);
      assert (path + [id])[..|path|] == path;
    }
  }

  lemma LeavingRanks(g: Graph, rank: map<Node, nat>, id: Node)
    requires Ranked(g, rank) && id !in rank
    requires forall w :: w in Successors(g, id) ==> w in rank
    ensures Ranked(g, rank[id := |rank|])
  {
    assert rank[id := |rank|].Keys == rank.Keys + {id};
  }

  lemma EnterKeeps(g: Graph, s: VisitState, id: Node, path: seq<Node>, rank: map<Node, nat>)
    requires Inv(g, s, path, rank) && Next(g, path, id) && id !in s.visiting && id !in s.visited
    ensures Inv(g, s.(visiting := s.visiting + {id}), path + [id], rank)
    ensures forall w :: w in Successors(g, id) ==> Next(g, path + [id], w)
  {
    hide Ranked;
    EnteringExtendsPath(g, s, path, id);
  }

  lemma LeaveKeeps(g: Graph, s: VisitState, id: Node, path: seq<Node>, rank: map<Node, nat>)
    requires Inv(g, s, path + [id], rank) && id !in path
    requires forall w :: w in Successors(g, id) ==> w in rank
    ensures Inv(g, VisitState(s.visiting - {id}, s.visited + {id}), path, rank[id := |rank|])
  {
    hide Ranked;
    assert id in path + [id];
    LeavingShortensPath(g, s, path, id);
    LeavingRanks(g, rank, id);
  }

  lemma {:induction false} VisitKeeps(g: Graph, names: set<Node>, s: VisitState, id: Node, path: seq<Node>,
      rank: map<Node, nat>)
    returns (rank': map<Node, nat>)
    requires forall v, w :: w in Successors(g, v) ==> w in names
    requires id in names
    requires Inv(g, s, path, rank) && Next(g, path, id)
    ensures var (r, cyclic) := Visit(g, names, s, id);
            if cyclic then HasCycle(g)
            else Inv(g, r, path, rank') && rank.Keys <= rank'.Keys && id in rank'
    decreases |names - Seen(s)|, 0
  {
    hide Inv, HasCycle;
    rank' := rank;
    if id in s.visiting || id in s.visited {
      RevisitKeeps(g, s, id, path, rank);
    } else {
      var entered := s.(visiting := s.visiting + {id});
      assert names - Seen(entered) == (names - Seen(s)) - {id};
      EnterKeeps(g, s, id, path, rank);
      var inner := VisitSomeKeeps(g, names, entered, Successors(g, id), path + [id], rank);
      var (left, cyclic) := VisitSome(g, names, entered, Successors(g, id));
      if !cyclic {
        NotOnPath(g, s, id, path, rank);
        LeaveKeeps(g, left, id, path, inner);
        rank' := inner[id := |inner|];
      }
    }
  }

  lemma RevisitKeeps(g: Graph, s: VisitState, id: Node, path: seq<Node>, rank: map<Node, nat>)
    requires Inv(g, s, path, rank) && Next(g, path, id)
    ensures id in s.visiting ==> HasCycle(g)
    ensures id in s.visited ==> id in rank
  {
    if id in s.visiting {
      BackEdgeIsCycle(g, s, path, id);
    }
  }

  lemma NotOnPath(g: Graph, s: VisitState, id: Node, path: seq<Node>, rank: map<Node, nat>)
    requires Inv(g, s, path, rank) && id !in s.visiting
    ensures id !in path
  {}

  lemma {:induction false} VisitSomeKeeps(g: Graph, names: set<Node>, s: VisitState, ids: seq<Node>, path: seq<Node>,
      rank: map<Node, nat>)
    returns (rank': map<Node, nat>)
    requires forall v, w :: w in Successors(g, v) ==> w in names
    requires forall id :: id in ids ==> id in names
    requires Inv(g, s, path, rank)
    requires forall id :: id in ids ==> Next(g, path, id)
    ensures var (r, cyclic) := VisitSome(g, names, s, ids);
            if cyclic then HasCycle(g)
            else Inv(g, r, path, rank') && rank.Keys <= rank'.Keys && forall id :: id in ids ==> id in rank'
    decreases |names - Seen(s)|, |ids|
  {
    hide Inv, HasCycle, Visit, Successors, Seen;
    rank' := rank;
    if ids != [] {
      assert ids[0] in ids && forall id :: id in ids[1..] ==> id in ids;
      var (next, cyclic) := Visit(g, names, s, ids[0]);
      SubsetCardinality(names - Seen(next), names - Seen(s));
      var rank1 := VisitKeeps(g, names, s, ids[0], path, rank);
      if !cyclic {
        rank' := VisitSomeKeeps(g, names, next, ids[1..], path, rank1);
      }
    }
  }

  // ----- The catalog check -----

  ghost function AllNames(g: Graph): set<Node> {
    g.Keys + set v, w | v in g && w in g[v] :: w
  }

  lemma AllNamed(g: Graph)
    ensures forall v, w :: w in Successors(g, v) ==> w in AllNames(g)
    ensures g.Keys <= AllNames(g)
  {}

  /** The graph, and its keys in the order in which they were first set. */
  method BuildGraph(records: seq<Definition>) returns (g: Graph, keys: seq<Node>)
    ensures g == PrerequisiteGraph(records)
    ensures Elements(keys) == g.Keys
  {
    g, keys := map[], [];
    for i := 0 to |records|
      invariant g == PrerequisiteGraph(records[..i])
      invariant Elements(keys) == g.Keys
    {
      assert records[..i + 1][..i] == records[..i];
      if records[i].OptionDefinition? {
        var id := records[i].ref.definitionId;
        if id !in g {
          keys := keys + [id];
        }
        g := g[id := Required(records[i].prerequisites)];
      }
    }
    assert records[..|records|] == records;
  }

  /** The last pass of the catalog validation: reports whether some prerequisites form a cycle. */
  method FindPrerequisiteCycle(records: seq<Definition>) returns (reported: bool)
    ensures reported <==> HasCycle(PrerequisiteGraph(records))
  {
    hide HasCycle, AllNames, Elements, Ranked, OnPath;
    var g, keys := BuildGraph(records);
    ghost var names := AllNames(g);
    AllNamed(g);
    var visitor := new Visitor(g, names);
    ghost var rank: map<Node, nat> := map[];
    EmptyInv(g);
    for i := 0 to |keys|
      invariant visitor.g == g && visitor.names == names
      invariant Inv(g, visitor.State(), [], rank)
      invariant forall k :: 0 <= k < i ==> keys[k] in rank
    {
      KeysListed(keys, i);
      rank := VisitKeeps(g, names, visitor.State(), keys[i], [], rank);
      var cyclic := visitor.VisitNode(keys[i]);
      if cyclic { return true; }
    }
    AllListed(keys);
    RankedIsAcyclic(g, rank);
    return false;
  }

  lemma EmptyInv(g: Graph)
    ensures Inv(g, VisitState({}, {}), [], map[])
  {
    assert Elements<Node>([]) == {};
  }

  lemma KeysListed(keys: seq<Node>, i: nat)
    requires i < |keys|
    ensures keys[i] in Elements(keys)
  {}

  lemma AllListed(keys: seq<Node>)
    ensures forall v :: v in Elements(keys) ==> exists k :: 0 <= k < |keys| && keys[k] == v
  {}

  /** A rank that falls along every edge rules out cycles. */
  lemma RankedIsAcyclic(g: Graph, rank: map<Node, nat>)
    requires Ranked(g, rank) && g.Keys <= rank.Keys
    ensures !HasCycle(g)
  {
    forall p | Cycle(g, p) ensures false {
      forall v | v in p ensures v in rank {
        var i :| 0 <= i < |p| && p[i] == v;
        if i + 1 < |p| {
          assert Step(g, p, i);
        } else {
          assert Step(g, p, 0);
        }
      }
      forall i: nat | i + 1 < |p| && Edge(g, p[i], p[i + 1]) ensures rank[p[i + 1]] < rank[p[i]] {
        assert p[i + 1] in Successors(g, p[i]);
      }
      RankFallsAlongWalk(g, rank, p);
    }
  }

  /** When no cycle is reported the options can be ordered so that each comes after everything it
      requires; a reported cycle is a real one. */
  lemma {:induction false} AcyclicHasRank(g: Graph, keys: seq<Node>) returns (rank: map<Node, nat>, s: VisitState)
    requires !HasCycle(g) && Elements(keys) <= g.Keys
    ensures Inv(g, s, [], rank) && Elements(keys) <= rank.Keys
  {
    hide HasCycle, AllNames, Ranked, OnPath, Elements;
    AllNamed(g);
    EmptyInv(g);
    if keys == [] {
      rank, s := map[], VisitState({}, {});
      AllListed(keys);
    } else {
      var n := |keys| - 1;
      SplitLast(keys);
      rank, s := AcyclicHasRank(g, keys[..n]);
      var rank' := VisitKeeps(g, AllNames(g), s, keys[n], [], rank);
      rank, s := rank', Visit(g, AllNames(g), s, keys[n]).0;
    }
  }

  lemma SplitLast(keys: seq<Node>)
    requires keys != []
    ensures Elements(keys) == Elements(keys[..|keys| - 1]) + {keys[|keys| - 1]}
  {
    assert keys == keys[..|keys| - 1] + [keys[|keys| - 1]];
  }

  /** A catalog passes the cycle check exactly when its options have a rank that strictly falls along every
      prerequisite. */
  lemma AcceptedExactlyWhenRanked(records: seq<Definition>, keys: seq<Node>)
    requires Elements(keys) == PrerequisiteGraph(records).Keys
    ensures !HasCycle(PrerequisiteGraph(records)) <==>
            exists rank: map<Node, nat> :: PrerequisiteGraph(records).Keys <= rank.Keys
              && Ranked(PrerequisiteGraph(records), rank)
  {
    hide Elements, Ranked, HasCycle, PrerequisiteGraph;
    var g := PrerequisiteGraph(records);
    if !HasCycle(g) {
      var rank, _ := AcyclicHasRank(g, keys);
      assert g.Keys <= rank.Keys && Ranked(g, rank);
    }
    if exists rank: map<Node, nat> :: g.Keys <= rank.Keys && Ranked(g, rank) {
      var rank: map<Node, nat> :| g.Keys <= rank.Keys && Ranked(g, rank);
      RankedIsAcyclic(g, rank);
    }
  }
}
