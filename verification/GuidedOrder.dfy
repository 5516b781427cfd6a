/** Exactly which cycles the guided walk reports, and exactly which beat graphs it accepts. */
module GuidedOrder {
  import opened Common
  import opened Graphs
  import opened GuidedGraph

  // ----- The order in which beats are entered -----

  /** Depth first, each beat once, transitions in the order listed; merges play no part. */
  function EnterFrom(g: Graph, names: set<BeatId>, seen: seq<BeatId>, id: BeatId): (r: seq<BeatId>)
    requires forall v, w :: w in Successors(g, v) ==> w in names
    requires id in names
    ensures seen <= r && id in r
    decreases |names - Elements(seen)|, 0
  {
    if id in seen then seen
    else
      assert Elements(seen + [id]) == Elements(seen) + {id};
      assert names - Elements(seen + [id]) == (names - Elements(seen)) - {id};
      EnterEach(g, names, seen + [id], Successors(g, id))
  }

  function EnterEach(g: Graph, names: set<BeatId>, seen: seq<BeatId>, ids: seq<BeatId>): (r: seq<BeatId>)
    requires forall v, w :: w in Successors(g, v) ==> w in names
    requires forall id :: id in ids ==> id in names
    ensures seen <= r
    decreases |names - Elements(seen)|, |ids|
  {
    if ids == [] then seen
    else
      var next := EnterFrom(g, names, seen, ids[0]);
      assert Elements(seen) <= Elements(next);
      SubsetCardinality(names - Elements(next), names - Elements(seen));
      EnterEach(g, names, next, ids[1..])
  }

  function EntryOrder(g: Graph, start: BeatId): seq<BeatId> {
    AllNamed(g, start);
    EnterFrom(g, Names(g, start), [], start)
  }

  /** What was entered before `c`. */
  function Before(order: seq<BeatId>, c: BeatId): (r: seq<BeatId>)
    ensures r <= order && c !in r
  {
    if order == [] || order[0] == c then [] else [order[0]] + Before(order[1..], c)
  }

  lemma {:induction false} BeforeStays(order: seq<BeatId>, more: seq<BeatId>, c: BeatId)
    requires c in order && order <= more
    ensures Before(more, c) == Before(order, c)
  {
    if order[0] != c {
      BeforeStays(order[1..], more[1..], c);
    }
  }

  lemma {:induction false} BeforeNew(order: seq<BeatId>, c: BeatId)
    requires c !in order
    ensures Before(order + [c], c) == order
  {
    if order != [] {
      assert (order + [c])[1..] == order[1..] + [c];
      BeforeNew(order[1..], c);
    }
  }

  /** `p` is a cycle of entered beats none of which was entered before its first. */
  ghost predicate HeadedCycle(g: Graph, order: seq<BeatId>, p: seq<BeatId>) {
    Cycle(g, p) && p[0] in order && forall v :: v in p ==> v !in Before(order, p[0])
  }

  /** `c` is the first-entered beat of some cycle. */
  ghost predicate HeadsCycle(g: Graph, order: seq<BeatId>, c: BeatId) {
    exists p :: HeadedCycle(g, order, p) && p[0] == c
  }

  lemma HeadsStays(g: Graph, order: seq<BeatId>, more: seq<BeatId>, c: BeatId)
    requires c in order && order <= more
    ensures HeadsCycle(g, more, c) <==> HeadsCycle(g, order, c)
  {
    hide Before;
    BeforeStays(order, more, c);
    if HeadsCycle(g, order, c) {
      var p :| HeadedCycle(g, order, p) && p[0] == c;
      assert HeadedCycle(g, more, p);
    }
    if HeadsCycle(g, more, c) {
      var p :| HeadedCycle(g, more, p) && p[0] == c;
      assert HeadedCycle(g, order, p);
    }
  }

  // ----- What the walk does, by the order -----

  /** The walk's sets, told by the order and by the path to the beat being explored, which runs in that order. */
  ghost predicate Told(g: Graph, s: SearchState, order: seq<BeatId>, path: seq<BeatId>) {
    && s.visited == Elements(order) && s.active == Elements(path)
    && (forall v :: v in path ==> v in order)
    && (path != [] ==> Walk(g, path))
    && forall i, j :: 0 <= i < j < |path| ==> path[j] !in Before(order, path[i])
  }

  ghost predicate ReportsHead(g: Graph, merges: set<BeatId>, s: SearchState, order: seq<BeatId>) {
    forall c :: c in s.cycles ==> c !in merges && c in order && HeadsCycle(g, order, c)
  }

  /** Where an edge leads: to a visited beat, and, if to an unmerged one that was active, to a report. */
  ghost predicate Followed(merges: set<BeatId>, active: set<BeatId>, r: SearchState, order: seq<BeatId>, x: BeatId) {
    x in order && (x in active && x !in merges ==> x in r.cycles)
  }

  /** All edges of the beats entered since `n`. */
  ghost predicate AllFollowed(g: Graph, merges: set<BeatId>, active: set<BeatId>, r: SearchState, order: seq<BeatId>,
      n: nat) {
    n <= |order| && forall k, x :: n <= k < |order| && x in Successors(g, order[k]) ==>
      Followed(merges, active, r, order, x)
  }

  /** Of the beats entered since `n`, the unmerged ones that head a cycle are reported. */
  ghost predicate HeadsReported(g: Graph, merges: set<BeatId>, r: SearchState, order: seq<BeatId>, n: nat) {
    n <= |order| && forall k :: n <= k < |order| && order[k] !in merges && HeadsCycle(g, order, order[k]) ==>
      order[k] in r.cycles
  }

  ghost predicate Kept(g: Graph, merges: set<BeatId>, s: SearchState, r: SearchState, order: seq<BeatId>,
      more: seq<BeatId>, path: seq<BeatId>) {
    && order <= more && Told(g, r, more, path) && s.cycles <= r.cycles
    && ReportsHead(g, merges, r, more)
    && AllFollowed(g, merges, s.active, r, more, |order|) && HeadsReported(g, merges, r, more, |order|)
  }

  lemma ToldLater(g: Graph, s: SearchState, order: seq<BeatId>, more: seq<BeatId>, path: seq<BeatId>, r: SearchState)
    requires Told(g, s, order, path) && order <= more && r.visited == Elements(more) && r.active == s.active
    ensures Told(g, r, more, path)
  {
    forall i, j | 0 <= i < j < |path| ensures path[j] !in Before(more, path[i]) {
      BeforeStays(order, more, path[i]);
    }
  }

  lemma ToldEntering(g: Graph, s: SearchState, order: seq<BeatId>, path: seq<BeatId>, id: BeatId, entered: SearchState)
    requires Told(g, s, order, path) && id !in order && (path != [] ==> Edge(g, path[|path| - 1], id))
    requires entered == s.(visited := s.visited + {id}, active := s.active + {id})
    ensures Told(g, entered, order + [id], path + [id])
  {
    assert Elements(order + [id]) == Elements(order) + {id} && Elements(path + [id]) == Elements(path) + {id};
    if path != [] {
      WalkExtend(g, path, id);
    }
    var p := path + [id];
    forall i, j | 0 <= i < j < |p| ensures p[j] !in Before(order + [id], p[i]) {
      BeforeStays(order, order + [id], path[i]);
    }
  }

  lemma ReportsLater(g: Graph, merges: set<BeatId>, s: SearchState, order: seq<BeatId>, more: seq<BeatId>,
      r: SearchState)
    requires ReportsHead(g, merges, s, order) && order <= more && r.cycles == s.cycles
    ensures ReportsHead(g, merges, r, more)
  {
    forall c | c in r.cycles ensures c !in merges && c in more && HeadsCycle(g, more, c) {
      HeadsStays(g, order, more, c);
    }
  }

  /** A back edge closes a cycle that the active beat it leads to heads. */
  lemma BackEdgeHeads(g: Graph, s: SearchState, order: seq<BeatId>, path: seq<BeatId>, id: BeatId)
    requires Told(g, s, order, path) && id in path && Edge(g, path[|path| - 1], id)
    ensures id in order && HeadsCycle(g, order, id)
  {
    var k :| 0 <= k < |path| && path[k] == id;
    WalkSuffix(g, path, k);
    WalkExtend(g, path[k..], id);
    var p := path[k..] + [id];
    forall v | v in p ensures v !in Before(order, id) {
      var i :| 0 <= i < |p| && p[i] == v;
      assert i < |path| - k ==> p[i] == path[k + i];
    }
    assert HeadedCycle(g, order, p);
  }

  /** White paths: a cycle headed by a beat just left was walked inside it, up to the edge back to it. */
  lemma WhitePath(g: Graph, merges: set<BeatId>, active: set<BeatId>, r: SearchState, order: seq<BeatId>, n: nat,
      id: BeatId)
    requires n < |order| && order[n] == id && id !in order[..n] && id in active && id !in merges
    requires AllFollowed(g, merges, active, r, order, n) && HeadsCycle(g, order, id)
    ensures id in r.cycles
  {
    var p :| HeadedCycle(g, order, p) && p[0] == id;
    assert order == order[..n] + order[n..] && order[..n] + [id] <= order;
    BeforeNew(order[..n], id);
    BeforeStays(order[..n] + [id], order, id);
    InsideIsEntered(g, merges, active, r, order, n, p, |p| - 2);
    var k :| n <= k < |order| && order[k] == p[|p| - 2];
    assert Step(g, p, |p| - 2);
    assert Followed(merges, active, r, order, id);
  }

  lemma {:induction false} InsideIsEntered(g: Graph, merges: set<BeatId>, active: set<BeatId>, r: SearchState,
      order: seq<BeatId>, n: nat, p: seq<BeatId>, i: nat)
    requires n < |order| && Walk(g, p) && p[0] == order[n] && i < |p|
    requires forall v :: v in p ==> v !in order[..n]
    requires AllFollowed(g, merges, active, r, order, n)
    ensures exists k :: n <= k < |order| && order[k] == p[i]
  {
    if i > 0 {
      InsideIsEntered(g, merges, active, r, order, n, p, i - 1);
      var k :| n <= k < |order| && order[k] == p[i - 1];
      assert Step(g, p, i - 1);
      assert Followed(merges, active, r, order, p[i]);
      assert p[i] in p && p[i] !in order[..n];
      forall m | 0 <= m < n ensures order[m] != p[i] {
        assert order[..n][m] == order[m] && order[..n][m] in order[..n];
      }
    }
  }

  /** What one call of `walk` does. */
  lemma {:induction false} WalkFromTold(g: Graph, merges: set<BeatId>, names: set<BeatId>, s: SearchState,
      order: seq<BeatId>, path: seq<BeatId>, id: BeatId)
    requires forall v, w :: w in Successors(g, v) ==> w in names
    requires id in names && Told(g, s, order, path) && ReportsHead(g, merges, s, order)
    requires path != [] ==> Edge(g, path[|path| - 1], id)
    ensures var r, more := WalkFrom(g, merges, names, s, id), EnterFrom(g, names, order, id);
            Kept(g, merges, s, r, order, more, path) && Followed(merges, s.active, r, more, id)
    decreases |names - s.visited|, 0, 1
  {
    hide Told, ReportsHead, AllFollowed, HeadsReported, Elements, HeadsCycle, Successors;
    var r := WalkFrom(g, merges, names, s, id);
    ToldSets(g, s, order, path);
    if id in s.active {
      BackEdgeHeads(g, s, order, path, id);
      ReportedAlready(g, merges, s, order, id, r);
      ToldLater(g, s, order, order, path, r);
      NothingEntered(g, merges, s.active, r, order);
    } else if id in s.visited {
      NothingEntered(g, merges, s.active, r, order);
    } else {
      InsideTold(g, merges, names, s, order, path, id);
    }
  }

  lemma ToldSets(g: Graph, s: SearchState, order: seq<BeatId>, path: seq<BeatId>)
    requires Told(g, s, order, path)
    ensures s.visited == Elements(order) && s.active == Elements(path) && s.active <= s.visited
    ensures forall v :: v in s.active <==> v in path
    ensures forall v :: v in s.visited <==> v in order
  {}

  lemma NothingEntered(g: Graph, merges: set<BeatId>, active: set<BeatId>, r: SearchState, order: seq<BeatId>)
    ensures AllFollowed(g, merges, active, r, order, |order|) && HeadsReported(g, merges, r, order, |order|)
  {}

  lemma ReportedAlready(g: Graph, merges: set<BeatId>, s: SearchState, order: seq<BeatId>, id: BeatId, r: SearchState)
    requires ReportsHead(g, merges, s, order) && id in order && HeadsCycle(g, order, id)
    requires r.cycles == if id in merges then s.cycles else s.cycles + [id]
    ensures ReportsHead(g, merges, r, order) && (id !in merges ==> id in r.cycles) && s.cycles <= r.cycles
  {}

  lemma {:induction false} InsideTold(g: Graph, merges: set<BeatId>, names: set<BeatId>, s: SearchState,
      order: seq<BeatId>, path: seq<BeatId>, id: BeatId)
    requires forall v, w :: w in Successors(g, v) ==> w in names
    requires id in names && id !in s.active && id !in s.visited && id !in order && s.visited == Elements(order)
    requires Told(g, s, order, path) && ReportsHead(g, merges, s, order)
    requires path != [] ==> Edge(g, path[|path| - 1], id)
    ensures var r, more := WalkFrom(g, merges, names, s, id), EnterFrom(g, names, order, id);
            Kept(g, merges, s, r, order, more, path) && Followed(merges, s.active, r, more, id)
    decreases |names - s.visited|, 0, 0
  {
    hide Told, ReportsHead, Kept, Followed, Elements, Names, EnterEach;
    var entered := s.(visited := s.visited + {id}, active := s.active + {id});
    assert names - entered.visited == (names - s.visited) - {id};
    var inner := order + [id];
    ToldEntering(g, s, order, path, id, entered);
    ReportsLater(g, merges, s, order, inner, entered);
    LastIs(path, id);
    WalkEachTold(g, merges, names, entered, inner, path + [id], Successors(g, id));
    var left, more := WalkEach(g, merges, names, entered, Successors(g, id)),
      EnterEach(g, names, inner, Successors(g, id));
    InsideKept(g, merges, s, order, path, id, entered, left, more);
  }

  lemma InsideKept(g: Graph, merges: set<BeatId>, s: SearchState, order: seq<BeatId>, path: seq<BeatId>, id: BeatId,
      entered: SearchState, left: SearchState, more: seq<BeatId>)
    requires id !in s.active && id !in order && Told(g, s, order, path) && Told(g, entered, order + [id], path + [id])
    requires entered == s.(visited := s.visited + {id}, active := s.active + {id})
    requires Kept(g, merges, entered, left, order + [id], more, path + [id])
    requires forall x :: x in Successors(g, id) ==> Followed(merges, entered.active, left, more, x)
    ensures var r := left.(active := left.active - {id});
            Kept(g, merges, s, r, order, more, path) && Followed(merges, s.active, r, more, id)
  {
    hide Told, ReportsHead, AllFollowed, HeadsReported, Elements, HeadsCycle, Successors;
    var r := left.(active := left.active - {id});
    ToldSets(g, left, more, path + [id]);
    ToldSets(g, entered, order + [id], path + [id]);
    assert r.active == s.active;
    ToldLater(g, s, order, more, path, r);
    SameReports(g, merges, left, more, r);
    FollowedWithin(g, merges, s, order, id, left, more, r);
    WithoutActive(g, merges, s.active, id, left, more, |order|, r);
    if id !in merges && HeadsCycle(g, more, id) {
      assert more[..|order|] == order;
      WhitePath(g, merges, entered.active, left, more, |order|, id);
    }
    HeadsWithin(g, merges, order, id, left, more, r);
  }

  lemma LastIs(path: seq<BeatId>, id: BeatId)
    ensures (path + [id])[|path + [id]| - 1] == id
  {}

  lemma SameReports(g: Graph, merges: set<BeatId>, left: SearchState, more: seq<BeatId>, r: SearchState)
    requires ReportsHead(g, merges, left, more) && r.cycles == left.cycles
    ensures ReportsHead(g, merges, r, more)
  {}

  /** The edges of the beat itself join those of the beats entered after it. */
  lemma FollowedWithin(g: Graph, merges: set<BeatId>, s: SearchState, order: seq<BeatId>, id: BeatId,
      left: SearchState, more: seq<BeatId>, r: SearchState)
    requires order + [id] <= more && AllFollowed(g, merges, s.active + {id}, left, more, |order| + 1)
    requires forall x :: x in Successors(g, id) ==> Followed(merges, s.active + {id}, left, more, x)
    ensures AllFollowed(g, merges, s.active + {id}, left, more, |order|)
  {
    forall k, x | |order| <= k < |more| && x in Successors(g, more[k]) ensures Followed(merges, s.active + {id}, left,
      more, x) {
      assert k == |order| ==> more[k] == id;
    }
  }

  lemma WithoutActive(g: Graph, merges: set<BeatId>, active: set<BeatId>, id: BeatId, left: SearchState,
      more: seq<BeatId>, n: nat, r: SearchState)
    requires AllFollowed(g, merges, active + {id}, left, more, n) && r.cycles == left.cycles
    ensures AllFollowed(g, merges, active, r, more, n)
  {
    forall k, x | n <= k < |more| && x in Successors(g, more[k]) ensures Followed(merges, active, r, more, x) {
      assert Followed(merges, active + {id}, left, more, x);
    }
  }

  lemma HeadsWithin(g: Graph, merges: set<BeatId>, order: seq<BeatId>, id: BeatId, left: SearchState,
      more: seq<BeatId>, r: SearchState)
    requires order + [id] <= more && HeadsReported(g, merges, left, more, |order| + 1) && r.cycles == left.cycles
    requires id !in merges && HeadsCycle(g, more, id) ==> id in left.cycles
    ensures HeadsReported(g, merges, r, more, |order|)
  {
    hide HeadsCycle;
    forall k | |order| <= k < |more| && more[k] !in merges && HeadsCycle(g, more, more[k]) ensures more[k] in r.cycles {
      assert k == |order| ==> more[k] == id;
    }
  }

  lemma {:induction false} WalkEachTold(g: Graph, merges: set<BeatId>, names: set<BeatId>, s: SearchState,
      order: seq<BeatId>, path: seq<BeatId>, ids: seq<BeatId>)
    requires forall v, w :: w in Successors(g, v) ==> w in names
    requires forall id :: id in ids ==> id in names
    requires Told(g, s, order, path) && ReportsHead(g, merges, s, order)
    requires path != [] && forall id :: id in ids ==> Edge(g, path[|path| - 1], id)
    ensures var r, more := WalkEach(g, merges, names, s, ids), EnterEach(g, names, order, ids);
            Kept(g, merges, s, r, order, more, path) && forall id :: id in ids ==>
              Followed(merges, s.active, r, more, id)
    decreases |names - s.visited|, |ids|, 0
  {
    hide Told, ReportsHead, AllFollowed, HeadsReported, Elements, WalkFrom, EnterFrom, Successors;
    ToldSets(g, s, order, path);
    if ids == [] {
      NothingEntered(g, merges, s.active, s, order);
    } else {
      var next, middle := WalkFrom(g, merges, names, s, ids[0]), EnterFrom(g, names, order, ids[0]);
      assert ids[0] in ids && forall id :: id in ids[1..] ==> id in ids;
      SubsetCardinality(names - next.visited, names - s.visited);
      WalkFromTold(g, merges, names, s, order, path, ids[0]);
      ToldSets(g, next, middle, path);
      WalkEachTold(g, merges, names, next, middle, path, ids[1..]);
      var r, more := WalkEach(g, merges, names, s, ids), EnterEach(g, names, order, ids);
      FollowedLater(g, merges, s.active, next, order, middle, r, more);
      HeadsLater(g, merges, next, order, middle, r, more);
      forall id | id in ids ensures Followed(merges, s.active, r, more, id) {
        assert id == ids[0] || id in ids[1..];
      }
    }
  }

  lemma FollowedLater(g: Graph, merges: set<BeatId>, active: set<BeatId>, next: SearchState, order: seq<BeatId>,
      middle: seq<BeatId>, r: SearchState, more: seq<BeatId>)
    requires order <= middle <= more && next.cycles <= r.cycles
    requires AllFollowed(g, merges, active, next, middle, |order|) && AllFollowed(g, merges, active, r, more, |middle|)
    ensures AllFollowed(g, merges, active, r, more, |order|)
  {
    forall k, x | |order| <= k < |more| && x in Successors(g, more[k]) ensures Followed(merges, active, r, more, x) {
      if k < |middle| {
        assert middle[k] == more[k];
        assert Followed(merges, active, next, middle, x);
      }
    }
  }

  lemma HeadsLater(g: Graph, merges: set<BeatId>, next: SearchState, order: seq<BeatId>, middle: seq<BeatId>,
      r: SearchState, more: seq<BeatId>)
    requires order <= middle <= more && next.cycles <= r.cycles
    requires HeadsReported(g, merges, next, middle, |order|) && HeadsReported(g, merges, r, more, |middle|)
    ensures HeadsReported(g, merges, r, more, |order|)
  {
    hide HeadsCycle;
    forall k | |order| <= k < |more| && more[k] !in merges && HeadsCycle(g, more, more[k]) ensures more[k] in r.cycles {
      if k < |middle| {
        assert middle[k] == more[k];
        HeadsStays(g, middle, more, more[k]);
      }
    }
  }

  // ----- Exactly -----

  lemma WholeWalkTold(g: Graph, merges: set<BeatId>, start: BeatId)
    ensures var r, order := GraphSearch(g, merges, start), EntryOrder(g, start);
            && r.visited == Elements(order) && ReportsHead(g, merges, r, order)
            && AllFollowed(g, merges, {}, r, order, 0) && HeadsReported(g, merges, r, order, 0)
  {
    AllNamed(g, start);
    assert Elements<BeatId>([]) == {};
    WalkFromTold(g, merges, Names(g, start), SearchState({}, {}, []), [], [], start);
  }

  /** A beat is reported if and only if it is unmerged and the first-entered beat of some cycle. */
  lemma ReportedExactly(m: Manifest, c: BeatId)
    ensures c in GraphSearch(BeatGraph(m.beats), Merges(m.beats), m.startBeatId).cycles <==>
            c !in Merges(m.beats) && HeadsCycle(BeatGraph(m.beats), EntryOrder(BeatGraph(m.beats), m.startBeatId), c)
  {
    hide GraphSearch, EntryOrder, BeatGraph, Merges;
    var g, order := BeatGraph(m.beats), EntryOrder(BeatGraph(m.beats), m.startBeatId);
    WholeWalkTold(g, Merges(m.beats), m.startBeatId);
    if HeadsCycle(g, order, c) {
      var p :| HeadedCycle(g, order, p) && p[0] == c;
      var k :| 0 <= k < |order| && order[k] == c;
    }
  }

  /** What the walk visits is what can be reached. */
  lemma VisitedExactly(g: Graph, merges: set<BeatId>, start: BeatId, v: BeatId)
    ensures v in GraphSearch(g, merges, start).visited <==> Reaches(g, start, v)
    ensures v in EntryOrder(g, start) <==> Reaches(g, start, v)
  {
    hide GraphSearch, EntryOrder, Followed, HeadsReported, ReportsHead;
    var r, order := GraphSearch(g, merges, start), EntryOrder(g, start);
    var _ := WholeWalk(g, merges, start);
    WholeWalkTold(g, merges, start);
    if Reaches(g, start, v) {
      var p :| WalkBetween(g, p, start, v);
      forall x, y | x in r.visited && Edge(g, x, y) ensures y in r.visited {
        var k :| 0 <= k < |order| && order[k] == x;
        assert y in Successors(g, order[k]);
        FollowedIsEntered(merges, {}, r, order, y);
      }
      ClosedSetHoldsWalk(g, r.visited, p);
    }
  }

  lemma FollowedIsEntered(merges: set<BeatId>, active: set<BeatId>, r: SearchState, order: seq<BeatId>, x: BeatId)
    requires Followed(merges, active, r, order, x)
    ensures x in order
  {}

  /** The graph checks accept exactly the manifests whose beats are distinct, known and reachable, and in which the
      first-entered beat of every cycle is a declared merge. */
  lemma GraphAcceptedExactly(m: Manifest)
    ensures var g := BeatGraph(m.beats);
            GraphAccepted(m) <==>
              && Distinct(BeatIds(m.beats)) && m.startBeatId in g && Closed(g, m.beats)
              && (forall v :: v in BeatIds(m.beats) ==> Reaches(g, m.startBeatId, v))
              && (forall c :: HeadsCycle(g, EntryOrder(g, m.startBeatId), c) ==> c in Merges(m.beats))
  {
    hide GraphSearch, EntryOrder, BeatGraph, Merges, Distinct, Reaches, HeadsCycle, Closed;
    var g, merges := BeatGraph(m.beats), Merges(m.beats);
    if GraphAccepted(m) {
      AcceptedGraphIsSound(m);
      forall c | HeadsCycle(g, EntryOrder(g, m.startBeatId), c) ensures c in merges {
        ReportedExactly(m, c);
      }
    }
    if Distinct(BeatIds(m.beats)) && m.startBeatId in g && Closed(g, m.beats)
      && (forall v :: v in BeatIds(m.beats) ==> Reaches(g, m.startBeatId, v))
      && (forall c :: HeadsCycle(g, EntryOrder(g, m.startBeatId), c) ==> c in merges) {
      var cycles := GraphSearch(g, merges, m.startBeatId).cycles;
      if cycles != [] {
        ReportedExactly(m, cycles[0]);
      }
      AllVisited(m);
    }
  }

  lemma AllVisited(m: Manifest)
    requires Distinct(BeatIds(m.beats)) && m.startBeatId in BeatGraph(m.beats) && Closed(BeatGraph(m.beats), m.beats)
    requires forall v :: v in BeatIds(m.beats) ==> Reaches(BeatGraph(m.beats), m.startBeatId, v)
    ensures |GraphSearch(BeatGraph(m.beats), Merges(m.beats), m.startBeatId).visited| == |m.beats|
  {
    hide GraphSearch, BeatGraph, Merges, Distinct, EntryOrder, Closed, BeatIds, Walk;
    var g, merges := BeatGraph(m.beats), Merges(m.beats);
    var visited := GraphSearch(g, merges, m.startBeatId).visited;
    BeatGraphKeys(m.beats);
    DistinctCardinality(BeatIds(m.beats));
    forall v ensures v in visited <==> v in g {
      assert v in g ==> v in Elements(BeatIds(m.beats));
      VisitedExactly(g, merges, m.startBeatId, v);
      if v in visited {
        var p :| WalkBetween(g, p, m.startBeatId, v);
        ClosedKeys(m);
        ClosedSetHoldsWalk(g, g.Keys, p);
      }
    }
    assert visited == g.Keys;
  }

  lemma ClosedKeys(m: Manifest)
    requires Closed(BeatGraph(m.beats), m.beats)
    ensures forall v, w :: v in BeatGraph(m.beats) && Edge(BeatGraph(m.beats), v, w) ==> w in BeatGraph(m.beats)
  {
    hide BeatGraph;
    var g := BeatGraph(m.beats);
    forall v, w | v in g && Edge(g, v, w) ensures w in g {
      EveryKeyHasBeat(m.beats, v);
      var beat :| beat in m.beats && beat.beatId == v && Targets(beat.transitions) == g[v];
      assert Undangling(g, beat);
    }
  }

  /** In particular it is enough that every beat on a cycle is merged. */
  lemma MergedCyclesAreAccepted(m: Manifest)
    requires Distinct(BeatIds(m.beats)) && m.startBeatId in BeatGraph(m.beats) && Closed(BeatGraph(m.beats), m.beats)
    requires forall v :: v in BeatIds(m.beats) ==> Reaches(BeatGraph(m.beats), m.startBeatId, v)
    requires forall p :: Cycle(BeatGraph(m.beats), p) ==> p[0] in Merges(m.beats)
    ensures GraphAccepted(m)
  {
    hide GraphAccepted, EntryOrder, BeatGraph, Merges, Distinct, Reaches, Closed;
    var g := BeatGraph(m.beats);
    GraphAcceptedExactly(m);
    forall c | HeadsCycle(g, EntryOrder(g, m.startBeatId), c) ensures c in Merges(m.beats) {
      var p :| HeadedCycle(g, EntryOrder(g, m.startBeatId), p) && p[0] == c;
    }
  }

  /** And a cycle through an unmerged start is always refused. */
  lemma UnmergedStartIsRefused(m: Manifest, p: seq<BeatId>)
    requires Cycle(BeatGraph(m.beats), p) && p[0] == m.startBeatId && m.startBeatId !in Merges(m.beats)
    ensures m.startBeatId in GraphSearch(BeatGraph(m.beats), Merges(m.beats), m.startBeatId).cycles && !GraphAccepted(m)
  {
    hide GraphSearch, EntryOrder, BeatGraph, Merges, Distinct, Closed;
    var g, order := BeatGraph(m.beats), EntryOrder(BeatGraph(m.beats), m.startBeatId);
    StartIsFirst(g, m.startBeatId);
    assert HeadedCycle(g, order, p);
    ReportedExactly(m, m.startBeatId);
  }

  lemma StartIsFirst(g: Graph, start: BeatId)
    ensures start in EntryOrder(g, start) && Before(EntryOrder(g, start), start) == []
  {
    AllNamed(g, start);
    assert [] + [start] == [start];
    assert [start] <= EntryOrder(g, start);
  }
}
