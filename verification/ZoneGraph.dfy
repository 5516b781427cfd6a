/** Battlefield zones: the distance search and the graph validation of a combat. */
module ZoneGraph {
  import opened Common
  import opened Graphs

  type ZoneId = Node

  datatype Visibility = Open | Obscured | Blocked

  datatype Zone = Zone(
    zoneId: ZoneId,
    capacity: int,
    visibility: Visibility,
    objectiveIds: seq<nat>,
    connections: seq<ZoneId>)

  function ZoneIds(zones: seq<Zone>): (ids: seq<ZoneId>)
    ensures |ids| == |zones|
  {
    seq(|zones|, i requires 0 <= i < |zones| => zones[i].zoneId)
  }

  /** The `Map` built from the zone list: a later zone replaces an earlier one of the same identity. */
  function Links(zones: seq<Zone>): Graph {
    if zones == [] then map[]
    else
      var last := zones[|zones| - 1];
      Links(zones[..|zones| - 1])[last.zoneId := last.connections]
  }

  lemma {:induction false} LinksKeys(zones: seq<Zone>)
    ensures Links(zones).Keys == Elements(ZoneIds(zones))
  {
    if zones != [] {
      var n := |zones| - 1;
      LinksKeys(zones[..n]);
      assert ZoneIds(zones) == ZoneIds(zones[..n]) + [zones[n].zoneId];
    }
  }

  lemma {:induction false} LinksLookup(zones: seq<Zone>, k: nat)
    requires k < |zones| && Distinct(ZoneIds(zones))
    ensures zones[k].zoneId in Links(zones) && Links(zones)[zones[k].zoneId] == zones[k].connections
  {
    var n := |zones| - 1;
    assert ZoneIds(zones)[..n] == ZoneIds(zones[..n]);
    if k < n {
      assert ZoneIds(zones)[k] != ZoneIds(zones)[n];
      LinksLookup(zones[..n], k);
    }
  }

  // ----- Distance -----

  /** The end points of the edges that leave a set of nodes. */
  function Image(g: Graph, s: set<Node>): set<Node> {
    set v, w | v in s && w in Successors(g, v) :: w
  }

  function Names(g: Graph): set<Node> {
    Image(g, g.Keys)
  }

  lemma NewNodesAreNames(g: Graph, seen: set<Node>)
    ensures Image(g, seen) <= Names(g)
    ensures seen + Image(g, seen) != seen ==> |Names(g) - (seen + Image(g, seen))| < |Names(g) - seen|
  {
    var next := seen + Image(g, seen);
    if next != seen {
      var w :| w in Image(g, seen) && w !in seen;
      assert w in (Names(g) - seen) - (Names(g) - next);
      SubsetCardinality(Names(g) - next, Names(g) - seen);
    }
  }

  /** The search one whole level at a time: `seen` is what `n` steps reach. */
  function Search(g: Graph, seen: set<Node>, to: Node, n: nat): Option<nat>
    decreases |Names(g) - seen|
  {
    if to in seen then Some(n)
    else
      var next := seen + Image(g, seen);
      NewNodesAreNames(g, seen);
      if next == seen then None else Search(g, next, to, n + 1)
  }

  function Distance(zones: seq<Zone>, from: ZoneId, to: ZoneId): Option<nat> {
    var g := Links(zones);
    if from == to then Some(0)
    else if from !in g || to !in g then None
    else Search(g, {from}, to, 0)
  }

  lemma InImage(g: Graph, s: set<Node>, v: Node, w: Node)
    requires v in s && w in Successors(g, v)
    ensures w in Image(g, s)
  {}

  /** Once everything a level leads to has been seen, the next level is what was seen. */
  lemma LevelComplete(g: Graph, before: set<Node>, frontier: seq<Node>, visited: set<Node>, to: Node, n: nat)
    requires before <= visited <= before + Image(g, before)
    requires forall v, w :: v in before && v !in frontier && w in Successors(g, v) ==> w in before
    requires forall v, w :: v in frontier && w in Successors(g, v) ==> w in visited
    requires to !in visited
    ensures visited == before + Image(g, before)
    ensures Search(g, before, to, n) == Search(g, visited, to, n + 1)
    ensures visited != before ==> |Names(g) - visited| < |Names(g) - before|
  {
    forall w | w in Image(g, before) ensures w in visited {
      var v :| v in before && w in Successors(g, v);
    }
    NewNodesAreNames(g, before);
  }

  lemma SearchHits(g: Graph, seen: set<Node>, to: Node, n: nat)
    requires to !in seen && to in Image(g, seen)
    ensures Search(g, seen, to, n) == Some(n + 1)
  {}

  lemma SearchEnds(g: Graph, seen: set<Node>, to: Node, n: nat)
    requires to !in seen
    requires forall v, w :: v in seen && w in Successors(g, v) ==> w in seen
    ensures Search(g, seen, to, n) == None
  {
    assert seen + Image(g, seen) == seen;
  }

  method ZoneDistance(zones: seq<Zone>, from: ZoneId, to: ZoneId) returns (r: Option<nat>)
    ensures r == Distance(zones, from, to)
  {
    hide Search, Image, Names, Links;
    if from == to { return Some(0); }
    var g := ZoneMap(zones);
    if from !in g || to !in g { return None; }
    var visited := {from};
    var frontier := [from];
    var distance := 0;
    while |frontier| > 0
      invariant to !in visited
      invariant forall v :: v in frontier ==> v in visited
      invariant forall v, w :: v in visited && v !in frontier && w in Successors(g, v) ==> w in visited
      invariant Search(g, visited, to, distance) == Search(g, {from}, to, 0)
      decreases |Names(g) - visited|, |frontier|
    {
      distance := distance + 1;
      ghost var before := visited;
      var found, next;
      found, visited, next := ExpandLevel(g, frontier, visited, to);
      if found {
        SearchHits(g, before, to, distance - 1);
        return Some(distance);
      }
      LevelComplete(g, before, frontier, visited, to, distance - 1);
      if next != [] {
        assert next[0] in visited && next[0] !in before;
      }
      frontier := next;
    }
    SearchEnds(g, visited, to, distance);
    return None;
  }

  /** The two inner loops: follow every connection of the frontier, stopping at the target. */
  method ExpandLevel(g: Graph, frontier: seq<Node>, before: set<Node>, to: Node)
    returns (found: bool, visited: set<Node>, next: seq<Node>)
    requires to !in before
    requires forall v :: v in frontier ==> v in before
    ensures found ==> to in Image(g, before)
    ensures !found ==> to !in visited
    ensures !found ==> visited == before + set w | w in next
    ensures !found ==> forall w :: w in next ==> w !in before
    ensures visited <= before + Image(g, before)
    ensures !found ==> forall v, w :: v in frontier && w in Successors(g, v) ==> w in visited
  {
    visited, next, found := before, [], false;
    for i := 0 to |frontier|
      invariant to !in visited && before <= visited <= before + Image(g, before)
      invariant visited == before + set w | w in next
      invariant forall w :: w in next ==> w !in before
      invariant forall k, w :: 0 <= k < i && w in Successors(g, frontier[k]) ==> w in visited
    {
      var connections := Successors(g, frontier[i]);
      ghost var start := visited;
      for j := 0 to |connections|
        invariant to !in visited && start <= visited <= before + Image(g, before)
        invariant visited == before + set w | w in next
        invariant forall w :: w in next ==> w !in before
        invariant forall k :: 0 <= k < j ==> connections[k] in visited
      {
        var connected := connections[j];
        InImage(g, before, frontier[i], connected);
        if connected == to {
          found := true;
          return;
        }
        if connected !in visited {
          visited := visited + {connected};
          next := next + [connected];
        }
      }
    }
  }

  /** The `zones` map of the search, filled one zone at a time. */
  method ZoneMap(zones: seq<Zone>) returns (g: Graph)
    ensures g == Links(zones)
  {
    g := map[];
    for i := 0 to |zones|
      invariant g == Links(zones[..i])
    {
      g := g[zones[i].zoneId := zones[i].connections];
      assert zones[..i + 1][..i] == zones[..i];
    }
    assert zones[..|zones|] == zones;
  }

  // ----- Distance is the length of a shortest walk -----

  /** Nodes reached by walks of at most `n` edges. */
  ghost function Ball(g: Graph, from: Node, n: nat): set<Node> {
    if n == 0 then {from} else Ball(g, from, n - 1) + Image(g, Ball(g, from, n - 1))
  }

  lemma {:induction false} BallHasWalk(g: Graph, from: Node, n: nat, w: Node)
    requires w in Ball(g, from, n)
    ensures exists p :: WalkBetween(g, p, from, w) && |p| <= n + 1
  {
    hide Reaches;
    if n == 0 {
      ReachesSelf(g, from);
    } else if w in Ball(g, from, n - 1) {
      BallHasWalk(g, from, n - 1, w);
    } else {
      var v :| v in Ball(g, from, n - 1) && w in Successors(g, v);
      BallHasWalk(g, from, n - 1, v);
      var p :| WalkBetween(g, p, from, v) && |p| <= n;
      WalkExtend(g, p, w);
      assert WalkBetween(g, p + [w], from, w);
    }
  }

  lemma {:induction false} WalkInBall(g: Graph, from: Node, p: seq<Node>, n: nat)
    requires Walk(g, p) && p[0] == from && |p| <= n + 1
    ensures p[|p| - 1] in Ball(g, from, n)
  {
    if n > 0 {
      if |p| <= n {
        WalkInBall(g, from, p, n - 1);
      } else {
        WalkLast(g, p);
        WalkInBall(g, from, p[..n], n - 1);
        InImage(g, Ball(g, from, n - 1), p[n - 1], p[n]);
      }
    }
  }

  ghost predicate LeastLevel(g: Graph, from: Node, to: Node, r: Option<nat>) {
    match r
    case Some(d) => to in Ball(g, from, d) && (d > 0 ==> to !in Ball(g, from, d - 1))
    case None => forall m :: to !in Ball(g, from, m)
  }

  lemma {:induction false} SearchFindsLeastLevel(g: Graph, from: Node, to: Node, seen: set<Node>, n: nat)
    requires seen == Ball(g, from, n)
    requires n > 0 ==> to !in Ball(g, from, n - 1)
    ensures LeastLevel(g, from, to, Search(g, seen, to, n))
    decreases |Names(g) - seen|
  {
    hide Image, Names;
    var next := seen + Image(g, seen);
    if to !in seen {
      NewNodesAreNames(g, seen);
      if next == seen {
        forall m: nat ensures to !in Ball(g, from, m) {
          BallStops(g, from, n, m);
        }
      } else {
        assert next == Ball(g, from, n + 1);
        SearchFindsLeastLevel(g, from, to, next, n + 1);
      }
    }
  }

  lemma {:induction false} BallStops(g: Graph, from: Node, n: nat, m: nat)
    requires Ball(g, from, n) + Image(g, Ball(g, from, n)) == Ball(g, from, n)
    ensures Ball(g, from, m) <= Ball(g, from, n)
  {
    if m > n {
      BallStops(g, from, n, m - 1);
    } else if m < n {
      BallGrows(g, from, m, n);
    }
  }

  lemma {:induction false} BallGrows(g: Graph, from: Node, m: nat, n: nat)
    requires m <= n
    ensures Ball(g, from, m) <= Ball(g, from, n)
  {
    if m < n {
      BallGrows(g, from, m, n - 1);
    }
  }

  /** A level in which the target first appears is the length of a shortest walk. */
  lemma LeastLevelIsShortest(g: Graph, from: Node, to: Node, r: Option<nat>)
    requires LeastLevel(g, from, to, r)
    ensures r.Some? <==> Reaches(g, from, to)
    ensures r.Some? ==> ShortestWalk(g, from, to, r.value)
  {
    match r
    case Some(d) =>
      BallHasWalk(g, from, d, to);
      forall p | WalkBetween(g, p, from, to) ensures d + 1 <= |p| {
        if |p| < d + 1 {
          WalkInBall(g, from, p, d - 1);
        }
      }
    case None =>
      forall p | WalkBetween(g, p, from, to) ensures false {
        WalkInBall(g, from, p, |p|);
      }
  }

  /** Some walk between the two nodes has `d` edges, and none has fewer. */
  ghost predicate ShortestWalk(g: Graph, from: Node, to: Node, d: nat) {
    && (exists p :: WalkBetween(g, p, from, to) && |p| == d + 1)
    && (forall p :: WalkBetween(g, p, from, to) ==> d + 1 <= |p|)
  }

  /** For every zone list, validated or not: a distance is the edge count of a shortest connection walk between two
      named zones, and is absent exactly when there is none. */
  lemma DistanceIsShortest(zones: seq<Zone>, from: ZoneId, to: ZoneId)
    ensures Distance(zones, from, to).Some? <==>
            from == to || (to in Links(zones) && Reaches(Links(zones), from, to))
    ensures Distance(zones, from, to).Some? ==> ShortestWalk(Links(zones), from, to, Distance(zones, from, to).value)
  {
    hide LeastLevel, Search, Reaches;
    var g := Links(zones);
    if from == to {
      ReachesSelf(g, from);
      assert ShortestWalk(g, from, to, 0);
    } else if from in g {
      SearchFindsLeastLevel(g, from, to, {from}, 0);
      LeastLevelIsShortest(g, from, to, Search(g, {from}, to, 0));
    } else {
      NoWalkFromUnnamed(g, from, to);
    }
  }

  lemma NoWalkFromUnnamed(g: Graph, from: Node, to: Node)
    requires from != to
    ensures Reaches(g, from, to) ==> from in g
  {
    if Reaches(g, from, to) {
      var p :| WalkBetween(g, p, from, to);
      assert Step(g, p, 0);
    }
  }

  // ----- Validation -----

  /** The bounds of the zone-graph schema. */
  predicate ZoneShapes(zones: seq<Zone>) {
    && 5 <= |zones| <= 9
    && forall z :: z in zones ==>
        && 1 <= z.capacity <= 20
        && |z.objectiveIds| <= 8 && Distinct(z.objectiveIds)
        && 1 <= |z.connections| <= 8 && Distinct(z.connections)
  }

  /** What one zone's connections must satisfy on their own. */
  predicate ConnectionsSound(g: Graph, z: Zone) {
    && z.zoneId !in z.connections
    && forall c :: c in z.connections ==> c in g && z.zoneId in g[c]
  }

  /** What an accepted battlefield means: named zones are distinct, connections join two different zones and run
      both ways, and every zone can be walked to from every other. */
  ghost predicate ValidZoneGraph(zones: seq<Zone>) {
    && ZoneShapes(zones)
    && Distinct(ZoneIds(zones))
    && (forall z :: z in zones ==> ConnectionsSound(Links(zones), z))
    && Connected(Links(zones))
  }

  method ValidateZoneGraph(zones: seq<Zone>) returns (ok: bool)
    ensures ok <==> ValidZoneGraph(zones)
  {
    if !ZoneShapes(zones) { return false; }
    var g := ZoneMap(zones);
    var issues := 0;
    for i := 0 to |zones|
      invariant issues == 0 <==> forall z :: z in zones[..i] ==> ConnectionsSound(g, z)
      invariant 0 <= issues
    {
      if !ConnectionsSound(g, zones[i]) {
        issues := issues + 1;
      }
      assert zones[..i + 1] == zones[..i] + [zones[i]];
    }
    assert zones[..|zones|] == zones;
    var visited := VisitZones(g, zones[0].zoneId);
    if |visited| != |zones| {
      issues := issues + 1;
    }
    ok := issues == 0;
    if forall z :: z in zones ==> ConnectionsSound(g, z) {
      VisitedDecidesConnection(zones, visited);
    }
  }

  /** What the stack search has found: reached nodes only, and nothing left behind. */
  ghost predicate Explored(g: Graph, first: Node, visited: set<Node>, pending: seq<Node>) {
    && (forall v :: v in visited || v in pending ==> Reaches(g, first, v))
    && (first in visited || first in pending)
    && (forall v, w :: v in visited && w in Successors(g, v) ==> w in visited || w in pending)
  }

  /** The stack loop of the validation. */
  method VisitZones(g: Graph, first: Node) returns (visited: set<Node>)
    ensures Explored(g, first, visited, [])
  {
    hide Explored, Names, Image;
    visited := {};
    var pending := [first];
    VisitStarts(g, first);
    ghost var names := {first} + Names(g);
    while |pending| > 0
      invariant Explored(g, first, visited, pending)
      invariant visited <= names && forall v :: v in pending ==> v in names
      decreases |names - visited|, |pending|
    {
      var n := |pending| - 1;
      var current := pending[n];
      assert pending == pending[..n] + [current];
      pending := pending[..n];
      if current !in visited {
        assert names - (visited + {current}) == (names - visited) - {current};
        VisitKeepsExplored(g, first, visited, pending, current);
        SuccessorsAreNames(g, current);
        visited := visited + {current};
        pending := pending + Successors(g, current);
      } else {
        RevisitKeepsExplored(g, first, visited, pending, current);
      }
    }
    assert pending == [];
  }

  lemma VisitStarts(g: Graph, first: Node)
    ensures Explored(g, first, {}, [first])
  {
    ReachesSelf(g, first);
  }

  lemma SuccessorsAreNames(g: Graph, v: Node)
    ensures forall w :: w in Successors(g, v) ==> w in Names(g)
  {}

  lemma RevisitKeepsExplored(g: Graph, first: Node, visited: set<Node>, pending: seq<Node>, current: Node)
    requires Explored(g, first, visited, pending + [current]) && current in visited
    ensures Explored(g, first, visited, pending)
  {
    assert forall v :: v in pending + [current] ==> v in pending || v == current;
    assert forall v :: v in pending ==> v in pending + [current];
  }

  lemma VisitKeepsExplored(g: Graph, first: Node, visited: set<Node>, pending: seq<Node>, current: Node)
    requires Explored(g, first, visited, pending + [current])
    ensures Explored(g, first, visited + {current}, pending + Successors(g, current))
  {
    hide Reaches;
    assert current in pending + [current];
    forall w | w in Successors(g, current) ensures Reaches(g, first, w) {
      ReachesExtend(g, first, current, w);
    }
  }

  /** Every two zones can be walked between. */
  ghost predicate Connected(g: Graph) {
    forall v, w :: v in g && w in g ==> Reaches(g, v, w)
  }

  /** What was reached are the named zones the first zone leads to, and all of them. */
  lemma VisitedIsReached(zones: seq<Zone>, visited: set<ZoneId>)
    requires zones != []
    requires forall z :: z in zones ==> ConnectionsSound(Links(zones), z)
    requires Explored(Links(zones), zones[0].zoneId, visited, [])
    ensures visited <= Links(zones).Keys
    ensures forall v :: v in visited <==> Reaches(Links(zones), zones[0].zoneId, v)
  {
    hide ConnectionsSound, Walk, Links;
    var g, first := Links(zones), zones[0].zoneId;
    LinksBackward(zones);
    LinksKeys(zones);
    assert ZoneIds(zones)[0] == first;
    ReachedFromClosed(g, g.Keys, first);
    ReachedFromClosed(g, visited, first);
  }

  /** The count of reached zones settles distinct identity and connection at once. */
  lemma VisitedDecidesConnection(zones: seq<Zone>, visited: set<ZoneId>)
    requires zones != []
    requires forall z :: z in zones ==> ConnectionsSound(Links(zones), z)
    requires Explored(Links(zones), zones[0].zoneId, visited, [])
    ensures |visited| == |zones| <==> Distinct(ZoneIds(zones)) && Connected(Links(zones))
  {
    hide ConnectionsSound, Distinct, Explored, Reaches, Links;
    var g, ids, first := Links(zones), ZoneIds(zones), zones[0].zoneId;
    VisitedIsReached(zones, visited);
    LinksKeys(zones);
    assert first == ids[0];
    CardinalityBound(ids);
    SubsetCardinality(visited, g.Keys);
    if |visited| == |zones| {
      assert visited == g.Keys;
      FullCardinalityIsDistinct(ids);
      AllReachedIsConnected(zones, first);
    }
    if Distinct(ids) && Connected(g) {
      DistinctCardinality(ids);
      assert visited == g.Keys;
    }
  }

  lemma ReachedFromClosed(g: Graph, s: set<Node>, v: Node)
    requires v in s
    requires forall v, w :: v in s && Edge(g, v, w) ==> w in s
    ensures forall w :: Reaches(g, v, w) ==> w in s
  {
    forall w | Reaches(g, v, w) ensures w in s {
      var p :| WalkBetween(g, p, v, w);
      ClosedSetHoldsWalk(g, s, p);
    }
  }

  lemma AllReachedIsConnected(zones: seq<Zone>, first: ZoneId)
    requires forall z :: z in zones ==> ConnectionsSound(Links(zones), z)
    requires forall v :: v in Links(zones) ==> Reaches(Links(zones), first, v)
    ensures Connected(Links(zones))
  {
    var g := Links(zones);
    forall v, w | v in g && w in g ensures Reaches(g, v, w) {
      ReachesBack(zones, first, v);
      ReachesJoin(g, v, first, w);
    }
  }

  lemma {:induction false} LinksHasZone(zones: seq<Zone>, v: ZoneId)
    requires v in Links(zones)
    ensures exists z :: z in zones && z.zoneId == v && z.connections == Links(zones)[v]
  {
    var n := |zones| - 1;
    if zones[n].zoneId != v {
      LinksHasZone(zones[..n], v);
      var z :| z in zones[..n] && z.zoneId == v && z.connections == Links(zones[..n])[v];
      assert z in zones;
    } else {
      assert zones[n] in zones;
    }
  }

  /** Sound connections lead to zones and can be followed backwards. */
  lemma LinksBackward(zones: seq<Zone>)
    requires forall z :: z in zones ==> ConnectionsSound(Links(zones), z)
    ensures forall v, w :: Edge(Links(zones), v, w) ==> w in Links(zones) && Edge(Links(zones), w, v)
  {
    var g := Links(zones);
    forall v, w | Edge(g, v, w) ensures w in g && Edge(g, w, v) {
      LinksHasZone(zones, v);
      var z :| z in zones && z.zoneId == v && z.connections == g[v];
      assert ConnectionsSound(g, z);
    }
  }

  lemma {:induction false} WalkBack(g: Graph, p: seq<Node>, v: Node, w: Node)
    requires WalkBetween(g, p, v, w)
    requires forall x, y :: Edge(g, x, y) ==> Edge(g, y, x)
    ensures exists q :: WalkBetween(g, q, w, v) && |q| == |p|
  {
    if |p| == 1 {
      assert WalkBetween(g, p, w, v);
    } else {
      var n := |p| - 1;
      WalkLast(g, p);
      WalkBack(g, p[..n], v, p[n - 1]);
      var q :| WalkBetween(g, q, p[n - 1], v) && |q| == n;
      var r := [w, p[n - 1]];
      assert WalkBetween(g, r, w, p[n - 1]);
      WalkJoin(g, r, q, w, p[n - 1], v);
    }
  }

  lemma ReachesBack(zones: seq<Zone>, v: ZoneId, w: ZoneId)
    requires forall z :: z in zones ==> ConnectionsSound(Links(zones), z)
    requires Reaches(Links(zones), v, w)
    ensures Reaches(Links(zones), w, v)
  {
    var g := Links(zones);
    LinksBackward(zones);
    var p :| WalkBetween(g, p, v, w);
    WalkBack(g, p, v, w);
  }

  // ----- On an accepted battlefield the distance is a metric -----

  lemma DistanceIsSymmetric(zones: seq<Zone>, a: ZoneId, b: ZoneId)
    requires ValidZoneGraph(zones)
    requires a in Links(zones) && b in Links(zones)
    ensures Distance(zones, a, b).Some? && Distance(zones, a, b) == Distance(zones, b, a)
  {
    hide Distance, Reaches, WalkBetween, Links, ConnectionsSound;
    var g := Links(zones);
    LinksBackward(zones);
    DistanceIsShortest(zones, a, b);
    DistanceIsShortest(zones, b, a);
    var m, n := Distance(zones, a, b).value, Distance(zones, b, a).value;
    var p :| WalkBetween(g, p, a, b) && |p| == m + 1;
    var r :| WalkBetween(g, r, b, a) && |r| == n + 1;
    WalkBack(g, p, a, b);
    WalkBack(g, r, b, a);
  }

  /** Between the zones of an accepted battlefield the distance always exists and is a metric. */
  lemma DistanceIsMetric(zones: seq<Zone>, a: ZoneId, b: ZoneId, c: ZoneId)
    requires ValidZoneGraph(zones)
    requires a in Links(zones) && b in Links(zones) && c in Links(zones)
    ensures Distance(zones, a, b).Some? && Distance(zones, b, c).Some? && Distance(zones, a, c).Some?
    ensures Distance(zones, a, b) == Some(0) <==> a == b
    ensures Distance(zones, a, b) == Distance(zones, b, a)
    ensures Distance(zones, a, c).value <= Distance(zones, a, b).value + Distance(zones, b, c).value
  {
    hide Reaches, Links;
    var g := Links(zones);
    DistanceIsSymmetric(zones, a, b);
    DistanceIsShortest(zones, a, b);
    DistanceIsShortest(zones, b, c);
    DistanceIsShortest(zones, a, c);
    var m, n := Distance(zones, a, b).value, Distance(zones, b, c).value;
    var p :| WalkBetween(g, p, a, b) && |p| == m + 1;
    var q :| WalkBetween(g, q, b, c) && |q| == n + 1;
    WalkJoin(g, p, q, a, b, c);
  }

  /** Two zones are one step apart exactly when they are connected. */
  lemma DistanceOneIsConnection(zones: seq<Zone>, a: ZoneId, b: ZoneId)
    requires ValidZoneGraph(zones)
    requires a in Links(zones)
    ensures Distance(zones, a, b) == Some(1) <==> Edge(Links(zones), a, b)
  {
    hide Links, Distance, ZoneIds, ZoneShapes, Connected, Distinct;
    var g := Links(zones);
    LinksBackward(zones);
    DistanceIsShortest(zones, a, b);
    if Edge(g, a, b) {
      assert WalkBetween(g, [a, b], a, b);
      LinksHasZone(zones, a);
      var z :| z in zones && z.zoneId == a && z.connections == g[a];
      assert ConnectionsSound(g, z);
    }
    if Distance(zones, a, b) == Some(1) {
      var p :| WalkBetween(g, p, a, b) && |p| == 2;
      assert Step(g, p, 0);
    }
  }
}
