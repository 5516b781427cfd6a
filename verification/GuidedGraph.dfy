/** A guided presentation and its validation, which walks the beat graph depth first. */
module GuidedGraph {
  import opened Common
  import opened Graphs

  type BeatId = Node

  datatype BeatKind =
    | Opening | PrivateClue | ChallengeBeat | SocialBeat | RitualBeat | CombatBeat
    | MandatoryPhysical | OptionalSpark | MergeBeat | ConclusionBeat

  datatype GuidedOutcome =
    | SelectedOption | CrisisOutcome | SetbackOutcome | SuccessOutcome | TriumphOutcome
    | CombatVictory | Withdrawal | Defeat | Cost | Continue

  datatype Conclusion = CleanSuccess | SuccessWithCost | EndsInWithdrawal | EndsInDefeat

  datatype Transition = Transition(on: GuidedOutcome, optionId: Option<nat>, to: BeatId)

  /** Texts are left out; `privateText` tells whether there is one. */
  datatype Beat = Beat(
    beatId: BeatId, kind: BeatKind, seatPrivate: bool, addressedSeat: Option<nat>, privateText: bool,
    options: seq<nat>, transitions: seq<Transition>, declaredMerge: bool, conclusion: Option<Conclusion>)

  datatype Connection = Connection(from: nat, to: nat)

  datatype Manifest = Manifest(startBeatId: BeatId, beats: seq<Beat>, layoutZones: seq<nat>,
    layoutConnections: seq<Connection>)

  function BeatIds(beats: seq<Beat>): (ids: seq<BeatId>)
    ensures |ids| == |beats|
  {
    seq(|beats|, i requires 0 <= i < |beats| => beats[i].beatId)
  }

  function Targets(transitions: seq<Transition>): (ids: seq<BeatId>)
    ensures |ids| == |transitions|
  {
    seq(|transitions|, i requires 0 <= i < |transitions| => transitions[i].to)
  }

  /** `byId`, reduced to the transitions of each beat: a later beat replaces an earlier one. */
  function BeatGraph(beats: seq<Beat>): Graph {
    if beats == [] then map[]
    else
      var last := beats[|beats| - 1];
      BeatGraph(beats[..|beats| - 1])[last.beatId := Targets(last.transitions)]
  }

  /** The beats that `byId` holds as declared merges. */
  function Merges(beats: seq<Beat>): set<BeatId> {
    if beats == [] then {}
    else
      var last := beats[|beats| - 1];
      var earlier := Merges(beats[..|beats| - 1]);
      if last.declaredMerge then earlier + {last.beatId} else earlier - {last.beatId}
  }

  // ----- The recursive walk -----

  /** The sets and the issue list that the recursive walk updates. */
  datatype SearchState = SearchState(visited: set<BeatId>, active: set<BeatId>, cycles: seq<BeatId>)

  /** Every identity the walk can meet. */
  function Names(g: Graph, start: BeatId): set<BeatId> {
    {start} + set v, w | v in g && w in g[v] :: w
  }

  function WalkFrom(g: Graph, merges: set<BeatId>, names: set<BeatId>, s: SearchState, id: BeatId): (r: SearchState)
    requires forall v, w :: w in Successors(g, v) ==> w in names
    requires id in names
    ensures s.visited <= r.visited
    decreases |names - s.visited|, 0
  {
    if id in s.active then
      if id in merges then s else s.(cycles := s.cycles + [id])
    else if id in s.visited then s
    else
      var entered := s.(visited := s.visited + {id}, active := s.active + {id});
      assert names - entered.visited == (names - s.visited) - {id};
      var left := WalkEach(g, merges, names, entered, Successors(g, id));
      left.(active := left.active - {id})
  }

  function WalkEach(g: Graph, merges: set<BeatId>, names: set<BeatId>, s: SearchState,
      ids: seq<BeatId>): (r: SearchState)
    requires forall v, w :: w in Successors(g, v) ==> w in names
    requires forall id :: id in ids ==> id in names
    ensures s.visited <= r.visited
    decreases |names - s.visited|, |ids|
  {
    if ids == [] then s
    else
      var next := WalkFrom(g, merges, names, s, ids[0]);
      SubsetCardinality(names - next.visited, names - s.visited);
      WalkEach(g, merges, names, next, ids[1..])
  }

  /** The closure `walk` and the three collections it captures. */
  class BeatSearch {
    const g: Graph
    const merges: set<BeatId>
    const start: BeatId
    var visited: set<BeatId>
    var active: set<BeatId>
    var cycles: seq<BeatId>

    constructor (g: Graph, merges: set<BeatId>, start: BeatId)
      ensures this.g == g && this.merges == merges && this.start == start
      ensures State() == SearchState({}, {}, [])
    {
      this.g, this.merges, this.start := g, merges, start;
      visited, active, cycles := {}, {}, [];
    }

    function State(): SearchState
      reads this
    {
      SearchState(visited, active, cycles)
    }

    method Walk(id: BeatId)
      requires id in Names(g, start)
      requires forall v, w :: w in Successors(g, v) ==> w in Names(g, start)
      modifies this
      ensures State() == WalkFrom(g, merges, Names(g, start), old(State()), id)
      decreases |Names(g, start) - visited|
    {
      hide Names;
      if id in active {
        if id !in merges {
          cycles := cycles + [id];
        }
        return;
      }
      if id in visited { return; }
      ghost var names := Names(g, start);
      assert names - (visited + {id}) == (names - visited) - {id};
      visited := visited + {id};
      active := active + {id};
      ghost var entered := State();
      var transitions := Successors(g, id);
      for i := 0 to |transitions|
        invariant entered.visited <= visited
        invariant WalkEach(g, merges, names, State(), transitions[i..]) ==
                  WalkEach(g, merges, names, entered, transitions)
      {
        SubsetCardinality(names - visited, names - entered.visited);
        ghost var before := State();
        Walk(transitions[i]);
        assert transitions[i..][0] == transitions[i] && transitions[i..][1..] == transitions[i + 1..];
      }
      assert transitions[|transitions|..] == [];
      active := active - {id};
    }
  }

  // ----- What the walk establishes -----

  /** `c` lies on a closed walk. */
  ghost predicate OnCycle(g: Graph, c: BeatId) {
    exists p :: Cycle(g, p) && p[0] == c
  }

  /** Every reported beat is unmerged and really lies on a cycle. */
  ghost predicate ReportsAreReal(g: Graph, merges: set<BeatId>, cycles: seq<BeatId>) {
    forall c :: c in cycles ==> c !in merges && OnCycle(g, c)
  }

  /** A successor that the walk has dealt with: merged, reported about, or finished below `limit`. */
  ghost predicate DealtWith(merges: set<BeatId>, s: SearchState, rank: map<BeatId, nat>, w: BeatId, limit: nat) {
    w in s.visited && (w in merges || s.cycles != [] || (w in rank && rank[w] < limit))
  }

  /** Beats are ranked in the order in which the walk left them. */
  ghost predicate Ranked(g: Graph, merges: set<BeatId>, s: SearchState, rank: map<BeatId, nat>) {
    && rank.Keys == s.visited - s.active
    && (forall v :: v in rank ==> rank[v] < |rank|)
    && (forall v, w :: v in rank && w in Successors(g, v) ==> DealtWith(merges, s, rank, w, rank[v]))
  }

  /** The active beats are the walk from the start to the beat being explored. */
  ghost predicate OnPath(g: Graph, start: BeatId, s: SearchState, path: seq<BeatId>) {
    && s.active <= s.visited
    && s.active == Elements(path)
    && (path != [] ==> Walk(g, path) && path[0] == start)
  }

  ghost predicate Reached(g: Graph, start: BeatId, s: SearchState) {
    forall v :: v in s.visited ==> Reaches(g, start, v)
  }

  ghost predicate Inv(g: Graph, merges: set<BeatId>, start: BeatId, s: SearchState, path: seq<BeatId>,
      rank: map<BeatId, nat>) {
    && ReportsAreReal(g, merges, s.cycles)
    && Ranked(g, merges, s, rank)
    && OnPath(g, start, s, path)
    && Reached(g, start, s)
  }

  /** `id` is where the walk goes next: the start, or a successor of the end of the path. */
  ghost predicate Next(g: Graph, start: BeatId, path: seq<BeatId>, id: BeatId) {
    if path == [] then id == start else Edge(g, path[|path| - 1], id)
  }

  lemma BackEdgeIsCycle(g: Graph, start: BeatId, s: SearchState, path: seq<BeatId>, id: BeatId)
    requires OnPath(g, start, s, path) && Next(g, start, path, id) && id in s.active
    ensures OnCycle(g, id)
  {
    hide Walk;
    assert id in path;
    var k :| 0 <= k < |path| && path[k] == id;
    WalkSuffix(g, path, k);
    WalkExtend(g, path[k..], id);
    assert Cycle(g, path[k..] + [id]);
  }

  lemma EnteringExtendsPath(g: Graph, start: BeatId, s: SearchState, path: seq<BeatId>, id: BeatId,
      entered: SearchState)
    requires OnPath(g, start, s, path) && Reached(g, start, s) && Next(g, start, path, id)
    requires entered == s.(visited := s.visited + {id}, active := s.active + {id})
    ensures OnPath(g, start, entered, path + [id]) && Reached(g, start, entered)
  {
    if path == [] {
      ReachesSelf(g, id);
    } else {
      WalkExtend(g, path, id);
      assert WalkBetween(g, path + [id], start, id);
    }
    assert Elements(path + [id]) == Elements(path) + {id};
  }

  lemma EnteringKeepsRanks(g: Graph, merges: set<BeatId>, s: SearchState, rank: map<BeatId, nat>, id: BeatId,
      entered: SearchState)
    requires Ranked(g, merges, s, rank) && id !in s.visited
    requires entered == s.(visited := s.visited + {id}, active := s.active + {id})
    ensures Ranked(g, merges, entered, rank)
  {
    forall v, w | v in rank && w in Successors(g, v) ensures DealtWith(merges, entered, rank, w, rank[v]) {
      assert DealtWith(merges, s, rank, w, rank[v]);
    }
  }

  /** Leaving a beat gives it the highest rank so far. */
  lemma LeavingRanks(g: Graph, merges: set<BeatId>, s: SearchState, rank: map<BeatId, nat>, id: BeatId,
      left: SearchState)
    returns (rank': map<BeatId, nat>)
    requires Ranked(g, merges, s, rank) && id in s.active && id in s.visited
    requires forall w :: w in Successors(g, id) ==> DealtWith(merges, s, rank, w, |rank|)
    requires left == s.(active := s.active - {id})
    ensures rank.Keys <= rank'.Keys
    ensures Ranked(g, merges, left, rank')
    ensures DealtWith(merges, left, rank', id, |rank'|)
  {
    rank' := rank[id := |rank|];
    assert rank'.Keys == rank.Keys + {id};
    forall v, w | v in rank' && w in Successors(g, v) ensures DealtWith(merges, left, rank', w, rank'[v]) {
      if v == id {
        assert DealtWith(merges, s, rank, w, |rank|);
      } else {
        assert DealtWith(merges, s, rank, w, rank[v]);
      }
    }
  }

  /** What one call of `walk` leaves behind, given what it may rely on. */
  lemma {:induction false} WalkFromKeeps(g: Graph, merges: set<BeatId>, start: BeatId, names: set<BeatId>,
      s: SearchState, id: BeatId, path: seq<BeatId>, rank: map<BeatId, nat>)
    returns (rank': map<BeatId, nat>)
    requires forall v, w :: w in Successors(g, v) ==> w in names
    requires id in names
    requires Inv(g, merges, start, s, path, rank) && Next(g, start, path, id)
    ensures var r := WalkFrom(g, merges, names, s, id);
            && Inv(g, merges, start, r, path, rank')
            && s.cycles <= r.cycles && rank.Keys <= rank'.Keys
            && DealtWith(merges, r, rank', id, |rank'|)
    decreases |names - s.visited|, 0, 1
  {
    hide Elements, Reached, OnCycle, Successors;
    rank' := rank;
    var r := WalkFrom(g, merges, names, s, id);
    if id in s.active {
      BackEdgeIsCycle(g, start, s, path, id);
      if id !in merges {
        assert Ranked(g, merges, r, rank);
        assert Reached(g, start, r) by { assert r.visited == s.visited; ReachedSame(g, start, s, r); }
      }
    } else if id !in s.visited {
      rank' := WalkInsideKeeps(g, merges, start, names, s, id, path, rank);
    }
  }

  lemma ReachedSame(g: Graph, start: BeatId, s: SearchState, r: SearchState)
    requires Reached(g, start, s) && r.visited == s.visited
    ensures Reached(g, start, r)
  {}

  lemma {:induction false} WalkInsideKeeps(g: Graph, merges: set<BeatId>, start: BeatId, names: set<BeatId>,
      s: SearchState, id: BeatId, path: seq<BeatId>, rank: map<BeatId, nat>)
    returns (rank': map<BeatId, nat>)
    requires forall v, w :: w in Successors(g, v) ==> w in names
    requires id in names && id !in s.active && id !in s.visited
    requires Inv(g, merges, start, s, path, rank) && Next(g, start, path, id)
    ensures var r := WalkFrom(g, merges, names, s, id);
            && Inv(g, merges, start, r, path, rank')
            && s.cycles <= r.cycles && rank.Keys <= rank'.Keys
            && DealtWith(merges, r, rank', id, |rank'|)
    decreases |names - s.visited|, 0, 0
  {
    hide Reached, ReportsAreReal, Ranked, Walk, DealtWith, WalkEach;
    var entered := s.(visited := s.visited + {id}, active := s.active + {id});
    assert names - entered.visited == (names - s.visited) - {id};
    EnteringExtendsPath(g, start, s, path, id, entered);
    EnteringKeepsRanks(g, merges, s, rank, id, entered);
    var inner := WalkEachKeeps(g, merges, start, names, entered, Successors(g, id), path + [id], rank);
    var last := WalkEach(g, merges, names, entered, Successors(g, id));
    var r := WalkFrom(g, merges, names, s, id);
    assert r == last.(active := last.active - {id});
    assert id in Elements(path + [id]);
    rank' := LeavingRanks(g, merges, last, inner, id, r);
    ReachedSame(g, start, last, r);
    LeavingShortensPath(g, start, last, path, id, r);
  }

  lemma LeavingShortensPath(g: Graph, start: BeatId, s: SearchState, path: seq<BeatId>, id: BeatId, left: SearchState)
    requires OnPath(g, start, s, path + [id]) && id !in path
    requires left == s.(active := s.active - {id})
    ensures OnPath(g, start, left, path)
  {
    assert Elements(path + [id]) == Elements(path) + {id};
    if path != [] {
      WalkPrefix(g, path + [id], |path|);
      assert (path + [id])[..|path|] == path;
    }
  }

  lemma {:induction false} WalkEachKeeps(g: Graph, merges: set<BeatId>, start: BeatId, names: set<BeatId>,
      s: SearchState, ids: seq<BeatId>, path: seq<BeatId>, rank: map<BeatId, nat>)
    returns (rank': map<BeatId, nat>)
    requires forall v, w :: w in Successors(g, v) ==> w in names
    requires forall id :: id in ids ==> id in names
    requires Inv(g, merges, start, s, path, rank)
    requires path != [] && forall id :: id in ids ==> Edge(g, path[|path| - 1], id)
    ensures var r := WalkEach(g, merges, names, s, ids);
            && Inv(g, merges, start, r, path, rank')
            && s.cycles <= r.cycles && rank.Keys <= rank'.Keys
            && forall id :: id in ids ==> DealtWith(merges, r, rank', id, |rank'|)
    decreases |names - s.visited|, |ids|, 0
  {
    hide Reached, ReportsAreReal, OnPath, WalkFrom, Successors;
    rank' := rank;
    if ids != [] {
      assert ids[0] in ids && forall id :: id in ids[1..] ==> id in ids;
      var next := WalkFrom(g, merges, names, s, ids[0]);
      SubsetCardinality(names - next.visited, names - s.visited);
      var rank1 := WalkFromKeeps(g, merges, start, names, s, ids[0], path, rank);
      rank' := WalkEachKeeps(g, merges, start, names, next, ids[1..], path, rank1);
      var r := WalkEach(g, merges, names, s, ids);
      assert DealtWith(merges, r, rank', ids[0], |rank'|) by {
        assert DealtWith(merges, next, rank1, ids[0], |rank1|);
      }
    }
  }

  lemma InitialInv(g: Graph, merges: set<BeatId>, start: BeatId)
    ensures Inv(g, merges, start, SearchState({}, {}, []), [], map[])
    ensures Next(g, start, [], start)
  {
    assert Elements<BeatId>([]) == {};
  }

  /** After the whole walk nothing is active, and every visited beat has its rank. */
  lemma WholeWalk(g: Graph, merges: set<BeatId>, start: BeatId) returns (rank: map<BeatId, nat>)
    ensures var r := GraphSearch(g, merges, start);
            && ReportsAreReal(g, merges, r.cycles) && Ranked(g, merges, r, rank) && Reached(g, start, r)
            && r.active == {} && start in r.visited
  {
    hide ReportsAreReal, Ranked, Reached;
    InitialInv(g, merges, start);
    AllNamed(g, start);
    rank := WalkFromKeeps(g, merges, start, Names(g, start), SearchState({}, {}, []), start, [], map[]);
    assert Elements<BeatId>([]) == {};
  }

  // ----- Validation -----

  lemma AllNamed(g: Graph, start: BeatId)
    ensures start in Names(g, start)
    ensures forall v, w :: w in Successors(g, v) ==> w in Names(g, start)
  {}

  function GraphSearch(g: Graph, merges: set<BeatId>, start: BeatId): SearchState {
    AllNamed(g, start);
    WalkFrom(g, merges, Names(g, start), SearchState({}, {}, []), start)
  }

  predicate Undangling(g: Graph, beat: Beat) {
    forall w :: w in Targets(beat.transitions) ==> w in g
  }

  predicate Closed(g: Graph, beats: seq<Beat>) {
    forall beat :: beat in beats ==> Undangling(g, beat)
  }

  /** The checks that concern the beat graph. */
  predicate GraphAccepted(m: Manifest) {
    var g := BeatGraph(m.beats);
    var r := GraphSearch(g, Merges(m.beats), m.startBeatId);
    && Distinct(BeatIds(m.beats))
    && m.startBeatId in g
    && Closed(g, m.beats)
    && r.cycles == []
    && |r.visited| == |m.beats|
  }

  /** The bounds of the presentation schema. */
  predicate WithinSchema(m: Manifest) {
    && 10 <= |m.beats| <= 64
    && (forall b :: b in m.beats ==> |b.options| <= 6 && |b.transitions| <= 12)
    && 5 <= |m.layoutZones| <= 9 && 4 <= |m.layoutConnections| <= 24
  }

  predicate TransitionSound(b: Beat, t: Transition) {
    t.on.SelectedOption? ==> t.optionId.Some? && t.optionId.value in b.options
  }

  /** A private beat is addressed, a terminal one leads nowhere, and a choice names a declared option. */
  predicate BeatSound(b: Beat) {
    && (b.seatPrivate ==> b.addressedSeat.Some? && b.privateText)
    && (b.conclusion.Some? ==> b.transitions == [])
    && forall t :: t in b.transitions ==> TransitionSound(b, t)
  }

  const REQUIRED_KINDS := [PrivateClue, ChallengeBeat, SocialBeat, RitualBeat, CombatBeat, MandatoryPhysical,
    OptionalSpark]

  const REQUIRED_CONCLUSIONS := [CleanSuccess, SuccessWithCost, EndsInWithdrawal, EndsInDefeat]

  function Kinds(beats: seq<Beat>): set<BeatKind> {
    set b | b in beats :: b.kind
  }

  function Conclusions(beats: seq<Beat>): set<Conclusion> {
    set b | b in beats && b.conclusion.Some? :: b.conclusion.value
  }

  predicate LayoutSound(m: Manifest) {
    forall c :: c in m.layoutConnections ==> c.from in m.layoutZones && c.to in m.layoutZones
  }

  /** The checks that do not concern the beat graph. */
  predicate ContentAccepted(m: Manifest) {
    && BeatsSound(m.beats)
    && (forall k :: k in REQUIRED_KINDS ==> k in Kinds(m.beats))
    && (forall c :: c in REQUIRED_CONCLUSIONS ==> c in Conclusions(m.beats))
    && LayoutSound(m)
  }

  predicate Accepts(m: Manifest) {
    WithinSchema(m) && ContentAccepted(m) && GraphAccepted(m)
  }

  method BeatIssues(b: Beat) returns (issues: nat)
    ensures issues == 0 <==> BeatSound(b)
  {
    issues := 0;
    if b.seatPrivate && (b.addressedSeat.None? || !b.privateText) {
      issues := issues + 1;
    }
    if b.conclusion.Some? && b.transitions != [] {
      issues := issues + 1;
    }
    ghost var before := issues;
    for j := 0 to |b.transitions|
      invariant issues >= before
      invariant issues == before <==> forall k :: 0 <= k < j ==> TransitionSound(b, b.transitions[k])
    {
      var t := b.transitions[j];
      if t.on.SelectedOption? && (t.optionId.None? || t.optionId.value !in b.options) {
        issues := issues + 1;
      }
    }
  }

  predicate BeatsSound(beats: seq<Beat>) {
    forall b :: b in beats ==> BeatSound(b)
  }

  lemma BeatsSoundExtends(beats: seq<Beat>, b: Beat)
    ensures BeatsSound(beats + [b]) <==> BeatsSound(beats) && BeatSound(b)
  {
    hide BeatSound;
    forall x | x in beats ensures x in beats + [b] {}
    assert b in beats + [b];
  }

  /** Fills `byId`, counting the beats whose identity is already taken and what is wrong with each beat. */
  method IndexBeats(beats: seq<Beat>) returns (byId: Graph, merges: set<BeatId>, issues: nat)
    ensures byId == BeatGraph(beats) && merges == Merges(beats)
    ensures issues == 0 <==> Distinct(BeatIds(beats)) && BeatsSound(beats)
  {
    byId, merges, issues := map[], {}, 0;
    hide Distinct, BeatSound, BeatsSound, BeatGraph, Merges, BeatIds;
    EmptyIndex();
    for i := 0 to |beats|
      invariant byId == BeatGraph(beats[..i]) && merges == Merges(beats[..i])
      invariant issues == 0 <==> Distinct(BeatIds(beats[..i])) && BeatsSound(beats[..i])
    {
      var beat := beats[i];
      assert beats[..i + 1] == beats[..i] + [beat];
      DistinctExtends(beats[..i], beat);
      BeatsSoundExtends(beats[..i], beat);
      IndexExtends(beats[..i], beat);
      if beat.beatId in byId {
        issues := issues + 1;
      }
      byId := byId[beat.beatId := Targets(beat.transitions)];
      merges := if beat.declaredMerge then merges + {beat.beatId} else merges - {beat.beatId};
      var own := BeatIssues(beat);
      issues := issues + own;
    }
    assert beats[..|beats|] == beats;
  }

  lemma EmptyIndex()
    ensures BeatGraph([]) == map[] && Merges([]) == {} && Distinct(BeatIds([])) && BeatsSound([])
  {}

  lemma IndexExtends(beats: seq<Beat>, b: Beat)
    ensures BeatGraph(beats + [b]) == BeatGraph(beats)[b.beatId := Targets(b.transitions)]
    ensures Merges(beats + [b]) == if b.declaredMerge then Merges(beats) + {b.beatId} else Merges(beats) - {b.beatId}
  {
    assert (beats + [b])[..|beats|] == beats;
  }

  /** Counts the required entries that are missing from a set. */
  method CountMissing<T(==)>(required: seq<T>, present: set<T>) returns (missing: nat)
    ensures missing == 0 <==> forall x :: x in required ==> x in present
  {
    missing := 0;
    for i := 0 to |required|
      invariant missing == 0 <==> forall k :: 0 <= k < i ==> required[k] in present
    {
      if required[i] !in present {
        missing := missing + 1;
      }
    }
  }

  method CountUnknownZones(m: Manifest) returns (issues: nat)
    ensures issues == 0 <==> LayoutSound(m)
  {
    issues := 0;
    for i := 0 to |m.layoutConnections|
      invariant issues == 0 <==> forall k :: 0 <= k < i ==>
        m.layoutConnections[k].from in m.layoutZones && m.layoutConnections[k].to in m.layoutZones
    {
      var c := m.layoutConnections[i];
      if c.from !in m.layoutZones || c.to !in m.layoutZones {
        issues := issues + 1;
      }
    }
  }

  /** Counts the transitions that name no beat. */
  method CountDangling(g: Graph, beats: seq<Beat>) returns (issues: nat)
    ensures issues == 0 <==> Closed(g, beats)
  {
    issues := 0;
    for i := 0 to |beats|
      invariant issues == 0 <==> Closed(g, beats[..i])
    {
      assert beats[..i + 1] == beats[..i] + [beats[i]];
      var targets := Targets(beats[i].transitions);
      var missing := 0;
      for j := 0 to |targets|
        invariant missing == 0 <==> forall k :: 0 <= k < j ==> targets[k] in g
        invariant 0 <= missing
      {
        if targets[j] !in g {
          missing := missing + 1;
        }
      }
      assert missing == 0 <==> Undangling(g, beats[i]);
      issues := issues + missing;
    }
    assert beats[..|beats|] == beats;
  }

  /** The validation; `cycles` lists the beats of the unintended-cycle issues, if it gets so far. */
  method ValidateGuidedPresentationManifest(m: Manifest) returns (ok: bool, cycles: seq<BeatId>)
    ensures ok <==> Accepts(m)
    ensures WithinSchema(m) ==> cycles == GraphSearch(BeatGraph(m.beats), Merges(m.beats), m.startBeatId).cycles
  {
    hide GraphSearch, WalkFrom, Names, Closed, Distinct, BeatGraph, Merges, WithinSchema, BeatsSound, LayoutSound;
    if !WithinSchema(m) { return false, []; }
    var byId, merges, issues := IndexBeats(m.beats);
    if m.startBeatId !in byId {
      issues := issues + 1;
    }
    var dangling := CountDangling(byId, m.beats);
    var search := new BeatSearch(byId, merges, m.startBeatId);
    AllNamed(byId, m.startBeatId);
    search.Walk(m.startBeatId);
    SearchIsWalk(byId, merges, m.startBeatId);
    cycles := search.cycles;
    var missingKinds := CountMissing(REQUIRED_KINDS, Kinds(m.beats));
    var missingConclusions := CountMissing(REQUIRED_CONCLUSIONS, Conclusions(m.beats));
    var unknownZones := CountUnknownZones(m);
    issues := issues + dangling + missingKinds + missingConclusions + unknownZones;
    ok := issues == 0 && |cycles| == 0 && |search.visited| == |m.beats|;
  }

  lemma SearchIsWalk(g: Graph, merges: set<BeatId>, start: BeatId)
    requires start in Names(g, start)
    requires forall v, w :: w in Successors(g, v) ==> w in Names(g, start)
    ensures GraphSearch(g, merges, start) == WalkFrom(g, merges, Names(g, start), SearchState({}, {}, []), start)
  {}

  lemma {:induction false} BeatGraphKeys(beats: seq<Beat>)
    ensures BeatGraph(beats).Keys == Elements(BeatIds(beats))
  {
    if beats != [] {
      var n := |beats| - 1;
      BeatGraphKeys(beats[..n]);
      assert BeatIds(beats) == BeatIds(beats[..n]) + [beats[n].beatId];
    }
  }

  lemma DistinctExtends(beats: seq<Beat>, beat: Beat)
    ensures Distinct(BeatIds(beats + [beat])) <==> Distinct(BeatIds(beats)) && beat.beatId !in BeatGraph(beats)
  {
    BeatGraphKeys(beats);
    var ids := BeatIds(beats);
    assert BeatIds(beats + [beat]) == ids + [beat.beatId];
    if Distinct(ids + [beat.beatId]) {
      assert ids == (ids + [beat.beatId])[..|ids|];
      forall i, j | 0 <= i < j < |ids| ensures ids[i] != ids[j] {
        assert (ids + [beat.beatId])[i] != (ids + [beat.beatId])[j];
      }
      forall i | 0 <= i < |ids| ensures ids[i] != beat.beatId {
        assert (ids + [beat.beatId])[i] != (ids + [beat.beatId])[|ids|];
      }
    }
  }

  lemma {:induction false} BeatGraphLookup(beats: seq<Beat>, k: nat)
    requires k < |beats| && Distinct(BeatIds(beats))
    ensures beats[k].beatId in BeatGraph(beats)
    ensures BeatGraph(beats)[beats[k].beatId] == Targets(beats[k].transitions)
    ensures beats[k].beatId in Merges(beats) <==> beats[k].declaredMerge
  {
    var n := |beats| - 1;
    assert BeatIds(beats)[..n] == BeatIds(beats[..n]);
    if k < n {
      assert BeatIds(beats)[k] != BeatIds(beats)[n];
      BeatGraphLookup(beats[..n], k);
    } else {
      MergesAreBeats(beats[..n]);
    }
  }

  lemma {:induction false} MergesAreBeats(beats: seq<Beat>)
    ensures Merges(beats) <= BeatGraph(beats).Keys
  {
    if beats != [] {
      MergesAreBeats(beats[..|beats| - 1]);
    }
  }

  /** Every edge between beats leads to a declared merge or down the rank. */
  ghost predicate RankFalls(g: Graph, merges: set<BeatId>, rank: map<BeatId, nat>) {
    && rank.Keys == g.Keys
    && forall v, w :: v in g && w in g[v] && w !in merges ==> w in rank && rank[w] < rank[v]
  }

  lemma {:induction false} EveryKeyHasBeat(beats: seq<Beat>, v: BeatId)
    requires v in BeatGraph(beats)
    ensures exists beat :: beat in beats && beat.beatId == v && Targets(beat.transitions) == BeatGraph(beats)[v]
  {
    var n := |beats| - 1;
    if beats[n].beatId == v {
      assert beats[n] in beats;
    } else {
      EveryKeyHasBeat(beats[..n], v);
      var beat :| beat in beats[..n] && beat.beatId == v && Targets(beat.transitions) == BeatGraph(beats[..n])[v];
      assert beat in beats;
    }
  }

  lemma AcceptedIsClosed(m: Manifest)
    requires GraphAccepted(m)
    ensures forall v, w :: Edge(BeatGraph(m.beats), v, w) ==> w in BeatGraph(m.beats)
  {
    hide GraphSearch, Distinct, Merges, BeatGraph, Targets;
    var g := BeatGraph(m.beats);
    forall v, w | Edge(g, v, w) ensures w in g {
      EveryKeyHasBeat(m.beats, v);
      var beat :| beat in m.beats && beat.beatId == v && Targets(beat.transitions) == g[v];
      assert Undangling(g, beat);
    }
  }

  /** What an accepted manifest visited is exactly its beats. */
  lemma AcceptedVisitsAll(m: Manifest)
    requires GraphAccepted(m)
    ensures GraphSearch(BeatGraph(m.beats), Merges(m.beats), m.startBeatId).visited == BeatGraph(m.beats).Keys
  {
    hide GraphSearch, Distinct, Merges, BeatGraph, Undangling, Walk, ReportsAreReal, BeatIds, Elements;
    var g := BeatGraph(m.beats);
    var r := GraphSearch(g, Merges(m.beats), m.startBeatId);
    var _ := WholeWalk(g, Merges(m.beats), m.startBeatId);
    AcceptedIsClosed(m);
    forall v | v in r.visited ensures v in g {
      var p :| WalkBetween(g, p, m.startBeatId, v);
      ClosedSetHoldsWalk(g, g.Keys, p);
    }
    BeatGraphKeys(m.beats);
    DistinctCardinality(BeatIds(m.beats));
    SubsetCardinality(r.visited, g.Keys);
  }

  /** An accepted manifest has a rank that every edge to an unmerged beat lowers. */
  lemma AcceptedHasRank(m: Manifest) returns (rank: map<BeatId, nat>)
    requires GraphAccepted(m)
    ensures RankFalls(BeatGraph(m.beats), Merges(m.beats), rank)
  {
    hide GraphSearch, Distinct, Merges, BeatGraph, Undangling, Walk, Reached, ReportsAreReal;
    var g, merges := BeatGraph(m.beats), Merges(m.beats);
    var r := GraphSearch(g, merges, m.startBeatId);
    rank := WholeWalk(g, merges, m.startBeatId);
    AcceptedVisitsAll(m);
    forall v, w | v in g && w in g[v] && w !in merges ensures w in rank && rank[w] < rank[v] {
      assert w in Successors(g, v);
      assert DealtWith(merges, r, rank, w, rank[v]);
    }
  }

  /** Acceptance is meaningful: every beat can be reached from the start, and every cycle passes through a declared
      merge. */
  lemma AcceptedGraphIsSound(m: Manifest)
    requires GraphAccepted(m)
    ensures forall v :: v in BeatIds(m.beats) ==> Reaches(BeatGraph(m.beats), m.startBeatId, v)
    ensures forall p :: Cycle(BeatGraph(m.beats), p) ==> exists i :: 0 <= i < |p| && p[i] in Merges(m.beats)
  {
    hide GraphSearch, Distinct, Merges, BeatGraph, Undangling, GraphAccepted, ReportsAreReal, Reaches, BeatIds, Walk;
    var g, merges := BeatGraph(m.beats), Merges(m.beats);
    var _ := WholeWalk(g, merges, m.startBeatId);
    AcceptedVisitsAll(m);
    BeatGraphKeys(m.beats);
    var rank := AcceptedHasRank(m);
    forall p | Cycle(g, p) ensures exists i :: 0 <= i < |p| && p[i] in merges {
      if forall i :: 0 <= i < |p| ==> p[i] !in merges {
        CycleIsRanked(g, p);
        forall i: nat | i + 1 < |p| && Edge(g, p[i], p[i + 1]) ensures rank[p[i + 1]] < rank[p[i]] {
          assert p[i + 1] !in merges;
        }
        RankFallsAlongWalk(g, rank, p);
        assert false;
      }
    }
  }

  /** Every node of a cycle has an edge, so it is a key of the graph. */
  lemma CycleIsRanked(g: Graph, p: seq<Node>)
    requires Cycle(g, p)
    ensures forall v :: v in p ==> v in g
  {
    forall i | 0 <= i < |p| ensures p[i] in g {
      if i + 1 < |p| {
        assert Step(g, p, i);
      } else {
        assert Step(g, p, 0);
      }
    }
  }

  /** Every reported beat is unmerged and lies on a real cycle, whatever the manifest. */
  lemma ReportedCyclesAreReal(m: Manifest, c: BeatId)
    requires c in GraphSearch(BeatGraph(m.beats), Merges(m.beats), m.startBeatId).cycles
    ensures c !in Merges(m.beats)
    ensures exists p :: Cycle(BeatGraph(m.beats), p) && p[0] == c
  {
    hide GraphSearch, Merges, BeatGraph;
    var _ := WholeWalk(BeatGraph(m.beats), Merges(m.beats), m.startBeatId);
  }
}
