/** Whose turn it is, and what the active actor may do. */
module CombatRules {
  import opened Common
  import opened ZoneGraph
  import opened State
  import opened Events
  import opened Reducer
  import opened Content

  // ----- Activation -----

  predicate Unspent(s: GameState, p: Participant) {
    Alive(s, p) && !p.activationSpent
  }

  predicate SomeUnspent(s: GameState, c: Combat, side: Side) {
    exists i :: 0 <= i < |c.participants| && c.participants[i].Side() == side && Unspent(s, c.participants[i])
  }

  function ActivationEvents(s: GameState, c: Combat, p: Participant): Outcome<seq<Event>> {
    if !Alive(s, p) then Refused
    else if c.activeActor.Some? then if c.activeActor.value == p.actorId then Done([]) else Refused
    else
      var current := SomeUnspent(s, c, c.activeSide);
      var other := SomeUnspent(s, c, Opposite(c.activeSide));
      var start := ActivationStarted(c.combatId, p.actorId, p.Side());
      if !current && !other then
        if !p.Side().HeroSide? then Refused else Done([RoundAdvanced(c.round, c.round + 1), start])
      else if p.activationSpent then Refused
      else if p.Side() != (if current then c.activeSide else Opposite(c.activeSide)) then Refused
      else Done([start])
  }

  // ----- Range -----

  function BandOf(distance: Option<nat>): RangeBand {
    if distance == Some(0) then SameZone else if distance == Some(1) then Adjacent else Distant
  }

  function RangeBetween(c: Combat, actor: Id, target: Id): Option<RangeBand> {
    if actor == target then Some(SelfRange)
    else
      match FindParticipant(c, actor)
      case None => None
      case Some(i) =>
        match FindParticipant(c, target)
        case None => None
        case Some(j) =>
          var distance := Distance(c.zones, c.participants[i].zoneId, c.participants[j].zoneId);
          if distance.None? then None else Some(BandOf(distance))
  }

  function RangeOrder(r: RangeBand): nat {
    match r
    case SelfRange => 0
    case SameZone => 1
    case Adjacent => 2
    case Distant => 3
  }

  predicate RangeAllows(maximum: RangeBand, actual: RangeBand) {
    RangeOrder(actual) <= RangeOrder(maximum)
  }

  // ----- Abilities -----

  function OptionRefs(o: Options): seq<Ref> {
    [o.heritage, o.upbringing, o.archetype]
    + (if o.path.Some? then [o.path.value] else [])
    + (if o.talent.Some? then [o.talent.value] else [])
    + (if o.capstone.Some? then [o.capstone.value] else [])
    + [o.signature]
  }

  function ReadyGearIds(gear: seq<Gear>): seq<Id> {
    if gear == [] then []
    else (if gear[0].Ready? then [gear[0].definition.definitionId] else []) + ReadyGearIds(gear[1..])
  }

  function GrantedIds(catalog: Catalog, refs: seq<Ref>): seq<Id> {
    if refs == [] then []
    else
      var d := ByReference(catalog.definitions, refs[0]);
      (if d.None? then []
       else if d.value.OptionDefinition? then d.value.granted
       else if d.value.AbilityDefinition? then [refs[0].definitionId]
       else [])
      + GrantedIds(catalog, refs[1..])
  }

  /** A set of identities in order: each is kept once. */
  function InsertId(sorted: seq<Id>, id: Id): seq<Id> {
    if sorted == [] then [id]
    else if id < sorted[0] then [id] + sorted
    else if id == sorted[0] then sorted
    else [sorted[0]] + InsertId(sorted[1..], id)
  }

  function SortIds(ids: seq<Id>): seq<Id> {
    if ids == [] then [] else InsertId(SortIds(ids[1..]), ids[0])
  }

  function AbilitiesById(catalog: Catalog, ids: seq<Id>): (r: seq<Ability>)
    ensures forall a :: a in r ==> AbilityDefinition(a) in catalog.definitions
  {
    if ids == [] then []
    else
      var d := ById(catalog.definitions, ids[0]);
      (if d.Some? && d.value.AbilityDefinition? then [d.value.ability] else []) + AbilitiesById(catalog, ids[1..])
  }

  function AbilitiesByAction(catalog: Catalog, actions: seq<EnemyAction>): (r: seq<Ability>)
    ensures forall a :: a in r ==> AbilityDefinition(a) in catalog.definitions
  {
    if actions == [] then []
    else
      var a := AbilityByReference(catalog, actions[0].action);
      (if a.Some? then [a.value] else []) + AbilitiesByAction(catalog, actions[1..])
  }

  function ActorAbilities(s: GameState, p: Participant, catalog: Catalog): (r: seq<Ability>)
    ensures forall a :: a in r ==> AbilityDefinition(a) in catalog.definitions
  {
    if p.role.Enemy? then
      var d := ByReference(catalog.definitions, p.role.definition);
      if d.Some? && d.value.EnemyDefinition? then AbilitiesByAction(catalog, d.value.actions) else []
    else
      match FindActor(s, p.actorId)
      case None => []
      case Some(i) =>
        var hero := s.characters[i];
        AbilitiesById(catalog, SortIds(ReadyGearIds(hero.gear) + GrantedIds(catalog, OptionRefs(hero.options))))
  }

  // ----- Scores -----

  function BaseScore(kind: ActionKind): int {
    match kind
    case Attack => 100
    case UsePower => 70
    case AdvanceObjective => 80
    case Dash => 30
    case Move => 25
    case ChangeStance => 15
    case Interact => 20
    case Pass => -100
  }

  function Matches(tags: seq<nat>, wanted: seq<nat>): (n: nat)
    ensures n <= |tags|
  {
    if tags == [] then 0 else (if tags[0] in wanted then 1 else 0) + Matches(tags[1..], wanted)
  }

  function TagsFor(actions: seq<EnemyAction>, ability: Ref): (tags: seq<nat>)
    ensures tags == [] || exists i :: 0 <= i < |actions| && actions[i].tags == tags
  {
    if actions == [] then []
    else if actions[0].action == ability then actions[0].tags
    else
      var tags := TagsFor(actions[1..], ability);
      assert tags != [] ==> exists i :: 0 <= i < |actions[1..]| && actions[1..][i].tags == tags;
      assert forall i :: 0 <= i < |actions[1..]| ==> actions[1..][i] == actions[i + 1];
      tags
  }

  /** The score of a fallback action, and the preference tags it came from. */
  function EnemyScore(p: Participant, ability: Option<Ref>, kind: ActionKind, catalog: Catalog): (int, seq<nat>) {
    if p.role.Hero? then (0, [])
    else if ability.None? then (BaseScore(kind), [])
    else
      var d := ByReference(catalog.definitions, p.role.definition);
      if d.None? || !d.value.EnemyDefinition? then (BaseScore(kind), [])
      else
        var tags := TagsFor(d.value.actions, ability.value);
        (BaseScore(kind) + Matches(tags, d.value.goalTags) * 20 + Matches(tags, d.value.temperamentTags) * 10, tags)
  }

  // ----- Targets -----

  /** The first zone that holds an objective. */
  function ObjectiveZone(zones: seq<Zone>, objective: Id): (r: Option<Zone>)
    ensures r.Some? ==> r.value in zones && objective in r.value.objectiveIds
  {
    if zones == [] then None
    else if objective in zones[0].objectiveIds then Some(zones[0])
    else ObjectiveZone(zones[1..], objective)
  }

  predicate InReach(c: Combat, p: Participant, zone: ZoneId, range: RangeBand) {
    var distance := Distance(c.zones, p.zoneId, zone);
    distance.Some? && RangeAllows(range, BandOf(distance))
  }

  function ObjectiveTargets(c: Combat, p: Participant, range: RangeBand, os: seq<Objective>): seq<Target> {
    if os == [] then []
    else
      var zone := ObjectiveZone(c.zones, os[0].objectiveId);
      (if os[0].status.ObjectiveActive? && zone.Some? && InReach(c, p, zone.value.zoneId, range)
       then [OnObjective(os[0].objectiveId)] else [])
      + ObjectiveTargets(c, p, range, os[1..])
  }

  function ZoneTargets(c: Combat, p: Participant, range: RangeBand, zones: seq<Zone>): seq<Target> {
    if zones == [] then []
    else
      (if InReach(c, p, zones[0].zoneId, range) then [OnZone(zones[0].zoneId)] else [])
      + ZoneTargets(c, p, range, zones[1..])
  }

  /** Where a move effect may put one actor: reachable in the effect's distance, and not full. */
  function Destinations(c: Combat, q: Participant, adjacentOnly: bool, zones: seq<Zone>): seq<Target> {
    if zones == [] then []
    else
      var distance := Distance(c.zones, q.zoneId, zones[0].zoneId);
      (if (if adjacentOnly then distance == Some(1) else distance.Some? && distance.value > 0)
          && Occupancy(c.participants, zones[0].zoneId) < zones[0].capacity
       then [OnActorToZone(q.actorId, zones[0].zoneId)] else [])
      + Destinations(c, q, adjacentOnly, zones[1..])
  }

  predicate MayBeMoved(s: GameState, p: Participant, q: Participant, whom: MoveWhom) {
    Alive(s, q) &&
    match whom
    case MoveSelf => q.actorId == p.actorId
    case MoveAlly => q.Side() == p.Side()
    case MoveEnemy => q.Side() != p.Side()
  }

  function MoveTargets(s: GameState, c: Combat, p: Participant, adjacentOnly: bool, whom: MoveWhom,
      qs: seq<Participant>): seq<Target> {
    if qs == [] then []
    else
      (if MayBeMoved(s, p, qs[0], whom) then Destinations(c, qs[0], adjacentOnly, c.zones) else [])
      + MoveTargets(s, c, p, adjacentOnly, whom, qs[1..])
  }

  function FirstMove(es: seq<Effect>): (r: Option<Effect>)
    ensures r.Some? ==> r.value.MoveEffect? && r.value in es
    ensures r.None? ==> forall e :: e in es ==> !e.MoveEffect?
  {
    if es == [] then None else if es[0].MoveEffect? then Some(es[0]) else FirstMove(es[1..])
  }

  predicate DealsImpact(a: Ability) {
    a.fixedImpact.Some? || exists e :: e in a.effects && e.DealImpact?
  }

  predicate TargetInRange(c: Combat, p: Participant, range: RangeBand, q: Participant) {
    match RangeBetween(c, p.actorId, q.actorId)
    case None => false
    case Some(actual) => RangeAllows(range, actual)
  }

  /** A blocked zone hides those in it from everyone outside. */
  predicate InSight(c: Combat, p: Participant, q: Participant) {
    var zone := FindZone(c.zones, q.zoneId);
    !(zone.Some? && c.zones[zone.value].visibility.Blocked? && p.zoneId != q.zoneId)
  }

  /** In sight, in range, on the side the ability works on. */
  predicate MayBeTargeted(s: GameState, c: Combat, p: Participant, a: Ability, q: Participant) {
    && Alive(s, q)
    && (if DealsImpact(a) then q.Side() != p.Side() else q.Side() == p.Side())
    && TargetInRange(c, p, a.range, q)
    && InSight(c, p, q)
  }

  function ActorTargets(s: GameState, c: Combat, p: Participant, a: Ability, qs: seq<Participant>): seq<Target> {
    if qs == [] then []
    else (if MayBeTargeted(s, c, p, a, qs[0]) then [OnActor(qs[0].actorId)] else []) + ActorTargets(s, c, p, a, qs[1..])
  }

  function AbilityTargets(s: GameState, c: Combat, p: Participant, a: Ability): seq<Target> {
    match a.targetRule
    case TargetSelf => [OnSelf(p.actorId)]
    case TargetObjective => ObjectiveTargets(c, p, a.range, c.objectives)
    case TargetZone => ZoneTargets(c, p, a.range, c.zones)
    case TargetActor =>
      match FirstMove(a.effects)
      case Some(move) => MoveTargets(s, c, p, move.adjacentOnly, move.whom, c.participants)
      case None => ActorTargets(s, c, p, a, c.participants)
  }

  // ----- Legal actions -----

  function KeyOf(c: Combat, actor: Id, slot: Slot, kind: ActionKind, source: Option<Ref>, target: Target): ActionKey {
    ActionKey(c.combatId, actor, slot, kind, source, target)
  }

  function Listed(c: Combat, ids: ActionKey -> Id, actor: Id, slot: Slot, kind: ActionKind, source: Option<Ref>,
      target: Target, range: RangeBand, scored: (int, seq<nat>)): Candidate
  {
    Candidate(ids(KeyOf(c, actor, slot, kind, source, target)), actor, slot, kind, source, target, range, scored.0,
      scored.1)
  }

  function PassCandidate(c: Combat, ids: ActionKey -> Id, p: Participant, slot: Slot): Candidate {
    Listed(c, ids, p.actorId, slot, Pass, None, OnSelf(p.actorId), SelfRange, (if p.role.Enemy? then -100 else 0, []))
  }

  /** A zone of the battlefield with room for one more. */
  predicate HasRoom(c: Combat, zone: ZoneId) {
    var i := FindZone(c.zones, zone);
    i.Some? && Occupancy(c.participants, zone) < c.zones[i.value].capacity
  }

  function MoveCandidate(c: Combat, ids: ActionKey -> Id, p: Participant, catalog: Catalog, zone: ZoneId): Candidate {
    Listed(c, ids, p.actorId, ManeuverSlot, Move, None, OnZone(zone), Adjacent, EnemyScore(p, None, Move, catalog))
  }

  function MoveCandidates(c: Combat, ids: ActionKey -> Id, p: Participant, catalog: Catalog,
      connections: seq<ZoneId>): seq<Candidate> {
    if connections == [] then []
    else
      (if HasRoom(c, connections[0]) then [MoveCandidate(c, ids, p, catalog, connections[0])] else [])
      + MoveCandidates(c, ids, p, catalog, connections[1..])
  }

  function Connections(c: Combat, p: Participant): seq<ZoneId> {
    match FindZone(c.zones, p.zoneId)
    case None => []
    case Some(i) => c.zones[i].connections
  }

  predicate SceneUseSpent(s: GameState, p: Participant, ability: Ref) {
    p.role.Hero? &&
    match FindActor(s, p.actorId)
    case None => false
    case Some(i) =>
      match UseIndex(s.characters[i].sceneUses, ability)
      case None => false
      case Some(k) => s.characters[i].sceneUses[k].used
  }

  predicate MayUse(s: GameState, p: Participant, a: Ability) {
    && !a.slot.ReactionSlot?
    && SlotAvailable(p, a.slot)
    && !SceneUseSpent(s, p, a.ref)
  }

  function KindOf(a: Ability): ActionKind {
    if DealsImpact(a) then Attack else UsePower
  }

  function ActualRange(c: Combat, p: Participant, a: Ability, target: Target): RangeBand {
    match target
    case OnSelf(_) => SelfRange
    case OnActor(q) => (match RangeBetween(c, p.actorId, q) case Some(r) => r case None => Distant)
    case OnActorToZone(q, _) => (match RangeBetween(c, p.actorId, q) case Some(r) => r case None => Distant)
    case OnZone(z) => BandOf(Distance(c.zones, p.zoneId, z))
    case OnObjective(_) => a.range
  }

  function TargetCandidates(c: Combat, ids: ActionKey -> Id, p: Participant, catalog: Catalog, a: Ability,
      targets: seq<Target>): seq<Candidate> {
    if targets == [] then []
    else
      [Listed(c, ids, p.actorId, a.slot, KindOf(a), Some(a.ref), targets[0], ActualRange(c, p, a, targets[0]),
              EnemyScore(p, Some(a.ref), KindOf(a), catalog))]
      + TargetCandidates(c, ids, p, catalog, a, targets[1..])
  }

  function AbilityCandidates(s: GameState, c: Combat, ids: ActionKey -> Id, p: Participant, catalog: Catalog,
      abilities: seq<Ability>): seq<Candidate> {
    if abilities == [] then []
    else
      (if MayUse(s, p, abilities[0])
        then TargetCandidates(c, ids, p, catalog, abilities[0], AbilityTargets(s, c, p, abilities[0])) else [])
      + AbilityCandidates(s, c, ids, p, catalog, abilities[1..])
  }

  predicate StandsAt(c: Combat, p: Participant, o: Objective) {
    var zone := ObjectiveZone(c.zones, o.objectiveId);
    o.status.ObjectiveActive? && zone.Some? && zone.value.zoneId == p.zoneId
  }

  function ObjectiveCandidate(c: Combat, ids: ActionKey -> Id, p: Participant, catalog: Catalog,
      o: Objective): Candidate {
    Listed(c, ids, p.actorId, ActionSlot, AdvanceObjective, None, OnObjective(o.objectiveId), SameZone,
           EnemyScore(p, None, AdvanceObjective, catalog))
  }

  function ObjectiveCandidates(c: Combat, ids: ActionKey -> Id, p: Participant, catalog: Catalog,
      os: seq<Objective>): seq<Candidate> {
    if os == [] then []
    else
      (if StandsAt(c, p, os[0]) then [ObjectiveCandidate(c, ids, p, catalog, os[0])] else [])
      + ObjectiveCandidates(c, ids, p, catalog, os[1..])
  }

  /** All legal actions of an actor, in the order they are found. */
  function Found(s: GameState, c: Combat, ids: ActionKey -> Id, p: Participant, catalog: Catalog): seq<Candidate> {
    (if p.actionAvailable then [PassCandidate(c, ids, p, ActionSlot)] else [])
    + (if p.maneuverAvailable then
         [PassCandidate(c, ids, p, ManeuverSlot)] + MoveCandidates(c, ids, p, catalog, Connections(c, p))
       else [])
    + AbilityCandidates(s, c, ids, p, catalog, ActorAbilities(s, p, catalog))
    + (if p.actionAvailable then ObjectiveCandidates(c, ids, p, catalog, c.objectives) else [])
  }

  function InsertCandidate(sorted: seq<Candidate>, x: Candidate): seq<Candidate> {
    if sorted == [] then [x]
    else if x.legalActionId < sorted[0].legalActionId then [x] + sorted
    else [sorted[0]] + InsertCandidate(sorted[1..], x)
  }

  /** The stable sort by identity. */
  function SortCandidates(xs: seq<Candidate>): seq<Candidate> {
    if xs == [] then [] else InsertCandidate(SortCandidates(xs[..|xs| - 1]), xs[|xs| - 1])
  }

  function EnumerateActions(s: GameState, catalog: Catalog, actor: Id, ids: ActionKey -> Id): seq<Candidate> {
    if s.combat.None? || !s.combat.value.status.Active? || catalog.manifest != s.manifest then []
    else
      var c := s.combat.value;
      match FindParticipant(c, actor)
      case None => []
      case Some(i) =>
        if !Alive(s, c.participants[i]) then [] else SortCandidates(Found(s, c, ids, c.participants[i], catalog))
  }

  predicate InIdOrder(xs: seq<Candidate>) {
    forall i, j :: 0 <= i < j < |xs| ==> xs[i].legalActionId <= xs[j].legalActionId
  }

  lemma {:induction false} InsertSorts(sorted: seq<Candidate>, x: Candidate)
    requires InIdOrder(sorted)
    ensures multiset(InsertCandidate(sorted, x)) == multiset(sorted) + multiset{x}
            && InIdOrder(InsertCandidate(sorted, x))
  {
    hide InIdOrder;
    if sorted == [] {
      NoneSorted();
      PrependSorts(x, []);
      assert [x] + [] == [x];
    } else {
      assert sorted == [sorted[0]] + sorted[1..];
      TailSorts(sorted);
      if x.legalActionId >= sorted[0].legalActionId {
        InsertSorts(sorted[1..], x);
        var rest := InsertCandidate(sorted[1..], x);
        forall y | y in rest ensures sorted[0].legalActionId <= y.legalActionId {
          assert y in multiset(rest);
          FirstIsLeast(sorted, y);
        }
        PrependSorts(sorted[0], rest);
      } else {
        forall y | y in sorted ensures x.legalActionId <= y.legalActionId {
          FirstIsLeast(sorted, y);
        }
        PrependSorts(x, sorted);
      }
    }
  }

  lemma NoneSorted()
    ensures InIdOrder([])
  {}

  lemma TailSorts(sorted: seq<Candidate>)
    requires InIdOrder(sorted) && sorted != []
    ensures InIdOrder(sorted[1..])
  {}

  lemma PrependSorts(x: Candidate, rest: seq<Candidate>)
    requires InIdOrder(rest) && forall y :: y in rest ==> x.legalActionId <= y.legalActionId
    ensures InIdOrder([x] + rest)
  {}

  lemma FirstIsLeast(sorted: seq<Candidate>, y: Candidate)
    requires InIdOrder(sorted) && sorted != []
    ensures y in sorted[1..] ==> sorted[0].legalActionId <= y.legalActionId
  {
    if y in sorted[1..] {
      var k :| 0 <= k < |sorted[1..]| && sorted[1..][k] == y;
      assert sorted[k + 1] == y;
    }
  }

  /** Sorting loses and invents no candidate, and puts them in the order of their identities. */
  lemma {:induction false} SortSorts(xs: seq<Candidate>)
    ensures multiset(SortCandidates(xs)) == multiset(xs) && InIdOrder(SortCandidates(xs))
  {
    if xs != [] {
      assert xs == xs[..|xs| - 1] + [xs[|xs| - 1]];
      SortSorts(xs[..|xs| - 1]);
      InsertSorts(SortCandidates(xs[..|xs| - 1]), xs[|xs| - 1]);
    }
  }

  /** `enumerateCombatActions`: candidates are pushed as they are found, then sorted. */
  method EnumerateCombatActions(s: GameState, catalog: Catalog, actor: Id, ids: ActionKey -> Id)
      returns (r: seq<Candidate>)
    ensures r == EnumerateActions(s, catalog, actor, ids)
  {
    hide SortCandidates, Alive, MoveCandidates, AbilityCandidates, ObjectiveCandidates, ActorAbilities, PassCandidate,
         Connections;
    if s.combat.None? || !s.combat.value.status.Active? || catalog.manifest != s.manifest { return []; }
    var c := s.combat.value;
    var found := FindParticipant(c, actor);
    if found.None? { return []; }
    var p := c.participants[found.value];
    if !Alive(s, p) { return []; }
    var candidates: seq<Candidate> := [];
    if p.actionAvailable {
      candidates := candidates + [PassCandidate(c, ids, p, ActionSlot)];
    }
    if p.maneuverAvailable {
      candidates := candidates + [PassCandidate(c, ids, p, ManeuverSlot)];
      var moves := PushMoves(c, ids, p, catalog, Connections(c, p));
      candidates := candidates + moves;
    }
    var uses := PushAbilities(s, c, ids, p, catalog, ActorAbilities(s, p, catalog));
    candidates := candidates + uses;
    if p.actionAvailable {
      var objectives := PushObjectives(c, ids, p, catalog, c.objectives);
      candidates := candidates + objectives;
    }
    assert candidates == Found(s, c, ids, p, catalog);
    return SortCandidates(candidates);
  }

  lemma MovesFrom(c: Combat, ids: ActionKey -> Id, p: Participant, catalog: Catalog, connections: seq<ZoneId>, k: nat)
    requires k <= |connections|
    ensures k == |connections| ==> MoveCandidates(c, ids, p, catalog, connections[k..]) == []
    ensures k < |connections| ==>
              MoveCandidates(c, ids, p, catalog, connections[k..]) ==
              (if HasRoom(c, connections[k]) then [MoveCandidate(c, ids, p, catalog, connections[k])] else [])
              + MoveCandidates(c, ids, p, catalog, connections[k + 1..])
  {
    hide HasRoom, MoveCandidate;
    if k < |connections| {
      assert connections[k..][0] == connections[k] && connections[k..][1..] == connections[k + 1..];
    }
  }

  method PushMoves(c: Combat, ids: ActionKey -> Id, p: Participant, catalog: Catalog, connections: seq<ZoneId>)
      returns (r: seq<Candidate>)
    ensures r == MoveCandidates(c, ids, p, catalog, connections)
  {
    hide HasRoom, MoveCandidate, MoveCandidates;
    r := [];
    assert connections[0..] == connections;
    MovesFrom(c, ids, p, catalog, connections, 0);
    for k := 0 to |connections|
      invariant MoveCandidates(c, ids, p, catalog, connections) == r
                + MoveCandidates(c, ids, p, catalog, connections[k..])
    {
      MovesFrom(c, ids, p, catalog, connections, k);
      if HasRoom(c, connections[k]) {
        r := r + [MoveCandidate(c, ids, p, catalog, connections[k])];
      }
    }
    MovesFrom(c, ids, p, catalog, connections, |connections|);
  }

  lemma AbilitiesFrom(s: GameState, c: Combat, ids: ActionKey -> Id, p: Participant, catalog: Catalog,
      abilities: seq<Ability>, k: nat)
    requires k <= |abilities|
    ensures k == |abilities| ==> AbilityCandidates(s, c, ids, p, catalog, abilities[k..]) == []
    ensures k < |abilities| ==>
              AbilityCandidates(s, c, ids, p, catalog, abilities[k..]) ==
              (if MayUse(s, p, At(abilities, k))
                then TargetCandidates(c, ids, p, catalog, At(abilities, k), AbilityTargets(s, c, p, At(abilities, k)))
                    else [])
              + AbilityCandidates(s, c, ids, p, catalog, abilities[k + 1..])
  {
    hide MayUse, AbilityTargets, TargetCandidates;
    if k < |abilities| {
      assert abilities[k..][0] == abilities[k] && abilities[k..][1..] == abilities[k + 1..];
    }
  }

  method PushAbilities(s: GameState, c: Combat, ids: ActionKey -> Id, p: Participant, catalog: Catalog,
      abilities: seq<Ability>)
    returns (r: seq<Candidate>)
    ensures r == AbilityCandidates(s, c, ids, p, catalog, abilities)
  {
    hide MayUse, AbilityTargets, TargetCandidates, AbilityCandidates;
    r := [];
    assert abilities[0..] == abilities;
    for k := 0 to |abilities|
      invariant AbilityCandidates(s, c, ids, p, catalog, abilities) == r
                + AbilityCandidates(s, c, ids, p, catalog, abilities[k..])
    {
      AbilitiesFrom(s, c, ids, p, catalog, abilities, k);
      if MayUse(s, p, abilities[k]) {
        var aimed := PushTargets(c, ids, p, catalog, abilities[k], AbilityTargets(s, c, p, abilities[k]));
        r := r + aimed;
      }
    }
    AbilitiesFrom(s, c, ids, p, catalog, abilities, |abilities|);
  }

  lemma ObjectivesFrom(c: Combat, ids: ActionKey -> Id, p: Participant, catalog: Catalog, os: seq<Objective>, k: nat)
    requires k <= |os|
    ensures k == |os| ==> ObjectiveCandidates(c, ids, p, catalog, os[k..]) == []
    ensures k < |os| ==>
              ObjectiveCandidates(c, ids, p, catalog, os[k..]) ==
              (if StandsAt(c, p, os[k]) then [ObjectiveCandidate(c, ids, p, catalog, os[k])] else [])
              + ObjectiveCandidates(c, ids, p, catalog, os[k + 1..])
  {
    hide StandsAt, ObjectiveCandidate;
    if k < |os| {
      assert os[k..][0] == os[k] && os[k..][1..] == os[k + 1..];
    }
  }

  method PushObjectives(c: Combat, ids: ActionKey -> Id, p: Participant, catalog: Catalog, os: seq<Objective>)
      returns (r: seq<Candidate>)
    ensures r == ObjectiveCandidates(c, ids, p, catalog, os)
  {
    hide StandsAt, ObjectiveCandidate, ObjectiveCandidates;
    r := [];
    assert os[0..] == os;
    for k := 0 to |os|
      invariant ObjectiveCandidates(c, ids, p, catalog, os) == r + ObjectiveCandidates(c, ids, p, catalog, os[k..])
    {
      ObjectivesFrom(c, ids, p, catalog, os, k);
      if StandsAt(c, p, os[k]) {
        r := r + [ObjectiveCandidate(c, ids, p, catalog, os[k])];
      }
    }
    ObjectivesFrom(c, ids, p, catalog, os, |os|);
  }

  method PushTargets(c: Combat, ids: ActionKey -> Id, p: Participant, catalog: Catalog, a: Ability,
      targets: seq<Target>) returns (r: seq<Candidate>)
    ensures r == TargetCandidates(c, ids, p, catalog, a, targets)
  {
    hide EnemyScore, KindOf, ActualRange;
    r := [];
    assert targets[0..] == targets;
    for k := 0 to |targets|
      invariant r + TargetCandidates(c, ids, p, catalog, a, targets[k..]) ==
                TargetCandidates(c, ids, p, catalog, a, targets)
    {
      assert targets[k..][0] == targets[k] && targets[k..][1..] == targets[k + 1..];
      r := r + [Listed(c, ids, p.actorId, a.slot, KindOf(a), Some(a.ref), targets[k], ActualRange(c, p, a, targets[k]),
                       EnemyScore(p, Some(a.ref), KindOf(a), catalog))];
    }
  }
}
