/** The validation every event must leave intact, and the loops that perform it. */
module Validity {
  import opened Common
  import opened ZoneGraph
  import opened State

  // ----- Playable characters -----

  predicate DistinctWounds(ws: seq<Wound>) {
    forall i, j :: 0 <= i < j < |ws| && ws[i].Filled? && ws[j].Filled? ==> ws[i].woundId != ws[j].woundId
  }

  /** Each rank from two to four brings exactly its own feature. */
  predicate RankFeatures(rank: int, o: Options) {
    && (rank >= 2 <==> o.path.Some?)
    && (rank >= 3 <==> o.talent.Some?)
    && (rank >= 4 <==> o.capstone.Some?)
  }

  predicate GearMatchesNames(gear: seq<Gear>, named: seq<bool>) {
    && |gear| == 4 && |named| == 4
    && forall i :: 0 <= i < 4 ==> (gear[i].NoGear? <==> !named[i])
  }

  /** Every attribute and every discipline is rated, from nought to two. */
  predicate RatingsInRange(attributes: map<Attribute, int>, disciplines: map<Discipline, int>) {
    && (forall a: Attribute :: a in attributes && 0 <= attributes[a] <= 2)
    && (forall d: Discipline :: d in disciplines && 0 <= disciplines[d] <= 2)
  }

  const EVEN_ATTRIBUTES: map<Attribute, int> := map[Force := 1, Finesse := 1, Insight := 1, Presence := 1]

  const EVEN_DISCIPLINES: map<Discipline, int> :=
    map[Athletics := 1, Subterfuge := 1, Craft := 1, Lore := 1, Vigilance := 1, Influence := 1, Survival := 1,
        Mysticism := 1]

  lemma EvenRatings()
    ensures RatingsInRange(EVEN_ATTRIBUTES, EVEN_DISCIPLINES)
  {
    forall a: Attribute ensures a in EVEN_ATTRIBUTES && 0 <= EVEN_ATTRIBUTES[a] <= 2 {
      match a
      case Force =>
      case Finesse =>
      case Insight =>
      case Presence =>
    }
    forall d: Discipline ensures d in EVEN_DISCIPLINES && 0 <= EVEN_DISCIPLINES[d] <= 2 {
      match d
      case Athletics =>
      case Subterfuge =>
      case Craft =>
      case Lore =>
      case Vigilance =>
      case Influence =>
      case Survival =>
      case Mysticism =>
    }
  }

  predicate ValidCharacter(c: Character) {
    && 1 <= c.rank <= 4 && RankFeatures(c.rank, c.options)
    && RatingsInRange(c.attributes, c.disciplines)
    && 0 <= c.guard <= c.guardMaximum && 1 <= c.guardMaximum
    && 0 <= c.exertion <= EXERTION_MAXIMUM
    && |c.wounds| == 3 && DistinctWounds(c.wounds)
    && GearMatchesNames(c.gear, c.gearNamed)
    && |c.sceneUses| <= 32 && Distinct(AbilityIds(c.sceneUses))
    && |c.conditions| <= 32 && Distinct(ConditionIds(c.conditions))
  }

  predicate ValidParty(supply: int, supplyMaximum: int, cs: seq<Character>) {
    && |cs| <= 5
    && supplyMaximum == |cs| + 2
    && 0 <= supply <= supplyMaximum
    && Distinct(CharacterIds(cs)) && Distinct(ActorIds(cs))
    && forall i :: 0 <= i < |cs| ==> ValidCharacter(cs[i])
  }

  // ----- Combat -----

  predicate NoObjectiveAtTwo(os: seq<Objective>) {
    forall o :: o in os ==> o.progress < 2
  }

  /** A reinforcement stays spent in the first round while every objective stands below two. */
  predicate HeldBack(round: int, os: seq<Objective>, p: Participant) {
    (p.role.Enemy? && !p.role.trigger.AtOnce? && round == 1 && NoObjectiveAtTwo(os)) ==> p.activationSpent
  }

  predicate ParticipantSound(zones: seq<Zone>, round: int, os: seq<Objective>, p: Participant) {
    && p.zoneId in ZoneIds(zones)
    && (p.role.Enemy? ==>
      && 0 <= p.role.guard <= p.role.guardMaximum && 1 <= p.role.guardMaximum && 0 <= p.role.armor)
    && HeldBack(round, os, p)
  }

  predicate ParticipantsSound(zones: seq<Zone>, round: int, os: seq<Objective>, ps: seq<Participant>) {
    forall i :: 0 <= i < |ps| ==> ParticipantSound(zones, round, os, ps[i])
  }

  /** An active actor belongs to the active side and is not spent. */
  predicate ActiveSound(c: Combat) {
    c.activeActor.Some? ==>
      match IndexOf(ParticipantIds(c.participants), c.activeActor.value)
      case None => false
      case Some(i) => c.participants[i].Side() == c.activeSide && !c.participants[i].activationSpent
  }

  predicate OccupancyFits(zones: seq<Zone>, ps: seq<Participant>) {
    forall z :: z in zones ==> Occupancy(ps, z.zoneId) <= z.capacity
  }

  predicate ObjectivesSound(os: seq<Objective>) {
    forall o :: o in os ==> 0 <= o.progress <= o.threshold && 1 <= o.threshold
  }

  predicate OverlaysSound(os: seq<Objective>, overlays: seq<Overlay>) {
    forall o :: o in overlays ==> o.objectiveId in ObjectiveIds(os)
  }

  predicate WindowSound(w: Option<Window>) {
    w.Some? ==> 1 <= |w.value.eligible| <= 10 && Distinct(w.value.eligible)
  }

  /** The two waiting statuses and their pending identities agree, and only one check is awaited. */
  predicate StatusSound(c: Combat) {
    && (c.status.AwaitingDeathTest? <==> c.pendingDeath.Some?)
    && (c.status.AwaitingAction? <==> c.pendingAction.Some?)
    && (c.pendingDeath.None? || c.pendingAction.None?)
  }

  ghost predicate ValidCombat(c: Combat) {
    && ValidZoneGraph(c.zones)
    && c.round >= 1
    && 2 <= |c.participants| <= 20 && |c.objectives| <= 8 && |c.overlays| <= 4
    && Distinct(ParticipantIds(c.participants))
    && ParticipantsSound(c.zones, c.round, c.objectives, c.participants)
    && OccupancyFits(c.zones, c.participants)
    && ActiveSound(c)
    && ObjectivesSound(c.objectives) && OverlaysSound(c.objectives, c.overlays) && WindowSound(c.window)
    && StatusSound(c)
  }

  // ----- Pending checks and subsystems -----

  predicate ValidDisclosure(d: Disclosure) {
    && d.target in {10, 13, 16, 19, 22}
    && 0 <= d.modifiers.attributeRating <= 2 && 0 <= d.modifiers.disciplineRating <= 2
    && d.modifiers.situational in {-2, 0, 2}
    && -2 <= d.finalModifier <= 6
    && |d.degrees| == 20
  }

  predicate ValidCandidate(c: Candidate) {
    -1000 <= c.fallbackScore <= 1000 && |c.scoreTags| <= 8 && Distinct(c.scoreTags)
  }

  predicate ValidPending(p: PendingCheck) {
    && ValidDisclosure(p.disclosure)
    && (p.continuation.Some? && p.continuation.value.CombatAction? ==>
      && ValidCandidate(p.continuation.value.candidate)
      && (p.continuation.value.baseImpact.Some? ==> 1 <= p.continuation.value.baseImpact.value <= 20))
  }

  predicate ValidPendings(ps: seq<PendingCheck>) {
    && |ps| <= 16
    && Distinct(CheckIds(ps)) && Distinct(Nonces(ps))
    && forall i :: 0 <= i < |ps| ==> ValidPending(ps[i])
  }

  /** The lifecycle a challenge's two tracks and its tie rule require. */
  function ExpectedStatus(progress: Track, danger: Track, tie: TieRule): ChallengeStatus {
    var progressFull := progress.current == progress.maximum;
    var dangerFull := danger.current == danger.maximum;
    if progressFull && dangerFull then
      match tie
      case ProgressWins => ChallengeCompleted
      case DangerWins => ChallengeFailed
      case ResolvesWithCost => ChallengeWithCost
    else if progressFull then ChallengeCompleted
    else if dangerFull then ChallengeFailed
    else ChallengeActive
  }

  predicate ValidTrack(t: Track) {
    0 <= t.current <= t.maximum && 1 <= t.maximum <= 20
  }

  predicate ValidChallenge(c: Challenge) {
    && ValidTrack(c.progress) && ValidTrack(c.danger)
    && c.status == ExpectedStatus(c.progress, c.danger, c.tieRule)
  }

  predicate ValidChallenges(cs: seq<Challenge>) {
    && |cs| <= 16 && Distinct(ChallengeIds(cs))
    && forall i :: 0 <= i < |cs| ==> ValidChallenge(cs[i])
  }

  predicate ValidSocial(s: Social) {
    && 0 <= s.leverageCapacity <= 6
    && |s.leverage| <= s.leverageCapacity && Distinct(s.leverage)
    && 1 <= |s.hardLimits| <= 6 && Distinct(s.hardLimits)
  }

  predicate ValidSocials(ss: seq<Social>) {
    && |ss| <= 32 && Distinct(SocialIds(ss))
    && forall i :: 0 <= i < |ss| ==> ValidSocial(ss[i])
  }

  predicate ValidCost(c: Cost) {
    match c
    case ExertionCost(n) => 1 <= n <= 3
    case SupplyCost(n) => 1 <= n <= 7
    case GearCost(_) => true
  }

  /** Ready, awaiting and completed rituals have paid every declared cost. */
  predicate ValidRitual(r: Ritual) {
    && 1 <= |r.requirements| <= 8 && 1 <= |r.costs| <= 8
    && (forall i :: 0 <= i < |r.costs| ==> ValidCost(r.costs[i]))
    && |r.contributors| <= 5 && Distinct(r.contributors)
    && 0 <= r.paid <= |r.costs|
    && (r.status in {RitualReady, AwaitingResolution, RitualCompleted} ==> r.paid == |r.costs|)
  }

  predicate ValidRituals(rs: seq<Ritual>) {
    && |rs| <= 16 && Distinct(RitualIds(rs))
    && forall i :: 0 <= i < |rs| ==> ValidRitual(rs[i])
  }

  predicate ValidScars(ss: seq<Scar>) {
    |ss| <= 32 && Distinct(ScarIds(ss))
  }

  predicate ValidDeaths(deaths: seq<Id>, heroes: seq<Id>) {
    |deaths| <= 5 && Distinct(deaths) && forall i :: 0 <= i < |deaths| ==> deaths[i] in heroes
  }

  ghost predicate ValidCombatOption(c: Option<Combat>) {
    c.Some? ==> ValidCombat(c.value)
  }

  ghost predicate ValidGameState(s: GameState) {
    && 0 <= s.sessionNumber
    && ValidParty(s.supply, s.supplyMaximum, s.characters)
    && ValidPendings(s.pendingChecks)
    && ValidCombatOption(s.combat)
    && ValidChallenges(s.challenges) && ValidSocials(s.socials) && ValidRituals(s.rituals)
    && ValidScars(s.scars) && ValidDeaths(s.deaths, CharacterIds(s.characters))
  }

  lemma EmptyCampaignIsValid(manifest: nat)
    ensures ValidGameState(EmptyCampaign(manifest))
  {
    hide ValidCombat, ValidCharacter, ValidZoneGraph;
  }

  // ----- The validators -----

  /** `duplicateIssues`: one pass with a set of what was seen; an issue for every repeat. */
  method DuplicateIssues(ids: seq<Id>) returns (issues: nat)
    ensures issues == 0 <==> Distinct(ids)
  {
    var seen: set<Id> := {};
    issues := 0;
    for i := 0 to |ids|
      invariant seen == Elements(ids[..i])
      invariant issues == 0 <==> Distinct(ids[..i])
    {
      assert ids[..i + 1] == ids[..i] + [ids[i]];
      DistinctAppend(ids[..i], ids[i]);
      if ids[i] in seen {
        issues := issues + 1;
      }
      seen := seen + {ids[i]};
    }
    assert ids[..|ids|] == ids;
  }

  lemma {:induction false} OccupancyAppend(ps: seq<Participant>, p: Participant, zone: ZoneId)
    ensures Occupancy(ps + [p], zone) == Occupancy(ps, zone) + (if p.zoneId == zone then 1 else 0)
  {
    if ps != [] {
      assert (ps + [p])[1..] == ps[1..] + [p];
      OccupancyAppend(ps[1..], p, zone);
    }
  }

  /** The counting pass over the participants: what the `occupancy` map holds for a zone. */
  method CountOccupancy(ps: seq<Participant>) returns (occupancy: map<ZoneId, nat>)
    ensures forall z :: (if z in occupancy then occupancy[z] else 0) == Occupancy(ps, z)
  {
    occupancy := map[];
    for i := 0 to |ps|
      invariant forall z :: (if z in occupancy then occupancy[z] else 0) == Occupancy(ps[..i], z)
    {
      var zone := ps[i].zoneId;
      ghost var before := occupancy;
      occupancy := occupancy[zone := (if zone in occupancy then occupancy[zone] else 0) + 1];
      forall z ensures (if z in occupancy then occupancy[z] else 0) == Occupancy(ps[..i + 1], z) {
        assert ps[..i + 1] == ps[..i] + [ps[i]];
        OccupancyAppend(ps[..i], ps[i], z);
        assert (if z in before then before[z] else 0) == Occupancy(ps[..i], z);
      }
    }
    assert ps[..|ps|] == ps;
  }

  method ValidateCombatState(c: Combat) returns (ok: bool)
    ensures ok <==> ValidCombat(c)
  {
    hide ParticipantSound, ActiveSound, ObjectivesSound, OverlaysSound, WindowSound, StatusSound, ValidZoneGraph,
         Occupancy;
    var graph := ValidateZoneGraph(c.zones);
    if !graph || !(2 <= |c.participants| <= 20 && |c.objectives| <= 8 && |c.overlays| <= 4) { return false; }
    var issues := DuplicateIssues(ParticipantIds(c.participants));
    for i := 0 to |c.participants|
      invariant 0 <= issues
      invariant issues == 0 <==>
        && Distinct(ParticipantIds(c.participants))
        && forall k :: 0 <= k < i ==> ParticipantSound(c.zones, c.round, c.objectives, c.participants[k])
    {
      if !ParticipantSound(c.zones, c.round, c.objectives, c.participants[i]) {
        issues := issues + 1;
      }
    }
    var occupancy := CountOccupancy(c.participants);
    var crowded := 0;
    for i := 0 to |c.zones|
      invariant 0 <= crowded
      invariant crowded == 0 <==>
        forall k :: 0 <= k < i ==> Occupancy(c.participants, c.zones[k].zoneId) <= c.zones[k].capacity
    {
      var z := c.zones[i];
      if (if z.zoneId in occupancy then occupancy[z.zoneId] else 0) > z.capacity {
        crowded := crowded + 1;
      }
    }
    return issues == 0 && crowded == 0 && c.round >= 1 && ActiveSound(c)
      && ObjectivesSound(c.objectives) && OverlaysSound(c.objectives, c.overlays) && WindowSound(c.window)
        && StatusSound(c);
  }

  method ValidateGameState(s: GameState) returns (ok: bool)
    ensures ok <==> ValidGameState(s)
  {
    hide ValidCharacter, ValidCombat, ValidChallenges, ValidSocials, ValidRituals, ValidPending, Distinct;
    if !(s.sessionNumber >= 0 && |s.characters| <= 5 && |s.pendingChecks| <= 16) { return false; }
    var issues: nat := 0;
    if s.supplyMaximum != |s.characters| + 2 || s.supply < 0 || s.supply > s.supplyMaximum {
      issues := issues + 1;
    }
    for i := 0 to |s.characters|
      invariant issues == 0 <==>
        && s.supplyMaximum == |s.characters| + 2 && 0 <= s.supply <= s.supplyMaximum
        && forall k :: 0 <= k < i ==> ValidCharacter(s.characters[k])
    {
      if !ValidCharacter(s.characters[i]) {
        issues := issues + 1;
      }
    }
    var repeated := DuplicateIssues(CharacterIds(s.characters));
    var repeatedActors := DuplicateIssues(ActorIds(s.characters));
    assert issues + repeated + repeatedActors == 0 <==> ValidParty(s.supply, s.supplyMaximum, s.characters);
    var malformed: nat := 0;
    for i := 0 to |s.pendingChecks|
      invariant malformed == 0 <==> forall k :: 0 <= k < i ==> ValidPending(s.pendingChecks[k])
    {
      if !ValidPending(s.pendingChecks[i]) {
        malformed := malformed + 1;
      }
    }
    var repeatedChecks := DuplicateIssues(CheckIds(s.pendingChecks));
    var repeatedNonces := DuplicateIssues(Nonces(s.pendingChecks));
    assert malformed + repeatedChecks + repeatedNonces == 0 <==> ValidPendings(s.pendingChecks);
    var fight := true;
    if s.combat.Some? {
      fight := ValidateCombatState(s.combat.value);
    }
    return issues + repeated + repeatedActors + malformed + repeatedChecks + repeatedNonces == 0 && fight
      && ValidChallenges(s.challenges) && ValidSocials(s.socials) && ValidRituals(s.rituals)
      && ValidScars(s.scars) && ValidDeaths(s.deaths, CharacterIds(s.characters));
  }

  // ----- Turn data -----

  predicate SlotsGone(p: Participant) {
    !p.actionAvailable && !p.maneuverAvailable
  }

  /** Whoever is active has a slot left. */
  predicate ActiveSteady(c: Combat) {
    AllActing(c.activeActor, c.participants)
  }

  predicate Acting(active: Option<Id>, p: Participant) {
    active == Some(p.actorId) ==> !SlotsGone(p)
  }

  predicate AllActing(active: Option<Id>, ps: seq<Participant>) {
    forall i :: 0 <= i < |ps| ==> Acting(active, ps[i])
  }

  predicate TurnSteady(s: GameState) {
    s.combat.Some? ==> ActiveSteady(s.combat.value)
  }
}
