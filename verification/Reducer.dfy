/** What each event does to the state, and when it is refused. */
module Reducer {
  import opened Common
  import opened ZoneGraph
  import opened State
  import opened Validity
  import opened Events

  function WithCharacter(s: GameState, i: nat, c: Character): GameState
  {
    if i < |s.characters| then s.(characters := s.characters[i := c]) else s
  }

  function WithCombat(s: GameState, c: Combat): GameState {
    s.(combat := Some(c))
  }

  function WithParticipant(c: Combat, i: nat, p: Participant): Combat
  {
    if i < |c.participants| then c.(participants := c.participants[i := p]) else c
  }

  function FindCharacter(s: GameState, id: Id): (r: Option<nat>)
    ensures r.Some? ==> r.value < |s.characters| && s.characters[r.value].characterId == id
  {
    IndexOf(CharacterIds(s.characters), id)
  }

  function FindActor(s: GameState, id: Id): (r: Option<nat>)
    ensures r.Some? ==> r.value < |s.characters| && s.characters[r.value].actorId == id
  {
    IndexOf(ActorIds(s.characters), id)
  }

  function FindParticipant(c: Combat, id: Id): (r: Option<nat>)
    ensures r.Some? ==> r.value < |c.participants| && c.participants[r.value].actorId == id
  {
    IndexOf(ParticipantIds(c.participants), id)
  }

  function FindPending(s: GameState, id: Id): (r: Option<nat>)
    ensures r.Some? ==> r.value < |s.pendingChecks| && s.pendingChecks[r.value].checkId == id
  {
    IndexOf(CheckIds(s.pendingChecks), id)
  }

  function FindRitual(s: GameState, id: Id): (r: Option<nat>)
    ensures r.Some? ==> r.value < |s.rituals| && s.rituals[r.value].ritualId == id
  {
    IndexOf(RitualIds(s.rituals), id)
  }

  function FindSocial(s: GameState, id: Id): (r: Option<nat>)
    ensures r.Some? ==> r.value < |s.socials| && s.socials[r.value].npcActorId == id
  {
    IndexOf(SocialIds(s.socials), id)
  }

  function FindChallenge(s: GameState, id: Id): (r: Option<nat>)
    ensures r.Some? ==> r.value < |s.challenges| && s.challenges[r.value].challengeId == id
  {
    IndexOf(ChallengeIds(s.challenges), id)
  }

  predicate InCombat(s: GameState, combatId: Id) {
    s.combat.Some? && s.combat.value.combatId == combatId
  }

  // ----- Checks -----

  /** `filter` by identity. */
  function WithoutCheck(ps: seq<PendingCheck>, id: Id): seq<PendingCheck> {
    if ps == [] then []
    else (if ps[0].checkId == id then [] else [ps[0]]) + WithoutCheck(ps[1..], id)
  }

  function ReleaseDeath(c: Combat, id: Id): Combat {
    if c.pendingDeath == Some(id) then c.(pendingDeath := None, status := Active) else c
  }

  function ReleaseAction(c: Combat, id: Id): Combat {
    if c.pendingAction == Some(id) then c.(pendingAction := None, status := Active) else c
  }

  function ResolvePhysical(s: GameState, id: Id): Outcome<GameState> {
    match FindPending(s, id)
    case None => Refused
    case Some(i) =>
      var continuation := s.pendingChecks[i].continuation;
      var t := s.(pendingChecks := WithoutCheck(s.pendingChecks, id));
      if s.combat.None? then Done(t)
      else if s.combat.value.pendingDeath == Some(id) then Done(WithCombat(t, ReleaseDeath(s.combat.value, id)))
      else if continuation.Some? && continuation.value.CombatAction? then
        Done(WithCombat(t, ReleaseAction(s.combat.value, id)))
      else Done(t)
  }

  function RequestRoll(s: GameState, id: Id, nonce: Id, d: Disclosure): Outcome<GameState> {
    if id in CheckIds(s.pendingChecks) || nonce in Nonces(s.pendingChecks) then Refused
    else
      var t := s.(pendingChecks := s.pendingChecks + [PendingCheck(id, nonce, d, None)]);
      if d.reason.PermanentDeath? && s.combat.Some? then
        Done(WithCombat(t, s.combat.value.(status := AwaitingDeathTest, pendingDeath := Some(id))))
      else Done(t)
  }

  function ReopenRitual(s: GameState, k: Option<Continuation>): GameState {
    if k.Some? && k.value.ForRitual? then
      match FindRitual(s, k.value.ritualId)
      case None => s
      case Some(i) =>
        if s.rituals[i].status.AwaitingResolution? then
          s.(rituals := s.rituals[i := s.rituals[i].(status := RitualReady)])
        else s
    else s
  }

  function CancelRoll(s: GameState, id: Id): Outcome<GameState> {
    match FindPending(s, id)
    case None => Refused
    case Some(i) =>
      var t := ReopenRitual(s, s.pendingChecks[i].continuation);
      var u := t.(pendingChecks := WithoutCheck(s.pendingChecks, id));
      if u.combat.None? then Done(u)
      else Done(WithCombat(u, ReleaseAction(ReleaseDeath(u.combat.value, id), id)))
  }

  /** A pending check that awaits its continuation receives one. */
  function Continue(s: GameState, id: Id, k: Continuation): Outcome<GameState> {
    match FindPending(s, id)
    case None => Refused
    case Some(i) =>
      if s.pendingChecks[i].continuation.Some? then Refused
      else Done(s.(pendingChecks := s.pendingChecks[i := s.pendingChecks[i].(continuation := Some(k))]))
  }

  function SpendSpark(s: GameState, actorId: Id): Outcome<GameState> {
    match FindActor(s, actorId)
    case None => Refused
    case Some(i) =>
      if !s.characters[i].sparkAvailable then Refused
      else Done(WithCharacter(s, i, s.characters[i].(sparkAvailable := false)))
  }

  function RestoreSpark(s: GameState, actorId: Id): Outcome<GameState> {
    match FindActor(s, actorId)
    case None => Refused
    case Some(i) =>
      if s.characters[i].sparkAvailable then Refused
      else Done(WithCharacter(s, i, s.characters[i].(sparkAvailable := true)))
  }

  // ----- Heroes -----

  function Materialize(s: GameState, c: Character): Outcome<GameState> {
    if c.characterId in CharacterIds(s.characters) || c.actorId in ActorIds(s.characters) then Refused
    else Done(s.(characters := s.characters + [c], supplyMaximum := |s.characters| + 1 + 2))
  }

  /** The cost a ritual asks for next. */
  function NextCost(r: Ritual): Option<Cost> {
    if 0 <= r.paid < |r.costs| then Some(r.costs[r.paid]) else None
  }

  function SpendGear(s: GameState, characterId: Id, slot: nat, definition: Ref, ritualId: Id): Outcome<GameState> {
    match FindCharacter(s, characterId)
    case None => Refused
    case Some(i) =>
      var c := s.characters[i];
      match FindRitual(s, ritualId)
      case None => Refused
      case Some(j) =>
        if !(1 <= slot <= |c.gear|) || c.gear[slot - 1] != Ready(definition)
          || !s.rituals[j].status.Preparing? || NextCost(s.rituals[j]) != Some(GearCost(definition)) then Refused
        else Done(WithCharacter(s, i, c.(gear := c.gear[slot - 1 := Gear.Spent(definition)])))
  }

  function ChangeResource(s: GameState, owner: Owner, resource: Resource, previous: int,
      current: int): Outcome<GameState> {
    match owner
    case Party =>
      if !resource.Supply? || s.supply != previous then Refused else Done(s.(supply := current))
    case Of(id) =>
      match FindCharacter(s, id)
      case None => Refused
      case Some(i) =>
        var c := s.characters[i];
        match resource
        case Guard => if c.guard != previous then Refused else Done(WithCharacter(s, i, c.(guard := current)))
        case Exertion => if c.exertion != previous then Refused else Done(WithCharacter(s, i, c.(exertion := current)))
        case Supply => Refused
  }

  function RecoverSpark(s: GameState, id: Id): Outcome<GameState> {
    match FindCharacter(s, id)
    case None => Refused
    case Some(i) =>
      var c := s.characters[i];
      if c.sparkAvailable || c.sparkRecovered then Refused
      else Done(WithCharacter(s, i, c.(sparkAvailable := true, sparkRecovered := true)))
  }

  function ResetUses(uses: seq<SceneUse>): seq<SceneUse> {
    seq(|uses|, i requires 0 <= i < |uses| => uses[i].(used := false))
  }

  function Rested(c: Character): Character {
    c.(guard := c.guardMaximum, exertion := EXERTION_MAXIMUM, sceneUses := ResetUses(c.sceneUses))
  }

  function RestEach(cs: seq<Character>, ids: seq<Id>): Outcome<seq<Character>>
    decreases |ids|
  {
    if ids == [] then Done(cs)
    else
      match IndexOf(CharacterIds(cs), ids[0])
      case None => Refused
      case Some(i) => RestEach(cs[i := Rested(cs[i])], ids[1..])
  }

  const COSTLY_REST_SUPPLY_COST := 1

  function CompleteRest(s: GameState, ids: seq<Id>, spent: int): Outcome<GameState> {
    if spent != COSTLY_REST_SUPPLY_COST || s.supply < spent then Refused
    else
      match RestEach(s.characters, ids)
      case Refused => Refused
      case Done(cs) => Done(s.(characters := cs, supply := s.supply - spent))
  }

  function DropConditions(cs: seq<Condition>, ending: Duration): seq<Condition> {
    if cs == [] then []
    else (if cs[0].duration == ending then [] else [cs[0]]) + DropConditions(cs[1..], ending)
  }

  function SceneStarted(c: Character, boundary: Boundary): Character {
    var d := Rested(c).(conditions := DropConditions(c.conditions, UntilScene));
    if boundary.SessionStart? then d.(sparkAvailable := true, sparkRecovered := false) else d
  }

  function StartSceneEach(cs: seq<Character>, ids: seq<Id>, boundary: Boundary): Outcome<seq<Character>>
    decreases |ids|
  {
    if ids == [] then Done(cs)
    else
      match IndexOf(CharacterIds(cs), ids[0])
      case None => Refused
      case Some(i) => StartSceneEach(cs[i := SceneStarted(cs[i], boundary)], ids[1..], boundary)
  }

  function ResetScene(s: GameState, sceneId: Option<Id>, next: Id, boundary: Boundary,
      ids: seq<Id>): Outcome<GameState> {
    if s.sceneId != sceneId || |ids| != |s.characters|
      || !(forall id :: id in CharacterIds(s.characters) ==> id in ids) then Refused
    else
      match StartSceneEach(s.characters, ids, boundary)
      case Refused => Refused
      case Done(cs) =>
        Done(s.(sceneId := Some(next), characters := cs,
                sessionNumber := s.sessionNumber + (if boundary.SessionStart? then 1 else 0)))
  }

  function RankSlot(o: Options, rank: int): Option<Ref> {
    if rank == 2 then o.path else if rank == 3 then o.talent else o.capstone
  }

  function WithFeature(o: Options, rank: int, feature: Ref): Options {
    if rank == 2 then o.(path := Some(feature))
    else if rank == 3 then o.(talent := Some(feature))
    else if rank == 4 then o.(capstone := Some(feature))
    else o
  }

  function AdvanceRank(s: GameState, id: Id, previous: int, current: int, feature: Ref): Outcome<GameState> {
    match FindCharacter(s, id)
    case None => Refused
    case Some(i) =>
      var c := s.characters[i];
      if c.rank != previous || current != previous + 1 || RankSlot(c.options, current).Some? then Refused
      else Done(WithCharacter(s, i, c.(rank := current, options := WithFeature(c.options, current, feature))))
  }

  function UseSceneAbility(s: GameState, id: Id, ability: Ref): Outcome<GameState> {
    match FindCharacter(s, id)
    case None => Refused
    case Some(i) =>
      var c := s.characters[i];
      match UseIndex(c.sceneUses, ability)
      case None => Refused
      case Some(k) =>
        if c.sceneUses[k].used then Refused
        else Done(WithCharacter(s, i, c.(sceneUses := c.sceneUses[k := c.sceneUses[k].(used := true)])))
  }

  function ApplyCondition(s: GameState, id: Id, condition: Condition): Outcome<GameState> {
    match FindCharacter(s, id)
    case None => Refused
    case Some(i) =>
      var c := s.characters[i];
      if condition.conditionId in ConditionIds(c.conditions) then Refused
      else Done(WithCharacter(s, i, c.(conditions := c.conditions + [condition])))
  }

  function RemoveCondition(s: GameState, id: Id, conditionId: Id): Outcome<GameState> {
    match FindCharacter(s, id)
    case None => Refused
    case Some(i) =>
      var c := s.characters[i];
      match IndexOf(ConditionIds(c.conditions), conditionId)
      case None => Refused
      case Some(k) => Done(WithCharacter(s, i, c.(conditions := c.conditions[..k] + c.conditions[k + 1..])))
  }

  // ----- Combat -----

  function StartCombat(s: GameState, c: Combat): Outcome<GameState> {
    if s.combat.Some? then Refused else Done(WithCombat(s, c))
  }

  function StartActivation(s: GameState, combatId: Id, actorId: Id, side: Side): Outcome<GameState> {
    if !InCombat(s, combatId) || s.combat.value.activeActor.Some? then Refused
    else
      var c := s.combat.value;
      match FindParticipant(c, actorId)
      case None => Refused
      case Some(i) =>
        if c.participants[i].Side() != side || c.participants[i].activationSpent then Refused
        else Done(WithCombat(s, c.(activeSide := side, activeActor := Some(actorId))))
  }

  function SlotAvailable(p: Participant, slot: Slot): bool {
    match slot
    case ActionSlot => p.actionAvailable
    case ManeuverSlot => p.maneuverAvailable
    case ReactionSlot => p.reactionAvailable
  }

  function SetSlot(p: Participant, slot: Slot, available: bool): Participant {
    match slot
    case ActionSlot => p.(actionAvailable := available)
    case ManeuverSlot => p.(maneuverAvailable := available)
    case ReactionSlot => p.(reactionAvailable := available)
  }

  function Opposite(side: Side): Side {
    if side.HeroSide? then EnemySide else HeroSide
  }

  /** The participant after a slot is spent: the activation is over once action and maneuver are both gone. */
  function AfterSpend(p: Participant, slot: Slot): Participant {
    var q := SetSlot(p, slot, false);
    q.(activationSpent := !q.actionAvailable && !q.maneuverAvailable)
  }

  function SpendSlot(s: GameState, combatId: Id, actorId: Id, slot: Slot): Outcome<GameState> {
    if !InCombat(s, combatId) then Refused
    else
      var c := s.combat.value;
      match FindParticipant(c, actorId)
      case None => Refused
      case Some(i) =>
        var p := c.participants[i];
        if !SlotAvailable(p, slot) || (!slot.ReactionSlot? && c.activeActor != Some(actorId)) then Refused
        else
          var q := AfterSpend(p, slot);
          var d := WithParticipant(c, i, q);
          if !slot.ReactionSlot? && !p.activationSpent && q.activationSpent then
            Done(WithCombat(s, d.(activeActor := None, activeSide := Opposite(p.Side()))))
          else Done(WithCombat(s, d))
  }

  function RestoreSlot(s: GameState, combatId: Id, actorId: Id, slot: Slot): Outcome<GameState> {
    if !InCombat(s, combatId) then Refused
    else
      var c := s.combat.value;
      match FindParticipant(c, actorId)
      case None => Refused
      case Some(i) =>
        var q := SetSlot(c.participants[i], slot, true).(activationSpent := false);
        Done(WithCombat(s, WithParticipant(c, i, q).(activeActor := Some(actorId), activeSide := q.Side())))
  }

  function FindZone(zones: seq<Zone>, id: ZoneId): (r: Option<nat>)
    ensures r.Some? ==> r.value < |zones| && zones[r.value].zoneId == id
  {
    IndexOf(ZoneIds(zones), id)
  }

  function MoveActor(s: GameState, combatId: Id, actorId: Id, from: ZoneId, to: ZoneId): Outcome<GameState> {
    if !InCombat(s, combatId) then Refused
    else
      var c := s.combat.value;
      match FindParticipant(c, actorId)
      case None => Refused
      case Some(i) =>
        match FindZone(c.zones, to)
        case None => Refused
        case Some(z) =>
          if c.participants[i].zoneId != from || Occupancy(c.participants, to) >= c.zones[z].capacity then Refused
          else Done(WithCombat(s, WithParticipant(c, i, c.participants[i].(zoneId := to))))
  }

  function AwaitAction(s: GameState, id: Id, candidate: Candidate, baseImpact: Option<int>): Outcome<GameState> {
    match Continue(s, id, CombatAction(candidate, baseImpact))
    case Refused => Refused
    case Done(t) =>
      if t.combat.None? then Refused
      else Done(WithCombat(t, t.combat.value.(status := AwaitingAction, pendingAction := Some(id))))
  }

  function ImpactOf(base: int, bonus: int, armor: int): int {
    Max(1, base + bonus - armor)
  }

  function Strike(s: GameState, combatId: Id, target: Id, base: int, bonus: int, armor: int, applied: int,
      before: int, after: int): Outcome<GameState> {
    if !InCombat(s, combatId) || applied != ImpactOf(base, bonus, armor) || after != Max(0, before - applied)
      then Refused
    else
      match FindActor(s, target)
      case Some(i) =>
        if s.characters[i].guard != before then Refused
        else Done(WithCharacter(s, i, s.characters[i].(guard := after)))
      case None =>
        var c := s.combat.value;
        match FindParticipant(c, target)
        case None => Refused
        case Some(i) =>
          var p := c.participants[i];
          if !p.role.Enemy? || p.role.armor != armor || p.role.guard != before then Refused
          else Done(WithCombat(s, WithParticipant(c, i, p.(role := p.role.(guard := after)))))
  }

  /** Exactly one slot differs, and it was empty. */
  predicate FillsOneSlot(held: seq<Wound>, marked: seq<Wound>) {
    exists k :: 0 <= k < |held| && k < |marked| && held[k].Empty? && held[k] != marked[k]
      && forall j :: 0 <= j < |held| && j != k ==> j < |marked| && held[j] == marked[j]
  }

  function MarkWound(s: GameState, id: Id, wounds: seq<Wound>): Outcome<GameState> {
    match FindCharacter(s, id)
    case None => Refused
    case Some(i) =>
      if !FillsOneSlot(s.characters[i].wounds, wounds) then Refused
      else Done(WithCharacter(s, i, s.characters[i].(wounds := wounds)))
  }

  function OpenWindow(s: GameState, w: Window): Outcome<GameState> {
    if s.combat.None? then Refused
    else
      var c := s.combat.value;
      if c.window.Some? && c.window.value.windowId != w.windowId then Refused
      else Done(WithCombat(s, c.(window := Some(w))))
  }

  function CloseWindow(s: GameState): Outcome<GameState> {
    if s.combat.None? then Refused else Done(WithCombat(s, s.combat.value.(window := None)))
  }

  function RestoreReaction(s: GameState, actorId: Id): Outcome<GameState> {
    if s.combat.None? then Refused
    else
      var c := s.combat.value;
      match FindParticipant(c, actorId)
      case None => Refused
      case Some(i) =>
        if c.participants[i].reactionAvailable then Refused
        else Done(WithCombat(s, WithParticipant(c, i, c.participants[i].(reactionAvailable := true))))
  }

  function Refreshed(c: Combat, p: Participant): Participant {
    p.(actionAvailable := true, maneuverAvailable := true, reactionAvailable := true,
       activationSpent := p.role.Enemy? && p.role.trigger.ObjectiveTwo? && NoObjectiveAtTwo(c.objectives))
  }

  function RefreshAll(c: Combat): seq<Participant> {
    seq(|c.participants|, i requires 0 <= i < |c.participants| => Refreshed(c, c.participants[i]))
  }

  function EndRoundConditions(cs: seq<Character>): seq<Character> {
    seq(|cs|, i requires 0 <= i < |cs| => cs[i].(conditions := DropConditions(cs[i].conditions, UntilRound)))
  }

  /** Every living participant has spent its activation. */
  predicate AllSpent(s: GameState, c: Combat) {
    forall i :: 0 <= i < |c.participants| && Alive(s, c.participants[i]) ==> c.participants[i].activationSpent
  }

  function AdvanceRound(s: GameState, previous: int, current: int): Outcome<GameState> {
    if s.combat.None? then Refused
    else
      var c := s.combat.value;
      if c.round != previous || current != previous + 1 || !AllSpent(s, c) then Refused
      else
        Done(WithCombat(s, c.(round := current, activeSide := HeroSide, activeActor := None,
                              participants := RefreshAll(c), window := None))
             .(characters := EndRoundConditions(s.characters)))
  }

  function ReplaceOverlays(os: seq<Overlay>, o: Overlay): seq<Overlay> {
    seq(|os|, i requires 0 <= i < |os| => if os[i].actorId == o.actorId then o else os[i])
  }

  function ActivateOverlay(s: GameState, o: Overlay, before: int, after: int): Outcome<GameState> {
    if s.combat.None? then Refused
    else
      var c := s.combat.value;
      match FindParticipant(c, o.actorId)
      case None => Refused
      case Some(i) =>
        var p := c.participants[i];
        if !p.role.Enemy? || !p.role.boss || p.role.guard != before || after > p.role.guardMaximum then Refused
        else
          Done(WithCombat(s, WithParticipant(c, i, p.(role := p.role.(guard := after)))
                             .(overlays := ReplaceOverlays(c.overlays, o))))
  }

  function Summoned(p: Participant): Participant {
    if p.role.Enemy? && p.role.trigger.ObjectiveTwo? then p.(activationSpent := false) else p
  }

  function SummonAll(ps: seq<Participant>): seq<Participant> {
    seq(|ps|, i requires 0 <= i < |ps| => Summoned(ps[i]))
  }

  function ProgressObjective(s: GameState, id: Id, previous: int, current: int,
      status: ObjectiveStatus): Outcome<GameState> {
    if s.combat.None? then Refused
    else
      var c := s.combat.value;
      match IndexOf(ObjectiveIds(c.objectives), id)
      case None => Refused
      case Some(i) =>
        var o := c.objectives[i];
        if o.progress != previous || current < previous || current > o.threshold
          || (status.ObjectiveCompleted? <==> current != o.threshold) then Refused
        else
          var d := c.(objectives := c.objectives[i := o.(progress := current, status := status)]);
          Done(WithCombat(s, if current >= 2 then d.(participants := SummonAll(c.participants)) else d))
  }

  function AidDeathTest(s: GameState, id: Id, d: Disclosure): Outcome<GameState> {
    match FindPending(s, id)
    case None => Refused
    case Some(i) => Done(s.(pendingChecks := s.pendingChecks[i := s.pendingChecks[i].(disclosure := d)]))
  }

  function Stabilize(s: GameState, id: Id, wounds: seq<Wound>): Outcome<GameState> {
    match FindCharacter(s, id)
    case None => Refused
    case Some(i) => Done(WithCharacter(s, i, s.characters[i].(wounds := wounds)))
  }

  function ResolveCombat(s: GameState): Outcome<GameState> {
    if s.combat.None? then Refused else Done(WithCombat(s, s.combat.value.(status := Resolved)))
  }

  // ----- Challenges -----

  function BeginChallenge(s: GameState, c: Challenge): Outcome<GameState> {
    if c.challengeId in ChallengeIds(s.challenges) || !ValidChallenge(c) then Refused
    else Done(s.(challenges := s.challenges + [c]))
  }

  function AwaitChallenge(s: GameState, challengeId: Id, checkId: Id): Outcome<GameState> {
    match FindChallenge(s, challengeId)
    case None => Refused
    case Some(i) =>
      if !s.challenges[i].status.ChallengeActive? then Refused
      else Continue(s, checkId, ForChallenge(challengeId))
  }

  function MoveTracks(s: GameState, id: Id, progressBefore: int, progressAfter: int, dangerBefore: int,
      dangerAfter: int, status: ChallengeStatus): Outcome<GameState> {
    match FindChallenge(s, id)
    case None => Refused
    case Some(i) =>
      var c := s.challenges[i];
      var d := c.(progress := c.progress.(current := progressAfter), danger := c.danger.(current := dangerAfter),
                  status := status);
      if !c.status.ChallengeActive? || c.progress.current != progressBefore || c.danger.current != dangerBefore
        || progressAfter < progressBefore || dangerAfter < dangerBefore || !ValidChallenge(d) then Refused
      else Done(s.(challenges := s.challenges[i := d]))
  }

  function CloseChallenge(s: GameState, id: Id, outcome: ChallengeStatus): Outcome<GameState> {
    match FindChallenge(s, id)
    case None => Refused
    case Some(i) => if s.challenges[i].status != outcome then Refused else Done(s)
  }

  // ----- Social scenes -----

  function EstablishSocial(s: GameState, social: Social): Outcome<GameState> {
    if social.npcActorId in SocialIds(s.socials) || !ValidSocial(social) then Refused
    else Done(s.(socials := s.socials + [social]))
  }

  function AwaitSocial(s: GameState, npc: Id, checkId: Id, stance: Stance, limit: Option<Id>): Outcome<GameState> {
    if FindSocial(s, npc).None? then Refused else Continue(s, checkId, ForSocial(npc, stance, limit))
  }

  function StanceIndex(stance: Stance): int {
    match stance
    case Closed => 0
    case Guarded => 1
    case Receptive => 2
    case Aligned => 3
  }

  function Steps(degree: Degree): int {
    if degree.Triumph? then 2 else if degree.Success? then 1 else 0
  }

  function Abs(n: int): int {
    if n < 0 then -n else n
  }

  function ShiftStance(s: GameState, npc: Id, before: Stance, after: Stance, degree: Degree): Outcome<GameState> {
    match FindSocial(s, npc)
    case None => Refused
    case Some(i) =>
      var distance := Abs(StanceIndex(after) - StanceIndex(before));
      if s.socials[i].stance != before || distance < 1 || distance > Steps(degree) then Refused
      else Done(s.(socials := s.socials[i := s.socials[i].(stance := after)]))
  }

  function GainLeverage(s: GameState, npc: Id, leverage: Id): Outcome<GameState> {
    match FindSocial(s, npc)
    case None => Refused
    case Some(i) =>
      var social := s.socials[i];
      if |social.leverage| >= social.leverageCapacity || leverage in social.leverage then Refused
      else Done(s.(socials := s.socials[i := social.(leverage := social.leverage + [leverage])]))
  }

  function WithoutId(ids: seq<Id>, id: Id): seq<Id> {
    if ids == [] then [] else (if ids[0] == id then [] else [ids[0]]) + WithoutId(ids[1..], id)
  }

  function LoseLeverage(s: GameState, npc: Id, leverage: Id): Outcome<GameState> {
    match FindSocial(s, npc)
    case None => Refused
    case Some(i) =>
      var social := s.socials[i];
      if leverage !in social.leverage then Refused
      else Done(s.(socials := s.socials[i := social.(leverage := WithoutId(social.leverage, leverage))]))
  }

  // ----- Rituals -----

  function BeginRitual(s: GameState, r: Ritual): Outcome<GameState> {
    if r.ritualId in RitualIds(s.rituals) || !ValidRitual(r) then Refused
    else Done(s.(rituals := s.rituals + [r]))
  }

  function WithRitual(s: GameState, i: nat, r: Ritual): GameState
  {
    if i < |s.rituals| then s.(rituals := s.rituals[i := r]) else s
  }

  function AwaitRitual(s: GameState, ritualId: Id, checkId: Id): Outcome<GameState> {
    match Continue(s, checkId, ForRitual(ritualId))
    case Refused => Refused
    case Done(t) =>
      match FindRitual(t, ritualId)
      case None => Refused
      case Some(i) =>
        if !t.rituals[i].status.RitualReady? then Refused
        else Done(WithRitual(t, i, t.rituals[i].(status := AwaitingResolution)))
  }

  function Contributed(r: Ritual, characterId: Id): Ritual {
    r.(contributors := if characterId in r.contributors then r.contributors else r.contributors + [characterId],
       paid := r.paid + 1)
  }

  function Contribute(s: GameState, ritualId: Id, characterId: Id, index: int): Outcome<GameState> {
    match FindRitual(s, ritualId)
    case None => Refused
    case Some(i) =>
      var r := s.rituals[i];
      if !r.status.Preparing? || index != r.paid || NextCost(r).None? || FindCharacter(s, characterId).None?
        then Refused
      else Done(WithRitual(s, i, Contributed(r, characterId)))
  }

  function MakeReady(s: GameState, ritualId: Id): Outcome<GameState> {
    match FindRitual(s, ritualId)
    case None => Refused
    case Some(i) =>
      if !s.rituals[i].status.Preparing? || s.rituals[i].paid != |s.rituals[i].costs| then Refused
      else Done(WithRitual(s, i, s.rituals[i].(status := RitualReady)))
  }

  function RitualOutcome(degree: Degree): RitualStatus {
    if degree.Success? || degree.Triumph? then RitualCompleted else RitualFailed
  }

  function ResolveRitual(s: GameState, ritualId: Id, degree: Degree, outcome: RitualStatus): Outcome<GameState> {
    match FindRitual(s, ritualId)
    case None => Refused
    case Some(i) =>
      var status := s.rituals[i].status;
      if !(status.RitualReady? || status.AwaitingResolution?) || outcome != RitualOutcome(degree) then Refused
      else Done(WithRitual(s, i, s.rituals[i].(status := outcome)))
  }

  predicate RitualClosed(status: RitualStatus) {
    status.RitualCompleted? || status.RitualFailed? || status.Interrupted?
  }

  function InterruptRitual(s: GameState, ritualId: Id): Outcome<GameState> {
    match FindRitual(s, ritualId)
    case None => Refused
    case Some(i) =>
      if RitualClosed(s.rituals[i].status) then Refused
      else Done(WithRitual(s, i, s.rituals[i].(status := Interrupted)))
  }

  // ----- All events -----

  datatype Group = AuditEvent | CheckEvent | HeroEvent | TurnEvent | HarmEvent | SceneEvent

  /** Which part of the reducer an event belongs to. */
  function GroupOf(e: Event): Group {
    match e
    case CheckResolvedPhysical(_, _) => CheckEvent
    case PhysicalRollRequested(_, _, _) => CheckEvent
    case PhysicalRollCancelled(_) => CheckEvent
    case CombatActionPending(_, _, _, _) => CheckEvent
    case DeathTestPending(_, _, _) => CheckEvent
    case ChallengeCheckPending(_, _) => CheckEvent
    case SocialCheckPending(_, _, _, _) => CheckEvent
    case RitualCheckPending(_, _) => CheckEvent
    case DeathTestAidApplied(_, _) => CheckEvent
    case SparkSpent(_) => HeroEvent
    case SparkRestored(_) => HeroEvent
    case CharacterMaterialized(_) => HeroEvent
    case SignificantGearSpent(_, _, _, _) => HeroEvent
    case ResourceChanged(_, _, _, _) => HeroEvent
    case SparkRecovered(_) => HeroEvent
    case CostlyRestCompleted(_, _) => HeroEvent
    case SceneResourcesReset(_, _, _, _) => HeroEvent
    case RankAdvanced(_, _, _, _) => HeroEvent
    case SceneAbilityUsed(_, _) => HeroEvent
    case ConditionApplied(_, _) => HeroEvent
    case ConditionRemoved(_, _) => HeroEvent
    case CombatStarted(_) => TurnEvent
    case ActivationStarted(_, _, _) => TurnEvent
    case ActionSlotSpent(_, _, _) => TurnEvent
    case ActionSlotRestored(_, _, _) => TurnEvent
    case ActorMoved(_, _, _, _) => TurnEvent
    case ReactionWindowOpened(_) => TurnEvent
    case ReactionWindowClosed => TurnEvent
    case ReactionRestored(_) => TurnEvent
    case RoundAdvanced(_, _) => TurnEvent
    case ObjectiveAdvanced(_, _, _, _) => TurnEvent
    case CombatResolved(_) => TurnEvent
    case ImpactApplied(_, _, _, _, _, _, _, _) => HarmEvent
    case WoundMarked(_, _) => HarmEvent
    case BossOverlayActivated(_, _, _) => HarmEvent
    case HeroStabilized(_, _) => HarmEvent
    case PermanentScarGained(_, _) => HarmEvent
    case CharacterDied(_) => HarmEvent
    case ChallengeStarted(_) => SceneEvent
    case ChallengeTracksChanged(_, _, _, _, _, _) => SceneEvent
    case ChallengeResolved(_, _) => SceneEvent
    case SocialStateEstablished(_) => SceneEvent
    case SocialStanceChanged(_, _, _, _) => SceneEvent
    case LeverageCreated(_, _) => SceneEvent
    case LeverageSpent(_, _) => SceneEvent
    case RitualStarted(_) => SceneEvent
    case RitualContribution(_, _, _) => SceneEvent
    case BecameReady(_) => SceneEvent
    case RitualResolved(_, _, _) => SceneEvent
    case RitualInterrupted(_) => SceneEvent
    case _ => AuditEvent
  }

  /** Physical rolls and their continuations. */
  function StepCheck(s: GameState, e: Event): Outcome<GameState> {
    match e
    case CheckResolvedPhysical(id, _) => ResolvePhysical(s, id)
    case PhysicalRollRequested(id, nonce, d) => RequestRoll(s, id, nonce, d)
    case PhysicalRollCancelled(id) => CancelRoll(s, id)
    case CombatActionPending(_, id, candidate, impact) => AwaitAction(s, id, candidate, impact)
    case DeathTestPending(combat, id, character) => Continue(s, id, DeathTest(combat, character))
    case ChallengeCheckPending(id, check) => AwaitChallenge(s, id, check)
    case SocialCheckPending(npc, check, stance, limit) => AwaitSocial(s, npc, check, stance, limit)
    case RitualCheckPending(id, check) => AwaitRitual(s, id, check)
    case DeathTestAidApplied(id, d) => AidDeathTest(s, id, d)
    case _ => Refused
  }

  /** Heroes, their resources and the scene. */
  function StepHero(s: GameState, e: Event): Outcome<GameState> {
    match e
    case SparkSpent(actor) => SpendSpark(s, actor)
    case SparkRestored(actor) => RestoreSpark(s, actor)
    case CharacterMaterialized(c) => Materialize(s, c)
    case SignificantGearSpent(id, slot, definition, ritual) => SpendGear(s, id, slot, definition, ritual)
    case ResourceChanged(owner, resource, previous, current) => ChangeResource(s, owner, resource, previous, current)
    case SparkRecovered(id) => RecoverSpark(s, id)
    case CostlyRestCompleted(ids, spent) => CompleteRest(s, ids, spent)
    case SceneResourcesReset(scene, next, boundary, ids) => ResetScene(s, scene, next, boundary, ids)
    case RankAdvanced(id, previous, current, feature) => AdvanceRank(s, id, previous, current, feature)
    case SceneAbilityUsed(id, ability) => UseSceneAbility(s, id, ability)
    case ConditionApplied(id, condition) => ApplyCondition(s, id, condition)
    case ConditionRemoved(id, condition) => RemoveCondition(s, id, condition)
    case _ => Refused
  }

  /** The combat turn machine. */
  function StepTurn(s: GameState, e: Event): Outcome<GameState> {
    match e
    case CombatStarted(c) => StartCombat(s, c)
    case ActivationStarted(combat, actor, side) => StartActivation(s, combat, actor, side)
    case ActionSlotSpent(combat, actor, slot) => SpendSlot(s, combat, actor, slot)
    case ActionSlotRestored(combat, actor, slot) => RestoreSlot(s, combat, actor, slot)
    case ActorMoved(combat, actor, from, to) => MoveActor(s, combat, actor, from, to)
    case ReactionWindowOpened(w) => OpenWindow(s, w)
    case ReactionWindowClosed => CloseWindow(s)
    case ReactionRestored(actor) => RestoreReaction(s, actor)
    case RoundAdvanced(previous, current) => AdvanceRound(s, previous, current)
    case ObjectiveAdvanced(id, previous, current, status) => ProgressObjective(s, id, previous, current, status)
    case CombatResolved(_) => ResolveCombat(s)
    case _ => Refused
  }

  /** Harm, wounds and death. */
  function StepHarm(s: GameState, e: Event): Outcome<GameState> {
    match e
    case ImpactApplied(combat, target, impact, bonus, armor, applied, before, after) =>
      Strike(s, combat, target, impact, bonus, armor, applied, before, after)
    case WoundMarked(id, wounds) => MarkWound(s, id, wounds)
    case BossOverlayActivated(o, before, after) => ActivateOverlay(s, o, before, after)
    case HeroStabilized(id, wounds) => Stabilize(s, id, wounds)
    case PermanentScarGained(scar, id) => Done(s.(scars := s.scars + [Scar(scar, id)]))
    case CharacterDied(id) => Done(s.(deaths := s.deaths + [id]))
    case _ => Refused
  }

  /** Challenges, social scenes and rituals. */
  function StepScene(s: GameState, e: Event): Outcome<GameState> {
    match e
    case ChallengeStarted(c) => BeginChallenge(s, c)
    case ChallengeTracksChanged(id, progress, progressAfter, danger, dangerAfter, status) =>
      MoveTracks(s, id, progress, progressAfter, danger, dangerAfter, status)
    case ChallengeResolved(id, status) => CloseChallenge(s, id, status)
    case SocialStateEstablished(social) => EstablishSocial(s, social)
    case SocialStanceChanged(npc, before, after, degree) => ShiftStance(s, npc, before, after, degree)
    case LeverageCreated(npc, leverage) => GainLeverage(s, npc, leverage)
    case LeverageSpent(npc, leverage) => LoseLeverage(s, npc, leverage)
    case RitualStarted(r) => BeginRitual(s, r)
    case RitualContribution(id, character, index) => Contribute(s, id, character, index)
    case BecameReady(id) => MakeReady(s, id)
    case RitualResolved(id, degree, outcome) => ResolveRitual(s, id, degree, outcome)
    case RitualInterrupted(id) => InterruptRitual(s, id)
    case _ => Refused
  }

  /** One event, before the closing validation. */
  function Step(s: GameState, e: Event): Outcome<GameState> {
    match GroupOf(e)
    case AuditEvent => Done(s)
    case CheckEvent => StepCheck(s, e)
    case HeroEvent => StepHero(s, e)
    case TurnEvent => StepTurn(s, e)
    case HarmEvent => StepHarm(s, e)
    case SceneEvent => StepScene(s, e)
  }

  /** One event as the store applies it: the step, then the validation of the whole state. */
  ghost function Apply(s: GameState, e: Event): Outcome<GameState> {
    match Step(s, e)
    case Refused => Refused
    case Done(t) => if ValidGameState(t) then Done(t) else Refused
  }

  /** A transaction: its events in order, all or nothing. */
  ghost function Fold(s: GameState, es: seq<Event>): Outcome<GameState>
    decreases |es|
  {
    if es == [] then Done(s)
    else
      match Apply(s, es[0])
      case Refused => Refused
      case Done(t) => Fold(t, es[1..])
  }

  lemma SameRitualIds(rs: seq<Ritual>, i: nat, r: Ritual)
    requires i < |rs| && r.ritualId == rs[i].ritualId
    ensures RitualIds(rs[i := r]) == RitualIds(rs)
    ensures rs[i := r][i := rs[i]] == rs
  {
    assert rs[i := r][i := rs[i]] == rs;
  }
}
