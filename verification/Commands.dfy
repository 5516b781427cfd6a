/** Every command, and the decision on it. */
module Commands {
  import opened Common
  import opened State
  import opened Validity
  import opened Events
  import opened Reducer
  import opened Checks
  import opened Content
  import opened CombatRules
  import opened CombatDecisions
  import opened Reactions
  import opened Subsystems

  /** The narrative foundation of a hero, texts left out. */
  datatype Foundation = Foundation(
    characterId: Id, actorId: Id, attributes: map<Attribute, int>, disciplines: map<Discipline, int>,
    gearNamed: seq<bool>, heritage: Id, upbringing: Id, archetype: Id)

  datatype Command =
    | ResolveCheck(attempt: Attempt)
    | SubmitDieResult(checkId: Id, nonce: Id, dieFace: int)
    | MaterializeCharacter(foundation: Foundation, selections: seq<Option<Ref>>)
    | ProvisionStartingSupply
    | SpendResource(characterId: Id, resource: Resource, amount: int)
    | RecoverResource(characterId: Id, resource: Resource, amount: int, source: Ref)
    | RecoverSparkComplication(characterId: Id)
    | TakeCostlyRest(characterIds: seq<Id>)
    | AdvanceScene(sceneId: Option<Id>, nextSceneId: Id, boundary: Boundary)
    | AdvanceRankCommand(characterId: Id, expectedRank: int, feature: Ref)
    | StartCombatCommand(combat: Combat)
    | ChooseHeroActivation(combatId: Id, actorId: Id)
    | ExecuteCombatAction(combatId: Id, legalActionId: Id, invokeSpark: bool)
    | SelectEnemyFallback(combatId: Id, actorId: Id)
    | WithdrawFromCombat(combatId: Id)
    | OpenReactionWindow(combatId: Id, windowId: Id, actorId: Id)
    | ResolveReaction(combatId: Id, windowId: Id, actorId: Id, reactionId: Option<Id>)
    | AidDeathTestCommand(combatId: Id, checkId: Id, characterId: Id, aid: AidResource)
    | StartChallenge(challenge: Challenge)
    | AdvanceChallenge(challengeId: Id, attempt: Attempt)
    | EstablishSocialState(social: Social)
    | AttemptSocialShift(npcActorId: Id, attempt: Attempt, requestedStance: Stance, limitId: Option<Id>)
    | CreateLeverage(npcActorId: Id, leverageId: Id)
    | SpendLeverage(npcActorId: Id, leverageId: Id)
    | StartRitual(ritual: Ritual, tags: seq<nat>)
    | ContributeRitual(ritualId: Id, characterId: Id, paidIndex: int)
    | ResolveRitualCommand(ritualId: Id, attempt: Attempt)
    | InterruptRitualCommand(ritualId: Id)

  // ----- Checks -----

  function DecideResolveCheck(s: GameState, facts: Facts, a: Attempt): Decision {
    match FindActor(s, a.request.actorId)
    case None => Refused
    case Some(i) =>
      if a.physicalReason.None? && !a.invokeSpark then
        if facts.random.None? then Refused
        else Done([CheckResolvedSimulated(Resolve(a.request, Draw(facts.random.value, 1, 20)))])
      else if a.invokeSpark && !s.characters[i].sparkAvailable then Refused
      else if facts.pendingCheckId.None? || facts.nonce.None? then Refused
      else
        match SelectAttempt(a)
        case Physical(_, _, _) => Done(RequestEvents(SelectAttempt(a), facts.pendingCheckId.value, facts.nonce.value))
        case _ => Refused
  }

  /** What the continuation of a pending check proposes once its die is known. */
  function ContinuationEvents(s: GameState, facts: Facts, k: Continuation, result: CheckResult): Decision {
    match k
    case CombatAction(candidate, base) =>
      if facts.catalog.None? then Refused
      else
        var ability := if candidate.source.None? then None
          else AbilityByReference(facts.catalog.value, candidate.source.value);
        if candidate.source.Some? && ability.None? then Refused
        else ResolvedEvents(s, facts, candidate, ability, result.finalDegree, base)
    case DeathTest(_, character) => DeathTestEvents(s, facts, character, result.finalDegree)
    case ForChallenge(id) => ChallengeEvents(s, facts, id, result.finalDegree)
    case ForSocial(npc, requested, limit) => SocialEvents(s, npc, requested, limit, result.finalDegree)
    case ForRitual(id) => RitualEvents(s, facts, id, result.actorId, result.finalDegree)
  }

  /** The degree the stored disclosure shows for a face. */
  predicate Disclosed(d: Disclosure, face: int, degree: Degree) {
    1 <= face <= |d.degrees| && d.degrees[face - 1] == degree
  }

  function DecideSubmitDieResult(s: GameState, facts: Facts, checkId: Id, nonce: Id, face: int): Decision {
    match FindPending(s, checkId)
    case None => Refused
    case Some(i) =>
      var pending := s.pendingChecks[i];
      var result := Resolve(Rebuild(pending.disclosure), face);
      if pending.nonce != nonce || !Disclosed(pending.disclosure, face, result.finalDegree) then Refused
      else
        Both(Done([CheckResolvedPhysical(checkId, result)]),
             if pending.continuation.None? then Done([])
               else ContinuationEvents(s, facts, pending.continuation.value, result))
  }

  // ----- Heroes -----

  function OptionOf(catalog: Catalog, id: Id, category: OptionCategory): (r: Option<Definition>)
    ensures r.Some? ==> r.value.OptionDefinition?
  {
    match ById(catalog.definitions, id)
    case None => None
    case Some(d) => if d.OptionDefinition? && d.optionCategory == category && d.rank == 1 && d.production then Some(d)
      else None
  }

  function Signatures(catalog: Catalog, ids: seq<Id>): seq<Ability> {
    if ids == [] then []
    else
      var d := ById(catalog.definitions, ids[0]);
      (if d.Some? && d.value.AbilityDefinition? && d.value.ability.category.SignatureAbility? then [d.value.ability]
        else [])
      + Signatures(catalog, ids[1..])
  }

  function GuardGrants(es: seq<Effect>): seq<int> {
    if es == [] then []
    else
      (if es[0].AdjustResource? && es[0].resource.Guard? && es[0].onSelf && es[0].amount > 0 then [es[0].amount]
        else [])
      + GuardGrants(es[1..])
  }

  /** One slot of gear: named gear needs a gear definition, an empty slot must stay empty. */
  function ResolveGear(catalog: Catalog, named: bool, selection: Option<Ref>): Outcome<Gear> {
    if !named then if selection.None? then Done(NoGear) else Refused
    else if selection.None? then Refused
    else
      match AbilityByReference(catalog, selection.value)
      case None => Refused
      case Some(a) => if a.category.GearAbility? then Done(Ready(selection.value)) else Refused
  }

  function ResolveGears(catalog: Catalog, named: seq<bool>, selections: seq<Option<Ref>>): Outcome<seq<Gear>>
    requires |named| == |selections|
  {
    if named == [] then Done([])
    else
      match ResolveGear(catalog, named[0], selections[0])
      case Refused => Refused
      case Done(gear) =>
        match ResolveGears(catalog, named[1..], selections[1..])
        case Refused => Refused
        case Done(rest) => Done([gear] + rest)
  }

  predicate WholeFoundation(f: Foundation) {
    && |f.gearNamed| == 4
    && f.attributes.Keys == {Force, Finesse, Insight, Presence}
    && f.disciplines.Keys == {Athletics, Subterfuge, Craft, Lore, Vigilance, Influence, Survival, Mysticism}
    && (forall a :: a in f.attributes ==> 0 <= f.attributes[a] <= 2)
    && (forall d :: d in f.disciplines ==> 0 <= f.disciplines[d] <= 2)
  }

  function NewHero(f: Foundation, heritage: Ref, upbringing: Ref, archetype: Ref, signature: Ref, guard: int,
      gear: seq<Gear>): Character {
    Character(f.characterId, f.actorId, f.attributes, f.disciplines, 1,
              Options(heritage, upbringing, archetype, signature, None, None, None),
              guard, guard, EXERTION_MAXIMUM, [Empty, Empty, Empty], true, false,
              f.gearNamed, gear, [SceneUse(signature, false)], [])
  }

  function DecideMaterialize(s: GameState, facts: Facts, f: Foundation, selections: seq<Option<Ref>>): Decision {
    match PinnedCatalog(s, facts)
    case Refused => Refused
    case Done(catalog) =>
      if !WholeFoundation(f) || |selections| != 4 || |s.characters| >= 5
        || f.characterId in CharacterIds(s.characters) || f.actorId in ActorIds(s.characters) then Refused
      else
        var heritage := OptionOf(catalog, f.heritage, HeritageOption);
        var upbringing := OptionOf(catalog, f.upbringing, UpbringingOption);
        var archetype := OptionOf(catalog, f.archetype, ArchetypeOption);
        if heritage.None? || upbringing.None? || archetype.None? then Refused
        else
          var signatures, grants := Signatures(catalog, archetype.value.granted), GuardGrants(archetype.value.effects);
          if |signatures| != 1 || |grants| != 1 || archetype.value.archetypeGuard != Some(grants[0]) then Refused
          else
            match ResolveGears(catalog, f.gearNamed, selections)
            case Refused => Refused
            case Done(gear) =>
              var hero := NewHero(f, heritage.value.ref, upbringing.value.ref, archetype.value.ref, signatures[0].ref,
                grants[0], gear);
              if ValidCharacter(hero) then Done([CharacterMaterialized(hero)]) else Refused
  }

  /** A resource event for a party or hero resource moved by `delta`. */
  function MoveResource(s: GameState, hero: Character, resource: Resource, delta: int): Decision {
    match resource
    case Supply =>
      (match Transition(s.supply, delta, s.supplyMaximum)
       case Refused => Refused
       case Done(next) => Done([ResourceChanged(Party, Supply, s.supply, next)]))
    case Exertion =>
      (match Transition(hero.exertion, delta, EXERTION_MAXIMUM)
       case Refused => Refused
       case Done(next) => Done([ResourceChanged(Of(hero.characterId), Exertion, hero.exertion, next)]))
    case Guard =>
      (match Transition(hero.guard, delta, hero.guardMaximum)
       case Refused => Refused
       case Done(next) => Done([ResourceChanged(Of(hero.characterId), Guard, hero.guard, next)]))
  }

  function DecideSpendResource(s: GameState, id: Id, resource: Resource, amount: int): Decision {
    match FindCharacter(s, id)
    case None => Refused
    case Some(i) => if resource.Guard? then Refused else MoveResource(s, s.characters[i], resource, -amount)
  }

  function EffectsOf(d: Definition): seq<Effect> {
    match d
    case OptionDefinition(_, _, _, _, _, _, effects, _) => effects
    case AbilityDefinition(a) => a.effects
    case ConditionDefinition(_, effects) => effects
    case OverlayDefinition(_, _, _, effects) => effects
    case ObjectiveDefinition(_, _, effects) => effects
    case RitualDefinition(_, _, _, _, consequences) => ConsequenceEffects(consequences)
    case _ => []
  }

  function ConsequenceEffects(cs: seq<Consequence>): seq<Effect> {
    if cs == [] then [] else cs[0].effects + ConsequenceEffects(cs[1..])
  }

  function DecideRecoverResource(s: GameState, facts: Facts, id: Id, resource: Resource, amount: int,
      source: Ref): Decision {
    match PinnedCatalog(s, facts)
    case Refused => Refused
    case Done(catalog) =>
      match FindCharacter(s, id)
      case None => Refused
      case Some(i) =>
        match ByReference(catalog.definitions, source)
        case None => Refused
        case Some(d) =>
          if AdjustResource(resource, amount, !resource.Supply?) !in EffectsOf(d) then Refused
          else MoveResource(s, s.characters[i], resource, amount)
  }

  function DecideProvision(s: GameState): Decision {
    var n := |s.characters|;
    if n < 3 || n > 5 || s.supply != 0 || s.supplyMaximum != n + 2 then Refused
    else Done([ResourceChanged(Party, Supply, 0, n)])
  }

  function DecideRecoverSpark(s: GameState, id: Id): Decision {
    match FindCharacter(s, id)
    case None => Refused
    case Some(i) =>
      if s.characters[i].sparkRecovered || s.characters[i].sparkAvailable then Refused else Done([SparkRecovered(id)])
  }

  function DecideCostlyRest(s: GameState, ids: seq<Id>): Decision {
    if !(forall i :: 0 <= i < |ids| ==> ids[i] in CharacterIds(s.characters)) then Refused
    else if Transition(s.supply, -COSTLY_REST_SUPPLY_COST, s.supplyMaximum).Refused? then Refused
    else Done([CostlyRestCompleted(ids, COSTLY_REST_SUPPLY_COST)])
  }

  function DecideAdvanceScene(s: GameState, scene: Option<Id>, next: Id, boundary: Boundary): Decision {
    if scene != s.sceneId || (scene.None? && !boundary.SessionStart?) || scene == Some(next) then Refused
    else Done([SceneResourcesReset(scene, next, boundary, CharacterIds(s.characters))])
  }

  function OwnedRefs(c: Character): seq<Ref> {
    OptionRefs(c.options) + ReadyGear(c.gear)
  }

  predicate PrerequisiteMet(c: Character, rank: int, p: Prerequisite) {
    match p
    case NeedsRank(minimum) => rank >= minimum
    case NeedsArchetype(required) => c.options.archetype == required
    case NeedsContent(required) => required in OwnedRefs(c)
  }

  predicate FeatureForRank(category: OptionCategory, rank: int) {
    (rank == 2 && category.PathOption?) || (rank == 3 && category.TalentOption?)
      || (rank == 4 && category.CapstoneOption?)
  }

  function DecideAdvanceRank(s: GameState, facts: Facts, id: Id, expected: int, feature: Ref): Decision {
    match PinnedCatalog(s, facts)
    case Refused => Refused
    case Done(catalog) =>
      match FindCharacter(s, id)
      case None => Refused
      case Some(i) =>
        var c := s.characters[i];
        match ByReference(catalog.definitions, feature)
        case None => Refused
        case Some(d) =>
          if c.rank != expected || !d.OptionDefinition? || !FeatureForRank(d.optionCategory, c.rank + 1)
            || d.rank != c.rank + 1
            || (exists r :: r in OwnedRefs(c) && r.definitionId == feature.definitionId)
            || !(forall k :: 0 <= k < |d.prerequisites| ==> PrerequisiteMet(c, c.rank + 1, d.prerequisites[k]))
              then Refused
          else Done([RankAdvanced(id, c.rank, c.rank + 1, feature)])
  }

  // ----- All commands -----

  datatype CommandGroup = HeroCommand | CombatCommand | SceneCommand

  function CommandGroupOf(command: Command): CommandGroup {
    match command
    case StartCombatCommand(_) => CombatCommand
    case ChooseHeroActivation(_, _) => CombatCommand
    case ExecuteCombatAction(_, _, _) => CombatCommand
    case SelectEnemyFallback(_, _) => CombatCommand
    case WithdrawFromCombat(_) => CombatCommand
    case OpenReactionWindow(_, _, _) => CombatCommand
    case ResolveReaction(_, _, _, _) => CombatCommand
    case AidDeathTestCommand(_, _, _, _) => CombatCommand
    case SubmitDieResult(_, _, _) => CombatCommand
    case StartChallenge(_) => SceneCommand
    case AdvanceChallenge(_, _) => SceneCommand
    case EstablishSocialState(_) => SceneCommand
    case AttemptSocialShift(_, _, _, _) => SceneCommand
    case CreateLeverage(_, _) => SceneCommand
    case SpendLeverage(_, _) => SceneCommand
    case StartRitual(_, _) => SceneCommand
    case ContributeRitual(_, _, _) => SceneCommand
    case ResolveRitualCommand(_, _) => SceneCommand
    case InterruptRitualCommand(_) => SceneCommand
    case _ => HeroCommand
  }

  function DecideHero(s: GameState, facts: Facts, command: Command): Decision
  {
    match command
    case ResolveCheck(attempt) => DecideResolveCheck(s, facts, attempt)
    case MaterializeCharacter(foundation, selections) => DecideMaterialize(s, facts, foundation, selections)
    case ProvisionStartingSupply => DecideProvision(s)
    case SpendResource(id, resource, amount) => DecideSpendResource(s, id, resource, amount)
    case RecoverResource(id, resource, amount, source) => DecideRecoverResource(s, facts, id, resource, amount, source)
    case RecoverSparkComplication(id) => DecideRecoverSpark(s, id)
    case TakeCostlyRest(ids) => DecideCostlyRest(s, ids)
    case AdvanceScene(scene, next, boundary) => DecideAdvanceScene(s, scene, next, boundary)
    case AdvanceRankCommand(id, expected, feature) => DecideAdvanceRank(s, facts, id, expected, feature)
    case _ => Refused
  }

  ghost function DecideCombat(s: GameState, facts: Facts, command: Command): Decision
  {
    match command
    case StartCombatCommand(c) => DecideStartCombat(s, facts, c)
    case ChooseHeroActivation(combat, actor) => DecideChooseHeroActivation(s, combat, actor)
    case ExecuteCombatAction(combat, action, spark) => DecideExecuteCombatAction(s, facts, combat, action, spark)
    case SelectEnemyFallback(combat, actor) => DecideSelectEnemyFallback(s, facts, combat, actor)
    case WithdrawFromCombat(combat) => DecideWithdraw(s, combat)
    case OpenReactionWindow(combat, window, actor) => DecideOpenReactionWindow(s, combat, window, actor)
    case ResolveReaction(combat, window, actor, action) => DecideResolveReaction(s, facts, combat, window, actor,
      action)
    case AidDeathTestCommand(combat, check, aiding, resource) => DecideAidDeathTest(s, combat, check, aiding, resource)
    case SubmitDieResult(check, nonce, face) => DecideSubmitDieResult(s, facts, check, nonce, face)
    case _ => Refused
  }

  function DecideScene(s: GameState, facts: Facts, command: Command): Decision
  {
    match command
    case StartChallenge(c) => DecideStartChallenge(s, facts, c)
    case AdvanceChallenge(id, attempt) => DecideAdvanceChallenge(s, facts, id, attempt)
    case EstablishSocialState(social) => DecideEstablishSocial(s, facts, social)
    case AttemptSocialShift(npc, attempt, requested, limit) =>
      DecideAttemptSocialShift(s, facts, npc, attempt, requested, limit)
    case CreateLeverage(npc, leverage) => DecideCreateLeverage(s, npc, leverage)
    case SpendLeverage(npc, leverage) => DecideSpendLeverage(s, npc, leverage)
    case StartRitual(r, tags) => DecideStartRitual(s, facts, r, tags)
    case ContributeRitual(id, character, index) => DecideContributeRitual(s, id, character, index)
    case ResolveRitualCommand(id, attempt) => DecideResolveRitual(s, facts, id, attempt)
    case InterruptRitualCommand(id) => DecideInterruptRitual(s, id)
    case _ => Refused
  }

  /** `decideCommand`. */
  ghost function Decide(s: GameState, facts: Facts, command: Command): Decision {
    match CommandGroupOf(command)
    case HeroCommand => DecideHero(s, facts, command)
    case CombatCommand => DecideCombat(s, facts, command)
    case SceneCommand => DecideScene(s, facts, command)
  }
}
