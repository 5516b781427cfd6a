/** The events of the event store. */
module Events {
  import opened Common
  import opened ZoneGraph
  import opened State

  datatype Resource = Guard | Exertion | Supply

  datatype Owner = Party | Of(characterId: Id)

  datatype CombatOutcome = HeroesPrevailed | HeroesWithdrew | HeroesDefeated

  datatype Boundary = SceneBoundary | SessionStart | SessionEnd

  datatype Event =
    // What changes no state.
    | CommandAccepted
    | CommandRejected
    | EnemyActionSelected(candidate: Candidate, tieBreak: Option<int>)
    | TransactionCompensated
    // Checks.
    | CheckResolvedSimulated(result: CheckResult)
    | CheckResolvedPhysical(checkId: Id, result: CheckResult)
    | PhysicalRollRequested(checkId: Id, nonce: Id, disclosure: Disclosure)
    | PhysicalRollCancelled(checkId: Id)
    | SparkSpent(actorId: Id)
    | SparkRestored(actorId: Id)
    // Heroes and their resources.
    | CharacterMaterialized(character: Character)
    | SignificantGearSpent(characterId: Id, slot: nat, definition: Ref, ritualId: Id)
    | ResourceChanged(owner: Owner, resource: Resource, previous: int, current: int)
    | SparkRecovered(characterId: Id)
    | CostlyRestCompleted(characterIds: seq<Id>, supplySpent: int)
    | SceneResourcesReset(sceneId: Option<Id>, nextSceneId: Id, boundary: Boundary, characterIds: seq<Id>)
    | RankAdvanced(characterId: Id, previousRank: int, currentRank: int, feature: Ref)
    | SceneAbilityUsed(characterId: Id, ability: Ref)
    | ConditionApplied(characterId: Id, condition: Condition)
    | ConditionRemoved(characterId: Id, conditionId: Id)
    // Combat.
    | CombatStarted(combat: Combat)
    | ActivationStarted(combatId: Id, actorId: Id, side: Side)
    | ActionSlotSpent(combatId: Id, actorId: Id, spentSlot: Slot)
    | ActionSlotRestored(combatId: Id, actorId: Id, spentSlot: Slot)
    | ActorMoved(combatId: Id, actorId: Id, fromZone: ZoneId, toZone: ZoneId)
    | CombatActionPending(combatId: Id, checkId: Id, candidate: Candidate, baseImpact: Option<int>)
    | DeathTestPending(combatId: Id, checkId: Id, characterId: Id)
    | ImpactApplied(combatId: Id, targetActorId: Id, impact: int, triumphBonus: int, armorReduction: int,
        applied: int, guardBefore: int, guardAfter: int)
    | WoundMarked(characterId: Id, wounds: seq<Wound>)
    | ReactionWindowOpened(window: Window)
    | ReactionWindowClosed
    | ReactionRestored(actorId: Id)
    | RoundAdvanced(previousRound: int, currentRound: int)
    | BossOverlayActivated(overlay: Overlay, guardBefore: int, guardAfter: int)
    | ObjectiveAdvanced(objectiveId: Id, previous: int, current: int, objectiveStatus: ObjectiveStatus)
    | DeathTestAidApplied(checkId: Id, disclosure: Disclosure)
    | HeroStabilized(characterId: Id, wounds: seq<Wound>)
    | PermanentScarGained(scarId: Id, characterId: Id)
    | CharacterDied(characterId: Id)
    | CombatResolved(combatOutcome: CombatOutcome)
    // Challenges, social scenes and rituals.
    | ChallengeStarted(challenge: Challenge)
    | ChallengeCheckPending(challengeId: Id, checkId: Id)
    | ChallengeTracksChanged(challengeId: Id, progressBefore: int, progressAfter: int,
        dangerBefore: int, dangerAfter: int, challengeStatus: ChallengeStatus)
    | ChallengeResolved(challengeId: Id, challengeStatus: ChallengeStatus)
    | SocialStateEstablished(social: Social)
    | SocialCheckPending(npcActorId: Id, checkId: Id, requestedStance: Stance, challengedLimitId: Option<Id>)
    | SocialStanceChanged(npcActorId: Id, before: Stance, after: Stance, degree: Degree)
    | LeverageCreated(npcActorId: Id, leverageId: Id)
    | LeverageSpent(npcActorId: Id, leverageId: Id)
    | RitualStarted(ritual: Ritual)
    | RitualCheckPending(ritualId: Id, checkId: Id)
    | RitualContribution(ritualId: Id, characterId: Id, paidIndex: int)
    | BecameReady(ritualId: Id)
    | RitualResolved(ritualId: Id, degree: Degree, outcome: RitualStatus)
    | RitualInterrupted(ritualId: Id)
}
