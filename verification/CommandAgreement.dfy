/** Whatever command is accepted, in whatever state a campaign can reach: exactly when its events are applied. */
module CommandAgreement {
  import opened Common
  import opened State
  import opened Validity
  import opened Events
  import opened Reducer
  import opened Undo
  import opened Checks
  import opened Content
  import opened CombatRules
  import opened CombatDecisions
  import opened Reactions
  import opened Subsystems
  import opened Commands
  import opened Vitals
  import opened Forms
  import opened Sessions
  import opened TurnOrder
  import opened Liveness
  import opened CampaignRuns
  import opened RitualPayment
  import opened SubsystemAgreement
  import opened ReactionPriority
  import opened EffectAgreement
  import opened CombatAgreement
  import opened ReactionAgreement
  import opened ContinuationAgreement
  import opened HeroAgreement

  /** A check within its schema, asked for with a reason that may be asked for. */
  predicate WellFormedAttempt(a: Attempt) {
    ValidRequest(a.request) && a.physicalReason != Some(SparkInvocation)
  }

  predicate WellFormedCommand(command: Command) {
    match command
    case ResolveCheck(a) => WellFormedAttempt(a)
    case AdvanceChallenge(_, a) => WellFormedAttempt(a)
    case AttemptSocialShift(_, a, _, _) => WellFormedAttempt(a)
    case ResolveRitualCommand(_, a) => WellFormedAttempt(a)
    case _ => true
  }

  /** What the reducer asks of the events of a command that the decider has not looked at. */
  predicate Applicable(s: GameState, command: Command, es: seq<Event>) {
    match command
    case ResolveCheck(_) => RequestsFit(s, es)
    case AdvanceChallenge(_, _) => RequestsFit(s, es)
    case AttemptSocialShift(_, _, _, _) => RequestsFit(s, es)
    case ResolveRitualCommand(_, _) => RequestsFit(s, es)
    case ExecuteCombatAction(_, _, _) => RoomFor(s, es) && SparkFits(s, es) && EffectsFit(s, es)
    case ResolveReaction(_, _, actor, _) => RoomFor(s, es) && EffectsFit(Reacting(s, actor), es)
    case OpenReactionWindow(_, _, _) => WindowsFit(es)
    case SubmitDieResult(check, _, _) => DieFits(s, check, es)
    case StartChallenge(_) => |s.challenges| < 16
    case EstablishSocialState(_) => |s.socials| < 32
    case StartRitual(r, _) => |s.rituals| < 16 && ValidRitual(r)
    case ContributeRitual(id, payer, _) => MayContribute(s, id, payer)
    case _ => true
  }

  /** At most ten may react. */
  predicate WindowsFit(es: seq<Event>) {
    forall e :: e in es && e.ReactionWindowOpened? ==> |e.window.eligible| <= 10
  }

  /** The continuation of the check still fits once the check is off the list. */
  predicate DieFits(s: GameState, check: Id, es: seq<Event>) {
    match PendingOf(s, check)
    case None => false
    case Some(p) =>
      match ResolvePhysical(s, check)
      case Refused => false
      case Done(t) => GoesOnAfter(t, p.continuation, Tail(es))
  }

  predicate MayContribute(s: GameState, id: Id, payer: Id) {
    match FindRitual(s, id)
    case None => false
    case Some(j) => MayJoin(s.rituals[j], payer)
  }

  /** What is assumed of the state and of the facts supplied with a command. */
  predicate Assumed(s: GameState, facts: Facts, command: Command) {
    FreshFacts(s, facts) && EnemiesApart(s) && CatalogFits(facts) && WellFormedCommand(command)
  }

  // ----- Heroes -----

  lemma HeroExactly(s: GameState, facts: Facts, command: Command, es: seq<Event>)
    requires ValidGameState(s) && Assumed(s, facts, command) && DecideHero(s, facts, command) == Done(es)
    ensures Fold(s, es).Done? <==> Applicable(s, command, es)
  {
    hide ValidGameState, Fold, DecideResolveCheck, DecideMaterialize, DecideProvision, DecideSpendResource,
         DecideRecoverResource, DecideRecoverSpark, DecideCostlyRest, DecideAdvanceScene, DecideAdvanceRank,
         RequestsFit, EnemiesApart, CatalogFits, ValidRequest, CheckIds, Nonces;
    match command
    case ResolveCheck(a) => ResolveCheckExactly(s, facts, a, es);
    case MaterializeCharacter(foundation, selections) => MaterializeAgrees(s, facts, foundation, selections, es);
    case ProvisionStartingSupply => ProvisionAgrees(s, es);
    case SpendResource(id, resource, amount) => SpendAgrees(s, id, resource, amount, es);
    case RecoverResource(id, resource, amount, source) => RecoverAgrees(s, facts, id, resource, amount, source, es);
    case RecoverSparkComplication(id) => RecoverSparkAgrees(s, id, es);
    case TakeCostlyRest(ids) => RestAgrees(s, ids, es);
    case AdvanceScene(scene, next, boundary) => SceneAgrees(s, scene, next, boundary, es);
    case AdvanceRankCommand(id, expected, feature) => RankAgrees(s, facts, id, expected, feature, es);
  }

  // ----- Fights -----

  lemma WindowExactly(s: GameState, combatId: Id, windowId: Id, triggering: Id, es: seq<Event>)
    requires ValidGameState(s) && DecideOpenReactionWindow(s, combatId, windowId, triggering) == Done(es)
    ensures Fold(s, es).Done? <==> WindowsFit(es)
  {
    hide ValidGameState, Fold, Reactors, IndexOf;
    WindowAppliesExactly(s, combatId, windowId, triggering);
    assert es[0] in es;
  }

  lemma CatalogOf(facts: Facts)
    requires CatalogFits(facts) && facts.catalog.Some?
    ensures WellFormedCatalog(facts.catalog.Get())
  {
    hide WellFormedCatalog;
  }

  lemma ExecutionExactly(s: GameState, facts: Facts, combatId: Id, id: Id, spark: bool, es: seq<Event>)
    requires ValidGameState(s) && FreshFacts(s, facts) && EnemiesApart(s) && CatalogFits(facts)
    requires DecideExecuteCombatAction(s, facts, combatId, id, spark) == Done(es)
    ensures Fold(s, es).Done? <==> RoomFor(s, es) && SparkFits(s, es) && EffectsFit(s, es)
  {
    hide ValidGameState, Fold, FreshFacts, EnemiesApart, CatalogFits, RoomFor, SparkFits, EffectsFit,
         EnumerateActions, ExecuteCandidate, WithId;
    CatalogOf(facts);
    ExecuteAgreesExactly(s, facts, facts.catalog.value, combatId, id, spark, es);
  }

  lemma ReactionDecidedExactly(s: GameState, facts: Facts, combatId: Id, windowId: Id, actor: Id, id: Option<Id>,
      es: seq<Event>)
    requires ValidGameState(s) && FreshFacts(s, facts) && EnemiesApart(s) && CatalogFits(facts) && TurnSteady(s)
    requires DecideResolveReaction(s, facts, combatId, windowId, actor, id) == Done(es)
    ensures Fold(s, es).Done? <==> RoomFor(s, es) && EffectsFit(Reacting(s, actor), es)
  {
    hide ValidGameState, Fold, FreshFacts, EnemiesApart, CatalogFits, RoomFor, EffectsFit, Reacting, TurnSteady,
         EnumerateReactions, ReactionEvents, WithId;
    CatalogOf(facts);
    ReactionAgreesExactly(s, facts, facts.catalog.value, combatId, windowId, actor, id, es);
  }

  lemma DieExactly(s: GameState, facts: Facts, check: Id, nonce: Id, face: int, es: seq<Event>)
    requires ValidGameState(s) && FreshFacts(s, facts) && EnemiesApart(s) && CatalogFits(facts) && AllAwaited(s)
    requires DecideSubmitDieResult(s, facts, check, nonce, face) == Done(es)
    ensures Fold(s, es).Done? <==> DieFits(s, check, es)
  {
    hide ValidGameState, Fold, FreshFacts, EnemiesApart, CatalogFits, AllAwaited, DecideSubmitDieResult, PendingOf,
         ResolvePhysical, GoesOnAfter;
    var p, t := SubmitAgreesExactly(s, facts, check, nonce, face, es);
  }

  lemma FightExactly(s: GameState, facts: Facts, command: Command, es: seq<Event>)
    requires ValidGameState(s) && Assumed(s, facts, command) && TurnSteady(s) && AllAwaited(s)
    requires DecideCombat(s, facts, command) == Done(es)
    ensures Fold(s, es).Done? <==> Applicable(s, command, es)
  {
    hide ValidGameState, Fold, DecideStartCombat, DecideChooseHeroActivation, DecideExecuteCombatAction,
         DecideSelectEnemyFallback, DecideWithdraw, DecideOpenReactionWindow, DecideResolveReaction,
         DecideAidDeathTest, DecideSubmitDieResult, FreshFacts, EnemiesApart, CatalogFits, RoomFor, SparkFits,
         EffectsFit, Reacting, WindowsFit, DieFits, TurnSteady, AllAwaited;
    match command
    case StartCombatCommand(c) => StartAgrees(s, facts, c, es);
    case ChooseHeroActivation(combat, actor) => ActivationAgrees(s, facts, combat, actor);
    case SelectEnemyFallback(combat, actor) => ActivationAgrees(s, facts, combat, actor);
    case ExecuteCombatAction(combat, id, spark) => ExecutionExactly(s, facts, combat, id, spark, es);
    case WithdrawFromCombat(combat) => WithdrawAgrees(s, combat, es);
    case OpenReactionWindow(combat, window, actor) => WindowExactly(s, combat, window, actor, es);
    case ResolveReaction(combat, window, actor, id) => ReactionDecidedExactly(s, facts, combat, window, actor, id, es);
    case AidDeathTestCommand(combat, check, aiding, aid) => AidAgrees(s, combat, check, aiding, aid, es);
    case SubmitDieResult(check, nonce, face) => DieExactly(s, facts, check, nonce, face, es);
  }

  // ----- Challenges, social scenes and rituals -----

  lemma QuiescentFits(s: GameState, es: seq<Event>)
    requires Quiescent(es)
    ensures RequestsFit(s, es)
  {
    hide MayRequest, Harmless, SlotEvent;
    forall e | e in es ensures !e.PhysicalRollRequested? {
      var i :| 0 <= i < |es| && es[i] == e;
      HarmlessAsksNothing(es[i]);
    }
  }

  lemma HarmlessAsksNothing(e: Event)
    requires Harmless(e)
    ensures !e.PhysicalRollRequested?
  {}

  lemma SimulatedFits(s: GameState, result: CheckResult, es: seq<Event>)
    requires Quiescent(es)
    ensures RequestsFit(s, [CheckResolvedSimulated(result)] + es)
  {
    hide RequestsFit, AllHarmless, Slotless;
    SimulatedIsHarmless(result);
    SingleQuiescent(CheckResolvedSimulated(result));
    QuiescentJoin([CheckResolvedSimulated(result)], es);
    QuiescentFits(s, [CheckResolvedSimulated(result)] + es);
  }

  lemma SimulatedIsHarmless(result: CheckResult)
    ensures Harmless(CheckResolvedSimulated(result)) && !SlotEvent(CheckResolvedSimulated(result))
  {}

  lemma SimulatedAttempt(s: GameState, facts: Facts, a: Attempt, result: CheckResult)
    requires AttemptCheck(s, facts, a) == ResolvedAtOnce(result) && WellFormedAttempt(a)
    ensures a.physicalReason.None? && !a.invokeSpark
  {
    hide Resolve, CheckActorFits, SelectPhysicalRoll;
    SimulatedExactly(a.request, if a.physicalReason.Some? then [a.physicalReason.value] else [], a.invokeSpark);
  }

  lemma ChallengeExactly(s: GameState, facts: Facts, id: Id, a: Attempt, es: seq<Event>)
    requires ValidGameState(s) && FreshCheck(s, facts) && CatalogFits(facts) && WellFormedAttempt(a)
    requires DecideAdvanceChallenge(s, facts, id, a) == Done(es)
    ensures Fold(s, es).Done? <==> RequestsFit(s, es)
  {
    hide ValidGameState, Fold, FreshCheck, CatalogFits, ValidRequest, RequestsFit, AttemptCheck, ChallengeEvents,
         IndexOf, ChallengePending, Quiescent, Moved, OutcomeOf;
    CatalogOf(facts);
    match AttemptCheck(s, facts, a)
    case Waiting(events, check) => WaitingExactly(s, facts, a, events, check, ChallengeCheckPending(id, check));
    case ResolvedAtOnce(result) =>
      SimulatedAttempt(s, facts, a, result);
      var i, r, effect := AdvanceChallengeAgrees(s, facts, facts.catalog.value, id, a, es);
      ChallengeEventsQuiescent(s, facts, id, result.finalDegree);
      SimulatedFits(s, result, ChallengeEvents(s, facts, id, result.finalDegree).value);
  }

  lemma ShiftExactly(s: GameState, facts: Facts, npc: Id, a: Attempt, requested: Stance, limit: Option<Id>,
      es: seq<Event>)
    requires ValidGameState(s) && FreshCheck(s, facts) && WellFormedAttempt(a)
    requires DecideAttemptSocialShift(s, facts, npc, a, requested, limit) == Done(es)
    ensures Fold(s, es).Done? <==> RequestsFit(s, es)
  {
    hide ValidGameState, Fold, FreshCheck, ValidRequest, RequestsFit, AttemptCheck, SocialEvents, IndexOf,
         SocialPending, Quiescent, Gap;
    match AttemptCheck(s, facts, a)
    case Waiting(events, check) =>
      WaitingExactly(s, facts, a, events, check, SocialCheckPending(npc, check, requested, limit));
    case ResolvedAtOnce(result) =>
      SimulatedAttempt(s, facts, a, result);
      var i, r, stance := SocialShiftAgrees(s, facts, npc, a, requested, limit);
      SocialEventsQuiescent(s, npc, requested, limit, result.finalDegree);
      SimulatedFits(s, result, SocialEvents(s, npc, requested, limit, result.finalDegree).value);
  }

  lemma RitualExactly(s: GameState, facts: Facts, id: Id, a: Attempt, es: seq<Event>)
    requires ValidGameState(s) && FreshCheck(s, facts) && WellFormedAttempt(a)
    requires DecideResolveRitual(s, facts, id, a) == Done(es)
    ensures Fold(s, es).Done? <==> RequestsFit(s, es)
  {
    hide ValidGameState, Fold, FreshCheck, ValidRequest, RequestsFit, AttemptCheck, RitualEvents, IndexOf, Quiescent,
         ConsequenceOf, Projected, Final, AdjustmentAllowed;
    match AttemptCheck(s, facts, a)
    case Waiting(events, check) => WaitingExactly(s, facts, a, events, check, RitualCheckPending(id, check));
    case ResolvedAtOnce(result) =>
      SimulatedAttempt(s, facts, a, result);
      var i, consequence := ResolveRitualAgrees(s, facts, id, a);
      RitualEventsQuiescent(s, facts, id, result.actorId, result.finalDegree);
      SimulatedFits(s, result, RitualEvents(s, facts, id, result.actorId, result.finalDegree).value);
  }

  lemma ContributionDecidedExactly(s: GameState, id: Id, payer: Id, index: int, es: seq<Event>)
    requires ValidGameState(s) && DecideContributeRitual(s, id, payer, index) == Done(es)
    ensures Fold(s, es).Done? <==> MayContribute(s, id, payer)
  {
    hide ValidGameState, Fold, DecideContributeRitual, MayJoin, CanPay, Recorded, IndexOf;
    var j, h := ContributeRitualAgrees(s, id, payer, index);
  }

  lemma FreshForCheck(s: GameState, facts: Facts)
    requires FreshFacts(s, facts)
    ensures FreshCheck(s, facts)
  {}

  lemma SceneExactly(s: GameState, facts: Facts, command: Command, es: seq<Event>)
    requires ValidGameState(s) && Assumed(s, facts, command) && DecideScene(s, facts, command) == Done(es)
    ensures Fold(s, es).Done? <==> Applicable(s, command, es)
  {
    hide ValidGameState, Fold, DecideStartChallenge, DecideAdvanceChallenge, DecideEstablishSocial,
         DecideAttemptSocialShift, DecideCreateLeverage, DecideSpendLeverage, DecideStartRitual,
         DecideContributeRitual, DecideResolveRitual, DecideInterruptRitual, FreshFacts, EnemiesApart, CatalogFits,
         RequestsFit, MayContribute, ValidRitual, ValidRequest, FreshCheck, WithSocial, WithRitual;
    FreshForCheck(s, facts);
    match command
    case StartChallenge(c) => StartChallengeAgrees(s, facts, c);
    case AdvanceChallenge(id, a) => ChallengeExactly(s, facts, id, a, es);
    case EstablishSocialState(social) => EstablishSocialAgrees(s, facts, social);
    case AttemptSocialShift(npc, a, requested, limit) => ShiftExactly(s, facts, npc, a, requested, limit, es);
    case CreateLeverage(npc, leverage) => var i := CreateLeverageAgrees(s, npc, leverage);
    case SpendLeverage(npc, leverage) => var i, left := SpendLeverageAgrees(s, npc, leverage);
    case StartRitual(r, tags) => StartRitualAgrees(s, facts, r, tags);
    case ContributeRitual(id, payer, index) => ContributionDecidedExactly(s, id, payer, index, es);
    case ResolveRitualCommand(id, a) => RitualExactly(s, facts, id, a, es);
    case InterruptRitualCommand(id) => var j := InterruptRitualAgrees(s, id);
  }

  // ----- Every command -----

  /** Whatever command is accepted, the reducer applies its events exactly when it is applicable. */
  lemma DecidedExactly(s: GameState, facts: Facts, command: Command, es: seq<Event>)
    requires ValidGameState(s) && Assumed(s, facts, command) && TurnSteady(s) && AllAwaited(s)
    requires Decide(s, facts, command) == Done(es)
    ensures Fold(s, es).Done? <==> Applicable(s, command, es)
  {
    hide ValidGameState, Fold, DecideHero, DecideCombat, DecideScene, CommandGroupOf, Assumed, Applicable, TurnSteady,
         AllAwaited;
    match CommandGroupOf(command)
    case HeroCommand => HeroExactly(s, facts, command, es);
    case CombatCommand => FightExactly(s, facts, command, es);
    case SceneCommand => SceneExactly(s, facts, command, es);
  }

  /** In every run, undo included: the decider proposes what the reducer applies exactly then. */
  lemma AgreementInEveryRun(manifest: nat, actions: seq<Action>, s: GameState, facts: Facts, command: Command,
      es: seq<Event>)
    requires Run(NewCampaign(manifest), actions).state == s && Assumed(s, facts, command)
    requires Decide(s, facts, command) == Done(es)
    ensures Fold(s, es).Done? <==> Applicable(s, command, es)
  {
    hide Run, Kept, SlotsMatch, Decide, Fold, Applicable, Assumed, TurnSteady, AllAwaited, ActionsAwaited,
         ValidGameState;
    NewCampaignKept(manifest);
    NewIsSteady(manifest);
    NothingPending(manifest);
    RunActs(NewCampaign(manifest), actions);
    RunAwaits(NewCampaign(manifest), actions);
    KeptIsValid(Run(NewCampaign(manifest), actions));
    AllWaitedFor(s);
    DecidedExactly(s, facts, command, es);
  }

  /** In every run, undo included: whatever reaction is accepted is applied, exactly with that room. */
  lemma ReactionsInEveryRun(manifest: nat, actions: seq<Action>, s: GameState, facts: Facts, catalog: Catalog,
      combatId: Id, windowId: Id, actor: Id, id: Option<Id>, es: seq<Event>)
    requires Run(NewCampaign(manifest), actions).state == s
    requires facts.catalog == Some(catalog) && WellFormedCatalog(catalog) && FreshFacts(s, facts) && EnemiesApart(s)
    requires DecideResolveReaction(s, facts, combatId, windowId, actor, id) == Done(es)
    ensures Fold(s, es).Done? <==> RoomFor(s, es) && EffectsFit(Reacting(s, actor), es)
  {
    hide Run, Kept, SlotsMatch, DecideResolveReaction, WellFormedCatalog, FreshFacts, EnemiesApart, RoomFor, Apply,
         TurnSteady, ValidGameState, EffectsFit, Reacting, Fold, NewCampaign;
    NewCampaignKept(manifest);
    RunKeeps(NewCampaign(manifest), actions);
    NewIsSteady(manifest);
    RunActs(NewCampaign(manifest), actions);
    KeptIsValid(Run(NewCampaign(manifest), actions));
    ReactionAgreesExactly(s, facts, catalog, combatId, windowId, actor, id, es);
  }

  lemma WaitedAt(s: GameState, i: nat)
    requires ActionsAwaited(s) && (s.combat.Some? ==> StatusSound(s.combat.value)) && i < |s.pendingChecks|
    ensures Awaited(s, i)
  {
    assert FightWaits(AwaitedOf(s), s.pendingChecks[i]);
  }

  lemma AllWaitedFor(s: GameState)
    requires ValidGameState(s) && ActionsAwaited(s)
    ensures AllAwaited(s)
  {
    hide ValidGameState, Awaited, ActionsAwaited;
    StatusIsSound(s);
    forall i: nat | i < |s.pendingChecks| ensures Awaited(s, i) {
      WaitedAt(s, i);
    }
  }

  /** In every run, undo included: the die of whatever check is pending resolves and its continuation is applied,
      exactly under that condition. */
  lemma SubmitsInEveryRun(manifest: nat, actions: seq<Action>, s: GameState, facts: Facts, checkId: Id, nonce: Id,
      face: int, es: seq<Event>) returns (p: PendingCheck, t: GameState)
    requires Run(NewCampaign(manifest), actions).state == s
    requires FreshFacts(s, facts) && EnemiesApart(s) && CatalogFits(facts)
    requires DecideSubmitDieResult(s, facts, checkId, nonce, face) == Done(es)
    ensures PendingOf(s, checkId) == Some(p) && ResolvePhysical(s, checkId) == Done(t)
    ensures es != [] && (Fold(s, es).Done? <==> GoesOnAfter(t, p.continuation, Tail(es)))
  {
    hide Run, Kept, DecideSubmitDieResult, CatalogFits, FreshFacts, EnemiesApart, GoesOnAfter, Apply, ActionsAwaited,
         Awaited, ValidGameState, ResolvePhysical, IndexOf, Fold;
    NewCampaignKept(manifest);
    NothingPending(manifest);
    RunAwaits(NewCampaign(manifest), actions);
    KeptIsValid(Run(NewCampaign(manifest), actions));
    AllWaitedFor(s);
    p, t := SubmitAgreesExactly(s, facts, checkId, nonce, face, es);
  }
}
