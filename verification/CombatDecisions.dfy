/** The combat commands: what they propose, and when they are rejected. */
module CombatDecisions {
  import opened Common
  import opened State
  import opened Validity
  import opened Events
  import opened Reducer
  import opened Checks
  import opened Content
  import opened CombatRules

  type Decision = Outcome<seq<Event>>

  /** The active combat a command names. */
  function CombatFor(s: GameState, combatId: Id): (r: Outcome<Combat>)
    ensures r.Done? ==> s.combat == Some(r.value) && r.value.status.Active? && r.value.combatId == combatId
  {
    if !InCombat(s, combatId) || !s.combat.value.status.Active? then Refused else Done(s.combat.value)
  }

  // ----- Starting, activating, withdrawing -----

  predicate FreshParticipant(p: Participant) {
    && p.actionAvailable && p.maneuverAvailable && p.reactionAvailable
    && (p.activationSpent <==> p.role.Enemy? && !p.role.trigger.AtOnce?)
  }

  predicate LivingHero(s: GameState, actor: Id) {
    match FindActor(s, actor)
    case None => false
    case Some(i) => s.characters[i].characterId !in s.deaths
  }

  predicate ParticipantMatches(s: GameState, catalog: Catalog, p: Participant) {
    if p.role.Hero? then LivingHero(s, p.actorId)
    else
      match ByReference(catalog.definitions, p.role.definition)
      case None => false
      case Some(d) =>
        && d.EnemyDefinition? && d.boss == p.role.boss && d.guard == p.role.guardMaximum
        && p.role.guard == p.role.guardMaximum && d.armor == p.role.armor
  }

  predicate ObjectiveMatches(catalog: Catalog, o: Objective) {
    match ByReference(catalog.definitions, o.definition)
    case None => false
    case Some(d) => d.ObjectiveDefinition? && d.threshold == o.threshold && o.progress == 0 && o.status.ObjectiveActive?
  }

  predicate OverlayMatches(catalog: Catalog, c: Combat, o: Overlay) {
    match ByReference(catalog.definitions, o.definition)
    case None => false
    case Some(d) =>
      && d.OverlayDefinition? && !o.active
      && (match FindParticipant(c, o.actorId)
          case None => false
          case Some(i) => c.participants[i].role.Enemy? && c.participants[i].role.boss)
      && (match IndexOf(ObjectiveIds(c.objectives), o.objectiveId)
          case None => false
          case Some(i) => c.objectives[i].definition.definitionId == d.objective.definitionId)
  }

  ghost function DecideStartCombat(s: GameState, facts: Facts, c: Combat): Decision {
    match PinnedCatalog(s, facts)
    case Refused => Refused
    case Done(catalog) =>
      if s.combat.Some? || !ValidCombat(c)
        || !c.status.Active? || c.round != 1 || !c.activeSide.HeroSide? || c.activeActor.Some?
        || c.window.Some? || c.pendingDeath.Some? || c.pendingAction.Some?
        || !(forall i :: 0 <= i < |c.participants| ==>
          FreshParticipant(c.participants[i]) && ParticipantMatches(s, catalog, c.participants[i]))
        || !(forall i :: 0 <= i < |c.objectives| ==> ObjectiveMatches(catalog, c.objectives[i]))
        || !(forall i :: 0 <= i < |c.overlays| ==> OverlayMatches(catalog, c, c.overlays[i])) then Refused
      else Done([CombatStarted(c)])
  }

  function DecideChooseHeroActivation(s: GameState, combatId: Id, actor: Id): Decision {
    match CombatFor(s, combatId)
    case Refused => Refused
    case Done(c) =>
      match FindParticipant(c, actor)
      case None => Refused
      case Some(i) => if !c.participants[i].role.Hero? then Refused else ActivationEvents(s, c, c.participants[i])
  }

  /** `Math.max` over the scores. */
  function BestScore(cs: seq<Candidate>): int
    requires cs != []
  {
    if |cs| == 1 then cs[0].fallbackScore else Max(cs[0].fallbackScore, BestScore(cs[1..]))
  }

  function WithScore(cs: seq<Candidate>, score: int): seq<Candidate> {
    if cs == [] then [] else (if cs[0].fallbackScore == score then [cs[0]] else []) + WithScore(cs[1..], score)
  }

  lemma {:induction false} BestScoreIsAttained(cs: seq<Candidate>)
    requires cs != []
    ensures forall c :: c in cs ==> c.fallbackScore <= BestScore(cs)
    ensures WithScore(cs, BestScore(cs)) != []
  {
    if |cs| > 1 {
      assert cs == [cs[0]] + cs[1..];
      BestScoreIsAttained(cs[1..]);
    } else {
      assert cs == [cs[0]];
    }
  }

  lemma {:induction false} WithScoreAreAll(cs: seq<Candidate>, score: int)
    ensures forall c :: c in WithScore(cs, score) <==> c in cs && c.fallbackScore == score
  {
    if cs != [] {
      assert cs == [cs[0]] + cs[1..];
      WithScoreAreAll(cs[1..], score);
    }
  }

  /** The state an enemy's selection is made in: as it is, or as the next round would begin. */
  function SelectionState(s: GameState, activation: seq<Event>, p: Participant): GameState
    requires s.combat.Some?
  {
    if exists e :: e in activation && e.RoundAdvanced? then
      var c := s.combat.value;
      WithCombat(s, c.(round := c.round + 1, activeSide := HeroSide, activeActor := Some(p.actorId),
                       participants := seq(|c.participants|, i requires 0 <= i < |c.participants| =>
                         c.participants[i].(actionAvailable := true, maneuverAvailable := true,
                                            reactionAvailable := true, activationSpent := false))))
    else s
  }

  /** The chosen candidate among those tied for the best score, and the draw that broke the tie. */
  function SelectBest(cs: seq<Candidate>, random: Option<nat>): (r: Outcome<(Candidate, Option<int>)>) {
    if cs == [] then Refused
    else
      BestScoreIsAttained(cs);
      var tied := WithScore(cs, BestScore(cs));
      if |tied| == 1 then Done((tied[0], None))
      else if random.None? then Refused
      else
        var draw := Draw(random.value, 0, |tied| - 1);
        Done((tied[draw], Some(draw)))
  }

  function DecideSelectEnemyFallback(s: GameState, facts: Facts, combatId: Id, actor: Id): Decision {
    match PinnedCatalog(s, facts)
    case Refused => Refused
    case Done(catalog) =>
      match CombatFor(s, combatId)
      case Refused => Refused
      case Done(c) =>
        match FindParticipant(c, actor)
        case None => Refused
        case Some(i) =>
          var p := c.participants[i];
          if !p.role.Enemy? then Refused
          else
            match ActivationEvents(s, c, p)
            case Refused => Refused
            case Done(activation) =>
              if facts.legalActionIdFor.None? then Refused
              else
                match SelectBest(EnumerateActions(SelectionState(s, activation, p), catalog, p.actorId,
                  facts.legalActionIdFor.value), facts.random)
                case Refused => Refused
                case Done(selected) => Done(activation + [EnemyActionSelected(selected.0, selected.1)])
  }

  function DecideWithdraw(s: GameState, combatId: Id): Decision {
    match CombatFor(s, combatId)
    case Refused => Refused
    case Done(c) =>
      if c.window.Some? || c.pendingAction.Some? || c.pendingDeath.Some? then Refused
      else Done([CombatResolved(HeroesWithdrew)])
  }

  // ----- Costs -----

  predicate NegativeAdjustment(e: Effect) {
    e.AdjustResource? && e.amount < 0
  }

  /** Supply is paid by the party, Exertion by the actor itself; Guard pays for nothing. */
  predicate PayableCost(e: Effect) {
    e.AdjustResource? && !e.resource.Guard? && (e.resource.Supply? <==> !e.onSelf)
  }

  function Total(es: seq<Effect>, resource: Resource): int {
    if es == [] then 0
    else (if es[0].AdjustResource? && es[0].resource == resource then es[0].amount else 0) + Total(es[1..], resource)
  }

  /** One resource's part of the cost; a total of zero means the cost does not mention it. */
  function Payment(owner: Owner, resource: Resource, current: int, maximum: int, delta: int): Decision {
    if delta == 0 then Done([])
    else
      match Transition(current, delta, maximum)
      case Refused => Refused
      case Done(next) => Done([ResourceChanged(owner, resource, current, next)])
  }

  function Both(first: Decision, second: Decision): Decision {
    if first.Refused? || second.Refused? then Refused else Done(first.value + second.value)
  }

  function CostEvents(s: GameState, p: Participant, a: Ability): Decision {
    if !(forall i :: 0 <= i < |a.cost| ==> NegativeAdjustment(a.cost[i])) then Refused
    else if a.cost == [] then Done([])
    else
      match FindActor(s, p.actorId)
      case None => Refused
      case Some(i) =>
        var hero := s.characters[i];
        if !(forall k :: 0 <= k < |a.cost| ==> PayableCost(a.cost[k])) then Refused
        else
          Both(Payment(Of(hero.characterId), Exertion, hero.exertion, EXERTION_MAXIMUM, Total(a.cost, Exertion)),
               Payment(Party, Supply, s.supply, s.supplyMaximum, Total(a.cost, Supply)))
  }

  // ----- Checks of combat actions -----

  function Rating<K>(ratings: map<K, int>, k: K): Option<int> {
    if k in ratings then Some(ratings[k]) else None
  }

  function GrantsEdge(a: Ability): bool {
    exists e :: e in a.effects && e.GrantEdge? && (e.context.AttackEdge? || e.context.CheckEdge?)
  }

  /** The check an ability calls for; none when it has no profile or the ratings are missing. */
  function CheckFor(s: GameState, p: Participant, a: Ability, catalog: Catalog): (r: Option<Request>)
    ensures r.Some? ==> ValidRequest(r.value)
  {
    if a.profile.None? then None
    else
      var profile := a.profile.value;
      var ratings :=
        if p.role.Hero? then
          match FindActor(s, p.actorId)
          case None => None
          case Some(i) =>
            var attribute := Rating(s.characters[i].attributes, profile.attribute);
            var discipline := Rating(s.characters[i].disciplines, profile.discipline);
            if attribute.None? || discipline.None? then None else Some((attribute.value, discipline.value))
        else
          match ByReference(catalog.definitions, p.role.definition)
          case None => None
          case Some(d) =>
            if !d.EnemyDefinition? then None
            else
              var attribute := Rating(d.attributes, profile.attribute);
              var discipline := Rating(d.disciplines, profile.discipline);
              if attribute.None? || discipline.None? then None else Some((attribute.value, discipline.value));
      if ratings.None? then None
      else
        var r := Request(p.actorId, profile.attribute, ratings.value.0, profile.discipline, ratings.value.1,
          profile.target,
                         GrantsEdge(a), false, p.role.Hero?, if p.role.Hero? then Some(p.role.eligibleRoller)
                           else None);
        if ValidRequest(r) then Some(r) else None
  }

  function ImpactsOf(es: seq<Effect>): seq<int> {
    if es == [] then [] else (if es[0].DealImpact? then [es[0].impact] else []) + ImpactsOf(es[1..])
  }

  function BaseImpact(a: Ability): Option<int> {
    if a.fixedImpact.Some? then a.fixedImpact
    else
      var impacts := ImpactsOf(a.effects);
      if |impacts| == 1 then Some(impacts[0]) else None
  }

  // ----- Effects of a resolved action -----

  function GuardOnSelf(es: seq<Effect>): int {
    if es == [] then 0
    else
      (if es[0].AdjustResource? && es[0].resource.Guard? && es[0].onSelf then es[0].amount else 0)
      + GuardOnSelf(es[1..])
  }

  function WaitingOverlay(os: seq<Overlay>, boss: Id): (r: Option<Overlay>)
    ensures r.Some? ==> r.value in os && !r.value.active && r.value.actorId == boss
  {
    if os == [] then None
    else if !os[0].active && os[0].actorId == boss then Some(os[0])
    else WaitingOverlay(os[1..], boss)
  }

  /** What an empty Guard triggers for a boss with an overlay still waiting. */
  function OverlayEvents(c: Combat, catalog: Catalog, boss: Participant, guardBefore: int): Decision {
    match WaitingOverlay(c.overlays, boss.actorId)
    case None => Done([])
    case Some(o) =>
      match ByReference(catalog.definitions, o.definition)
      case None => Done([])
      case Some(d) =>
        if !d.OverlayDefinition? || !d.trigger.GuardDepleted? then Done([])
        else
          var after := guardBefore + GuardOnSelf(d.effects);
          if after < 0 || after > boss.role.GuardMaximum() then Refused
          else Done([BossOverlayActivated(o.(active := true), guardBefore, after)])
  }

  predicate EnemyStands(p: Participant, defeated: Option<Id>, restored: Option<Id>) {
    p.role.Enemy? && (restored == Some(p.actorId) || (defeated != Some(p.actorId) && p.role.guard > 0))
  }

  predicate HeroStands(s: GameState, c: Character, dead: Option<Id>) {
    dead != Some(c.characterId) && c.characterId !in s.deaths
  }

  function FinishIfOver(s: GameState, c: Combat, defeated: Option<Id>, dead: Option<Id>,
      restored: Option<Id>): seq<Event> {
    if !exists i :: 0 <= i < |c.participants| && EnemyStands(c.participants[i], defeated, restored) then
      [CombatResolved(HeroesPrevailed)]
    else if !exists i :: 0 <= i < |s.characters| && HeroStands(s, s.characters[i], dead) then
      [CombatResolved(HeroesDefeated)]
    else []
  }

  /** The first empty wound slot. */
  function EmptySlot(ws: seq<Wound>): (r: Option<nat>)
    ensures r.Some? ==> r.value < |ws| && ws[r.value].Empty? && forall j :: 0 <= j < r.value ==> ws[j].Filled?
    ensures r.None? ==> forall j :: 0 <= j < |ws| ==> ws[j].Filled?
  {
    if ws == [] then None
    else if ws[0].Empty? then Some(0)
    else
      match EmptySlot(ws[1..])
      case None => None
      case Some(i) => Some(i + 1)
  }

  const DEATH_TEST_TARGET := 13

  function DeathRequest(s: GameState, c: Combat, hero: Character): Outcome<Request> {
    match FindParticipant(c, hero.actorId)
    case None => Refused
    case Some(i) =>
      var attribute := Rating(hero.attributes, Force);
      var discipline := Rating(hero.disciplines, Athletics);
      if !c.participants[i].role.Hero? || attribute.None? || discipline.None? then Refused
      else
        var r := Request(hero.actorId, Force, attribute.value, Athletics, discipline.value, DEATH_TEST_TARGET,
                         false, false, false, Some(c.participants[i].role.eligibleRoller));
        if ValidRequest(r) then Done(r) else Refused
  }

  function DeathDisclosure(s: GameState, c: Combat, hero: Character): Outcome<Disclosure> {
    match DeathRequest(s, c, hero)
    case Refused => Refused
    case Done(r) => CreateDisclosure(r, PermanentDeath)
  }

  /** A wound, and with the third one the death test. */
  function WoundEvents(s: GameState, facts: Facts, c: Combat, hero: Character): Decision {
    if facts.woundId.None? then Refused
    else
      match EmptySlot(hero.wounds)
      case None => Refused
      case Some(k) =>
        var marked := WoundMarked(hero.characterId, hero.wounds[k := Filled(facts.woundId.value)]);
        if k != 2 then Done([marked])
        else if facts.deathCheckId.None? || facts.deathNonce.None? then Refused
        else
          match DeathDisclosure(s, c, hero)
          case Refused => Refused
          case Done(d) =>
            Done([marked,
                  PhysicalRollRequested(facts.deathCheckId.value, facts.deathNonce.value, d),
                  DeathTestPending(c.combatId, facts.deathCheckId.value, hero.characterId)])
  }

  function StruckEnemy(s: GameState, catalog: Catalog, c: Combat, p: Participant, after: int): Decision {
    if after != 0 then Done([])
    else if p.role.IsBoss() then
      match OverlayEvents(c, catalog, p, after)
      case Refused => Refused
      case Done(overlay) =>
        Done(overlay + FinishIfOver(s, c, Some(p.actorId), None, if overlay != [] then Some(p.actorId) else None))
    else Done(FinishIfOver(s, c, Some(p.actorId), None, None))
  }

  function ImpactEvents(s: GameState, facts: Facts, catalog: Catalog, c: Combat, target: Target, base: int,
      degree: Degree): Decision {
    if !target.OnActor? then Refused
    else
      match FindParticipant(c, target.actorId)
      case None => Refused
      case Some(i) =>
        var p := c.participants[i];
        var bonus := if degree.Triumph? then 2 else 0;
        if p.role.Enemy? then
          var applied := ImpactOf(base, bonus, p.role.armor);
          var after := Max(0, p.role.guard - applied);
          Both(Done([ImpactApplied(c.combatId, target.actorId, base, bonus, p.role.armor, applied, p.role.guard,
            after)]),
               StruckEnemy(s, catalog, c, p, after))
        else
          match FindActor(s, target.actorId)
          case None => Refused
          case Some(h) =>
            var hero := s.characters[h];
            var applied := ImpactOf(base, bonus, 0);
            Both(Done([ImpactApplied(c.combatId, target.actorId, base, bonus, 0, applied, hero.guard,
              Max(0, hero.guard - applied))]),
                 if (hero.guard > 0 && applied > hero.guard) || hero.guard == 0 then WoundEvents(s, facts, c, hero)
                   else Done([]))
  }

  function AdvanceBy(c: Combat, objective: Id, amount: int): Decision {
    match IndexOf(ObjectiveIds(c.objectives), objective)
    case None => Refused
    case Some(i) =>
      var o := c.objectives[i];
      if !o.status.ObjectiveActive? then Refused
      else
        var current := Min(o.threshold, o.progress + amount);
        Done([ObjectiveAdvanced(objective, o.progress, current, if current == o.threshold then ObjectiveCompleted
          else ObjectiveActive)])
  }

  function EffectEvents(s: GameState, facts: Facts, catalog: Catalog, c: Combat, target: Target, e: Effect): Decision {
    match e
    case DealImpact(_) => Done([])
    case GrantEdge(_) => Done([])
    case SceneUseEffect(_) => Done([])
    case MoveEffect(_, _) =>
      if !target.OnActorToZone? then Refused
      else
        (match FindParticipant(c, target.actorId)
         case None => Refused
         case Some(i) => Done([ActorMoved(c.combatId, target.actorId, c.participants[i].zoneId, target.zoneId)]))
    case AdvanceTrack(onObjective, amount) =>
      if !onObjective || !target.OnObjective? then Refused else AdvanceBy(c, target.objectiveId, amount)
    case ConditionEffect(condition, duration) =>
      if !target.OnActor? || facts.conditionId.None? then Refused
      else
        (match FindActor(s, target.actorId)
         case None => Refused
         case Some(i) =>
           var d := ByReference(catalog.definitions, condition);
           if d.None? || !d.value.ConditionDefinition? then Refused
           else
             Done([ConditionApplied(s.characters[i].characterId,
             Condition(facts.conditionId.value, condition, duration))]))
    case ReactionEffect =>
      if target.OnActor? || target.OnSelf? then Done([ReactionRestored(target.actorId)]) else Refused
    case _ => Refused
  }

  function AllEffects(s: GameState, facts: Facts, catalog: Catalog, c: Combat, target: Target,
      es: seq<Effect>): Decision {
    if es == [] then Done([])
    else Both(EffectEvents(s, facts, catalog, c, target, es[0]), AllEffects(s, facts, catalog, c, target, es[1..]))
  }

  function ResolvedEvents(s: GameState, facts: Facts, candidate: Candidate, ability: Option<Ability>, degree: Degree,
      base: Option<int>): Decision {
    if s.combat.None? || facts.catalog.None? then Refused
    else if degree.Crisis? || degree.Setback? then Done([])
    else
      var c, catalog := s.combat.value, facts.catalog.value;
      Both(if base.None? then Done([]) else ImpactEvents(s, facts, catalog, c, candidate.target, base.value, degree),
           if ability.Some? then AllEffects(s, facts, catalog, c, candidate.target, ability.value.effects)
           else if !candidate.kind.AdvanceObjective? then Done([])
           else if !candidate.target.OnObjective? then Refused
           else AdvanceBy(c, candidate.target.objectiveId, 1))
  }

  /** `eventsForResolvedCombatAction`: events are pushed effect by effect, and any rejection discards them all. */
  method EventsForResolvedCombatAction(s: GameState, facts: Facts, candidate: Candidate, ability: Option<Ability>,
      degree: Degree, base: Option<int>)
    returns (r: Decision)
    ensures r == ResolvedEvents(s, facts, candidate, ability, degree, base)
  {
    hide ImpactEvents, EffectEvents, AdvanceBy;
    if s.combat.None? || facts.catalog.None? { return Refused; }
    var c, catalog := s.combat.value, facts.catalog.value;
    if degree.Crisis? || degree.Setback? { return Done([]); }
    var events: seq<Event> := [];
    if base.Some? {
      var impact := ImpactEvents(s, facts, catalog, c, candidate.target, base.value, degree);
      if impact.Refused? { return Refused; }
      assert events + impact.value == impact.value;
      events := events + impact.value;
    }
    if ability.Some? {
      var pushed := PushEffects(s, facts, catalog, c, candidate.target, ability.value.effects);
      if pushed.Refused? { return Refused; }
      events := events + pushed.value;
    } else if candidate.kind.AdvanceObjective? {
      if !candidate.target.OnObjective? { return Refused; }
      var advanced := AdvanceBy(c, candidate.target.objectiveId, 1);
      if advanced.Refused? { return Refused; }
      events := events + advanced.value;
    } else {
      assert events + [] == events;
    }
    return Done(events);
  }

  method PushEffects(s: GameState, facts: Facts, catalog: Catalog, c: Combat, target: Target, es: seq<Effect>)
      returns (r: Decision)
    ensures r == AllEffects(s, facts, catalog, c, target, es)
  {
    hide EffectEvents;
    var events: seq<Event> := [];
    assert es[0..] == es;
    BothEmpty(AllEffects(s, facts, catalog, c, target, es));
    for k := 0 to |es|
      invariant AllEffects(s, facts, catalog, c, target, es) ==
                Both(Done(events), AllEffects(s, facts, catalog, c, target, es[k..]))
    {
      assert es[k..][0] == es[k] && es[k..][1..] == es[k + 1..];
      var pushed := EffectEvents(s, facts, catalog, c, target, es[k]);
      if pushed.Refused? { return Refused; }
      BothAssociates(events, pushed.value, AllEffects(s, facts, catalog, c, target, es[k + 1..]));
      events := events + pushed.value;
    }
    assert events + [] == events;
    return Done(events);
  }

  lemma BothEmpty(d: Decision)
    ensures Both(Done([]), d) == d
  {
    if d.Done? {
      assert [] + d.value == d.value;
    }
  }

  lemma BothAssociates(xs: seq<Event>, ys: seq<Event>, rest: Decision)
    ensures Both(Done(xs), Both(Done(ys), rest)) == Both(Done(xs + ys), rest)
  {
    if rest.Done? {
      assert xs + (ys + rest.value) == xs + ys + rest.value;
    }
  }

  // ----- Executing an action -----

  function WithId(cs: seq<Candidate>, id: Id): (r: Option<Candidate>)
    ensures r.Some? ==> r.value in cs && r.value.legalActionId == id
    ensures r.None? ==> forall c :: c in cs ==> c.legalActionId != id
  {
    if cs == [] then None else if cs[0].legalActionId == id then Some(cs[0]) else WithId(cs[1..], id)
  }

  /** The scene use an ability of a hero consumes. */
  function SceneUseEvents(s: GameState, p: Participant, a: Ability): Decision {
    if !p.role.Hero? then Done([])
    else
      match FindActor(s, p.actorId)
      case None => Done([])
      case Some(i) =>
        match UseIndex(s.characters[i].sceneUses, a.ref)
        case None => Done([])
        case Some(k) =>
          if s.characters[i].sceneUses[k].used then Refused
          else Done([SceneAbilityUsed(s.characters[i].characterId, a.ref)])
  }

  /** A boss with an overlay waiting, whose Guard this impact could empty. */
  predicate BossMayTurn(c: Combat, target: Target, base: Option<int>) {
    base.Some? && target.OnActor? &&
    match FindParticipant(c, target.actorId)
    case None => false
    case Some(i) =>
      var p := c.participants[i];
      p.role.Enemy? && p.role.boss && WaitingOverlay(c.overlays, p.actorId).Some? && p.role.guard <= base.value + 2
  }

  /** What follows the costs and the spent slot. */
  function ActionEvents(s: GameState, facts: Facts, catalog: Catalog, c: Combat, p: Participant, candidate: Candidate,
      ability: Option<Ability>, invokeSpark: bool): Decision
  {
    if candidate.kind.Pass? then if invokeSpark then Refused else Done([])
    else if (candidate.kind.Move? || candidate.kind.Dash?) && ability.None? then
      if invokeSpark || !candidate.target.OnZone? then Refused
      else Done([ActorMoved(c.combatId, p.actorId, p.zoneId, candidate.target.zoneId)])
    else if ability.None? then
      if invokeSpark then Refused else ResolvedEvents(s, facts, candidate, None, Success, None)
    else
      var base := BaseImpact(ability.value);
      match CheckFor(s, p, ability.value, catalog)
      case None => if invokeSpark then Refused else ResolvedEvents(s, facts, candidate, ability, Success, base)
      case Some(check) => CheckedEvents(s, facts, c, p, candidate, ability.value, base, check, invokeSpark)
  }

  function CheckedEvents(s: GameState, facts: Facts, c: Combat, p: Participant, candidate: Candidate,
      ability: Ability, base: Option<int>, check: Request, invokeSpark: bool): Decision
  {
    match SelectPhysicalRoll(check, if BossMayTurn(c, candidate.target, base) then [BossTransition]
      else [], invokeSpark)
    case SelectionRejected => Refused
    case Physical(_, d, sparkSpent) =>
      if facts.pendingCheckId.None? || facts.nonce.None? then Refused
      else
        Done((if sparkSpent then [SparkSpent(p.actorId)] else [])
             + [PhysicalRollRequested(facts.pendingCheckId.value, facts.nonce.value, d),
                CombatActionPending(c.combatId, facts.pendingCheckId.value, candidate, base)])
    case Simulated =>
      if facts.random.None? then Refused
      else
        var result := Resolve(check, Draw(facts.random.value, 1, 20));
        Both(Done([CheckResolvedSimulated(result)]),
             ResolvedEvents(s, facts, candidate, Some(ability), result.finalDegree, base))
  }

  /** The costs, the scene use and the slot an action spends before it takes effect. */
  function Expenses(s: GameState, c: Combat, p: Participant, candidate: Candidate, ability: Option<Ability>): Decision {
    var slot := Done([ActionSlotSpent(c.combatId, p.actorId, candidate.slot)]);
    if ability.None? then slot
    else Both(Both(CostEvents(s, p, ability.value), SceneUseEvents(s, p, ability.value)), slot)
  }

  function DecideExecuteCombatAction(s: GameState, facts: Facts, combatId: Id, legalActionId: Id,
      invokeSpark: bool): Decision {
    match PinnedCatalog(s, facts)
    case Refused => Refused
    case Done(catalog) =>
      match CombatFor(s, combatId)
      case Refused => Refused
      case Done(c) =>
        if c.activeActor.None? || facts.legalActionIdFor.None? then Refused
        else
          match WithId(EnumerateActions(s, catalog, c.activeActor.value, facts.legalActionIdFor.value), legalActionId)
          case None => Refused
          case Some(candidate) => ExecuteCandidate(s, facts, catalog, c, candidate, invokeSpark)
  }

  function ExecuteCandidate(s: GameState, facts: Facts, catalog: Catalog, c: Combat, candidate: Candidate,
      invokeSpark: bool): Decision {
    match FindParticipant(c, candidate.actorId)
    case None => Refused
    case Some(i) =>
      var p := c.participants[i];
      var ability := if candidate.source.None? then None else AbilityByReference(catalog, candidate.source.value);
      if !SlotAvailable(p, candidate.slot) || (candidate.source.Some? && ability.None?) then Refused
      else
        Both(Expenses(s, c, p, candidate, ability), ActionEvents(s, facts, catalog, c, p, candidate, ability,
        invokeSpark))
  }

  lemma DeathDisclosureHonest(s: GameState, c: Combat, hero: Character)
    requires DeathDisclosure(s, c, hero).Done?
    ensures Honest(DeathDisclosure(s, c, hero).value) && ValidDisclosure(DeathDisclosure(s, c, hero).value)
    ensures DeathDisclosure(s, c, hero).value.reason.PermanentDeath?
  {
    hide Honest, ValidDisclosure, CreateDisclosure, ValidRequest;
    CreatedIsHonest(DeathRequest(s, c, hero).value, PermanentDeath);
  }
}
