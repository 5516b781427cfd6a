/** An active fight is never stuck. */
module Liveness {
  import opened Common
  import opened ZoneGraph
  import opened State
  import opened Validity
  import opened Events
  import opened Reducer
  import opened Undo
  import opened Content
  import opened CombatRules
  import opened CombatDecisions
  import opened LegalActions
  import opened Applies

  // ----- A new round applies -----

  lemma RestedHeroValid(c: Character)
    requires ValidCharacter(c)
    ensures ValidCharacter(c.(conditions := DropConditions(c.conditions, UntilRound)))
  {
    hide Distinct, GearMatchesNames, RatingsInRange, DistinctWounds, RankFeatures, DropConditions;
    DroppedDistinct(c.conditions, UntilRound);
  }

  lemma RestedPartyValid(supply: int, maximum: int, cs: seq<Character>)
    requires ValidParty(supply, maximum, cs)
    ensures ValidParty(supply, maximum, EndRoundConditions(cs))
            && CharacterIds(EndRoundConditions(cs)) == CharacterIds(cs)
    ensures ActorIds(EndRoundConditions(cs)) == ActorIds(cs)
  {
    hide ValidCharacter, DropConditions, Distinct, CharacterIds, ActorIds;
    forall i | 0 <= i < |cs| ensures ValidCharacter(EndRoundConditions(cs)[i]) {
      RestedHeroValid(cs[i]);
    }
    assert CharacterIds(EndRoundConditions(cs)) == CharacterIds(cs);
    assert ActorIds(EndRoundConditions(cs)) == ActorIds(cs);
  }

  function NewRound(c: Combat): Combat {
    c.(round := c.round + 1, activeSide := HeroSide, activeActor := None, participants := RefreshAll(c), window := None)
  }

  lemma NewRoundValid(c: Combat)
    requires ValidCombat(c)
    ensures ValidCombat(NewRound(c)) && ParticipantIds(NewRound(c).participants) == ParticipantIds(c.participants)
  {
    hide ValidZoneGraph, Distinct, OccupancyFits, ObjectivesSound, OverlaysSound, NoObjectiveAtTwo, ParticipantIds;
    assert ParticipantIds(RefreshAll(c)) == ParticipantIds(c.participants);
    SamePlacesFit(c.zones, c.participants, RefreshAll(c));
    forall i | 0 <= i < |c.participants| ensures ParticipantSound(c.zones, c.round + 1, c.objectives,
      RefreshAll(c)[i]) {
      assert ParticipantSound(c.zones, c.round, c.objectives, c.participants[i]);
    }
  }

  lemma RoundApplies(s: GameState) returns (t: GameState)
    requires ValidGameState(s) && s.combat.Some? && AllSpent(s, s.combat.Get())
    ensures Apply(s, RoundAdvanced(s.combat.Get().round, s.combat.Get().round + 1)) == Done(t) && ValidGameState(t)
    ensures t.combat == Some(NewRound(s.combat.Get()))
    ensures ParticipantIds(t.combat.Get().participants) == ParticipantIds(s.combat.Get().participants)
  {
    hide ValidGameState, ValidCombat, ValidParty, AllSpent, RefreshAll, EndRoundConditions, ValidPendings,
         ValidChallenges, ValidRituals, ValidSocials, ValidScars;
    var c := s.combat.value;
    ValidParts(s);
    NewRoundValid(c);
    RestedPartyValid(s.supply, s.supplyMaximum, s.characters);
    WithPartyValid(s, s.supply, EndRoundConditions(s.characters));
    var u := s.(supply := s.supply, characters := EndRoundConditions(s.characters));
    WithCombatValid(u, NewRound(c));
    t := WithCombat(u, NewRound(c));
  }

  // ----- An activation applies -----

  lemma StartedValid(c: Combat, i: nat)
    requires ValidCombat(c) && i < |c.participants| && c.activeActor.None? && !c.participants[i].activationSpent
    requires FindParticipant(c, c.participants[i].actorId) == Some(i)
    ensures ValidCombat(c.(activeSide := c.participants[i].Side(), activeActor := Some(c.participants[i].actorId)))
  {
    hide ValidZoneGraph, Distinct, OccupancyFits, ObjectivesSound, OverlaysSound, ParticipantsSound, WindowSound,
         IndexOf;
  }

  lemma ActivationApplies(s: GameState, i: nat)
    requires ValidGameState(s) && s.combat.Some? && i < |s.combat.Get().participants|
    requires var c := s.combat.Get();
             c.activeActor.None? && !At(c.participants, i).activationSpent
               && FindParticipant(c, At(c.participants, i).actorId) == Some(i)
    ensures var c := s.combat.Get();
            Apply(s, ActivationStarted(c.combatId, At(c.participants, i).actorId, At(c.participants, i).Side())) ==
            Done(WithCombat(s, c.(activeSide := At(c.participants, i).Side(),
              activeActor := Some(At(c.participants, i).actorId))))
  {
    hide ValidGameState, ValidCombat, IndexOf, ValidParty, ValidPendings, ValidChallenges, ValidRituals,
         FindParticipant, ValidSocials;
    var c := s.combat.value;
    ValidParts(s);
    StartedValid(c, i);
    WithCombatValid(s, c.(activeSide := c.participants[i].Side(), activeActor := Some(c.participants[i].actorId)));
  }

  // ----- Somebody can always act -----

  /** Everything a decision needs is supplied. */
  ghost predicate Supplied(s: GameState, facts: Facts) {
    && facts.catalog.Some? && facts.catalog.value.manifest == s.manifest
    && facts.random.Some? && facts.legalActionIdFor.Some? && Injective(facts.legalActionIdFor.value)
  }

  /** The living participants that may act are exactly those with a slot left. */
  predicate LivingMatched(s: GameState, c: Combat) {
    forall i :: 0 <= i < |c.participants| && Alive(s, c.participants[i]) ==>
      (c.participants[i].activationSpent <==> SlotsGone(c.participants[i]))
  }

  lemma ParticipantFound(c: Combat, i: nat)
    requires ValidCombat(c) && i < |c.participants|
    ensures FindParticipant(c, c.participants[i].actorId) == Some(i)
  {
    hide ValidCombat, ActiveSound, ParticipantsSound, IndexOf, OverlaysSound, OccupancyFits, ParticipantIds;
    CombatActive(c);
    IndexOfDistinct(ParticipantIds(c.participants), i);
  }

  /** An identity names an action of the key it was made of. */
  lemma WithIdSameKey(s: GameState, catalog: Catalog, actor: Id, ids: ActionKey -> Id, x: Candidate)
      returns (y: Candidate)
    requires Injective(ids) && x in EnumerateActions(s, catalog, actor, ids) && s.combat.Some?
    requires x.legalActionId == ids(KeyOf(s.combat.Get(), x.actorId, x.slot, x.kind, x.source, x.target))
    ensures WithId(EnumerateActions(s, catalog, actor, ids), x.legalActionId) == Some(y)
    ensures y.kind == x.kind && y.slot == x.slot && y.actorId == x.actorId && y.source == x.source
            && y.target == x.target
  {
    hide EnumerateActions, WithId, Legal, Scored, Alive, FindParticipant, At;
    y := WithId(EnumerateActions(s, catalog, actor, ids), x.legalActionId).value;
    var p := EnumeratedIsLegal(s, catalog, actor, ids, y);
    LegalKey(s, s.combat.value, ids, p, catalog, y);
  }

  lemma LegalKey(s: GameState, c: Combat, ids: ActionKey -> Id, p: Participant, catalog: Catalog, x: Candidate)
    requires Legal(s, c, ids, p, catalog, x)
    ensures x.legalActionId == ids(KeyOf(c, x.actorId, x.slot, x.kind, x.source, x.target))
  {
    hide KeyOf, IsUse, AbilityTargets, ActorTargets, MoveTargets, MayBeTargeted;
  }

  lemma PassEvents(s: GameState, facts: Facts, catalog: Catalog, c: Combat, y: Candidate, i: nat)
    requires FindParticipant(c, y.actorId) == Some(i) && y.kind.Pass? && y.source.None?
             && SlotAvailable(At(c.participants, i), y.slot)
    ensures ExecuteCandidate(s, facts, catalog, c, y, false) == Done([ActionSlotSpent(c.combatId, y.actorId, y.slot)])
  {
    hide FindParticipant, SlotAvailable, CheckedEvents, ResolvedEvents, ImpactEvents, AllEffects;
    assert [ActionSlotSpent(c.combatId, y.actorId, y.slot)] + [] == [ActionSlotSpent(c.combatId, y.actorId, y.slot)];
  }

  /** An active living actor with a slot left can pass. */
  lemma ActiveCanPass(s: GameState, facts: Facts, i: nat) returns (id: Id)
    requires ValidGameState(s) && s.combat.Some? && s.combat.Get().status.Active? && Supplied(s, facts)
    requires i < |s.combat.Get().participants| && Alive(s, At(s.combat.Get().participants, i))
             && !SlotsGone(At(s.combat.Get().participants, i))
    requires s.combat.Get().activeActor == Some(At(s.combat.Get().participants, i).actorId)
    ensures DecideExecuteCombatAction(s, facts, s.combat.Get().combatId, id, false).Done?
    ensures Fold(s, DecideExecuteCombatAction(s, facts, s.combat.Get().combatId, id, false).Get()).Done?
  {
    hide ValidGameState, ValidCombat, EnumerateActions, WithId, ExecuteCandidate, Alive, Injective, IndexOf,
         ActiveSound, Apply, ValidParty, ValidPendings, ValidChallenges;
    var c, catalog, ids := s.combat.value, facts.catalog.value, facts.legalActionIdFor.value;
    var p := c.participants[i];
    ValidParts(s);
    CombatActive(c);
    ParticipantFound(c, i);
    ActiveParts(c, i);
    var slot := if p.actionAvailable then ActionSlot else ManeuverSlot;
    var x := PassIsOffered(s, catalog, p.actorId, ids, slot);
    var y := WithIdSameKey(s, catalog, p.actorId, ids, x);
    id := x.legalActionId;
    PassEvents(s, facts, catalog, c, y, i);
    SlotApplies(s, i, slot);
    FoldOne(s, ActionSlotSpent(c.combatId, p.actorId, slot));
  }

  /** An unspent hero whose side is next can be activated. */
  lemma HeroCanActivate(s: GameState, i: nat)
    requires ValidGameState(s) && s.combat.Some? && s.combat.Get().status.Active? && i < |s.combat.Get().participants|
    requires var c := s.combat.Get();
             && c.activeActor.None? && At(c.participants, i).role.Hero? && Unspent(s, At(c.participants, i))
             && (c.activeSide.HeroSide? || !SomeUnspent(s, c, EnemySide))
    ensures DecideChooseHeroActivation(s, s.combat.Get().combatId, At(s.combat.Get().participants, i).actorId).Done?
    ensures Fold(s, DecideChooseHeroActivation(s, s.combat.Get().combatId,
            At(s.combat.Get().participants, i).actorId).Get()).Done?
  {
    hide ValidGameState, ValidCombat, Alive, IndexOf, Fold, Apply, ValidParty, ValidPendings;
    var c := s.combat.value;
    ValidParts(s);
    ParticipantFound(c, i);
    assert SomeUnspent(s, c, HeroSide);
    ActivationApplies(s, i);
    FoldOne(s, ActivationStarted(c.combatId, c.participants[i].actorId, HeroSide));
  }

  /** When nobody is left, any living hero participant opens the next round. */
  lemma HeroCanOpenRound(s: GameState, i: nat)
    requires ValidGameState(s) && s.combat.Some? && s.combat.Get().status.Active? && i < |s.combat.Get().participants|
    requires var c := s.combat.Get();
             && c.activeActor.None? && At(c.participants, i).role.Hero? && Alive(s, At(c.participants, i))
             && !SomeUnspent(s, c, HeroSide) && !SomeUnspent(s, c, EnemySide)
    ensures DecideChooseHeroActivation(s, s.combat.Get().combatId, At(s.combat.Get().participants, i).actorId).Done?
    ensures Fold(s, DecideChooseHeroActivation(s, s.combat.Get().combatId,
            At(s.combat.Get().participants, i).actorId).Get()).Done?
  {
    hide ValidGameState, ValidCombat, Alive, IndexOf, Apply, Fold, ValidParty, SomeUnspent, AllSpent, ValidPendings,
         ValidChallenges;
    var c := s.combat.value;
    ValidParts(s);
    ParticipantFound(c, i);
    NobodyLeft(s, c);
    var round := RoundAdvanced(c.round, c.round + 1);
    var start := ActivationStarted(c.combatId, c.participants[i].actorId, HeroSide);
    var t := RoundApplies(s);
    ActivationApplies(t, i);
    FoldOne(s, round);
    FoldOne(t, start);
    FoldAppend(s, [round], [start]);
    assert [round, start] == [round] + [start];
  }

  lemma NobodyLeft(s: GameState, c: Combat)
    requires !SomeUnspent(s, c, HeroSide) && !SomeUnspent(s, c, EnemySide)
    ensures AllSpent(s, c)
  {
    hide Alive;
    forall i | 0 <= i < |c.participants| && Alive(s, c.participants[i]) ensures c.participants[i].activationSpent {
      assert c.participants[i].Side() == HeroSide || c.participants[i].Side() == EnemySide;
      assert !Unspent(s, c.participants[i]);
    }
  }

  lemma SelectedIsAudit(x: Candidate, draw: Option<int>)
    ensures GroupOf(EnemyActionSelected(x, draw)).AuditEvent?
  {}

  /** What could be done next, other than withdrawing: an action of the active actor, or the start of an activation. */
  ghost predicate CanGoOn(s: GameState, facts: Facts) {
    match s.combat
    case None => false
    case Some(c) =>
      if c.activeActor.Some? then exists id :: CanExecute(s, facts, id)
      else exists p :: p in c.participants && (CanChoose(s, p.actorId) || CanSelect(s, facts, p.actorId))
  }

  /** A decision is accepted, and what it proposes is applied. */
  ghost predicate GoesThrough(s: GameState, d: Decision) {
    match d
    case Refused => false
    case Done(es) => Fold(s, es).Done?
  }

  ghost predicate CanExecute(s: GameState, facts: Facts, id: Id) {
    match s.combat
    case None => false
    case Some(c) => GoesThrough(s, DecideExecuteCombatAction(s, facts, c.combatId, id, false))
  }

  ghost predicate CanChoose(s: GameState, actor: Id) {
    match s.combat
    case None => false
    case Some(c) => GoesThrough(s, DecideChooseHeroActivation(s, c.combatId, actor))
  }

  ghost predicate CanSelect(s: GameState, facts: Facts, actor: Id) {
    match s.combat
    case None => false
    case Some(c) => GoesThrough(s, DecideSelectEnemyFallback(s, facts, c.combatId, actor))
  }

  lemma ActiveHasSlot(s: GameState, i: nat)
    requires ValidGameState(s) && s.combat.Some? && LivingMatched(s, s.combat.Get())
    requires s.combat.Get().activeActor.Some? && FindParticipant(s.combat.Get(), s.combat.Get().activeActor.Get()) ==
             Some(i)
    requires Alive(s, At(s.combat.Get().participants, i))
    ensures !SlotsGone(At(s.combat.Get().participants, i)) && s.combat.Get().activeActor ==
            Some(At(s.combat.Get().participants, i).actorId)
  {
    hide ValidGameState, ValidCombat, ActiveSound, Alive, IndexOf, ValidParty, ValidPendings, ValidChallenges,
         ValidRituals, FindParticipant, ParticipantsSound;
    ValidParts(s);
    CombatActive(s.combat.value);
    ActiveParts(s.combat.value, i);
  }

  /** A living actor has a legal action exactly when its action or its maneuver is left. */
  lemma LegalExactlyWithSlot(s: GameState, catalog: Catalog, actor: Id, ids: ActionKey -> Id)
    requires s.combat.Some? && s.combat.Get().status.Active? && catalog.manifest == s.manifest
             && FindParticipant(s.combat.Get(), actor).Some?
    requires Alive(s, At(s.combat.Get().participants, FindParticipant(s.combat.Get(), actor).Get()))
    ensures EnumerateActions(s, catalog, actor, ids) != [] <==>
            !SlotsGone(At(s.combat.Get().participants, FindParticipant(s.combat.Get(), actor).Get()))
  {
    hide EnumerateActions, Alive, IndexOf, Legal, Scored, KeyOf, FindParticipant;
    var p := s.combat.value.participants[FindParticipant(s.combat.value, actor).value];
    if EnumerateActions(s, catalog, actor, ids) != [] {
      var x := EnumerateActions(s, catalog, actor, ids)[0];
      var q := EnumeratedIsLegal(s, catalog, actor, ids, x);
      LegalSlot(s, s.combat.value, ids, q, catalog, x);
    }
    if !SlotsGone(p) {
      var x := PassIsOffered(s, catalog, actor, ids, if p.actionAvailable then ActionSlot else ManeuverSlot);
    }
  }

  lemma SuppliedParts(s: GameState, facts: Facts)
    requires Supplied(s, facts)
    ensures facts.catalog.Some? && facts.catalog.value.manifest == s.manifest && facts.legalActionIdFor.Some?
  {
    hide Injective;
  }

  // ----- Exactly when there is a next step -----

  /** The side the next activation belongs to. */
  function NextSide(s: GameState, c: Combat): Side {
    if SomeUnspent(s, c, c.activeSide) then c.activeSide else Opposite(c.activeSide)
  }

  /** The active actor lives and has a slot left; or, with nobody active, a living hero can open the next round, or
      an unspent hero is next, or an unspent enemy with a slot left is. */
  predicate HasNextStep(s: GameState) {
    match s.combat
    case None => false
    case Some(c) =>
      if c.activeActor.Some? then
        exists p :: p in c.participants && c.activeActor == Some(p.actorId) && Alive(s, p) && !SlotsGone(p)
      else if !SomeUnspent(s, c, HeroSide) && !SomeUnspent(s, c, EnemySide) then
        exists p :: p in c.participants && p.role.Hero? && Alive(s, p)
      else
        NextSide(s, c).HeroSide?
        || exists p :: p in c.participants && p.role.Enemy? && Unspent(s, p) && !SlotsGone(p)
  }

  /** An enemy that is next and has a slot left has an action to select. */
  lemma EnemyCanSelect(s: GameState, facts: Facts, i: nat)
    requires ValidGameState(s) && s.combat.Some? && s.combat.Get().status.Active? && Supplied(s, facts)
    requires i < |s.combat.Get().participants|
    requires var c := s.combat.Get();
             && c.activeActor.None? && At(c.participants, i).role.Enemy? && Unspent(s, At(c.participants, i))
               && !SlotsGone(At(c.participants, i))
             && (c.activeSide.EnemySide? || !SomeUnspent(s, c, HeroSide))
    ensures CanSelect(s, facts, At(s.combat.Get().participants, i).actorId)
  {
    hide ValidGameState, ValidCombat, Alive, IndexOf, Apply, EnumerateActions, Injective, BestScore, WithScore, Fold,
         ValidParty, GroupOf;
    var c, catalog, ids := s.combat.value, facts.catalog.value, facts.legalActionIdFor.value;
    var p := c.participants[i];
    ValidParts(s);
    ParticipantFound(c, i);
    assert SomeUnspent(s, c, EnemySide);
    var start := ActivationStarted(c.combatId, p.actorId, EnemySide);
    assert ActivationEvents(s, c, p) == Done([start]);
    var x := PassIsOffered(s, catalog, p.actorId, ids, if p.actionAvailable then ActionSlot else ManeuverSlot);
    assert SelectionState(s, [start], p) == s;
    var selected := SelectBest(EnumerateActions(s, catalog, p.actorId, ids), facts.random).value;
    var chosen := EnemyActionSelected(selected.0, selected.1);
    ActivationApplies(s, i);
    var t := Apply(s, start).value;
    FoldOne(s, start);
    FoldKeepsValid(s, [start], t);
    SelectedIsAudit(selected.0, selected.1);
    AuditKeeps(t, chosen);
    FoldAppend(s, [start], [chosen]);
  }

  /** Conversely a selection needs an unspent enemy with a slot left. */
  lemma SelectionNeedsSlot(s: GameState, facts: Facts, i: nat)
    requires ValidGameState(s) && s.combat.Some? && s.combat.Get().status.Active? && Supplied(s, facts)
             && s.combat.Get().activeActor.None?
    requires i < |s.combat.Get().participants| && CanSelect(s, facts, At(s.combat.Get().participants, i).actorId)
    ensures var p := At(s.combat.Get().participants, i);
            && p.role.Enemy? && Unspent(s, p) && !SlotsGone(p) && NextSide(s, s.combat.Get()).EnemySide?
            && (SomeUnspent(s, s.combat.Get(), HeroSide) || SomeUnspent(s, s.combat.Get(), EnemySide))
  {
    hide ValidGameState, ValidCombat, Alive, IndexOf, Apply, EnumerateActions, BestScore, WithScore, ValidParty,
         SomeUnspent, ValidPendings, Fold;
    var c := s.combat.value;
    var p := c.participants[i];
    ValidParts(s);
    ParticipantFound(c, i);
    SuppliedParts(s, facts);
    var activation := ActivationEvents(s, c, p).value;
    assert forall e :: e in activation ==> !e.RoundAdvanced?;
    assert SelectionState(s, activation, p) == s;
    LegalExactlyWithSlot(s, facts.catalog.value, p.actorId, facts.legalActionIdFor.value);
  }

  /** A hero is activated only when its side is next or when nobody is left. */
  lemma ChoiceNeedsHero(s: GameState, i: nat)
    requires ValidGameState(s) && s.combat.Some? && s.combat.Get().status.Active? && s.combat.Get().activeActor.None?
    requires i < |s.combat.Get().participants| && CanChoose(s, At(s.combat.Get().participants, i).actorId)
    ensures var c := s.combat.Get();
            var p := At(c.participants, i);
            && p.role.Hero? && Alive(s, p)
            && ((!SomeUnspent(s, c, HeroSide) && !SomeUnspent(s, c, EnemySide)) || NextSide(s, c).HeroSide?)
  {
    hide ValidGameState, ValidCombat, Alive, IndexOf, Apply, ValidParty, SomeUnspent, ValidPendings, ValidChallenges,
         ValidRituals, Fold;
    ValidParts(s);
    ParticipantFound(s.combat.value, i);
  }

  /** An execution needs a living active actor with a slot left. */
  lemma ExecutionNeedsSlot(s: GameState, facts: Facts, id: Id) returns (i: nat)
    requires ValidGameState(s) && s.combat.Some? && s.combat.Get().status.Active? && Supplied(s, facts)
    requires s.combat.Get().activeActor.Some? && CanExecute(s, facts, id)
    ensures var c := s.combat.Get();
            && i < |c.participants| && At(c.participants, i).actorId == c.activeActor.Get()
            && Alive(s, At(c.participants, i)) && !SlotsGone(At(c.participants, i))
  {
    hide ValidGameState, Alive, IndexOf, Apply, EnumerateActions, ExecuteCandidate, WithId, Injective, Legal, Scored,
         FindParticipant, Supplied, At, Fold;
    var c, catalog, ids := s.combat.value, facts.catalog.value, facts.legalActionIdFor.value;
    var x := WithId(EnumerateActions(s, catalog, c.activeActor.value, ids), id).value;
    var p := EnumeratedIsLegal(s, catalog, c.activeActor.value, ids, x);
    LegalSlot(s, c, ids, p, catalog, x);
    i := FindParticipant(c, c.activeActor.value).value;
  }

  /** An active fight can go on if and only if its state has a next step: a dead active actor, an active actor
      without slots, and an enemy side whose unspent members have none are the ways to get stuck. */
  lemma GoesOnExactly(s: GameState, facts: Facts)
    requires ValidGameState(s) && s.combat.Some? && s.combat.Get().status.Active? && Supplied(s, facts)
    ensures CanGoOn(s, facts) <==> HasNextStep(s)
  {
    hide ValidGameState, ValidCombat, Alive, IndexOf, Supplied, CanExecute, CanChoose, CanSelect;
    var c := s.combat.value;
    if c.activeActor.Some? {
      ActiveGoesOn(s, facts);
    } else if !SomeUnspent(s, c, HeroSide) && !SomeUnspent(s, c, EnemySide) {
      NobodyUnspentGoesOn(s, facts);
    } else {
      UnspentGoesOn(s, facts);
    }
  }

  /** Nothing follows the death of the active actor: only a withdrawal is left. */
  lemma DeadActorIsStuck(s: GameState, facts: Facts, c: Combat)
    requires ValidGameState(s) && s.combat == Some(c) && c.status.Active? && Supplied(s, facts)
    requires c.activeActor.Some?
             && forall p :: p in c.participants && c.activeActor == Some(p.actorId) ==> !Alive(s, p)
    ensures !CanGoOn(s, facts)
  {
    hide ValidGameState, Alive, Supplied, CanGoOn, NextSide, SomeUnspent;
    GoesOnExactly(s, facts);
  }

  lemma ActiveGoesOn(s: GameState, facts: Facts)
    requires ValidGameState(s) && s.combat.Some? && s.combat.Get().status.Active? && Supplied(s, facts)
             && s.combat.Get().activeActor.Some?
    ensures CanGoOn(s, facts) <==> HasNextStep(s)
  {
    hide ValidGameState, ValidCombat, Alive, IndexOf, Supplied, Apply, DecideExecuteCombatAction, Fold, SlotsGone,
         CanSelect, DecideSelectEnemyFallback, EnumerateActions, Found, CanChoose;
    var c := s.combat.value;
    if HasNextStep(s) {
      var i :| 0 <= i < |c.participants| && c.participants[i].actorId == c.activeActor.value
        && Alive(s, c.participants[i]) && !SlotsGone(c.participants[i]);
      var id := ActiveCanPass(s, facts, i);
      assert CanExecute(s, facts, id);
    }
    if CanGoOn(s, facts) {
      var id :| CanExecute(s, facts, id);
      var i := ExecutionNeedsSlot(s, facts, id);
    }
  }

  lemma NobodyUnspentGoesOn(s: GameState, facts: Facts)
    requires ValidGameState(s) && s.combat.Some? && s.combat.Get().status.Active? && Supplied(s, facts)
             && s.combat.Get().activeActor.None?
    requires !SomeUnspent(s, s.combat.Get(), HeroSide) && !SomeUnspent(s, s.combat.Get(), EnemySide)
    ensures CanGoOn(s, facts) <==> HasNextStep(s)
  {
    hide ValidGameState, Alive, IndexOf, Supplied, Apply, CanSelect, DecideChooseHeroActivation, Fold, NextSide,
         SomeUnspent, Unspent, CanExecute, DecideExecuteCombatAction, ExecuteCandidate, EnumerateActions, Found;
    var c := s.combat.value;
    if HasNextStep(s) {
      var i :| 0 <= i < |c.participants| && c.participants[i].role.Hero? && Alive(s, c.participants[i]);
      HeroCanOpenRound(s, i);
      assert CanChoose(s, c.participants[i].actorId);
    }
    if CanGoOn(s, facts) {
      var i :| 0 <= i < |c.participants| && (CanChoose(s, c.participants[i].actorId)
        || CanSelect(s, facts, c.participants[i].actorId));
      if CanChoose(s, c.participants[i].actorId) {
        ChoiceNeedsHero(s, i);
      } else {
        SelectionNeedsSlot(s, facts, i);
      }
    }
  }

  lemma UnspentGoesOn(s: GameState, facts: Facts)
    requires ValidGameState(s) && s.combat.Some? && s.combat.Get().status.Active? && Supplied(s, facts)
             && s.combat.Get().activeActor.None?
    requires SomeUnspent(s, s.combat.Get(), HeroSide) || SomeUnspent(s, s.combat.Get(), EnemySide)
    ensures CanGoOn(s, facts) <==> HasNextStep(s)
  {
    hide ValidGameState, Alive, IndexOf, Supplied, Apply, DecideChooseHeroActivation, DecideSelectEnemyFallback,
         CanSelect, Fold, CanExecute, DecideExecuteCombatAction, ExecuteCandidate, EnumerateActions, Found;
    var c := s.combat.value;
    if NextSide(s, c).HeroSide? {
      var i :| 0 <= i < |c.participants| && c.participants[i].Side() == HeroSide && Unspent(s, c.participants[i]);
      HeroCanActivate(s, i);
      assert CanChoose(s, c.participants[i].actorId);
    } else {
      if HasNextStep(s) {
        var i :| 0 <= i < |c.participants| && c.participants[i].role.Enemy? && Unspent(s, c.participants[i])
          && !SlotsGone(c.participants[i]);
        EnemyCanSelect(s, facts, i);
        assert CanSelect(s, facts, c.participants[i].actorId);
      }
      if CanGoOn(s, facts) {
        var i :| 0 <= i < |c.participants| && (CanChoose(s, c.participants[i].actorId)
          || CanSelect(s, facts, c.participants[i].actorId));
        if CanChoose(s, c.participants[i].actorId) {
          ChoiceNeedsHero(s, i);
        } else {
          SelectionNeedsSlot(s, facts, i);
        }
      }
    }
  }

  /** An active fight whose active actor, if any, lives, in which some hero participant lives, and whose living
      members are unspent exactly while they have a slot, accepts and applies an action, an activation or an enemy
      selection. */
  lemma NoDeadlock(s: GameState, facts: Facts, h: nat)
    requires ValidGameState(s) && s.combat.Some? && s.combat.Get().status.Active? && Supplied(s, facts)
    requires var c := s.combat.Get();
             && LivingMatched(s, c)
             && h < |c.participants| && At(c.participants, h).role.Hero? && Alive(s, At(c.participants, h))
             && (c.activeActor.Some? ==>
                   FindParticipant(c, c.activeActor.Get()).Some?
                     && Alive(s, At(c.participants, FindParticipant(c, c.activeActor.Get()).Get())))
    ensures CanGoOn(s, facts)
  {
    hide ValidGameState, Alive, IndexOf, Supplied, CanGoOn, SlotsGone, FindParticipant;
    var c := s.combat.value;
    GoesOnExactly(s, facts);
    if c.activeActor.Some? {
      ActiveHasSlot(s, FindParticipant(c, c.activeActor.value).value);
    } else if (SomeUnspent(s, c, HeroSide) || SomeUnspent(s, c, EnemySide)) && NextSide(s, c).EnemySide? {
      var i :| 0 <= i < |c.participants| && c.participants[i].Side() == EnemySide && Unspent(s, c.participants[i]);
      assert c.participants[i].role.Enemy? && !SlotsGone(c.participants[i]);
    }
  }

  // ----- Accepted activations apply -----

  /** The activation proposed for any participant is applied, whether it opens a round or not. */
  lemma ActivationFolds(s: GameState, i: nat)
    requires ValidGameState(s) && s.combat.Some? && i < |s.combat.Get().participants|
    requires ActivationEvents(s, s.combat.Get(), At(s.combat.Get().participants, i)).Done?
    ensures Fold(s, ActivationEvents(s, s.combat.Get(), At(s.combat.Get().participants, i)).Get()).Done?
  {
    hide ValidGameState, ValidCombat, Alive, IndexOf, Apply, ValidParty, SomeUnspent, AllSpent, ValidPendings,
         ValidChallenges;
    var c := s.combat.value;
    var p := c.participants[i];
    ValidParts(s);
    ParticipantFound(c, i);
    var es := ActivationEvents(s, c, p).value;
    var start := ActivationStarted(c.combatId, p.actorId, p.Side());
    if es == [start] {
      ActivationApplies(s, i);
      FoldOne(s, start);
    } else if es != [] {
      var round := RoundAdvanced(c.round, c.round + 1);
      NobodyLeft(s, c);
      var t := RoundApplies(s);
      ActivationApplies(t, i);
      FoldOne(s, round);
      FoldOne(t, start);
      FoldAppend(s, [round], [start]);
      assert es == [round] + [start];
    }
  }

  /** Whatever hero activation or enemy selection is accepted, the reducer applies. */
  lemma ActivationAgrees(s: GameState, facts: Facts, combatId: Id, actor: Id)
    requires ValidGameState(s)
    ensures DecideChooseHeroActivation(s, combatId, actor).Done? ==>
            Fold(s, DecideChooseHeroActivation(s, combatId, actor).Get()).Done?
    ensures DecideSelectEnemyFallback(s, facts, combatId, actor).Done? ==>
            Fold(s, DecideSelectEnemyFallback(s, facts, combatId, actor).Get()).Done?
  {
    hide ValidGameState, ActivationEvents, EnumerateActions, SelectBest, SelectionState, IndexOf, Apply, Fold,
         GroupOf, FindParticipant;
    if DecideChooseHeroActivation(s, combatId, actor).Done? {
      ActivationFolds(s, FindParticipant(s.combat.value, actor).value);
    }
    if DecideSelectEnemyFallback(s, facts, combatId, actor).Done? {
      var i := FindParticipant(s.combat.value, actor).value;
      ActivationFolds(s, i);
      var activation := ActivationEvents(s, s.combat.value, s.combat.value.participants[i]).value;
      var es := DecideSelectEnemyFallback(s, facts, combatId, actor).value;
      var last := es[|es| - 1];
      assert es == activation + [last] && last.EnemyActionSelected?;
      var t := Fold(s, activation).value;
      FoldKeepsValid(s, activation, t);
      SelectedIsAudit(last.candidate, last.tieBreak);
      AuditKeeps(t, last);
      FoldAppend(s, activation, [last]);
    }
  }
}
