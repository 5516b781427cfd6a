/** The enemy's fallback choice is the best legal one, and stays what it was once its activation has begun. */
module EnemyChoice {
  import opened Common
  import opened ZoneGraph
  import opened State
  import opened Validity
  import opened Events
  import opened Reducer
  import opened Content
  import opened CombatRules
  import opened CombatDecisions
  import opened LegalActions
  import opened Undo

  // ----- Enumeration does not depend on whose activation it is -----

  /** The same fight with another active side and actor. */
  predicate SameField(s: GameState, t: GameState) {
    && s.combat.Some? && t.combat.Some?
    && t == s.(combat := t.combat)
    && t.combat.value == s.combat.value.(activeSide := t.combat.value.activeSide,
      activeActor := t.combat.value.activeActor)
  }

  lemma SameAlive(s: GameState, t: GameState, p: Participant)
    requires SameField(s, t)
    ensures Alive(t, p) == Alive(s, p)
  {
    hide IndexOf, SomeObjectiveAtTwo;
  }

  lemma {:induction false} SameDestinations(c: Combat, d: Combat, q: Participant, adjacentOnly: bool, zones: seq<Zone>)
    requires d.zones == c.zones && d.participants == c.participants
    ensures Destinations(d, q, adjacentOnly, zones) == Destinations(c, q, adjacentOnly, zones)
  {
    hide Distance, Occupancy;
    if zones != [] {
      SameDestinations(c, d, q, adjacentOnly, zones[1..]);
    }
  }

  lemma {:induction false} SameMoveTargets(s: GameState, t: GameState, p: Participant, adjacentOnly: bool,
      whom: MoveWhom, qs: seq<Participant>)
    requires SameField(s, t)
    ensures MoveTargets(t, t.combat.value, p, adjacentOnly, whom, qs) ==
            MoveTargets(s, s.combat.value, p, adjacentOnly, whom, qs)
  {
    hide Destinations, Alive;
    if qs != [] {
      SameAlive(s, t, qs[0]);
      SameDestinations(s.combat.value, t.combat.value, qs[0], adjacentOnly, s.combat.value.zones);
      SameMoveTargets(s, t, p, adjacentOnly, whom, qs[1..]);
    }
  }

  lemma {:induction false} SameObjectiveTargets(c: Combat, d: Combat, p: Participant, range: RangeBand,
      os: seq<Objective>)
    requires d.zones == c.zones
    ensures ObjectiveTargets(d, p, range, os) == ObjectiveTargets(c, p, range, os)
  {
    hide Distance, ObjectiveZone;
    if os != [] {
      SameObjectiveTargets(c, d, p, range, os[1..]);
    }
  }

  lemma {:induction false} SameZoneTargets(c: Combat, d: Combat, p: Participant, range: RangeBand, zones: seq<Zone>)
    requires d.zones == c.zones
    ensures ZoneTargets(d, p, range, zones) == ZoneTargets(c, p, range, zones)
  {
    hide Distance;
    if zones != [] {
      SameZoneTargets(c, d, p, range, zones[1..]);
    }
  }

  lemma SameRange(c: Combat, d: Combat, actor: Id, target: Id)
    requires d.zones == c.zones && d.participants == c.participants
    ensures RangeBetween(d, actor, target) == RangeBetween(c, actor, target)
  {
    hide Distance, IndexOf;
  }

  lemma {:induction false} SameActorTargets(s: GameState, t: GameState, p: Participant, a: Ability,
      qs: seq<Participant>)
    requires SameField(s, t)
    ensures ActorTargets(t, t.combat.Get(), p, a, qs) == ActorTargets(s, s.combat.Get(), p, a, qs)
  {
    hide Alive, RangeBetween, IndexOf;
    if qs != [] {
      SameAlive(s, t, qs[0]);
      SameRange(s.combat.value, t.combat.value, p.actorId, qs[0].actorId);
      SameActorTargets(s, t, p, a, qs[1..]);
    }
  }

  lemma SameAbilityTargets(s: GameState, t: GameState, p: Participant, a: Ability)
    requires SameField(s, t)
    ensures AbilityTargets(t, t.combat.Get(), p, a) == AbilityTargets(s, s.combat.Get(), p, a)
  {
    hide MoveTargets, ObjectiveTargets, ZoneTargets, ActorTargets, FirstMove;
    var c, d := s.combat.value, t.combat.value;
    SameObjectiveTargets(c, d, p, a.range, c.objectives);
    SameZoneTargets(c, d, p, a.range, c.zones);
    SameActorTargets(s, t, p, a, c.participants);
    if FirstMove(a.effects).Some? {
      SameMoveTargets(s, t, p, FirstMove(a.effects).value.adjacentOnly, FirstMove(a.effects).value.whom,
        c.participants);
    }
  }

  lemma {:induction false} SameTargetCandidates(c: Combat, d: Combat, ids: ActionKey -> Id, p: Participant,
      catalog: Catalog, a: Ability, targets: seq<Target>)
    requires d == c.(activeSide := d.activeSide, activeActor := d.activeActor)
    ensures TargetCandidates(d, ids, p, catalog, a, targets) == TargetCandidates(c, ids, p, catalog, a, targets)
  {
    hide RangeBetween, Distance, EnemyScore, KindOf;
    if targets != [] {
      if targets[0].OnActor? || targets[0].OnActorToZone? {
        SameRange(c, d, p.actorId, targets[0].actorId);
      }
      SameTargetCandidates(c, d, ids, p, catalog, a, targets[1..]);
    }
  }

  lemma {:induction false} SameUses(s: GameState, t: GameState, ids: ActionKey -> Id, p: Participant,
      catalog: Catalog, abilities: seq<Ability>)
    requires SameField(s, t)
    ensures AbilityCandidates(t, t.combat.Get(), ids, p, catalog, abilities) ==
            AbilityCandidates(s, s.combat.Get(), ids, p, catalog, abilities)
  {
    hide AbilityTargets, TargetCandidates, IndexOf, UseIndex;
    if abilities != [] {
      SameAbilityTargets(s, t, p, abilities[0]);
      SameTargetCandidates(s.combat.value, t.combat.value, ids, p, catalog, abilities[0],
        AbilityTargets(s, s.combat.value, p, abilities[0]));
      SameUses(s, t, ids, p, catalog, abilities[1..]);
    }
  }

  lemma {:induction false} SameMoves(c: Combat, d: Combat, ids: ActionKey -> Id, p: Participant, catalog: Catalog,
      connections: seq<ZoneId>)
    requires d == c.(activeSide := d.activeSide, activeActor := d.activeActor)
    ensures MoveCandidates(d, ids, p, catalog, connections) == MoveCandidates(c, ids, p, catalog, connections)
  {
    hide Occupancy, IndexOf, EnemyScore;
    if connections != [] {
      SameMoves(c, d, ids, p, catalog, connections[1..]);
    }
  }

  lemma {:induction false} SameAdvances(c: Combat, d: Combat, ids: ActionKey -> Id, p: Participant, catalog: Catalog,
      os: seq<Objective>)
    requires d == c.(activeSide := d.activeSide, activeActor := d.activeActor)
    ensures ObjectiveCandidates(d, ids, p, catalog, os) == ObjectiveCandidates(c, ids, p, catalog, os)
  {
    hide ObjectiveZone, EnemyScore;
    if os != [] {
      SameAdvances(c, d, ids, p, catalog, os[1..]);
    }
  }

  lemma SameActions(s: GameState, t: GameState, catalog: Catalog, actor: Id, ids: ActionKey -> Id)
    requires SameField(s, t)
    ensures EnumerateActions(t, catalog, actor, ids) == EnumerateActions(s, catalog, actor, ids)
  {
    hide SortCandidates, Alive, AbilityCandidates, MoveCandidates, ObjectiveCandidates, AbilitiesById,
         AbilitiesByAction, SortIds, GrantedIds, ReadyGearIds, IndexOf;
    var c, d := s.combat.value, t.combat.value;
    if FindParticipant(c, actor).Some? {
      var p := c.participants[FindParticipant(c, actor).value];
      SameAlive(s, t, p);
      SameUses(s, t, ids, p, catalog, ActorAbilities(s, p, catalog));
      SameMoves(c, d, ids, p, catalog, Connections(c, p));
      SameAdvances(c, d, ids, p, catalog, c.objectives);
    }
  }

  // ----- One identity, one candidate -----

  lemma {:induction false} ActionAbilityByReference(catalog: Catalog, actions: seq<EnemyAction>, a: Ability)
    requires a in AbilitiesByAction(catalog, actions)
    ensures AbilityByReference(catalog, a.ref) == Some(a)
  {
    hide ByReference, AbilityByReference;
    var first := AbilityByReference(catalog, actions[0].action);
    if !(first.Some? && first.value == a) {
      ActionAbilityByReference(catalog, actions[1..], a);
    }
  }

  /** An enemy's ability is the one its reference names. */
  lemma EnemyAbility(s: GameState, p: Participant, catalog: Catalog, a: Ability)
    requires p.role.Enemy? && a in ActorAbilities(s, p, catalog)
    ensures AbilityByReference(catalog, a.ref) == Some(a)
  {
    hide AbilitiesByAction, AbilityByReference, ByReference;
    ActionAbilityByReference(catalog, ByReference(catalog.definitions, p.role.definition).value.actions, a);
  }

  lemma UsedAbility(s: GameState, c: Combat, ids: ActionKey -> Id, p: Participant, catalog: Catalog, x: Candidate)
      returns (a: Ability)
    requires p.role.Enemy? && Legal(s, c, ids, p, catalog, x) && x.source.Some?
    ensures AbilityByReference(catalog, x.source.Get()) == Some(a) && x.range == ActualRange(c, p, a, x.target)
  {
    hide Listing, ActorAbilities, MayUse, KindOf, AbilityTargets, ActualRange, AbilityByReference, HasRoom,
         Connections, StandsAt;
    a :| a in ActorAbilities(s, p, catalog) && IsUse(s, c, p, catalog, x, a);
    EnemyAbility(s, p, catalog, a);
  }

  lemma PlainRange(s: GameState, c: Combat, ids: ActionKey -> Id, p: Participant, catalog: Catalog, x: Candidate)
    requires Legal(s, c, ids, p, catalog, x) && x.source.None?
    ensures x.range == if x.kind.Pass? then SelfRange else if x.kind.Move? then Adjacent else SameZone
  {
    hide Listing, ActorAbilities, MayUse, KindOf, AbilityTargets, ActualRange, HasRoom, Connections, StandsAt;
  }

  lemma LegalActor(s: GameState, c: Combat, ids: ActionKey -> Id, p: Participant, catalog: Catalog, x: Candidate)
    requires Legal(s, c, ids, p, catalog, x)
    ensures x.actorId == p.actorId && x.legalActionId == ids(KeyOf(c, x.actorId, x.slot, x.kind, x.source, x.target))
  {
    hide KeyOf, IsUse, AbilityTargets, ActorTargets, MoveTargets, MayBeTargeted;
  }

  /** Two legal actions of an enemy under one identity are one and the same. */
  lemma SameIdSameCandidate(s: GameState, c: Combat, ids: ActionKey -> Id, p: Participant, catalog: Catalog,
      x: Candidate, y: Candidate)
    requires p.role.Enemy? && Injective(ids) && x.legalActionId == y.legalActionId
    requires Legal(s, c, ids, p, catalog, x) && Scored(p, catalog, x) && Legal(s, c, ids, p, catalog, y)
             && Scored(p, catalog, y)
    ensures x == y
  {
    hide Legal, EnemyScore, AbilityByReference, ActualRange;
    LegalActor(s, c, ids, p, catalog, x);
    LegalActor(s, c, ids, p, catalog, y);
    if x.source.Some? {
      var a := UsedAbility(s, c, ids, p, catalog, x);
      var b := UsedAbility(s, c, ids, p, catalog, y);
    } else {
      PlainRange(s, c, ids, p, catalog, x);
      PlainRange(s, c, ids, p, catalog, y);
    }
  }

  // ----- The choice -----

  /** What is selected: the last proposed event's candidate. */
  function Selected(es: seq<Event>): Option<Candidate> {
    if es != [] && es[|es| - 1].EnemyActionSelected? then Some(es[|es| - 1].candidate) else None
  }

  /** The selected action is legal, none legal scores higher, and selecting never advances a round. */
  lemma ChoiceIsBest(s: GameState, facts: Facts, combatId: Id, actor: Id)
    requires DecideSelectEnemyFallback(s, facts, combatId, actor).Done?
    ensures var es := DecideSelectEnemyFallback(s, facts, combatId, actor).Get();
            && Selected(es).Some?
            && (forall e :: e in es ==> !e.RoundAdvanced?)
            && Selected(es).Get() in EnumerateActions(s, facts.catalog.Get(), actor, facts.legalActionIdFor.Get())
            && forall x :: x in EnumerateActions(s, facts.catalog.Get(), actor, facts.legalActionIdFor.Get()) ==>
                 x.fallbackScore <= Selected(es).Get().fallbackScore
  {
    hide EnumerateActions, Alive, IndexOf, SomeUnspent, BestScore, WithScore;
    var c, catalog, ids := s.combat.value, facts.catalog.value, facts.legalActionIdFor.value;
    var p := c.participants[FindParticipant(c, actor).value];
    var activation := ActivationEvents(s, c, p).value;
    assert forall e :: e in activation ==> !e.RoundAdvanced?;
    assert SelectionState(s, activation, p) == s;
    var cs := EnumerateActions(s, catalog, actor, ids);
    BestScoreIsAttained(cs);
    WithScoreAreAll(cs, BestScore(cs));
    SelectionIsTied(cs, facts.random);
  }

  lemma SelectionIsTied(cs: seq<Candidate>, random: Option<nat>)
    requires SelectBest(cs, random).Done?
    ensures cs != [] && SelectBest(cs, random).value.0 in WithScore(cs, BestScore(cs))
  {
    hide BestScore, WithScore;
    BestScoreIsAttained(cs);
  }

  /** After the proposed events are applied, the selected action is the one its identity names for the active enemy. */
  lemma ChoiceStaysExecutable(s: GameState, facts: Facts, combatId: Id, actor: Id, t: GameState)
    requires ValidGameState(s) && facts.legalActionIdFor.Some? && Injective(facts.legalActionIdFor.Get())
    requires DecideSelectEnemyFallback(s, facts, combatId, actor).Done?
    requires Fold(s, DecideSelectEnemyFallback(s, facts, combatId, actor).Get()) == Done(t)
    ensures t.combat.Some? && t.combat.Get().activeActor == Some(actor)
    ensures var x := Selected(DecideSelectEnemyFallback(s, facts, combatId, actor).Get());
            x.Some? && WithId(EnumerateActions(t, facts.catalog.Get(), actor, facts.legalActionIdFor.Get()),
              x.Get().legalActionId) == x
  {
    hide EnumerateActions, ValidGameState, Apply, DecideSelectEnemyFallback, Injective, Legal, Scored, WithId,
         IndexOf, Fold, Alive, FindParticipant, Selected, At;
    SelectsEnemy(s, facts, combatId, actor);
    var catalog, ids := facts.catalog.value, facts.legalActionIdFor.value;
    var es := DecideSelectEnemyFallback(s, facts, combatId, actor).value;
    ChoiceIsBest(s, facts, combatId, actor);
    SelectionOpens(s, facts, combatId, actor, t);
    SameActions(s, t, catalog, actor, ids);
    var x := Selected(es).value;
    var y := WithId(EnumerateActions(s, catalog, actor, ids), x.legalActionId).value;
    var p := EnumeratedIsLegal(s, catalog, actor, ids, x);
    var q := EnumeratedIsLegal(s, catalog, actor, ids, y);
    SameIdSameCandidate(s, s.combat.value, ids, p, catalog, x, y);
  }

  lemma SelectsEnemy(s: GameState, facts: Facts, combatId: Id, actor: Id)
    requires DecideSelectEnemyFallback(s, facts, combatId, actor).Done?
    ensures facts.catalog.Some? && facts.legalActionIdFor.Some?
    ensures s.combat.Some? && FindParticipant(s.combat.Get(), actor).Some?
    ensures At(s.combat.Get().participants, FindParticipant(s.combat.Get(), actor).Get()).role.Enemy?
  {
    hide ActivationEvents, EnumerateActions, SelectBest, SelectionState, FindParticipant;
  }

  /** Selecting changes nothing but whose activation it is. */
  lemma SelectionOpens(s: GameState, facts: Facts, combatId: Id, actor: Id, t: GameState)
    requires DecideSelectEnemyFallback(s, facts, combatId, actor).Done?
    requires Fold(s, DecideSelectEnemyFallback(s, facts, combatId, actor).Get()) == Done(t)
    ensures SameField(s, t) && t.combat.Get().activeActor == Some(actor)
  {
    hide EnumerateActions, ValidGameState, Alive, SomeUnspent, SelectBest, IndexOf, Apply, FindParticipant,
         FindRitual, ValidRitual;
    var c := s.combat.value;
    var p := c.participants[FindParticipant(c, actor).value];
    var es := DecideSelectEnemyFallback(s, facts, combatId, actor).value;
    var activation := ActivationEvents(s, c, p).value;
    var last := es[|es| - 1];
    assert es == activation + [last];
    FoldAppend(s, activation, [last]);
    if activation == [] {
      FoldOne(s, last);
      SelectedStep(s, last, t);
    } else {
      assert activation == [activation[0]];
      FoldOne(s, activation[0]);
      var u := Apply(s, activation[0]).value;
      StartedStep(s, activation[0].combatId, activation[0].actorId, activation[0].side, u);
      FoldOne(u, last);
      SelectedStep(u, last, t);
    }
  }

  lemma SelectedStep(s: GameState, e: Event, t: GameState)
    requires e.EnemyActionSelected? && Apply(s, e) == Done(t)
    ensures t == s
  {
    hide ValidGameState;
  }

  lemma StartedStep(s: GameState, combatId: Id, actor: Id, side: Side, t: GameState)
    requires Apply(s, ActivationStarted(combatId, actor, side)) == Done(t)
    ensures SameField(s, t) && t.combat.Get().activeActor == Some(actor)
  {
    hide ValidGameState, IndexOf, FindRitual, ValidRitual;
  }
}
