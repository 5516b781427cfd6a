/** Exactly when the reaction the decider accepts is one the reducer applies. */
module ReactionAgreement {
  import opened Common
  import opened ZoneGraph
  import opened State
  import opened Validity
  import opened Events
  import opened Reducer
  import opened Compensation
  import opened Undo
  import opened Content
  import opened CombatRules
  import opened CombatDecisions
  import opened Reactions
  import opened Applies
  import opened EffectAgreement
  import opened CombatAgreement

  // ----- What a reaction may be aimed at -----

  lemma {:induction false} TargetIsListed(c: Combat, ids: ActionKey -> Id, p: Participant, a: Ability,
      targets: seq<Target>, x: Candidate)
    requires x in ReactionTargets(c, ids, p, a, targets)
    ensures x.target in targets && x.actorId == p.actorId && x.slot.ReactionSlot? && x.source == Some(a.ref)
  {
    hide ReactionRange;
    if x != ReactionCandidate(c, ids, p, a, targets[0]) {
      TargetIsListed(c, ids, p, a, targets[1..], x);
    }
  }

  lemma {:induction false} ReactionIsListed(s: GameState, c: Combat, ids: ActionKey -> Id, p: Participant,
      abilities: seq<Ability>, x: Candidate)
    returns (a: Ability)
    requires x in ReactionCandidates(s, c, ids, p, abilities)
    ensures a in abilities && x.target in AbilityTargets(s, c, p, a)
    ensures x.actorId == p.actorId && x.slot.ReactionSlot? && x.source == Some(a.ref)
  {
    hide AbilityTargets, ReactionTargets;
    var listed := if abilities[0].slot.ReactionSlot?
      then ReactionTargets(c, ids, p, abilities[0], AbilityTargets(s, c, p, abilities[0])) else [];
    if x in listed {
      a := abilities[0];
      TargetIsListed(c, ids, p, a, AbilityTargets(s, c, p, a), x);
    } else {
      a := ReactionIsListed(s, c, ids, p, abilities[1..], x);
    }
  }

  /** An enumerated reaction is the actor's own, which may react, and its target fits. */
  lemma ReactionIsLegal(s: GameState, catalog: Catalog, actor: Id, ids: ActionKey -> Id, x: Candidate) returns (j: nat)
    requires ValidGameState(s) && x in EnumerateReactions(s, catalog, actor, ids)
    ensures s.combat.Some? && s.combat.Get().status.Active? && FindParticipant(s.combat.Get(), actor) == Some(j)
    ensures MayReact(s, At(s.combat.Get().participants, j)) && x.actorId == actor && x.source.Some?
    ensures TargetFits(s.combat.Get(), x.target)
  {
    hide ValidGameState, ValidCombat, MayReact, ReactionCandidates, SortCandidates, ActorAbilities, IndexOf,
         TargetFits, Distinct, AbilityTargets, ValidParty, ValidPendings, ValidChallenges, ActiveSound, ValidRituals;
    var c := s.combat.value;
    j := FindParticipant(c, actor).value;
    var p := c.participants[j];
    var found := ReactionCandidates(s, c, ids, p, ActorAbilities(s, p, catalog));
    SortSorts(found);
    assert x in multiset(SortCandidates(found));
    var a := ReactionIsListed(s, c, ids, p, ActorAbilities(s, p, catalog), x);
    ValidParts(s);
    CombatActive(c);
    TargetsFit(s, c, p, a, x.target);
  }

  // ----- The reaction slot -----

  function Reacted(c: Combat, j: nat): Combat
  {
    if j < |c.participants| then WithParticipant(c, j, AfterSpend(c.participants[j], ReactionSlot)) else c
  }

  lemma ReactedSound(c: Combat, j: nat)
    requires ValidCombat(c) && j < |c.participants|
    requires c.participants[j].role.Enemy? ==>
             c.participants[j].role.trigger.AtOnce? || TriggerMet(c, c.participants[j].role.trigger)
    ensures ParticipantSound(c.zones, c.round, c.objectives, Reacted(c, j).participants[j])
  {
    hide ValidZoneGraph, Distinct, OccupancyFits, ObjectivesSound, OverlaysSound, WindowSound, ActiveSound;
    assert ParticipantSound(c.zones, c.round, c.objectives, c.participants[j]);
  }

  lemma ReactedActive(c: Combat, j: nat)
    requires ActiveSound(c) && ActiveSteady(c) && j < |c.participants|
             && FindParticipant(c, c.participants[j].actorId) == Some(j)
    ensures ActiveSound(Reacted(c, j))
  {
    hide FindParticipant, ParticipantIds;
    SameParticipantIds(c.participants, j, AfterSpend(c.participants[j], ReactionSlot));
  }

  /** A hero, or an enemy whose trigger has been met. */
  predicate Entered(c: Combat, role: Role) {
    match role
    case Hero(_) => true
    case Enemy(_, trigger, _, _, _, _) => trigger.AtOnce? || TriggerMet(c, trigger)
  }

  lemma ReactionSlotApplies(s: GameState, j: nat)
    requires ValidGameState(s) && s.combat.Some? && j < |s.combat.Get().participants| && ActiveSteady(s.combat.Get())
    requires var c := s.combat.Get();
             var p := At(c.participants, j);
             && FindParticipant(c, p.actorId) == Some(j) && p.reactionAvailable
             && Entered(c, p.role)
    ensures var c := s.combat.Get();
            Apply(s, ActionSlotSpent(c.combatId, At(c.participants, j).actorId, ReactionSlot)) ==
              Done(WithCombat(s, Reacted(c, j)))
  {
    hide ValidGameState, ValidCombat, IndexOf, ActiveSteady, ActiveSound, OccupancyFits, TriggerMet, ValidParty,
         ValidPendings, ValidChallenges, ValidRituals, FindParticipant, ParticipantsSound;
    var c := s.combat.value;
    ValidParts(s);
    CombatActive(c);
    ReactedSound(c, j);
    ReactedActive(c, j);
    SamePlacesFit(c.zones, c.participants, Reacted(c, j).participants);
    ParticipantReplaced(c, j, Reacted(c, j).participants[j], Reacted(c, j));
    WithCombatValid(s, Reacted(c, j));
  }

  lemma ReactedPrepared(s: GameState, u: GameState, j: nat)
    requires s.combat.Some? && j < |s.combat.value.participants| && PaidFrom(s, u)
    ensures Prepared(s, WithCombat(u, Reacted(s.combat.value, j)))
  {
    hide HeroesCarry, ParticipantIds;
    SameParticipantIds(s.combat.value.participants, j, Reacted(s.combat.value, j).participants[j]);
  }

  // ----- The window -----

  lemma WindowReplaced(c: Combat, w: Option<Window>)
    requires ValidCombat(c) && WindowSound(w)
    ensures ValidCombat(c.(window := w))
  {
    hide ValidZoneGraph, Distinct, OccupancyFits, ObjectivesSound, OverlaysSound, ParticipantsSound, WindowSound,
         IndexOf;
  }

  lemma ClosingApplies(s: GameState)
    requires ValidGameState(s) && s.combat.Some?
    ensures Apply(s, ReactionWindowClosed) == Done(WithCombat(s, s.combat.Get().(window := None)))
  {
    hide ValidGameState, ValidCombat, ValidParty, ValidPendings, ValidChallenges, ValidRituals, ValidSocials,
         ValidScars;
    ValidParts(s);
    WindowReplaced(s.combat.value, None);
    WithCombatValid(s, s.combat.value.(window := None));
  }

  lemma FewerReact(w: Window)
    requires WindowSound(Some(w)) && |w.eligible| > 1
    ensures WindowSound(Some(w.(eligible := w.eligible[1..])))
  {
    forall i, j | 0 <= i < j < |w.eligible[1..]| ensures w.eligible[1..][i] != w.eligible[1..][j] {
      assert w.eligible[i + 1] != w.eligible[j + 1];
    }
  }

  lemma CombatWindow(c: Combat)
    requires ValidCombat(c)
    ensures WindowSound(c.window)
  {
    hide ValidZoneGraph, Distinct, OccupancyFits, ObjectivesSound, OverlaysSound, ParticipantsSound, WindowSound,
         IndexOf;
  }

  /** Declining passes the window on, or closes it. */
  lemma DecliningApplies(s: GameState, w: Window)
    requires ValidGameState(s) && s.combat.Some? && s.combat.Get().window == Some(w) && w.eligible != []
    ensures Apply(s, if Tail(w.eligible) == [] then ReactionWindowClosed
              else ReactionWindowOpened(w.(eligible := Tail(w.eligible)))).Done?
  {
    hide ValidGameState, ValidCombat, WindowSound, ValidParty, ValidPendings, ValidChallenges, ValidRituals,
         ValidSocials, ValidScars;
    var c := s.combat.value;
    ValidParts(s);
    CombatWindow(c);
    if w.eligible[1..] == [] {
      ClosingApplies(s);
    } else {
      FewerReact(w);
      WindowReplaced(c, Some(w.(eligible := w.eligible[1..])));
      WithCombatValid(s, c.(window := Some(w.(eligible := w.eligible[1..]))));
    }
  }

  // ----- The whole reaction -----

  lemma AliveTriggered(s: GameState, p: Participant)
    requires s.combat.Some? && MayReact(s, p)
    ensures p.reactionAvailable && (p.role.Enemy? ==>
            p.role.trigger.AtOnce? || TriggerMet(s.combat.value, p.role.trigger))
  {
    hide TriggerMet;
  }

  /** The state once the actor has spent its reaction. */
  function Reacting(s: GameState, actor: Id): GameState {
    if s.combat.None? then s
    else
      match FindParticipant(s.combat.value, actor)
      case None => s
      case Some(j) => WithCombat(s, Reacted(s.combat.value, j))
  }

  lemma SameCombatFits(t: GameState, w: GameState, es: seq<Event>)
    requires t.combat == w.combat
    ensures EffectsFit(t, es) <==> EffectsFit(w, es)
  {
    hide ChangesIn, RestoresIn, IndexOf;
  }

  lemma ReactionExactly(s: GameState, facts: Facts, catalog: Catalog, j: nat, x: Candidate)
    requires ValidGameState(s) && facts.catalog == Some(catalog) && WellFormedCatalog(catalog) && FreshFacts(s, facts)
             && EnemiesApart(s)
    requires s.combat.Some? && s.combat.Get().status.Active? && ActiveSteady(s.combat.Get())
    requires FindParticipant(s.combat.Get(), x.actorId) == Some(j) && MayReact(s, At(s.combat.Get().participants, j))
    requires TargetFits(s.combat.Get(), x.target) && x.source.Some?
    requires ReactionEvents(s, facts, catalog, s.combat.Get(), x).Done?
             && RoomFor(s, ReactionEvents(s, facts, catalog, s.combat.Get(), x).Get())
    ensures var es := ReactionEvents(s, facts, catalog, s.combat.Get(), x).Get();
            Fold(s, es).Done? <==> EffectsFit(Reacting(s, x.actorId), es)
  {
    hide ValidGameState, Apply, CostEvents, ResolvedEvents, BaseImpact, WellFormedCatalog, FreshFacts, EnemiesApart,
         RoomFor, AllFromAction, MayReact, ActiveSteady, TargetFits, IndexOf, AbilityByReference, EffectsFit,
         WellFormedAbility, Prepared, Grown, AllIdle, MovesFit, Fold, FindParticipant, Reacted;
    var c := s.combat.value;
    var p, a := c.participants[j], AbilityByReference(catalog, x.source.value).value;
    CatalogAbility(catalog, x.source.value);
    var costs, slot := CostEvents(s, p, a).value, ActionSlotSpent(c.combatId, p.actorId, ReactionSlot);
    var effects := ResolvedEvents(s, facts, x, Some(a), Success, BaseImpact(a)).value;
    var es := ReactionEvents(s, facts, catalog, c, x).value;
    var lead := costs + [slot];
    assert es == lead + (effects + [ReactionWindowClosed]) && es == lead + effects + [ReactionWindowClosed];
    RoomParts(s, lead, effects + [ReactionWindowClosed]);
    RoomParts(s, effects, [ReactionWindowClosed]);
    var t := ReactionPaid(s, catalog, j, a);
    ResolvedMovesFit(s, facts, catalog, x, Some(a), Success, BaseImpact(a));
    ResolvedExactly(s, facts, catalog, t, x, Some(a), Success, BaseImpact(a));
    SameCombatFits(t, Reacting(s, x.actorId), effects);
    CostsIdle(s, p, a);
    ReactionIdle(costs, slot);
    IdleAround(Reacting(s, x.actorId), lead, effects, [ReactionWindowClosed]);
    FoldAppend(s, lead, effects + [ReactionWindowClosed]);
    FoldAppend(t, effects, [ReactionWindowClosed]);
    if Fold(t, effects).Done? {
      var v := Fold(t, effects).value;
      FoldKeepsValid(t, effects, v);
      ResolvedFromAction(s, facts, x, Some(a), Success, BaseImpact(a));
      FoldGrows(t, effects, v);
      CombatStays(t, v);
      ClosingApplies(v);
      FoldOne(v, ReactionWindowClosed);
    }
  }

  lemma ReactionIdle(costs: seq<Event>, slot: Event)
    requires AllIdle(costs) && slot.ActionSlotSpent?
    ensures AllIdle(costs + [slot]) && AllIdle([ReactionWindowClosed])
  {}

  /** The reaction is paid for, and its slot is spent. */
  lemma ReactionPaid(s: GameState, catalog: Catalog, j: nat, a: Ability) returns (t: GameState)
    requires ValidGameState(s) && s.combat.Some? && ActiveSteady(s.combat.Get())
    requires j < |s.combat.Get().participants|
    requires var c := s.combat.Get();
             var p := At(c.participants, j);
             FindParticipant(c, p.actorId) == Some(j) && MayReact(s, p) && CostEvents(s, p, a).Done?
    ensures var c := s.combat.Get();
            var p := At(c.participants, j);
            Fold(s, CostEvents(s, p, a).Get() + [ActionSlotSpent(c.combatId, p.actorId, ReactionSlot)]) == Done(t)
    ensures ValidGameState(t) && Prepared(s, t) && t.combat == Some(Reacted(s.combat.Get(), j))
  {
    hide ValidGameState, Apply, CostEvents, MayReact, ActiveSteady, IndexOf, Prepared, Fold, FindParticipant, Reacted,
         TriggerMet, SameSceneUses;
    var c := s.combat.value;
    var p := c.participants[j];
    var costs, slot := CostEvents(s, p, a).value, ActionSlotSpent(c.combatId, p.actorId, ReactionSlot);
    var u := CostApplies(s, p, a);
    FoldKeepsValid(s, costs, u);
    AliveTriggered(s, p);
    ReactionSlotApplies(u, j);
    ReactedPrepared(s, u, j);
    t := WithCombat(u, Reacted(c, j));
    FoldOne(u, slot);
    FoldAppend(s, costs, [slot]);
    FoldKeepsValid(s, costs + [slot], t);
  }

  lemma CombatStays(t: GameState, v: GameState)
    requires Grown(t, v) && t.combat.Some?
    ensures v.combat.Some?
  {}

  lemma ReactionFromAction(s: GameState, facts: Facts, catalog: Catalog, c: Combat, x: Candidate)
    requires ReactionEvents(s, facts, catalog, c, x).Done?
    ensures AllFromAction(ReactionEvents(s, facts, catalog, c, x).Get())
  {
    hide CostEvents, ResolvedEvents, BaseImpact, IndexOf, FindParticipant, AbilityByReference;
    var p := c.participants[FindParticipant(c, x.actorId).value];
    var a := AbilityByReference(catalog, x.source.value).value;
    CostsFromAction(s, p, a);
    ResolvedFromAction(s, facts, x, Some(a), Success, BaseImpact(a));
  }

  /** What `resolve_reaction` accepts - a reaction, or declining one - is applied, every event in order, if and only
      if the lists have room for what it adds and, the reactor's reaction spent, its effects make at most one change
      and restore at most one reaction, which was spent. */
  lemma ReactionAgreesExactly(s: GameState, facts: Facts, catalog: Catalog, combatId: Id, windowId: Id, actor: Id,
      id: Option<Id>, es: seq<Event>)
    requires ValidGameState(s) && facts.catalog == Some(catalog) && WellFormedCatalog(catalog)
             && FreshFacts(s, facts) && EnemiesApart(s) && TurnSteady(s)
    requires DecideResolveReaction(s, facts, combatId, windowId, actor, id) == Done(es)
    ensures Fold(s, es).Done? <==> RoomFor(s, es) && EffectsFit(Reacting(s, actor), es)
  {
    hide ValidGameState, Apply, ReactionEvents, EnumerateReactions, WithId, WellFormedCatalog, FreshFacts,
         EnemiesApart, ActiveSteady, AllFromAction, MayReact, TargetFits, RoomFor, SparkFits, IndexOf, EffectsFit,
         Reacting, MovesFit, Fold, FindParticipant, At;
    var c := s.combat.value;
    if id.None? {
      DecliningApplies(s, c.window.value);
      assert es == [es[0]];
      FoldOne(s, es[0]);
      NothingAdded(s, es[0]);
      IdleFits(Reacting(s, actor), es);
    } else {
      var x := WithId(EnumerateReactions(s, catalog, actor, facts.legalActionIdFor.value), id.value).value;
      var j := ReactionIsLegal(s, catalog, actor, facts.legalActionIdFor.value, x);
      ReactionFromAction(s, facts, catalog, c, x);
      if Fold(s, es).Done? {
        AppliedHadRoom(s, es);
      }
      if RoomFor(s, es) {
        ReactionExactly(s, facts, catalog, j, x);
      }
    }
  }

  lemma NothingAdded(s: GameState, e: Event)
    requires e.ReactionWindowOpened? || e.ReactionWindowClosed?
    ensures RoomFor(s, [e])
  {}

}
