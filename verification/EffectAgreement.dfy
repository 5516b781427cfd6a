/** When the effects of an ability, each computed from the state before, can be applied one after the other. */
module EffectAgreement {
  import opened Common
  import opened ZoneGraph
  import opened State
  import opened Validity
  import opened Events
  import opened Reducer
  import opened Compensation
  import opened Content
  import opened CombatRules
  import opened CombatDecisions
  import opened Applies

  // ----- What is assumed of the surroundings -----

  /** The identities allocated for a decision are in use nowhere. */
  predicate FreshFacts(s: GameState, facts: Facts) {
    && (facts.pendingCheckId.Some? ==> facts.pendingCheckId.value !in CheckIds(s.pendingChecks))
    && (facts.nonce.Some? ==> facts.nonce.value !in Nonces(s.pendingChecks))
    && (facts.deathCheckId.Some? ==> facts.deathCheckId.value !in CheckIds(s.pendingChecks))
    && (facts.deathNonce.Some? ==> facts.deathNonce.value !in Nonces(s.pendingChecks))
    && (facts.woundId.Some? ==> forall i :: 0 <= i < |s.characters| ==>
      Filled(facts.woundId.value) !in s.characters[i].wounds)
    && (facts.conditionId.Some? ==>
          forall i :: 0 <= i < |s.characters| ==> facts.conditionId.value !in ConditionIds(s.characters[i].conditions))
  }

  /** The bounded lists have room for what these events add to them. */
  predicate RoomFor(s: GameState, es: seq<Event>) {
    && (forall e :: e in es && e.PhysicalRollRequested? ==> |s.pendingChecks| < 16)
    && forall e, c :: e in es && e.ConditionApplied? && c in s.characters && c.characterId == e.characterId ==>
      |c.conditions| < 32
  }

  lemma RoomParts(s: GameState, es: seq<Event>, more: seq<Event>)
    requires RoomFor(s, es + more)
    ensures RoomFor(s, es) && RoomFor(s, more)
  {
    forall e | e in es || e in more ensures e in es + more {}
  }

  predicate EnemiesApart(s: GameState) {
    s.combat.Some? ==>
      forall i :: 0 <= i < |s.combat.value.participants| && s.combat.value.participants[i].role.Enemy? ==>
        s.combat.value.participants[i].actorId !in ActorIds(s.characters)
  }

  // ----- What the effects rely on -----

  /** The combat's places and objectives and the heroes' conditions are still those the decision saw. */
  predicate Unmoved(s: GameState, u: GameState) {
    && s.combat.Some? && u.combat.Some?
    && SamePlaces(s.combat.value, u.combat.value)
    && SameConditions(s.characters, u.characters)
  }

  predicate SamePlaces(c: Combat, d: Combat) {
    && d.combatId == c.combatId && d.zones == c.zones && SameTracks(c.objectives, d.objectives)
    && |d.participants| == |c.participants|
    && forall k :: 0 <= k < |c.participants| ==>
         d.participants[k].actorId == c.participants[k].actorId && d.participants[k].zoneId == c.participants[k].zoneId
  }

  predicate SameTracks(os: seq<Objective>, qs: seq<Objective>) {
    && |qs| == |os|
    && forall k :: 0 <= k < |os| ==>
         qs[k].objectiveId == os[k].objectiveId && qs[k].progress == os[k].progress
         && qs[k].threshold == os[k].threshold
  }

  predicate SameConditions(cs: seq<Character>, ds: seq<Character>) {
    && |ds| == |cs|
    && forall k :: 0 <= k < |cs| ==>
         ds[k].characterId == cs[k].characterId && ds[k].actorId == cs[k].actorId
           && ds[k].conditions == cs[k].conditions
  }

  lemma SamePlacesFind(c: Combat, d: Combat, actor: Id, zone: ZoneId)
    requires SamePlaces(c, d)
    ensures FindParticipant(d, actor) == FindParticipant(c, actor)
    ensures Occupancy(d.participants, zone) == Occupancy(c.participants, zone)
  {
    assert ParticipantIds(d.participants) == ParticipantIds(c.participants);
    OccupancySame(c.participants, d.participants, zone);
  }

  lemma MovedFromApplies(s: GameState, u: GameState, i: nat, to: ZoneId)
    requires ValidGameState(u) && Unmoved(s, u) && i < |s.combat.Get().participants|
    requires FindParticipant(s.combat.Get(), At(s.combat.Get().participants, i).actorId) == Some(i)
             && HasRoom(s.combat.Get(), to)
    ensures var c := s.combat.Get();
            Apply(u, ActorMoved(c.combatId, At(c.participants, i).actorId, At(c.participants, i).zoneId, to)).Done?
  {
    hide ValidGameState, Apply, Occupancy, IndexOf, FindChallenge, FindParticipant, FindZone, ValidChallenge;
    var c := s.combat.value;
    SamePlacesFind(c, u.combat.value, c.participants[i].actorId, to);
    MoveApplies(u, i, to, FindZone(c.zones, to).value);
  }

  lemma ObjectiveBounds(c: Combat, i: nat)
    requires ValidCombat(c) && i < |c.objectives|
    ensures 0 <= c.objectives[i].progress <= c.objectives[i].threshold
  {
    hide ValidCombat, ActiveSound, ParticipantsSound, OverlaysSound, OccupancyFits, ParticipantIds, StatusSound,
         ZoneIds;
    CombatActive(c);
    assert c.objectives[i] in c.objectives;
  }

  // ----- What the reducer asks of several effects -----

  /** An event that changes what another effect of the same kind was computed from. */
  predicate Changing(e: Event) {
    || (e.ActorMoved? && e.fromZone != e.toZone) || (e.ObjectiveAdvanced? && e.previous != e.current)
    || e.ConditionApplied?
  }

  /** The effects that change a place, an objective or a hero's conditions. */
  predicate ChangesState(e: Effect) {
    e.MoveEffect? || e.AdvanceTrack? || e.ConditionEffect?
  }

  function ChangesIn(es: seq<Event>): nat {
    if es == [] then 0 else (if Changing(es[0]) then 1 else 0) + ChangesIn(es[1..])
  }

  function RestoresIn(es: seq<Event>): nat {
    if es == [] then 0 else (if es[0].ReactionRestored? then 1 else 0) + RestoresIn(es[1..])
  }

  /** The actor is a participant whose reaction is spent. */
  predicate ReactionSpent(s: GameState, actor: Id) {
    && s.combat.Some?
    && match FindParticipant(s.combat.value, actor)
       case None => false
       case Some(i) => !s.combat.value.participants[i].reactionAvailable
  }

  predicate RestoresFit(s: GameState, es: seq<Event>) {
    forall e :: e in es && e.ReactionRestored? ==> ReactionSpent(s, e.actorId)
  }

  /** At most one move, track or condition, and at most one restored reaction, which was spent. */
  predicate EffectsFit(s: GameState, es: seq<Event>) {
    ChangesIn(es) <= 1 && RestoresIn(es) <= 1 && RestoresFit(s, es)
  }

  /** Where somebody is to be moved there is room. */
  predicate MovesFit(s: GameState, es: seq<Event>) {
    forall e :: e in es && e.ActorMoved? ==> s.combat.Some? && HasRoom(s.combat.value, e.toZone)
  }

  /** The events go on one after the other, after a change or not, while the reaction is spent or not. */
  predicate Go(es: seq<Event>, changed: bool, spent: bool) {
    es == []
    || (if Changing(es[0]) then !changed && Go(es[1..], true, spent)
        else if es[0].ReactionRestored? then spent && Go(es[1..], changed, false)
        else Go(es[1..], changed, spent))
  }

  lemma {:induction false} GoExactly(es: seq<Event>, changed: bool, spent: bool)
    ensures Go(es, changed, spent) <==>
            ChangesIn(es) <= (if changed then 0 else 1) && RestoresIn(es) <= (if spent then 1 else 0)
    decreases |es|
  {
    hide Changing;
    if es != [] {
      ChangingRestoresNothing(es[0]);
      GoExactly(es[1..], changed || Changing(es[0]), spent && !es[0].ReactionRestored?);
    }
  }

  lemma ChangingRestoresNothing(e: Event)
    ensures Changing(e) ==> !e.ReactionRestored?
  {}

  // ----- One effect after the other -----

  /** What another effect would have to find unchanged is no longer what the decision saw. */
  predicate Used(s: GameState, facts: Facts, target: Target, u: GameState) {
    && s.combat.Some? && u.combat.Some?
    && match target
       case OnActorToZone(actor, zone) =>
         (match FindParticipant(s.combat.value, actor)
          case None => false
          case Some(i) =>
            && FindParticipant(u.combat.value, actor) == Some(i)
            && s.combat.value.participants[i].zoneId != zone
            && u.combat.value.participants[i].zoneId == zone)
       case OnObjective(objective) =>
         (match IndexOf(ObjectiveIds(s.combat.value.objectives), objective)
          case None => false
          case Some(i) =>
            && IndexOf(ObjectiveIds(u.combat.value.objectives), objective) == Some(i)
            && s.combat.value.objectives[i].progress < s.combat.value.objectives[i].threshold
            && u.combat.value.objectives[i].progress != s.combat.value.objectives[i].progress)
       case OnActor(actor) =>
         (match FindActor(s, actor)
          case None => false
          case Some(h) =>
            && FindCharacter(u, s.characters[h].characterId) == Some(h) && facts.conditionId.Some?
            && facts.conditionId.value in ConditionIds(u.characters[h].conditions))
       case _ => false
  }

  /** Before a change or after it. */
  predicate Reached(s: GameState, facts: Facts, target: Target, u: GameState, changed: bool) {
    if changed then Used(s, facts, target, u) else Unmoved(s, u)
  }

  lemma ReactionSpentKept(u: GameState, v: GameState, actor: Id)
    requires u.combat.Some? && v.combat.Some? && |u.combat.value.participants| == |v.combat.value.participants|
    requires forall k :: 0 <= k < |u.combat.value.participants| ==>
               v.combat.value.participants[k].actorId == u.combat.value.participants[k].actorId
               && v.combat.value.participants[k].reactionAvailable == u.combat.value.participants[k].reactionAvailable
    ensures ReactionSpent(v, actor) <==> ReactionSpent(u, actor)
  {
    hide ParticipantIds;
    assert ParticipantIds(v.combat.value.participants) == ParticipantIds(u.combat.value.participants);
  }

  lemma MoveStep(s: GameState, facts: Facts, target: Target, u: GameState, e: Event) returns (v: GameState)
    requires ValidGameState(u) && Unmoved(s, u) && target.OnActorToZone?
    requires FindParticipant(s.combat.Get(), target.Actor()).Some? && HasRoom(s.combat.Get(), target.Place())
    requires var c := s.combat.Get();
             e == ActorMoved(c.combatId, target.Actor(),
                             At(c.participants, FindParticipant(c, target.Actor()).Get()).zoneId, target.Place())
    ensures Apply(u, e) == Done(v) && Reached(s, facts, target, v, Changing(e))
    ensures ReactionSpent(v, target.Actor()) <==> ReactionSpent(u, target.Actor())
  {
    hide ValidGameState, Apply, Occupancy, IndexOf, ReactionSpent, SameConditions, FindChallenge, FindZone,
         ValidChallenge;
    var c, d := s.combat.value, u.combat.value;
    var i := FindParticipant(c, target.actorId).value;
    SamePlacesFind(c, d, target.actorId, target.zoneId);
    MoveApplies(u, i, target.zoneId, FindZone(c.zones, target.zoneId).value);
    v := Apply(u, e).value;
    SameParticipantIds(d.participants, i, v.combat.value.participants[i]);
    ReactionSpentKept(u, v, target.actorId);
  }

  lemma SameTracksFind(os: seq<Objective>, qs: seq<Objective>, objective: Id)
    requires SameTracks(os, qs)
    ensures IndexOf(ObjectiveIds(qs), objective) == IndexOf(ObjectiveIds(os), objective)
  {
    assert ObjectiveIds(qs) == ObjectiveIds(os);
  }

  lemma AdvanceStep(s: GameState, facts: Facts, target: Target, u: GameState, amount: int) returns (v: GameState)
    requires ValidGameState(u) && Unmoved(s, u) && target.OnObjective? && amount >= 1
    requires AdvanceBy(s.combat.Get(), target.Objective(), amount).Done?
    ensures var es := AdvanceBy(s.combat.Get(), target.Objective(), amount).Get();
            |es| == 1 && At(es, 0).ObjectiveAdvanced? && Apply(u, At(es, 0)) == Done(v)
            && Reached(s, facts, target, v, Changing(At(es, 0)))
    ensures ReactionSpent(v, 0) <==> ReactionSpent(u, 0)
  {
    hide ValidGameState, Apply, IndexOf, ReactionSpent, SameConditions, SummonAll, Reached, ValidCombat, ValidParty,
         ValidPendings, ValidChallenges, ValidRituals;
    var c := u.combat.value;
    SameTracksFind(s.combat.value.objectives, c.objectives, target.objectiveId);
    var i := IndexOf(ObjectiveIds(c.objectives), target.objectiveId).value;
    var o := c.objectives[i];
    ValidParts(u);
    ObjectiveBounds(c, i);
    var current := Min(o.threshold, o.progress + amount);
    ObjectiveApplies(u, i, target.objectiveId, current);
    var status := if current == o.threshold then ObjectiveCompleted else ObjectiveActive;
    v := WithCombat(u, Advanced(c, i, current, status));
    AdvancedReached(s, facts, target, u, i, current, status);
    AdvancedParts(c, i, current, status);
    ReactionSpentKept(u, v, 0);
  }

  lemma AdvancedParts(c: Combat, i: nat, current: int, status: ObjectiveStatus)
    requires i < |c.objectives|
    ensures var d := Advanced(c, i, current, status);
            && d == c.(objectives := c.objectives[i := c.objectives[i].(progress := current, status := status)],
                       participants := d.participants)
            && |d.participants| == |c.participants|
            && forall k :: 0 <= k < |c.participants| ==>
                 d.participants[k] == c.participants[k].(activationSpent := d.participants[k].activationSpent)
  {}

  lemma AdvancedReached(s: GameState, facts: Facts, target: Target, u: GameState, i: nat, current: int,
      status: ObjectiveStatus)
    requires Unmoved(s, u) && target.OnObjective? && i < |u.combat.value.objectives|
    requires IndexOf(ObjectiveIds(s.combat.value.objectives), target.objectiveId) == Some(i)
    requires current <= u.combat.value.objectives[i].threshold
             && u.combat.value.objectives[i].progress <= current
    ensures Reached(s, facts, target, WithCombat(u, Advanced(u.combat.value, i, current, status)),
                    u.combat.value.objectives[i].progress != current)
  {
    hide IndexOf, SameConditions, Advanced, ObjectiveIds;
    var c := u.combat.value;
    AdvancedParts(c, i, current, status);
    var d := Advanced(c, i, current, status);
    assert ObjectiveIds(d.objectives) == ObjectiveIds(c.objectives);
    SameTracksFind(s.combat.value.objectives, c.objectives, target.objectiveId);
  }

  lemma ConditionStep(s: GameState, facts: Facts, target: Target, u: GameState, condition: Condition)
      returns (v: GameState)
    requires ValidGameState(s) && ValidGameState(u) && Unmoved(s, u) && target.OnActor?
    requires FindActor(s, target.Actor()).Some? && facts.conditionId == Some(condition.conditionId)
    requires var hero := At(s.characters, FindActor(s, target.Actor()).Get());
             |hero.conditions| < 32 && condition.conditionId !in ConditionIds(hero.conditions)
    ensures Apply(u, ConditionApplied(At(s.characters, FindActor(s, target.Actor()).Get()).characterId, condition)) ==
            Done(v)
    ensures Used(s, facts, target, v)
    ensures ReactionSpent(v, target.Actor()) <==> ReactionSpent(u, target.Actor())
  {
    hide ValidGameState, Apply, ReactionSpent, ValidParty, FindActor, ConditionIds, CharacterIds;
    var h := FindActor(s, target.actorId).value;
    ConditionApplies(u, h, condition);
    v := WithCharacter(u, h, u.characters[h].(conditions := u.characters[h].conditions + [condition]));
    var ids := ConditionIds(v.characters[h].conditions);
    assert ids[|ids| - 1] == condition.conditionId;
    HeroFound(u, h);
    assert CharacterIds(v.characters) == CharacterIds(u.characters);
    ReactionSpentKept(u, v, target.actorId);
  }

  lemma HeroFound(u: GameState, h: nat)
    requires ValidGameState(u) && h < |u.characters|
    ensures FindCharacter(u, At(u.characters, h).characterId) == Some(h)
  {
    hide ValidGameState, ValidCombat, ValidPendings, ValidChallenges, ValidRituals, FindActor, ValidCharacter;
    ValidParts(u);
    IndexOfDistinct(CharacterIds(u.characters), h);
  }

  /** After a change no second one is applied. */
  lemma ChangeRefused(s: GameState, facts: Facts, catalog: Catalog, target: Target, u: GameState, effect: Effect)
    requires Used(s, facts, target, u) && EffectEvents(s, facts, catalog, s.combat.Get(), target, effect).Done?
    requires ChangesState(effect) && WellFormedEffect(effect)
    ensures var es := EffectEvents(s, facts, catalog, s.combat.Get(), target, effect).Get();
            |es| == 1 && Changing(At(es, 0)) && Apply(u, At(es, 0)).Refused?
  {
    hide Step, IndexOf, ByReference, Apply, FindParticipant, ObjectiveIds;
    var e := EffectEvents(s, facts, catalog, s.combat.value, target, effect).value[0];
    match effect
    case MoveEffect(_, _) => MovedRefused(u, e.combatId, e.actorId, e.fromZone, e.toZone);
    case AdvanceTrack(_, _) => AdvancedRefused(u, e.objectiveId, e.previous, e.current, e.objectiveStatus);
    case ConditionEffect(_, _) => ConditionRefused(u, e.characterId, e.condition);
  }

  lemma MovedRefused(u: GameState, combatId: Id, actor: Id, from: ZoneId, to: ZoneId)
    requires u.combat.Some?
    requires FindParticipant(u.combat.Get(), actor).Some? ==>
               At(u.combat.Get().participants, FindParticipant(u.combat.Get(), actor).Get()).zoneId != from
    ensures Apply(u, ActorMoved(combatId, actor, from, to)).Refused?
  {
    hide ValidGameState, IndexOf, Occupancy, FindParticipant;
  }

  lemma AdvancedRefused(u: GameState, objective: Id, previous: int, current: int, status: ObjectiveStatus)
    requires u.combat.Some?
    requires var os := u.combat.Get().objectives;
             IndexOf(ObjectiveIds(os), objective).Some? ==>
               At(os, IndexOf(ObjectiveIds(os), objective).Get()).progress != previous
    ensures Apply(u, ObjectiveAdvanced(objective, previous, current, status)).Refused?
  {
    hide ValidGameState, IndexOf, ObjectiveIds;
  }

  lemma ConditionRefused(u: GameState, id: Id, condition: Condition)
    requires FindCharacter(u, id).Some? ==>
               condition.conditionId in ConditionIds(At(u.characters, FindCharacter(u, id).Get()).conditions)
    ensures Apply(u, ConditionApplied(id, condition)).Refused?
  {
    hide ValidGameState, IndexOf, FindCharacter, ConditionIds;
  }

  lemma RestoreStep(s: GameState, facts: Facts, target: Target, u: GameState, changed: bool) returns (v: GameState)
    requires ValidGameState(u) && Reached(s, facts, target, u, changed) && (target.OnActor? || target.OnSelf?)
    ensures Apply(u, ReactionRestored(target.Actor())).Done? <==> ReactionSpent(u, target.Actor())
    ensures ReactionSpent(u, target.Actor()) ==>
              Apply(u, ReactionRestored(target.Actor())) == Done(v) && Reached(s, facts, target, v, changed)
              && !ReactionSpent(v, target.Actor())
  {
    hide ValidGameState, Apply, ParticipantIds;
    v := u;
    if ReactionSpent(u, target.actorId) {
      var i := FindParticipant(u.combat.value, target.actorId).value;
      RestoreApplies(u, i);
      v := Apply(u, ReactionRestored(target.actorId)).value;
      SameParticipantIds(u.combat.value.participants, i, v.combat.value.participants[i]);
    } else {
      RestoreNeedsSpent(u, target.actorId);
    }
  }

  lemma RestoreNeedsSpent(u: GameState, actor: Id)
    requires !ReactionSpent(u, actor)
    ensures Apply(u, ReactionRestored(actor)).Refused?
  {
    hide ValidGameState, IndexOf;
  }

  lemma RestoreApplies(u: GameState, i: nat)
    requires ValidGameState(u) && u.combat.Some? && i < |u.combat.Get().participants|
    requires var c := u.combat.Get();
             FindParticipant(c, At(c.participants, i).actorId) == Some(i) && !At(c.participants, i).reactionAvailable
    ensures var c := u.combat.Get();
            Apply(u, ReactionRestored(At(c.participants, i).actorId)) ==
              Done(WithCombat(u, WithParticipant(c, i, At(c.participants, i).(reactionAvailable := true))))
  {
    hide ValidGameState, ValidCombat, IndexOf, OccupancyFits, ActiveSound, ValidParty, ValidPendings, ValidChallenges,
         FindParticipant;
    var c := u.combat.value;
    var p := c.participants[i].(reactionAvailable := true);
    var d := WithParticipant(c, i, p);
    ValidParts(u);
    CombatActive(c);
    assert ParticipantSound(c.zones, c.round, c.objectives, c.participants[i]);
    SamePlacesFit(c.zones, c.participants, d.participants);
    ReadyActive(c, i, p);
    ParticipantReplaced(c, i, p, d);
    WithCombatValid(u, d);
  }

  lemma ReadyActive(c: Combat, i: nat, p: Participant)
    requires ActiveSound(c) && i < |c.participants| && p == c.participants[i].(reactionAvailable := true)
    ensures ActiveSound(WithParticipant(c, i, p))
  {
    hide ParticipantIds;
    SameParticipantIds(c.participants, i, p);
  }

  // ----- All effects of an ability -----

  lemma InertEffect(s: GameState, facts: Facts, catalog: Catalog, c: Combat, target: Target, e: Effect)
    requires EffectEvents(s, facts, catalog, c, target, e).Done?
    ensures !ChangesState(e) && !e.ReactionEffect? ==> EffectEvents(s, facts, catalog, c, target, e).Get() == []
    ensures e.ReactionEffect? ==>
              (target.OnActor? || target.OnSelf?)
              && EffectEvents(s, facts, catalog, c, target, e).Get() == [ReactionRestored(target.Actor())]
  {}

  lemma AppliedIsValid(u: GameState, e: Event, v: GameState)
    requires Apply(u, e) == Done(v)
    ensures ValidGameState(v)
  {
    hide ValidGameState, Step;
  }

  /** The first effect that may change something goes on; whether it did, its event tells. */
  lemma EffectStep(s: GameState, facts: Facts, catalog: Catalog, target: Target, effect: Effect, u: GameState)
      returns (v: GameState)
    requires ValidGameState(s) && ValidGameState(u) && Unmoved(s, u) && FreshFacts(s, facts)
    requires s.combat.Some? && ChangesState(effect) && WellFormedEffect(effect)
    requires EffectEvents(s, facts, catalog, s.combat.Get(), target, effect).Done?
    requires var es := EffectEvents(s, facts, catalog, s.combat.Get(), target, effect).Get();
             RoomFor(s, es) && MovesFit(s, es)
    ensures var es := EffectEvents(s, facts, catalog, s.combat.Get(), target, effect).Get();
            |es| == 1 && !At(es, 0).ReactionRestored? && Apply(u, At(es, 0)) == Done(v)
            && Reached(s, facts, target, v, Changing(At(es, 0)))
    ensures ReactionSpent(v, target.Actor()) <==> ReactionSpent(u, target.Actor())
  {
    hide ValidGameState, Apply, HasRoom, ReactionSpent, Reached, Unmoved, ByReference, IndexOf;
    var e := EffectEvents(s, facts, catalog, s.combat.value, target, effect).value[0];
    assert e in EffectEvents(s, facts, catalog, s.combat.value, target, effect).value;
    match effect
    case MoveEffect(_, _) => v := MoveStep(s, facts, target, u, e);
    case AdvanceTrack(_, amount) => v := AdvanceStep(s, facts, target, u, amount);
    case ConditionEffect(_, _) =>
      assert s.characters[FindActor(s, target.actorId).value] in s.characters;
      v := ConditionStep(s, facts, target, u, e.condition);
      UsedIsReached(s, facts, target, v);
  }

  lemma UsedIsReached(s: GameState, facts: Facts, target: Target, v: GameState)
    requires Used(s, facts, target, v)
    ensures Reached(s, facts, target, v, true)
  {
    hide Used;
  }

  /** The effects of an ability are applied one after the other exactly when the reducer can go on with each. */
  lemma {:induction false} EffectsGo(s: GameState, facts: Facts, catalog: Catalog, target: Target, es: seq<Effect>,
      u: GameState, changed: bool)
    requires ValidGameState(s) && ValidGameState(u) && s.combat.Some? && FreshFacts(s, facts) && WellFormedEffects(es)
    requires AllEffects(s, facts, catalog, s.combat.Get(), target, es).Done?
    requires var events := AllEffects(s, facts, catalog, s.combat.Get(), target, es).Get();
             RoomFor(s, events) && MovesFit(s, events)
    requires Reached(s, facts, target, u, changed)
    ensures var events := AllEffects(s, facts, catalog, s.combat.Get(), target, es).Get();
            Fold(u, events).Done? <==> Go(events, changed, ReactionSpent(u, target.Actor()))
    decreases |es|
  {
    hide ValidGameState, Apply, EffectEvents, RoomFor, MovesFit, ReactionSpent, Reached, FreshFacts, Changing,
         WellFormedEffect, Used, Unmoved;
    if es != [] {
      var c := s.combat.value;
      var first, rest := EffectEvents(s, facts, catalog, c, target, es[0]).value,
        AllEffects(s, facts, catalog, c, target, es[1..]).value;
      var events := AllEffects(s, facts, catalog, c, target, es).value;
      assert events == first + rest;
      RoomParts(s, first, rest);
      MovesParts(s, first, rest);
      InertEffect(s, facts, catalog, c, target, es[0]);
      if es[0].ReactionEffect? {
        RestoreGoes(s, facts, catalog, target, es, u, changed);
      } else if ChangesState(es[0]) && changed {
        ReachedIsUsed(s, facts, target, u);
        ChangeRefused(s, facts, catalog, target, u, es[0]);
        assert events[0] == first[0];
      } else if ChangesState(es[0]) {
        ReachedIsUnmoved(s, facts, target, u);
        var v := EffectStep(s, facts, catalog, target, es[0], u);
        assert events[0] == first[0] && events[1..] == rest;
        AppliedIsValid(u, first[0], v);
        EffectsGo(s, facts, catalog, target, es[1..], v, Changing(first[0]));
      } else {
        assert events == rest;
        EffectsGo(s, facts, catalog, target, es[1..], u, changed);
      }
    }
  }

  lemma {:induction false} RestoreGoes(s: GameState, facts: Facts, catalog: Catalog, target: Target, es: seq<Effect>,
      u: GameState, changed: bool)
    requires ValidGameState(s) && ValidGameState(u) && s.combat.Some? && FreshFacts(s, facts) && WellFormedEffects(es)
    requires es != [] && At(es, 0).ReactionEffect? && AllEffects(s, facts, catalog, s.combat.Get(), target, es).Done?
    requires var events := AllEffects(s, facts, catalog, s.combat.Get(), target, es).Get();
             RoomFor(s, events) && MovesFit(s, events)
    requires Reached(s, facts, target, u, changed)
    ensures var events := AllEffects(s, facts, catalog, s.combat.Get(), target, es).Get();
            Fold(u, events).Done? <==> Go(events, changed, ReactionSpent(u, target.Actor()))
    decreases |es|, 0
  {
    hide ValidGameState, Apply, EffectEvents, RoomFor, MovesFit, ReactionSpent, Reached, FreshFacts, WellFormedEffect,
         ChangesState;
    var c := s.combat.value;
    var first, rest := EffectEvents(s, facts, catalog, c, target, es[0]).value,
      AllEffects(s, facts, catalog, c, target, es[1..]).value;
    var events := AllEffects(s, facts, catalog, c, target, es).value;
    assert events == first + rest;
    RoomParts(s, first, rest);
    MovesParts(s, first, rest);
    InertEffect(s, facts, catalog, c, target, es[0]);
    var v := RestoreStep(s, facts, target, u, changed);
    assert events[0] == ReactionRestored(target.actorId) && events[1..] == rest;
    if ReactionSpent(u, target.actorId) {
      AppliedIsValid(u, events[0], v);
      EffectsGo(s, facts, catalog, target, es[1..], v, changed);
    }
  }

  lemma MovesParts(s: GameState, es: seq<Event>, more: seq<Event>)
    requires MovesFit(s, es + more)
    ensures MovesFit(s, es) && MovesFit(s, more)
  {
    hide HasRoom;
    forall e | e in es || e in more ensures e in es + more {}
  }

  lemma ReachedIsUsed(s: GameState, facts: Facts, target: Target, u: GameState)
    requires Reached(s, facts, target, u, true)
    ensures Used(s, facts, target, u)
  {
    hide Used;
  }

  lemma ReachedIsUnmoved(s: GameState, facts: Facts, target: Target, u: GameState)
    requires Reached(s, facts, target, u, false)
    ensures Unmoved(s, u)
  {
    hide Unmoved;
  }

  /** All events of one ability that restore a reaction restore its target's. */
  lemma {:induction false} RestoresWhom(s: GameState, facts: Facts, catalog: Catalog, c: Combat, target: Target,
      es: seq<Effect>)
    requires AllEffects(s, facts, catalog, c, target, es).Done?
    ensures forall e :: e in AllEffects(s, facts, catalog, c, target, es).Get() && e.ReactionRestored? ==>
              e.actorId == target.Actor()
  {
    hide EffectEvents;
    if es != [] {
      RestoresWhom(s, facts, catalog, c, target, es[1..]);
      RestoreWhom(s, facts, catalog, c, target, es[0]);
    }
  }

  lemma RestoreWhom(s: GameState, facts: Facts, catalog: Catalog, c: Combat, target: Target, e: Effect)
    requires EffectEvents(s, facts, catalog, c, target, e).Done?
    ensures forall x :: x in EffectEvents(s, facts, catalog, c, target, e).Get() && x.ReactionRestored? ==>
              x.actorId == target.Actor()
  {
    hide IndexOf, ByReference;
  }

  /** The effects of an ability, each computed from the state before, are applied if and only if they make at most one
      change and restore at most one reaction, which was spent. */
  lemma EffectsExactly(s: GameState, facts: Facts, catalog: Catalog, target: Target, es: seq<Effect>, u: GameState)
    requires ValidGameState(s) && ValidGameState(u) && Unmoved(s, u) && FreshFacts(s, facts) && WellFormedEffects(es)
    requires AllEffects(s, facts, catalog, s.combat.Get(), target, es).Done?
    requires var events := AllEffects(s, facts, catalog, s.combat.Get(), target, es).Get();
             RoomFor(s, events) && MovesFit(s, events)
    ensures var events := AllEffects(s, facts, catalog, s.combat.Get(), target, es).Get();
            Fold(u, events).Done? <==> EffectsFit(u, events)
  {
    hide ValidGameState, Fold, AllEffects, RoomFor, MovesFit, ReactionSpent, Go, ChangesIn, RestoresIn, FreshFacts,
         WellFormedEffects;
    var events := AllEffects(s, facts, catalog, s.combat.value, target, es).value;
    EffectsGo(s, facts, catalog, target, es, u, false);
    GoExactly(events, false, ReactionSpent(u, target.Actor()));
    RestoresWhom(s, facts, catalog, s.combat.value, target, es);
    RestoresCounted(events);
  }

  lemma {:induction false} RestoresCounted(es: seq<Event>)
    ensures RestoresIn(es) == 0 <==> forall e :: e in es ==> !e.ReactionRestored?
  {
    if es != [] {
      RestoresCounted(es[1..]);
      assert es == [es[0]] + es[1..];
    }
  }

  // ----- What comes before the effects -----

  /** The events of an impact, and the end of a fight it brings. */
  predicate Striking(e: Event) {
    e.ImpactApplied? || e.BossOverlayActivated? || e.CombatResolved? || e.WoundMarked? || e.PhysicalRollRequested?
    || e.DeathTestPending?
  }

  predicate AllStriking(es: seq<Event>) {
    forall i :: 0 <= i < |es| ==> Striking(es[i])
  }

  /** Neither places, objectives and conditions nor reactions differ. */
  predicate Still(u: GameState, v: GameState) {
    Unmoved(u, v) && SameReactions(u.combat.value.participants, v.combat.value.participants)
  }

  predicate SameReactions(ps: seq<Participant>, qs: seq<Participant>) {
    |qs| == |ps| && forall k :: 0 <= k < |ps| ==>
      qs[k].actorId == ps[k].actorId && qs[k].reactionAvailable == ps[k].reactionAvailable
  }

  lemma StillSpent(u: GameState, v: GameState, es: seq<Event>)
    requires Still(u, v)
    ensures RestoresFit(v, es) <==> RestoresFit(u, es)
  {
    hide ReactionSpent, SamePlaces, SameConditions;
    forall e | e in es && e.ReactionRestored?
      ensures ReactionSpent(v, e.actorId) <==> ReactionSpent(u, e.actorId) {
      ReactionSpentKept(u, v, e.actorId);
    }
  }

  lemma StillChain(s: GameState, u: GameState, v: GameState)
    requires Unmoved(s, u) && Still(u, v)
    ensures Unmoved(s, v)
  {}

  lemma StillTwice(u: GameState, v: GameState, w: GameState)
    requires Still(u, v) && Still(v, w)
    ensures Still(u, w)
  {}

  lemma StillSelf(u: GameState)
    requires u.combat.Some?
    ensures Still(u, u)
  {}

  lemma StrikingStill(u: GameState, e: Event, v: GameState)
    requires Striking(e) && Apply(u, e) == Done(v) && u.combat.Some?
    ensures Still(u, v)
  {
    hide Still, StepCheck, StepHarm, StepTurn, ValidGameState;
    if e.ImpactApplied? || e.BossOverlayActivated? || e.WoundMarked? {
      HarmStill(u, e, v);
    } else if e.CombatResolved? {
      EndStill(u, e, v);
    } else {
      AskedStill(u, e, v);
    }
  }

  lemma HarmStill(u: GameState, e: Event, v: GameState)
    requires (e.ImpactApplied? || e.BossOverlayActivated? || e.WoundMarked?) && StepHarm(u, e) == Done(v)
    requires u.combat.Some?
    ensures Still(u, v)
  {
    hide IndexOf, ImpactOf, ReplaceOverlays, FillsOneSlot;
  }

  lemma EndStill(u: GameState, e: Event, v: GameState)
    requires e.CombatResolved? && StepTurn(u, e) == Done(v)
    ensures Still(u, v)
  {
    hide AdvanceRound, SpendSlot, MoveActor, RestoreSlot, ProgressObjective;
  }

  lemma AskedStill(u: GameState, e: Event, v: GameState)
    requires (e.PhysicalRollRequested? || e.DeathTestPending?) && StepCheck(u, e) == Done(v) && u.combat.Some?
    ensures Still(u, v)
  {
    hide IndexOf, CancelRoll, AwaitRitual, ReopenRitual, AwaitChallenge, AwaitSocial;
  }

  lemma {:induction false} StrikingFoldStill(u: GameState, es: seq<Event>, v: GameState)
    requires AllStriking(es) && Fold(u, es) == Done(v) && u.combat.Some?
    ensures Still(u, v)
    decreases |es|
  {
    hide Apply, Striking, Still;
    if es == [] {
      StillSelf(u);
    } else {
      var w := Apply(u, es[0]).value;
      StrikingStill(u, es[0], w);
      StillHasCombat(u, w);
      StrikingFoldStill(w, es[1..], v);
      StillTwice(u, w, v);
    }
  }

  lemma StillHasCombat(u: GameState, v: GameState)
    requires Still(u, v)
    ensures v.combat.Some?
  {}

  /** Events that neither change what effects rely on nor restore or move anything. */
  predicate Idle(e: Event) {
    !Changing(e) && !e.ReactionRestored? && !e.ActorMoved?
  }

  predicate AllIdle(es: seq<Event>) {
    forall i :: 0 <= i < |es| ==> Idle(es[i])
  }

  lemma StrikingIdle(es: seq<Event>)
    requires AllStriking(es)
    ensures AllIdle(es)
  {}

  lemma {:induction false} CountsJoin(es: seq<Event>, more: seq<Event>)
    ensures ChangesIn(es + more) == ChangesIn(es) + ChangesIn(more)
    ensures RestoresIn(es + more) == RestoresIn(es) + RestoresIn(more)
  {
    hide Changing;
    if es == [] {
      assert es + more == more;
    } else {
      assert (es + more)[1..] == es[1..] + more;
      CountsJoin(es[1..], more);
    }
  }

  lemma {:induction false} IdleCounts(es: seq<Event>)
    requires AllIdle(es)
    ensures ChangesIn(es) == 0 && RestoresIn(es) == 0
  {
    if es != [] {
      IdleCounts(es[1..]);
    }
  }

  /** Idle events around the effects ask for nothing. */
  lemma IdleAround(s: GameState, before: seq<Event>, es: seq<Event>, after: seq<Event>)
    requires AllIdle(before) && AllIdle(after)
    ensures EffectsFit(s, before + es + after) <==> EffectsFit(s, es)
    ensures MovesFit(s, before + es + after) <==> MovesFit(s, es)
  {
    hide ReactionSpent, HasRoom, Changing, ChangesIn, RestoresIn;
    CountsJoin(before + es, after);
    CountsJoin(before, es);
    IdleCounts(before);
    IdleCounts(after);
    forall e | e in before + es + after && (e.ReactionRestored? || e.ActorMoved?) ensures e in es {}
    forall e | e in es ensures e in before + es + after {}
  }

  lemma IdleBefore(s: GameState, before: seq<Event>, es: seq<Event>)
    requires AllIdle(before)
    ensures EffectsFit(s, before + es) <==> EffectsFit(s, es)
    ensures MovesFit(s, before + es) <==> MovesFit(s, es)
  {
    hide EffectsFit, MovesFit, Idle;
    IdleAround(s, before, es, []);
    assert before + es + [] == before + es;
  }

  lemma IdleFits(s: GameState, es: seq<Event>)
    requires AllIdle(es)
    ensures EffectsFit(s, es) && MovesFit(s, es)
  {
    hide ReactionSpent, HasRoom, Changing, ChangesIn, RestoresIn;
    IdleCounts(es);
  }

  // ----- Where somebody is moved -----

  /** Abilities move their target, and nothing else happens to somebody who is moved. */
  lemma {:induction false} MovesTarget(s: GameState, facts: Facts, catalog: Catalog, c: Combat, target: Target,
      es: seq<Effect>)
    requires AllEffects(s, facts, catalog, c, target, es).Done?
    ensures forall e :: e in AllEffects(s, facts, catalog, c, target, es).Get() ==>
              (e.ActorMoved? <==> target.OnActorToZone?) && (e.ActorMoved? ==> e.toZone == target.Place())
  {
    hide EffectEvents;
    if es != [] {
      MovesTarget(s, facts, catalog, c, target, es[1..]);
      MoveTarget(s, facts, catalog, c, target, es[0]);
    }
  }

  lemma MoveTarget(s: GameState, facts: Facts, catalog: Catalog, c: Combat, target: Target, e: Effect)
    requires EffectEvents(s, facts, catalog, c, target, e).Done?
    ensures forall x :: x in EffectEvents(s, facts, catalog, c, target, e).Get() ==>
              (x.ActorMoved? <==> target.OnActorToZone?) && (x.ActorMoved? ==> x.toZone == target.Place())
  {
    hide IndexOf, ByReference;
  }

  /** What an enumerated target of a move effect guarantees: a standing place with room. */
  predicate TargetFits(c: Combat, target: Target) {
    target.OnActorToZone? ==> HasRoom(c, target.zoneId)
  }

  lemma TargetMovesFit(s: GameState, facts: Facts, catalog: Catalog, target: Target, es: seq<Effect>)
    requires s.combat.Some? && TargetFits(s.combat.Get(), target)
    requires AllEffects(s, facts, catalog, s.combat.Get(), target, es).Done?
    ensures MovesFit(s, AllEffects(s, facts, catalog, s.combat.Get(), target, es).Get())
  {
    hide AllEffects, HasRoom;
    MovesTarget(s, facts, catalog, s.combat.value, target, es);
  }
}
