/** Undoing a transaction: which events have an inverse, and the plan that applies them backwards. */
module Compensation {
  import opened Common
  import opened ZoneGraph
  import opened State
  import opened Validity
  import opened Events
  import opened Reducer

  datatype Refusal = SubmittedResult | DeathIsPermanent | NoInverse | NothingToUndo

  datatype Classification = NonStateChanging | Undoable | NonUndoable(refusal: Refusal)

  function Classify(e: Event): Classification {
    match e
    case CommandAccepted => NonStateChanging
    case CommandRejected => NonStateChanging
    case EnemyActionSelected(_, _) => NonStateChanging
    case TransactionCompensated => NonStateChanging
    case CheckResolvedSimulated(_) => NonStateChanging
    case CheckResolvedPhysical(_, _) => NonUndoable(SubmittedResult)
    case ResourceChanged(_, _, _, _) => Undoable
    case ActorMoved(_, _, _, _) => Undoable
    case SocialStanceChanged(_, _, _, _) => Undoable
    case LeverageCreated(_, _) => Undoable
    case ConditionApplied(_, _) => Undoable
    case PhysicalRollRequested(_, _, _) => Undoable
    case SparkSpent(_) => Undoable
    case ActionSlotSpent(_, _, _) => Undoable
    case CharacterDied(_) => NonUndoable(DeathIsPermanent)
    case CombatActionPending(_, _, _, _) => NonStateChanging
    case DeathTestPending(_, _, _) => NonStateChanging
    case ChallengeCheckPending(_, _) => NonStateChanging
    case SocialCheckPending(_, _, _, _) => NonStateChanging
    case RitualCheckPending(_, _) => NonStateChanging
    case _ => NonUndoable(NoInverse)
  }

  /** The event that takes an undoable event back; the source returns null for the others. */
  function Inverse(e: Event): Option<Event> {
    match e
    case ResourceChanged(owner, resource, previous, current) =>
      Some(ResourceChanged(owner, resource, current, previous))
    case ActorMoved(combat, actor, from, to) => Some(ActorMoved(combat, actor, to, from))
    case SocialStanceChanged(npc, before, after, degree) => Some(SocialStanceChanged(npc, after, before, degree))
    case LeverageCreated(npc, leverage) => Some(LeverageSpent(npc, leverage))
    case ConditionApplied(id, condition) => Some(ConditionRemoved(id, condition.conditionId))
    case PhysicalRollRequested(id, _, _) => Some(PhysicalRollCancelled(id))
    case SparkSpent(actor) => Some(SparkRestored(actor))
    case ActionSlotSpent(combat, actor, slot) => Some(ActionSlotRestored(combat, actor, slot))
    case _ => None
  }

  datatype Inverses = Planned(events: seq<Event>) | Declined(refusal: Refusal)
  {
    /** The way back, empty where there is none. */
    function Back(): seq<Event> {
      if Planned? then events else []
    }
  }

  /** The inverses of a transaction, latest event first; the latest event without one decides the refusal. */
  function InvertAll(es: seq<Event>): Inverses
    decreases |es|
  {
    if es == [] then Planned([])
    else
      var last := es[|es| - 1];
      var earlier := InvertAll(es[..|es| - 1]);
      match Classify(last)
      case NonStateChanging => earlier
      case NonUndoable(refusal) => Declined(refusal)
      case Undoable =>
        if Inverse(last).None? then Declined(NoInverse)
        else if earlier.Declined? then earlier
        else Planned([Inverse(last).value] + earlier.events)
  }

  function Plan(es: seq<Event>): Inverses {
    var inverses := InvertAll(es);
    if inverses.Declined? then inverses
    else if inverses.events == [] then Declined(NothingToUndo)
    else Planned(inverses.events + [TransactionCompensated])
  }

  /** `planTransactionCompensation`: one pass over the reversed events, pushing inverses. */
  method PlanTransactionCompensation(es: seq<Event>) returns (plan: Inverses)
    ensures plan == Plan(es)
  {
    hide Classify, Inverse;
    var inverses: seq<Event> := [];
    var k := |es|;
    assert es[..|es|] == es;
    while k > 0
      invariant 0 <= k <= |es|
      invariant InvertAll(es) == Prepend(inverses, InvertAll(es[..k]))
    {
      k := k - 1;
      assert es[..k + 1][..k] == es[..k];
      var classification := Classify(es[k]);
      if classification.NonUndoable? { return Declined(classification.refusal); }
      if classification.Undoable? {
        if Inverse(es[k]).None? { return Declined(NoInverse); }
        inverses := inverses + [Inverse(es[k]).value];
      }
    }
    if inverses == [] { return Declined(NothingToUndo); }
    return Planned(inverses + [TransactionCompensated]);
  }

  function Prepend(first: seq<Event>, rest: Inverses): Inverses {
    if rest.Declined? then rest else Planned(first + rest.events)
  }

  // ----- One event and its inverse -----

  /** The undoable events that leave no pending check behind; reaction slots are not among them. */
  predicate Simple(e: Event) {
    e.ResourceChanged? || e.ActorMoved? || e.SocialStanceChanged? || e.LeverageCreated? || e.ConditionApplied?
    || e.SparkSpent? || (e.ActionSlotSpent? && !e.spentSlot.ReactionSlot?)
  }

  predicate Neutral(e: Event) {
    e.CommandAccepted? || e.CommandRejected? || e.EnemyActionSelected? || e.TransactionCompensated?
      || e.CheckResolvedSimulated?
  }

  lemma SameCharacterIds(cs: seq<Character>, i: nat, c: Character)
    requires i < |cs| && c.characterId == cs[i].characterId && c.actorId == cs[i].actorId
    ensures CharacterIds(cs[i := c]) == CharacterIds(cs)
    ensures ActorIds(cs[i := c]) == ActorIds(cs)
    ensures cs[i := c][i := cs[i]] == cs
  {
    assert cs[i := c][i := cs[i]] == cs;
  }

  lemma FindLast(ps: seq<PendingCheck>, p: PendingCheck)
    requires p.checkId !in CheckIds(ps)
    ensures IndexOf(CheckIds(ps + [p]), p.checkId) == Some(|ps|)
  {
    assert CheckIds(ps + [p]) == CheckIds(ps) + [p.checkId];
    IndexOfAppended(CheckIds(ps), p.checkId);
  }

  lemma SameParticipantIds(ps: seq<Participant>, i: nat, p: Participant)
    requires i < |ps| && p.actorId == ps[i].actorId
    ensures ParticipantIds(ps[i := p]) == ParticipantIds(ps)
    ensures ps[i := p][i := ps[i]] == ps
  {
    assert ps[i := p][i := ps[i]] == ps;
  }

  lemma ResourceUndone(s: GameState, owner: Owner, resource: Resource, previous: int, current: int, t: GameState)
    requires ChangeResource(s, owner, resource, previous, current) == Done(t)
    ensures ChangeResource(t, owner, resource, current, previous) == Done(s)
  {
    hide CharacterIds, ActorIds;
    if owner.Of? {
      var i := FindCharacter(s, owner.characterId).value;
      SameCharacterIds(s.characters, i, t.characters[i]);
    }
  }

  lemma SparkUndone(s: GameState, actor: Id, t: GameState)
    requires SpendSpark(s, actor) == Done(t)
    ensures RestoreSpark(t, actor) == Done(s)
  {
    hide CharacterIds, ActorIds;
    var i := FindActor(s, actor).value;
    SameCharacterIds(s.characters, i, t.characters[i]);
  }

  lemma ConditionUndone(s: GameState, id: Id, condition: Condition, t: GameState)
    requires ApplyCondition(s, id, condition) == Done(t)
    ensures RemoveCondition(t, id, condition.conditionId) == Done(s)
  {
    hide IndexOf;
    var i := FindCharacter(s, id).value;
    var c := s.characters[i];
    SameCharacterIds(s.characters, i, t.characters[i]);
    var held := c.conditions + [condition];
    assert ConditionIds(held) == ConditionIds(c.conditions) + [condition.conditionId];
    IndexOfAppended(ConditionIds(c.conditions), condition.conditionId);
    assert held[..|c.conditions|] + held[|c.conditions| + 1..] == c.conditions;
  }

  lemma SameSocialIds(ss: seq<Social>, i: nat, social: Social)
    requires i < |ss| && social.npcActorId == ss[i].npcActorId
    ensures SocialIds(ss[i := social]) == SocialIds(ss)
    ensures ss[i := social][i := ss[i]] == ss
  {
    assert ss[i := social][i := ss[i]] == ss;
  }

  lemma StanceUndone(s: GameState, npc: Id, before: Stance, after: Stance, degree: Degree, t: GameState)
    requires ShiftStance(s, npc, before, after, degree) == Done(t)
    ensures ShiftStance(t, npc, after, before, degree) == Done(s)
  {
    hide SocialIds;
    var i := FindSocial(s, npc).value;
    SameSocialIds(s.socials, i, t.socials[i]);
  }

  lemma {:induction false} WithoutAppended(ids: seq<Id>, id: Id)
    requires id !in ids
    ensures WithoutId(ids + [id], id) == ids
  {
    if ids == [] {
      assert ([] + [id])[1..] == [];
      assert WithoutId([id], id) == [];
    } else {
      assert (ids + [id])[1..] == ids[1..] + [id];
      WithoutAppended(ids[1..], id);
    }
  }

  lemma LeverageUndone(s: GameState, npc: Id, leverage: Id, t: GameState)
    requires GainLeverage(s, npc, leverage) == Done(t)
    ensures LoseLeverage(t, npc, leverage) == Done(s)
  {
    hide SocialIds, WithoutId;
    var i := FindSocial(s, npc).value;
    SameSocialIds(s.socials, i, t.socials[i]);
    WithoutAppended(s.socials[i].leverage, leverage);
  }

  /** A slot of the active, unspent actor: restoring it gives back the slot, the activation and the side. */
  lemma SlotUndone(s: GameState, combatId: Id, actor: Id, slot: Slot, t: GameState)
    requires s.combat.Some? && ActiveSound(s.combat.value)
    requires !slot.ReactionSlot?
    requires SpendSlot(s, combatId, actor, slot) == Done(t)
    ensures RestoreSlot(t, combatId, actor, slot) == Done(s)
  {
    hide ParticipantIds;
    var c := s.combat.value;
    var i := FindParticipant(c, actor).value;
    SameParticipantIds(c.participants, i, t.combat.value.participants[i]);
  }

  /** A reaction slot is restored to the state before only when it is the active actor's own. */
  lemma ReactionUndone(s: GameState, combatId: Id, actor: Id, t: GameState)
    requires s.combat.Some? && ActiveSound(s.combat.value)
    requires SpendSlot(s, combatId, actor, ReactionSlot) == Done(t)
    ensures RestoreSlot(t, combatId, actor, ReactionSlot) == Done(s) <==> s.combat.value.activeActor == Some(actor)
  {
    var c := s.combat.value;
    var i := FindParticipant(c, actor).value;
    SameParticipantIds(c.participants, i, t.combat.value.participants[i]);
  }

  lemma MoveUndone(s: GameState, combatId: Id, actor: Id, from: ZoneId, to: ZoneId, t: GameState)
    requires s.combat.Some? && ValidCombat(s.combat.value)
    requires MoveActor(s, combatId, actor, from, to) == Done(t)
    ensures MoveActor(t, combatId, actor, to, from) == Done(s)
  {
    hide ValidZoneGraph, Occupancy, ActiveSound, StatusSound, HeldBack, ParticipantIds;
    var c := s.combat.value;
    var i := FindParticipant(c, actor).value;
    var p := t.combat.value.participants[i];
    SameParticipantIds(c.participants, i, p);
    assert ParticipantSound(c.zones, c.round, c.objectives, c.participants[i]);
    OccupancyUpdate(c.participants, i, p, from);
    var z := FindZone(c.zones, from).value;
    assert c.zones[z] in c.zones;
  }

  lemma HeroUndone(s: GameState, e: Event, t: GameState)
    requires Simple(e) && GroupOf(e).HeroEvent?
    requires StepHero(s, e) == Done(t)
    ensures Inverse(e).Some? && GroupOf(Inverse(e).Get()).HeroEvent? && StepHero(t, Inverse(e).Get()) == Done(s)
  {
    hide ChangeResource, SpendSpark, RestoreSpark, ApplyCondition, RemoveCondition, SpendGear, UseSceneAbility,
         AdvanceRank, StartSceneEach;
    match e
    case ResourceChanged(owner, resource, previous, current) =>
      ResourceUndone(s, owner, resource, previous, current, t);
    case SparkSpent(actor) => SparkUndone(s, actor, t);
    case ConditionApplied(id, condition) => ConditionUndone(s, id, condition, t);
  }

  lemma TurnUndone(s: GameState, e: Event, t: GameState)
    requires ValidCombatOption(s.combat) && Simple(e) && GroupOf(e).TurnEvent?
    requires StepTurn(s, e) == Done(t)
    ensures Inverse(e).Some? && GroupOf(Inverse(e).Get()).TurnEvent? && StepTurn(t, Inverse(e).Get()) == Done(s)
  {
    hide RestoreSlot, MoveActor, SpendSlot, ValidZoneGraph, ActiveSound, Occupancy, ProgressObjective,
         StartActivation;
    TurnNeedsCombat(s, e);
    match e
    case ActionSlotSpent(combat, actor, slot) => SlotUndone(s, combat, actor, slot, t);
    case ActorMoved(combat, actor, from, to) => MoveUndone(s, combat, actor, from, to, t);
  }

  lemma TurnNeedsCombat(s: GameState, e: Event)
    requires Simple(e) && GroupOf(e).TurnEvent? && StepTurn(s, e).Done?
    ensures s.combat.Some?
  {
    hide AdvanceRound, RestoreSlot, ProgressObjective;
  }

  lemma SceneUndone(s: GameState, e: Event, t: GameState)
    requires Simple(e) && GroupOf(e).SceneEvent?
    requires StepScene(s, e) == Done(t)
    ensures Inverse(e).Some? && GroupOf(Inverse(e).Get()).SceneEvent? && StepScene(t, Inverse(e).Get()) == Done(s)
  {
    hide ShiftStance, GainLeverage, LoseLeverage, MoveTracks, Contribute, ResolveRitual;
    match e
    case SocialStanceChanged(npc, before, after, degree) => StanceUndone(s, npc, before, after, degree, t);
    case LeverageCreated(npc, leverage) => LeverageUndone(s, npc, leverage, t);
  }

  lemma SimpleGroups(e: Event)
    requires Simple(e)
    ensures GroupOf(e).HeroEvent? || GroupOf(e).TurnEvent? || GroupOf(e).SceneEvent?
  {}

  /** A simple event is taken back exactly, whatever the valid state it was applied to. */
  lemma SimpleUndone(s: GameState, e: Event, t: GameState)
    requires ValidGameState(s) && Simple(e)
    requires Apply(s, e) == Done(t)
    ensures Inverse(e).Some? && Apply(t, Inverse(e).Get()) == Done(s)
  {
    hide GroupOf, StepHero, StepTurn, StepScene, StepCheck, StepHarm, Simple, ValidParty, ValidPendings,
         ValidCombatOption, Inverse;
    SimpleGroups(e);
    match GroupOf(e)
    case HeroEvent => HeroUndone(s, e, t);
    case TurnEvent => TurnUndone(s, e, t);
    case SceneEvent => SceneUndone(s, e, t);
  }
}
