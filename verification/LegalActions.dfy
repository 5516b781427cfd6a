/** What every enumerated action is, and that nothing legal is missing. */
module LegalActions {
  import opened Common
  import opened ZoneGraph
  import opened State
  import opened Reducer
  import opened Content
  import opened CombatRules

  predicate IsPass(c: Combat, p: Participant, x: Candidate) {
    x.kind.Pass? && x.source.None? && x.target == OnSelf(p.actorId) && x.range == SelfRange
  }

  predicate IsMove(c: Combat, p: Participant, x: Candidate) {
    && x.kind.Move? && x.source.None? && x.slot.ManeuverSlot?
    && x.target.OnZone? && x.target.zoneId in Connections(c, p) && HasRoom(c, x.target.zoneId) && x.range == Adjacent
  }

  predicate IsUse(s: GameState, c: Combat, p: Participant, catalog: Catalog, x: Candidate, a: Ability) {
    && a in ActorAbilities(s, p, catalog) && MayUse(s, p, a)
    && x.kind == KindOf(a) && x.source == Some(a.ref) && x.slot == a.slot
    && x.target in AbilityTargets(s, c, p, a) && x.range == ActualRange(c, p, a, x.target)
  }

  predicate IsAdvance(c: Combat, p: Participant, x: Candidate, o: Objective) {
    && o in c.objectives && StandsAt(c, p, o)
    && x.kind.AdvanceObjective? && x.source.None? && x.slot.ActionSlot? && x.target == OnObjective(o.objectiveId)
      && x.range == SameZone
  }

  /** The actor's own action with a slot it still has, listed under the identity of its key. */
  predicate Listing(c: Combat, ids: ActionKey -> Id, p: Participant, x: Candidate) {
    && x.actorId == p.actorId && !x.slot.ReactionSlot? && SlotAvailable(p, x.slot)
    && x.legalActionId == ids(KeyOf(c, x.actorId, x.slot, x.kind, x.source, x.target))
  }

  predicate Legal(s: GameState, c: Combat, ids: ActionKey -> Id, p: Participant, catalog: Catalog, x: Candidate) {
    && Listing(c, ids, p, x)
    && (IsPass(c, p, x) || IsMove(c, p, x)
        || (exists a :: a in ActorAbilities(s, p, catalog) && IsUse(s, c, p, catalog, x, a))
        || (exists o :: o in c.objectives && IsAdvance(c, p, x, o)))
  }

  /** The score and its tags are those of the action's kind and source. */
  predicate Scored(p: Participant, catalog: Catalog, x: Candidate) {
    (x.fallbackScore, x.scoreTags) ==
      if x.kind.Pass? then (if p.role.Enemy? then -100 else 0, []) else EnemyScore(p, x.source, x.kind, catalog)
  }

  lemma {:induction false} MovesLegal(c: Combat, ids: ActionKey -> Id, p: Participant, catalog: Catalog,
      connections: seq<ZoneId>, x: Candidate)
    requires x in MoveCandidates(c, ids, p, catalog, connections) && p.maneuverAvailable
    ensures Listing(c, ids, p, x) && Scored(p, catalog, x)
    ensures x.kind.Move? && x.source.None? && x.slot.ManeuverSlot? && x.target.OnZone?
    ensures x.target.Place() in connections && HasRoom(c, x.target.Place()) && x.range == Adjacent
  {
    hide HasRoom, EnemyScore;
    if !(HasRoom(c, connections[0]) && x == MoveCandidate(c, ids, p, catalog, connections[0])) {
      MovesLegal(c, ids, p, catalog, connections[1..], x);
    }
  }

  lemma {:induction false} TargetsLegal(c: Combat, ids: ActionKey -> Id, p: Participant, catalog: Catalog, a: Ability,
      targets: seq<Target>, x: Candidate)
    requires x in TargetCandidates(c, ids, p, catalog, a, targets)
    ensures x.target in targets && x.actorId == p.actorId && x.kind == KindOf(a) && x.source == Some(a.ref)
            && x.slot == a.slot
    ensures x.legalActionId == ids(KeyOf(c, x.actorId, x.slot, x.kind, x.source, x.target))
    ensures (x.fallbackScore, x.scoreTags) == EnemyScore(p, x.source, x.kind, catalog)
            && x.range == ActualRange(c, p, a, x.target)
  {
    hide EnemyScore, KindOf, ActualRange, KeyOf;
    if x.target != targets[0] || x != Listed(c, ids, p.actorId, a.slot, KindOf(a), Some(a.ref), targets[0],
      ActualRange(c, p, a, targets[0]),
                                             EnemyScore(p, Some(a.ref), KindOf(a), catalog)) {
      TargetsLegal(c, ids, p, catalog, a, targets[1..], x);
    }
  }

  lemma {:induction false} UsesLegal(s: GameState, c: Combat, ids: ActionKey -> Id, p: Participant, catalog: Catalog,
      abilities: seq<Ability>, x: Candidate)
    returns (a: Ability)
    requires x in AbilityCandidates(s, c, ids, p, catalog, abilities)
    ensures a in abilities && MayUse(s, p, a) && x.target in AbilityTargets(s, c, p, a)
    ensures x.actorId == p.actorId && x.kind == KindOf(a) && x.source == Some(a.ref) && x.slot == a.slot
    ensures x.legalActionId == ids(KeyOf(c, x.actorId, x.slot, x.kind, x.source, x.target))
    ensures (x.fallbackScore, x.scoreTags) == EnemyScore(p, x.source, x.kind, catalog)
            && x.range == ActualRange(c, p, a, x.target)
  {
    hide EnemyScore, KindOf, AbilityTargets, MayUse, TargetCandidates, ActualRange, KeyOf;
    if MayUse(s, p, abilities[0]) && x in TargetCandidates(c, ids, p, catalog, abilities[0],
      AbilityTargets(s, c, p, abilities[0])) {
      a := abilities[0];
      TargetsLegal(c, ids, p, catalog, a, AbilityTargets(s, c, p, a), x);
    } else {
      a := UsesLegal(s, c, ids, p, catalog, abilities[1..], x);
    }
  }

  lemma {:induction false} AdvancesLegal(c: Combat, ids: ActionKey -> Id, p: Participant, catalog: Catalog,
      os: seq<Objective>, x: Candidate)
    returns (o: Objective)
    requires x in ObjectiveCandidates(c, ids, p, catalog, os) && p.actionAvailable
    ensures o in os && StandsAt(c, p, o)
    ensures Listing(c, ids, p, x) && Scored(p, catalog, x)
    ensures x.kind.AdvanceObjective? && x.source.None? && x.slot.ActionSlot? && x.target == OnObjective(o.objectiveId)
            && x.range == SameZone
  {
    hide StandsAt, EnemyScore, KeyOf;
    if StandsAt(c, p, os[0]) && x == ObjectiveCandidate(c, ids, p, catalog, os[0]) {
      o := os[0];
    } else {
      o := AdvancesLegal(c, ids, p, catalog, os[1..], x);
    }
  }

  lemma FoundIsLegal(s: GameState, c: Combat, ids: ActionKey -> Id, p: Participant, catalog: Catalog, x: Candidate)
    requires x in Found(s, c, ids, p, catalog)
    ensures Legal(s, c, ids, p, catalog, x) && Scored(p, catalog, x)
  {
    hide MoveCandidates, AbilityCandidates, ObjectiveCandidates, EnemyScore, HasRoom, Connections, MayUse,
         AbilityTargets, KindOf, StandsAt, ActorAbilities, SceneUseSpent, ActualRange, KeyOf;
    if p.maneuverAvailable && x in MoveCandidates(c, ids, p, catalog, Connections(c, p)) {
      MovesLegal(c, ids, p, catalog, Connections(c, p), x);
    } else if x in AbilityCandidates(s, c, ids, p, catalog, ActorAbilities(s, p, catalog)) {
      var a := UsesLegal(s, c, ids, p, catalog, ActorAbilities(s, p, catalog), x);
      MayUseSlot(s, p, a);
      KindIsNotPass(a);
      assert IsUse(s, c, p, catalog, x, a);
    } else if p.actionAvailable && x in ObjectiveCandidates(c, ids, p, catalog, c.objectives) {
      var o := AdvancesLegal(c, ids, p, catalog, c.objectives, x);
      assert IsAdvance(c, p, x, o);
    }
  }

  lemma MayUseSlot(s: GameState, p: Participant, a: Ability)
    requires MayUse(s, p, a)
    ensures !a.slot.ReactionSlot? && SlotAvailable(p, a.slot)
  {
    hide SceneUseSpent;
  }

  lemma KindIsNotPass(a: Ability)
    ensures KindOf(a).Attack? || KindOf(a).UsePower?
  {}

  /** Every enumerated action is one of the four kinds, and scored by its kind. */
  lemma EnumeratedIsLegal(s: GameState, catalog: Catalog, actor: Id, ids: ActionKey -> Id, x: Candidate)
      returns (p: Participant)
    requires x in EnumerateActions(s, catalog, actor, ids)
    ensures s.combat.Some? && s.combat.Get().status.Active?
    ensures p in s.combat.Get().participants && p.actorId == actor && Alive(s, p)
    ensures FindParticipant(s.combat.Get(), actor).Some? && p ==
            At(s.combat.Get().participants, FindParticipant(s.combat.Get(), actor).Get())
    ensures Legal(s, s.combat.Get(), ids, p, catalog, x) && Scored(p, catalog, x)
  {
    hide Legal, Scored, Found, SortCandidates, Alive, FindParticipant, InIdOrder;
    var c := s.combat.value;
    p := c.participants[FindParticipant(c, actor).value];
    SortSorts(Found(s, c, ids, p, catalog));
    assert x in multiset(SortCandidates(Found(s, c, ids, p, catalog)));
    FoundIsLegal(s, c, ids, p, catalog, x);
  }

  /** A pass is offered for every slot the actor still has. */
  lemma PassIsOffered(s: GameState, catalog: Catalog, actor: Id, ids: ActionKey -> Id, slot: Slot)
      returns (x: Candidate)
    requires s.combat.Some? && s.combat.Get().status.Active? && catalog.manifest == s.manifest
    requires FindParticipant(s.combat.Get(), actor).Some?
    requires var p := At(s.combat.Get().participants, FindParticipant(s.combat.Get(), actor).Get());
             Alive(s, p) && !slot.ReactionSlot? && SlotAvailable(p, slot)
    ensures x in EnumerateActions(s, catalog, actor, ids)
    ensures x.kind.Pass? && x.slot == slot && x.actorId == actor && x.source.None? && x.target == OnSelf(actor)
    ensures x.legalActionId == ids(KeyOf(s.combat.Get(), actor, slot, Pass, None, OnSelf(actor)))
  {
    hide SortCandidates, Alive, MoveCandidates, AbilityCandidates, ObjectiveCandidates, ActorAbilities, KeyOf;
    var c := s.combat.value;
    var p := c.participants[FindParticipant(c, actor).value];
    x := PassCandidate(c, ids, p, slot);
    var found := Found(s, c, ids, p, catalog);
    assert x in found;
    SortSorts(found);
    assert x in multiset(SortCandidates(found));
  }

  /** Advancing is offered for every objective the actor stands at, while its action is left. */
  lemma AdvanceIsOffered(s: GameState, catalog: Catalog, actor: Id, ids: ActionKey -> Id, k: nat) returns (x: Candidate)
    requires s.combat.Some? && s.combat.Get().status.Active? && catalog.manifest == s.manifest
    requires FindParticipant(s.combat.Get(), actor).Some? && k < |s.combat.Get().objectives|
    requires var p := At(s.combat.Get().participants, FindParticipant(s.combat.Get(), actor).Get());
             Alive(s, p) && p.actionAvailable && StandsAt(s.combat.Get(), p, At(s.combat.Get().objectives, k))
    ensures x in EnumerateActions(s, catalog, actor, ids)
    ensures x.kind.AdvanceObjective? && x.slot.ActionSlot? && x.actorId == actor && x.source.None?
    ensures x.target == OnObjective(At(s.combat.Get().objectives, k).objectiveId)
    ensures x.legalActionId == ids(KeyOf(s.combat.Get(), actor, ActionSlot, AdvanceObjective, None, x.target))
  {
    hide SortCandidates, Alive, MoveCandidates, AbilityCandidates, ObjectiveCandidates, ActorAbilities, StandsAt,
         EnemyScore, FindParticipant, PassCandidate;
    var c := s.combat.value;
    var p := c.participants[FindParticipant(c, actor).value];
    x := ObjectiveCandidate(c, ids, p, catalog, c.objectives[k]);
    var found := Found(s, c, ids, p, catalog);
    AdvanceListed(c, ids, p, catalog, c.objectives, k);
    assert x in found;
    SortSorts(found);
    assert x in multiset(SortCandidates(found));
  }

  lemma {:induction false} AdvanceListed(c: Combat, ids: ActionKey -> Id, p: Participant, catalog: Catalog,
      os: seq<Objective>, k: nat)
    requires k < |os| && StandsAt(c, p, os[k])
    ensures ObjectiveCandidate(c, ids, p, catalog, os[k]) in ObjectiveCandidates(c, ids, p, catalog, os)
  {
    hide StandsAt, ObjectiveCandidate;
    if k > 0 {
      AdvanceListed(c, ids, p, catalog, os[1..], k - 1);
    }
  }

  /** An ability the actor may use is offered on each of its targets. */
  lemma UseIsOffered(s: GameState, catalog: Catalog, actor: Id, ids: ActionKey -> Id, a: Ability, target: Target)
      returns (x: Candidate)
    requires s.combat.Some? && s.combat.Get().status.Active? && catalog.manifest == s.manifest
    requires FindParticipant(s.combat.Get(), actor).Some?
    requires var p := At(s.combat.Get().participants, FindParticipant(s.combat.Get(), actor).Get());
             Alive(s, p) && a in ActorAbilities(s, p, catalog) && MayUse(s, p, a)
               && target in AbilityTargets(s, s.combat.Get(), p, a)
    ensures x in EnumerateActions(s, catalog, actor, ids)
    ensures x.kind == KindOf(a) && x.slot == a.slot && x.actorId == actor && x.source == Some(a.ref)
            && x.target == target
    ensures x.legalActionId == ids(KeyOf(s.combat.Get(), actor, a.slot, KindOf(a), Some(a.ref), target))
  {
    hide SortCandidates, Alive, MoveCandidates, AbilityCandidates, ObjectiveCandidates, ActorAbilities, MayUse,
         AbilityTargets, KindOf, EnemyScore, ActualRange, KeyOf, FindParticipant, InIdOrder, PassCandidate;
    var c := s.combat.value;
    var p := c.participants[FindParticipant(c, actor).value];
    var found := Found(s, c, ids, p, catalog);
    x := UseListed(s, c, ids, p, catalog, ActorAbilities(s, p, catalog), a, target);
    assert x in found;
    SortSorts(found);
    assert x in multiset(SortCandidates(found));
  }

  lemma {:induction false} UseListed(s: GameState, c: Combat, ids: ActionKey -> Id, p: Participant, catalog: Catalog,
      abilities: seq<Ability>, a: Ability, target: Target)
    returns (x: Candidate)
    requires a in abilities && MayUse(s, p, a) && target in AbilityTargets(s, c, p, a)
    ensures x in AbilityCandidates(s, c, ids, p, catalog, abilities)
    ensures x == Listed(c, ids, p.actorId, a.slot, KindOf(a), Some(a.ref), target, ActualRange(c, p, a, target),
            EnemyScore(p, Some(a.ref), KindOf(a), catalog))
  {
    hide MayUse, AbilityTargets, KindOf, EnemyScore, ActualRange, TargetCandidates, Listed;
    if abilities[0] == a {
      x := TargetListed(c, ids, p, catalog, a, AbilityTargets(s, c, p, a), target);
    } else {
      x := UseListed(s, c, ids, p, catalog, abilities[1..], a, target);
    }
  }

  lemma {:induction false} TargetListed(c: Combat, ids: ActionKey -> Id, p: Participant, catalog: Catalog, a: Ability,
      targets: seq<Target>, target: Target)
    returns (x: Candidate)
    requires target in targets
    ensures x in TargetCandidates(c, ids, p, catalog, a, targets)
    ensures x == Listed(c, ids, p.actorId, a.slot, KindOf(a), Some(a.ref), target, ActualRange(c, p, a, target),
            EnemyScore(p, Some(a.ref), KindOf(a), catalog))
  {
    hide KindOf, EnemyScore, ActualRange, Listed;
    if targets[0] == target {
      x := TargetCandidates(c, ids, p, catalog, a, targets)[0];
    } else {
      x := TargetListed(c, ids, p, catalog, a, targets[1..], target);
    }
  }

  lemma LegalSlot(s: GameState, c: Combat, ids: ActionKey -> Id, p: Participant, catalog: Catalog, x: Candidate)
    requires Legal(s, c, ids, p, catalog, x)
    ensures !x.slot.ReactionSlot? && x.actorId == p.actorId && SlotAvailable(p, x.slot)
  {
    hide SlotAvailable, IsUse, AbilityTargets, ActorTargets, MoveTargets, MayBeTargeted;
  }

  ghost predicate Injective(ids: ActionKey -> Id) {
    forall a, b :: ids(a) == ids(b) ==> a == b
  }
}
