/** When the reducer accepts an event, and that the closing validation then holds. */
module Applies {
  import opened Common
  import opened ZoneGraph
  import opened State
  import opened Validity
  import opened Events
  import opened Reducer
  import opened Compensation

  // ----- One component replaced -----

  lemma ValidParts(s: GameState)
    requires ValidGameState(s)
    ensures ValidParty(s.supply, s.supplyMaximum, s.characters) && ValidPendings(s.pendingChecks)
    ensures s.combat.Some? ==> ValidCombat(s.combat.Get())
    ensures ValidChallenges(s.challenges) && ValidSocials(s.socials) && ValidRituals(s.rituals)
    ensures ValidScars(s.scars) && ValidDeaths(s.deaths, CharacterIds(s.characters))
  {
    hide ValidParty, ValidPendings, ValidCombat, ValidChallenges, ValidSocials, ValidRituals, ValidScars, ValidDeaths;
  }

  lemma WithCombatValid(s: GameState, c: Combat)
    requires ValidGameState(s) && ValidCombat(c)
    ensures ValidGameState(WithCombat(s, c))
  {
    hide ValidParty, ValidPendings, ValidCombat, ValidChallenges, ValidSocials, ValidRituals, ValidScars, ValidDeaths;
  }

  lemma WithPendingsValid(s: GameState, ps: seq<PendingCheck>)
    requires ValidGameState(s) && ValidPendings(ps)
    ensures ValidGameState(s.(pendingChecks := ps))
  {
    hide ValidParty, ValidPendings, ValidCombat, ValidChallenges, ValidSocials, ValidRituals, ValidScars, ValidDeaths;
  }

  lemma WithPartyValid(s: GameState, supply: int, cs: seq<Character>)
    requires ValidGameState(s) && ValidParty(supply, s.supplyMaximum, cs)
             && CharacterIds(cs) == CharacterIds(s.characters)
    ensures ValidGameState(s.(supply := supply, characters := cs))
  {
    hide ValidParty, ValidPendings, ValidCombat, ValidChallenges, ValidSocials, ValidRituals, ValidScars, ValidDeaths,
         CharacterIds;
  }

  lemma PartyReplaced(supply: int, maximum: int, cs: seq<Character>, i: nat, c: Character)
    requires ValidParty(supply, maximum, cs) && i < |cs| && ValidCharacter(c)
    requires c.characterId == cs[i].characterId && c.actorId == cs[i].actorId
    ensures ValidParty(supply, maximum, cs[i := c])
    ensures CharacterIds(cs[i := c]) == CharacterIds(cs) && ActorIds(cs[i := c]) == ActorIds(cs)
  {
    hide ValidCharacter;
    SameCharacterIds(cs, i, c);
  }

  lemma WithCharacterValid(s: GameState, i: nat, c: Character)
    requires ValidGameState(s) && i < |s.characters| && ValidCharacter(c)
    requires c.characterId == At(s.characters, i).characterId && c.actorId == At(s.characters, i).actorId
    ensures ValidGameState(WithCharacter(s, i, c))
  {
    hide ValidParty, ValidCharacter, ValidGameState, ValidCombat, ValidPendings, ValidChallenges, ValidRituals,
         ValidSocials, ValidScars, ValidDeaths;
    ValidParts(s);
    PartyReplaced(s.supply, s.supplyMaximum, s.characters, i, c);
    WithPartyValid(s, s.supply, s.characters[i := c]);
    assert WithCharacter(s, i, c) == s.(supply := s.supply, characters := s.characters[i := c]);
  }

  lemma HeroValid(s: GameState, i: nat)
    requires ValidGameState(s) && i < |s.characters|
    ensures ValidCharacter(At(s.characters, i))
    ensures FindCharacter(s, At(s.characters, i).characterId) == Some(i)
            && FindActor(s, At(s.characters, i).actorId) == Some(i)
  {
    hide ValidCharacter, ValidGameState, ValidCombat, ValidPendings, ValidChallenges, ValidRituals;
    ValidParts(s);
    IndexOfDistinct(CharacterIds(s.characters), i);
    IndexOfDistinct(ActorIds(s.characters), i);
  }

  // ----- Heroes -----

  lemma ExertionApplies(s: GameState, i: nat, current: int)
    requires ValidGameState(s) && i < |s.characters| && 0 <= current <= EXERTION_MAXIMUM
    ensures Apply(s, ResourceChanged(Of(At(s.characters, i).characterId), Exertion, At(s.characters, i).exertion,
            current)) ==
            Done(WithCharacter(s, i, At(s.characters, i).(exertion := current)))
  {
    hide ValidGameState, IndexOf, GearMatchesNames, RatingsInRange, DistinctWounds, RankFeatures, Distinct, FindActor,
         WithCharacter;
    HeroValid(s, i);
    WithCharacterValid(s, i, s.characters[i].(exertion := current));
  }

  lemma SupplyApplies(s: GameState, current: int)
    requires ValidGameState(s) && 0 <= current <= s.supplyMaximum
    ensures Apply(s, ResourceChanged(Party, Supply, s.supply, current)) == Done(s.(supply := current))
  {
    hide ValidGameState, ValidCharacter, Distinct, ValidCombat, ValidPendings, ValidChallenges, ValidRituals,
         ValidSocials;
    ValidParts(s);
    WithPartyValid(s, current, s.characters);
    assert s.(supply := current) == s.(supply := current, characters := s.characters);
  }

  lemma SameAbilityIds(uses: seq<SceneUse>, k: nat)
    requires k < |uses|
    ensures AbilityIds(uses[k := uses[k].(used := true)]) == AbilityIds(uses)
  {
    hide AbilityIds;
    assert AbilityIds(uses[k := uses[k].(used := true)]) == AbilityIds(uses);
  }

  lemma SceneUseApplies(s: GameState, i: nat, k: nat, ability: Ref)
    requires ValidGameState(s) && i < |s.characters|
    requires UseIndex(At(s.characters, i).sceneUses, ability) == Some(k) && !At(At(s.characters, i).sceneUses, k).used
    ensures var c := At(s.characters, i);
            Apply(s, SceneAbilityUsed(c.characterId, ability)) ==
            Done(WithCharacter(s, i, c.(sceneUses := Put(c.sceneUses, k, At(c.sceneUses, k).(used := true)))))
  {
    hide ValidGameState, IndexOf, GearMatchesNames, RatingsInRange, DistinctWounds, RankFeatures, Distinct, UseIndex,
         FindCharacter, FindActor, AbilityIds, WithCharacter;
    HeroValid(s, i);
    var c := s.characters[i];
    SameAbilityIds(c.sceneUses, k);
    WithCharacterValid(s, i, c.(sceneUses := c.sceneUses[k := c.sceneUses[k].(used := true)]));
  }

  lemma SparkApplies(s: GameState, i: nat)
    requires ValidGameState(s) && i < |s.characters| && At(s.characters, i).sparkAvailable
    ensures Apply(s, SparkSpent(At(s.characters, i).actorId)) ==
            Done(WithCharacter(s, i, At(s.characters, i).(sparkAvailable := false)))
  {
    hide ValidGameState, IndexOf, GearMatchesNames, RatingsInRange, DistinctWounds, RankFeatures, Distinct,
         FindCharacter, FindActor, WithCharacter;
    HeroValid(s, i);
    WithCharacterValid(s, i, s.characters[i].(sparkAvailable := false));
  }

  lemma ConditionApplies(s: GameState, i: nat, condition: Condition)
    requires ValidGameState(s) && i < |s.characters|
    requires condition.conditionId !in ConditionIds(At(s.characters, i).conditions)
             && |At(s.characters, i).conditions| < 32
    ensures Apply(s, ConditionApplied(At(s.characters, i).characterId, condition)) ==
            Done(WithCharacter(s, i, At(s.characters, i).(conditions := At(s.characters, i).conditions + [condition])))
  {
    hide ValidGameState, IndexOf, GearMatchesNames, RatingsInRange, DistinctWounds, RankFeatures, Distinct,
         FindCharacter, FindActor, ConditionIds, WithCharacter;
    HeroValid(s, i);
    var c := s.characters[i];
    assert ConditionIds(c.conditions + [condition]) == ConditionIds(c.conditions) + [condition.conditionId];
    DistinctAppend(ConditionIds(c.conditions), condition.conditionId);
    WithCharacterValid(s, i, c.(conditions := c.conditions + [condition]));
  }

  lemma HeroStruckApplies(s: GameState, i: nat, combatId: Id, base: int, bonus: int)
    requires ValidGameState(s) && i < |s.characters| && InCombat(s, combatId)
    ensures var hero := At(s.characters, i);
            var applied := ImpactOf(base, bonus, 0);
            Apply(s, ImpactApplied(combatId, hero.actorId, base, bonus, 0, applied, hero.guard,
              Max(0, hero.guard - applied))) ==
            Done(WithCharacter(s, i, hero.(guard := Max(0, hero.guard - applied))))
  {
    hide ValidGameState, IndexOf, GearMatchesNames, RatingsInRange, DistinctWounds, RankFeatures, Distinct,
         FindCharacter, FindActor, WithCharacter;
    HeroValid(s, i);
    var hero := s.characters[i];
    WithCharacterValid(s, i, hero.(guard := Max(0, hero.guard - ImpactOf(base, bonus, 0))));
  }

  lemma WoundApplies(s: GameState, i: nat, k: nat, wound: Id)
    requires ValidGameState(s) && i < |s.characters| && k < |At(s.characters, i).wounds|
             && At(At(s.characters, i).wounds, k).Empty?
    requires Filled(wound) !in At(s.characters, i).wounds
    ensures var hero := At(s.characters, i);
            Apply(s, WoundMarked(hero.characterId, hero.wounds[k := Filled(wound)])) ==
            Done(WithCharacter(s, i, hero.(wounds := hero.wounds[k := Filled(wound)])))
  {
    hide ValidGameState, IndexOf, GearMatchesNames, RatingsInRange, RankFeatures, Distinct, FindCharacter, FindActor,
         WithCharacter;
    HeroValid(s, i);
    var hero := s.characters[i];
    var marked := hero.wounds[k := Filled(wound)];
    assert FillsOneSlot(hero.wounds, marked) by {
      assert hero.wounds[k] != marked[k];
    }
    forall a, b | 0 <= a < b < |marked| && marked[a].Filled?
      && marked[b].Filled? ensures marked[a].woundId != marked[b].woundId {
      assert marked[a] == (if a == k then Filled(wound) else hero.wounds[a]);
      assert marked[b] == (if b == k then Filled(wound) else hero.wounds[b]);
    }
    WithCharacterValid(s, i, hero.(wounds := marked));
  }

  // ----- Pending checks -----

  lemma PendingAppended(ps: seq<PendingCheck>, p: PendingCheck)
    requires ValidPendings(ps) && |ps| < 16 && ValidPending(p)
    requires p.checkId !in CheckIds(ps) && p.nonce !in Nonces(ps)
    ensures ValidPendings(ps + [p])
  {
    hide ValidPending, Distinct;
    assert CheckIds(ps + [p]) == CheckIds(ps) + [p.checkId];
    assert Nonces(ps + [p]) == Nonces(ps) + [p.nonce];
    DistinctAppend(CheckIds(ps), p.checkId);
    DistinctAppend(Nonces(ps), p.nonce);
  }

  lemma PendingContinued(ps: seq<PendingCheck>, p: PendingCheck, q: PendingCheck)
    requires ValidPendings(ps + [p]) && ValidPending(q) && q.checkId == p.checkId && q.nonce == p.nonce
    ensures ValidPendings(ps + [q])
  {
    hide ValidPending, Distinct;
    assert CheckIds(ps + [q]) == CheckIds(ps + [p]);
    assert Nonces(ps + [q]) == Nonces(ps + [p]);
    forall i | 0 <= i < |ps + [q]| ensures ValidPending((ps + [q])[i]) {
      assert i < |ps| ==> (ps + [q])[i] == (ps + [p])[i];
    }
  }

  /** A request that is no death test, with a fresh identity and room. */
  lemma RequestApplies(s: GameState, id: Id, nonce: Id, d: Disclosure)
    requires ValidGameState(s) && |s.pendingChecks| < 16 && ValidDisclosure(d) && !d.reason.PermanentDeath?
    requires id !in CheckIds(s.pendingChecks) && nonce !in Nonces(s.pendingChecks)
    ensures Apply(s, PhysicalRollRequested(id, nonce, d)) ==
            Done(s.(pendingChecks := s.pendingChecks + [PendingCheck(id, nonce, d, None)]))
  {
    hide ValidGameState, ValidPendings, ValidDisclosure, ValidCombat, ValidParty, ValidChallenges, ValidRituals,
         ValidSocials;
    ValidParts(s);
    PendingAppended(s.pendingChecks, PendingCheck(id, nonce, d, None));
    WithPendingsValid(s, s.pendingChecks + [PendingCheck(id, nonce, d, None)]);
  }

  lemma CombatStatusValid(c: Combat, d: Combat)
    requires ValidCombat(c) && StatusSound(d)
    requires d == c.(status := d.status, pendingDeath := d.pendingDeath, pendingAction := d.pendingAction)
    ensures ValidCombat(d)
  {
    hide ValidZoneGraph, Distinct, OccupancyFits, ObjectivesSound, OverlaysSound, WindowSound, ParticipantsSound,
         StatusSound;
  }

  lemma DeathRequestApplies(s: GameState, id: Id, nonce: Id, d: Disclosure)
    requires ValidGameState(s) && |s.pendingChecks| < 16 && ValidDisclosure(d) && d.reason.PermanentDeath?
    requires id !in CheckIds(s.pendingChecks) && nonce !in Nonces(s.pendingChecks)
    requires s.combat.Some? && s.combat.Get().status.Active?
    ensures Apply(s, PhysicalRollRequested(id, nonce, d)) ==
            Done(WithCombat(s.(pendingChecks := s.pendingChecks + [PendingCheck(id, nonce, d, None)]),
                            s.combat.Get().(status := AwaitingDeathTest, pendingDeath := Some(id))))
  {
    hide ValidGameState, ValidPendings, ValidDisclosure, ValidZoneGraph, ParticipantsSound, OccupancyFits,
         ObjectivesSound, OverlaysSound, WindowSound, ActiveSound, Distinct, ValidParty, ValidChallenges,
         ValidRituals, ValidSocials;
    ValidParts(s);
    var ps := s.pendingChecks + [PendingCheck(id, nonce, d, None)];
    PendingAppended(s.pendingChecks, PendingCheck(id, nonce, d, None));
    WithPendingsValid(s, ps);
    var c := s.combat.value.(status := AwaitingDeathTest, pendingDeath := Some(id));
    CombatStatusValid(s.combat.value, c);
    WithCombatValid(s.(pendingChecks := ps), c);
  }

  /** The continuation of a check just requested. */
  lemma ContinuationApplies(s: GameState, ps: seq<PendingCheck>, p: PendingCheck, k: Continuation)
    requires ValidGameState(s) && s.pendingChecks == ps + [p] && p.continuation.None? && p.checkId !in CheckIds(ps)
    requires ValidPending(p) ==> ValidPending(p.(continuation := Some(k)))
    ensures var t := s.(pendingChecks := ps + [p.(continuation := Some(k))]);
            Continue(s, p.checkId, k) == Done(t) && ValidGameState(t)
  {
    hide ValidGameState, ValidPendings, ValidPending, ValidCombat, ValidParty, ValidChallenges, ValidRituals,
         ValidSocials, IndexOf;
    ValidParts(s);
    var q := p.(continuation := Some(k));
    LastPendingValid(ps, p);
    PendingContinued(ps, p, q);
    WithPendingsValid(s, ps + [q]);
    FindLast(ps, p);
    assert (ps + [p])[|ps| := q] == ps + [q];
  }

  lemma DeathPendingApplies(s: GameState, ps: seq<PendingCheck>, p: PendingCheck, combatId: Id, hero: Id)
    requires ValidGameState(s) && s.pendingChecks == ps + [p] && p.continuation.None? && p.checkId !in CheckIds(ps)
    ensures Apply(s, DeathTestPending(combatId, p.checkId, hero)) ==
            Done(s.(pendingChecks := ps + [p.(continuation := Some(DeathTest(combatId, hero)))]))
  {
    hide ValidGameState, ValidPendings, ValidDisclosure, Continue, CheckIds;
    ContinuationApplies(s, ps, p, DeathTest(combatId, hero));
  }

  lemma LastPendingValid(ps: seq<PendingCheck>, p: PendingCheck)
    requires ValidPendings(ps + [p])
    ensures ValidPending(p)
  {
    hide ValidPending, Distinct;
    assert (ps + [p])[|ps|] == p;
  }

  lemma ActionPendingApplies(s: GameState, ps: seq<PendingCheck>, p: PendingCheck, combatId: Id, x: Candidate,
      base: Option<int>)
    requires ValidGameState(s) && s.pendingChecks == ps + [p] && p.continuation.None? && p.checkId !in CheckIds(ps)
    requires s.combat.Some? && s.combat.Get().status.Active?
    requires ValidCandidate(x) && (base.Some? ==> 1 <= base.Get() <= 20)
    ensures Apply(s, CombatActionPending(combatId, p.checkId, x, base)).Done?
  {
    hide ValidGameState, ValidPendings, ValidDisclosure, ValidCandidate, ValidCombat, Continue, ValidChallenges,
         ValidSocials, ValidCharacter;
    ValidParts(s);
    ContinuationApplies(s, ps, p, CombatAction(x, base));
    var c := s.combat.value.(status := AwaitingAction, pendingAction := Some(p.checkId));
    ActionAwaited(s.combat.value, p.checkId);
    WithCombatValid(s.(pendingChecks := ps + [p.(continuation := Some(CombatAction(x, base)))]), c);
  }

  lemma ActionAwaited(c: Combat, id: Id)
    requires ValidCombat(c) && c.status.Active?
    ensures ValidCombat(c.(status := AwaitingAction, pendingAction := Some(id)))
  {
    hide ValidZoneGraph, Distinct, OccupancyFits, ObjectivesSound, OverlaysSound, WindowSound, ParticipantsSound;
  }

  lemma CombatMustBeSound(t: GameState)
    requires t.combat.Some? && !ValidCombat(t.combat.Get())
    ensures !ValidGameState(t)
  {
    hide ValidParty, ValidPendings, ValidCombat, ValidChallenges, ValidSocials, ValidRituals, ValidScars, ValidDeaths;
  }

  lemma {:induction false} DroppedAbsent(cs: seq<Condition>, ending: Duration, id: Id)
    requires id !in ConditionIds(cs)
    ensures id !in ConditionIds(DropConditions(cs, ending))
  {
    if cs != [] {
      var ids, rest := ConditionIds(cs), DropConditions(cs[1..], ending);
      assert ids[0] == cs[0].conditionId && ConditionIds(cs[1..]) == ids[1..];
      DroppedAbsent(cs[1..], ending, id);
      assert ConditionIds([cs[0]] + rest) == [cs[0].conditionId] + ConditionIds(rest);
      assert [] + rest == rest;
    }
  }

  lemma {:induction false} DroppedDistinct(cs: seq<Condition>, ending: Duration)
    requires Distinct(ConditionIds(cs))
    ensures Distinct(ConditionIds(DropConditions(cs, ending))) && |DropConditions(cs, ending)| <= |cs|
  {
    hide Distinct, ConditionIds;
    if cs != [] {
      var rest := DropConditions(cs[1..], ending);
      FirstCondition(cs[0], cs[1..]);
      assert [cs[0]] + cs[1..] == cs;
      DroppedDistinct(cs[1..], ending);
      DroppedAbsent(cs[1..], ending, cs[0].conditionId);
      FirstCondition(cs[0], rest);
      assert [] + rest == rest;
    }
  }

  lemma FirstCondition(c: Condition, rest: seq<Condition>)
    ensures Distinct(ConditionIds([c] + rest)) <==> Distinct(ConditionIds(rest)) && c.conditionId !in ConditionIds(rest)
  {
    var ids := ConditionIds(rest);
    assert ConditionIds([c] + rest) == [c.conditionId] + ids;
    if Distinct([c.conditionId] + ids) {
      forall k | 0 <= k < |ids| ensures ids[k] != c.conditionId {
        assert ([c.conditionId] + ids)[0] != ([c.conditionId] + ids)[k + 1];
      }
      forall i, j | 0 <= i < j < |ids| ensures ids[i] != ids[j] {
        assert ([c.conditionId] + ids)[i + 1] != ([c.conditionId] + ids)[j + 1];
      }
    }
  }

  lemma ResolveApplies(s: GameState, outcome: CombatOutcome)
    requires ValidGameState(s) && s.combat.Some? && s.combat.Get().pendingDeath.None?
             && s.combat.Get().pendingAction.None?
    ensures Apply(s, CombatResolved(outcome)) == Done(WithCombat(s, s.combat.Get().(status := Resolved)))
  {
    hide ValidGameState, ValidCombat, ValidParty, ValidPendings, ValidChallenges, ValidRituals, ValidSocials,
         ValidScars;
    ValidParts(s);
    CombatStatusValid(s.combat.value, s.combat.value.(status := Resolved));
    WithCombatValid(s, s.combat.value.(status := Resolved));
  }

  // ----- Full lists -----

  /** With sixteen checks pending no further one is requested, whatever it is. */
  lemma FullPendingsRefuse(s: GameState, id: Id, nonce: Id, d: Disclosure)
    requires ValidGameState(s) && |s.pendingChecks| == 16
    ensures Apply(s, PhysicalRollRequested(id, nonce, d)).Refused?
  {
    hide ValidGameState, ValidDisclosure;
    var e := PhysicalRollRequested(id, nonce, d);
    if Step(s, e).Done? {
      var t := Step(s, e).value;
      assert |t.pendingChecks| == 17;
      PendingsFew(t);
    }
  }

  lemma PendingsFew(t: GameState)
    ensures ValidGameState(t) ==> |t.pendingChecks| <= 16
  {
    hide ValidParty, ValidCombatOption, ValidChallenges, ValidSocials, ValidRituals, ValidScars, ValidDeaths;
  }

  /** A hero with thirty-two conditions takes no further one. */
  lemma FullConditionsRefuse(s: GameState, i: nat, condition: Condition)
    requires ValidGameState(s) && i < |s.characters| && |At(s.characters, i).conditions| == 32
    ensures Apply(s, ConditionApplied(At(s.characters, i).characterId, condition)).Refused?
  {
    hide ValidGameState, IndexOf, ConditionIds, ValidCharacter, FindCharacter, FindActor;
    HeroValid(s, i);
    var e := ConditionApplied(s.characters[i].characterId, condition);
    if Step(s, e).Done? {
      var t := Step(s, e).value;
      assert |t.characters[i].conditions| == 33;
      ConditionsFew(t, i);
    }
  }

  lemma ConditionsFew(t: GameState, i: nat)
    requires i < |t.characters|
    ensures ValidGameState(t) ==> |At(t.characters, i).conditions| <= 32
  {
    hide ValidPendings, ValidCombatOption, ValidChallenges, ValidSocials, ValidRituals, ValidScars, ValidDeaths,
         GearMatchesNames, RatingsInRange, DistinctWounds, RankFeatures, Distinct;
    if ValidGameState(t) {
      assert ValidCharacter(t.characters[i]);
    }
  }

  // ----- Combat participants -----

  lemma {:induction false} OccupancySame(ps: seq<Participant>, qs: seq<Participant>, zone: ZoneId)
    requires |ps| == |qs| && forall i :: 0 <= i < |ps| ==> qs[i].zoneId == ps[i].zoneId
    ensures Occupancy(qs, zone) == Occupancy(ps, zone)
  {
    if ps != [] {
      OccupancySame(ps[1..], qs[1..], zone);
    }
  }

  lemma SamePlacesFit(zones: seq<Zone>, ps: seq<Participant>, qs: seq<Participant>)
    requires OccupancyFits(zones, ps) && |ps| == |qs| && forall i :: 0 <= i < |ps| ==> qs[i].zoneId == ps[i].zoneId
    ensures OccupancyFits(zones, qs)
  {
    hide Occupancy;
    forall z | z in zones ensures Occupancy(qs, z.zoneId) <= z.capacity {
      OccupancySame(ps, qs, z.zoneId);
    }
  }

  /** One participant replaced, the active actor perhaps released. */
  lemma ParticipantReplaced(c: Combat, i: nat, p: Participant, d: Combat)
    requires ValidCombat(c) && i < |c.participants| && p.actorId == c.participants[i].actorId
    requires d == c.(participants := c.participants[i := p], activeActor := d.activeActor, activeSide := d.activeSide)
    requires ParticipantSound(c.zones, c.round, c.objectives, p) && OccupancyFits(c.zones, d.participants)
             && ActiveSound(d)
    ensures ValidCombat(d)
  {
    hide ValidZoneGraph, Distinct, OccupancyFits, ObjectivesSound, OverlaysSound, WindowSound, ParticipantSound,
         ActiveSound;
    SameParticipantIds(c.participants, i, p);
  }

  lemma SameParticipant(c: Combat, actor: Id, i: nat, p: Participant)
    requires FindParticipant(c, actor) == Some(i) && p.actorId == actor
    ensures FindParticipant(WithParticipant(c, i, p), actor) == Some(i)
    ensures ParticipantIds(WithParticipant(c, i, p).participants) == ParticipantIds(c.participants)
  {
    SameParticipantIds(c.participants, i, p);
  }

  lemma ActiveParts(c: Combat, i: nat)
    requires ActiveSound(c) && c.activeActor.Some? && FindParticipant(c, c.activeActor.value) == Some(i)
    ensures !c.participants[i].activationSpent && c.participants[i].Side() == c.activeSide
  {}

  /** An active participant is not held back. */
  lemma ActiveNotHeldBack(c: Combat, i: nat, p: Participant)
    requires ValidCombat(c) && i < |c.participants| && !c.participants[i].activationSpent
    requires p.role == c.participants[i].role && p.zoneId == c.participants[i].zoneId
    ensures ParticipantSound(c.zones, c.round, c.objectives, p)
  {
    hide ValidZoneGraph, Distinct, OccupancyFits, ObjectivesSound, OverlaysSound, WindowSound, ActiveSound,
         NoObjectiveAtTwo;
    assert ParticipantSound(c.zones, c.round, c.objectives, c.participants[i]);
  }

  /** The state of the active actor once it has spent a slot. */
  function SlotSpent(c: Combat, i: nat, slot: Slot): Combat
  {
    if i >= |c.participants| then c
    else
      var q := AfterSpend(c.participants[i], slot);
      var d := WithParticipant(c, i, q);
      if q.activationSpent then d.(activeActor := None, activeSide := Opposite(q.Side())) else d
  }

  lemma SlotSpentValid(c: Combat, i: nat, slot: Slot)
    requires ValidCombat(c) && i < |c.participants| && !slot.ReactionSlot?
    requires c.activeActor == Some(c.participants[i].actorId)
             && FindParticipant(c, c.participants[i].actorId) == Some(i)
    ensures ValidCombat(SlotSpent(c, i, slot))
  {
    hide ValidZoneGraph, Distinct, OccupancyFits, ObjectivesSound, OverlaysSound, WindowSound, ParticipantsSound,
         ParticipantSound, IndexOf, StatusSound, ParticipantIds;
    var q := AfterSpend(c.participants[i], slot);
    ActiveParts(c, i);
    ActiveNotHeldBack(c, i, q);
    SamePlacesFit(c.zones, c.participants, c.participants[i := q]);
    SameParticipant(c, q.actorId, i, q);
    ParticipantReplaced(c, i, q, SlotSpent(c, i, slot));
  }

  lemma SlotApplies(s: GameState, i: nat, slot: Slot)
    requires ValidGameState(s) && s.combat.Some? && i < |s.combat.Get().participants| && !slot.ReactionSlot?
    requires var c := s.combat.Get();
             && c.activeActor == Some(At(c.participants, i).actorId)
               && FindParticipant(c, At(c.participants, i).actorId) == Some(i)
             && SlotAvailable(At(c.participants, i), slot)
    ensures var c := s.combat.Get();
            Apply(s, ActionSlotSpent(c.combatId, At(c.participants, i).actorId, slot)) ==
              Done(WithCombat(s, SlotSpent(c, i, slot)))
  {
    hide ValidGameState, ValidCombat, IndexOf, ValidPendings, ValidChallenges, ValidCharacter;
    var c := s.combat.value;
    ValidParts(s);
    CombatActive(c);
    ActiveParts(c, i);
    SlotSpentValid(c, i, slot);
    WithCombatValid(s, SlotSpent(c, i, slot));
  }

  lemma CombatActive(c: Combat)
    requires ValidCombat(c)
    ensures ActiveSound(c) && StatusSound(c) && ObjectivesSound(c.objectives) && OccupancyFits(c.zones, c.participants)
    ensures Distinct(ParticipantIds(c.participants)) && Distinct(ZoneIds(c.zones))
            && OverlaysSound(c.objectives, c.overlays)
    ensures ParticipantsSound(c.zones, c.round, c.objectives, c.participants)
  {
    hide Distinct, OccupancyFits, ObjectivesSound, OverlaysSound, WindowSound, ParticipantsSound, ActiveSound,
         StatusSound, ZoneShapes, ConnectionsSound, Connected;
  }

  lemma SameZoneIndex(zones: seq<Zone>, k: nat, z: nat)
    requires Distinct(ZoneIds(zones)) && k < |zones| && z < |zones| && zones[k].zoneId == zones[z].zoneId
    ensures k == z
  {
    assert ZoneIds(zones)[k] == ZoneIds(zones)[z];
  }

  lemma MovedFits(c: Combat, i: nat, to: ZoneId, z: nat)
    requires OccupancyFits(c.zones, c.participants) && Distinct(ZoneIds(c.zones)) && i < |c.participants|
    requires FindZone(c.zones, to) == Some(z) && Occupancy(c.participants, to) < c.zones[z].capacity
    ensures OccupancyFits(c.zones, c.participants[i := c.participants[i].(zoneId := to)])
  {
    hide Occupancy, IndexOf, FindZone, ZoneIds, Distinct;
    var p := c.participants[i].(zoneId := to);
    forall w | w in c.zones ensures Occupancy(c.participants[i := p], w.zoneId) <= w.capacity {
      OccupancyUpdate(c.participants, i, p, w.zoneId);
      var k :| 0 <= k < |c.zones| && c.zones[k] == w;
      if w.zoneId == to {
        SameZoneIndex(c.zones, k, z);
      }
    }
  }

  lemma MovedActive(c: Combat, i: nat, p: Participant)
    requires ActiveSound(c) && i < |c.participants| && p.actorId == c.participants[i].actorId
    requires p.activationSpent == c.participants[i].activationSpent && p.Side() == c.participants[i].Side()
    ensures ActiveSound(WithParticipant(c, i, p))
  {
    SameParticipantIds(c.participants, i, p);
  }

  lemma MoveApplies(s: GameState, i: nat, to: ZoneId, z: nat)
    requires ValidGameState(s) && s.combat.Some? && i < |s.combat.Get().participants|
    requires var c := s.combat.Get();
             && FindParticipant(c, At(c.participants, i).actorId) == Some(i)
             && FindZone(c.zones, to) == Some(z) && Occupancy(c.participants, to) < At(c.zones, z).capacity
    ensures var c := s.combat.Get();
            Apply(s, ActorMoved(c.combatId, At(c.participants, i).actorId, At(c.participants, i).zoneId, to)) ==
            Done(WithCombat(s, WithParticipant(c, i, At(c.participants, i).(zoneId := to))))
  {
    hide ValidGameState, ValidCombat, IndexOf, Occupancy, OccupancyFits, ActiveSound, ValidParty, ValidPendings,
         ValidChallenges;
    var c := s.combat.value;
    var p := c.participants[i].(zoneId := to);
    ValidParts(s);
    CombatActive(c);
    MovedFits(c, i, to, z);
    MovedActive(c, i, p);
    assert ParticipantSound(c.zones, c.round, c.objectives, c.participants[i]);
    ZoneNamed(c.zones, to, z);
    ParticipantReplaced(c, i, p, WithParticipant(c, i, p));
    WithCombatValid(s, WithParticipant(c, i, p));
  }

  lemma ZoneNamed(zones: seq<Zone>, to: ZoneId, z: nat)
    requires FindZone(zones, to) == Some(z)
    ensures to in ZoneIds(zones)
  {}

  // ----- Objectives -----

  lemma SameObjectiveIds(os: seq<Objective>, i: nat, o: Objective)
    requires i < |os| && o.objectiveId == os[i].objectiveId
    ensures ObjectiveIds(os[i := o]) == ObjectiveIds(os)
  {
    assert ObjectiveIds(os[i := o]) == ObjectiveIds(os);
  }

  /** An objective moved forward, with the reinforcements it may summon. */
  function Advanced(c: Combat, i: nat, current: int, status: ObjectiveStatus): Combat
  {
    if i >= |c.objectives| then c
    else
      var d := c.(objectives := c.objectives[i := c.objectives[i].(progress := current, status := status)]);
      if current >= 2 then d.(participants := SummonAll(c.participants)) else d
  }

  lemma AdvancedHeld(c: Combat, i: nat, current: int, status: ObjectiveStatus)
    requires ParticipantsSound(c.zones, c.round, c.objectives, c.participants) && i < |c.objectives|
             && c.objectives[i].progress <= current
    ensures var d := Advanced(c, i, current, status); ParticipantsSound(d.zones, d.round, d.objectives, d.participants)
  {
    var d := Advanced(c, i, current, status);
    assert d.objectives[i] in d.objectives;
    forall k | 0 <= k < |d.participants| ensures ParticipantSound(d.zones, d.round, d.objectives, d.participants[k]) {
      assert ParticipantSound(c.zones, c.round, c.objectives, c.participants[k]);
      if NoObjectiveAtTwo(d.objectives) {
        assert d.objectives[i].progress < 2;
        forall o | o in c.objectives ensures o.progress < 2 {
          var j :| 0 <= j < |c.objectives| && c.objectives[j] == o;
          assert d.objectives[j] in d.objectives;
        }
      }
    }
  }

  lemma AdvancedActive(c: Combat, i: nat, current: int, status: ObjectiveStatus)
    requires ActiveSound(c) && i < |c.objectives|
    ensures ActiveSound(Advanced(c, i, current, status))
  {
    hide ParticipantIds;
    assert ParticipantIds(SummonAll(c.participants)) == ParticipantIds(c.participants);
  }

  lemma AdvancedValid(c: Combat, i: nat, current: int, status: ObjectiveStatus)
    requires ValidCombat(c) && i < |c.objectives| && c.objectives[i].progress <= current <= c.objectives[i].threshold
    ensures ValidCombat(Advanced(c, i, current, status))
  {
    hide ValidZoneGraph, Distinct, OccupancyFits, WindowSound, ParticipantsSound, ActiveSound, ObjectiveIds;
    var d := Advanced(c, i, current, status);
    AdvancedHeld(c, i, current, status);
    AdvancedActive(c, i, current, status);
    SamePlacesFit(c.zones, c.participants, d.participants);
    assert ParticipantIds(SummonAll(c.participants)) == ParticipantIds(c.participants);
    SameObjectiveIds(c.objectives, i, d.objectives[i]);
    assert c.objectives[i] in c.objectives;
    forall o | o in d.objectives ensures 0 <= o.progress <= o.threshold && 1 <= o.threshold {
      var j :| 0 <= j < |d.objectives| && d.objectives[j] == o;
      assert c.objectives[j] in c.objectives;
    }
  }

  lemma ObjectiveApplies(s: GameState, i: nat, objective: Id, current: int)
    requires ValidGameState(s) && s.combat.Some?
    requires var c := s.combat.Get();
             IndexOf(ObjectiveIds(c.objectives), objective) == Some(i)
               && At(c.objectives, i).progress <= current <= At(c.objectives, i).threshold
    ensures var c := s.combat.Get();
            var status := if current == At(c.objectives, i).threshold then ObjectiveCompleted else ObjectiveActive;
            Apply(s, ObjectiveAdvanced(objective, At(c.objectives, i).progress, current, status)) ==
              Done(WithCombat(s, Advanced(c, i, current, status)))
  {
    hide ValidGameState, ValidCombat, IndexOf, SummonAll, ValidParty, ValidRituals;
    var c := s.combat.value;
    var status := if current == c.objectives[i].threshold then ObjectiveCompleted else ObjectiveActive;
    ValidParts(s);
    AdvancedValid(c, i, current, status);
    WithCombatValid(s, Advanced(c, i, current, status));
  }

  // ----- Enemies -----

  lemma EnemyEdited(c: Combat, i: nat, guard: int)
    requires ValidCombat(c) && i < |c.participants| && c.participants[i].role.Enemy?
    requires 0 <= guard <= c.participants[i].role.guardMaximum
    ensures ValidCombat(WithParticipant(c, i, c.participants[i].(role := c.participants[i].role.(guard := guard))))
  {
    hide ValidCombat, OccupancyFits, ActiveSound, Occupancy, OverlaysSound, StatusSound, ZoneIds;
    var p := c.participants[i].(role := c.participants[i].role.(guard := guard));
    CombatActive(c);
    assert ParticipantSound(c.zones, c.round, c.objectives, c.participants[i]);
    SamePlacesFit(c.zones, c.participants, c.participants[i := p]);
    MovedActive(c, i, p);
    ParticipantReplaced(c, i, p, WithParticipant(c, i, p));
  }

  lemma EnemyGuardBounds(c: Combat, i: nat)
    requires ValidCombat(c) && i < |c.participants| && c.participants[i].role.Enemy?
    ensures 0 <= c.participants[i].role.guard <= c.participants[i].role.guardMaximum
            && 0 <= c.participants[i].role.armor
  {
    hide ValidCombat, ActiveSound, OverlaysSound, OccupancyFits, ParticipantIds, StatusSound;
    CombatActive(c);
    assert ParticipantSound(c.zones, c.round, c.objectives, c.participants[i]);
  }

  lemma EnemyStruckApplies(s: GameState, i: nat, combatId: Id, base: int, bonus: int)
    requires ValidGameState(s) && InCombat(s, combatId) && i < |s.combat.Get().participants|
    requires var p := At(s.combat.Get().participants, i);
             p.role.Enemy? && FindParticipant(s.combat.Get(), p.actorId) == Some(i)
               && p.actorId !in ActorIds(s.characters)
    ensures var c := s.combat.Get();
            var p := At(c.participants, i);
            var applied := ImpactOf(base, bonus, p.role.Armor());
            var after := Max(0, p.role.Guard() - applied);
            Apply(s, ImpactApplied(combatId, p.actorId, base, bonus, p.role.Armor(), applied, p.role.Guard(), after)) ==
            Done(WithCombat(s, WithParticipant(c, i, p.(role := p.role.WithGuard(after)))))
  {
    hide ValidGameState, ValidCombat, IndexOf, ValidParty, ValidPendings, ValidChallenges, ValidRituals,
         FindParticipant, ValidSocials;
    var c := s.combat.value;
    var p := c.participants[i];
    ValidParts(s);
    EnemyGuardBounds(c, i);
    var after := Max(0, p.role.guard - ImpactOf(base, bonus, p.role.armor));
    EnemyEdited(c, i, after);
    WithCombatValid(s, WithParticipant(c, i, p.(role := p.role.(guard := after))));
  }

  lemma OverlayApplies(s: GameState, i: nat, o: Overlay, after: int)
    requires ValidGameState(s) && s.combat.Some? && i < |s.combat.Get().participants|
    requires var c := s.combat.Get();
             var p := At(c.participants, i);
             && p.role.Enemy? && p.role.IsBoss() && FindParticipant(c, o.actorId) == Some(i)
               && 0 <= after <= p.role.GuardMaximum()
             && o.objectiveId in ObjectiveIds(c.objectives)
    ensures var c := s.combat.Get();
            var p := At(c.participants, i);
            Apply(s, BossOverlayActivated(o, p.role.Guard(), after)) ==
            Done(WithCombat(s, WithParticipant(c, i, p.(role := p.role.WithGuard(after))).(overlays :=
              ReplaceOverlays(c.overlays, o))))
  {
    hide ValidGameState, ValidCombat, IndexOf, ValidParty, ValidPendings, ValidChallenges, ValidRituals,
         FindParticipant, ValidSocials;
    var c := s.combat.value;
    var p := c.participants[i];
    ValidParts(s);
    EnemyEdited(c, i, after);
    var d := WithParticipant(c, i, p.(role := p.role.(guard := after)));
    OverlaysReplaced(d, o);
    WithCombatValid(s, d.(overlays := ReplaceOverlays(c.overlays, o)));
  }

  lemma OverlaysReplaced(d: Combat, o: Overlay)
    requires ValidCombat(d) && o.objectiveId in ObjectiveIds(d.objectives)
    ensures ValidCombat(d.(overlays := ReplaceOverlays(d.overlays, o)))
  {
    hide ValidZoneGraph, Distinct, OccupancyFits, ObjectivesSound, WindowSound, ParticipantsSound, IndexOf,
         ObjectiveIds;
    var os := ReplaceOverlays(d.overlays, o);
    forall x | x in os ensures x.objectiveId in ObjectiveIds(d.objectives) {
      var k :| 0 <= k < |os| && os[k] == x;
      assert d.overlays[k] in d.overlays;
    }
  }

  lemma GuardApplies(s: GameState, i: nat, current: int)
    requires ValidGameState(s) && i < |s.characters| && 0 <= current <= At(s.characters, i).guardMaximum
    ensures Apply(s, ResourceChanged(Of(At(s.characters, i).characterId), Guard, At(s.characters, i).guard, current)) ==
            Done(WithCharacter(s, i, At(s.characters, i).(guard := current)))
  {
    hide ValidGameState, IndexOf, GearMatchesNames, RatingsInRange, DistinctWounds, RankFeatures, Distinct,
         FindCharacter, FindActor, WithCharacter;
    HeroValid(s, i);
    WithCharacterValid(s, i, s.characters[i].(guard := current));
  }

  lemma WithRitualsValid(s: GameState, rs: seq<Ritual>)
    requires ValidGameState(s) && ValidRituals(rs)
    ensures ValidGameState(s.(rituals := rs))
  {
    hide ValidParty, ValidPendings, ValidCombat, ValidChallenges, ValidSocials, ValidRituals, ValidScars, ValidDeaths,
         ValidCombatOption;
  }

  lemma RitualReplaced(rs: seq<Ritual>, i: nat, r: Ritual)
    requires ValidRituals(rs) && i < |rs| && ValidRitual(r) && r.ritualId == rs[i].ritualId
    ensures ValidRituals(rs[i := r])
  {
    hide ValidRitual, Distinct;
    SameRitualIds(rs, i, r);
  }
}
