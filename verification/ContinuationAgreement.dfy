/** Exactly when what follows a submitted die is applied: other commands may have come between the request and the die.
    */
module ContinuationAgreement {
  import opened Common
  import opened ZoneGraph
  import opened State
  import opened Validity
  import opened Events
  import opened Reducer
  import opened Undo
  import opened Checks
  import opened Content
  import opened CombatRules
  import opened CombatDecisions
  import opened Reactions
  import opened Subsystems
  import opened Commands
  import opened Applies
  import opened EffectAgreement
  import opened CombatAgreement
  import opened SubsystemAgreement

  // ----- The die itself -----

  lemma RemovedValid(ps: seq<PendingCheck>, i: nat)
    requires ValidPendings(ps) && i < |ps|
    ensures ValidPendings(Removed(ps, i))
  {
    hide ValidPending;
    var qs := Removed(ps, i);
    forall a, b | 0 <= a < b < |qs| ensures CheckIds(qs)[a] != CheckIds(qs)[b] && Nonces(qs)[a] != Nonces(qs)[b] {
      var m, n := if a < i then a else a + 1, if b < i then b else b + 1;
      assert qs[a] == ps[m] && qs[b] == ps[n];
      assert CheckIds(ps)[m] != CheckIds(ps)[n] && Nonces(ps)[m] != Nonces(ps)[n];
    }
    forall a | 0 <= a < |qs| ensures ValidPending(qs[a]) {
      assert qs[a] == ps[if a < i then a else a + 1];
    }
  }

  /** The state in which only pending checks, and what the fight waits for, may differ. */
  predicate Freed(s: GameState, t: GameState) {
    && t == s.(pendingChecks := t.pendingChecks, combat := t.combat)
    && (s.combat.None? <==> t.combat.None?)
    && (s.combat.Some? ==>
          t.combat.value == s.combat.value.(status := t.combat.value.status,
            pendingDeath := t.combat.value.pendingDeath,
                                            pendingAction := t.combat.value.pendingAction))
  }

  lemma ReleasedSound(c: Combat, id: Id)
    requires StatusSound(c)
    ensures StatusSound(ReleaseDeath(c, id)) && StatusSound(ReleaseAction(c, id))
  {}

  lemma ReleasedKept(c: Combat, id: Id)
    ensures ReleaseDeath(c, id) == c.(status := ReleaseDeath(c, id).status,
            pendingDeath := ReleaseDeath(c, id).pendingDeath)
    ensures ReleaseAction(c, id) == c.(status := ReleaseAction(c, id).status,
            pendingAction := ReleaseAction(c, id).pendingAction)
  {}

  /** A submitted die takes its check off the list and frees the fight that waited for it. */
  lemma DieApplies(s: GameState, i: nat, result: CheckResult) returns (t: GameState)
    requires ValidGameState(s) && i < |s.pendingChecks| && FindPending(s, At(s.pendingChecks, i).checkId) == Some(i)
    ensures Apply(s, CheckResolvedPhysical(At(s.pendingChecks, i).checkId, result)) == Done(t) && ValidGameState(t)
    ensures Freed(s, t) && t.pendingChecks == Removed(s.pendingChecks, i)
    ensures ResolvePhysical(s, At(s.pendingChecks, i).checkId) == Done(t)
  {
    hide ValidGameState, ValidCombat, ValidPendings, ReleaseDeath, ReleaseAction, IndexOf, StatusSound, Distinct,
         ValidParty, ValidChallenges, ActiveSound, ValidRituals, FindPending;
    var id := s.pendingChecks[i].checkId;
    t := ResolvePhysical(s, id).value;
    ValidParts(s);
    PendingsAreDistinct(s.pendingChecks);
    WithoutIsRemoved(s.pendingChecks, i);
    RemovedValid(s.pendingChecks, i);
    WithPendingsValid(s, Removed(s.pendingChecks, i));
    var u := s.(pendingChecks := Removed(s.pendingChecks, i));
    if s.combat.Some? {
      var c := s.combat.value;
      CombatActive(c);
      ReleasedSound(c, id);
      ReleasedKept(c, id);
      CombatStatusValid(c, ReleaseDeath(c, id));
      CombatStatusValid(c, ReleaseAction(c, id));
      WithCombatValid(u, ReleaseDeath(c, id));
      WithCombatValid(u, ReleaseAction(c, id));
    }
  }

  lemma PendingsAreDistinct(ps: seq<PendingCheck>)
    requires ValidPendings(ps)
    ensures Distinct(CheckIds(ps))
  {
    hide ValidPending, Distinct;
  }

  // ----- What follows does not depend on what was freed -----

  lemma SameFinish(s: GameState, t: GameState, defeated: Option<Id>, dead: Option<Id>, restored: Option<Id>)
    requires Freed(s, t) && s.combat.Some?
    ensures FinishIfOver(t, t.combat.Get(), defeated, dead, restored) ==
            FinishIfOver(s, s.combat.Get(), defeated, dead, restored)
  {
    hide EnemyStands;
    assert forall i :: 0 <= i < |s.characters| ==>
      (HeroStands(t, t.characters[i], dead) <==> HeroStands(s, s.characters[i], dead));
  }

  lemma SameStruck(s: GameState, t: GameState, catalog: Catalog, p: Participant, after: int)
    requires Freed(s, t) && s.combat.Some? && p.role.Enemy?
    ensures StruckEnemy(t, catalog, t.combat.Get(), p, after) == StruckEnemy(s, catalog, s.combat.Get(), p, after)
  {
    hide FinishIfOver, GuardOnSelf, ByReference, WaitingOverlay;
    if after == 0 {
      SameFinish(s, t, Some(p.actorId), None, None);
      SameFinish(s, t, Some(p.actorId), None, Some(p.actorId));
    }
  }

  lemma SameWounds(s: GameState, t: GameState, facts: Facts, hero: Character)
    requires Freed(s, t) && s.combat.Some?
    ensures WoundEvents(t, facts, t.combat.Get(), hero) == WoundEvents(s, facts, s.combat.Get(), hero)
  {
    hide CreateDisclosure, ValidRequest, IndexOf;
  }

  lemma SameImpact(s: GameState, t: GameState, facts: Facts, catalog: Catalog, target: Target, base: int,
      degree: Degree)
    requires Freed(s, t) && s.combat.Some?
    ensures ImpactEvents(t, facts, catalog, t.combat.Get(), target, base, degree) ==
            ImpactEvents(s, facts, catalog, s.combat.Get(), target, base, degree)
  {
    hide StruckEnemy, WoundEvents, ImpactOf, IndexOf;
    if target.OnActor? && FindParticipant(s.combat.value, target.actorId).Some? {
      var p := s.combat.value.participants[FindParticipant(s.combat.value, target.actorId).value];
      if p.role.Enemy? {
        var impact := ImpactOf(base, if degree.Triumph? then 2 else 0, p.role.armor);
        SameStruck(s, t, catalog, p, Max(0, p.role.guard - impact));
      } else if FindActor(s, target.actorId).Some? {
        SameWounds(s, t, facts, s.characters[FindActor(s, target.actorId).value]);
      }
    }
  }

  lemma SameEffect(s: GameState, t: GameState, facts: Facts, catalog: Catalog, target: Target, e: Effect)
    requires Freed(s, t) && s.combat.Some?
    ensures EffectEvents(t, facts, catalog, t.combat.Get(), target, e) ==
            EffectEvents(s, facts, catalog, s.combat.Get(), target, e)
  {
    hide IndexOf, ByReference;
  }

  lemma {:induction false} SameEffects(s: GameState, t: GameState, facts: Facts, catalog: Catalog, target: Target,
      es: seq<Effect>)
    requires Freed(s, t) && s.combat.Some?
    ensures AllEffects(t, facts, catalog, t.combat.Get(), target, es) ==
            AllEffects(s, facts, catalog, s.combat.Get(), target, es)
  {
    hide EffectEvents, Freed;
    if es != [] {
      SameEffect(s, t, facts, catalog, target, es[0]);
      SameEffects(s, t, facts, catalog, target, es[1..]);
    }
  }

  lemma SameResolved(s: GameState, t: GameState, facts: Facts, x: Candidate, ability: Option<Ability>, degree: Degree,
      base: Option<int>)
    requires Freed(s, t)
    ensures ResolvedEvents(t, facts, x, ability, degree, base) == ResolvedEvents(s, facts, x, ability, degree, base)
  {
    hide ImpactEvents, AllEffects, IndexOf;
    if s.combat.Some? && facts.catalog.Some? {
      if base.Some? {
        SameImpact(s, t, facts, facts.catalog.value, x.target, base.value, degree);
      }
      if ability.Some? {
        SameEffects(s, t, facts, facts.catalog.value, x.target, ability.value.effects);
      }
    }
  }

  lemma SameDeathTest(s: GameState, t: GameState, facts: Facts, hero: Id, degree: Degree)
    requires Freed(s, t)
    ensures DeathTestEvents(t, facts, hero, degree) == DeathTestEvents(s, facts, hero, degree)
  {
    hide FinishIfOver, IndexOf;
    if s.combat.Some? {
      SameFinish(s, t, None, Some(hero), None);
    }
  }

  lemma {:induction false} SameAdjustments(s: GameState, t: GameState, hero: Option<Character>,
      values: map<Resource, int>, es: seq<Effect>)
    requires t.supply == s.supply && t.supplyMaximum == s.supplyMaximum
    ensures AdjustmentEvents(t, hero, values, es) == AdjustmentEvents(s, hero, values, es)
    decreases |es|
  {
    hide Min;
    if es != [] && AdjustmentAllowed(es[0], hero) {
      var resource := es[0].resource;
      var current := if resource in values then values[resource] else Current(s, hero, resource);
      SameAdjustments(s, t, hero, values[resource := Max(0, Min(Maximum(s, hero, resource), current + es[0].amount))],
        es[1..]);
    }
  }

  lemma SameRitual(s: GameState, t: GameState, facts: Facts, id: Id, actor: Id, degree: Degree)
    requires Freed(s, t)
    ensures RitualEvents(t, facts, id, actor, degree) == RitualEvents(s, facts, id, actor, degree)
  {
    hide AdjustmentEvents, ConsequenceFor, IndexOf, ByReference;
    assert HeroOf(t, actor) == HeroOf(s, actor);
    if facts.catalog.Some? && FindRitual(s, id).Some? {
      var d := ByReference(facts.catalog.value.definitions, s.rituals[FindRitual(s, id).value].definition);
      if d.Some? && d.value.RitualDefinition? && ConsequenceFor(d.value.consequences, degree).Some? {
        SameAdjustments(s, t, HeroOf(s, actor), map[], ConsequenceFor(d.value.consequences, degree).value.effects);
      }
    }
  }

  lemma SameScenes(s: GameState, t: GameState, facts: Facts, id: Id, requested: Stance, limit: Option<Id>,
      degree: Degree)
    requires Freed(s, t)
    ensures ChallengeEvents(t, facts, id, degree) == ChallengeEvents(s, facts, id, degree)
    ensures SocialEvents(t, id, requested, limit, degree) == SocialEvents(s, id, requested, limit, degree)
  {
    hide ChallengeContent, OutcomeFor, TrackEvents, IndexOf;
  }

  lemma SameContinuation(s: GameState, t: GameState, facts: Facts, k: Continuation, result: CheckResult)
    requires Freed(s, t)
    ensures ContinuationEvents(t, facts, k, result) == ContinuationEvents(s, facts, k, result)
  {
    hide ResolvedEvents, DeathTestEvents, ChallengeEvents, SocialEvents, RitualEvents, Freed, AbilityByReference;
    match k
    case CombatAction(x, base) =>
      if facts.catalog.Some? {
        var ability := if x.source.None? then None else AbilityByReference(facts.catalog.value, x.source.value);
        SameResolved(s, t, facts, x, ability, result.finalDegree, base);
      }
    case DeathTest(_, hero) => SameDeathTest(s, t, facts, hero, result.finalDegree);
    case ForChallenge(id) => SameScenes(s, t, facts, id, Closed, None, result.finalDegree);
    case ForSocial(npc, requested, limit) => SameScenes(s, t, facts, npc, requested, limit, result.finalDegree);
    case ForRitual(id) => SameRitual(s, t, facts, id, result.actorId, result.finalDegree);
  }

  // ----- A combat action goes on -----

  lemma MovedHadRoom(t: GameState, combatId: Id, actor: Id, from: ZoneId, to: ZoneId)
    requires Apply(t, ActorMoved(combatId, actor, from, to)).Done?
    ensures t.combat.Some? && HasRoom(t.combat.Get(), to)
  {
    hide ValidGameState, Occupancy, IndexOf;
  }

  /** Whoever is moved is moved first, and to the one zone. */
  lemma MoveComesFirst(t: GameState, facts: Facts, x: Candidate, ability: Option<Ability>, degree: Degree,
      base: Option<int>, e: Event)
    requires t.combat.Some? && facts.catalog.Some? && ResolvedEvents(t, facts, x, ability, degree, base).Done?
    requires e in ResolvedEvents(t, facts, x, ability, degree, base).Get() && e.ActorMoved?
    ensures var first := At(ResolvedEvents(t, facts, x, ability, degree, base).Get(), 0);
            first.ActorMoved? && first.toZone == e.toZone
  {
    hide ImpactEvents, AllEffects, IndexOf, AllStriking;
    var c, catalog := t.combat.value, facts.catalog.value;
    var es := ResolvedEvents(t, facts, x, ability, degree, base).value;
    if base.Some? {
      ImpactStriking(t, facts, catalog, c, x.target, base.value, degree);
      ImpactOnActor(t, facts, catalog, c, x.target, base.value, degree);
      NoMoveStrikes(ImpactEvents(t, facts, catalog, c, x.target, base.value, degree).value, e);
    }
    if ability.Some? {
      MovesTarget(t, facts, catalog, c, x.target, ability.value.effects);
      var effects := AllEffects(t, facts, catalog, c, x.target, ability.value.effects).value;
      assert base.None? ==> es == effects;
      assert es[0] in es;
    }
  }

  lemma ImpactOnActor(t: GameState, facts: Facts, catalog: Catalog, c: Combat, target: Target, base: int,
      degree: Degree)
    requires ImpactEvents(t, facts, catalog, c, target, base, degree).Done?
    ensures target.OnActor?
  {
    hide StruckEnemy, WoundEvents, IndexOf, ImpactOf;
  }

  lemma NoMoveStrikes(es: seq<Event>, e: Event)
    requires AllStriking(es) && e.ActorMoved?
    ensures e !in es
  {}

  lemma AppliedHadPlace(t: GameState, facts: Facts, x: Candidate, ability: Option<Ability>, degree: Degree,
      base: Option<int>)
    requires t.combat.Some? && facts.catalog.Some? && ResolvedEvents(t, facts, x, ability, degree, base).Done?
    requires Fold(t, ResolvedEvents(t, facts, x, ability, degree, base).Get()).Done?
    ensures MovesFit(t, ResolvedEvents(t, facts, x, ability, degree, base).Get())
  {
    hide ResolvedEvents, Apply, HasRoom;
    var es := ResolvedEvents(t, facts, x, ability, degree, base).value;
    forall e | e in es && e.ActorMoved? ensures HasRoom(t.combat.value, e.toZone) {
      MoveComesFirst(t, facts, x, ability, degree, base, e);
      MovedHadRoom(t, es[0].combatId, es[0].actorId, es[0].fromZone, es[0].toZone);
    }
  }

  lemma ActionGoesOn(t: GameState, facts: Facts, x: Candidate, ability: Option<Ability>, degree: Degree,
      base: Option<int>)
    requires ValidGameState(t) && t.combat.Some? && t.combat.Get().status.Active? && facts.catalog.Some?
    requires FreshFacts(t, facts) && EnemiesApart(t)
    requires (ability.Some? ==> WellFormedAbility(ability.Get())) && (base.Some? ==> ability.Some?)
    requires ResolvedEvents(t, facts, x, ability, degree, base).Done?
    ensures var es := ResolvedEvents(t, facts, x, ability, degree, base).Get();
            Fold(t, es).Done? <==> RoomFor(t, es) && MovesFit(t, es) && EffectsFit(t, es)
  {
    hide ValidGameState, Apply, FreshFacts, EnemiesApart, WellFormedAbility, RoomFor, SparkFits, MovesFit, EffectsFit,
         ResolvedEvents, AllFromAction, Prepared, Fold;
    var es := ResolvedEvents(t, facts, x, ability, degree, base).value;
    ResolvedFromAction(t, facts, x, ability, degree, base);
    SelfPrepared(t);
    if Fold(t, es).Done? {
      AppliedHadRoom(t, es);
      AppliedHadPlace(t, facts, x, ability, degree, base);
    }
    if RoomFor(t, es) && MovesFit(t, es) {
      ResolvedExactly(t, facts, facts.catalog.value, t, x, ability, degree, base);
    }
  }

  // ----- A death test is decided -----

  /** What the outcome of a death test needs: a fresh scar and room for it, a hero not dead already, a fight that
      waits for nothing else when it ends. */
  predicate OutcomeFits(t: GameState, es: seq<Event>) {
    && (forall e :: e in es && e.PermanentScarGained? ==> |t.scars| < 32 && e.scarId !in ScarIds(t.scars))
    && (forall e :: e in es && e.CharacterDied? ==> e.characterId !in t.deaths)
    && (forall e :: e in es && e.CombatResolved? ==>
      t.combat.Some? && t.combat.value.pendingDeath.None? && t.combat.value.pendingAction.None?)
  }

  lemma StabilizedApplies(t: GameState, h: nat)
    requires ValidGameState(t) && h < |t.characters| && |At(t.characters, h).wounds| == 3
             && At(At(t.characters, h).wounds, 2).Filled?
    ensures var c := At(t.characters, h);
            Apply(t, HeroStabilized(c.characterId, c.wounds[2 := Empty])) ==
              Done(WithCharacter(t, h, c.(wounds := c.wounds[2 := Empty])))
  {
    hide ValidGameState, IndexOf, GearMatchesNames, RatingsInRange, RankFeatures, Distinct, FindCharacter, FindActor,
         WithCharacter;
    HeroValid(t, h);
    WithCharacterValid(t, h, t.characters[h].(wounds := t.characters[h].wounds[2 := Empty]));
  }

  lemma ScarsMustBeValid(t: GameState, scars: seq<Scar>)
    requires ValidGameState(t)
    ensures ValidGameState(t.(scars := scars)) <==> ValidScars(scars)
  {
    hide ValidParty, ValidPendings, ValidCombatOption, ValidChallenges, ValidSocials, ValidRituals, ValidScars,
         ValidDeaths;
  }

  lemma ScarApplies(t: GameState, scar: Id, hero: Id)
    requires ValidGameState(t)
    ensures Apply(t, PermanentScarGained(scar, hero)) ==
            if |t.scars| < 32 && scar !in ScarIds(t.scars) then Done(t.(scars := t.scars + [Scar(scar, hero)]))
              else Refused
  {
    hide ValidGameState, ScarIds;
    ScarsMustBeValid(t, t.scars);
    ScarsMustBeValid(t, t.scars + [Scar(scar, hero)]);
    assert ScarIds(t.scars + [Scar(scar, hero)]) == ScarIds(t.scars) + [scar];
    if scar !in ScarIds(t.scars) {
      DistinctAppend(ScarIds(t.scars), scar);
    } else {
      var k :| 0 <= k < |ScarIds(t.scars)| && ScarIds(t.scars)[k] == scar;
      var ids := ScarIds(t.scars) + [scar];
      assert ids[k] == ids[|ids| - 1];
    }
  }

  lemma DeathsMustBeValid(t: GameState, deaths: seq<Id>)
    requires ValidGameState(t)
    ensures ValidGameState(t.(deaths := deaths)) <==> ValidDeaths(deaths, CharacterIds(t.characters))
  {
    hide ValidParty, ValidPendings, ValidCombatOption, ValidChallenges, ValidSocials, ValidRituals, ValidScars,
         ValidDeaths;
  }

  lemma MoreDeaths(deaths: seq<Id>, heroes: seq<Id>, id: Id)
    requires ValidDeaths(deaths, heroes) && id in heroes && |heroes| <= 5
    ensures ValidDeaths(deaths + [id], heroes) <==> id !in deaths
  {
    var more := deaths + [id];
    if id !in deaths {
      DistinctAppend(deaths, id);
      DistinctCardinality(more);
      CardinalityBound(heroes);
      assert Elements(more) <= Elements(heroes);
      SubsetCardinality(Elements(more), Elements(heroes));
    } else {
      var k :| 0 <= k < |deaths| && deaths[k] == id;
      assert more[k] == more[|more| - 1];
    }
  }

  lemma FewHeroes(t: GameState, h: nat)
    requires ValidGameState(t) && h < |t.characters|
    ensures At(t.characters, h).characterId in CharacterIds(t.characters) && |CharacterIds(t.characters)| <= 5
    ensures ValidDeaths(t.deaths, CharacterIds(t.characters))
  {
    hide ValidGameState, ValidCharacter, Distinct, ValidCombat, ValidPendings, ValidChallenges, ValidRituals,
         ValidSocials, ValidScars;
    ValidParts(t);
    assert CharacterIds(t.characters)[h] == t.characters[h].characterId;
  }

  lemma DeathApplies(t: GameState, h: nat)
    requires ValidGameState(t) && h < |t.characters|
    ensures var id := At(t.characters, h).characterId;
            Apply(t, CharacterDied(id)) == if id !in t.deaths then Done(t.(deaths := t.deaths + [id])) else Refused
  {
    hide ValidGameState, ValidDeaths, CharacterIds;
    var id := t.characters[h].characterId;
    FewHeroes(t, h);
    MoreDeaths(t.deaths, CharacterIds(t.characters), id);
    DeathsMustBeValid(t, t.deaths + [id]);
  }

  lemma ResolutionExactly(t: GameState, outcome: CombatOutcome)
    requires ValidGameState(t) && t.combat.Some?
    ensures Apply(t, CombatResolved(outcome)).Done? <==>
            t.combat.Get().pendingDeath.None? && t.combat.Get().pendingAction.None?
  {
    hide ValidGameState, ValidCombat;
    if t.combat.value.pendingDeath.None? && t.combat.value.pendingAction.None? {
      ResolveApplies(t, outcome);
    } else {
      var c := t.combat.value.(status := Resolved);
      ResolvedMustWait(c);
      CombatMustBeSound(WithCombat(t, c));
    }
  }

  lemma ResolvedMustWait(c: Combat)
    requires c.status.Resolved? && (c.pendingDeath.Some? || c.pendingAction.Some?)
    ensures !ValidCombat(c)
  {
    hide ValidZoneGraph, Distinct, OccupancyFits, ObjectivesSound, OverlaysSound, ParticipantsSound, ActiveSound,
         WindowSound;
  }

  lemma DeathTestGoesOn(t: GameState, facts: Facts, hero: Id, degree: Degree)
    requires ValidGameState(t) && DeathTestEvents(t, facts, hero, degree).Done?
    ensures var es := DeathTestEvents(t, facts, hero, degree).Get();
            Fold(t, es).Done? <==> OutcomeFits(t, es)
  {
    hide ValidGameState, Apply, IndexOf, EnemyStands, HeroStands, FinishIfOver, OutcomeFits, ScarIds, Fold,
         FindCharacter;
    var h := FindCharacter(t, hero).value;
    var c := t.characters[h];
    var es := DeathTestEvents(t, facts, hero, degree).value;
    if degree.Success? || degree.Triumph? {
      StabilizedApplies(t, h);
      var first := HeroStabilized(hero, c.wounds[2 := Empty]);
      var u := WithCharacter(t, h, c.(wounds := c.wounds[2 := Empty]));
      FoldOne(t, first);
      FoldKeepsValid(t, [first], u);
      if degree.Triumph? {
        var scar := PermanentScarGained(facts.scarId.value, hero);
        ScarApplies(u, facts.scarId.value, hero);
        FoldOne(u, scar);
        FoldAppend(t, [first], [scar]);
        ScarOutcome(t, first, scar);
      } else {
        assert [first] + [] == [first];
        StableOutcome(t, first);
      }
    } else {
      DeathTestFails(t, h, es);
    }
  }

  lemma StableOutcome(t: GameState, first: Event)
    requires first.HeroStabilized?
    ensures OutcomeFits(t, [first])
  {}

  lemma ScarOutcome(t: GameState, first: Event, scar: Event)
    requires first.HeroStabilized? && scar.PermanentScarGained?
    ensures OutcomeFits(t, [first] + [scar]) <==> |t.scars| < 32 && scar.scarId !in ScarIds(t.scars)
  {
    hide ScarIds;
    assert scar in [first] + [scar];
  }

  lemma DeathTestFails(t: GameState, h: nat, es: seq<Event>)
    requires ValidGameState(t) && h < |t.characters| && t.combat.Some?
    requires es == [CharacterDied(At(t.characters, h).characterId)]
             + FinishIfOver(t, t.combat.Get(), None, Some(At(t.characters, h).characterId), None)
    ensures Fold(t, es).Done? <==> OutcomeFits(t, es)
  {
    hide ValidGameState, Apply, FinishIfOver, OutcomeFits, Fold;
    var id := t.characters[h].characterId;
    var died, finish := CharacterDied(id), FinishIfOver(t, t.combat.value, None, Some(id), None);
    DeathApplies(t, h);
    FoldOne(t, died);
    FoldAppend(t, [died], finish);
    FinishIsOne(t, t.combat.value, id);
    DeathOutcome(t, died, finish);
    if id !in t.deaths {
      var u := t.(deaths := t.deaths + [id]);
      FoldKeepsValid(t, [died], u);
      if finish != [] {
        ResolutionExactly(u, finish[0].combatOutcome);
        FoldOne(u, finish[0]);
        assert finish == [finish[0]];
      }
    }
  }

  lemma FinishIsOne(t: GameState, c: Combat, id: Id)
    ensures var finish := FinishIfOver(t, c, None, Some(id), None);
            finish == [] || (|finish| == 1 && At(finish, 0).CombatResolved?)
  {
    hide EnemyStands, HeroStands;
  }

  lemma DeathOutcome(t: GameState, died: Event, finish: seq<Event>)
    requires died.CharacterDied? && t.combat.Some? && (finish == [] || (|finish| == 1 && finish[0].CombatResolved?))
    ensures OutcomeFits(t, [died] + finish) <==>
            died.characterId !in t.deaths
            && (finish != [] ==> t.combat.value.pendingDeath.None? && t.combat.value.pendingAction.None?)
  {
    var es := [died] + finish;
    assert es[0] == died && died in es;
    if finish != [] {
      assert es[1] == finish[0] && finish[0] in es;
    }
    assert forall e :: e in es ==> e == died || (finish != [] && e == finish[0]);
  }

  // ----- Scenes go on -----

  lemma SocialGoesOn(t: GameState, npc: Id, requested: Stance, limit: Option<Id>, degree: Degree)
    requires ValidGameState(t) && SocialEvents(t, npc, requested, limit, degree).Done?
    ensures Fold(t, SocialEvents(t, npc, requested, limit, degree).Get()).Done?
  {
    hide ValidGameState, Apply, IndexOf, Gap, FindSocial;
    var i := FindSocial(t, npc).value;
    var es := SocialEvents(t, npc, requested, limit, degree).value;
    if es != [] {
      ShiftArithmetic(t.socials[i].stance, requested, degree);
      StanceApplies(t, i, es[0].after, degree);
      assert es == [es[0]];
      FoldOne(t, es[0]);
    }
  }

  lemma RitualGoesOn(t: GameState, facts: Facts, id: Id, actor: Id, degree: Degree)
    requires ValidGameState(t) && RitualEvents(t, facts, id, actor, degree).Done?
    ensures Fold(t, RitualEvents(t, facts, id, actor, degree).Get()).Done?
  {
    hide ValidGameState, Apply, IndexOf, AdjustmentEvents, ConsequenceFor, ByReference, Fold, Final, FindActor;
    var i, h := FindRitual(t, id).value, FindActor(t, actor);
    var d := ByReference(facts.catalog.value.definitions, t.rituals[i].definition).value;
    var effects := ConsequenceFor(d.consequences, degree).value.effects;
    assert HeroOf(t, actor) == HeroAt(t, h);
    ProjectedNothing(t, h);
    AdjustmentsApply(t, h, map[], effects);
    var adjusted := AdjustmentEvents(t, HeroAt(t, h), map[], effects).value;
    var u := Projected(t, h, Final(t, HeroAt(t, h), map[], effects));
    FoldKeepsValid(t, adjusted, u);
    var resolved := RitualResolved(id, degree, RitualOutcome(degree));
    ResolutionApplies(u, i, degree);
    FoldOne(u, resolved);
    FoldAppend(t, adjusted, [resolved]);
  }

  // ----- Exactly -----

  /** The pinned catalog, if there is one, is well formed. */
  predicate CatalogFits(facts: Facts) {
    match facts.catalog
    case None => true
    case Some(catalog) => WellFormedCatalog(catalog)
  }

  predicate FightIsOn(s: GameState) {
    match s.combat
    case None => false
    case Some(c) => c.status.Active?
  }

  /** What must hold, once the check is off the list, for its continuation to be applied. */
  predicate GoesOn(t: GameState, k: Continuation, es: seq<Event>) {
    match k
    case CombatAction(_, _) => RoomFor(t, es) && MovesFit(t, es) && EffectsFit(t, es)
    case DeathTest(_, _) => OutcomeFits(t, es)
    case ForChallenge(_) => true
    case ForSocial(_, _, _) => true
    case ForRitual(_) => true
  }

  /** A combat action is one the fight waits for, and its impact comes from an ability. */
  predicate Awaited(s: GameState, i: nat) {
    i < |s.pendingChecks| ==>
    var k := s.pendingChecks[i].continuation;
    k.Some? && k.value.CombatAction? ==>
      && (k.value.baseImpact.Some? ==> k.value.candidate.source.Some?)
      && (s.combat.Some? ==>
        s.combat.value.pendingDeath.None? && s.combat.value.pendingAction == Some(s.pendingChecks[i].checkId))
  }

  /** The pending check of an identity. */
  function PendingOf(s: GameState, checkId: Id): Option<PendingCheck> {
    match FindPending(s, checkId)
    case None => None
    case Some(i) => Some(s.pendingChecks[i])
  }

  /** So are all combat actions that are pending. */
  predicate AllAwaited(s: GameState) {
    forall i: nat :: i < |s.pendingChecks| ==> Awaited(s, i)
  }

  predicate GoesOnAfter(t: GameState, k: Option<Continuation>, es: seq<Event>) {
    match k
    case None => true
    case Some(continuation) => GoesOn(t, continuation, es)
  }

  lemma FreedIsActive(s: GameState, i: nat, t: GameState)
    requires i < |s.pendingChecks| && FindPending(s, s.pendingChecks[i].checkId) == Some(i) && Awaited(s, i)
    requires s.pendingChecks[i].continuation.Some? && s.pendingChecks[i].continuation.value.CombatAction?
    requires ResolvePhysical(s, s.pendingChecks[i].checkId) == Done(t) && s.combat.Some?
    ensures t.combat.Some? && t.combat.value.status.Active?
  {
    hide IndexOf, WithoutCheck;
  }

  lemma FewerChecks(ps: seq<PendingCheck>, i: nat)
    requires i < |ps|
    ensures forall id :: id in CheckIds(Removed(ps, i)) ==> id in CheckIds(ps)
    ensures forall id :: id in Nonces(Removed(ps, i)) ==> id in Nonces(ps)
  {
    var qs := Removed(ps, i);
    forall k | 0 <= k < |qs| ensures CheckIds(qs)[k] in CheckIds(ps) && Nonces(qs)[k] in Nonces(ps) {
      var m := if k < i then k else k + 1;
      assert qs[k] == ps[m] && CheckIds(ps)[m] == qs[k].checkId && Nonces(ps)[m] == qs[k].nonce;
    }
  }

  lemma FactsStayFresh(s: GameState, t: GameState, i: nat, facts: Facts)
    requires FreshFacts(s, facts) && Freed(s, t) && i < |s.pendingChecks|
             && t.pendingChecks == Removed(s.pendingChecks, i)
    requires EnemiesApart(s)
    ensures FreshFacts(t, facts) && EnemiesApart(t)
  {
    hide CheckIds, Nonces, Removed;
    FewerChecks(s.pendingChecks, i);
  }

  lemma ContinuationGoesOn(t: GameState, facts: Facts, k: Continuation, result: CheckResult, es: seq<Event>)
    requires ValidGameState(t) && ContinuationEvents(t, facts, k, result) == Done(es) && CatalogFits(facts)
    requires match k
             case CombatAction(x, base) =>
               && FightIsOn(t) && FreshFacts(t, facts) && EnemiesApart(t) && (base.Some? ==> x.source.Some?)
             case _ => true
    ensures Fold(t, es).Done? <==> GoesOn(t, k, es)
  {
    hide ValidGameState, Apply, ResolvedEvents, DeathTestEvents, ChallengeEvents, SocialEvents, RitualEvents,
         WellFormedCatalog, FreshFacts, EnemiesApart, RoomFor, MovesFit, EffectsFit, OutcomeFits, WellFormedAbility,
         AbilityByReference, Fold, Moved, OutcomeOf, WithChallenge;
    match k
    case CombatAction(x, base) =>
      var ability := if x.source.None? then None else AbilityByReference(facts.catalog.value, x.source.value);
      if ability.Some? {
        CatalogAbility(facts.catalog.value, x.source.value);
      }
      ActionGoesOn(t, facts, x, ability, result.finalDegree, base);
    case DeathTest(_, hero) => DeathTestGoesOn(t, facts, hero, result.finalDegree);
    case ForChallenge(id) =>
      NeedsCatalog(t, facts, id, result);
      var i, effect := ChallengeEventsApply(t, facts, id, result.finalDegree);
    case ForSocial(npc, requested, limit) => SocialGoesOn(t, npc, requested, limit, result.finalDegree);
    case ForRitual(id) => RitualGoesOn(t, facts, id, result.actorId, result.finalDegree);
  }

  lemma NeedsCatalog(t: GameState, facts: Facts, id: Id, result: CheckResult)
    requires ChallengeEvents(t, facts, id, result.finalDegree).Done?
    ensures facts.catalog.Some?
  {
    hide IndexOf, ChallengeContent, OutcomeFor;
  }

  /** What `submit_die_result` accepts is applied, every event in order, if and only if its continuation still fits
      the state: the lists and the zone of a move have room, the effects fit, a scar is fresh and there is room for
      it, a hero is not dead already, and a fight that ends waits for nothing else. Challenges, social shifts and
      rituals always go on. */
  lemma SubmitAgreesExactly(s: GameState, facts: Facts, checkId: Id, nonce: Id, face: int, es: seq<Event>)
      returns (p: PendingCheck, t: GameState)
    requires ValidGameState(s) && FreshFacts(s, facts) && EnemiesApart(s) && CatalogFits(facts) && AllAwaited(s)
    requires DecideSubmitDieResult(s, facts, checkId, nonce, face) == Done(es)
    ensures PendingOf(s, checkId) == Some(p) && ResolvePhysical(s, checkId) == Done(t)
    ensures es != [] && (Fold(s, es).Done? <==> GoesOnAfter(t, p.continuation, Tail(es)))
  {
    hide ValidGameState, Apply, FreshFacts, EnemiesApart, WellFormedCatalog, ContinuationEvents, Resolve, Rebuild,
         IndexOf, Awaited, Freed, GoesOn, ResolvePhysical, Disclosed, Fold, FindPending;
    var i := FindPending(s, checkId).value;
    p := s.pendingChecks[i];
    var result := Resolve(Rebuild(p.disclosure), face);
    var first := CheckResolvedPhysical(checkId, result);
    t := DieApplies(s, i, result);
    FoldOne(s, first);
    if p.continuation.None? {
      assert es == [first];
    } else {
      var k := p.continuation.value;
      var rest := ContinuationEvents(s, facts, k, result).value;
      assert es == [first] + rest && Tail(es) == rest;
      FoldAppend(s, [first], rest);
      SameContinuation(s, t, facts, k, result);
      if k.CombatAction? {
        FactsStayFresh(s, t, i, facts);
        ActionNeedsCombat(s, facts, k, result);
        FreedIsActive(s, i, t);
        AwaitedParts(s, i);
      }
      ContinuationGoesOn(t, facts, k, result, rest);
    }
  }

  lemma ActionNeedsCombat(s: GameState, facts: Facts, k: Continuation, result: CheckResult)
    requires k.CombatAction? && ContinuationEvents(s, facts, k, result).Done?
    ensures s.combat.Some?
  {
    hide ImpactEvents, AllEffects, RitualEvents, ChallengeEvents, SocialEvents, DeathTestEvents;
  }

  lemma AwaitedParts(s: GameState, i: nat)
    requires i < |s.pendingChecks| && Awaited(s, i) && s.pendingChecks[i].continuation.Some?
    requires s.pendingChecks[i].continuation.value.CombatAction?
    ensures var k := s.pendingChecks[i].continuation.value; k.baseImpact.Some? ==> k.candidate.source.Some?
  {}

}
