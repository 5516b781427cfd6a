/** What combat actions propose, and when the reducer applies it. */
module CombatAgreement {
  import opened Common
  import opened ZoneGraph
  import opened State
  import opened Validity
  import opened Events
  import opened Reducer
  import opened Compensation
  import opened Undo
  import opened Checks
  import opened Content
  import opened CombatRules
  import opened CombatDecisions
  import opened LegalActions
  import opened Applies
  import opened EffectAgreement

  /** Whoever spends Spark is a hero that has it. */
  predicate SparkFits(s: GameState, es: seq<Event>) {
    forall e :: e in es && e.SparkSpent? ==>
      FindActor(s, e.actorId).Some? && s.characters[FindActor(s, e.actorId).value].sparkAvailable
  }

  // ----- The state once the expenses are paid -----

  /** Only Exertion and scene uses of heroes differ. */
  predicate HeroesCarry(cs: seq<Character>, ds: seq<Character>) {
    |ds| == |cs| && forall i :: 0 <= i < |cs| ==>
      ds[i] == cs[i].(exertion := ds[i].exertion, sceneUses := ds[i].sceneUses)
  }

  lemma HeroesCarryIds(cs: seq<Character>, ds: seq<Character>)
    requires HeroesCarry(cs, ds)
    ensures CharacterIds(ds) == CharacterIds(cs) && ActorIds(ds) == ActorIds(cs)
  {
    forall i | 0 <= i < |cs| ensures ds[i].characterId == cs[i].characterId && ds[i].actorId == cs[i].actorId {
      assert ds[i] == cs[i].(exertion := ds[i].exertion, sceneUses := ds[i].sceneUses);
    }
  }

  predicate PaidFrom(s: GameState, t: GameState) {
    && ValidSupplyChange(s, t)
    && HeroesCarry(s.characters, t.characters)
  }

  predicate SameSceneUses(cs: seq<Character>, ds: seq<Character>) {
    |ds| == |cs| && forall k :: 0 <= k < |cs| ==> ds[k].sceneUses == cs[k].sceneUses
  }

  predicate ValidSupplyChange(s: GameState, t: GameState) {
    t == s.(supply := t.supply, characters := t.characters)
  }

  lemma PaymentApplies(s: GameState, i: nat, e: int, g: int) returns (t: GameState)
    requires ValidGameState(s) && i < |s.characters|
    requires Payment(Of(At(s.characters, i).characterId), Exertion, At(s.characters, i).exertion, EXERTION_MAXIMUM,
             e).Done?
    requires Payment(Party, Supply, s.supply, s.supplyMaximum, g).Done?
    ensures Fold(s, Payment(Of(At(s.characters, i).characterId), Exertion, At(s.characters, i).exertion,
            EXERTION_MAXIMUM,
            e).Get()
                    + Payment(Party, Supply, s.supply, s.supplyMaximum, g).Get()) == Done(t)
    ensures PaidFrom(s, t) && SameSceneUses(s.characters, t.characters)
  {
    hide ValidGameState, Apply;
    var first := Payment(Of(s.characters[i].characterId), Exertion, s.characters[i].exertion, EXERTION_MAXIMUM,
      e).value;
    var second := Payment(Party, Supply, s.supply, s.supplyMaximum, g).value;
    var u := s;
    if first != [] {
      ExertionApplies(s, i, s.characters[i].exertion + e);
      FoldOne(s, first[0]);
      assert first == [first[0]];
      u := Fold(s, first).value;
    }
    FoldAppend(s, first, second);
    t := u;
    if second != [] {
      FoldKeepsValid(s, first, u);
      SupplyApplies(u, u.supply + g);
      FoldOne(u, second[0]);
      assert second == [second[0]];
      t := Fold(u, second).value;
    }
  }

  lemma CostApplies(s: GameState, p: Participant, a: Ability) returns (t: GameState)
    requires ValidGameState(s) && CostEvents(s, p, a).Done?
    ensures Fold(s, CostEvents(s, p, a).Get()) == Done(t)
    ensures PaidFrom(s, t) && SameSceneUses(s.characters, t.characters)
  {
    hide ValidGameState, Apply, Total, NegativeAdjustment, PayableCost, Payment, IndexOf, FindActor;
    if a.cost == [] {
      t := s;
    } else {
      var i := FindActor(s, p.actorId).value;
      t := PaymentApplies(s, i, Total(a.cost, Exertion), Total(a.cost, Supply));
    }
  }

  lemma ScenePaid(s: GameState, p: Participant, a: Ability, u: GameState) returns (t: GameState)
    requires ValidGameState(u) && PaidFrom(s, u) && SceneUseEvents(s, p, a).Done?
    requires SameSceneUses(s.characters, u.characters)
    ensures Fold(u, SceneUseEvents(s, p, a).Get()) == Done(t) && PaidFrom(s, t)
  {
    hide ValidGameState, Apply, IndexOf, UseIndex, FindActor;
    var es := SceneUseEvents(s, p, a).value;
    t := u;
    if es != [] {
      var i := FindActor(s, p.actorId).value;
      var k := UseIndex(s.characters[i].sceneUses, a.ref).value;
      SceneUseApplies(u, i, k, a.ref);
      assert es == [es[0]];
      FoldOne(u, es[0]);
      t := Fold(u, es).value;
    }
  }

  /** The state the effects of an action start from: expenses paid, the slot spent. */
  predicate SpentFrom(s: GameState, t: GameState, i: nat, slot: Slot) {
    && s.combat.Some? && i < |s.combat.value.participants|
    && t == s.(supply := t.supply, characters := t.characters, combat := Some(SlotSpent(s.combat.value, i, slot)))
    && HeroesCarry(s.characters, t.characters)
  }

  lemma ExpensesApply(s: GameState, i: nat, x: Candidate, ability: Option<Ability>) returns (t: GameState)
    requires ValidGameState(s) && s.combat.Some? && i < |s.combat.Get().participants| && !x.slot.ReactionSlot?
    requires var c := s.combat.Get();
             var p := At(c.participants, i);
             && c.activeActor == Some(p.actorId) && FindParticipant(c, p.actorId) == Some(i) && SlotAvailable(p, x.slot)
             && Expenses(s, c, p, x, ability).Done?
    ensures Fold(s, Expenses(s, s.combat.Get(), At(s.combat.Get().participants, i), x, ability).Get()) == Done(t)
    ensures SpentFrom(s, t, i, x.slot) && ValidGameState(t)
  {
    hide ValidGameState, Apply, CostEvents, SceneUseEvents, HeroesCarry, SlotSpent, IndexOf, SlotAvailable, Fold,
         FindParticipant, SameSceneUses;
    var c := s.combat.value;
    var p := c.participants[i];
    var slot := ActionSlotSpent(c.combatId, p.actorId, x.slot);
    var u := s;
    var paid: seq<Event> := [];
    HeroesCarrySelf(s.characters);
    if ability.Some? {
      var costs, uses := CostEvents(s, p, ability.value).value, SceneUseEvents(s, p, ability.value).value;
      var v := CostApplies(s, p, ability.value);
      FoldKeepsValid(s, costs, v);
      u := ScenePaid(s, p, ability.value, v);
      paid := costs + uses;
      FoldAppend(s, costs, uses);
      FoldKeepsValid(s, paid, u);
    }
    SlotApplies(u, i, x.slot);
    FoldAppend(s, paid, [slot]);
    FoldOne(u, slot);
    t := WithCombat(u, SlotSpent(c, i, x.slot));
    assert Expenses(s, c, p, x, ability).value == paid + [slot];
    FoldKeepsValid(s, paid + [slot], t);
  }

  lemma HeroesCarrySelf(cs: seq<Character>)
    ensures HeroesCarry(cs, cs)
  {}

  // ----- What the effects rely on -----

  /** The same fight, but for turn data: nobody moved, nobody hurt, nothing of it waiting. */
  predicate SameFight(c: Combat, d: Combat) {
    && d.combatId == c.combatId && d.zones == c.zones && d.objectives == c.objectives && d.overlays == c.overlays
    && d.status == c.status && d.pendingDeath == c.pendingDeath && d.pendingAction == c.pendingAction
    && |d.participants| == |c.participants| && ParticipantIds(d.participants) == ParticipantIds(c.participants)
    && forall k :: 0 <= k < |c.participants| ==>
         d.participants[k].role == c.participants[k].role && d.participants[k].actorId == c.participants[k].actorId
         && d.participants[k].zoneId == c.participants[k].zoneId
  }

  /** A state the effects of a decision made in `s` can start from: costs and turn data aside, it is `s`. */
  predicate Prepared(s: GameState, t: GameState) {
    && s.combat.Some? && t.combat.Some?
    && t == s.(supply := t.supply, characters := t.characters, combat := t.combat)
    && HeroesCarry(s.characters, t.characters) && SameFight(s.combat.value, t.combat.value)
  }

  lemma SpentPrepared(s: GameState, t: GameState, i: nat, slot: Slot)
    requires SpentFrom(s, t, i, slot)
    ensures Prepared(s, t)
  {
    hide SlotSpent, HeroesCarry;
    SlotSpentParts(s.combat.value, i, slot);
  }

  lemma SelfPrepared(s: GameState)
    requires s.combat.Some?
    ensures Prepared(s, s)
  {
    hide HeroesCarry;
    HeroesCarrySelf(s.characters);
  }

  lemma PreparedUnmoved(s: GameState, t: GameState)
    requires Prepared(s, t)
    ensures Unmoved(s, t) && s.combat.Some? && t.combat.Some?
  {}

  // ----- Impact on an enemy -----

  lemma SlotSpentParts(c: Combat, i: nat, slot: Slot)
    requires i < |c.participants|
    ensures var d := SlotSpent(c, i, slot);
            && d.combatId == c.combatId && d.zones == c.zones && d.objectives == c.objectives
              && d.overlays == c.overlays
            && d.status == c.status && d.pendingDeath == c.pendingDeath && d.pendingAction == c.pendingAction
            && |d.participants| == |c.participants|
            && ParticipantIds(d.participants) == ParticipantIds(c.participants)
            && forall k :: 0 <= k < |c.participants| ==>
                 d.participants[k].role == c.participants[k].role
                   && d.participants[k].actorId == c.participants[k].actorId
                 && d.participants[k].zoneId == c.participants[k].zoneId
  {
    hide ParticipantIds;
    SameParticipantIds(c.participants, i, AfterSpend(c.participants[i], slot));
  }

  /** An enemy's Guard set, the rest of the fight unchanged. */
  predicate GuardSet(t: GameState, u: GameState, j: nat, guard: int) {
    && t.combat.Some? && j < |t.combat.value.participants| && t.combat.value.participants[j].role.Enemy?
    && var p := t.combat.value.participants[j];
       u == WithCombat(t, WithParticipant(t.combat.value, j, p.(role := p.role.(guard := guard))))
  }

  lemma GuardSetFind(t: GameState, u: GameState, j: nat, guard: int)
    requires GuardSet(t, u, j, guard)
    ensures ParticipantIds(u.combat.value.participants) == ParticipantIds(t.combat.value.participants)
  {
    SameParticipantIds(t.combat.value.participants, j, u.combat.value.participants[j]);
  }

  lemma FinishApplies(s: GameState, c: Combat, defeated: Option<Id>, restored: Option<Id>, u: GameState)
    requires ValidGameState(u) && u.combat.Some? && u.combat.Get().pendingDeath.None?
             && u.combat.Get().pendingAction.None?
    ensures Fold(u, FinishIfOver(s, c, defeated, None, restored)).Done?
  {
    hide ValidGameState, Apply, EnemyStands, HeroStands;
    var es := FinishIfOver(s, c, defeated, None, restored);
    if es != [] {
      ResolveApplies(u, es[0].combatOutcome);
      assert es == [es[0]];
      FoldOne(u, es[0]);
    }
  }

  lemma OverlayThenFinish(s: GameState, catalog: Catalog, c: Combat, p: Participant, j: nat, u: GameState)
    requires ValidGameState(u) && u.combat.Some? && u.combat.Get().pendingDeath.None?
             && u.combat.Get().pendingAction.None?
    requires j < |u.combat.Get().participants| && u.combat.Get().objectives == c.objectives
             && OverlaysSound(c.objectives, c.overlays)
    requires FindParticipant(u.combat.Get(), p.actorId) == Some(j)
    requires p.role.Enemy? && p.role.IsBoss() && At(u.combat.Get().participants, j).role == p.role.WithGuard(0)
    requires StruckEnemy(s, catalog, c, p, 0).Done?
    ensures Fold(u, StruckEnemy(s, catalog, c, p, 0).Get()).Done?
  {
    hide ValidGameState, Apply, IndexOf, FinishIfOver, GuardOnSelf, ByReference, FindParticipant, WaitingOverlay,
         ObjectiveIds;
    var overlay := OverlayEvents(c, catalog, p, 0).value;
    var finish := FinishIfOver(s, c, Some(p.actorId), None, if overlay != [] then Some(p.actorId) else None);
    FoldAppend(u, overlay, finish);
    var v := u;
    if overlay != [] {
      var o := WaitingOverlay(c.overlays, p.actorId).value;
      OverlayApplies(u, j, o.(active := true), overlay[0].guardAfter);
      assert overlay == [overlay[0]];
      FoldOne(u, overlay[0]);
      v := Fold(u, overlay).value;
      FoldKeepsValid(u, overlay, v);
    }
    FinishApplies(s, c, Some(p.actorId), if overlay != [] then Some(p.actorId) else None, v);
  }

  lemma StruckEnemyApplies(s: GameState, catalog: Catalog, c: Combat, p: Participant, j: nat, after: int, u: GameState)
    requires ValidGameState(u) && u.combat.Some? && u.combat.Get().pendingDeath.None?
             && u.combat.Get().pendingAction.None?
    requires j < |u.combat.Get().participants| && u.combat.Get().objectives == c.objectives
             && OverlaysSound(c.objectives, c.overlays)
    requires FindParticipant(u.combat.Get(), p.actorId) == Some(j)
    requires p.role.Enemy? && At(u.combat.Get().participants, j).role == p.role.WithGuard(after)
    requires StruckEnemy(s, catalog, c, p, after).Done?
    ensures Fold(u, StruckEnemy(s, catalog, c, p, after).Get()).Done?
  {
    hide ValidGameState, Apply, IndexOf, FinishIfOver, OverlayEvents, OverlaysSound;
    if after == 0 && p.role.boss {
      OverlayThenFinish(s, catalog, c, p, j, u);
    } else if after == 0 {
      FinishApplies(s, c, Some(p.actorId), None, u);
    }
  }

  lemma EnemyImpactApplies(s: GameState, facts: Facts, catalog: Catalog, t: GameState, target: Target, base: int,
      degree: Degree)
    requires ValidGameState(s) && ValidGameState(t) && Prepared(s, t) && EnemiesApart(s)
             && s.combat.Get().status.Active?
    requires target.OnActor? && FindParticipant(s.combat.Get(), target.Actor()).Some?
    requires At(s.combat.Get().participants, FindParticipant(s.combat.Get(), target.Actor()).Get()).role.Enemy?
    requires ImpactEvents(s, facts, catalog, s.combat.Get(), target, base, degree).Done?
    ensures Fold(t, ImpactEvents(s, facts, catalog, s.combat.Get(), target, base, degree).Get()).Done?
  {
    hide ValidGameState, Apply, IndexOf, StruckEnemy, SlotSpent, ImpactOf, HeroesCarry, ValidCombat, OverlaysSound,
         StatusSound, Fold, ValidParty, ValidPendings, ValidChallenges, ActiveSound, WoundEvents, DeathDisclosure,
         DeathRequest, CreateDisclosure;
    var c := s.combat.value;
    var j := FindParticipant(c, target.actorId).value;
    var p := c.participants[j];
    var bonus := if degree.Triumph? then 2 else 0;
    var after := Max(0, p.role.guard - ImpactOf(base, bonus, p.role.armor));
    var es := ImpactEvents(s, facts, catalog, c, target, base, degree).value;
    HeroesCarryIds(s.characters, t.characters);
    EnemyStruckApplies(t, j, c.combatId, base, bonus);
    var u := Apply(t, es[0]).value;
    FoldOne(t, es[0]);
    FoldKeepsValid(t, [es[0]], u);
    GuardSetFind(t, u, j, after);
    ValidParts(s);
    CombatActive(c);
    ActiveWaitsForNothing(c);
    StruckEnemyApplies(s, catalog, c, p, j, after, u);
    FoldAppend(t, [es[0]], StruckEnemy(s, catalog, c, p, after).value);
    assert es == [es[0]] + StruckEnemy(s, catalog, c, p, after).value;
  }

  lemma ActiveWaitsForNothing(c: Combat)
    requires StatusSound(c) && c.status.Active?
    ensures c.pendingDeath.None? && c.pendingAction.None?
  {}

  // ----- Impact on a hero -----

  lemma HeroImpactApplies(s: GameState, facts: Facts, catalog: Catalog, t: GameState, target: Target, base: int,
      degree: Degree)
    returns (u: GameState)
    requires ValidGameState(s) && ValidGameState(t) && Prepared(s, t) && s.combat.Get().status.Active?
    requires FreshFacts(s, facts)
    requires target.OnActor? && FindParticipant(s.combat.Get(), target.Actor()).Some?
    requires At(s.combat.Get().participants, FindParticipant(s.combat.Get(), target.Actor()).Get()).role.Hero?
    requires ImpactEvents(s, facts, catalog, s.combat.Get(), target, base, degree).Done?
    requires RoomFor(s, ImpactEvents(s, facts, catalog, s.combat.Get(), target, base, degree).Get())
    ensures Fold(t, ImpactEvents(s, facts, catalog, s.combat.Get(), target, base, degree).Get()) == Done(u)
    ensures ValidGameState(u) && Unmoved(s, u)
  {
    hide ValidGameState, Apply, IndexOf, WoundEvents, SlotSpent, ImpactOf, FreshFacts, RoomFor, Unmoved,
         FindParticipant, FindActor, CharacterIds, StruckEnemy;
    var c := s.combat.value;
    var h := FindActor(s, target.actorId).value;
    var hero := s.characters[h];
    var bonus := if degree.Triumph? then 2 else 0;
    var es := ImpactEvents(s, facts, catalog, c, target, base, degree).value;
    HeroesCarryIds(s.characters, t.characters);
    HeroStruckApplies(t, h, c.combatId, base, bonus);
    u := Apply(t, es[0]).value;
    FoldOne(t, es[0]);
    FoldKeepsValid(t, [es[0]], u);
    StruckUnmoved(s, t, h, u);
    var rest := es[1..];
    assert es == [es[0]] + rest;
    FoldAppend(t, [es[0]], rest);
    if rest != [] {
      RoomParts(s, [es[0]], rest);
      assert rest == WoundEvents(s, facts, c, hero).value;
      u := WoundsApply(s, facts, h, u);
    } else {
      assert Fold(u, rest) == Done(u);
    }
  }

  /** After the impact: guards aside, everything the wound and its death test rely on is as the decision saw it. */
  predicate StillWhole(s: GameState, u: GameState, h: nat) {
    && Unmoved(s, u) && h < |s.characters|
    && u.pendingChecks == s.pendingChecks && u.combat.value.status == s.combat.value.status
    && u.characters[h].wounds == s.characters[h].wounds
  }

  lemma StruckUnmoved(s: GameState, t: GameState, h: nat, u: GameState)
    requires Prepared(s, t) && h < |s.characters| && h < |t.characters| && h < |u.characters|
    requires u == WithCharacter(t, h, t.characters[h].(guard := u.characters[h].guard))
    ensures StillWhole(s, u, h)
  {
    hide SlotSpent;
  }

  lemma WoundsApply(s: GameState, facts: Facts, h: nat, u: GameState) returns (v: GameState)
    requires ValidGameState(s) && ValidGameState(u) && StillWhole(s, u, h) && FreshFacts(s, facts)
    requires s.combat.Get().status.Active? && WoundEvents(s, facts, s.combat.Get(), At(s.characters, h)).Done?
    requires RoomFor(s, WoundEvents(s, facts, s.combat.Get(), At(s.characters, h)).Get())
    ensures Fold(u, WoundEvents(s, facts, s.combat.Get(), At(s.characters, h)).Get()) == Done(v)
    ensures ValidGameState(v) && Unmoved(s, v)
  {
    hide ValidGameState, Apply, IndexOf, DeathDisclosure, EmptySlot;
    var c, hero := s.combat.value, s.characters[h];
    var es := WoundEvents(s, facts, c, hero).value;
    var k := EmptySlot(hero.wounds).value;
    WoundApplies(u, h, k, facts.woundId.value);
    v := Apply(u, es[0]).value;
    FoldOne(u, es[0]);
    FoldKeepsValid(u, [es[0]], v);
    var rest := es[1..];
    assert es == [es[0]] + rest;
    FoldAppend(u, [es[0]], rest);
    if k == 2 {
      assert es[1].PhysicalRollRequested? && es[1] in es;
      v := DeathTestApplies(s, facts, h, v);
    } else {
      assert rest == [];
    }
  }

  lemma DeathTestApplies(s: GameState, facts: Facts, h: nat, u: GameState) returns (v: GameState)
    requires ValidGameState(u) && Unmoved(s, u) && h < |s.characters| && FreshFacts(s, facts) && |s.pendingChecks| < 16
    requires u.pendingChecks == s.pendingChecks && u.combat.Get().status.Active?
    requires facts.deathCheckId.Some? && facts.deathNonce.Some?
             && DeathDisclosure(s, s.combat.Get(), At(s.characters, h)).Done?
    ensures var c, hero := s.combat.Get(), At(s.characters, h);
            Fold(u, [PhysicalRollRequested(facts.deathCheckId.Get(), facts.deathNonce.Get(),
              DeathDisclosure(s, c, hero).Get()),
                     DeathTestPending(c.combatId, facts.deathCheckId.Get(), hero.characterId)]) == Done(v)
    ensures ValidGameState(v) && Unmoved(s, v)
  {
    hide ValidGameState, Apply, DeathDisclosure, ValidDisclosure, Fold, Honest, CheckIds, Nonces;
    var c, hero := s.combat.value, s.characters[h];
    var d := DeathDisclosure(s, c, hero).value;
    DeathDisclosureHonest(s, c, hero);
    var request := PhysicalRollRequested(facts.deathCheckId.value, facts.deathNonce.value, d);
    var pending := DeathTestPending(c.combatId, facts.deathCheckId.value, hero.characterId);
    DeathRequestApplies(u, request.checkId, request.nonce, d);
    var w := Apply(u, request).value;
    FoldOne(u, request);
    FoldKeepsValid(u, [request], w);
    var p := PendingCheck(request.checkId, request.nonce, d, None);
    DeathPendingApplies(w, u.pendingChecks, p, c.combatId, hero.characterId);
    v := Apply(w, pending).value;
    FoldOne(w, pending);
    FoldKeepsValid(w, [pending], v);
    FoldAppend(u, [request], [pending]);
    assert [request, pending] == [request] + [pending];
  }

  // ----- The resolved action -----

  lemma FinishStriking(s: GameState, c: Combat, defeated: Option<Id>, dead: Option<Id>, restored: Option<Id>)
    ensures AllStriking(FinishIfOver(s, c, defeated, dead, restored))
  {
    hide EnemyStands, HeroStands;
  }

  lemma StruckStriking(s: GameState, catalog: Catalog, c: Combat, p: Participant, after: int)
    requires p.role.Enemy? && StruckEnemy(s, catalog, c, p, after).Done?
    ensures AllStriking(StruckEnemy(s, catalog, c, p, after).Get())
  {
    hide FinishIfOver, GuardOnSelf, ByReference;
    if after == 0 && p.role.boss {
      var overlay := OverlayEvents(c, catalog, p, after).value;
      FinishStriking(s, c, Some(p.actorId), None, if overlay != [] then Some(p.actorId) else None);
    } else if after == 0 {
      FinishStriking(s, c, Some(p.actorId), None, None);
    }
  }

  lemma ImpactStriking(s: GameState, facts: Facts, catalog: Catalog, c: Combat, target: Target, base: int,
      degree: Degree)
    requires ImpactEvents(s, facts, catalog, c, target, base, degree).Done?
    ensures AllStriking(ImpactEvents(s, facts, catalog, c, target, base, degree).Get())
  {
    hide StruckEnemy, DeathDisclosure, IndexOf, ImpactOf, FindParticipant, Max;
    var p := c.participants[FindParticipant(c, target.actorId).value];
    if p.role.Enemy? {
      var impact := ImpactOf(base, if degree.Triumph? then 2 else 0, p.role.armor);
      StruckStriking(s, catalog, c, p, Max(0, p.role.guard - impact));
    }
  }

  lemma ImpactApplies(s: GameState, facts: Facts, catalog: Catalog, t: GameState, target: Target, base: int,
      degree: Degree)
    requires ValidGameState(s) && ValidGameState(t) && Prepared(s, t) && s.combat.Get().status.Active?
    requires FreshFacts(s, facts) && EnemiesApart(s)
    requires ImpactEvents(s, facts, catalog, s.combat.Get(), target, base, degree).Done?
    requires RoomFor(s, ImpactEvents(s, facts, catalog, s.combat.Get(), target, base, degree).Get())
    ensures Fold(t, ImpactEvents(s, facts, catalog, s.combat.Get(), target, base, degree).Get()).Done?
  {
    hide ValidGameState, Apply, SlotSpent, FreshFacts, RoomFor, Prepared, StruckEnemy, WoundEvents, IndexOf, Fold,
         Unmoved, EnemiesApart;
    PreparedUnmoved(s, t);
    var c := s.combat.value;
    if c.participants[FindParticipant(c, target.actorId).value].role.Enemy? {
      EnemyImpactApplies(s, facts, catalog, t, target, base, degree);
    } else {
      var u := HeroImpactApplies(s, facts, catalog, t, target, base, degree);
    }
  }

  lemma ImpactThenEffects(s: GameState, facts: Facts, catalog: Catalog, t: GameState, x: Candidate, a: Ability,
      base: int, degree: Degree)
    requires ValidGameState(s) && ValidGameState(t) && Prepared(s, t) && s.combat.Get().status.Active?
    requires FreshFacts(s, facts) && EnemiesApart(s) && WellFormedAbility(a)
    requires ImpactEvents(s, facts, catalog, s.combat.Get(), x.target, base, degree).Done?
    requires AllEffects(s, facts, catalog, s.combat.Get(), x.target, a.effects).Done?
    requires var es := ImpactEvents(s, facts, catalog, s.combat.Get(), x.target, base, degree).Get()
                       + AllEffects(s, facts, catalog, s.combat.Get(), x.target, a.effects).Get();
             RoomFor(s, es) && MovesFit(s, es)
    ensures var es := ImpactEvents(s, facts, catalog, s.combat.Get(), x.target, base, degree).Get()
                      + AllEffects(s, facts, catalog, s.combat.Get(), x.target, a.effects).Get();
            Fold(t, es).Done? <==> EffectsFit(t, es)
  {
    hide ValidGameState, Apply, AllEffects, ImpactEvents, FreshFacts, RoomFor, MovesFit, Prepared, Unmoved, Still,
         ChangesIn, RestoresIn, RestoresFit, AllStriking, AllIdle, EnemiesApart, Fold;
    PreparedUnmoved(s, t);
    var c := s.combat.value;
    var impact := ImpactEvents(s, facts, catalog, c, x.target, base, degree).value;
    var effects := AllEffects(s, facts, catalog, c, x.target, a.effects).value;
    RoomParts(s, impact, effects);
    ImpactStriking(s, facts, catalog, c, x.target, base, degree);
    StrikingIdle(impact);
    IdleBefore(s, impact, effects);
    IdleBefore(t, impact, effects);
    ImpactApplies(s, facts, catalog, t, x.target, base, degree);
    var u := Fold(t, impact).value;
    FoldKeepsValid(t, impact, u);
    StrikingFoldStill(t, impact, u);
    StillChain(s, t, u);
    StillSpent(t, u, effects);
    EffectsExactly(s, facts, catalog, x.target, a.effects, u);
    FoldAppend(t, impact, effects);
  }

  /** The consequences of a resolved action, of any degree, are applied exactly when its effects fit. */
  lemma ResolvedExactly(s: GameState, facts: Facts, catalog: Catalog, t: GameState, x: Candidate,
      ability: Option<Ability>, degree: Degree, base: Option<int>)
    requires ValidGameState(s) && ValidGameState(t) && Prepared(s, t) && s.combat.Get().status.Active?
             && facts.catalog == Some(catalog)
    requires FreshFacts(s, facts) && EnemiesApart(s)
    requires (ability.Some? ==> WellFormedAbility(ability.Get())) && (base.Some? ==> ability.Some?)
    requires ResolvedEvents(s, facts, x, ability, degree, base).Done?
    requires var es := ResolvedEvents(s, facts, x, ability, degree, base).Get(); RoomFor(s, es) && MovesFit(s, es)
    ensures var es := ResolvedEvents(s, facts, x, ability, degree, base).Get();
            Fold(t, es).Done? <==> EffectsFit(t, es)
  {
    hide ValidGameState, Apply, AllEffects, ImpactEvents, AdvanceBy, Prepared, FreshFacts, RoomFor, MovesFit,
         EffectsFit, EnemiesApart, Unmoved, ReactionSpent, WellFormedEffects, Changing;
    PreparedUnmoved(s, t);
    var c := s.combat.value;
    var es := ResolvedEvents(s, facts, x, ability, degree, base).value;
    if degree.Crisis? || degree.Setback? {
      IdleFits(t, []);
    } else if base.Some? {
      ImpactThenEffects(s, facts, catalog, t, x, ability.value, base.value, degree);
    } else if ability.Some? {
      assert es == AllEffects(s, facts, catalog, c, x.target, ability.value.effects).value;
      EffectsExactly(s, facts, catalog, x.target, ability.value.effects, t);
    } else if x.kind.AdvanceObjective? {
      var v := AdvanceStep(s, facts, x.target, t, 1);
      assert es == AdvanceBy(c, x.target.objectiveId, 1).value;
      assert es == [es[0]];
      FoldOne(t, es[0]);
      OneFits(t, es[0]);
    } else {
      IdleFits(t, []);
    }
  }

  lemma OneFits(t: GameState, e: Event)
    requires !e.ReactionRestored?
    ensures EffectsFit(t, [e])
  {
    hide Changing;
    assert ChangesIn([e][1..]) == 0 && RestoresIn([e][1..]) == 0;
  }

  // ----- The physical check -----

  lemma PhysicalApplies(s: GameState, t: GameState, p: Participant, spark: bool, id: Id, nonce: Id, d: Disclosure,
      combatId: Id, x: Candidate, base: Option<int>)
    requires ValidGameState(s) && ValidGameState(t) && Prepared(s, t) && s.combat.Get().status.Active?
             && |s.pendingChecks| < 16
    requires id !in CheckIds(s.pendingChecks) && nonce !in Nonces(s.pendingChecks)
    requires ValidDisclosure(d) && !d.reason.PermanentDeath? && ValidCandidate(x)
             && (base.Some? ==> 1 <= base.Get() <= 20)
    requires SparkFits(s, if spark then [SparkSpent(p.actorId)] else [])
    ensures Fold(t, (if spark then [SparkSpent(p.actorId)] else [])
                    + [PhysicalRollRequested(id, nonce, d), CombatActionPending(combatId, id, x, base)]).Done?
  {
    hide ValidGameState, Apply, SlotSpent, ValidDisclosure, ValidCandidate, IndexOf, FindActor, CheckIds;
    var first := if spark then [SparkSpent(p.actorId)] else [];
    var request, pending := PhysicalRollRequested(id, nonce, d), CombatActionPending(combatId, id, x, base);
    HeroesCarryIds(s.characters, t.characters);
    var u := t;
    if spark {
      assert first[0] in first;
      SparkApplies(t, FindActor(s, p.actorId).value);
      FoldOne(t, first[0]);
      u := Apply(t, first[0]).value;
    }
    assert Fold(t, first) == Done(u);
    FoldKeepsValid(t, first, u);
    RequestApplies(u, id, nonce, d);
    var v := Apply(u, request).value;
    FoldOne(u, request);
    FoldKeepsValid(u, [request], v);
    ActionPendingApplies(v, u.pendingChecks, PendingCheck(id, nonce, d, None), combatId, x, base);
    FoldOne(v, pending);
    FoldAppend(u, [request], [pending]);
    assert [request, pending] == [request] + [pending];
    FoldAppend(t, first, [request, pending]);
  }

  lemma RequestNeedsRoom(s: GameState, es: seq<Event>, k: nat)
    requires RoomFor(s, es) && k < |es| && es[k].PhysicalRollRequested?
    ensures |s.pendingChecks| < 16
  {
    assert es[k] in es;
  }

  lemma BossReason(mandatory: seq<Reason>, reason: Reason, spark: bool)
    requires mandatory == [] || mandatory == [BossTransition]
    requires reason in mandatory || (spark && reason == SparkInvocation)
    ensures !reason.PermanentDeath?
  {}

  lemma CheckedExactly(s: GameState, facts: Facts, catalog: Catalog, t: GameState, p: Participant, x: Candidate,
      a: Ability, base: Option<int>, check: Request, spark: bool)
    requires ValidGameState(s) && ValidGameState(t) && Prepared(s, t) && s.combat.Get().status.Active?
             && facts.catalog == Some(catalog)
    requires FreshFacts(s, facts) && EnemiesApart(s) && TargetFits(s.combat.Get(), x.target)
    requires WellFormedAbility(a) && ValidRequest(check) && ValidCandidate(x)
             && (base.Some? ==> 1 <= base.Get() <= 20)
    requires CheckedEvents(s, facts, s.combat.Get(), p, x, a, base, check, spark).Done?
    requires var es := CheckedEvents(s, facts, s.combat.Get(), p, x, a, base, check, spark).Get();
             RoomFor(s, es) && SparkFits(s, es)
    ensures var es := CheckedEvents(s, facts, s.combat.Get(), p, x, a, base, check, spark).Get();
            Fold(t, es).Done? <==> EffectsFit(t, es)
  {
    hide ValidGameState, Apply, ResolvedEvents, Prepared, EnemiesApart, WellFormedAbility, TargetFits, EffectsFit,
         CreateDisclosure, ValidDisclosure, ValidRequest, ValidCandidate, RoomFor, BossMayTurn, Resolve, Honest,
         IndexOf, PrimaryReason, MovesFit, Fold, GroupOf, Unmoved;
    PreparedUnmoved(s, t);
    var c := s.combat.value;
    var es := CheckedEvents(s, facts, c, p, x, a, base, check, spark).value;
    var mandatory := if BossMayTurn(c, x.target, base) then [BossTransition] else [];
    var selected := SelectPhysicalRoll(check, mandatory, spark);
    if selected.Physical? {
      RequestNeedsRoom(s, es, if spark then 1 else 0);
      SelectedIsHonest(check, mandatory, spark);
      BossReason(mandatory, selected.disclosure.reason, spark);
      PhysicalApplies(s, t, p, spark, facts.pendingCheckId.value, facts.nonce.value, selected.disclosure, c.combatId,
        x, base);
      IdleFits(t, es);
    } else {
      var result := Resolve(check, Draw(facts.random.value, 1, 20));
      var effects := ResolvedEvents(s, facts, x, Some(a), result.finalDegree, base).value;
      var first := CheckResolvedSimulated(result);
      RoomParts(s, [first], effects);
      SimulatedIsAudit(result);
      FoldAppend(t, [first], effects);
      AuditKeeps(t, first);
      IdleBefore(t, [first], effects);
      ResolvedMovesFit(s, facts, catalog, x, Some(a), result.finalDegree, base);
      ResolvedExactly(s, facts, catalog, t, x, Some(a), result.finalDegree, base);
    }
  }

  lemma ResolvedMovesFit(s: GameState, facts: Facts, catalog: Catalog, x: Candidate, ability: Option<Ability>,
      degree: Degree, base: Option<int>)
    requires s.combat.Some? && facts.catalog == Some(catalog) && TargetFits(s.combat.Get(), x.target)
    requires ResolvedEvents(s, facts, x, ability, degree, base).Done?
    ensures MovesFit(s, ResolvedEvents(s, facts, x, ability, degree, base).Get())
  {
    hide AllEffects, ImpactEvents, MovesFit, TargetFits, IndexOf, AllIdle, EffectsFit, AllStriking;
    var c := s.combat.value;
    var es := ResolvedEvents(s, facts, x, ability, degree, base).value;
    NothingIdle();
    IdleFits(s, []);
    if degree.Success? || degree.Triumph? {
      var impact := if base.None? then [] else ImpactEvents(s, facts, catalog, c, x.target, base.value, degree).value;
      if base.Some? {
        ImpactStriking(s, facts, catalog, c, x.target, base.value, degree);
        StrikingIdle(impact);
      }
      if ability.Some? {
        var effects := AllEffects(s, facts, catalog, c, x.target, ability.value.effects).value;
        TargetMovesFit(s, facts, catalog, x.target, ability.value.effects);
        IdleBefore(s, impact, effects);
        assert es == impact + effects;
      } else {
        var effects := if !x.kind.AdvanceObjective? then [] else AdvanceBy(c, x.target.objectiveId, 1).value;
        AdvanceMovesNobody(s, effects);
        IdleBefore(s, impact, effects);
        assert es == impact + effects;
      }
    }
  }

  lemma NothingIdle()
    ensures AllIdle([])
  {}

  lemma AdvanceMovesNobody(s: GameState, es: seq<Event>)
    requires forall e :: e in es ==> e.ObjectiveAdvanced?
    ensures MovesFit(s, es)
  {}

  // ----- The whole action -----

  lemma {:induction false} DestinationsFit(c: Combat, q: Participant, adjacentOnly: bool, zones: seq<Zone>,
      target: Target)
    requires Distinct(ZoneIds(c.zones)) && (forall z :: z in zones ==> z in c.zones)
    requires target in Destinations(c, q, adjacentOnly, zones)
    ensures target.OnActorToZone? && HasRoom(c, target.zoneId)
  {
    hide Occupancy, Distance, IndexOf;
    if target == OnActorToZone(q.actorId, zones[0].zoneId) && Occupancy(c.participants,
      zones[0].zoneId) < zones[0].capacity {
      assert zones[0] in c.zones;
      var k :| 0 <= k < |c.zones| && c.zones[k] == zones[0];
      IndexOfDistinct(ZoneIds(c.zones), k);
    } else {
      DestinationsFit(c, q, adjacentOnly, zones[1..], target);
    }
  }

  lemma {:induction false} MoveTargetsFit(s: GameState, c: Combat, p: Participant, adjacentOnly: bool, whom: MoveWhom,
      qs: seq<Participant>, target: Target)
    requires Distinct(ZoneIds(c.zones)) && target in MoveTargets(s, c, p, adjacentOnly, whom, qs)
    ensures TargetFits(c, target)
  {
    hide Destinations, HasRoom, MayBeMoved;
    if MayBeMoved(s, p, qs[0], whom) && target in Destinations(c, qs[0], adjacentOnly, c.zones) {
      DestinationsFit(c, qs[0], adjacentOnly, c.zones, target);
    } else {
      MoveTargetsFit(s, c, p, adjacentOnly, whom, qs[1..], target);
    }
  }

  lemma {:induction false} ObjectiveTargetsFit(c: Combat, p: Participant, range: RangeBand, os: seq<Objective>,
      target: Target)
    requires target in ObjectiveTargets(c, p, range, os)
    ensures TargetFits(c, target)
  {
    hide InReach, ObjectiveZone;
    if target != OnObjective(os[0].objectiveId) {
      ObjectiveTargetsFit(c, p, range, os[1..], target);
    }
  }

  lemma {:induction false} ZoneTargetsFit(c: Combat, p: Participant, range: RangeBand, zones: seq<Zone>, target: Target)
    requires target in ZoneTargets(c, p, range, zones)
    ensures TargetFits(c, target)
  {
    hide InReach;
    if target != OnZone(zones[0].zoneId) {
      ZoneTargetsFit(c, p, range, zones[1..], target);
    }
  }

  lemma {:induction false} ActorTargetsFit(s: GameState, c: Combat, p: Participant, a: Ability, qs: seq<Participant>,
      target: Target)
    requires target in ActorTargets(s, c, p, a, qs)
    ensures TargetFits(c, target)
  {
    hide MayBeTargeted;
    if target != OnActor(qs[0].actorId) {
      ActorTargetsFit(s, c, p, a, qs[1..], target);
    }
  }

  lemma TargetsFit(s: GameState, c: Combat, p: Participant, a: Ability, target: Target)
    requires Distinct(ZoneIds(c.zones)) && target in AbilityTargets(s, c, p, a)
    ensures TargetFits(c, target)
  {
    hide MoveTargets, ObjectiveTargets, ZoneTargets, ActorTargets, HasRoom, FirstMove, ZoneIds, Distinct;
    match a.targetRule
    case TargetSelf =>
    case TargetObjective => ObjectiveTargetsFit(c, p, a.range, c.objectives, target);
    case TargetZone => ZoneTargetsFit(c, p, a.range, c.zones, target);
    case TargetActor =>
      if FirstMove(a.effects).Some? {
        var move := FirstMove(a.effects).value;
        MoveTargetsFit(s, c, p, move.adjacentOnly, move.whom, c.participants, target);
      } else {
        ActorTargetsFit(s, c, p, a, c.participants, target);
      }
  }

  lemma LegalTargetFits(s: GameState, c: Combat, ids: ActionKey -> Id, p: Participant, catalog: Catalog, x: Candidate)
    requires Distinct(ZoneIds(c.zones)) && Legal(s, c, ids, p, catalog, x)
    ensures TargetFits(c, x.target)
  {
    hide Listing, ActorAbilities, MayUse, KindOf, AbilityTargets, StandsAt, Connections, HasRoom, ZoneIds,
         ActualRange, RangeBetween;
    if !IsPass(c, p, x) && !IsMove(c, p, x) && !exists o :: o in c.objectives && IsAdvance(c, p, x, o) {
      var a :| a in ActorAbilities(s, p, catalog) && IsUse(s, c, p, catalog, x, a);
      TargetsFit(s, c, p, a, x.target);
    }
  }

  lemma LegalMove(s: GameState, c: Combat, ids: ActionKey -> Id, p: Participant, catalog: Catalog, x: Candidate)
    requires Legal(s, c, ids, p, catalog, x) && x.source.None? && (x.kind.Move? || x.kind.Dash?)
    ensures x.target.OnZone? && HasRoom(c, x.target.Place())
  {
    hide Listing, ActorAbilities, MayUse, KindOf, AbilityTargets, StandsAt, Connections, HasRoom, ActualRange,
         RangeBetween;
  }

  /** Scores stay within the candidate schema. */
  lemma ScoredIsValid(p: Participant, catalog: Catalog, x: Candidate)
    requires Scored(p, catalog, x) && WellFormedCatalog(catalog)
    ensures ValidCandidate(x)
  {
    hide TagsFor, Matches, ByReference;
    if p.role.Enemy? && x.source.Some? && !x.kind.Pass? {
      var d := ByReference(catalog.definitions, p.role.definition);
      if d.Some? && d.value.EnemyDefinition? {
        assert WellFormed(d.value);
        var tags := TagsFor(d.value.actions, x.source.value);
        assert tags == [] || exists k :: 0 <= k < |d.value.actions| && d.value.actions[k].tags == tags;
        assert |tags| <= 8 && Distinct(tags);
      }
    }
  }

  lemma {:induction false} ImpactsBounded(es: seq<Effect>)
    requires WellFormedEffects(es)
    ensures forall i :: 0 <= i < |ImpactsOf(es)| ==> 1 <= ImpactsOf(es)[i] <= 20
  {
    if es != [] {
      assert WellFormedEffect(es[0]);
      ImpactsBounded(es[1..]);
    }
  }

  lemma BaseImpactBounded(a: Ability)
    requires WellFormedAbility(a)
    ensures BaseImpact(a).Some? ==> 1 <= BaseImpact(a).value <= 20
  {
    ImpactsBounded(a.effects);
  }

  lemma CatalogAbility(catalog: Catalog, ref: Ref)
    requires WellFormedCatalog(catalog) && AbilityByReference(catalog, ref).Some?
    ensures WellFormedAbility(AbilityByReference(catalog, ref).value)
  {
    hide WellFormedAbility, ByReference, AbilityByReference;
    var d := AbilityDefinition(AbilityByReference(catalog, ref).value);
    assert d in catalog.definitions && WellFormed(d);
  }

  lemma ActionExactly(s: GameState, facts: Facts, catalog: Catalog, ids: ActionKey -> Id, i: nat, t: GameState,
      x: Candidate, ability: Option<Ability>, spark: bool)
    requires ValidGameState(s) && ValidGameState(t) && SpentFrom(s, t, i, x.slot) && s.combat.Get().status.Active?
             && facts.catalog == Some(catalog)
    requires FreshFacts(s, facts) && EnemiesApart(s) && WellFormedCatalog(catalog)
    requires var c := s.combat.Get();
             var p := At(c.participants, i);
             && c.activeActor == Some(p.actorId) && FindParticipant(c, p.actorId) == Some(i)
             && Legal(s, c, ids, p, catalog, x) && Scored(p, catalog, x) && x.source.None? == ability.None?
             && (ability.Some? ==> ability == AbilityByReference(catalog, x.source.Get()))
             && ActionEvents(s, facts, catalog, c, p, x, ability, spark).Done?
    requires var es := ActionEvents(s, facts, catalog, s.combat.Get(), At(s.combat.Get().participants, i), x, ability,
               spark).Get();
             RoomFor(s, es) && SparkFits(s, es)
    ensures var es := ActionEvents(s, facts, catalog, s.combat.Get(), At(s.combat.Get().participants, i), x, ability,
              spark).Get();
            Fold(t, es).Done? <==> EffectsFit(t, es)
  {
    hide ValidGameState, Apply, ResolvedEvents, CheckedEvents, CheckFor, SpentFrom, Prepared, EnemiesApart,
         WellFormedCatalog, WellFormedAbility, TargetFits, Legal, Scored, FreshFacts, RoomFor, SparkFits, IndexOf,
         BaseImpact, HasRoom, Unmoved, ValidCandidate, AbilityByReference, Distinct, ValidCombat, EffectsFit,
         MovesFit, ValidParty, ValidPendings, ValidChallenges, ActiveSound, ValidRituals;
    SpentPrepared(s, t, i, x.slot);
    PreparedUnmoved(s, t);
    var c := s.combat.value;
    var p := c.participants[i];
    ValidParts(s);
    CombatActive(c);
    LegalTargetFits(s, c, ids, p, catalog, x);
    ScoredIsValid(p, catalog, x);
    var es := ActionEvents(s, facts, catalog, c, p, x, ability, spark).value;
    if x.kind.Pass? {
      IdleFits(t, []);
    } else if (x.kind.Move? || x.kind.Dash?) && ability.None? {
      LegalMove(s, c, ids, p, catalog, x);
      MovedFromApplies(s, t, i, x.target.zoneId);
      FoldOne(t, es[0]);
      assert es == [es[0]];
      OneFits(t, es[0]);
    } else if ability.None? {
      ResolvedMovesFit(s, facts, catalog, x, None, Success, None);
      ResolvedExactly(s, facts, catalog, t, x, None, Success, None);
    } else {
      CatalogAbility(catalog, x.source.value);
      BaseImpactBounded(ability.value);
      var base := BaseImpact(ability.value);
      if CheckFor(s, p, ability.value, catalog).None? {
        ResolvedMovesFit(s, facts, catalog, x, ability, Success, base);
        ResolvedExactly(s, facts, catalog, t, x, ability, Success, base);
      } else {
        CheckedExactly(s, facts, catalog, t, p, x, ability.value, base, CheckFor(s, p, ability.value, catalog).value,
          spark);
      }
    }
  }

  lemma CostsIdle(s: GameState, p: Participant, a: Ability)
    requires CostEvents(s, p, a).Done?
    ensures AllIdle(CostEvents(s, p, a).Get())
            && forall e :: e in CostEvents(s, p, a).Get() ==> !e.SparkSpent?
  {
    hide Total, IndexOf, NegativeAdjustment, PayableCost;
  }

  /** What an action costs changes nothing the effects rely on, and spends no Spark. */
  lemma ExpensesIdle(s: GameState, c: Combat, p: Participant, x: Candidate, ability: Option<Ability>)
    requires Expenses(s, c, p, x, ability).Done?
    ensures AllIdle(Expenses(s, c, p, x, ability).Get())
            && forall e :: e in Expenses(s, c, p, x, ability).Get() ==> !e.SparkSpent?
  {
    hide CostEvents, IndexOf, UseIndex;
    if ability.Some? {
      CostsIdle(s, p, ability.value);
    }
  }

  lemma SlotKeepsReactions(s: GameState, t: GameState, i: nat, slot: Slot, es: seq<Event>)
    requires SpentFrom(s, t, i, slot) && !slot.ReactionSlot?
    ensures EffectsFit(t, es) <==> EffectsFit(s, es)
  {
    hide ReactionSpent, ChangesIn, RestoresIn, HeroesCarry;
    forall e | e in es && e.ReactionRestored? ensures ReactionSpent(t, e.actorId) <==> ReactionSpent(s, e.actorId) {
      ReactionSpentKept(s, t, e.actorId);
    }
  }

  /** Whatever `execute_combat_action` accepts is applied, every proposed event in order and each leaving a valid
      state, exactly when its effects fit - given room in the lists, and Spark for whoever spends it. */
  lemma ExecuteAgrees(s: GameState, facts: Facts, catalog: Catalog, combatId: Id, id: Id, spark: bool, es: seq<Event>)
    requires ValidGameState(s) && facts.catalog == Some(catalog) && WellFormedCatalog(catalog)
    requires FreshFacts(s, facts) && EnemiesApart(s)
    requires DecideExecuteCombatAction(s, facts, combatId, id, spark) == Done(es)
    requires RoomFor(s, es) && SparkFits(s, es)
    ensures Fold(s, es).Done? <==> EffectsFit(s, es)
  {
    hide ValidGameState, Apply, EnumerateActions, WithId, Expenses, ActionEvents, Legal, Scored, FreshFacts, RoomFor,
         EnemiesApart, WellFormedCatalog, IndexOf, SlotAvailable, SpentFrom, EffectsFit, MovesFit, AllIdle, Fold,
         Alive, SparkFits, FindParticipant, AbilityByReference;
    var c, ids := s.combat.value, facts.legalActionIdFor.value;
    var x := WithId(EnumerateActions(s, catalog, c.activeActor.value, ids), id).value;
    var p := EnumeratedIsLegal(s, catalog, c.activeActor.value, ids, x);
    LegalSlot(s, c, ids, p, catalog, x);
    var i := FindParticipant(c, x.actorId).value;
    var ability := if x.source.None? then None else AbilityByReference(catalog, x.source.value);
    var t := ExpensesApply(s, i, x, ability);
    var lead, rest := Expenses(s, c, p, x, ability).value, ActionEvents(s, facts, catalog, c, p, x, ability,
      spark).value;
    RoomParts(s, lead, rest);
    SparkParts(s, lead, rest);
    ActionExactly(s, facts, catalog, ids, i, t, x, ability, spark);
    FoldAppend(s, lead, rest);
    ExpensesIdle(s, c, p, x, ability);
    IdleBefore(s, lead, rest);
    SlotKeepsReactions(s, t, i, x.slot, rest);
  }

  lemma SparkParts(s: GameState, es: seq<Event>, more: seq<Event>)
    requires SparkFits(s, es + more)
    ensures SparkFits(s, more)
  {
    forall e | e in more ensures e in es + more {}
  }

  // ----- What actions propose -----

  /** The kinds of events actions and reactions are made of. */
  predicate FromAction(e: Event) {
    || e.ResourceChanged? || e.SceneAbilityUsed? || e.SparkSpent? || e.ConditionApplied?
    || e.ActionSlotSpent? || e.ActorMoved? || e.ObjectiveAdvanced? || e.ReactionRestored? || e.CombatResolved?
    || e.ReactionWindowOpened? || e.ReactionWindowClosed?
    || e.ImpactApplied? || e.WoundMarked? || e.BossOverlayActivated?
    || e.PhysicalRollRequested? || e.DeathTestPending? || e.CombatActionPending? || e.CheckResolvedSimulated?
  }

  predicate AllFromAction(es: seq<Event>) {
    forall e :: e in es ==> FromAction(e)
  }

  lemma JoinFromAction(es: seq<Event>, more: seq<Event>)
    requires AllFromAction(es) && AllFromAction(more)
    ensures AllFromAction(es + more)
  {
    hide FromAction;
  }

  lemma CostsFromAction(s: GameState, p: Participant, a: Ability)
    requires CostEvents(s, p, a).Done?
    ensures AllFromAction(CostEvents(s, p, a).Get())
  {
    hide Total, IndexOf, Transition;
  }

  lemma ExpensesFromAction(s: GameState, c: Combat, p: Participant, x: Candidate, ability: Option<Ability>)
    requires Expenses(s, c, p, x, ability).Done?
    ensures AllFromAction(Expenses(s, c, p, x, ability).Get())
  {
    hide CostEvents, IndexOf, UseIndex;
    if ability.Some? {
      CostsFromAction(s, p, ability.value);
    }
  }

  lemma EffectFromAction(s: GameState, facts: Facts, catalog: Catalog, c: Combat, target: Target, e: Effect)
    requires EffectEvents(s, facts, catalog, c, target, e).Done?
    ensures AllFromAction(EffectEvents(s, facts, catalog, c, target, e).Get())
  {
    hide IndexOf, ByReference;
  }

  lemma {:induction false} EffectsFromAction(s: GameState, facts: Facts, catalog: Catalog, c: Combat, target: Target,
      es: seq<Effect>)
    requires AllEffects(s, facts, catalog, c, target, es).Done?
    ensures AllFromAction(AllEffects(s, facts, catalog, c, target, es).Get())
  {
    hide EffectEvents, FromAction;
    if es != [] {
      EffectFromAction(s, facts, catalog, c, target, es[0]);
      EffectsFromAction(s, facts, catalog, c, target, es[1..]);
    }
  }

  lemma FinishFromAction(s: GameState, c: Combat, defeated: Option<Id>, dead: Option<Id>, restored: Option<Id>)
    ensures AllFromAction(FinishIfOver(s, c, defeated, dead, restored))
  {
    hide EnemyStands, HeroStands;
  }

  lemma StruckFromAction(s: GameState, catalog: Catalog, c: Combat, p: Participant, after: int)
    requires p.role.Enemy? && StruckEnemy(s, catalog, c, p, after).Done?
    ensures AllFromAction(StruckEnemy(s, catalog, c, p, after).Get())
  {
    hide FinishIfOver, GuardOnSelf, ByReference;
    if after == 0 && p.role.boss {
      var overlay := OverlayEvents(c, catalog, p, after).value;
      FinishFromAction(s, c, Some(p.actorId), None, if overlay != [] then Some(p.actorId) else None);
    } else if after == 0 {
      FinishFromAction(s, c, Some(p.actorId), None, None);
    }
  }

  lemma WoundsFromAction(s: GameState, facts: Facts, c: Combat, hero: Character)
    requires WoundEvents(s, facts, c, hero).Done?
    ensures AllFromAction(WoundEvents(s, facts, c, hero).Get())
  {
    hide DeathDisclosure;
  }

  lemma ImpactFromAction(s: GameState, facts: Facts, catalog: Catalog, c: Combat, target: Target, base: int,
      degree: Degree)
    requires ImpactEvents(s, facts, catalog, c, target, base, degree).Done?
    ensures AllFromAction(ImpactEvents(s, facts, catalog, c, target, base, degree).Get())
  {
    hide StruckEnemy, WoundEvents, IndexOf, ImpactOf, FindParticipant, FindActor, Max;
    var i := FindParticipant(c, target.actorId).value;
    var p := c.participants[i];
    if p.role.Enemy? {
      var impact := ImpactOf(base, if degree.Triumph? then 2 else 0, p.role.armor);
      StruckFromAction(s, catalog, c, p, Max(0, p.role.guard - impact));
    } else if WoundEvents(s, facts, c, s.characters[FindActor(s, target.actorId).value]).Done? {
      WoundsFromAction(s, facts, c, s.characters[FindActor(s, target.actorId).value]);
    }
  }

  lemma ResolvedFromAction(s: GameState, facts: Facts, x: Candidate, ability: Option<Ability>, degree: Degree,
      base: Option<int>)
    requires ResolvedEvents(s, facts, x, ability, degree, base).Done?
    ensures AllFromAction(ResolvedEvents(s, facts, x, ability, degree, base).Get())
  {
    hide ImpactEvents, AllEffects, IndexOf;
    if !degree.Crisis? && !degree.Setback? {
      var c, catalog := s.combat.value, facts.catalog.value;
      if base.Some? {
        ImpactFromAction(s, facts, catalog, c, x.target, base.value, degree);
      }
      if ability.Some? {
        EffectsFromAction(s, facts, catalog, c, x.target, ability.value.effects);
      }
    }
  }

  lemma ActionFromAction(s: GameState, facts: Facts, catalog: Catalog, c: Combat, p: Participant, x: Candidate,
      ability: Option<Ability>, spark: bool)
    requires ActionEvents(s, facts, catalog, c, p, x, ability, spark).Done?
    ensures AllFromAction(ActionEvents(s, facts, catalog, c, p, x, ability, spark).Get())
  {
    hide ResolvedEvents, CheckFor, SelectPhysicalRoll, BossMayTurn, BaseImpact, Resolve, Draw;
    if ability.None? {
      if ResolvedEvents(s, facts, x, None, Success, None).Done? {
        ResolvedFromAction(s, facts, x, None, Success, None);
      }
    } else {
      var base := BaseImpact(ability.value);
      if ResolvedEvents(s, facts, x, ability, Success, base).Done? {
        ResolvedFromAction(s, facts, x, ability, Success, base);
      }
      var check := CheckFor(s, p, ability.value, catalog);
      if check.Some? && facts.random.Some? {
        var degree := Resolve(check.value, Draw(facts.random.value, 1, 20)).finalDegree;
        if ResolvedEvents(s, facts, x, Some(ability.value), degree, base).Done? {
          ResolvedFromAction(s, facts, x, Some(ability.value), degree, base);
        }
      }
    }
  }

  lemma ExecuteFromAction(s: GameState, facts: Facts, combatId: Id, id: Id, spark: bool)
    requires DecideExecuteCombatAction(s, facts, combatId, id, spark).Done?
    ensures AllFromAction(DecideExecuteCombatAction(s, facts, combatId, id, spark).Get())
  {
    hide Expenses, ActionEvents, EnumerateActions, WithId, FromAction, IndexOf, FindParticipant, AbilityByReference,
         AllFromAction;
    var c, catalog := s.combat.value, facts.catalog.value;
    var x := WithId(EnumerateActions(s, catalog, c.activeActor.value, facts.legalActionIdFor.value), id).value;
    var p := c.participants[FindParticipant(c, x.actorId).value];
    var ability := if x.source.None? then None else AbilityByReference(catalog, x.source.value);
    ExpensesFromAction(s, c, p, x, ability);
    ActionFromAction(s, facts, catalog, c, p, x, ability, spark);
    JoinFromAction(Expenses(s, c, p, x, ability).value, ActionEvents(s, facts, catalog, c, p, x, ability, spark).value);
  }

  // ----- Lists only grow and Spark is only spent meanwhile -----

  predicate Grown(s: GameState, u: GameState) {
    && |s.pendingChecks| <= |u.pendingChecks| && |u.characters| == |s.characters| && (s.combat.Some? ==> u.combat.Some?)
    && forall i :: 0 <= i < |s.characters| ==>
         u.characters[i].characterId == s.characters[i].characterId
         && u.characters[i].actorId == s.characters[i].actorId
         && |s.characters[i].conditions| <= |u.characters[i].conditions|
         && (u.characters[i].sparkAvailable ==> s.characters[i].sparkAvailable)
  }

  lemma CheckGrows(s: GameState, e: Event, u: GameState)
    requires e.PhysicalRollRequested? || e.DeathTestPending? || e.CombatActionPending?
    requires StepCheck(s, e) == Done(u)
    ensures Grown(s, u)
  {
    hide IndexOf, CancelRoll, AwaitRitual, ReopenRitual, AwaitChallenge, AwaitSocial;
  }

  lemma HeroGrows(s: GameState, e: Event, u: GameState)
    requires e.ResourceChanged? || e.SceneAbilityUsed? || e.SparkSpent? || e.ConditionApplied?
    requires StepHero(s, e) == Done(u)
    ensures Grown(s, u)
  {
    hide IndexOf, UseIndex, SpendGear, ResetScene, AdvanceRank;
  }

  lemma TurnGrows(s: GameState, e: Event, u: GameState)
    requires e.ActionSlotSpent? || e.ActorMoved? || e.ObjectiveAdvanced? || e.ReactionRestored? || e.CombatResolved?
      || e.ReactionWindowOpened? || e.ReactionWindowClosed?
    requires StepTurn(s, e) == Done(u)
    ensures Grown(s, u)
  {
    hide IndexOf, Occupancy, AfterSpend, SummonAll, WithParticipant, SlotAvailable, AdvanceRound, RestoreSlot;
  }

  lemma HarmGrows(s: GameState, e: Event, u: GameState)
    requires e.ImpactApplied? || e.WoundMarked? || e.BossOverlayActivated?
    requires StepHarm(s, e) == Done(u)
    ensures Grown(s, u)
  {
    hide IndexOf, ImpactOf, FillsOneSlot, ReplaceOverlays, WithParticipant;
  }

  lemma GroupsOfAction(e: Event)
    requires FromAction(e)
    ensures match GroupOf(e)
            case CheckEvent => e.PhysicalRollRequested? || e.DeathTestPending? || e.CombatActionPending?
            case HeroEvent => e.ResourceChanged? || e.SceneAbilityUsed? || e.SparkSpent? || e.ConditionApplied?
            case TurnEvent =>
              e.ActionSlotSpent? || e.ActorMoved? || e.ObjectiveAdvanced? || e.ReactionRestored? || e.CombatResolved?
              || e.ReactionWindowOpened? || e.ReactionWindowClosed?
            case HarmEvent => e.ImpactApplied? || e.WoundMarked? || e.BossOverlayActivated?
            case AuditEvent => true
            case SceneEvent => false
  {}

  lemma ActionGrows(s: GameState, e: Event, u: GameState)
    requires FromAction(e) && Apply(s, e) == Done(u)
    ensures Grown(s, u)
  {
    hide GroupOf, StepCheck, StepHero, StepTurn, StepHarm, StepScene, ValidGameState, FromAction;
    GroupsOfAction(e);
    match GroupOf(e)
    case AuditEvent =>
    case CheckEvent => CheckGrows(s, e, u);
    case HeroEvent => HeroGrows(s, e, u);
    case TurnEvent => TurnGrows(s, e, u);
    case HarmEvent => HarmGrows(s, e, u);
    case SceneEvent =>
  }

  lemma {:induction false} FoldGrows(s: GameState, es: seq<Event>, t: GameState)
    requires AllFromAction(es) && Fold(s, es) == Done(t)
    ensures Grown(s, t)
    decreases |es|
  {
    hide Apply, FromAction;
    if es != [] {
      var u := Apply(s, es[0]).value;
      assert es[0] in es && forall e :: e in es[1..] ==> e in es;
      ActionGrows(s, es[0], u);
      FoldGrows(u, es[1..], t);
    }
  }

  // ----- Exactly -----

  lemma RequestHadRoom(s: GameState, e: Event)
    requires ValidGameState(s) && e.PhysicalRollRequested? && Apply(s, e).Done?
    ensures |s.pendingChecks| < 16
  {
    hide ValidGameState, Apply;
    PendingsFew(s);
    if |s.pendingChecks| == 16 {
      FullPendingsRefuse(s, e.checkId, e.nonce, e.disclosure);
    }
  }

  lemma ConditionHadRoom(s: GameState, id: Id, condition: Condition, i: nat)
    requires ValidGameState(s) && Apply(s, ConditionApplied(id, condition)).Done?
    requires i < |s.characters| && At(s.characters, i).characterId == id
    ensures |At(s.characters, i).conditions| < 32
  {
    hide ValidGameState, Apply;
    ConditionsFew(s, i);
    if |s.characters[i].conditions| == 32 {
      FullConditionsRefuse(s, i, condition);
    }
  }

  lemma SparkWasThere(s: GameState, u: GameState, actor: Id)
    requires Grown(s, u) && Apply(u, SparkSpent(actor)).Done?
    ensures FindActor(s, actor).Some? && At(s.characters, FindActor(s, actor).Get()).sparkAvailable
  {
    hide ValidGameState, ActorIds;
    assert ActorIds(u.characters) == ActorIds(s.characters);
  }

  /** A transaction of an action that was applied had the room for what it added, and the Spark. */
  lemma AppliedHadRoom(s: GameState, es: seq<Event>)
    requires ValidGameState(s) && AllFromAction(es) && Fold(s, es).Done?
    ensures RoomFor(s, es) && SparkFits(s, es)
  {
    hide ValidGameState, Apply, AllFromAction, Fold, FindActor;
    forall e | e in es && e.PhysicalRollRequested? ensures |s.pendingChecks| < 16 {
      var u := StateBefore(s, es, e);
      RequestHadRoom(u, e);
    }
    forall e, c | e in es && e.ConditionApplied? && c in s.characters && c.characterId == e.characterId
      ensures |c.conditions| < 32 {
      var u := StateBefore(s, es, e);
      var i :| 0 <= i < |s.characters| && s.characters[i] == c;
      ConditionHadRoom(u, e.characterId, e.condition, i);
    }
    forall e | e in es && e.SparkSpent?
      ensures FindActor(s, e.actorId).Some? && s.characters[FindActor(s, e.actorId).value].sparkAvailable {
      var u := StateBefore(s, es, e);
      SparkWasThere(s, u, e.actorId);
    }
  }

  /** The state an event of the transaction was applied in. */
  lemma StateBefore(s: GameState, es: seq<Event>, e: Event) returns (u: GameState)
    requires ValidGameState(s) && AllFromAction(es) && Fold(s, es).Done? && e in es
    ensures ValidGameState(u) && Apply(u, e).Done? && Grown(s, u)
  {
    hide ValidGameState, Apply, FromAction, Grown;
    var k :| 0 <= k < |es| && es[k] == e;
    assert es == es[..k] + es[k..];
    FoldAppend(s, es[..k], es[k..]);
    u := Fold(s, es[..k]).value;
    FoldKeepsValid(s, es[..k], u);
    FoldGrows(s, es[..k], u);
    assert es[k..][0] == e;
  }

  /** What `execute_combat_action` accepts is applied, every event in order, if and only if the lists have room for the
      checks and conditions it adds, whoever spends Spark has it, and its effects make at most one change and restore
      at most one reaction, which was spent. */
  lemma ExecuteAgreesExactly(s: GameState, facts: Facts, catalog: Catalog, combatId: Id, id: Id, spark: bool,
      es: seq<Event>)
    requires ValidGameState(s) && facts.catalog == Some(catalog) && WellFormedCatalog(catalog)
    requires FreshFacts(s, facts) && EnemiesApart(s)
    requires DecideExecuteCombatAction(s, facts, combatId, id, spark) == Done(es)
    ensures Fold(s, es).Done? <==> RoomFor(s, es) && SparkFits(s, es) && EffectsFit(s, es)
  {
    hide ValidGameState, Apply, DecideExecuteCombatAction, FreshFacts, EnemiesApart, WellFormedCatalog, RoomFor,
         SparkFits, EffectsFit, AllFromAction;
    ExecuteFromAction(s, facts, combatId, id, spark);
    if Fold(s, es).Done? {
      AppliedHadRoom(s, es);
    }
    if RoomFor(s, es) && SparkFits(s, es) {
      ExecuteAgrees(s, facts, catalog, combatId, id, spark, es);
    }
  }
}
