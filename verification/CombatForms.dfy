/** The shape of what the combat commands propose. */
module CombatForms {
  import opened Common
  import opened State
  import opened Validity
  import opened Events
  import opened Reducer
  import opened Checks
  import opened Content
  import opened CombatRules
  import opened CombatDecisions
  import opened Reactions
  import opened Subsystems
  import opened Commands
  import opened Vitals
  import opened LegalActions
  import opened Forms

  // ----- The effects of a resolved action -----

  /** Effects: quiescent events around at most one wound. */
  predicate EffectForm(s: GameState, es: seq<Event>, p: Parts) {
    && p.check == [] && es == p.pre + p.core + p.post
    && Quiescent(p.pre) && Quiescent(p.post)
    && (p.kind.NoCore? || p.kind.Wounding? || p.kind.ThirdWound?)
    && CorePart(s, [], p.kind, p.core)
  }

  lemma NothingQuiescent()
    ensures Quiescent([])
  {}

  lemma QuiescentEffects(s: GameState, es: seq<Event>)
    requires Quiescent(es)
    ensures EffectForm(s, es, Plain(es))
  {
    hide Quiescent, RollCore, TestsDeath, Honest, Marks;
    NothingQuiescent();
    assert es == es + [] + [];
  }

  lemma WoundForm(s: GameState, facts: Facts, c: Combat, hero: Character, i: nat) returns (p: Parts)
    requires FindCharacter(s, hero.characterId) == Some(i) && At(s.characters, i) == hero && |hero.wounds| == 3
    requires WoundEvents(s, facts, c, hero).Done?
    ensures EffectForm(s, WoundEvents(s, facts, c, hero).Get(), p)
  {
    hide DeathRequest, CreateDisclosure, Honest, Harmless, Quiescent, FindCharacter, RollCore;
    var es := WoundEvents(s, facts, c, hero).value;
    var k := EmptySlot(hero.wounds).value;
    var marked := hero.wounds[k := Filled(facts.woundId.value)];
    assert marked == hero.wounds[k := marked[k]];
    assert Marks(s, hero.characterId, marked, k);
    assert es == [] + es + [];
    NothingQuiescent();
    if k == 2 {
      DeathDisclosureHonest(s, c, hero);
      p := Parts([], [], ThirdWound, es, []);
      assert TestsDeath(es);
    } else {
      p := Parts([], [], Wounding, es, []);
      assert es[0].characterId == hero.characterId && es[0].wounds == marked;
    }
  }

  lemma StruckEnemyQuiescent(s: GameState, catalog: Catalog, c: Combat, p: Participant, after: int)
    requires p.role.Enemy? && StruckEnemy(s, catalog, c, p, after).Done?
    ensures Quiescent(StruckEnemy(s, catalog, c, p, after).Get())
  {
    hide EnemyStands, HeroStands, WaitingOverlay, ByReference, GuardOnSelf;
  }

  /** Extending effects by quiescent events on either side keeps their form. */
  lemma ExtendEffects(s: GameState, lead: seq<Event>, es: seq<Event>, tail: seq<Event>, p: Parts) returns (q: Parts)
    requires Quiescent(lead) && Quiescent(tail) && EffectForm(s, es, p)
    ensures EffectForm(s, lead + es + tail, q)
  {
    hide Quiescent, CorePart;
    QuiescentJoin(lead, p.pre);
    QuiescentJoin(p.post, tail);
    q := p.(pre := lead + p.pre, post := p.post + tail);
    assert lead + es + tail == q.pre + q.core + q.post;
  }

  lemma ImpactForm(s: GameState, facts: Facts, catalog: Catalog, c: Combat, target: Target, base: int, degree: Degree)
      returns (p: Parts)
    requires ValidParty(s.supply, s.supplyMaximum, s.characters)
    requires ImpactEvents(s, facts, catalog, c, target, base, degree).Done?
    ensures EffectForm(s, ImpactEvents(s, facts, catalog, c, target, base, degree).Get(), p)
  {
    hide EffectForm, Quiescent, StruckEnemy, WoundEvents, ValidCharacter, ImpactOf, ValidCombatOption, ValidCombat,
         ValidPendings;
    var es := ImpactEvents(s, facts, catalog, c, target, base, degree).value;
    var q := c.participants[FindParticipant(c, target.actorId).value];
    SingleQuiescent(es[0]);
    assert es == [es[0]] + es[1..];
    NothingQuiescent();
    if q.role.Enemy? {
      var after := Max(0, q.role.guard - ImpactOf(base, if degree.Triumph? then 2 else 0, q.role.armor));
      StruckEnemyQuiescent(s, catalog, c, q, after);
      assert es[1..] == StruckEnemy(s, catalog, c, q, after).value;
      QuiescentJoin([es[0]], es[1..]);
      QuiescentEffects(s, es);
      p := Plain(es);
    } else {
      var i := FindActor(s, target.actorId).value;
      var hero := s.characters[i];
      if es[1..] == [] {
        assert es == [es[0]];
        QuiescentEffects(s, es);
        p := Plain(es);
      } else {
        assert es[1..] == WoundEvents(s, facts, c, hero).value;
        HeroFound(s, i);
        var w := WoundForm(s, facts, c, hero, i);
        p := ExtendEffects(s, [es[0]], es[1..], [], w);
        assert [es[0]] + es[1..] + [] == es;
      }
    }
  }

  lemma HeroFound(s: GameState, i: nat)
    requires ValidParty(s.supply, s.supplyMaximum, s.characters) && i < |s.characters|
    ensures FindCharacter(s, s.characters[i].characterId) == Some(i)
    ensures FindActor(s, s.characters[i].actorId) == Some(i)
    ensures |s.characters[i].wounds| == 3
  {
    hide ValidGameState, IndexOf, CharacterIds, ActorIds;
    IndexOfDistinct(CharacterIds(s.characters), i);
    IndexOfDistinct(ActorIds(s.characters), i);
  }

  lemma EffectQuiescent(s: GameState, facts: Facts, catalog: Catalog, c: Combat, target: Target, e: Effect)
    requires EffectEvents(s, facts, catalog, c, target, e).Done?
    ensures Quiescent(EffectEvents(s, facts, catalog, c, target, e).Get())
  {
    hide IndexOf, ByReference;
  }

  lemma {:induction false} AllEffectsQuiescent(s: GameState, facts: Facts, catalog: Catalog, c: Combat,
      target: Target, es: seq<Effect>)
    requires AllEffects(s, facts, catalog, c, target, es).Done?
    ensures Quiescent(AllEffects(s, facts, catalog, c, target, es).Get())
  {
    hide Quiescent, EffectEvents;
    if es == [] {
      NothingQuiescent();
    } else {
      EffectQuiescent(s, facts, catalog, c, target, es[0]);
      AllEffectsQuiescent(s, facts, catalog, c, target, es[1..]);
      QuiescentJoin(EffectEvents(s, facts, catalog, c, target, es[0]).value,
        AllEffects(s, facts, catalog, c, target, es[1..]).value);
    }
  }

  lemma AdvanceQuiescent(c: Combat, objective: Id, amount: int)
    requires AdvanceBy(c, objective, amount).Done?
    ensures Quiescent(AdvanceBy(c, objective, amount).value)
  {}

  lemma ResolvedForm(s: GameState, facts: Facts, x: Candidate, ability: Option<Ability>, degree: Degree,
      base: Option<int>) returns (p: Parts)
    requires ValidParty(s.supply, s.supplyMaximum, s.characters)
    requires ResolvedEvents(s, facts, x, ability, degree, base).Done?
    ensures EffectForm(s, ResolvedEvents(s, facts, x, ability, degree, base).Get(), p)
  {
    hide EffectForm, Quiescent, ImpactEvents, AllEffects, AdvanceBy, ValidParty;
    NothingQuiescent();
    if degree.Crisis? || degree.Setback? {
      QuiescentEffects(s, []);
      p := Plain([]);
    } else {
      var c, catalog := s.combat.value, facts.catalog.value;
      var impact: seq<Event> := [];
      if base.Some? {
        p := ImpactForm(s, facts, catalog, c, x.target, base.value, degree);
        impact := ImpactEvents(s, facts, catalog, c, x.target, base.value, degree).value;
      } else {
        QuiescentEffects(s, []);
        p := Plain([]);
      }
      var rest: seq<Event> := [];
      if ability.Some? {
        AllEffectsQuiescent(s, facts, catalog, c, x.target, ability.value.effects);
        rest := AllEffects(s, facts, catalog, c, x.target, ability.value.effects).value;
      } else if x.kind.AdvanceObjective? {
        AdvanceQuiescent(c, x.target.objectiveId, 1);
        rest := AdvanceBy(c, x.target.objectiveId, 1).value;
      }
      p := ExtendEffects(s, [], impact, rest, p);
      assert [] + impact + rest == impact + rest;
    }
  }

  // ----- From effects to whole decisions -----

  /** Effects as a transaction of their own, or after the physical check they continue. */
  lemma EffectsAreForm(s: GameState, check: seq<Event>, es: seq<Event>, p: Parts)
    requires CheckPart(s, check) && Subject(s, check).None? && EffectForm(s, es, p)
    ensures StillForm(s, check + es, p.(check := check))
  {
    hide Harmless, Marks, Honest, Subject, RollCore;
    var q := p.(check := check);
    assert check + es == q.All();
    assert CorePart(s, check, q.kind, q.core);
    SlotlessJoin(p.pre, p.core, p.post);
    assert Slotless(es);
    assert Slotless(check + es);
  }

  lemma SlotlessJoin(pre: seq<Event>, core: seq<Event>, post: seq<Event>)
    requires Slotless(pre) && Slotless(core) && Slotless(post)
    ensures Slotless(pre + core + post)
  {}

  lemma CostQuiescent(s: GameState, p: Participant, a: Ability)
    requires CostEvents(s, p, a).Done?
    ensures Quiescent(CostEvents(s, p, a).Get())
  {
    hide NegativeAdjustment, PayableCost, Total, IndexOf;
  }

  lemma SceneUseQuiescent(s: GameState, p: Participant, a: Ability)
    requires SceneUseEvents(s, p, a).Done?
    ensures Quiescent(SceneUseEvents(s, p, a).Get())
  {
    hide IndexOf, UseIndex;
  }

  /** The expenses of an action: harmless events, of which exactly the last spends a slot. */
  predicate Expended(es: seq<Event>, actor: Id, slot: Slot) {
    && es != [] && Quiescent(es[..|es| - 1])
    && es[|es| - 1].ActionSlotSpent? && es[|es| - 1].actorId == actor && es[|es| - 1].spentSlot == slot
  }

  lemma ExpensesExpended(s: GameState, c: Combat, p: Participant, x: Candidate, ability: Option<Ability>)
    requires Expenses(s, c, p, x, ability).Done?
    ensures Expended(Expenses(s, c, p, x, ability).Get(), p.actorId, x.slot)
  {
    hide CostEvents, SceneUseEvents, Quiescent;
    var slot := ActionSlotSpent(c.combatId, p.actorId, x.slot);
    var es := Expenses(s, c, p, x, ability).value;
    if ability.Some? {
      CostQuiescent(s, p, ability.value);
      SceneUseQuiescent(s, p, ability.value);
      QuiescentJoin(CostEvents(s, p, ability.value).value, SceneUseEvents(s, p, ability.value).value);
      assert es[..|es| - 1] == CostEvents(s, p, ability.value).value + SceneUseEvents(s, p, ability.value).value;
    } else {
      NothingQuiescent();
      assert es[..|es| - 1] == [];
    }
  }

  /** An action or maneuver is paid for, then takes effect. */
  lemma LeadForm(s: GameState, lead: seq<Event>, actor: Id, slot: Slot, es: seq<Event>, parts: Parts) returns (q: Parts)
    requires Expended(lead, actor, slot) && !slot.ReactionSlot? && StillForm(s, es, parts) && parts.check == []
    ensures Form(s, lead + es, q)
  {
    hide Harmless, CorePart;
    q := parts.(pre := lead + parts.pre);
    SlotHarmless(lead[|lead| - 1]);
    assert lead == lead[..|lead| - 1] + [lead[|lead| - 1]];
    assert lead + es == q.All();
    assert forall i :: 0 <= i < |lead + es| && (lead + es)[i].ActionSlotSpent? ==>
      !(lead + es)[i].spentSlot.ReactionSlot?;
  }

  lemma CheckedForm(s: GameState, facts: Facts, c: Combat, p: Participant, x: Candidate, a: Ability,
      base: Option<int>, check: Request, spark: bool) returns (parts: Parts)
    requires ValidParty(s.supply, s.supplyMaximum, s.characters)
    requires s.combat.Some? && s.combat.Get().status.Active? && x.source.Some?
    requires CheckedEvents(s, facts, c, p, x, a, base, check, spark).Done?
    ensures StillForm(s, CheckedEvents(s, facts, c, p, x, a, base, check, spark).Get(), parts) && parts.check == []
  {
    hide EffectForm, Quiescent, ResolvedEvents, ValidParty, SelectPhysicalRoll, BossMayTurn, Resolve, Honest,
         StillForm, ValidDisclosure;
    var es := CheckedEvents(s, facts, c, p, x, a, base, check, spark).value;
    var mandatory := if BossMayTurn(c, x.target, base) then [BossTransition] else [];
    var selected := SelectPhysicalRoll(check, mandatory, spark);
    if selected.Physical? {
      SelectedIsHonest(check, mandatory, spark);
      var first := if selected.sparkSpent then [SparkSpent(p.actorId)] else [];
      if first == [] { NothingQuiescent(); } else { SingleQuiescent(SparkSpent(p.actorId)); }
      var core := [PhysicalRollRequested(facts.pendingCheckId.value, facts.nonce.value, selected.disclosure),
                   CombatActionPending(c.combatId, facts.pendingCheckId.value, x, base)];
      parts := Parts([], first, Roll, core, []);
      RollForm(s, parts);
      assert es == parts.All();
    } else {
      var result := Resolve(check, Draw(facts.random.value, 1, 20));
      var q := ResolvedForm(s, facts, x, Some(a), result.finalDegree, base);
      SingleQuiescent(CheckResolvedSimulated(result));
      NothingQuiescent();
      var effects := ResolvedEvents(s, facts, x, Some(a), result.finalDegree, base).value;
      q := ExtendEffects(s, [CheckResolvedSimulated(result)], effects, [], q);
      EffectsAreForm(s, [], [CheckResolvedSimulated(result)] + effects + [], q);
      parts := q.(check := []);
      assert es == [] + ([CheckResolvedSimulated(result)] + effects + []);
    }
  }

  lemma RollForm(s: GameState, parts: Parts)
    requires parts.check == [] && Quiescent(parts.pre) && parts.kind.Roll? && parts.post == []
    requires RollCore(parts.core) && BeginsAction(s, parts.core)
    ensures StillForm(s, parts.All(), parts)
  {
    hide Harmless, Honest, BeginsAction, TestsDeath, Marks;
    SlotlessJoin(parts.pre, parts.core, []);
    assert parts.All() == parts.pre + parts.core + [];
  }

  lemma ActionForm(s: GameState, facts: Facts, catalog: Catalog, c: Combat, p: Participant, x: Candidate,
      ability: Option<Ability>, spark: bool)
    returns (parts: Parts)
    requires ValidParty(s.supply, s.supplyMaximum, s.characters)
    requires s.combat.Some? && s.combat.Get().status.Active? && (ability.Some? ==> x.source.Some?)
    requires ActionEvents(s, facts, catalog, c, p, x, ability, spark).Done?
    ensures StillForm(s, ActionEvents(s, facts, catalog, c, p, x, ability, spark).Get(), parts) && parts.check == []
  {
    hide EffectForm, Quiescent, ResolvedEvents, CheckedEvents, CheckFor, BaseImpact, ValidParty, StillForm;
    var es := ActionEvents(s, facts, catalog, c, p, x, ability, spark).value;
    NothingQuiescent();
    if x.kind.Pass? {
      QuiescentForm(s, []);
      parts := Plain([]);
    } else if (x.kind.Move? || x.kind.Dash?) && ability.None? {
      OnePlain(s, es[0]);
      assert es == [es[0]];
      parts := Plain(es);
    } else if ability.Some? && CheckFor(s, p, ability.value, catalog).Some? {
      parts := CheckedForm(s, facts, c, p, x, ability.value, BaseImpact(ability.value),
        CheckFor(s, p, ability.value, catalog).value, spark);
    } else {
      var base := if ability.None? then None else BaseImpact(ability.value);
      var q := ResolvedForm(s, facts, x, ability, Success, base);
      EffectsAreForm(s, [], es, q);
      parts := q.(check := []);
      assert es == [] + es;
    }
  }

  /** One action or maneuver slot is spent, by one event, and the round goes on. */
  predicate SpendsOne(es: seq<Event>, lead: seq<Event>, actor: Id, slot: Slot, rest: seq<Event>) {
    es == lead + rest && Expended(lead, actor, slot) && !slot.ReactionSlot? && Slotless(rest)
  }

  ghost predicate SpendsOneSlot(es: seq<Event>) {
    exists lead, actor, slot, rest :: SpendsOne(es, lead, actor, slot, rest)
  }

  lemma ExecuteForm(s: GameState, facts: Facts, combatId: Id, id: Id, spark: bool) returns (parts: Parts)
    requires ValidParty(s.supply, s.supplyMaximum, s.characters)
    requires DecideExecuteCombatAction(s, facts, combatId, id, spark).Done?
    ensures Form(s, DecideExecuteCombatAction(s, facts, combatId, id, spark).Get(), parts)
    ensures SpendsOneSlot(DecideExecuteCombatAction(s, facts, combatId, id, spark).Get())
  {
    hide Form, StillForm, Expended, EnumerateActions, WithId, Expenses, ActionEvents, ValidParty, Legal, Quiescent,
         Scored, Alive, FindParticipant, AbilityByReference;
    var c, catalog := s.combat.value, facts.catalog.value;
    var ids := facts.legalActionIdFor.value;
    var x := WithId(EnumerateActions(s, catalog, c.activeActor.value, ids), id).value;
    var actor := EnumeratedIsLegal(s, catalog, c.activeActor.value, ids, x);
    LegalSlot(s, c, ids, actor, catalog, x);
    var p := c.participants[FindParticipant(c, x.actorId).value];
    var ability := if x.source.None? then None else AbilityByReference(catalog, x.source.value);
    ExpensesExpended(s, c, p, x, ability);
    var q := ActionForm(s, facts, catalog, c, p, x, ability, spark);
    parts := LeadForm(s, Expenses(s, c, p, x, ability).value, p.actorId, x.slot,
      ActionEvents(s, facts, catalog, c, p, x, ability, spark).value, q);
    StillIsSlotless(s, ActionEvents(s, facts, catalog, c, p, x, ability, spark).value, q);
    assert SpendsOne(Expenses(s, c, p, x, ability).value + ActionEvents(s, facts, catalog, c, p, x, ability,
      spark).value,
                     Expenses(s, c, p, x, ability).value, p.actorId, x.slot,
                       ActionEvents(s, facts, catalog, c, p, x, ability, spark).value);
  }

  lemma StillIsSlotless(s: GameState, es: seq<Event>, parts: Parts)
    requires StillForm(s, es, parts)
    ensures Slotless(es)
  {
    hide Form;
  }

  /** At most reaction slots are spent, and a new round comes first. */
  predicate OnlyReactions(es: seq<Event>) {
    forall i :: 0 <= i < |es| ==>
      !es[i].ActionSlotRestored? && (es[i].ActionSlotSpent? ==> es[i].spentSlot.ReactionSlot?)
        && (es[i].RoundAdvanced? ==> i == 0)
  }

  /** Nobody's activation starts. */
  predicate StartsNobody(es: seq<Event>) {
    forall i :: 0 <= i < |es| ==> !es[i].ActivationStarted?
  }

  /** The two commands that start activations. */
  predicate Activating(command: Command) {
    command.ChooseHeroActivation? || command.SelectEnemyFallback?
  }

  lemma SlotlessOnlyReactions(es: seq<Event>)
    requires Slotless(es)
    ensures OnlyReactions(es) && StartsNobody(es)
  {}

  lemma SpendingStartsNobody(es: seq<Event>)
    requires SpendsOneSlot(es)
    ensures StartsNobody(es)
  {
    hide Harmless;
    var lead, actor, slot, rest :| SpendsOne(es, lead, actor, slot, rest);
    forall i | 0 <= i < |es| ensures !es[i].ActivationStarted? {
      if i >= |lead| {
        assert es[i] == rest[i - |lead|];
      } else if i < |lead| - 1 {
        assert es[i] == lead[..|lead| - 1][i];
      }
    }
  }

  /** A spent reaction: costs, the slot, the effects, and the window closed behind it. */
  lemma ReactionForm(s: GameState, facts: Facts, catalog: Catalog, c: Combat, x: Candidate) returns (parts: Parts)
    requires ValidParty(s.supply, s.supplyMaximum, s.characters)
    requires ReactionEvents(s, facts, catalog, c, x).Done?
    ensures Form(s, ReactionEvents(s, facts, catalog, c, x).Get(), parts)
    ensures OnlyReactions(ReactionEvents(s, facts, catalog, c, x).Get())
            && StartsNobody(ReactionEvents(s, facts, catalog, c, x).Get())
  {
    hide CostEvents, ResolvedEvents, BaseImpact, ValidParty, Quiescent, EffectForm, FindParticipant,
         AbilityByReference, Form, OnlyReactions, StartsNobody;
    var p := c.participants[FindParticipant(c, x.actorId).value];
    var a := AbilityByReference(catalog, x.source.value).value;
    CostQuiescent(s, p, a);
    var effects := ResolvedEvents(s, facts, x, Some(a), Success, BaseImpact(a)).value;
    var q := ResolvedForm(s, facts, x, Some(a), Success, BaseImpact(a));
    parts := ReactionParts(s, CostEvents(s, p, a).value, ActionSlotSpent(c.combatId, p.actorId, ReactionSlot), effects,
      q);
    assert ReactionEvents(s, facts, catalog, c, x).value ==
           CostEvents(s, p, a).value + [ActionSlotSpent(c.combatId, p.actorId, ReactionSlot)]
             + (effects + [ReactionWindowClosed]);
  }

  lemma ReactionParts(s: GameState, costs: seq<Event>, slot: Event, effects: seq<Event>, q: Parts)
      returns (parts: Parts)
    requires Quiescent(costs) && EffectForm(s, effects, q) && slot.ActionSlotSpent? && slot.spentSlot.ReactionSlot?
    ensures Form(s, costs + [slot] + (effects + [ReactionWindowClosed]), parts)
    ensures OnlyReactions(costs + [slot] + (effects + [ReactionWindowClosed]))
            && StartsNobody(costs + [slot] + (effects + [ReactionWindowClosed]))
  {
    hide Harmless, Marks, Honest, RollCore;
    parts := q.(pre := costs + [slot] + q.pre, post := q.post + [ReactionWindowClosed]);
    SlotHarmless(slot);
    var es := costs + [slot] + (effects + [ReactionWindowClosed]);
    assert es == parts.All();
    assert es[|es| - 1] == ReactionWindowClosed;
    SlotlessJoin(q.pre, q.core, q.post);
  }

  lemma SlotHarmless(e: Event)
    requires e.ActionSlotSpent?
    ensures Harmless(e) && Harmless(ReactionWindowClosed)
  {}

  lemma ResolveReactionForm(s: GameState, facts: Facts, combatId: Id, windowId: Id, actor: Id, id: Option<Id>)
      returns (parts: Parts)
    requires ValidParty(s.supply, s.supplyMaximum, s.characters)
    requires DecideResolveReaction(s, facts, combatId, windowId, actor, id).Done?
    ensures Form(s, DecideResolveReaction(s, facts, combatId, windowId, actor, id).Get(), parts)
    ensures OnlyReactions(DecideResolveReaction(s, facts, combatId, windowId, actor, id).Get())
            && StartsNobody(DecideResolveReaction(s, facts, combatId, windowId, actor, id).Get())
  {
    hide Form, ReactionEvents, EnumerateReactions, WithId, ValidParty;
    var es := DecideResolveReaction(s, facts, combatId, windowId, actor, id).value;
    if id.None? {
      OnePlain(s, es[0]);
      assert es == [es[0]];
      parts := Plain(es);
    } else {
      parts := ReactionForm(s, facts, facts.catalog.value, s.combat.value,
                            WithId(EnumerateReactions(s, facts.catalog.value, actor, facts.legalActionIdFor.value),
                              id.value).value);
    }
  }

  // ----- Death tests and submitted dice -----

  lemma AidForm(s: GameState, combatId: Id, checkId: Id, aiding: Id, resource: AidResource) returns (parts: Parts)
    requires DecideAidDeathTest(s, combatId, checkId, aiding, resource).Done?
    ensures StillForm(s, DecideAidDeathTest(s, combatId, checkId, aiding, resource).Get(), parts)
  {
    hide RangeBetween, Honest, CreateDisclosure, IndexOf, ValidRequest, ValidDisclosure;
    var es := DecideAidDeathTest(s, combatId, checkId, aiding, resource).value;
    var pending := s.pendingChecks[FindPending(s, checkId).value];
    CreatedIsHonest(Rebuild(pending.disclosure).(edge := true), PermanentDeath);
    parts := Parts([], [es[0]], Aid, [es[1]], []);
    assert es == [] + [es[0]] + [es[1]] + [];
  }

  lemma DeathTestForm(s: GameState, facts: Facts, character: Id, degree: Degree, check: seq<Event>)
      returns (parts: Parts)
    requires CheckPart(s, check) && Subject(s, check) == Some(character)
    requires DeathTestEvents(s, facts, character, degree).Done?
    ensures StillForm(s, check + DeathTestEvents(s, facts, character, degree).Get(), parts)
  {
    hide CheckPart, Subject, DeathTestEvents, CorePart, AllHarmless, Slotless, ReactionCloses;
    var es := DeathTestEvents(s, facts, character, degree).value;
    var kind := if degree.Success? || degree.Triumph? then Stabilizing else Dying;
    DeathTestParts(s, facts, character, degree, check);
    parts := Parts(check, [], kind, [es[0]], es[1..]);
    assert es == [es[0]] + es[1..];
    assert check + es == parts.All();
    assert (check + es)[|check + es| - 1] == es[|es| - 1];
    NothingHarms();
  }

  lemma NothingHarms()
    ensures AllHarmless([])
  {}

  lemma DeathTestParts(s: GameState, facts: Facts, character: Id, degree: Degree, check: seq<Event>)
    requires CheckPart(s, check) && Subject(s, check) == Some(character)
    requires DeathTestEvents(s, facts, character, degree).Done?
    ensures var es := DeathTestEvents(s, facts, character, degree).Get();
            var kind := if degree.Success? || degree.Triumph? then Stabilizing else Dying;
            && es != [] && CorePart(s, check, kind, [At(es, 0)]) && AllHarmless(es[1..])
            && Slotless(check + es) && ReactionCloses(check + es)
  {
    hide EnemyStands, HeroStands, FindPending, Honest;
  }

  lemma ContinuedForm(s: GameState, facts: Facts, k: Continuation, result: CheckResult, check: seq<Event>)
      returns (parts: Parts)
    requires ValidParty(s.supply, s.supplyMaximum, s.characters)
    requires CheckPart(s, check) && Subject(s, check) == (if k.DeathTest? then Some(k.characterId) else None)
    requires ContinuationEvents(s, facts, k, result).Done?
    ensures StillForm(s, check + ContinuationEvents(s, facts, k, result).Get(), parts)
  {
    hide StillForm, CheckPart, Subject, ResolvedEvents, ChallengeEvents, SocialEvents, RitualEvents, DeathTestEvents,
         ValidParty, EffectForm, Quiescent, AbilityByReference;
    var es := ContinuationEvents(s, facts, k, result).value;
    match k
    case CombatAction(x, base) =>
      var ability := if x.source.None? then None else AbilityByReference(facts.catalog.value, x.source.value);
      var q := ResolvedForm(s, facts, x, ability, result.finalDegree, base);
      EffectsAreForm(s, check, es, q);
      parts := q.(check := check);
    case DeathTest(_, character) =>
      parts := DeathTestForm(s, facts, character, result.finalDegree, check);
    case ForChallenge(id) =>
      ChallengeEventsQuiescent(s, facts, id, result.finalDegree);
      QuiescentEffects(s, es);
      EffectsAreForm(s, check, es, Plain(es));
      parts := Plain(es).(check := check);
    case ForSocial(npc, requested, limit) =>
      SocialEventsQuiescent(s, npc, requested, limit, result.finalDegree);
      QuiescentEffects(s, es);
      EffectsAreForm(s, check, es, Plain(es));
      parts := Plain(es).(check := check);
    case ForRitual(id) =>
      RitualEventsQuiescent(s, facts, id, result.actorId, result.finalDegree);
      QuiescentEffects(s, es);
      EffectsAreForm(s, check, es, Plain(es));
      parts := Plain(es).(check := check);
  }

  lemma SubmitForm(s: GameState, facts: Facts, checkId: Id, nonce: Id, face: int) returns (parts: Parts)
    requires ValidParty(s.supply, s.supplyMaximum, s.characters)
    requires DecideSubmitDieResult(s, facts, checkId, nonce, face).Done?
    ensures StillForm(s, DecideSubmitDieResult(s, facts, checkId, nonce, face).Get(), parts)
  {
    hide StillForm, ContinuationEvents, ValidParty, Resolve, Disclosed, EffectForm, Quiescent, FindPending, Rebuild;
    var pending := s.pendingChecks[FindPending(s, checkId).value];
    var result := Resolve(Rebuild(pending.disclosure), face);
    var check := [CheckResolvedPhysical(checkId, result)];
    if pending.continuation.None? {
      NothingQuiescent();
      QuiescentEffects(s, []);
      EffectsAreForm(s, check, [], Plain([]));
      parts := Plain([]).(check := check);
    } else {
      parts := ContinuedForm(s, facts, pending.continuation.value, result, check);
    }
  }

  // ----- All combat commands, and all commands -----

  /** Activations, selections and new rounds: harmless events that spend no slot, a new round first. */
  predicate Activates(es: seq<Event>) {
    && AllHarmless(es)
    && forall i :: 0 <= i < |es| ==>
      !es[i].ActionSlotSpent? && !es[i].ActionSlotRestored? && (es[i].RoundAdvanced? ==> i == 0)
  }

  lemma ActivationActivates(s: GameState, c: Combat, p: Participant)
    requires ActivationEvents(s, c, p).Done?
    ensures Activates(ActivationEvents(s, c, p).Get())
  {
    hide Alive, SomeUnspent;
  }

  lemma ActivatesForm(s: GameState, es: seq<Event>)
    requires Activates(es)
    ensures Form(s, es, Plain(es)) && OnlyReactions(es)
  {
    hide Form, AllHarmless;
    PlainForm(s, es);
  }

  lemma SelectEnemyActivates(s: GameState, facts: Facts, combatId: Id, actor: Id)
    requires DecideSelectEnemyFallback(s, facts, combatId, actor).Done?
    ensures Activates(DecideSelectEnemyFallback(s, facts, combatId, actor).Get())
  {
    hide ActivationEvents, EnumerateActions, SelectBest, SelectionState, FindParticipant;
    var c := s.combat.value;
    var p := c.participants[FindParticipant(c, actor).value];
    ActivationActivates(s, c, p);
  }

  lemma ChooseActivates(s: GameState, combatId: Id, actor: Id)
    requires DecideChooseHeroActivation(s, combatId, actor).Done?
    ensures Activates(DecideChooseHeroActivation(s, combatId, actor).Get())
  {
    hide ActivationEvents, Activates, FindParticipant;
    var c := s.combat.value;
    ActivationActivates(s, c, c.participants[FindParticipant(c, actor).value]);
  }

  lemma CombatSingle(s: GameState, facts: Facts, command: Command)
    requires command.StartCombatCommand? || command.WithdrawFromCombat? || command.OpenReactionWindow?
    requires DecideCombat(s, facts, command).Done?
    ensures var es := DecideCombat(s, facts, command).Get(); |es| == 1 && Harmless(At(es, 0)) && !SlotEvent(At(es, 0))
  {
    hide ValidCombat, FreshParticipant, ParticipantMatches, ObjectiveMatches, OverlayMatches, Reactors,
         DecideExecuteCombatAction, DecideSubmitDieResult, DecideSelectEnemyFallback, ContinuationEvents;
  }

  lemma CombatForm(s: GameState, facts: Facts, command: Command) returns (parts: Parts)
    requires ValidParty(s.supply, s.supplyMaximum, s.characters)
    requires CommandGroupOf(command).CombatCommand? && DecideCombat(s, facts, command).Done?
    ensures Form(s, DecideCombat(s, facts, command).Get(), parts)
    ensures command.ExecuteCombatAction? || OnlyReactions(DecideCombat(s, facts, command).Get())
    ensures Activating(command) || StartsNobody(DecideCombat(s, facts, command).Get())
  {
    hide Form, ValidParty, OnlyReactions, StartsNobody, SpendsOneSlot, Slotless, Activates, Quiescent,
         DecideStartCombat, DecideChooseHeroActivation, DecideExecuteCombatAction, DecideSelectEnemyFallback,
         DecideWithdraw, DecideOpenReactionWindow, DecideResolveReaction, DecideAidDeathTest, DecideSubmitDieResult,
         Harmless, CommandGroupOf;
    var es := DecideCombat(s, facts, command).value;
    match command
    case ChooseHeroActivation(combat, actor) =>
      ChooseActivates(s, combat, actor);
      ActivatesForm(s, es);
      parts := Plain(es);
    case SelectEnemyFallback(combat, actor) =>
      SelectEnemyActivates(s, facts, combat, actor);
      ActivatesForm(s, es);
      parts := Plain(es);
    case ExecuteCombatAction(combat, action, spark) =>
      parts := ExecuteForm(s, facts, combat, action, spark);
      SpendingStartsNobody(es);
    case ResolveReaction(combat, window, actor, action) => parts :=
      ResolveReactionForm(s, facts, combat, window, actor, action);
    case AidDeathTestCommand(combat, check, aiding, resource) =>
      parts := AidForm(s, combat, check, aiding, resource);
      SlotlessOnlyReactions(es);
    case SubmitDieResult(check, nonce, face) =>
      parts := SubmitForm(s, facts, check, nonce, face);
      SlotlessOnlyReactions(es);
    case StartCombatCommand(_) =>
      CombatSingle(s, facts, command);
      OnePlain(s, es[0]);
      assert es == [es[0]];
      SlotlessOnlyReactions(es);
      parts := Plain(es);
    case WithdrawFromCombat(_) =>
      CombatSingle(s, facts, command);
      OnePlain(s, es[0]);
      assert es == [es[0]];
      SlotlessOnlyReactions(es);
      parts := Plain(es);
    case OpenReactionWindow(_, _, _) =>
      CombatSingle(s, facts, command);
      OnePlain(s, es[0]);
      assert es == [es[0]];
      SlotlessOnlyReactions(es);
      parts := Plain(es);
  }

  /** Whatever any command proposes has one of the eight forms. */
  lemma DecidedForm(s: GameState, facts: Facts, command: Command) returns (parts: Parts)
    requires ValidParty(s.supply, s.supplyMaximum, s.characters)
    requires Decide(s, facts, command).Done?
    ensures Form(s, Decide(s, facts, command).Get(), parts)
    ensures command.ExecuteCombatAction? || OnlyReactions(Decide(s, facts, command).Get())
    ensures Activating(command) || StartsNobody(Decide(s, facts, command).Get())
  {
    hide Form, OnlyReactions, StartsNobody, Slotless, CommandGroupOf, ValidParty, DecideHero, DecideCombat,
         DecideScene, Activating;
    match CommandGroupOf(command)
    case HeroCommand =>
      parts := HeroForm(s, facts, command);
      SlotlessOnlyReactions(Decide(s, facts, command).value);
    case CombatCommand => parts := CombatForm(s, facts, command);
    case SceneCommand =>
      parts := SceneForm(s, facts, command);
      SlotlessOnlyReactions(Decide(s, facts, command).value);
  }
}
