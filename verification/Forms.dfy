/** The shape of everything a decision proposes, as far as vitals and undo are concerned. */
module Forms {
  import opened Common
  import opened State
  import opened Validity
  import opened Events
  import opened Reducer
  import opened Checks
  import opened Content
  import opened CombatDecisions
  import opened Subsystems
  import opened Commands
  import opened Vitals

  /** The one thing a transaction does to vitals, between harmless events. */
  datatype Core = NoCore | Roll | NewHero | Wounding | ThirdWound | Stabilizing | Dying | Aid

  /** The physical check a transaction resolves first, if any. */
  predicate CheckPart(s: GameState, check: seq<Event>) {
    check == [] || (|check| == 1 && check[0].CheckResolvedPhysical? && FindPending(s, check[0].checkId).Some?)
  }

  /** The hero whose death test is being resolved. */
  function Subject(s: GameState, check: seq<Event>): Option<Id> {
    match Resolving(s, check)
    case None => None
    case Some(i) =>
      var k := s.pendingChecks[i].continuation;
      if k.Some? && k.value.DeathTest? then Some(k.value.characterId) else None
  }

  /** Where the check that is resolved stands among the pending ones. */
  function Resolving(s: GameState, check: seq<Event>): (r: Option<nat>)
    ensures r.Some? ==> r.value < |s.pendingChecks|
  {
    if check == [] || !check[0].CheckResolvedPhysical? then None else FindPending(s, check[0].checkId)
  }

  /** The continuation event of one requested roll that is not a death test. */
  predicate PlainPending(e: Event, id: Id) {
    (e.CombatActionPending? || e.ChallengeCheckPending? || e.SocialCheckPending? || e.RitualCheckPending?)
      && e.checkId == id
  }

  predicate RollCore(core: seq<Event>) {
    && 1 <= |core| <= 2 && core[0].PhysicalRollRequested? && Honest(core[0].disclosure)
    && (|core| == 2 ==> PlainPending(core[1], core[0].checkId))
  }

  /** A combat action waits for its check only in an active fight, and only an ability has an impact. */
  predicate BeginsAction(s: GameState, core: seq<Event>) {
    |core| == 2 && core[1].CombatActionPending? ==>
      && s.combat.Some? && s.combat.value.status.Active?
      && (core[1].baseImpact.Some? ==> core[1].candidate.source.Some?)
  }

  /** A wound fills the first empty slot of a hero, which is slot `k`. */
  predicate Marks(s: GameState, hero: Id, wounds: seq<Wound>, k: nat) {
    match FindCharacter(s, hero)
    case None => false
    case Some(i) =>
      var held := s.characters[i].wounds;
      EmptySlot(held) == Some(k) && |wounds| == |held| && wounds[k].Filled? && wounds == held[k := wounds[k]]
  }

  /** The third wound comes with the death test of its hero. */
  predicate TestsDeath(core: seq<Event>) {
    && |core| == 3 && core[0].WoundMarked? && core[1].PhysicalRollRequested? && core[2].DeathTestPending?
    && Honest(core[1].disclosure)
    && core[2].checkId == core[1].checkId && core[2].characterId == core[0].characterId
  }

  predicate ClearsThirdWound(s: GameState, hero: Id, wounds: seq<Wound>) {
    match FindCharacter(s, hero)
    case None => false
    case Some(i) => |s.characters[i].wounds| == 3 && wounds == s.characters[i].wounds[2 := Empty]
  }

  predicate CorePart(s: GameState, check: seq<Event>, kind: Core, core: seq<Event>) {
    match kind
    case NoCore => core == [] && Subject(s, check).None?
    case Roll => RollCore(core) && BeginsAction(s, core) && check == []
    case NewHero => check == [] && |core| == 1 && core[0].CharacterMaterialized?
      && core[0].character.wounds == [Empty, Empty, Empty]
    case Wounding =>
      && Subject(s, check).None? && |core| == 1 && core[0].WoundMarked?
      && exists k :: 0 <= k < 2 && Marks(s, core[0].characterId, core[0].wounds, k)
    case ThirdWound => Subject(s, check).None? && TestsDeath(core) && Marks(s, core[0].characterId, core[0].wounds, 2)
    case Stabilizing =>
      && |core| == 1 && core[0].HeroStabilized? && Subject(s, check) == Some(core[0].characterId)
      && ClearsThirdWound(s, core[0].characterId, core[0].wounds)
    case Dying => |core| == 1 && core[0].CharacterDied? && Subject(s, check) == Some(core[0].characterId)
    case Aid => check == [] && |core| == 1 && core[0].DeathTestAidApplied? && Honest(core[0].disclosure)
  }

  /** A spent reaction always closes its window. */
  predicate ReactionCloses(es: seq<Event>) {
    (exists i :: 0 <= i < |es| && es[i].ActionSlotSpent? && es[i].spentSlot.ReactionSlot?) ==>
      ReactionWindowClosed in es
  }

  datatype Parts = Parts(check: seq<Event>, pre: seq<Event>, kind: Core, core: seq<Event>, post: seq<Event>)
  {
    function All(): seq<Event> {
      check + pre + core + post
    }
  }

  predicate Form(s: GameState, es: seq<Event>, parts: Parts) {
    && es == parts.All()
    && CheckPart(s, parts.check)
    && AllHarmless(parts.pre) && AllHarmless(parts.post)
    && CorePart(s, parts.check, parts.kind, parts.core)
    && (parts.kind.Roll? ==> parts.post == [])
    && ReactionCloses(es)
  }

  function Plain(es: seq<Event>): Parts {
    Parts([], es, NoCore, [], [])
  }

  lemma PlainForm(s: GameState, es: seq<Event>)
    requires AllHarmless(es) && ReactionCloses(es)
    ensures Form(s, es, Plain(es))
  {
    hide ReactionCloses, RollCore, TestsDeath, Honest, Marks;
    assert es == [] + es + [] + [];
  }

  /** The events that move the turn machine's slots and activations. */
  predicate SlotEvent(e: Event) {
    e.ActionSlotSpent? || e.ActionSlotRestored? || e.RoundAdvanced? || e.ActivationStarted?
  }

  /** No slot is spent, restored or refreshed among these events, and no activation starts. */
  predicate Slotless(es: seq<Event>) {
    forall i :: 0 <= i < |es| ==> !SlotEvent(es[i])
  }

  /** A transaction of one of the forms that spends no slot. */
  predicate StillForm(s: GameState, es: seq<Event>, parts: Parts) {
    Form(s, es, parts) && Slotless(es)
  }

  lemma PlainStill(s: GameState, es: seq<Event>)
    requires AllHarmless(es) && Slotless(es)
    ensures StillForm(s, es, Plain(es))
  {
    hide Form, AllHarmless;
    PlainForm(s, es);
  }

  lemma OnePlain(s: GameState, e: Event)
    requires Harmless(e) && !SlotEvent(e)
    ensures StillForm(s, [e], Plain([e]))
  {
    hide StillForm, Harmless, SlotEvent;
    PlainStill(s, [e]);
  }

  // ----- Heroes -----

  lemma SelectedAttempt(a: Attempt)
    requires SelectAttempt(a).Physical?
    ensures Honest(SelectAttempt(a).disclosure)
    ensures ValidRequest(a.request) ==> ValidDisclosure(SelectAttempt(a).disclosure)
  {
    hide SelectPhysicalRoll, Honest, ValidDisclosure, ValidRequest;
    SelectedIsHonest(a.request, if a.physicalReason.Some? then [a.physicalReason.value] else [], a.invokeSpark);
  }

  /** A request, after the Spark it may have cost, followed by at most one continuation. */
  lemma RequestForm(s: GameState, a: Attempt, checkId: Id, nonce: Id, next: seq<Event>) returns (parts: Parts)
    requires SelectAttempt(a).Physical?
    requires next == [] || (|next| == 1 && PlainPending(At(next, 0), checkId) && !At(next, 0).CombatActionPending?)
    ensures StillForm(s, RequestEvents(SelectAttempt(a), checkId, nonce) + next, parts)
  {
    hide SelectAttempt, Honest;
    SelectedAttempt(a);
    var selected := SelectAttempt(a);
    var spark := if selected.sparkSpent then [SparkSpent(selected.request.actorId)] else [];
    var request := PhysicalRollRequested(checkId, nonce, selected.disclosure);
    parts := Parts([], spark, Roll, [request] + next, []);
    var es := RequestEvents(selected, checkId, nonce) + next;
    assert es == parts.All();
    forall i | 0 <= i < |es| ensures !SlotEvent(es[i]) {
      if i >= |es| - |next| {
        assert es[i] == next[i - (|es| - |next|)];
      }
    }
  }

  lemma ResolveCheckForm(s: GameState, facts: Facts, a: Attempt) returns (parts: Parts)
    requires DecideResolveCheck(s, facts, a).Done?
    ensures StillForm(s, DecideResolveCheck(s, facts, a).Get(), parts)
  {
    hide StillForm, RequestEvents, SelectAttempt, Resolve, PlainPending, At;
    var es := DecideResolveCheck(s, facts, a).value;
    if SelectAttempt(a).Physical? && (a.physicalReason.Some? || a.invokeSpark) {
      parts := RequestForm(s, a, facts.pendingCheckId.value, facts.nonce.value, []);
      assert es + [] == es;
    } else {
      OnePlain(s, es[0]);
      parts := Plain(es);
    }
  }

  lemma MaterializeForm(s: GameState, facts: Facts, f: Foundation, selections: seq<Option<Ref>>) returns (parts: Parts)
    requires DecideMaterialize(s, facts, f, selections).Done?
    ensures StillForm(s, DecideMaterialize(s, facts, f, selections).Get(), parts)
  {
    hide OptionOf, Signatures, GuardGrants, ResolveGears, ValidCharacter, WholeFoundation, RollCore, TestsDeath,
         Honest;
    var es := DecideMaterialize(s, facts, f, selections).value;
    parts := Parts([], [], NewHero, es, []);
    assert es == [] + [] + es + [];
  }

  lemma MoveResourceForm(s: GameState, hero: Character, resource: Resource, delta: int)
    requires MoveResource(s, hero, resource, delta).Done?
    ensures StillForm(s, MoveResource(s, hero, resource, delta).Get(),
            Plain(MoveResource(s, hero, resource, delta).Get()))
  {
    hide StillForm;
    OnePlain(s, MoveResource(s, hero, resource, delta).value[0]);
  }

  lemma HeroForm(s: GameState, facts: Facts, command: Command) returns (parts: Parts)
    requires CommandGroupOf(command).HeroCommand? && DecideHero(s, facts, command).Done?
    ensures StillForm(s, DecideHero(s, facts, command).Get(), parts)
  {
    hide StillForm, DecideResolveCheck, DecideMaterialize, MoveResource, CommandGroupOf, EffectsOf, PrerequisiteMet,
         OwnedRefs, Harmless, FindCharacter, SlotEvent, DecideAdvanceRank;
    var es := DecideHero(s, facts, command).value;
    if command.ResolveCheck? {
      parts := ResolveCheckForm(s, facts, command.attempt);
    } else if command.MaterializeCharacter? {
      parts := MaterializeForm(s, facts, command.foundation, command.selections);
    } else if command.SpendResource? {
      MoveResourceForm(s, s.characters[FindCharacter(s, command.characterId).value], command.resource, -command.amount);
      parts := Plain(es);
    } else if command.RecoverResource? {
      MoveResourceForm(s, s.characters[FindCharacter(s, command.characterId).value], command.resource, command.amount);
      parts := Plain(es);
    } else {
      HeroSingle(s, facts, command);
      OnePlain(s, es[0]);
      assert es == [es[0]];
      parts := Plain(es);
    }
  }

  lemma HeroSingle(s: GameState, facts: Facts, command: Command)
    requires CommandGroupOf(command).HeroCommand? && DecideHero(s, facts, command).Done?
    requires !command.ResolveCheck? && !command.MaterializeCharacter? && !command.SpendResource?
             && !command.RecoverResource?
    ensures var es := DecideHero(s, facts, command).Get(); |es| == 1 && Harmless(At(es, 0)) && !SlotEvent(At(es, 0))
  {
    hide EffectsOf, PrerequisiteMet, OwnedRefs, DecideMaterialize, DecideResolveCheck, DecideRecoverResource,
         SelectAttempt;
  }

  // ----- Challenges, social scenes and rituals -----

  predicate Quiescent(es: seq<Event>) {
    AllHarmless(es) && Slotless(es)
  }

  lemma QuiescentJoin(xs: seq<Event>, ys: seq<Event>)
    requires Quiescent(xs) && Quiescent(ys)
    ensures Quiescent(xs + ys)
  {
    hide Harmless;
  }

  lemma ChallengeEventsQuiescent(s: GameState, facts: Facts, id: Id, degree: Degree)
    requires ChallengeEvents(s, facts, id, degree).Done?
    ensures Quiescent(ChallengeEvents(s, facts, id, degree).Get())
  {
    hide OutcomeFor, ChallengeContent, IndexOf, PinnedCatalog;
  }

  lemma SocialEventsQuiescent(s: GameState, npc: Id, requested: Stance, limit: Option<Id>, degree: Degree)
    requires SocialEvents(s, npc, requested, limit, degree).Done?
    ensures Quiescent(SocialEvents(s, npc, requested, limit, degree).Get())
  {
    hide IndexOf;
  }

  lemma {:induction false} AdjustmentsQuiescent(s: GameState, hero: Option<Character>, values: map<Resource, int>,
      es: seq<Effect>)
    requires AdjustmentEvents(s, hero, values, es).Done?
    ensures Quiescent(AdjustmentEvents(s, hero, values, es).Get())
    decreases |es|
  {
    if es != [] {
      hide Quiescent, Current, Maximum, AdjustmentOwner;
      var resource := es[0].resource;
      var current := if resource in values then values[resource] else Current(s, hero, resource);
      var next := Max(0, Min(Maximum(s, hero, resource), current + es[0].amount));
      AdjustmentsQuiescent(s, hero, values[resource := next], es[1..]);
      var first := ResourceChanged(AdjustmentOwner(es[0], hero), resource, current, next);
      SingleQuiescent(first);
      QuiescentJoin([first], AdjustmentEvents(s, hero, values[resource := next], es[1..]).value);
    }
  }

  lemma SingleQuiescent(e: Event)
    requires Harmless(e) && !SlotEvent(e)
    ensures Quiescent([e])
  {
    hide Harmless, SlotEvent;
  }

  lemma RitualEventsQuiescent(s: GameState, facts: Facts, id: Id, actor: Id, degree: Degree)
    requires RitualEvents(s, facts, id, actor, degree).Done?
    ensures Quiescent(RitualEvents(s, facts, id, actor, degree).Get())
  {
    hide Quiescent, AdjustmentEvents, ConsequenceFor, IndexOf, HeroOf, PinnedCatalog, ByReference, FindRitual,
         RitualOutcome;
    var r := s.rituals[FindRitual(s, id).value];
    var d := ByReference(facts.catalog.value.definitions, r.definition).value;
    var effects := ConsequenceFor(d.consequences, degree).value.effects;
    AdjustmentsQuiescent(s, HeroOf(s, actor), map[], effects);
    var resolved := RitualResolved(id, degree, RitualOutcome(degree));
    SingleQuiescent(resolved);
    QuiescentJoin(AdjustmentEvents(s, HeroOf(s, actor), map[], effects).value, [resolved]);
  }

  /** An attempt goes on as a request with its continuation, or as a simulated result with its effects. */
  lemma AttemptForm(s: GameState, facts: Facts, a: Attempt, pending: Event, effects: Decision) returns (parts: Parts)
    requires !AttemptCheck(s, facts, a).AttemptRefused?
    requires AttemptCheck(s, facts, a).Waiting? ==>
               PlainPending(pending, AttemptCheck(s, facts, a).checkId) && !pending.CombatActionPending?
    requires AttemptCheck(s, facts, a).ResolvedAtOnce? ==> effects.Done? && Quiescent(effects.Get())
    ensures AttemptCheck(s, facts, a).Waiting? ==> StillForm(s, AttemptCheck(s, facts, a).events + [pending], parts)
    ensures AttemptCheck(s, facts, a).ResolvedAtOnce? ==>
              StillForm(s, Both(Done([CheckResolvedSimulated(AttemptCheck(s, facts, a).result)]), effects).Get(), parts)
  {
    hide StillForm, Quiescent, CheckActorFits, SelectAttempt, RequestEvents, Resolve, PlainPending;
    if AttemptCheck(s, facts, a).Waiting? {
      parts := RequestForm(s, a, facts.pendingCheckId.value, facts.nonce.value, [pending]);
    } else {
      var first := CheckResolvedSimulated(AttemptCheck(s, facts, a).result);
      SingleQuiescent(first);
      QuiescentJoin([first], effects.value);
      QuiescentForm(s, [first] + effects.value);
      parts := Plain([first] + effects.value);
    }
  }

  lemma QuiescentForm(s: GameState, es: seq<Event>)
    requires Quiescent(es)
    ensures StillForm(s, es, Plain(es))
  {
    hide StillForm, AllHarmless, Slotless;
    PlainStill(s, es);
  }

  lemma AdvanceChallengeForm(s: GameState, facts: Facts, id: Id, a: Attempt) returns (parts: Parts)
    requires DecideAdvanceChallenge(s, facts, id, a).Done?
    ensures StillForm(s, DecideAdvanceChallenge(s, facts, id, a).Get(), parts)
  {
    hide StillForm, Quiescent, AttemptCheck, ChallengeEvents, ChallengePending, IndexOf, PinnedCatalog;
    var attempted := AttemptCheck(s, facts, a);
    var check := if attempted.Waiting? then attempted.checkId else 0;
    var effects := if attempted.ResolvedAtOnce? then ChallengeEvents(s, facts, id, attempted.result.finalDegree)
      else Refused;
    if attempted.ResolvedAtOnce? {
      ChallengeEventsQuiescent(s, facts, id, attempted.result.finalDegree);
    }
    parts := AttemptForm(s, facts, a, ChallengeCheckPending(id, check), effects);
  }

  lemma SocialShiftForm(s: GameState, facts: Facts, npc: Id, a: Attempt, requested: Stance, limit: Option<Id>)
      returns (parts: Parts)
    requires DecideAttemptSocialShift(s, facts, npc, a, requested, limit).Done?
    ensures StillForm(s, DecideAttemptSocialShift(s, facts, npc, a, requested, limit).Get(), parts)
  {
    hide StillForm, Quiescent, AttemptCheck, SocialEvents, SocialPending, IndexOf;
    var attempted := AttemptCheck(s, facts, a);
    var check := if attempted.Waiting? then attempted.checkId else 0;
    var effects := if attempted.ResolvedAtOnce?
      then SocialEvents(s, npc, requested, limit, attempted.result.finalDegree) else Refused;
    if attempted.ResolvedAtOnce? {
      SocialEventsQuiescent(s, npc, requested, limit, attempted.result.finalDegree);
    }
    parts := AttemptForm(s, facts, a, SocialCheckPending(npc, check, requested, limit), effects);
  }

  lemma ResolveRitualForm(s: GameState, facts: Facts, id: Id, a: Attempt) returns (parts: Parts)
    requires DecideResolveRitual(s, facts, id, a).Done?
    ensures StillForm(s, DecideResolveRitual(s, facts, id, a).Get(), parts)
  {
    hide StillForm, Quiescent, AttemptCheck, RitualEvents, IndexOf;
    var attempted := AttemptCheck(s, facts, a);
    var check := if attempted.Waiting? then attempted.checkId else 0;
    var effects := if attempted.ResolvedAtOnce?
      then RitualEvents(s, facts, id, attempted.result.actorId, attempted.result.finalDegree) else Refused;
    if attempted.ResolvedAtOnce? {
      RitualEventsQuiescent(s, facts, id, attempted.result.actorId, attempted.result.finalDegree);
    }
    parts := AttemptForm(s, facts, a, RitualCheckPending(id, check), effects);
  }

  lemma SceneSingle(s: GameState, facts: Facts, command: Command)
    requires CommandGroupOf(command).SceneCommand? && DecideScene(s, facts, command).Done?
    requires !command.AdvanceChallenge? && !command.AttemptSocialShift? && !command.ResolveRitualCommand?
             && !command.ContributeRitual?
    ensures var es := DecideScene(s, facts, command).Get(); |es| == 1 && Harmless(At(es, 0)) && !SlotEvent(At(es, 0))
  {
    hide ChallengeContent, ValidChallenge, ValidSocial, CostsPayable, RequirementMet, IndexOf, PinnedCatalog,
         ByReference, CommandGroupOf, DecideAttemptSocialShift, AttemptCheck;
  }

  lemma ContributeQuiescent(s: GameState, id: Id, character: Id, index: int)
    requires DecideContributeRitual(s, id, character, index).Done?
    ensures Quiescent(DecideContributeRitual(s, id, character, index).Get())
  {
    hide ReadySlot, IndexOf;
  }

  lemma SceneForm(s: GameState, facts: Facts, command: Command) returns (parts: Parts)
    requires CommandGroupOf(command).SceneCommand? && DecideScene(s, facts, command).Done?
    ensures StillForm(s, DecideScene(s, facts, command).Get(), parts)
  {
    hide StillForm, CommandGroupOf, DecideAdvanceChallenge, DecideAttemptSocialShift, DecideResolveRitual,
         DecideContributeRitual, Quiescent, DecideStartChallenge, DecideEstablishSocial, DecideCreateLeverage,
         DecideSpendLeverage, DecideStartRitual, DecideInterruptRitual, Harmless, SlotEvent;
    var es := DecideScene(s, facts, command).value;
    if command.AdvanceChallenge? {
      parts := AdvanceChallengeForm(s, facts, command.challengeId, command.attempt);
    } else if command.AttemptSocialShift? {
      parts := SocialShiftForm(s, facts, command.npcActorId, command.attempt, command.requestedStance, command.limitId);
    } else if command.ResolveRitualCommand? {
      parts := ResolveRitualForm(s, facts, command.ritualId, command.attempt);
    } else if command.ContributeRitual? {
      ContributeQuiescent(s, command.ritualId, command.characterId, command.paidIndex);
      QuiescentForm(s, es);
      parts := Plain(es);
    } else {
      SceneSingle(s, facts, command);
      OnePlain(s, es[0]);
      assert es == [es[0]];
      parts := Plain(es);
    }
  }
}
