/** Which events leave wounds, deaths and pending checks alone, and what every decision proposes about them. */
module Vitals {
  import opened Common
  import opened State
  import opened Validity
  import opened Events
  import opened Reducer
  import opened CombatDecisions

  // ----- Events that leave vitals alone -----

  function WoundsOf(cs: seq<Character>): (ws: seq<seq<Wound>>)
    ensures |ws| == |cs|
    ensures forall i :: 0 <= i < |cs| ==> ws[i] == cs[i].wounds
  {
    seq(|cs|, i requires 0 <= i < |cs| => cs[i].wounds)
  }

  /** The same heroes with the same wounds, the same dead, the same pending checks. */
  predicate SameVitals(s: GameState, t: GameState) {
    && CharacterIds(t.characters) == CharacterIds(s.characters)
    && WoundsOf(t.characters) == WoundsOf(s.characters)
    && t.deaths == s.deaths
    && t.pendingChecks == s.pendingChecks
  }

  /** A combat as it must start: nobody active, nothing awaited, every participant with fresh slots. */
  predicate FreshCombat(c: Combat) {
    && c.pendingDeath.None? && c.pendingAction.None? && c.activeActor.None? && c.round == 1
    && forall i :: 0 <= i < |c.participants| ==> FreshParticipant(c.participants[i])
  }

  /** Events that touch neither wounds, nor deaths, nor the pending checks; a combat they start is fresh, and they
      restore no reaction slot. */
  predicate Harmless(e: Event) {
    match e
    case CharacterMaterialized(_) => false
    case WoundMarked(_, _) => false
    case HeroStabilized(_, _) => false
    case CharacterDied(_) => false
    case CheckResolvedPhysical(_, _) => false
    case PhysicalRollRequested(_, _, _) => false
    case PhysicalRollCancelled(_) => false
    case CombatActionPending(_, _, _, _) => false
    case DeathTestPending(_, _, _) => false
    case ChallengeCheckPending(_, _) => false
    case SocialCheckPending(_, _, _, _) => false
    case RitualCheckPending(_, _) => false
    case DeathTestAidApplied(_, _) => false
    case CombatStarted(c) => FreshCombat(c)
    case ActionSlotRestored(_, _, slot) => !slot.ReactionSlot?
    case _ => true
  }

  predicate AllHarmless(es: seq<Event>) {
    forall i :: 0 <= i < |es| ==> Harmless(es[i])
  }

  lemma {:induction false} RestKeepsVitals(cs: seq<Character>, ids: seq<Id>)
    ensures RestEach(cs, ids).Done? ==>
              CharacterIds(RestEach(cs, ids).value) == CharacterIds(cs)
                && WoundsOf(RestEach(cs, ids).value) == WoundsOf(cs)
    decreases |ids|
  {
    hide IndexOf, CharacterIds, WoundsOf;
    if ids != [] && ids[0] in CharacterIds(cs) {
      var i := IndexOf(CharacterIds(cs), ids[0]).value;
      RestKeepsVitals(cs[i := Rested(cs[i])], ids[1..]);
    }
  }

  lemma {:induction false} SceneKeepsVitals(cs: seq<Character>, ids: seq<Id>, boundary: Boundary)
    ensures StartSceneEach(cs, ids, boundary).Done? ==>
              CharacterIds(StartSceneEach(cs, ids, boundary).value) == CharacterIds(cs)
              && WoundsOf(StartSceneEach(cs, ids, boundary).value) == WoundsOf(cs)
    decreases |ids|
  {
    hide IndexOf, CharacterIds, WoundsOf;
    if ids != [] && ids[0] in CharacterIds(cs) {
      var i := IndexOf(CharacterIds(cs), ids[0]).value;
      SceneKeepsVitals(cs[i := SceneStarted(cs[i], boundary)], ids[1..], boundary);
    }
  }

  lemma HarmlessGroups(e: Event)
    requires Harmless(e)
    ensures !GroupOf(e).CheckEvent?
  {}

  lemma CompleteRestKeepsVitals(s: GameState, ids: seq<Id>, spent: int, t: GameState)
    requires CompleteRest(s, ids, spent) == Done(t)
    ensures SameVitals(s, t)
  {
    RestKeepsVitals(s.characters, ids);
  }

  lemma ResetSceneKeepsVitals(s: GameState, scene: Option<Id>, next: Id, boundary: Boundary, ids: seq<Id>, t: GameState)
    requires ResetScene(s, scene, next, boundary, ids) == Done(t)
    ensures SameVitals(s, t)
  {
    SceneKeepsVitals(s.characters, ids, boundary);
  }

  lemma HeroKeepsVitals(s: GameState, e: Event, t: GameState)
    requires Harmless(e) && GroupOf(e).HeroEvent? && StepHero(s, e) == Done(t)
    ensures SameVitals(s, t)
  {
    hide CompleteRest, ResetScene, UseIndex, IndexOf, NextCost, RankSlot, WithFeature, FindRitual, GroupOf;
    if e.CostlyRestCompleted? {
      CompleteRestKeepsVitals(s, e.characterIds, e.supplySpent, t);
    } else if e.SceneResourcesReset? {
      ResetSceneKeepsVitals(s, e.sceneId, e.nextSceneId, e.boundary, e.characterIds, t);
    }
  }

  lemma TurnKeepsVitals(s: GameState, e: Event, t: GameState)
    requires GroupOf(e).TurnEvent? && StepTurn(s, e) == Done(t)
    ensures SameVitals(s, t)
  {
    hide FindParticipant, FindZone, IndexOf, SlotAvailable, AfterSpend, Occupancy, AllSpent, SummonAll, RefreshAll,
         SetSlot, Opposite, DropConditions, WithParticipant;
  }

  lemma HarmKeepsVitals(s: GameState, e: Event, t: GameState)
    requires Harmless(e) && GroupOf(e).HarmEvent? && StepHarm(s, e) == Done(t)
    ensures SameVitals(s, t)
  {
    hide GroupOf, MarkWound;
  }

  lemma SceneEventKeepsVitals(s: GameState, e: Event, t: GameState)
    requires GroupOf(e).SceneEvent? && StepScene(s, e) == Done(t)
    ensures SameVitals(s, t)
  {
    hide FindSocial, FindRitual, FindChallenge, IndexOf, ValidChallenge, ValidSocial, ValidRitual, NextCost,
         FindCharacter, Contributed, WithoutId, StanceIndex, Steps, GroupOf;
  }

  lemma HarmlessKeepsVitals(s: GameState, e: Event, t: GameState)
    requires Harmless(e) && Apply(s, e) == Done(t)
    ensures SameVitals(s, t)
  {
    hide GroupOf, StepCheck, StepHero, StepTurn, StepHarm, StepScene, ValidGameState, Harmless;
    HarmlessGroups(e);
    match GroupOf(e)
    case AuditEvent =>
    case HeroEvent => HeroKeepsVitals(s, e, t);
    case TurnEvent => TurnKeepsVitals(s, e, t);
    case HarmEvent => HarmKeepsVitals(s, e, t);
    case SceneEvent => SceneEventKeepsVitals(s, e, t);
  }

  lemma {:induction false} HarmlessRunKeepsVitals(s: GameState, es: seq<Event>, t: GameState)
    requires AllHarmless(es) && Fold(s, es) == Done(t)
    ensures SameVitals(s, t)
    decreases |es|
  {
    hide Apply, Harmless;
    if es != [] {
      var u := Apply(s, es[0]).value;
      HarmlessKeepsVitals(s, es[0], u);
      HarmlessRunKeepsVitals(u, es[1..], t);
    }
  }
}
