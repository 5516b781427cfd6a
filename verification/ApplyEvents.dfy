/** The reducer as the engine runs it: a working copy of the state, changed field by field. */
module ApplyEvents {
  import opened Common
  import opened ZoneGraph
  import opened State
  import opened Validity
  import opened Events
  import opened Reducer

  predicate IsCheckEvent(e: Event) {
    e.CheckResolvedPhysical? || e.PhysicalRollRequested? || e.PhysicalRollCancelled?
  }

  /** The check events. `failed` is the event failure; the working copy is then discarded. */
  method ApplyCheckEvent(state: GameState, e: Event) returns (failed: bool, next: GameState)
    requires IsCheckEvent(e)
    ensures Step(state, e) == if failed then Refused else Done(next)
  {
    next := state;
    match e {
      case CheckResolvedPhysical(id, _) =>
        var found := FindPending(next, id);
        if found.None? { return true, state; }
        var pending := next.pendingChecks[found.value];
        next := next.(pendingChecks := WithoutCheck(next.pendingChecks, id));
        if next.combat.Some? {
          var combat := next.combat.value;
          if combat.pendingDeath == Some(id) {
            combat := combat.(pendingDeath := None);
            combat := combat.(status := Active);
          } else if combat.pendingAction == Some(id) && pending.continuation.Some?
            && pending.continuation.value.CombatAction? {
            combat := combat.(pendingAction := None);
            combat := combat.(status := Active);
          }
          next := next.(combat := Some(combat));
        }
      case PhysicalRollRequested(id, nonce, d) =>
        if id in CheckIds(next.pendingChecks) || nonce in Nonces(next.pendingChecks) { return true, state; }
        next := next.(pendingChecks := next.pendingChecks + [PendingCheck(id, nonce, d, None)]);
        if d.reason.PermanentDeath? && next.combat.Some? {
          var combat := next.combat.value.(status := AwaitingDeathTest);
          combat := combat.(pendingDeath := Some(id));
          next := next.(combat := Some(combat));
        }
      case PhysicalRollCancelled(id) =>
        var found := FindPending(next, id);
        if found.None? { return true, state; }
        var pending := next.pendingChecks[found.value];
        if pending.continuation.Some? && pending.continuation.value.ForRitual? {
          var ritual := FindRitual(next, pending.continuation.value.ritualId);
          if ritual.Some? && next.rituals[ritual.value].status.AwaitingResolution? {
            next := WithRitual(next, ritual.value, next.rituals[ritual.value].(status := RitualReady));
          }
        }
        if next.combat.Some? && next.combat.value.pendingDeath == Some(id) {
          next := WithCombat(next, next.combat.value.(pendingDeath := None, status := Active));
        }
        if next.combat.Some? && next.combat.value.pendingAction == Some(id) {
          next := WithCombat(next, next.combat.value.(pendingAction := None, status := Active));
        }
        next := next.(pendingChecks := WithoutCheck(next.pendingChecks, id));
    }
    failed := false;
  }

  /** The loop of a costly rest over the resting heroes. */
  method RestHeroes(state: GameState, ids: seq<Id>) returns (failed: bool, next: GameState)
    ensures failed <==> RestEach(state.characters, ids).Refused?
    ensures !failed ==> next == state.(characters := RestEach(state.characters, ids).value)
  {
    next := state;
    assert ids[0..] == ids;
    for k := 0 to |ids|
      invariant next == state.(characters := next.characters)
      invariant RestEach(next.characters, ids[k..]) == RestEach(state.characters, ids)
    {
      assert ids[k..][0] == ids[k] && ids[k..][1..] == ids[k + 1..];
      var found := FindCharacter(next, ids[k]);
      if found.None? { return true, state; }
      var hero := next.characters[found.value];
      hero := hero.(guard := hero.guardMaximum);
      hero := hero.(exertion := EXERTION_MAXIMUM);
      hero := hero.(sceneUses := ResetUses(hero.sceneUses));
      next := WithCharacter(next, found.value, hero);
    }
    failed := false;
  }

  /** The loop of a scene boundary over every hero. */
  method ResetHeroes(state: GameState, ids: seq<Id>, boundary: Boundary) returns (failed: bool, next: GameState)
    ensures failed <==> StartSceneEach(state.characters, ids, boundary).Refused?
    ensures !failed ==> next == state.(characters := StartSceneEach(state.characters, ids, boundary).value)
  {
    next := state;
    assert ids[0..] == ids;
    for k := 0 to |ids|
      invariant next == state.(characters := next.characters)
      invariant StartSceneEach(next.characters, ids[k..], boundary) == StartSceneEach(state.characters, ids, boundary)
    {
      assert ids[k..][0] == ids[k] && ids[k..][1..] == ids[k + 1..];
      var found := FindCharacter(next, ids[k]);
      if found.None? { return true, state; }
      var hero := next.characters[found.value];
      hero := hero.(guard := hero.guardMaximum);
      hero := hero.(exertion := EXERTION_MAXIMUM);
      hero := hero.(sceneUses := ResetUses(hero.sceneUses));
      hero := hero.(conditions := DropConditions(hero.conditions, UntilScene));
      if boundary.SessionStart? {
        hero := hero.(sparkAvailable := true);
        hero := hero.(sparkRecovered := false);
      }
      next := WithCharacter(next, found.value, hero);
    }
    failed := false;
  }

  /** The loop over the heroes at the end of a round: its conditions expire. */
  method ExpireRoundConditions(state: GameState) returns (next: GameState)
    ensures next == state.(characters := EndRoundConditions(state.characters))
  {
    next := state;
    for k := 0 to |state.characters|
      invariant next == state.(characters := next.characters)
      invariant |next.characters| == |state.characters|
      invariant next.characters[..k] == EndRoundConditions(state.characters)[..k]
      invariant next.characters[k..] == state.characters[k..]
    {
      var hero := next.characters[k];
      assert hero == state.characters[k..][0];
      hero := hero.(conditions := DropConditions(hero.conditions, UntilRound));
      next := WithCharacter(next, k, hero);
    }
    assert next.characters == next.characters[..|state.characters|];
    assert EndRoundConditions(state.characters)[..|state.characters|] == EndRoundConditions(state.characters);
  }

  /** The loop that lets the reinforcements waiting for an objective act. */
  method SummonReinforcements(ps: seq<Participant>) returns (next: seq<Participant>)
    ensures next == SummonAll(ps)
  {
    next := ps;
    for k := 0 to |ps|
      invariant |next| == |ps|
      invariant next[..k] == SummonAll(ps)[..k]
      invariant next[k..] == ps[k..]
    {
      assert next[k] == ps[k..][0];
      if next[k].role.Enemy? && next[k].role.trigger.ObjectiveTwo? {
        next := next[k := next[k].(activationSpent := false)];
      }
    }
  }

  predicate IsSlotEvent(e: Event) {
    e.ActionSlotSpent? || e.ActionSlotRestored?
  }

  /** Spending or restoring a slot, and with it the activation. */
  method ApplySlotEvent(state: GameState, e: Event) returns (failed: bool, next: GameState)
    requires IsSlotEvent(e)
    ensures Step(state, e) == if failed then Refused else Done(next)
  {
    next := state;
    if next.combat.None? { return true, state; }
    var combat := next.combat.value;
    match e {
      case ActionSlotSpent(id, actor, slot) =>
        if combat.combatId != id { return true, state; }
        var found := FindParticipant(combat, actor);
        if found.None? { return true, state; }
        var p := combat.participants[found.value];
        if !SlotAvailable(p, slot) || (!slot.ReactionSlot? && combat.activeActor != Some(actor)) { return true, state; }
        var wasSpent := p.activationSpent;
        match slot {
          case ActionSlot => p := p.(actionAvailable := false);
          case ManeuverSlot => p := p.(maneuverAvailable := false);
          case ReactionSlot => p := p.(reactionAvailable := false);
        }
        p := p.(activationSpent := !p.actionAvailable && !p.maneuverAvailable);
        combat := WithParticipant(combat, found.value, p);
        if !slot.ReactionSlot? && !wasSpent && p.activationSpent {
          combat := combat.(activeActor := None);
          combat := combat.(activeSide := if p.Side().HeroSide? then EnemySide else HeroSide);
        }
      case ActionSlotRestored(id, actor, slot) =>
        if combat.combatId != id { return true, state; }
        var found := FindParticipant(combat, actor);
        if found.None? { return true, state; }
        var p := combat.participants[found.value];
        match slot {
          case ActionSlot => p := p.(actionAvailable := true);
          case ManeuverSlot => p := p.(maneuverAvailable := true);
          case ReactionSlot => p := p.(reactionAvailable := true);
        }
        p := p.(activationSpent := false);
        combat := WithParticipant(combat, found.value, p);
        combat := combat.(activeActor := Some(actor));
        combat := combat.(activeSide := p.Side());
    }
    next := next.(combat := Some(combat));
    failed := false;
  }

  predicate IsTurnEvent(e: Event) {
    e.ActivationStarted? || e.RoundAdvanced? || e.ObjectiveAdvanced?
  }

  /** The activation, round and objective events. */
  method ApplyTurnEvent(state: GameState, e: Event) returns (failed: bool, next: GameState)
    requires IsTurnEvent(e)
    ensures Step(state, e) == if failed then Refused else Done(next)
  {
    next := state;
    if next.combat.None? { return true, state; }
    var combat := next.combat.value;
    match e {
      case ActivationStarted(id, actor, side) =>
        if combat.combatId != id || combat.activeActor.Some? { return true, state; }
        var found := FindParticipant(combat, actor);
        if found.None? { return true, state; }
        var p := combat.participants[found.value];
        if p.Side() != side || p.activationSpent { return true, state; }
        combat := combat.(activeSide := side);
        combat := combat.(activeActor := Some(actor));
      case RoundAdvanced(previous, current) =>
        if combat.round != previous || current != previous + 1 || !AllSpent(next, combat) { return true, state; }
        var refreshed := RefreshAll(combat);
        combat := combat.(round := current);
        combat := combat.(activeSide := HeroSide);
        combat := combat.(activeActor := None);
        combat := combat.(participants := refreshed);
        combat := combat.(window := None);
        next := ExpireRoundConditions(next);
      case ObjectiveAdvanced(id, previous, current, status) =>
        var found := IndexOf(ObjectiveIds(combat.objectives), id);
        if found.None? { return true, state; }
        var o := combat.objectives[found.value];
        if o.progress != previous || current < previous || current > o.threshold
          || (status.ObjectiveCompleted? != (current == o.threshold)) { return true, state; }
        o := o.(progress := current);
        o := o.(status := status);
        combat := combat.(objectives := combat.objectives[found.value := o]);
        if current >= 2 {
          var summoned := SummonReinforcements(combat.participants);
          combat := combat.(participants := summoned);
        }
    }
    next := next.(combat := Some(combat));
    failed := false;
  }

  predicate IsHarmEvent(e: Event) {
    e.ImpactApplied? || e.WoundMarked?
  }

  predicate IsFieldEvent(e: Event) {
    e.ActorMoved? || e.BossOverlayActivated?
  }

  lemma TooShort(held: seq<Wound>, marked: seq<Wound>)
    requires |marked| < |held|
    ensures !FillsOneSlot(held, marked)
  {
    var beyond := held[|marked|];
    assert forall k :: 0 <= k < |held| && k < |marked| && held[k] != marked[k] ==>
      !forall j :: 0 <= j < |held| && j != k ==> j < |marked| && held[j] == marked[j];
  }

  /** Whether exactly one wound slot differs, and was empty: the differences are counted slot by slot. */
  method OneEmptySlotFilled(held: seq<Wound>, marked: seq<Wound>) returns (ok: bool)
    ensures ok <==> FillsOneSlot(held, marked)
  {
    if |marked| < |held| {
      TooShort(held, marked);
      return false;
    }
    var differences, last := 0, 0;
    for k := 0 to |held|
      invariant differences == 0 ==> forall j :: 0 <= j < k ==> held[j] == marked[j]
      invariant differences > 0 ==> last < k && held[last] != marked[last]
      invariant differences == 1 ==> forall j :: 0 <= j < k && j != last ==> held[j] == marked[j]
      invariant differences > 1 ==> exists j :: 0 <= j < k && j != last && held[j] != marked[j]
    {
      if held[k] != marked[k] {
        differences, last := differences + 1, k;
      }
    }
    ok := differences == 1 && held[last].Empty?;
  }

  /** The loop that puts an activated overlay in the place of every one of its boss. */
  method ReplaceBossOverlays(os: seq<Overlay>, o: Overlay) returns (next: seq<Overlay>)
    ensures next == ReplaceOverlays(os, o)
  {
    next := [];
    for k := 0 to |os|
      invariant next == ReplaceOverlays(os, o)[..k]
    {
      next := next + [if os[k].actorId == o.actorId then o else os[k]];
    }
  }

  /** The loop that counts who stands in a zone. */
  method CountStanding(ps: seq<Participant>, zone: ZoneId) returns (n: nat)
    ensures n == Occupancy(ps, zone)
  {
    n := 0;
    assert ps[..|ps|] == ps;
    for k := 0 to |ps|
      invariant n == Occupancy(ps[..k], zone)
    {
      OccupancyAppend(ps[..k], ps[k], zone);
      assert ps[..k + 1] == ps[..k] + [ps[k]];
      if ps[k].zoneId == zone { n := n + 1; }
    }
  }

  /** Impacts and wounds. */
  method ApplyHarmEvent(state: GameState, e: Event) returns (failed: bool, next: GameState)
    requires IsHarmEvent(e)
    ensures Step(state, e) == if failed then Refused else Done(next)
  {
    hide IndexOf, FillsOneSlot;
    next := state;
    match e {
      case ImpactApplied(id, target, base, bonus, armor, applied, before, after) =>
        if next.combat.None? || next.combat.value.combatId != id { return true, state; }
        if applied != Max(1, base + bonus - armor) || after != Max(0, before - applied) { return true, state; }
        var hero := FindActor(next, target);
        if hero.Some? {
          var c := next.characters[hero.value];
          if c.guard != before { return true, state; }
          c := c.(guard := after);
          next := WithCharacter(next, hero.value, c);
        } else {
          var combat := next.combat.value;
          var found := FindParticipant(combat, target);
          if found.None? { return true, state; }
          var p := combat.participants[found.value];
          if !p.role.Enemy? || p.role.armor != armor || p.role.guard != before { return true, state; }
          p := p.(role := p.role.(guard := after));
          next := WithCombat(next, WithParticipant(combat, found.value, p));
        }
      case WoundMarked(id, wounds) =>
        var found := FindCharacter(next, id);
        if found.None? { return true, state; }
        var c := next.characters[found.value];
        var ok := OneEmptySlotFilled(c.wounds, wounds);
        if !ok { return true, state; }
        c := c.(wounds := wounds);
        next := WithCharacter(next, found.value, c);
    }
    failed := false;
  }

  /** Moves and overlays. */
  method ApplyFieldEvent(state: GameState, e: Event) returns (failed: bool, next: GameState)
    requires IsFieldEvent(e)
    ensures Step(state, e) == if failed then Refused else Done(next)
  {
    hide IndexOf, Occupancy, FillsOneSlot, ReplaceOverlays;
    next := state;
    match e {
      case ActorMoved(id, actor, from, to) =>
        if next.combat.None? || next.combat.value.combatId != id { return true, state; }
        var combat := next.combat.value;
        var found, destination := FindParticipant(combat, actor), FindZone(combat.zones, to);
        if found.None? || destination.None? { return true, state; }
        var occupancy := CountStanding(combat.participants, to);
        var p := combat.participants[found.value];
        if p.zoneId != from || occupancy >= combat.zones[destination.value].capacity { return true, state; }
        p := p.(zoneId := to);
        next := WithCombat(next, WithParticipant(combat, found.value, p));
      case BossOverlayActivated(o, before, after) =>
        if next.combat.None? { return true, state; }
        var combat := next.combat.value;
        var found := FindParticipant(combat, o.actorId);
        if found.None? { return true, state; }
        var p := combat.participants[found.value];
        if !p.role.Enemy? || !p.role.boss || p.role.guard != before
          || after > p.role.guardMaximum { return true, state; }
        p := p.(role := p.role.(guard := after));
        combat := WithParticipant(combat, found.value, p);
        var overlays := ReplaceBossOverlays(combat.overlays, o);
        combat := combat.(overlays := overlays);
        next := WithCombat(next, combat);
    }
    failed := false;
  }

  predicate IsResetEvent(e: Event) {
    e.CostlyRestCompleted? || e.SceneResourcesReset?
  }

  /** The two events that restore several heroes. */
  method ApplyResetEvent(state: GameState, e: Event) returns (failed: bool, next: GameState)
    requires IsResetEvent(e)
    ensures Step(state, e) == if failed then Refused else Done(next)
  {
    hide StepCheck, StepTurn, StepHarm, StepScene;
    next := state;
    match e {
      case CostlyRestCompleted(ids, spent) =>
        if spent != COSTLY_REST_SUPPLY_COST || next.supply < spent { return true, state; }
        failed, next := RestHeroes(next, ids);
        if failed { return; }
        next := next.(supply := next.supply - spent);
      case SceneResourcesReset(scene, nextScene, boundary, ids) =>
        if next.sceneId != scene || |ids| != |next.characters|
          || !(forall id :: id in CharacterIds(next.characters) ==> id in ids) { return true, state; }
        next := next.(sceneId := Some(nextScene));
        failed, next := ResetHeroes(next, ids, boundary);
        if failed { return; }
        if boundary.SessionStart? {
          next := next.(sessionNumber := next.sessionNumber + 1);
        }
    }
    failed := false;
  }

  /** `applyGameEvent`: change a copy, then validate the whole of it. */
  method ApplyGameEvent(state: GameState, e: Event) returns (r: Outcome<GameState>)
    ensures r == Apply(state, e)
  {
    hide Step, ValidGameState, IsCheckEvent, IsSlotEvent, IsTurnEvent, IsHarmEvent, IsFieldEvent, IsResetEvent;
    var failed, next := false, state;
    if IsCheckEvent(e) {
      failed, next := ApplyCheckEvent(state, e);
    } else if IsSlotEvent(e) {
      failed, next := ApplySlotEvent(state, e);
    } else if IsTurnEvent(e) {
      failed, next := ApplyTurnEvent(state, e);
    } else if IsHarmEvent(e) {
      failed, next := ApplyHarmEvent(state, e);
    } else if IsFieldEvent(e) {
      failed, next := ApplyFieldEvent(state, e);
    } else if IsResetEvent(e) {
      failed, next := ApplyResetEvent(state, e);
    } else {
      var stepped := Step(state, e);
      if stepped.Refused? { return Refused; }
      next := stepped.value;
    }
    if failed { return Refused; }
    var ok := ValidateGameState(next);
    return if ok then Done(next) else Refused;
  }

  /** The fold of a transaction's events, as the coordinator commits them. */
  method ApplyAll(state: GameState, events: seq<Event>) returns (r: Outcome<GameState>)
    ensures r == Fold(state, events)
  {
    hide Apply;
    var current := state;
    assert events[0..] == events;
    for k := 0 to |events|
      invariant Fold(current, events[k..]) == Fold(state, events)
    {
      assert events[k..][0] == events[k] && events[k..][1..] == events[k + 1..];
      var applied := ApplyGameEvent(current, events[k]);
      if applied.Refused? { return Refused; }
      current := applied.value;
    }
    return Done(current);
  }
}
