/** The turn machine over whole runs: spent activations, free slots, rounds, and who acts next. */
module TurnOrder {
  import opened Common
  import opened State
  import opened Validity
  import opened Events
  import opened Reducer
  import opened Compensation
  import opened Undo
  import opened Content
  import opened CombatRules
  import opened CombatDecisions
  import opened Commands
  import opened Vitals
  import opened Forms
  import opened CombatForms
  import opened Sessions
  import Checks
  import Reactions
  import opened Applies

  // ----- A spent activation means both slots are gone -----

  /** A reinforcement whose spent mark the trigger still owns: one that waits for the second round, or for an
      objective. */
  predicate Waiting(round: int, p: Participant) {
    p.role.Enemy? && (p.role.trigger.ObjectiveTwo? || (p.role.trigger.RoundTwo? && round == 1))
  }

  predicate Matched(round: int, p: Participant) {
    Waiting(round, p) || (p.activationSpent <==> SlotsGone(p))
  }

  predicate AllMatched(round: int, ps: seq<Participant>) {
    forall i :: 0 <= i < |ps| ==> Matched(round, ps[i])
  }

  predicate SlotsMatch(s: GameState) {
    s.combat.Some? ==> s.combat.value.round >= 1 && AllMatched(s.combat.value.round, s.combat.value.participants)
  }

  /** Combats start fresh, and no reaction slot is restored. */
  predicate Steady(e: Event) {
    (e.CombatStarted? ==> FreshCombat(e.combat)) && (e.ActionSlotRestored? ==> !e.spentSlot.ReactionSlot?)
  }

  lemma OneMatched(round: int, ps: seq<Participant>, i: nat, p: Participant)
    requires AllMatched(round, ps) && i < |ps| && Matched(round, p)
    ensures AllMatched(round, ps[i := p])
  {
    hide Matched;
  }

  lemma SpendMatches(round: int, p: Participant, slot: Slot)
    ensures Matched(round, AfterSpend(p, slot))
  {}

  lemma RefreshedMatches(c: Combat, round: int)
    requires round >= 2
    ensures AllMatched(round, RefreshAll(c))
  {}

  lemma SummonedMatches(round: int, ps: seq<Participant>)
    requires AllMatched(round, ps)
    ensures AllMatched(round, SummonAll(ps))
  {}

  lemma FreshMatches(c: Combat)
    requires FreshCombat(c)
    ensures c.round == 1 && AllMatched(c.round, c.participants)
  {}

  lemma TurnKeepsSlots(s: GameState, e: Event, t: GameState)
    requires GroupOf(e).TurnEvent? && StepTurn(s, e) == Done(t) && Steady(e) && SlotsMatch(s)
    ensures SlotsMatch(t)
  {
    hide FindParticipant, FindZone, IndexOf, Occupancy, AllSpent, SummonAll, RefreshAll, AfterSpend, FreshCombat,
         DropConditions, EndRoundConditions, AllMatched, SlotAvailable, GroupOf;
    if e.CombatStarted? {
      FreshMatches(e.combat);
    } else if s.combat.Some? {
      var c := s.combat.value;
      if e.ActionSlotSpent? {
        var i := FindParticipant(c, e.actorId).value;
        SpendMatches(c.round, c.participants[i], e.spentSlot);
        OneMatched(c.round, c.participants, i, AfterSpend(c.participants[i], e.spentSlot));
      } else if e.ActionSlotRestored? {
        var i := FindParticipant(c, e.actorId).value;
        OneMatched(c.round, c.participants, i, SetSlot(c.participants[i], e.spentSlot,
          true).(activationSpent := false));
      } else if e.ActorMoved? {
        var i := FindParticipant(c, e.actorId).value;
        MatchedAt(c.round, c.participants, i);
        OneMatched(c.round, c.participants, i, c.participants[i].(zoneId := e.toZone));
      } else if e.ReactionRestored? {
        var i := FindParticipant(c, e.actorId).value;
        MatchedAt(c.round, c.participants, i);
        OneMatched(c.round, c.participants, i, c.participants[i].(reactionAvailable := true));
      } else if e.RoundAdvanced? {
        RefreshedMatches(c, e.currentRound);
      } else if e.ObjectiveAdvanced? {
        SummonedMatches(c.round, c.participants);
      }
    }
  }

  lemma MatchedAt(round: int, ps: seq<Participant>, i: nat)
    requires AllMatched(round, ps) && i < |ps|
    ensures Matched(round, ps[i])
  {}

  lemma HeroKeepsCombat(s: GameState, e: Event, t: GameState)
    requires GroupOf(e).HeroEvent? && StepHero(s, e) == Done(t)
    ensures t.combat == s.combat
  {
    hide RestEach, StartSceneEach, UseIndex, IndexOf, NextCost, RankSlot, WithFeature, FindRitual, FindCharacter,
         FindActor, GroupOf;
  }

  lemma SceneKeepsCombat(s: GameState, e: Event, t: GameState)
    requires GroupOf(e).SceneEvent? && StepScene(s, e) == Done(t)
    ensures t.combat == s.combat
  {
    hide FindSocial, FindRitual, FindChallenge, IndexOf, ValidChallenge, ValidSocial, ValidRitual, NextCost,
         FindCharacter, Contributed, GroupOf;
  }

  lemma CheckKeepsTurns(s: GameState, e: Event, t: GameState)
    requires GroupOf(e).CheckEvent? && StepCheck(s, e) == Done(t)
    ensures SameTurns(s, t)
  {
    hide FindSocial, FindRitual, FindChallenge, FindPending, IndexOf, WithoutCheck;
  }

  /** The fight's turn data: everything but statuses, Guard and overlays. */
  predicate SameTurns(s: GameState, t: GameState) {
    if s.combat.None? then t.combat.None?
    else
      && t.combat.Some? && t.combat.value.round == s.combat.value.round
      && t.combat.value.activeSide == s.combat.value.activeSide
        && t.combat.value.activeActor == s.combat.value.activeActor
      && SameSlots(s.combat.value.participants, t.combat.value.participants)
  }

  predicate SameSlots(ps: seq<Participant>, qs: seq<Participant>) {
    |qs| == |ps| && forall i :: 0 <= i < |ps| ==> SameSlotsOf(ps[i], qs[i])
  }

  predicate SameSlotsOf(p: Participant, q: Participant) {
    && q.actorId == p.actorId && q.actionAvailable == p.actionAvailable && q.maneuverAvailable == p.maneuverAvailable
    && q.activationSpent == p.activationSpent && SameTrigger(p.role, q.role)
  }

  predicate SameTrigger(r: Role, q: Role) {
    (r.Hero? && q.Hero?) || (r.Enemy? && q.Enemy? && q.trigger == r.trigger)
  }

  lemma HarmKeepsTurns(s: GameState, e: Event, t: GameState)
    requires GroupOf(e).HarmEvent? && StepHarm(s, e) == Done(t)
    ensures SameTurns(s, t)
  {
    hide FindParticipant, FindActor, FindCharacter, IndexOf, FillsOneSlot, ReplaceOverlays, ImpactOf, GroupOf;
  }

  lemma SameTurnsMatch(s: GameState, t: GameState)
    requires SameTurns(s, t) && SlotsMatch(s)
    ensures SlotsMatch(t)
  {
    if s.combat.Some? {
      forall i | 0 <= i < |t.combat.value.participants| ensures Matched(t.combat.value.round,
        t.combat.value.participants[i]) {
        assert SameSlotsOf(s.combat.value.participants[i], t.combat.value.participants[i]);
        assert Matched(s.combat.value.round, s.combat.value.participants[i]);
      }
    }
  }

  lemma ApplyKeepsSlots(s: GameState, e: Event, t: GameState)
    requires Apply(s, e) == Done(t) && Steady(e) && SlotsMatch(s)
    ensures SlotsMatch(t)
  {
    hide GroupOf, StepCheck, StepHero, StepTurn, StepHarm, StepScene, ValidGameState, AllMatched, Steady, SameTurns;
    match GroupOf(e)
    case AuditEvent =>
    case CheckEvent =>
      CheckKeepsTurns(s, e, t);
      SameTurnsMatch(s, t);
    case HeroEvent => HeroKeepsCombat(s, e, t);
    case TurnEvent => TurnKeepsSlots(s, e, t);
    case HarmEvent =>
      HarmKeepsTurns(s, e, t);
      SameTurnsMatch(s, t);
    case SceneEvent => SceneKeepsCombat(s, e, t);
  }

  predicate AllSteady(es: seq<Event>) {
    forall i :: 0 <= i < |es| ==> Steady(es[i])
  }

  lemma {:induction false} FoldKeepsSlots(s: GameState, es: seq<Event>, t: GameState)
    requires Fold(s, es) == Done(t) && AllSteady(es) && SlotsMatch(s)
    ensures SlotsMatch(t)
    decreases |es|
  {
    hide Apply, SlotsMatch, Steady;
    if es != [] {
      ApplyKeepsSlots(s, es[0], Apply(s, es[0]).value);
      FoldKeepsSlots(Apply(s, es[0]).value, es[1..], t);
    }
  }

  // ----- In every run -----

  lemma HarmlessIsSteady(e: Event)
    requires Harmless(e)
    ensures Steady(e)
  {
    hide FreshCombat;
  }

  lemma CoreIsSteady(s: GameState, parts: Parts, e: Event)
    requires CheckPart(s, parts.check) && CorePart(s, parts.check, parts.kind, parts.core)
    requires e in parts.check || e in parts.core
    ensures Steady(e)
  {
    hide Marks, Subject, ClearsThirdWound, Checks.Honest;
  }

  lemma FormIsSteady(s: GameState, es: seq<Event>, parts: Parts)
    requires Form(s, es, parts)
    ensures AllSteady(es)
  {
    hide Harmless, Steady, CheckPart, CorePart, ReactionCloses;
    forall i | 0 <= i < |es| ensures Steady(es[i]) {
      if es[i] in parts.check || es[i] in parts.core {
        CoreIsSteady(s, parts, es[i]);
      } else {
        assert es[i] in parts.pre || es[i] in parts.post;
        HarmlessIsSteady(es[i]);
      }
    }
  }

  lemma HarmlessAreSteady(es: seq<Event>)
    requires AllHarmless(es)
    ensures AllSteady(es)
  {
    hide Harmless, Steady;
    forall i | 0 <= i < |es| ensures Steady(es[i]) {
      HarmlessIsSteady(es[i]);
    }
  }

  /** What undo plans for a decided transaction restores no reaction slot. */
  lemma PlanIsSteady(s: GameState, es: seq<Event>)
    requires HasForm(s, es) && Plan(es).Planned?
    ensures AllSteady(Plan(es).Back())
  {
    hide Form, InvertAll, AllHarmless, AllSimple, RollCore, RollTail, Harmless, FreshCombat;
    var parts :| Form(s, es, parts);
    var pre, tail := UndoableShape(s, es, parts);
    InversesAreHarmless(pre);
    HarmlessAreSteady(InvertAll(pre).events);
    if tail == [] {
      assert es == pre;
    } else {
      UndoesTail(pre, tail);
      RollShape(tail);
      TailInverse(pre, tail);
    }
  }

  lemma RollShape(tail: seq<Event>)
    requires RollTail(tail)
    ensures tail != [] && tail[0].PhysicalRollRequested?
  {
    hide PendingFor;
  }

  lemma {:induction false} SlotsInEveryRun(x: Session, actions: seq<Action>)
    requires Kept(x) && SlotsMatch(x.state)
    ensures SlotsMatch(Run(x, actions).state)
    decreases |actions|
  {
    hide Next, Kept, SlotsMatch;
    if actions != [] {
      var n := |actions| - 1;
      SlotsInEveryRun(x, actions[..n]);
      RunKeeps(x, actions[..n]);
      NextKeepsSlots(Run(x, actions[..n]), actions[n]);
    }
  }

  lemma NextKeepsSlots(x: Session, a: Action)
    requires Kept(x) && SlotsMatch(x.state)
    ensures SlotsMatch(Next(x, a).state)
  {
    hide StateKept, Decide, Form, Apply, SlotsMatch, Plan, AllSteady, Fold, ValidGameState, HasForm, ValidParty,
         OnlyReactions, Activating, StartsNobody;
    match a
    case Submit(facts, command) =>
      if Decide(x.state, facts, command).Done? && Fold(x.state, Decide(x.state, facts, command).value).Done? {
        var es := Decide(x.state, facts, command).value;
        StateIsValid(x.state);
        PartyIsValid(x.state);
        var parts := DecidedForm(x.state, facts, command);
        FormIsSteady(x.state, es, parts);
        FoldKeepsSlots(x.state, es, Fold(x.state, es).value);
      }
    case UndoLatest =>
      if x.latest.Some? && Plan(x.latest.value.events).Planned?
        && Fold(x.state, Plan(x.latest.value.events).events).Done? {
        PlanIsSteady(x.latest.value.before, x.latest.value.events);
        FoldKeepsSlots(x.state, Plan(x.latest.value.events).events,
          Fold(x.state, Plan(x.latest.value.events).events).value);
      }
  }

  /** In every state a campaign can reach, undo included: except for reinforcements that still wait for the second
      round or for an objective, a participant's activation is spent exactly when its action and its maneuver are
      both gone. */
  lemma ActivationsInEveryRun(manifest: nat, actions: seq<Action>, c: Combat, p: Participant)
    requires Run(NewCampaign(manifest), actions).state.combat == Some(c) && p in c.participants
    ensures Waiting(c.round, p) || (p.activationSpent <==> !p.actionAvailable && !p.maneuverAvailable)
  {
    hide Run, Kept, Waiting;
    NewCampaignKept(manifest);
    SlotsInEveryRun(NewCampaign(manifest), actions);
    var i :| 0 <= i < |c.participants| && c.participants[i] == p;
    assert Matched(c.round, c.participants[i]);
  }

  // ----- Free slots -----

  function Free(p: Participant): nat {
    (if p.actionAvailable then 1 else 0) + (if p.maneuverAvailable then 1 else 0)
  }

  function FreeSlots(ps: seq<Participant>): nat {
    if ps == [] then 0 else Free(ps[0]) + FreeSlots(ps[1..])
  }

  lemma {:induction false} FreeBound(ps: seq<Participant>)
    ensures FreeSlots(ps) <= 2 * |ps|
  {
    if ps != [] {
      FreeBound(ps[1..]);
    }
  }

  lemma {:induction false} FreeUpdate(ps: seq<Participant>, i: nat, p: Participant)
    requires i < |ps|
    ensures FreeSlots(ps[i := p]) == FreeSlots(ps) - Free(ps[i]) + Free(p)
  {
    var qs := ps[i := p];
    if i > 0 {
      assert qs[1..] == ps[1..][i - 1 := p];
      FreeUpdate(ps[1..], i - 1, p);
    } else {
      assert qs[1..] == ps[1..];
    }
  }

  lemma {:induction false} FreeSame(ps: seq<Participant>, qs: seq<Participant>)
    requires |qs| == |ps| && forall i :: 0 <= i < |ps| ==> Free(qs[i]) == Free(ps[i])
    ensures FreeSlots(qs) == FreeSlots(ps)
  {
    hide Free;
    if ps != [] {
      FreeSame(ps[1..], qs[1..]);
    }
  }

  /** Where a fight stands: its round and how many slots its participants have left. */
  datatype Progress = Progress(round: int, free: nat, size: nat)

  function ProgressOf(s: GameState): Progress {
    match s.combat
    case None => Progress(0, 0, 0)
    case Some(c) => Progress(c.round, FreeSlots(c.participants), |c.participants|)
  }

  /** The event spends an action or a maneuver. */
  predicate SpendsSlot(e: Event) {
    e.ActionSlotSpent? && !e.spentSlot.ReactionSlot?
  }

  lemma SameTurnsProgress(s: GameState, t: GameState)
    requires SameTurns(s, t) && s.combat.Some?
    ensures ProgressOf(t) == ProgressOf(s)
  {
    var ps, qs := s.combat.value.participants, t.combat.value.participants;
    forall i | 0 <= i < |ps| ensures Free(qs[i]) == Free(ps[i]) {
      assert SameSlotsOf(ps[i], qs[i]);
    }
    FreeSame(ps, qs);
  }

  lemma TurnProgress(s: GameState, e: Event, t: GameState)
    requires GroupOf(e).TurnEvent? && StepTurn(s, e) == Done(t) && s.combat.Some? && !e.ActionSlotRestored?
             && !e.ActionSlotSpent?
    ensures t.combat.Some?
    ensures !e.RoundAdvanced? ==> ProgressOf(t) == ProgressOf(s)
    ensures e.RoundAdvanced? ==>
            t.combat.Get().round == s.combat.Get().round + 1
            && |t.combat.Get().participants| == |s.combat.Get().participants|
  {
    hide FindParticipant, FindZone, IndexOf, Occupancy, AllSpent, AfterSpend, EndRoundConditions, FreeSlots, GroupOf,
         SpendSlot;
    var c := s.combat.value;
    if e.ActorMoved? {
      var i := FindParticipant(c, e.actorId).value;
      FreeUpdate(c.participants, i, c.participants[i].(zoneId := e.toZone));
    } else if e.ReactionRestored? {
      var i := FindParticipant(c, e.actorId).value;
      FreeUpdate(c.participants, i, c.participants[i].(reactionAvailable := true));
    } else if e.ObjectiveAdvanced? {
      FreeSame(c.participants, SummonAll(c.participants));
    }
  }

  lemma SpendProgress(s: GameState, combatId: Id, actor: Id, slot: Slot, t: GameState)
    requires SpendSlot(s, combatId, actor, slot) == Done(t)
    ensures s.combat.Some? && t.combat.Some?
    ensures ProgressOf(t) == ProgressOf(s).(free := ProgressOf(t).free)
    ensures ProgressOf(t).free == ProgressOf(s).free - (if slot.ReactionSlot? then 0 else 1)
  {
    hide FindParticipant, IndexOf, FreeSlots;
    var c := s.combat.value;
    var i := FindParticipant(c, actor).value;
    FreeUpdate(c.participants, i, AfterSpend(c.participants[i], slot));
  }

  /** One event's effect on the progress of a fight. */
  lemma ApplyProgress(s: GameState, e: Event, t: GameState)
    requires Apply(s, e) == Done(t) && s.combat.Some? && !e.ActionSlotRestored?
    ensures t.combat.Some? && ProgressOf(t).size == ProgressOf(s).size
    ensures SpendsSlot(e) ==>
            ProgressOf(t) == ProgressOf(s).(free := ProgressOf(t).free) && ProgressOf(t).free == ProgressOf(s).free - 1
    ensures e.RoundAdvanced? ==> ProgressOf(t).round == ProgressOf(s).round + 1 && !SpendsSlot(e)
    ensures !e.RoundAdvanced? && !SpendsSlot(e) ==> ProgressOf(t) == ProgressOf(s)
  {
    hide GroupOf, StepCheck, StepHero, StepTurn, StepHarm, StepScene, ValidGameState, FreeSlots, ProgressOf,
         SpendSlot, SameTurns;
    TurnEventGroups(e);
    match GroupOf(e)
    case AuditEvent =>
    case CheckEvent =>
      CheckKeepsTurns(s, e, t);
      TurnsKeepCombat(s, t);
      SameTurnsProgress(s, t);
    case HeroEvent =>
      HeroKeepsCombat(s, e, t);
      SameCombatProgress(s, t);
    case TurnEvent =>
      if e.ActionSlotSpent? {
        SlotStep(s, e, t);
        SpendProgress(s, e.combatId, e.actorId, e.spentSlot, t);
      } else {
        TurnProgress(s, e, t);
        ProgressParts(s, t);
      }
    case HarmEvent =>
      HarmKeepsTurns(s, e, t);
      TurnsKeepCombat(s, t);
      SameTurnsProgress(s, t);
    case SceneEvent =>
      SceneKeepsCombat(s, e, t);
      SameCombatProgress(s, t);
  }

  lemma TurnsKeepCombat(s: GameState, t: GameState)
    requires SameTurns(s, t) && s.combat.Some?
    ensures t.combat.Some?
  {}

  lemma SameCombatProgress(s: GameState, t: GameState)
    requires s.combat.Some? && t.combat == s.combat
    ensures ProgressOf(t) == ProgressOf(s)
  {}

  lemma ProgressParts(s: GameState, t: GameState)
    requires s.combat.Some? && t.combat.Some?
    ensures ProgressOf(t).round == t.combat.value.round && ProgressOf(t).size == |t.combat.value.participants|
    ensures ProgressOf(s).round == s.combat.value.round && ProgressOf(s).size == |s.combat.value.participants|
  {}

  lemma TurnEventGroups(e: Event)
    ensures e.ActionSlotSpent? || e.RoundAdvanced? ==> GroupOf(e).TurnEvent?
  {}

  lemma SlotStep(s: GameState, e: Event, t: GameState)
    requires e.ActionSlotSpent? && GroupOf(e).TurnEvent? && StepTurn(s, e) == Done(t)
    ensures SpendSlot(s, e.combatId, e.actorId, e.spentSlot) == Done(t)
  {
    hide SpendSlot, GroupOf, AdvanceRound, MoveActor, RestoreSlot, ProgressObjective, StartActivation;
  }

  function SlotsSpentIn(es: seq<Event>): nat {
    if es == [] then 0 else (if SpendsSlot(es[0]) then 1 else 0) + SlotsSpentIn(es[1..])
  }

  function RoundsIn(es: seq<Event>): nat {
    if es == [] then 0 else (if es[0].RoundAdvanced? then 1 else 0) + RoundsIn(es[1..])
  }

  predicate NoRestore(es: seq<Event>) {
    forall i :: 0 <= i < |es| ==> !es[i].ActionSlotRestored?
  }

  /** Over a transaction: rounds rise by the round events, and slots are used up by what is spent, save for new rounds.
      */
  lemma {:induction false} FoldProgress(s: GameState, es: seq<Event>, t: GameState)
    requires Fold(s, es) == Done(t) && s.combat.Some? && NoRestore(es)
    ensures t.combat.Some? && ProgressOf(t).size == ProgressOf(s).size
    ensures ProgressOf(t).round == ProgressOf(s).round + RoundsIn(es)
    ensures ProgressOf(t).free + SlotsSpentIn(es) <= ProgressOf(s).free + 2 * ProgressOf(s).size * RoundsIn(es)
    ensures RoundsIn(es) == 0 ==> ProgressOf(t).free == ProgressOf(s).free - SlotsSpentIn(es)
    decreases |es|
  {
    hide Apply, ProgressOf, SpendsSlot;
    if es != [] {
      var u := Apply(s, es[0]).value;
      ApplyProgress(s, es[0], u);
      FoldProgress(u, es[1..], t);
      ProgressBound(u);
      ProgressBound(s);
      var n, r := ProgressOf(s).size, RoundsIn(es[1..]);
      if es[0].RoundAdvanced? {
        MoreRounds(n, r);
      }
    }
  }

  lemma MoreRounds(n: nat, r: nat)
    ensures 2 * n * (1 + r) == 2 * n + 2 * n * r
  {}

  lemma ProgressBound(s: GameState)
    requires s.combat.Some?
    ensures ProgressOf(s).free <= 2 * ProgressOf(s).size
  {
    FreeBound(s.combat.value.participants);
  }

  lemma {:induction false} SlotlessSpendsNone(es: seq<Event>)
    requires Slotless(es)
    ensures SlotsSpentIn(es) == 0 && RoundsIn(es) == 0 && NoRestore(es)
  {
    if es != [] {
      SlotlessSpendsNone(es[1..]);
    }
  }

  lemma {:induction false} ReactionsSpendNone(es: seq<Event>)
    requires OnlyReactions(es)
    ensures SlotsSpentIn(es) == 0 && NoRestore(es)
  {
    if es != [] {
      ReactionsSpendNone(es[1..]);
    }
  }

  lemma {:induction false} CountsAppend(xs: seq<Event>, ys: seq<Event>)
    ensures SlotsSpentIn(xs + ys) == SlotsSpentIn(xs) + SlotsSpentIn(ys)
            && RoundsIn(xs + ys) == RoundsIn(xs) + RoundsIn(ys)
    ensures NoRestore(xs) && NoRestore(ys) ==> NoRestore(xs + ys)
  {
    if xs == [] {
      assert xs + ys == ys;
    } else {
      assert (xs + ys)[1..] == xs[1..] + ys;
      CountsAppend(xs[1..], ys);
    }
  }

  lemma SpendsOneCounts(es: seq<Event>)
    requires SpendsOneSlot(es)
    ensures SlotsSpentIn(es) == 1 && RoundsIn(es) == 0 && NoRestore(es)
  {
    hide AllHarmless;
    var lead, actor, slot, rest :| SpendsOne(es, lead, actor, slot, rest);
    var front, last := lead[..|lead| - 1], lead[|lead| - 1];
    assert lead == front + [last];
    SlotlessSpendsNone(front);
    SlotlessSpendsNone(rest);
    CountsAppend(front, [last]);
    CountsAppend(lead, rest);
  }

  /** An accepted and applied `execute_combat_action` uses up exactly one free action or maneuver slot and never ends
      the round. */
  lemma ExecuteSpendsOneSlot(s: GameState, facts: Facts, combatId: Id, id: Id, spark: bool)
    requires ValidGameState(s) && DecideExecuteCombatAction(s, facts, combatId, id, spark).Done?
    requires Fold(s, DecideExecuteCombatAction(s, facts, combatId, id, spark).Get()).Done?
    ensures var t := Fold(s, DecideExecuteCombatAction(s, facts, combatId, id, spark).Get()).Get();
            && s.combat.Some? && t.combat.Some?
            && t.combat.Get().round == s.combat.Get().round && |t.combat.Get().participants| ==
              |s.combat.Get().participants|
            && FreeSlots(t.combat.Get().participants) == FreeSlots(s.combat.Get().participants) - 1
  {
    hide Apply, DecideExecuteCombatAction, ValidGameState, Form, SlotsSpentIn, RoundsIn, NoRestore, FreeSlots, Fold,
         ValidParty, SpendsOneSlot;
    PartyIsValid(s);
    var es := DecideExecuteCombatAction(s, facts, combatId, id, spark).value;
    ExecuteNeedsCombat(s, facts, combatId, id, spark);
    var parts := ExecuteForm(s, facts, combatId, id, spark);
    SpendsOneCounts(es);
    FoldProgress(s, es, Fold(s, es).value);
  }

  lemma ExecuteNeedsCombat(s: GameState, facts: Facts, combatId: Id, id: Id, spark: bool)
    requires DecideExecuteCombatAction(s, facts, combatId, id, spark).Done?
    ensures s.combat.Some? && s.combat.Get().status.Active? && s.combat.Get().activeActor.Some?
  {
    hide EnumerateActions, WithId, ExecuteCandidate;
  }

  // ----- Rounds of a run without undo -----

  predicate NoUndo(actions: seq<Action>) {
    forall i :: 0 <= i < |actions| ==> actions[i].Submit?
  }

  ghost predicate Accepted(x: Session, a: Action) {
    match a
    case UndoLatest => false
    case Submit(facts, command) =>
      match Decide(x.state, facts, command)
      case Refused => false
      case Done(es) => Fold(x.state, es).Done?
  }

  /** How many actions and maneuvers a run executes. */
  ghost function Executed(x: Session, actions: seq<Action>): nat
    decreases |actions|
  {
    if actions == [] then 0
    else
      var n := |actions| - 1;
      Executed(x, actions[..n])
      + (if Accepted(Run(x, actions[..n]), actions[n]) && actions[n].command.ExecuteCombatAction? then 1 else 0)
  }

  lemma NextProgress(x: Session, facts: Facts, command: Command, a: Action)
    requires Kept(x) && x.state.combat.Some? && a == Submit(facts, command)
    ensures Next(x, a).state.combat.Some?
    ensures var p, q := ProgressOf(x.state), ProgressOf(Next(x, a).state);
            var n := if Accepted(x, a) && command.ExecuteCombatAction? then 1 else 0;
            && q.size == p.size && q.round >= p.round
            && q.free + n <= p.free + 2 * p.size * (q.round - p.round)
            && (n == 1 ==> q.round == p.round && q.free == p.free - 1)
  {
    hide Decide, Apply, StateKept, Form, ProgressOf, SlotsSpentIn, RoundsIn, NoRestore, OnlyReactions,
         DecideExecuteCombatAction, Fold, ValidGameState, ValidParty, SpendsOneSlot, Activating;
    if Accepted(x, a) {
      var es := Decide(x.state, a.facts, a.command).value;
      var t := Fold(x.state, es).value;
      StateIsValid(x.state);
      PartyIsValid(x.state);
      if a.command.ExecuteCombatAction? {
        ExecuteDecision(x.state, a.facts, a.command);
        var parts := ExecuteForm(x.state, a.facts, a.command.combatId, a.command.legalActionId, a.command.invokeSpark);
        SpendsOneCounts(es);
      } else {
        var parts := DecidedForm(x.state, a.facts, a.command);
        ReactionsSpendNone(es);
      }
      FoldProgress(x.state, es, t);
    }
  }

  lemma ExecuteDecision(s: GameState, facts: Facts, command: Command)
    requires command.ExecuteCombatAction?
    ensures Decide(s, facts, command) == DecideExecuteCombatAction(s, facts, command.combatId, command.legalActionId,
            command.invokeSpark)
  {
    hide DecideHero, DecideScene, DecideExecuteCombatAction, DecideStartCombat, DecideChooseHeroActivation,
         DecideSelectEnemyFallback, DecideWithdraw, Reactions.DecideOpenReactionWindow,
         Reactions.DecideResolveReaction, Reactions.DecideAidDeathTest, DecideSubmitDieResult;
  }

  /** Over any run without undo: rounds never fall, and the executed actions are paid for by the slots free at the
      start and two per participant for every new round; so no round sees more than two per participant. */
  lemma {:induction false} RoundsAreFinite(x: Session, actions: seq<Action>)
    requires Kept(x) && x.state.combat.Some? && NoUndo(actions)
    ensures Run(x, actions).state.combat.Some?
    ensures var p, q := ProgressOf(x.state), ProgressOf(Run(x, actions).state);
            && q.size == p.size && q.round >= p.round
            && Executed(x, actions) + q.free <= p.free + 2 * p.size * (q.round - p.round)
            && (q.round == p.round ==> Executed(x, actions) <= 2 * p.size)
    decreases |actions|
  {
    hide Kept, Next, Accepted, ProgressOf;
    ProgressBound(x.state);
    if actions != [] {
      var n := |actions| - 1;
      RoundsAreFinite(x, actions[..n]);
      RunKeeps(x, actions[..n]);
      var y := Run(x, actions[..n]);
      NextProgress(y, actions[n].facts, actions[n].command, actions[n]);
      var p, q, r := ProgressOf(x.state), ProgressOf(y.state), ProgressOf(Next(y, actions[n]).state);
      RoundsAdd(p.size, q.round - p.round, r.round - q.round);
    }
  }

  lemma RoundsAdd(n: nat, a: int, b: int)
    ensures 2 * n * (a + b) == 2 * n * a + 2 * n * b
  {}

  // ----- The side that activated last -----

  /** The side of the latest activation of the current round, after these events. */
  function LastSide(es: seq<Event>): Option<Side>
    decreases |es|
  {
    if es == [] then None
    else
      var e := es[|es| - 1];
      if e.ActivationStarted? then Some(e.side)
      else if e.RoundAdvanced? || e.CombatStarted? then None
      else LastSide(es[..|es| - 1])
  }

  /** While an actor is active the active side is the last one to have activated; afterwards it is the other one. */
  predicate SideTracked(s: GameState, last: Option<Side>) {
    last.Some? && s.combat.Some? ==>
      s.combat.value.activeSide == if s.combat.value.activeActor.Some? then last.value else Opposite(last.value)
  }

  predicate SameActivity(s: GameState, t: GameState) {
    t.combat.None? || (s.combat.Some? && t.combat.value.activeSide == s.combat.value.activeSide
      && t.combat.value.activeActor == s.combat.value.activeActor)
  }

  function LastAfter(last: Option<Side>, e: Event): Option<Side> {
    if e.ActivationStarted? then Some(e.side) else if e.RoundAdvanced? || e.CombatStarted? then None else last
  }

  lemma TurnTracksSide(s: GameState, e: Event, t: GameState, last: Option<Side>)
    requires GroupOf(e).TurnEvent? && StepTurn(s, e) == Done(t) && !e.ActionSlotRestored?
    requires SideTracked(s, last) && (s.combat.Some? ==> ActiveSound(s.combat.Get()))
    ensures SideTracked(t, LastAfter(last, e))
  {
    hide FindZone, IndexOf, Occupancy, AllSpent, SummonAll, RefreshAll, DropConditions, EndRoundConditions,
         SlotAvailable, AdvanceRound, RestoreSlot;
  }

  lemma SameActivityTracks(s: GameState, t: GameState, last: Option<Side>)
    requires SameActivity(s, t) && SideTracked(s, last)
    ensures SideTracked(t, last)
  {}

  lemma TurnsKeepActivity(s: GameState, t: GameState)
    requires SameTurns(s, t)
    ensures SameActivity(s, t)
  {}

  lemma EqualCombatActivity(s: GameState, t: GameState)
    requires t.combat == s.combat
    ensures SameActivity(s, t)
  {}

  lemma OnlyTurnsMoveSides(e: Event)
    requires !GroupOf(e).TurnEvent?
    ensures forall last :: LastAfter(last, e) == last
  {}

  lemma ValidIsActiveSound(s: GameState)
    requires ValidGameState(s)
    ensures s.combat.Some? ==> ActiveSound(s.combat.Get())
  {
    hide ValidGameState, ValidCombat, ValidParty, ValidPendings, ValidChallenges, ActiveSound, ValidRituals,
         ParticipantsSound, ValidSocials, ValidScars, OverlaysSound, OccupancyFits, ValidDeaths, CharacterIds,
         ParticipantIds, StatusSound, ObjectivesSound, Distinct;
    ValidParts(s);
    if s.combat.Some? {
      CombatActive(s.combat.value);
    }
  }

  lemma ApplyTracksSide(s: GameState, e: Event, t: GameState, last: Option<Side>)
    requires ValidGameState(s) && Apply(s, e) == Done(t) && !e.ActionSlotRestored? && SideTracked(s, last)
    ensures SideTracked(t, LastAfter(last, e))
  {
    hide GroupOf, StepCheck, StepHero, StepTurn, StepHarm, StepScene, ValidGameState, SideTracked, SameTurns,
         SameActivity, LastAfter, ActiveSound;
    ValidIsActiveSound(s);
    if GroupOf(e).TurnEvent? {
      TurnTracksSide(s, e, t, last);
    } else {
      OnlyTurnsMoveSides(e);
      match GroupOf(e)
      case AuditEvent =>
      case CheckEvent => CheckKeepsTurns(s, e, t); TurnsKeepActivity(s, t); SameActivityTracks(s, t, last);
      case HeroEvent => HeroKeepsCombat(s, e, t); EqualCombatActivity(s, t); SameActivityTracks(s, t, last);
      case HarmEvent => HarmKeepsTurns(s, e, t); TurnsKeepActivity(s, t); SameActivityTracks(s, t, last);
      case SceneEvent => SceneKeepsCombat(s, e, t); EqualCombatActivity(s, t); SameActivityTracks(s, t, last);
    }
  }

  lemma {:induction false} FoldTracksSide(s: GameState, past: seq<Event>, es: seq<Event>, t: GameState)
    requires ValidGameState(s) && Fold(s, es) == Done(t) && NoRestore(es) && SideTracked(s, LastSide(past))
    ensures SideTracked(t, LastSide(past + es))
    decreases |es|
  {
    hide Apply, SideTracked, ValidGameState;
    if es == [] {
      assert past + es == past;
    } else {
      var u := Apply(s, es[0]).value;
      ApplyTracksSide(s, es[0], u, LastSide(past));
      FoldOne(s, es[0]);
      FoldKeepsValid(s, [es[0]], u);
      assert LastSide(past + [es[0]]) == LastAfter(LastSide(past), es[0]) by {
        assert (past + [es[0]])[..|past|] == past;
      }
      FoldTracksSide(u, past + [es[0]], es[1..], t);
      assert past + [es[0]] + es[1..] == past + es;
    }
  }

  /** Every event committed by a run. */
  ghost function History(x: Session, actions: seq<Action>): seq<Event>
    decreases |actions|
  {
    if actions == [] then []
    else
      var n := |actions| - 1;
      var y := Run(x, actions[..n]);
      History(x, actions[..n])
      + (if Accepted(y, actions[n]) then Decide(y.state, actions[n].facts, actions[n].command).value else [])
  }

  lemma DecidedRestoresNothing(s: GameState, facts: Facts, command: Command)
    requires StateKept(s) && Decide(s, facts, command).Done?
    ensures NoRestore(Decide(s, facts, command).Get())
  {
    hide Decide, StateKept, Form, OnlyReactions, NoRestore, SpendsOneSlot, DecideExecuteCombatAction, ValidGameState,
         ValidParty, SlotsSpentIn, RoundsIn, Activating, StartsNobody;
    StateIsValid(s);
    PartyIsValid(s);
    if command.ExecuteCombatAction? {
      ExecuteDecision(s, facts, command);
      var parts := ExecuteForm(s, facts, command.combatId, command.legalActionId, command.invokeSpark);
      SpendsOneCounts(Decide(s, facts, command).value);
    } else {
      var parts := DecidedForm(s, facts, command);
      ReactionsSpendNone(Decide(s, facts, command).value);
    }
  }

  lemma {:induction false} SidesInEveryRun(x: Session, actions: seq<Action>)
    requires Kept(x) && NoUndo(actions) && x.state.combat.None?
    ensures SideTracked(Run(x, actions).state, LastSide(History(x, actions)))
    decreases |actions|
  {
    hide Kept, Decide, Apply, StateKept, SideTracked, Fold, ValidGameState, NoRestore;
    if actions == [] {
      NothingTracked(x.state);
    } else {
      var n := |actions| - 1;
      SidesInEveryRun(x, actions[..n]);
      RunKeeps(x, actions[..n]);
      var y := Run(x, actions[..n]);
      if Accepted(y, actions[n]) {
        KeptState(y);
        StateIsValid(y.state);
        var es := Decide(y.state, actions[n].facts, actions[n].command).value;
        DecidedRestoresNothing(y.state, actions[n].facts, actions[n].command);
        FoldTracksSide(y.state, History(x, actions[..n]), es, Fold(y.state, es).value);
      } else {
        assert History(x, actions) == History(x, actions[..n]);
      }
    }
  }

  lemma NothingTracked(s: GameState)
    ensures SideTracked(s, None)
  {}

  lemma KeptState(x: Session)
    requires Kept(x)
    ensures StateKept(x.state)
  {
    hide StateKept;
  }

  /** In every run without undo: a side that activated last activates again in the same round only when nobody living on
      the other side still has an activation. */
  lemma SidesAlternate(manifest: nat, actions: seq<Action>, s: GameState, c: Combat, p: Participant, start: Event)
    requires NoUndo(actions) && Run(NewCampaign(manifest), actions).state == s && s.combat == Some(c)
    requires p in c.participants && ActivationEvents(s, c, p) == Done([start])
    requires LastSide(History(NewCampaign(manifest), actions)) == Some(p.Side())
    ensures forall q :: q in c.participants && q.Side() != p.Side() && Alive(s, q) ==> q.activationSpent
  {
    hide Run, History, Kept, Alive, LastSide, NoUndo;
    NewCampaignKept(manifest);
    SidesInEveryRun(NewCampaign(manifest), actions);
    assert !SomeUnspent(s, c, Opposite(p.Side()));
    forall q | q in c.participants && q.Side() != p.Side() && Alive(s, q) ensures q.activationSpent {
      assert q.Side() == Opposite(p.Side());
      assert !Unspent(s, q);
    }
  }

  lemma RoundNeedsAllSpent(s: GameState, previous: int, current: int, t: GameState)
    requires Apply(s, RoundAdvanced(previous, current)) == Done(t)
    ensures s.combat.Some? && AllSpent(s, s.combat.Get())
  {
    hide ValidGameState, AllSpent, RefreshAll, EndRoundConditions;
  }

  lemma {:induction false} RoundsOnlyFirst(es: seq<Event>)
    requires OnlyReactions(es)
    ensures RoundsIn(es) == if es != [] && es[0].RoundAdvanced? then 1 else 0
  {
    if es != [] {
      forall i | 0 <= i < |es[1..]| ensures !es[1..][i].RoundAdvanced? {
        assert es[1..][i] == es[i + 1];
      }
      RoundsOnlyFirst(es[1..]);
    }
  }

  /** Whatever is submitted: the round stays, or it is the next one and everybody living had spent its activation
      before. */
  lemma RoundEndsWhenAllSpent(x: Session, facts: Facts, command: Command, c: Combat, d: Combat)
    requires Kept(x) && x.state.combat == Some(c)
    ensures Next(x, Submit(facts, command)).state.combat.Some?
    ensures Next(x, Submit(facts, command)).state.combat == Some(d) ==>
              d.round == c.round
              || (d.round == c.round + 1 && !command.ExecuteCombatAction? && AllSpent(x.state, c))
  {
    hide Decide, Apply, StateKept, Form, SlotsSpentIn, RoundsIn, NoRestore, OnlyReactions, AllSpent, SpendsOneSlot,
         DecideExecuteCombatAction, ValidGameState, ValidParty, Activating;
    var a := Submit(facts, command);
    if Accepted(x, a) {
      var es := Decide(x.state, facts, command).value;
      StateIsValid(x.state);
      PartyIsValid(x.state);
      DecidedRestoresNothing(x.state, facts, command);
      FoldProgress(x.state, es, Fold(x.state, es).value);
      if command.ExecuteCombatAction? {
        ExecuteDecision(x.state, facts, command);
        var parts := ExecuteForm(x.state, facts, command.combatId, command.legalActionId, command.invokeSpark);
        SpendsOneCounts(es);
      } else {
        var parts := DecidedForm(x.state, facts, command);
        RoundsOnlyFirst(es);
        if es != [] && es[0].RoundAdvanced? {
          RoundNeedsAllSpent(x.state, es[0].previousRound, es[0].currentRound, Apply(x.state, es[0]).value);
        }
      }
    }
  }
}
