/** What holds in every state a campaign can reach, undo included. */
module CampaignRuns {
  import opened Common
  import opened State
  import opened Validity
  import opened Events
  import opened Reducer
  import opened Checks
  import opened Compensation
  import opened Undo
  import opened Content
  import opened Commands
  import opened Vitals
  import opened Forms
  import opened WoundInvariant
  import opened Sessions
  import opened Liveness
  import opened CombatRules
  import opened CombatDecisions
  import opened LegalActions
  import opened CombatForms
  import opened Applies
  import opened TurnOrder
  import opened EnemyChoice

  /** In every reachable state a hero's filled wounds come first, and it has all three exactly when it is
      permanently dead or a pending check is its death test. */
  lemma WoundsInEveryRun(manifest: nat, actions: seq<Action>, s: GameState, hero: Character)
    requires Run(NewCampaign(manifest), actions).state == s && hero in s.characters
    ensures FilledPrefix(hero.wounds)
    ensures Full(hero.wounds) <==>
              hero.characterId in s.deaths
              || exists p :: p in s.pendingChecks && TestedHero(p) == Some(hero.characterId)
  {
    hide Run, ValidGameState, AwaitsKnown, TestedHero, Honest, Tested, NewCampaign, CharacterIds, WoundsOf,
         FilledPrefix, Full;
    NewCampaignKept(manifest);
    RunKeeps(NewCampaign(manifest), actions);
    var i :| 0 <= i < |s.characters| && s.characters[i] == hero;
    var ws := WoundsOf(s.characters)[i];
    assert FilledPrefix(ws) && (Full(ws) <==>
      hero.characterId in s.deaths || Tested(s.pendingChecks, CharacterIds(s.characters)[i]));
    TestedByMember(s.pendingChecks, hero.characterId);
  }

  lemma TestedByMember(ps: seq<PendingCheck>, hero: Id)
    ensures Tested(ps, hero) <==> exists p :: p in ps && TestedHero(p) == Some(hero)
  {
    if Tested(ps, hero) {
      var i :| 0 <= i < |ps| && TestedHero(ps[i]) == Some(hero);
      assert ps[i] in ps;
    }
    if exists p :: p in ps && TestedHero(p) == Some(hero) {
      var p :| p in ps && TestedHero(p) == Some(hero);
      var i :| 0 <= i < |ps| && ps[i] == p;
    }
  }

  /** In every reachable state the die a player submits resolves to exactly the outcome the stored disclosure
      shows for that face, so the mismatch rejection never fires. */
  lemma DisclosuresInEveryRun(manifest: nat, actions: seq<Action>, s: GameState, p: PendingCheck, face: int)
    requires Run(NewCampaign(manifest), actions).state == s && p in s.pendingChecks && 1 <= face <= 20
    ensures Disclosed(p.disclosure, face, Resolve(Rebuild(p.disclosure), face).finalDegree)
  {
    hide Run, ValidGameState, AwaitsKnown, Resolve, WoundsDecided, TestsDistinct, TestsOfLiving, Rebuild, NewCampaign;
    NewCampaignKept(manifest);
    RunKeeps(NewCampaign(manifest), actions);
    var i :| 0 <= i < |s.pendingChecks| && s.pendingChecks[i] == p;
    assert Honest(s.pendingChecks[i].disclosure);
  }

  // ----- Deaths -----

  lemma TurnKeepsDeaths(s: GameState, e: Event, t: GameState)
    requires !e.CharacterDied? && Apply(s, e) == Done(t)
    ensures t.deaths == s.deaths
  {
    hide ValidGameState, GroupOf, StepCheck, StepHero, StepTurn, StepHarm, StepScene, Harmless, Apply;
    if Harmless(e) {
      HarmlessKeepsVitals(s, e, t);
    } else {
      OtherKeepsDeaths(s, e, t);
    }
  }

  lemma OtherKeepsDeaths(s: GameState, e: Event, t: GameState)
    requires !Harmless(e) && !e.CharacterDied? && Apply(s, e) == Done(t)
    ensures t.deaths == s.deaths
  {
    hide ValidGameState, StepScene, IndexOf, FindRitual, FindChallenge, FindSocial, FindPending, FindCharacter,
         FindActor, FindParticipant, WithoutCheck, FillsOneSlot, ReleaseAction, ReleaseDeath, RestEach,
         StartSceneEach;
  }

  lemma {:induction false} DeathsGrow(s: GameState, es: seq<Event>, t: GameState)
    requires Fold(s, es) == Done(t)
    ensures s.deaths <= t.deaths
    decreases |es|
  {
    hide Apply;
    if es != [] {
      var u := Apply(s, es[0]).value;
      if es[0].CharacterDied? {
        DeathStep(s, es[0].characterId, u);
      } else {
        TurnKeepsDeaths(s, es[0], u);
      }
      DeathsGrow(u, es[1..], t);
    }
  }

  /** Nothing a campaign can do, undo included, brings a permanently dead hero back. */
  lemma {:induction false} DeathsAreForever(x: Session, actions: seq<Action>)
    ensures x.state.deaths <= Run(x, actions).state.deaths
    decreases |actions|
  {
    hide Apply, Decide, Plan;
    if actions != [] {
      var n := |actions| - 1;
      DeathsAreForever(x, actions[..n]);
      var y := Run(x, actions[..n]);
      var z := Next(y, actions[n]);
      assert y.state.deaths <= z.state.deaths by {
        match actions[n]
        case Submit(facts, command) =>
          if Decide(y.state, facts, command).Done? && Fold(y.state, Decide(y.state, facts, command).value).Done? {
            DeathsGrow(y.state, Decide(y.state, facts, command).value, z.state);
          }
        case UndoLatest =>
          if y.latest.Some? && Plan(y.latest.value.events).Planned?
            && Fold(y.state, Plan(y.latest.value.events).events).Done? {
            DeathsGrow(y.state, Plan(y.latest.value.events).events, z.state);
          }
      }
    }
  }

  // ----- Undo -----

  /** In every run: an accepted command followed by an undo its plan accepts leads back to exactly the state before
      the command, if and only if the command's roll request found no combat, or an active one, or left its status
      alone. */
  lemma UndoInEveryRun(manifest: nat, actions: seq<Action>, s: GameState, facts: Facts, command: Command,
      es: seq<Event>, t: GameState, back: seq<Event>)
    requires Run(NewCampaign(manifest), actions).state == s
    requires Decide(s, facts, command) == Done(es) && Fold(s, es) == Done(t) && Plan(es) == Planned(back)
    ensures Fold(t, back) == Done(s) <==> UndoRestores(s, TailOf(es))
  {
    hide Run, Apply, Decide, Plan, Form, StateKept, TailOf, UndoRestores, SameVitals, Fold, HasForm, NewCampaign;
    NewCampaignKept(manifest);
    RunKeeps(NewCampaign(manifest), actions);
    DecidedHasForm(s, facts, command);
    UndoTakesBack(s, es, t);
  }

  lemma DecidedHasForm(s: GameState, facts: Facts, command: Command)
    requires StateKept(s) && Decide(s, facts, command).Done?
    ensures HasForm(s, Decide(s, facts, command).Get())
  {
    hide Form, Decide, StateKept, ValidGameState, ValidParty;
    StateIsValid(s);
    PartyIsValid(s);
    var parts := CombatForms.DecidedForm(s, facts, command);
  }

  predicate ForAction(p: PendingCheck) {
    p.continuation.Some? && p.continuation.value.CombatAction?
  }

  /** A check that continues a combat action is the one the fight waits for, and only an ability has an impact. */
  predicate FightWaits(action: Option<Id>, p: PendingCheck) {
    ForAction(p) ==>
      && action == Some(p.checkId)
      && (p.continuation.value.baseImpact.Some? ==> p.continuation.value.candidate.source.Some?)
  }

  predicate AllWaited(action: Option<Id>, ps: seq<PendingCheck>) {
    forall i :: 0 <= i < |ps| ==> FightWaits(action, ps[i])
  }

  /** The check the fight waits for before an action goes on. */
  function AwaitedOf(s: GameState): Option<Id> {
    if s.combat.None? then None else s.combat.value.pendingAction
  }

  predicate ActionsAwaited(s: GameState) {
    AllWaited(AwaitedOf(s), s.pendingChecks)
  }

  // ----- Checks that wait for an action -----

  lemma RemovedWaited(action: Option<Id>, ps: seq<PendingCheck>, i: nat)
    requires AllWaited(action, ps) && i < |ps|
    ensures AllWaited(action, Removed(ps, i))
  {
    hide FightWaits;
    var qs := Removed(ps, i);
    forall k | 0 <= k < |qs| ensures FightWaits(action, qs[k]) {
      assert qs[k] == ps[if k < i then k else k + 1];
    }
  }

  /** Without the check it waited for, the fight waits for no other action. */
  lemma ReleasedWaited(ps: seq<PendingCheck>, i: nat)
    requires i < |ps| && Distinct(CheckIds(ps)) && AllWaited(Some(ps[i].checkId), ps)
    ensures AllWaited(None, Removed(ps, i))
  {
    var qs := Removed(ps, i);
    forall k | 0 <= k < |qs| ensures FightWaits(None, qs[k]) {
      var m := if k < i then k else k + 1;
      assert qs[k] == ps[m] && FightWaits(Some(ps[i].checkId), ps[m]);
      assert CheckIds(ps)[m] != CheckIds(ps)[i];
    }
  }

  lemma AppendedWaited(action: Option<Id>, ps: seq<PendingCheck>, p: PendingCheck)
    requires AllWaited(action, ps) && FightWaits(action, p)
    ensures AllWaited(action, ps + [p])
  {
    hide FightWaits;
  }

  lemma ReplacedWaited(action: Option<Id>, ps: seq<PendingCheck>, i: nat, p: PendingCheck)
    requires AllWaited(action, ps) && i < |ps| && FightWaits(action, p)
    ensures AllWaited(action, ps[i := p])
  {
    hide FightWaits;
  }

  // ----- Events that call for no further action -----

  /** Events that call for no further action, and start no fight that waits. */
  predicate CallsForNone(e: Event) {
    StartsCalm(e) && !e.CombatActionPending?
  }

  predicate AllCallForNone(es: seq<Event>) {
    forall i :: 0 <= i < |es| ==> CallsForNone(es[i])
  }

  /** The actions stay awaited, and a fight that waits for none goes on waiting for none. */
  predicate WaitsOn(s: GameState, t: GameState) {
    && (ActionsAwaited(s) ==> ActionsAwaited(t))
    && (AwaitedOf(s).None? ==> AwaitedOf(t).None?)
  }

  lemma SameWaitsOn(s: GameState, t: GameState)
    requires SameAwaits(s, t)
    ensures WaitsOn(s, t)
  {
    hide AllWaited;
  }

  lemma TurnWaitsOn(s: GameState, e: Event, t: GameState)
    requires GroupOf(e).TurnEvent? && StepTurn(s, e) == Done(t) && StartsCalm(e)
    ensures WaitsOn(s, t)
  {
    hide FindParticipant, FindZone, IndexOf, SlotAvailable, AfterSpend, Occupancy, AllSpent, SummonAll, RefreshAll,
         SetSlot, Opposite, DropConditions, EndRoundConditions, AllWaited, GroupOf;
  }

  lemma ResolvedWaitsOn(s: GameState, id: Id, t: GameState)
    requires ResolvePhysical(s, id) == Done(t) && Distinct(CheckIds(s.pendingChecks))
    ensures WaitsOn(s, t)
  {
    hide Removed, AllWaited, WithoutCheck, FindPending, CheckIds, Distinct;
    var i := FindPending(s, id).value;
    WithoutIsRemoved(s.pendingChecks, i);
    if ActionsAwaited(s) {
      if AwaitedOf(s) == Some(id) {
        ReleasedWaited(s.pendingChecks, i);
      }
      RemovedWaited(AwaitedOf(s), s.pendingChecks, i);
    }
  }

  lemma CancelledWaitsOn(s: GameState, id: Id, t: GameState)
    requires CancelRoll(s, id) == Done(t) && Distinct(CheckIds(s.pendingChecks))
    ensures WaitsOn(s, t)
  {
    hide Removed, AllWaited, WithoutCheck, FindRitual, FindPending, CheckIds, Distinct;
    var i := FindPending(s, id).value;
    WithoutIsRemoved(s.pendingChecks, i);
    if ActionsAwaited(s) {
      if AwaitedOf(s) == Some(id) {
        ReleasedWaited(s.pendingChecks, i);
      } else {
        RemovedWaited(AwaitedOf(s), s.pendingChecks, i);
      }
    }
  }

  lemma RequestedWaitsOn(s: GameState, id: Id, nonce: Id, d: Disclosure, t: GameState)
    requires RequestRoll(s, id, nonce, d) == Done(t)
    ensures WaitsOn(s, t)
  {
    hide AllWaited;
    if ActionsAwaited(s) {
      AppendedWaited(AwaitedOf(s), s.pendingChecks, PendingCheck(id, nonce, d, None));
    }
  }

  lemma AidedWaitsOn(s: GameState, id: Id, d: Disclosure, t: GameState)
    requires AidDeathTest(s, id, d) == Done(t)
    ensures WaitsOn(s, t)
  {
    hide FindPending;
    var i := FindPending(s, id).value;
    if ActionsAwaited(s) {
      ReplacedWaited(AwaitedOf(s), s.pendingChecks, i, t.pendingChecks[i]);
    }
  }

  lemma ContinuedWaitsOn(s: GameState, id: Id, k: Continuation, t: GameState)
    requires Continue(s, id, k) == Done(t) && !k.CombatAction?
    ensures WaitsOn(s, t)
  {
    hide FindPending, AllWaited;
    var i := FindPending(s, id).value;
    if ActionsAwaited(s) {
      ReplacedWaited(AwaitedOf(s), s.pendingChecks, i, t.pendingChecks[i]);
    }
  }

  lemma PendingWaitsOn(s: GameState, e: Event, t: GameState)
    requires e.DeathTestPending? || e.ChallengeCheckPending? || e.SocialCheckPending? || e.RitualCheckPending?
    requires StepCheck(s, e) == Done(t)
    ensures WaitsOn(s, t)
  {
    hide Continue, FindRitual, FindChallenge, FindSocial, AllWaited, CancelRoll, ReopenRitual;
    var k := ContinuationOf(e);
    ContinuedWaitsOn(s, e.checkId, k, Continue(s, e.checkId, k).value);
  }

  lemma CheckWaitsOn(s: GameState, e: Event, t: GameState)
    requires GroupOf(e).CheckEvent? && !e.CombatActionPending? && StepCheck(s, e) == Done(t)
    requires Distinct(CheckIds(s.pendingChecks))
    ensures WaitsOn(s, t)
  {
    hide WaitsOn, ResolvePhysical, RequestRoll, CancelRoll, AidDeathTest, Continue, AwaitAction, AwaitChallenge,
         AwaitSocial, AwaitRitual, GroupOf, CheckIds, Distinct;
    if e.CheckResolvedPhysical? {
      ResolvedWaitsOn(s, e.checkId, t);
    } else if e.PhysicalRollRequested? {
      RequestedWaitsOn(s, e.checkId, e.nonce, e.disclosure, t);
    } else if e.PhysicalRollCancelled? {
      CancelledWaitsOn(s, e.checkId, t);
    } else if e.DeathTestAidApplied? {
      AidedWaitsOn(s, e.checkId, e.disclosure, t);
    } else {
      PendingWaitsOn(s, e, t);
    }
  }

  lemma ApplyWaitsOn(s: GameState, e: Event, t: GameState)
    requires ValidGameState(s) && Apply(s, e) == Done(t) && CallsForNone(e)
    ensures WaitsOn(s, t)
  {
    hide GroupOf, StepCheck, StepHero, StepTurn, StepHarm, StepScene, ValidGameState, SameAwaits, StartsCalm,
         ActionsAwaited, AwaitedOf, CheckIds, CharacterIds, Distinct;
    match GroupOf(e)
    case AuditEvent =>
    case CheckEvent =>
      PendingsDistinct(s);
      CheckWaitsOn(s, e, t);
    case HeroEvent =>
      HeroKeepsAwaits(s, e, t);
      SameWaitsOn(s, t);
    case TurnEvent => TurnWaitsOn(s, e, t);
    case HarmEvent =>
      HarmKeepsAwaits(s, e, t);
      SameWaitsOn(s, t);
    case SceneEvent =>
      SceneKeepsAwaits(s, e, t);
      SameWaitsOn(s, t);
  }

  lemma {:induction false} FoldWaitsOn(s: GameState, es: seq<Event>, t: GameState)
    requires ValidGameState(s) && Fold(s, es) == Done(t) && AllCallForNone(es)
    ensures WaitsOn(s, t) && ValidGameState(t)
    decreases |es|
  {
    hide Apply, ActionsAwaited, AwaitedOf, ValidGameState, CallsForNone;
    if es != [] {
      var u := Apply(s, es[0]).value;
      ApplyWaitsOn(s, es[0], u);
      FoldOne(s, es[0]);
      FoldKeepsValid(s, [es[0]], u);
      FoldWaitsOn(u, es[1..], t);
    }
  }

  /** An action that waits for its die, in a fight that waited for none. */
  lemma ActionIsAwaited(s: GameState, combatId: Id, id: Id, x: Candidate, base: Option<int>, t: GameState)
    requires ActionsAwaited(s) && AwaitedOf(s).None? && Apply(s, CombatActionPending(combatId, id, x, base)) == Done(t)
    requires base.Some? ==> x.source.Some?
    ensures ActionsAwaited(t)
  {
    hide ValidGameState, FindPending;
    var i := FindPending(s, id).value;
    forall k | 0 <= k < |t.pendingChecks| ensures FightWaits(AwaitedOf(t), t.pendingChecks[k]) {
      assert k != i ==> t.pendingChecks[k] == s.pendingChecks[k] && FightWaits(None, s.pendingChecks[k]);
    }
  }

  // ----- Decided and undone transactions -----

  lemma HarmlessCallsForNone(e: Event)
    requires Harmless(e)
    ensures CallsForNone(e)
  {}

  lemma CoreCallsForNone(s: GameState, parts: Parts, e: Event)
    requires CheckPart(s, parts.check) && CorePart(s, parts.check, parts.kind, parts.core)
    requires e in parts.check || e in parts.core
    ensures CallsForNone(e) || (parts.kind.Roll? && |parts.core| == 2 && e == At(parts.core, 1))
  {
    hide Marks, Honest, Subject, ClearsThirdWound, BeginsAction;
  }

  /** The action a transaction leaves waiting comes last. */
  predicate Begins(s: GameState, front: seq<Event>, e: Event) {
    && AllCallForNone(front) && e.CombatActionPending? && s.combat.Some? && s.combat.value.status.Active?
    && (e.baseImpact.Some? ==> e.candidate.source.Some?)
  }

  lemma FormCalls(s: GameState, es: seq<Event>, parts: Parts) returns (front: seq<Event>)
    requires Form(s, es, parts)
    ensures AllCallForNone(es) || (es != [] && front == es[..|es| - 1] && Begins(s, front, At(es, |es| - 1)))
  {
    hide Harmless, CallsForNone, CheckPart, CorePart, ReactionCloses;
    front := [];
    if parts.kind.Roll? && |parts.core| == 2 && parts.core[1].CombatActionPending? {
      RollBegins(s, parts);
      front := parts.pre + [parts.core[0]];
      assert es == front + [parts.core[1]];
      forall i | 0 <= i < |front| ensures CallsForNone(front[i]) {
        if i < |parts.pre| {
          HarmlessCallsForNone(front[i]);
        } else {
          assert front[i] == parts.core[0];
        }
      }
    } else {
      forall i | 0 <= i < |es| ensures CallsForNone(es[i]) {
        if es[i] in parts.check || es[i] in parts.core {
          CoreCallsForNone(s, parts, es[i]);
          OtherContinuation(s, parts);
        } else if es[i] in parts.pre {
          HarmlessCallsForNone(es[i]);
        } else {
          assert es[i] in parts.post;
          HarmlessCallsForNone(es[i]);
        }
      }
    }
  }

  lemma RollBegins(s: GameState, parts: Parts)
    requires CheckPart(s, parts.check) && CorePart(s, parts.check, parts.kind, parts.core) && parts.kind.Roll?
    requires |parts.core| == 2 && At(parts.core, 1).CombatActionPending?
    ensures parts.check == [] && BeginsAction(s, parts.core) && CallsForNone(At(parts.core, 0))
  {
    hide Honest, BeginsAction, CheckPart, TestsDeath, Marks;
  }

  lemma OtherContinuation(s: GameState, parts: Parts)
    requires CheckPart(s, parts.check) && CorePart(s, parts.check, parts.kind, parts.core)
    ensures parts.kind.Roll? && |parts.core| == 2 && !At(parts.core, 1).CombatActionPending? ==>
              CallsForNone(At(parts.core, 1))
  {
    hide Honest, BeginsAction, Marks, Subject, ClearsThirdWound, CheckPart, TestsDeath;
  }

  lemma TransactionAwaits(s: GameState, es: seq<Event>, t: GameState)
    requires ValidGameState(s) && HasForm(s, es) && Fold(s, es) == Done(t) && ActionsAwaited(s)
    ensures ActionsAwaited(t)
  {
    hide ValidGameState, ActionsAwaited, AwaitedOf, Form, Apply, AllCallForNone, Fold;
    var parts :| Form(s, es, parts);
    var front := FormCalls(s, es, parts);
    if AllCallForNone(es) {
      FoldWaitsOn(s, es, t);
    } else {
      var e := es[|es| - 1];
      assert es == front + [e];
      FoldAppend(s, front, [e]);
      var u := Fold(s, front).value;
      FoldOne(u, e);
      ActiveAwaitsNone(s);
      FoldWaitsOn(s, front, u);
      ActionIsAwaited(u, e.combatId, e.checkId, e.candidate, e.baseImpact, t);
    }
  }

  lemma ActiveAwaitsNone(s: GameState)
    requires ValidGameState(s) && s.combat.Some? && s.combat.Get().status.Active?
    ensures AwaitedOf(s).None?
  {
    hide ValidGameState;
    StatusIsSound(s);
  }

  lemma {:induction false} InversesCallForNone(es: seq<Event>)
    requires InvertAll(es).Planned?
    ensures AllCallForNone(InvertAll(es).events)
    decreases |es|
  {
    hide Classify, Inverse, CallsForNone, Prepend;
    if es != [] {
      var front, last := es[..|es| - 1], es[|es| - 1];
      assert es == front + [last];
      InvertLast(front, last);
      InverseCallsForNone(last);
      InversesCallForNone(front);
    }
  }

  lemma InverseCallsForNone(e: Event)
    ensures Inverse(e).Some? ==> CallsForNone(Inverse(e).value)
  {}

  lemma PlanCallsForNone(es: seq<Event>)
    requires Plan(es).Planned?
    ensures AllCallForNone(Plan(es).events)
  {
    hide InvertAll;
    InversesCallForNone(es);
  }

  // ----- The awaited action in every run -----

  lemma NextAwaits(x: Session, a: Action)
    requires Kept(x) && ActionsAwaited(x.state)
    ensures ActionsAwaited(Next(x, a).state)
  {
    hide StateKept, Decide, Plan, HasForm, Apply, ActionsAwaited, AllCallForNone, AwaitedOf, Fold, ValidGameState;
    StateIsValid(x.state);
    match a
    case Submit(facts, command) =>
      if Decide(x.state, facts, command).Done? && Next(x, a).state != x.state {
        var es := Decide(x.state, facts, command).value;
        DecidedHasForm(x.state, facts, command);
        TransactionAwaits(x.state, es, Next(x, a).state);
      }
    case UndoLatest =>
      if x.latest.Some? && Next(x, a).state != x.state {
        var es := x.latest.value.events;
        PlanCallsForNone(es);
        FoldWaitsOn(x.state, Plan(es).events, Next(x, a).state);
      }
  }

  lemma {:induction false} RunAwaits(x: Session, actions: seq<Action>)
    requires Kept(x) && ActionsAwaited(x.state)
    ensures Kept(Run(x, actions)) && ActionsAwaited(Run(x, actions).state)
    decreases |actions|
  {
    hide Kept, Next, ActionsAwaited;
    RunKeeps(x, actions);
    if actions != [] {
      var n := |actions| - 1;
      RunAwaits(x, actions[..n]);
      NextAwaits(Run(x, actions[..n]), actions[n]);
    }
  }

  lemma NothingPending(manifest: nat)
    ensures ActionsAwaited(NewCampaign(manifest).state)
  {}

  /** In every reachable state, undo included: a pending check that continues a combat action is the one the fight is
      paused for. */
  lemma ActionsAwaitedInEveryRun(manifest: nat, actions: seq<Action>, s: GameState, p: PendingCheck)
    requires Run(NewCampaign(manifest), actions).state == s && p in s.pendingChecks && ForAction(p)
    ensures match s.combat
            case None => false
            case Some(c) => c.status.AwaitingAction? && c.pendingAction == Some(p.checkId)
  {
    hide Run, Kept, ValidGameState, NewCampaign, ForAction;
    NewCampaignKept(manifest);
    NothingPending(manifest);
    RunAwaits(NewCampaign(manifest), actions);
    KeptIsValid(Run(NewCampaign(manifest), actions));
    StatusIsSound(s);
    var i :| 0 <= i < |s.pendingChecks| && s.pendingChecks[i] == p;
    assert FightWaits(AwaitedOf(s), s.pendingChecks[i]);
  }

  /** A participant that may wait for nothing keeps its spent mark and its slots in step, and whoever is active is
      unspent. */
  lemma SteadyWhileMatched(s: GameState)
    requires ValidGameState(s) && SlotsMatch(s) && s.combat.Some?
    requires forall i ::
               0 <= i < |s.combat.Get().participants|
               && s.combat.Get().activeActor == Some(s.combat.Get().participants[i].actorId) ==>
                 !Waiting(s.combat.Get().round, s.combat.Get().participants[i])
    ensures ActiveSteady(s.combat.Get())
  {
    hide ValidGameState, ValidCombat, IndexOf, Distinct, ValidParty, ValidPendings, ValidChallenges, ActiveSound,
         ValidRituals, ParticipantsSound;
    var c := s.combat.value;
    ValidParts(s);
    CombatActive(c);
    forall i | 0 <= i < |c.participants| ensures Acting(c.activeActor, c.participants[i]) {
      if c.activeActor == Some(c.participants[i].actorId) {
        IndexOfDistinct(ParticipantIds(c.participants), i);
        ActiveParts(c, i);
        assert Matched(c.round, c.participants[i]);
      }
    }
  }

  // ----- Events other than the start of an activation -----

  lemma OneActing(active: Option<Id>, ps: seq<Participant>, i: nat, p: Participant)
    requires AllActing(active, ps) && i < |ps| && Acting(active, p)
    ensures AllActing(active, ps[i := p])
  {
    hide Acting;
  }

  lemma ActingAt(active: Option<Id>, ps: seq<Participant>, i: nat)
    requires AllActing(active, ps) && i < |ps|
    ensures Acting(active, ps[i])
  {}

  /** A restored slot makes its owner active, and it has that slot. */
  lemma RestoredActing(ps: seq<Participant>, i: nat, p: Participant)
    requires i < |ps| && Distinct(ParticipantIds(ps)) && p.actorId == ps[i].actorId && !SlotsGone(p)
    ensures AllActing(Some(p.actorId), ps[i := p])
  {
    var qs := ps[i := p];
    forall k | 0 <= k < |qs| ensures Acting(Some(p.actorId), qs[k]) {
      assert k != i ==> ParticipantIds(ps)[k] != ParticipantIds(ps)[i];
    }
  }

  lemma NobodyActing(ps: seq<Participant>)
    ensures AllActing(None, ps)
  {}

  lemma SummonedActing(active: Option<Id>, ps: seq<Participant>)
    requires AllActing(active, ps)
    ensures AllActing(active, SummonAll(ps))
  {
    forall i | 0 <= i < |ps| ensures Acting(active, SummonAll(ps)[i]) {
      ActingAt(active, ps, i);
    }
  }

  /** Spending ends the activation with the last slot, so an actor that stays active has one left. */
  lemma SpentActing(c: Combat, i: nat, slot: Slot)
    requires i < |c.participants| && ActiveSteady(c)
    requires slot.ReactionSlot? || !AfterSpend(c.participants[i], slot).activationSpent
    ensures AllActing(c.activeActor, c.participants[i := AfterSpend(c.participants[i], slot)])
  {
    ActingAt(c.activeActor, c.participants, i);
    OneActing(c.activeActor, c.participants, i, AfterSpend(c.participants[i], slot));
  }

  lemma TurnKeepsActing(s: GameState, e: Event, t: GameState)
    requires GroupOf(e).TurnEvent? && StepTurn(s, e) == Done(t) && Steady(e) && !e.ActivationStarted? && TurnSteady(s)
    requires s.combat.Some? ==> ActiveSound(s.combat.Get()) && Distinct(ParticipantIds(s.combat.Get().participants))
    ensures TurnSteady(t)
  {
    hide FindZone, IndexOf, Occupancy, AllSpent, SummonAll, RefreshAll, AfterSpend, DropConditions,
         EndRoundConditions, AllActing, SlotAvailable, ActiveSound, Distinct, FreshParticipant, GroupOf,
         FindParticipant, StartActivation;
    if e.CombatStarted? {
      NobodyActing(e.combat.participants);
    } else if s.combat.Some? {
      var c := s.combat.value;
      if e.ActionSlotSpent? {
        SpendKeepsActing(s, e.combatId, e.actorId, e.spentSlot, t);
      } else if e.ActionSlotRestored? {
        var i := FindParticipant(c, e.actorId).value;
        RestoredActing(c.participants, i, SetSlot(c.participants[i], e.spentSlot, true).(activationSpent := false));
      } else if e.ActorMoved? {
        var i := FindParticipant(c, e.actorId).value;
        ActingAt(c.activeActor, c.participants, i);
        OneActing(c.activeActor, c.participants, i, c.participants[i].(zoneId := e.toZone));
      } else if e.ReactionRestored? {
        var i := FindParticipant(c, e.actorId).value;
        ActingAt(c.activeActor, c.participants, i);
        OneActing(c.activeActor, c.participants, i, c.participants[i].(reactionAvailable := true));
      } else if e.RoundAdvanced? {
        NobodyActing(RefreshAll(c));
      } else if e.ObjectiveAdvanced? {
        SummonedActing(c.activeActor, c.participants);
      }
    }
  }

  lemma SpendKeepsActing(s: GameState, combatId: Id, actor: Id, slot: Slot, t: GameState)
    requires SpendSlot(s, combatId, actor, slot) == Done(t) && TurnSteady(s)
    requires s.combat.Some? ==> ActiveSound(s.combat.value)
    ensures TurnSteady(t)
  {
    hide AllActing, AfterSpend, SlotAvailable, ActiveSound, FindParticipant;
    var c := s.combat.value;
    var i := FindParticipant(c, actor).value;
    var q := AfterSpend(c.participants[i], slot);
    if slot.ReactionSlot? || !q.activationSpent {
      SpentActing(c, i, slot);
    } else {
      ActiveIsUnspent(c, i);
    }
    NobodyActing(c.participants[i := q]);
  }

  lemma ActiveIsUnspent(c: Combat, i: nat)
    requires ActiveSound(c) && i < |c.participants| && c.activeActor.Some?
             && FindParticipant(c, c.activeActor.value) == Some(i)
    ensures !c.participants[i].activationSpent
  {}

  lemma SameTurnsActing(s: GameState, t: GameState)
    requires SameTurns(s, t) && TurnSteady(s)
    ensures TurnSteady(t)
  {
    if s.combat.Some? {
      var c, d := s.combat.value, t.combat.value;
      forall i | 0 <= i < |d.participants| ensures Acting(d.activeActor, d.participants[i]) {
        assert SameSlotsOf(c.participants[i], d.participants[i]) && Acting(c.activeActor, c.participants[i]);
      }
    }
  }

  lemma ApplyKeepsActing(s: GameState, e: Event, t: GameState)
    requires ValidGameState(s) && Apply(s, e) == Done(t) && Steady(e) && !e.ActivationStarted? && TurnSteady(s)
    ensures TurnSteady(t)
  {
    hide GroupOf, StepCheck, StepHero, StepTurn, StepHarm, StepScene, ValidGameState, ActiveSteady, Steady, SameTurns,
         ActiveSound, ParticipantIds;
    match GroupOf(e)
    case AuditEvent =>
    case CheckEvent =>
      CheckKeepsTurns(s, e, t);
      SameTurnsActing(s, t);
    case HeroEvent => HeroKeepsCombat(s, e, t);
    case TurnEvent =>
      FightIsSound(s);
      TurnKeepsActing(s, e, t);
    case HarmEvent =>
      HarmKeepsTurns(s, e, t);
      SameTurnsActing(s, t);
    case SceneEvent => SceneKeepsCombat(s, e, t);
  }

  lemma FightIsSound(s: GameState)
    requires ValidGameState(s)
    ensures s.combat.Some? ==> ActiveSound(s.combat.Get()) && Distinct(ParticipantIds(s.combat.Get().participants))
  {
    hide ValidGameState, ValidCombat, ValidParty, ValidPendings, ValidChallenges, ActiveSound, ValidRituals,
         ParticipantsSound, ValidSocials, ValidScars, OverlaysSound, OccupancyFits, ValidDeaths, CharacterIds,
         ParticipantIds, StatusSound, ObjectivesSound, Distinct;
    ValidParts(s);
    if s.combat.Some? {
      CombatActive(s.combat.value);
    }
  }

  lemma {:induction false} FoldKeepsActing(s: GameState, es: seq<Event>, t: GameState)
    requires ValidGameState(s) && Fold(s, es) == Done(t) && AllSteady(es) && StartsNobody(es) && TurnSteady(s)
    ensures TurnSteady(t)
    decreases |es|
  {
    hide Apply, TurnSteady, Steady, ValidGameState;
    if es != [] {
      var u := Apply(s, es[0]).value;
      ApplyKeepsActing(s, es[0], u);
      FoldOne(s, es[0]);
      FoldKeepsValid(s, [es[0]], u);
      FoldKeepsActing(u, es[1..], t);
    }
  }

  // ----- Activations -----

  /** After a hero's activation began, it is a hero that is active. */
  lemma HeroStarts(s: GameState, combatId: Id, actor: Id, t: GameState)
    requires Apply(s, ActivationStarted(combatId, actor, HeroSide)) == Done(t)
    ensures t.combat.Some? && t.combat.Get().activeSide.HeroSide? && t.combat.Get().activeActor.Some?
  {
    hide ValidGameState, IndexOf;
  }

  lemma HeroesNeverWait(s: GameState)
    requires ValidGameState(s) && SlotsMatch(s)
    requires s.combat.Some? && s.combat.Get().activeSide.HeroSide? && s.combat.Get().activeActor.Some?
    ensures TurnSteady(s)
  {
    hide ValidGameState, ValidCombat, IndexOf, Distinct, SlotsMatch, ValidParty, ValidPendings, ValidChallenges,
         ActiveSound, ValidRituals, ParticipantsSound;
    var c := s.combat.value;
    ValidParts(s);
    CombatActive(c);
    forall i | 0 <= i < |c.participants| && c.activeActor == Some(c.participants[i].actorId)
      ensures !Waiting(c.round, c.participants[i]) {
      IndexOfDistinct(ParticipantIds(c.participants), i);
      ActiveParts(c, i);
    }
    SteadyWhileMatched(s);
  }

  lemma ChoiceActs(s: GameState, combatId: Id, actor: Id, t: GameState)
    requires ValidGameState(s) && SlotsMatch(s) && TurnSteady(s)
    requires DecideChooseHeroActivation(s, combatId, actor).Done?
    requires Fold(s, DecideChooseHeroActivation(s, combatId, actor).Get()) == Done(t)
    ensures TurnSteady(t)
  {
    hide ValidGameState, SlotsMatch, Alive, SomeUnspent, IndexOf, Apply, Steady, TurnSteady,
         DecideChooseHeroActivation, AllSteady;
    var es := DecideChooseHeroActivation(s, combatId, actor).value;
    ChooseIsSteady(s, combatId, actor);
    FoldKeepsSlots(s, es, t);
    FoldKeepsValid(s, es, t);
    if es != [] {
      var front, last := es[..|es| - 1], es[|es| - 1];
      assert es == front + [last];
      FoldAppend(s, front, [last]);
      var u := Fold(s, front).value;
      FoldOne(u, last);
      HeroStarts(u, last.combatId, last.actorId, t);
      HeroesNeverWait(t);
    }
  }

  lemma ChooseIsSteady(s: GameState, combatId: Id, actor: Id)
    requires DecideChooseHeroActivation(s, combatId, actor).Done?
    ensures var es := DecideChooseHeroActivation(s, combatId, actor).Get();
            AllSteady(es) && (es == [] || (At(es, |es| - 1).ActivationStarted? && At(es, |es| - 1).side.HeroSide?))
  {
    hide Alive, SomeUnspent, IndexOf;
  }

  /** An enemy is selected for an action, so it has a slot. */
  lemma SelectionActs(s: GameState, facts: Facts, combatId: Id, actor: Id, t: GameState)
    requires ValidGameState(s) && DecideSelectEnemyFallback(s, facts, combatId, actor).Done?
    requires Fold(s, DecideSelectEnemyFallback(s, facts, combatId, actor).Get()) == Done(t)
    ensures TurnSteady(t)
  {
    hide ValidGameState, DecideSelectEnemyFallback, EnumerateActions, Legal, Scored, Distinct, IndexOf, Apply, Fold,
         Alive, ActiveSound, ParticipantIds;
    SelectsEnemy(s, facts, combatId, actor);
    ChoiceIsBest(s, facts, combatId, actor);
    SelectionOpens(s, facts, combatId, actor, t);
    FightIsSound(s);
    var catalog, ids := facts.catalog.value, facts.legalActionIdFor.value;
    var x := Selected(DecideSelectEnemyFallback(s, facts, combatId, actor).value).value;
    var p := EnumeratedIsLegal(s, catalog, actor, ids, x);
    LegalSlot(s, s.combat.value, ids, p, catalog, x);
    var ps := t.combat.value.participants;
    forall i | 0 <= i < |ps| ensures Acting(Some(actor), ps[i]) {
      if ps[i].actorId == actor {
        IndexOfDistinct(ParticipantIds(ps), i);
      }
    }
  }

  // ----- The active actor in every run -----

  lemma SubmitActs(x: Session, facts: Facts, command: Command)
    requires Kept(x) && SlotsMatch(x.state) && TurnSteady(x.state)
    ensures TurnSteady(Next(x, Submit(facts, command)).state)
  {
    hide StateKept, Decide, Form, Apply, SlotsMatch, TurnSteady, AllSteady, StartsNobody, OnlyReactions,
         DecideChooseHeroActivation, DecideSelectEnemyFallback, Fold, ValidGameState, ValidParty;
    if Decide(x.state, facts, command).Done? && Fold(x.state, Decide(x.state, facts, command).value).Done? {
      var es := Decide(x.state, facts, command).value;
      var t := Fold(x.state, es).value;
      StateIsValid(x.state);
      PartyIsValid(x.state);
      if Activating(command) {
        ActivatingDecision(x.state, facts, command);
        if command.ChooseHeroActivation? {
          ChoiceActs(x.state, command.combatId, command.actorId, t);
        } else {
          SelectionActs(x.state, facts, command.combatId, command.actorId, t);
        }
      } else {
        var parts := DecidedForm(x.state, facts, command);
        FormIsSteady(x.state, es, parts);
        FoldKeepsActing(x.state, es, t);
      }
    }
  }

  lemma ActivatingDecision(s: GameState, facts: Facts, command: Command)
    ensures command.ChooseHeroActivation? ==>
              Decide(s, facts, command) == DecideChooseHeroActivation(s, command.combatId, command.actorId)
    ensures command.SelectEnemyFallback? ==>
              Decide(s, facts, command) == DecideSelectEnemyFallback(s, facts, command.combatId, command.actorId)
  {
    hide DecideChooseHeroActivation, DecideSelectEnemyFallback, DecideHero, DecideScene, DecideExecuteCombatAction,
         DecideSubmitDieResult, ContinuationEvents, ExecuteCandidate;
  }

  lemma {:induction false} InversesStartNobody(es: seq<Event>)
    requires InvertAll(es).Planned?
    ensures StartsNobody(InvertAll(es).events)
    decreases |es|
  {
    hide Classify, Inverse, Prepend;
    if es != [] {
      var front, last := es[..|es| - 1], es[|es| - 1];
      assert es == front + [last];
      InvertLast(front, last);
      InversesStartNobody(front);
      InverseStartsNobody(last);
    }
  }

  lemma InverseStartsNobody(e: Event)
    ensures Inverse(e).Some? ==> !Inverse(e).value.ActivationStarted?
  {}

  lemma UndoActs(x: Session)
    requires Kept(x) && TurnSteady(x.state)
    ensures TurnSteady(Next(x, UndoLatest).state)
  {
    hide StateKept, HasForm, Apply, TurnSteady, InvertAll, AllSteady, Fold, ValidGameState;
    if x.latest.Some? && Plan(x.latest.value.events).Planned?
      && Fold(x.state, Plan(x.latest.value.events).events).Done? {
      var es := x.latest.value.events;
      StateIsValid(x.state);
      PlanIsSteady(x.latest.value.before, es);
      InversesStartNobody(es);
      FoldKeepsActing(x.state, Plan(es).events, Fold(x.state, Plan(es).events).value);
    }
  }

  lemma {:induction false} RunActs(x: Session, actions: seq<Action>)
    requires Kept(x) && SlotsMatch(x.state) && TurnSteady(x.state)
    ensures TurnSteady(Run(x, actions).state)
    decreases |actions|
  {
    hide Next, Kept, SlotsMatch, TurnSteady;
    if actions != [] {
      var n := |actions| - 1;
      RunActs(x, actions[..n]);
      RunKeeps(x, actions[..n]);
      SlotsInEveryRun(x, actions[..n]);
      var y := Run(x, actions[..n]);
      match actions[n]
      case Submit(facts, command) => SubmitActs(y, facts, command);
      case UndoLatest => UndoActs(y);
    }
  }

  lemma NewIsSteady(manifest: nat)
    ensures SlotsMatch(NewCampaign(manifest).state) && TurnSteady(NewCampaign(manifest).state)
  {}

  /** In every reachable state, undo included, the active actor has its action or its maneuver left. */
  lemma ActiveCanActInEveryRun(manifest: nat, actions: seq<Action>, c: Combat, p: Participant)
    requires Run(NewCampaign(manifest), actions).state.combat == Some(c)
    requires p in c.participants && c.activeActor == Some(p.actorId)
    ensures p.actionAvailable || p.maneuverAvailable
  {
    hide Run, Kept;
    NewCampaignKept(manifest);
    RunActs(NewCampaign(manifest), actions);
    var i :| 0 <= i < |c.participants| && c.participants[i] == p;
    assert Acting(c.activeActor, c.participants[i]);
  }

  // ----- No deadlock -----

  /** No enemy of the fight enters on an objective. */
  predicate NoObjectiveReinforcements(c: Combat) {
    forall i :: 0 <= i < |c.participants| ==>
      !(c.participants[i].role.Enemy? && c.participants[i].role.trigger.ObjectiveTwo?)
  }

  lemma MatchedLiving(s: GameState)
    requires s.combat.Some? && SlotsMatch(s) && NoObjectiveReinforcements(s.combat.value)
    ensures LivingMatched(s, s.combat.value)
  {
    var c := s.combat.value;
    forall i | 0 <= i < |c.participants| && Alive(s, c.participants[i])
      ensures c.participants[i].activationSpent <==> SlotsGone(c.participants[i]) {
      assert Matched(c.round, c.participants[i]);
    }
  }

  /** In every run, undo included, of a campaign whose fight has no reinforcement waiting for an objective: no
      deadlock. */
  lemma NoDeadlockInEveryRun(manifest: nat, actions: seq<Action>, facts: Facts, h: nat)
    requires var s := Run(NewCampaign(manifest), actions).state;
             && s.combat.Some? && s.combat.Get().status.Active? && Supplied(s, facts)
               && NoObjectiveReinforcements(s.combat.Get())
             && h < |s.combat.Get().participants| && At(s.combat.Get().participants, h).role.Hero?
               && Alive(s, At(s.combat.Get().participants, h))
             && (s.combat.Get().activeActor.Some? ==>
                   && FindParticipant(s.combat.Get(), s.combat.Get().activeActor.Get()).Some?
                   && Alive(s, At(s.combat.Get().participants, FindParticipant(s.combat.Get(),
                     s.combat.Get().activeActor.Get()).Get())))
    ensures CanGoOn(Run(NewCampaign(manifest), actions).state, facts)
  {
    hide Run, Kept, Alive, IndexOf, Supplied, CanGoOn, ValidGameState, SlotsMatch, NoObjectiveReinforcements,
         LivingMatched, FindParticipant, NewCampaign, At;
    NewCampaignKept(manifest);
    RunKeeps(NewCampaign(manifest), actions);
    EmptyMatches(manifest);
    SlotsInEveryRun(NewCampaign(manifest), actions);
    var x := Run(NewCampaign(manifest), actions);
    KeptIsValid(x);
    MatchedLiving(x.state);
    NoDeadlock(x.state, facts, h);
  }

  lemma EmptyMatches(manifest: nat)
    ensures SlotsMatch(NewCampaign(manifest).state)
  {}

  lemma KeptIsValid(x: Session)
    requires Kept(x)
    ensures ValidGameState(x.state)
  {
    hide ValidGameState, WoundInvariant.VitalsSound, AwaitsKnown;
  }
}
