/** A campaign's run: commands one transaction at a time, and undo of the latest one. */
module Sessions {
  import opened Common
  import opened State
  import opened Validity
  import opened Events
  import opened Reducer
  import opened Checks
  import opened Compensation
  import opened Undo
  import opened Content
  import opened Commands
  import opened Vitals
  import opened Forms
  import opened CombatForms
  import opened WoundInvariant

  /** The latest transaction: the state it was decided in, and its events. */
  datatype Transaction = Transaction(before: GameState, events: seq<Event>)

  datatype Session = Session(state: GameState, latest: Option<Transaction>)

  datatype Action = Submit(facts: Facts, command: Command) | UndoLatest

  /** One submission. A rejected or inapplicable one commits nothing; a compensation cannot itself be undone. */
  ghost function Next(x: Session, a: Action): Session {
    match a
    case Submit(facts, command) =>
      (match Decide(x.state, facts, command)
       case Refused => x
       case Done(es) =>
         match Fold(x.state, es)
         case Refused => x
         case Done(t) => Session(t, Some(Transaction(x.state, es))))
    case UndoLatest =>
      match x.latest
      case None => x
      case Some(latest) =>
        match Plan(latest.events)
        case Declined(_) => x
        case Planned(inverses) =>
          match Fold(x.state, inverses)
          case Refused => x
          case Done(t) => Session(t, None)
  }

  ghost function Run(x: Session, actions: seq<Action>): Session
    decreases |actions|
  {
    if actions == [] then x else Next(Run(x, actions[..|actions| - 1]), actions[|actions| - 1])
  }

  function NewCampaign(manifest: nat): Session {
    Session(EmptyCampaign(manifest), None)
  }

  // ----- Awaited identities are pending -----

  /** A check the combat waits for is pending, and an awaited action continues a combat action. */
  predicate AwaitsKnown(s: GameState) {
    s.combat.Some? ==>
      && (s.combat.value.pendingDeath.Some? ==> s.combat.value.pendingDeath.value in CheckIds(s.pendingChecks))
      && (s.combat.value.pendingAction.Some? ==> AwaitsAction(s.pendingChecks, s.combat.value.pendingAction.value))
  }

  predicate AwaitsAction(ps: seq<PendingCheck>, id: Id) {
    match IndexOf(CheckIds(ps), id)
    case None => false
    case Some(i) => ps[i].continuation.Some? && ps[i].continuation.value.CombatAction?
  }

  predicate SameAwaits(s: GameState, t: GameState) {
    && t.pendingChecks == s.pendingChecks
    && (s.combat.Some? <==> t.combat.Some?)
    && (s.combat.Some? ==> SameAwaited(s.combat.value, t.combat.value))
  }

  predicate SameAwaited(c: Combat, d: Combat) {
    d.pendingDeath == c.pendingDeath && d.pendingAction == c.pendingAction
  }

  /** A combat starts waiting for nothing. */
  predicate StartsCalm(e: Event) {
    e.CombatStarted? ==> e.combat.pendingDeath.None? && e.combat.pendingAction.None?
  }

  lemma HeroKeepsAwaits(s: GameState, e: Event, t: GameState)
    requires GroupOf(e).HeroEvent? && StepHero(s, e) == Done(t)
    ensures SameAwaits(s, t)
  {
    hide RestEach, StartSceneEach, UseIndex, IndexOf, NextCost, RankSlot, WithFeature, FindRitual, FindCharacter,
         FindActor, GroupOf;
  }

  lemma TurnKeepsAwaits(s: GameState, e: Event, t: GameState)
    requires GroupOf(e).TurnEvent? && StepTurn(s, e) == Done(t) && StartsCalm(e) && AwaitsKnown(s)
    ensures AwaitsKnown(t)
  {
    hide FindParticipant, FindZone, IndexOf, SlotAvailable, AfterSpend, Occupancy, AllSpent, SummonAll, RefreshAll,
         SetSlot, Opposite, DropConditions, EndRoundConditions, AwaitsAction, GroupOf;
  }

  lemma HarmKeepsAwaits(s: GameState, e: Event, t: GameState)
    requires GroupOf(e).HarmEvent? && StepHarm(s, e) == Done(t)
    ensures SameAwaits(s, t)
  {
    hide FindParticipant, FindActor, FindCharacter, IndexOf, FillsOneSlot, ReplaceOverlays;
  }

  lemma SceneKeepsAwaits(s: GameState, e: Event, t: GameState)
    requires GroupOf(e).SceneEvent? && StepScene(s, e) == Done(t)
    ensures SameAwaits(s, t)
  {
    hide FindSocial, FindRitual, FindChallenge, IndexOf, ValidChallenge, ValidSocial, ValidRitual, NextCost,
         FindCharacter, Contributed, GroupOf;
  }

  lemma RemovedStillAwaits(ps: seq<PendingCheck>, i: nat, id: Id)
    requires i < |ps| && ps[i].checkId != id && Distinct(CheckIds(ps))
    ensures id in CheckIds(Removed(ps, i)) <==> id in CheckIds(ps)
    ensures AwaitsAction(Removed(ps, i), id) <==> AwaitsAction(ps, id)
  {
    hide IndexOf, CheckIds;
    var qs := Removed(ps, i);
    if id in CheckIds(ps) {
      var j := IndexOf(CheckIds(ps), id).value;
      var k := if j < i then j else j - 1;
      assert qs[k] == ps[j] && CheckIds(qs)[k] == id;
      var m := IndexOf(CheckIds(qs), id).value;
      assert qs[m] == ps[if m < i then m else m + 1];
      IndexOfDistinct(CheckIds(ps), if m < i then m else m + 1);
    }
    if id in CheckIds(qs) {
      var m := IndexOf(CheckIds(qs), id).value;
      assert CheckIds(ps)[if m < i then m else m + 1] == id;
    }
  }

  lemma ResolvedKeepsAwaits(s: GameState, id: Id, t: GameState)
    requires ResolvePhysical(s, id) == Done(t) && AwaitsKnown(s) && Distinct(CheckIds(s.pendingChecks))
    requires s.combat.Some? ==> StatusSound(s.combat.value)
    ensures AwaitsKnown(t)
  {
    hide Removed, AwaitsAction, FindPending, IndexOf, CheckIds, WithoutCheck;
    var i := FindPending(s, id).value;
    WithoutIsRemoved(s.pendingChecks, i);
    if s.combat.Some? {
      var c := s.combat.value;
      if c.pendingDeath.Some? && c.pendingDeath.value != id { RemovedStillAwaits(s.pendingChecks, i,
        c.pendingDeath.value); }
      if c.pendingAction.Some? {
        if c.pendingAction.value != id { RemovedStillAwaits(s.pendingChecks, i, c.pendingAction.value); }
        else { AwaitedContinuation(s.pendingChecks, i, id); }
      }
    }
  }

  lemma AwaitedContinuation(ps: seq<PendingCheck>, i: nat, id: Id)
    requires AwaitsAction(ps, id) && IndexOf(CheckIds(ps), id) == Some(i)
    ensures ps[i].continuation.Some? && ps[i].continuation.value.CombatAction?
  {}

  lemma CancelKeepsAwaits(s: GameState, id: Id, t: GameState)
    requires CancelRoll(s, id) == Done(t) && AwaitsKnown(s) && Distinct(CheckIds(s.pendingChecks))
    ensures AwaitsKnown(t)
  {
    hide Removed, AwaitsAction, FindRitual;
    var i := FindPending(s, id).value;
    WithoutIsRemoved(s.pendingChecks, i);
    if s.combat.Some? {
      var c := s.combat.value;
      if c.pendingDeath.Some? && c.pendingDeath.value != id { RemovedStillAwaits(s.pendingChecks, i,
        c.pendingDeath.value); }
      if c.pendingAction.Some? && c.pendingAction.value != id { RemovedStillAwaits(s.pendingChecks, i,
        c.pendingAction.value); }
    }
  }

  lemma AppendedAwaits(ps: seq<PendingCheck>, p: PendingCheck, id: Id)
    requires id in CheckIds(ps)
    ensures id in CheckIds(ps + [p])
    ensures AwaitsAction(ps, id) ==> AwaitsAction(ps + [p], id)
  {
    assert CheckIds(ps + [p]) == CheckIds(ps) + [p.checkId];
    IndexOfKept(CheckIds(ps), [p.checkId], id);
  }

  lemma RequestKeepsAwaits(s: GameState, id: Id, nonce: Id, d: Disclosure, t: GameState)
    requires RequestRoll(s, id, nonce, d) == Done(t) && AwaitsKnown(s)
    ensures AwaitsKnown(t)
  {
    hide AwaitsAction;
    var p := PendingCheck(id, nonce, d, None);
    assert CheckIds(t.pendingChecks)[|s.pendingChecks|] == id;
    if s.combat.Some? {
      var c := s.combat.value;
      if c.pendingDeath.Some? { AppendedAwaits(s.pendingChecks, p, c.pendingDeath.value); }
      if c.pendingAction.Some? {
        AwaitedIsPending(s.pendingChecks, c.pendingAction.value);
        AppendedAwaits(s.pendingChecks, p, c.pendingAction.value);
      }
    }
  }

  lemma AwaitedIsPending(ps: seq<PendingCheck>, id: Id)
    requires AwaitsAction(ps, id)
    ensures id in CheckIds(ps)
  {}

  /** Replacing a check by one of the same identity, whose continuation is not lost. */
  lemma ReplacedAwaits(ps: seq<PendingCheck>, i: nat, p: PendingCheck, id: Id)
    requires i < |ps| && p.checkId == ps[i].checkId && (ps[i].continuation.Some? ==>
             p.continuation == ps[i].continuation)
    ensures CheckIds(ps[i := p]) == CheckIds(ps)
    ensures AwaitsAction(ps, id) ==> AwaitsAction(ps[i := p], id)
  {
    assert CheckIds(ps[i := p]) == CheckIds(ps);
  }

  lemma ContinueKeepsAwaits(s: GameState, id: Id, k: Continuation, t: GameState)
    requires Continue(s, id, k) == Done(t) && AwaitsKnown(s)
    ensures AwaitsKnown(t) && t.combat == s.combat
    ensures k.CombatAction? ==> AwaitsAction(t.pendingChecks, id)
  {
    hide CheckIds;
    var i := FindPending(s, id).value;
    ReplacedAwaits(s.pendingChecks, i, t.pendingChecks[i], id);
    if s.combat.Some? && s.combat.value.pendingAction.Some? {
      ReplacedAwaits(s.pendingChecks, i, t.pendingChecks[i], s.combat.value.pendingAction.value);
    }
  }

  lemma AidKeepsAwaits(s: GameState, id: Id, d: Disclosure, t: GameState)
    requires AidDeathTest(s, id, d) == Done(t) && AwaitsKnown(s)
    ensures AwaitsKnown(t)
  {
    hide FindPending, CheckIds;
    var i := FindPending(s, id).value;
    ReplacedAwaits(s.pendingChecks, i, t.pendingChecks[i], id);
    if s.combat.Some? && s.combat.value.pendingAction.Some? {
      ReplacedAwaits(s.pendingChecks, i, t.pendingChecks[i], s.combat.value.pendingAction.value);
    }
  }

  lemma PendingKeepsAwaits(s: GameState, e: Event, t: GameState)
    requires GroupOf(e).CheckEvent? && StepCheck(s, e) == Done(t) && AwaitsKnown(s)
    requires !e.CheckResolvedPhysical? && !e.PhysicalRollRequested? && !e.PhysicalRollCancelled?
             && !e.DeathTestAidApplied?
    ensures AwaitsKnown(t)
  {
    hide Continue, FindRitual, FindChallenge, FindSocial, AwaitsAction, GroupOf, CancelRoll, ReopenRitual;
    var k := ContinuationOf(e);
    ContinueKeepsAwaits(s, e.checkId, k, Continue(s, e.checkId, k).value);
  }

  lemma CheckKeepsAwaits(s: GameState, e: Event, t: GameState)
    requires GroupOf(e).CheckEvent? && StepCheck(s, e) == Done(t) && AwaitsKnown(s)
             && Distinct(CheckIds(s.pendingChecks))
    requires s.combat.Some? ==> StatusSound(s.combat.Get())
    ensures AwaitsKnown(t)
  {
    hide AwaitsKnown, ResolvePhysical, RequestRoll, CancelRoll, AidDeathTest, StatusSound, Continue, AwaitAction,
         AwaitChallenge, AwaitSocial, AwaitRitual, GroupOf, CheckIds, Distinct;
    if e.CheckResolvedPhysical? {
      ResolvedKeepsAwaits(s, e.checkId, t);
    } else if e.PhysicalRollRequested? {
      RequestKeepsAwaits(s, e.checkId, e.nonce, e.disclosure, t);
    } else if e.PhysicalRollCancelled? {
      CancelKeepsAwaits(s, e.checkId, t);
    } else if e.DeathTestAidApplied? {
      AidKeepsAwaits(s, e.checkId, e.disclosure, t);
    } else {
      PendingKeepsAwaits(s, e, t);
    }
  }

  lemma ApplyKeepsAwaits(s: GameState, e: Event, t: GameState)
    requires ValidGameState(s) && Apply(s, e) == Done(t) && StartsCalm(e) && AwaitsKnown(s)
    ensures AwaitsKnown(t)
  {
    hide GroupOf, StepCheck, StepHero, StepTurn, StepHarm, StepScene, ValidGameState, StartsCalm, StatusSound,
         AwaitsAction, CheckIds, CharacterIds, Distinct;
    match GroupOf(e)
    case AuditEvent =>
    case CheckEvent =>
      PendingsDistinct(s);
      StatusIsSound(s);
      CheckKeepsAwaits(s, e, t);
    case HeroEvent => HeroKeepsAwaits(s, e, t);
    case TurnEvent => TurnKeepsAwaits(s, e, t);
    case HarmEvent => HarmKeepsAwaits(s, e, t);
    case SceneEvent => SceneKeepsAwaits(s, e, t);
  }

  predicate AllCalm(es: seq<Event>) {
    forall i :: 0 <= i < |es| ==> StartsCalm(es[i])
  }

  lemma {:induction false} FoldKeepsAwaits(s: GameState, es: seq<Event>, t: GameState)
    requires ValidGameState(s) && Fold(s, es) == Done(t) && AllCalm(es) && AwaitsKnown(s)
    ensures AwaitsKnown(t)
    decreases |es|
  {
    hide Apply, AwaitsKnown, ValidGameState, StartsCalm;
    if es != [] {
      var u := Apply(s, es[0]).value;
      ApplyKeepsAwaits(s, es[0], u);
      FoldOne(s, es[0]);
      FoldKeepsValid(s, [es[0]], u);
      FoldKeepsAwaits(u, es[1..], t);
    }
  }

  // ----- What undo can be asked of a decided transaction -----

  lemma HarmlessIsCalm(e: Event)
    requires Harmless(e)
    ensures StartsCalm(e)
  {}

  lemma CoreIsCalm(s: GameState, parts: Parts, e: Event)
    requires CheckPart(s, parts.check) && CorePart(s, parts.check, parts.kind, parts.core)
    requires e in parts.check || e in parts.core
    ensures StartsCalm(e)
  {
    hide Marks, Honest, Subject, ClearsThirdWound;
  }

  lemma FormIsCalm(s: GameState, es: seq<Event>, parts: Parts)
    requires Form(s, es, parts)
    ensures AllCalm(es)
  {
    hide Harmless, StartsCalm, CheckPart, CorePart, ReactionCloses;
    forall i | 0 <= i < |es| ensures StartsCalm(es[i]) {
      if es[i] in parts.check || es[i] in parts.core {
        CoreIsCalm(s, parts, es[i]);
      } else if es[i] in parts.pre {
        HarmlessIsCalm(es[i]);
      } else {
        assert es[i] in parts.post;
        HarmlessIsCalm(es[i]);
      }
    }
  }

  /** A plan exists only when no event refuses to be undone. */
  lemma {:induction false} PlannedRefusesNone(es: seq<Event>, e: Event)
    requires InvertAll(es).Planned? && e in es
    ensures !Classify(e).NonUndoable?
    decreases |es|
  {
    hide Classify, Inverse, InvertAll;
    var front, last := es[..|es| - 1], es[|es| - 1];
    assert es == front + [last];
    InvertLast(front, last);
    if e != last {
      PlannedRefusesNone(front, e);
    }
  }

  lemma HarmlessUndoable(e: Event)
    requires Harmless(e) && !Classify(e).NonUndoable? && !(e.ActionSlotSpent? && e.spentSlot.ReactionSlot?)
    ensures Simple(e) || Neutral(e)
  {}

  lemma ClosingRefuses()
    ensures Classify(ReactionWindowClosed).NonUndoable?
  {}

  /** Outside a roll request, the thing done to vitals refuses to be undone. */
  lemma CoreRefuses(s: GameState, parts: Parts)
    requires CheckPart(s, parts.check) && CorePart(s, parts.check, parts.kind, parts.core)
    requires !parts.kind.Roll? && (parts.check != [] || !parts.kind.NoCore?)
    ensures exists e :: e in parts.check + parts.core && Classify(e).NonUndoable?
  {
    hide Marks, Honest, Subject, ClearsThirdWound, RollCore;
    if parts.check != [] {
      assert parts.check[0] in parts.check + parts.core;
    } else {
      assert parts.core[0] in parts.check + parts.core;
    }
  }

  lemma RollIsTail(core: seq<Event>)
    requires RollCore(core)
    ensures RollTail(core)
  {
    hide Honest;
  }

  /** A decided transaction that undo accepts is simple events and at most one roll request. */
  lemma UndoableShape(s: GameState, es: seq<Event>, parts: Parts) returns (pre: seq<Event>, tail: seq<Event>)
    requires Form(s, es, parts) && InvertAll(es).Planned?
    ensures es == pre + tail && Undoes(pre, tail)
    ensures tail == [] ==> AllHarmless(es)
    ensures tail != [] ==> AllHarmless(pre) && RollCore(tail)
  {
    hide Harmless, CheckPart, Classify, Simple, Neutral, InvertAll, Honest, CorePart, RollTail, RollCore;
    ClosingRefuses();
    if !parts.kind.Roll? && (parts.check != [] || !parts.kind.NoCore?) {
      CoreRefuses(s, parts);
      var e :| e in parts.check + parts.core && Classify(e).NonUndoable?;
      PlannedRefusesNone(es, e);
    }
    CorePieces(s, parts);
    if parts.kind.Roll? {
      pre, tail := parts.pre, parts.core;
      RollIsTail(tail);
    } else {
      pre, tail := parts.pre + parts.post, [];
    }
    forall i | 0 <= i < |pre| ensures Simple(pre[i]) || Neutral(pre[i]) {
      assert pre[i] in es;
      PlannedRefusesNone(es, pre[i]);
      if pre[i].ActionSlotSpent? && pre[i].spentSlot.ReactionSlot? {
        var j :| 0 <= j < |es| && es[j] == pre[i];
        PlannedRefusesNone(es, ReactionWindowClosed);
      }
      HarmlessUndoable(pre[i]);
    }
  }

  lemma CorePieces(s: GameState, parts: Parts)
    requires CheckPart(s, parts.check) && CorePart(s, parts.check, parts.kind, parts.core)
    ensures parts.kind.Roll? ==> parts.check == [] && RollCore(parts.core)
    ensures parts.kind.NoCore? ==> parts.core == []
  {
    hide Marks, Honest, Subject, ClearsThirdWound, RollCore, TestsDeath, CheckPart;
  }

  /** The roll request a transaction ends with, and its continuation. */
  function TailOf(es: seq<Event>): (tail: seq<Event>)
    ensures tail == [] || RollTail(tail)
  {
    var n := |es|;
    if n >= 1 && es[n - 1].PhysicalRollRequested? then es[n - 1..]
    else if n >= 2 && es[n - 2].PhysicalRollRequested? && PendingFor(es[n - 1], es[n - 2].checkId) then es[n - 2..]
    else []
  }

  lemma SimpleAsksNothing(e: Event)
    requires Simple(e) || Neutral(e)
    ensures !e.PhysicalRollRequested? && forall id :: !PendingFor(e, id)
  {}

  lemma TailIsFound(pre: seq<Event>, tail: seq<Event>)
    requires Undoes(pre, tail)
    ensures TailOf(pre + tail) == tail
  {
    hide Simple, Neutral, PendingFor;
    var es := pre + tail;
    if tail == [] {
      assert es == pre;
      if pre != [] { SimpleAsksNothing(pre[|pre| - 1]); }
    } else if |tail| == 1 {
      assert es[|es| - 1] == tail[0];
      assert es[|es| - 1..] == tail;
    } else {
      assert es[|es| - 1] == tail[1] && es[|es| - 2] == tail[0];
      PendingIsNoRequest(tail[1], tail[0].checkId);
      assert es[|es| - 2..] == tail;
    }
  }

  lemma PendingIsNoRequest(e: Event, id: Id)
    requires PendingFor(e, id)
    ensures !e.PhysicalRollRequested?
  {}

  // ----- Undo keeps vitals -----

  lemma InverseIsHarmless(e: Event)
    requires Simple(e)
    ensures Inverse(e).Some? && Harmless(Inverse(e).value) && Classify(e).Undoable?
  {}

  lemma {:induction false} InversesAreHarmless(es: seq<Event>)
    requires AllSimple(es)
    ensures InvertAll(es).Planned? && AllHarmless(InvertAll(es).Back())
    decreases |es|
  {
    hide Harmless, Simple, Neutral, Classify, Inverse, Prepend;
    if es != [] {
      var front, last := es[..|es| - 1], es[|es| - 1];
      assert es == front + [last];
      InversesAreHarmless(front);
      InvertLast(front, last);
      if Simple(last) {
        InverseIsHarmless(last);
      } else {
        NeutralIsNonState(last);
      }
    }
  }

  lemma NeutralIsNonState(e: Event)
    requires Neutral(e)
    ensures Classify(e).NonStateChanging?
  {}

  lemma CompensatedIsHarmless()
    ensures Harmless(TransactionCompensated)
  {}

  /** Whatever undo leads to has the vitals of the state before the transaction. */
  lemma UndoKeepsVitals(s: GameState, pre: seq<Event>, tail: seq<Event>, t: GameState, w: GameState)
    requires ValidGameState(s) && Undoes(pre, tail) && AllHarmless(pre)
    requires tail != [] ==> NotAwaited(s, Requested(tail))
    requires Fold(s, pre + tail) == Done(t) && Plan(pre + tail).Planned?
    requires Fold(t, Plan(pre + tail).Back()) == Done(w)
    ensures SameVitals(s, w)
  {
    hide Apply, ValidGameState, AllSimple, AllHarmless, InvertAll, SameVitals, NotAwaited, PendingFor, SameStatus,
         Fold, Harmless, OverwritesStatus, AllQuiet;
    InversesAreHarmless(pre);
    CompensatedIsHarmless();
    var back := InvertAll(pre).events + [TransactionCompensated];
    HarmlessAppend(InvertAll(pre).events);
    if tail == [] {
      assert pre + tail == pre;
      HarmlessRunKeepsVitals(s, pre, t);
      HarmlessRunKeepsVitals(t, back, w);
      VitalsChain(s, t, w);
    } else {
      FoldAppend(s, pre, tail);
      var u := Fold(s, pre).value;
      FoldKeepsValid(s, pre, u);
      InversesAreQuiet(pre);
      QuietRunKeepsStatus(s, pre, u);
      SameOverwrite(s, u, tail);
      HarmlessRunKeepsVitals(s, pre, u);
      TailInverse(pre, tail);
      var v := CancelFirst(s, u, tail, t, back);
      assert Plan(pre + tail).events == [PhysicalRollCancelled(tail[0].checkId)] + back;
      HarmlessRunKeepsVitals(v, back, w);
      CombatIsNotVital(u, v);
      VitalsChain(s, u, v);
      VitalsChain(s, v, w);
    }
  }

  lemma CombatIsNotVital(u: GameState, v: GameState)
    requires v == u.(combat := v.combat)
    ensures SameVitals(u, v)
  {}

  lemma VitalsChain(s: GameState, t: GameState, w: GameState)
    requires SameVitals(s, t) && SameVitals(t, w)
    ensures SameVitals(s, w)
  {}

  lemma HarmlessAppend(es: seq<Event>)
    requires AllHarmless(es)
    ensures AllHarmless(es + [TransactionCompensated])
  {}

  lemma PlanIsCalm(es: seq<Event>)
    requires Plan(es).Planned?
    ensures AllCalm(Plan(es).events)
  {
    hide InvertAll;
    InversesAreCalm(es);
  }

  lemma {:induction false} InversesAreCalm(es: seq<Event>)
    requires InvertAll(es).Planned?
    ensures AllCalm(InvertAll(es).events)
    decreases |es|
  {
    hide Classify, Inverse, StartsCalm, Prepend;
    if es != [] {
      var front, last := es[..|es| - 1], es[|es| - 1];
      assert es == front + [last];
      InvertLast(front, last);
      InversesAreCalm(front);
      InverseIsCalm(last);
    }
  }

  lemma InverseIsCalm(e: Event)
    ensures Inverse(e).Some? ==> StartsCalm(Inverse(e).value)
  {}

  // ----- Every run -----

  ghost predicate StateKept(s: GameState) {
    ValidGameState(s) && VitalsSound(s) && AwaitsKnown(s)
  }

  ghost predicate HasForm(s: GameState, es: seq<Event>) {
    exists parts :: Form(s, es, parts)
  }

  ghost predicate Kept(x: Session) {
    && StateKept(x.state)
    && match x.latest
       case None => true
       case Some(latest) =>
         StateKept(latest.before) && HasForm(latest.before, latest.events)
         && Fold(latest.before, latest.events) == Done(x.state)
  }

  lemma TransactionKeeps(s: GameState, es: seq<Event>, parts: Parts, t: GameState)
    requires StateKept(s) && Form(s, es, parts) && Fold(s, es) == Done(t)
    ensures StateKept(t)
  {
    hide ValidGameState, VitalsSound, AwaitsKnown, Form, Apply, AllCalm;
    FoldKeepsValid(s, es, t);
    FormKeepsSound(s, es, parts, t);
    FormIsCalm(s, es, parts);
    FoldKeepsAwaits(s, es, t);
  }

  lemma PartyIsValid(s: GameState)
    requires ValidGameState(s)
    ensures ValidParty(s.supply, s.supplyMaximum, s.characters)
  {
    hide ValidParty, ValidPendings, ValidCombatOption;
  }

  lemma SubmitKeeps(x: Session, facts: Facts, command: Command)
    requires Kept(x)
    ensures Kept(Next(x, Submit(facts, command)))
  {
    hide StateKept, Decide, Form, Apply, Fold, ValidGameState, ValidParty, OnlyReactions, Activating, StartsNobody;
    if Decide(x.state, facts, command).Done? {
      var es := Decide(x.state, facts, command).value;
      if Fold(x.state, es).Done? {
        StateIsValid(x.state);
        PartyIsValid(x.state);
        var parts := DecidedForm(x.state, facts, command);
        TransactionKeeps(x.state, es, parts, Fold(x.state, es).value);
      }
    }
  }

  lemma StateIsValid(s: GameState)
    requires StateKept(s)
    ensures ValidGameState(s)
  {
    hide ValidGameState, VitalsSound, Sound, AllHonest, Honest;
  }

  /** A requested identity is not one the combat already waits for: those are pending, and pending ones are refused. */
  lemma RequestedNotAwaited(s: GameState, pre: seq<Event>, tail: seq<Event>, t: GameState)
    requires StateKept(s) && AllHarmless(pre) && RollTail(tail) && Fold(s, pre + tail) == Done(t)
    ensures NotAwaited(s, Requested(tail))
  {
    hide Apply, ValidGameState, AllHarmless, SameVitals, AwaitsAction, VitalsSound, PendingFor, CheckIds;
    FoldAppend(s, pre, tail);
    var u := Fold(s, pre).value;
    HarmlessRunKeepsVitals(s, pre, u);
    SamePendings(s, u);
    var v := Apply(u, tail[0]).value;
    assert Fold(u, tail) == Fold(v, tail[1..]);
    RequestStep(u, tail[0].checkId, tail[0].nonce, tail[0].disclosure, v);
    if s.combat.Some? && s.combat.value.pendingAction.Some? {
      AwaitedIsPending(s.pendingChecks, s.combat.value.pendingAction.value);
    }
  }

  lemma SamePendings(s: GameState, u: GameState)
    requires SameVitals(s, u)
    ensures u.pendingChecks == s.pendingChecks
  {}

  /** Undo of a decided transaction gives back the state before it exactly when no roll request overwrote
      the status of a combat that was paused or over. */
  lemma UndoTakesBack(s: GameState, es: seq<Event>, t: GameState)
    requires StateKept(s) && HasForm(s, es) && Fold(s, es) == Done(t) && Plan(es).Planned?
    ensures Fold(t, Plan(es).Back()) == Done(s) <==> UndoRestores(s, TailOf(es))
    ensures Fold(t, Plan(es).Back()).Done? ==> SameVitals(s, Fold(t, Plan(es).Back()).Get())
  {
    hide StateKept, Form, AllHarmless, RollCore, Undoes, InvertAll, SameVitals, Apply, OverwritesStatus, RollTail,
         NotAwaited, TailOf, Fold, ValidGameState, UndoRestores, Requested;
    StateIsValid(s);
    var parts :| Form(s, es, parts);
    var pre, tail := UndoableShape(s, es, parts);
    TailIsFound(pre, tail);
    UndoesTail(pre, tail);
    if tail != [] {
      RequestedNotAwaited(s, pre, tail, t);
    } else {
      assert es == pre;
    }
    UndoIsExact(s, pre, tail, t);
    if Fold(t, Plan(es).events).Done? {
      UndoKeepsVitals(s, pre, tail, t, Fold(t, Plan(es).events).value);
    }
  }

  lemma UndoesTail(pre: seq<Event>, tail: seq<Event>)
    requires Undoes(pre, tail)
    ensures tail != [] ==> RollTail(tail)
  {}

  lemma UndoKeeps(x: Session)
    requires Kept(x)
    ensures Kept(Next(x, UndoLatest))
  {
    hide Apply, AwaitsKnown, ValidGameState, VitalsSound, Plan, SameVitals, HasForm, AllCalm, UndoRestores, TailOf,
         Fold;
    if x.latest.Some? {
      var before, es := x.latest.value.before, x.latest.value.events;
      if Plan(es).Planned? && Fold(x.state, Plan(es).events).Done? {
        var t := Fold(x.state, Plan(es).events).value;
        UndoTakesBack(before, es, x.state);
        SameVitalsSound(before, t);
        FoldKeepsValid(x.state, Plan(es).events, t);
        PlanIsCalm(es);
        FoldKeepsAwaits(x.state, Plan(es).events, t);
      }
    }
  }

  lemma NewCampaignKept(manifest: nat)
    ensures Kept(NewCampaign(manifest))
  {
    hide ValidGameState;
    EmptyCampaignIsValid(manifest);
  }

  lemma {:induction false} RunKeeps(x: Session, actions: seq<Action>)
    requires Kept(x)
    ensures Kept(Run(x, actions))
    decreases |actions|
  {
    hide Kept, Next;
    if actions != [] {
      var n := |actions| - 1;
      RunKeeps(x, actions[..n]);
      var y := Run(x, actions[..n]);
      match actions[n]
      case Submit(facts, command) => SubmitKeeps(y, facts, command);
      case UndoLatest => UndoKeeps(y);
    }
  }
}
