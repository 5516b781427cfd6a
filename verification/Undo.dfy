/** Undo takes a transaction back exactly. */
module Undo {
  import opened Common
  import opened ZoneGraph
  import opened State
  import opened Validity
  import opened Events
  import opened Reducer
  import opened Compensation

  // ----- Folds -----

  lemma {:induction false} FoldKeepsValid(s: GameState, es: seq<Event>, t: GameState)
    requires ValidGameState(s) && Fold(s, es) == Done(t)
    ensures ValidGameState(t)
    decreases |es|
  {
    hide ValidGameState, Step;
    if es != [] {
      FoldKeepsValid(Apply(s, es[0]).value, es[1..], t);
    }
  }

  lemma {:induction false} FoldAppend(s: GameState, xs: seq<Event>, ys: seq<Event>)
    ensures Fold(s, xs + ys) == match Fold(s, xs) case Refused => Refused case Done(t) => Fold(t, ys)
    decreases |xs|
  {
    hide Apply;
    if xs == [] {
      assert xs + ys == ys;
    } else {
      assert (xs + ys)[1..] == xs[1..] + ys;
      if Apply(s, xs[0]).Done? {
        FoldAppend(Apply(s, xs[0]).value, xs[1..], ys);
      }
    }
  }

  lemma FoldOne(s: GameState, e: Event)
    ensures Fold(s, [e]) == Apply(s, e)
  {
    hide Apply;
    assert Fold(s, [e]) == match Apply(s, e) case Refused => Refused case Done(t) => Fold(t, [e][1..]);
  }

  // ----- Simple events -----

  predicate AllSimple(es: seq<Event>) {
    forall i :: 0 <= i < |es| ==> Simple(es[i]) || Neutral(es[i])
  }

  lemma NeutralChangesNothing(s: GameState, e: Event, t: GameState)
    requires Neutral(e) && Apply(s, e) == Done(t)
    ensures t == s && Classify(e).NonStateChanging?
  {
    hide ValidGameState;
  }

  lemma SimpleIsUndoable(e: Event)
    requires Simple(e)
    ensures Classify(e).Undoable? && Inverse(e).Some?
  {}

  lemma InvertLast(es: seq<Event>, e: Event)
    ensures InvertAll(es + [e]) == match Classify(e)
                                   case NonStateChanging => InvertAll(es)
                                   case NonUndoable(refusal) => Declined(refusal)
                                   case Undoable => if Inverse(e).None? then Declined(NoInverse)
                                                    else Prepend([Inverse(e).value], InvertAll(es))
  {
    hide Classify, Inverse;
    assert (es + [e])[..|es|] == es;
  }

  /** A run of simple events is taken back exactly by the planned inverses. */
  lemma {:induction false} SimplesUndone(s: GameState, es: seq<Event>, t: GameState)
    requires ValidGameState(s) && AllSimple(es) && Fold(s, es) == Done(t)
    ensures InvertAll(es).Planned? && Fold(t, InvertAll(es).Back()) == Done(s)
    decreases |es|
  {
    hide Apply, Simple, Neutral, Classify, Inverse, ValidGameState, Prepend;
    if es != [] {
      var front, last := es[..|es| - 1], es[|es| - 1];
      assert es == front + [last];
      FoldAppend(s, front, [last]);
      var u := Fold(s, front).value;
      FoldOne(u, last);
      FoldKeepsValid(s, front, u);
      SimplesUndone(s, front, u);
      InvertLast(front, last);
      if Simple(last) {
        SimpleUndone(u, last, t);
        SimpleIsUndoable(last);
        var inverse := [Inverse(last).value];
        FoldAppend(t, inverse, InvertAll(front).events);
        FoldOne(t, inverse[0]);
      } else {
        NeutralChangesNothing(u, last, t);
      }
    }
  }

  // ----- A requested roll and its continuation -----

  /** The continuation event of one requested roll. */
  predicate PendingFor(e: Event, id: Id) {
    (e.CombatActionPending? || e.DeathTestPending? || e.ChallengeCheckPending? || e.SocialCheckPending?
      || e.RitualCheckPending?)
    && e.checkId == id
  }

  /** A roll request, alone or with its continuation. */
  predicate RollTail(tail: seq<Event>) {
    1 <= |tail| <= 2 && tail[0].PhysicalRollRequested? && (|tail| == 2 ==> PendingFor(tail[1], tail[0].checkId))
  }

  /** A freshly allocated identity is not one the combat already waits for. */
  predicate NotAwaited(s: GameState, id: Id) {
    s.combat.Some? ==> s.combat.value.pendingDeath != Some(id) && s.combat.value.pendingAction != Some(id)
  }

  /** The check a roll request asks for. */
  function Requested(tail: seq<Event>): Id {
    if RollTail(tail) then tail[0].checkId else 0
  }

  /** The tail sets the status of a combat that was not simply active. */
  predicate OverwritesStatus(s: GameState, tail: seq<Event>) {
    && RollTail(tail) && s.combat.Some? && !s.combat.value.status.Active?
    && (tail[0].disclosure.reason.PermanentDeath? || (|tail| == 2 && tail[1].CombatActionPending?))
  }

  lemma {:induction false} WithoutAbsent(ps: seq<PendingCheck>, id: Id)
    requires id !in CheckIds(ps)
    ensures WithoutCheck(ps, id) == ps
  {
    if ps != [] {
      assert CheckIds(ps)[0] == ps[0].checkId;
      assert CheckIds(ps[1..]) == CheckIds(ps)[1..];
      WithoutAbsent(ps[1..], id);
    }
  }

  lemma {:induction false} WithoutAppendedCheck(ps: seq<PendingCheck>, p: PendingCheck)
    requires p.checkId !in CheckIds(ps)
    ensures WithoutCheck(ps + [p], p.checkId) == ps
  {
    if ps == [] {
      assert ([] + [p])[1..] == [];
    } else {
      assert (ps + [p])[1..] == ps[1..] + [p];
      assert CheckIds(ps)[0] == ps[0].checkId;
      assert CheckIds(ps[1..]) == CheckIds(ps)[1..];
      WithoutAppendedCheck(ps[1..], p);
    }
  }

  /** The state while a requested roll waits with continuation `k`: its check is the last one, the combat may
      have been told to wait for it, and a ritual may be waiting for its resolution. */
  predicate Waits(s: GameState, w: GameState, p: PendingCheck) {
    && p.checkId !in CheckIds(s.pendingChecks)
    && w == s.(pendingChecks := s.pendingChecks + [p], combat := w.combat, rituals := w.rituals)
    && CombatWaits(s.combat, w.combat, p.checkId)
    && (w.rituals == s.rituals || RitualWaits(s.rituals, w.rituals, p.continuation))
  }

  predicate CombatWaits(before: Option<Combat>, after: Option<Combat>, id: Id) {
    after == before
    || (before.Some? && after.Some? && after.value == before.value.(status := AwaitingDeathTest,
      pendingDeath := Some(id)))
    || (before.Some? && after.Some? && after.value == before.value.(status := AwaitingAction,
      pendingAction := Some(id)))
  }

  predicate RitualWaits(before: seq<Ritual>, after: seq<Ritual>, k: Option<Continuation>) {
    k.Some? && k.value.ForRitual? &&
    match IndexOf(RitualIds(before), k.value.ritualId)
    case None => false
    case Some(i) => before[i].status.RitualReady? && after == before[i := before[i].(status := AwaitingResolution)]
  }

  lemma RitualReopens(s: GameState, w: GameState, p: PendingCheck)
    requires Waits(s, w, p)
    requires w.rituals == s.rituals ==> !(p.continuation.Some? && p.continuation.value.ForRitual?)
    ensures ReopenRitual(w, p.continuation) == w.(rituals := s.rituals)
  {
    hide IndexOf;
    if w.rituals != s.rituals {
      var i := IndexOf(RitualIds(s.rituals), p.continuation.value.ritualId).value;
      SameRitualIds(s.rituals, i, w.rituals[i]);
    }
  }

  function Released(c: Option<Combat>, id: Id): Option<Combat> {
    if c.None? then None else Some(ReleaseAction(ReleaseDeath(c.value, id), id))
  }

  /** Cancelling takes the check away, reopens the ritual and releases the combat. */
  lemma WaitCancelled(s: GameState, w: GameState, p: PendingCheck)
    requires Waits(s, w, p)
    requires w.rituals == s.rituals ==> !(p.continuation.Some? && p.continuation.value.ForRitual?)
    ensures CancelRoll(w, p.checkId) == Done(s.(combat := Released(w.combat, p.checkId)))
  {
    hide ReopenRitual, RitualWaits, CombatWaits, ReleaseAction, ReleaseDeath, IndexOf, CheckIds, WithoutCheck;
    FindLast(s.pendingChecks, p);
    WithoutAppendedCheck(s.pendingChecks, p);
    RitualReopens(s, w, p);
  }

  /** A combat told to wait is released to what it was exactly when it was active. */
  lemma CombatReleased(before: Option<Combat>, after: Option<Combat>, id: Id)
    requires before.Some? ==> StatusSound(before.value)
    requires before.Some? ==> before.value.pendingDeath != Some(id) && before.value.pendingAction != Some(id)
    requires after.Some? ==> StatusSound(after.value)
    requires CombatWaits(before, after, id)
    ensures after == before ==> Released(after, id) == before
    ensures after != before && before.value.status.Active? ==> Released(after, id) == before
    ensures after != before && !before.value.status.Active? ==>
              before.Some? && Released(after, id).Some? && Released(after, id).value.status.Active?
  {}

  /** After the request alone. */
  lemma RequestWaits(s: GameState, id: Id, nonce: Id, d: Disclosure, w: GameState)
    requires RequestRoll(s, id, nonce, d) == Done(w)
    ensures Waits(s, w, PendingCheck(id, nonce, d, None)) && w.rituals == s.rituals
    ensures w.combat != s.combat ==> d.reason.PermanentDeath? && s.combat.Some?
    ensures d.reason.PermanentDeath? && s.combat.Some? ==>
              w.combat == Some(s.combat.value.(status := AwaitingDeathTest, pendingDeath := Some(id)))
  {
    hide RitualWaits;
  }

  lemma ContinueLast(w: GameState, ps: seq<PendingCheck>, p: PendingCheck, k: Continuation)
    requires w.pendingChecks == ps + [p] && p.checkId !in CheckIds(ps) && p.continuation.None?
    ensures Continue(w, p.checkId, k) == Done(w.(pendingChecks := ps + [p.(continuation := Some(k))]))
  {
    hide IndexOf, CheckIds;
    FindLast(ps, p);
    assert (ps + [p])[|ps| := p.(continuation := Some(k))] == ps + [p.(continuation := Some(k))];
  }

  /** What the continuation event names for the check it continues. */
  function ContinuationOf(e: Event): Continuation
    requires e.CombatActionPending? || e.DeathTestPending? || e.ChallengeCheckPending? || e.SocialCheckPending?
             || e.RitualCheckPending?
  {
    match e
    case CombatActionPending(_, _, candidate, impact) => CombatAction(candidate, impact)
    case DeathTestPending(combat, _, character) => DeathTest(combat, character)
    case ChallengeCheckPending(id, _) => ForChallenge(id)
    case SocialCheckPending(npc, _, stance, limit) => ForSocial(npc, stance, limit)
    case RitualCheckPending(id, _) => ForRitual(id)
  }

  /** After the request and its continuation: still a waiting state of the same origin. */
  lemma ContinuationWaits(s: GameState, u: GameState, p: PendingCheck, e: Event, w: GameState)
    requires Waits(s, u, p) && p.continuation.None? && u.rituals == s.rituals
    requires PendingFor(e, p.checkId) && StepCheck(u, e) == Done(w)
    requires e.CombatActionPending? ==> u.combat == s.combat
    ensures Waits(s, w, p.(continuation := Some(ContinuationOf(e))))
    ensures w.rituals == s.rituals ==> !ContinuationOf(e).ForRitual?
    ensures !e.CombatActionPending? ==> w.combat == u.combat
    ensures e.CombatActionPending? ==>
            s.combat.Some? && w.combat == Some(s.combat.Get().(status := AwaitingAction,
            pendingAction := Some(p.checkId)))
  {
    hide Continue, CancelRoll, ReopenRitual;
    ContinueLast(u, s.pendingChecks, p, ContinuationOf(e));
  }

  lemma RequestUndone(s: GameState, id: Id, nonce: Id, d: Disclosure, u: GameState)
    requires ValidGameState(s) && NotAwaited(s, id)
    requires Apply(s, PhysicalRollRequested(id, nonce, d)) == Done(u)
    ensures Waits(s, u, PendingCheck(id, nonce, d, None)) && u.rituals == s.rituals
    ensures u.combat != s.combat <==> s.combat.Some? && d.reason.PermanentDeath?
  {
    hide ValidParty, ValidPendings, ValidZoneGraph, ParticipantsSound, OccupancyFits, ActiveSound, WindowSound,
         ObjectivesSound, RequestRoll, Waits, ValidGameState;
    RequestWaits(s, id, nonce, d, u);
  }

  /** The combat part of a valid state. */
  lemma StatusIsSound(s: GameState)
    requires ValidGameState(s)
    ensures s.combat.Some? ==> StatusSound(s.combat.Get())
  {
    hide ValidParty, ValidPendings, ValidZoneGraph, ParticipantsSound, OccupancyFits, ActiveSound, WindowSound,
         ObjectivesSound, StatusSound;
  }

  lemma PendingApplied(u: GameState, e: Event, id: Id, t: GameState)
    requires PendingFor(e, id) && Apply(u, e) == Done(t)
    ensures GroupOf(e).CheckEvent? && StepCheck(u, e) == Done(t) && ValidGameState(t)
  {
    hide StepCheck, StepHero, StepTurn, StepHarm, StepScene, ValidGameState;
  }

  /** An action cannot be awaited in a combat that awaits a death test. */
  lemma ActionNeedsNoDeathTest(u: GameState, e: Event, t: GameState)
    requires e.CombatActionPending? && StepCheck(u, e) == Done(t) && ValidGameState(t)
    ensures u.combat.Some? && u.combat.Get().pendingDeath.None?
  {
    hide ValidParty, ValidPendings, ValidZoneGraph, ParticipantsSound, OccupancyFits, ActiveSound, WindowSound,
         ObjectivesSound, CancelRoll, AwaitRitual, ReopenRitual;
  }

  /** Cancelling the request takes its continuation back with it. */
  lemma TailUndone(s: GameState, tail: seq<Event>, t: GameState) returns (v: GameState)
    requires ValidGameState(s) && RollTail(tail) && NotAwaited(s, Requested(tail))
    requires Fold(s, tail) == Done(t)
    ensures CancelRoll(t, Requested(tail)) == Done(v)
    ensures v == s.(combat := v.combat)
    ensures !OverwritesStatus(s, tail) ==> v == s
    ensures OverwritesStatus(s, tail) ==> v.combat.Some? && v.combat.Get().status.Active?
  {
    hide Apply, ValidGameState, CancelRoll, Waits, CombatWaits, StatusSound, StepCheck, ContinuationOf, Released,
         GroupOf;
    var e := tail[0];
    var u := Apply(s, e).value;
    assert Fold(s, tail) == Fold(u, tail[1..]);
    RequestUndone(s, e.checkId, e.nonce, e.disclosure, u);
    var p := PendingCheck(e.checkId, e.nonce, e.disclosure, None);
    StatusIsSound(s);
    if |tail| == 2 {
      assert tail[1..] == [tail[1]];
      FoldOne(u, tail[1]);
      PendingApplied(u, tail[1], e.checkId, t);
      if tail[1].CombatActionPending? {
        ActionNeedsNoDeathTest(u, tail[1], t);
        assert u.combat == s.combat by {
          if u.combat != s.combat {
            RequestSetsDeath(s, e, u);
          }
        }
      }
      ContinuationWaits(s, u, p, tail[1], t);
      p := p.(continuation := Some(ContinuationOf(tail[1])));
    } else {
      assert tail[1..] == [];
      assert t == u;
    }
    WaitCancelled(s, t, p);
    StatusAfter(s, tail, t);
    WaitsParts(s, t, p);
    CombatReleased(s.combat, t.combat, e.checkId);
    v := s.(combat := Released(t.combat, e.checkId));
  }

  lemma RequestSetsDeath(s: GameState, e: Event, u: GameState)
    requires e.PhysicalRollRequested? && Apply(s, e) == Done(u) && u.combat != s.combat
    ensures u.combat.Some? && u.combat.Get().pendingDeath.Some?
  {
    hide ValidGameState;
  }

  lemma WaitsParts(s: GameState, w: GameState, p: PendingCheck)
    requires Waits(s, w, p)
    ensures CombatWaits(s.combat, w.combat, p.checkId)
  {
    hide CombatWaits, RitualWaits;
  }

  lemma StatusAfter(s: GameState, tail: seq<Event>, t: GameState)
    requires ValidGameState(s) && Fold(s, tail) == Done(t)
    ensures t.combat.Some? ==> StatusSound(t.combat.Get())
  {
    hide ValidGameState, StatusSound, Fold;
    FoldKeepsValid(s, tail, t);
    StatusIsSound(t);
  }

  // ----- Events that leave the combat status alone -----

  predicate Quiet(e: Event) {
    Neutral(e) || e.ResourceChanged? || e.ActorMoved? || e.SocialStanceChanged? || e.ConditionApplied?
      || e.ConditionRemoved?
    || e.LeverageCreated? || e.LeverageSpent? || e.SparkSpent? || e.SparkRestored? || e.ActionSlotSpent?
      || e.ActionSlotRestored?
  }

  predicate SameStatus(s: GameState, t: GameState) {
    (s.combat.None? && t.combat.None?)
    || (s.combat.Some? && t.combat.Some? && s.combat.value.status == t.combat.value.status
        && s.combat.value.pendingDeath == t.combat.value.pendingDeath
          && s.combat.value.pendingAction == t.combat.value.pendingAction)
  }

  lemma QuietGroups(e: Event)
    requires Quiet(e)
    ensures GroupOf(e).AuditEvent? || GroupOf(e).HeroEvent? || GroupOf(e).TurnEvent? || GroupOf(e).SceneEvent?
  {}

  lemma QuietHero(s: GameState, e: Event, t: GameState)
    requires Quiet(e) && GroupOf(e).HeroEvent? && StepHero(s, e) == Done(t)
    ensures SameStatus(s, t)
  {
    hide ResetScene;
  }

  lemma QuietTurn(s: GameState, e: Event, t: GameState)
    requires Quiet(e) && GroupOf(e).TurnEvent? && StepTurn(s, e) == Done(t)
    ensures SameStatus(s, t)
  {
    hide AdvanceRound, ProgressObjective;
  }

  lemma QuietScene(s: GameState, e: Event, t: GameState)
    requires Quiet(e) && GroupOf(e).SceneEvent? && StepScene(s, e) == Done(t)
    ensures SameStatus(s, t)
  {
    hide Contribute;
  }

  lemma QuietKeepsStatus(s: GameState, e: Event, t: GameState)
    requires Quiet(e) && Apply(s, e) == Done(t)
    ensures SameStatus(s, t)
  {
    hide GroupOf, StepCheck, StepHero, StepTurn, StepHarm, StepScene, ValidGameState, Quiet;
    QuietGroups(e);
    match GroupOf(e)
    case AuditEvent => 
    case HeroEvent => QuietHero(s, e, t);
    case TurnEvent => QuietTurn(s, e, t);
    case SceneEvent => QuietScene(s, e, t);
  }

  predicate AllQuiet(es: seq<Event>) {
    forall i :: 0 <= i < |es| ==> Quiet(es[i])
  }

  lemma {:induction false} QuietRunKeepsStatus(s: GameState, es: seq<Event>, t: GameState)
    requires AllQuiet(es) && Fold(s, es) == Done(t)
    ensures SameStatus(s, t)
    decreases |es|
  {
    hide Apply, Quiet;
    if es != [] {
      var u := Apply(s, es[0]).value;
      QuietKeepsStatus(s, es[0], u);
      QuietRunKeepsStatus(u, es[1..], t);
    }
  }

  lemma SimpleIsQuiet(e: Event)
    requires Simple(e) || Neutral(e)
    ensures Quiet(e) && (Inverse(e).Some? ==> Quiet(Inverse(e).value)) && !Classify(e).NonUndoable?
  {}

  lemma {:induction false} InversesAreQuiet(es: seq<Event>)
    requires AllSimple(es)
    ensures AllQuiet(es)
    ensures InvertAll(es).Planned? ==> AllQuiet(InvertAll(es).events)
    decreases |es|
  {
    hide Quiet, Simple, Neutral, Classify, Inverse, Prepend;
    if es != [] {
      var front, last := es[..|es| - 1], es[|es| - 1];
      assert es == front + [last];
      InversesAreQuiet(front);
      InvertLast(front, last);
      SimpleIsQuiet(last);
    }
  }

  // ----- Whole transactions -----

  /** Simple events, then at most one roll request with its continuation. */
  predicate Undoes(pre: seq<Event>, tail: seq<Event>) {
    AllSimple(pre) && (tail == [] || RollTail(tail))
  }

  lemma TailInverse(pre: seq<Event>, tail: seq<Event>)
    requires RollTail(tail)
    ensures InvertAll(pre + tail) == Prepend([PhysicalRollCancelled(tail[0].checkId)], InvertAll(pre))
  {
    hide InvertAll, Classify, Inverse, PendingFor, Prepend;
    RequestInverse(pre, tail[0]);
    if |tail| == 2 {
      assert pre + tail == pre + [tail[0]] + [tail[1]];
      PendingInverse(pre + [tail[0]], tail[1], tail[0].checkId);
    } else {
      assert tail == [tail[0]];
    }
  }

  lemma RequestInverse(pre: seq<Event>, e: Event)
    requires e.PhysicalRollRequested?
    ensures InvertAll(pre + [e]) == Prepend([PhysicalRollCancelled(e.checkId)], InvertAll(pre))
  {
    hide InvertAll;
    InvertLast(pre, e);
  }

  /** The continuation of a request adds nothing to the plan. */
  lemma PendingInverse(pre: seq<Event>, e: Event, id: Id)
    requires PendingFor(e, id)
    ensures InvertAll(pre + [e]) == InvertAll(pre)
  {
    hide InvertAll, Inverse, Prepend;
    InvertLast(pre, e);
  }

  /** Whether undo gives back the state before: no roll overwrote the status of a paused or finished combat. */
  predicate UndoRestores(s: GameState, tail: seq<Event>) {
    !OverwritesStatus(s, tail)
  }

  lemma UndoWithoutRoll(s: GameState, es: seq<Event>, t: GameState)
    requires ValidGameState(s) && AllSimple(es) && Fold(s, es) == Done(t) && Plan(es).Planned?
    ensures Fold(t, Plan(es).Back()) == Done(s)
  {
    hide Apply, ValidGameState, AllSimple, Fold, InvertAll;
    SimplesUndone(s, es, t);
    FoldAppend(t, InvertAll(es).events, [TransactionCompensated]);
    AuditKeeps(s, TransactionCompensated);
  }

  lemma AuditKeeps(s: GameState, e: Event)
    requires ValidGameState(s) && GroupOf(e).AuditEvent?
    ensures Fold(s, [e]) == Done(s)
  {
    hide ValidGameState, GroupOf, Fold;
    FoldOne(s, e);
  }

  lemma CancelIsCheck(w: GameState, id: Id)
    ensures Step(w, PhysicalRollCancelled(id)) == CancelRoll(w, id)
  {
    hide CancelRoll;
  }

  lemma CompensatedIsAudit()
    ensures GroupOf(TransactionCompensated).AuditEvent?
  {}

  /** Where the planned inverses of a transaction with a roll lead: first the state the roll was requested in. */
  lemma CancelFirst(s: GameState, u: GameState, tail: seq<Event>, t: GameState, back: seq<Event>) returns (v: GameState)
    requires ValidGameState(u) && RollTail(tail) && NotAwaited(u, Requested(tail))
    requires Fold(u, tail) == Done(t)
    ensures Fold(t, [PhysicalRollCancelled(Requested(tail))] + back) == if ValidGameState(v) then Fold(v, back)
            else Refused
    ensures v == u.(combat := v.combat)
    ensures !OverwritesStatus(u, tail) ==> v == u
    ensures OverwritesStatus(u, tail) ==> v.combat.Some? && v.combat.Get().status.Active?
  {
    hide ValidGameState, CancelRoll, Step, OverwritesStatus, NotAwaited, PendingFor, Fold;
    v := TailUndone(u, tail, t);
    var cancel := PhysicalRollCancelled(tail[0].checkId);
    CancelIsCheck(t, tail[0].checkId);
    FoldAppend(t, [cancel], back);
    FoldOne(t, cancel);
  }

  /** Quiet events cannot lead from an active combat to one that is not. */
  lemma QuietCannotPause(v: GameState, back: seq<Event>, s: GameState)
    requires v.combat.Some? && v.combat.Get().status.Active? && s.combat.Some? && !s.combat.Get().status.Active?
    requires AllQuiet(back)
    ensures Fold(v, back) != Done(s)
  {
    hide Apply, AllQuiet, Fold;
    if Fold(v, back) == Done(s) {
      QuietRunKeepsStatus(v, back, s);
    }
  }

  lemma UndoWithRoll(s: GameState, pre: seq<Event>, tail: seq<Event>, t: GameState)
    requires ValidGameState(s) && AllSimple(pre) && RollTail(tail) && NotAwaited(s, Requested(tail))
    requires Fold(s, pre + tail) == Done(t)
    ensures Plan(pre + tail).Planned?
    ensures Fold(t, Plan(pre + tail).Back()) == Done(s) <==> !OverwritesStatus(s, tail)
  {
    hide ValidGameState, AllSimple, AllQuiet, InvertAll, Apply, NotAwaited, PendingFor, SameStatus, Quiet, Fold,
         GroupOf;
    FoldAppend(s, pre, tail);
    var u := Fold(s, pre).value;
    FoldKeepsValid(s, pre, u);
    InversesAreQuiet(pre);
    QuietRunKeepsStatus(s, pre, u);
    SameOverwrite(s, u, tail);
    SimplesUndone(s, pre, u);
    TailInverse(pre, tail);
    var cancel, back := PhysicalRollCancelled(tail[0].checkId), InvertAll(pre).events;
    var v := CancelFirst(s, u, tail, t, back + [TransactionCompensated]);
    assert Plan(pre + tail).events == [cancel] + (back + [TransactionCompensated]);
    if OverwritesStatus(s, tail) {
      QuietAppend(back);
      QuietCannotPause(v, back + [TransactionCompensated], s);
    } else {
      FoldAppend(u, back, [TransactionCompensated]);
      CompensatedIsAudit();
      AuditKeeps(s, TransactionCompensated);
    }
  }

  lemma QuietAppend(back: seq<Event>)
    requires AllQuiet(back)
    ensures AllQuiet(back + [TransactionCompensated])
  {}

  lemma SameOverwrite(s: GameState, u: GameState, tail: seq<Event>)
    requires RollTail(tail) && SameStatus(s, u)
    ensures OverwritesStatus(s, tail) <==> OverwritesStatus(u, tail)
    ensures NotAwaited(s, tail[0].checkId) <==> NotAwaited(u, tail[0].checkId)
  {
    hide RollTail;
  }

  /** Undo is an exact inverse precisely when no roll request overwrote a combat status other than active. */
  lemma UndoIsExact(s: GameState, pre: seq<Event>, tail: seq<Event>, t: GameState)
    requires ValidGameState(s) && Undoes(pre, tail)
    requires tail != [] ==> NotAwaited(s, Requested(tail))
    requires Fold(s, pre + tail) == Done(t) && Plan(pre + tail).Planned?
    ensures Fold(t, Plan(pre + tail).Back()) == Done(s) <==> UndoRestores(s, tail)
  {
    hide ValidGameState, AllSimple, Plan, Apply, Fold, Requested, NotAwaited;
    if tail == [] {
      assert pre + tail == pre;
      UndoWithoutRoll(s, pre, t);
    } else {
      UndoWithRoll(s, pre, tail, t);
    }
  }

  lemma SimulatedIsAudit(result: CheckResult)
    ensures GroupOf(CheckResolvedSimulated(result)).AuditEvent?
  {}

  // ----- Lists of pending checks -----

  function Removed(ps: seq<PendingCheck>, i: nat): seq<PendingCheck> {
    if i < |ps| then ps[..i] + ps[i + 1..] else ps
  }

  lemma {:induction false} WithoutIsRemoved(ps: seq<PendingCheck>, i: nat)
    requires Distinct(CheckIds(ps)) && i < |ps|
    ensures WithoutCheck(ps, ps[i].checkId) == Removed(ps, i)
  {
    hide Removed;
    var ids := CheckIds(ps);
    assert CheckIds(ps[1..]) == ids[1..];
    RemovedFirst(ps, i);
    if i == 0 {
      forall k | 0 <= k < |ids[1..]| ensures ids[1..][k] != ps[0].checkId {
        assert ids[0] != ids[k + 1];
      }
      WithoutAbsent(ps[1..], ps[0].checkId);
    } else {
      assert ids[0] != ids[i];
      WithoutIsRemoved(ps[1..], i - 1);
    }
  }

  lemma RemovedFirst(ps: seq<PendingCheck>, i: nat)
    requires i < |ps|
    ensures Removed(ps, i) == if i == 0 then ps[1..] else [ps[0]] + Removed(ps[1..], i - 1)
  {}
}
