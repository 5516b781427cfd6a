/** When a fight ends: the outcome the decider proposes is the one the state after the impact calls for. */
module Victory {
  import opened Common
  import opened State
  import opened Validity
  import opened Events
  import opened Reducer
  import opened Undo
  import opened Content
  import opened CombatDecisions
  import opened Applies
  import opened EffectAgreement
  import opened CombatAgreement

  /** Some enemy has Guard left, whether it has entered or not. */
  predicate EnemyLeft(c: Combat) {
    exists i :: 0 <= i < |c.participants| && c.participants[i].role.Enemy? && c.participants[i].role.guard > 0
  }

  predicate HeroLeft(s: GameState) {
    exists i :: 0 <= i < |s.characters| && s.characters[i].characterId !in s.deaths
  }

  /** Before the impact: it would take all Guard of a boss whose waiting overlay comes back on empty Guard and gives
      none. */
  predicate RevivesEmpty(c: Combat, catalog: Catalog, p: Participant, impact: int) {
    && p.role.Enemy? && p.role.boss && p.role.guard <= impact
    && WaitingOverlay(c.overlays, p.actorId).Some?
    && match ByReference(catalog.definitions, WaitingOverlay(c.overlays, p.actorId).value.definition)
       case None => false
       case Some(d) => d.OverlayDefinition? && d.trigger.GuardDepleted? && GuardOnSelf(d.effects) == 0
  }

  /** Among the proposed events a boss is brought back by an overlay that gives it no Guard. */
  predicate RevivedEmpty(es: seq<Event>) {
    exists i :: 0 <= i < |es| && es[i].BossOverlayActivated? && es[i].guardAfter == 0
  }

  /** Enemy `j` has Guard `guard`, everyone else has the role it had in `c`. */
  predicate OnlyGuard(c: Combat, d: Combat, j: nat, guard: int) {
    && j < |c.participants| && |d.participants| == |c.participants|
    && (forall k :: 0 <= k < |c.participants| ==> d.participants[k].actorId == c.participants[k].actorId)
    && (forall k :: 0 <= k < |c.participants| && k != j ==> d.participants[k].role == c.participants[k].role)
    && c.participants[j].role.Enemy? && d.participants[j].role == c.participants[j].role.(guard := guard)
  }

  lemma ActorsDiffer(c: Combat, j: nat)
    requires Distinct(ParticipantIds(c.participants)) && j < |c.participants|
    ensures forall k :: 0 <= k < |c.participants| ==>
            (c.participants[k].actorId == c.participants[j].actorId <==> k == j)
  {
    forall k | 0 <= k < |c.participants| ensures c.participants[k].actorId == c.participants[j].actorId <==> k == j {
      assert ParticipantIds(c.participants)[k] == c.participants[k].actorId
        && ParticipantIds(c.participants)[j] == c.participants[j].actorId;
    }
  }

  /** The forecast made from the state before agrees with the Guards after: who stands is who has Guard, except that a
      revived boss always stands. */
  lemma ForecastAgrees(c: Combat, d: Combat, j: nat, guard: int, restored: bool)
    requires Distinct(ParticipantIds(c.participants)) && OnlyGuard(c, d, j, guard) && (!restored ==> guard == 0)
    ensures var boss := c.participants[j].actorId;
            (exists i :: 0 <= i < |c.participants| && EnemyStands(c.participants[i], Some(boss), if restored
              then Some(boss) else None))
            <==> restored || EnemyLeft(d)
  {
    hide ParticipantIds, Distinct;
    ActorsDiffer(c, j);
    var boss := c.participants[j].actorId;
    var revived := if restored then Some(boss) else None;
    if restored {
      assert EnemyStands(c.participants[j], Some(boss), revived);
    } else {
      if EnemyLeft(d) {
        var k :| 0 <= k < |d.participants| && d.participants[k].role.Enemy? && d.participants[k].role.guard > 0;
        assert EnemyStands(c.participants[k], Some(boss), revived);
      }
      if exists i :: 0 <= i < |c.participants| && EnemyStands(c.participants[i], Some(boss), revived) {
        var i :| 0 <= i < |c.participants| && EnemyStands(c.participants[i], Some(boss), revived);
        assert d.participants[i].role.guard > 0;
      }
    }
  }

  lemma HeroForecast(s: GameState)
    ensures (exists i :: 0 <= i < |s.characters| && HeroStands(s, s.characters[i], None)) <==> HeroLeft(s)
  {
    if HeroLeft(s) {
      var i :| 0 <= i < |s.characters| && s.characters[i].characterId !in s.deaths;
      assert HeroStands(s, s.characters[i], None);
    }
  }

  /** Applying the forecast ends the fight exactly when there is one to end. */
  lemma FinishEnds(s: GameState, c: Combat, j: nat, restored: bool, guard: int, u: GameState)
    requires ValidGameState(u) && u.combat.Some? && u.combat.Get().pendingDeath.None?
             && u.combat.Get().pendingAction.None?
    requires !u.combat.Get().status.Resolved?
    requires Distinct(ParticipantIds(c.participants)) && j < |c.participants| && OnlyGuard(c, u.combat.Get(), j, guard)
             && (!restored ==> guard == 0)
    ensures var boss := At(c.participants, j).actorId;
            var r := Fold(u, FinishIfOver(s, c, Some(boss), None, if restored then Some(boss) else None));
            && r.Done? && r.Get().combat.Some? && r.Get().combat.Get().participants == u.combat.Get().participants
            && (r.Get().combat.Get().status.Resolved? <==>
              (!restored && !EnemyLeft(r.Get().combat.Get())) || !HeroLeft(s))
  {
    hide ValidGameState, Apply, EnemyStands, HeroStands, OnlyGuard, EnemyLeft, HeroLeft, Distinct, ParticipantIds;
    var boss := c.participants[j].actorId;
    var es := FinishIfOver(s, c, Some(boss), None, if restored then Some(boss) else None);
    ForecastAgrees(c, u.combat.value, j, guard, restored);
    HeroForecast(s);
    if es != [] {
      ResolveApplies(u, es[0].combatOutcome);
      assert es == [es[0]];
      FoldOne(u, es[0]);
      SameLeft(u.combat.value, Fold(u, es).value.combat.value);
    }
  }

  lemma SameLeft(c: Combat, d: Combat)
    requires d.participants == c.participants
    ensures EnemyLeft(d) <==> EnemyLeft(c)
  {}

  /** The enemy was struck down to no Guard: what follows, and how it leaves the fight. */
  lemma StruckDownEnds(s: GameState, catalog: Catalog, c: Combat, j: nat, u: GameState)
    requires ValidGameState(u) && u.combat.Some? && u.combat.Get().pendingDeath.None?
             && u.combat.Get().pendingAction.None?
    requires !u.combat.Get().status.Resolved? && Distinct(ParticipantIds(c.participants))
             && OnlyGuard(c, u.combat.Get(), j, 0)
    requires u.combat.Get().objectives == c.objectives && OverlaysSound(c.objectives, c.overlays)
    requires FindParticipant(u.combat.Get(), At(c.participants, j).actorId) == Some(j)
    requires StruckEnemy(s, catalog, c, At(c.participants, j), 0).Done?
    ensures var es := StruckEnemy(s, catalog, c, At(c.participants, j), 0).Get();
            var r := Fold(u, es);
            && r.Done? && r.Get().combat.Some?
            && (r.Get().combat.Get().status.Resolved? <==>
              (!RevivedEmpty(es) && !EnemyLeft(r.Get().combat.Get())) || !HeroLeft(s))
  {
    hide ValidGameState, Apply, IndexOf, FinishIfOver, GuardOnSelf, ByReference, EnemyLeft, HeroLeft, Distinct, Fold,
         FindParticipant, WaitingOverlay;
    var p := c.participants[j];
    var es := StruckEnemy(s, catalog, c, p, 0).value;
    var overlay := if p.role.boss then OverlayEvents(c, catalog, p, 0).value else [];
    if overlay == [] {
      assert es == FinishIfOver(s, c, Some(p.actorId), None, None);
      FinishEnds(s, c, j, false, 0, u);
      FinishIsEnd(s, c, Some(p.actorId), None);
    } else {
      var guard := overlay[0].guardAfter;
      var finish := FinishIfOver(s, c, Some(p.actorId), None, Some(p.actorId));
      var o := WaitingOverlay(c.overlays, p.actorId).value;
      OverlayApplies(u, j, o.(active := true), guard);
      assert overlay == [overlay[0]] && es == overlay + finish;
      FoldOne(u, overlay[0]);
      var v := Fold(u, overlay).value;
      FoldKeepsValid(u, overlay, v);
      FinishEnds(s, c, j, true, guard, v);
      FoldAppend(u, overlay, finish);
      FinishIsEnd(s, c, Some(p.actorId), Some(p.actorId));
      RevivedFirst(overlay[0], finish);
      GuardLeft(v.combat.value, Fold(v, finish).value.combat.value, j, guard);
    }
  }

  lemma FinishIsEnd(s: GameState, c: Combat, defeated: Option<Id>, restored: Option<Id>)
    ensures !RevivedEmpty(FinishIfOver(s, c, defeated, None, restored))
    ensures forall e :: e in FinishIfOver(s, c, defeated, None, restored) ==> !e.BossOverlayActivated?
  {
    hide EnemyStands, HeroStands;
  }

  lemma RevivedFirst(e: Event, finish: seq<Event>)
    requires e.BossOverlayActivated? && forall x :: x in finish ==> !x.BossOverlayActivated?
    ensures RevivedEmpty([e] + finish) <==> e.guardAfter == 0
  {
    var es := [e] + finish;
    assert es[0] == e;
    forall i | 0 < i < |es| ensures !es[i].BossOverlayActivated? {
      assert es[i] == finish[i - 1] && finish[i - 1] in finish;
    }
  }

  lemma GuardLeft(d: Combat, r: Combat, j: nat, guard: int)
    requires r.participants == d.participants && j < |d.participants| && d.participants[j].role.Enemy?
             && d.participants[j].role.guard == guard
    ensures guard > 0 ==> EnemyLeft(r)
  {}

  /** An impact on an enemy ends the fight exactly when it leaves no enemy with Guard - unless the boss struck has
      an overlay that brings it back with none - or when it fells the enemy and every hero is already dead. */
  lemma VictoryIsReal(s: GameState, facts: Facts, catalog: Catalog, t: GameState, target: Target, base: int,
      degree: Degree)
    requires ValidGameState(s) && ValidGameState(t) && Prepared(s, t) && EnemiesApart(s)
             && s.combat.Get().status.Active?
    requires target.OnActor? && FindParticipant(s.combat.Get(), target.Actor()).Some?
    requires At(s.combat.Get().participants, FindParticipant(s.combat.Get(), target.Actor()).Get()).role.Enemy?
    requires ImpactEvents(s, facts, catalog, s.combat.Get(), target, base, degree).Done?
    ensures var c := s.combat.Get();
            var p := At(c.participants, FindParticipant(c, target.Actor()).Get());
            var impact := ImpactOf(base, if degree.Triumph? then 2 else 0, p.role.Armor());
            var r := Fold(t, ImpactEvents(s, facts, catalog, c, target, base, degree).Get());
            && r.Done? && r.Get().combat.Some?
            && (r.Get().combat.Get().status.Resolved? <==>
                  (!RevivesEmpty(c, catalog, p, impact) && !EnemyLeft(r.Get().combat.Get()))
                    || (p.role.Guard() <= impact && !HeroLeft(s)))
  {
    hide ValidGameState, Apply, IndexOf, StruckEnemy, SlotSpent, ImpactOf, HeroesCarry, ValidCombat, OverlaysSound,
         StatusSound, HeroLeft, EnemyLeft, Distinct, RevivesEmpty, RevivedEmpty, WoundEvents, DeathDisclosure,
         DeathRequest, ValidCharacter;
    var c := s.combat.value;
    var j := FindParticipant(c, target.actorId).value;
    var p := c.participants[j];
    var bonus := if degree.Triumph? then 2 else 0;
    var impact := ImpactOf(base, bonus, p.role.armor);
    var after := Max(0, p.role.guard - impact);
    var es := ImpactEvents(s, facts, catalog, c, target, base, degree).value;
    var rest := StruckEnemy(s, catalog, c, p, after).value;
    assert es == [es[0]] + rest;
    HeroesCarryIds(s.characters, t.characters);
    EnemyStruckApplies(t, j, c.combatId, base, bonus);
    var u := Apply(t, es[0]).value;
    FoldOne(t, es[0]);
    FoldKeepsValid(t, [es[0]], u);
    GuardSetFind(t, u, j, after);
    ValidParts(s);
    CombatActive(c);
    ActiveWaitsForNothing(c);
    FoldAppend(t, [es[0]], rest);
    RevivalForeseen(s, catalog, c, p, impact);
    if after == 0 {
      StruckDownEnds(s, catalog, c, j, u);
    } else {
      NothingFollows(s, catalog, c, p, after);
      GuardLeft(u.combat.value, u.combat.value, j, after);
    }
  }

  /** Whether a boss comes back with no Guard can be told beforehand. */
  lemma RevivalForeseen(s: GameState, catalog: Catalog, c: Combat, p: Participant, impact: int)
    requires p.role.Enemy? && StruckEnemy(s, catalog, c, p, Max(0, p.role.Guard() - impact)).Done?
    ensures RevivedEmpty(StruckEnemy(s, catalog, c, p, Max(0, p.role.Guard() - impact)).Get()) <==>
            RevivesEmpty(c, catalog, p, impact)
  {
    hide GuardOnSelf, ByReference, FinishIfOver;
    var es := StruckEnemy(s, catalog, c, p, Max(0, p.role.guard - impact)).value;
    if p.role.guard <= impact {
      FinishIsEnd(s, c, Some(p.actorId), None);
      FinishIsEnd(s, c, Some(p.actorId), Some(p.actorId));
      if p.role.boss && OverlayEvents(c, catalog, p, 0).value != [] {
        RevivedFirst(es[0], FinishIfOver(s, c, Some(p.actorId), None, Some(p.actorId)));
        assert es == [es[0]] + FinishIfOver(s, c, Some(p.actorId), None, Some(p.actorId));
      } else {
        assert es == FinishIfOver(s, c, Some(p.actorId), None, None);
      }
    }
  }

  lemma NothingFollows(s: GameState, catalog: Catalog, c: Combat, p: Participant, after: int)
    requires p.role.Enemy? && after != 0
    ensures StruckEnemy(s, catalog, c, p, after) == Done([])
  {}
}
