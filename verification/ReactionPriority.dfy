/** Who may react, and in which order; and when the window this opens is one the reducer accepts. */
module ReactionPriority {
  import opened Common
  import opened ZoneGraph
  import opened State
  import opened Validity
  import opened Events
  import opened Reducer
  import opened Undo
  import opened Reactions
  import opened Applies

  /** Nobody stands after someone it reacts before. */
  predicate InOrder(ps: seq<Participant>) {
    forall i, j :: 0 <= i < j < |ps| ==> !ReactsBefore(ps[j], ps[i])
  }

  lemma {:induction false} InsertInOrder(sorted: seq<Participant>, p: Participant)
    requires InOrder(sorted)
    ensures InOrder(InsertReactor(sorted, p)) && multiset(InsertReactor(sorted, p)) == multiset(sorted) + multiset{p}
  {
    hide InOrder, ReactsBefore;
    if sorted == [] {
      SingleInOrder(p);
    } else {
      assert sorted == [sorted[0]] + sorted[1..];
      FirstInOrder(sorted);
      if !ReactsBefore(p, sorted[0]) {
        InsertInOrder(sorted[1..], p);
        var rest := InsertReactor(sorted[1..], p);
        forall q | q in rest ensures !ReactsBefore(q, sorted[0]) {
          assert q in multiset(rest);
          assert q == p || q in sorted[1..];
        }
        PrependInOrder(sorted[0], rest);
      } else {
        forall q | q in sorted ensures !ReactsBefore(q, p) {
          assert q == sorted[0] || q in sorted[1..];
          ReactsAfter(p, sorted[0], q);
        }
        PrependInOrder(p, sorted);
      }
    }
  }

  lemma SingleInOrder(p: Participant)
    ensures InOrder([p])
  {}

  lemma FirstInOrder(sorted: seq<Participant>)
    requires InOrder(sorted) && sorted != []
    ensures InOrder(sorted[1..]) && forall q :: q in sorted[1..] ==> !ReactsBefore(q, sorted[0])
  {
    hide ReactsBefore;
    forall q | q in sorted[1..] ensures !ReactsBefore(q, sorted[0]) {
      var k :| 0 <= k < |sorted[1..]| && sorted[1..][k] == q;
      assert sorted[k + 1] == q;
    }
  }

  lemma PrependInOrder(p: Participant, rest: seq<Participant>)
    requires InOrder(rest) && forall q :: q in rest ==> !ReactsBefore(q, p)
    ensures InOrder([p] + rest)
  {
    hide ReactsBefore;
  }

  /** What does not react before the later of two does not react before the earlier. */
  lemma ReactsAfter(p: Participant, first: Participant, q: Participant)
    requires ReactsBefore(p, first) && (q == first || !ReactsBefore(q, first))
    ensures !ReactsBefore(q, p)
  {}

  /** The members of a list of participants that may react, other than the affected one. */
  function OthersIn(s: GameState, ps: seq<Participant>, affected: Id): seq<Participant> {
    if ps == [] then []
    else
      var p := ps[|ps| - 1];
      OthersIn(s, ps[..|ps| - 1], affected) + (if MayReact(s, p) && p.actorId != affected then [p] else [])
  }

  /** Priority is a sort: the same participants, heroes before enemies, then by identity. */
  lemma {:induction false} OthersSorted(s: GameState, ps: seq<Participant>, affected: Id)
    ensures InOrder(OtherReactors(s, ps, affected))
    ensures multiset(OtherReactors(s, ps, affected)) == multiset(OthersIn(s, ps, affected))
  {
    hide MayReact, InsertReactor, ReactsBefore;
    if ps != [] {
      OthersSorted(s, ps[..|ps| - 1], affected);
      InsertInOrder(OtherReactors(s, ps[..|ps| - 1], affected), ps[|ps| - 1]);
    }
  }

  lemma {:induction false} OthersAre(s: GameState, ps: seq<Participant>, affected: Id, p: Participant)
    ensures p in OthersIn(s, ps, affected) <==> p in ps && MayReact(s, p) && p.actorId != affected
  {
    hide MayReact;
    if ps != [] {
      assert ps == ps[..|ps| - 1] + [ps[|ps| - 1]];
      OthersAre(s, ps[..|ps| - 1], affected, p);
    }
  }

  lemma {:induction false} OthersDistinct(s: GameState, ps: seq<Participant>, affected: Id)
    requires Distinct(ParticipantIds(ps))
    ensures Distinct(ParticipantIds(OthersIn(s, ps, affected)))
    ensures forall id :: id in ParticipantIds(OthersIn(s, ps, affected)) ==> id in ParticipantIds(ps) && id != affected
  {
    hide MayReact;
    if ps != [] {
      var front, last := ps[..|ps| - 1], ps[|ps| - 1];
      assert ps == front + [last];
      assert ParticipantIds(ps) == ParticipantIds(front) + [last.actorId];
      DistinctAppend(ParticipantIds(front), last.actorId);
      OthersDistinct(s, front, affected);
      var others := OthersIn(s, front, affected);
      assert ParticipantIds(others + [last]) == ParticipantIds(others) + [last.actorId];
      DistinctAppend(ParticipantIds(others), last.actorId);
      assert others + [] == others;
    }
  }

  lemma IdsOfMembers(xs: seq<Participant>, ys: seq<Participant>)
    requires multiset(xs) == multiset(ys)
    ensures Elements(ParticipantIds(xs)) <= Elements(ParticipantIds(ys))
  {
    forall id | id in ParticipantIds(xs) ensures id in ParticipantIds(ys) {
      var i :| 0 <= i < |xs| && ParticipantIds(xs)[i] == id;
      assert xs[i] in multiset(ys);
      var j :| 0 <= j < |ys| && ys[j] == xs[i];
      assert ParticipantIds(ys)[j] == id;
    }
  }

  lemma PermutedDistinct(xs: seq<Participant>, ys: seq<Participant>)
    requires multiset(xs) == multiset(ys) && Distinct(ParticipantIds(xs))
    ensures Distinct(ParticipantIds(ys)) && Elements(ParticipantIds(xs)) == Elements(ParticipantIds(ys)) && |xs| == |ys|
  {
    IdsOfMembers(xs, ys);
    IdsOfMembers(ys, xs);
    assert Elements(ParticipantIds(xs)) == Elements(ParticipantIds(ys));
    assert |multiset(xs)| == |xs| && |multiset(ys)| == |ys|;
    DistinctCardinality(ParticipantIds(xs));
    assert |Elements(ParticipantIds(ys))| == |ParticipantIds(ys)|;
    FullCardinalityIsDistinct(ParticipantIds(ys));
  }

  /** The window lists every participant that may react exactly once, the affected one first, then heroes before enemies
      and by identity. */
  lemma ReactorsAreExact(s: GameState, c: Combat, k: nat)
    requires k < |c.participants| && Distinct(ParticipantIds(c.participants))
    ensures var affected := c.participants[k];
            var ordered := Reactors(s, c, affected);
            && Distinct(ordered)
            && (forall i :: 0 <= i < |c.participants| ==>
              (c.participants[i].actorId in ordered <==> MayReact(s, c.participants[i])))
            && (MayReact(s, affected) ==> ordered[0] == affected.actorId)
            && InOrder(OtherReactors(s, c.participants, affected.actorId))
  {
    hide MayReact, InOrder, OtherReactors, ReactsBefore;
    var affected := c.participants[k];
    var others, sorted := OthersIn(s, c.participants, affected.actorId),
      OtherReactors(s, c.participants, affected.actorId);
    OthersSorted(s, c.participants, affected.actorId);
    OthersDistinct(s, c.participants, affected.actorId);
    PermutedDistinct(others, sorted);
    var ids := ParticipantIds(sorted);
    assert forall id :: id in ids <==> id in ParticipantIds(others) by {
      assert forall id :: id in ids <==> id in Elements(ids);
      assert forall id :: id in ParticipantIds(others) <==> id in Elements(ParticipantIds(others));
    }
    if MayReact(s, affected) {
      assert affected.actorId !in ids;
      PrependDistinct(affected.actorId, ids);
    } else {
      assert [] + ids == ids;
    }
    forall i | 0 <= i < |c.participants|
      ensures c.participants[i].actorId in Reactors(s, c, affected) <==> MayReact(s, c.participants[i]) {
      MemberExactly(s, c.participants, affected.actorId, i);
      SameActorSameIndex(c.participants, i, k);
    }
  }

  lemma SameActorSameIndex(ps: seq<Participant>, i: nat, k: nat)
    requires Distinct(ParticipantIds(ps)) && i < |ps| && k < |ps|
    ensures ps[i].actorId == ps[k].actorId ==> i == k
  {
    assert ParticipantIds(ps)[i] == ps[i].actorId && ParticipantIds(ps)[k] == ps[k].actorId;
  }

  lemma MemberExactly(s: GameState, ps: seq<Participant>, affected: Id, i: nat)
    requires Distinct(ParticipantIds(ps)) && i < |ps|
    ensures ps[i].actorId in ParticipantIds(OthersIn(s, ps, affected)) <==>
            MayReact(s, ps[i]) && ps[i].actorId != affected
  {
    hide MayReact;
    var others := OthersIn(s, ps, affected);
    OthersAre(s, ps, affected, ps[i]);
    if ps[i] in others {
      var j :| 0 <= j < |others| && others[j] == ps[i];
      assert ParticipantIds(others)[j] == ps[i].actorId;
    }
    if ps[i].actorId in ParticipantIds(others) {
      var j :| 0 <= j < |others| && ParticipantIds(others)[j] == ps[i].actorId;
      OthersAre(s, ps, affected, others[j]);
      var m :| 0 <= m < |ps| && ps[m] == others[j];
      SameActorSameIndex(ps, m, i);
    }
  }

  lemma PrependDistinct(id: Id, ids: seq<Id>)
    requires id !in ids && Distinct(ids)
    ensures Distinct([id] + ids)
  {}

  // ----- When the window applies -----

  lemma WindowValid(c: Combat, w: Window)
    requires ValidCombat(c)
    ensures ValidCombat(c.(window := Some(w))) <==> WindowSound(Some(w))
  {
    hide ValidZoneGraph, Distinct, OccupancyFits, ObjectivesSound, OverlaysSound, ParticipantsSound, IndexOf;
  }

  /** Opening a window in a fight that has none. */
  lemma OpeningApplies(s: GameState, w: Window)
    requires ValidGameState(s) && s.combat.Some? && s.combat.Get().window.None?
    ensures Apply(s, ReactionWindowOpened(w)).Done? <==> WindowSound(Some(w))
  {
    hide ValidGameState, ValidCombat, WindowSound, ValidParty, ValidPendings, ValidChallenges, ValidScars;
    var c := s.combat.value;
    ValidParts(s);
    WindowValid(c, w);
    if ValidCombat(c.(window := Some(w))) {
      WithCombatValid(s, c.(window := Some(w)));
    } else {
      CombatMustBeSound(WithCombat(s, c.(window := Some(w))));
    }
  }

  /** An accepted `open_reaction_window` is applied exactly when at most ten participants may react. */
  lemma WindowAppliesExactly(s: GameState, combatId: Id, windowId: Id, triggering: Id)
    requires ValidGameState(s) && DecideOpenReactionWindow(s, combatId, windowId, triggering).Done?
    ensures var c := s.combat.Get();
            var ordered := Reactors(s, c, At(c.participants, FindParticipant(c, triggering).Get()));
            Fold(s, DecideOpenReactionWindow(s, combatId, windowId, triggering).Get()).Done? <==> |ordered| <= 10
  {
    hide ValidGameState, ValidCombat, Reactors, IndexOf, Distinct, Apply, MayReact, InOrder, Fold, ValidParty,
         OtherReactors, ValidPendings, ValidChallenges, ActiveSound;
    var c := s.combat.value;
    var k := FindParticipant(c, triggering).value;
    var w := Window(windowId, triggering, Reactors(s, c, c.participants[k]));
    ValidParts(s);
    CombatActive(c);
    ReactorsAreExact(s, c, k);
    OpeningApplies(s, w);
    FoldOne(s, ReactionWindowOpened(w));
  }
}
