/** Reaction windows, reactions, and the death test with its aid. */
module Reactions {
  import opened Common
  import opened State
  import opened Events
  import opened Reducer
  import opened Checks
  import opened Content
  import opened CombatRules
  import opened CombatDecisions

  // ----- Windows -----

  predicate MayReact(s: GameState, p: Participant) {
    p.reactionAvailable && Alive(s, p)
  }

  /** Heroes before enemies, then by identity. */
  predicate ReactsBefore(p: Participant, q: Participant) {
    if p.Side() != q.Side() then p.Side().HeroSide? else p.actorId < q.actorId
  }

  function InsertReactor(sorted: seq<Participant>, p: Participant): seq<Participant> {
    if sorted == [] then [p]
    else if ReactsBefore(p, sorted[0]) then [p] + sorted
    else [sorted[0]] + InsertReactor(sorted[1..], p)
  }

  /** Everyone but the affected actor who may react, in order of priority. */
  function OtherReactors(s: GameState, ps: seq<Participant>, affected: Id): seq<Participant> {
    if ps == [] then []
    else
      var others := OtherReactors(s, ps[..|ps| - 1], affected);
      var p := ps[|ps| - 1];
      if MayReact(s, p) && p.actorId != affected then InsertReactor(others, p) else others
  }

  /** The affected actor first, if it may react, then the others. */
  function Reactors(s: GameState, c: Combat, affected: Participant): seq<Id> {
    (if MayReact(s, affected) then [affected.actorId] else [])
    + ParticipantIds(OtherReactors(s, c.participants, affected.actorId))
  }

  function DecideOpenReactionWindow(s: GameState, combatId: Id, windowId: Id, triggering: Id): Decision {
    match CombatFor(s, combatId)
    case Refused => Refused
    case Done(c) =>
      if c.window.Some? then Refused
      else
        match FindParticipant(c, triggering)
        case None => Refused
        case Some(i) =>
          var ordered := Reactors(s, c, c.participants[i]);
          if ordered == [] then Refused else Done([ReactionWindowOpened(Window(windowId, triggering, ordered))])
  }

  // ----- Reactions -----

  function ReactionRange(c: Combat, p: Participant, a: Ability, target: Target): RangeBand {
    match target
    case OnZone(_) => a.range
    case _ => ActualRange(c, p, a, target)
  }

  function ReactionCandidate(c: Combat, ids: ActionKey -> Id, p: Participant, a: Ability, target: Target): Candidate {
    Listed(c, ids, p.actorId, ReactionSlot, UsePower, Some(a.ref), target, ReactionRange(c, p, a, target), (0, []))
  }

  function ReactionTargets(c: Combat, ids: ActionKey -> Id, p: Participant, a: Ability,
      targets: seq<Target>): seq<Candidate> {
    if targets == [] then []
      else [ReactionCandidate(c, ids, p, a, targets[0])] + ReactionTargets(c, ids, p, a, targets[1..])
  }

  function ReactionCandidates(s: GameState, c: Combat, ids: ActionKey -> Id, p: Participant,
      abilities: seq<Ability>): seq<Candidate> {
    if abilities == [] then []
    else
      (if abilities[0].slot.ReactionSlot?
        then ReactionTargets(c, ids, p, abilities[0], AbilityTargets(s, c, p, abilities[0])) else [])
      + ReactionCandidates(s, c, ids, p, abilities[1..])
  }

  function EnumerateReactions(s: GameState, catalog: Catalog, actor: Id, ids: ActionKey -> Id): seq<Candidate> {
    if s.combat.None? || !s.combat.value.status.Active? then []
    else
      var c := s.combat.value;
      match FindParticipant(c, actor)
      case None => []
      case Some(i) =>
        var p := c.participants[i];
        if !MayReact(s, p) then [] else SortCandidates(ReactionCandidates(s, c, ids, p, ActorAbilities(s, p, catalog)))
  }

  function DecideResolveReaction(s: GameState, facts: Facts, combatId: Id, windowId: Id, actor: Id,
      legalActionId: Option<Id>): Decision {
    match PinnedCatalog(s, facts)
    case Refused => Refused
    case Done(catalog) =>
      match CombatFor(s, combatId)
      case Refused => Refused
      case Done(c) =>
        if c.window.None? || c.window.value.windowId != windowId
          || c.window.value.eligible == [] || c.window.value.eligible[0] != actor then Refused
        else if legalActionId.None? then
          var remaining := c.window.value.eligible[1..];
          Done([if remaining == [] then ReactionWindowClosed
            else ReactionWindowOpened(c.window.value.(eligible := remaining))])
        else if facts.legalActionIdFor.None? then Refused
        else
          match WithId(EnumerateReactions(s, catalog, actor, facts.legalActionIdFor.value), legalActionId.value)
          case None => Refused
          case Some(candidate) => ReactionEvents(s, facts, catalog, c, candidate)
  }

  function ReactionEvents(s: GameState, facts: Facts, catalog: Catalog, c: Combat, candidate: Candidate): Decision {
    match FindParticipant(c, candidate.actorId)
    case None => Refused
    case Some(i) =>
      var p := c.participants[i];
      var ability := if candidate.source.None? then None else AbilityByReference(catalog, candidate.source.value);
      if ability.None? || ability.value.profile.Some? then Refused
      else
        Both(Both(CostEvents(s, p, ability.value), Done([ActionSlotSpent(c.combatId, p.actorId, ReactionSlot)])),
             Both(ResolvedEvents(s, facts, candidate, ability, Success, BaseImpact(ability.value)),
               Done([ReactionWindowClosed])))
  }

  // ----- Death tests -----

  const DEATH_TEST_AID_COST := 1

  datatype AidResource = AidExertion | AidSupply

  function DecideAidDeathTest(s: GameState, combatId: Id, checkId: Id, aiding: Id, resource: AidResource): Decision {
    if !InCombat(s, combatId) || !s.combat.value.status.AwaitingDeathTest? then Refused
    else
      match FindPending(s, checkId)
      case None => Refused
      case Some(i) =>
        var pending := s.pendingChecks[i];
        if pending.continuation.None? || !pending.continuation.value.DeathTest?
          || pending.continuation.value.combatId != combatId || pending.disclosure.modifiers.edge then Refused
        else
          match FindCharacter(s, pending.continuation.value.characterId)
          case None => Refused
          case Some(t) =>
            match FindCharacter(s, aiding)
            case None => Refused
            case Some(a) =>
              var near := RangeBetween(s.combat.value, s.characters[a].actorId, s.characters[t].actorId);
              if a == t || !(near == Some(SameZone) || near == Some(Adjacent)) then Refused
              else
                Both(if resource.AidSupply? then Payment(Party, Supply, s.supply, s.supplyMaximum, -DEATH_TEST_AID_COST)
                     else
                       Payment(Of(aiding), Exertion, s.characters[a].exertion, EXERTION_MAXIMUM, -DEATH_TEST_AID_COST),
                     if !ValidRequest(Rebuild(pending.disclosure)) || Aided(pending.disclosure).Refused? then Refused
                     else Done([DeathTestAidApplied(checkId, Aided(pending.disclosure).value)]))
  }

  /** What a death test's outcome proposes. */
  function DeathTestEvents(s: GameState, facts: Facts, characterId: Id, degree: Degree): Decision {
    match FindCharacter(s, characterId)
    case None => Refused
    case Some(i) =>
      if s.combat.None? then Refused
      else
        var hero := s.characters[i];
        if degree.Success? || degree.Triumph? then
          if |hero.wounds| != 3 || !hero.wounds[2].Filled? then Refused
          else if degree.Triumph? && facts.scarId.None? then Refused
          else
            Done([HeroStabilized(characterId, hero.wounds[2 := Empty])]
                 + (if degree.Triumph? then [PermanentScarGained(facts.scarId.value, characterId)] else []))
        else Done([CharacterDied(characterId)] + FinishIfOver(s, s.combat.value, None, Some(characterId), None))
  }
}
