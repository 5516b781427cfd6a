/** Challenges, social scenes and rituals: what is decided with a simulated check is applied, and means what it says. */
module SubsystemAgreement {
  import opened Common
  import opened State
  import opened Validity
  import opened Events
  import opened Reducer
  import opened Compensation
  import opened Undo
  import opened Checks
  import opened Content
  import opened Subsystems
  import opened Applies
  import opened CatalogRules

  // ----- One component replaced -----

  function WithChallenge(s: GameState, i: nat, c: Challenge): GameState {
    if i < |s.challenges| then s.(challenges := s.challenges[i := c]) else s
  }

  function WithSocial(s: GameState, i: nat, social: Social): GameState {
    if i < |s.socials| then s.(socials := s.socials[i := social]) else s
  }

  lemma WithChallengesValid(s: GameState, cs: seq<Challenge>)
    requires ValidGameState(s) && ValidChallenges(cs)
    ensures ValidGameState(s.(challenges := cs))
  {
    hide ValidParty, ValidPendings, ValidCombat, ValidChallenges, ValidSocials, ValidRituals, ValidScars, ValidDeaths;
  }

  lemma WithSocialsValid(s: GameState, ss: seq<Social>)
    requires ValidGameState(s) && ValidSocials(ss)
    ensures ValidGameState(s.(socials := ss))
  {
    hide ValidParty, ValidPendings, ValidCombat, ValidChallenges, ValidSocials, ValidRituals, ValidScars, ValidDeaths,
         ValidCombatOption;
  }

  lemma ChallengeReplaced(cs: seq<Challenge>, i: nat, c: Challenge)
    requires ValidChallenges(cs) && i < |cs| && ValidChallenge(c) && c.challengeId == cs[i].challengeId
    ensures ValidChallenges(cs[i := c]) && ChallengeIds(cs[i := c]) == ChallengeIds(cs)
  {
    hide ValidChallenge, Distinct, ChallengeIds;
    assert ChallengeIds(cs[i := c]) == ChallengeIds(cs);
  }

  lemma SocialReplaced(ss: seq<Social>, i: nat, social: Social)
    requires ValidSocials(ss) && i < |ss| && ValidSocial(social) && social.npcActorId == ss[i].npcActorId
    ensures ValidSocials(ss[i := social])
  {
    hide ValidSocial, Distinct;
    SameSocialIds(ss, i, social);
  }

  // ----- Challenges -----

  /** A challenge moved by an outcome: both tracks forward, no further than full, with the status they then require. */
  function Moved(c: Challenge, effect: TrackOutcome): Challenge {
    var progress := c.progress.(current := Min(c.progress.maximum, c.progress.current + effect.progress));
    var danger := c.danger.(current := Min(c.danger.maximum, c.danger.current + effect.danger));
    c.(progress := progress, danger := danger, status := ExpectedStatus(progress, danger, c.tieRule))
  }

  lemma MovedValid(c: Challenge, effect: TrackOutcome)
    requires ValidChallenge(c) && 0 <= effect.progress && 0 <= effect.danger
    ensures ValidChallenge(Moved(c, effect))
    ensures Moved(c, effect).progress.current >= c.progress.current
            && Moved(c, effect).danger.current >= c.danger.current
  {}

  /** The decider's own status computation is the validator's. */
  lemma DecidedStatus(c: Challenge, effect: TrackOutcome)
    ensures var d := Moved(c, effect);
            TrackEvents(c, effect) ==
              [ChallengeTracksChanged(c.challengeId, c.progress.current, d.progress.current, c.danger.current,
                d.danger.current, d.status)]
              + (if d.status.ChallengeActive? then [] else [ChallengeResolved(c.challengeId, d.status)])
  {}

  lemma MoveApplies(s: GameState, i: nat, d: Challenge)
    requires ValidGameState(s) && i < |s.challenges| && At(s.challenges, i).status.ChallengeActive? && ValidChallenge(d)
    requires FindChallenge(s, At(s.challenges, i).challengeId) == Some(i)
    requires d == At(s.challenges, i).(progress := At(s.challenges, i).progress.(current := d.progress.current),
                                   danger := At(s.challenges, i).danger.(current := d.danger.current),
                                       status := d.status)
    requires d.progress.current >= At(s.challenges, i).progress.current
             && d.danger.current >= At(s.challenges, i).danger.current
    ensures var c := At(s.challenges, i);
            Apply(s, ChallengeTracksChanged(c.challengeId, c.progress.current, d.progress.current, c.danger.current,
              d.danger.current, d.status)) ==
            Done(WithChallenge(s, i, d))
  {
    hide ValidGameState, ValidChallenge, IndexOf, ValidChallenges, ValidCombat, ValidParty, ValidPendings,
         ValidRituals, FindChallenge;
    ValidParts(s);
    ChallengeReplaced(s.challenges, i, d);
    WithChallengesValid(s, s.challenges[i := d]);
  }

  lemma CloseApplies(s: GameState, i: nat)
    requires ValidGameState(s) && i < |s.challenges| && FindChallenge(s, At(s.challenges, i).challengeId) == Some(i)
    ensures Apply(s, ChallengeResolved(At(s.challenges, i).challengeId, At(s.challenges, i).status)) == Done(s)
  {
    hide ValidGameState, IndexOf, FindChallenge;
  }

  lemma TracksApply(s: GameState, i: nat, effect: TrackOutcome)
    requires ValidGameState(s) && i < |s.challenges| && At(s.challenges, i).status.ChallengeActive?
    requires FindChallenge(s, At(s.challenges, i).challengeId) == Some(i) && 0 <= effect.progress && 0 <= effect.danger
    ensures Fold(s, TrackEvents(At(s.challenges, i), effect)) ==
            Done(WithChallenge(s, i, Moved(At(s.challenges, i), effect)))
  {
    hide ValidGameState, Apply, ValidChallenge, IndexOf, TrackEvents, ExpectedStatus, ValidChallenges, Fold,
         ValidCombat, ValidParty, ValidPendings, ValidRituals;
    var c := s.challenges[i];
    var d := Moved(c, effect);
    var t := s.(challenges := s.challenges[i := d]);
    ValidParts(s);
    ChallengeAt(s.challenges, i);
    MovedValid(c, effect);
    DecidedStatus(c, effect);
    MoveApplies(s, i, d);
    var moved := ChallengeTracksChanged(c.challengeId, c.progress.current, d.progress.current, c.danger.current,
      d.danger.current, d.status);
    FoldOne(s, moved);
    if !d.status.ChallengeActive? {
      FoldKeepsValid(s, [moved], t);
      ChallengeReplaced(s.challenges, i, d);
      CloseApplies(t, i);
      FoldOne(t, ChallengeResolved(c.challengeId, d.status));
      FoldAppend(s, [moved], [ChallengeResolved(c.challengeId, d.status)]);
    } else {
      assert [moved] + [] == [moved];
    }
  }

  lemma ChallengeAt(cs: seq<Challenge>, i: nat)
    requires ValidChallenges(cs) && i < |cs|
    ensures ValidChallenge(cs[i])
  {
    hide ValidChallenge, Distinct;
  }

  lemma OutcomeBounds(catalog: Catalog, ref: Ref, degree: Degree)
    requires WellFormedCatalog(catalog) && ChallengeContent(catalog, ref).Some?
             && OutcomeFor(ChallengeContent(catalog, ref).value.outcomes, degree).Some?
    ensures var effect := OutcomeFor(ChallengeContent(catalog, ref).value.outcomes, degree).value;
            0 <= effect.progress && 0 <= effect.danger
  {
    hide OutcomeFor, ChallengeContent;
    var d := ChallengeContent(catalog, ref).value;
    assert WellFormed(d);
    var effect := OutcomeFor(d.outcomes, degree).value;
    var k :| 0 <= k < |d.outcomes| && d.outcomes[k] == effect;
  }

  /** One of the outcomes the challenge's definition lists. */
  predicate OutcomeOf(catalog: Catalog, c: Challenge, effect: TrackOutcome) {
    match ChallengeContent(catalog, c.definition)
    case None => false
    case Some(d) => effect in d.outcomes
  }

  lemma ChallengeEventsApply(s: GameState, facts: Facts, id: Id, degree: Degree) returns (i: nat, effect: TrackOutcome)
    requires ValidGameState(s) && facts.catalog.Some? && WellFormedCatalog(facts.catalog.Get())
    requires ChallengeEvents(s, facts, id, degree).Done?
    ensures i < |s.challenges| && At(s.challenges, i).challengeId == id
            && OutcomeOf(facts.catalog.Get(), At(s.challenges, i), effect) && effect.degree == degree
    ensures Fold(s, ChallengeEvents(s, facts, id, degree).Get()) ==
            Done(WithChallenge(s, i, Moved(At(s.challenges, i), effect)))
  {
    hide ValidGameState, Apply, TrackEvents, Moved, ChallengeContent, OutcomeFor, IndexOf, Fold, FindChallenge,
         WithChallenge, WellFormedCatalog;
    i := FindChallenge(s, id).value;
    var c := s.challenges[i];
    effect := OutcomeFor(ChallengeContent(facts.catalog.value, c.definition).value.outcomes, degree).value;
    OutcomeBounds(facts.catalog.value, c.definition, degree);
    TracksApply(s, i, effect);
  }

  /** A simulated result in front of what follows from it. */
  lemma SimulatedFirst(s: GameState, result: CheckResult, effects: seq<Event>)
    requires ValidGameState(s)
    ensures Fold(s, [CheckResolvedSimulated(result)] + effects) == Fold(s, effects)
  {
    hide Apply, ValidGameState, Fold, GroupOf;
    ResultIsAudit(result);
    AuditKeeps(s, CheckResolvedSimulated(result));
    FoldAppend(s, [CheckResolvedSimulated(result)], effects);
  }

  lemma ResultIsAudit(result: CheckResult)
    ensures GroupOf(CheckResolvedSimulated(result)).AuditEvent?
  {}

  /** An accepted challenge attempt with a simulated check applies, and leaves the challenge with the tracks that its
      definition's outcome for the degree rolled gives, and the status the validator requires of them. */
  lemma AdvanceChallengeAgrees(s: GameState, facts: Facts, catalog: Catalog, id: Id, a: Attempt, es: seq<Event>)
      returns (i: nat, result: CheckResult, effect: TrackOutcome)
    requires ValidGameState(s) && facts.catalog == Some(catalog) && WellFormedCatalog(catalog)
    requires DecideAdvanceChallenge(s, facts, id, a) == Done(es) && a.physicalReason.None? && !a.invokeSpark
    ensures i < |s.challenges| && At(s.challenges, i).challengeId == id
            && OutcomeOf(catalog, At(s.challenges, i), effect)
    ensures AttemptCheck(s, facts, a) == ResolvedAtOnce(result) && effect.degree == result.finalDegree
    ensures Fold(s, es) == Done(WithChallenge(s, i, Moved(At(s.challenges, i), effect)))
  {
    hide ValidGameState, Apply, ChallengeEvents, Moved, IndexOf, CheckActorFits, ChallengePending, Resolve, OutcomeOf,
         Fold, WithChallenge, At, WellFormedCatalog, CreateDisclosure;
    result := AttemptCheck(s, facts, a).result;
    i, effect := ChallengeEventsApply(s, facts, id, result.finalDegree);
    SimulatedFirst(s, result, ChallengeEvents(s, facts, id, result.finalDegree).value);
  }

  // ----- Social scenes -----

  /** How far a stance still is from the one asked for. */
  function Gap(a: Stance, b: Stance): int {
    Abs(StanceIndex(a) - StanceIndex(b))
  }

  lemma StanceApplies(s: GameState, i: nat, stance: Stance, degree: Degree)
    requires ValidGameState(s) && i < |s.socials| && FindSocial(s, At(s.socials, i).npcActorId) == Some(i)
    requires 1 <= Gap(stance, At(s.socials, i).stance) <= Steps(degree)
    ensures Apply(s, SocialStanceChanged(At(s.socials, i).npcActorId, At(s.socials, i).stance, stance, degree)) ==
            Done(WithSocial(s, i, At(s.socials, i).(stance := stance)))
  {
    hide ValidGameState, IndexOf, Distinct, ValidCombat, ValidParty, ValidPendings;
    ValidParts(s);
    assert ValidSocial(s.socials[i]);
    SocialReplaced(s.socials, i, s.socials[i].(stance := stance));
    WithSocialsValid(s, s.socials[i := s.socials[i].(stance := stance)]);
  }

  /** An accepted social shift with a simulated check applies: the stance comes closer to the requested one by as
      many steps as the degree allows, never passing it, and nothing else changes. */
  lemma SocialShiftAgrees(s: GameState, facts: Facts, npc: Id, a: Attempt, requested: Stance, limit: Option<Id>)
      returns (i: nat, result: CheckResult, stance: Stance)
    requires ValidGameState(s) && a.physicalReason.None? && !a.invokeSpark
    requires DecideAttemptSocialShift(s, facts, npc, a, requested, limit).Done?
    ensures i < |s.socials| && At(s.socials, i).npcActorId == npc
    ensures Fold(s, DecideAttemptSocialShift(s, facts, npc, a, requested, limit).Get()) ==
            Done(WithSocial(s, i, At(s.socials, i).(stance := stance)))
    ensures AttemptCheck(s, facts, a) == ResolvedAtOnce(result)
    ensures var steps := Steps(result.finalDegree);
            Gap(stance, requested) == Max(0, Gap(At(s.socials, i).stance, requested) - steps)
              && Gap(stance, At(s.socials, i).stance) <= steps
  {
    hide ValidGameState, Apply, IndexOf, CheckActorFits, SocialPending, Resolve, FindSocial, StanceIndex,
         CreateDisclosure;
    i := FindSocial(s, npc).value;
    var social := s.socials[i];
    result := AttemptCheck(s, facts, a).result;
    var es := SocialEvents(s, npc, requested, limit, result.finalDegree).value;
    SimulatedFirst(s, result, es);
    if es == [] {
      stance := social.stance;
      assert s.socials[i := social.(stance := stance)] == s.socials;
    } else {
      stance := es[0].after;
      assert es == [es[0]];
      ShiftArithmetic(social.stance, requested, result.finalDegree);
      StanceApplies(s, i, stance, result.finalDegree);
      FoldOne(s, es[0]);
    }
  }

  lemma ShiftArithmetic(from: Stance, to: Stance, degree: Degree)
    requires Steps(degree) > 0 && StanceIndex(from) != StanceIndex(to)
    ensures var direction := if StanceIndex(to) > StanceIndex(from) then 1 else -1;
            var next := Max(0, Min(3, StanceIndex(from) + direction * Min(Steps(degree),
              Abs(StanceIndex(to) - StanceIndex(from)))));
            && 0 <= next < 4 && 1 <= Gap(STANCES[next], from) <= Steps(degree)
            && Gap(STANCES[next], to) == Max(0, Gap(from, to) - Steps(degree))
  {}

  // ----- Ritual adjustments -----

  function Value(values: map<Resource, int>, resource: Resource, otherwise: int): int {
    if resource in values then values[resource] else otherwise
  }

  /** The state with the projected values of a chain of adjustments written into it. */
  function Projected(s: GameState, h: Option<nat>, values: map<Resource, int>): GameState
    requires h.Some? ==> h.value < |s.characters|
  {
    var t := s.(supply := Value(values, Supply, s.supply));
    if h.None? then t
    else
      var c := s.characters[h.value];
      WithCharacter(t, h.value, c.(guard := Value(values, Guard, c.guard),
        exertion := Value(values, Exertion, c.exertion)))
  }

  function HeroAt(s: GameState, h: Option<nat>): Option<Character>
    requires h.Some? ==> h.value < |s.characters|
  {
    if h.None? then None else Some(s.characters[h.value])
  }

  /** One adjustment: its recorded previous value is the true one, its new value within bounds, and it applies. */
  lemma AdjustmentApplies(s: GameState, h: Option<nat>, values: map<Resource, int>, e: Effect) returns (event: Event)
    requires h.Some? ==> h.Get() < |s.characters|
    requires ValidGameState(Projected(s, h, values)) && AdjustmentAllowed(e, HeroAt(s, h))
    ensures var resource := e.resource;
            var u := Projected(s, h, values);
            var current := if resource in values then values[resource] else Current(s, HeroAt(s, h), resource);
            var next := Max(0, Min(Maximum(s, HeroAt(s, h), resource), current + e.amount));
            && event == ResourceChanged(AdjustmentOwner(e, HeroAt(s, h)), resource, current, next)
            && current == Current(u, HeroAt(u, h), resource)
            && 0 <= next <= Maximum(s, HeroAt(s, h), resource)
            && Apply(u, event) == Done(Projected(s, h, values[resource := next]))
  {
    hide ValidGameState, Apply;
    var u := Projected(s, h, values);
    var resource := e.resource;
    var current := if resource in values then values[resource] else Current(s, HeroAt(s, h), resource);
    var next := Max(0, Min(Maximum(s, HeroAt(s, h), resource), current + e.amount));
    event := ResourceChanged(AdjustmentOwner(e, HeroAt(s, h)), resource, current, next);
    MaximumPositive(u, h, resource);
    match resource
    case Supply =>
      SupplyApplies(u, next);
      assert Projected(s, h, values[resource := next]) == u.(supply := next);
    case Guard =>
      GuardApplies(u, h.value, next);
      ProjectedHero(s, h.value, values, resource, next);
    case Exertion =>
      ExertionApplies(u, h.value, next);
      ProjectedHero(s, h.value, values, resource, next);
  }

  lemma MaximumPositive(u: GameState, h: Option<nat>, resource: Resource)
    requires ValidGameState(u) && (h.Some? ==> h.Get() < |u.characters|) && (resource.Supply? || h.Some?)
    ensures Maximum(u, HeroAt(u, h), resource) >= 0
  {
    hide ValidGameState, GearMatchesNames, RatingsInRange, DistinctWounds, RankFeatures, Distinct, ValidCombat,
         ValidPendings, ValidChallenges, ValidRituals, FindCharacter;
    ValidParts(u);
    if h.Some? {
      HeroValid(u, h.value);
    }
  }

  lemma ProjectedHero(s: GameState, i: nat, values: map<Resource, int>, resource: Resource, next: int)
    requires i < |s.characters| && !resource.Supply?
    ensures var u := Projected(s, Some(i), values);
            Projected(s, Some(i), values[resource := next]) ==
            WithCharacter(u, i, if resource.Guard? then u.characters[i].(guard := next)
              else u.characters[i].(exertion := next))
  {
    var u := Projected(s, Some(i), values);
    var v := Projected(s, Some(i), values[resource := next]);
    assert v.characters == (if resource.Guard? then u.characters[i := u.characters[i].(guard := next)]
      else u.characters[i := u.characters[i].(exertion := next)]);
  }

  /** The values a chain of adjustments ends with. */
  function Final(s: GameState, hero: Option<Character>, values: map<Resource, int>, es: seq<Effect>): map<Resource, int>
    requires forall i :: 0 <= i < |es| ==> AdjustmentAllowed(es[i], hero)
    decreases |es|
  {
    if es == [] then values
    else
      assert AdjustmentAllowed(es[0], hero);
      var resource := es[0].resource;
      var current := if resource in values then values[resource] else Current(s, hero, resource);
      Final(s, hero, values[resource := Max(0, Min(Maximum(s, hero, resource), current + es[0].amount))], es[1..])
  }

  /** A whole chain applies: every event starts where the state really is, and the chain ends in the projected values.
      */
  lemma {:induction false} AdjustmentsApply(s: GameState, h: Option<nat>, values: map<Resource, int>, es: seq<Effect>)
    requires h.Some? ==> h.Get() < |s.characters|
    requires ValidGameState(Projected(s, h, values)) && AdjustmentEvents(s, HeroAt(s, h), values, es).Done?
    ensures forall i :: 0 <= i < |es| ==> AdjustmentAllowed(es[i], HeroAt(s, h))
    ensures Fold(Projected(s, h, values), AdjustmentEvents(s, HeroAt(s, h), values, es).Get()) ==
            Done(Projected(s, h, Final(s, HeroAt(s, h), values, es)))
    decreases |es|
  {
    hide ValidGameState, Apply, Projected, Current, Maximum, AdjustmentOwner, HeroAt, Min;
    if es != [] {
      var event := AdjustmentApplies(s, h, values, es[0]);
      var resource := es[0].resource;
      var current := if resource in values then values[resource] else Current(s, HeroAt(s, h), resource);
      var next := Max(0, Min(Maximum(s, HeroAt(s, h), resource), current + es[0].amount));
      FoldOne(Projected(s, h, values), event);
      FoldKeepsValid(Projected(s, h, values), [event], Projected(s, h, values[resource := next]));
      AdjustmentsApply(s, h, values[resource := next], es[1..]);
      FoldAppend(Projected(s, h, values), [event], AdjustmentEvents(s, HeroAt(s, h), values[resource := next],
        es[1..]).value);
    }
  }

  lemma ProjectedNothing(s: GameState, h: Option<nat>)
    requires h.Some? ==> h.value < |s.characters|
    ensures Projected(s, h, map[]) == s
  {
    if h.Some? {
      assert s.characters[h.value := s.characters[h.value]] == s.characters;
    }
  }

  lemma ResolutionApplies(s: GameState, i: nat, degree: Degree)
    requires ValidGameState(s) && i < |s.rituals| && FindRitual(s, At(s.rituals, i).ritualId) == Some(i)
    requires At(s.rituals, i).status.RitualReady? || At(s.rituals, i).status.AwaitingResolution?
    ensures Apply(s, RitualResolved(At(s.rituals, i).ritualId, degree, RitualOutcome(degree))) ==
            Done(WithRitual(s, i, At(s.rituals, i).(status := RitualOutcome(degree))))
  {
    hide ValidGameState, IndexOf, Distinct, ValidCost, ValidCombat, ValidParty, FindRitual;
    ValidParts(s);
    assert ValidRitual(s.rituals[i]);
    RitualReplaced(s.rituals, i, s.rituals[i].(status := RitualOutcome(degree)));
    WithRitualsValid(s, s.rituals[i := s.rituals[i].(status := RitualOutcome(degree))]);
  }

  /** One of the consequences the ritual's definition lists. */
  predicate ConsequenceOf(facts: Facts, r: Ritual, consequence: Consequence) {
    facts.catalog.Some? &&
    match ByReference(facts.catalog.value.definitions, r.definition)
    case None => false
    case Some(d) => d.RitualDefinition? && consequence in d.consequences
  }

  lemma {:induction false} ConsequenceFound(cs: seq<Consequence>, degree: Degree)
    requires ConsequenceFor(cs, degree).Some?
    ensures ConsequenceFor(cs, degree).value in cs && ConsequenceFor(cs, degree).value.degree == degree
  {
    if cs[0].degree != degree {
      ConsequenceFound(cs[1..], degree);
    }
  }

  lemma ActorOfResult(r: Request, face: int)
    ensures Resolve(r, face).actorId == r.actorId
  {}

  /** An accepted ritual resolution with a simulated check applies: the resources end as its definition's
      consequence for the degree rolled adjusts them one after another, the ritual closes, and nothing else changes. */
  lemma ResolveRitualAgrees(s: GameState, facts: Facts, id: Id, a: Attempt) returns (i: nat, consequence: Consequence)
    requires ValidGameState(s) && a.physicalReason.None? && !a.invokeSpark
    requires DecideResolveRitual(s, facts, id, a).Done?
    ensures i < |s.rituals| && At(s.rituals, i).ritualId == id && ConsequenceOf(facts, At(s.rituals, i), consequence)
    ensures AttemptCheck(s, facts, a).ResolvedAtOnce? && consequence.degree ==
            AttemptCheck(s, facts, a).result.finalDegree
    ensures var hero := HeroAt(s, FindActor(s, a.request.actorId));
            && (forall k :: 0 <= k < |consequence.effects| ==> AdjustmentAllowed(consequence.effects[k], hero))
            && Fold(s, DecideResolveRitual(s, facts, id, a).Get()) ==
               Done(Projected(s, FindActor(s, a.request.actorId), Final(s, hero, map[], consequence.effects))
                    .(rituals := s.rituals[i := s.rituals[i].(status := RitualOutcome(consequence.degree))]))
  {
    hide ValidGameState, Apply, IndexOf, CheckActorFits, AdjustmentEvents, ConsequenceFor, ByReference, Resolve, Fold,
         Final, FindActor, CreateDisclosure;
    i := FindRitual(s, id).value;
    var result := AttemptCheck(s, facts, a).result;
    SimulatedFirst(s, result, RitualEvents(s, facts, id, result.actorId, result.finalDegree).value);
    var h := FindActor(s, result.actorId);
    ActorOfResult(a.request, Draw(facts.random.value, 1, 20));
    assert HeroOf(s, result.actorId) == HeroAt(s, h);
    var d := ByReference(facts.catalog.value.definitions, s.rituals[i].definition).value;
    consequence := ConsequenceFor(d.consequences, result.finalDegree).value;
    ConsequenceFound(d.consequences, result.finalDegree);
    var effects := consequence.effects;
    ProjectedNothing(s, h);
    AdjustmentsApply(s, h, map[], effects);
    var adjusted := AdjustmentEvents(s, HeroAt(s, h), map[], effects).value;
    var u := Projected(s, h, Final(s, HeroAt(s, h), map[], effects));
    FoldKeepsValid(s, adjusted, u);
    var resolved := RitualResolved(id, result.finalDegree, RitualOutcome(result.finalDegree));
    ResolutionApplies(u, i, result.finalDegree);
    FoldOne(u, resolved);
    FoldAppend(s, adjusted, [resolved]);
  }

  // ----- One record more -----

  lemma ChallengeAdded(s: GameState, c: Challenge)
    requires ValidGameState(s) && ValidChallenge(c) && c.challengeId !in ChallengeIds(s.challenges)
    ensures ValidGameState(s.(challenges := s.challenges + [c])) <==> |s.challenges| < 16
  {
    hide ValidParty, ValidPendings, ValidCombatOption, ValidSocials, ValidRituals, ValidScars, ValidDeaths,
         ValidChallenge, Distinct;
    DistinctAppend(ChallengeIds(s.challenges), c.challengeId);
    assert ChallengeIds(s.challenges + [c]) == ChallengeIds(s.challenges) + [c.challengeId];
  }

  lemma SocialAdded(s: GameState, social: Social)
    requires ValidGameState(s) && ValidSocial(social) && social.npcActorId !in SocialIds(s.socials)
    ensures ValidGameState(s.(socials := s.socials + [social])) <==> |s.socials| < 32
  {
    hide ValidParty, ValidPendings, ValidCombatOption, ValidChallenges, ValidRituals, ValidScars, ValidDeaths,
         ValidSocial, Distinct, SocialIds;
    DistinctAppend(SocialIds(s.socials), social.npcActorId);
    assert SocialIds(s.socials + [social]) == SocialIds(s.socials) + [social.npcActorId];
  }

  lemma RitualAdded(s: GameState, r: Ritual)
    requires ValidGameState(s) && ValidRitual(r) && r.ritualId !in RitualIds(s.rituals)
    ensures ValidGameState(s.(rituals := s.rituals + [r])) <==> |s.rituals| < 16
  {
    hide ValidParty, ValidPendings, ValidCombatOption, ValidChallenges, ValidSocials, ValidScars, ValidDeaths,
         ValidRitual, Distinct;
    DistinctAppend(RitualIds(s.rituals), r.ritualId);
    assert RitualIds(s.rituals + [r]) == RitualIds(s.rituals) + [r.ritualId];
  }

  // ----- Starts -----

  /** An accepted challenge start is applied exactly while fewer than sixteen challenges are known. */
  lemma StartChallengeAgrees(s: GameState, facts: Facts, c: Challenge)
    requires ValidGameState(s) && DecideStartChallenge(s, facts, c).Done?
    ensures Fold(s, DecideStartChallenge(s, facts, c).Get()) ==
            if |s.challenges| < 16 then Done(s.(challenges := s.challenges + [c])) else Refused
  {
    hide ValidGameState, ValidChallenge, ChallengeContent, Apply, IndexOf, Fold, ChallengeIds;
    ChallengeStartApplies(s, c);
    FoldOne(s, ChallengeStarted(c));
  }

  lemma ChallengeStartApplies(s: GameState, c: Challenge)
    requires ValidGameState(s) && ValidChallenge(c) && c.challengeId !in ChallengeIds(s.challenges)
    ensures Apply(s, ChallengeStarted(c)) == if |s.challenges| < 16 then Done(s.(challenges := s.challenges + [c]))
            else Refused
  {
    hide ValidGameState, ValidChallenge, ChallengeIds;
    ChallengeAdded(s, c);
  }

  /** An accepted social state is applied exactly while fewer than thirty-two are known. */
  lemma EstablishSocialAgrees(s: GameState, facts: Facts, social: Social)
    requires ValidGameState(s) && DecideEstablishSocial(s, facts, social).Done?
    ensures Fold(s, DecideEstablishSocial(s, facts, social).Get()) ==
            if |s.socials| < 32 then Done(s.(socials := s.socials + [social])) else Refused
  {
    hide ValidGameState, ValidSocial, ByReference, Apply, Fold, SocialIds;
    SocialStartApplies(s, social);
    FoldOne(s, SocialStateEstablished(social));
  }

  lemma SocialStartApplies(s: GameState, social: Social)
    requires ValidGameState(s) && ValidSocial(social) && social.npcActorId !in SocialIds(s.socials)
    ensures Apply(s, SocialStateEstablished(social)) == if |s.socials| < 32
            then Done(s.(socials := s.socials + [social])) else Refused
  {
    hide ValidGameState, ValidSocial;
    SocialAdded(s, social);
  }

  /** An accepted ritual start within the record's own bounds is applied exactly while fewer than sixteen rituals are
      known. */
  lemma StartRitualAgrees(s: GameState, facts: Facts, r: Ritual, tags: seq<nat>)
    requires ValidGameState(s) && DecideStartRitual(s, facts, r, tags).Done?
    ensures Fold(s, DecideStartRitual(s, facts, r, tags).Get()) ==
            if |s.rituals| < 16 && ValidRitual(r) then Done(s.(rituals := s.rituals + [r])) else Refused
  {
    hide ValidGameState, ValidRitual, ByReference, CostsPayable, RequirementMet, Fold;
    if ValidRitual(r) {
      RitualAdded(s, r);
    }
    FoldOne(s, RitualStarted(r));
  }

  // ----- Changes -----

  /** An accepted interruption is applied: the ritual is interrupted, what was paid stays paid. */
  lemma InterruptRitualAgrees(s: GameState, id: Id) returns (j: nat)
    requires ValidGameState(s) && DecideInterruptRitual(s, id).Done?
    ensures j < |s.rituals| && At(s.rituals, j).ritualId == id
    ensures Fold(s, DecideInterruptRitual(s, id).Get()) ==
            Done(WithRitual(s, j, At(s.rituals, j).(status := Interrupted)))
  {
    hide ValidGameState, IndexOf, Apply, Fold, FindRitual, WithRitual, RitualClosed;
    j := FindRitual(s, id).value;
    InterruptionApplies(s, j);
    FoldOne(s, RitualInterrupted(id));
  }

  lemma InterruptionApplies(s: GameState, j: nat)
    requires ValidGameState(s) && j < |s.rituals| && FindRitual(s, At(s.rituals, j).ritualId) == Some(j)
             && !RitualClosed(At(s.rituals, j).status)
    ensures Apply(s, RitualInterrupted(At(s.rituals, j).ritualId)) ==
            Done(WithRitual(s, j, At(s.rituals, j).(status := Interrupted)))
  {
    hide ValidGameState, IndexOf, Distinct, ValidCost, ValidCombat, ValidParty, ValidPendings, FindRitual;
    ValidParts(s);
    assert ValidRitual(s.rituals[j]);
    RitualReplaced(s.rituals, j, s.rituals[j].(status := Interrupted));
    WithRitualsValid(s, s.rituals[j := s.rituals[j].(status := Interrupted)]);
  }

  /** Accepted leverage is applied: one more for that character, none lost. */
  lemma CreateLeverageAgrees(s: GameState, npc: Id, leverage: Id) returns (i: nat)
    requires ValidGameState(s) && DecideCreateLeverage(s, npc, leverage).Done?
    ensures i < |s.socials| && At(s.socials, i).npcActorId == npc
    ensures Fold(s, DecideCreateLeverage(s, npc, leverage).Get()) ==
            Done(WithSocial(s, i, At(s.socials, i).(leverage := At(s.socials, i).leverage + [leverage])))
  {
    hide ValidGameState, IndexOf, Distinct, Fold, ValidCombat, ValidParty, ValidPendings, ValidChallenges;
    i := FindSocial(s, npc).value;
    var social := s.socials[i];
    ValidParts(s);
    assert ValidSocial(social);
    DistinctAppend(social.leverage, leverage);
    SocialReplaced(s.socials, i, social.(leverage := social.leverage + [leverage]));
    WithSocialsValid(s, s.socials[i := social.(leverage := social.leverage + [leverage])]);
    FoldOne(s, LeverageCreated(npc, leverage));
  }

  lemma {:induction false} WithoutOne(ids: seq<Id>, id: Id)
    requires Distinct(ids)
    ensures Distinct(WithoutId(ids, id)) && |WithoutId(ids, id)| <= |ids|
    ensures forall x :: x in WithoutId(ids, id) <==> x in ids && x != id
  {
    if ids != [] {
      assert ids == [ids[0]] + ids[1..];
      forall i, j | 0 <= i < j < |ids[1..]| ensures ids[1..][i] != ids[1..][j] {
        assert ids[i + 1] != ids[j + 1];
      }
      WithoutOne(ids[1..], id);
      var rest := WithoutId(ids[1..], id);
      assert ids[0] !in ids[1..] by {
        forall k | 0 <= k < |ids[1..]| ensures ids[1..][k] != ids[0] {
          assert ids[0] != ids[k + 1];
        }
      }
    }
  }

  /** Spent leverage is applied: exactly that one is gone. */
  lemma SpendLeverageAgrees(s: GameState, npc: Id, leverage: Id) returns (i: nat, left: seq<Id>)
    requires ValidGameState(s) && DecideSpendLeverage(s, npc, leverage).Done?
    ensures i < |s.socials| && At(s.socials, i).npcActorId == npc
    ensures forall x :: x in left <==> x in At(s.socials, i).leverage && x != leverage
    ensures Fold(s, DecideSpendLeverage(s, npc, leverage).Get()) ==
            Done(WithSocial(s, i, At(s.socials, i).(leverage := left)))
  {
    hide ValidGameState, IndexOf, Distinct, WithoutId, Apply, Fold, FindSocial, WithSocial;
    i := FindSocial(s, npc).value;
    var social := s.socials[i];
    left := WithoutId(social.leverage, leverage);
    LossApplies(s, i, leverage);
    FoldOne(s, LeverageSpent(npc, leverage));
  }

  lemma LossApplies(s: GameState, i: nat, leverage: Id)
    requires ValidGameState(s) && i < |s.socials| && FindSocial(s, At(s.socials, i).npcActorId) == Some(i)
             && leverage in At(s.socials, i).leverage
    ensures var left := WithoutId(At(s.socials, i).leverage, leverage);
            && (forall x :: x in left <==> x in At(s.socials, i).leverage && x != leverage)
            && Apply(s, LeverageSpent(At(s.socials, i).npcActorId, leverage)) ==
              Done(WithSocial(s, i, At(s.socials, i).(leverage := left)))
  {
    hide ValidGameState, IndexOf, Distinct, WithoutId, ValidCombat, ValidParty, ValidPendings, FindSocial;
    var social := s.socials[i];
    ValidParts(s);
    assert ValidSocial(social);
    WithoutOne(social.leverage, leverage);
    var left := WithoutId(social.leverage, leverage);
    SocialReplaced(s.socials, i, social.(leverage := left));
    WithSocialsValid(s, s.socials[i := social.(leverage := left)]);
  }

  // ----- A full list -----

  function Race(id: Id): Challenge {
    Challenge(id, Ref(9, 1), Track(0, 4), Track(0, 4), ProgressWins, ChallengeActive)
  }

  function Races(n: nat): seq<Challenge> {
    seq(n, i requires 0 <= i < n => Race(i))
  }

  function Racing(): GameState {
    EmptyCampaign(7).(challenges := Races(16))
  }

  function RaceCatalog(): Catalog {
    Catalog(7, [ChallengeDefinition(Ref(9, 1), 4, 4, ProgressWins,
      [TrackOutcome(Crisis, 0, 2), TrackOutcome(Setback, 0, 1), TrackOutcome(Success, 1, 0),
        TrackOutcome(Triumph, 2, 0)])])
  }

  lemma RaceCatalogAccepted()
    ensures CatalogAccepted(RaceCatalog().definitions) && WellFormedCatalog(RaceCatalog())
  {
    NoOptionsNoCycle(RaceCatalog().definitions);
  }

  lemma RacesValid()
    ensures ValidGameState(Racing()) && 16 !in ChallengeIds(Races(16))
  {
    hide ValidGameState;
    EmptyCampaignIsValid(7);
    forall i | 0 <= i < 16 ensures ChallengeIds(Races(16))[i] == i {
      assert Races(16)[i] == Race(i);
    }
    WithChallengesValid(EmptyCampaign(7), Races(16));
  }

  const LAST: nat := 16

  /** Concretely: with sixteen challenges under way the seventeenth is accepted by the decider and refused by the
      reducer. */
  lemma SeventeenthChallengeIsRefused(facts: Facts)
    requires facts.catalog == Some(RaceCatalog())
    ensures CatalogAccepted(RaceCatalog().definitions) && WellFormedCatalog(RaceCatalog())
    ensures ValidGameState(Racing()) && DecideStartChallenge(Racing(), facts, Race(LAST)).Done?
    ensures Fold(Racing(), DecideStartChallenge(Racing(), facts, Race(LAST)).Get()).Refused?
  {
    hide ValidGameState, Apply, ChallengeIds, Races, CatalogAccepted, WellFormedCatalog, Fold;
    RaceCatalogAccepted();
    RacesValid();
    assert |Racing().challenges| == 16 by { RacesCount(); }
    StartChallengeAgrees(Racing(), facts, Race(16));
  }

  lemma RacesCount()
    ensures |Races(16)| == 16
  {}
}
