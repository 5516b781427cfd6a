/** The challenge, social and ritual commands. */
module Subsystems {
  import opened Common
  import opened State
  import opened Validity
  import opened Events
  import opened Reducer
  import opened Checks
  import opened Content
  import opened CombatRules
  import opened CombatDecisions

  /** A check a command asks for: its request, the mandatory reason of a physical roll, and whether Spark is invoked. */
  datatype Attempt = Attempt(request: Request, physicalReason: Option<Reason>, invokeSpark: bool)

  /** The ratings are the hero's own, and an invoked Spark is there to be spent. */
  predicate CheckActorFits(s: GameState, a: Attempt) {
    match FindActor(s, a.request.actorId)
    case None => false
    case Some(i) =>
      var hero := s.characters[i];
      && Rating(hero.attributes, a.request.attribute) == Some(a.request.attributeRating)
      && Rating(hero.disciplines, a.request.discipline) == Some(a.request.disciplineRating)
      && (a.invokeSpark ==> hero.sparkAvailable)
  }

  function SelectAttempt(a: Attempt): Selection {
    SelectPhysicalRoll(a.request, if a.physicalReason.Some? then [a.physicalReason.value] else [], a.invokeSpark)
  }

  /** The request of a physical roll, after the Spark it was invoked with. */
  function RequestEvents(selected: Selection, checkId: Id, nonce: Id): seq<Event> {
    match selected
    case Physical(request, d, sparkSpent) =>
      (if sparkSpent then [SparkSpent(request.actorId)] else []) + [PhysicalRollRequested(checkId, nonce, d)]
    case _ => []
  }

  /** How an attempt goes on: refused, waiting for a physical roll, or resolved at once. */
  datatype Attempted = AttemptRefused | Waiting(events: seq<Event>, checkId: Id) | ResolvedAtOnce(result: CheckResult)

  function AttemptCheck(s: GameState, facts: Facts, a: Attempt): Attempted {
    if !CheckActorFits(s, a) then AttemptRefused
    else
      match SelectAttempt(a)
      case SelectionRejected => AttemptRefused
      case Physical(_, _, _) =>
        if facts.pendingCheckId.None? || facts.nonce.None? then AttemptRefused
        else
          Waiting(RequestEvents(SelectAttempt(a), facts.pendingCheckId.value, facts.nonce.value),
          facts.pendingCheckId.value)
      case Simulated =>
        if facts.random.None? then AttemptRefused
          else ResolvedAtOnce(Resolve(a.request, Draw(facts.random.value, 1, 20)))
  }

  // ----- Challenges -----

  function ChallengeContent(catalog: Catalog, ref: Ref): (r: Option<Definition>)
    ensures r.Some? ==> r.value.ChallengeDefinition? && r.value in catalog.definitions
  {
    match ByReference(catalog.definitions, ref)
    case None => None
    case Some(d) => if d.ChallengeDefinition? then Some(d) else None
  }

  function DecideStartChallenge(s: GameState, facts: Facts, c: Challenge): Decision {
    match PinnedCatalog(s, facts)
    case Refused => Refused
    case Done(catalog) =>
      match ChallengeContent(catalog, c.definition)
      case None => Refused
      case Some(d) =>
        if c.challengeId in ChallengeIds(s.challenges)
          || d.progressMaximum != c.progress.maximum || d.dangerMaximum != c.danger.maximum || d.tieRule != c.tieRule
          || c.progress.current != 0 || c.danger.current != 0 || !c.status.ChallengeActive? || !ValidChallenge(c)
            then Refused
        else Done([ChallengeStarted(c)])
  }

  function OutcomeFor(outcomes: seq<TrackOutcome>, degree: Degree): (r: Option<TrackOutcome>)
    ensures r.Some? ==> r.value in outcomes && r.value.degree == degree
  {
    if outcomes == [] then None else if outcomes[0].degree == degree then Some(outcomes[0])
      else OutcomeFor(outcomes[1..], degree)
  }

  function ChallengeEvents(s: GameState, facts: Facts, challengeId: Id, degree: Degree): Decision {
    match PinnedCatalog(s, facts)
    case Refused => Refused
    case Done(catalog) =>
      match FindChallenge(s, challengeId)
      case None => Refused
      case Some(i) =>
        var c := s.challenges[i];
        if !c.status.ChallengeActive? then Refused
        else
          match ChallengeContent(catalog, c.definition)
          case None => Refused
          case Some(d) =>
            match OutcomeFor(d.outcomes, degree)
            case None => Refused
            case Some(effect) => Done(TrackEvents(c, effect))
  }

  /** Both tracks move, and a full track closes the challenge. */
  function TrackEvents(c: Challenge, effect: TrackOutcome): seq<Event> {
    var progress := Min(c.progress.maximum, c.progress.current + effect.progress);
    var danger := Min(c.danger.maximum, c.danger.current + effect.danger);
    var progressFull, dangerFull := progress == c.progress.maximum, danger == c.danger.maximum;
    var status :=
      if progressFull && dangerFull then
        (if c.tieRule.ProgressWins? then ChallengeCompleted else if c.tieRule.DangerWins? then ChallengeFailed
          else ChallengeWithCost)
      else if progressFull then ChallengeCompleted
      else if dangerFull then ChallengeFailed
      else ChallengeActive;
    [ChallengeTracksChanged(c.challengeId, c.progress.current, progress, c.danger.current, danger, status)]
    + (if status.ChallengeActive? then [] else [ChallengeResolved(c.challengeId, status)])
  }

  predicate ChallengePending(s: GameState, challengeId: Id) {
    exists i :: 0 <= i < |s.pendingChecks| && s.pendingChecks[i].continuation == Some(ForChallenge(challengeId))
  }

  function DecideAdvanceChallenge(s: GameState, facts: Facts, challengeId: Id, a: Attempt): Decision {
    match PinnedCatalog(s, facts)
    case Refused => Refused
    case Done(_) =>
      match FindChallenge(s, challengeId)
      case None => Refused
      case Some(i) =>
        if !s.challenges[i].status.ChallengeActive? || ChallengePending(s, challengeId) then Refused
        else
          match AttemptCheck(s, facts, a)
          case AttemptRefused => Refused
          case Waiting(events, check) => Done(events + [ChallengeCheckPending(challengeId, check)])
          case ResolvedAtOnce(result) =>
            Both(Done([CheckResolvedSimulated(result)]), ChallengeEvents(s, facts, challengeId, result.finalDegree))
  }

  // ----- Social scenes -----

  function DecideEstablishSocial(s: GameState, facts: Facts, social: Social): Decision {
    match PinnedCatalog(s, facts)
    case Refused => Refused
    case Done(catalog) =>
      match ByReference(catalog.definitions, social.definition)
      case None => Refused
      case Some(d) =>
        if social.npcActorId in SocialIds(s.socials) || !d.SocialDefinition? || !ValidSocial(social)
          || d.limitCount != |social.hardLimits| || d.initialStance != social.stance
          || d.leverageCapacity != social.leverageCapacity || social.leverage != [] then Refused
        else Done([SocialStateEstablished(social)])
  }

  const STANCES := [Closed, Guarded, Receptive, Aligned]

  function SocialEvents(s: GameState, npc: Id, requested: Stance, limit: Option<Id>, degree: Degree): Decision {
    match FindSocial(s, npc)
    case None => Refused
    case Some(i) =>
      var social := s.socials[i];
      var from, to := StanceIndex(social.stance), StanceIndex(requested);
      if limit.Some? && limit.value in social.hardLimits then Refused
      else if Steps(degree) == 0 || from == to then Done([])
      else
        var direction := if to > from then 1 else -1;
        var next := Max(0, Min(3, from + direction * Min(Steps(degree), Abs(to - from))));
        Done([SocialStanceChanged(npc, social.stance, STANCES[next], degree)])
  }

  predicate SocialPending(s: GameState, npc: Id) {
    exists i :: 0 <= i < |s.pendingChecks| && s.pendingChecks[i].continuation.Some?
      && s.pendingChecks[i].continuation.value.ForSocial? && s.pendingChecks[i].continuation.value.npcActorId == npc
  }

  function DecideAttemptSocialShift(s: GameState, facts: Facts, npc: Id, a: Attempt, requested: Stance,
      limit: Option<Id>): Decision {
    match FindSocial(s, npc)
    case None => Refused
    case Some(i) =>
      if SocialPending(s, npc) || (limit.Some? && limit.value in s.socials[i].hardLimits) then Refused
      else
        match AttemptCheck(s, facts, a)
        case AttemptRefused => Refused
        case Waiting(events, check) => Done(events + [SocialCheckPending(npc, check, requested, limit)])
        case ResolvedAtOnce(result) =>
          Both(Done([CheckResolvedSimulated(result)]), SocialEvents(s, npc, requested, limit, result.finalDegree))
  }

  function DecideCreateLeverage(s: GameState, npc: Id, leverage: Id): Decision {
    match FindSocial(s, npc)
    case None => Refused
    case Some(i) =>
      if |s.socials[i].leverage| >= s.socials[i].leverageCapacity || leverage in s.socials[i].leverage then Refused
      else Done([LeverageCreated(npc, leverage)])
  }

  function DecideSpendLeverage(s: GameState, npc: Id, leverage: Id): Decision {
    match FindSocial(s, npc)
    case None => Refused
    case Some(i) => if leverage !in s.socials[i].leverage then Refused else Done([LeverageSpent(npc, leverage)])
  }

  // ----- Starting and paying a ritual -----

  function ReadyGear(gear: seq<Gear>): seq<Ref> {
    if gear == [] then [] else (if gear[0].Ready? then [gear[0].definition] else []) + ReadyGear(gear[1..])
  }

  /** All the party's ready gear, hero by hero. */
  function PartyGear(cs: seq<Character>): seq<Ref> {
    if cs == [] then [] else ReadyGear(cs[0].gear) + PartyGear(cs[1..])
  }

  function GearCosts(costs: seq<Cost>): seq<Ref> {
    if costs == [] then [] else (if costs[0].GearCost? then [costs[0].definition] else []) + GearCosts(costs[1..])
  }

  lemma Spliced(refs: seq<Ref>, i: nat)
    requires i < |refs|
    ensures multiset(refs) == multiset(refs[..i] + refs[i + 1..]) + multiset{refs[i]}
  {
    assert refs == refs[..i] + [refs[i]] + refs[i + 1..];
  }

  /** An item that is asked for once more than it is there. */
  lemma Missing(costs: seq<Ref>, k: nat, available: seq<Ref>, all: multiset<Ref>)
    requires k < |costs| && costs[k] !in available
    requires multiset(available) + multiset(costs[..k]) == all
    ensures !(multiset(costs) <= all)
  {
    assert costs == costs[..k] + [costs[k]] + costs[k + 1..];
    assert multiset(costs)[costs[k]] >= multiset(costs[..k])[costs[k]] + 1;
    assert multiset(available)[costs[k]] == 0;
  }

  /** `significantGearCostsPayable`: each cost takes one matching item out of what is available. */
  method SignificantGearCostsPayable(s: GameState, costs: seq<Ref>) returns (payable: bool)
    ensures payable <==> multiset(costs) <= multiset(PartyGear(s.characters))
  {
    hide PartyGear;
    var available := PartyGear(s.characters);
    ghost var all := multiset(available);
    for k := 0 to |costs|
      invariant multiset(available) + multiset(costs[..k]) == all
    {
      var index := FirstRef(available, costs[k]);
      if index.None? {
        Missing(costs, k, available, all);
        return false;
      }
      Spliced(available, index.value);
      assert costs[..k + 1] == costs[..k] + [costs[k]];
      available := available[..index.value] + available[index.value + 1..];
    }
    assert costs[..|costs|] == costs;
    return true;
  }

  function FirstRef(refs: seq<Ref>, ref: Ref): (r: Option<nat>)
    ensures r.Some? ==> r.value < |refs| && refs[r.value] == ref
    ensures r.None? ==> ref !in refs
  {
    if refs == [] then None
    else if refs[0] == ref then Some(0)
    else
      match FirstRef(refs[1..], ref)
      case None => None
      case Some(i) => Some(i + 1)
  }

  predicate Owns(c: Character, ref: Ref) {
    ref in OptionRefs(c.options) || Ready(ref) in c.gear
  }

  predicate RequirementMet(s: GameState, r: Requirement, tags: seq<nat>) {
    match r
    case ParticipantCount(minimum) => |s.characters| >= minimum
    case Content(definition) => exists i :: 0 <= i < |s.characters| && Owns(s.characters[i], definition)
    case FictionalPosition(tag) => tag in tags
  }

  function SupplyTotal(costs: seq<Cost>): int {
    if costs == [] then 0 else (if costs[0].SupplyCost? then costs[0].amount else 0) + SupplyTotal(costs[1..])
  }

  function ExertionTotal(costs: seq<Cost>): int {
    if costs == [] then 0 else (if costs[0].ExertionCost? then costs[0].amount else 0) + ExertionTotal(costs[1..])
  }

  function PartyExertion(cs: seq<Character>): int {
    if cs == [] then 0 else cs[0].exertion + PartyExertion(cs[1..])
  }

  predicate CostsPayable(s: GameState, costs: seq<Cost>) {
    && multiset(GearCosts(costs)) <= multiset(PartyGear(s.characters))
    && s.supply >= SupplyTotal(costs)
    && PartyExertion(s.characters) >= ExertionTotal(costs)
  }

  function DecideStartRitual(s: GameState, facts: Facts, r: Ritual, tags: seq<nat>): Decision {
    match PinnedCatalog(s, facts)
    case Refused => Refused
    case Done(catalog) =>
      match ByReference(catalog.definitions, r.definition)
      case None => Refused
      case Some(d) =>
        if r.ritualId in RitualIds(s.rituals) || !d.RitualDefinition?
          || !r.status.Preparing? || r.paid != 0 || r.contributors != []
          || d.requirements != r.requirements || d.costs != r.costs || d.targetMode != r.target
          || !(forall i :: 0 <= i < |r.requirements| ==> RequirementMet(s, r.requirements[i], tags))
          || !CostsPayable(s, r.costs) then Refused
        else Done([RitualStarted(r)])
  }

  /** The contribution that pays the cost at the ritual's index, and the last one makes it ready. */
  function Paid(r: Ritual, characterId: Id): seq<Event> {
    [RitualContribution(r.ritualId, characterId, r.paid)]
    + (if r.paid + 1 == |r.costs| then [BecameReady(r.ritualId)] else [])
  }

  function ReadySlot(gear: seq<Gear>, definition: Ref): (r: Option<nat>)
    ensures r.Some? ==> r.value < |gear| && gear[r.value] == Ready(definition)
    ensures r.None? ==> Ready(definition) !in gear
  {
    if gear == [] then None
    else if gear[0] == Ready(definition) then Some(0)
    else
      match ReadySlot(gear[1..], definition)
      case None => None
      case Some(i) => Some(i + 1)
  }

  function DecideContributeRitual(s: GameState, ritualId: Id, characterId: Id, index: int): Decision {
    match FindRitual(s, ritualId)
    case None => Refused
    case Some(i) =>
      var r := s.rituals[i];
      match FindCharacter(s, characterId)
      case None => Refused
      case Some(h) =>
        var hero := s.characters[h];
        if !r.status.Preparing? || index != r.paid then Refused
        else
          match NextCost(r)
          case None => Refused
          case Some(cost) => Both(PaymentEvents(s, hero, cost, ritualId), Done(Paid(r, characterId)))
  }

  function PaymentEvents(s: GameState, hero: Character, cost: Cost, ritualId: Id): Decision {
    match cost
    case GearCost(definition) =>
      (match ReadySlot(hero.gear, definition)
       case None => Refused
       case Some(k) => Done([SignificantGearSpent(hero.characterId, k + 1, definition, ritualId)]))
    case SupplyCost(amount) =>
      (match Transition(s.supply, -amount, s.supplyMaximum)
       case Refused => Refused
       case Done(next) => Done([ResourceChanged(Party, Supply, s.supply, next)]))
    case ExertionCost(amount) =>
      (match Transition(hero.exertion, -amount, EXERTION_MAXIMUM)
       case Refused => Refused
       case Done(next) => Done([ResourceChanged(Of(hero.characterId), Exertion, hero.exertion, next)]))
  }

  // ----- Resolving a ritual -----

  /** Supply is the party's; Guard and Exertion are the actor's own, who must be a hero. */
  predicate AdjustmentAllowed(e: Effect, hero: Option<Character>) {
    e.AdjustResource? && (if e.resource.Supply? then !e.onSelf else e.onSelf && hero.Some?)
  }

  function AdjustmentOwner(e: Effect, hero: Option<Character>): Owner
    requires AdjustmentAllowed(e, hero)
  {
    if e.resource.Supply? then Party else Of(hero.value.characterId)
  }

  function Current(s: GameState, hero: Option<Character>, resource: Resource): int
    requires resource.Supply? || hero.Some?
  {
    match resource
    case Supply => s.supply
    case Guard => hero.value.guard
    case Exertion => hero.value.exertion
  }

  function Maximum(s: GameState, hero: Option<Character>, resource: Resource): int
    requires resource.Supply? || hero.Some?
  {
    match resource
    case Supply => s.supplyMaximum
    case Guard => hero.value.guardMaximum
    case Exertion => EXERTION_MAXIMUM
  }

  /** Chained adjustments, each clamped and starting where the previous one to the same resource ended. */
  function AdjustmentEvents(s: GameState, hero: Option<Character>, values: map<Resource, int>,
      es: seq<Effect>): Decision
    decreases |es|
  {
    if es == [] then Done([])
    else if !AdjustmentAllowed(es[0], hero) then Refused
    else
      var resource := es[0].resource;
      var current := if resource in values then values[resource] else Current(s, hero, resource);
      var next := Max(0, Min(Maximum(s, hero, resource), current + es[0].amount));
      Both(Done([ResourceChanged(AdjustmentOwner(es[0], hero), resource, current, next)]),
           AdjustmentEvents(s, hero, values[resource := next], es[1..]))
  }

  /** `ritualEffectEvents`: the loop over the effects with its map of projected values. */
  method RitualEffectEvents(s: GameState, hero: Option<Character>, es: seq<Effect>) returns (r: Decision)
    ensures r == AdjustmentEvents(s, hero, map[], es)
  {
    var events: seq<Event> := [];
    var projected: map<Resource, int> := map[];
    assert es[0..] == es;
    BothEmpty(AdjustmentEvents(s, hero, map[], es));
    for k := 0 to |es|
      invariant AdjustmentEvents(s, hero, map[], es) == Both(Done(events),
                AdjustmentEvents(s, hero, projected, es[k..]))
    {
      assert es[k..][0] == es[k] && es[k..][1..] == es[k + 1..];
      if !AdjustmentAllowed(es[k], hero) { return Refused; }
      var resource := es[k].resource;
      var current := if resource in projected then projected[resource] else Current(s, hero, resource);
      var next := Max(0, Min(Maximum(s, hero, resource), current + es[k].amount));
      projected := projected[resource := next];
      var pushed := [ResourceChanged(AdjustmentOwner(es[k], hero), resource, current, next)];
      BothAssociates(events, pushed, AdjustmentEvents(s, hero, projected, es[k + 1..]));
      events := events + pushed;
    }
    assert events + [] == events;
    return Done(events);
  }

  function ConsequenceFor(cs: seq<Consequence>, degree: Degree): Option<Consequence> {
    if cs == [] then None else if cs[0].degree == degree then Some(cs[0]) else ConsequenceFor(cs[1..], degree)
  }

  function HeroOf(s: GameState, actor: Id): (r: Option<Character>)
    ensures r.Some? ==> r.value in s.characters && r.value.actorId == actor
  {
    match FindActor(s, actor)
    case None => None
    case Some(i) => Some(s.characters[i])
  }

  function RitualEvents(s: GameState, facts: Facts, ritualId: Id, actor: Id, degree: Degree): Decision {
    match PinnedCatalog(s, facts)
    case Refused => Refused
    case Done(catalog) =>
      match FindRitual(s, ritualId)
      case None => Refused
      case Some(i) =>
        var r := s.rituals[i];
        if !(r.status.RitualReady? || r.status.AwaitingResolution?) then Refused
        else
          match ByReference(catalog.definitions, r.definition)
          case None => Refused
          case Some(d) =>
            if !d.RitualDefinition? then Refused
            else
              match ConsequenceFor(d.consequences, degree)
              case None => Refused
              case Some(consequence) =>
                Both(AdjustmentEvents(s, HeroOf(s, actor), map[], consequence.effects),
                     Done([RitualResolved(ritualId, degree, RitualOutcome(degree))]))
  }

  function DecideResolveRitual(s: GameState, facts: Facts, ritualId: Id, a: Attempt): Decision {
    match FindRitual(s, ritualId)
    case None => Refused
    case Some(i) =>
      if !s.rituals[i].status.RitualReady? then Refused
      else
        match AttemptCheck(s, facts, a)
        case AttemptRefused => Refused
        case Waiting(events, check) => Done(events + [RitualCheckPending(ritualId, check)])
        case ResolvedAtOnce(result) =>
          Both(Done([CheckResolvedSimulated(result)]), RitualEvents(s, facts, ritualId, result.actorId,
            result.finalDegree))
  }

  function DecideInterruptRitual(s: GameState, ritualId: Id): Decision {
    match FindRitual(s, ritualId)
    case None => Refused
    case Some(i) => if RitualClosed(s.rituals[i].status) then Refused else Done([RitualInterrupted(ritualId)])
  }
}
