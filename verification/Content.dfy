/** The pinned content catalog, and the facts a decision is given beside the state. */
module Content {
  import opened Common
  import opened State
  import opened Events

  datatype EdgeContext = CheckEdge | AttackEdge | DeathTestEdge

  datatype MoveWhom = MoveSelf | MoveAlly | MoveEnemy

  datatype Effect =
    | AdjustResource(resource: Resource, amount: int, onSelf: bool)
    | GrantEdge(context: EdgeContext)
    | DealImpact(impact: int)
    | ReduceImpact(amount: int)
    | MoveEffect(adjacentOnly: bool, whom: MoveWhom)
    | ConditionEffect(condition: Ref, duration: Duration)
    | AdvanceTrack(onObjective: bool, amount: int)
    | ShiftStanceEffect(steps: int)
    | LeverageEffect(count: int)
    | ReactionEffect
    | SceneUseEffect(ability: Ref)

  datatype TargetRule = TargetSelf | TargetActor | TargetZone | TargetObjective

  datatype Profile = Profile(attribute: Attribute, discipline: Discipline, target: int)

  datatype AbilityCategory = GearAbility | SignatureAbility | PowerAbility | ReactionAbility

  datatype Ability = Ability(
    ref: Ref, category: AbilityCategory, slot: Slot, cost: seq<Effect>, targetRule: TargetRule, range: RangeBand,
    fixedImpact: Option<int>, profile: Option<Profile>, effects: seq<Effect>)

  datatype EnemyAction = EnemyAction(action: Ref, tags: seq<nat>)

  datatype OverlayTrigger = GuardDepleted | ObjectiveChanged | RoundStarted

  datatype OptionCategory =
    | HeritageOption
    | UpbringingOption
    | ArchetypeOption
    | PathOption
    | TalentOption
    | CapstoneOption

  datatype Prerequisite = NeedsRank(minimum: int) | NeedsContent(required: Ref) | NeedsArchetype(required: Ref)

  datatype TrackOutcome = TrackOutcome(degree: Degree, progress: int, danger: int)

  datatype Consequence = Consequence(degree: Degree, effects: seq<Effect>)

  datatype Definition =
    | AbilityDefinition(ability: Ability)
    | EnemyDefinition(ref: Ref, boss: bool, guard: int, armor: int,
        attributes: map<Attribute, int>, disciplines: map<Discipline, int>,
        actions: seq<EnemyAction>, goalTags: seq<nat>, temperamentTags: seq<nat>)
    | ObjectiveDefinition(ref: Ref, threshold: int, effects: seq<Effect>)
    | OverlayDefinition(ref: Ref, objective: Ref, trigger: OverlayTrigger, effects: seq<Effect>)
    | ConditionDefinition(ref: Ref, effects: seq<Effect>)
      /** `archetypeGuard` is the Guard maximum its display name stands for, if it is one of the six archetypes. */
    | OptionDefinition(ref: Ref, optionCategory: OptionCategory, rank: int, production: bool,
        prerequisites: seq<Prerequisite>, granted: seq<Id>, effects: seq<Effect>, archetypeGuard: Option<int>)
    | ChallengeDefinition(ref: Ref, progressMaximum: int, dangerMaximum: int, tieRule: TieRule,
      outcomes: seq<TrackOutcome>)
    | SocialDefinition(ref: Ref, initialStance: Stance, leverageCapacity: int, limitCount: nat)
    | RitualDefinition(ref: Ref, requirements: seq<Requirement>, costs: seq<Cost>, targetMode: TargetMode,
        consequences: seq<Consequence>)
    | CoreTerm(ref: Ref)

  function RefOf(d: Definition): Ref {
    if d.AbilityDefinition? then d.ability.ref else d.ref
  }

  datatype Catalog = Catalog(manifest: nat, definitions: seq<Definition>)

  /** The first definition with exactly this identity and revision. */
  function ByReference(ds: seq<Definition>, ref: Ref): (r: Option<Definition>)
    ensures r.Some? ==> r.value in ds && RefOf(r.value) == ref
  {
    if ds == [] then None
    else if RefOf(ds[0]) == ref then Some(ds[0])
    else ByReference(ds[1..], ref)
  }

  function MatchesOf(ds: seq<Definition>, id: Id): (r: seq<Definition>)
    ensures forall d :: d in r ==> d in ds
  {
    if ds == [] then []
    else (if RefOf(ds[0]).definitionId == id then [ds[0]] else []) + MatchesOf(ds[1..], id)
  }

  /** The only definition with this identity; none when several revisions share it. */
  function ById(ds: seq<Definition>, id: Id): (r: Option<Definition>)
    ensures r.Some? ==> r.value in ds
  {
    var matches := MatchesOf(ds, id);
    if |matches| == 1 then Some(matches[0]) else None
  }

  function AbilityByReference(catalog: Catalog, ref: Ref): (r: Option<Ability>)
    ensures r.Some? ==> r.value.ref == ref && AbilityDefinition(r.value) in catalog.definitions
  {
    match ByReference(catalog.definitions, ref)
    case None => None
    case Some(d) => if d.AbilityDefinition? then Some(d.ability) else None
  }

  /** What the stable key of a legal action is made of. */
  datatype ActionKey = ActionKey(combatId: Id, actorId: Id, slot: Slot, kind: ActionKind, source: Option<Ref>,
    target: Target)

  /** Everything a decision is given beside the state and the command. */
  datatype Facts = Facts(
    catalog: Option<Catalog>, random: Option<nat>,
    pendingCheckId: Option<Id>, nonce: Option<Id>,
    legalActionIdFor: Option<ActionKey -> Id>,
    woundId: Option<Id>, deathCheckId: Option<Id>, deathNonce: Option<Id>,
    conditionId: Option<Id>, scarId: Option<Id>)

  /** The value of a draw: whatever the source supplies, it lies in the requested range. */
  function Draw(random: nat, minimum: int, maximum: int): (r: int)
    requires minimum <= maximum
    ensures minimum <= r <= maximum
  {
    minimum + random % (maximum - minimum + 1)
  }

  /** The catalog this campaign pins. */
  function PinnedCatalog(s: GameState, facts: Facts): (r: Outcome<Catalog>)
    ensures r.Done? ==> facts.catalog == Some(r.value)
  {
    if facts.catalog.None? || facts.catalog.value.manifest != s.manifest then Refused else Done(facts.catalog.value)
  }

  /** The resource-transition check: a new value between zero and the maximum. */
  function Transition(current: int, delta: int, maximum: int): (r: Outcome<int>)
    ensures r.Done? <==> 0 <= current + delta <= maximum
    ensures r.Done? ==> r.value == current + delta
  {
    if current + delta < 0 || current + delta > maximum then Refused else Done(current + delta)
  }

  // ----- The bounds of the content schemas -----

  predicate WellFormedEffect(e: Effect) {
    match e
    case AdjustResource(_, amount, _) => -20 <= amount <= 20
    case DealImpact(impact) => 1 <= impact <= 20
    case AdvanceTrack(_, amount) => 1 <= amount <= 10
    case _ => true
  }

  predicate WellFormedEffects(es: seq<Effect>) {
    forall i :: 0 <= i < |es| ==> WellFormedEffect(es[i])
  }

  predicate WellFormedAbility(a: Ability) {
    && WellFormedEffects(a.cost) && WellFormedEffects(a.effects)
    && (a.fixedImpact.Some? ==> 1 <= a.fixedImpact.value <= 20)
    && (a.profile.Some? ==> a.profile.value.target in {10, 13, 16, 19, 22})
  }

  predicate WellFormedAction(a: EnemyAction) {
    |a.tags| <= 8 && Distinct(a.tags)
  }

  predicate WellFormed(d: Definition) {
    match d
    case AbilityDefinition(a) => WellFormedAbility(a)
    case EnemyDefinition(_, _, guard, armor, attributes, disciplines, actions, _, _) =>
      && 1 <= guard && 0 <= armor
      && (forall a :: a in attributes ==> 0 <= attributes[a] <= 2)
      && (forall x :: x in disciplines ==> 0 <= disciplines[x] <= 2)
      && (forall i :: 0 <= i < |actions| ==> WellFormedAction(actions[i]))
    case ChallengeDefinition(_, _, _, _, outcomes) =>
      forall i :: 0 <= i < |outcomes| ==> 0 <= outcomes[i].progress && 0 <= outcomes[i].danger
    case _ => true
  }

  predicate WellFormedCatalog(c: Catalog) {
    forall d :: d in c.definitions ==> WellFormed(d)
  }
}
