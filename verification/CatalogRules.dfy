/** What content validation asks of the definitions of a catalog. */
module CatalogRules {
  import opened Common
  import opened State
  import opened Content
  import opened Prerequisites

  predicate HasEffects(es: seq<Effect>, most: nat) {
    1 <= |es| <= most
  }

  /** The bounds of the content schemas, counts included; texts and tags' spelling aside. */
  predicate WithinSchema(d: Definition) {
    && WellFormed(d)
    && match d
       case AbilityDefinition(a) => |a.cost| <= 4 && HasEffects(a.effects, 8)
       case EnemyDefinition(_, _, guard, armor, attributes, disciplines, actions, goals, temperaments) =>
         && guard <= 100 && armor <= 20 && (forall a: Attribute :: a in attributes)
           && (forall x: Discipline :: x in disciplines)
         && 1 <= |actions| <= 8 && 1 <= |goals| <= 8 && Distinct(goals) && 1 <= |temperaments| <= 8
           && Distinct(temperaments)
       case ObjectiveDefinition(_, threshold, effects) => 1 <= threshold <= 20 && WellFormedEffects(effects)
         && HasEffects(effects, 8)
       case OverlayDefinition(_, _, _, effects) => WellFormedEffects(effects) && HasEffects(effects, 8)
       case ConditionDefinition(_, effects) => WellFormedEffects(effects) && HasEffects(effects, 6)
       case OptionDefinition(_, _, rank, _, prerequisites, granted, effects, _) =>
         && 1 <= rank <= 4 && |prerequisites| <= 8 && |granted| <= 8 && Distinct(granted)
         && WellFormedEffects(effects) && HasEffects(effects, 8)
       case ChallengeDefinition(_, progress, danger, _, outcomes) =>
         1 <= progress <= 20 && 1 <= danger <= 20 && |outcomes| == 4 && forall o :: o in outcomes ==>
           o.progress <= 10 && o.danger <= 10
       case SocialDefinition(_, _, capacity, limits) => 0 <= capacity <= 6 && 1 <= limits <= 6
       case RitualDefinition(_, requirements, costs, _, consequences) =>
         && 1 <= |requirements| <= 8 && 1 <= |costs| <= 8 && |consequences| == 4
         && forall c :: c in consequences ==> WellFormedEffects(c.effects) && HasEffects(c.effects, 8)
       case CoreTerm(_) => true
  }

  predicate Known(ds: seq<Definition>, ref: Ref) {
    exists d :: d in ds && RefOf(d) == ref
  }

  predicate KnownId(ds: seq<Definition>, id: Id) {
    exists d :: d in ds && RefOf(d).definitionId == id
  }

  predicate EffectsKnown(ds: seq<Definition>, es: seq<Effect>) {
    && (forall e :: e in es && e.ConditionEffect? ==> Known(ds, e.condition))
    && (forall e :: e in es && e.SceneUseEffect? ==> Known(ds, e.ability))
  }

  predicate RequirementKnown(ds: seq<Definition>, r: Requirement) {
    match r
    case ParticipantCount(_) => true
    case Content(definition) => Known(ds, definition)
    case FictionalPosition(_) => true
  }

  /** Everything a definition refers to is in the catalog. */
  predicate ReferencesKnown(ds: seq<Definition>, d: Definition) {
    match d
    case AbilityDefinition(a) => EffectsKnown(ds, a.effects)
    case EnemyDefinition(_, _, _, _, _, _, actions, _, _) => forall a :: a in actions ==> Known(ds, a.action)
    case OverlayDefinition(_, objective, _, _) => Known(ds, objective)
    case OptionDefinition(_, _, _, _, prerequisites, granted, _, _) =>
      && (forall p :: p in prerequisites && !p.NeedsRank? ==> Known(ds, p.required))
      && (forall id :: id in granted ==> KnownId(ds, id))
    case RitualDefinition(_, requirements, costs, _, _) =>
      && (forall r :: r in requirements ==> RequirementKnown(ds, r))
      && (forall c :: c in costs && c.GearCost? ==> Known(ds, c.definition))
    case ObjectiveDefinition(_, _, _) => true
    case ConditionDefinition(_, _) => true
    case ChallengeDefinition(_, _, _, _, _) => true
    case SocialDefinition(_, _, _, _) => true
    case CoreTerm(_) => true
  }

  /** The effects that must not adjust a resource by nothing. */
  function Tactical(d: Definition): seq<Effect> {
    match d
    case AbilityDefinition(a) => a.effects
    case OverlayDefinition(_, _, _, effects) => effects
    case ConditionDefinition(_, effects) => effects
    case OptionDefinition(_, _, _, _, _, _, effects, _) => effects
    case EnemyDefinition(_, _, _, _, _, _, _, _, _) => []
    case ObjectiveDefinition(_, _, _) => []
    case ChallengeDefinition(_, _, _, _, _) => []
    case SocialDefinition(_, _, _, _) => []
    case RitualDefinition(_, _, _, _, _) => []
    case CoreTerm(_) => []
  }

  function RankOf(category: OptionCategory): int {
    match category
    case PathOption => 2
    case TalentOption => 3
    case CapstoneOption => 4
    case HeritageOption => 1
    case UpbringingOption => 1
    case ArchetypeOption => 1
  }

  /** No revision occurs twice. */
  predicate RevisionsDistinct(ds: seq<Definition>) {
    forall i, j :: 0 <= i < j < |ds| ==> RefOf(ds[i]) != RefOf(ds[j])
  }

  predicate DefinitionSound(ds: seq<Definition>, d: Definition) {
    && WithinSchema(d) && ReferencesKnown(ds, d)
    && (forall e :: e in Tactical(d) && e.AdjustResource? ==> e.amount != 0)
    && (d.OptionDefinition? ==> d.rank == RankOf(d.optionCategory))
  }

  /** The catalog passes content validation. */
  ghost predicate CatalogAccepted(ds: seq<Definition>) {
    && RevisionsDistinct(ds)
    && (forall d :: d in ds ==> DefinitionSound(ds, d))
    && !HasCycle(PrerequisiteGraph(ds))
  }

  lemma AcceptedIsWellFormed(catalog: Catalog)
    requires CatalogAccepted(catalog.definitions)
    ensures WellFormedCatalog(catalog)
  {
    hide WellFormed, ReferencesKnown, RevisionsDistinct, PrerequisiteGraph;
    forall d | d in catalog.definitions ensures WellFormed(d) {
      assert DefinitionSound(catalog.definitions, d);
    }
  }

  /** Without options there are no prerequisites to go round in. */
  lemma {:induction false} NoOptionsNoCycle(ds: seq<Definition>)
    requires forall d :: d in ds ==> !d.OptionDefinition?
    ensures PrerequisiteGraph(ds) == map[] && !HasCycle(PrerequisiteGraph(ds))
  {
    hide HasCycle;
    if ds != [] {
      NoOptionsNoCycle(ds[..|ds| - 1]);
      assert ds[|ds| - 1] in ds;
    }
    RankedIsAcyclic(map[], map[]);
  }
}
