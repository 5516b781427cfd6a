/** The mechanical state of a campaign: its entities and the lookups the engine makes by identity. */
module State {
  import opened Common
  import opened ZoneGraph

  type Id = nat

  /** A content definition as pinned by identity and revision. */
  datatype Ref = Ref(definitionId: Id, revision: nat)

  // ----- Checks -----

  datatype Attribute = Force | Finesse | Insight | Presence

  datatype Discipline = Athletics | Subterfuge | Craft | Lore | Vigilance | Influence | Survival | Mysticism

  datatype Degree = Crisis | Setback | Success | Triumph

  datatype Reason = PermanentDeath | IrreversibleStake | BossTransition | PivotalConclusion | SparkInvocation

  datatype Modifiers = Modifiers(
    attribute: Attribute, attributeRating: int,
    discipline: Discipline, disciplineRating: int,
    edge: bool, hindrance: bool, situational: int)

  /** What a physical roll shows its roller; `degrees[f - 1]` is the outcome promised for face `f`. */
  datatype Disclosure = Disclosure(
    actorId: Id, target: int, modifiers: Modifiers, finalModifier: int,
    reason: Reason, eligibleRoller: Id, degrees: seq<Degree>)

  datatype CheckResult = CheckResult(actorId: Id, dieFace: int, finalModifier: int, total: int, finalDegree: Degree)

  // ----- Playable characters -----

  datatype Wound = Empty | Filled(woundId: Id)

  datatype Gear = NoGear | Ready(definition: Ref) | Spent(definition: Ref)

  datatype SceneUse = SceneUse(ability: Ref, used: bool)

  datatype Duration = UntilRound | UntilScene | UntilRemoved

  datatype Condition = Condition(conditionId: Id, definition: Ref, duration: Duration)

  datatype Options = Options(
    heritage: Ref, upbringing: Ref, archetype: Ref, signature: Ref,
    path: Option<Ref>, talent: Option<Ref>, capstone: Option<Ref>)

  const EXERTION_MAXIMUM := 3

  datatype Character = Character(
    characterId: Id, actorId: Id,
    attributes: map<Attribute, int>, disciplines: map<Discipline, int>,
    rank: int, options: Options,
    guard: int, guardMaximum: int, exertion: int,
    wounds: seq<Wound>,
    sparkAvailable: bool, sparkRecovered: bool,
    gearNamed: seq<bool>, gear: seq<Gear>,
    sceneUses: seq<SceneUse>, conditions: seq<Condition>)

  // ----- Combat -----

  datatype Side = HeroSide | EnemySide

  datatype Slot = ActionSlot | ManeuverSlot | ReactionSlot

  /** When an enemy enters: at once, from the second round, or once some objective stands at two. */
  datatype Trigger = AtOnce | RoundTwo | ObjectiveTwo

  datatype Role =
    | Hero(eligibleRoller: Id)
    | Enemy(boss: bool, trigger: Trigger, definition: Ref, guard: int, guardMaximum: int, armor: int)
  {
    predicate IsBoss() {
      Enemy? && boss
    }

    function Guard(): int {
      if Enemy? then guard else 0
    }

    function GuardMaximum(): int {
      if Enemy? then guardMaximum else 0
    }

    function Armor(): int {
      if Enemy? then armor else 0
    }

    function WithGuard(left: int): Role {
      if Enemy? then this.(guard := left) else this
    }
  }

  datatype Participant = Participant(
    actorId: Id, zoneId: ZoneId,
    actionAvailable: bool, maneuverAvailable: bool, reactionAvailable: bool, activationSpent: bool,
    role: Role)
  {
    function Side(): Side {
      if role.Hero? then HeroSide else EnemySide
    }
  }

  datatype ObjectiveStatus = ObjectiveActive | ObjectiveCompleted | ObjectiveFailed

  datatype Objective = Objective(objectiveId: Id, definition: Ref, progress: int, threshold: int,
    status: ObjectiveStatus)

  datatype Overlay = Overlay(actorId: Id, definition: Ref, active: bool, objectiveId: Id)

  datatype Window = Window(windowId: Id, triggeringActorId: Id, eligible: seq<Id>)

  datatype CombatStatus = Active | AwaitingAction | AwaitingDeathTest | Resolved

  datatype Combat = Combat(
    combatId: Id, status: CombatStatus, round: int,
    activeSide: Side, activeActor: Option<Id>,
    zones: seq<Zone>, participants: seq<Participant>,
    objectives: seq<Objective>, overlays: seq<Overlay>,
    window: Option<Window>,
    pendingDeath: Option<Id>, pendingAction: Option<Id>)

  datatype Target =
    | OnSelf(actorId: Id)
    | OnActor(actorId: Id)
    | OnActorToZone(actorId: Id, zoneId: ZoneId)
    | OnZone(zoneId: ZoneId)
    | OnObjective(objectiveId: Id)
  {
    /** Whom it is about, if anybody. */
    function Actor(): Id {
      match this
      case OnSelf(actor) => actor
      case OnActor(actor) => actor
      case OnActorToZone(actor, _) => actor
      case _ => 0
    }

    /** The zone it is about, if any. */
    function Place(): ZoneId {
      match this
      case OnActorToZone(_, zone) => zone
      case OnZone(zone) => zone
      case _ => 0
    }

    /** The objective it is about, if any. */
    function Objective(): Id {
      match this
      case OnObjective(objective) => objective
      case _ => 0
    }
  }

  datatype RangeBand = SelfRange | SameZone | Adjacent | Distant

  datatype ActionKind = Attack | UsePower | Dash | Move | ChangeStance | Interact | AdvanceObjective | Pass

  datatype Candidate = Candidate(
    legalActionId: Id, actorId: Id, slot: Slot, kind: ActionKind, source: Option<Ref>,
    target: Target, range: RangeBand, fallbackScore: int, scoreTags: seq<nat>)

  // ----- Pending checks and the other subsystems -----

  datatype Stance = Closed | Guarded | Receptive | Aligned

  datatype Continuation =
    | CombatAction(candidate: Candidate, baseImpact: Option<int>)
    | DeathTest(combatId: Id, characterId: Id)
    | ForChallenge(challengeId: Id)
    | ForSocial(npcActorId: Id, requestedStance: Stance, challengedLimitId: Option<Id>)
    | ForRitual(ritualId: Id)

  datatype PendingCheck = PendingCheck(
    checkId: Id, nonce: Id, disclosure: Disclosure, continuation: Option<Continuation>)

  datatype Track = Track(current: int, maximum: int)

  datatype TieRule = ProgressWins | DangerWins | ResolvesWithCost

  datatype ChallengeStatus = ChallengeActive | ChallengeCompleted | ChallengeFailed | ChallengeWithCost

  datatype Challenge = Challenge(
    challengeId: Id, definition: Ref, progress: Track, danger: Track, tieRule: TieRule, status: ChallengeStatus)

  datatype Social = Social(
    npcActorId: Id, definition: Ref, stance: Stance,
    leverage: seq<Id>, leverageCapacity: int, hardLimits: seq<Id>)

  datatype Requirement = ParticipantCount(minimum: int) | Content(definition: Ref) | FictionalPosition(tag: nat)

  datatype Cost = ExertionCost(amount: int) | SupplyCost(amount: int) | GearCost(definition: Ref)

  datatype RitualStatus = Preparing | RitualReady | AwaitingResolution | RitualCompleted | Interrupted | RitualFailed

  datatype TargetMode = ActorTarget | PlaceTarget | PhenomenonTarget

  datatype Ritual = Ritual(
    ritualId: Id, definition: Ref, status: RitualStatus,
    requirements: seq<Requirement>, costs: seq<Cost>,
    contributors: seq<Id>, paid: int, target: TargetMode)

  datatype Scar = Scar(scarId: Id, characterId: Id)

  datatype GameState = GameState(
    manifest: nat, sessionNumber: int, sceneId: Option<Id>,
    supply: int, supplyMaximum: int, characters: seq<Character>,
    pendingChecks: seq<PendingCheck>, combat: Option<Combat>,
    challenges: seq<Challenge>, socials: seq<Social>, rituals: seq<Ritual>,
    scars: seq<Scar>, deaths: seq<Id>)

  function EmptyCampaign(manifest: nat): GameState {
    GameState(manifest, 0, None, 0, 2, [], [], None, [], [], [], [], [])
  }

  // ----- Lookups by identity -----

  /** Where an identity first occurs, as `find` and `findIndex` look it up. */
  function IndexOf(ids: seq<Id>, id: Id): (r: Option<nat>)
    ensures r.Some? ==> r.value < |ids| && ids[r.value] == id && id !in ids[..r.value]
    ensures r.None? <==> id !in ids
  {
    if ids == [] then None
    else if ids[0] == id then Some(0)
    else
      var rest := IndexOf(ids[1..], id);
      assert ids == [ids[0]] + ids[1..];
      match rest
      case None => None
      case Some(i) =>
        assert ids[..i + 1] == [ids[0]] + ids[1..][..i];
        Some(i + 1)
  }

  lemma IndexOfDistinct(ids: seq<Id>, i: nat)
    requires Distinct(ids) && i < |ids|
    ensures IndexOf(ids, ids[i]) == Some(i)
  {
    var j := IndexOf(ids, ids[i]).value;
    assert ids[j] == ids[i];
  }

  lemma IndexOfAppended(ids: seq<Id>, id: Id)
    requires id !in ids
    ensures IndexOf(ids + [id], id) == Some(|ids|)
  {
    var all := ids + [id];
    assert all[|ids|] == id;
  }

  lemma IndexOfIsFirst(ids: seq<Id>, id: Id)
    requires id in ids
    ensures forall m :: 0 <= m < IndexOf(ids, id).value ==> ids[m] != id
  {
    var k := IndexOf(ids, id).value;
    forall m | 0 <= m < k ensures ids[m] != id {
      assert ids[..k][m] == ids[m];
    }
  }

  lemma IndexOfKept(ids: seq<Id>, more: seq<Id>, id: Id)
    requires id in ids
    ensures IndexOf(ids + more, id) == IndexOf(ids, id)
  {
    var all := ids + more;
    var j := IndexOf(ids, id).value;
    assert all[j] == id;
    IndexOfIsFirst(ids, id);
    IndexOfIsFirst(all, id);
  }

  lemma DistinctAppend(ids: seq<Id>, id: Id)
    ensures Distinct(ids + [id]) <==> Distinct(ids) && id !in ids
  {
    var xs := ids + [id];
    if Distinct(xs) {
      forall i, j | 0 <= i < j < |ids| ensures ids[i] != ids[j] {
        assert xs[i] != xs[j];
      }
      forall i | 0 <= i < |ids| ensures ids[i] != id {
        assert xs[i] != xs[|ids|];
      }
    }
  }

  function CharacterIds(cs: seq<Character>): (ids: seq<Id>)
    ensures |ids| == |cs|
    ensures forall i :: 0 <= i < |cs| ==> ids[i] == cs[i].characterId
  {
    seq(|cs|, i requires 0 <= i < |cs| => cs[i].characterId)
  }

  function ActorIds(cs: seq<Character>): (ids: seq<Id>)
    ensures |ids| == |cs|
    ensures forall i :: 0 <= i < |cs| ==> ids[i] == cs[i].actorId
  {
    seq(|cs|, i requires 0 <= i < |cs| => cs[i].actorId)
  }

  function ParticipantIds(ps: seq<Participant>): (ids: seq<Id>)
    ensures |ids| == |ps|
    ensures forall i :: 0 <= i < |ps| ==> ids[i] == ps[i].actorId
  {
    seq(|ps|, i requires 0 <= i < |ps| => ps[i].actorId)
  }

  function ObjectiveIds(os: seq<Objective>): (ids: seq<Id>)
    ensures |ids| == |os|
    ensures forall i :: 0 <= i < |os| ==> ids[i] == os[i].objectiveId
  {
    seq(|os|, i requires 0 <= i < |os| => os[i].objectiveId)
  }

  function CheckIds(pending: seq<PendingCheck>): (ids: seq<Id>)
    ensures |ids| == |pending|
    ensures forall i :: 0 <= i < |pending| ==> ids[i] == pending[i].checkId
  {
    seq(|pending|, i requires 0 <= i < |pending| => pending[i].checkId)
  }

  function Nonces(pending: seq<PendingCheck>): (ids: seq<Id>)
    ensures |ids| == |pending|
    ensures forall i :: 0 <= i < |pending| ==> ids[i] == pending[i].nonce
  {
    seq(|pending|, i requires 0 <= i < |pending| => pending[i].nonce)
  }

  function ChallengeIds(cs: seq<Challenge>): (ids: seq<Id>)
    ensures |ids| == |cs|
    ensures forall i :: 0 <= i < |cs| ==> ids[i] == cs[i].challengeId
  {
    seq(|cs|, i requires 0 <= i < |cs| => cs[i].challengeId)
  }

  function SocialIds(ss: seq<Social>): (ids: seq<Id>)
    ensures |ids| == |ss|
    ensures forall i :: 0 <= i < |ss| ==> ids[i] == ss[i].npcActorId
  {
    seq(|ss|, i requires 0 <= i < |ss| => ss[i].npcActorId)
  }

  function RitualIds(rs: seq<Ritual>): (ids: seq<Id>)
    ensures |ids| == |rs|
    ensures forall i :: 0 <= i < |rs| ==> ids[i] == rs[i].ritualId
  {
    seq(|rs|, i requires 0 <= i < |rs| => rs[i].ritualId)
  }

  function ScarIds(ss: seq<Scar>): (ids: seq<Id>)
    ensures |ids| == |ss|
    ensures forall i :: 0 <= i < |ss| ==> ids[i] == ss[i].scarId
  {
    seq(|ss|, i requires 0 <= i < |ss| => ss[i].scarId)
  }

  function ConditionIds(cs: seq<Condition>): (ids: seq<Id>)
    ensures |ids| == |cs|
    ensures forall i :: 0 <= i < |cs| ==> ids[i] == cs[i].conditionId
  {
    seq(|cs|, i requires 0 <= i < |cs| => cs[i].conditionId)
  }

  function AbilityIds(uses: seq<SceneUse>): (ids: seq<Id>)
    ensures |ids| == |uses|
    ensures forall i :: 0 <= i < |uses| ==> ids[i] == uses[i].ability.definitionId
  {
    seq(|uses|, i requires 0 <= i < |uses| => uses[i].ability.definitionId)
  }

  /** The scene use that records exactly this ability. */
  function UseIndex(uses: seq<SceneUse>, ability: Ref): (r: Option<nat>)
    ensures r.Some? ==> r.value < |uses| && uses[r.value].ability == ability
    ensures r.None? ==> forall i :: 0 <= i < |uses| ==> uses[i].ability != ability
  {
    if uses == [] then None
    else if uses[0].ability == ability then Some(0)
    else
      match UseIndex(uses[1..], ability)
      case None => None
      case Some(i) => Some(i + 1)
  }

  /** How many participants stand in a zone. */
  function Occupancy(ps: seq<Participant>, zone: ZoneId): nat {
    if ps == [] then 0 else (if ps[0].zoneId == zone then 1 else 0) + Occupancy(ps[1..], zone)
  }

  lemma {:induction false} OccupancyUpdate(ps: seq<Participant>, i: nat, p: Participant, zone: ZoneId)
    requires i < |ps|
    ensures Occupancy(ps[i := p], zone) ==
            Occupancy(ps, zone) - (if ps[i].zoneId == zone then 1 else 0) + (if p.zoneId == zone then 1 else 0)
  {
    var qs := ps[i := p];
    if i > 0 {
      assert qs[1..] == ps[1..][i - 1 := p];
      OccupancyUpdate(ps[1..], i - 1, p, zone);
    } else {
      assert qs[1..] == ps[1..];
    }
  }

  function SomeObjectiveAtTwo(os: seq<Objective>): bool {
    exists o :: o in os && o.progress >= 2
  }

  /** Whether an enemy has entered the fight. */
  predicate TriggerMet(c: Combat, trigger: Trigger) {
    match trigger
    case AtOnce => true
    case RoundTwo => c.round >= 2
    case ObjectiveTwo => SomeObjectiveAtTwo(c.objectives)
  }

  /** Living: an enemy that has entered and has Guard left, or a playable hero that is not permanently dead. */
  predicate Alive(s: GameState, p: Participant) {
    if p.role.Enemy? then
      && (p.role.trigger.AtOnce? || (s.combat.Some? && TriggerMet(s.combat.value, p.role.trigger)))
      && p.role.guard > 0
    else
      match IndexOf(ActorIds(s.characters), p.actorId)
      case None => false
      case Some(i) => s.characters[i].characterId !in s.deaths
  }
}
