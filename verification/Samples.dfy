/** Concrete campaigns and fights: where undo, a reaction window, a fight, or the agreement of decider and reducer falls
    short. */
module Samples {
  import opened Common
  import opened Graphs
  import opened ZoneGraph
  import opened State
  import opened Validity
  import opened Events
  import opened Reducer
  import opened Compensation
  import opened Undo
  import opened Checks
  import opened Content
  import opened Reactions
  import opened ReactionPriority
  import opened Subsystems
  import opened Commands
  import opened Applies
  import opened Vitals
  import opened Forms
  import opened Sessions
  import opened CatalogRules
  import opened CombatRules
  import opened CombatDecisions
  import opened LegalActions
  import opened TurnOrder
  import opened Liveness
  import opened Victory
  import opened EffectAgreement
  import opened CombatAgreement
  import opened WoundInvariant
  import opened ContinuationAgreement
  import opened HeroAgreement

  const FIGHT: Id := 6

  const CHECK: Id := 40

  const NONCE: Id := 41

  const WINDOW: Id := 9

  const WARDEN: Id := 1

  const FOE: Id := 2

  // ----- A battlefield -----

  /** A yard in the middle, with these objectives in it, and four zones around it. */
  function Yard(objectives: seq<Id>): seq<Zone> {
    [Zone(0, 20, Open, objectives, [1, 2, 3, 4]), Zone(1, 20, Open, [], [0]), Zone(2, 20, Open, [], [0]),
     Zone(3, 20, Open, [], [0]), Zone(4, 20, Open, [], [0])]
  }

  lemma YardLinks(objectives: seq<Id>)
    ensures ZoneIds(Yard(objectives)) == [0, 1, 2, 3, 4] && Distinct(ZoneIds(Yard(objectives)))
    ensures Links(Yard(objectives)).Keys == {0, 1, 2, 3, 4}
    ensures Links(Yard(objectives))[0] == [1, 2, 3, 4] && forall k :: 1 <= k <= 4 ==> Links(Yard(objectives))[k] == [0]
  {
    hide Links;
    var zones := Yard(objectives);
    assert ZoneIds(zones) == [0, 1, 2, 3, 4];
    LinksKeys(zones);
    LinksLookup(zones, 0);
    LinksLookup(zones, 1);
    LinksLookup(zones, 2);
    LinksLookup(zones, 3);
    LinksLookup(zones, 4);
  }

  lemma YardValid(objectives: seq<Id>)
    requires |objectives| <= 8 && Distinct(objectives)
    ensures ValidZoneGraph(Yard(objectives))
  {
    hide Links, Reaches, Connected;
    var zones, g := Yard(objectives), Links(Yard(objectives));
    YardLinks(objectives);
    forall v | v in g ensures Reaches(g, 0, v) {
      ReachesSelf(g, 0);
      if v != 0 {
        assert v in g[0];
        ReachesExtend(g, 0, 0, v);
      }
    }
    AllReachedIsConnected(zones, 0);
  }

  lemma NoneDistinct()
    ensures Distinct<Id>([])
  {}

  // ----- A campaign -----

  function Warden(): Character {
    var ref := Ref(0, 1);
    Character(1, 1, EVEN_ATTRIBUTES, EVEN_DISCIPLINES, 1, Options(ref, ref, ref, ref, None, None, None), 5, 5, 3,
              [Empty, Empty, Empty], true, false, [false, false, false, false], [NoGear, NoGear, NoGear, NoGear], [],
                  [])
  }

  function Foe(actor: Id): Participant {
    Participant(actor, 1, true, true, true, false, Enemy(false, AtOnce, Ref(8, 1), 4, 4, 0))
  }

  /** The warden against these foes, in a fight of this status. */
  function Fight(status: CombatStatus, foes: seq<Participant>): Combat {
    Combat(6, status, 1, HeroSide, None, Yard([]), [Participant(1, 0, true, true, true, false, Hero(5))] + foes, [],
      [], None, None, None)
  }

  function Field(status: CombatStatus, foes: seq<Participant>): GameState {
    EmptyCampaign(7).(characters := [Warden()], supplyMaximum := 3, combat := Some(Fight(status, foes)))
  }

  lemma WardenValid()
    ensures ValidCharacter(Warden())
  {
    hide RatingsInRange;
    EvenRatings();
  }

  predicate AreFoes(foes: seq<Participant>) {
    && 1 <= |foes| <= 19
    && (forall i :: 0 <= i < |foes| ==> foes[i] == Foe(foes[i].actorId) && foes[i].actorId != 1)
    && Distinct(ParticipantIds(foes))
  }

  lemma {:induction false} OccupancyBound(ps: seq<Participant>, zone: ZoneId)
    ensures Occupancy(ps, zone) <= |ps|
  {
    if ps != [] {
      OccupancyBound(ps[1..], zone);
    }
  }

  lemma FightIds(status: CombatStatus, foes: seq<Participant>)
    requires AreFoes(foes)
    ensures ParticipantIds(Fight(status, foes).participants) == [1] + ParticipantIds(foes)
    ensures Distinct(ParticipantIds(Fight(status, foes).participants))
  {
    hide ParticipantIds;
    var ps := Fight(status, foes).participants;
    assert ParticipantIds(ps) == [1] + ParticipantIds(foes);
    forall i | 0 <= i < |foes| ensures ParticipantIds(foes)[i] != 1 {
      assert foes[i].actorId != 1;
    }
  }

  lemma FightPlaced(status: CombatStatus, foes: seq<Participant>)
    requires AreFoes(foes)
    ensures OccupancyFits(Yard([]), Fight(status, foes).participants)
    ensures ParticipantsSound(Yard([]), 1, [], Fight(status, foes).participants)
  {
    hide Occupancy, Links, ZoneIds;
    YardLinks([]);
    forall z | z in Yard([]) ensures Occupancy(Fight(status, foes).participants, z.zoneId) <= z.capacity {
      OccupancyBound(Fight(status, foes).participants, z.zoneId);
    }
  }

  lemma FightValid(status: CombatStatus, foes: seq<Participant>)
    requires AreFoes(foes) && (status.Active? || status.Resolved?)
    ensures ValidCombat(Fight(status, foes))
  {
    hide ValidZoneGraph, OccupancyFits, ParticipantsSound, Distinct, AreFoes;
    NoneDistinct();
    YardValid([]);
    FightIds(status, foes);
    FightPlaced(status, foes);
    FoesFew(foes);
  }

  lemma FoesFew(foes: seq<Participant>)
    requires AreFoes(foes)
    ensures 1 <= |foes| <= 19
  {}

  lemma FieldValid(status: CombatStatus, foes: seq<Participant>)
    requires AreFoes(foes) && (status.Active? || status.Resolved?)
    ensures ValidGameState(Field(status, foes))
  {
    hide ValidCombat, ValidCharacter, AreFoes, Warden, Fight, CharacterIds, ActorIds;
    WardenValid();
    FightValid(status, foes);
    WardenIds();
  }

  lemma WardenIds()
    ensures CharacterIds([Warden()]) == [1] && ActorIds([Warden()]) == [1]
  {
    hide CharacterIds, ActorIds;
  }

  // ----- Undo revives a finished fight -----

  /** A check on permanent death, asked for although the fight is over. */
  function LateCheck(): Attempt {
    Attempt(Request(1, Force, 1, Athletics, 1, 13, false, false, false, Some(5)), Some(PermanentDeath), false)
  }

  lemma FieldKept(status: CombatStatus, foes: seq<Participant>)
    requires AreFoes(foes) && (status.Active? || status.Resolved?)
    ensures StateKept(Field(status, foes))
  {
    hide ValidGameState, AreFoes, Yard, CharacterIds, WoundsOf, ActorIds;
    FieldValid(status, foes);
    var s := Field(status, foes);
    WardenIds();
    assert WoundsOf(s.characters) == [[Empty, Empty, Empty]];
  }

  lemma LateSelection()
    ensures SelectAttempt(LateCheck()).Physical? && SelectAttempt(LateCheck()).disclosure.reason.PermanentDeath?
    ensures !SelectAttempt(LateCheck()).sparkSpent && ValidDisclosure(SelectAttempt(LateCheck()).disclosure)
  {
    SelectedAttempt(LateCheck());
  }

  /** The request overwrites the status of the finished fight. */
  lemma LateRequestApplies(s: GameState, d: Disclosure)
    requires ValidGameState(s) && s.combat.Some? && s.combat.Get().status.Resolved? && s.pendingChecks == []
    requires d.reason.PermanentDeath? && ValidDisclosure(d)
    ensures Apply(s, PhysicalRollRequested(CHECK, NONCE, d)).Done?
  {
    hide ValidGameState, ValidDisclosure, ValidCombat, ValidParty, ValidPendings, ValidChallenges, ActiveSound,
         ValidRituals, ParticipantsSound;
    ValidParts(s);
    CombatActive(s.combat.value);
    PendingAppended([], PendingCheck(40, 41, d, None));
    var ps := [PendingCheck(40, 41, d, None)];
    assert [] + ps == ps;
    WithPendingsValid(s, ps);
    var c := s.combat.value.(status := AwaitingDeathTest, pendingDeath := Some(40));
    CombatStatusValid(s.combat.value, c);
    WithCombatValid(s.(pendingChecks := ps), c);
  }

  /** Concretely: in a resolved fight a requested death check is accepted, applied and can be undone, but the undo
      does not give back the state before. */
  lemma UndoRevivesFinishedFight(facts: Facts, s: GameState) returns (es: seq<Event>)
    requires facts.pendingCheckId == Some(CHECK) && facts.nonce == Some(NONCE)
    requires s == Field(Resolved, [Foe(FOE)])
    ensures StateKept(s) && Decide(s, facts, ResolveCheck(LateCheck())) == Done(es)
    ensures Fold(s, es).Done? && Plan(es).Planned? && Fold(Fold(s, es).Get(), Plan(es).Back()) != Done(s)
  {
    hide ValidGameState, Apply, SelectAttempt, StateKept, Form, ValidDisclosure, DecideCombat, DecideScene, Decide,
         DecideHero, Fold, DecideResolveCheck, Plan;
    OneFoe();
    FieldKept(Resolved, [Foe(2)]);
    StateIsValid(s);
    WardenIds();
    LateSelection();
    var d := SelectAttempt(LateCheck()).disclosure;
    var request := PhysicalRollRequested(40, 41, d);
    es := [] + [request];
    assert es == [request];
    LateDecision(s, facts, es);
    LateRequestApplies(s, d);
    FoldOne(s, request);
    LatePlan(request);
    var parts := HeroForm(s, facts, ResolveCheck(LateCheck()));
    UndoTakesBack(s, es, Fold(s, es).value);
    assert TailOf(es) == es;
  }

  lemma OneFoe()
    ensures AreFoes([Foe(2)])
  {}

  lemma LateDecision(s: GameState, facts: Facts, es: seq<Event>)
    requires facts.pendingCheckId == Some(CHECK) && facts.nonce == Some(NONCE) && FindActor(s, WARDEN).Some?
    requires SelectAttempt(LateCheck()).Physical? && es == RequestEvents(SelectAttempt(LateCheck()), CHECK, NONCE)
    ensures DecideResolveCheck(s, facts, LateCheck()) == Done(es)
    ensures Decide(s, facts, ResolveCheck(LateCheck())) == Done(es)
            && DecideHero(s, facts, ResolveCheck(LateCheck())) == Done(es)
    ensures CommandGroupOf(ResolveCheck(LateCheck())).HeroCommand?
  {
    hide SelectAttempt, RequestEvents, DecideCombat, DecideScene, IndexOf, FindActor, DecideMaterialize,
         DecideRecoverResource, DecideAdvanceRank, DecideSpendResource, ValidCharacter;
  }

  lemma LatePlan(request: Event)
    requires request.PhysicalRollRequested?
    ensures Plan([request]).Planned?
  {
    assert [request][..0] == [];
    assert InvertAll([]) == Planned([]);
  }

  // ----- A window for eleven -----

  function TenFoes(): seq<Participant> {
    seq(10, i requires 0 <= i < 10 => Foe(2 + i))
  }

  lemma {:induction false} AllOthersReact(s: GameState, hero: Participant, foes: seq<Participant>)
    requires forall i :: 0 <= i < |foes| ==> MayReact(s, foes[i]) && foes[i].actorId != hero.actorId
    ensures |OthersIn(s, [hero] + foes, hero.actorId)| == |foes|
  {
    hide MayReact;
    var ps := [hero] + foes;
    if foes == [] {
      assert ps[..0] == [];
      assert OthersIn(s, [], hero.actorId) == [];
    } else {
      assert ps[..|ps| - 1] == [hero] + foes[..|foes| - 1];
      AllOthersReact(s, hero, foes[..|foes| - 1]);
    }
  }

  /** Concretely: a window that eleven may react in is accepted by the decider and refused by the reducer. */
  lemma WindowForElevenIsRefused(s: GameState)
    requires s == Field(Active, TenFoes())
    ensures ValidGameState(s) && DecideOpenReactionWindow(s, FIGHT, WINDOW, WARDEN).Done?
    ensures Fold(s, DecideOpenReactionWindow(s, FIGHT, WINDOW, WARDEN).Get()).Refused?
  {
    hide ValidGameState, Apply, ValidCombat, MayReact, OtherReactors, OthersIn, Yard, Distinct, Fold, AreFoes,
         IndexOf;
    TenAreFoes();
    FieldValid(Active, TenFoes());
    FightIds(Active, TenFoes());
    var c := s.combat.value;
    var hero := c.participants[0];
    IndexOfDistinct(ParticipantIds(c.participants), 0);
    EverybodyReacts(s);
    assert c.participants == [hero] + TenFoes();
    AllOthersReact(s, hero, TenFoes());
    OthersSorted(s, c.participants, 1);
    assert |multiset(OtherReactors(s, c.participants, 1))| == |OtherReactors(s, c.participants, 1)|;
    assert |multiset(OthersIn(s, c.participants, 1))| == |OthersIn(s, c.participants, 1)|;
    WindowAppliesExactly(s, 6, 9, 1);
  }

  lemma TenAreFoes()
    ensures AreFoes(TenFoes())
  {}

  lemma EverybodyReacts(s: GameState)
    requires s == Field(Active, TenFoes())
    ensures MayReact(s, s.combat.value.participants[0])
    ensures forall i :: 0 <= i < 10 ==> MayReact(s, TenFoes()[i]) && TenFoes()[i].actorId != 1
  {
    WardenIds();
  }

  const SECOND: Id := 3

  // ----- In the yard -----

  /** The second round of a fight in the yard, and what it is about. */
  function Duel(side: Side, active: Option<Id>, ps: seq<Participant>, o: Objective, overlays: seq<Overlay>): Combat {
    Combat(6, Active, 2, side, active, Yard([o.objectiveId]), ps, [o], overlays, None, None, None)
  }

  function InDuel(fighters: seq<Character>, c: Combat): GameState {
    EmptyCampaign(7).(characters := fighters, supplyMaximum := |fighters| + 2, combat := Some(c))
  }

  predicate Placed(p: Participant) {
    p.zoneId == 0 && (p.role.Enemy? ==>
      0 <= p.role.guard <= p.role.guardMaximum && 1 <= p.role.guardMaximum && p.role.armor == 0)
  }

  predicate SoundDuel(side: Side, active: Option<Id>, ps: seq<Participant>, o: Objective, overlays: seq<Overlay>) {
    && 2 <= |ps| <= 20 && Distinct(ParticipantIds(ps)) && (forall p :: p in ps ==> Placed(p))
    && 0 <= o.progress <= o.threshold && 1 <= o.threshold
    && ActiveSound(Duel(side, active, ps, o, overlays))
    && |overlays| <= 4 && forall x :: x in overlays ==> x.objectiveId == o.objectiveId
  }

  lemma DuelPlaced(ps: seq<Participant>, o: Objective)
    requires |ps| <= 20 && forall p :: p in ps ==> Placed(p)
    ensures OccupancyFits(Yard([o.objectiveId]), ps) && ParticipantsSound(Yard([o.objectiveId]), 2, [o], ps)
  {
    hide Occupancy, Links, ZoneIds, Distinct;
    YardLinks([o.objectiveId]);
    forall z | z in Yard([o.objectiveId]) ensures Occupancy(ps, z.zoneId) <= z.capacity {
      OccupancyBound(ps, z.zoneId);
    }
    assert ZoneIds(Yard([o.objectiveId]))[0] == 0;
    forall i | 0 <= i < |ps| ensures ParticipantSound(Yard([o.objectiveId]), 2, [o], ps[i]) {
      assert Placed(ps[i]);
    }
  }

  lemma DuelAbout(o: Objective, overlays: seq<Overlay>)
    requires 0 <= o.progress <= o.threshold && 1 <= o.threshold && forall x :: x in overlays ==>
             x.objectiveId == o.objectiveId
    ensures ObjectivesSound([o]) && OverlaysSound([o], overlays)
  {
    assert ObjectiveIds([o]) == [o.objectiveId];
  }

  lemma OneDistinct(id: Id)
    ensures |[id]| <= 8 && Distinct([id])
  {}

  lemma DuelValid(side: Side, active: Option<Id>, ps: seq<Participant>, o: Objective, overlays: seq<Overlay>)
    requires SoundDuel(side, active, ps, o, overlays)
    ensures ValidCombat(Duel(side, active, ps, o, overlays))
  {
    hide ValidZoneGraph, OccupancyFits, ParticipantsSound, ParticipantIds, Distinct, ObjectivesSound, OverlaysSound,
         ActiveSound, Yard, Placed;
    OneDistinct(o.objectiveId);
    YardValid([o.objectiveId]);
    DuelPlaced(ps, o);
    DuelAbout(o, overlays);
  }

  predicate SoundFighters(fighters: seq<Character>) {
    && |fighters| <= 5 && Distinct(CharacterIds(fighters)) && Distinct(ActorIds(fighters))
    && forall f :: f in fighters ==> ValidCharacter(f)
  }

  lemma InDuelValid(fighters: seq<Character>, c: Combat)
    requires SoundFighters(fighters) && ValidCombat(c)
    ensures ValidGameState(InDuel(fighters, c))
  {
    hide ValidCombat, ValidCharacter;
    forall i | 0 <= i < |fighters| ensures ValidCharacter(fighters[i]) {
      assert fighters[i] in fighters;
    }
  }

  lemma InDuelKept(fighters: seq<Character>, c: Combat)
    requires SoundFighters(fighters) && ValidCombat(c) && c.status.Active?
    requires forall f :: f in fighters ==> f.wounds == [Empty, Empty, Empty]
    ensures StateKept(InDuel(fighters, c))
  {
    hide ValidCombat, ValidCharacter, ValidGameState, Distinct, WoundsOf;
    var s := InDuel(fighters, c);
    InDuelValid(fighters, c);
    NothingAwaited(c);
    forall i | 0 <= i < |fighters| ensures WoundsOf(s.characters)[i] == [Empty, Empty, Empty] {
      assert s.characters[i] in fighters;
    }
  }

  lemma NothingAwaited(c: Combat)
    requires ValidCombat(c) && c.status.Active?
    ensures c.pendingDeath.None? && c.pendingAction.None?
  {
    hide ValidZoneGraph, OccupancyFits, ParticipantsSound, Distinct, ObjectivesSound, OverlaysSound, ActiveSound;
  }

  // ----- Stuck -----

  /** A second warden. */
  function Second(): Character {
    Warden().(characterId := 3, actorId := 3)
  }

  function Wardens(): seq<Character> {
    [Warden(), Second()]
  }

  lemma WardensSound()
    ensures SoundFighters(Wardens()) && ActorIds(Wardens()) == [1, 3] && IndexOf([1, 3], 1) == Some(0)
            && IndexOf([1, 3], 3) == Some(1)
  {
    hide Warden, ValidCharacter, IndexOf;
    WardenValid();
    SecondValid();
    assert CharacterIds(Wardens()) == [1, 3] by { WardenNames(); }
    assert ActorIds(Wardens()) == [1, 3] by { WardenNames(); }
    IndexOfDistinct([1, 3], 0);
    IndexOfDistinct([1, 3], 1);
  }

  lemma WardenNames()
    ensures CharacterIds(Wardens()) == [1, 3] && ActorIds(Wardens()) == [1, 3]
  {}

  lemma SecondValid()
    ensures ValidCharacter(Second())
  {
    hide RatingsInRange;
    EvenRatings();
  }

  /** The first warden has acted. */
  function Exhausted(actor: Id): Participant {
    Participant(actor, 0, false, false, true, true, Hero(5))
  }

  /** The second has only its action left. */
  function Tired(): Participant {
    Participant(3, 0, true, false, true, false, Hero(5))
  }

  /** A reinforcement that came when the objective reached two, and has used both its slots of this round. */
  function Summons(spent: bool): Participant {
    Participant(2, 0, false, false, true, spent, Enemy(false, ObjectiveTwo, Ref(8, 1), 4, 4, 0))
  }

  function Gate(progress: int): Objective {
    Objective(30, Ref(7, 1), progress, 6, ObjectiveActive)
  }

  function Trio(second: Participant, spent: bool): seq<Participant> {
    [Exhausted(1), second, Summons(spent)]
  }

  function BeforeAdvance(): GameState {
    InDuel(Wardens(), Duel(HeroSide, Some(3), Trio(Tired(), true), Gate(3), []))
  }

  function Between(): GameState {
    InDuel(Wardens(), Duel(EnemySide, None, Trio(Exhausted(3), true), Gate(3), []))
  }

  function AfterAdvance(): GameState {
    InDuel(Wardens(), Duel(EnemySide, None, Trio(Exhausted(3), false), Gate(4), []))
  }

  lemma TrioIds(second: Participant, spent: bool)
    requires second.actorId == 3
    ensures ParticipantIds(Trio(second, spent)) == [1, 3, 2] && Distinct(ParticipantIds(Trio(second, spent)))
    ensures IndexOf(ParticipantIds(Trio(second, spent)), 1) == Some(0)
            && IndexOf(ParticipantIds(Trio(second, spent)), 3) == Some(1)
    ensures IndexOf(ParticipantIds(Trio(second, spent)), 2) == Some(2)
  {
    hide IndexOf;
    assert ParticipantIds(Trio(second, spent)) == [1, 3, 2];
    IndexOfDistinct([1, 3, 2], 0);
    IndexOfDistinct([1, 3, 2], 1);
    IndexOfDistinct([1, 3, 2], 2);
  }

  lemma TrioValid(side: Side, active: Option<Id>, second: Participant, spent: bool, progress: int)
    requires second == Tired() || second == Exhausted(3)
    requires 0 <= progress <= 6 && (active.None? || (active == Some(3) && side.HeroSide? && second == Tired()))
    ensures ValidCombat(Duel(side, active, Trio(second, spent), Gate(progress), []))
  {
    hide ValidCombat, IndexOf, Yard, Distinct, ParticipantIds;
    TrioIds(second, spent);
    DuelValid(side, active, Trio(second, spent), Gate(progress), []);
  }

  lemma BeforeAdvanceKept()
    ensures StateKept(BeforeAdvance()) && SlotsMatch(BeforeAdvance()) && ValidGameState(BeforeAdvance())
  {
    hide ValidCombat, ValidCharacter, StateKept, ValidGameState, SoundFighters, Yard, IndexOf, ActorIds;
    WardensSound();
    TrioValid(HeroSide, Some(3), Tired(), true, 3);
    InDuelKept(Wardens(), BeforeAdvance().combat.value);
    InDuelValid(Wardens(), BeforeAdvance().combat.value);
  }

  lemma BetweenValid()
    ensures ValidGameState(Between())
  {
    hide ValidCombat, ValidGameState, SoundFighters, Yard, IndexOf, Wardens, Duel, Trio, ActorIds, Exhausted;
    WardensSound();
    TrioValid(EnemySide, None, Exhausted(3), true, 3);
    InDuelValid(Wardens(), Between().combat.value);
  }

  lemma AfterAdvanceValid()
    ensures ValidGameState(AfterAdvance())
  {
    hide ValidCombat, ValidGameState, SoundFighters, Yard, IndexOf, Wardens, Duel, Trio, ActorIds, Exhausted;
    WardensSound();
    TrioValid(EnemySide, None, Exhausted(3), false, 4);
    InDuelValid(Wardens(), AfterAdvance().combat.value);
  }

  function Advance(): seq<Event> {
    [ActionSlotSpent(6, 3, ActionSlot), ObjectiveAdvanced(30, 3, 4, ObjectiveActive)]
  }

  /** The second warden may advance the objective, and that is what is then proposed. */
  lemma AdvanceIsDecided(facts: Facts) returns (id: Id)
    requires Supplied(BeforeAdvance(), facts)
    ensures DecideExecuteCombatAction(BeforeAdvance(), facts, FIGHT, id, false) == Done(Advance())
  {
    hide EnumerateActions, WithId, ExecuteCandidate, Injective, IndexOf, Yard, Wardens, KeyOf, Alive, StandsAt;
    var s, catalog, ids := BeforeAdvance(), facts.catalog.value, facts.legalActionIdFor.value;
    TrioIds(Tired(), true);
    SecondLives(s);
    GateStands();
    var x := AdvanceIsOffered(s, catalog, 3, ids, 0);
    var y := WithIdSameKey(s, catalog, 3, ids, x);
    id := x.legalActionId;
    AdvanceEvents(facts, y);
  }

  lemma SecondLives(s: GameState)
    requires s.characters == Wardens() && s.deaths == []
    ensures Alive(s, Tired()) && Alive(s, Exhausted(3))
  {
    hide IndexOf, SoundFighters, Wardens, ActorIds;
    WardensSound();
  }

  lemma GateStands()
    ensures StandsAt(BeforeAdvance().combat.value, Tired(), Gate(3))
  {}

  lemma AdvanceEvents(facts: Facts, y: Candidate)
    requires y.kind.AdvanceObjective? && y.slot.ActionSlot? && y.actorId == 3 && y.source.None?
             && y.target == OnObjective(30)
    requires facts.catalog.Some?
    ensures ExecuteCandidate(BeforeAdvance(), facts, facts.catalog.Get(), BeforeAdvance().combat.Get(), y, false) ==
            Done(Advance())
  {
    hide Yard, IndexOf, Wardens, ObjectiveIds, ImpactEvents, AllEffects, EffectEvents;
    var s := BeforeAdvance();
    var c := s.combat.value;
    TrioIds(Tired(), true);
    assert ObjectiveIds([Gate(3)]) == [30];
    IndexOfDistinct([30], 0);
    var advanced := ObjectiveAdvanced(30, 3, 4, ObjectiveActive);
    assert AdvanceBy(c, 30, 1) == Done([advanced]);
    BothEmpty(Done([advanced]));
    assert ResolvedEvents(s, facts, y, None, Success, None) == Done([advanced]);
    assert Expenses(s, c, Tired(), y, None) == Done([ActionSlotSpent(6, 3, ActionSlot)]);
    assert [ActionSlotSpent(6, 3, ActionSlot)] + [advanced] == Advance();
  }

  lemma AdvanceFolds()
    ensures Fold(BeforeAdvance(), Advance()) == Done(AfterAdvance())
  {
    hide ValidGameState, Apply, BeforeAdvance, Between, AfterAdvance, Fold;
    FirstApplies();
    SecondApplies();
    FoldOne(BeforeAdvance(), Advance()[0]);
    FoldOne(Between(), Advance()[1]);
    FoldAppend(BeforeAdvance(), [Advance()[0]], [Advance()[1]]);
    assert Advance() == [Advance()[0]] + [Advance()[1]];
  }

  lemma FirstApplies()
    ensures Apply(BeforeAdvance(), At(Advance(), 0)) == Done(Between())
  {
    hide ValidGameState, Yard, IndexOf, Wardens, ParticipantIds;
    BetweenValid();
    TrioIds(Tired(), true);
    assert Trio(Tired(), true)[1 := Exhausted(3)] == Trio(Exhausted(3), true);
  }

  lemma SecondApplies()
    ensures Apply(Between(), At(Advance(), 1)) == Done(AfterAdvance())
  {
    hide ValidGameState, Yard, IndexOf, Wardens, ObjectiveIds;
    AfterAdvanceValid();
    assert ObjectiveIds([Gate(3)]) == [30];
    IndexOfDistinct([30], 0);
    assert [Gate(3)][0 := Gate(4)] == [Gate(4)];
    assert SummonAll(Trio(Exhausted(3), true)) == Trio(Exhausted(3), false);
  }

  /** Concretely, in the second round of a fight two heroes began: the second hero spends its last slot on advancing the
      objective; the reinforcement this calls on again has no slot left, and although both heroes live nothing more is
      accepted. The state before keeps every invariant of a run. */
  lemma ObjectiveStrandsFight(facts: Facts) returns (id: Id)
    requires Supplied(BeforeAdvance(), facts)
    ensures StateKept(BeforeAdvance()) && SlotsMatch(BeforeAdvance())
    ensures DecideExecuteCombatAction(BeforeAdvance(), facts, FIGHT, id, false) == Done(Advance())
    ensures Fold(BeforeAdvance(), Advance()) == Done(AfterAdvance())
    ensures Alive(AfterAdvance(), Exhausted(SECOND)) && !CanGoOn(AfterAdvance(), facts)
  {
    hide ValidGameState, StateKept, SlotsMatch, Fold, CanGoOn, DecideExecuteCombatAction, HasNextStep, Alive, Yard,
         IndexOf, BeforeAdvance, Supplied, Advance, Exhausted;
    BeforeAdvanceKept();
    id := AdvanceIsDecided(facts);
    AdvanceFolds();
    AfterAdvanceValid();
    NobodyCanGoOn();
    SuppliedManifest(facts);
    GoesOnExactly(AfterAdvance(), facts);
  }

  lemma SuppliedManifest(facts: Facts)
    requires Supplied(BeforeAdvance(), facts)
    ensures Supplied(AfterAdvance(), facts)
  {
    hide Injective;
  }

  lemma NobodyCanGoOn()
    ensures Alive(AfterAdvance(), Exhausted(3)) && !HasNextStep(AfterAdvance())
  {
    hide Yard, IndexOf, Wardens;
    var s := AfterAdvance();
    var c := s.combat.value;
    SecondLives(s);
    assert Gate(4) in c.objectives;
    assert c.participants[2] == Summons(false) && Unspent(s, c.participants[2]);
    assert SomeUnspent(s, c, EnemySide);
    assert !SomeUnspent(s, c, HeroSide);
  }

  // ----- Not over -----

  function Strike(): Ability {
    Ability(Ref(50, 1), SignatureAbility, ActionSlot, [], TargetActor, SameZone, Some(5), None, [GrantEdge(AttackEdge)])
  }

  function BossRules(): Definition {
    EnemyDefinition(Ref(8, 1), true, 8, 0, EVEN_ATTRIBUTES, EVEN_DISCIPLINES, [EnemyAction(Ref(50, 1), [])], [1], [2])
  }

  /** The overlay comes back on empty Guard, with an effect that gives none. */
  function BossCatalog(): Catalog {
    Catalog(7, [AbilityDefinition(Strike()), OverlayDefinition(Ref(60, 1), Ref(7, 1), GuardDepleted,
      [GrantEdge(AttackEdge)]),
                ObjectiveDefinition(Ref(7, 1), 6, [GrantEdge(AttackEdge)]), BossRules()])
  }

  lemma BossCatalogAccepted()
    ensures CatalogAccepted(BossCatalog().definitions)
  {
    hide WithinSchema;
    var ds := BossCatalog().definitions;
    BossCatalogInBounds();
    assert ds[0] in ds && ds[2] in ds;
    assert RefOf(ds[0]) == Ref(50, 1) && RefOf(ds[2]) == Ref(7, 1);
    NoOptionsNoCycle(ds);
  }

  lemma BossCatalogInBounds()
    ensures forall d :: d in BossCatalog().definitions ==> WithinSchema(d)
  {
    hide WithinSchema, BossRules;
    var ds := BossCatalog().definitions;
    OthersInBounds();
    BossRulesInBounds();
    assert forall d :: d in ds ==> d == ds[0] || d == ds[1] || d == ds[2] || d == ds[3];
  }

  lemma OthersInBounds()
    ensures WithinSchema(AbilityDefinition(Strike())) && WithinSchema(OverlayDefinition(Ref(60, 1), Ref(7, 1),
            GuardDepleted, [GrantEdge(AttackEdge)]))
    ensures WithinSchema(ObjectiveDefinition(Ref(7, 1), 6, [GrantEdge(AttackEdge)]))
  {}

  lemma BossRulesInBounds()
    ensures WithinSchema(BossRules())
  {
    EvenRatings();
  }

  function Striker(): Character {
    Warden().(options := Warden().options.(signature := Ref(50, 1)))
  }

  function Standing(action: bool): Participant {
    Participant(1, 0, action, true, true, false, Hero(5))
  }

  function Boss(guard: int): Participant {
    Participant(2, 0, true, true, true, false, Enemy(true, AtOnce, Ref(8, 1), guard, 8, 0))
  }

  function Shell(active: bool): Overlay {
    Overlay(2, Ref(60, 1), active, 30)
  }

  function BossFight(action: bool, guard: int, active: bool): GameState {
    InDuel([Striker()], Duel(HeroSide, Some(1), [Standing(action), Boss(guard)], Gate(0), [Shell(active)]))
  }

  lemma PairIds(action: bool, guard: int)
    ensures var ids := ParticipantIds([Standing(action), Boss(guard)]);
            ids == [1, 2] && Distinct(ids) && IndexOf(ids, 1) == Some(0) && IndexOf(ids, 2) == Some(1)
  {
    hide IndexOf;
    assert ParticipantIds([Standing(action), Boss(guard)]) == [1, 2];
    IndexOfDistinct([1, 2], 0);
    IndexOfDistinct([1, 2], 1);
  }

  lemma StrikerValid()
    ensures ValidCharacter(Striker())
  {
    hide RatingsInRange;
    EvenRatings();
  }

  lemma StrikerSound()
    ensures SoundFighters([Striker()])
  {
    hide Striker, ValidCharacter;
    StrikerValid();
    assert CharacterIds([Striker()]) == [Striker().characterId] && ActorIds([Striker()]) == [Striker().actorId];
  }

  lemma BossFightValid(action: bool, guard: int, active: bool)
    requires 0 <= guard <= 8
    ensures ValidGameState(BossFight(action, guard, active))
  {
    hide ValidCombat, ValidGameState, SoundFighters, Yard, IndexOf, Distinct, Striker, ParticipantIds;
    StrikerSound();
    PairIds(action, guard);
    DuelValid(HeroSide, Some(1), [Standing(action), Boss(guard)], Gate(0), [Shell(active)]);
    InDuelValid([Striker()], BossFight(action, guard, active).combat.value);
  }

  function Struck(): seq<Event> {
    [ActionSlotSpent(6, 1, ActionSlot), ImpactApplied(6, 2, 5, 0, 0, 5, 3, 0), BossOverlayActivated(Shell(true), 0, 0)]
  }

  lemma StrikerIds()
    ensures ActorIds([Striker()]) == [1] && IndexOf([1], 1) == Some(0)
  {
    IndexOfDistinct([1], 0);
  }

  /** The catalog has this ability for the striker's signature technique, and nothing for its other options. */
  predicate GivesSignature(catalog: Catalog, a: Ability) {
    && ByReference(catalog.definitions, Ref(50, 1)) == Some(AbilityDefinition(a))
    && ById(catalog.definitions, 50) == Some(AbilityDefinition(a))
    && ByReference(catalog.definitions, Ref(0, 1)) == None
  }

  lemma StrikeIsListed()
    ensures GivesSignature(BossCatalog(), Strike())
  {
    var ds := BossCatalog().definitions;
    assert ds[1..] == [ds[1], ds[2], ds[3]] && ds[1..][1..] == [ds[2], ds[3]] && ds[1..][1..][1..] == [ds[3]]
      && ds[1..][1..][1..][1..] == [];
    assert MatchesOf(ds[1..][1..][1..], 50) == [] && MatchesOf(ds[1..][1..], 50) == [] && MatchesOf(ds[1..], 50) == [];
    assert ByReference(ds[1..][1..][1..], Ref(0, 1)) == None && ByReference(ds[1..][1..], Ref(0, 1)) == None;
  }

  lemma SignatureIsGranted(catalog: Catalog, a: Ability)
    requires GivesSignature(catalog, a)
    ensures GrantedIds(catalog, OptionRefs(Striker().options)) == [50]
  {
    hide GrantedIds, GivesSignature;
    var refs := OptionRefs(Striker().options);
    var none := Ref(0, 1);
    assert refs == [none] + ([none] + ([none] + [Ref(50, 1)]));
    NothingGranted(catalog, a, [Ref(50, 1)]);
    NothingGranted(catalog, a, [none] + [Ref(50, 1)]);
    NothingGranted(catalog, a, [none] + ([none] + [Ref(50, 1)]));
    OneGranted(catalog, a);
  }

  lemma NothingGranted(catalog: Catalog, a: Ability, rest: seq<Ref>)
    requires GivesSignature(catalog, a)
    ensures GrantedIds(catalog, [Ref(0, 1)] + rest) == GrantedIds(catalog, rest)
  {
    hide ByReference;
    assert ([Ref(0, 1)] + rest)[1..] == rest;
  }

  lemma OneGranted(catalog: Catalog, a: Ability)
    requires GivesSignature(catalog, a)
    ensures GrantedIds(catalog, [Ref(50, 1)]) == [50]
  {
    hide ByReference;
    assert [Ref(50, 1)][1..] == [];
  }

  /** The striker knows its signature technique. */
  lemma SignatureIsKnown(s: GameState, p: Participant, catalog: Catalog, a: Ability)
    requires GivesSignature(catalog, a) && s.characters == [Striker()] && p.role.Hero? && p.actorId == 1
    ensures a in ActorAbilities(s, p, catalog)
    ensures AbilityByReference(catalog, Ref(50, 1)) == Some(a)
  {
    hide IndexOf, ByReference, GrantedIds, OptionRefs, AbilitiesById, SortIds, ReadyGearIds, ActorIds;
    StrikerIds();
    SignatureIsGranted(catalog, a);
    NoGearIds(Striker().gear);
    SignatureIsFound(catalog, a);
    assert [] + [50] == [50];
  }

  lemma SignatureIsFound(catalog: Catalog, a: Ability)
    requires GivesSignature(catalog, a)
    ensures AbilitiesById(catalog, SortIds([50])) == [a]
  {
    hide ById, ByReference;
    assert [50][1..] == [];
  }

  lemma StrikeIsKnown()
    ensures Strike() in ActorAbilities(BossFight(true, 3, false), Standing(true), BossCatalog())
    ensures AbilityByReference(BossCatalog(), Ref(50, 1)) == Some(Strike())
  {
    hide Yard, BossCatalog, GivesSignature, ActorAbilities, AbilityByReference, Striker;
    StrikeIsListed();
    SignatureIsKnown(BossFight(true, 3, false), Standing(true), BossCatalog(), Strike());
  }

  lemma {:induction false} NoGearIds(gear: seq<Gear>)
    requires forall i :: 0 <= i < |gear| ==> gear[i].NoGear?
    ensures ReadyGearIds(gear) == []
  {
    if gear != [] {
      NoGearIds(gear[1..]);
    }
  }

  lemma BossIsTarget()
    ensures OnActor(2) in AbilityTargets(BossFight(true, 3, false), BossFight(true, 3, false).combat.Get(),
            Standing(true), Strike())
    ensures MayUse(BossFight(true, 3, false), Standing(true), Strike())
  {
    hide IndexOf, Links, MoveTargets, ObjectiveTargets, Destinations;
    var s := BossFight(true, 3, false);
    var c := s.combat.value;
    StrikerIds();
    PairIds(true, 3);
    assert Alive(s, Boss(3));
    assert TargetInRange(c, Standing(true), SameZone, Boss(3));
    assert InSight(c, Standing(true), Boss(3));
    assert MayBeTargeted(s, c, Standing(true), Strike(), Boss(3));
    assert c.participants[1..] == [Boss(3)];
    assert ActorTargets(s, c, Standing(true), Strike(), [Boss(3)]) == [OnActor(2)]
      + ActorTargets(s, c, Standing(true), Strike(), [Boss(3)][1..]);
  }

  lemma StrikeIsDecided(facts: Facts) returns (id: Id)
    requires Supplied(BossFight(true, 3, false), facts) && facts.catalog == Some(BossCatalog())
    ensures DecideExecuteCombatAction(BossFight(true, 3, false), facts, FIGHT, id, false) == Done(Struck())
  {
    hide EnumerateActions, WithId, ExecuteCandidate, Injective, IndexOf, Yard, ActorAbilities, AbilityTargets, MayUse,
         AbilityByReference, BossCatalog, KeyOf, Striker;
    var s, catalog, ids := BossFight(true, 3, false), facts.catalog.value, facts.legalActionIdFor.value;
    PairIds(true, 3);
    StrikerIds();
    StrikeIsKnown();
    BossIsTarget();
    var x := UseIsOffered(s, catalog, 1, ids, Strike(), OnActor(2));
    var y := WithIdSameKey(s, catalog, 1, ids, x);
    id := x.legalActionId;
    StrikeEvents(facts, y);
  }

  lemma StrikeEvents(facts: Facts, y: Candidate)
    requires y.kind.Attack? && y.slot.ActionSlot? && y.actorId == 1 && y.source == Some(Ref(50, 1))
             && y.target == OnActor(2)
    requires facts.catalog == Some(BossCatalog())
    ensures ExecuteCandidate(BossFight(true, 3, false), facts, BossCatalog(), BossFight(true, 3, false).combat.Get(),
            y, false) == Done(Struck())
  {
    hide Yard, IndexOf, AbilityByReference, ActorAbilities, OverlayEvents, FinishIfOver, BossCatalog, Expenses,
         AllEffects, Striker, WoundEvents, DeathDisclosure;
    var s := BossFight(true, 3, false);
    var c := s.combat.value;
    PairIds(true, 3);
    StrikeIsKnown();
    StrikerIds();
    var impact := ImpactApplied(6, 2, 5, 0, 0, 5, 3, 0);
    var revived := BossOverlayActivated(Shell(true), 0, 0);
    ShellRevives(s, c);
    assert [revived] + [] == [revived];
    assert StruckEnemy(s, BossCatalog(), c, Boss(3), 0) == Done([revived]);
    assert [impact] + [revived] == [impact, revived];
    assert ImpactEvents(s, facts, BossCatalog(), c, OnActor(2), 5, Success) == Done([impact, revived]);
    assert [impact, revived] + [] == [impact, revived];
    EdgeAlone(s, facts, c);
    assert ResolvedEvents(s, facts, y, Some(Strike()), Success, Some(5)) == Done([impact, revived]);
    var slot := ActionSlotSpent(6, 1, ActionSlot);
    StrikeExpenses(y);
    assert [slot] + [impact, revived] == Struck();
  }

  lemma EdgeAlone(s: GameState, facts: Facts, c: Combat)
    ensures AllEffects(s, facts, BossCatalog(), c, OnActor(2), Strike().effects) == Done([])
  {
    hide BossCatalog, Both;
    assert Strike().effects[1..] == [];
    BothEmpty(Done([]));
  }

  lemma StrikeExpenses(y: Candidate)
    requires y.slot.ActionSlot?
    ensures Expenses(BossFight(true, 3, false), BossFight(true, 3, false).combat.Get(), Standing(true), y,
            Some(Strike())) ==
            Done([ActionSlotSpent(6, 1, ActionSlot)])
  {
    hide Yard, IndexOf, ActorIds, Both;
    StrikerIds();
    var s := BossFight(true, 3, false);
    assert CostEvents(s, Standing(true), Strike()) == Done([]);
    assert SceneUseEvents(s, Standing(true), Strike()) == Done([]);
    BothEmpty(Done([]));
    BothEmpty(Done([ActionSlotSpent(6, 1, ActionSlot)]));
  }

  lemma ShellIsListed()
    ensures ByReference(BossCatalog().definitions, Ref(60, 1)) ==
            Some(OverlayDefinition(Ref(60, 1), Ref(7, 1), GuardDepleted, [GrantEdge(AttackEdge)]))
  {
    var ds := BossCatalog().definitions;
    assert ByReference(ds[1..], Ref(60, 1)) == Some(ds[1]);
  }

  lemma ShellRevives(s: GameState, c: Combat)
    requires s == BossFight(true, 3, false) && s.combat == Some(c)
    ensures OverlayEvents(c, BossCatalog(), Boss(3), 0) == Done([BossOverlayActivated(Shell(true), 0, 0)])
    ensures FinishIfOver(s, c, Some(2), None, Some(2)) == []
  {
    hide Yard, BossCatalog, ByReference;
    assert EnemyStands(c.participants[1], Some(2), Some(2));
    assert HeroStands(s, s.characters[0], None);
    ShellIsListed();
  }

  lemma StruckFolds()
    ensures Fold(BossFight(true, 3, false), Struck()) == Done(BossFight(false, 0, true))
  {
    hide ValidGameState, Apply, BossFight, Fold;
    SlotOfStrike();
    ImpactOfStrike();
    RevivalOfBoss();
    var es := Struck();
    FoldOne(BossFight(true, 3, false), es[0]);
    FoldOne(BossFight(false, 3, false), es[1]);
    FoldOne(BossFight(false, 0, false), es[2]);
    FoldAppend(BossFight(false, 3, false), [es[1]], [es[2]]);
    assert [es[1]] + [es[2]] == [es[1], es[2]];
    FoldAppend(BossFight(true, 3, false), [es[0]], [es[1], es[2]]);
    assert [es[0]] + [es[1], es[2]] == es;
  }

  lemma SlotOfStrike()
    ensures Apply(BossFight(true, 3, false), At(Struck(), 0)) == Done(BossFight(false, 3, false))
  {
    hide ValidGameState, Yard, IndexOf;
    BossFightValid(false, 3, false);
    PairIds(true, 3);
    assert [Standing(true), Boss(3)][0 := Standing(false)] == [Standing(false), Boss(3)];
  }

  lemma ImpactOfStrike()
    ensures Apply(BossFight(false, 3, false), At(Struck(), 1)) == Done(BossFight(false, 0, false))
  {
    hide ValidGameState, Yard, IndexOf, Striker;
    BossFightValid(false, 0, false);
    PairIds(false, 3);
    IndexOfDistinct([1], 0);
    StrikerIds();
    NotAmongHeroes();
    assert [Standing(false), Boss(3)][1 := Boss(0)] == [Standing(false), Boss(0)];
  }

  lemma NotAmongHeroes()
    ensures IndexOf([1], 2) == None
  {}

  lemma RevivalOfBoss()
    ensures Apply(BossFight(false, 0, false), At(Struck(), 2)) == Done(BossFight(false, 0, true))
  {
    hide ValidGameState, Yard, IndexOf;
    BossFightValid(false, 0, true);
    PairIds(false, 0);
    assert [Standing(false), Boss(0)][1 := Boss(0)] == [Standing(false), Boss(0)];
    assert ReplaceOverlays([Shell(false)], Shell(true)) == [Shell(true)];
  }

  /** Concretely: a hero strikes the only enemy down, the boss comes back with no Guard, and the fight goes on with
      no enemy that has any. */
  lemma FightGoesOnWithoutEnemies(facts: Facts) returns (id: Id)
    requires Supplied(BossFight(true, 3, false), facts) && facts.catalog == Some(BossCatalog())
    ensures CatalogAccepted(BossCatalog().definitions) && WellFormedCatalog(BossCatalog())
    ensures ValidGameState(BossFight(true, 3, false)) && RevivesEmpty(BossFight(true, 3, false).combat.Get(),
            BossCatalog(), Boss(3), 5)
    ensures DecideExecuteCombatAction(BossFight(true, 3, false), facts, FIGHT, id, false) == Done(Struck())
    ensures Fold(BossFight(true, 3, false), Struck()) == Done(BossFight(false, 0, true))
    ensures BossFight(false, 0, true).combat.Get().status.Active? && !EnemyLeft(BossFight(false, 0, true).combat.Get())
  {
    hide ValidGameState, Fold, DecideExecuteCombatAction, Yard, BossCatalog, CatalogAccepted, WellFormedCatalog,
         ByReference, Supplied;
    BossCatalogAccepted();
    AcceptedIsWellFormed(BossCatalog());
    BossFightValid(true, 3, false);
    id := StrikeIsDecided(facts);
    StruckFolds();
    ShellIsListed();
  }

  /** A technique that restores its user's own reaction. */
  function Recover(): Ability {
    Ability(Ref(50, 1), SignatureAbility, ActionSlot, [], TargetSelf, SelfRange, None, None, [ReactionEffect])
  }

  function RecoverCatalog(): Catalog {
    Catalog(7, [AbilityDefinition(Recover()), BossRules()])
  }

  lemma RecoverCatalogAccepted()
    ensures CatalogAccepted(RecoverCatalog().definitions)
  {
    hide WithinSchema;
    var ds := RecoverCatalog().definitions;
    RecoverInBounds();
    BossRulesInBounds();
    assert ds[0] in ds && RefOf(ds[0]) == Ref(50, 1);
    assert forall d :: d in ds ==> d == ds[0] || d == ds[1];
    NoOptionsNoCycle(ds);
  }

  lemma RecoverInBounds()
    ensures WithinSchema(AbilityDefinition(Recover()))
  {}

  lemma RecoverIsListed()
    ensures GivesSignature(RecoverCatalog(), Recover())
  {
    var ds := RecoverCatalog().definitions;
    assert ds[1..] == [ds[1]] && ds[1..][1..] == [];
    assert MatchesOf(ds[1..], 50) == [];
  }

  /** The second round: the striker is active and has not reacted yet. */
  function Rested(): GameState {
    InDuel([Striker()], Duel(HeroSide, Some(1), [Standing(true), Boss(8)], Gate(0), []))
  }

  lemma RestedValid()
    ensures ValidGameState(Rested())
  {
    hide ValidCombat, ValidGameState, SoundFighters, Yard, IndexOf, Distinct, Striker, ParticipantIds;
    StrikerSound();
    PairIds(true, 8);
    DuelValid(HeroSide, Some(1), [Standing(true), Boss(8)], Gate(0), []);
    InDuelValid([Striker()], Rested().combat.value);
  }

  function Recovery(): seq<Event> {
    [ActionSlotSpent(6, 1, ActionSlot), ReactionRestored(1)]
  }

  lemma MayRecover()
    ensures MayUse(Rested(), Standing(true), Recover()) && Alive(Rested(), Standing(true))
    ensures OnSelf(1) in AbilityTargets(Rested(), Rested().combat.Get(), Standing(true), Recover())
  {
    hide IndexOf, Yard, ActorIds, ActorTargets, MoveTargets, MayBeTargeted, ObjectiveTargets, ZoneTargets;
    StrikerIds();
  }

  lemma RecoveryIsDecided(facts: Facts) returns (id: Id)
    requires Supplied(Rested(), facts) && facts.catalog == Some(RecoverCatalog())
    ensures DecideExecuteCombatAction(Rested(), facts, FIGHT, id, false) == Done(Recovery())
  {
    hide EnumerateActions, WithId, ExecuteCandidate, Injective, IndexOf, Yard, ActorAbilities, AbilityTargets, MayUse,
         AbilityByReference, RecoverCatalog, GivesSignature, Alive, KeyOf, Striker, ParticipantIds, KindOf;
    var s, catalog, ids := Rested(), facts.catalog.value, facts.legalActionIdFor.value;
    PairIds(true, 8);
    RecoverIsListed();
    SignatureIsKnown(s, Standing(true), catalog, Recover());
    MayRecover();
    var x := UseIsOffered(s, catalog, 1, ids, Recover(), OnSelf(1));
    var y := WithIdSameKey(s, catalog, 1, ids, x);
    id := x.legalActionId;
    RecoveryEvents(facts, y);
  }

  lemma RecoveryEvents(facts: Facts, y: Candidate)
    requires y.kind == KindOf(Recover()) && y.slot.ActionSlot? && y.actorId == 1 && y.source == Some(Ref(50, 1))
             && y.target == OnSelf(1)
    requires facts.catalog == Some(RecoverCatalog())
    ensures ExecuteCandidate(Rested(), facts, RecoverCatalog(), Rested().combat.Get(), y, false) == Done(Recovery())
  {
    hide Yard, IndexOf, AbilityByReference, ActorAbilities, RecoverCatalog, Expenses, AllEffects, GivesSignature,
         Striker, ParticipantIds, CheckedEvents, ImpactEvents, WoundEvents, DeathDisclosure;
    var s := Rested();
    PairIds(true, 8);
    RecoverIsListed();
    SignatureIsKnown(s, Standing(true), RecoverCatalog(), Recover());
    RecoverRestores(facts);
    RecoverExpenses(y);
    assert [] + [ReactionRestored(1)] == [ReactionRestored(1)];
    assert ResolvedEvents(s, facts, y, Some(Recover()), Success, None) == Done([ReactionRestored(1)]);
    assert [ActionSlotSpent(6, 1, ActionSlot)] + [ReactionRestored(1)] == Recovery();
  }

  lemma RecoverRestores(facts: Facts)
    ensures AllEffects(Rested(), facts, RecoverCatalog(), Rested().combat.Get(), OnSelf(1), Recover().effects) ==
            Done([ReactionRestored(1)])
  {
    hide Yard, RecoverCatalog;
    var s, c, es := Rested(), Rested().combat.value, Recover().effects;
    assert es[1..] == [];
    assert EffectEvents(s, facts, RecoverCatalog(), c, OnSelf(1), es[0]) == Done([ReactionRestored(1)]);
    assert AllEffects(s, facts, RecoverCatalog(), c, OnSelf(1), []) == Done([]);
    assert [ReactionRestored(1)] + [] == [ReactionRestored(1)];
  }

  lemma RecoverExpenses(y: Candidate)
    requires y.slot.ActionSlot?
    ensures Expenses(Rested(), Rested().combat.Get(), Standing(true), y, Some(Recover())) ==
            Done([ActionSlotSpent(6, 1, ActionSlot)])
  {
    hide Yard, IndexOf, Both;
    StrikerIds();
    assert CostEvents(Rested(), Standing(true), Recover()) == Done([]);
    assert SceneUseEvents(Rested(), Standing(true), Recover()) == Done([]);
    BothEmpty(Done([]));
    BothEmpty(Done([ActionSlotSpent(6, 1, ActionSlot)]));
  }

  lemma ReactionNotSpent()
    ensures !ReactionSpent(Rested(), 1) && !EffectsFit(Rested(), Recovery())
  {
    hide Yard, IndexOf, ChangesIn, RestoresIn, ParticipantIds, Boss, Distinct;
    PairIds(true, 8);
    assert Recovery()[1] in Recovery();
  }

  lemma RestedApart()
    ensures EnemiesApart(Rested())
  {
    hide Yard, IndexOf, Striker, ActorIds;
    StrikerIds();
  }

  /** Concretely: a technique that passes content validation restores the reaction of a hero that still has it; the
      decider accepts, the reducer refuses. */
  lemma UnspentReactionIsRefused(facts: Facts) returns (id: Id)
    requires Supplied(Rested(), facts) && FreshFacts(Rested(), facts) && facts.catalog == Some(RecoverCatalog())
    ensures CatalogAccepted(RecoverCatalog().definitions) && WellFormedCatalog(RecoverCatalog())
    ensures ValidGameState(Rested()) && DecideExecuteCombatAction(Rested(), facts, FIGHT, id, false) == Done(Recovery())
    ensures Fold(Rested(), Recovery()).Refused?
  {
    hide ValidGameState, Fold, DecideExecuteCombatAction, Rested, RecoverCatalog, CatalogAccepted, WellFormedCatalog,
         EffectsFit, FreshFacts, EnemiesApart, Supplied, ReactionSpent, SparkFits, RoomFor, Recovery;
    RecoverCatalogAccepted();
    AcceptedIsWellFormed(RecoverCatalog());
    RestedValid();
    RestedApart();
    id := RecoveryIsDecided(facts);
    ReactionNotSpent();
    ExecuteAgreesExactly(Rested(), facts, RecoverCatalog(), 6, id, false, Recovery());
  }

  function Fallen(): Character {
    Warden().(wounds := [Filled(51), Filled(52), Filled(53)])
  }

  function Test(): Disclosure {
    CreateDisclosure(Request(1, Force, 1, Athletics, 1, DEATH_TEST_TARGET, false, false, false, Some(5)),
                     PermanentDeath).value
  }

  function OldScars(): (r: seq<Scar>)
    ensures |r| == 32 && forall i :: 0 <= i < 32 ==> r[i] == Scar(i, 1)
  {
    seq(32, i requires 0 <= i < 32 => Scar(i, 1))
  }

  /** The warden has acted. */
  function Finished(): Participant {
    Participant(1, 0, false, false, true, true, Hero(5))
  }

  /** The foe has struck. */
  function Striking(): Participant {
    Foe(2).(actionAvailable := false)
  }

  /** The fight after the foe's strike: it is the foe's activation, and the death test of the hero is awaited. */
  function Stricken(): Combat {
    Fight(Active, [Foe(2)]).(participants := [Finished(), Striking()], activeSide := EnemySide, activeActor := Some(2))
  }

  function Awaiting(): Combat {
    Stricken().(status := AwaitingDeathTest, pendingDeath := Some(40))
  }

  /** The warden has lived through thirty-two death tests, and is in the next. */
  function Scarred(): GameState {
    EmptyCampaign(7).(characters := [Fallen()], supplyMaximum := 3, combat := Some(Awaiting()), scars := OldScars(),
                      pendingChecks := [PendingCheck(40, 41, Test(), Some(DeathTest(6, 1)))])
  }

  lemma FallenValid()
    ensures ValidCharacter(Fallen())
  {
    hide RatingsInRange;
    EvenRatings();
  }

  lemma StrickenValid()
    ensures ValidCombat(Stricken())
  {
    hide ValidZoneGraph, OccupancyFits, Yard;
    OneFoe();
    FightValid(Active, [Foe(2)]);
    var c := Fight(Active, [Foe(2)]);
    SamePlacesFit(c.zones, c.participants, Stricken().participants);
    assert forall i :: 0 <= i < 2 ==> ParticipantSound(c.zones, 1, [], c.participants[i]);
    assert ParticipantIds(Stricken().participants) == [1, 2];
    assert ParticipantIds(c.participants) == [1, 2];
  }

  lemma AwaitingValid()
    ensures ValidCombat(Awaiting())
  {
    hide ValidCombat, Struck;
    StrickenValid();
    AwaitingSound();
    CombatStatusValid(Stricken(), Awaiting());
  }

  lemma AwaitingSound()
    ensures StatusSound(Awaiting())
  {}

  lemma TestHonest()
    ensures Honest(Test()) && ValidDisclosure(Test()) && Test().reason.PermanentDeath?
    ensures Disclosed(Test(), 20, Resolve(Rebuild(Test()), 20).finalDegree)
            && Resolve(Rebuild(Test()), 20).finalDegree.Triumph?
  {
    hide Honest, ValidDisclosure;
    CreatedIsHonest(Request(1, Force, 1, Athletics, 1, DEATH_TEST_TARGET, false, false, false, Some(5)),
      PermanentDeath);
  }

  lemma FallenIds()
    ensures CharacterIds([Fallen()]) == [1] && ActorIds([Fallen()]) == [1]
    ensures WoundsOf([Fallen()]) == [Fallen().wounds]
  {}

  lemma OldScarsValid()
    ensures ValidScars(OldScars())
  {}

  lemma OnePending()
    ensures ValidPendings(Scarred().pendingChecks) && CheckIds(Scarred().pendingChecks) == [40]
  {
    hide ValidDisclosure, Test, Honest, Resolve, CheckIds, Rebuild, Disclosed;
    TestHonest();
  }

  lemma ScarredValid()
    ensures ValidGameState(Scarred())
  {
    hide ValidCombat, ValidCharacter, ValidPendings, ValidScars, Fallen, Awaiting, Test, OldScars, CheckIds,
         CharacterIds, WoundsOf, ActorIds;
    FallenValid();
    AwaitingValid();
    FallenIds();
    OldScarsValid();
    OnePending();
  }

  lemma ScarredKept()
    ensures StateKept(Scarred())
  {
    hide ValidGameState, Test, Honest, OldScars, ValidPendings, Resolve, ValidDisclosure;
    ScarredValid();
    FallenIds();
    TestHonest();
    OnePending();
    var s := Scarred();
    assert TestedHero(s.pendingChecks[0]) == Some(1);
    assert Tested(s.pendingChecks, 1);
  }

  /** The die shows twenty: the hero is to live and bear a thirty-third scar. */
  lemma TwentyIsAccepted(facts: Facts) returns (result: CheckResult)
    requires facts.scarId.Some?
    ensures result.finalDegree.Triumph? && FindPending(Scarred(), CHECK) == Some(0)
    ensures DeathTestEvents(Scarred(), facts, WARDEN, Triumph) ==
            Done([HeroStabilized(WARDEN, Put(Fallen().wounds, 2, Empty)),
                PermanentScarGained(facts.scarId.Get(), WARDEN)])
    ensures DecideSubmitDieResult(Scarred(), facts, CHECK, NONCE, 20) ==
            Done([CheckResolvedPhysical(CHECK, result)] + DeathTestEvents(Scarred(), facts, WARDEN, Triumph).Get())
  {
    hide Test, Resolve, Disclosed, Honest, ValidPendings, ResolvedEvents, ImpactEvents, AllEffects, EffectEvents;
    TestHonest();
    FallenIds();
    OnePending();
    result := Resolve(Rebuild(Test()), 20);
    assert FindCharacter(Scarred(), 1) == Some(0) && Scarred().characters[0] == Fallen();
    assert Scarred().combat.Some?;
    var stable, scar := HeroStabilized(1, Fallen().wounds[2 := Empty]), PermanentScarGained(facts.scarId.value, 1);
    assert DeathTestEvents(Scarred(), facts, 1, Triumph) == Done([stable] + [scar]);
    assert [stable] + [scar] == [stable, scar];
  }

  /** Concretely: with thirty-two scars on record the triumph is accepted by the decider and refused by the reducer. */
  lemma ThirtyThirdScarIsRefused(facts: Facts)
    requires facts.scarId.Some?
    ensures StateKept(Scarred()) && DecideSubmitDieResult(Scarred(), facts, CHECK, NONCE, 20).Done?
    ensures Fold(Scarred(), DecideSubmitDieResult(Scarred(), facts, CHECK, NONCE, 20).Get()).Refused?
  {
    hide ValidGameState, StateKept, DecideSubmitDieResult, DeathTestEvents, Apply, Fallen, Test, Freed,
         ResolvePhysical, Fold, FindPending, Removed;
    ScarredKept();
    ScarredValid();
    var s := Scarred();
    var result := TwentyIsAccepted(facts);
    var t := DieApplies(s, 0, result);
    SameDeathTest(s, t, facts, 1, Triumph);
    var rest := DeathTestEvents(t, facts, 1, Triumph).value;
    DeathTestGoesOn(t, facts, 1, Triumph);
    ScarsStay(s, t);
    assert rest[1] in rest && rest[1].PermanentScarGained?;
    assert !OutcomeFits(t, rest);
    FoldOne(s, CheckResolvedPhysical(40, result));
    FoldAppend(s, [CheckResolvedPhysical(40, result)], rest);
  }

  lemma ScarsStay(s: GameState, t: GameState)
    requires Freed(s, t)
    ensures t.scars == s.scars
  {}

  // ----- A death check while an action is awaited -----

  /** The warden strikes, which a pivotal roll is to decide. */
  function Swing(): Candidate {
    Candidate(70, 1, ActionSlot, Attack, Some(Ref(50, 1)), OnActor(2), Adjacent, 0, [])
  }

  function Roll(): Disclosure {
    CreateDisclosure(Request(1, Force, 1, Athletics, 1, 13, false, false, false, Some(5)), PivotalConclusion).value
  }

  function Swinging(): Combat {
    Fight(Active, [Foe(2)]).(participants := [Participant(1, 0, false, true, true, false, Hero(5)), Foe(2)],
                             activeActor := Some(1))
  }

  /** The fight waits for the warden's action. */
  function Paused(): GameState {
    EmptyCampaign(7).(characters := [Warden()], supplyMaximum := 3,
                      combat := Some(Swinging().(status := AwaitingAction, pendingAction := Some(60))),
                      pendingChecks := [PendingCheck(60, 61, Roll(), Some(CombatAction(Swing(), Some(5))))])
  }

  lemma SwingingValid()
    ensures ValidCombat(Swinging())
  {
    hide ValidZoneGraph, OccupancyFits, Yard;
    OneFoe();
    FightValid(Active, [Foe(2)]);
    var c := Fight(Active, [Foe(2)]);
    SamePlacesFit(c.zones, c.participants, Swinging().participants);
    assert forall i :: 0 <= i < 2 ==> ParticipantSound(c.zones, 1, [], c.participants[i]);
    assert ParticipantIds(Swinging().participants) == [1, 2];
    assert ParticipantIds(c.participants) == [1, 2];
  }

  lemma RollPending()
    ensures ValidPendings(Paused().pendingChecks) && CheckIds(Paused().pendingChecks) == [60] && Honest(Roll())
  {
    CreatedIsHonest(Request(1, Force, 1, Athletics, 1, 13, false, false, false, Some(5)), PivotalConclusion);
  }

  lemma PausedValid()
    ensures ValidGameState(Paused())
  {
    hide ValidCombat, ValidCharacter, ValidPendings, Warden, Swinging, Roll;
    WardenValid();
    WardenIds();
    SwingingValid();
    RollPending();
    SwingingIsActive();
    ActionAwaited(Swinging(), 60);
  }

  lemma SwingingIsActive()
    ensures Swinging().status.Active?
  {}

  lemma PausedKept()
    ensures StateKept(Paused())
  {
    hide ValidGameState, Roll, Honest;
    PausedValid();
    WardenIds();
    RollPending();
    assert WoundsOf(Paused().characters) == [[Empty, Empty, Empty]];
  }

  /** Concretely: while a fight awaits an action, a check on permanent death is accepted by the decider and refused by
      the reducer. */
  lemma DeathCheckOverActionIsRefused(facts: Facts) returns (es: seq<Event>)
    requires facts.pendingCheckId == Some(CHECK) && facts.nonce == Some(NONCE)
    ensures StateKept(Paused()) && Decide(Paused(), facts, ResolveCheck(LateCheck())) == Done(es)
    ensures Fold(Paused(), es).Refused?
  {
    hide ValidGameState, StateKept, Apply, SelectAttempt, DecideHero, DecideCombat, DecideScene, DecideResolveCheck,
         ValidDisclosure;
    PausedKept();
    WardenIds();
    LateSelection();
    var d := SelectAttempt(LateCheck()).disclosure;
    var request := PhysicalRollRequested(40, 41, d);
    es := [] + [request];
    assert es == [request];
    assert FindActor(Paused(), 1).Some?;
    LateDecision(Paused(), facts, es);
    DeathOverAction(Paused(), 40, 41, d);
    FoldOne(Paused(), request);
  }
}
