/** When a requested roll is applied, and that whatever is decided about heroes, their resources and the scene, or to
    start or leave a fight, is applied. */
module HeroAgreement {
  import opened Common
  import opened ZoneGraph
  import opened State
  import opened Validity
  import opened Events
  import opened Reducer
  import opened Undo
  import opened Checks
  import opened Content
  import opened CombatRules
  import opened Reactions
  import opened Subsystems
  import opened Commands
  import opened Applies
  import opened Forms
  import opened EffectAgreement
  import opened CombatDecisions

  /** There is room for one more check, and a death is not asked about while the fight awaits an action. */
  predicate MayRequest(s: GameState, d: Disclosure) {
    && |s.pendingChecks| < 16
    && (d.reason.PermanentDeath? ==>
          match s.combat
          case None => true
          case Some(c) => c.pendingAction.None?)
  }

  /** All rolls these events request may be requested. */
  predicate RequestsFit(s: GameState, es: seq<Event>) {
    forall e :: e in es && e.PhysicalRollRequested? ==> MayRequest(s, e.disclosure)
  }

  lemma RequestRefused(s: GameState, id: Id, nonce: Id, d: Disclosure)
    requires ValidGameState(s) && Apply(s, PhysicalRollRequested(id, nonce, d)).Done?
    ensures MayRequest(s, d)
  {
    hide ValidGameState, ValidDisclosure, ValidCombat, Apply;
    if |s.pendingChecks| >= 16 {
      PendingsFew(s);
      FullPendingsRefuse(s, id, nonce, d);
    }
    if d.reason.PermanentDeath? && s.combat.Some? && s.combat.value.pendingAction.Some? {
      DeathOverAction(s, id, nonce, d);
    }
  }

  /** A fight cannot await a death test and an action at once. */
  lemma DeathOverAction(s: GameState, id: Id, nonce: Id, d: Disclosure)
    requires d.reason.PermanentDeath? && s.combat.Some? && s.combat.Get().pendingAction.Some?
    ensures Apply(s, PhysicalRollRequested(id, nonce, d)).Refused?
  {
    hide ValidGameState, ValidZoneGraph, Distinct, OccupancyFits, ObjectivesSound, OverlaysSound, WindowSound,
         ParticipantsSound, ActiveSound, CheckIds, Nonces;
    var c := s.combat.value.(status := AwaitingDeathTest, pendingDeath := Some(id));
    var t := WithCombat(s.(pendingChecks := s.pendingChecks + [PendingCheck(id, nonce, d, None)]), c);
    assert !ValidCombat(c);
    CombatMustBeSound(t);
  }

  lemma RequestGoes(s: GameState, id: Id, nonce: Id, d: Disclosure) returns (t: GameState)
    requires ValidGameState(s) && ValidDisclosure(d) && MayRequest(s, d)
    requires id !in CheckIds(s.pendingChecks) && nonce !in Nonces(s.pendingChecks)
    ensures Apply(s, PhysicalRollRequested(id, nonce, d)) == Done(t) && ValidGameState(t)
    ensures t == s.(pendingChecks := s.pendingChecks + [PendingCheck(id, nonce, d, None)], combat := t.combat)
  {
    hide ValidGameState, ValidPendings, ValidDisclosure, ValidZoneGraph, ParticipantsSound, OccupancyFits,
         ObjectivesSound, OverlaysSound, WindowSound, ActiveSound, Distinct, ValidParty, ValidChallenges,
         ValidSocials, ValidRituals, StepHero, StepTurn, StepHarm, StepScene, CheckIds, Nonces;
    ValidParts(s);
    var ps := s.pendingChecks + [PendingCheck(id, nonce, d, None)];
    PendingAppended(s.pendingChecks, PendingCheck(id, nonce, d, None));
    WithPendingsValid(s, ps);
    t := s.(pendingChecks := ps);
    if d.reason.PermanentDeath? && s.combat.Some? {
      var c := s.combat.value.(status := AwaitingDeathTest, pendingDeath := Some(id));
      CombatStatusValid(s.combat.value, c);
      WithCombatValid(t, c);
      t := WithCombat(t, c);
    }
  }

  // ----- An attempt's request -----

  /** The identities for a new check are free. */
  predicate FreshCheck(s: GameState, facts: Facts) {
    && (facts.pendingCheckId.Some? ==> facts.pendingCheckId.value !in CheckIds(s.pendingChecks))
    && (facts.nonce.Some? ==> facts.nonce.value !in Nonces(s.pendingChecks))
  }

  /** What an attempt selects is disclosed for its own actor, and is valid for a valid request. */
  lemma AttemptSelected(a: Attempt, request: Request, d: Disclosure, spark: bool)
    requires SelectAttempt(a) == Physical(request, d, spark) && ValidRequest(a.request)
    ensures ValidDisclosure(d) && request.actorId == a.request.actorId && (spark ==> a.invokeSpark)
  {
    hide ValidDisclosure, Honest, Resolve;
    SelectedAttempt(a);
  }

  /** A hero's requested roll, with the Spark it may cost, is applied exactly when it may be requested. */
  lemma AttemptRequested(s: GameState, h: nat, request: Request, d: Disclosure, spark: bool, id: Id, nonce: Id)
      returns (t: GameState)
    requires ValidGameState(s) && ValidDisclosure(d) && h < |s.characters|
    requires FindActor(s, request.actorId) == Some(h) && (spark ==> At(s.characters, h).sparkAvailable)
    requires id !in CheckIds(s.pendingChecks) && nonce !in Nonces(s.pendingChecks)
    ensures Fold(s, RequestEvents(Physical(request, d, spark), id, nonce)).Done? <==> MayRequest(s, d)
    ensures MayRequest(s, d) ==>
              && Fold(s, RequestEvents(Physical(request, d, spark), id, nonce)) == Done(t) && ValidGameState(t)
              && t == s.(pendingChecks := s.pendingChecks + [PendingCheck(id, nonce, d, None)], combat := t.combat,
                         characters := t.characters)
  {
    hide ValidGameState, ValidDisclosure, Apply, IndexOf, CheckIds, Nonces;
    var first := if spark then [SparkSpent(request.actorId)] else [];
    var asked := PhysicalRollRequested(id, nonce, d);
    assert RequestEvents(Physical(request, d, spark), id, nonce) == first + [asked];
    var u := s;
    if spark {
      SparkApplies(s, h);
      FoldOne(s, first[0]);
      u := WithCharacter(s, h, s.characters[h].(sparkAvailable := false));
    }
    assert Fold(s, first) == Done(u);
    FoldKeepsValid(s, first, u);
    FoldAppend(s, first, [asked]);
    FoldOne(u, asked);
    t := u;
    if Apply(u, asked).Done? {
      RequestRefused(u, id, nonce, d);
    }
    if MayRequest(s, d) {
      t := RequestGoes(u, id, nonce, d);
    }
  }

  /** The only roll an attempt requests is its own. */
  lemma AttemptFits(s: GameState, request: Request, d: Disclosure, spark: bool, id: Id, nonce: Id, more: seq<Event>)
    requires forall e :: e in more ==> !e.PhysicalRollRequested?
    ensures RequestsFit(s, RequestEvents(Physical(request, d, spark), id, nonce) + more) <==> MayRequest(s, d)
  {
    hide MayRequest;
    var es := RequestEvents(Physical(request, d, spark), id, nonce) + more;
    assert PhysicalRollRequested(id, nonce, d) in es;
    forall e | e in es && e.PhysicalRollRequested? ensures e == PhysicalRollRequested(id, nonce, d) {}
  }

  lemma SimulatedGoes(s: GameState, result: CheckResult)
    ensures Fold(s, [CheckResolvedSimulated(result)]) == Done(s) || !ValidGameState(s)
    ensures RequestsFit(s, [CheckResolvedSimulated(result)])
  {
    hide ValidGameState, MayRequest;
    if ValidGameState(s) {
      SimulatedIsAudit(result);
      AuditKeeps(s, CheckResolvedSimulated(result));
    }
  }

  /** `resolve_check` is applied if and only if the roll it may request may be requested. */
  lemma ResolveCheckExactly(s: GameState, facts: Facts, a: Attempt, es: seq<Event>)
    requires ValidGameState(s) && FreshCheck(s, facts) && ValidRequest(a.request)
    requires DecideResolveCheck(s, facts, a) == Done(es)
    ensures Fold(s, es).Done? <==> RequestsFit(s, es)
  {
    hide ValidGameState, RequestsFit, MayRequest, SelectAttempt, Resolve, ValidRequest, IndexOf, ValidDisclosure,
         Fold, CheckIds, Nonces, RequestEvents;
    var h := FindActor(s, a.request.actorId).value;
    if a.physicalReason.None? && !a.invokeSpark {
      SimulatedGoes(s, Resolve(a.request, Draw(facts.random.value, 1, 20)));
    } else {
      var selected := SelectAttempt(a);
      AttemptSelected(a, selected.request, selected.disclosure, selected.sparkSpent);
      var t := AttemptRequested(s, h, selected.request, selected.disclosure, selected.sparkSpent,
        facts.pendingCheckId.value, facts.nonce.value);
      AttemptFits(s, selected.request, selected.disclosure, selected.sparkSpent, facts.pendingCheckId.value,
        facts.nonce.value, []);
      assert es + [] == es;
    }
  }

  // ----- A request with its continuation -----

  /** A challenge that is active, a known social state or a ritual that is ready goes on with its check. */
  predicate MayContinue(s: GameState, e: Event) {
    match e
    case ChallengeCheckPending(id, _) =>
      (match FindChallenge(s, id) case None => false case Some(i) => s.challenges[i].status.ChallengeActive?)
    case SocialCheckPending(npc, _, _, _) => FindSocial(s, npc).Some?
    case RitualCheckPending(id, _) =>
      (match FindRitual(s, id) case None => false case Some(i) => s.rituals[i].status.RitualReady?)
    case _ => false
  }

  lemma ContinuationGoes(t: GameState, ps: seq<PendingCheck>, p: PendingCheck, e: Event)
    requires ValidGameState(t) && t.pendingChecks == ps + [p] && p.continuation.None? && p.checkId !in CheckIds(ps)
    requires PlainPending(e, p.checkId) && MayContinue(t, e)
    ensures Apply(t, e).Done?
  {
    hide ValidGameState, Continue, IndexOf, CheckIds, ValidDisclosure;
    ContinuationApplies(t, ps, p, ContinuationOf(e));
    if e.RitualCheckPending? {
      RitualAwaits(t.(pendingChecks := ps + [p.(continuation := Some(ForRitual(e.ritualId)))]), e.ritualId);
    }
  }

  lemma RitualAwaits(t: GameState, id: Id)
    requires ValidGameState(t) && FindRitual(t, id).Some?
    requires At(t.rituals, FindRitual(t, id).Get()).status.RitualReady?
    ensures var i := FindRitual(t, id).Get();
            ValidGameState(WithRitual(t, i, At(t.rituals, i).(status := AwaitingResolution)))
  {
    hide ValidParty, ValidPendings, ValidCombat, ValidChallenges, ValidSocials, ValidScars, ValidDeaths, IndexOf,
         Distinct;
    var i := FindRitual(t, id).value;
    var r := t.rituals[i].(status := AwaitingResolution);
    assert ValidRitual(t.rituals[i]);
    assert RitualIds(t.rituals[i := r]) == RitualIds(t.rituals);
  }

  lemma SameMayContinue(s: GameState, t: GameState, e: Event)
    requires t.challenges == s.challenges && t.socials == s.socials && t.rituals == s.rituals
    ensures MayContinue(t, e) <==> MayContinue(s, e)
  {
    hide IndexOf;
  }

  /** A physical attempt of a challenge, social shift or ritual is applied if and only if its roll may be requested. */
  lemma WaitingExactly(s: GameState, facts: Facts, a: Attempt, events: seq<Event>, check: Id, e: Event)
    requires ValidGameState(s) && FreshCheck(s, facts) && ValidRequest(a.request)
    requires AttemptCheck(s, facts, a) == Waiting(events, check) && PlainPending(e, check) && MayContinue(s, e)
    ensures Fold(s, events + [e]).Done? <==> RequestsFit(s, events + [e])
  {
    hide ValidGameState, RequestsFit, MayRequest, SelectAttempt, ValidRequest, IndexOf, ValidDisclosure, Fold,
         CheckIds, Nonces, MayContinue, RequestEvents, Apply;
    var h := FindActor(s, a.request.actorId).value;
    var selected := SelectAttempt(a);
    AttemptSelected(a, selected.request, selected.disclosure, selected.sparkSpent);
    var t := AttemptRequested(s, h, selected.request, selected.disclosure, selected.sparkSpent,
      facts.pendingCheckId.value, facts.nonce.value);
    AttemptFits(s, selected.request, selected.disclosure, selected.sparkSpent, facts.pendingCheckId.value,
      facts.nonce.value, [e]);
    FoldAppend(s, events, [e]);
    if MayRequest(s, selected.disclosure) {
      FoldOne(t, e);
      SameMayContinue(s, t, e);
      ContinuationGoes(t, s.pendingChecks, PendingCheck(check, facts.nonce.value, selected.disclosure, None), e);
    }
  }

  // ----- Aid -----

  lemma AidedValid(d: Disclosure)
    requires ValidRequest(Rebuild(d)) && Aided(d).Done?
    ensures ValidDisclosure(Aided(d).Get())
  {
    hide ValidDisclosure, Honest;
    CreatedIsHonest(Rebuild(d).(edge := true), PermanentDeath);
  }

  lemma RedisclosedValid(ps: seq<PendingCheck>, i: nat, d: Disclosure)
    requires ValidPendings(ps) && i < |ps| && ValidDisclosure(d)
    ensures ValidPendings(Put(ps, i, At(ps, i).(disclosure := d)))
  {
    hide ValidDisclosure, ValidCandidate, Distinct;
    var qs := ps[i := ps[i].(disclosure := d)];
    assert CheckIds(qs) == CheckIds(ps) && Nonces(qs) == Nonces(ps);
    assert ValidPending(ps[i]);
  }

  lemma AidApplies(s: GameState, id: Id, d: Disclosure)
    requires ValidGameState(s) && FindPending(s, id).Some? && ValidDisclosure(d)
    ensures Apply(s, DeathTestAidApplied(id, d)).Done?
  {
    hide ValidGameState, ValidPendings, ValidDisclosure, ValidParty, ValidCombat, ValidChallenges, ValidSocials,
         ValidRituals, IndexOf;
    var i := FindPending(s, id).value;
    ValidParts(s);
    RedisclosedValid(s.pendingChecks, i, d);
    WithPendingsValid(s, Put(s.pendingChecks, i, s.pendingChecks[i].(disclosure := d)));
  }

  /** Accepted aid is always applied. */
  lemma AidAgrees(s: GameState, combatId: Id, checkId: Id, aiding: Id, resource: AidResource, es: seq<Event>)
    requires ValidGameState(s) && DecideAidDeathTest(s, combatId, checkId, aiding, resource) == Done(es)
    ensures Fold(s, es).Done?
  {
    hide ValidGameState, Apply, ValidRequest, Aided, ValidDisclosure, RangeBetween, IndexOf;
    var pending := s.pendingChecks[FindPending(s, checkId).value];
    var a := FindCharacter(s, aiding).value;
    var aided := DeathTestAidApplied(checkId, Aided(pending.disclosure).value);
    AidedValid(pending.disclosure);
    var u := s;
    if resource.AidSupply? {
      SupplyApplies(s, s.supply - DEATH_TEST_AID_COST);
    } else {
      ExertionApplies(s, a, s.characters[a].exertion - DEATH_TEST_AID_COST);
    }
    assert es == [es[0]] + [aided];
    FoldOne(s, es[0]);
    u := Apply(s, es[0]).value;
    AppliedIsValid(s, es[0], u);
    FoldAppend(s, [es[0]], [aided]);
    AidApplies(u, checkId, Aided(pending.disclosure).value);
    FoldOne(u, aided);
  }

  // ----- A new hero -----

  lemma DistinctJoined(ids: seq<Id>, id: Id)
    requires Distinct(ids) && id !in ids
    ensures Distinct(ids + [id])
  {}

  lemma PartyJoined(supply: int, cs: seq<Character>, c: Character)
    requires ValidParty(supply, |cs| + 2, cs) && |cs| < 5 && ValidCharacter(c)
    requires c.characterId !in CharacterIds(cs) && c.actorId !in ActorIds(cs)
    ensures ValidParty(supply, |cs| + 3, cs + [c])
    ensures forall id :: id in CharacterIds(cs) ==> id in CharacterIds(cs + [c])
  {
    hide ValidCharacter, Distinct;
    assert CharacterIds(cs + [c]) == CharacterIds(cs) + [c.characterId];
    assert ActorIds(cs + [c]) == ActorIds(cs) + [c.actorId];
    DistinctJoined(CharacterIds(cs), c.characterId);
    DistinctJoined(ActorIds(cs), c.actorId);
  }

  lemma JoiningApplies(s: GameState, c: Character)
    requires ValidGameState(s) && |s.characters| < 5 && ValidCharacter(c)
    requires c.characterId !in CharacterIds(s.characters) && c.actorId !in ActorIds(s.characters)
    ensures Apply(s, CharacterMaterialized(c)) ==
            Done(s.(characters := s.characters + [c], supplyMaximum := |s.characters| + 3))
  {
    hide ValidParty, ValidCharacter, ValidPendings, ValidCombat, ValidChallenges, ValidSocials, ValidRituals,
         ValidScars, StepCheck, StepTurn, StepHarm, StepScene, CharacterIds, ActorIds, Distinct;
    SupplyFollowsParty(s);
    PartyJoined(s.supply, s.characters, c);
  }

  lemma SupplyFollowsParty(s: GameState)
    requires ValidGameState(s)
    ensures ValidParty(s.supply, |s.characters| + 2, s.characters) && s.supplyMaximum == |s.characters| + 2
  {
    hide ValidGameState, ValidCharacter, Distinct;
    ValidParts(s);
  }

  lemma MaterializeAgrees(s: GameState, facts: Facts, f: Foundation, selections: seq<Option<Ref>>, es: seq<Event>)
    requires ValidGameState(s) && DecideMaterialize(s, facts, f, selections) == Done(es)
    ensures Fold(s, es).Done?
  {
    hide ValidGameState, ValidCharacter, Apply, WholeFoundation, OptionOf, Signatures, GuardGrants, ResolveGears,
         CharacterIds, ActorIds;
    JoiningApplies(s, es[0].character);
    FoldOne(s, es[0]);
  }

  // ----- Resources -----

  lemma MoveAgrees(s: GameState, h: nat, resource: Resource, delta: int, es: seq<Event>)
    requires ValidGameState(s) && h < |s.characters|
    requires MoveResource(s, At(s.characters, h), resource, delta) == Done(es)
    ensures Fold(s, es).Done?
  {
    hide ValidGameState, Apply;
    match resource
    case Supply =>
      SupplyApplies(s, s.supply + delta);
      FoldOne(s, es[0]);
    case Exertion =>
      ExertionApplies(s, h, s.characters[h].exertion + delta);
      FoldOne(s, es[0]);
    case Guard =>
      GuardApplies(s, h, s.characters[h].guard + delta);
      FoldOne(s, es[0]);
  }

  lemma SpendAgrees(s: GameState, id: Id, resource: Resource, amount: int, es: seq<Event>)
    requires ValidGameState(s) && DecideSpendResource(s, id, resource, amount) == Done(es)
    ensures Fold(s, es).Done?
  {
    hide ValidGameState, Fold, MoveResource;
    MoveAgrees(s, FindCharacter(s, id).value, resource, -amount, es);
  }

  lemma RecoverAgrees(s: GameState, facts: Facts, id: Id, resource: Resource, amount: int, source: Ref, es: seq<Event>)
    requires ValidGameState(s) && DecideRecoverResource(s, facts, id, resource, amount, source) == Done(es)
    ensures Fold(s, es).Done?
  {
    hide ValidGameState, Fold, MoveResource, EffectsOf, ByReference;
    MoveAgrees(s, FindCharacter(s, id).value, resource, amount, es);
  }

  lemma ProvisionAgrees(s: GameState, es: seq<Event>)
    requires ValidGameState(s) && DecideProvision(s) == Done(es)
    ensures Fold(s, es).Done?
  {
    hide ValidGameState, Apply;
    SupplyApplies(s, |s.characters|);
    FoldOne(s, es[0]);
  }

  lemma RecoverSparkAgrees(s: GameState, id: Id, es: seq<Event>)
    requires ValidGameState(s) && DecideRecoverSpark(s, id) == Done(es)
    ensures Fold(s, es).Done?
  {
    hide ValidGameState, IndexOf, GearMatchesNames, RatingsInRange, DistinctWounds, RankFeatures, Distinct, StepCheck,
         StepTurn, StepHarm, StepScene;
    var i := FindCharacter(s, id).value;
    HeroValid(s, i);
    WithCharacterValid(s, i, s.characters[i].(sparkAvailable := true, sparkRecovered := true));
    FoldOne(s, es[0]);
  }

  // ----- Rest and scenes -----

  /** The same heroes, all of them valid. */
  predicate StillParty(cs: seq<Character>, ds: seq<Character>) {
    && |ds| == |cs| && CharacterIds(ds) == CharacterIds(cs) && ActorIds(ds) == ActorIds(cs)
    && forall i :: 0 <= i < |ds| ==> ValidCharacter(ds[i])
  }

  lemma UsesReset(c: Character)
    ensures AbilityIds(ResetUses(c.sceneUses)) == AbilityIds(c.sceneUses)
  {}

  lemma RestedValid(c: Character)
    requires ValidCharacter(c)
    ensures ValidCharacter(Rested(c))
  {
    hide GearMatchesNames, RatingsInRange, DistinctWounds, RankFeatures, Distinct;
    UsesReset(c);
  }

  lemma SceneStartedValid(c: Character, boundary: Boundary)
    requires ValidCharacter(c)
    ensures ValidCharacter(SceneStarted(c, boundary))
  {
    hide GearMatchesNames, RatingsInRange, DistinctWounds, RankFeatures, Distinct, Rested;
    RestedValid(c);
    DroppedDistinct(c.conditions, UntilScene);
    RestedKeeps(c);
  }

  lemma RestedKeeps(c: Character)
    ensures Rested(c).conditions == c.conditions && Rested(c).characterId == c.characterId
            && Rested(c).actorId == c.actorId
  {}

  lemma OneStays(cs: seq<Character>, i: nat, c: Character)
    requires StillParty(cs, cs) && i < |cs| && ValidCharacter(c)
    requires c.characterId == cs[i].characterId && c.actorId == cs[i].actorId
    ensures StillParty(cs, cs[i := c]) && StillParty(cs[i := c], cs[i := c])
  {
    hide ValidCharacter;
    assert CharacterIds(cs[i := c]) == CharacterIds(cs) && ActorIds(cs[i := c]) == ActorIds(cs);
  }

  lemma {:induction false} RestGoes(cs: seq<Character>, ids: seq<Id>) returns (ds: seq<Character>)
    requires StillParty(cs, cs) && forall i :: 0 <= i < |ids| ==> ids[i] in CharacterIds(cs)
    ensures RestEach(cs, ids) == Done(ds) && StillParty(cs, ds)
    decreases |ids|
  {
    hide ValidCharacter, Rested, CharacterIds, ActorIds;
    ds := cs;
    if ids != [] {
      var i := IndexOf(CharacterIds(cs), ids[0]).value;
      RestedValid(cs[i]);
      RestedKeeps(cs[i]);
      OneStays(cs, i, Rested(cs[i]));
      ds := RestGoes(cs[i := Rested(cs[i])], ids[1..]);
    }
  }

  lemma {:induction false} SceneGoes(cs: seq<Character>, ids: seq<Id>, boundary: Boundary) returns (ds: seq<Character>)
    requires StillParty(cs, cs) && forall i :: 0 <= i < |ids| ==> ids[i] in CharacterIds(cs)
    ensures StartSceneEach(cs, ids, boundary) == Done(ds) && StillParty(cs, ds)
    decreases |ids|
  {
    hide ValidCharacter, Rested, CharacterIds, ActorIds, DropConditions;
    ds := cs;
    if ids != [] {
      var i := IndexOf(CharacterIds(cs), ids[0]).value;
      SceneStartedValid(cs[i], boundary);
      RestedKeeps(cs[i]);
      OneStays(cs, i, SceneStarted(cs[i], boundary));
      ds := SceneGoes(cs[i := SceneStarted(cs[i], boundary)], ids[1..], boundary);
    }
  }

  lemma PartyIsStill(s: GameState)
    requires ValidGameState(s)
    ensures StillParty(s.characters, s.characters)
  {
    hide ValidGameState, ValidCharacter, Distinct;
    ValidParts(s);
  }

  lemma StillValid(s: GameState, supply: int, ds: seq<Character>)
    requires ValidGameState(s) && StillParty(s.characters, ds) && 0 <= supply <= s.supplyMaximum
    ensures ValidGameState(s.(supply := supply, characters := ds))
  {
    hide ValidGameState, ValidCharacter, Distinct, CharacterIds, ActorIds;
    ValidParts(s);
    WithPartyValid(s, supply, ds);
  }

  lemma RestAgrees(s: GameState, ids: seq<Id>, es: seq<Event>)
    requires ValidGameState(s) && DecideCostlyRest(s, ids) == Done(es)
    ensures Fold(s, es).Done?
  {
    hide ValidGameState, StillParty, RestEach, CharacterIds, StepCheck, StepTurn, StepHarm, StepScene;
    PartyIsStill(s);
    var ds := RestGoes(s.characters, ids);
    StillValid(s, s.supply - COSTLY_REST_SUPPLY_COST, ds);
    FoldOne(s, es[0]);
  }

  lemma SessionValid(s: GameState, scene: Option<Id>, session: int)
    requires ValidGameState(s) && 0 <= session
    ensures ValidGameState(s.(sceneId := scene, sessionNumber := session))
  {
    hide ValidParty, ValidPendings, ValidCombatOption, ValidChallenges, ValidSocials, ValidRituals, ValidScars,
         ValidDeaths;
  }

  lemma SessionCounts(s: GameState)
    requires ValidGameState(s)
    ensures 0 <= s.sessionNumber
  {
    hide ValidParty, ValidPendings, ValidCombatOption, ValidChallenges, ValidSocials, ValidRituals, ValidScars,
         ValidDeaths;
  }

  lemma SceneAgrees(s: GameState, scene: Option<Id>, next: Id, boundary: Boundary, es: seq<Event>)
    requires ValidGameState(s) && DecideAdvanceScene(s, scene, next, boundary) == Done(es)
    ensures Fold(s, es).Done?
  {
    hide ValidGameState, StillParty, StartSceneEach, StepCheck, StepTurn, StepHarm, StepScene;
    PartyIsStill(s);
    SessionCounts(s);
    SupplyInBounds(s);
    var ds := SceneGoes(s.characters, CharacterIds(s.characters), boundary);
    StillValid(s, s.supply, ds);
    assert s.(supply := s.supply, characters := ds) == s.(characters := ds);
    SessionValid(s.(characters := ds), Some(next), s.sessionNumber + (if boundary.SessionStart? then 1 else 0));
    FoldOne(s, es[0]);
  }

  lemma SupplyInBounds(s: GameState)
    requires ValidGameState(s)
    ensures 0 <= s.supply <= s.supplyMaximum
  {
    hide ValidGameState, ValidCharacter, Distinct;
    ValidParts(s);
  }

  // ----- Ranks -----

  lemma AdvancedValid(c: Character, feature: Ref)
    requires ValidCharacter(c) && 2 <= c.rank + 1 <= 4
    ensures RankSlot(c.options, c.rank + 1).None?
    ensures ValidCharacter(c.(rank := c.rank + 1, options := WithFeature(c.options, c.rank + 1, feature)))
  {
    hide GearMatchesNames, RatingsInRange, DistinctWounds, Distinct;
  }

  lemma RankAgrees(s: GameState, facts: Facts, id: Id, expected: int, feature: Ref, es: seq<Event>)
    requires ValidGameState(s) && DecideAdvanceRank(s, facts, id, expected, feature) == Done(es)
    ensures Fold(s, es).Done?
  {
    hide ValidGameState, ValidCharacter, IndexOf, ByReference, OwnedRefs, PrerequisiteMet, WithFeature, RankSlot,
         StepCheck, StepTurn, StepHarm, StepScene;
    var i := FindCharacter(s, id).value;
    var c := s.characters[i];
    HeroValid(s, i);
    AdvancedValid(c, feature);
    FeatureKept(c.options, c.rank + 1, feature);
    WithCharacterValid(s, i, c.(rank := c.rank + 1, options := WithFeature(c.options, c.rank + 1, feature)));
    FoldOne(s, es[0]);
  }

  lemma FeatureKept(o: Options, rank: int, feature: Ref)
    ensures WithFeature(o, rank, feature).heritage == o.heritage
  {}

  // ----- Starting and leaving a fight -----

  lemma StartAgrees(s: GameState, facts: Facts, c: Combat, es: seq<Event>)
    requires ValidGameState(s) && DecideStartCombat(s, facts, c) == Done(es)
    ensures Fold(s, es).Done?
  {
    hide ValidGameState, ValidCombat, FreshParticipant, ParticipantMatches, ObjectiveMatches, OverlayMatches,
         StepCheck, StepHero, StepHarm, StepScene;
    WithCombatValid(s, c);
    FoldOne(s, es[0]);
  }

  lemma WithdrawAgrees(s: GameState, combatId: Id, es: seq<Event>)
    requires ValidGameState(s) && DecideWithdraw(s, combatId) == Done(es)
    ensures Fold(s, es).Done?
  {
    hide ValidGameState, Apply;
    ResolveApplies(s, HeroesWithdrew);
    FoldOne(s, es[0]);
  }
}
