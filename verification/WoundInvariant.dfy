/** Wounds, deaths and death tests agree, and every pending disclosure is honest, after every accepted command. */
module WoundInvariant {
  import opened Common
  import opened State
  import opened Validity
  import opened Events
  import opened Reducer
  import opened Checks
  import opened Undo
  import opened CombatDecisions
  import opened Vitals
  import opened Forms

  predicate Full(ws: seq<Wound>) {
    |ws| == 3 && ws[0].Filled? && ws[1].Filled? && ws[2].Filled?
  }

  /** Filled slots form a prefix. */
  predicate FilledPrefix(ws: seq<Wound>) {
    |ws| == 3 && (ws[1].Filled? ==> ws[0].Filled?) && (ws[2].Filled? ==> ws[1].Filled?)
  }

  /** The hero whose life a pending check decides. */
  function TestedHero(p: PendingCheck): Option<Id> {
    if p.continuation.Some? && p.continuation.value.DeathTest? then Some(p.continuation.value.characterId) else None
  }

  predicate Tested(ps: seq<PendingCheck>, hero: Id) {
    exists i :: 0 <= i < |ps| && TestedHero(ps[i]) == Some(hero)
  }

  predicate TestsDistinct(ps: seq<PendingCheck>) {
    forall i, j :: 0 <= i < j < |ps| && TestedHero(ps[i]).Some? ==> TestedHero(ps[i]) != TestedHero(ps[j])
  }

  predicate TestsOfLiving(ps: seq<PendingCheck>, ids: seq<Id>, deaths: seq<Id>) {
    forall i :: 0 <= i < |ps| && TestedHero(ps[i]).Some? ==>
      TestedHero(ps[i]).value in ids && TestedHero(ps[i]).value !in deaths
  }

  /** A hero has all three wounds exactly when it is permanently dead or its death test is pending. */
  predicate WoundsDecided(ids: seq<Id>, ws: seq<seq<Wound>>, deaths: seq<Id>, ps: seq<PendingCheck>)
    requires |ids| == |ws|
  {
    forall i :: 0 <= i < |ids| ==> FilledPrefix(ws[i]) && (Full(ws[i]) <==> ids[i] in deaths || Tested(ps, ids[i]))
  }

  predicate AllHonest(ps: seq<PendingCheck>) {
    forall i :: 0 <= i < |ps| ==> Honest(ps[i].disclosure)
  }

  predicate Sound(ids: seq<Id>, ws: seq<seq<Wound>>, deaths: seq<Id>, ps: seq<PendingCheck>) {
    && |ids| == |ws| && Distinct(ids)
    && WoundsDecided(ids, ws, deaths, ps)
    && TestsDistinct(ps) && TestsOfLiving(ps, ids, deaths) && AllHonest(ps)
  }

  predicate VitalsSound(s: GameState) {
    Sound(CharacterIds(s.characters), WoundsOf(s.characters), s.deaths, s.pendingChecks)
  }

  lemma SameVitalsSound(s: GameState, t: GameState)
    requires SameVitals(s, t)
    ensures VitalsSound(s) <==> VitalsSound(t)
  {
    hide Sound;
  }

  // ----- Lists of pending checks -----

  lemma RemovedTests(ps: seq<PendingCheck>, i: nat, hero: Id)
    requires i < |ps| && TestsDistinct(ps)
    ensures Tested(Removed(ps, i), hero) <==> Tested(ps, hero) && TestedHero(ps[i]) != Some(hero)
  {
    var qs := Removed(ps, i);
    if Tested(qs, hero) {
      var k :| 0 <= k < |qs| && TestedHero(qs[k]) == Some(hero);
      var j := if k < i then k else k + 1;
      assert qs[k] == ps[j];
    }
    if Tested(ps, hero) && TestedHero(ps[i]) != Some(hero) {
      var k :| 0 <= k < |ps| && TestedHero(ps[k]) == Some(hero);
      assert qs[if k < i then k else k - 1] == ps[k];
    }
  }

  lemma RemovedDistinct(ps: seq<PendingCheck>, i: nat)
    requires i < |ps| && TestsDistinct(ps)
    ensures TestsDistinct(Removed(ps, i))
  {
    var qs := Removed(ps, i);
    forall a, b | 0 <= a < b < |qs| && TestedHero(qs[a]).Some? ensures TestedHero(qs[a]) != TestedHero(qs[b]) {
      assert qs[a] == ps[if a < i then a else a + 1];
      assert qs[b] == ps[if b < i then b else b + 1];
    }
  }

  /** Removing a check that tests nobody. */
  lemma RemovePlain(ids: seq<Id>, ws: seq<seq<Wound>>, deaths: seq<Id>, ps: seq<PendingCheck>, i: nat)
    requires Sound(ids, ws, deaths, ps) && i < |ps| && TestedHero(ps[i]).None?
    ensures Sound(ids, ws, deaths, Removed(ps, i))
  {
    hide Honest, FilledPrefix, Full, TestedHero, Tested;
    RemovedDistinct(ps, i);
    forall k | 0 <= k < |ids| ensures FilledPrefix(ws[k]) && (Full(ws[k]) <==>
      ids[k] in deaths || Tested(Removed(ps, i), ids[k])) {
      RemovedTests(ps, i, ids[k]);
    }
  }

  /** A test that is over leaves the hero dead, or with its third wound cleared. */
  lemma RemoveTest(ids: seq<Id>, ws: seq<seq<Wound>>, deaths: seq<Id>, ps: seq<PendingCheck>, i: nat, h: nat)
    requires Sound(ids, ws, deaths, ps) && i < |ps| && h < |ids| && TestedHero(ps[i]) == Some(ids[h])
    ensures Sound(ids, ws, deaths + [ids[h]], Removed(ps, i))
    ensures Sound(ids, ws[h := ws[h][2 := Empty]], deaths, Removed(ps, i))
  {
    hide Honest, TestedHero, Tested, TestsDistinct;
    RemovedDistinct(ps, i);
    assert ids[h] !in deaths;
    TestIsUnique(ps, i);
    forall k | 0 <= k < |ids| ensures Tested(Removed(ps, i), ids[k]) <==> Tested(ps, ids[k]) && k != h {
      RemovedTests(ps, i, ids[k]);
      assert k != h ==> ids[Min(k, h)] != ids[Max(k, h)];
    }
    assert Tested(ps, ids[h]) by { TestedHere(ps, i); }
    RemovedTestsLive(ps, i, ids, deaths, ids[h]);
  }

  lemma TestedHere(ps: seq<PendingCheck>, i: nat)
    requires i < |ps| && TestedHero(ps[i]).Some?
    ensures Tested(ps, TestedHero(ps[i]).value)
  {}

  lemma TestIsUnique(ps: seq<PendingCheck>, i: nat)
    requires i < |ps| && TestsDistinct(ps) && TestedHero(ps[i]).Some?
    ensures forall j :: 0 <= j < |ps| && TestedHero(ps[j]) == TestedHero(ps[i]) ==> j == i
  {}

  lemma RemovedTestsLive(ps: seq<PendingCheck>, i: nat, ids: seq<Id>, deaths: seq<Id>, hero: Id)
    requires i < |ps| && TestsOfLiving(ps, ids, deaths) && TestedHero(ps[i]) == Some(hero)
    requires forall j :: 0 <= j < |ps| && TestedHero(ps[j]) == TestedHero(ps[i]) ==> j == i
    ensures TestsOfLiving(Removed(ps, i), ids, deaths)
    ensures TestsOfLiving(Removed(ps, i), ids, deaths + [hero])
  {
    var qs := Removed(ps, i);
    forall k | 0 <= k < |qs| && TestedHero(qs[k]).Some?
      ensures TestedHero(qs[k]).value in ids && TestedHero(qs[k]).value !in deaths && TestedHero(qs[k]).value != hero {
      var j := if k < i then k else k + 1;
      assert qs[k] == ps[j];
    }
  }

  lemma AppendedTests(ps: seq<PendingCheck>, p: PendingCheck, hero: Id)
    ensures Tested(ps + [p], hero) <==> Tested(ps, hero) || TestedHero(p) == Some(hero)
  {
    var qs := ps + [p];
    assert qs[|ps|] == p;
    if Tested(ps, hero) {
      var i :| 0 <= i < |ps| && TestedHero(ps[i]) == Some(hero);
      assert qs[i] == ps[i];
    }
  }

  lemma AppendedDistinct(ps: seq<PendingCheck>, p: PendingCheck)
    requires TestsDistinct(ps) && (TestedHero(p).Some? ==> !Tested(ps, TestedHero(p).value))
    ensures TestsDistinct(ps + [p])
  {}

  /** A new check that tests nobody. */
  lemma AppendPlain(ids: seq<Id>, ws: seq<seq<Wound>>, deaths: seq<Id>, ps: seq<PendingCheck>, p: PendingCheck)
    requires Sound(ids, ws, deaths, ps) && TestedHero(p).None? && Honest(p.disclosure)
    ensures Sound(ids, ws, deaths, ps + [p])
  {
    hide Honest, FilledPrefix, Full, TestedHero, Tested, TestsDistinct;
    AppendedDistinct(ps, p);
    forall k | 0 <= k < |ids| ensures Tested(ps + [p], ids[k]) <==> Tested(ps, ids[k]) {
      AppendedTests(ps, p, ids[k]);
    }
  }

  /** A wound in slot `k`; the third one comes with the death test that decides it. */
  lemma MarkPlain(ids: seq<Id>, ws: seq<seq<Wound>>, deaths: seq<Id>, ps: seq<PendingCheck>, h: nat, k: nat,
      wound: Wound)
    requires Sound(ids, ws, deaths, ps) && h < |ids| && k < 2 && EmptySlot(ws[h]) == Some(k) && wound.Filled?
    ensures Sound(ids, ws[h := ws[h][k := wound]], deaths, ps)
  {
    hide Honest, TestedHero, Tested, TestsDistinct, TestsOfLiving;
    assert FilledPrefix(ws[h]);
    assert ws[h][2].Empty?;
  }

  lemma MarkThird(ids: seq<Id>, ws: seq<seq<Wound>>, deaths: seq<Id>, ps: seq<PendingCheck>, h: nat, wound: Wound,
      p: PendingCheck)
    requires Sound(ids, ws, deaths, ps) && h < |ids| && EmptySlot(ws[h]) == Some(2) && wound.Filled?
    requires TestedHero(p) == Some(ids[h]) && Honest(p.disclosure)
    ensures Sound(ids, ws[h := ws[h][2 := wound]], deaths, ps + [p])
  {
    hide Honest, TestedHero, Tested, TestsDistinct;
    assert FilledPrefix(ws[h]) && !Full(ws[h]);
    AppendedDistinct(ps, p);
    forall k | 0 <= k < |ids| ensures Tested(ps + [p], ids[k]) <==> Tested(ps, ids[k]) || k == h {
      AppendedTests(ps, p, ids[k]);
      assert k != h ==> ids[Min(k, h)] != ids[Max(k, h)];
    }
  }

  lemma AddHero(ids: seq<Id>, ws: seq<seq<Wound>>, deaths: seq<Id>, ps: seq<PendingCheck>, id: Id)
    requires Sound(ids, ws, deaths, ps) && id !in ids && id !in deaths
    ensures Sound(ids + [id], ws + [[Empty, Empty, Empty]], deaths, ps)
  {
    hide Honest, TestedHero, TestsDistinct;
    DistinctAppend(ids, id);
    forall i | 0 <= i < |ps| ensures TestedHero(ps[i]) != Some(id) {}
  }

  lemma ReplaceDisclosure(ids: seq<Id>, ws: seq<seq<Wound>>, deaths: seq<Id>, ps: seq<PendingCheck>, i: nat,
      d: Disclosure)
    requires Sound(ids, ws, deaths, ps) && i < |ps| && Honest(d)
    ensures Sound(ids, ws, deaths, ps[i := ps[i].(disclosure := d)])
  {
    hide Honest, FilledPrefix, Full;
    var qs := ps[i := ps[i].(disclosure := d)];
    assert forall j :: 0 <= j < |ps| ==> TestedHero(qs[j]) == TestedHero(ps[j]);
    forall k | 0 <= k < |ids| ensures Tested(qs, ids[k]) <==> Tested(ps, ids[k]) {
      SameTests(ps, qs, ids[k]);
    }
  }

  lemma SameTests(ps: seq<PendingCheck>, qs: seq<PendingCheck>, hero: Id)
    requires |ps| == |qs| && forall j :: 0 <= j < |ps| ==> TestedHero(qs[j]) == TestedHero(ps[j])
    ensures Tested(qs, hero) <==> Tested(ps, hero)
  {}

  // ----- Transactions -----

  /** The vitals of `b` are those of `s` once the resolved check is gone. */
  predicate AfterCheck(s: GameState, check: seq<Event>, b: GameState) {
    && CharacterIds(b.characters) == CharacterIds(s.characters)
    && WoundsOf(b.characters) == WoundsOf(s.characters)
    && b.deaths == s.deaths
    && b.pendingChecks == match Resolving(s, check)
                          case None => s.pendingChecks
                          case Some(i) => Removed(s.pendingChecks, i)
  }

  lemma CheckStage(s: GameState, check: seq<Event>, a: GameState)
    requires ValidGameState(s) && CheckPart(s, check) && Fold(s, check) == Done(a)
    ensures AfterCheck(s, check, a)
  {
    hide ValidCombatOption, ValidParty, ValidGameState, Removed, Apply, FindPending, CheckIds, CharacterIds;
    if check != [] {
      assert check == [check[0]];
      FoldOne(s, check[0]);
      var i := FindPending(s, check[0].checkId).value;
      PendingsDistinct(s);
      WithoutIsRemoved(s.pendingChecks, i);
      ResolvedVitals(s, check[0].checkId, check[0].result, a);
    }
  }

  lemma PendingsDistinct(s: GameState)
    requires ValidGameState(s)
    ensures Distinct(CheckIds(s.pendingChecks))
    ensures Distinct(CharacterIds(s.characters))
    ensures forall i :: 0 <= i < |s.deaths| ==> s.deaths[i] in CharacterIds(s.characters)
  {
    hide ValidCombatOption, ValidPending, ValidCharacter, ValidChallenges, ValidSocials, ValidRituals, CheckIds,
         CharacterIds, Distinct;
  }

  lemma ResolvedVitals(s: GameState, id: Id, result: CheckResult, a: GameState)
    requires Apply(s, CheckResolvedPhysical(id, result)) == Done(a)
    ensures a.characters == s.characters && a.deaths == s.deaths
            && a.pendingChecks == WithoutCheck(s.pendingChecks, id)
  {
    hide ValidGameState, ReleaseAction, ReleaseDeath, WithoutCheck;
  }

  lemma WoundsUpdated(s: GameState, i: nat, wounds: seq<Wound>)
    requires i < |s.characters|
    ensures var t := WithCharacter(s, i, s.characters[i].(wounds := wounds));
            CharacterIds(t.characters) == CharacterIds(s.characters)
              && WoundsOf(t.characters) == WoundsOf(s.characters)[i := wounds]
  {
    hide CharacterIds, WoundsOf;
  }

  lemma HarmStep(s: GameState, e: Event, id: Id, wounds: seq<Wound>, t: GameState) returns (h: nat)
    requires e == WoundMarked(id, wounds) || e == HeroStabilized(id, wounds)
    requires Apply(s, e) == Done(t)
    ensures FindCharacter(s, id) == Some(h)
    ensures CharacterIds(t.characters) == CharacterIds(s.characters)
    ensures WoundsOf(t.characters) == Put(WoundsOf(s.characters), h, wounds)
    ensures t.deaths == s.deaths && t.pendingChecks == s.pendingChecks
  {
    hide Apply, ValidGameState, StepHarm, WoundsOf, CharacterIds, Put;
    HarmIsApplied(s, e, t);
    if e.WoundMarked? {
      h := WoundStep(s, id, wounds, t);
    } else {
      h := StableStep(s, id, wounds, t);
    }
  }

  lemma HarmIsApplied(s: GameState, e: Event, t: GameState)
    requires (e.WoundMarked? || e.HeroStabilized?) && Apply(s, e) == Done(t)
    ensures StepHarm(s, e) == Done(t)
  {
    hide ValidGameState, StepCheck, StepHero, StepTurn, StepScene, StepHarm;
  }

  lemma WoundStep(s: GameState, id: Id, wounds: seq<Wound>, t: GameState) returns (h: nat)
    requires StepHarm(s, WoundMarked(id, wounds)) == Done(t)
    ensures FindCharacter(s, id) == Some(h)
    ensures CharacterIds(t.characters) == CharacterIds(s.characters)
    ensures WoundsOf(t.characters) == Put(WoundsOf(s.characters), h, wounds)
    ensures t.deaths == s.deaths && t.pendingChecks == s.pendingChecks
  {
    hide FillsOneSlot, IndexOf, WoundsOf, CharacterIds;
    h := FindCharacter(s, id).value;
    WoundsUpdated(s, h, wounds);
  }

  lemma StableStep(s: GameState, id: Id, wounds: seq<Wound>, t: GameState) returns (h: nat)
    requires StepHarm(s, HeroStabilized(id, wounds)) == Done(t)
    ensures FindCharacter(s, id) == Some(h)
    ensures CharacterIds(t.characters) == CharacterIds(s.characters)
    ensures WoundsOf(t.characters) == Put(WoundsOf(s.characters), h, wounds)
    ensures t.deaths == s.deaths && t.pendingChecks == s.pendingChecks
  {
    hide IndexOf, WoundsOf, CharacterIds;
    h := FindCharacter(s, id).value;
    WoundsUpdated(s, h, wounds);
  }

  lemma DeathStep(s: GameState, id: Id, t: GameState)
    requires Apply(s, CharacterDied(id)) == Done(t)
    ensures t.characters == s.characters && t.pendingChecks == s.pendingChecks && t.deaths == s.deaths + [id]
  {
    hide ValidGameState;
  }

  lemma RequestStep(s: GameState, id: Id, nonce: Id, d: Disclosure, t: GameState)
    requires Apply(s, PhysicalRollRequested(id, nonce, d)) == Done(t)
    ensures t.characters == s.characters && t.deaths == s.deaths && id !in CheckIds(s.pendingChecks)
    ensures t.pendingChecks == s.pendingChecks + [PendingCheck(id, nonce, d, None)]
  {
    hide ValidGameState, CheckIds;
  }

  lemma PendingStep(s: GameState, e: Event, ps: seq<PendingCheck>, p: PendingCheck, t: GameState)
    requires PendingFor(e, p.checkId) && StepCheck(s, e) == Done(t)
    requires s.pendingChecks == ps + [p] && p.checkId !in CheckIds(ps) && p.continuation.None?
    ensures t.characters == s.characters && t.deaths == s.deaths
    ensures t.pendingChecks == ps + [p.(continuation := Some(ContinuationOf(e)))]
  {
    hide Continue, FindRitual, FindChallenge, FindSocial, IndexOf, CheckIds, ReopenRitual;
    ContinueLast(s, ps, p, ContinuationOf(e));
  }

  lemma AidStep(s: GameState, id: Id, d: Disclosure, t: GameState) returns (i: nat)
    requires Apply(s, DeathTestAidApplied(id, d)) == Done(t)
    ensures FindPending(s, id) == Some(i)
    ensures t.characters == s.characters && t.deaths == s.deaths
    ensures t.pendingChecks == Put(s.pendingChecks, i, At(s.pendingChecks, i).(disclosure := d))
  {
    hide ValidGameState, FindPending;
    i := FindPending(s, id).value;
  }

  lemma MaterializeStep(s: GameState, c: Character, t: GameState)
    requires Apply(s, CharacterMaterialized(c)) == Done(t)
    ensures c.characterId !in CharacterIds(s.characters)
    ensures CharacterIds(t.characters) == CharacterIds(s.characters) + [c.characterId]
    ensures WoundsOf(t.characters) == WoundsOf(s.characters) + [c.wounds]
    ensures t.deaths == s.deaths && t.pendingChecks == s.pendingChecks
  {
    hide ValidGameState, CharacterIds, WoundsOf;
  }

  /** No death test decided: the resolved check, if any, tested nobody. */
  lemma NoSubjectSound(s: GameState, check: seq<Event>, b: GameState)
    requires VitalsSound(s) && CheckPart(s, check) && Subject(s, check).None? && AfterCheck(s, check, b)
    ensures VitalsSound(b)
  {
    hide Sound, Removed, IndexOf, FindPending, CharacterIds, WoundsOf;
    if check != [] {
      var i := FindPending(s, check[0].checkId).value;
      RemovePlain(CharacterIds(s.characters), WoundsOf(s.characters), s.deaths, s.pendingChecks, i);
    }
  }

  lemma RollKeepsSound(b: GameState, core: seq<Event>, d: GameState)
    requires VitalsSound(b) && RollCore(core) && Fold(b, core) == Done(d)
    ensures VitalsSound(d)
  {
    hide Sound, Apply, Honest, ContinuationOf, ValidGameState, StepCheck, GroupOf, CheckIds;
    var e := core[0];
    var u := Apply(b, e).value;
    assert Fold(b, core) == Fold(u, core[1..]);
    RequestStep(b, e.checkId, e.nonce, e.disclosure, u);
    var p := PendingCheck(e.checkId, e.nonce, e.disclosure, None);
    if |core| == 2 {
      assert core[1..] == [core[1]];
      FoldOne(u, core[1]);
      PendingApplied(u, core[1], e.checkId, d);
      PendingStep(u, core[1], b.pendingChecks, p, d);
      p := p.(continuation := Some(ContinuationOf(core[1])));
      PlainPendingTestsNobody(core[1], e.checkId);
    } else {
      assert core[1..] == [];
    }
    AppendPlain(CharacterIds(b.characters), WoundsOf(b.characters), b.deaths, b.pendingChecks, p);
  }

  lemma PlainPendingTestsNobody(e: Event, id: Id)
    requires PlainPending(e, id)
    ensures PendingFor(e, id) && !ContinuationOf(e).DeathTest?
  {}

  lemma TestsAfterWound(core: seq<Event>)
    requires TestsDeath(core)
    ensures |core| == 3
  {
    hide Honest;
  }

  lemma ThirdWoundKeepsSound(s: GameState, b: GameState, core: seq<Event>, d: GameState)
    requires VitalsSound(b) && TestsDeath(core) && Fold(b, core) == Done(d)
    requires CharacterIds(b.characters) == CharacterIds(s.characters)
             && WoundsOf(b.characters) == WoundsOf(s.characters)
    requires Marks(s, At(core, 0).characterId, At(core, 0).wounds, 2)
    ensures VitalsSound(d)
  {
    hide Sound, Apply, Honest, ContinuationOf, IndexOf, EmptySlot, ValidGameState, StepCheck, GroupOf;
    var h := FindCharacter(s, core[0].characterId).value;
    assert WoundsOf(s.characters)[h] == s.characters[h].wounds;
    var u := Apply(b, core[0]).value;
    assert Fold(b, core) == Fold(u, core[1..]);
    var k := HarmStep(b, core[0], core[0].characterId, core[0].wounds, u);
    var v := Apply(u, core[1]).value;
    assert core[1..][0] == core[1] && core[1..][1..] == [core[2]];
    assert Fold(u, core[1..]) == Fold(v, [core[2]]);
    RequestStep(u, core[1].checkId, core[1].nonce, core[1].disclosure, v);
    FoldOne(v, core[2]);
    PendingApplied(v, core[2], core[1].checkId, d);
    var p := PendingCheck(core[1].checkId, core[1].nonce, core[1].disclosure, None);
    PendingStep(v, core[2], u.pendingChecks, p, d);
    p := p.(continuation := Some(ContinuationOf(core[2])));
    DeathContinuation(core[2]);
    MarkThird(CharacterIds(b.characters), WoundsOf(b.characters), b.deaths, b.pendingChecks, h, core[0].wounds[2], p);
  }

  lemma DeathContinuation(e: Event)
    requires e.DeathTestPending?
    ensures ContinuationOf(e) == DeathTest(e.combatId, e.characterId)
  {}

  lemma WoundKeepsSound(s: GameState, b: GameState, id: Id, wounds: seq<Wound>, k: nat, d: GameState)
    requires VitalsSound(b) && Apply(b, WoundMarked(id, wounds)) == Done(d) && k < 2
    requires CharacterIds(b.characters) == CharacterIds(s.characters)
             && WoundsOf(b.characters) == WoundsOf(s.characters)
    requires Marks(s, id, wounds, k)
    ensures VitalsSound(d)
  {
    hide Sound, Apply, IndexOf, EmptySlot, CharacterIds, WoundsOf;
    var h := FindCharacter(s, id).value;
    assert WoundsOf(s.characters)[h] == s.characters[h].wounds;
    var j := HarmStep(b, WoundMarked(id, wounds), id, wounds, d);
    MarkPlain(CharacterIds(b.characters), WoundsOf(b.characters), b.deaths, b.pendingChecks, h, k, wounds[k]);
  }

  /** The hero of the resolved death test dies, or loses its third wound. */
  lemma DecidedKeepsSound(s: GameState, check: seq<Event>, b: GameState, e: Event, hero: Id, d: GameState)
    requires VitalsSound(s) && CheckPart(s, check) && AfterCheck(s, check, b) && Apply(b, e) == Done(d)
    requires e == CharacterDied(hero)
             || exists wounds :: e == HeroStabilized(hero, wounds) && ClearsThirdWound(s, hero, wounds)
    requires Subject(s, check) == Some(hero)
    ensures VitalsSound(d)
  {
    hide Apply, IndexOf, Removed, WoundsDecided, TestsDistinct, AllHonest, CheckPart, FindPending;
    var ids, ws := CharacterIds(s.characters), WoundsOf(s.characters);
    var i := FindPending(s, check[0].checkId).value;
    assert TestedHero(s.pendingChecks[i]) == Some(hero);
    assert hero in ids;
    var h := IndexOf(ids, hero).value;
    WoundsShaped(s, h);
    RemoveTest(ids, ws, s.deaths, s.pendingChecks, i, h);
    if e.CharacterDied? {
      DeathStep(b, hero, d);
    } else {
      var j := HarmStep(b, e, hero, e.wounds, d);
    }
  }

  lemma WoundsShaped(s: GameState, h: nat)
    requires VitalsSound(s) && h < |s.characters|
    ensures |WoundsOf(s.characters)[h]| == 3
  {
    hide WoundsOf;
    assert FilledPrefix(WoundsOf(s.characters)[h]);
  }

  lemma CoreKeepsSound(s: GameState, check: seq<Event>, kind: Core, core: seq<Event>, b: GameState, d: GameState)
    requires ValidGameState(s) && VitalsSound(s) && CheckPart(s, check) && CorePart(s, check, kind, core)
    requires AfterCheck(s, check, b) && Fold(b, core) == Done(d)
    ensures VitalsSound(d)
  {
    hide Sound, Apply, RollCore, TestsDeath, Marks, ValidGameState, AfterCheck, Honest, Subject, ClearsThirdWound,
         CheckPart, FindPending, CheckIds;
    if kind.Stabilizing? || kind.Dying? {
      assert core == [core[0]];
      FoldOne(b, core[0]);
      DecidedKeepsSound(s, check, b, core[0], core[0].characterId, d);
    } else {
      NothingTested(s, check, kind, core);
      NoSubjectSound(s, check, b);
      AfterCheckSame(s, check, b);
      match kind
      case NoCore => assert d == b;
      case Roll => RollKeepsSound(b, core, d);
      case NewHero =>
        assert core == [core[0]];
        FoldOne(b, core[0]);
        MaterializeStep(b, core[0].character, d);
        PendingsDistinct(s);
        AddHero(CharacterIds(b.characters), WoundsOf(b.characters), b.deaths, b.pendingChecks,
          core[0].character.characterId);
      case Wounding =>
        assert core == [core[0]];
        FoldOne(b, core[0]);
        var k :| 0 <= k < 2 && Marks(s, core[0].characterId, core[0].wounds, k);
        WoundKeepsSound(s, b, core[0].characterId, core[0].wounds, k, d);
      case ThirdWound =>
        TestsAfterWound(core);
        ThirdWoundKeepsSound(s, b, core, d);
      case Aid =>
        assert core == [core[0]];
        FoldOne(b, core[0]);
        var i := AidStep(b, core[0].checkId, core[0].disclosure, d);
        ReplaceDisclosure(CharacterIds(b.characters), WoundsOf(b.characters), b.deaths, b.pendingChecks, i,
          core[0].disclosure);
    }
  }

  lemma NothingTested(s: GameState, check: seq<Event>, kind: Core, core: seq<Event>)
    requires CheckPart(s, check) && CorePart(s, check, kind, core) && !kind.Stabilizing? && !kind.Dying?
    ensures Subject(s, check).None?
  {
    hide RollCore, TestsDeath, Marks, Honest, CheckPart;
  }

  lemma AfterCheckSame(s: GameState, check: seq<Event>, b: GameState)
    requires CheckPart(s, check) && AfterCheck(s, check, b)
    ensures CharacterIds(b.characters) == CharacterIds(s.characters)
            && WoundsOf(b.characters) == WoundsOf(s.characters) && b.deaths == s.deaths
  {
    hide CheckPart, CharacterIds, WoundsOf;
  }

  /** A transaction of one of the eight forms keeps wounds, deaths, death tests and disclosures in agreement. */
  lemma FormKeepsSound(s: GameState, es: seq<Event>, parts: Parts, t: GameState)
    requires ValidGameState(s) && VitalsSound(s) && Form(s, es, parts) && Fold(s, es) == Done(t)
    ensures VitalsSound(t)
  {
    hide Apply, VitalsSound, AllHarmless, CorePart, ReactionCloses, ValidGameState, CheckPart, AfterCheck, SameVitals,
         Fold;
    FoldAppend(s, parts.check + parts.pre + parts.core, parts.post);
    FoldAppend(s, parts.check + parts.pre, parts.core);
    FoldAppend(s, parts.check, parts.pre);
    var a := Fold(s, parts.check).value;
    var b := Fold(a, parts.pre).value;
    var d := Fold(b, parts.core).value;
    CheckStage(s, parts.check, a);
    HarmlessRunKeepsVitals(a, parts.pre, b);
    SameAfterCheck(s, parts.check, a, b);
    CoreKeepsSound(s, parts.check, parts.kind, parts.core, b, d);
    HarmlessRunKeepsVitals(d, parts.post, t);
    SameVitalsSound(d, t);
  }

  lemma SameAfterCheck(s: GameState, check: seq<Event>, a: GameState, b: GameState)
    requires CheckPart(s, check) && AfterCheck(s, check, a) && SameVitals(a, b)
    ensures AfterCheck(s, check, b)
  {
    hide CheckPart;
  }
}
