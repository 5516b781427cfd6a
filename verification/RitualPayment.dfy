/** Paying for a ritual: one contribution, exactly, and when a started ritual can be paid off. */
module RitualPayment {
  import opened Common
  import opened State
  import opened Validity
  import opened Events
  import opened Reducer
  import opened Compensation
  import opened Undo
  import opened Subsystems
  import opened Applies
  import opened Content
  import opened CatalogRules

  // ----- The state after a contribution -----

  /** A ritual being prepared, with a cost still to pay. */
  predicate Underway(s: GameState, j: nat) {
    && j < |s.rituals| && s.rituals[j].status.Preparing? && 0 <= s.rituals[j].paid < |s.rituals[j].costs|
    && FindRitual(s, s.rituals[j].ritualId) == Some(j)
  }

  /** The hero has contributed before, or is one of the first five to do so. */
  predicate MayJoin(r: Ritual, id: Id) {
    id in r.contributors || |r.contributors| < 5
  }

  predicate CanPay(s: GameState, h: nat, cost: Cost) {
    && h < |s.characters|
    && match cost
       case SupplyCost(amount) => amount <= s.supply
       case ExertionCost(amount) => amount <= s.characters[h].exertion
       case GearCost(definition) => Ready(definition) in s.characters[h].gear
  }

  /** The cost taken from the party or from the one hero that pays. */
  function PaidBy(s: GameState, h: nat, cost: Cost): GameState {
    if h >= |s.characters| then s
    else
      var c := s.characters[h];
      match cost
      case SupplyCost(amount) => s.(supply := s.supply - amount)
      case ExertionCost(amount) => WithCharacter(s, h, c.(exertion := c.exertion - amount))
      case GearCost(definition) =>
        match ReadySlot(c.gear, definition)
        case None => s
        case Some(k) => WithCharacter(s, h, c.(gear := c.gear[k := Gear.Spent(definition)]))
  }

  /** The ritual once a contribution is recorded, ready when it was the last one. */
  function AfterContribution(r: Ritual, id: Id): Ritual {
    var paid := Contributed(r, id);
    if paid.paid == |paid.costs| then paid.(status := RitualReady) else paid
  }

  function Recorded(s: GameState, j: nat, h: nat): GameState {
    if !Underway(s, j) || h >= |s.characters| then s
    else
      PaidBy(s, h, s.rituals[j].costs[s.rituals[j].paid])
      .(rituals := s.rituals[j := AfterContribution(s.rituals[j], s.characters[h].characterId)])
  }

  // ----- Recording -----

  lemma ContributedValid(r: Ritual, id: Id)
    requires ValidRitual(r) && r.status.Preparing? && r.paid < |r.costs|
    ensures ValidRitual(Contributed(r, id)) <==> MayJoin(r, id)
    ensures MayJoin(r, id) ==> ValidRitual(AfterContribution(r, id))
  {
    hide ValidCost;
    if id !in r.contributors {
      DistinctAppend(r.contributors, id);
    }
  }

  lemma RitualAt(rs: seq<Ritual>, i: nat)
    requires ValidRituals(rs) && i < |rs|
    ensures ValidRitual(rs[i])
  {
    hide ValidRitual, Distinct;
  }

  lemma RitualsMustBeValid(t: GameState, j: nat)
    requires j < |t.rituals| && !ValidRitual(At(t.rituals, j))
    ensures !ValidGameState(t)
  {
    hide ValidParty, ValidPendings, ValidCombatOption, ValidChallenges, ValidSocials, ValidRitual, ValidScars,
         ValidDeaths, Distinct;
  }

  lemma ContributedKeepsId(r: Ritual, id: Id)
    ensures Contributed(r, id).ritualId == r.ritualId && Contributed(r, id).costs == r.costs
            && Contributed(r, id).paid == r.paid + 1
    ensures Contributed(r, id).status == r.status
  {}

  /** The contribution is applied exactly when the hero may join. */
  lemma ContributionApplies(s: GameState, j: nat, h: nat)
    requires ValidGameState(s) && Underway(s, j) && h < |s.characters|
    ensures var id := At(s.characters, h).characterId;
            Apply(s, RitualContribution(At(s.rituals, j).ritualId, id, At(s.rituals, j).paid)) ==
            if MayJoin(At(s.rituals, j), id) then Done(WithRitual(s, j, Contributed(At(s.rituals, j), id))) else Refused
  {
    hide ValidGameState, IndexOf, ValidRitual, ValidRituals, ValidCharacter, Contributed, MayJoin, ValidCombat,
         ValidPendings, ValidChallenges, FindCharacter;
    ValidParts(s);
    var id := s.characters[h].characterId;
    HeroValid(s, h);
    RitualAt(s.rituals, j);
    ContributedValid(s.rituals[j], id);
    ContributedKeepsId(s.rituals[j], id);
    if MayJoin(s.rituals[j], id) {
      RitualReplaced(s.rituals, j, Contributed(s.rituals[j], id));
      WithRitualsValid(s, s.rituals[j := Contributed(s.rituals[j], id)]);
    } else {
      RitualsMustBeValid(WithRitual(s, j, Contributed(s.rituals[j], id)), j);
    }
  }

  lemma ReadyApplies(s: GameState, j: nat)
    requires ValidGameState(s) && j < |s.rituals| && FindRitual(s, At(s.rituals, j).ritualId) == Some(j)
    requires At(s.rituals, j).status.Preparing? && At(s.rituals, j).paid == |At(s.rituals, j).costs|
    ensures Apply(s, BecameReady(At(s.rituals, j).ritualId)) ==
            Done(WithRitual(s, j, At(s.rituals, j).(status := RitualReady)))
  {
    hide ValidGameState, IndexOf, Distinct, ValidCost, ValidParty, ValidPendings, FindRitual;
    ValidParts(s);
    assert ValidRitual(s.rituals[j]);
    RitualReplaced(s.rituals, j, s.rituals[j].(status := RitualReady));
    WithRitualsValid(s, s.rituals[j := s.rituals[j].(status := RitualReady)]);
  }

  /** The recording of a payment already made: the contribution, and readiness with the last one. */
  lemma PaidApplies(s: GameState, j: nat, h: nat)
    requires ValidGameState(s) && Underway(s, j) && h < |s.characters|
    ensures var id := At(s.characters, h).characterId;
            Fold(s, Paid(At(s.rituals, j), id)) ==
            if MayJoin(At(s.rituals, j), id) then Done(WithRitual(s, j, AfterContribution(At(s.rituals, j), id)))
                else Refused
  {
    hide ValidGameState, Apply, IndexOf, Contributed, MayJoin, RitualIds;
    var r, id := s.rituals[j], s.characters[h].characterId;
    var contribution := RitualContribution(r.ritualId, id, r.paid);
    ContributionApplies(s, j, h);
    ContributedKeepsId(r, id);
    FoldOne(s, contribution);
    if !MayJoin(r, id) {
      assert Paid(r, id)[0] == contribution;
    } else if r.paid + 1 == |r.costs| {
      var t := WithRitual(s, j, Contributed(r, id));
      FoldKeepsValid(s, [contribution], t);
      SameRitualIds(s.rituals, j, Contributed(r, id));
      ReadyApplies(t, j);
      FoldOne(t, BecameReady(r.ritualId));
      FoldAppend(s, [contribution], [BecameReady(r.ritualId)]);
      assert t.rituals[j := t.rituals[j].(status := RitualReady)] == s.rituals[j := AfterContribution(r, id)];
    } else {
      assert [contribution] + [] == [contribution];
    }
  }

  // ----- Paying -----

  lemma GearApplies(s: GameState, j: nat, h: nat, k: nat, slot: nat, definition: Ref)
    requires ValidGameState(s) && Underway(s, j) && h < |s.characters| && slot == k + 1
             && NextCost(At(s.rituals, j)) == Some(GearCost(definition))
    requires k < |At(s.characters, h).gear| && At(At(s.characters, h).gear, k) == Ready(definition)
    ensures var c := At(s.characters, h);
            Apply(s, SignificantGearSpent(c.characterId, slot, definition, At(s.rituals, j).ritualId)) ==
            Done(WithCharacter(s, h, c.(gear := Put(c.gear, k, Gear.Spent(definition)))))
  {
    hide ValidGameState, IndexOf, RatingsInRange, DistinctWounds, RankFeatures, Distinct, FindCharacter, FindActor,
         WithCharacter, NextCost;
    HeroValid(s, h);
    WithCharacterValid(s, h, s.characters[h].(gear := s.characters[h].gear[k := Gear.Spent(definition)]));
  }

  lemma PayersMeans(s: GameState, h: nat)
    requires ValidGameState(s) && h < |s.characters|
    ensures 0 <= s.supply <= s.supplyMaximum && 0 <= At(s.characters, h).exertion <= EXERTION_MAXIMUM
  {
    hide ValidGameState, Distinct, GearMatchesNames, RatingsInRange, DistinctWounds, RankFeatures, IndexOf,
         ValidCombat, ValidPendings, ValidChallenges, ValidRituals, FindCharacter;
    ValidParts(s);
    HeroValid(s, h);
  }

  lemma NextCostIs(s: GameState, j: nat)
    requires ValidGameState(s) && Underway(s, j)
    ensures NextCost(At(s.rituals, j)) == Some(At(At(s.rituals, j).costs, At(s.rituals, j).paid))
            && ValidCost(At(At(s.rituals, j).costs, At(s.rituals, j).paid))
  {
    hide ValidGameState, IndexOf, Distinct, ValidCost, ValidCombat, ValidParty, ValidPendings, ValidChallenges,
         ValidRituals, ValidSocials;
    ValidParts(s);
    RitualAt(s.rituals, j);
  }

  /** A payment is proposed exactly when the hero can make it, and is then applied. */
  lemma PaymentApplies(s: GameState, j: nat, h: nat)
    requires ValidGameState(s) && Underway(s, j) && h < |s.characters|
    ensures var cost := At(At(s.rituals, j).costs, At(s.rituals, j).paid);
            var payment := PaymentEvents(s, At(s.characters, h), cost, At(s.rituals, j).ritualId);
            && (payment.Done? <==> CanPay(s, h, cost))
            && (payment.Done? ==> Fold(s, payment.Get()) == Done(PaidBy(s, h, cost)))
  {
    hide ValidGameState, Apply, IndexOf, ReadySlot, WithCharacter;
    var cost, c := s.rituals[j].costs[s.rituals[j].paid], s.characters[h];
    var payment := PaymentEvents(s, c, cost, s.rituals[j].ritualId);
    PayersMeans(s, h);
    NextCostIs(s, j);
    match cost {
      case SupplyCost(amount) =>
        if amount <= s.supply {
          SupplyApplies(s, s.supply - amount);
          FoldOne(s, payment.value[0]);
        }
      case ExertionCost(amount) =>
        if amount <= c.exertion {
          ExertionApplies(s, h, c.exertion - amount);
          FoldOne(s, payment.value[0]);
        }
      case GearCost(definition) =>
        if Ready(definition) in c.gear {
          GearApplies(s, j, h, ReadySlot(c.gear, definition).value, ReadySlot(c.gear, definition).value + 1,
              definition);
          FoldOne(s, payment.value[0]);
        }
    }
  }

  lemma PaidByKeeps(s: GameState, h: nat, cost: Cost)
    requires h < |s.characters|
    ensures PaidBy(s, h, cost).rituals == s.rituals
    ensures CharacterIds(PaidBy(s, h, cost).characters) == CharacterIds(s.characters)
    ensures |PaidBy(s, h, cost).characters| == |s.characters|
    ensures PaidBy(s, h, cost).characters[h].characterId == s.characters[h].characterId
  {
    hide CharacterIds, ActorIds;
    var c := s.characters[h];
    SameCharacterIds(s.characters, h, PaidBy(s, h, cost).characters[h]);
    assert s.characters[h := c] == s.characters;
  }

  /** A contribution of a hero at the ritual's index: accepted exactly when the hero can pay, and then applied
      exactly when it may join. */
  lemma ContributionExactly(s: GameState, j: nat, h: nat)
    requires ValidGameState(s) && Underway(s, j) && h < |s.characters|
    ensures var r, id := At(s.rituals, j), At(s.characters, h).characterId;
            var decision := DecideContributeRitual(s, r.ritualId, id, r.paid);
            && (decision.Done? <==> CanPay(s, h, At(r.costs, r.paid)))
            && (decision.Done? ==> Fold(s, decision.Get()) == if MayJoin(r, id) then Done(Recorded(s, j, h))
              else Refused)
  {
    hide ValidGameState, Apply, IndexOf, PaymentEvents, Paid, CanPay, PaidBy, AfterContribution, MayJoin, Fold,
         ValidCharacter, FindCharacter, FindActor;
    var r, id := s.rituals[j], s.characters[h].characterId;
    var cost := r.costs[r.paid];
    HeroValid(s, h);
    NextCostIs(s, j);
    PaymentApplies(s, j, h);
    if CanPay(s, h, cost) {
      var payment, t := PaymentEvents(s, s.characters[h], cost, r.ritualId).value, PaidBy(s, h, cost);
      FoldKeepsValid(s, payment, t);
      PaidByKeeps(s, h, cost);
      PaidApplies(t, j, h);
      FoldAppend(s, payment, Paid(r, id));
    }
  }

  /** Every accepted `contribute_ritual`, whoever contributes and whatever the cost: it is applied exactly when the
      contributor has joined before or fewer than five have, and takes the cost, records the hero and counts the
      payment. */
  lemma ContributeRitualAgrees(s: GameState, id: Id, payer: Id, index: int) returns (j: nat, h: nat)
    requires ValidGameState(s) && DecideContributeRitual(s, id, payer, index).Done?
    ensures Underway(s, j) && At(s.rituals, j).ritualId == id && At(s.rituals, j).paid == index
    ensures h < |s.characters| && At(s.characters, h).characterId == payer
            && CanPay(s, h, At(At(s.rituals, j).costs, index))
    ensures Fold(s, DecideContributeRitual(s, id, payer, index).Get()) ==
            if MayJoin(At(s.rituals, j), payer) then Done(Recorded(s, j, h)) else Refused
  {
    hide ValidGameState, PaymentEvents, Paid, CanPay, Recorded, MayJoin, ValidCost, Distinct, Fold, ValidCombat,
         ValidParty, ValidPendings, ValidChallenges;
    j, h := FindRitual(s, id).value, FindCharacter(s, payer).value;
    ValidParts(s);
    RitualAt(s.rituals, j);
    ContributionExactly(s, j, h);
  }

  // ----- Gear -----

  lemma {:induction false} SpentSlot(gear: seq<Gear>, k: nat, definition: Ref)
    requires k < |gear| && gear[k] == Ready(definition)
    ensures multiset(ReadyGear(gear)) == multiset(ReadyGear(gear[k := Gear.Spent(definition)])) + multiset{definition}
  {
    var after := gear[k := Gear.Spent(definition)];
    if k == 0 {
      assert after[1..] == gear[1..];
      assert ReadyGear(gear) == [definition] + ReadyGear(gear[1..]);
      assert ReadyGear(after) == [] + ReadyGear(gear[1..]);
    } else {
      assert after[1..] == gear[1..][k - 1 := Gear.Spent(definition)];
      SpentSlot(gear[1..], k - 1, definition);
      var first := if gear[0].Ready? then [gear[0].definition] else [];
      assert ReadyGear(gear) == first + ReadyGear(gear[1..]);
      assert ReadyGear(after) == first + ReadyGear(after[1..]);
    }
  }

  lemma {:induction false} SpentGear(cs: seq<Character>, i: nat, c: Character, definition: Ref)
    requires i < |cs| && multiset(ReadyGear(cs[i].gear)) == multiset(ReadyGear(c.gear)) + multiset{definition}
    ensures multiset(PartyGear(cs)) == multiset(PartyGear(cs[i := c])) + multiset{definition}
  {
    hide ReadyGear;
    var after := cs[i := c];
    assert PartyGear(cs) == ReadyGear(cs[0].gear) + PartyGear(cs[1..]);
    assert PartyGear(after) == ReadyGear(after[0].gear) + PartyGear(after[1..]);
    if i == 0 {
      assert after[1..] == cs[1..];
    } else {
      assert after[1..] == cs[1..][i - 1 := c];
      SpentGear(cs[1..], i - 1, c, definition);
    }
  }

  lemma {:induction false} ReadyInGear(gear: seq<Gear>, definition: Ref)
    requires definition in ReadyGear(gear)
    ensures ReadySlot(gear, definition).Some?
  {
    if gear[0] != Ready(definition) {
      ReadyInGear(gear[1..], definition);
    }
  }

  /** Gear the party has ready is ready in some hero's hands. */
  lemma {:induction false} HolderOf(cs: seq<Character>, definition: Ref) returns (i: nat)
    requires definition in PartyGear(cs)
    ensures i < |cs| && ReadySlot(cs[i].gear, definition).Some?
  {
    hide ReadyGear, ReadySlot;
    if definition in ReadyGear(cs[0].gear) {
      i := 0;
      ReadyInGear(cs[0].gear, definition);
    } else {
      var j := HolderOf(cs[1..], definition);
      i := j + 1;
    }
  }

  lemma {:induction false} SameGear(cs: seq<Character>, ds: seq<Character>)
    requires |ds| == |cs| && forall i :: 0 <= i < |cs| ==> ds[i].gear == cs[i].gear
    ensures PartyGear(ds) == PartyGear(cs)
  {
    if cs != [] {
      SameGear(cs[1..], ds[1..]);
    }
  }

  // ----- Exertion -----

  function Exertions(cs: seq<Character>): (es: seq<int>)
    ensures |es| == |cs|
  {
    seq(|cs|, i requires 0 <= i < |cs| => cs[i].exertion)
  }

  /** The Exertion that falls to hero `h` when cost `k` is given to hero `payers[k]`. */
  function Assigned(costs: seq<Cost>, payers: seq<nat>, h: nat): int
    requires |payers| == |costs|
  {
    if costs == [] then 0
    else
      (if costs[0].ExertionCost? && payers[0] == h then costs[0].amount else 0) + Assigned(costs[1..], payers[1..], h)
  }

  /** The costs can be shared out so that nobody is given more Exertion than it has. */
  predicate Fits(exertions: seq<int>, costs: seq<Cost>, payers: seq<nat>) {
    && |payers| == |costs|
    && (forall k :: 0 <= k < |payers| ==> payers[k] < |exertions|)
    && forall h: nat :: h < |exertions| ==> Assigned(costs, payers, h) <= exertions[h]
  }

  function Exerted(exertions: seq<int>, cost: Cost, h: nat): (es: seq<int>)
    requires h < |exertions|
    ensures |es| == |exertions|
  {
    if cost.ExertionCost? then exertions[h := exertions[h] - cost.amount] else exertions
  }

  /** Sharing out the costs is giving the first to somebody and sharing out the rest with what is left. */
  lemma FitsStep(exertions: seq<int>, costs: seq<Cost>, payers: seq<nat>)
    requires costs != [] && |payers| == |costs| && payers[0] < |exertions|
    ensures Fits(exertions, costs, payers) <==> Fits(Exerted(exertions, costs[0], payers[0]), costs[1..], payers[1..])
  {
    var left := Exerted(exertions, costs[0], payers[0]);
    forall h: nat | h < |exertions|
      ensures Assigned(costs, payers, h) <= exertions[h] <==> Assigned(costs[1..], payers[1..], h) <= left[h] {
    }
    if Fits(left, costs[1..], payers[1..]) {
      forall k | 0 <= k < |payers| ensures payers[k] < |exertions| {
        assert k > 0 ==> payers[k] == payers[1..][k - 1];
      }
    }
  }

  lemma {:induction false} AssignedNatural(costs: seq<Cost>, payers: seq<nat>, h: nat)
    requires |payers| == |costs| && forall i :: 0 <= i < |costs| ==> ValidCost(costs[i])
    ensures Assigned(costs, payers, h) >= 0
  {
    if costs != [] {
      assert ValidCost(costs[0]);
      AssignedNatural(costs[1..], payers[1..], h);
    }
  }

  // ----- Paying the rest -----

  /** The contributions of these heroes, one cost each from index `k` on: every one must be accepted and applied. */
  ghost function PayAll(s: GameState, ritualId: Id, k: int, payers: seq<Id>): Outcome<GameState>
    decreases |payers|
  {
    if payers == [] then Done(s)
    else
      match DecideContributeRitual(s, ritualId, payers[0], k)
      case Refused => Refused
      case Done(es) =>
        match Fold(s, es)
        case Refused => Refused
        case Done(t) => PayAll(t, ritualId, k + 1, payers[1..])
  }

  predicate NoExertion(costs: seq<Cost>) {
    forall i :: 0 <= i < |costs| ==> !costs[i].ExertionCost?
  }

  /** The unpaid costs. */
  function Rest(r: Ritual): seq<Cost> {
    if 0 <= r.paid <= |r.costs| then r.costs[r.paid..] else []
  }

  /** The party still has what the unpaid costs ask for. */
  predicate Affordable(s: GameState, costs: seq<Cost>) {
    s.supply >= SupplyTotal(costs) && multiset(GearCosts(costs)) <= multiset(PartyGear(s.characters))
  }

  lemma {:induction false} SupplyTotalNatural(costs: seq<Cost>)
    requires forall i :: 0 <= i < |costs| ==> ValidCost(costs[i])
    ensures SupplyTotal(costs) >= 0
  {
    if costs != [] {
      assert ValidCost(costs[0]);
      SupplyTotalNatural(costs[1..]);
    }
  }

  /** What paying everything leaves: the ritual ready, Supply and gear down by exactly the unpaid costs. */
  predicate PaidOff(s: GameState, j: nat, t: GameState) {
    && j < |s.rituals| && j < |t.rituals| && t.rituals[j].status.RitualReady?
        && t.rituals[j].ritualId == s.rituals[j].ritualId
    && t.supply == s.supply - SupplyTotal(Rest(s.rituals[j]))
    && multiset(PartyGear(s.characters)) == multiset(PartyGear(t.characters)) + multiset(GearCosts(Rest(s.rituals[j])))
  }

  lemma RestUnfolds(r: Ritual)
    requires 0 <= r.paid < |r.costs|
    ensures var cost := r.costs[r.paid];
            var later := r.costs[r.paid + 1..];
            && SupplyTotal(Rest(r)) == (if cost.SupplyCost? then cost.amount else 0) + SupplyTotal(later)
            && GearCosts(Rest(r)) == (if cost.GearCost? then [cost.definition] else []) + GearCosts(later)
  {
    assert Rest(r)[0] == r.costs[r.paid] && Rest(r)[1..] == r.costs[r.paid + 1..];
  }

  lemma GearLeft(all: multiset<Ref>, left: multiset<Ref>, price: multiset<Ref>, later: multiset<Ref>)
    requires all == left + price && price + later <= all
    ensures later <= left
  {
    forall x ensures later[x] <= left[x] {
      assert (price + later)[x] <= all[x];
    }
  }

  lemma GearBalance(before: multiset<Ref>, between: multiset<Ref>, after: multiset<Ref>, price: multiset<Ref>,
      later: multiset<Ref>)
    requires before == between + price && between == after + later
    ensures before == after + (price + later)
  {}

  predicate KnownContributors(s: GameState, j: nat) {
    j < |s.rituals| && forall id :: id in s.rituals[j].contributors ==> id in CharacterIds(s.characters)
  }

  lemma ContributorsBounded(contributors: seq<Id>, id: Id, heroes: seq<Id>)
    requires Distinct(contributors) && id !in contributors && id in heroes && |heroes| <= 5
    requires forall c :: c in contributors ==> c in heroes
    ensures Distinct(contributors + [id]) && |contributors + [id]| <= 5
  {
    DistinctAppend(contributors, id);
    DistinctCardinality(contributors + [id]);
    CardinalityBound(heroes);
    SubsetCardinality(Elements(contributors + [id]), Elements(heroes));
  }

  lemma HeroesFew(s: GameState)
    requires ValidGameState(s)
    ensures |CharacterIds(s.characters)| <= 5
  {
    hide ValidGameState, ValidCharacter, Distinct, ValidCombat, ValidPendings, ValidChallenges, ValidRituals,
         ValidSocials, ValidScars;
    ValidParts(s);
  }

  /** Among known contributors there is always room for one more hero. */
  lemma HeroMayJoin(s: GameState, j: nat, h: nat)
    requires ValidGameState(s) && Underway(s, j) && KnownContributors(s, j) && h < |s.characters|
    ensures MayJoin(At(s.rituals, j), At(s.characters, h).characterId)
  {
    hide ValidGameState, IndexOf, ValidCost, Distinct, ValidCombat, ValidParty, ValidPendings, ValidChallenges,
         Underway, ValidRituals, ValidSocials;
    ValidParts(s);
    RitualAt(s.rituals, j);
    HeroesFew(s);
    var r, id := s.rituals[j], s.characters[h].characterId;
    assert CharacterIds(s.characters)[h] == id;
    if id !in r.contributors {
      ContributorsBounded(r.contributors, id, CharacterIds(s.characters));
    }
  }

  /** What one recorded contribution does to the party and to the ritual. */
  lemma RecordedMeans(s: GameState, j: nat, h: nat)
    requires ValidGameState(s) && Underway(s, j) && KnownContributors(s, j) && h < |s.characters|
    requires CanPay(s, h, At(At(s.rituals, j).costs, At(s.rituals, j).paid))
    ensures var r, u := At(s.rituals, j), Recorded(s, j, h);
            var cost := At(r.costs, r.paid);
            && CharacterIds(u.characters) == CharacterIds(s.characters) && |u.characters| == |s.characters|
            && Exertions(u.characters) == Exerted(Exertions(s.characters), cost, h)
            && u.supply == s.supply - (if cost.SupplyCost? then cost.amount else 0)
            && multiset(PartyGear(s.characters)) == multiset(PartyGear(u.characters))
              + multiset(if cost.GearCost? then [cost.definition] else [])
            && (r.paid + 1 < |r.costs| ==> Underway(u, j) && KnownContributors(u, j))
  {
    hide ValidGameState, IndexOf, PartyGear, ReadyGear, ReadySlot;
    var r, u := s.rituals[j], Recorded(s, j, h);
    var cost, c := r.costs[r.paid], s.characters[h];
    PaidByKeeps(s, h, cost);
    SameRitualIds(s.rituals, j, AfterContribution(r, c.characterId));
    assert CharacterIds(s.characters)[h] == c.characterId;
    match cost {
      case SupplyCost(_) =>
      case ExertionCost(amount) =>
        SameGear(s.characters, u.characters);
      case GearCost(definition) =>
        var k := ReadySlot(c.gear, definition).value;
        SpentSlot(c.gear, k, definition);
        SpentGear(s.characters, h, u.characters[h], definition);
    }
    assert Exertions(u.characters) == Exerted(Exertions(s.characters), cost, h);
  }

  /** Whoever can pay the next cost does so with an accepted and applied contribution. */
  lemma NextPaid(s: GameState, j: nat, h: nat) returns (u: GameState)
    requires ValidGameState(s) && Underway(s, j) && KnownContributors(s, j) && h < |s.characters|
    requires CanPay(s, h, At(At(s.rituals, j).costs, At(s.rituals, j).paid))
    ensures var r, payer := At(s.rituals, j), At(s.characters, h).characterId;
            && DecideContributeRitual(s, r.ritualId, payer, r.paid).Done?
            && Fold(s, DecideContributeRitual(s, r.ritualId, payer, r.paid).Get()) == Done(u)
    ensures ValidGameState(u) && u == Recorded(s, j, h)
  {
    hide ValidGameState, Apply, DecideContributeRitual, Recorded, CanPay, IndexOf, Fold, Underway, MayJoin;
    HeroMayJoin(s, j, h);
    ContributionExactly(s, j, h);
    u := Recorded(s, j, h);
    FoldKeepsValid(s, DecideContributeRitual(s, s.rituals[j].ritualId, s.characters[h].characterId,
      s.rituals[j].paid).value, u);
  }

  /** The hero the next cost is left to: the one it is given to, or one that has the gear ready. */
  lemma NextPayer(s: GameState, j: nat, fit: seq<nat>) returns (h: nat)
    requires ValidGameState(s) && Underway(s, j)
    requires Fits(Exertions(s.characters), Rest(At(s.rituals, j)), fit) && Affordable(s, Rest(At(s.rituals, j)))
    ensures h < |s.characters| && CanPay(s, h, At(At(s.rituals, j).costs, At(s.rituals, j).paid))
    ensures Fits(Exerted(Exertions(s.characters), At(At(s.rituals, j).costs, At(s.rituals, j).paid), h),
            At(s.rituals, j).costs[At(s.rituals, j).paid + 1..], fit[1..])
  {
    hide ValidGameState, IndexOf, PartyGear, ValidCost, Fits, ReadySlot, GearCosts, SupplyTotal;
    var r := s.rituals[j];
    var cost, later := r.costs[r.paid], r.costs[r.paid + 1..];
    RestUnfolds(r);
    RestCosts(s, j);
    assert Rest(r)[0] == cost && Rest(r)[1..] == later;
    FirstFits(Exertions(s.characters), Rest(r), fit);
    FitsStep(Exertions(s.characters), Rest(r), fit);
    h := fit[0];
    if cost.SupplyCost? {
      SupplyTotalNatural(later);
    } else if cost.GearCost? {
      assert multiset(GearCosts(Rest(r))) == multiset{cost.definition} + multiset(GearCosts(later));
      assert cost.definition in multiset(PartyGear(s.characters));
      h := HolderOf(s.characters, cost.definition);
    }
  }

  lemma RestCosts(s: GameState, j: nat)
    requires ValidGameState(s) && Underway(s, j)
    ensures forall i :: 0 <= i < |Rest(s.rituals[j])| ==> ValidCost(Rest(s.rituals[j])[i])
    ensures var later := s.rituals[j].costs[s.rituals[j].paid + 1..];
            forall i :: 0 <= i < |later| ==> ValidCost(later[i])
  {
    hide ValidGameState, IndexOf, ValidCost, Distinct, ValidCombat, ValidParty, ValidPendings, ValidChallenges,
         ValidRituals, ValidSocials;
    ValidParts(s);
    RitualAt(s.rituals, j);
  }

  lemma FirstFits(exertions: seq<int>, costs: seq<Cost>, fit: seq<nat>)
    requires costs != [] && Fits(exertions, costs, fit) && forall i :: 0 <= i < |costs| ==> ValidCost(costs[i])
    ensures |fit| == |costs| && fit[0] < |exertions|
    ensures costs[0].ExertionCost? ==> costs[0].amount <= exertions[fit[0]]
  {
    hide ValidCost;
    AssignedNatural(costs[1..], fit[1..], fit[0]);
    assert Assigned(costs, fit, fit[0]) <= exertions[fit[0]];
  }

  /** From any point on: when the Exertion left to pay can be shared out and the party can afford the rest, one accepted
      contribution per cost pays it off. */
  lemma {:induction false} RestCanBePaid(s: GameState, j: nat, fit: seq<nat>) returns (payers: seq<Id>, t: GameState)
    requires ValidGameState(s) && Underway(s, j) && KnownContributors(s, j)
    requires Fits(Exertions(s.characters), Rest(At(s.rituals, j)), fit) && Affordable(s, Rest(At(s.rituals, j)))
    ensures |payers| == |Rest(At(s.rituals, j))|
    ensures PayAll(s, At(s.rituals, j).ritualId, At(s.rituals, j).paid, payers) == Done(t) && PaidOff(s, j, t)
    decreases |s.rituals[j].costs| - s.rituals[j].paid
  {
    hide ValidGameState, Apply, DecideContributeRitual, SupplyTotal, GearCosts, PartyGear, AfterContribution, IndexOf,
         Fits, CanPay, Exertions, Recorded, KnownContributors, Fold;
    var r := s.rituals[j];
    var cost, later := r.costs[r.paid], r.costs[r.paid + 1..];
    FitsLength(Exertions(s.characters), Rest(r), fit);
    var h := NextPayer(s, j, fit);
    var payer := s.characters[h].characterId;
    var u := NextPaid(s, j, h);
    RecordedMeans(s, j, h);
    RecordedRitual(s, j, h);
    RestUnfolds(r);
    AfterKeeps(r, payer);
    var price := if cost.GearCost? then [cost.definition] else [];
    assert multiset(GearCosts(Rest(r))) == multiset(price) + multiset(GearCosts(later));
    if r.paid + 1 < |r.costs| {
      assert Rest(u.rituals[j]) == later;
      GearLeft(multiset(PartyGear(s.characters)), multiset(PartyGear(u.characters)), multiset(price),
        multiset(GearCosts(later)));
      var more;
      more, t := RestCanBePaid(u, j, fit[1..]);
      payers := [payer] + more;
      assert payers[1..] == more;
      GearBalance(multiset(PartyGear(s.characters)), multiset(PartyGear(u.characters)),
        multiset(PartyGear(t.characters)),
                  multiset(price), multiset(GearCosts(later)));
    } else {
      assert later == [];
      NothingLeft();
      payers := [payer];
      t := u;
      assert payers[1..] == [];
      assert multiset(GearCosts(Rest(r))) == multiset(price);
    }
  }

  lemma RecordedRitual(s: GameState, j: nat, h: nat)
    requires Underway(s, j) && h < |s.characters|
    ensures Recorded(s, j, h).rituals == s.rituals[j := AfterContribution(s.rituals[j], s.characters[h].characterId)]
  {
    hide IndexOf, AfterContribution, Underway;
  }

  /** Conversely, contributions that were accepted share out the Exertion they paid. */
  lemma {:induction false} PaidFits(s: GameState, j: nat, payers: seq<Id>, t: GameState) returns (fit: seq<nat>)
    requires ValidGameState(s) && Underway(s, j) && KnownContributors(s, j)
    requires |payers| == |Rest(At(s.rituals, j))|
             && PayAll(s, At(s.rituals, j).ritualId, At(s.rituals, j).paid, payers) == Done(t)
    ensures Fits(Exertions(s.characters), Rest(At(s.rituals, j)), fit)
    decreases |payers|
  {
    hide ValidGameState, Apply, DecideContributeRitual, AfterContribution, IndexOf, Fits, CanPay, Exertions, Recorded,
         KnownContributors, MayJoin, Fold, PartyGear, Exerted, CharacterIds;
    var r := s.rituals[j];
    var i, h := ContributeRitualAgrees(s, r.ritualId, payers[0], r.paid);
    assert i == j;
    var es := DecideContributeRitual(s, r.ritualId, payers[0], r.paid).value;
    var u := Recorded(s, j, h);
    FoldKeepsValid(s, es, u);
    RecordedMeans(s, j, h);
    RecordedRitual(s, j, h);
    AfterKeeps(r, payers[0]);
    var rest;
    if r.paid + 1 < |r.costs| {
      assert Rest(u.rituals[j]) == r.costs[r.paid + 1..];
      rest := PaidFits(u, j, payers[1..], t);
    } else {
      rest := [];
      NobodyOverdrawn(u);
      assert r.costs[r.paid + 1..] == [];
    }
    fit := [h] + rest;
    assert fit[1..] == rest && Rest(r)[1..] == r.costs[r.paid + 1..];
    FitsLength(Exertions(u.characters), Rest(r)[1..], rest);
    FitsStep(Exertions(s.characters), Rest(r), fit);
  }

  lemma FitsLength(exertions: seq<int>, costs: seq<Cost>, fit: seq<nat>)
    requires Fits(exertions, costs, fit)
    ensures |fit| == |costs|
  {}

  lemma NobodyOverdrawn(u: GameState)
    requires ValidGameState(u)
    ensures Fits(Exertions(u.characters), [], [])
  {
    hide ValidGameState;
    forall h: nat | h < |u.characters| ensures 0 <= Exertions(u.characters)[h] {
      PayersMeans(u, h);
    }
  }

  lemma NothingLeft()
    ensures SupplyTotal([]) == 0 && GearCosts([]) == []
  {}

  lemma AfterKeeps(r: Ritual, id: Id)
    ensures AfterContribution(r, id).costs == r.costs && AfterContribution(r, id).paid == r.paid + 1
            && AfterContribution(r, id).ritualId == r.ritualId
    ensures AfterContribution(r, id).status.RitualReady? || AfterContribution(r, id).status == r.status
    ensures r.paid + 1 == |r.costs| ==> AfterContribution(r, id).status.RitualReady?
  {}

  // ----- Started rituals -----

  /** Some sequence of exactly one accepted and applied contribution per cost makes the ritual ready. */
  ghost predicate Payable(s: GameState, r: Ritual) {
    exists payers: seq<Id> :: |payers| == |r.costs| && PaysOff(s, r.ritualId, payers)
  }

  ghost predicate PaysOff(s: GameState, id: Id, payers: seq<Id>) {
    match PayAll(s, id, 0, payers)
    case Refused => false
    case Done(t) => FindRitual(t, id).Some? && t.rituals[FindRitual(t, id).value].status.RitualReady?
  }

  lemma StartedUnderway(s: GameState, facts: Facts, r: Ritual, tags: seq<nat>) returns (u: GameState)
    requires ValidGameState(s) && DecideStartRitual(s, facts, r, tags).Done?
             && Fold(s, DecideStartRitual(s, facts, r, tags).Get()).Done?
    ensures Fold(s, DecideStartRitual(s, facts, r, tags).Get()) == Done(u) && u == s.(rituals := s.rituals + [r])
            && ValidGameState(u)
    ensures Underway(u, |s.rituals|) && KnownContributors(u, |s.rituals|) && Rest(r) == r.costs
            && Affordable(u, r.costs)
    ensures r.paid == 0
  {
    hide ValidGameState, Apply, IndexOf, PartyGear, RequirementMet, ByReference, SupplyTotal, GearCosts,
         PartyExertion, ExertionTotal, Fold, FindRitual;
    var es := DecideStartRitual(s, facts, r, tags).value;
    FoldOne(s, es[0]);
    assert es == [es[0]];
    u := Fold(s, es).value;
    FoldKeepsValid(s, es, u);
    StartedStep(s, es[0].ritual, u);
    RestOfAll(r);
  }

  /** A ritual that `start_ritual` accepts and that is started can be paid if and only if its Exertion costs can be
      given to heroes so that no hero is given more than it has. The comparison with the party's sum does not settle
      that. */
  lemma PayableExactly(s: GameState, facts: Facts, r: Ritual, tags: seq<nat>)
    requires ValidGameState(s) && DecideStartRitual(s, facts, r, tags).Done?
             && Fold(s, DecideStartRitual(s, facts, r, tags).Get()).Done?
    ensures Payable(Fold(s, DecideStartRitual(s, facts, r, tags).Get()).Get(), r) <==>
            exists fit: seq<nat> :: Fits(Exertions(s.characters), r.costs, fit)
  {
    hide ValidGameState, Apply, PayAll, IndexOf, DecideStartRitual, Fits, Affordable, KnownContributors, Fold,
         Underway, FindRitual, Exertions;
    var u := StartedUnderway(s, facts, r, tags);
    var j := |s.rituals|;
    assert u.rituals[j] == r;
    if exists fit: seq<nat> :: Fits(Exertions(s.characters), r.costs, fit) {
      var fit: seq<nat> :| Fits(Exertions(s.characters), r.costs, fit);
      var payers, t := RestCanBePaid(u, j, fit);
      ReadyIsFound(u, r.ritualId, 0, payers, t, j);
      assert PaysOff(u, r.ritualId, payers);
    }
    if Payable(u, r) {
      var payers: seq<Id> :| |payers| == |r.costs| && PaysOff(u, r.ritualId, payers);
      var fit := PaidFits(u, j, payers, PayAll(u, r.ritualId, 0, payers).value);
    }
  }

  /** However it is paid, the party's Supply falls by exactly the Supply total and its ready gear by exactly the gear
      asked for. */
  lemma StartedRitualCanBePaid(s: GameState, facts: Facts, r: Ritual, tags: seq<nat>, fit: seq<nat>)
      returns (payers: seq<Id>, t: GameState)
    requires ValidGameState(s) && Fits(Exertions(s.characters), r.costs, fit)
    requires DecideStartRitual(s, facts, r, tags).Done? && Fold(s, DecideStartRitual(s, facts, r, tags).Get()).Done?
    ensures |payers| == |r.costs|
    ensures PayAll(Fold(s, DecideStartRitual(s, facts, r, tags).Get()).Get(), r.ritualId, 0, payers) == Done(t)
    ensures FindRitual(t, r.ritualId).Some? && At(t.rituals, FindRitual(t, r.ritualId).Get()).status.RitualReady?
    ensures t.supply == s.supply - SupplyTotal(r.costs)
    ensures multiset(PartyGear(s.characters)) == multiset(PartyGear(t.characters)) + multiset(GearCosts(r.costs))
  {
    hide ValidGameState, Apply, PayAll, IndexOf, PartyGear, DecideStartRitual, SupplyTotal, GearCosts, Fits,
         Affordable, KnownContributors, Fold, Underway, FindRitual, Exertions, Rest;
    var u := StartedUnderway(s, facts, r, tags);
    var j := |s.rituals|;
    assert u.rituals[j] == r;
    payers, t := RestCanBePaid(u, j, fit);
    ReadyIsFound(u, r.ritualId, 0, payers, t, j);
  }

  /** Without Exertion costs there is nothing to share out: any party can pay. */
  lemma {:induction false} NoExertionFits(exertions: seq<int>, costs: seq<Cost>, fit: seq<nat>)
    requires NoExertion(costs) && |fit| == |costs| && (forall k :: 0 <= k < |fit| ==> fit[k] < |exertions|)
    requires forall h: nat :: h < |exertions| ==> 0 <= exertions[h]
    ensures Fits(exertions, costs, fit)
  {
    if costs != [] {
      assert !costs[0].ExertionCost?;
      NoExertionFits(exertions, costs[1..], fit[1..]);
      FitsStep(exertions, costs, fit);
    }
  }

  /** A ritual that asks for Supply and gear only and is started for a party can always be paid. */
  lemma SupplyAndGearCanBePaid(s: GameState, facts: Facts, r: Ritual, tags: seq<nat>)
    requires ValidGameState(s) && s.characters != [] && NoExertion(r.costs)
    requires DecideStartRitual(s, facts, r, tags).Done? && Fold(s, DecideStartRitual(s, facts, r, tags).Get()).Done?
    ensures Payable(Fold(s, DecideStartRitual(s, facts, r, tags).Get()).Get(), r)
  {
    hide ValidGameState, Apply, Payable, DecideStartRitual, Fits, Fold, NoExertion;
    var fit: seq<nat> := seq(|r.costs|, _ => 0);
    forall h: nat | h < |s.characters| ensures 0 <= Exertions(s.characters)[h] {
      PayersMeans(s, h);
    }
    NoExertionFits(Exertions(s.characters), r.costs, fit);
    PayableExactly(s, facts, r, tags);
  }

  lemma RestOfAll(r: Ritual)
    requires r.paid == 0
    ensures Rest(r) == r.costs
  {}

  lemma StartedStep(s: GameState, r: Ritual, u: GameState)
    requires Apply(s, RitualStarted(r)) == Done(u)
    ensures u == s.(rituals := s.rituals + [r]) && ValidRitual(r)
    ensures FindRitual(u, r.ritualId) == Some(|s.rituals|)
  {
    hide ValidGameState, ValidRitual, IndexOf, RitualIds;
    assert RitualIds(s.rituals + [r]) == RitualIds(s.rituals) + [r.ritualId];
    IndexOfAppended(RitualIds(s.rituals), r.ritualId);
  }

  lemma {:induction false} PayAllKeepsValid(s: GameState, id: Id, k: int, payers: seq<Id>, t: GameState)
    requires ValidGameState(s) && PayAll(s, id, k, payers) == Done(t)
    ensures ValidGameState(t)
    decreases |payers|
  {
    hide ValidGameState, Apply, DecideContributeRitual;
    if payers != [] {
      var es := DecideContributeRitual(s, id, payers[0], k).value;
      FoldKeepsValid(s, es, Fold(s, es).value);
      PayAllKeepsValid(Fold(s, es).value, id, k + 1, payers[1..], t);
    }
  }

  lemma ReadyIsFound(s: GameState, id: Id, k: int, payers: seq<Id>, t: GameState, j: nat)
    requires ValidGameState(s) && PayAll(s, id, k, payers) == Done(t) && j < |t.rituals|
             && At(t.rituals, j).ritualId == id
    ensures FindRitual(t, id) == Some(j)
  {
    hide ValidGameState, PayAll, ValidRitual, ValidCombat, ValidParty, ValidPendings, ValidChallenges, ValidSocials;
    PayAllKeepsValid(s, id, k, payers, t);
    ValidParts(t);
    IndexOfDistinct(RitualIds(t.rituals), j);
  }

  // ----- A ritual that cannot be paid -----

  function Weary(id: Id): Character {
    var ref := Ref(0, 1);
    Character(id, id, EVEN_ATTRIBUTES, EVEN_DISCIPLINES, 1, Options(ref, ref, ref, ref, None, None, None), 5, 5, 1,
              [Empty, Empty, Empty], true, false, [false, false, false, false], [NoGear, NoGear, NoGear, NoGear], [],
                  [])
  }

  function WearyParty(): GameState {
    EmptyCampaign(7).(characters := [Weary(1), Weary(2)], supplyMaximum := 4)
  }

  function Costly(): Ritual {
    Ritual(3, Ref(9, 1), Preparing, [ParticipantCount(1)], [ExertionCost(2)], [], 0, PlaceTarget)
  }

  function Edge(degree: Degree): Consequence {
    Consequence(degree, [GrantEdge(CheckEdge)])
  }

  function CostlyCatalog(): Catalog {
    Catalog(7, [RitualDefinition(Ref(9, 1), Costly().requirements, Costly().costs, PlaceTarget,
                                 [Edge(Crisis), Edge(Setback), Edge(Success), Edge(Triumph)])])
  }

  lemma CostlyAccepted()
    ensures CatalogAccepted(CostlyCatalog().definitions) && WellFormedCatalog(CostlyCatalog())
  {
    NoOptionsNoCycle(CostlyCatalog().definitions);
  }

  lemma WearyHeroValid(id: Id)
    ensures ValidCharacter(Weary(id))
  {
    hide RatingsInRange;
    EvenRatings();
  }

  lemma WearyPartyValid()
    ensures ValidGameState(WearyParty())
  {
    hide ValidCharacter, ValidCombat, Weary, CharacterIds, ActorIds;
    WearyHeroValid(1);
    WearyHeroValid(2);
    WearyIds();
  }

  lemma WearyIds()
    ensures CharacterIds([Weary(1), Weary(2)]) == [1, 2] && ActorIds([Weary(1), Weary(2)]) == [1, 2]
  {}

  lemma WearyTotals()
    ensures PartyExertion([Weary(1), Weary(2)]) == 2 && PartyGear([Weary(1), Weary(2)]) == []
    ensures ExertionTotal([ExertionCost(2)]) == 2 && SupplyTotal([ExertionCost(2)]) == 0
            && GearCosts([ExertionCost(2)]) == []
  {
    hide ReadyGear;
    var one := [Weary(2)];
    assert [Weary(1), Weary(2)][1..] == one && one[1..] == [];
    assert PartyExertion(one) == 1 + PartyExertion(one[1..]);
    var costs := [ExertionCost(2)];
    assert costs[1..] == [];
    NoGearReady(Weary(1).gear);
    NoGearReady(Weary(2).gear);
    assert PartyGear(one) == ReadyGear(Weary(2).gear) + PartyGear(one[1..]);
  }

  lemma {:induction false} NoGearReady(gear: seq<Gear>)
    requires forall i :: 0 <= i < |gear| ==> gear[i].NoGear?
    ensures ReadyGear(gear) == []
  {
    if gear != [] {
      NoGearReady(gear[1..]);
    }
  }

  lemma CostlyStarts(facts: Facts)
    requires facts.catalog == Some(CostlyCatalog())
    ensures DecideStartRitual(WearyParty(), facts, Costly(), []) == Done([RitualStarted(Costly())])
  {
    hide PartyExertion, PartyGear, ExertionTotal, SupplyTotal, GearCosts, Weary;
    WearyTotals();
    assert Costly().costs == [ExertionCost(2)];
  }

  lemma CostlyUnpayable(t: GameState, id: Id)
    requires t == WearyParty().(rituals := [Costly()])
    ensures DecideContributeRitual(t, 3, id, 0).Refused?
  {
    hide CharacterIds, RitualIds, ActorIds;
    assert RitualIds([Costly()]) == [3];
    WearyIds();
    assert t.characters[0].exertion == 1 && t.characters[1].exertion == 1;
  }

  /** Two heroes with one Exertion each may start a ritual that costs two, and nobody can then pay for it. */
  lemma StartedButUnpayable(facts: Facts, t: GameState)
    requires facts.catalog == Some(CostlyCatalog())
    requires t == WearyParty().(rituals := [Costly()])
    ensures CatalogAccepted(CostlyCatalog().definitions) && WellFormedCatalog(CostlyCatalog())
    ensures ValidGameState(WearyParty()) && DecideStartRitual(WearyParty(), facts, Costly(), []) ==
            Done([RitualStarted(Costly())])
    ensures Step(WearyParty(), RitualStarted(Costly())) == Done(t)
    ensures !Payable(t, Costly())
  {
    hide ValidGameState, DecideStartRitual, DecideContributeRitual, Weary, WearyParty, FindRitual, CatalogAccepted,
         WellFormedCatalog, CostlyCatalog, Fold;
    CostlyAccepted();
    WearyPartyValid();
    CostlyStarts(facts);
    CostlyBegins(t);
    forall payers: seq<Id> | |payers| == |Costly().costs| ensures !PaysOff(t, 3, payers) {
      CostlyUnpayable(t, payers[0]);
    }
  }

  lemma CostlyBegins(t: GameState)
    requires t == WearyParty().(rituals := [Costly()])
    ensures Step(WearyParty(), RitualStarted(Costly())) == Done(t)
  {
    hide Weary;
    assert [] + [Costly()] == [Costly()];
  }
}
