/** Resolving a check, and the physical rolls that disclose every face's outcome beforehand. */
module Checks {
  import opened Common
  import opened State
  import opened Validity

  /** A possible check; texts are left out. */
  datatype Request = Request(
    actorId: Id, attribute: Attribute, attributeRating: int, discipline: Discipline, disciplineRating: int,
    target: int, edge: bool, hindrance: bool, sparkEligible: bool, eligibleRoller: Option<Id>)

  predicate ValidRequest(r: Request) {
    && 0 <= r.attributeRating <= 2 && 0 <= r.disciplineRating <= 2
    && r.target in {10, 13, 16, 19, 22}
  }

  const DEGREES := [Crisis, Setback, Success, Triumph]

  function DegreeForDelta(delta: int): Degree {
    if delta <= -5 then Crisis
    else if delta < 0 then Setback
    else if delta < 5 then Success
    else Triumph
  }

  function DegreeIndex(d: Degree): nat {
    match d
    case Crisis => 0
    case Setback => 1
    case Success => 2
    case Triumph => 3
  }

  function ShiftDegree(d: Degree, adjustment: int): Degree {
    DEGREES[Max(0, Min(3, DegreeIndex(d) + adjustment))]
  }

  function NaturalFaceAdjustment(face: int): int {
    if face == 1 then -1 else if face == 20 then 1 else 0
  }

  function DegreeFor(face: int, target: int, modifier: int): Degree {
    ShiftDegree(DegreeForDelta(face + modifier - target), NaturalFaceAdjustment(face))
  }

  function Situational(edge: bool, hindrance: bool): int {
    (if edge then 2 else 0) + (if hindrance then -2 else 0)
  }

  function BuildModifiers(r: Request): Modifiers {
    Modifiers(r.attribute, r.attributeRating, r.discipline, r.disciplineRating,
              r.edge, r.hindrance, Situational(r.edge, r.hindrance))
  }

  function FinalModifier(r: Request): int {
    r.attributeRating + r.disciplineRating + Situational(r.edge, r.hindrance)
  }

  function Resolve(r: Request, face: int): CheckResult {
    CheckResult(r.actorId, face, FinalModifier(r), face + FinalModifier(r), DegreeFor(face, r.target, FinalModifier(r)))
  }

  function CreateDisclosure(r: Request, reason: Reason): Outcome<Disclosure> {
    if r.eligibleRoller.None? then Refused
    else
      Done(Disclosure(r.actorId, r.target, BuildModifiers(r), FinalModifier(r), reason, r.eligibleRoller.value,
                      seq(20, i requires 0 <= i < 20 => Resolve(r, i + 1).finalDegree)))
  }

  /** The request a pending check's disclosure is turned back into. */
  function Rebuild(d: Disclosure): Request {
    var m := d.modifiers;
    Request(d.actorId, m.attribute, m.attributeRating, m.discipline, m.disciplineRating,
            d.target, m.edge, m.hindrance, false, Some(d.eligibleRoller))
  }

  /** For every face, the rebuilt request resolves to the degree that was shown. */
  predicate Honest(d: Disclosure) {
    && |d.degrees| == 20
    && forall face :: 1 <= face <= 20 ==> d.degrees[face - 1] == Resolve(Rebuild(d), face).finalDegree
  }

  lemma CreatedIsHonest(r: Request, reason: Reason)
    requires CreateDisclosure(r, reason).Done?
    ensures Honest(CreateDisclosure(r, reason).value)
    ensures ValidRequest(r) ==> ValidDisclosure(CreateDisclosure(r, reason).value)
    ensures CreateDisclosure(r, reason).value.reason == reason
  {
    hide DegreeFor;
    var d := CreateDisclosure(r, reason).value;
    forall face | 1 <= face <= 20 ensures d.degrees[face - 1] == Resolve(Rebuild(d), face).finalDegree {
      assert d.degrees[face - 1] == Resolve(r, face - 1 + 1).finalDegree;
    }
  }

  /** Aid gives the death test its edge and discloses it anew. */
  function Aided(d: Disclosure): Outcome<Disclosure> {
    CreateDisclosure(Rebuild(d).(edge := true), PermanentDeath)
  }

  /** An aided death test never shows a worse outcome on any face than it did before. */
  lemma AidNeverHurts(d: Disclosure, face: int)
    requires Honest(d) && !d.modifiers.edge && 1 <= face <= 20
    ensures Aided(d).Done? && Honest(Aided(d).value)
    ensures DegreeIndex(d.degrees[face - 1]) <= DegreeIndex(Aided(d).value.degrees[face - 1])
  {
    hide DegreeFor, DegreeIndex;
    CreatedIsHonest(Rebuild(d).(edge := true), PermanentDeath);
    var aided := Aided(d).value;
    assert d.degrees[face - 1] == Resolve(Rebuild(d), face).finalDegree;
    assert aided.degrees[face - 1] == Resolve(Rebuild(aided), face).finalDegree;
    DegreeIsMonotone(face, d.target, FinalModifier(Rebuild(d)), FinalModifier(Rebuild(d).(edge := true)));
  }

  lemma DegreeIsMonotone(face: int, target: int, m: int, n: int)
    requires m <= n
    ensures DegreeIndex(DegreeFor(face, target, m)) <= DegreeIndex(DegreeFor(face, target, n))
  {}

  // ----- Selecting a physical roll -----

  datatype Selection =
    | SelectionRejected
    | Simulated
    | Physical(request: Request, disclosure: Disclosure, sparkSpent: bool)

  /** The supplied mandatory reasons, deduplicated in precedence order; Spark comes last. */
  function PrimaryReason(mandatory: seq<Reason>, invokeSpark: bool): Option<Reason> {
    if PermanentDeath in mandatory then Some(PermanentDeath)
    else if IrreversibleStake in mandatory then Some(IrreversibleStake)
    else if BossTransition in mandatory then Some(BossTransition)
    else if PivotalConclusion in mandatory then Some(PivotalConclusion)
    else if invokeSpark then Some(SparkInvocation)
    else None
  }

  function SelectPhysicalRoll(r: Request, mandatory: seq<Reason>, invokeSpark: bool): Selection {
    if invokeSpark && !r.sparkEligible then SelectionRejected
    else
      match PrimaryReason(mandatory, invokeSpark)
      case None => Simulated
      case Some(reason) =>
        var asked := if invokeSpark then r.(edge := true) else r;
        match CreateDisclosure(asked, reason)
        case Refused => SelectionRejected
        case Done(d) => Physical(asked, d, invokeSpark)
  }

  /** What a selection discloses is honest, well formed, and forced by a reason. */
  lemma SelectedIsHonest(r: Request, mandatory: seq<Reason>, invokeSpark: bool)
    requires SelectPhysicalRoll(r, mandatory, invokeSpark).Physical?
    ensures Honest(SelectPhysicalRoll(r, mandatory, invokeSpark).disclosure)
    ensures ValidRequest(r) ==> ValidDisclosure(SelectPhysicalRoll(r, mandatory, invokeSpark).disclosure)
    ensures var reason := SelectPhysicalRoll(r, mandatory, invokeSpark).disclosure.reason;
            reason in mandatory || (invokeSpark && reason == SparkInvocation)
  {
    hide CreateDisclosure, Honest, ValidDisclosure;
    CreatedIsHonest(if invokeSpark then r.(edge := true) else r, PrimaryReason(mandatory, invokeSpark).value);
  }

  /** A roll is physical exactly when a mandatory reason or an invoked Spark asks for it. */
  lemma SimulatedExactly(r: Request, mandatory: seq<Reason>, invokeSpark: bool)
    requires forall reason :: reason in mandatory ==> reason != SparkInvocation
    ensures SelectPhysicalRoll(r, mandatory, invokeSpark).Simulated? <==> mandatory == [] && !invokeSpark
  {
    if mandatory != [] {
      assert mandatory[0] in mandatory;
    }
  }
}
