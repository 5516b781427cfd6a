/** Two concrete presentations that differ in one transition: one is refused although all its cycles are merged, the
    other is accepted although the runner never stops on it. */
module GuidedSamples {
  import opened Common
  import opened Graphs
  import opened GuidedGraph
  import opened GuidedOrder
  import opened GuidedRunner

  function Plain(id: BeatId, kind: BeatKind, transitions: seq<Transition>, conclusion: Option<Conclusion>): Beat {
    Beat(id, kind, false, None, false, [], transitions, false, conclusion)
  }

  /** A private clue, declared a merge, that continues to the beat given. */
  function Clue(next: BeatId): Beat {
    Beat(1, PrivateClue, true, Some(1), true, [], [Transition(Continue, None, next)], true, None)
  }

  function Start(): Beat {
    Plain(0, Opening,
      [Transition(Continue, None, 1), Transition(CrisisOutcome, None, 2), Transition(SetbackOutcome, None, 3),
       Transition(SuccessOutcome, None, 4), Transition(TriumphOutcome, None, 5), Transition(CombatVictory, None, 6),
       Transition(Withdrawal, None, 7), Transition(Cost, None, 8), Transition(Defeat, None, 9)], None)
  }

  function Fork(): Beat {
    Plain(2, ChallengeBeat, [Transition(SuccessOutcome, None, 10), Transition(SetbackOutcome, None, 11)], None)
  }

  function Story(next: BeatId): seq<Beat> {
    [Start(), Clue(next), Fork(), Plain(3, SocialBeat, [], None), Plain(4, RitualBeat, [], None),
      Plain(5, CombatBeat, [], None),
     Plain(6, MandatoryPhysical, [], None), Plain(7, OptionalSpark, [], None),
     Plain(8, ConclusionBeat, [], Some(CleanSuccess)), Plain(9, ConclusionBeat, [], Some(EndsInDefeat)),
     Plain(10, ConclusionBeat, [], Some(SuccessWithCost)), Plain(11, ConclusionBeat, [], Some(EndsInWithdrawal))]
  }

  function Presentation(next: BeatId): Manifest {
    Manifest(0, Story(next), [0, 1, 2, 3, 4], [Connection(0, 1), Connection(0, 2), Connection(0, 3), Connection(0, 4)])
  }

  lemma StoryIds(next: BeatId)
    ensures |Story(next)| == 12 && forall i :: 0 <= i < 12 ==> Story(next)[i].beatId == i
    ensures BeatIds(Story(next)) == [0, 1, 2, 3, 4, 5, 6, 7, 8, 9, 10, 11] && Distinct(BeatIds(Story(next)))
  {
    var ids := BeatIds(Story(next));
    assert ids == [0, 1, 2, 3, 4, 5, 6, 7, 8, 9, 10, 11];
    forall i, j | 0 <= i < j < |ids| ensures ids[i] != ids[j] {
      assert ids[i] == i && ids[j] == j;
    }
  }

  /** The edges of the story, both ways. */
  lemma StoryEdges(next: BeatId)
    ensures BeatGraph(Story(next)).Keys == Elements([0, 1, 2, 3, 4, 5, 6, 7, 8, 9, 10, 11])
    ensures forall v, w :: Edge(BeatGraph(Story(next)), v, w) <==>
              (v == 0 && 1 <= w <= 9) || (v == 1 && w == next) || (v == 2 && (w == 10 || w == 11))
    ensures Merges(Story(next)) == {1}
  {
    hide BeatGraph, Merges, Distinct, Story;
    StoryIds(next);
    BeatGraphKeys(Story(next));
    MergesAreBeats(Story(next));
    forall k | 0 <= k < 12 ensures k in BeatGraph(Story(next))
      && BeatGraph(Story(next))[k] == Targets(Story(next)[k].transitions)
                                    && (k in Merges(Story(next)) <==> Story(next)[k].declaredMerge) {
      BeatGraphLookup(Story(next), k);
    }
    StoryTargets(next);
    assert forall v :: v in [0, 1, 2, 3, 4, 5, 6, 7, 8, 9, 10, 11] ==> v < 12;
    EdgesOf(BeatGraph(Story(next)), next);
    forall v | v in Merges(Story(next)) ensures v == 1 {
      assert v in [0, 1, 2, 3, 4, 5, 6, 7, 8, 9, 10, 11];
    }
  }

  lemma EdgesOf(g: Graph, next: BeatId)
    requires forall k :: k in g <==> 0 <= k < 12
    requires g[0] == [1, 2, 3, 4, 5, 6, 7, 8, 9] && g[1] == [next] && g[2] == [10, 11] && forall k :: 3 <= k < 12 ==>
             g[k] == []
    ensures forall v, w :: Edge(g, v, w) <==>
            (v == 0 && 1 <= w <= 9) || (v == 1 && w == next) || (v == 2 && (w == 10 || w == 11))
  {
    forall w ensures w in g[0] <==> 1 <= w <= 9 {
      if 1 <= w <= 9 {
        assert g[0][w - 1] == w;
      }
    }
  }

  lemma StoryTargets(next: BeatId)
    ensures |Story(next)| == 12
    ensures Targets(Story(next)[0].transitions) == [1, 2, 3, 4, 5, 6, 7, 8, 9]
            && Targets(Story(next)[1].transitions) == [next]
    ensures Targets(Story(next)[2].transitions) == [10, 11] && forall k :: 3 <= k < 12 ==>
            Targets(Story(next)[k].transitions) == []
    ensures forall k :: 0 <= k < 12 ==> (Story(next)[k].declaredMerge <==> k == 1)
  {
    assert Targets(Start().transitions) == [1, 2, 3, 4, 5, 6, 7, 8, 9];
    assert Targets(Clue(next).transitions) == [next];
    assert Targets(Fork().transitions) == [10, 11];
  }

  lemma StorySound(next: BeatId)
    ensures BeatsSound(Story(next)) && forall b :: b in Story(next) ==> |b.options| <= 6 && |b.transitions| <= 12
  {
    hide BeatSound, Story;
    StoryIds(next);
    forall k | 0 <= k < 12 ensures BeatSound(Story(next)[k]) && |Story(next)[k].options| <= 6
      && |Story(next)[k].transitions| <= 12 {
      StoryBeatSound(next, k);
    }
  }

  lemma StoryBeatSound(next: BeatId, k: nat)
    requires k < 12
    ensures |Story(next)| == 12 && BeatSound(Story(next)[k]) && |Story(next)[k].options| <= 6
            && |Story(next)[k].transitions| <= 12
  {}

  lemma KindPresent(beats: seq<Beat>, k: nat)
    requires k < |beats|
    ensures beats[k].kind in Kinds(beats)
    ensures beats[k].conclusion.Some? ==> beats[k].conclusion.value in Conclusions(beats)
  {
    assert beats[k] in beats;
  }

  lemma StoryKinds(next: BeatId)
    ensures forall k :: k in REQUIRED_KINDS ==> k in Kinds(Story(next))
    ensures forall c :: c in REQUIRED_CONCLUSIONS ==> c in Conclusions(Story(next))
  {
    hide Kinds, Conclusions, Story;
    StoryRoles(next);
    forall k | 0 <= k < 12 ensures Story(next)[k].kind in Kinds(Story(next))
      && (Story(next)[k].conclusion.Some? ==> Story(next)[k].conclusion.value in Conclusions(Story(next))) {
      KindPresent(Story(next), k);
    }
  }

  lemma StoryRoles(next: BeatId)
    ensures |Story(next)| == 12
    ensures Story(next)[1].kind == PrivateClue && Story(next)[2].kind == ChallengeBeat
            && Story(next)[3].kind == SocialBeat
    ensures Story(next)[4].kind == RitualBeat && Story(next)[5].kind == CombatBeat
            && Story(next)[6].kind == MandatoryPhysical
    ensures Story(next)[7].kind == OptionalSpark
    ensures Story(next)[8].conclusion == Some(CleanSuccess) && Story(next)[9].conclusion == Some(EndsInDefeat)
    ensures Story(next)[10].conclusion == Some(SuccessWithCost) && Story(next)[11].conclusion == Some(EndsInWithdrawal)
  {
    hide Start;
  }

  lemma StoryContent(next: BeatId)
    ensures WithinSchema(Presentation(next)) && ContentAccepted(Presentation(next))
  {
    hide Story, BeatsSound, Kinds, Conclusions, BeatIds, Distinct;
    StoryIds(next);
    StorySound(next);
    StoryKinds(next);
  }

  /** Every beat can be reached, and every transition names a beat. */
  lemma StoryIsWhole(next: BeatId)
    requires next < 12
    ensures Distinct(BeatIds(Story(next))) && 0 in BeatGraph(Story(next)) && Closed(BeatGraph(Story(next)), Story(next))
    ensures forall v :: v in BeatIds(Story(next)) ==> Reaches(BeatGraph(Story(next)), 0, v)
  {
    hide BeatGraph, Merges, Distinct, Reaches, Story;
    var g := BeatGraph(Story(next));
    StoryIds(next);
    StoryEdges(next);
    StoryClosed(next);
    ReachesSelf(g, 0);
    forall v | v in BeatIds(Story(next)) ensures Reaches(g, 0, v) {
      if 1 <= v <= 9 {
        ReachesExtend(g, 0, 0, v);
      } else if v >= 10 {
        ReachesExtend(g, 0, 0, 2);
        ReachesExtend(g, 0, 2, v);
      }
    }
  }

  lemma StoryClosed(next: BeatId)
    requires next < 12
    ensures Closed(BeatGraph(Story(next)), Story(next))
  {
    hide BeatGraph, Merges, Distinct, Story;
    var g := BeatGraph(Story(next));
    StoryEdges(next);
    StoryIds(next);
    StoryTargets(next);
    forall k | 0 <= k < 12 ensures Undangling(g, Story(next)[k]) {
      assert k >= 3 ==> Targets(Story(next)[k].transitions) == [];
    }
  }

  /** On a cycle every beat is led to from the cycle. */
  lemma LedTo(g: Graph, p: seq<BeatId>, v: BeatId) returns (u: BeatId)
    requires Cycle(g, p) && v in p
    ensures u in p && Edge(g, u, v)
  {
    var i :| 0 <= i < |p| && p[i] == v;
    if i == 0 {
      assert Step(g, p, |p| - 2);
      u := p[|p| - 2];
    } else {
      assert Step(g, p, i - 1);
      u := p[i - 1];
    }
  }

  /** With the clue leading back to the start every cycle passes the clue. */
  lemma CyclesPassClue(p: seq<BeatId>)
    requires Cycle(BeatGraph(Story(0)), p)
    ensures 1 in p
  {
    hide BeatGraph, Cycle, Story;
    var g := BeatGraph(Story(0));
    StoryEdges(0);
    CycleHasBeat(g, p);
    var u := LedTo(g, p, p[0]);
    if u == 2 {
      u := LedTo(g, p, 2);
    }
    if u == 0 {
      u := LedTo(g, p, 0);
    }
  }

  lemma CycleHasBeat(g: Graph, p: seq<BeatId>)
    requires Cycle(g, p)
    ensures |p| > 0 && p[0] in p
  {}

  /** The converse of soundness fails: this presentation passes every other check and all its cycles pass the
      declared merge, yet it is refused, because the walk enters the unmerged start of the cycle first. */
  lemma MergedCycleCanBeRefused()
    ensures var m := Presentation(0);
            && WithinSchema(m) && ContentAccepted(m)
            && Distinct(BeatIds(m.beats)) && m.startBeatId in BeatGraph(m.beats) && Closed(BeatGraph(m.beats), m.beats)
            && (forall v :: v in BeatIds(m.beats) ==> Reaches(BeatGraph(m.beats), m.startBeatId, v))
            && (forall p :: Cycle(BeatGraph(m.beats), p) ==> exists i :: 0 <= i < |p| && p[i] in Merges(m.beats))
            && !Accepts(m)
  {
    hide BeatGraph, Merges, Story, Distinct, Closed, Reaches, Cycle, WithinSchema, ContentAccepted, GraphAccepted,
         GraphSearch, BeatIds, Elements;
    var m := Presentation(0);
    StoryContent(0);
    StoryIsWhole(0);
    StoryEdges(0);
    forall p | Cycle(BeatGraph(m.beats), p) ensures exists i :: 0 <= i < |p| && p[i] in Merges(m.beats) {
      CyclesPassClue(p);
      var i :| 0 <= i < |p| && p[i] == 1;
    }
    RoundTrip();
    UnmergedStartIsRefused(m, [0, 1, 0]);
  }

  lemma RoundTrip()
    ensures Cycle(BeatGraph(Story(0)), [0, 1, 0])
  {
    hide BeatGraph, Story;
    StoryEdges(0);
    var g, p := BeatGraph(Story(0)), [0, 1, 0];
    forall i: nat | i + 1 < |p| ensures Step(g, p, i) {
      assert Edge(g, 0, 1) && Edge(g, 1, 0);
    }
  }

  /** With the clue leading back to itself it is alone on every cycle. */
  lemma OnlyClueOnCycles(p: seq<BeatId>)
    requires Cycle(BeatGraph(Story(1)), p)
    ensures p[0] == 1
  {
    hide BeatGraph, Cycle, Story;
    var g := BeatGraph(Story(1));
    StoryEdges(1);
    CycleHasBeat(g, p);
    if p[0] != 1 {
      var u := LedTo(g, p, p[0]);
      if u == 2 {
        u := LedTo(g, p, 2);
      }
      u := LedTo(g, p, 0);
      assert false;
    }
  }

  /** Merged clues are where acceptance is not enough: this presentation is accepted, its start continues to the
      clue, and the loop that follows never ends. */
  lemma MergedClueCanHang()
    ensures var m := Presentation(1);
            && Accepts(m) && Target(m.beats, m.startBeatId, Continue, None) == Some(At(m.beats, 1))
            && !Stops(m.beats, At(m.beats, 1))
  {
    hide BeatGraph, Merges, Story, Distinct, Closed, Reaches, Walk, WithinSchema, ContentAccepted, GraphAccepted,
         Stops, Target, Clue, BeatIds, Elements;
    var m := Presentation(1);
    StoryContent(1);
    StoryIsWhole(1);
    StoryEdges(1);
    forall p | Cycle(BeatGraph(m.beats), p) ensures p[0] in Merges(m.beats) {
      OnlyClueOnCycles(p);
    }
    MergedCyclesAreAccepted(m);
    ClueForEver();
    StoryIds(1);
  }

  lemma ClueForEver()
    ensures |Story(1)| == 12 && Story(1)[1] == Clue(1) && Target(Story(1), 0, Continue, None) == Some(Clue(1))
            && Clue(1) in Story(1) && !Stops(Story(1), Clue(1))
  {
    hide Story, FindBeat, Continuation, Target;
    var beats, clue := Story(1), Clue(1);
    ClueContinues();
    ChainNext(beats, clue, 0);
    assert ChainAt(beats, clue, 0) == ChainAt(beats, clue, 1);
    forall n: nat ensures ChainAt(beats, clue, n).Some? {
      RevisitNeverStops(beats, clue, 0, 1, n);
    }
  }

  lemma ClueContinues()
    ensures |Story(1)| == 12 && Story(1)[1] == Clue(1) && Clue(1) in Story(1)
    ensures Target(Story(1), 0, Continue, None) == Some(Clue(1)) && Continuation(Story(1), Clue(1)) == Some(Clue(1))
  {
    hide Story, FindBeat;
    StoryOpens();
    FindFirstTwo(Story(1));
  }

  lemma StoryOpens()
    ensures |Story(1)| == 12 && Story(1)[0] == Start() && Story(1)[1] == Clue(1)
  {}

  lemma FindFirstTwo(beats: seq<Beat>)
    requires |beats| >= 2 && beats[0].beatId == 0 && beats[1].beatId == 1
    ensures FindBeat(beats, 0) == Some(beats[0]) && FindBeat(beats, 1) == Some(beats[1])
  {
    assert beats[1..][0] == beats[1];
  }
}
