/** The guided runner: which beats one outcome enters. */
module GuidedRunner {
  import opened Common
  import opened GuidedGraph

  /** The first beat of that identity, as `beats.find` gives it. */
  function FindBeat(beats: seq<Beat>, id: BeatId): (r: Option<Beat>)
    ensures r.Some? ==> r.value in beats && r.value.beatId == id
    ensures r.None? ==> forall beat :: beat in beats ==> beat.beatId != id
  {
    if beats == [] then None
    else if beats[0].beatId == id then Some(beats[0])
    else FindBeat(beats[1..], id)
  }

  predicate Fires(t: Transition, outcome: GuidedOutcome, optionId: Option<nat>) {
    t.on == outcome && (t.on == SelectedOption ==> t.optionId == optionId)
  }

  function FindTransition(ts: seq<Transition>, outcome: GuidedOutcome, optionId: Option<nat>): (r: Option<Transition>)
    ensures r.Some? ==> r.value in ts && Fires(r.value, outcome, optionId)
    ensures r.None? ==> forall t :: t in ts ==> !Fires(t, outcome, optionId)
  {
    if ts == [] then None
    else if Fires(ts[0], outcome, optionId) then Some(ts[0])
    else FindTransition(ts[1..], outcome, optionId)
  }

  /** Where a private clue passes on to, if anywhere. */
  function Continuation(beats: seq<Beat>, beat: Beat): (r: Option<Beat>)
    ensures r.Some? ==> r.value in beats
  {
    var t := FindTransition(beat.transitions, Continue, None);
    if t.None? then None else FindBeat(beats, t.value.to)
  }

  /** The beat the loop of `advance` looks at in its `n`-th turn, if it has one. */
  function ChainAt(beats: seq<Beat>, beat: Beat, n: nat): (r: Option<Beat>)
    requires beat in beats
    ensures r.Some? ==> r.value in beats
  {
    if n == 0 then Some(beat)
    else
      var previous := ChainAt(beats, beat, n - 1);
      if previous.Some? && previous.value.kind.PrivateClue? then Continuation(beats, previous.value) else None
  }

  ghost predicate Stops(beats: seq<Beat>, beat: Beat)
    requires beat in beats
  {
    exists n :: ChainAt(beats, beat, n).None?
  }

  /** Within as many turns as there are beats, the loop never looks at one beat twice. */
  predicate NoRevisit(beats: seq<Beat>, beat: Beat)
    requires beat in beats
  {
    forall i, j :: 0 <= i < j <= |beats| && ChainAt(beats, beat, j).Some? ==>
      ChainAt(beats, beat, i) != ChainAt(beats, beat, j)
  }

  lemma {:induction false} ChainStaysStopped(beats: seq<Beat>, beat: Beat, i: nat, j: nat)
    requires beat in beats && i <= j && ChainAt(beats, beat, i).None?
    ensures ChainAt(beats, beat, j).None?
  {
    hide Continuation;
    if i < j {
      ChainStaysStopped(beats, beat, i, j - 1);
    }
  }

  lemma ChainNext(beats: seq<Beat>, beat: Beat, n: nat)
    requires beat in beats
    ensures var current := ChainAt(beats, beat, n);
            ChainAt(beats, beat, n + 1) ==
            if current.Some? && current.value.kind.PrivateClue? then Continuation(beats, current.value) else None
  {
    hide Continuation;
  }

  lemma {:induction false} ChainRepeats(beats: seq<Beat>, beat: Beat, i: nat, j: nat, n: nat)
    requires beat in beats && ChainAt(beats, beat, i) == ChainAt(beats, beat, j)
    ensures ChainAt(beats, beat, i + n) == ChainAt(beats, beat, j + n)
  {
    hide ChainAt, Continuation;
    if n > 0 {
      ChainRepeats(beats, beat, i, j, n - 1);
      ChainNext(beats, beat, i + n - 1);
      ChainNext(beats, beat, j + n - 1);
    }
  }

  /** A chain that comes back to a beat goes round for ever. */
  lemma {:induction false} RevisitNeverStops(beats: seq<Beat>, beat: Beat, i: nat, j: nat, n: nat)
    requires beat in beats && i < j
    requires ChainAt(beats, beat, i) == ChainAt(beats, beat, j) && ChainAt(beats, beat, j).Some?
    ensures ChainAt(beats, beat, n).Some?
  {
    hide ChainAt;
    if n <= j {
      if ChainAt(beats, beat, n).None? {
        ChainStaysStopped(beats, beat, n, j);
      }
    } else {
      ChainRepeats(beats, beat, i, j, n - j);
      RevisitNeverStops(beats, beat, i, j, i + (n - j));
    }
  }

  /** The first entries of a chain that has not stopped. */
  function ChainPrefix(beats: seq<Beat>, beat: Beat, n: nat): (r: seq<Beat>)
    requires beat in beats
    requires forall k :: 0 <= k < n ==> ChainAt(beats, beat, k).Some?
    ensures |r| == n && forall k :: 0 <= k < n ==> r[k] == ChainAt(beats, beat, k).value
  {
    seq(n, k requires 0 <= k < n => ChainAt(beats, beat, k).value)
  }

  /** The loop of `advance` comes to an end exactly when it never looks at a beat twice, and then within as many
      turns as there are beats. */
  lemma StopsExactlyWithoutRevisit(beats: seq<Beat>, beat: Beat)
    requires beat in beats
    ensures Stops(beats, beat) <==> NoRevisit(beats, beat)
    ensures Stops(beats, beat) ==> ChainAt(beats, beat, |beats|).None?
  {
    if !NoRevisit(beats, beat) {
      var i, j :| 0 <= i < j <= |beats| && ChainAt(beats, beat, j).Some?
        && ChainAt(beats, beat, i) == ChainAt(beats, beat, j);
      forall n: nat ensures ChainAt(beats, beat, n).Some? {
        RevisitNeverStops(beats, beat, i, j, n);
      }
    } else if ChainAt(beats, beat, |beats|).Some? {
      LongChainRevisits(beats, beat);
    }
  }

  lemma LongChainRevisits(beats: seq<Beat>, beat: Beat)
    requires beat in beats
    requires ChainAt(beats, beat, |beats|).Some?
    ensures !NoRevisit(beats, beat)
  {
    hide ChainPrefix, ChainAt, Distinct;
    var n := |beats|;
    forall k | 0 <= k < n + 1 ensures ChainAt(beats, beat, k).Some? {
      if ChainAt(beats, beat, k).None? {
        ChainStaysStopped(beats, beat, k, n);
      }
    }
    var r := ChainPrefix(beats, beat, n + 1);
    if NoRevisit(beats, beat) {
      forall i, j | 0 <= i < j < |r| ensures r[i] != r[j] {
        assert ChainAt(beats, beat, i) != ChainAt(beats, beat, j);
      }
      DistinctCardinality(r);
      CardinalityBound(beats);
      assert Elements(r) <= Elements(beats);
      SubsetCardinality(Elements(r), Elements(beats));
      assert false;
    }
  }

  lemma ChainEndsInTime(beats: seq<Beat>, beat: Beat, n: nat)
    requires beat in beats && NoRevisit(beats, beat)
    ensures n >= |beats| ==> ChainAt(beats, beat, n).None?
  {
    hide NoRevisit, Stops, ChainAt;
    StopsExactlyWithoutRevisit(beats, beat);
    if n >= |beats| {
      ChainStaysStopped(beats, beat, |beats|, n);
    }
  }

  /** The beat that an outcome of the current beat leads to. */
  function Target(beats: seq<Beat>, currentBeatId: BeatId, outcome: GuidedOutcome,
      optionId: Option<nat>): (r: Option<Beat>)
    ensures r.Some? ==> r.value in beats
  {
    var current := FindBeat(beats, currentBeatId);
    if current.None? then None
    else
      var transition := FindTransition(current.value.transitions, outcome, optionId);
      if transition.None? then None else FindBeat(beats, transition.value.to)
  }

  ghost predicate IsChain(beats: seq<Beat>, first: Beat, entered: seq<Beat>)
    requires first in beats
  {
    forall k :: 0 <= k < |entered| ==> ChainAt(beats, first, k) == Some(entered[k])
  }

  lemma ChainStart(beats: seq<Beat>, first: Beat)
    requires first in beats
    ensures ChainAt(beats, first, 0) == Some(first) && IsChain(beats, first, [])
  {}

  lemma ChainStep(beats: seq<Beat>, first: Beat, entered: seq<Beat>, next: Beat)
    requires first in beats && IsChain(beats, first, entered) && ChainAt(beats, first, |entered|) == Some(next)
    ensures IsChain(beats, first, entered + [next])
    ensures ChainAt(beats, first, |entered| + 1) == if next.kind.PrivateClue? then Continuation(beats, next) else None
  {
    hide ChainAt, Continuation, IsChain;
    ChainNext(beats, first, |entered|);
    LongerChain(beats, first, entered, next);
  }

  lemma LongerChain(beats: seq<Beat>, first: Beat, entered: seq<Beat>, next: Beat)
    requires first in beats && IsChain(beats, first, entered) && ChainAt(beats, first, |entered|) == Some(next)
    ensures IsChain(beats, first, entered + [next])
  {
    hide ChainAt, Continuation, FindBeat, FindTransition;
    var longer := entered + [next];
    forall k | 0 <= k < |longer| ensures ChainAt(beats, first, k) == Some(longer[k]) {
      if k == |entered| {
        assert longer[k] == next;
      } else {
        assert longer[k] == entered[k];
        assert ChainAt(beats, first, k) == Some(entered[k]);
      }
    }
  }

  lemma ChainIsWhole(beats: seq<Beat>, first: Beat, entered: seq<Beat>)
    requires first in beats && NoRevisit(beats, first) && entered != []
    requires IsChain(beats, first, entered) && ChainAt(beats, first, |entered|).None?
    ensures WholeChain(beats, first, entered)
  {
    hide Continuation;
    ChainIsDistinct(beats, first, entered);
  }

  /** `entered` is the whole chain from `first`: every turn of it, in order, none twice. */
  ghost predicate WholeChain(beats: seq<Beat>, first: Beat, entered: seq<Beat>)
    requires first in beats
  {
    && entered != []
    && IsChain(beats, first, entered)
    && ChainAt(beats, first, |entered|).None?
    && Distinct(entered)
  }

  /** The runner holds its manifest; the stored room and the narration are not part of this model. */
  class Runner {
    const manifest: Manifest

    constructor (manifest: Manifest)
      ensures this.manifest == manifest
    {
      this.manifest := manifest;
    }

    /** The beats entered for one outcome, or a refusal when it leads nowhere. */
    method Advance(currentBeatId: BeatId, outcome: GuidedOutcome, optionId: Option<nat>) returns (r: Outcome<seq<Beat>>)
      requires var first := Target(manifest.beats, currentBeatId, outcome, optionId);
               first.Some? ==> NoRevisit(manifest.beats, first.value)
      ensures r.Refused? <==> Target(manifest.beats, currentBeatId, outcome, optionId).None?
      ensures r.Done? ==>
              WholeChain(manifest.beats, Target(manifest.beats, currentBeatId, outcome, optionId).value, r.value)
    {
      hide NoRevisit, ChainAt, WholeChain, FindTransition, FindBeat;
      var beats := manifest.beats;
      var current := FindBeat(beats, currentBeatId);
      if current.None? { return Refused; }
      var transition := FindTransition(current.value.transitions, outcome, optionId);
      if transition.None? { return Refused; }
      var entered := [];
      var next := FindBeat(beats, transition.value.to);
      if next.None? { return Refused; }
      ghost var first := next.value;
      ChainStart(beats, first);
      while next.Some?
        invariant next == ChainAt(beats, first, |entered|)
        invariant IsChain(beats, first, entered)
        invariant entered == [] ==> next.Some?
        decreases |beats| + 1 - |entered|, next
      {
        ChainEndsInTime(beats, first, |entered|);
        ChainStep(beats, first, entered, next.value);
        entered := entered + [next.value];
        if !next.value.kind.PrivateClue? {
          next := None;
          break;
        }
        var continuation := FindTransition(next.value.transitions, Continue, None);
        next := if continuation.None? then None else FindBeat(beats, continuation.value.to);
      }
      ChainIsWhole(beats, first, entered);
      return Done(entered);
    }
  }

  lemma ChainIsDistinct(beats: seq<Beat>, first: Beat, entered: seq<Beat>)
    requires first in beats && NoRevisit(beats, first)
    requires IsChain(beats, first, entered)
    ensures Distinct(entered)
  {
    forall i, j | 0 <= i < j < |entered| ensures entered[i] != entered[j] {
      ChainEndsInTime(beats, first, j);
      assert ChainAt(beats, first, i) != ChainAt(beats, first, j);
    }
  }

  // ----- Accepted manifests -----

  predicate NoMergedClue(beats: seq<Beat>) {
    forall beat :: beat in beats && beat.kind.PrivateClue? ==> !beat.declaredMerge
  }

  /** One turn of the loop on an accepted manifest goes down the rank or meets no private clue. */
  lemma ContinuationFalls(m: Manifest, rank: map<BeatId, nat>, beat: Beat)
    requires GraphAccepted(m) && NoMergedClue(m.beats) && RankFalls(BeatGraph(m.beats), Merges(m.beats), rank)
    requires beat in m.beats && Continuation(m.beats, beat).Some?
    requires Continuation(m.beats, beat).value.kind.PrivateClue?
    ensures var next := Continuation(m.beats, beat).value;
            beat.beatId in rank && next.beatId in rank && rank[next.beatId] < rank[beat.beatId]
  {
    hide GraphSearch, Merges, BeatGraph, FindTransition, BeatIds;
    var g, next := BeatGraph(m.beats), Continuation(m.beats, beat).value;
    var t := FindTransition(beat.transitions, Continue, None).value;
    var i :| 0 <= i < |beat.transitions| && beat.transitions[i] == t;
    var k :| 0 <= k < |m.beats| && m.beats[k] == beat;
    BeatGraphLookup(m.beats, k);
    assert Targets(beat.transitions)[i] == next.beatId;
    var n :| 0 <= n < |m.beats| && m.beats[n] == next;
    BeatGraphLookup(m.beats, n);
  }

  lemma {:induction false} ChainFalls(m: Manifest, rank: map<BeatId, nat>, beat: Beat, i: nat, j: nat)
    requires GraphAccepted(m) && NoMergedClue(m.beats) && RankFalls(BeatGraph(m.beats), Merges(m.beats), rank)
    requires beat in m.beats && i < j
    requires ChainAt(m.beats, beat, j).Some? && ChainAt(m.beats, beat, j).value.kind.PrivateClue?
    ensures ChainAt(m.beats, beat, i).Some?
    ensures var later, earlier := ChainAt(m.beats, beat, j).value.beatId, ChainAt(m.beats, beat, i).value.beatId;
            later in rank && earlier in rank && rank[later] < rank[earlier]
  {
    hide GraphAccepted, RankFalls, NoMergedClue, BeatGraph, Merges, Continuation;
    var previous := ChainAt(m.beats, beat, j - 1);
    ContinuationFalls(m, rank, previous.value);
    if i < j - 1 {
      ChainFalls(m, rank, beat, i, j - 1);
    }
  }

  /** On a manifest that passes the graph checks and in which no private clue is a declared merge the loop always ends,
      entering each beat at most once: the requirement of `Advance` holds. */
  lemma AcceptedChainsNeverRevisit(m: Manifest, beat: Beat)
    requires GraphAccepted(m) && NoMergedClue(m.beats) && beat in m.beats
    ensures NoRevisit(m.beats, beat) && Stops(m.beats, beat)
  {
    hide GraphAccepted, NoMergedClue, RankFalls, Continuation;
    var rank := AcceptedHasRank(m);
    forall i, j | 0 <= i < j <= |m.beats| && ChainAt(m.beats, beat, j).Some?
      ensures ChainAt(m.beats, beat, i) != ChainAt(m.beats, beat, j)
    {
      if ChainAt(m.beats, beat, j).value.kind.PrivateClue? {
        ChainFalls(m, rank, beat, i, j);
      } else if ChainAt(m.beats, beat, i) == ChainAt(m.beats, beat, j) {
        assert ChainAt(m.beats, beat, i + 1).None?;
        ChainStaysStopped(m.beats, beat, i + 1, j);
      }
    }
    StopsExactlyWithoutRevisit(m.beats, beat);
  }
}
