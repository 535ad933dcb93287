/**
  What a finished search over a routine says about control flow: no block of a routine has more
  than two successors, so that every search meets each block twice at most.
*/
module RoutineChains {
  import opened Collections
  import opened ControlFlow
  import opened PostDominatorForest
  import opened PostDominance
  import opened RoutineGraphs

  ghost function Successors(g: Graph, p: int): set<int> {
    set c | c in g && p in g[c]
  }

  /** The blocks from which a run has met p. */
  ghost function MetFrom(steps: seq<Visit>, p: int): set<int> {
    set v | v in steps && v.pred == p :: v.block
  }

  lemma {:induction false} MeetingsAreFrom(steps: seq<Visit>, p: int)
    requires NoRepeats(steps)
    ensures Meetings(steps, p) == |MetFrom(steps, p)|
    decreases |steps|
  {
    if steps != [] {
      var before, last := steps[..|steps| - 1], steps[|steps| - 1];
      MeetingsAreFrom(before, p);
      assert forall v :: v in steps <==> v in before || v == last;
      if last.pred == p {
        assert last !in before;
        assert Visit(last.block, p) == last;
        assert MetFrom(steps, p) == MetFrom(before, p) + {last.block};
        assert last.block !in MetFrom(before, p);
      } else {
        assert MetFrom(steps, p) == MetFrom(before, p);
      }
    }
  }

  lemma {:induction false} VisitsAreEdges(g: Graph, steps: seq<Visit>)
    requires IsRun(g, steps)
    ensures forall v :: v in steps ==> Flows(g, v.pred, v.block)
    decreases |steps|
  {
    if steps != [] {
      VisitsAreEdges(g, steps[..|steps| - 1]);
    }
  }

  lemma SmallerSet(a: set<int>, b: set<int>)
    requires a <= b
    ensures |a| <= |b|
  {
    assert b == a + (b - a);
  }

  lemma AtMostTwoJumps(r: Routine, i: int)
    requires 0 <= i < |r.ins|
    ensures |Jumps(r, i)| <= 2
  {
    if LoopsOnItself(r, i) {
      assert Jumps(r, i) == {r.ins[i].kind.target, NextAddress(r, i)};
    }
  }

  /** A block has an edge to each of at most two others. */
  lemma AtMostTwoSuccessors(r: Routine, p: int)
    requires IsRoutine(r)
    ensures |Successors(FlowGraph(r), p)| <= 2
  {
    var s := Successors(FlowGraph(r), p);
    if s != {} {
      var c :| c in s;
      EdgesAreSteps(r, Edge(p, c));
      var l :| Justifies(r, l, Edge(p, c));
      forall a | a in s
        ensures Links(r, l, a)
      {
        EdgesOfBlock(r, l, a);
      }
      if Ends(r, l) {
        AtMostTwoJumps(r, l);
        SmallerSet(s, Jumps(r, l));
      } else {
        SmallerSet(s, {r.ins[l + 1].addr});
      }
    }
  }

  lemma SearchMeetsAtMostTwice(r: Routine, end: Outcome)
    requires IsRoutine(r) && IsOutcome(FlowGraph(r), end)
    ensures MeetsAtMostTwice(end.steps)
  {
    var g := FlowGraph(r);
    VisitsAreEdges(g, end.steps);
    forall p
      ensures Meetings(end.steps, p) <= 2
    {
      MeetingsAreFrom(end.steps, p);
      SmallerSet(MetFrom(end.steps, p), Successors(g, p));
      AtMostTwoSuccessors(r, p);
    }
  }

  /**
    For every routine, however the search chooses among predecessors and whatever null entries it
    leaves behind: each post-dominator of a block is on the block's chain, and the chains hold
    nothing else, and the parents are the immediate post-dominators, precisely if they are stable.
  */
  lemma ChainsOfRoutine(r: Routine, end: Outcome)
    requires IsRoutine(r) && IsOutcome(FlowGraph(r), end)
    ensures Covers(FlowGraph(r), end.forest) && Linked(FlowGraph(r), end.forest)
    ensures ChainsArePostDominators(FlowGraph(r), end.forest) <==> Stable(FlowGraph(r), end.forest)
    ensures ParentsAreImmediate(FlowGraph(r), end.forest) <==> Stable(FlowGraph(r), end.forest)
    ensures Undisturbed(FlowGraph(r), end.steps) ==> ChainsArePostDominators(FlowGraph(r), end.forest)
  {
    var g := FlowGraph(r);
    SearchMeetsAtMostTwice(r, end);
    TwoMeetingsCover(g, end.steps);
    ExactIffStable(g, end.steps);
    ImmediateIffStable(g, end.steps);
    if Undisturbed(g, end.steps) {
      UndisturbedIsExact(g, end.steps);
    }
  }
}
