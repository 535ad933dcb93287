/**
  What the forest grown by buildPostDominanceTree says about control flow: whole runs of
  the search, measured against post-dominance defined by paths.
*/
module PostDominance {
  import opened PostDominatorForest

  // -------------------------------------------------------------------- paths

  /** Control may pass from b straight to c. */
  predicate Flows(g: Graph, b: int, c: int) {
    c in g && b in g[c]
  }

  ghost predicate IsPath(g: Graph, s: seq<int>, x: int, y: int) {
    && s != []
    && s[0] == x
    && if |s| == 1 then x == y else Flows(g, x, s[1]) && IsPath(g, s[1..], s[1], y)
  }

  /** There is a way from x to y on which no block of d occurs. */
  ghost predicate Escapes(g: Graph, x: int, y: int, d: set<int>) {
    exists s :: IsPath(g, s, x, y) && Avoids(s, d)
  }

  ghost predicate Avoids(s: seq<int>, d: set<int>) {
    forall v :: v in s ==> v !in d
  }

  ghost predicate Reaches(g: Graph, x: int) {
    Escapes(g, x, RETURN, {})
  }

  /** d lies on every path from b to the return block. */
  ghost predicate PostDominates(g: Graph, d: int, b: int) {
    !Escapes(g, b, RETURN, {d})
  }

  lemma StayPut(g: Graph, x: int, d: set<int>)
    requires x !in d
    ensures Escapes(g, x, x, d)
  {
    assert IsPath(g, [x], x, x) && Avoids([x], d);
  }

  lemma StepFirst(g: Graph, x: int, y: int, z: int, d: set<int>)
    requires Flows(g, x, y) && Escapes(g, y, z, d) && x !in d
    ensures Escapes(g, x, z, d)
  {
    var s :| IsPath(g, s, y, z) && Avoids(s, d);
    assert ([x] + s)[1..] == s;
    assert IsPath(g, [x] + s, x, z) && Avoids([x] + s, d);
  }

  lemma {:induction false} Concatenate(g: Graph, s: seq<int>, x: int, y: int, z: int, d: set<int>)
    requires IsPath(g, s, x, y) && Avoids(s, d) && Escapes(g, y, z, d)
    ensures Escapes(g, x, z, d)
    decreases |s|
  {
    if |s| > 1 {
      assert forall v :: v in s[1..] ==> v in s;
      Concatenate(g, s[1..], s[1], y, z, d);
      assert s[0] in s;
      StepFirst(g, x, s[1], z, d);
    }
  }

  lemma Follow(g: Graph, x: int, y: int, z: int, d: set<int>)
    requires Escapes(g, x, y, d) && Escapes(g, y, z, d)
    ensures Escapes(g, x, z, d)
  {
    var s :| IsPath(g, s, x, y) && Avoids(s, d);
    Concatenate(g, s, x, y, z, d);
  }

  lemma AvoidLess(g: Graph, x: int, y: int, d: set<int>, e: set<int>)
    requires Escapes(g, x, y, d) && e <= d
    ensures Escapes(g, x, y, e)
  {
    var s :| IsPath(g, s, x, y) && Avoids(s, d);
    assert Avoids(s, e);
  }

  /** What post-dominates a block post-dominates each of its successors. */
  lemma PostDominatesSuccessor(g: Graph, d: int, b: int, c: int)
    requires PostDominates(g, d, b) && Flows(g, b, c) && d != b
    ensures PostDominates(g, d, c)
  {
    if Escapes(g, c, RETURN, {d}) {
      StepFirst(g, b, c, RETURN, {d});
    }
  }

  // ------------------------------------------------- the forest and the paths

  /** Every true post-dominator of a block is on the block's chain. */
  ghost predicate Covers(g: Graph, f: Forest)
    requires WellFormed(f)
  {
    forall x, d :: x in f.rank && PostDominates(g, d, x) ==> d in Chain(f, x)
  }

  /** From every block its parent can be reached without touching the parent's own ancestors. */
  ghost predicate Linked(g: Graph, f: Forest)
    requires WellFormed(f)
  {
    forall x :: x in f.parent ==> Escapes(g, x, f.parent[x], Above(f, f.parent[x]))
  }

  lemma {:induction false} Climb(g: Graph, f: Forest, x: int, a: int)
    requires WellFormed(f) && Linked(g, f) && x in f.rank && a in Chain(f, x)
    ensures Escapes(g, x, a, Above(f, a))
    decreases f.rank[x]
  {
    if a == x {
      StayPut(g, x, Above(f, a));
    } else {
      var y := f.parent[x];
      Climb(g, f, y, a);
      ChainIsTransitive(f, y, a);
      if a != y {
        ChainIsTransitive(f, y, a);
      }
      assert Above(f, a) <= Above(f, y);
      AvoidLess(g, x, y, Above(f, y), Above(f, a));
      Follow(g, x, y, a, Above(f, a));
    }
  }

  lemma AttachKeepsLinked(g: Graph, f: Forest, c: int, p: int)
    requires WellFormed(f) && Timely(f) && Linked(g, f)
    requires c in f.rank && p !in f.rank && p in f.below && Flows(g, p, c)
    requires WellFormed(Attach(f, c, p))
    ensures Linked(g, Attach(f, c, p))
  {
    var h := Attach(f, c, p);
    AttachKeepsChains(f, c, p, c);
    forall x | x in h.parent
      ensures Escapes(g, x, h.parent[x], Above(h, h.parent[x]))
    {
      if x == p {
        StayPut(g, c, Above(f, c));
        StepFirst(g, p, c, c, Above(f, c));
      } else {
        AttachKeepsChains(f, c, p, f.parent[x]);
      }
    }
  }

  lemma AttachKeepsCovers(g: Graph, f: Forest, c: int, p: int)
    requires WellFormed(f) && Timely(f) && Covers(g, f)
    requires c in f.rank && p !in f.rank && p in f.below && Flows(g, p, c)
    requires WellFormed(Attach(f, c, p))
    ensures Covers(g, Attach(f, c, p))
  {
    var h := Attach(f, c, p);
    AttachKeepsChains(f, c, p, c);
    forall x, d | x in h.rank && PostDominates(g, d, x)
      ensures d in Chain(h, x)
    {
      if x != p {
        AttachKeepsChains(f, c, p, x);
      } else if d != p {
        PostDominatesSuccessor(g, d, p, c);
      }
    }
  }

  /** On p's old chain, nothing below Common can post-dominate p: the way over c avoids it. */
  lemma GapIsAvoidable(g: Graph, f: Forest, c: int, p: int, d: int)
    requires WellFormed(f) && Covers(g, f)
    requires c in f.rank && p in f.parent && ExactAt(f, p) && Flows(g, p, c)
    requires d in Doomed(f, f.parent[p], Common(f, c, p))
    ensures Escapes(g, p, RETURN, {d})
  {
    var q := Common(f, c, p);
    ExactCommonIsAncestor(f, c, p);
    DoomedIsTheGap(f, f.parent[p], q);
    if d in Chain(f, c) {
      CommonIsLowest(f, c, p, d);
      assert false;
    }
    assert !PostDominates(g, d, c);
    StepFirst(g, p, c, RETURN, {d});
  }

  lemma {:induction false} CommonIsLowest(f: Forest, x: int, p: int, d: int)
    requires WellFormed(f) && x in f.rank && d in Chain(f, x) && Marked(f, d, p)
    ensures d in Chain(f, Common(f, x, p))
    decreases f.rank[x]
  {
    if !Marked(f, x, p) {
      CommonIsLowest(f, f.parent[x], p, d);
    }
  }

  lemma ReparentKeepsLinked(g: Graph, f: Forest, c: int, p: int)
    requires WellFormed(f) && Linked(g, f)
    requires c in f.rank && p in f.parent && ExactAt(f, p) && Flows(g, p, c)
    requires WellFormed(Reparent(f, c, p))
    ensures Linked(g, Reparent(f, c, p))
  {
    var h, q := Reparent(f, c, p), Common(f, c, p);
    ExactCommonIsAncestor(f, c, p);
    forall x | x in h.parent
      ensures Escapes(g, x, h.parent[x], Above(h, h.parent[x]))
    {
      ReparentAbove(f, c, p, h.parent[x]);
      if x == p {
        Climb(g, f, c, q);
        ChainIsTransitive(f, f.parent[p], q);
        StepFirst(g, p, c, q, Above(f, q));
        AvoidLess(g, p, q, Above(f, q), Above(h, q));
      } else {
        AvoidLess(g, x, f.parent[x], Above(f, f.parent[x]), Above(h, h.parent[x]));
      }
    }
  }

  lemma ReparentKeepsCovers(g: Graph, f: Forest, c: int, p: int)
    requires WellFormed(f) && Covers(g, f) && Linked(g, f)
    requires c in f.rank && p in f.parent && ExactAt(f, p) && Flows(g, p, c)
    requires WellFormed(Reparent(f, c, p))
    ensures Covers(g, Reparent(f, c, p))
  {
    var h, q := Reparent(f, c, p), Common(f, c, p);
    ExactCommonIsAncestor(f, c, p);
    forall x, d | x in h.rank && PostDominates(g, d, x)
      ensures d in Chain(h, x)
    {
      ReparentAbove(f, c, p, x);
      if d in Doomed(f, f.parent[p], q) && p in Chain(f, x) {
        GapIsAvoidable(g, f, c, p, d);
        DoomedIsTheGap(f, f.parent[p], q);
        Climb(g, f, x, p);
        AvoidLess(g, x, p, Above(f, p), {d});
        Follow(g, x, p, RETURN, {d});
      }
    }
  }

  // --------------------------------------------------------------- whole runs

  /** Every block's predecessors are blocks, and nothing follows the return block. */
  ghost predicate IsGraph(g: Graph) {
    && RETURN in g
    && forall c :: c in g ==> g[c] <= g.Keys - {RETURN}
  }

  /** One turn of the inner loop: the search looks at `pred`, a predecessor of `block`. */
  datatype Visit = Visit(block: int, pred: int)

  /** The blocks that have a place in the forest after these steps. */
  ghost function Placed(steps: seq<Visit>): set<int> {
    {RETURN} + set e | e in steps :: e.pred
  }

  /** A run of the search: each step takes a predecessor p of a block c already placed. */
  ghost predicate IsRun(g: Graph, steps: seq<Visit>) {
    steps != [] ==>
      var before, c, p := steps[..|steps| - 1], steps[|steps| - 1].block, steps[|steps| - 1].pred;
      IsRun(g, before) && c in Placed(before) && Flows(g, p, c)
  }

  ghost function Grow(g: Graph, steps: seq<Visit>): (f: Forest)
    requires IsGraph(g) && IsRun(g, steps)
    ensures IsGrown(g, f, steps)
    decreases |steps|
  {
    if steps == [] then
      InitialIsGrown(g);
      Initial(g.Keys)
    else
      var before, c, p := steps[..|steps| - 1], steps[|steps| - 1].block, steps[|steps| - 1].pred;
      var f := Grow(g, before);
      SplitLast(steps);
      GrowBy(g, f, before, c, p)
  }

  ghost function GrowBy(g: Graph, f: Forest, before: seq<Visit>, c: int, p: int): (h: Forest)
    requires IsGraph(g) && IsGrown(g, f, before) && c in f.rank && Flows(g, p, c)
    ensures IsGrown(g, h, before + [Visit(c, p)])
  {
    StepKeepsWellFormed(f, c, p);
    PlacedGrows(before, Visit(c, p));
    Step(f, c, p)
  }

  ghost predicate IsGrown(g: Graph, f: Forest, steps: seq<Visit>) {
    && WellFormed(f) && Timely(f)
    && f.rank.Keys == Placed(steps) && f.below.Keys == g.Keys
  }

  lemma InitialIsGrown(g: Graph)
    requires IsGraph(g)
    ensures IsGrown(g, Initial(g.Keys), [])
  {
    var f := Initial(g.Keys);
    assert |f.rank| == 1;
  }

  lemma SplitLast(steps: seq<Visit>)
    requires steps != []
    ensures
      var last := steps[|steps| - 1];
      steps == steps[..|steps| - 1] + [Visit(last.block, last.pred)]
  {
  }

  lemma GrowSnoc(g: Graph, steps: seq<Visit>, c: int, p: int)
    requires IsGraph(g) && IsRun(g, steps) && c in Placed(steps) && Flows(g, p, c)
    ensures IsRun(g, steps + [Visit(c, p)])
    ensures Grow(g, steps + [Visit(c, p)]) == Step(Grow(g, steps), c, p)
  {
    assert (steps + [Visit(c, p)])[..|steps|] == steps;
  }

  lemma PlacedGrows(steps: seq<Visit>, e: Visit)
    ensures Placed(steps + [e]) == Placed(steps) + {e.pred}
  {
    assert forall x :: x in steps + [e] <==> x in steps || x == e;
  }

  ghost predicate AllHarmless(g: Graph, steps: seq<Visit>)
    requires IsGraph(g) && IsRun(g, steps)
    decreases |steps|
  {
    steps != [] ==>
      var before, c, p := steps[..|steps| - 1], steps[|steps| - 1].block, steps[|steps| - 1].pred;
      AllHarmless(g, before) && (p in Grow(g, before).parent ==> Harmless(Grow(g, before), c, p))
  }

  /** In a run of harmless steps the postDominated maps stay exact and no true post-dominator is lost. */
  lemma {:induction false} HarmlessRun(g: Graph, steps: seq<Visit>)
    requires IsGraph(g) && IsRun(g, steps) && AllHarmless(g, steps)
    ensures Exact(Grow(g, steps))
    ensures Covers(g, Grow(g, steps)) && Linked(g, Grow(g, steps))
    decreases |steps|
  {
    if steps == [] {
      EmptyRun(g);
    } else {
      var before, c, p := steps[..|steps| - 1], steps[|steps| - 1].block, steps[|steps| - 1].pred;
      var f := Grow(g, before);
      HarmlessRun(g, before);
      StepKeepsPaths(g, f, c, p);
      LastStepKeepsExactIff(f, c, p);
    }
  }

  /** Every state that a run goes through has exact entries. */
  ghost predicate ExactThroughout(g: Graph, steps: seq<Visit>)
    requires IsGraph(g) && IsRun(g, steps)
    decreases |steps|
  {
    Exact(Grow(g, steps)) && (steps != [] ==> ExactThroughout(g, steps[..|steps| - 1]))
  }

  /** Entries stay exact through a run precisely if all its steps are harmless. */
  lemma {:induction false} ExactThroughoutIffHarmless(g: Graph, steps: seq<Visit>)
    requires IsGraph(g) && IsRun(g, steps)
    ensures ExactThroughout(g, steps) <==> AllHarmless(g, steps)
    decreases |steps|
  {
    if steps == [] {
      EmptyRun(g);
    } else {
      var before, c, p := steps[..|steps| - 1], steps[|steps| - 1].block, steps[|steps| - 1].pred;
      var f := Grow(g, before);
      ExactThroughoutIffHarmless(g, before);
      if AllHarmless(g, before) {
        HarmlessRun(g, before);
        LastStepKeepsExactIff(f, c, p);
      }
    }
  }

  lemma LastStepKeepsExactIff(f: Forest, c: int, p: int)
    requires WellFormed(f) && Timely(f) && Exact(f) && c in f.rank && p != RETURN && p in f.below
    ensures WellFormed(Step(f, c, p))
    ensures Exact(Step(f, c, p)) <==> (p in f.parent ==> Harmless(f, c, p))
  {
    StepKeepsWellFormed(f, c, p);
    if p in f.parent {
      ReparentKeepsExactIffHarmless(f, c, p);
    } else {
      AttachKeepsExact(f, c, p);
    }
  }

  lemma EmptyRun(g: Graph)
    requires IsGraph(g)
    ensures Exact(Grow(g, [])) && Covers(g, Grow(g, [])) && Linked(g, Grow(g, []))
  {
    forall d | PostDominates(g, d, RETURN)
      ensures d == RETURN
    {
      if d != RETURN {
        StayPut(g, RETURN, {d});
      }
    }
  }

  // ------------------------------------- runs that meet no block a third time

  /** How often a run has met block p. */
  ghost function Meetings(steps: seq<Visit>, p: int): nat {
    if steps == [] then 0
    else Meetings(steps[..|steps| - 1], p) + if steps[|steps| - 1].pred == p then 1 else 0
  }

  ghost predicate MeetsAtMostTwice(steps: seq<Visit>) {
    forall p :: Meetings(steps, p) <= 2
  }

  /** All blocks that no search for a common post-dominator has asked for have exact entries. */
  ghost predicate AllPristine(f: Forest, steps: seq<Visit>)
    requires WellFormed(f)
  {
    forall k :: Meetings(steps, k) <= 1 ==> Pristine(f, k)
  }

  lemma {:induction false} PlacedIsMet(steps: seq<Visit>, p: int)
    requires p in Placed(steps) && p != RETURN
    ensures Meetings(steps, p) >= 1
    decreases |steps|
  {
    var before, last := steps[..|steps| - 1], steps[|steps| - 1];
    assert steps == before + [last];
    PlacedGrows(before, last);
    if last.pred != p {
      PlacedIsMet(before, p);
    }
  }

  lemma OneMoreMeeting(steps: seq<Visit>, last: Visit, p: int)
    ensures Meetings(steps + [last], p) == Meetings(steps, p) + if last.pred == p then 1 else 0
  {
    assert (steps + [last])[..|steps|] == steps;
  }

  lemma FewerMeetings(steps: seq<Visit>, last: Visit)
    requires MeetsAtMostTwice(steps + [last])
    ensures MeetsAtMostTwice(steps) && Meetings(steps, last.pred) <= 1
  {
    forall p
      ensures Meetings(steps, p) <= 2 && (p == last.pred ==> Meetings(steps, p) <= 1)
    {
      OneMoreMeeting(steps, last, p);
    }
  }

  lemma StepKeepsPristine(f: Forest, before: seq<Visit>, c: int, p: int, k: int)
    requires WellFormed(f) && Timely(f) && f.rank.Keys == Placed(before) && AllPristine(f, before)
    requires c in f.rank && p != RETURN && p in f.below && Meetings(before, p) <= 1
    requires WellFormed(Step(f, c, p)) && Meetings(before + [Visit(c, p)], k) <= 1
    ensures Pristine(Step(f, c, p), k)
  {
    OneMoreMeeting(before, Visit(c, p), k);
    if p in f.parent {
      PlacedIsMet(before, p);
      PristineIsExact(f, p);
      ReparentKeepsPristine(f, c, p, k);
    } else {
      AttachKeepsPristine(f, c, p, k);
    }
  }

  lemma StepKeepsPaths(g: Graph, f: Forest, c: int, p: int)
    requires WellFormed(f) && Timely(f) && Covers(g, f) && Linked(g, f)
    requires c in f.rank && p != RETURN && p in f.below && Flows(g, p, c) && (p in f.rank ==> ExactAt(f, p))
    ensures WellFormed(Step(f, c, p)) && Covers(g, Step(f, c, p)) && Linked(g, Step(f, c, p))
  {
    StepKeepsWellFormed(f, c, p);
    if p in f.parent {
      ReparentKeepsLinked(g, f, c, p);
      ReparentKeepsCovers(g, f, c, p);
    } else {
      AttachKeepsLinked(g, f, c, p);
      AttachKeepsCovers(g, f, c, p);
    }
  }

  /**
    In a run that meets no block a third time no true post-dominator is lost, whatever harm null
    entries do to the postDominated maps: a block is moved once at most, while its entries are exact.
  */
  lemma {:induction false} TwoMeetingsCover(g: Graph, steps: seq<Visit>)
    requires IsGraph(g) && IsRun(g, steps) && MeetsAtMostTwice(steps)
    ensures Covers(g, Grow(g, steps)) && Linked(g, Grow(g, steps))
    ensures AllPristine(Grow(g, steps), steps)
    decreases |steps|
  {
    if steps == [] {
      EmptyRun(g);
    } else {
      var before, c, p := steps[..|steps| - 1], steps[|steps| - 1].block, steps[|steps| - 1].pred;
      var f := Grow(g, before);
      SplitLast(steps);
      FewerMeetings(before, Visit(c, p));
      TwoMeetingsCover(g, before);
      if p in f.rank {
        PristineIsExact(f, p);
      }
      StepKeepsPaths(g, f, c, p);
      forall k | Meetings(steps, k) <= 1
        ensures Pristine(Grow(g, steps), k)
      {
        StepKeepsPristine(f, before, c, p, k);
      }
    }
  }

  /** A run is complete when every predecessor of every placed block has been taken. */
  ghost predicate Complete(g: Graph, steps: seq<Visit>) {
    forall c, p :: c in Placed(steps) && Flows(g, p, c) ==> Visit(c, p) in steps
  }

  lemma {:induction false} PlacedReaches(g: Graph, steps: seq<Visit>, x: int)
    requires IsRun(g, steps) && x in Placed(steps)
    ensures Reaches(g, x)
    decreases |steps|
  {
    if x == RETURN {
      StayPut(g, x, {});
    } else {
      var before, c, p := steps[..|steps| - 1], steps[|steps| - 1].block, steps[|steps| - 1].pred;
      assert steps == before + [Visit(c, p)];
      PlacedGrows(before, Visit(c, p));
      if x in Placed(before) {
        PlacedReaches(g, before, x);
      } else {
        PlacedReaches(g, before, c);
        StepFirst(g, x, c, RETURN, {});
      }
    }
  }

  lemma {:induction false} PathIsPlaced(g: Graph, steps: seq<Visit>, s: seq<int>, x: int)
    requires Complete(g, steps) && IsPath(g, s, x, RETURN)
    ensures x in Placed(steps)
    ensures forall v :: v in s ==> v in Placed(steps)
    decreases |s|
  {
    if |s| > 1 {
      PathIsPlaced(g, steps, s[1..], s[1]);
      assert Visit(s[1], x) in steps;
    }
  }

  /** Exactly the blocks from which the return block can be reached get a place. */
  lemma PlacedIffReaches(g: Graph, steps: seq<Visit>, x: int)
    requires IsRun(g, steps) && Complete(g, steps)
    ensures x in Placed(steps) <==> Reaches(g, x)
  {
    if x in Placed(steps) {
      PlacedReaches(g, steps, x);
    } else if Reaches(g, x) {
      var s :| IsPath(g, s, x, RETURN) && Avoids(s, {});
      PathIsPlaced(g, steps, s, x);
    }
  }

  // ------------------------------------- when the chains are the post-dominators

  /** No block flows to one whose chain misses the block's own parent. */
  ghost predicate Stable(g: Graph, f: Forest)
    requires WellFormed(f)
  {
    forall b, c :: c in f.rank && b in f.parent && Flows(g, b, c) ==> f.parent[b] in Chain(f, c)
  }

  ghost predicate ChainsArePostDominators(g: Graph, f: Forest)
    requires WellFormed(f)
  {
    forall x, d :: x in f.rank ==> (d in Chain(f, x) <==> PostDominates(g, d, x))
  }

  /** Every predecessor of a placed block is placed. */
  ghost predicate Closed(g: Graph, f: Forest) {
    forall b, c :: c in f.rank && Flows(g, b, c) ==> b in f.rank
  }

  lemma {:induction false} StablePathMeetsChain(g: Graph, f: Forest, s: seq<int>, x: int, d: int)
    requires WellFormed(f) && Closed(g, f) && Stable(g, f)
    requires IsPath(g, s, x, RETURN)
    ensures x in f.rank
    ensures d in Chain(f, x) ==> d in s
    decreases |s|
  {
    if |s| > 1 {
      StablePathMeetsChain(g, f, s[1..], s[1], d);
      if x != RETURN && d in Above(f, x) {
        assert f.parent[x] in Chain(f, s[1]);
        ChainIsTransitive(f, s[1], f.parent[x]);
        assert d in s[1..];
      }
    }
    assert s[0] in s;
    assert Chain(f, x) == {x} + Above(f, x);
  }

  lemma StableIsSound(g: Graph, f: Forest, x: int, d: int)
    requires WellFormed(f) && Closed(g, f) && Stable(g, f) && x in f.rank && d in Chain(f, x)
    ensures PostDominates(g, d, x)
  {
    if Escapes(g, x, RETURN, {d}) {
      var s :| IsPath(g, s, x, RETURN) && Avoids(s, {d});
      StablePathMeetsChain(g, f, s, x, d);
      assert false;
    }
  }

  lemma PostDominatorsAreStable(g: Graph, f: Forest)
    requires WellFormed(f) && ChainsArePostDominators(g, f)
    ensures Stable(g, f)
  {
    forall b, c | c in f.rank && b in f.parent && Flows(g, b, c)
      ensures f.parent[b] in Chain(f, c)
    {
      assert f.parent[b] in Chain(f, b);
      PostDominatesSuccessor(g, f.parent[b], b, c);
    }
  }

  /** A forest that misses no post-dominator holds nothing else on its chains iff it is stable. */
  lemma CoveringIsExactIffStable(g: Graph, f: Forest)
    requires WellFormed(f) && Closed(g, f) && Covers(g, f)
    ensures ChainsArePostDominators(g, f) <==> Stable(g, f)
  {
    if Stable(g, f) {
      forall x, d | x in f.rank && d in Chain(f, x)
        ensures PostDominates(g, d, x)
      {
        StableIsSound(g, f, x, d);
      }
    }
    if ChainsArePostDominators(g, f) {
      PostDominatorsAreStable(g, f);
    }
  }

  /** d post-dominates b, and every other block that does so post-dominates d as well. */
  ghost predicate IsImmediate(g: Graph, d: int, b: int) {
    && d != b && PostDominates(g, d, b)
    && forall e :: e != b && PostDominates(g, e, b) ==> PostDominates(g, e, d)
  }

  ghost predicate ParentsAreImmediate(g: Graph, f: Forest) {
    forall b :: b in f.parent ==> IsImmediate(g, f.parent[b], b)
  }

  lemma ImmediateParentsAreStable(g: Graph, f: Forest)
    requires WellFormed(f) && Covers(g, f) && ParentsAreImmediate(g, f)
    ensures Stable(g, f)
  {
    forall b, c | c in f.rank && b in f.parent && Flows(g, b, c)
      ensures f.parent[b] in Chain(f, c)
    {
      PostDominatesSuccessor(g, f.parent[b], b, c);
    }
  }

  lemma ExactParentsAreImmediate(g: Graph, f: Forest)
    requires WellFormed(f) && ChainsArePostDominators(g, f)
    ensures ParentsAreImmediate(g, f)
  {
    forall b | b in f.parent
      ensures IsImmediate(g, f.parent[b], b)
    {
      assert f.parent[b] in Chain(f, b);
      forall e | e != b && PostDominates(g, e, b)
        ensures PostDominates(g, e, f.parent[b])
      {
        assert e in Chain(f, b);
        assert e in Chain(f, f.parent[b]);
      }
    }
  }

  lemma RunIsClosedAndCovers(g: Graph, steps: seq<Visit>)
    requires IsGraph(g) && IsRun(g, steps) && Complete(g, steps)
    requires MeetsAtMostTwice(steps) || AllHarmless(g, steps)
    ensures Closed(g, Grow(g, steps)) && Covers(g, Grow(g, steps))
  {
    CompleteIsClosed(g, steps);
    if MeetsAtMostTwice(steps) {
      TwoMeetingsCover(g, steps);
    } else {
      HarmlessRun(g, steps);
    }
  }

  /** The finished chains are exactly the sets of post-dominators iff one more pass over the edges finds them stable. */
  lemma ExactIffStable(g: Graph, steps: seq<Visit>)
    requires IsGraph(g) && IsRun(g, steps) && Complete(g, steps)
    requires MeetsAtMostTwice(steps) || AllHarmless(g, steps)
    ensures ChainsArePostDominators(g, Grow(g, steps)) <==> Stable(g, Grow(g, steps))
  {
    RunIsClosedAndCovers(g, steps);
    CoveringIsExactIffStable(g, Grow(g, steps));
  }

  /** The finished parents are exactly the immediate post-dominators under the same condition. */
  lemma ImmediateIffStable(g: Graph, steps: seq<Visit>)
    requires IsGraph(g) && IsRun(g, steps) && Complete(g, steps)
    requires MeetsAtMostTwice(steps) || AllHarmless(g, steps)
    ensures ParentsAreImmediate(g, Grow(g, steps)) <==> Stable(g, Grow(g, steps))
  {
    var f := Grow(g, steps);
    RunIsClosedAndCovers(g, steps);
    CoveringIsExactIffStable(g, f);
    if Stable(g, f) {
      ExactParentsAreImmediate(g, f);
    }
    if ParentsAreImmediate(g, f) {
      ImmediateParentsAreStable(g, f);
    }
  }

  lemma CompleteIsClosed(g: Graph, steps: seq<Visit>)
    requires IsGraph(g) && IsRun(g, steps) && Complete(g, steps)
    ensures Closed(g, Grow(g, steps))
  {
  }

  // ------------------------------------- the order of visits that keeps chains right

  /** On every edge taken so far, the parent of the block is on the chain of the block it flows to. */
  ghost predicate Settled(f: Forest, steps: seq<Visit>)
    requires WellFormed(f)
  {
    forall v :: v in steps && v.block in f.rank && v.pred in f.parent ==> f.parent[v.pred] in Chain(f, v.block)
  }

  /** A block that was met from p or from below p hangs at a block that p is about to leave. */
  ghost predicate Disturbs(f: Forest, steps: seq<Visit>, c: int, p: int)
    requires WellFormed(f) && c in f.rank && p in f.parent
  {
    exists v :: && v in steps && v.block in f.rank && v.pred in f.parent && v.pred != p && p in Chain(f, v.block)
                && f.parent[v.pred] in Doomed(f, f.parent[p], Common(f, c, p))
  }

  lemma MovedStaysOnChains(f: Forest, c: int, p: int, b: int)
    requires WellFormed(f) && c in f.rank && p in f.parent && ExactAt(f, p) && WellFormed(Reparent(f, c, p))
    requires b in f.rank && (b == c || f.parent[p] in Chain(f, b))
    ensures Common(f, c, p) in Chain(Reparent(f, c, p), b)
  {
    var q := Common(f, c, p);
    ExactCommonIsAncestor(f, c, p);
    DoomedIsTheGap(f, f.parent[p], q);
    ReparentAbove(f, c, p, b);
    if b != c {
      ChainIsTransitive(f, b, f.parent[p]);
    }
  }

  lemma EdgeStaysSettledIff(f: Forest, steps: seq<Visit>, c: int, p: int, v: Visit)
    requires WellFormed(f) && c in f.rank && p in f.parent && ExactAt(f, p) && Settled(f, steps)
    requires WellFormed(Reparent(f, c, p)) && v in steps && v.block in f.rank && v.pred in f.parent && v.pred != p
    ensures Reparent(f, c, p).parent[v.pred] in Chain(Reparent(f, c, p), v.block) <==>
            !(p in Chain(f, v.block) && f.parent[v.pred] in Doomed(f, f.parent[p], Common(f, c, p)))
  {
    var h, gap := Reparent(f, c, p), Doomed(f, f.parent[p], Common(f, c, p));
    ExactCommonIsAncestor(f, c, p);
    DoomedIsTheGap(f, f.parent[p], Common(f, c, p));
    ReparentAbove(f, c, p, v.block);
    assert f.parent[v.pred] in Chain(f, v.block);
    assert p in Chain(f, v.block) ==> v.block !in gap;
  }

  /** Moving p keeps the edges taken so far settled precisely if it disturbs none. */
  lemma ReparentKeepsSettledIff(f: Forest, steps: seq<Visit>, c: int, p: int)
    requires WellFormed(f) && c in f.rank && p in f.parent && ExactAt(f, p) && Settled(f, steps)
    requires WellFormed(Reparent(f, c, p))
    ensures Settled(Reparent(f, c, p), steps + [Visit(c, p)]) <==> !Disturbs(f, steps, c, p)
  {
    var h, more := Reparent(f, c, p), steps + [Visit(c, p)];
    forall v | v in more && v.block in f.rank && v.pred == p
      ensures h.parent[v.pred] in Chain(h, v.block)
    {
      MovedStaysOnChains(f, c, p, v.block);
    }
    forall v | v in steps && v.block in f.rank && v.pred in f.parent && v.pred != p
      ensures h.parent[v.pred] in Chain(h, v.block) <==>
              !(p in Chain(f, v.block) && f.parent[v.pred] in Doomed(f, f.parent[p], Common(f, c, p)))
    {
      EdgeStaysSettledIff(f, steps, c, p, v);
    }
    assert forall v :: v in more <==> v in steps || v == Visit(c, p);
  }

  lemma AttachKeepsSettled(f: Forest, steps: seq<Visit>, c: int, p: int)
    requires WellFormed(f) && Timely(f) && c in f.rank && p !in f.rank && p in f.below && Settled(f, steps)
    requires WellFormed(Attach(f, c, p)) && forall v :: v in steps ==> v.block in f.rank && v.pred in f.parent
    ensures Settled(Attach(f, c, p), steps + [Visit(c, p)])
  {
    var h := Attach(f, c, p);
    forall v | v in steps + [Visit(c, p)]
      ensures h.parent[v.pred] in Chain(h, v.block)
    {
      if v in steps {
        AttachKeepsChains(f, c, p, v.block);
      }
    }
  }

  /** No step of the run disturbs an edge taken before. */
  ghost predicate Undisturbed(g: Graph, steps: seq<Visit>)
    requires IsGraph(g) && IsRun(g, steps)
    decreases |steps|
  {
    steps != [] ==>
      var before, c, p := steps[..|steps| - 1], steps[|steps| - 1].block, steps[|steps| - 1].pred;
      Undisturbed(g, before) && (p in Grow(g, before).parent ==> !Disturbs(Grow(g, before), before, c, p))
  }

  ghost predicate SettledThroughout(g: Graph, steps: seq<Visit>)
    requires IsGraph(g) && IsRun(g, steps)
    decreases |steps|
  {
    Settled(Grow(g, steps), steps) && (steps != [] ==> SettledThroughout(g, steps[..|steps| - 1]))
  }

  lemma {:induction false} VisitsArePlaced(g: Graph, steps: seq<Visit>)
    requires IsGraph(g) && IsRun(g, steps)
    ensures forall v :: v in steps ==> v.block in Placed(steps) && v.pred in Placed(steps) - {RETURN}
    decreases |steps|
  {
    if steps != [] {
      var before, last := steps[..|steps| - 1], steps[|steps| - 1];
      VisitsArePlaced(g, before);
      assert steps == before + [last];
      PlacedGrows(before, last);
    }
  }

  /** Edges stay settled through a run precisely if no step disturbs them. */
  lemma {:induction false} SettledThroughoutIffUndisturbed(g: Graph, steps: seq<Visit>)
    requires IsGraph(g) && IsRun(g, steps) && MeetsAtMostTwice(steps)
    ensures SettledThroughout(g, steps) <==> Undisturbed(g, steps)
    decreases |steps|
  {
    if steps != [] {
      var before, c, p := steps[..|steps| - 1], steps[|steps| - 1].block, steps[|steps| - 1].pred;
      var f := Grow(g, before);
      SplitLast(steps);
      FewerMeetings(before, Visit(c, p));
      SettledThroughoutIffUndisturbed(g, before);
      if SettledThroughout(g, before) {
        StepKeepsSettledIff(g, before, c, p);
      }
    }
  }

  lemma StepKeepsSettledIff(g: Graph, before: seq<Visit>, c: int, p: int)
    requires IsGraph(g) && IsRun(g, before) && MeetsAtMostTwice(before) && Meetings(before, p) <= 1
    requires c in Placed(before) && Flows(g, p, c) && Settled(Grow(g, before), before)
    ensures WellFormed(Step(Grow(g, before), c, p))
    ensures Settled(Step(Grow(g, before), c, p), before + [Visit(c, p)]) <==>
            (p in Grow(g, before).parent ==> !Disturbs(Grow(g, before), before, c, p))
  {
    var f := Grow(g, before);
    StepKeepsWellFormed(f, c, p);
    if p in f.parent {
      TwoMeetingsCover(g, before);
      PristineIsExact(f, p);
      ReparentKeepsSettledIff(f, before, c, p);
    } else {
      VisitsArePlaced(g, before);
      AttachKeepsSettled(f, before, c, p);
    }
  }

  /** A complete run that disturbs nothing makes every chain the set of post-dominators. */
  lemma UndisturbedIsExact(g: Graph, steps: seq<Visit>)
    requires IsGraph(g) && IsRun(g, steps) && Complete(g, steps) && MeetsAtMostTwice(steps) && Undisturbed(g, steps)
    ensures ChainsArePostDominators(g, Grow(g, steps))
  {
    var f := Grow(g, steps);
    SettledThroughoutIffUndisturbed(g, steps);
    forall b, c | c in f.rank && b in f.parent && Flows(g, b, c)
      ensures f.parent[b] in Chain(f, c)
    {
      assert Visit(c, b) in steps;
    }
    ExactIffStable(g, steps);
  }
}
