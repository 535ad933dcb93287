/**
  Two routines on which the search of buildPostDominanceTree falls short.

  On the first, the null entries that getCommonPostDominator leaves behind do harm: block 20 stays
  below block 30, but 30 forgets it.  On the second, block 20 moves up after block 10 has settled
  below 30, so that 30 stays on the chain of 10 although 10 can pass by it.
*/
module SearchExamples {
  import opened ControlFlow
  import opened PostDominatorForest
  import opened PostDominance
  import opened RoutineGraphs
  import opened ControlCalls

  // ------------------------------------------------------ the two routines

  ghost function Forgetting(): Routine {
    Routine([Ins(20, Plain, true, 21), Ins(21, DirectBranch(40), true, 30), Ins(30, Return, false, 40),
             Ins(40, DirectBranch(30), true, 50), Ins(50, DirectCall, true, 60), Ins(60, Return, false, 70)], 70)
  }

  ghost function Passing(): Routine {
    Routine([Ins(10, Plain, true, 11), Ins(11, DirectBranch(40), true, 20), Ins(20, DirectBranch(50), true, 30),
             Ins(30, Return, false, 40), Ins(40, DirectBranch(30), false, 50), Ins(50, DirectCall, true, 60),
             Ins(60, Return, false, 70)], 70)
  }

  /** Every instruction but the first transfers control, and nothing jumps to the second. */
  ghost predicate IsTerse(r: Routine) {
    && IsRoutine(r) && |r.ins| > 1 && r.ins[0].kind.Plain? && !IsTarget(r, r.ins[1].addr)
    && forall i :: 1 <= i < |r.ins| ==> !r.ins[i].kind.Plain?
  }

  function TerseHead(r: Routine, i: int): int
    requires 0 <= i < |r.ins|
  {
    if i == 1 then r.ins[0].addr else r.ins[i].addr
  }

  lemma TerseLeaders(r: Routine, i: int)
    requires IsTerse(r) && 0 <= i < |r.ins|
    ensures (Leader(r, i) <==> i != 1) && Head(r, i) == TerseHead(r, i)
  {
    HeadOfLeader(r, 0);
    if i == 1 {
      HeadOfOther(r, i);
    } else {
      assert i > 1 ==> Ends(r, i - 1);
      HeadOfLeader(r, i);
    }
  }

  ghost predicate TerseEdge(r: Routine, l: int, b: int, c: int) {
    1 <= l < |r.ins| && TerseHead(r, l) == b && c in Jumps(r, l)
  }

  lemma TerseFlows(r: Routine, b: int, c: int)
    requires IsTerse(r) && c in FlowGraph(r)
    ensures b in FlowGraph(r)[c] <==> exists l :: TerseEdge(r, l, b, c)
  {
    var e := Edge(b, c);
    if e in Edges(r) {
      EdgesAreSteps(r, e);
      var l :| Justifies(r, l, e);
      TerseLeaders(r, l);
      if l + 1 < |r.ins| {
        TerseLeaders(r, l + 1);
      }
      EdgesOfBlock(r, l, c);
      assert TerseEdge(r, l, b, c);
    }
    if exists l :: TerseEdge(r, l, b, c) {
      var l :| TerseEdge(r, l, b, c);
      TerseLeaders(r, l);
      assert Edge(Head(r, l), c) in MadeAt(r, l);
    }
  }

  lemma TerseBlocks(r: Routine, a: int)
    requires IsTerse(r)
    ensures a in FlowGraph(r) <==> a == RETURN || exists i :: 0 <= i < |r.ins| && i != 1 && r.ins[i].addr == a
  {
    forall i | 0 <= i < |r.ins|
      ensures Leader(r, i) <==> i != 1
    {
      TerseLeaders(r, i);
    }
  }

  ghost predicate IsForgetting(g: Graph) {
    && IsGraph(g) && g.Keys == {2, 20, 30, 40, 50, 60}
    && g[2] == {30, 60} && g[30] == {20, 40} && g[60] == {50} && g[20] == {} && g[40] == {20} && g[50] == {40}
  }

  ghost predicate IsPassing(g: Graph) {
    && IsGraph(g) && g.Keys == {2, 10, 20, 30, 40, 50, 60}
    && g[2] == {30, 60} && g[30] == {20, 40} && g[60] == {50} && g[20] == {10} && g[40] == {10}
    && g[50] == {20} && g[10] == {}
  }

  predicate ForgettingFlow(b: int, c: int) {
    || (b == 20 && c in {30, 40}) || (b == 30 && c == 2) || (b == 40 && c in {30, 50})
    || (b == 50 && c == 60) || (b == 60 && c == 2)
  }

  predicate PassingFlow(b: int, c: int) {
    || (b == 10 && c in {20, 40}) || (b == 20 && c in {30, 50}) || (b == 30 && c == 2) || (b == 40 && c == 30)
    || (b == 50 && c == 60) || (b == 60 && c == 2)
  }

  lemma ForgettingShape(g: Graph)
    requires IsGraph(g) && g.Keys == {2, 20, 30, 40, 50, 60}
    requires forall b, c :: c in g ==> (b in g[c] <==> ForgettingFlow(b, c))
    ensures IsForgetting(g)
  {
  }

  lemma PassingShape(g: Graph)
    requires IsGraph(g) && g.Keys == {2, 10, 20, 30, 40, 50, 60}
    requires forall b, c :: c in g ==> (b in g[c] <==> PassingFlow(b, c))
    ensures IsPassing(g)
  {
  }

  lemma ForgettingIsTerse(r: Routine)
    requires r == Forgetting()
    ensures IsTerse(r)
  {
    assert forall i :: 0 <= i < |r.ins| ==> IsCode(r, i);
    assert forall j :: 0 <= j < |r.ins| ==> 21 !in TargetSet(r.ins[j]);
  }

  lemma ForgettingJumps(r: Routine)
    requires r == Forgetting()
    ensures Jumps(r, 1) == {40, 30} && Jumps(r, 2) == {2} && Jumps(r, 3) == {30, 50}
    ensures Jumps(r, 4) == {60} && Jumps(r, 5) == {2}
  {
    assert BranchSet(r.ins[1]) == {40, 30} && 30 != 40;
    assert BranchSet(r.ins[3]) == {30, 50} && 50 != 30;
  }

  /** The edges of Forgetting, by the instruction that makes them. */
  lemma ForgettingEdge(r: Routine, b: int, c: int)
    requires r == Forgetting()
    ensures (exists l :: TerseEdge(r, l, b, c)) <==> ForgettingFlow(b, c)
  {
    ForgettingJumps(r);
    assert TerseEdge(r, 1, b, c) <==> b == 20 && c in {30, 40};
    assert TerseEdge(r, 2, b, c) <==> b == 30 && c == 2;
    assert TerseEdge(r, 3, b, c) <==> b == 40 && c in {30, 50};
    assert TerseEdge(r, 4, b, c) <==> b == 50 && c == 60;
    assert TerseEdge(r, 5, b, c) <==> b == 60 && c == 2;
  }

  lemma ForgettingBlocks(r: Routine)
    requires r == Forgetting()
    ensures FlowGraph(r).Keys == {2, 20, 30, 40, 50, 60}
  {
    ForgettingIsTerse(r);
    forall a
      ensures a in FlowGraph(r) <==> a in {2, 20, 30, 40, 50, 60}
    {
      TerseBlocks(r, a);
      assert r.ins[0].addr == 20 && r.ins[2].addr == 30 && r.ins[3].addr == 40;
      assert r.ins[4].addr == 50 && r.ins[5].addr == 60;
    }
  }

  lemma ForgettingGraph(r: Routine)
    requires r == Forgetting()
    ensures IsRoutine(r) && IsForgetting(FlowGraph(r))
  {
    var g := FlowGraph(r);
    ForgettingIsTerse(r);
    ForgettingBlocks(r);
    FlowGraphIsGraph(r);
    forall b, c | c in g
      ensures b in g[c] <==> ForgettingFlow(b, c)
    {
      TerseFlows(r, b, c);
      ForgettingEdge(r, b, c);
    }
    ForgettingShape(g);
  }

  lemma PassingIsTerse(r: Routine)
    requires r == Passing()
    ensures IsTerse(r)
  {
    assert forall i :: 0 <= i < |r.ins| ==> IsCode(r, i);
    assert forall j :: 0 <= j < |r.ins| ==> 11 !in TargetSet(r.ins[j]);
  }

  lemma PassingJumps(r: Routine)
    requires r == Passing()
    ensures Jumps(r, 1) == {40, 20} && Jumps(r, 2) == {50, 30} && Jumps(r, 3) == {2} && Jumps(r, 4) == {30}
    ensures Jumps(r, 5) == {60} && Jumps(r, 6) == {2}
  {
    PassingIsTerse(r);
    TerseLeaders(r, 4);
    assert BranchSet(r.ins[1]) == {40, 20} && 20 != 40;
    assert BranchSet(r.ins[2]) == {50, 30} && 30 != 50;
  }

  lemma PassingEdge(r: Routine, b: int, c: int)
    requires r == Passing()
    ensures (exists l :: TerseEdge(r, l, b, c)) <==> PassingFlow(b, c)
  {
    PassingJumps(r);
    assert TerseEdge(r, 1, b, c) <==> b == 10 && c in {20, 40};
    assert TerseEdge(r, 2, b, c) <==> b == 20 && c in {30, 50};
    assert TerseEdge(r, 3, b, c) <==> b == 30 && c == 2;
    assert TerseEdge(r, 4, b, c) <==> b == 40 && c == 30;
    assert TerseEdge(r, 5, b, c) <==> b == 50 && c == 60;
    assert TerseEdge(r, 6, b, c) <==> b == 60 && c == 2;
  }

  lemma PassingBlocks(r: Routine)
    requires r == Passing()
    ensures FlowGraph(r).Keys == {2, 10, 20, 30, 40, 50, 60}
  {
    PassingIsTerse(r);
    forall a
      ensures a in FlowGraph(r) <==> a in {2, 10, 20, 30, 40, 50, 60}
    {
      TerseBlocks(r, a);
      assert r.ins[0].addr == 10 && r.ins[2].addr == 20 && r.ins[3].addr == 30;
      assert r.ins[4].addr == 40 && r.ins[5].addr == 50 && r.ins[6].addr == 60;
    }
  }

  lemma PassingGraph(r: Routine)
    requires r == Passing()
    ensures IsRoutine(r) && IsPassing(FlowGraph(r))
  {
    var g := FlowGraph(r);
    PassingIsTerse(r);
    PassingBlocks(r);
    FlowGraphIsGraph(r);
    forall b, c | c in g
      ensures b in g[c] <==> PassingFlow(b, c)
    {
      TerseFlows(r, b, c);
      PassingEdge(r, b, c);
    }
    PassingShape(g);
  }

  // ------------------------------------------------------ searches that have met no block twice

  ghost predicate NoNulls(f: Forest, a: int) {
    a in f.below ==> forall k :: k in f.below[a] ==> f.below[a][k]
  }

  /** The search has come to these parents, no step has done harm, and no entry is null. */
  ghost predicate ComesTo(g: Graph, steps: seq<Visit>, parent: map<int, int>) {
    && IsGraph(g) && IsRun(g, steps) && AllHarmless(g, steps) && Grow(g, steps).parent == parent
    && forall a :: NoNulls(Grow(g, steps), a)
  }

  lemma AttachAddsNoNulls(f: Forest, c: int, p: int)
    requires WellFormed(f) && c in f.rank && forall a :: NoNulls(f, a)
    ensures forall a :: NoNulls(Attach(f, c, p), a)
  {
    forall a
      ensures NoNulls(Attach(f, c, p), a)
    {
      assert NoNulls(f, a);
    }
  }

  lemma AttachIsHarmless(g: Graph, steps: seq<Visit>, parent: map<int, int>, c: int, p: int)
    requires ComesTo(g, steps, parent) && Flows(g, p, c) && c in Placed(steps) && p !in Placed(steps)
    ensures ComesTo(g, steps + [Visit(c, p)], parent[p := c])
  {
    GrowSnoc(g, steps, c, p);
    assert (steps + [Visit(c, p)])[..|steps|] == steps;
    AttachAddsNoNulls(Grow(g, steps), c, p);
  }

  ghost function First(): seq<Visit> {
    [Visit(2, 30), Visit(2, 60), Visit(30, 20), Visit(30, 40), Visit(60, 50)]
  }

  ghost function Hung(): map<int, int> {
    map[30 := 2, 60 := 2, 20 := 30, 40 := 30, 50 := 60]
  }

  /**
    Points that a search passes, with the parents that blocks got at first sight.  `Then` takes up
    a new block or goes on to the next one, `Again` takes a block met before.
  */
  datatype Trail =
    | Start(x: Point, parent: map<int, int>)
    | Then(before: Trail, x: Point, parent: map<int, int>)
    | Again(before: Trail, x: Point, parent: map<int, int>)

  ghost predicate IsMeeting(x: Point, parent: map<int, int>, y: Point, parent': map<int, int>, p: int) {
    && p in x.todo && p !in parent && p != RETURN
    && y == Point(x.done, x.c, x.todo - {p}, x.waiting + [p], x.steps + [Visit(x.c, p)]) && parent' == parent[p := x.c]
  }

  ghost predicate IsMeetingAgain(x: Point, parent: map<int, int>, y: Point, parent': map<int, int>, p: int) {
    && p in x.todo && p in parent
    && y == Point(x.done, x.c, x.todo - {p}, x.waiting, x.steps + [Visit(x.c, p)]) && parent' == parent
  }

  ghost predicate IsGoingOn(g: Graph, x: Point, parent: map<int, int>, y: Point, parent': map<int, int>) {
    && x.todo == {} && x.waiting != [] && x.waiting[0] in g
    && y == Point(x.done + [x.c], x.waiting[0], g[x.waiting[0]], x.waiting[1..], x.steps) && parent' == parent
  }

  ghost predicate IsTrail(g: Graph, t: Trail) {
    match t
    case Start(x, parent) => RETURN in g && x == Point([], RETURN, g[RETURN], [], []) && parent == map[]
    case Then(before, x, parent) =>
      && IsTrail(g, before)
      && (|| IsGoingOn(g, before.x, before.parent, x, parent)
          || exists p :: IsMeeting(before.x, before.parent, x, parent, p))
    case Again(before, x, parent) =>
      IsTrail(g, before) && exists p :: IsMeetingAgain(before.x, before.parent, x, parent, p)
  }

  ghost predicate MeetsOnlyNew(t: Trail) {
    t.Start? || (t.Then? && MeetsOnlyNew(t.before))
  }

  ghost predicate Stands(g: Graph, x: Point, parent: map<int, int>) {
    Searching(g, x.done, x.c, x.todo, x.waiting, x.steps) && Placed(x.steps) == parent.Keys + {RETURN}
  }

  lemma PlacedWithParents(steps: seq<Visit>, parent: map<int, int>, v: Visit)
    requires Placed(steps) == parent.Keys + {RETURN}
    ensures Placed(steps + [v]) == parent[v.pred := v.block].Keys + {RETURN}
  {
    PlacedGrows(steps, v);
  }

  lemma SearchMeets(g: Graph, x: Point, parent: map<int, int>, y: Point, parent': map<int, int>, p: int)
    requires Stands(g, x, parent) && IsMeeting(x, parent, y, parent', p)
    ensures Stands(g, y, parent')
  {
    PlacedWithParents(x.steps, parent, Visit(x.c, p));
    assert p !in Placed(x.steps);
    TakesOne(g, x.done, x.c, x.todo, x.waiting, x.steps, p);
  }

  lemma SearchMeetsAgain(g: Graph, x: Point, parent: map<int, int>, y: Point, parent': map<int, int>, p: int)
    requires Stands(g, x, parent) && IsMeetingAgain(x, parent, y, parent', p)
    ensures Stands(g, y, parent')
  {
    PlacedGrows(x.steps, Visit(x.c, p));
    TakesOne(g, x.done, x.c, x.todo, x.waiting, x.steps, p);
  }

  lemma SearchGoesOn(g: Graph, x: Point, parent: map<int, int>, y: Point, parent': map<int, int>)
    requires Stands(g, x, parent) && IsGoingOn(g, x, parent, y, parent')
    ensures Stands(g, y, parent')
  {
    NextBlock(g, x.done, x.c, x.waiting, x.steps);
  }

  /** A trail is part of a search. */
  lemma {:induction false} TrailStands(g: Graph, t: Trail)
    requires IsGraph(g) && IsTrail(g, t)
    ensures Stands(g, t.x, t.parent)
  {
    match t {
      case Start(_, _) => SearchStarts(g);
      case Then(before, x, parent) =>
        TrailStands(g, before);
        if IsGoingOn(g, before.x, before.parent, x, parent) {
          SearchGoesOn(g, before.x, before.parent, x, parent);
        } else {
          var p :| IsMeeting(before.x, before.parent, x, parent, p);
          SearchMeets(g, before.x, before.parent, x, parent, p);
        }
      case Again(before, x, parent) =>
        TrailStands(g, before);
        var p :| IsMeetingAgain(before.x, before.parent, x, parent, p);
        SearchMeetsAgain(g, before.x, before.parent, x, parent, p);
    }
  }

  lemma MeetingComesTo(g: Graph, x: Point, parent: map<int, int>, y: Point, parent': map<int, int>, p: int)
    requires Stands(g, x, parent) && ComesTo(g, x.steps, parent) && IsMeeting(x, parent, y, parent', p)
    ensures ComesTo(g, y.steps, parent')
  {
    TakesOne(g, x.done, x.c, x.todo, x.waiting, x.steps, p);
    AttachIsHarmless(g, x.steps, parent, x.c, p);
  }

  /** Until a block is met again, the parents are those of the first sight. */
  lemma {:induction false} TrailComesTo(g: Graph, t: Trail)
    requires IsGraph(g) && IsTrail(g, t) && MeetsOnlyNew(t)
    ensures ComesTo(g, t.x.steps, t.parent)
  {
    if t.Then? {
      TrailComesTo(g, t.before);
      if !IsGoingOn(g, t.before.x, t.before.parent, t.x, t.parent) {
        var p :| IsMeeting(t.before.x, t.before.parent, t.x, t.parent, p);
        TrailStands(g, t.before);
        MeetingComesTo(g, t.before.x, t.before.parent, t.x, t.parent, p);
      }
    }
  }

  lemma TrailEnds(g: Graph, t: Trail)
    requires IsGraph(g) && IsTrail(g, t) && t.x.todo == {} && t.x.waiting == []
    ensures Finished(g, t.x.done + [t.x.c], t.x.steps)
  {
    TrailStands(g, t);
    SearchEnds(g, t.x.done, t.x.c, t.x.steps);
  }

  ghost predicate BeginsLike(g: Graph) {
    {2, 30, 60} <= g.Keys && g[2] == {30, 60} && g[30] == {20, 40} && g[60] == {50}
  }

  lemma TrailMeets(g: Graph, t: Trail, p: int)
    requires t.Then? && IsTrail(g, t.before) && IsMeeting(t.before.x, t.before.parent, t.x, t.parent, p)
    ensures IsTrail(g, t)
  {
  }

  lemma TrailMeetsAgain(g: Graph, t: Trail, p: int)
    requires t.Again? && IsTrail(g, t.before) && IsMeetingAgain(t.before.x, t.before.parent, t.x, t.parent, p)
    ensures IsTrail(g, t)
  {
  }

  lemma TrailGoesOn(g: Graph, t: Trail)
    requires t.Then? && IsTrail(g, t.before) && IsGoingOn(g, t.before.x, t.before.parent, t.x, t.parent)
    ensures IsTrail(g, t)
  {
  }

  ghost function FirstTrail(): Trail {
    Then(Then(Start(Point([], 2, {30, 60}, [], []), map[]),
              Point([], 2, {60}, [30], [Visit(2, 30)]), map[30 := 2]),
         Point([], 2, {}, [30, 60], [Visit(2, 30), Visit(2, 60)]), map[30 := 2, 60 := 2])
  }

  lemma FirstIsTrail(g: Graph)
    requires BeginsLike(g)
    ensures IsTrail(g, FirstTrail()) && MeetsOnlyNew(FirstTrail())
  {
    var t := FirstTrail();
    assert {30, 60} - {30} == {60} && {60} - {60} == {};
    assert IsTrail(g, t.before.before);
    TrailMeets(g, t.before, 30);
    TrailMeets(g, t, 60);
  }

  ghost function SecondTrail(): Trail {
    var s, parent := [Visit(2, 30), Visit(2, 60)], map[30 := 2, 60 := 2];
    Then(Then(Then(FirstTrail(), Point([2], 30, {20, 40}, [60], s), parent),
              Point([2], 30, {40}, [60, 20], s + [Visit(30, 20)]), parent[20 := 30]),
         Point([2], 30, {}, [60, 20, 40], s + [Visit(30, 20), Visit(30, 40)]), parent[20 := 30][40 := 30])
  }

  lemma SecondIsTrail(g: Graph)
    requires BeginsLike(g) && IsTrail(g, FirstTrail())
    ensures IsTrail(g, SecondTrail()) && (MeetsOnlyNew(FirstTrail()) ==> MeetsOnlyNew(SecondTrail()))
  {
    var t := SecondTrail();
    var s, parent := [Visit(2, 30), Visit(2, 60)], map[30 := 2, 60 := 2];
    assert {20, 40} - {20} == {40} && {40} - {40} == {};
    assert s + [Visit(30, 20)] + [Visit(30, 40)] == s + [Visit(30, 20), Visit(30, 40)];
    TrailGoesOn(g, t.before.before);
    TrailMeets(g, t.before, 20);
    TrailMeets(g, t, 40);
  }

  ghost function ThirdTrail(): Trail {
    var s := [Visit(2, 30), Visit(2, 60), Visit(30, 20), Visit(30, 40)];
    var parent := map[30 := 2, 60 := 2, 20 := 30, 40 := 30];
    Then(Then(SecondTrail(), Point([2, 30], 60, {50}, [20, 40], s), parent),
         Point([2, 30], 60, {}, [20, 40, 50], First()), Hung())
  }

  lemma ThirdIsTrail(g: Graph)
    requires BeginsLike(g) && IsTrail(g, SecondTrail())
    ensures IsTrail(g, ThirdTrail()) && (MeetsOnlyNew(SecondTrail()) ==> MeetsOnlyNew(ThirdTrail()))
  {
    var t := ThirdTrail();
    var s := [Visit(2, 30), Visit(2, 60), Visit(30, 20), Visit(30, 40)];
    var parent := map[30 := 2, 60 := 2, 20 := 30, 40 := 30];
    assert SecondTrail().parent == parent && SecondTrail().x.steps == s;
    TrailGoesOn(g, t.before);
    assert {50} - {50} == {} && s + [Visit(60, 50)] == First() && parent[50 := 60] == Hung();
    TrailMeets(g, t, 50);
  }

  lemma BeginsAlike(g: Graph)
    requires IsGraph(g) && BeginsLike(g)
    ensures IsTrail(g, ThirdTrail()) && MeetsOnlyNew(ThirdTrail()) && ComesTo(g, First(), Hung())
  {
    FirstIsTrail(g);
    SecondIsTrail(g);
    ThirdIsTrail(g);
    TrailComesTo(g, ThirdTrail());
  }

  // ------------------------------------------------------ a placeholder does harm

  ghost function ForgettingTrail(): Trail {
    var s := First() + [Visit(40, 20)];
    Again(Then(Again(Then(Then(ThirdTrail(),
                               Point([2, 30, 60], 20, {}, [40, 50], First()), Hung()),
                          Point([2, 30, 60, 20], 40, {20}, [50], First()), Hung()),
                     Point([2, 30, 60, 20], 40, {}, [50], s), Hung()),
               Point([2, 30, 60, 20, 40], 50, {40}, [], s), Hung()),
          Point([2, 30, 60, 20, 40], 50, {}, [], s + [Visit(50, 40)]), Hung())
  }

  lemma ForgettingIsTrail(g: Graph)
    requires IsForgetting(g) && IsTrail(g, ThirdTrail())
    ensures IsTrail(g, ForgettingTrail())
  {
    var t := ForgettingTrail();
    assert {20} - {20} == {} && {40} - {40} == {};
    TrailGoesOn(g, t.before.before.before.before);
    TrailGoesOn(g, t.before.before.before);
    TrailMeetsAgain(g, t.before.before, 20);
    TrailGoesOn(g, t.before);
    TrailMeetsAgain(g, t, 40);
  }

  ghost predicate IsHung(parent: map<int, int>) {
    && {20, 30, 40, 50, 60} <= parent.Keys
    && parent[30] == 2 && parent[60] == 2 && parent[20] == 30 && parent[40] == 30 && parent[50] == 60
  }

  lemma FortyLooksForTwenty(f: Forest)
    requires WellFormed(f) && Exact(f) && IsHung(f.parent)
    ensures !Marked(f, 40, 20) && Common(f, 40, 20) == 30 && 40 in Probed(f, 40, 20)
  {
    assert Chain(f, 30) == {30} + Above(f, 30) && Above(f, 30) == Chain(f, 2);
    assert Chain(f, 2) == {2} + Above(f, 2) && Above(f, 2) == {};
    assert Above(f, 20) == Chain(f, 30);
    assert Marked(f, 30, 20) && !Marked(f, 40, 20);
    assert Common(f, 40, 20) == Common(f, 30, 20);
  }

  /** Block 40 looks for 20 in vain, and keeps a null entry for it. */
  lemma LeavesPlaceholder(f: Forest)
    requires WellFormed(f) && Timely(f) && Exact(f) && IsHung(f.parent)
    ensures Harmless(f, 40, 20) && IsHung(Reparent(f, 40, 20).parent)
    ensures 20 in Reparent(f, 40, 20).below[40] && !Reparent(f, 40, 20).below[40][20]
  {
    FortyLooksForTwenty(f);
    assert Doomed(f, 30, 30) == {};
  }

  /** When 40 is met again it takes its entries, the null one for 20 included, out of the map of 30. */
  lemma PlaceholderHarms(f: Forest)
    requires WellFormed(f) && IsHung(f.parent) && 20 in f.below[40] && !f.below[40][20]
    ensures !Harmless(f, 50, 40)
  {
    var q, held := Common(f, 50, 40), Probe(f, 50, 40).below[40];
    assert Chain(f, 50) == {50} + Above(f, 50) && Above(f, 50) == Chain(f, 60);
    assert Chain(f, 60) == {60} + Above(f, 60) && Above(f, 60) == Chain(f, 2);
    assert Chain(f, 2) == {2} + Above(f, 2) && Above(f, 2) == {};
    assert q != 30;
    assert 30 in Doomed(f, 30, q);
    assert 20 in held && !held[20];
    assert 30 in Above(f, 20) && 20 in f.rank;
  }

  ghost predicate IsMovedUp(parent: map<int, int>) {
    {20, 40} <= parent.Keys && parent[40] == 2
  }

  /** Met again from 50, block 40 moves up to the return block. */
  lemma FortyMovesUp(f: Forest)
    requires WellFormed(f) && Exact(f) && IsHung(f.parent)
    ensures IsMovedUp(Reparent(f, 50, 40).parent)
  {
    assert Chain(f, 50) == {50} + Above(f, 50) && Above(f, 50) == Chain(f, 60);
    assert Chain(f, 60) == {60} + Above(f, 60) && Above(f, 60) == Chain(f, 2);
    assert Chain(f, 2) == {2} + Above(f, 2) && Above(f, 2) == {};
    assert Above(f, 40) == Chain(f, 30) && Chain(f, 30) == {30} + Above(f, 30) && Above(f, 30) == Chain(f, 2);
  }

  lemma ForgettingHarms(g: Graph, steps: seq<Visit>, parent: map<int, int>)
    requires ComesTo(g, steps, parent) && IsHung(parent) && Flows(g, 20, 40) && Flows(g, 40, 50)
    ensures IsRun(g, steps + [Visit(40, 20)] + [Visit(50, 40)])
    ensures !Exact(Grow(g, steps + [Visit(40, 20)] + [Visit(50, 40)]))
    ensures IsMovedUp(Grow(g, steps + [Visit(40, 20)] + [Visit(50, 40)]).parent)
  {
    var f := Grow(g, steps);
    HarmlessRun(g, steps);
    LeavesPlaceholder(f);
    GrowSnoc(g, steps, 40, 20);
    var h := Reparent(f, 40, 20);
    ReparentKeepsExactIffHarmless(f, 40, 20);
    GrowSnoc(g, steps + [Visit(40, 20)], 50, 40);
    PlaceholderHarms(h);
    HarmSpoilsExact(h, 50, 40);
    FortyMovesUp(h);
  }

  lemma ForgettingEnds(x: Point)
    requires x == ForgettingTrail().x
    ensures x.todo == {} && x.waiting == [] && x.steps == First() + [Visit(40, 20)] + [Visit(50, 40)] && IsHung(Hung())
  {
  }

  lemma ForgettingFinishes(g: Graph)
    returns (before: seq<Visit>, parent: map<int, int>, order: seq<int>, steps: seq<Visit>)
    requires IsForgetting(g)
    ensures Finished(g, order, steps) && ComesTo(g, before, parent) && IsHung(parent)
    ensures steps == before + [Visit(40, 20)] + [Visit(50, 40)]
  {
    var t := ForgettingTrail();
    ForgettingEnds(t.x);
    before, parent, order, steps := First(), Hung(), t.x.done + [t.x.c], t.x.steps;
    BeginsAlike(g);
    ForgettingIsTrail(g);
    TrailEnds(g, t);
  }

  lemma Forgets(g: Graph) returns (end: Outcome)
    requires IsForgetting(g)
    ensures IsOutcome(g, end) && !Exact(end.forest) && IsMovedUp(end.forest.parent)
  {
    var before, parent, order, steps := ForgettingFinishes(g);
    ForgettingHarms(g, before, parent);
    end := Outcome(order, steps, Grow(g, steps));
  }

  /** A search over a routine after which the postDominated entries are not the descendants. */
  lemma ExactnessCanFail() returns (r: Routine, end: Outcome)
    ensures IsRoutine(r) && IsOutcome(FlowGraph(r), end) && !Exact(end.forest)
  {
    r := Forgetting();
    ForgettingGraph(r);
    end := Forgets(FlowGraph(r));
  }

  // ------------------------------------------------------ a branch stays pushed

  /** The conditional branches of Forgetting are in blocks 20 and 40. */
  ghost predicate BranchesIn(r: Routine, i: int) {
    && 0 <= i < |r.ins| && IsConditional(r.ins[i]) && Head(r, i) == 40
    && forall j :: 0 <= j < |r.ins| && IsConditional(r.ins[j]) ==> Head(r, j) in {20, 40}
  }

  lemma ForgettingBranches() returns (r: Routine, i: nat)
    ensures IsRoutine(r) && IsForgetting(FlowGraph(r)) && BranchesIn(r, i)
  {
    r, i := Forgetting(), 3;
    ForgettingGraph(r);
    ForgettingHeads(r);
  }

  lemma ForgettingHeads(r: Routine)
    requires r == Forgetting()
    ensures BranchesIn(r, 3)
  {
    ForgettingIsTerse(r);
    TerseLeaders(r, 1);
    TerseLeaders(r, 3);
  }

  lemma MovedUpHaveParents(r: Routine, parent: map<int, int>, i: nat)
    requires BranchesIn(r, i) && IsMovedUp(parent)
    ensures AllHaveParents(r, parent, |r.ins|)
  {
  }

  lemma MovedUpReaches(r: Routine, end: Outcome, i: nat)
    requires IsRoutine(r) && IsOutcome(FlowGraph(r), end) && BranchesIn(r, i) && IsMovedUp(end.forest.parent)
    ensures AllReach(r)
  {
    MovedUpHaveParents(r, end.forest.parent, i);
    HaveParentsIffReach(r, end);
  }

  lemma MovedUpIsNotPopped(r: Routine, end: Outcome, i: nat)
    requires IsRoutine(r) && IsOutcome(FlowGraph(r), end) && BranchesIn(r, i) && IsMovedUp(end.forest.parent)
    ensures forall pops, a :: ArePops(r, end.forest.parent, |r.ins|, pops) ==> !PoppedAt(r, pops, i, a)
  {
    forall pops, a | ArePops(r, end.forest.parent, |r.ins|, pops)
      ensures !PoppedAt(r, pops, i, a)
    {
      PoppedAtParent(r, end, pops, i);
    }
  }

  /** A routine that is given its calls without a crash, one of whose branches is pushed and popped nowhere. */
  lemma BranchCanStayPushed() returns (r: Routine, end: Outcome, i: nat)
    ensures IsRoutine(r) && IsOutcome(FlowGraph(r), end) && AllReach(r)
    ensures i < |r.ins| && IsConditional(r.ins[i])
    ensures forall pops, a :: ArePops(r, end.forest.parent, |r.ins|, pops) ==> !PoppedAt(r, pops, i, a)
  {
    r, i := ForgettingBranches();
    end := Forgets(FlowGraph(r));
    MovedUpReaches(r, end, i);
    MovedUpIsNotPopped(r, end, i);
  }

  // ------------------------------------------------------ a parent goes stale

  ghost function SettlingTrail(): Trail {
    Then(Then(ThirdTrail(), Point([2, 30, 60], 20, {10}, [40, 50], First()), Hung()),
         Point([2, 30, 60], 20, {}, [40, 50, 10], First() + [Visit(20, 10)]), Hung()[10 := 20])
  }

  ghost function PassingTrail(): Trail {
    var s, parent := First() + [Visit(20, 10)], Hung()[10 := 20];
    var s' := s + [Visit(40, 10)];
    Then(Again(Then(Again(Then(SettlingTrail(),
                               Point([2, 30, 60, 20], 40, {10}, [50, 10], s), parent),
                          Point([2, 30, 60, 20], 40, {}, [50, 10], s'), parent),
                    Point([2, 30, 60, 20, 40], 50, {20}, [10], s'), parent),
               Point([2, 30, 60, 20, 40], 50, {}, [10], s' + [Visit(50, 20)]), parent),
         Point([2, 30, 60, 20, 40, 50], 10, {}, [], s' + [Visit(50, 20)]), parent)
  }

  lemma SettlingIsTrail(g: Graph)
    requires IsPassing(g) && IsTrail(g, ThirdTrail()) && MeetsOnlyNew(ThirdTrail())
    ensures IsTrail(g, SettlingTrail()) && MeetsOnlyNew(SettlingTrail())
  {
    var t := SettlingTrail();
    assert {10} - {10} == {};
    TrailGoesOn(g, t.before);
    TrailMeets(g, t, 10);
  }

  lemma PassingIsTrail(g: Graph)
    requires IsPassing(g) && IsTrail(g, SettlingTrail())
    ensures IsTrail(g, PassingTrail())
  {
    var t := PassingTrail();
    assert {20} - {20} == {} && {10} - {10} == {};
    TrailGoesOn(g, t.before.before.before.before);
    TrailMeetsAgain(g, t.before.before.before, 10);
    TrailGoesOn(g, t.before.before);
    TrailMeetsAgain(g, t.before, 20);
    TrailGoesOn(g, t);
  }

  ghost predicate IsSettled(parent: map<int, int>) {
    && {10, 20, 30, 40, 50, 60} <= parent.Keys
    && parent[30] == 2 && parent[60] == 2 && parent[20] == 30 && parent[40] == 30
    && parent[50] == 60 && parent[10] == 20
  }

  /** Met again from block 40, block 10 settles below 30. */
  lemma TenSettles(f: Forest)
    requires WellFormed(f) && Exact(f) && IsSettled(f.parent)
    ensures Common(f, 40, 10) == 30 && 20 !in Probed(f, 40, 10)
  {
    assert Chain(f, 20) == {20} + Above(f, 20) && Above(f, 20) == Chain(f, 30);
    assert Chain(f, 30) == {30} + Above(f, 30) && Above(f, 30) == Chain(f, 2);
    assert Chain(f, 2) == {2} + Above(f, 2) && Above(f, 2) == {};
    assert Above(f, 10) == Chain(f, 20);
    assert Marked(f, 30, 10) && !Marked(f, 40, 10);
    assert Common(f, 40, 10) == Common(f, 30, 10);
    assert Probed(f, 40, 10) == {40} + Probed(f, 30, 10);
  }

  /** Re-parenting p does no harm while p's own map has no null entry and the search does not come by p. */
  lemma NoNullsIsHarmless(f: Forest, c: int, p: int)
    requires WellFormed(f) && c in f.rank && p in f.parent && NoNulls(f, p)
    ensures Harmless(f, c, p)
  {
  }

  lemma TwentyKeepsNoNulls(f: Forest)
    requires WellFormed(f) && Exact(f) && IsSettled(f.parent) && NoNulls(f, 20)
    ensures NoNulls(Reparent(f, 40, 10), 20) && Reparent(f, 40, 10).parent == f.parent[10 := 30]
  {
    TenSettles(f);
    assert 20 in f.below ==> Probe(f, 40, 10).below[20] == f.below[20];
  }

  lemma SettlesBelowThirty(g: Graph, steps: seq<Visit>, parent: map<int, int>)
    requires ComesTo(g, steps, parent) && IsSettled(parent) && Flows(g, 10, 40)
    ensures IsRun(g, steps + [Visit(40, 10)]) && AllHarmless(g, steps + [Visit(40, 10)])
    ensures Grow(g, steps + [Visit(40, 10)]).parent == parent[10 := 30] && NoNulls(Grow(g, steps + [Visit(40, 10)]), 20)
  {
    var f := Grow(g, steps);
    HarmlessRun(g, steps);
    assert NoNulls(f, 20) && NoNulls(f, 10);
    NoNullsIsHarmless(f, 40, 10);
    TwentyKeepsNoNulls(f);
    GrowSnoc(g, steps, 40, 10);
    assert (steps + [Visit(40, 10)])[..|steps|] == steps;
  }

  /** Moving block 20 does not touch 10. */
  lemma StaysBelowThirty(g: Graph, steps: seq<Visit>, parent: map<int, int>)
    requires IsGraph(g) && IsRun(g, steps) && AllHarmless(g, steps)
    requires Grow(g, steps).parent == parent && NoNulls(Grow(g, steps), 20)
    requires {10, 20, 50} <= parent.Keys && parent[10] == 30 && Flows(g, 20, 50)
    ensures IsRun(g, steps + [Visit(50, 20)]) && AllHarmless(g, steps + [Visit(50, 20)])
    ensures 10 in Grow(g, steps + [Visit(50, 20)]).rank && 30 in Chain(Grow(g, steps + [Visit(50, 20)]), 10)
  {
    var f := Grow(g, steps);
    assert WellFormed(f) && Timely(f) && 20 in f.below && f.rank.Keys == Placed(steps);
    NoNullsIsHarmless(f, 50, 20);
    GrowSnoc(g, steps, 50, 20);
    assert (steps + [Visit(50, 20)])[..|steps|] == steps;
    MovingTwenty(f);
  }

  lemma MovingTwenty(f: Forest)
    requires WellFormed(f) && Timely(f) && 20 in f.below && {10, 20, 50} <= f.parent.Keys && f.parent[10] == 30
    ensures WellFormed(Step(f, 50, 20)) && 10 in Step(f, 50, 20).rank && 30 in Chain(Step(f, 50, 20), 10)
  {
    StepKeepsWellFormed(f, 50, 20);
    ParentIsOnChain(Step(f, 50, 20), 10);
  }

  lemma ParentIsOnChain(f: Forest, x: int)
    requires WellFormed(f) && x in f.parent
    ensures f.parent[x] in Chain(f, x)
  {
  }

  lemma TenPassesThirty(g: Graph)
    requires IsPassing(g)
    ensures !PostDominates(g, 30, 10)
  {
    StayPut(g, 2, {30});
    StepFirst(g, 60, 2, 2, {30});
    StepFirst(g, 50, 60, 2, {30});
    StepFirst(g, 20, 50, 2, {30});
    StepFirst(g, 10, 20, 2, {30});
  }

  lemma PassesHarmlessly(g: Graph, before: seq<Visit>, parent: map<int, int>, steps: seq<Visit>)
    requires IsPassing(g) && ComesTo(g, before, parent) && IsSettled(parent)
    requires steps == before + [Visit(40, 10)] + [Visit(50, 20)]
    ensures IsRun(g, steps) && AllHarmless(g, steps)
    ensures 10 in Grow(g, steps).rank && 30 in Chain(Grow(g, steps), 10)
  {
    SettlesBelowThirty(g, before, parent);
    StaysBelowThirty(g, before + [Visit(40, 10)], parent[10 := 30]);
  }

  lemma PassingEnds(x: Point)
    requires x == PassingTrail().x
    ensures x.todo == {} && x.waiting == [] && x.steps == First() + [Visit(20, 10)] + [Visit(40, 10)] + [Visit(50, 20)]
    ensures IsSettled(Hung()[10 := 20])
  {
  }

  lemma PassingFinishes(g: Graph)
    returns (before: seq<Visit>, parent: map<int, int>, order: seq<int>, steps: seq<Visit>)
    requires IsPassing(g)
    ensures Finished(g, order, steps) && ComesTo(g, before, parent) && IsSettled(parent)
    ensures steps == before + [Visit(40, 10)] + [Visit(50, 20)]
  {
    var t := PassingTrail();
    PassingEnds(t.x);
    before, parent, order, steps := First() + [Visit(20, 10)], Hung()[10 := 20], t.x.done + [t.x.c], t.x.steps;
    BeginsAlike(g);
    SettlingIsTrail(g);
    TrailComesTo(g, SettlingTrail());
    PassingIsTrail(g);
    TrailEnds(g, t);
  }

  lemma Passes(g: Graph) returns (end: Outcome)
    requires IsPassing(g)
    ensures IsOutcome(g, end) && AllHarmless(g, end.steps)
    ensures 10 in end.forest.rank && 30 in Chain(end.forest, 10)
  {
    var before, parent, order, steps := PassingFinishes(g);
    PassesHarmlessly(g, before, parent, steps);
    end := Outcome(order, steps, Grow(g, steps));
  }

  /** A search over a routine, harmless throughout, after which a chain holds a block that does not post-dominate. */
  lemma ChainsCanBeTooLong() returns (r: Routine, end: Outcome)
    ensures IsRoutine(r) && IsOutcome(FlowGraph(r), end) && AllHarmless(FlowGraph(r), end.steps)
    ensures !ChainsArePostDominators(FlowGraph(r), end.forest) && !Stable(FlowGraph(r), end.forest)
  {
    r := Passing();
    PassingGraph(r);
    end := Passes(FlowGraph(r));
    TenPassesThirty(FlowGraph(r));
    ExactIffStable(FlowGraph(r), end.steps);
  }
}
