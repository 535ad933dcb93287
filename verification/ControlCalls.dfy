/**
  Where a routine gets its calls of PushControl and PopControl: a push before every conditional
  branch, and a pop before the instruction at which the block that PostDominator names begins.
*/
module ControlCalls {
  import opened Collections
  import opened ControlFlow
  import opened PostDominatorForest
  import opened PostDominance
  import opened BasicBlocks
  import opened BlockBuilding
  import opened RoutineGraphs
  import opened RoutineChains

  predicate IsConditional(i: Ins) {
    i.kind.DirectBranch? && i.fallsThrough
  }

  /** The conditional branches among the first n instructions, in their order. */
  ghost function Pushes(r: Routine, n: nat): seq<int>
    requires n <= |r.ins|
  {
    if n == 0 then []
    else Pushes(r, n - 1) + if IsConditional(r.ins[n - 1]) then [r.ins[n - 1].addr] else []
  }

  /** The parent of instruction i's block is the block at a. */
  ghost predicate EndsAt(r: Routine, parent: map<int, int>, i: int, a: int) {
    && 0 <= i < |r.ins| && IsConditional(r.ins[i])
    && Head(r, i) in parent && parent[Head(r, i)] == a
  }

  /** The branches among the first n instructions whose control ends at a. */
  ghost function Ending(r: Routine, parent: map<int, int>, a: int, n: nat): set<int>
    requires n <= |r.ins|
  {
    set i | 0 <= i < n && EndsAt(r, parent, i, a) :: r.ins[i].addr
  }

  /** Every conditional branch among the first n instructions has a block with a parent. */
  ghost predicate AllHaveParents(r: Routine, parent: map<int, int>, n: nat)
    requires n <= |r.ins|
  {
    forall i {:trigger Head(r, i)} :: 0 <= i < n && IsConditional(r.ins[i]) ==> Head(r, i) in parent
  }

  ghost predicate AreControls(r: Routine, parent: map<int, int>, n: nat, controls: map<int, set<int>>)
    requires n <= |r.ins|
  {
    && (forall a :: a in controls <==> Ending(r, parent, a, n) != {})
    && (forall a :: a in controls ==> controls[a] == Ending(r, parent, a, n))
  }

  /** The pops placed before the first n instructions. */
  ghost predicate ArePops(r: Routine, parent: map<int, int>, n: nat, pops: map<int, set<int>>)
    requires n <= |r.ins|
  {
    && (forall a :: a in pops <==> Ending(r, parent, a, |r.ins|) != {} && Seen(r, n, a))
    && (forall a :: a in pops ==> pops[a] == Ending(r, parent, a, |r.ins|))
  }

  lemma EndingNext(r: Routine, parent: map<int, int>, n: nat, a: int)
    requires n < |r.ins|
    ensures Ending(r, parent, a, n + 1) ==
            Ending(r, parent, a, n) + if EndsAt(r, parent, n, a) then {r.ins[n].addr} else {}
  {
  }

  lemma ControlsStay(r: Routine, parent: map<int, int>, n: nat, controls: map<int, set<int>>)
    requires n < |r.ins| && !IsConditional(r.ins[n]) && AreControls(r, parent, n, controls)
    ensures AreControls(r, parent, n + 1, controls)
  {
    forall a
      ensures Ending(r, parent, a, n + 1) == Ending(r, parent, a, n)
    {
      EndingNext(r, parent, n, a);
    }
  }

  lemma ControlsNext(r: Routine, parent: map<int, int>, n: nat, controls: map<int, set<int>>, end: int)
    requires n < |r.ins| && AreControls(r, parent, n, controls) && EndsAt(r, parent, n, end)
    ensures AreControls(r, parent, n + 1, controls[end := At(controls, end) + {r.ins[n].addr}])
  {
    forall a
      ensures Ending(r, parent, a, n + 1) == Ending(r, parent, a, n) + if a == end then {r.ins[n].addr} else {}
    {
      EndingNext(r, parent, n, a);
    }
  }

  /** The heap and the map of a routine's graph are those of a finished initialization. */
  ghost predicate IsReady(r: Routine, blocks: Blocks, addressMap: map<int, BasicBlock>, end: Outcome)
    reads blocks.Values
  {
    && IsRoutine(r) && IsOutcome(FlowGraph(r), end) && Mapped(r, |r.ins|, blocks, addressMap)
    && HoldsForest(Restrict(blocks, BlockAddresses(r)), end.forest)
  }

  /** What addressMap and PostDominator say about the block of an instruction. */
  ghost predicate KnowsParent(r: Routine, addressMap: map<int, BasicBlock>, parent: map<int, int>, i: int)
    requires 0 <= i < |r.ins|
    reads addressMap.Values
  {
    && r.ins[i].addr in addressMap
    && var d := addressMap[r.ins[i].addr].PostDominator;
       && (d != null <==> Head(r, i) in parent)
       && (d != null ==> d in addressMap.Values && d.startingAddress == parent[Head(r, i)])
  }

  ghost predicate AllKnowParents(r: Routine, addressMap: map<int, BasicBlock>, parent: map<int, int>)
    reads addressMap.Values
  {
    forall i {:trigger KnowsParent(r, addressMap, parent, i)} :: 0 <= i < |r.ins| ==>
      KnowsParent(r, addressMap, parent, i)
  }

  lemma HeadIsBlock(r: Routine, i: int)
    requires IsRoutine(r) && 0 <= i < |r.ins|
    ensures Head(r, i) in BlockAddresses(r) && Head(r, i) != RETURN
  {
    var l := LeaderOf(r, i);
    assert Leader(r, l) && IsCode(r, l);
  }

  lemma ReadyKnowsParent(r: Routine, blocks: Blocks, addressMap: map<int, BasicBlock>, end: Outcome, i: int)
    requires IsReady(r, blocks, addressMap, end) && 0 <= i < |r.ins|
    ensures KnowsParent(r, addressMap, end.forest.parent, i)
  {
    var at, parent, h := Restrict(blocks, BlockAddresses(r)), end.forest.parent, Head(r, i);
    HeadIsBlock(r, i);
    assert Homed(r, i, blocks, addressMap);
    assert HoldsParents(at, parent);
    assert HoldsParent(at, parent, h);
    if h in parent {
      assert HoldsParent(at, parent, parent[h]);
      assert addressMap[parent[h]] == blocks[parent[h]];
    }
  }

  /** The calls inserted; the program crashes on a conditional branch whose block has no PostDominator. */
  method PlaceCalls(r: Routine, addressMap: map<int, BasicBlock>, ghost parent: map<int, int>)
    returns (ok: bool, pushes: seq<int>, pops: map<int, set<int>>)
    requires AllKnowParents(r, addressMap, parent)
    ensures ok <==> AllHaveParents(r, parent, |r.ins|)
    ensures ok ==> pushes == Pushes(r, |r.ins|) && ArePops(r, parent, |r.ins|, pops)
  {
    var controls: map<int, set<int>>;
    pops := map[];
    ok, pushes, controls := PlacePushes(r, addressMap, parent);
    if ok {
      pops := PlacePops(r, controls, parent);
    }
  }

  method PlacePushes(r: Routine, addressMap: map<int, BasicBlock>, ghost parent: map<int, int>)
    returns (ok: bool, pushes: seq<int>, controls: map<int, set<int>>)
    requires AllKnowParents(r, addressMap, parent)
    ensures ok <==> AllHaveParents(r, parent, |r.ins|)
    ensures ok ==> pushes == Pushes(r, |r.ins|) && AreControls(r, parent, |r.ins|, controls)
  {
    ok, pushes, controls := true, [], map[];
    for n := 0 to |r.ins|
      invariant ok && pushes == Pushes(r, n)
      invariant AllHaveParents(r, parent, n) && AreControls(r, parent, n, controls)
    {
      var ins := r.ins[n];
      if IsConditional(ins) {
        assert KnowsParent(r, addressMap, parent, n);
        var ipdomBlock := addressMap[ins.addr].PostDominator;
        if ipdomBlock == null {
          ok := false;
          return;
        }
        var ipdomAddr := ipdomBlock.startingAddress;
        ControlsNext(r, parent, n, controls, ipdomAddr);
        controls := controls[ipdomAddr := At(controls, ipdomAddr) + {ins.addr}];
        pushes := pushes + [ins.addr];
      } else {
        ControlsStay(r, parent, n, controls);
      }
    }
  }

  method PlacePops(r: Routine, controls: map<int, set<int>>, ghost parent: map<int, int>)
    returns (pops: map<int, set<int>>)
    requires AreControls(r, parent, |r.ins|, controls)
    ensures ArePops(r, parent, |r.ins|, pops)
  {
    pops := map[];
    for n := 0 to |r.ins|
      invariant ArePops(r, parent, n, pops)
    {
      var addr := r.ins[n].addr;
      assert forall a :: Seen(r, n + 1, a) <==> Seen(r, n, a) || a == addr;
      if addr in controls {
        pops := pops[addr := controls[addr]];
      }
    }
  }

  /** Every conditional branch lies in a block from which the return block can be reached. */
  ghost predicate AllReach(r: Routine) {
    forall i {:trigger Head(r, i)} :: 0 <= i < |r.ins| && IsConditional(r.ins[i]) ==> Reaches(FlowGraph(r), Head(r, i))
  }

  lemma HaveParentsIffReach(r: Routine, end: Outcome)
    requires IsRoutine(r) && IsOutcome(FlowGraph(r), end)
    ensures AllHaveParents(r, end.forest.parent, |r.ins|) <==> AllReach(r)
  {
    forall i | 0 <= i < |r.ins|
      ensures Head(r, i) in end.forest.parent <==> Reaches(FlowGraph(r), Head(r, i))
    {
      HeadIsBlock(r, i);
      FinishedSearch(FlowGraph(r), end.order, end.steps, Head(r, i));
    }
  }

  lemma ReadyKnowsAll(r: Routine, blocks: Blocks, addressMap: map<int, BasicBlock>, end: Outcome)
    requires IsReady(r, blocks, addressMap, end)
    ensures AllKnowParents(r, addressMap, end.forest.parent)
  {
    forall i | 0 <= i < |r.ins|
      ensures KnowsParent(r, addressMap, end.forest.parent, i)
    {
      ReadyKnowsParent(r, blocks, addressMap, end, i);
    }
  }

  /** Builds the graph of the routine. */
  method GraphOf(r: Routine) returns (rtnGraph: RoutineGraph, ghost end: Outcome)
    requires IsRoutine(r)
    ensures IsOutcome(FlowGraph(r), end) && AllKnowParents(r, rtnGraph.addressMap, end.forest.parent)
  {
    rtnGraph := new RoutineGraph();
    end := rtnGraph.InitializeRoutineInfo(r);
    ReadyKnowsAll(r, rtnGraph.blocks, rtnGraph.addressMap, end);
  }

  /**
    The whole of it: the program crashes exactly if a conditional branch lies in a block from which
    the return block cannot be reached.  Otherwise every conditional branch is pushed once, and
    popped before the instruction, if there is one, at which its block's parent begins.
  */
  method Controlflow(r: Routine) returns (ok: bool, pushes: seq<int>, pops: map<int, set<int>>, ghost end: Outcome)
    requires IsRoutine(r)
    ensures IsOutcome(FlowGraph(r), end) && (ok <==> AllReach(r))
    ensures ok ==> pushes == Pushes(r, |r.ins|) && ArePops(r, end.forest.parent, |r.ins|, pops)
    ensures ok ==> NoRepeats(pushes)
    ensures ok ==> forall i :: 0 <= i < |r.ins| ==> (r.ins[i].addr in pushes <==> IsConditional(r.ins[i]))
  {
    var rtnGraph;
    rtnGraph, end := GraphOf(r);
    HaveParentsIffReach(r, end);
    ok, pushes, pops := PlaceCalls(r, rtnGraph.addressMap, end.forest.parent);
    if ok {
      ghost var at := PushedAreConditional(r, pushes);
    }
  }

  // ------------------------------------------------------ what the calls amount to

  /** Branch i is among those popped before the instruction at a. */
  ghost predicate PoppedAt(r: Routine, pops: map<int, set<int>>, i: int, a: int)
    requires 0 <= i < |r.ins|
  {
    a in pops && r.ins[i].addr in pops[a]
  }

  lemma EndingIs(r: Routine, parent: map<int, int>, a: int, i: int)
    requires IsRoutine(r) && 0 <= i < |r.ins|
    ensures r.ins[i].addr in Ending(r, parent, a, |r.ins|) <==> EndsAt(r, parent, i, a)
  {
    if r.ins[i].addr in Ending(r, parent, a, |r.ins|) {
      var j :| 0 <= j < |r.ins| && EndsAt(r, parent, j, a) && r.ins[j].addr == r.ins[i].addr;
      assert i != j ==> Apart(r, i, j);
    }
  }

  lemma ParentIsReturnOrSeen(r: Routine, end: Outcome, b: int)
    requires IsRoutine(r) && IsOutcome(FlowGraph(r), end) && b in end.forest.parent
    ensures end.forest.parent[b] == RETURN || Seen(r, |r.ins|, end.forest.parent[b])
  {
    var g := FlowGraph(r);
    PlacedInGraph(g, end.steps);
    assert end.forest.parent[b] in end.forest.rank;
    assert end.forest.rank.Keys == Placed(end.steps);
    assert end.forest.parent[b] in BlockAddresses(r);
  }

  /**
    Where a branch that was pushed is popped: at its block's parent and nowhere else, and not at
    all if and only if that parent is the return block, which has no instruction.
  */
  lemma PoppedAtParent(r: Routine, end: Outcome, pops: map<int, set<int>>, i: int)
    requires IsRoutine(r) && IsOutcome(FlowGraph(r), end) && ArePops(r, end.forest.parent, |r.ins|, pops)
    requires 0 <= i < |r.ins| && IsConditional(r.ins[i]) && Head(r, i) in end.forest.parent
    ensures forall a :: PoppedAt(r, pops, i, a) <==> a == end.forest.parent[Head(r, i)] && a != RETURN
  {
    var parent := end.forest.parent;
    forall a
      ensures PoppedAt(r, pops, i, a) <==> a == parent[Head(r, i)] && a != RETURN
    {
      EndingIs(r, parent, a, i);
      ParentIsReturnOrSeen(r, end, Head(r, i));
      ReturnIsNotSeen(r);
    }
  }

  lemma ReturnIsNotSeen(r: Routine)
    requires IsRoutine(r)
    ensures !Seen(r, |r.ins|, RETURN)
  {
    forall j | 0 <= j < |r.ins|
      ensures r.ins[j].addr != RETURN
    {
      assert IsCode(r, j);
    }
  }

  /** Every pop is at an immediate post-dominator, for every branch that it pops, if the chains are stable. */
  lemma PopsAreImmediate(r: Routine, end: Outcome, pops: map<int, set<int>>, i: int, a: int)
    requires IsRoutine(r) && IsOutcome(FlowGraph(r), end) && ArePops(r, end.forest.parent, |r.ins|, pops)
    requires Stable(FlowGraph(r), end.forest)
    requires 0 <= i < |r.ins| && PoppedAt(r, pops, i, a)
    ensures IsConditional(r.ins[i]) && IsImmediate(FlowGraph(r), a, Head(r, i))
  {
    EndingIs(r, end.forest.parent, a, i);
    ChainsOfRoutine(r, end);
    assert ParentsAreImmediate(FlowGraph(r), end.forest);
  }

  // ------------------------------------------------------ what is pushed, and what is popped

  /** Number i of the conditional branches is instruction at[i]; they come in the order of the routine. */
  ghost predicate Enumerates(r: Routine, at: seq<int>, n: nat)
    requires n <= |r.ins|
  {
    && (forall k :: 0 <= k < |at| ==> 0 <= at[k] < n && IsConditional(r.ins[at[k]]))
    && (forall k, l :: 0 <= k < l < |at| ==> at[k] < at[l])
    && forall i :: 0 <= i < n && IsConditional(r.ins[i]) ==> i in at
  }

  ghost predicate AreAddresses(r: Routine, at: seq<int>, addresses: seq<int>) {
    && |addresses| == |at|
    && forall k :: 0 <= k < |at| ==> 0 <= at[k] < |r.ins| && addresses[k] == r.ins[at[k]].addr
  }

  lemma EnumeratesStay(r: Routine, at: seq<int>, n: nat)
    requires n < |r.ins| && Enumerates(r, at, n) && !IsConditional(r.ins[n])
    ensures Enumerates(r, at, n + 1)
  {
  }

  lemma EnumeratesNext(r: Routine, at: seq<int>, n: nat)
    requires n < |r.ins| && Enumerates(r, at, n) && IsConditional(r.ins[n])
    ensures Enumerates(r, at + [n], n + 1)
  {
    var more := at + [n];
    assert more[|at|] == n;
    forall i | 0 <= i < n + 1 && IsConditional(r.ins[i])
      ensures i in more
    {
      assert i < n ==> i in at;
    }
  }

  lemma {:induction false} PushesEnumerate(r: Routine, n: nat) returns (at: seq<int>)
    requires n <= |r.ins|
    ensures Enumerates(r, at, n) && AreAddresses(r, at, Pushes(r, n))
  {
    if n == 0 {
      at := [];
    } else {
      at := PushesEnumerate(r, n - 1);
      if IsConditional(r.ins[n - 1]) {
        EnumeratesNext(r, at, n - 1);
        at := at + [n - 1];
      } else {
        EnumeratesStay(r, at, n - 1);
        assert Pushes(r, n) == Pushes(r, n - 1);
      }
    }
  }

  /**
    The branches pushed are the addresses of exactly the conditional branches, each once, in the
    order of their instructions.
  */
  lemma PushedAreConditional(r: Routine, pushes: seq<int>) returns (at: seq<int>)
    requires IsRoutine(r) && pushes == Pushes(r, |r.ins|)
    ensures Enumerates(r, at, |r.ins|) && AreAddresses(r, at, pushes) && NoRepeats(pushes)
    ensures forall i :: 0 <= i < |r.ins| ==> (r.ins[i].addr in pushes <==> IsConditional(r.ins[i]))
    ensures forall a :: a in pushes ==> exists i :: 0 <= i < |r.ins| && IsConditional(r.ins[i]) && r.ins[i].addr == a
  {
    at := PushesEnumerate(r, |r.ins|);
    forall k, l | 0 <= k < l < |pushes|
      ensures pushes[k] != pushes[l]
    {
      assert Apart(r, at[k], at[l]);
    }
    forall i | 0 <= i < |r.ins|
      ensures r.ins[i].addr in pushes <==> IsConditional(r.ins[i])
    {
      PushedIffConditional(r, at, pushes, i);
    }
  }

  lemma PushedIffConditional(r: Routine, at: seq<int>, pushes: seq<int>, i: int)
    requires IsRoutine(r) && Enumerates(r, at, |r.ins|) && AreAddresses(r, at, pushes) && 0 <= i < |r.ins|
    ensures r.ins[i].addr in pushes <==> IsConditional(r.ins[i])
  {
    if r.ins[i].addr in pushes {
      var k :| 0 <= k < |pushes| && pushes[k] == r.ins[i].addr;
      assert at[k] != i ==> Apart(r, at[k], i);
    }
    if IsConditional(r.ins[i]) {
      var k :| 0 <= k < |at| && at[k] == i;
      assert pushes[k] == r.ins[i].addr;
    }
  }

  /** What is popped at an address was pushed: it is a conditional branch whose block has its parent there. */
  lemma PoppedWasPushed(r: Routine, parent: map<int, int>, pops: map<int, set<int>>, a: int, branch: int)
    requires IsRoutine(r) && ArePops(r, parent, |r.ins|, pops) && a in pops && branch in pops[a]
    ensures branch in Pushes(r, |r.ins|)
    ensures exists i :: 0 <= i < |r.ins| && r.ins[i].addr == branch && EndsAt(r, parent, i, a)
  {
    var i :| 0 <= i < |r.ins| && EndsAt(r, parent, i, a) && r.ins[i].addr == branch;
    var at := PushedAreConditional(r, Pushes(r, |r.ins|));
  }

  // ------------------------------------------------------ routines that never return

  /** BlockBuilder sees no return instruction: it does not look at the first one. */
  ghost predicate NeverReturns(r: Routine) {
    forall i :: 1 <= i < |r.ins| ==> !r.ins[i].kind.Return?
  }

  lemma {:induction false} PathEndsWithEdge(g: Graph, s: seq<int>, x: int, y: int)
    requires IsPath(g, s, x, y) && x != y
    ensures exists z :: Flows(g, z, y)
    decreases |s|
  {
    if s[1] != y {
      PathEndsWithEdge(g, s[1..], s[1], y);
    }
  }

  lemma NoJumpReturns(r: Routine, k: int)
    requires IsRoutine(r) && NeverReturns(r) && 1 <= k < |r.ins|
    ensures RETURN !in Jumps(r, k)
  {
    assert IsCode(r, k);
    assert k + 1 < |r.ins| ==> IsCode(r, k + 1);
  }

  lemma NoEdgeReturns(r: Routine, e: Edge)
    requires IsRoutine(r) && NeverReturns(r) && e in Edges(r)
    ensures e.to != RETURN
  {
    var k :| 1 <= k < |r.ins| && e in MadeAt(r, k);
    if e in RunsInto(r, k) {
      assert IsCode(r, k);
    } else {
      NoJumpReturns(r, k);
    }
  }

  lemma NothingReturns(r: Routine, x: int)
    requires IsRoutine(r) && NeverReturns(r) && x != RETURN
    ensures !Reaches(FlowGraph(r), x)
  {
    if Reaches(FlowGraph(r), x) {
      var s :| IsPath(FlowGraph(r), s, x, RETURN) && Avoids(s, {});
      PathEndsWithEdge(FlowGraph(r), s, x, RETURN);
      var z :| Flows(FlowGraph(r), z, RETURN);
      NoEdgeReturns(r, Edge(z, RETURN));
    }
  }

  /** A routine that never returns is given its calls exactly if it has no conditional branch. */
  lemma EndlessCrashesIff(r: Routine)
    requires IsRoutine(r) && NeverReturns(r)
    ensures AllReach(r) <==> forall i :: 0 <= i < |r.ins| ==> !IsConditional(r.ins[i])
  {
    forall i | 0 <= i < |r.ins| && IsConditional(r.ins[i])
      ensures !AllReach(r)
    {
      HeadIsBlock(r, i);
      NothingReturns(r, Head(r, i));
    }
  }

  /** A loop with a conditional branch in it, and no way out. */
  ghost function Endless(): Routine {
    Routine([Ins(10, Plain, true, 11), Ins(11, DirectBranch(10), true, 20), Ins(20, DirectBranch(10), false, 30)], 30)
  }

  lemma CanCrash()
    ensures IsRoutine(Endless()) && !AllReach(Endless())
  {
    var r := Endless();
    assert forall i :: 0 <= i < |r.ins| ==> IsCode(r, i);
    EndlessCrashesIff(r);
    assert IsConditional(r.ins[1]);
  }

  /** The same loop with a jump in place of the conditional branch. */
  ghost function Spinning(): Routine {
    Routine([Ins(10, Plain, true, 11), Ins(11, DirectBranch(10), false, 20), Ins(20, DirectBranch(10), false, 30)], 30)
  }

  lemma JumpsDoNotCrash()
    ensures IsRoutine(Spinning()) && AllReach(Spinning())
  {
    var r := Spinning();
    assert forall i :: 0 <= i < |r.ins| ==> IsCode(r, i);
    EndlessCrashesIff(r);
  }
}
