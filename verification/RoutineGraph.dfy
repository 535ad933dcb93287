/**
  RoutineGraph: the three passes over a routine.  mapper collects branches and targets,
  BlockBuilder and BranchIns cut the instructions into linked blocks, and
  buildPostDominanceTree grows the PostDominator forest from the return block.
*/
module RoutineGraphs {
  import opened Collections
  import opened BlockBuilding
  import opened ControlFlow
  import opened PostDominatorForest
  import opened PostDominance
  import opened BasicBlocks

  /** The heap's predecessor sets are those of graph g. */
  ghost predicate HoldsPredecessors(at: Blocks, g: Graph)
    reads at.Values`predecessors
  {
    && at.Keys == g.Keys
    && forall k {:trigger g[k]} :: k in at ==> g[k] <= at.Keys && at[k].predecessors == BlocksAt(at, g[k])
  }

  /** Blocks finished, the current one, and blocks queued: each placed block is exactly one of these. */
  ghost predicate Queued(done: seq<int>, c: int, waiting: seq<int>, placed: set<int>) {
    NoRepeats(done + [c] + waiting) && Elements(done + [c] + waiting) == placed
  }

  /** The visits made so far: all edges into finished blocks, and those into c but not from `todo`. */
  ghost predicate Visited(g: Graph, done: seq<int>, c: int, todo: set<int>, steps: seq<Visit>) {
    && NoRepeats(steps)
    && forall v: Visit :: v in steps <==>
         Flows(g, v.pred, v.block) && (v.block in done || (v.block == c && v.pred !in todo))
  }

  /**
    The search is about to take the predecessors in `todo` of block c: it has finished with
    the blocks in `done` and will come to those in `waiting`.
  */
  ghost predicate Searching(g: Graph, done: seq<int>, c: int, todo: set<int>, waiting: seq<int>, steps: seq<Visit>) {
    && IsGraph(g) && IsRun(g, steps) && c in g && todo <= g[c]
    && Arrived(g, done, c, todo, waiting, steps)
  }

  ghost predicate Arrived(g: Graph, done: seq<int>, c: int, todo: set<int>, waiting: seq<int>, steps: seq<Visit>)
    requires c in g
  {
    && Queued(done, c, waiting, Placed(steps))
    && Visited(g, done, c, todo, steps)
    && Comes(g, done, c, todo, waiting, steps)
  }

  /** Where a search stands: blocks finished, the current one, its predecessors left, the queue, the visits made. */
  datatype Point = Point(done: seq<int>, c: int, todo: set<int>, waiting: seq<int>, steps: seq<Visit>)

  /** Predecessor p of the current block is taken; at first sight it goes to the end of the queue. */
  ghost function Take(x: Point, p: int): Point {
    x.(todo := x.todo - {p}, waiting := if p in Placed(x.steps) then x.waiting else x.waiting + [p],
       steps := x.steps + [Visit(x.c, p)])
  }

  /** One turn of the inner loop, or on to the block at the front of the queue. */
  ghost predicate Advances(g: Graph, x: Point, y: Point) {
    || (exists p :: p in x.todo && y == Take(x, p))
    || (x.todo == {} && x.waiting != [] && x.waiting[0] in g
        && y == Point(x.done + [x.c], x.waiting[0], g[x.waiting[0]], x.waiting[1..], x.steps))
  }

  ghost predicate IsFirst(g: Graph, x: Point) {
    RETURN in g && x == Point([], RETURN, g[RETURN], [], [])
  }

  /** The search that begins with the return block comes to x. */
  least predicate ReachesPoint[nat](g: Graph, x: Point) {
    IsFirst(g, x) || exists w :: ReachesPoint(g, w) && Advances(g, w, x)
  }

  ghost predicate Comes(g: Graph, done: seq<int>, c: int, todo: set<int>, waiting: seq<int>, steps: seq<Visit>) {
    ReachesPoint(g, Point(done, c, todo, waiting, steps))
  }

  lemma ComesByTaking(g: Graph, done: seq<int>, c: int, todo: set<int>, waiting: seq<int>, steps: seq<Visit>, p: int)
    requires p in todo && Comes(g, done, c, todo, waiting, steps)
    ensures Comes(g, done, c, todo - {p}, if p in Placed(steps) then waiting else waiting + [p], steps + [Visit(c, p)])
  {
    var x := Point(done, c, todo, waiting, steps);
    assert Advances(g, x, Take(x, p));
  }

  lemma ComesToNext(g: Graph, done: seq<int>, c: int, waiting: seq<int>, steps: seq<Visit>)
    requires Comes(g, done, c, {}, waiting, steps) && waiting != [] && waiting[0] in g
    ensures Comes(g, done + [c], waiting[0], g[waiting[0]], waiting[1..], steps)
  {
    assert Advances(g, Point(done, c, {}, waiting, steps),
                    Point(done + [c], waiting[0], g[waiting[0]], waiting[1..], steps));
  }

  lemma ComesFirst(g: Graph)
    requires RETURN in g
    ensures Comes(g, [], RETURN, g[RETURN], [], [])
  {
    assert IsFirst(g, Point([], RETURN, g[RETURN], [], []));
  }

  /** The blocks and visits of a whole search, in the order of its queue. */
  ghost predicate IsQueueOrder(g: Graph, order: seq<int>, steps: seq<Visit>) {
    order != [] && Comes(g, order[..|order| - 1], order[|order| - 1], {}, [], steps)
  }

  lemma ComesToEnd(g: Graph, done: seq<int>, c: int, steps: seq<Visit>)
    requires Comes(g, done, c, {}, [], steps)
    ensures IsQueueOrder(g, done + [c], steps)
  {
    assert (done + [c])[..|done|] == done;
  }

  ghost predicate Finished(g: Graph, order: seq<int>, steps: seq<Visit>) {
    IsGraph(g) && IsRun(g, steps) && Exhausted(g, order, steps)
  }

  /** Every edge into a placed block is taken once, every placed block was queued once, and nothing waits. */
  ghost predicate Exhausted(g: Graph, order: seq<int>, steps: seq<Visit>) {
    && Complete(g, steps)
    && NoRepeats(order) && Elements(order) == Placed(steps)
    && NoRepeats(steps)
    && IsQueueOrder(g, order, steps)
  }

  /** Blocks and visits of a finished search, in order, and the forest that the visits have grown. */
  datatype Outcome = Outcome(order: seq<int>, steps: seq<Visit>, forest: Forest)

  ghost predicate IsOutcome(g: Graph, end: Outcome) {
    Finished(g, end.order, end.steps) && end.forest == Grow(g, end.steps)
  }

  ghost predicate HasAllOutcomes(g: Graph, outcomes: iset<Outcome>) {
    forall end :: IsOutcome(g, end) ==> end in outcomes
  }

  /** What a finished search has done: exactly the blocks that reach the return block were queued and got a parent. */
  lemma FinishedSearch(g: Graph, order: seq<int>, steps: seq<Visit>, x: int)
    requires Finished(g, order, steps)
    ensures x in order <==> Reaches(g, x)
    ensures x in Grow(g, steps).parent <==> Reaches(g, x) && x != RETURN
  {
    PlacedIffReaches(g, steps, x);
    assert x in order <==> x in Elements(order);
    assert Grow(g, steps).rank.Keys == Placed(steps);
  }

  ghost predicate HoldsForest(at: Blocks, f: Forest)
    reads at.Values`startingAddress, at.Values`isPostDominated, at.Values`PostDominator, at.Values`postDominated
  {
    Holds(at, f.parent, f.below)
  }

  lemma TakesOne(g: Graph, done: seq<int>, c: int, todo: set<int>, waiting: seq<int>, steps: seq<Visit>, p: int)
    requires Searching(g, done, c, todo, waiting, steps) && p in todo
    ensures
      var later := if p in Placed(steps) then waiting else waiting + [p];
      Searching(g, done, c, todo - {p}, later, steps + [Visit(c, p)])
    ensures c in Placed(steps)
    ensures Grow(g, steps + [Visit(c, p)]) == Step(Grow(g, steps), c, p)
  {
    assert c in done + [c] + waiting;
    GrowSnoc(g, steps, c, p);
    PlacedGrows(steps, Visit(c, p));
    QueueTakes(done, c, waiting, Placed(steps), p);
    CurrentIsNew(done, c, waiting);
    VisitsTake(g, done, c, todo, steps, p);
    ComesByTaking(g, done, c, todo, waiting, steps, p);
  }

  lemma QueueTakes(done: seq<int>, c: int, waiting: seq<int>, placed: set<int>, p: int)
    requires Queued(done, c, waiting, placed)
    ensures Queued(done, c, if p in placed then waiting else waiting + [p], placed + {p})
  {
    if p in placed {
      assert placed + {p} == placed;
    } else {
      assert done + [c] + (waiting + [p]) == done + [c] + waiting + [p];
      OneMore(done + [c] + waiting, p);
    }
  }

  lemma VisitsTake(g: Graph, done: seq<int>, c: int, todo: set<int>, steps: seq<Visit>, p: int)
    requires Visited(g, done, c, todo, steps) && p in todo && Flows(g, p, c) && c !in done
    ensures Visited(g, done, c, todo - {p}, steps + [Visit(c, p)])
  {
    var v := Visit(c, p);
    assert v !in steps;
    OneMore(steps, v);
    assert forall u :: u in steps + [v] <==> u in steps || u == v;
  }

  lemma CurrentIsNew(done: seq<int>, c: int, waiting: seq<int>)
    requires NoRepeats(done + [c] + waiting)
    ensures c !in done
  {
    var s := done + [c] + waiting;
    assert forall i :: 0 <= i < |done| ==> s[i] == done[i];
    assert s[|done|] == c;
  }

  lemma NextBlock(g: Graph, done: seq<int>, c: int, waiting: seq<int>, steps: seq<Visit>)
    requires Searching(g, done, c, {}, waiting, steps) && waiting != []
    ensures waiting[0] in g && Searching(g, done + [c], waiting[0], g[waiting[0]], waiting[1..], steps)
  {
    var n := waiting[0];
    PlacedInGraph(g, steps);
    assert done + [c] + [n] + waiting[1..] == done + [c] + waiting;
    assert n in done + [c] + waiting;
    CurrentIsNew(done + [c], n, waiting[1..]);
    assert forall x :: x in done + [c] <==> x in done || x == c;
    ComesToNext(g, done, c, waiting, steps);
  }

  lemma SearchEnds(g: Graph, done: seq<int>, c: int, steps: seq<Visit>)
    requires Searching(g, done, c, {}, [], steps)
    ensures Finished(g, done + [c], steps)
  {
    assert done + [c] + [] == done + [c];
    ComesToEnd(g, done, c, steps);
  }

  lemma {:induction false} PlacedInGraph(g: Graph, steps: seq<Visit>)
    requires IsGraph(g) && IsRun(g, steps)
    ensures Placed(steps) <= g.Keys
    decreases |steps|
  {
    if steps != [] {
      var before, last := steps[..|steps| - 1], steps[|steps| - 1];
      PlacedInGraph(g, before);
      assert steps == before + [last];
      PlacedGrows(before, last);
    }
  }

  lemma {:induction false} NoRepeatsIsShort(s: seq<int>, within: set<int>)
    requires NoRepeats(s) && Elements(s) <= within
    ensures |s| <= |within|
    decreases |s|
  {
    if s != [] {
      var last := s[|s| - 1];
      assert last in s;
      forall x | x in s[..|s| - 1]
        ensures x in within - {last}
      {
        assert x in s;
      }
      NoRepeatsIsShort(s[..|s| - 1], within - {last});
    }
  }

  lemma SearchIsBounded(g: Graph, done: seq<int>, c: int, todo: set<int>, waiting: seq<int>, steps: seq<Visit>)
    requires Searching(g, done, c, todo, waiting, steps)
    ensures |done| < |g.Keys|
  {
    PlacedInGraph(g, steps);
    NoRepeatsIsShort(done + [c] + waiting, g.Keys);
  }

  /** The queue holds the blocks at these addresses. */
  ghost predicate AreAt(at: Blocks, addresses: seq<int>, blocks: seq<BasicBlock>) {
    && |addresses| == |blocks|
    && forall i :: 0 <= i < |blocks| ==> addresses[i] in at && at[addresses[i]] == blocks[i]
  }

  lemma RemainingTargets(at: Blocks, parent: map<int, int>, todo: set<int>, p: int)
    requires HoldsParents(at, parent) && p in todo && p in at
    ensures BlocksAt(at, todo - {p}) == BlocksAt(at, todo) - {at[p]}
  {
    OnlyAt(at, parent, p);
  }

  lemma OneLessQueued(at: Blocks, addresses: seq<int>, blocks: seq<BasicBlock>)
    requires AreAt(at, addresses, blocks) && blocks != []
    ensures addresses != [] && addresses[0] in at && at[addresses[0]] == blocks[0]
    ensures AreAt(at, addresses[1..], blocks[1..])
  {
  }

  lemma OneMoreQueued(at: Blocks, addresses: seq<int>, blocks: seq<BasicBlock>, p: int)
    requires AreAt(at, addresses, blocks) && p in at
    ensures AreAt(at, addresses + [p], blocks + [at[p]])
  {
  }

  class RoutineGraph {
    var EntranceNode: BasicBlock?
    var ReturnNode: BasicBlock?
    var addressMap: map<int, BasicBlock>
    var branches: map<int, set<int>>
    var targets: map<int, set<int>>

    ghost var blocks: Blocks
    ghost var relays: set<BasicBlock>
    ghost var nodes: set<BasicBlock>
    ghost var edges: set<Edge>
    ghost var started: set<int>

    constructor ()
      ensures addressMap == map[] && branches == map[] && targets == map[]
      ensures blocks == map[] && relays == {} && nodes == {} && edges == {} && started == {}
    {
      EntranceNode, ReturnNode := null, null;
      addressMap, branches, targets := map[], map[], map[];
      blocks, relays, nodes, edges, started := map[], {}, {}, {}, {};
    }

    // ------------------------------------------------------ first pass

    method InsertBranch(a: int, target: int)
      modifies this`branches
      ensures branches == old(branches)[a := At(old(branches), a) + {target}]
    {
      branches := branches[a := At(branches, a) + {target}];
    }

    method InsertTarget(target: int, a: int)
      modifies this`targets
      ensures targets == old(targets)[target := At(old(targets), target) + {a}]
    {
      targets := targets[target := At(targets, target) + {a}];
    }

    method InsertFallThrough(i: Ins)
      modifies this`branches, this`targets
      ensures At(branches, i.addr) == At(old(branches), i.addr) + FallThrough(i)
      ensures forall a :: a != i.addr ==> At(branches, a) == At(old(branches), a)
      ensures forall a :: At(targets, a) == At(old(targets), a) + if a in FallThrough(i) then {i.addr} else {}
    {
      if i.fallsThrough {
        InsertBranch(i.addr, i.next);
        InsertTarget(i.next, i.addr);
      }
    }

    method Mapper(i: Ins)
      modifies this`branches, this`targets
      ensures At(branches, i.addr) == At(old(branches), i.addr) + BranchSet(i)
      ensures forall a :: a != i.addr ==> At(branches, a) == At(old(branches), a)
      ensures forall a :: At(targets, a) == At(old(targets), a) + if a in TargetSet(i) then {i.addr} else {}
    {
      match i.kind {
        case Plain =>
        case DirectBranch(target) =>
          InsertBranch(i.addr, target);
          InsertTarget(target, i.addr);
          InsertFallThrough(i);
        case IndirectBranch =>
          InsertBranch(i.addr, INDIRECT_BRANCH);
          InsertFallThrough(i);
        case DirectCall =>
          InsertBranch(i.addr, CALL);
          InsertFallThrough(i);
        case IndirectCall =>
          InsertBranch(i.addr, INDIRECT_CALL);
          InsertFallThrough(i);
        case Return =>
          InsertBranch(i.addr, RETURN);
      }
    }

    method MapAll(r: Routine)
      requires IsRoutine(r) && branches == map[] && targets == map[]
      modifies this`branches, this`targets
      ensures FirstPass(r, |r.ins|, branches, targets)
    {
      for i := 0 to |r.ins|
        invariant FirstPass(r, i, branches, targets)
      {
        ghost var b, t := branches, targets;
        Mapper(r.ins[i]);
        FirstPassNext(r, i, b, t, branches, targets);
      }
    }

    // ------------------------------------------------------ second pass

    ghost predicate Building(r: Routine, n: nat)
      reads this, nodes
    {
      && blocks.Values <= nodes && relays <= nodes
      && Mapped(r, n, blocks, addressMap) && Drawn(blocks, relays, edges, started)
    }

    ghost predicate Extends(before: Blocks)
      reads this`blocks
    {
      forall k :: k in before ==> k in blocks && blocks[k] == before[k]
    }

    method GetBasicBlockAt(targetAddress: int, ghost r: Routine, ghost n: nat) returns (b: BasicBlock)
      requires Building(r, n) && Startable(r, targetAddress)
      modifies this`addressMap, this`blocks, this`nodes
      ensures Building(r, n) && targetAddress in blocks && blocks[targetAddress] == b
      ensures Extends(old(blocks)) && fresh(nodes - old(nodes))
    {
      if targetAddress !in addressMap {
        b := NewBlock(targetAddress, blocks, relays, edges, started);
        MappedNewBlock(r, n, blocks, addressMap, targetAddress, b);
        addressMap := addressMap[targetAddress := b];
        blocks, nodes := blocks[targetAddress := b], nodes + {b};
      } else {
        MappedStartable(r, n, blocks, addressMap, targetAddress);
        b := addressMap[targetAddress];
      }
    }

    /** An edge from the block at j to the one at k. */
    method Connect(b: BasicBlock, c: BasicBlock, ghost j: int, ghost k: int, ghost r: Routine, ghost n: nat)
      requires Building(r, n) && j in blocks && k in blocks && blocks[j] == b && blocks[k] == c
      modifies this`edges, c`predecessors, b`successors
      ensures Building(r, n) && edges == old(edges) + {Edge(j, k)}
    {
      Link(b, c, j, k, blocks, relays, edges, started);
      edges := edges + {Edge(j, k)};
    }

    /** An edge from the block at j to the one at k, by way of a node that stands for a call. */
    method ConnectThrough(b: BasicBlock, c: BasicBlock, flag: int,
                          ghost j: int, ghost k: int, ghost r: Routine, ghost n: nat) returns (node: BasicBlock)
      requires Building(r, n) && j in blocks && k in blocks && blocks[j] == b && blocks[k] == c
      modifies this`edges, this`relays, this`nodes, c`predecessors, b`successors
      ensures Building(r, n) && edges == old(edges) + {Edge(j, k)}
      ensures fresh(node) && relays == old(relays) + {node} && nodes == old(nodes) + {node}
    {
      node := LinkThrough(b, c, flag, j, k, blocks, relays, edges, started);
      relays, nodes, edges := relays + {node}, nodes + {node}, edges + {Edge(j, k)};
    }

    /** A node that stands for unknown destinations. */
    method ConnectNowhere(b: BasicBlock, flag: int, ghost j: int, ghost r: Routine, ghost n: nat)
      returns (node: BasicBlock)
      requires Building(r, n) && j in blocks && blocks[j] == b
      modifies this`relays, this`nodes, b`successors
      ensures Building(r, n)
      ensures fresh(node) && relays == old(relays) + {node} && nodes == old(nodes) + {node}
    {
      node := NewRelay(b, flag, j, blocks, relays, edges, started);
      relays, nodes := relays + {node}, nodes + {node};
    }

    /** What every case of BranchIns finds: block h is closed by instruction i, whose address is mapped. */
    ghost predicate Closing(currentBlock: BasicBlock, r: Routine, i: nat)
      reads this, nodes
    {
      && IsRoutine(r) && Ends(r, i) && Building(r, i + 1)
      && Head(r, i) in blocks && blocks[Head(r, i)] == currentBlock
      && Head(r, i) in started && RETURN in blocks
    }

    method ReturnFrom(currentBlock: BasicBlock, ghost r: Routine, ghost i: nat)
      requires Closing(currentBlock, r, i) && r.ins[i].kind.Return?
      modifies this`edges, nodes`predecessors, nodes`successors
      ensures Building(r, i + 1) && edges == old(edges) + JumpsTo(r, i)
    {
      var returnBlock := addressMap[RETURN];
      Connect(currentBlock, returnBlock, Head(r, i), RETURN, r, i + 1);
      JumpsToOne(r, i, RETURN);
    }

    /**
      A call is linked to the next instruction; behind a last one, that is the address r.pastEnd,
      which is taken to be none of the flags.
    */
    method Call(currentBlock: BasicBlock, flag: int, r: Routine, i: nat)
      requires Closing(currentBlock, r, i) && (r.ins[i].kind.DirectCall? || r.ins[i].kind.IndirectCall?)
      modifies this`addressMap, this`blocks, this`nodes, this`edges, this`relays
      modifies nodes`predecessors, nodes`successors
      ensures Building(r, i + 1) && edges == old(edges) + JumpsTo(r, i)
      ensures Extends(old(blocks)) && fresh(nodes - old(nodes))
    {
      NextIsStartable(r, i);
      JumpsToOne(r, i, NextAddress(r, i));
      var fallThrough := GetBasicBlockAt(NextAddress(r, i), r, i + 1);
      var node := ConnectThrough(currentBlock, fallThrough, flag, Head(r, i), NextAddress(r, i), r, i + 1);
    }

    method JumpTo(currentBlock: BasicBlock, target: int, ghost r: Routine, ghost i: nat)
      requires Closing(currentBlock, r, i) && Startable(r, target)
      modifies this`addressMap, this`blocks, this`nodes, this`edges
      modifies nodes`predecessors, nodes`successors
      ensures Closing(currentBlock, r, i) && edges == old(edges) + {Edge(Head(r, i), target)}
      ensures Extends(old(blocks)) && fresh(nodes - old(nodes))
    {
      var targetBlock := GetBasicBlockAt(target, r, i + 1);
      Connect(currentBlock, targetBlock, Head(r, i), target, r, i + 1);
    }

    method Branch(currentBlock: BasicBlock, target: int, here: set<int>, r: Routine, i: nat)
      requires Closing(currentBlock, r, i) && r.ins[i].kind.DirectBranch?
      requires here == BranchSet(r.ins[i]) && IsLeast(target, here)
      modifies this`addressMap, this`blocks, this`nodes, this`edges
      modifies nodes`predecessors, nodes`successors
      ensures Building(r, i + 1) && edges == old(edges) + JumpsTo(r, i)
      ensures Extends(old(blocks)) && fresh(nodes - old(nodes))
    {
      TargetsAreStartable(r, i);
      TargetIsJump(r, i, target);
      JumpTo(currentBlock, target, r, i);
      BranchOn(currentBlock, target, here, r, i);
    }

    method BranchOn(currentBlock: BasicBlock, target: int, here: set<int>, r: Routine, i: nat)
      requires Closing(currentBlock, r, i) && r.ins[i].kind.DirectBranch?
      requires here == BranchSet(r.ins[i]) && IsLeast(target, here) && Edge(Head(r, i), target) in edges
      modifies this`addressMap, this`blocks, this`nodes, this`edges
      modifies nodes`predecessors, nodes`successors
      ensures Building(r, i + 1) && edges == old(edges) + JumpsTo(r, i)
      ensures Extends(old(blocks)) && fresh(nodes - old(nodes))
    {
      if |here| > 1 {
        TwoTargets(r.ins[i]);
        var other :| other in here && other != target;
        BranchesTwice(r, i, target, other);
        Absorb(edges, Edge(Head(r, i), target), Edge(Head(r, i), other));
        TargetsAreStartable(r, i);
        JumpTo(currentBlock, other, r, i);
      } else if target == currentBlock.startingAddress {
        NextIsStartable(r, i);
        LoopsBack(r, i, target);
        Absorb(edges, Edge(Head(r, i), target), Edge(Head(r, i), NextAddress(r, i)));
        JumpTo(currentBlock, NextAddress(r, i), r, i);
      } else {
        BranchesOnce(r, i, target);
        Absorb(edges, Edge(Head(r, i), target), Edge(Head(r, i), target));
      }
    }

    method CloseBlock(currentBlock: BasicBlock, ghost r: Routine, i: nat, address: int)
      requires IsRoutine(r) && Ends(r, i) && Building(r, i) && address == r.ins[i].addr
      requires Head(r, i) in blocks && blocks[Head(r, i)] == currentBlock
      requires Head(r, i) in started && RETURN in blocks
      modifies this`addressMap
      ensures Closing(currentBlock, r, i)
    {
      MappedNext(r, i, blocks, addressMap);
      addressMap := addressMap[address := currentBlock];
    }

    /** The branch at instruction i ends currentBlock. */
    method BranchIns(currentBlock: BasicBlock, r: Routine, i: nat)
      requires IsRoutine(r) && FirstPass(r, |r.ins|, branches, targets)
      requires Ends(r, i) && Building(r, i) && Head(r, i) in blocks && blocks[Head(r, i)] == currentBlock
      requires Head(r, i) in started && RETURN in blocks
      modifies this`addressMap, this`blocks, this`nodes, this`edges, this`relays
      modifies nodes`predecessors, nodes`successors
      ensures Building(r, i + 1) && edges == old(edges) + JumpsTo(r, i)
      ensures Extends(old(blocks)) && fresh(nodes - old(nodes))
    {
      CloseBlock(currentBlock, r, i, r.ins[i].addr);
      var here := At(branches, r.ins[i].addr);
      BranchHasLeast(r, i);
      var target :| IsLeast(target, here);
      Leave(currentBlock, target, here, r, i);
    }

    /** The smallest of the branch's targets says what to link. */
    method Leave(currentBlock: BasicBlock, target: int, here: set<int>, r: Routine, i: nat)
      requires Closing(currentBlock, r, i) && here == BranchSet(r.ins[i]) && IsLeast(target, here)
      modifies this`addressMap, this`blocks, this`nodes, this`edges, this`relays
      modifies nodes`predecessors, nodes`successors
      ensures Building(r, i + 1) && edges == old(edges) + JumpsTo(r, i)
      ensures Extends(old(blocks)) && fresh(nodes - old(nodes))
    {
      LeastTellsKind(r, i, target);
      if target == CALL {
        Call(currentBlock, CALL, r, i);
      } else if target == RETURN {
        ReturnFrom(currentBlock, r, i);
      } else if target == INDIRECT_CALL {
        Call(currentBlock, INDIRECT_CALL, r, i);
      } else if target == INDIRECT_BRANCH {
        JumpsNowhere(r, i);
        var node := ConnectNowhere(currentBlock, INDIRECT_BRANCH, Head(r, i), r, i + 1);
      } else {
        Branch(currentBlock, target, here, r, i);
      }
    }

    /** The state between two instructions: currentBlock is the block still open, if any. */
    ghost predicate Between(r: Routine, n: nat, currentBlock: BasicBlock?)
      reads this, nodes
    {
      && 1 <= n <= |r.ins| && Building(r, n)
      && RETURN in blocks && edges == EdgesUpTo(r, n) && started == Starts(r, n)
      && (if Ends(r, n - 1) then currentBlock == null
          else Head(r, n - 1) in blocks && currentBlock == blocks[Head(r, n - 1)])
    }

    /** Instruction i belongs to block b and has been linked to what runs into it, but is not mapped yet. */
    ghost predicate Opened(r: Routine, i: nat, b: BasicBlock)
      reads this, nodes
    {
      && 1 <= i < |r.ins| && Building(r, i)
      && RETURN in blocks && Head(r, i) in blocks && blocks[Head(r, i)] == b && Head(r, i) in started
      && edges == EdgesUpTo(r, i) + RunsInto(r, i) && started == Starts(r, i + 1)
    }

    /** Instruction i starts a block. */
    method StartBlock(r: Routine, i: nat) returns (b: BasicBlock)
      requires IsRoutine(r) && i < |r.ins| && Building(r, i) && Leader(r, i)
      modifies this`addressMap, this`blocks, this`nodes, this`started, nodes`startingAddress
      ensures Building(r, i) && started == old(started) + {r.ins[i].addr}
      ensures r.ins[i].addr in blocks && blocks[r.ins[i].addr] == b
      ensures Extends(old(blocks)) && fresh(nodes - old(nodes))
    {
      LeaderIsStartable(r, i);
      b := GetBasicBlockAt(r.ins[i].addr, r, i);
      SetStarting(b, r.ins[i].addr, blocks, relays, edges, started);
      started := started + {r.ins[i].addr};
    }

    /** Instruction i, now mapped to block b, either ends it or leaves it open. */
    method EndBlockIfBranch(b: BasicBlock, r: Routine, i: nat) returns (currentBlock: BasicBlock?)
      requires IsRoutine(r) && FirstPass(r, |r.ins|, branches, targets) && Opened(r, i, b)
      modifies this`addressMap, this`blocks, this`nodes, this`edges, this`relays
      modifies nodes`predecessors, nodes`successors
      ensures Between(r, i + 1, currentBlock) && Extends(old(blocks)) && fresh(nodes - old(nodes))
    {
      OneInstruction(r, i);
      if At(branches, r.ins[i].addr) != {} {
        BranchIns(b, r, i);
        currentBlock := null;
      } else {
        NoJumps(r, i);
        MappedNext(r, i, blocks, addressMap);
        addressMap := addressMap[r.ins[i].addr := b];
        currentBlock := b;
      }
    }

    /** Instruction i is a target that the open block runs into. */
    method RunInto(open: BasicBlock, r: Routine, i: nat) returns (newBlock: BasicBlock)
      requires IsRoutine(r) && i < |r.ins| && Between(r, i, open) && IsTarget(r, r.ins[i].addr)
      modifies this`addressMap, this`blocks, this`nodes, this`edges, this`started
      modifies nodes`predecessors, nodes`successors, nodes`startingAddress
      ensures Opened(r, i, newBlock) && Extends(old(blocks)) && fresh(nodes - old(nodes))
    {
      StartsGrow(r, i);
      HeadOfLeader(r, i);
      newBlock := StartBlock(r, i);
      ghost var grown := nodes;
      assert fresh(grown - old(nodes));
      Connect(open, newBlock, Head(r, i - 1), r.ins[i].addr, r, i);
      assert nodes == grown;
    }

    /** Instruction i comes behind a branch. */
    method StartAfterBranch(r: Routine, i: nat) returns (newBlock: BasicBlock)
      requires IsRoutine(r) && i < |r.ins| && Between(r, i, null)
      modifies this`addressMap, this`blocks, this`nodes, this`started, nodes`startingAddress
      ensures Opened(r, i, newBlock) && Extends(old(blocks)) && fresh(nodes - old(nodes))
    {
      StartsGrow(r, i);
      HeadOfLeader(r, i);
      NothingRunsInto(r, i);
      newBlock := StartBlock(r, i);
    }

    lemma StayInBlock(open: BasicBlock, r: Routine, i: nat)
      requires IsRoutine(r) && i < |r.ins| && Between(r, i, open) && !IsTarget(r, r.ins[i].addr)
      ensures Opened(r, i, open)
    {
      StartsGrow(r, i);
      NothingRunsInto(r, i);
      HeadOfOther(r, i);
      HeadIsStarted(r, i - 1);
    }

    /** The block that instruction i belongs to. */
    method OpenBlock(open: BasicBlock?, r: Routine, i: nat) returns (b: BasicBlock)
      requires IsRoutine(r) && FirstPass(r, |r.ins|, branches, targets) && i < |r.ins| && Between(r, i, open)
      modifies this`addressMap, this`blocks, this`nodes, this`edges, this`started
      modifies nodes`predecessors, nodes`successors, nodes`startingAddress
      ensures Opened(r, i, b) && Extends(old(blocks)) && fresh(nodes - old(nodes))
    {
      if open == null {
        b := StartAfterBranch(r, i);
      } else if At(targets, r.ins[i].addr) != {} {
        b := RunInto(open, r, i);
      } else {
        StayInBlock(open, r, i);
        b := open;
      }
    }

    method BuildNext(open: BasicBlock?, r: Routine, i: nat) returns (currentBlock: BasicBlock?)
      requires IsRoutine(r) && FirstPass(r, |r.ins|, branches, targets) && i < |r.ins| && Between(r, i, open)
      modifies this`addressMap, this`blocks, this`nodes, this`edges, this`relays, this`started
      modifies nodes`predecessors, nodes`successors, nodes`startingAddress
      ensures Between(r, i + 1, currentBlock) && Extends(old(blocks)) && fresh(nodes - old(nodes))
    {
      var b := OpenBlock(open, r, i);
      currentBlock := EndBlockIfBranch(b, r, i);
    }

    /** The entrance block and the return block, before anything is linked. */
    static method FirstBlocks(r: Routine) returns (routineHead: BasicBlock, returnBlock: BasicBlock, ghost both: Blocks)
      requires IsRoutine(r)
      ensures both == map[r.ins[0].addr := routineHead, RETURN := returnBlock]
      ensures Drawn(both, {}, {}, {r.ins[0].addr, RETURN})
      ensures fresh(routineHead) && fresh(returnBlock)
    {
      assert IsCode(r, 0);
      ghost var none: Blocks, a := map[], r.ins[0].addr;
      routineHead := NewBlock(a, none, {}, {}, {});
      ghost var one := none[a := routineHead];
      SetStarting(routineHead, r.ins[0].addr, one, {}, {}, {});
      returnBlock := NewBlock(RETURN, one, {}, {}, {} + {a});
      both := one[RETURN := returnBlock];
      SetStarting(returnBlock, RETURN, both, {}, {}, {} + {a});
    }

    method StartRoutine(r: Routine) returns (routineHead: BasicBlock)
      requires IsRoutine(r) && relays == {} && edges == {}
      modifies this`addressMap, this`blocks, this`nodes, this`started, this`EntranceNode, this`ReturnNode
      ensures Between(r, 1, routineHead) && fresh(nodes)
      ensures ReturnNode == blocks[RETURN] && EntranceNode == routineHead
    {
      var returnBlock;
      ghost var both;
      routineHead, returnBlock, both := FirstBlocks(r);
      EntranceNode, ReturnNode := routineHead, returnBlock;
      addressMap := map[r.ins[0].addr := routineHead, RETURN := returnBlock];
      blocks, nodes, started := both, {routineHead, returnBlock}, {r.ins[0].addr, RETURN};
      FirstMapped(r, both);
      FirstStarts(r);
      assert both.Values == nodes;
    }

    method BlockBuilder(r: Routine)
      requires IsRoutine(r) && FirstPass(r, |r.ins|, branches, targets) && relays == {} && edges == {}
      modifies this`addressMap, this`blocks, this`nodes, this`edges, this`relays, this`started
      modifies this`EntranceNode, this`ReturnNode
      ensures Building(r, |r.ins|) && edges == Edges(r) && started == Starts(r, |r.ins|) && fresh(nodes)
      ensures RETURN in blocks && ReturnNode == blocks[RETURN]
      ensures Head(r, 0) in blocks && EntranceNode == blocks[Head(r, 0)]
    {
      var routineHead := StartRoutine(r);
      ghost var first := nodes;
      var currentBlock := BuildRest(routineHead, r);
      assert fresh(first) && fresh(nodes - first);
    }

    method BuildRest(routineHead: BasicBlock, r: Routine) returns (currentBlock: BasicBlock?)
      requires IsRoutine(r) && FirstPass(r, |r.ins|, branches, targets) && Between(r, 1, routineHead)
      modifies this`addressMap, this`blocks, this`nodes, this`edges, this`relays, this`started
      modifies nodes`predecessors, nodes`successors, nodes`startingAddress
      ensures Between(r, |r.ins|, currentBlock) && Extends(old(blocks)) && fresh(nodes - old(nodes))
    {
      ghost var b, t := branches, targets;
      currentBlock := routineHead;
      var i := 1;
      while i < |r.ins|
        invariant Between(r, i, currentBlock) && branches == b && targets == t
        invariant Extends(old(blocks)) && fresh(nodes - old(nodes))
      {
        currentBlock := BuildNext(currentBlock, r, i);
        i := i + 1;
      }
    }

    // ------------------------------------------------------ third pass

    static method Place(currentBlock: BasicBlock, targetBlock: BasicBlock, blockQueue: seq<BasicBlock>,
                        ghost at: Blocks, ghost g: Graph, ghost f: Forest, ghost c: int, ghost p: int)
      returns (queue: seq<BasicBlock>)
      requires WellFormed(f) && Timely(f) && HoldsForest(at, f) && HoldsPredecessors(at, g)
      requires c in f.rank && p in f.below && p != RETURN && at[c] == currentBlock && at[p] == targetBlock
      modifies at.Values`postDominated, at.Values`immediatelyPostDominated
      modifies targetBlock`PostDominator, targetBlock`isPostDominated
      ensures HoldsForest(at, Step(f, c, p)) && HoldsPredecessors(at, g)
      ensures queue == if p in f.rank then blockQueue else blockQueue + [targetBlock]
    {
      OnlyAt(at, f.parent, c);
      OnlyAt(at, f.parent, p);
      queue := blockQueue;
      if targetBlock.PostDominator == null {
        queue := queue + [targetBlock];
      }
      currentBlock.AddPredecessorAsPostDominated(targetBlock, at, f);
      assert HoldsPredecessors(at, g);
    }

    static method TakePredecessor(currentBlock: BasicBlock, targetBlock: BasicBlock, blockQueue: seq<BasicBlock>,
                                  ghost at: Blocks, ghost g: Graph, ghost done: seq<int>, ghost c: int, ghost p: int,
                                  ghost todo: set<int>, ghost waiting: seq<int>, ghost visits: seq<Visit>)
      returns (queue: seq<BasicBlock>, ghost later: seq<int>)
      requires Searching(g, done, c, todo, waiting, visits)
      requires HoldsForest(at, Grow(g, visits)) && HoldsPredecessors(at, g)
      requires p in todo && at[c] == currentBlock && at[p] == targetBlock && AreAt(at, waiting, blockQueue)
      modifies at.Values`postDominated, at.Values`immediatelyPostDominated
      modifies targetBlock`PostDominator, targetBlock`isPostDominated
      ensures Searching(g, done, c, todo - {p}, later, visits + [Visit(c, p)])
      ensures HoldsForest(at, Grow(g, visits + [Visit(c, p)])) && HoldsPredecessors(at, g)
      ensures AreAt(at, later, queue)
    {
      TakesOne(g, done, c, todo, waiting, visits, p);
      later := if p in Placed(visits) then waiting else waiting + [p];
      OneMoreQueued(at, waiting, blockQueue, p);
      queue := Place(currentBlock, targetBlock, blockQueue, at, g, Grow(g, visits), c, p);
    }

    static method TakePredecessors(currentBlock: BasicBlock, blockQueue: seq<BasicBlock>,
                                   ghost at: Blocks, ghost g: Graph, ghost done: seq<int>, ghost c: int,
                                   ghost waiting: seq<int>, ghost visits: seq<Visit>)
      returns (queue: seq<BasicBlock>, ghost later: seq<int>, ghost steps: seq<Visit>)
      requires c in g && Searching(g, done, c, g[c], waiting, visits)
      requires HoldsForest(at, Grow(g, visits)) && HoldsPredecessors(at, g)
      requires at[c] == currentBlock && AreAt(at, waiting, blockQueue)
      modifies at.Values`postDominated, at.Values`immediatelyPostDominated
      modifies at.Values`PostDominator, at.Values`isPostDominated
      ensures Searching(g, done, c, {}, later, steps)
      ensures HoldsForest(at, Grow(g, steps)) && HoldsPredecessors(at, g)
      ensures AreAt(at, later, queue)
    {
      ghost var todo := g[c];
      later, steps, queue := waiting, visits, blockQueue;
      var edgeTargets := currentBlock.predecessors;
      while exists b :: b in edgeTargets
        invariant Searching(g, done, c, todo, later, steps)
        invariant HoldsForest(at, Grow(g, steps)) && HoldsPredecessors(at, g)
        invariant edgeTargets == BlocksAt(at, todo) && AreAt(at, later, queue)
        decreases edgeTargets
      {
        var targetBlock :| targetBlock in edgeTargets;
        ghost var p :| p in todo && p in at && at[p] == targetBlock;
        RemainingTargets(at, Grow(g, steps).parent, todo, p);
        queue, later := TakePredecessor(currentBlock, targetBlock, queue, at, g, done, c, p, todo, later, steps);
        steps, edgeTargets, todo := steps + [Visit(c, p)], edgeTargets - {targetBlock}, todo - {p};
      }
      assert forall p :: p in todo ==> at[p] in BlocksAt(at, todo);
      assert todo == {};
      todo := {};
    }

    /**
      Works through the predecessors of currentBlock, then through the queue.  Every run of it is a
      complete search: it ends, each block is queued at most once and each edge is taken at most once.
    */
    static method BuildPostDominanceTree(currentBlock: BasicBlock, blockQueue: seq<BasicBlock>,
                                         ghost at: Blocks, ghost g: Graph, ghost done: seq<int>, ghost c: int,
                                         ghost waiting: seq<int>, ghost visits: seq<Visit>)
      returns (ghost order: seq<int>, ghost steps: seq<Visit>)
      requires c in g && Searching(g, done, c, g[c], waiting, visits)
      requires HoldsForest(at, Grow(g, visits)) && HoldsPredecessors(at, g)
      requires at[c] == currentBlock && AreAt(at, waiting, blockQueue)
      modifies at.Values`postDominated, at.Values`immediatelyPostDominated
      modifies at.Values`PostDominator, at.Values`isPostDominated
      ensures Finished(g, order, steps) && HoldsForest(at, Grow(g, steps))
      decreases |g.Keys| - |done|
    {
      var queue;
      ghost var later;
      queue, later, steps := TakePredecessors(currentBlock, blockQueue, at, g, done, c, waiting, visits);
      if |queue| > 0 {
        var nextBlock := queue[0];
        OneLessQueued(at, later, queue);
        SearchIsBounded(g, done, c, {}, later, steps);
        NextBlock(g, done, c, later, steps);
        order, steps := BuildPostDominanceTree(nextBlock, queue[1..], at, g, done + [c], later[0], later[1..], steps);
      } else {
        SearchEnds(g, done, c, steps);
        order := done + [c];
      }
    }

    /**
      The third pass on a finished graph of blocks: it changes post-dominance fields alone.  The
      outcome is any of those that `outcomes` allows for, and `outcomes` allows for every finished search.
    */
    static method GrowForest(returnNode: BasicBlock, ghost at: Blocks, ghost g: Graph, ghost nodes: set<BasicBlock>,
                             ghost blocks: Blocks, ghost relays: set<BasicBlock>, ghost edges: set<Edge>,
                             ghost outcomes: iset<Outcome>)
      returns (ghost end: Outcome)
      requires ToSearch(at, g) && at.Values <= nodes && returnNode == at[RETURN] && Wired(blocks, relays, edges)
      requires HasAllOutcomes(g, outcomes)
      modifies nodes`postDominated, nodes`immediatelyPostDominated, nodes`PostDominator, nodes`isPostDominated
      ensures Wired(blocks, relays, edges)
      ensures end in outcomes && HoldsForest(at, end.forest)
    {
      end := SearchFrom(returnNode, at, g, nodes, outcomes);
    }

    static method SearchFrom(returnNode: BasicBlock, ghost at: Blocks, ghost g: Graph, ghost nodes: set<BasicBlock>,
                             ghost outcomes: iset<Outcome>)
      returns (ghost end: Outcome)
      requires ToSearch(at, g) && at.Values <= nodes && returnNode == at[RETURN]
      requires HasAllOutcomes(g, outcomes)
      modifies nodes`postDominated, nodes`immediatelyPostDominated, nodes`PostDominator, nodes`isPostDominated
      ensures end in outcomes && HoldsForest(at, end.forest)
    {
      SearchStarts(g);
      ghost var order, steps := BuildPostDominanceTree(returnNode, [], at, g, [], RETURN, [], []);
      end := Outcome(order, steps, Grow(g, steps));
      assert IsOutcome(g, end);
    }

    /** Cuts the routine into blocks and links them. */
    method BuildGraph(r: Routine)
      requires IsRoutine(r) && branches == map[] && targets == map[] && relays == {} && edges == {}
      modifies this
      ensures Building(r, |r.ins|) && edges == Edges(r) && started == Starts(r, |r.ins|) && fresh(nodes)
      ensures RETURN in blocks && ReturnNode == blocks[RETURN]
      ensures ToSearch(Restrict(blocks, BlockAddresses(r)), FlowGraph(r))
    {
      MapAll(r);
      BlockBuilder(r);
      ReadyToSearch(r, blocks, relays);
    }

    method RunPasses(r: Routine, ghost outcomes: iset<Outcome>) returns (ghost end: Outcome)
      requires IsRoutine(r) && branches == map[] && targets == map[] && relays == {} && edges == {}
      requires HasAllOutcomes(FlowGraph(r), outcomes)
      modifies this
      ensures Mapped(r, |r.ins|, blocks, addressMap)
      ensures Wired(blocks, relays, Edges(r))
      ensures end in outcomes && HoldsForest(Restrict(blocks, BlockAddresses(r)), end.forest)
    {
      BuildGraph(r);
      RestrictedValues(blocks, BlockAddresses(r));
      end := GrowForest(ReturnNode, Restrict(blocks, BlockAddresses(r)), FlowGraph(r),
                        nodes, blocks, relays, edges, outcomes);
    }

    /** Runs the three passes. */
    method InitializeRoutineInfo(r: Routine) returns (ghost end: Outcome)
      requires IsRoutine(r) && branches == map[] && targets == map[] && relays == {} && edges == {}
      modifies this
      ensures Mapped(r, |r.ins|, blocks, addressMap)
      ensures Wired(blocks, relays, Edges(r))
      ensures IsOutcome(FlowGraph(r), end) && HoldsForest(Restrict(blocks, BlockAddresses(r)), end.forest)
    {
      end := RunPasses(r, iset o | IsOutcome(FlowGraph(r), o));
    }
  }

  lemma RestrictedValues(blocks: Blocks, addresses: set<int>)
    ensures Restrict(blocks, addresses).Values <= blocks.Values
  {
  }

  ghost function Restrict(blocks: Blocks, addresses: set<int>): Blocks {
    map k | k in addresses && k in blocks :: blocks[k]
  }

  lemma FirstMapped(r: Routine, both: Blocks)
    requires IsRoutine(r) && both.Keys == {r.ins[0].addr, RETURN}
    ensures Mapped(r, 1, both, both)
  {
    HeadOfLeader(r, 0);
    assert Leader(r, 0) && Homed(r, 0, both, both);
    forall j | 0 <= j < |r.ins| && r.ins[j].addr in both
      ensures Leader(r, j)
    {
      assert IsCode(r, j);
      assert j != 0 ==> Apart(r, j, 0);
    }
  }

  lemma FirstStarts(r: Routine)
    requires IsRoutine(r)
    ensures Starts(r, 1) == {r.ins[0].addr, RETURN} && EdgesUpTo(r, 1) == {}
    ensures r.ins[0].addr != RETURN && !Ends(r, 0) && Head(r, 0) == r.ins[0].addr
  {
    HeadOfLeader(r, 0);
    assert IsCode(r, 0);
  }

  lemma HeadIsStarted(r: Routine, i: nat)
    requires i < |r.ins|
    ensures Head(r, i) in Starts(r, i + 1)
  {
  }

  lemma NoJumps(r: Routine, i: nat)
    requires 1 <= i < |r.ins| && BranchSet(r.ins[i]) == {}
    ensures !Ends(r, i) && JumpsTo(r, i) == {}
  {
    assert r.ins[i].kind.Plain?;
  }

  lemma NothingRunsInto(r: Routine, i: nat)
    requires 1 <= i < |r.ins| && (Ends(r, i - 1) || !IsTarget(r, r.ins[i].addr))
    ensures RunsInto(r, i) == {}
  {
  }

  lemma FirstPassNext(r: Routine, n: nat, b: map<int, set<int>>, t: map<int, set<int>>,
                      b': map<int, set<int>>, t': map<int, set<int>>)
    requires IsRoutine(r) && n < |r.ins| && FirstPass(r, n, b, t)
    requires At(b', r.ins[n].addr) == At(b, r.ins[n].addr) + BranchSet(r.ins[n])
    requires forall a :: a != r.ins[n].addr ==> At(b', a) == At(b, a)
    requires forall a :: At(t', a) == At(t, a) + if a in TargetSet(r.ins[n]) then {r.ins[n].addr} else {}
    ensures FirstPass(r, n + 1, b', t')
  {
    forall i | 0 <= i < |r.ins|
      ensures At(b', r.ins[i].addr) == if i < n + 1 then BranchSet(r.ins[i]) else {}
    {
      assert i != n ==> Apart(r, i, n);
    }
    forall a
      ensures At(t', a) != {} <==> exists j :: 0 <= j < n + 1 && a in TargetSet(r.ins[j])
    {
      assert At(t, a) != {} <==> exists j :: 0 <= j < n && a in TargetSet(r.ins[j]);
      if a in TargetSet(r.ins[n]) {
        assert r.ins[n].addr in At(t', a);
      }
    }
  }

  lemma BranchHasLeast(r: Routine, i: nat)
    requires Ends(r, i)
    ensures exists t :: IsLeast(t, BranchSet(r.ins[i]))
  {
    var kind := r.ins[i].kind;
    assert kind.DirectBranch? ==> kind.target in BranchSet(r.ins[i]);
    LeastExists(BranchSet(r.ins[i]));
  }

  /** The smallest entry of branches is the flag that tells what kind of instruction put it there. */
  lemma LeastTellsKind(r: Routine, i: nat, target: int)
    requires IsRoutine(r) && Ends(r, i) && IsLeast(target, BranchSet(r.ins[i]))
    ensures target == CALL <==> r.ins[i].kind.DirectCall?
    ensures target == RETURN <==> r.ins[i].kind.Return?
    ensures target == INDIRECT_CALL <==> r.ins[i].kind.IndirectCall?
    ensures target == INDIRECT_BRANCH <==> r.ins[i].kind.IndirectBranch?
  {
    assert IsCode(r, i);
  }

  /** A branch with two different targets: its own and the instruction it falls through to. */
  lemma TwoTargets(i: Ins)
    requires i.kind.DirectBranch?
    ensures |BranchSet(i)| > 1 <==> i.fallsThrough && i.next != i.kind.target
  {
    if i.fallsThrough && i.next != i.kind.target {
      assert |BranchSet(i) - {i.next}| == |BranchSet(i)| - 1;
      assert i.kind.target in BranchSet(i) - {i.next};
    } else {
      assert BranchSet(i) == {i.kind.target};
    }
  }

  lemma LeaderIsStartable(r: Routine, i: nat)
    requires IsRoutine(r) && i < |r.ins| && Leader(r, i)
    ensures Startable(r, r.ins[i].addr)
  {
    forall j | 0 <= j < |r.ins| && r.ins[j].addr == r.ins[i].addr
      ensures Leader(r, j)
    {
      assert j != i ==> Apart(r, j, i);
    }
  }

  lemma NextIsStartable(r: Routine, i: nat)
    requires IsRoutine(r) && Ends(r, i)
    ensures Startable(r, NextAddress(r, i))
  {
    if i + 1 < |r.ins| {
      LeaderIsStartable(r, i + 1);
    } else {
      forall j | 0 <= j < |r.ins|
        ensures r.ins[j].addr != r.pastEnd
      {
        assert IsCode(r, j);
      }
    }
  }

  lemma TargetsAreStartable(r: Routine, i: nat)
    requires IsRoutine(r) && Ends(r, i) && r.ins[i].kind.DirectBranch?
    ensures forall a :: a in BranchSet(r.ins[i]) ==> Startable(r, a)
  {
    forall a | a in BranchSet(r.ins[i])
      ensures Startable(r, a)
    {
      assert a in TargetSet(r.ins[i]);
      assert IsTarget(r, a);
    }
  }

  lemma JumpsToOne(r: Routine, i: nat, c: int)
    requires Ends(r, i) && Jumps(r, i) == {c}
    ensures JumpsTo(r, i) == {Edge(Head(r, i), c)}
  {
  }

  lemma JumpsNowhere(r: Routine, i: nat)
    requires Ends(r, i) && r.ins[i].kind.IndirectBranch?
    ensures JumpsTo(r, i) == {}
  {
  }

  lemma TargetIsJump(r: Routine, i: nat, target: int)
    requires Ends(r, i) && r.ins[i].kind.DirectBranch? && target in BranchSet(r.ins[i])
    ensures JumpsTo(r, i) + {Edge(Head(r, i), target)} == JumpsTo(r, i)
  {
  }

  lemma Absorb(edges: set<Edge>, a: Edge, b: Edge)
    requires a in edges
    ensures edges + {a, b} == edges + {b} && edges + {a} == edges
  {
  }

  lemma BranchesOnce(r: Routine, i: nat, target: int)
    requires Ends(r, i) && r.ins[i].kind.DirectBranch? && target in BranchSet(r.ins[i]) && |BranchSet(r.ins[i])| <= 1
    requires target != Head(r, i)
    ensures JumpsTo(r, i) == {Edge(Head(r, i), target)}
  {
    TwoTargets(r.ins[i]);
  }

  lemma LoopsBack(r: Routine, i: nat, target: int)
    requires Ends(r, i) && r.ins[i].kind.DirectBranch? && target in BranchSet(r.ins[i]) && |BranchSet(r.ins[i])| <= 1
    requires target == Head(r, i)
    ensures JumpsTo(r, i) == {Edge(Head(r, i), target), Edge(Head(r, i), NextAddress(r, i))}
  {
    TwoTargets(r.ins[i]);
    assert LoopsOnItself(r, i);
  }

  lemma BranchesTwice(r: Routine, i: nat, target: int, other: int)
    requires Ends(r, i) && r.ins[i].kind.DirectBranch? && |BranchSet(r.ins[i])| > 1
    requires target in BranchSet(r.ins[i]) && other in BranchSet(r.ins[i]) && target != other
    ensures JumpsTo(r, i) == {Edge(Head(r, i), target), Edge(Head(r, i), other)}
  {
    TwoTargets(r.ins[i]);
    assert r.ins[i].next in BranchSet(r.ins[i]);
    assert !LoopsOnItself(r, i);
  }

  lemma FlowGraphIsGraph(r: Routine)
    requires IsRoutine(r)
    ensures IsGraph(FlowGraph(r))
    ensures forall c :: c in BlockAddresses(r) ==> Sources(Edges(r), c) <= BlockAddresses(r)
  {
    forall e | e in Edges(r)
      ensures e.from in BlockAddresses(r) && e.from != RETURN
    {
      var i :| 1 <= i < |r.ins| && e in MadeAt(r, i);
      var j := if e in RunsInto(r, i) then LeaderOf(r, i - 1) else LeaderOf(r, i);
      assert Leader(r, j) && IsCode(r, j);
    }
  }

  lemma SearchStarts(g: Graph)
    requires IsGraph(g)
    ensures Searching(g, [], RETURN, g[RETURN], [], [])
  {
    assert [] + [RETURN] + [] == [RETURN];
    ComesFirst(g);
  }

  ghost predicate ToSearch(at: Blocks, g: Graph)
    reads at.Values`predecessors, at.Values`startingAddress
    reads at.Values`isPostDominated, at.Values`PostDominator, at.Values`postDominated
  {
    IsGraph(g) && RETURN in at && HoldsForest(at, Grow(g, [])) && HoldsPredecessors(at, g)
  }

  lemma ReadyToSearch(r: Routine, blocks: Blocks, relays: set<BasicBlock>)
    requires IsRoutine(r) && Drawn(blocks, relays, Edges(r), Starts(r, |r.ins|))
    ensures ToSearch(Restrict(blocks, BlockAddresses(r)), FlowGraph(r))
  {
    var at, g := Restrict(blocks, BlockAddresses(r)), FlowGraph(r);
    FlowGraphIsGraph(r);
    assert BlockAddresses(r) == Starts(r, |r.ins|);
    assert at.Keys == BlockAddresses(r);
    forall k | k in at
      ensures g[k] <= at.Keys && at[k].predecessors == BlocksAt(at, g[k])
    {
      assert BlocksAt(at, g[k]) == BlocksAt(blocks, g[k]);
    }
    forall k | k in at
      ensures HoldsParent(at, map[], k)
    {
    }
  }
}
