/**
  A routine as the list of its instructions, and the control-flow graph that the two passes
  of RoutineGraph (mapper, then BlockBuilder with BranchIns) read off it.
*/
module ControlFlow {
  import opened PostDominatorForest

  datatype Kind =
    | Plain
    | DirectBranch(target: int)
    | IndirectBranch
    | DirectCall
    | IndirectCall
    | Return

  /** `next` is the address right behind the instruction. */
  datatype Ins = Ins(addr: int, kind: Kind, fallsThrough: bool, next: int)

  /**
    `pastEnd` stands for the address that Pin reports behind the last instruction.  It matters where
    that one is a call, whose block is linked to it.
  */
  datatype Routine = Routine(ins: seq<Ins>, pastEnd: int)

  // The flags that mapper puts among the branch targets.
  const CALL := 1
  const INDIRECT_CALL := 4
  const INDIRECT_BRANCH := 5

  function FallThrough(i: Ins): set<int> {
    if i.fallsThrough then {i.next} else {}
  }

  /** What mapper enters into branches for an instruction. */
  function BranchSet(i: Ins): set<int> {
    match i.kind
    case Plain => {}
    case DirectBranch(target) => {target} + FallThrough(i)
    case IndirectBranch => {INDIRECT_BRANCH} + FallThrough(i)
    case DirectCall => {CALL} + FallThrough(i)
    case IndirectCall => {INDIRECT_CALL} + FallThrough(i)
    case Return => {RETURN}
  }

  /** The addresses for which mapper enters an instruction into targets. */
  function TargetSet(i: Ins): set<int> {
    match i.kind
    case Plain => {}
    case Return => {}
    case DirectBranch(target) => {target} + FallThrough(i)
    case _ => FallThrough(i)
  }

  /** The addresses of instruction i do not collide with the flags. */
  predicate IsCode(r: Routine, i: int)
    requires 0 <= i < |r.ins|
  {
    && 5 < r.ins[i].addr && 5 < r.ins[i].next && r.ins[i].addr != r.pastEnd
    && (r.ins[i].kind.DirectBranch? ==> 5 < r.ins[i].kind.target)
  }

  predicate Apart(r: Routine, i: int, j: int)
    requires 0 <= i < |r.ins| && 0 <= j < |r.ins|
  {
    r.ins[i].addr != r.ins[j].addr
  }

  /** Code addresses, the reported one behind the end included, are no flags, and no two instructions share one. */
  predicate IsRoutine(r: Routine) {
    && r.ins != [] && 5 < r.pastEnd
    && (forall i {:trigger IsCode(r, i)} :: 0 <= i < |r.ins| ==> IsCode(r, i))
    && (forall i, j {:trigger Apart(r, i, j)} :: 0 <= i < |r.ins| && 0 <= j < |r.ins| && i != j ==> Apart(r, i, j))
  }

  ghost predicate IsTarget(r: Routine, a: int) {
    exists j :: 0 <= j < |r.ins| && a in TargetSet(r.ins[j])
  }

  /** BlockBuilder closes a block behind instruction j.  It never looks whether the first one branches. */
  predicate Ends(r: Routine, j: int) {
    1 <= j < |r.ins| && !r.ins[j].kind.Plain?
  }

  ghost predicate Leader(r: Routine, i: int)
    requires 0 <= i < |r.ins|
  {
    i == 0 || IsTarget(r, r.ins[i].addr) || Ends(r, i - 1)
  }

  /** l is the nearest leader at or before instruction i. */
  ghost predicate IsNearestLeader(r: Routine, i: int, l: int)
    requires 0 <= i < |r.ins|
  {
    0 <= l <= i && Leader(r, l) && forall k {:trigger Leader(r, k)} :: l < k <= i ==> !Leader(r, k)
  }

  lemma {:induction false} SomeLeader(r: Routine, i: int)
    requires 0 <= i < |r.ins|
    ensures exists l :: IsNearestLeader(r, i, l)
  {
    if Leader(r, i) {
      assert IsNearestLeader(r, i, i);
    } else {
      SomeLeader(r, i - 1);
      var l :| IsNearestLeader(r, i - 1, l);
      assert IsNearestLeader(r, i, l);
    }
  }

  ghost function LeaderOf(r: Routine, i: int): (l: int)
    requires 0 <= i < |r.ins|
    ensures IsNearestLeader(r, i, l)
  {
    SomeLeader(r, i);
    var l :| IsNearestLeader(r, i, l);
    l
  }

  lemma HeadOfLeader(r: Routine, i: int)
    requires 0 <= i < |r.ins| && Leader(r, i)
    ensures Head(r, i) == r.ins[i].addr
  {
  }

  lemma HeadOfOther(r: Routine, i: int)
    requires 0 <= i < |r.ins| && !Leader(r, i)
    ensures i > 0 && Head(r, i) == Head(r, i - 1)
  {
    var l, m := LeaderOf(r, i), LeaderOf(r, i - 1);
    assert Leader(r, l) && Leader(r, m);
  }

  ghost function Head(r: Routine, i: int): int
    requires 0 <= i < |r.ins|
  {
    r.ins[LeaderOf(r, i)].addr
  }

  function NextAddress(r: Routine, i: int): int
    requires 0 <= i < |r.ins|
  {
    if i + 1 < |r.ins| then r.ins[i + 1].addr else r.pastEnd
  }

  /** A branch whose only target is the start of its own block; BranchIns then links the next instruction too. */
  ghost predicate LoopsOnItself(r: Routine, i: int)
    requires 0 <= i < |r.ins|
  {
    r.ins[i].kind.DirectBranch? && BranchSet(r.ins[i]) == {r.ins[i].kind.target} && r.ins[i].kind.target == Head(r, i)
  }

  /** The addresses whose blocks get the block of instruction i as a predecessor. */
  ghost function Jumps(r: Routine, i: int): set<int>
    requires 0 <= i < |r.ins|
  {
    match r.ins[i].kind
    case Plain => {}
    case DirectBranch(_) => BranchSet(r.ins[i]) + if LoopsOnItself(r, i) then {NextAddress(r, i)} else {}
    case IndirectBranch => {}
    case DirectCall => {NextAddress(r, i)}
    case IndirectCall => {NextAddress(r, i)}
    case Return => {RETURN}
  }

  datatype Edge = Edge(from: int, to: int)

  /** The edge made because instruction i is a target that its predecessor runs into. */
  ghost function RunsInto(r: Routine, i: int): set<Edge>
    requires 1 <= i < |r.ins|
  {
    if !Ends(r, i - 1) && IsTarget(r, r.ins[i].addr) then {Edge(Head(r, i - 1), r.ins[i].addr)} else {}
  }

  ghost function JumpsTo(r: Routine, i: int): set<Edge>
    requires 1 <= i < |r.ins|
  {
    if Ends(r, i) then set c | c in Jumps(r, i) :: Edge(Head(r, i), c) else {}
  }

  /** The edges made when the second pass handles instruction i. */
  ghost function MadeAt(r: Routine, i: int): set<Edge>
    requires 1 <= i < |r.ins|
  {
    RunsInto(r, i) + JumpsTo(r, i)
  }

  /** The edges in place when the second pass has handled the first n instructions. */
  ghost function EdgesUpTo(r: Routine, n: nat): set<Edge>
    requires n <= |r.ins|
  {
    set i, e | 1 <= i < n && e in MadeAt(r, i) :: e
  }

  lemma OneInstruction(r: Routine, i: nat)
    requires 1 <= i < |r.ins|
    ensures EdgesUpTo(r, i + 1) == EdgesUpTo(r, i) + RunsInto(r, i) + JumpsTo(r, i)
  {
    forall e
      ensures e in EdgesUpTo(r, i + 1) <==> e in EdgesUpTo(r, i) || e in MadeAt(r, i)
    {
      if e in EdgesUpTo(r, i + 1) {
        var j :| 1 <= j < i + 1 && e in MadeAt(r, j);
        assert j < i ==> e in EdgesUpTo(r, i);
      }
    }
  }

  ghost function Edges(r: Routine): set<Edge> {
    EdgesUpTo(r, |r.ins|)
  }

  /** The addresses of the blocks that a backward search can come to. */
  ghost function BlockAddresses(r: Routine): set<int> {
    {RETURN} + set i | 0 <= i < |r.ins| && Leader(r, i) :: r.ins[i].addr
  }

  ghost function Sources(edges: set<Edge>, to: int): set<int> {
    set e | e in edges && e.to == to :: e.from
  }

  ghost function FlowGraph(r: Routine): Graph {
    map c | c in BlockAddresses(r) :: Sources(Edges(r), c)
  }

  // ------------------------------------- the graph against single instructions

  /** Control can pass from instruction i to address a. */
  ghost predicate CanFollow(r: Routine, i: int, a: int)
    requires 0 <= i < |r.ins|
  {
    match r.ins[i].kind
    case Plain => i + 1 < |r.ins| && a == r.ins[i + 1].addr
    case DirectBranch(target) => a == target || a in FallThrough(r.ins[i])
    case IndirectBranch => false  // the graph knows no destination for it
    case DirectCall => a == NextAddress(r, i)
    case IndirectCall => a == NextAddress(r, i)
    case Return => a == RETURN
  }

  /** The step stays inside a block or follows an edge between block starts. */
  ghost predicate Covered(r: Routine, i: int, a: int)
    requires 0 <= i < |r.ins|
  {
    || (i + 1 < |r.ins| && a == r.ins[i + 1].addr && !Leader(r, i + 1) && Head(r, i + 1) == Head(r, i))
    || Edge(Head(r, i), a) in Edges(r)
  }

  /** Every step that control can take is covered, a control transfer that comes first aside. */
  lemma StepsAreEdges(r: Routine, i: int, a: int)
    requires IsRoutine(r) && 0 <= i < |r.ins| && CanFollow(r, i, a) && (i == 0 ==> r.ins[0].kind.Plain?)
    ensures Covered(r, i, a)
  {
    var e := Edge(Head(r, i), a);
    if r.ins[i].kind.Plain? {
      if Leader(r, i + 1) {
        assert e in MadeAt(r, i + 1);
      } else {
        HeadOfOther(r, i + 1);
      }
    } else {
      assert a in Jumps(r, i);
      assert e in MadeAt(r, i);
    }
  }

  // ------------------------------------- the edges that leave a block

  ghost predicate IsLast(r: Routine, l: int) {
    0 <= l < |r.ins| && (l + 1 == |r.ins| || Leader(r, l + 1))
  }

  /** Where the last instruction of a block hands over to; without a branch that is the next one. */
  ghost predicate Links(r: Routine, l: int, a: int)
    requires 0 <= l < |r.ins|
  {
    if Ends(r, l) then a in Jumps(r, l) else l + 1 < |r.ins| && a == r.ins[l + 1].addr
  }

  lemma SameHead(r: Routine, j: int, l: int)
    requires IsRoutine(r) && 0 <= j < |r.ins| && 0 <= l < |r.ins| && Head(r, j) == Head(r, l)
    ensures LeaderOf(r, j) == LeaderOf(r, l)
  {
    var b, c := LeaderOf(r, j), LeaderOf(r, l);
    assert b != c ==> Apart(r, b, c);
  }

  lemma OneLast(r: Routine, j: int, l: int)
    requires IsRoutine(r) && IsLast(r, j) && IsLast(r, l) && Head(r, j) == Head(r, l)
    ensures j == l
  {
    SameHead(r, j, l);
  }

  /** Exactly the links of its last instruction leave a block. */
  lemma EdgesOfBlock(r: Routine, l: int, a: int)
    requires IsRoutine(r) && IsLast(r, l)
    ensures Edge(Head(r, l), a) in Edges(r) <==> Links(r, l, a)
  {
    var e := Edge(Head(r, l), a);
    if e in Edges(r) {
      var k :| 1 <= k < |r.ins| && e in MadeAt(r, k);
      if e in RunsInto(r, k) {
        assert IsLast(r, k - 1);
        OneLast(r, k - 1, l);
      } else {
        assert IsLast(r, k);
        OneLast(r, k, l);
      }
    }
    if Links(r, l, a) {
      if Ends(r, l) {
        assert e in MadeAt(r, l);
      } else {
        assert Leader(r, l + 1);
        assert e in MadeAt(r, l + 1);
      }
    }
  }

  lemma {:induction false} LastExists(r: Routine, i: int) returns (l: int)
    requires 0 <= i < |r.ins|
    ensures IsLast(r, l) && l >= i && LeaderOf(r, l) == LeaderOf(r, i)
    decreases |r.ins| - i
  {
    if IsLast(r, i) {
      l := i;
    } else {
      l := LastExists(r, i + 1);
      var b, c := LeaderOf(r, i), LeaderOf(r, i + 1);
      assert Leader(r, b) && Leader(r, c);
    }
  }

  /**
    A control transfer that comes first, which BlockBuilder does not look at: its step is covered
    exactly if it goes to the next instruction inside the block, or if the last instruction of the
    first block happens to be linked to where it goes.
  */
  lemma FirstStepIffLinked(r: Routine, a: int) returns (l: int)
    requires IsRoutine(r) && CanFollow(r, 0, a)
    ensures IsLast(r, l) && LeaderOf(r, l) == 0
    ensures Covered(r, 0, a) <==> (1 < |r.ins| && a == r.ins[1].addr && !Leader(r, 1)) || Links(r, l, a)
  {
    l := LastExists(r, 0);
    HeadOfLeader(r, 0);
    assert Head(r, l) == Head(r, 0);
    EdgesOfBlock(r, l, a);
    if 1 < |r.ins| && !Leader(r, 1) {
      HeadOfOther(r, 1);
    }
  }

  /** A jump over the second instruction, as the first of three: no edge leads where it goes. */
  ghost function JumpsFirst(): Routine {
    Routine([Ins(10, DirectBranch(40), false, 20), Ins(20, Return, false, 30), Ins(40, Return, false, 50)], 60)
  }

  lemma FirstStepCanBeLost()
    ensures IsRoutine(JumpsFirst()) && CanFollow(JumpsFirst(), 0, 40) && !Covered(JumpsFirst(), 0, 40)
  {
    var r := JumpsFirst();
    HeadOfLeader(r, 0);
    assert !IsTarget(r, 20);
    HeadOfOther(r, 1);
    assert IsLast(r, 1) && Ends(r, 1) && Jumps(r, 1) == {RETURN};
    EdgesOfBlock(r, 1, 40);
  }

  /** Instruction i is the last of the block at e.from and hands control to e.to. */
  ghost predicate Justifies(r: Routine, i: int, e: Edge) {
    && IsLast(r, i) && e.from == Head(r, i)
    && (|| CanFollow(r, i, e.to)
        || (LoopsOnItself(r, i) && e.to == NextAddress(r, i))
        || (i == 0 && !r.ins[0].kind.Plain? && e.to == NextAddress(r, 0)))
  }

  lemma MadeIsJustified(r: Routine, k: int, e: Edge)
    requires IsRoutine(r) && 1 <= k < |r.ins| && e in MadeAt(r, k)
    ensures Justifies(r, k - 1, e) || Justifies(r, k, e)
  {
    if e in RunsInto(r, k) {
      assert Justifies(r, k - 1, e);
    } else {
      JumpsAreSteps(r, k, e.to);
    }
  }

  /**
    Every edge is a step of the last instruction of its block, except behind a branch that loops
    on itself and behind a control transfer that comes first.
  */
  lemma EdgesAreSteps(r: Routine, e: Edge)
    requires IsRoutine(r) && e in Edges(r)
    ensures exists i :: Justifies(r, i, e)
  {
    var k :| 1 <= k < |r.ins| && e in MadeAt(r, k);
    MadeIsJustified(r, k, e);
  }

  lemma JumpsAreSteps(r: Routine, i: int, a: int)
    requires 0 <= i < |r.ins| && a in Jumps(r, i)
    ensures CanFollow(r, i, a) || (LoopsOnItself(r, i) && a == NextAddress(r, i))
  {
  }

  /**
    Of the edges that leave a block, the one extra edge of a branch that loops on itself is no step;
    all others are.
  */
  lemma EdgeIsStepIff(r: Routine, l: int, a: int)
    requires IsRoutine(r) && IsLast(r, l) && l > 0 && Edge(Head(r, l), a) in Edges(r)
    ensures CanFollow(r, l, a) <==> !(LoopsOnItself(r, l) && a == NextAddress(r, l))
  {
    EdgesOfBlock(r, l, a);
    if LoopsOnItself(r, l) {
      NextIsNotHead(r, l);
    }
  }

  lemma NextIsNotHead(r: Routine, l: int)
    requires IsRoutine(r) && 0 <= l < |r.ins|
    ensures NextAddress(r, l) != Head(r, l)
  {
    var h := LeaderOf(r, l);
    assert IsCode(r, h);
    assert l + 1 < |r.ins| ==> Apart(r, l + 1, h);
  }

  /** The extra edge is always there. */
  lemma LoopHasExtraEdge(r: Routine, l: int)
    requires IsRoutine(r) && 1 <= l < |r.ins| && LoopsOnItself(r, l)
    ensures Edge(Head(r, l), NextAddress(r, l)) in Edges(r) && !CanFollow(r, l, NextAddress(r, l))
  {
    var e := Edge(Head(r, l), NextAddress(r, l));
    assert NextAddress(r, l) in Jumps(r, l);
    assert e in MadeAt(r, l);
    NextIsNotHead(r, l);
  }

  /** A first block of one instruction flows to the next instruction alone, whatever it transfers control to. */
  lemma FirstBlockOfOne(r: Routine, a: int)
    requires IsRoutine(r) && IsLast(r, 0)
    ensures Edge(Head(r, 0), a) in Edges(r) <==> 1 < |r.ins| && a == r.ins[1].addr
  {
    EdgesOfBlock(r, 0, a);
  }

  // ------------------------------------- where blocks start

  /** A control transfer other than a return can lead to address a: as its target, or behind it. */
  predicate TransfersTo(i: Ins, a: int) {
    || (i.kind.DirectBranch? && a == i.kind.target)
    || (!i.kind.Plain? && !i.kind.Return? && i.fallsThrough && a == i.next)
  }

  /** The instructions are targets of just those control transfers that lead to them. */
  lemma TargetsAre(i: Ins, a: int)
    ensures a in TargetSet(i) <==> TransfersTo(i, a)
  {
  }

  /** The entries of a control transfer are the addresses it leads to, and the flag of its kind if it has one. */
  lemma BranchesAre(i: Ins, a: int)
    ensures a in BranchSet(i) <==>
            || TransfersTo(i, a)
            || (i.kind.Return? && a == RETURN) || (i.kind.DirectCall? && a == CALL)
            || (i.kind.IndirectCall? && a == INDIRECT_CALL) || (i.kind.IndirectBranch? && a == INDIRECT_BRANCH)
  {
  }

  /**
    Blocks are no smaller than they need be: an instruction starts one exactly if it is the first,
    or it is behind a control transfer that is not the first instruction, or some control transfer
    leads to it.
  */
  lemma LeaderIff(r: Routine, i: int)
    requires 0 <= i < |r.ins|
    ensures Leader(r, i) <==>
            || i == 0 || (i > 1 && !r.ins[i - 1].kind.Plain?)
            || exists j :: 0 <= j < |r.ins| && TransfersTo(r.ins[j], r.ins[i].addr)
  {
    var a := r.ins[i].addr;
    forall j | 0 <= j < |r.ins|
      ensures a in TargetSet(r.ins[j]) <==> TransfersTo(r.ins[j], a)
    {
      TargetsAre(r.ins[j], a);
    }
    if IsTarget(r, a) {
      var j :| 0 <= j < |r.ins| && a in TargetSet(r.ins[j]);
      assert TransfersTo(r.ins[j], a);
    }
    if exists j :: 0 <= j < |r.ins| && TransfersTo(r.ins[j], a) {
      var j :| 0 <= j < |r.ins| && TransfersTo(r.ins[j], a);
      assert a in TargetSet(r.ins[j]);
    }
  }
}
