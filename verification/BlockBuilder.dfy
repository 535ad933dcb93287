/**
  The second pass over a routine's instructions: cutting them into blocks and linking the blocks.

  The ghost map `blocks` names every addressed block by its starting address (or by the address
  it was created for), `relays` are the nodes for calls and indirect transfers, which have no
  address of their own, and `edges` says which block flows to which.
*/
module BlockBuilding {
  import opened PostDominatorForest
  import opened BasicBlocks
  import opened ControlFlow

  ghost predicate Distinct(blocks: Blocks) {
    forall j, k :: j in blocks && k in blocks && j != k ==> blocks[j] != blocks[k]
  }

  ghost predicate Within(edges: set<Edge>, addresses: set<int>) {
    forall e :: e in edges ==> e.from in addresses && e.to in addresses
  }

  ghost predicate HoldsSources(blocks: Blocks, edges: set<Edge>)
    reads blocks.Values`predecessors
  {
    forall k {:trigger blocks[k].predecessors} :: k in blocks ==>
      blocks[k].predecessors == BlocksAt(blocks, Sources(edges, k))
  }

  /** b flows to c, directly or through a node that stands for a call. */
  ghost predicate Leads(b: BasicBlock, c: BasicBlock, relays: set<BasicBlock>)
    reads b`successors, relays`successors
  {
    c in b.successors || exists n :: n in relays && n in b.successors && c in n.successors
  }

  ghost predicate HoldsSuccessors(blocks: Blocks, relays: set<BasicBlock>, edges: set<Edge>)
    reads blocks.Values`successors, relays`successors
  {
    && (forall n {:trigger n.successors} :: n in relays ==> n.successors <= blocks.Values)
    && (forall k {:trigger blocks[k].successors} :: k in blocks ==> blocks[k].successors <= blocks.Values + relays)
    && (forall j, k {:trigger Leads(blocks[j], blocks[k], relays)} :: j in blocks && k in blocks ==>
          (Edge(j, k) in edges <==> Leads(blocks[j], blocks[k], relays)))
  }

  /** Both edge sets of every block agree with `edges`. */
  ghost predicate Wired(blocks: Blocks, relays: set<BasicBlock>, edges: set<Edge>)
    reads blocks.Values`predecessors, blocks.Values`successors, relays`successors
  {
    HoldsSources(blocks, edges) && HoldsSuccessors(blocks, relays, edges)
  }

  /** The post-dominance fields are as the constructor leaves them. */
  ghost predicate Blank(blocks: Blocks)
    reads blocks.Values`PostDominator, blocks.Values`isPostDominated, blocks.Values`postDominated
  {
    forall k {:trigger blocks[k].PostDominator}
             {:trigger blocks[k].isPostDominated}
             {:trigger blocks[k].postDominated} ::
      k in blocks ==>
      blocks[k].PostDominator == null && !blocks[k].isPostDominated && blocks[k].postDominated == map[]
  }

  ghost predicate HaveStarts(blocks: Blocks, started: set<int>)
    reads blocks.Values`startingAddress
  {
    && started <= blocks.Keys
    && forall k {:trigger blocks[k].startingAddress} :: k in started ==> blocks[k].startingAddress == k
  }

  /** The heap holds this graph of blocks. */
  ghost predicate Drawn(blocks: Blocks, relays: set<BasicBlock>, edges: set<Edge>, started: set<int>)
    reads blocks.Values`predecessors, blocks.Values`successors, relays`successors
    reads blocks.Values`PostDominator, blocks.Values`isPostDominated, blocks.Values`postDominated
    reads blocks.Values`startingAddress
  {
    && Distinct(blocks) && blocks.Values !! relays && Within(edges, blocks.Keys)
    && Wired(blocks, relays, edges)
    && Blank(blocks) && HaveStarts(blocks, started)
  }

  ghost predicate Seen(r: Routine, n: nat, a: int)
    requires n <= |r.ins|
  {
    exists j :: 0 <= j < n && r.ins[j].addr == a
  }

  /** Instruction j is mapped to the block of its leader. */
  ghost predicate Homed(r: Routine, j: int, blocks: Blocks, addressMap: map<int, BasicBlock>)
    requires 0 <= j < |r.ins|
  {
    r.ins[j].addr in addressMap && Head(r, j) in blocks && addressMap[r.ins[j].addr] == blocks[Head(r, j)]
  }

  /** After n instructions: where addressMap sends the addresses seen so far. */
  ghost predicate Mapped(r: Routine, n: nat, blocks: Blocks, addressMap: map<int, BasicBlock>) {
    && n <= |r.ins|
    && (forall k :: k in blocks ==> k in addressMap && addressMap[k] == blocks[k])
    && (forall a :: a in addressMap ==> a in blocks || Seen(r, n, a))
    && (forall j {:trigger Homed(r, j, blocks, addressMap)} :: 0 <= j < n ==> Homed(r, j, blocks, addressMap))
    && (forall j {:trigger Leader(r, j)} :: 0 <= j < |r.ins| && r.ins[j].addr in blocks ==> Leader(r, j))
  }

  // ------------------------------------------------------ single changes

  method NewBlock(ghost a: int, ghost blocks: Blocks, ghost relays: set<BasicBlock>, ghost edges: set<Edge>,
                  ghost started: set<int>)
    returns (b: BasicBlock)
    requires Drawn(blocks, relays, edges, started) && a !in blocks
    ensures fresh(b) && Drawn(blocks[a := b], relays, edges, started)
  {
    b := new BasicBlock();
    ghost var more := blocks[a := b];
    forall k | k in more
      ensures more[k].predecessors == BlocksAt(more, Sources(edges, k))
    {
      assert Sources(edges, k) <= blocks.Keys;
      assert BlocksAt(more, Sources(edges, k)) == if k == a then {} else BlocksAt(blocks, Sources(edges, k));
    }
    assert more[a] == b;
    assert forall k :: k in blocks ==> more[k] == blocks[k];
    assert more.Values == blocks.Values + {b};
  }

  method Link(b: BasicBlock, c: BasicBlock, ghost j: int, ghost k: int,
              ghost blocks: Blocks, ghost relays: set<BasicBlock>, ghost edges: set<Edge>, ghost started: set<int>)
    requires Drawn(blocks, relays, edges, started) && j in blocks && k in blocks && b == blocks[j] && c == blocks[k]
    modifies c`predecessors, b`successors
    ensures Drawn(blocks, relays, edges + {Edge(j, k)}, started)
  {
    c.predecessors := c.predecessors + {b};
    b.successors := b.successors + {c};
    LinkedSources(blocks, edges, j, k);
    forall x, y | x in blocks && y in blocks
      ensures Edge(x, y) in edges + {Edge(j, k)} <==> Leads(blocks[x], blocks[y], relays)
    {
      assert old(Leads(blocks[x], blocks[y], relays)) <==> Edge(x, y) in edges;
    }
  }

  lemma LinkedSources(blocks: Blocks, edges: set<Edge>, j: int, k: int)
    requires j in blocks
    ensures BlocksAt(blocks, Sources(edges + {Edge(j, k)}, k)) == BlocksAt(blocks, Sources(edges, k)) + {blocks[j]}
    ensures forall y :: y != k ==> Sources(edges + {Edge(j, k)}, y) == Sources(edges, y)
  {
    assert Sources(edges + {Edge(j, k)}, k) == Sources(edges, k) + {j};
  }

  /** A node for a call: b flows into it, and it flows into c, which counts b as its predecessor. */
  method LinkThrough(b: BasicBlock, c: BasicBlock, flag: int, ghost j: int, ghost k: int,
                     ghost blocks: Blocks, ghost relays: set<BasicBlock>, ghost edges: set<Edge>,
                     ghost started: set<int>)
    returns (n: BasicBlock)
    requires Drawn(blocks, relays, edges, started) && j in blocks && k in blocks && b == blocks[j] && c == blocks[k]
    modifies c`predecessors, b`successors
    ensures fresh(n) && Drawn(blocks, relays + {n}, edges + {Edge(j, k)}, started)
  {
    n := NewRelay(b, flag, j, blocks, relays, edges, started);
    JoinRelay(n, b, c, j, k, blocks, relays + {n}, edges, started);
  }

  method NewRelay(b: BasicBlock, flag: int, ghost j: int,
                  ghost blocks: Blocks, ghost relays: set<BasicBlock>, ghost edges: set<Edge>, ghost started: set<int>)
    returns (n: BasicBlock)
    requires Drawn(blocks, relays, edges, started) && j in blocks && b == blocks[j]
    modifies b`successors
    ensures fresh(n) && n in b.successors && Drawn(blocks, relays + {n}, edges, started)
  {
    n := new BasicBlock();
    n.startingAddress := flag;
    n.predecessors := {b};
    b.successors := b.successors + {n};
    forall x, y | x in blocks && y in blocks
      ensures Edge(x, y) in edges <==> Leads(blocks[x], blocks[y], relays + {n})
    {
      assert old(Leads(blocks[x], blocks[y], relays)) <==> Edge(x, y) in edges;
    }
  }

  method JoinRelay(n: BasicBlock, b: BasicBlock, c: BasicBlock, ghost j: int, ghost k: int,
                   ghost blocks: Blocks, ghost relays: set<BasicBlock>, ghost edges: set<Edge>, ghost started: set<int>)
    requires Drawn(blocks, relays, edges, started) && j in blocks && k in blocks && b == blocks[j] && c == blocks[k]
    requires n in relays && n in b.successors
    requires forall x :: x in blocks && x != j ==> n !in blocks[x].successors
    modifies c`predecessors, n`successors
    ensures Drawn(blocks, relays, edges + {Edge(j, k)}, started)
  {
    c.predecessors := c.predecessors + {b};
    n.successors := n.successors + {c};
    LinkedSources(blocks, edges, j, k);
    forall x, y | x in blocks && y in blocks
      ensures Edge(x, y) in edges + {Edge(j, k)} <==> Leads(blocks[x], blocks[y], relays)
    {
      assert old(Leads(blocks[x], blocks[y], relays)) <==> Edge(x, y) in edges;
    }
  }

  method SetStarting(b: BasicBlock, a: int,
                     ghost blocks: Blocks, ghost relays: set<BasicBlock>, ghost edges: set<Edge>,
                     ghost started: set<int>)
    requires Drawn(blocks, relays, edges, started) && a in blocks && b == blocks[a]
    modifies b`startingAddress
    ensures Drawn(blocks, relays, edges, started + {a})
  {
    b.startingAddress := a;
  }

  // ------------------------------------------------------ the builder's state

  function At(m: map<int, set<int>>, a: int): set<int> {
    if a in m then m[a] else {}
  }

  /** What the first pass leaves in the two utility maps. */
  ghost predicate FirstPass(r: Routine, n: nat, branches: map<int, set<int>>, targets: map<int, set<int>>) {
    && n <= |r.ins|
    && (forall i :: 0 <= i < |r.ins| ==> At(branches, r.ins[i].addr) == if i < n then BranchSet(r.ins[i]) else {})
    && (forall a :: At(targets, a) != {} <==> exists j :: 0 <= j < n && a in TargetSet(r.ins[j]))
  }

  ghost function Starts(r: Routine, n: nat): set<int>
    requires n <= |r.ins|
  {
    {RETURN} + set i | 0 <= i < n && Leader(r, i) :: r.ins[i].addr
  }

  lemma StartsGrow(r: Routine, i: nat)
    requires i < |r.ins|
    ensures Starts(r, i + 1) == Starts(r, i) + if Leader(r, i) then {r.ins[i].addr} else {}
  {
  }

  /** An address at which BranchIns or BlockBuilder may ask for a block: it is not in the middle of one. */
  ghost predicate Startable(r: Routine, a: int) {
    forall j {:trigger Leader(r, j)} :: 0 <= j < |r.ins| && r.ins[j].addr == a ==> Leader(r, j)
  }

  lemma MappedStartable(r: Routine, n: nat, blocks: Blocks, addressMap: map<int, BasicBlock>, a: int)
    requires Mapped(r, n, blocks, addressMap) && Startable(r, a) && a in addressMap
    ensures a in blocks && addressMap[a] == blocks[a]
  {
    if Seen(r, n, a) {
      var j :| 0 <= j < n && r.ins[j].addr == a;
      assert Leader(r, j) && Homed(r, j, blocks, addressMap);
    }
  }

  lemma MappedNewBlock(r: Routine, n: nat, blocks: Blocks, addressMap: map<int, BasicBlock>, a: int, b: BasicBlock)
    requires Mapped(r, n, blocks, addressMap) && Startable(r, a) && a !in addressMap
    ensures Mapped(r, n, blocks[a := b], addressMap[a := b])
  {
    var more, m := blocks[a := b], addressMap[a := b];
    forall j | 0 <= j < n
      ensures Homed(r, j, more, m)
    {
      assert Homed(r, j, blocks, addressMap);
    }
  }

  lemma MappedNext(r: Routine, n: nat, blocks: Blocks, addressMap: map<int, BasicBlock>)
    requires IsRoutine(r) && n < |r.ins| && Mapped(r, n, blocks, addressMap) && Head(r, n) in blocks
    ensures Mapped(r, n + 1, blocks, addressMap[r.ins[n].addr := blocks[Head(r, n)]])
  {
    var m := addressMap[r.ins[n].addr := blocks[Head(r, n)]];
    forall k | k in blocks
      ensures k in m && m[k] == blocks[k]
    {
      if k == r.ins[n].addr {
        assert Leader(r, n);
      }
    }
    forall a | a in m
      ensures a in blocks || Seen(r, n + 1, a)
    {
      if a != r.ins[n].addr && a !in blocks {
        assert Seen(r, n, a);
      }
    }
    forall j | 0 <= j < n + 1
      ensures Homed(r, j, blocks, m)
    {
      assert j < n ==> Homed(r, j, blocks, addressMap) && Apart(r, j, n);
    }
  }
}
