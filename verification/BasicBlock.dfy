/**
  The blocks of a routine's control-flow graph as objects on the heap, and the recursive
  methods that keep PostDominator and postDominated up to date.

  Each method is proved against the corresponding operation on the value Forest.  The ghost
  argument `at` names the blocks the search can reach by their starting address, and `below`
  says what the postDominated maps hold.
*/
module BasicBlocks {
  import opened PostDominatorForest

  class BasicBlock {
    var startingAddress: int
    var successors: set<BasicBlock>
    var predecessors: set<BasicBlock>
    var PostDominator: BasicBlock?
    var isPostDominated: bool
    var postDominated: map<int, BasicBlock?>
    var immediatelyPostDominated: map<int, BasicBlock>

    constructor ()
      ensures startingAddress == 0
      ensures successors == {} && predecessors == {}
      ensures PostDominator == null && !isPostDominated
      ensures postDominated == map[] && immediatelyPostDominated == map[]
    {
      startingAddress, successors, predecessors := 0, {}, {};
      PostDominator, isPostDominated := null, false;
      postDominated, immediatelyPostDominated := map[], map[];
    }

    /** Looking a key up with operator[] leaves a null entry behind when there was none. */
    method LookUp(key: int, ghost at: Blocks, ghost parent: map<int, int>, ghost below: Entries)
      returns (found: BasicBlock?)
      requires Holds(at, parent, below) && IsAt(at, this)
      modifies this`postDominated
      ensures found != null <==> HasEntry(below[old(startingAddress)], key)
      ensures Holds(at, parent, EnterAt(below, if found == null then {old(startingAddress)} else {}, key, false))
    {
      ghost var x, was := startingAddress, Snapshot(at);
      OnlyAt(at, parent, x);
      assert Matches(at, postDominated, below[x]);
      if key !in postDominated {
        postDominated := postDominated[key := null];
      }
      found := postDominated[key];
      OneChanged(at, was, below, EnterAt(below, if found == null then {x} else {}, key, false), x);
    }

    method Enter(newChild: BasicBlock, ghost at: Blocks, ghost parent: map<int, int>, ghost below: Entries)
      requires Holds(at, parent, below) && IsAt(at, this) && IsAt(at, newChild)
      modifies this`postDominated
      ensures Holds(at, parent, EnterAt(below, {old(startingAddress)}, old(newChild.startingAddress), true))
    {
      ghost var x, was := startingAddress, Snapshot(at);
      OnlyAt(at, parent, x);
      assert Matches(at, postDominated, below[x]);
      postDominated := postDominated[newChild.startingAddress := newChild];
      OneChanged(at, was, below, EnterAt(below, {x}, newChild.startingAddress, true), x);
    }

    method Erase(deletableBlocks: map<int, BasicBlock?>, deletableBlocksParent: int,
                 ghost at: Blocks, ghost parent: map<int, int>, ghost below: Entries)
      requires Holds(at, parent, below) && IsAt(at, this)
      modifies this`postDominated
      ensures Holds(at, parent, EraseAt(below, {old(startingAddress)}, deletableBlocks.Keys + {deletableBlocksParent}))
    {
      ghost var x, was := startingAddress, Snapshot(at);
      OnlyAt(at, parent, x);
      assert Matches(at, postDominated, below[x]);
      EraseEntries(deletableBlocks, deletableBlocksParent);
      OneChanged(at, was, below, EraseAt(below, {x}, deletableBlocks.Keys + {deletableBlocksParent}), x);
    }

    method GetCommonPostDominator(sibling: BasicBlock, ghost at: Blocks, ghost f: Forest, ghost below: Entries)
      returns (r: BasicBlock)
      requires WellFormed(f) && Holds(at, f.parent, below) && f.rank.Keys <= at.Keys
      requires IsAt(at, this) && startingAddress in f.rank
      requires forall k :: k in at ==>
               (HasEntry(below[k], sibling.startingAddress) <==> Marked(f, k, sibling.startingAddress))
      modifies at.Values`postDominated
      ensures IsAt(at, r) && r.startingAddress == Common(f, old(startingAddress), old(sibling.startingAddress))
      ensures Holds(at, f.parent,
                    EnterAt(below, Probed(f, old(startingAddress), old(sibling.startingAddress)),
                            old(sibling.startingAddress), false))
      decreases f.rank[startingAddress]
    {
      ghost var x, p := startingAddress, sibling.startingAddress;
      var found := LookUp(sibling.startingAddress, at, f.parent, below);
      if found != null {
        return this;
      } else if startingAddress == RETURN {
        return this;
      } else {
        ParentOnHeap(at, f, x);
        r := PostDominator.GetCommonPostDominator(sibling, at, f, EnterAt(below, {x}, p, false));
        EnterTwice(below, {x}, Probed(f, f.parent[x], p), p, false);
      }
    }

    method PassDownPostDominanceInfo(newChild: BasicBlock, ghost at: Blocks, ghost f: Forest, ghost below: Entries)
      requires WellFormed(f) && Holds(at, f.parent, below) && f.rank.Keys <= at.Keys
      requires IsAt(at, this) && startingAddress in f.rank && IsAt(at, newChild)
      modifies at.Values`postDominated
      ensures Holds(at, f.parent, EnterAt(below, Chain(f, old(startingAddress)), old(newChild.startingAddress), true))
      decreases f.rank[startingAddress]
    {
      ghost var x, p := startingAddress, newChild.startingAddress;
      Enter(newChild, at, f.parent, below);
      if startingAddress != RETURN {
        ParentOnHeap(at, f, x);
        PostDominator.PassDownPostDominanceInfo(newChild, at, f, EnterAt(below, {x}, p, true));
        EnterTwice(below, {x}, Chain(f, f.parent[x]), p, true);
        assert Chain(f, x) == {x} + Chain(f, f.parent[x]);
      }
    }

    method DeleteDownPostDominanceInfo(deletableBlocks: map<int, BasicBlock?>, deletableBlocksParent: int,
                                       lastNodesStarting: int, ghost at: Blocks, ghost f: Forest, ghost below: Entries)
      requires WellFormed(f) && Holds(at, f.parent, below) && f.rank.Keys <= at.Keys
      requires IsAt(at, this) && startingAddress in f.rank
      modifies at.Values`postDominated
      ensures Holds(at, f.parent, EraseAt(below, Doomed(f, old(startingAddress), lastNodesStarting),
                                       deletableBlocks.Keys + {deletableBlocksParent}))
      decreases f.rank[startingAddress]
    {
      ghost var x, gone := startingAddress, deletableBlocks.Keys + {deletableBlocksParent};
      if startingAddress != lastNodesStarting {
        Erase(deletableBlocks, deletableBlocksParent, at, f.parent, below);
        assert HoldsParent(at, f.parent, x);
        if PostDominator != null {
          ParentOnHeap(at, f, x);
          PostDominator.DeleteDownPostDominanceInfo(
            deletableBlocks, deletableBlocksParent, lastNodesStarting, at, f, EraseAt(below, {x}, gone));
          EraseTwice(below, {x}, Doomed(f, f.parent[x], lastNodesStarting), gone);
          assert Doomed(f, x, lastNodesStarting) == {x} + Doomed(f, f.parent[x], lastNodesStarting);
        } else {
          assert Doomed(f, x, lastNodesStarting) == {x};
        }
      } else {
        assert EraseAt(below, {}, gone) == below;
      }
    }

    method EraseEntries(deletableBlocks: map<int, BasicBlock?>, deletableBlocksParent: int)
      modifies this`postDominated
      ensures postDominated == old(postDominated) - (deletableBlocks.Keys + {deletableBlocksParent})
    {
      postDominated := postDominated - {deletableBlocksParent};
      ghost var gone := {deletableBlocksParent};
      var todo := deletableBlocks.Keys;
      while exists key :: key in todo
        invariant gone + todo == deletableBlocks.Keys + {deletableBlocksParent}
        invariant postDominated == old(postDominated) - gone
        decreases |todo|
      {
        var key :| key in todo;
        MinusMinus(old(postDominated), gone, {key});
        postDominated := postDominated - {key};
        todo, gone := todo - {key}, gone + {key};
      }
      assert todo == {};
    }

    method SetPostDominator(block: BasicBlock, ghost at: Blocks, ghost parent: map<int, int>, ghost below: Entries)
      requires Holds(at, parent, below) && IsAt(at, this) && IsAt(at, block)
      modifies this`isPostDominated, this`PostDominator
      ensures Holds(at, parent[old(startingAddress) := old(block.startingAddress)], below)
    {
      ghost var x := startingAddress;
      assert forall k :: k in at ==> HoldsParent(at, parent, k);
      isPostDominated, PostDominator := true, block;
      forall k | k in at
        ensures HoldsParent(at, parent[x := old(block.startingAddress)], k)
      {
        assert old(HoldsParent(at, parent, k));
      }
    }

    /** Nothing relies on immediatelyPostDominated, so its upkeep changes nothing else. */
    method AddImmediatePostDominator(newBlock: BasicBlock, ghost at: Blocks, ghost parent: map<int, int>,
                                     ghost below: Entries)
      requires Holds(at, parent, below)
      modifies this`immediatelyPostDominated
      ensures Holds(at, parent, below)
    {
      immediatelyPostDominated := immediatelyPostDominated[newBlock.startingAddress := newBlock];
    }

    method DropImmediatePostDominator(key: int, ghost at: Blocks, ghost parent: map<int, int>, ghost below: Entries)
      requires Holds(at, parent, below)
      modifies this`immediatelyPostDominated
      ensures Holds(at, parent, below)
    {
      immediatelyPostDominated := immediatelyPostDominated - {key};
    }

    method AddPredecessorAsPostDominated(predecessor: BasicBlock, ghost at: Blocks, ghost f: Forest)
      requires WellFormed(f) && Timely(f) && Holds(at, f.parent, f.below)
      requires IsAt(at, this) && startingAddress in f.rank
      requires IsAt(at, predecessor) && predecessor.startingAddress != RETURN
      modifies at.Values`postDominated, at.Values`immediatelyPostDominated
      modifies predecessor`PostDominator, predecessor`isPostDominated
      ensures
        var h := Step(f, old(startingAddress), old(predecessor.startingAddress));
        Holds(at, h.parent, h.below)
    {
      ghost var p := predecessor.startingAddress;
      assert HoldsParent(at, f.parent, p);
      if !predecessor.isPostDominated {
        TakeFirst(predecessor, at, f);
      } else {
        TakeAgain(predecessor, startingAddress, p, at, f);
      }
    }

    method TakeFirst(predecessor: BasicBlock, ghost at: Blocks, ghost f: Forest)
      requires WellFormed(f) && Timely(f) && Holds(at, f.parent, f.below)
      requires IsAt(at, this) && startingAddress in f.rank
      requires IsAt(at, predecessor) && predecessor.startingAddress !in f.rank
      modifies at.Values`postDominated, this`immediatelyPostDominated
      modifies predecessor`PostDominator, predecessor`isPostDominated
      ensures Holds(at, f.parent[old(predecessor.startingAddress) := old(startingAddress)],
                    EnterAt(f.below, Chain(f, old(startingAddress)), old(predecessor.startingAddress), true))
    {
      HangKeepsChain(f, startingAddress, predecessor.startingAddress);
      predecessor.SetPostDominator(this, at, f.parent, f.below);
      AddImmediatePostDominator(predecessor, at, f.parent[predecessor.startingAddress := startingAddress], f.below);
      PassDownPostDominanceInfo(predecessor, at, Hang(f, startingAddress, predecessor.startingAddress), f.below);
    }

    method TakeAgain(predecessor: BasicBlock, ghost c: int, ghost p: int, ghost at: Blocks, ghost f: Forest)
      requires WellFormed(f) && Timely(f) && Holds(at, f.parent, f.below)
      requires c in f.rank && p in f.parent && at[c] == this && at[p] == predecessor
      modifies at.Values`postDominated, at.Values`immediatelyPostDominated
      modifies predecessor`PostDominator, predecessor`isPostDominated
      ensures
        var q, probed := Common(f, c, p), EnterAt(f.below, Probed(f, c, p), p, false);
        Holds(at, f.parent[p := q], EraseAt(probed, Doomed(f, f.parent[p], q), probed[p].Keys + {p}))
    {
      OnlyAt(at, f.parent, c);
      OnlyAt(at, f.parent, p);
      ParentOnHeap(at, f, p);
      var competingSibling := predecessor.PostDominator;
      var newPostDominator := GetCommonPostDominator(predecessor, at, f, f.below);
      ghost var probed := EnterAt(f.below, Probed(f, c, p), p, false);
      DropImmediatePostDominator(predecessor.startingAddress, at, f.parent, probed);
      predecessor.MoveBelow(competingSibling, newPostDominator, p, Common(f, c, p), at, f, probed);
    }

    method MoveBelow(competingSibling: BasicBlock, newPostDominator: BasicBlock,
                     ghost p: int, ghost q: int, ghost at: Blocks, ghost f: Forest, ghost below: Entries)
      requires WellFormed(f) && Holds(at, f.parent, below) && f.rank.Keys <= at.Keys
      requires p in f.parent && q in f.rank
      requires at[p] == this && at[f.parent[p]] == competingSibling && at[q] == newPostDominator
      modifies at.Values`postDominated, newPostDominator`immediatelyPostDominated
      modifies this`PostDominator, this`isPostDominated
      ensures Holds(at, f.parent[p := q], EraseAt(below, Doomed(f, f.parent[p], q), below[p].Keys + {p}))
    {
      OnlyAt(at, f.parent, p);
      OnlyAt(at, f.parent, f.parent[p]);
      OnlyAt(at, f.parent, q);
      assert Matches(at, postDominated, below[p]);
      var deletableBlocks := postDominated;
      competingSibling.DeleteDownPostDominanceInfo(
        deletableBlocks, startingAddress, newPostDominator.startingAddress, at, f, below);
      ghost var left := EraseAt(below, Doomed(f, f.parent[p], q), below[p].Keys + {p});
      SetPostDominator(newPostDominator, at, f.parent, left);
      newPostDominator.AddImmediatePostDominator(this, at, f.parent[p := q], left);
    }
  }

  type Blocks = map<int, BasicBlock>

  type Entries = map<int, map<int, bool>>

  ghost function BlocksAt(at: Blocks, s: set<int>): set<BasicBlock> {
    set k | k in s && k in at :: at[k]
  }

  ghost predicate IsAt(at: Blocks, b: BasicBlock)
    reads b`startingAddress
  {
    b.startingAddress in at && at[b.startingAddress] == b
  }

  ghost predicate HasEntry(e: map<int, bool>, key: int) {
    key in e && e[key]
  }

  // --------------------------------------------- what the heap holds

  ghost predicate HoldsParent(at: Blocks, parent: map<int, int>, k: int)
    requires k in at
    reads at.Values`startingAddress, at.Values`isPostDominated, at.Values`PostDominator
  {
    && at[k].startingAddress == k
    && at[k].isPostDominated == (k in parent)
    && (if k in parent then parent[k] in at && at[k].PostDominator == at[parent[k]] else at[k].PostDominator == null)
  }

  ghost predicate HoldsParents(at: Blocks, parent: map<int, int>)
    reads at.Values`startingAddress, at.Values`isPostDominated, at.Values`PostDominator
  {
    forall k {:trigger HoldsParent(at, parent, k)} :: k in at ==> HoldsParent(at, parent, k)
  }

  /** A postDominated map has these entries: a block pointer for true, null for false. */
  ghost predicate Matches(at: Blocks, m: map<int, BasicBlock?>, e: map<int, bool>) {
    && m.Keys == e.Keys
    && forall j {:trigger e[j]} :: j in e ==> if e[j] then j in at && m[j] == at[j] else m[j] == null
  }

  ghost predicate HoldsEntries(at: Blocks, below: Entries)
    reads at.Values`postDominated
  {
    && at.Keys == below.Keys
    && forall k {:trigger below[k]} :: k in at ==> Matches(at, at[k].postDominated, below[k])
  }

  /** The heap holds the forest with these parents and these recorded descendants. */
  ghost predicate Holds(at: Blocks, parent: map<int, int>, below: Entries)
    reads at.Values`startingAddress, at.Values`isPostDominated, at.Values`PostDominator, at.Values`postDominated
  {
    HoldsParents(at, parent) && HoldsEntries(at, below)
  }

  lemma OnlyAt(at: Blocks, parent: map<int, int>, x: int)
    requires HoldsParents(at, parent) && x in at
    ensures HoldsParent(at, parent, x)
    ensures forall k :: k in at && k != x ==> at[k] != at[x]
  {
    assert HoldsParent(at, parent, x);
    forall k | k in at && k != x
      ensures at[k] != at[x]
    {
      assert HoldsParent(at, parent, k);
    }
  }

  lemma ParentOnHeap(at: Blocks, f: Forest, x: int)
    requires WellFormed(f) && f.rank.Keys <= at.Keys && HoldsParents(at, f.parent) && x in f.parent
    ensures x in at && f.parent[x] in at && at[x].PostDominator == at[f.parent[x]]
    ensures at[f.parent[x]].startingAddress == f.parent[x]
  {
    assert HoldsParent(at, f.parent, x) && HoldsParent(at, f.parent, f.parent[x]);
  }

  /** A snapshot of all postDominated maps. */
  ghost function Snapshot(at: Blocks): map<int, map<int, BasicBlock?>>
    reads at.Values`postDominated
  {
    map k | k in at :: at[k].postDominated
  }

  lemma OneChanged(at: Blocks, was: map<int, map<int, BasicBlock?>>, below: Entries, left: Entries, x: int)
    requires at.Keys == was.Keys == below.Keys == left.Keys && x in at
    requires forall k {:trigger below[k]} :: k in at ==> Matches(at, was[k], below[k])
    requires forall k {:trigger left[k]} :: k in at && k != x ==> at[k].postDominated == was[k] && left[k] == below[k]
    requires Matches(at, at[x].postDominated, left[x])
    ensures HoldsEntries(at, left)
  {
    forall k | k in at
      ensures Matches(at, at[k].postDominated, left[k])
    {
      assert Matches(at, was[k], below[k]);
    }
  }

  // --------------------------------------------- how the updates compose

  lemma EnterTwice(below: Entries, s: set<int>, t: set<int>, p: int, entry: bool)
    ensures EnterAt(EnterAt(below, s, p, entry), t, p, entry) == EnterAt(below, s + t, p, entry)
  {
    forall k | k in below
      ensures EnterAt(EnterAt(below, s, p, entry), t, p, entry)[k] == EnterAt(below, s + t, p, entry)[k]
    {
      assert below[k][p := entry][p := entry] == below[k][p := entry];
    }
  }

  lemma EraseTwice(below: Entries, s: set<int>, t: set<int>, gone: set<int>)
    ensures EraseAt(EraseAt(below, s, gone), t, gone) == EraseAt(below, s + t, gone)
  {
    forall k | k in below
      ensures EraseAt(EraseAt(below, s, gone), t, gone)[k] == EraseAt(below, s + t, gone)[k]
    {
      assert below[k] - gone - gone == below[k] - gone;
    }
  }

  lemma MinusMinus<V>(m: map<int, V>, a: set<int>, b: set<int>)
    ensures m - a - b == m - (a + b)
  {
  }

  /** f with p already hung below c, but not yet recorded anywhere. */
  ghost function Hang(f: Forest, c: int, p: int): Forest {
    f.(parent := f.parent[p := c], rank := f.rank[p := |f.rank|])
  }

  lemma HangKeepsChain(f: Forest, c: int, p: int)
    requires WellFormed(f) && Timely(f) && c in f.rank && p !in f.rank && p in f.below
    ensures WellFormed(Hang(f, c, p)) && Chain(Hang(f, c, p), c) == Chain(f, c)
  {
    AttachKeepsWellFormed(f, c, p);
    PlacedChain(f, Hang(f, c, p), p, c);
  }

  /** Giving p its parent does not disturb the chain that is about to record it. */
  lemma {:induction false} PlacedChain(f: Forest, g: Forest, p: int, x: int)
    requires WellFormed(f) && WellFormed(g) && x in f.rank && p !in f.rank && p in g.parent
    requires g.parent == f.parent[p := g.parent[p]] && g.rank == f.rank[p := |f.rank|]
    ensures Chain(g, x) == Chain(f, x)
    decreases f.rank[x]
  {
    if x != RETURN {
      PlacedChain(f, g, p, f.parent[x]);
    }
  }
}
