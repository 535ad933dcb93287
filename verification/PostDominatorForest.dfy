/**
  The PostDominator forest that RoutineGraph grows from the return block, as a value.

  Blocks are named by their starting address (distinct for every block the search can
  reach); the return block is the one at address 2.  `below` mirrors the postDominated
  maps: `true` is a block pointer, `false` the null pointer that C++'s operator[] leaves
  behind when getCommonPostDominator merely looks a key up.
*/
module PostDominatorForest {

  const RETURN := 2

  /** For every block, the blocks that control may come from. */
  type Graph = map<int, set<int>>

  datatype Forest = Forest(
    parent: map<int, int>,
    below: map<int, map<int, bool>>,
    rank: map<int, nat>)  // how many blocks had a place in the forest when this one got its own

  ghost predicate WellFormed(f: Forest) {
    && RETURN in f.rank
    && f.parent.Keys == f.rank.Keys - {RETURN}
    && f.rank.Keys <= f.below.Keys
    && (forall x {:trigger f.rank[x]} :: x in f.rank ==> f.rank[x] < |f.rank|)
    && (forall x {:trigger f.parent[x]} :: x in f.parent ==> f.parent[x] in f.rank && f.rank[f.parent[x]] < f.rank[x])
  }

  /** The block itself, its PostDominator, that one's PostDominator, and so on. */
  ghost function Chain(f: Forest, x: int): (c: set<int>)
    requires WellFormed(f) && x in f.rank
    ensures x in c && RETURN in c && c <= f.rank.Keys
    ensures forall a :: a in c && a != x ==> f.rank[a] < f.rank[x]
    decreases f.rank[x]
  {
    {x} + Above(f, x)
  }

  /** The strict ancestors of a block. */
  ghost function Above(f: Forest, x: int): (c: set<int>)
    requires WellFormed(f) && x in f.rank
    ensures c <= f.rank.Keys && x !in c
    ensures x != RETURN ==> RETURN in c
    ensures forall a :: a in c ==> f.rank[a] < f.rank[x]
    decreases f.rank[x], 0
  {
    if x == RETURN then {} else Chain(f, f.parent[x])
  }

  ghost predicate Marked(f: Forest, a: int, k: int) {
    a in f.below && k in f.below[a] && f.below[a][k]
  }

  /** Every recorded descendant got its place after the block that records it. */
  ghost predicate Timely(f: Forest) {
    forall a, k :: Marked(f, a, k) ==> a in f.rank && k in f.rank && f.rank[a] < f.rank[k]
  }

  /** The non-null postDominated entries are exactly the strict descendants. */
  ghost predicate Exact(f: Forest)
    requires WellFormed(f)
  {
    forall a, k :: Marked(f, a, k) <==> k in f.rank && a in Above(f, k)
  }

  /** The blocks that record k are exactly its strict ancestors. */
  ghost predicate ExactAt(f: Forest, k: int)
    requires WellFormed(f) && k in f.rank
  {
    forall a :: Marked(f, a, k) <==> a in Above(f, k)
  }

  ghost function Initial(blocks: set<int>): Forest {
    Forest(map[], map b | b in blocks :: map[], map[RETURN := 0])
  }

  // ---------------------------------------------------------------- one step

  /** First sight of p: it hangs below c and every ancestor-or-self of c records it. */
  ghost function Attach(f: Forest, c: int, p: int): Forest
    requires WellFormed(f) && c in f.rank
  {
    Forest(f.parent[p := c], EnterAt(f.below, Chain(f, c), p, true), f.rank[p := |f.rank|])
  }

  /** The maps of the blocks in `where` get an entry for p. */
  ghost function EnterAt(below: map<int, map<int, bool>>, where: set<int>, p: int, entry: bool)
    : map<int, map<int, bool>>
  {
    map k | k in below :: if k in where then below[k][p := entry] else below[k]
  }

  /** The maps of the blocks in `where` lose the keys in `gone`. */
  ghost function EraseAt(below: map<int, map<int, bool>>, where: set<int>, gone: set<int>): map<int, map<int, bool>> {
    map k | k in below :: if k in where then below[k] - gone else below[k]
  }

  /** The lowest block on x's chain that records p, or the return block. */
  ghost function Common(f: Forest, x: int, p: int): (q: int)
    requires WellFormed(f) && x in f.rank
    ensures q in Chain(f, x)
    ensures q == RETURN || Marked(f, q, p)
    decreases f.rank[x]
  {
    if Marked(f, x, p) || x == RETURN then x else Common(f, f.parent[x], p)
  }

  /** The blocks at which the search for Common leaves a null entry for p. */
  ghost function Probed(f: Forest, x: int, p: int): set<int>
    requires WellFormed(f) && x in f.rank
    decreases f.rank[x]
  {
    if Marked(f, x, p) then {}
    else if x == RETURN then {x}
    else {x} + Probed(f, f.parent[x], p)
  }

  lemma {:induction false} ProbedIsUnmarked(f: Forest, x: int, p: int)
    requires WellFormed(f) && x in f.rank
    ensures Probed(f, x, p) <= Chain(f, x)
    ensures forall a :: a in Probed(f, x, p) ==> !Marked(f, a, p)
    decreases f.rank[x]
  {
    if !Marked(f, x, p) && x != RETURN {
      ProbedIsUnmarked(f, f.parent[x], p);
    }
  }

  ghost function Probe(f: Forest, x: int, p: int): Forest
    requires WellFormed(f) && x in f.rank
  {
    f.(below := EnterAt(f.below, Probed(f, x, p), p, false))
  }

  lemma ProbeKeepsMarks(f: Forest, x: int, p: int)
    requires WellFormed(f) && x in f.rank
    ensures forall a, k :: Marked(Probe(f, x, p), a, k) <==> Marked(f, a, k)
  {
    ProbedIsUnmarked(f, x, p);
  }

  /** The blocks from x upwards, up to but not including q. */
  ghost function Doomed(f: Forest, x: int, q: int): set<int>
    requires WellFormed(f) && x in f.rank
    decreases f.rank[x]
  {
    if x == q then {}
    else if x == RETURN then {x}
    else {x} + Doomed(f, f.parent[x], q)
  }

  /** p is met again from c: it moves below Common, and what it leaves behind is erased. */
  ghost function Reparent(f: Forest, c: int, p: int): Forest
    requires WellFormed(f) && c in f.rank && p in f.parent
  {
    var q := Common(f, c, p);
    var g := Probe(f, c, p);
    Forest(f.parent[p := q], EraseAt(g.below, Doomed(f, f.parent[p], q), g.below[p].Keys + {p}), f.rank)
  }

  ghost function Step(f: Forest, c: int, p: int): Forest
    requires WellFormed(f) && c in f.rank
  {
    if p in f.parent then Reparent(f, c, p) else Attach(f, c, p)
  }

  // ---------------------------------------------- every step keeps the forest

  lemma CommonIsEarlier(f: Forest, c: int, p: int)
    requires WellFormed(f) && Timely(f) && c in f.rank && p in f.parent
    ensures f.rank[Common(f, c, p)] < f.rank[p]
  {
    var q := Common(f, c, p);
    if q == RETURN {
      assert f.parent[p] in f.rank;
      RootIsFirst(f, p);
    }
  }

  lemma RootIsFirst(f: Forest, p: int)
    requires WellFormed(f) && p in f.parent
    ensures f.rank[RETURN] < f.rank[p]
  {
    assert RETURN in Above(f, p);
  }

  lemma AttachKeepsWellFormed(f: Forest, c: int, p: int)
    requires WellFormed(f) && Timely(f) && c in f.rank && p !in f.rank && p in f.below
    ensures WellFormed(Attach(f, c, p)) && Timely(Attach(f, c, p))
  {
    var h := Attach(f, c, p);
    assert h.rank.Keys == f.rank.Keys + {p};
    assert |h.rank| == |f.rank| + 1;
    forall a, k | Marked(h, a, k)
      ensures a in h.rank && k in h.rank && h.rank[a] < h.rank[k]
    {
      if !(k == p && a in Chain(f, c)) {
        assert Marked(f, a, k);
      }
    }
  }

  lemma ReparentKeepsWellFormed(f: Forest, c: int, p: int)
    requires WellFormed(f) && Timely(f) && c in f.rank && p in f.parent
    ensures WellFormed(Reparent(f, c, p)) && Timely(Reparent(f, c, p))
  {
    CommonIsEarlier(f, c, p);
    var h := Reparent(f, c, p);
    forall a, k | Marked(h, a, k)
      ensures Marked(f, a, k)
    {
      ReparentMarks(f, c, p, a, k);
    }
  }

  lemma StepKeepsWellFormed(f: Forest, c: int, p: int)
    requires WellFormed(f) && Timely(f) && c in f.rank && p != RETURN && p in f.below
    ensures WellFormed(Step(f, c, p)) && Timely(Step(f, c, p))
    ensures Step(f, c, p).rank.Keys == f.rank.Keys + {p}
    ensures Step(f, c, p).below.Keys == f.below.Keys
  {
    if p in f.parent {
      ReparentKeepsWellFormed(f, c, p);
    } else {
      AttachKeepsWellFormed(f, c, p);
    }
  }

  // --------------------------------------------------- when a step keeps Exact

  /** No null placeholder in p's own map names a block that a doomed ancestor still has below it. */
  ghost predicate Harmless(f: Forest, c: int, p: int)
    requires WellFormed(f) && c in f.rank && p in f.parent
  {
    var held := Probe(f, c, p).below[p];
    forall k, a ::
      k in held && !held[k] && k != p && a in Doomed(f, f.parent[p], Common(f, c, p)) ==>
      !(k in f.rank && a in Above(f, k))
  }

  lemma {:induction false} ChainIsTransitive(f: Forest, x: int, a: int)
    requires WellFormed(f) && x in f.rank && a in Chain(f, x)
    ensures Chain(f, a) <= Chain(f, x)
    ensures a != x ==> Chain(f, a) <= Above(f, x)
    decreases f.rank[x]
  {
    if a != x {
      ChainIsTransitive(f, f.parent[x], a);
    }
  }

  lemma {:induction false} DoomedIsTheGap(f: Forest, x: int, q: int)
    requires WellFormed(f) && x in f.rank && q in Chain(f, x)
    ensures Doomed(f, x, q) == Chain(f, x) - Chain(f, q)
    decreases f.rank[x]
  {
    if x != q {
      DoomedIsTheGap(f, f.parent[x], q);
      ChainIsTransitive(f, f.parent[x], q);
    }
  }

  lemma ExactCommonIsAncestor(f: Forest, c: int, p: int)
    requires WellFormed(f) && c in f.rank && p in f.parent && ExactAt(f, p)
    ensures Common(f, c, p) in Above(f, p)
  {
  }

  /** Attaching leaves every other chain alone. */
  lemma {:induction false} AttachKeepsChains(f: Forest, c: int, p: int, x: int)
    requires WellFormed(f) && Timely(f) && c in f.rank && p !in f.rank && p in f.below && x in f.rank
    requires WellFormed(Attach(f, c, p))
    ensures Chain(Attach(f, c, p), x) == Chain(f, x)
    ensures Above(Attach(f, c, p), x) == Above(f, x)
    decreases f.rank[x]
  {
    if x != RETURN {
      AttachKeepsChains(f, c, p, f.parent[x]);
    }
  }

  lemma AttachKeepsExact(f: Forest, c: int, p: int)
    requires WellFormed(f) && Timely(f) && Exact(f) && c in f.rank && p !in f.rank && p in f.below
    requires WellFormed(Attach(f, c, p))
    ensures Exact(Attach(f, c, p))
    ensures Above(Attach(f, c, p), p) == Chain(f, c)
  {
    var h := Attach(f, c, p);
    AttachKeepsChains(f, c, p, c);
    forall a, k
      ensures Marked(h, a, k) <==> k in h.rank && a in Above(h, k)
    {
      if k in f.rank {
        AttachKeepsChains(f, c, p, k);
        assert Marked(h, a, k) <==> Marked(f, a, k);
      } else if k != p {
        assert Marked(h, a, k) <==> Marked(f, a, k);
      } else {
        assert !Marked(f, a, p);
      }
    }
  }

  /** h differs from f in the parent of p, which has moved up below q. */
  ghost predicate HasMoved(f: Forest, h: Forest, p: int, q: int) {
    && WellFormed(f) && WellFormed(h) && p in f.parent && q in Above(f, p)
    && h.parent == f.parent[p := q] && h.rank == f.rank
  }

  /** Chains that do not go through p stay as they are. */
  lemma {:induction false} UnmovedChains(f: Forest, h: Forest, p: int, q: int, x: int)
    requires HasMoved(f, h, p, q) && x in f.rank && p !in Chain(f, x)
    ensures Above(h, x) == Above(f, x)
    decreases f.rank[x]
  {
    if x != RETURN {
      UnmovedChains(f, h, p, q, f.parent[x]);
    }
  }

  /** Moving p below an ancestor q removes the blocks in between from the chains through p. */
  lemma {:induction false} MovedChains(f: Forest, h: Forest, p: int, q: int, x: int)
    requires HasMoved(f, h, p, q) && x in f.rank && p in Chain(f, x)
    ensures Above(h, x) == Above(f, x) - (Above(f, p) - Chain(f, q))
    decreases f.rank[x]
  {
    if x == p {
      UnmovedChains(f, h, p, q, q);
      ChainIsTransitive(f, f.parent[p], q);
    } else {
      MovedChains(f, h, p, q, f.parent[x]);
    }
  }

  /** What a re-parenting does to the recorded descendants. */
  lemma ReparentMarks(f: Forest, c: int, p: int, a: int, k: int)
    requires WellFormed(f) && c in f.rank && p in f.parent
    ensures Marked(Reparent(f, c, p), a, k) <==>
            && Marked(f, a, k)
            && !(a in Doomed(f, f.parent[p], Common(f, c, p)) && (k == p || k in Probe(f, c, p).below[p]))
  {
    ProbeKeepsMarks(f, c, p);
    assert Marked(Probe(f, c, p), a, k) <==> Marked(f, a, k);
  }

  lemma ReparentAbove(f: Forest, c: int, p: int, k: int)
    requires WellFormed(f) && c in f.rank && p in f.parent && ExactAt(f, p) && k in f.rank
    requires WellFormed(Reparent(f, c, p))
    ensures Above(Reparent(f, c, p), k) ==
            if p in Chain(f, k) then Above(f, k) - Doomed(f, f.parent[p], Common(f, c, p)) else Above(f, k)
  {
    var q := Common(f, c, p);
    ExactCommonIsAncestor(f, c, p);
    DoomedIsTheGap(f, f.parent[p], q);
    if p in Chain(f, k) {
      MovedChains(f, Reparent(f, c, p), p, q, k);
    } else {
      UnmovedChains(f, Reparent(f, c, p), p, q, k);
    }
  }

  lemma HarmlessKeepsExact(f: Forest, c: int, p: int)
    requires WellFormed(f) && Timely(f) && Exact(f) && c in f.rank && p in f.parent && Harmless(f, c, p)
    ensures WellFormed(Reparent(f, c, p)) && Exact(Reparent(f, c, p))
  {
    StepKeepsWellFormed(f, c, p);
    var h := Reparent(f, c, p);
    ProbeKeepsMarks(f, c, p);
    forall a, k
      ensures Marked(h, a, k) <==> k in h.rank && a in Above(h, k)
    {
      ReparentMarks(f, c, p, a, k);
      assert Marked(Probe(f, c, p), p, k) <==> Marked(f, p, k);
      if k in f.rank {
        ReparentAbove(f, c, p, k);
      }
    }
  }

  lemma HarmSpoilsExact(f: Forest, c: int, p: int)
    requires WellFormed(f) && Timely(f) && Exact(f) && c in f.rank && p in f.parent && !Harmless(f, c, p)
    ensures WellFormed(Reparent(f, c, p)) && !Exact(Reparent(f, c, p))
  {
    StepKeepsWellFormed(f, c, p);
    var h := Reparent(f, c, p);
    var d := Doomed(f, f.parent[p], Common(f, c, p));
    var held := Probe(f, c, p).below[p];
    ProbeKeepsMarks(f, c, p);
    var k, a :| k in held && !held[k] && k != p && a in d && k in f.rank && a in Above(f, k);
    assert !Marked(Probe(f, c, p), p, k) && !Marked(f, p, k);
    ReparentAbove(f, c, p, k);
    ReparentMarks(f, c, p, a, k);
    assert !Marked(h, a, k) && a in Above(h, k);
  }

  /** Exactness survives a re-parenting precisely when the re-parenting is harmless. */
  lemma ReparentKeepsExactIffHarmless(f: Forest, c: int, p: int)
    requires WellFormed(f) && Timely(f) && Exact(f) && c in f.rank && p in f.parent
    ensures WellFormed(Reparent(f, c, p))
    ensures Exact(Reparent(f, c, p)) <==> Harmless(f, c, p)
  {
    if Harmless(f, c, p) {
      HarmlessKeepsExact(f, c, p);
    } else {
      HarmSpoilsExact(f, c, p);
    }
  }

  // ------------------------------------------- blocks not yet met a second time

  /** The ancestors of k, and no other block, have an entry for k, and none of the entries is null. */
  ghost predicate Pristine(f: Forest, k: int)
    requires WellFormed(f)
  {
    forall a :: a in f.below ==>
      (k in f.below[a] <==> k in f.rank && a in Above(f, k)) && (k in f.below[a] ==> f.below[a][k])
  }

  lemma PristineIsExact(f: Forest, k: int)
    requires WellFormed(f) && k in f.rank && Pristine(f, k)
    ensures ExactAt(f, k)
  {
    assert Above(f, k) <= f.below.Keys;
  }

  lemma AttachKeepsPristine(f: Forest, c: int, p: int, k: int)
    requires WellFormed(f) && Timely(f) && c in f.rank && p !in f.rank && p in f.below && Pristine(f, k)
    requires WellFormed(Attach(f, c, p))
    ensures Pristine(Attach(f, c, p), k)
  {
    AttachKeepsChains(f, c, p, c);
    if k in f.rank {
      AttachKeepsChains(f, c, p, k);
    }
  }

  /** Moving p, whatever null entries there are, does not disturb the entries for a block that nobody looked for. */
  lemma ReparentKeepsPristine(f: Forest, c: int, p: int, k: int)
    requires WellFormed(f) && c in f.rank && p in f.parent && ExactAt(f, p) && Pristine(f, k) && k != p
    requires WellFormed(Reparent(f, c, p))
    ensures Pristine(Reparent(f, c, p), k)
  {
    var h := Reparent(f, c, p);
    var gap := Doomed(f, f.parent[p], Common(f, c, p));
    assert k in Probe(f, c, p).below[p] <==> k in f.below[p];
    if k in f.rank {
      ReparentAbove(f, c, p, k);
    }
    forall a | a in h.below
      ensures k in h.below[a] <==> k in f.below[a] && !(a in gap && k in f.below[p])
      ensures k in h.below[a] ==> h.below[a][k] == f.below[a][k]
    {
    }
  }
}
