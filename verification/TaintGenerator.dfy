/**
  The mark generator: it counts from a start up to, but not including, a maximum, and then
  begins again at the start, which may be moved up to the current mark.
*/
module Generators {
  import opened Division
  import opened Collections

  datatype Gen = Gen(start: nat, current: nat, max: nat)

  ghost predicate IsGen(g: Gen) {
    g.start <= g.current < g.max
  }

  /** How many marks are issued before they repeat. */
  ghost function Period(g: Gen): int {
    g.max - g.start
  }

  ghost function AfterMany(g: Gen, k: nat): (r: Gen)
    requires IsGen(g)
    ensures IsGen(r) && r.start == g.start && r.max == g.max
    decreases k
  {
    if k == 0 then g else AfterMany(Succ(g), k - 1)
  }

  /** The generator after one mark. */
  ghost function Succ(g: Gen): (r: Gen)
    requires IsGen(g)
    ensures IsGen(r) && r.start == g.start && r.max == g.max
  {
    g.(current := if g.current + 1 == g.max then g.start else g.current + 1)
  }

  /** The source's test for the end of the range. */
  lemma WrapsAtMax(g: Gen)
    requires IsGen(g)
    ensures (g.current + 1) % g.max == 0 <==> g.current + 1 == g.max
  {
    if g.current + 1 < g.max {
      SmallMod(g.current + 1, g.max);
    } else {
      assert g.max % g.max == 0 by { ModAdd(0, g.max); SmallMod(0, g.max); }
    }
  }

  /** The k-th later mark, in closed form. */
  lemma {:induction false} KthMark(g: Gen, k: nat)
    requires IsGen(g)
    ensures AfterMany(g, k).current == g.start + (g.current - g.start + k) % Period(g)
    decreases k
  {
    var d := g.current - g.start;
    if k == 0 {
      SmallMod(d, Period(g));
    } else {
      KthMark(Succ(g), k - 1);
      if g.current + 1 == g.max {
        assert d + k == (k - 1) + Period(g);
        ModAdd(k - 1, Period(g));
      }
    }
  }

  /** i and j differ by a multiple of n. */
  ghost predicate Congruent(i: nat, j: nat, n: int)
    requires n > 0
  {
    (i - j) % n == 0
  }

  /** Two marks of one generator agree exactly if their positions differ by a multiple of the period. */
  lemma SameMark(g: Gen, i: nat, j: nat)
    requires IsGen(g)
    ensures AfterMany(g, i).current == AfterMany(g, j).current <==> Congruent(i, j, Period(g))
  {
    KthMark(g, i);
    KthMark(g, j);
    SameRemainder(i, j, g.current - g.start, Period(g));
  }

  lemma {:induction false} AfterBoth(g: Gen, i: nat, j: nat)
    requires IsGen(g)
    ensures AfterMany(AfterMany(g, i), j) == AfterMany(g, i + j)
    decreases i
  {
    if i > 0 {
      AfterBoth(Succ(g), i - 1, j);
    }
  }

  // ------------------------------------------------------ moving the start

  datatype Op = Draw | Restart

  /** SetNewTaintStart: the current mark becomes the start. */
  function Restarted(g: Gen): Gen {
    g.(start := g.current)
  }

  ghost function RunOps(g: Gen, ops: seq<Op>): (r: Gen)
    requires IsGen(g)
    ensures IsGen(r) && r.max == g.max && r.start >= g.start
    decreases |ops|
  {
    if ops == [] then g
    else RunOps(if ops[0].Draw? then Succ(g) else Restarted(g), ops[1..])
  }

  /** The marks that a run draws. */
  ghost function Drawn(g: Gen, ops: seq<Op>): set<nat>
    requires IsGen(g)
    decreases |ops|
  {
    if ops == [] then {}
    else if ops[0].Draw? then {g.current} + Drawn(Succ(g), ops[1..])
    else Drawn(Restarted(g), ops[1..])
  }

  lemma {:induction false} DrawnFromStart(g: Gen, ops: seq<Op>)
    requires IsGen(g)
    ensures forall m :: m in Drawn(g, ops) ==> g.start <= m < g.max
    decreases |ops|
  {
    if ops != [] {
      DrawnFromStart(if ops[0].Draw? then Succ(g) else Restarted(g), ops[1..]);
    }
  }

  /** The marks that a run draws, in order. */
  ghost function DrawnInOrder(g: Gen, ops: seq<Op>): seq<nat>
    requires IsGen(g)
    decreases |ops|
  {
    if ops == [] then []
    else if ops[0].Draw? then [g.current] + DrawnInOrder(Succ(g), ops[1..])
    else DrawnInOrder(Restarted(g), ops[1..])
  }

  lemma {:induction false} DrawnIsInOrder(g: Gen, ops: seq<Op>)
    requires IsGen(g)
    ensures forall m :: m in DrawnInOrder(g, ops) <==> m in Drawn(g, ops)
    decreases |ops|
  {
    if ops != [] {
      DrawnIsInOrder(if ops[0].Draw? then Succ(g) else Restarted(g), ops[1..]);
    }
  }

  lemma {:induction false} OneMoreOp(g: Gen, ops: seq<Op>, op: Op)
    requires IsGen(g)
    ensures RunOps(g, ops + [op]) == if op.Draw? then Succ(RunOps(g, ops)) else Restarted(RunOps(g, ops))
    ensures DrawnInOrder(g, ops + [op]) ==
            if op.Draw? then DrawnInOrder(g, ops) + [RunOps(g, ops).current] else DrawnInOrder(g, ops)
    decreases |ops|
  {
    if ops == [] {
      assert [] + [op] == [op] && [op][1..] == [];
    } else {
      assert (ops + [op])[1..] == ops[1..] + [op];
      OneMoreOp(if ops[0].Draw? then Succ(g) else Restarted(g), ops[1..], op);
    }
  }

  /** Up to the maximum the marks simply count up, wherever the start is moved in between. */
  lemma {:induction false} CountsUp(g: Gen, ops: seq<Op>, i: nat)
    requires IsGen(g) && i < |DrawnInOrder(g, ops)| && g.current + i < g.max
    ensures DrawnInOrder(g, ops)[i] == g.current + i
    decreases |ops|
  {
    if ops[0].Draw? {
      if i > 0 {
        CountsUp(Succ(g), ops[1..], i - 1);
      }
    } else {
      CountsUp(Restarted(g), ops[1..], i);
    }
  }

  lemma FewDrawsDiffer(g: Gen, ops: seq<Op>, i: nat, j: nat)
    requires IsGen(g) && i < j < |DrawnInOrder(g, ops)| <= g.max - g.current
    ensures DrawnInOrder(g, ops)[i] != DrawnInOrder(g, ops)[j]
  {
    CountsUp(g, ops, i);
    CountsUp(g, ops, j);
  }

  /**
    Marks drawn from a fresh generator, its start being moved now and then, are all different if
    and only if there are no more of them than the period.
  */
  lemma DrawsDifferIff(g: Gen, ops: seq<Op>)
    requires IsGen(g) && g.current == g.start
    ensures NoRepeats(DrawnInOrder(g, ops)) <==> |DrawnInOrder(g, ops)| <= Period(g)
  {
    var d, n := DrawnInOrder(g, ops), g.max - g.current;
    if |d| <= n {
      forall i, j | 0 <= i < j < |d|
        ensures d[i] != d[j]
      {
        FewDrawsDiffer(g, ops, i, j);
      }
    } else {
      DrawnFromStart(g, ops);
      DrawnIsInOrder(g, ops);
      assert d[n] in d;
      var i := d[n] - g.start;
      CountsUp(g, ops, i);
    }
  }

  ghost predicate NoRestart(ops: seq<Op>) {
    forall i :: 0 <= i < |ops| ==> ops[i].Draw?
  }

  /** Without restarts the i-th mark is the one of the closed form. */
  lemma {:induction false} DrawsAreAfterMany(g: Gen, ops: seq<Op>, i: nat)
    requires IsGen(g) && NoRestart(ops) && i < |DrawnInOrder(g, ops)|
    ensures DrawnInOrder(g, ops)[i] == AfterMany(g, i).current
    decreases |ops|
  {
    if i > 0 {
      DrawsAreAfterMany(Succ(g), ops[1..], i - 1);
    }
  }

  ghost function FirstMarks(g: Gen, k: nat): set<nat>
    requires IsGen(g)
  {
    set i | 0 <= i < k :: AfterMany(g, i).current
  }

  lemma FirstMarksAreSmall(g: Gen, k: nat)
    requires IsGen(g) && g.current == g.start && k < Period(g)
    ensures forall m :: m in FirstMarks(g, k) ==> m < g.start + k
    ensures AfterMany(g, k).current == g.start + k
  {
    KthMark(g, k);
    SmallMod(k, Period(g));
    forall i | 0 <= i < k
      ensures AfterMany(g, i).current < g.start + k
    {
      KthMark(g, i);
      SmallMod(i, Period(g));
    }
  }

  lemma CurrentWasIssued(g: Gen, k: nat)
    requires IsGen(g) && g.current == g.start && k >= Period(g)
    ensures AfterMany(g, k).current in FirstMarks(g, k)
  {
    var i := k % Period(g);
    KthMark(g, k);
    KthMark(g, i);
    SmallMod(i, Period(g));
    assert AfterMany(g, i).current == AfterMany(g, k).current;
  }

  /**
    A fresh generator issues k marks and is then restarted.  No later mark, in any run, is one
    of those k exactly if k is less than the period.
  */
  lemma RestartSeparates(g: Gen, k: nat)
    requires IsGen(g) && g.current == g.start
    ensures (forall ops :: Drawn(Restarted(AfterMany(g, k)), ops) !! FirstMarks(g, k)) <==> k < Period(g)
  {
    var r := Restarted(AfterMany(g, k));
    if k < Period(g) {
      FirstMarksAreSmall(g, k);
      forall ops
        ensures Drawn(r, ops) !! FirstMarks(g, k)
      {
        DrawnFromStart(r, ops);
      }
    } else {
      CurrentWasIssued(g, k);
      assert r.current in Drawn(r, [Draw]);
    }
  }

  class TaintGenerator {
    var start: nat
    var current: nat
    var max: nat

    /** Every mark returned so far. */
    ghost var issued: seq<nat>

    ghost function Value(): Gen
      reads this
    {
      Gen(start, current, max)
    }

    ghost predicate Valid()
      reads this
    {
      IsGen(Value())
    }

    constructor (start: nat, max: nat)
      ensures Value() == Gen(start, start, max) && issued == []
    {
      this.start, current, this.max, issued := start, start, max, [];
    }

    method NextTaintMark() returns (result: nat)
      requires Valid()
      modifies this
      ensures Valid() && Value() == Succ(old(Value()))
      ensures result == old(current) && result < max && issued == old(issued) + [result]
    {
      result := current;
      issued := issued + [result];
      WrapsAtMax(Value());
      if (current + 1) % max == 0 {
        current := start;
      } else {
        current := current + 1;
      }
    }

    method SetNewTaintStart()
      requires Valid()
      modifies this`start
      ensures Valid() && Value() == Restarted(old(Value()))
    {
      start := current;
    }
  }
}
