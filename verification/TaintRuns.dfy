/**
  What holds of every run of the analysis calls.
*/
module TaintRuns {
  import opened Collections
  import opened TaintState
  import opened RegisterBits

  // ------------------------------------------------------ marks do not influence each other

  /** Only the marks in `keep`; the entries stay. */
  ghost function Restrict(s: State, keep: Marks): State {
    map p | p in s :: s[p] * keep
  }

  /** Two states with the same entries, taken together. */
  ghost function Merge(s: State, t: State): State
    requires s.Keys == t.Keys
  {
    map p | p in s :: s[p] + t[p]
  }

  ghost predicate AllDataFlow(calls: seq<Call>) {
    forall i :: 0 <= i < |calls| ==> IsDataFlow(calls[i])
  }

  lemma OverRestricted(s: State, places: set<Place>, keep: Marks)
    ensures Over(Restrict(s, keep), places) == Over(s, places) * keep
  {
    var r := Restrict(s, keep);
    forall m | m in Over(s, places) * keep
      ensures m in Over(r, places)
    {
      var p :| p in places && p in s && m in s[p];
      assert m in r[p];
    }
  }

  lemma OverMerged(s: State, t: State, places: set<Place>)
    requires s.Keys == t.Keys
    ensures Over(Merge(s, t), places) == Over(s, places) + Over(t, places)
  {
    var u := Merge(s, t);
    forall m | m in Over(s, places)
      ensures m in Over(u, places)
    {
      var p :| p in places && p in s && m in s[p];
      assert m in u[p];
    }
    forall m | m in Over(t, places)
      ensures m in Over(u, places)
    {
      var p :| p in places && p in t && m in t[p];
      assert m in u[p];
    }
  }

  lemma AssignRestricted(s: State, places: set<Place>, v: Marks, keep: Marks)
    ensures Assign(Restrict(s, keep), places, v * keep) == Restrict(Assign(s, places, v), keep)
  {
  }

  lemma AssignMerged(s: State, t: State, places: set<Place>, v: Marks, w: Marks)
    requires s.Keys == t.Keys
    ensures Assign(s, places, v).Keys == Assign(t, places, w).Keys
    ensures Assign(Merge(s, t), places, v + w) == Merge(Assign(s, places, v), Assign(t, places, w))
  {
  }

  lemma StepRestricted(s: State, c: Call, keep: Marks)
    requires IsDataFlow(c)
    ensures Step(Restrict(s, keep), c) == Restrict(Step(s, c), keep)
  {
    OverRestricted(s, Sources(c, s.Keys), keep);
    AssignRestricted(s, Targets(c, s.Keys), Over(s, Sources(c, s.Keys)), keep);
    assert Restrict(s, keep).Keys == s.Keys;
  }

  lemma StepMerged(s: State, t: State, c: Call)
    requires IsDataFlow(c) && s.Keys == t.Keys
    ensures Step(s, c).Keys == Step(t, c).Keys
    ensures Step(Merge(s, t), c) == Merge(Step(s, c), Step(t, c))
  {
    var read, written := Sources(c, s.Keys), Targets(c, s.Keys);
    OverMerged(s, t, read);
    AssignMerged(s, t, written, Over(s, read), Over(t, read));
    assert Merge(s, t).Keys == s.Keys;
  }

  /** Running on the marks one cares about is the same as caring about them afterwards. */
  lemma {:induction false} MarksAreIndependent(s: State, calls: seq<Call>, keep: Marks)
    requires AllDataFlow(calls)
    ensures Run(Restrict(s, keep), calls) == Restrict(Run(s, calls), keep)
    decreases |calls|
  {
    if calls != [] {
      var n := |calls| - 1;
      MarksAreIndependent(s, calls[..n], keep);
      StepRestricted(Run(s, calls[..n]), calls[n], keep);
    }
  }

  /** A run distributes over the union of states that have the same entries. */
  lemma {:induction false} RunsDistribute(s: State, t: State, calls: seq<Call>)
    requires AllDataFlow(calls) && s.Keys == t.Keys
    ensures Run(s, calls).Keys == Run(t, calls).Keys
    ensures Run(Merge(s, t), calls) == Merge(Run(s, calls), Run(t, calls))
    decreases |calls|
  {
    if calls != [] {
      var n := |calls| - 1;
      RunsDistribute(s, t, calls[..n]);
      StepMerged(Run(s, calls[..n]), Run(t, calls[..n]), calls[n]);
    }
  }

  /**
    Pushing a branch does look at all marks at once: it commutes with restriction unless the
    flags are tainted, but with none of the marks kept, and the branch is not active yet.
  */
  lemma PushRestricted(s: State, a: int, keep: Marks)
    ensures Step(Restrict(s, keep), PushControl(a)) == Restrict(Step(s, PushControl(a)), keep) <==>
            (Pushes(s) && InControl(a) !in s ==> Over(s, {InReg(EFLAGS)}) * keep != {})
  {
    var r, c, p, q := Restrict(s, keep), PushControl(a), InControl(a), InReg(EFLAGS);
    OverRestricted(s, {q}, keep);
    if Pushes(s) && !Pushes(r) {
      assert Step(r, c) == r;
      assert p in Restrict(Step(s, c), keep);
      if p in s {
        KeepsOwnMarks(s, p, q, keep);
      }
    } else if Pushes(s) {
      OverRestricted(s, {p, q}, keep);
      AssignRestricted(s, {p}, Over(s, {p, q}), keep);
    }
  }

  lemma KeepsOwnMarks(s: State, p: Place, q: Place, keep: Marks)
    requires p in s && Over(s, {q}) * keep == {}
    ensures Restrict(Assign(s, {p}, Over(s, {p, q})), keep) == Restrict(s, keep)
  {
    assert {p, q} == {p} + {q};
    OverBoth(s, {p}, {q});
    assert Over(s, {p}) == s[p];
    forall m | m in Over(s, {p, q}) * keep
      ensures m in s[p] * keep
    {
      assert m !in Over(s, {q}) * keep;
    }
    assert Over(s, {p, q}) * keep == s[p] * keep;
  }

  lemma {:induction false} PopRestricted(s: State, branches: seq<int>, keep: Marks)
    ensures Pop(Restrict(s, keep), branches) == Restrict(Pop(s, branches), keep)
    decreases branches
  {
    if branches != [] && InControl(branches[0]) in s {
      var t := s - {InControl(branches[0])};
      assert Restrict(t, keep) == Restrict(s, keep) - {InControl(branches[0])};
      PopRestricted(t, branches[1..], keep);
    }
  }

  // ------------------------------------------------------ what a call leaves alone

  /** Popping removes entries of branches and changes nothing else. */
  lemma {:induction false} PopRemovesBranches(s: State, branches: seq<int>)
    ensures Pop(s, branches).Keys <= s.Keys
    ensures forall p :: p in s && (p in Pop(s, branches) || !p.InControl?) ==>
            p in Pop(s, branches) && Pop(s, branches)[p] == s[p]
    decreases branches
  {
    if branches != [] && InControl(branches[0]) in s {
      PopRemovesBranches(s - {InControl(branches[0])}, branches[1..]);
    }
  }

  /** Besides the places a call writes, only branches that it pops change. */
  lemma OnlyTargetsChange(s: State, c: Call, p: Place)
    requires p !in Targets(c, s.Keys) && !(c.PopControl? && p.InControl?)
    ensures p in Step(s, c) <==> p in s
    ensures p in s ==> Step(s, c)[p] == s[p]
  {
    if c.PopControl? {
      PopRemovesBranches(s, c.branches);
    }
  }

  /** Registers of which neither lies within the other share no place. */
  lemma PartsApart(q: Reg, r: Reg)
    requires !IsWithin(q, r) && !IsWithin(r, q)
    ensures Registers(Parts(q) + [q]) !! Registers(Parts(r) + [r])
  {
    forall p | p in Registers(Parts(q) + [q]) && p in Registers(Parts(r) + [r])
      ensures false
    {
      ReachedIsWithin(p.reg, q);
      ReachedIsWithin(p.reg, r);
    }
  }

  /**
    Storing to a register and reading it, or any register whose bits lie within it, gives what was
    stored.  Every other register keeps its taint, even one that it is a part of.
  */
  lemma StoreReachesParts(s: State, r: Reg, args: seq<Scratch>, q: Reg)
    requires r != ESP && r != EBP
    ensures
      var t := Step(s, SetReg(r, args));
      if IsWithin(q, r) then Over(t, {InReg(q)}) == Over(s, Named(args)) + Over(s, Branches(s.Keys))
      else Over(t, {InReg(q)}) == Over(s, {InReg(q)})
  {
    var t, p := Step(s, SetReg(r, args)), InReg(q);
    OverBoth(s, Named(args), Branches(s.Keys));
    ReachedIsWithin(q, r);
    OverNone(s);
    OverNone(t);
    OverOne(s, {}, p);
    OverOne(t, {}, p);
    assert {} + {p} == {p};
  }

  ghost predicate NoFrame(s: State) {
    InReg(ESP) !in s && InReg(EBP) !in s
  }

  lemma StepKeepsFrameOut(s: State, c: Call)
    requires NoFrame(s)
    ensures NoFrame(Step(s, c))
  {
    if c.PopControl? {
      PopRemovesBranches(s, c.branches);
    } else {
      assert InReg(ESP) !in Targets(c, s.Keys) && InReg(EBP) !in Targets(c, s.Keys);
    }
  }

  /** The stack and frame pointers never get an entry, whatever is called. */
  lemma {:induction false} FrameStaysOut(s: State, calls: seq<Call>)
    requires NoFrame(s)
    ensures NoFrame(Run(s, calls))
    decreases |calls|
  {
    if calls != [] {
      var n := |calls| - 1;
      FrameStaysOut(s, calls[..n]);
      StepKeepsFrameOut(Run(s, calls[..n]), calls[n]);
    }
  }

  // ------------------------------------------------------ where marks come from

  ghost function AllMarks(s: State): Marks {
    Over(s, s.Keys)
  }

  ghost function Issued(calls: seq<Call>): Marks {
    set i | 0 <= i < |calls| && calls[i].NewTaint? :: calls[i].mark
  }

  lemma OverWithin(s: State, places: set<Place>)
    ensures Over(s, places) <= AllMarks(s)
  {
  }

  lemma AssignedMarks(s: State, places: set<Place>, v: Marks)
    ensures AllMarks(Assign(s, places, v)) <= AllMarks(s) + v
  {
  }

  lemma PoppedMarks(s: State, branches: seq<int>)
    ensures AllMarks(Pop(s, branches)) <= AllMarks(s)
  {
    PopRemovesBranches(s, branches);
    var t := Pop(s, branches);
    forall m | m in AllMarks(t)
      ensures m in AllMarks(s)
    {
      var p :| p in t && m in t[p];
      assert p in s && s[p] == t[p];
    }
  }

  lemma StepMarks(s: State, c: Call)
    ensures AllMarks(Step(s, c)) <= AllMarks(s) + if c.NewTaint? then {c.mark} else {}
  {
    OverWithin(s, Sources(c, s.Keys));
    if c.PopControl? {
      PoppedMarks(s, c.branches);
    } else if c.NewTaint? {
      AssignedMarks(s, Targets(c, s.Keys), {c.mark});
    } else {
      AssignedMarks(s, Targets(c, s.Keys), Over(s, Sources(c, s.Keys)));
    }
  }

  /** Every mark found anywhere was there at the start or was issued by one of the calls. */
  lemma {:induction false} MarksComeFromCalls(s: State, calls: seq<Call>)
    ensures AllMarks(Run(s, calls)) <= AllMarks(s) + Issued(calls)
    decreases |calls|
  {
    if calls != [] {
      var n := |calls| - 1;
      MarksComeFromCalls(s, calls[..n]);
      StepMarks(Run(s, calls[..n]), calls[n]);
      IssuedGrows(calls, n);
    }
  }

  lemma IssuedGrows(calls: seq<Call>, n: nat)
    requires n == |calls| - 1
    ensures Issued(calls[..n]) <= Issued(calls)
    ensures calls[n].NewTaint? ==> calls[n].mark in Issued(calls)
  {
    forall m | m in Issued(calls[..n])
      ensures m in Issued(calls)
    {
      var i :| 0 <= i < n && calls[..n][i].NewTaint? && calls[..n][i].mark == m;
      assert calls[i].mark == m;
    }
  }

  // ------------------------------------------------------ active branches

  /** The first n branches are all active and all different. */
  ghost predicate Removable(s: State, branches: seq<int>, n: nat) {
    && n <= |branches| && NoRepeats(branches[..n])
    && forall i :: 0 <= i < n ==> InControl(branches[i]) in s
  }

  ghost function Controls(branches: seq<int>): set<Place> {
    set a | a in branches :: InControl(a)
  }

  lemma RemovableNext(s: State, branches: seq<int>, n: nat)
    requires branches != [] && n > 0 && InControl(branches[0]) in s
    ensures Removable(s, branches, n) <==>
            Removable(s - {InControl(branches[0])}, branches[1..], n - 1)
  {
    var a, rest := branches[0], branches[1..];
    if n <= |branches| {
      assert branches[..n] == [a] + rest[..n - 1];
      if Removable(s, branches, n) {
        forall i | 0 <= i < n - 1
          ensures InControl(rest[i]) in s - {InControl(a)}
        {
          assert rest[i] == branches[i + 1];
          assert branches[..n][0] != branches[..n][i + 1];
        }
        var later := rest[..n - 1];
        forall i, j | 0 <= i < j < |later|
          ensures later[i] != later[j]
        {
          assert branches[..n][i + 1] != branches[..n][j + 1];
        }
      }
      if Removable(s - {InControl(a)}, rest, n - 1) {
        forall i | 0 <= i < n
          ensures InControl(branches[i]) in s
        {
          assert i > 0 ==> branches[i] == rest[i - 1];
        }
        var first := branches[..n];
        forall i, j | 0 <= i < j < |first|
          ensures first[i] != first[j]
        {
          assert i > 0 ==> rest[..n - 1][i - 1] != rest[..n - 1][j - 1];
          assert branches[j] == rest[j - 1];
        }
      }
    }
  }

  /** Popping removes exactly the longest prefix of branches that are active and all different. */
  lemma {:induction false} PopsLongestPrefix(s: State, branches: seq<int>) returns (n: nat)
    ensures Removable(s, branches, n) && Pop(s, branches) == s - Controls(branches[..n])
    ensures forall k: nat :: Removable(s, branches, k) ==> k <= n
    decreases branches
  {
    if branches == [] || InControl(branches[0]) !in s {
      n := 0;
      assert s - Controls(branches[..0]) == s;
    } else {
      var a, rest := branches[0], branches[1..];
      var m := PopsLongestPrefix(s - {InControl(a)}, rest);
      n := m + 1;
      RemovableNext(s, branches, n);
      assert Controls(branches[..n]) == {InControl(a)} + Controls(rest[..m]) by {
        assert branches[..n] == [a] + rest[..m];
      }
      forall k: nat | Removable(s, branches, k)
        ensures k <= n
      {
        if k > 0 {
          RemovableNext(s, branches, k);
        }
      }
    }
  }

  /** The branch lies in a prefix of active, different branches. */
  ghost predicate Removes(s: State, c: Call, a: int) {
    c.PopControl? && exists n: nat :: Removable(s, c.branches, n) && a in c.branches[..n]
  }

  lemma PopRemoves(s: State, c: Call, a: int)
    requires c.PopControl?
    ensures InControl(a) in Pop(s, c.branches) <==> InControl(a) in s && !Removes(s, c, a)
    ensures InControl(a) in Pop(s, c.branches) ==> Pop(s, c.branches)[InControl(a)] == s[InControl(a)]
  {
    var n := PopsLongestPrefix(s, c.branches);
    if Removes(s, c, a) {
      var k: nat :| Removable(s, c.branches, k) && a in c.branches[..k];
      assert a in c.branches[..n];
    }
  }

  /** The states that a run goes through. */
  ghost predicate IsTrace(states: seq<State>, calls: seq<Call>) {
    && |states| == |calls| + 1
    && forall i :: 0 <= i < |calls| ==> states[i + 1] == Step(states[i], calls[i])
  }

  ghost function Flags(s: State): Marks {
    Over(s, {InReg(EFLAGS)})
  }

  /** Call i pushed branch a with tainted flags. */
  ghost predicate PushedAt(states: seq<State>, calls: seq<Call>, a: int, i: int)
    requires IsTrace(states, calls)
  {
    0 <= i < |calls| && calls[i] == PushControl(a) && Flags(states[i]) != {}
  }

  ghost predicate RemovedAt(states: seq<State>, calls: seq<Call>, a: int, i: int)
    requires IsTrace(states, calls)
  {
    0 <= i < |calls| && Removes(states[i], calls[i], a)
  }

  /** The pushes of branch a among the first n calls that no later one of these has undone. */
  ghost function Standing(states: seq<State>, calls: seq<Call>, a: int, n: nat): set<int>
    requires IsTrace(states, calls) && n <= |calls|
  {
    set i | 0 <= i < n && PushedAt(states, calls, a, i) && !(exists j :: i < j < n && RemovedAt(states, calls, a, j))
  }

  ghost function FlagsOf(states: seq<State>, pushes: set<int>): Marks {
    set i, m | i in pushes && 0 <= i < |states| && m in Flags(states[i]) :: m
  }

  lemma StandingNext(states: seq<State>, calls: seq<Call>, a: int, n: nat)
    requires IsTrace(states, calls) && n < |calls|
    ensures Standing(states, calls, a, n + 1) ==
            if RemovedAt(states, calls, a, n) then {}
            else if PushedAt(states, calls, a, n) then Standing(states, calls, a, n) + {n}
            else Standing(states, calls, a, n)
  {
    var now, before := Standing(states, calls, a, n + 1), Standing(states, calls, a, n);
    forall i | i in before && !RemovedAt(states, calls, a, n)
      ensures i in now
    {
      assert !exists j :: i < j < n + 1 && RemovedAt(states, calls, a, j);
    }
    forall i | i in now && i < n
      ensures i in before && !RemovedAt(states, calls, a, n)
    {
      assert !exists j :: i < j < n && RemovedAt(states, calls, a, j);
    }
    if RemovedAt(states, calls, a, n) {
      assert !PushedAt(states, calls, a, n);
    } else if PushedAt(states, calls, a, n) {
      assert n in now;
    }
  }

  /**
    Over every run that starts without active branches: a branch is active exactly if it was
    pushed with tainted flags since it was last removed, it carries the union of the taint the
    flags had at those pushes, and that is never empty.
  */
  lemma {:induction false} ControlIsHistory(states: seq<State>, calls: seq<Call>, a: int, n: nat)
    requires IsTrace(states, calls) && n <= |calls| && InControl(a) !in states[0]
    ensures InControl(a) in states[n] <==> Standing(states, calls, a, n) != {}
    ensures InControl(a) in states[n] ==>
              && states[n][InControl(a)] == FlagsOf(states, Standing(states, calls, a, n))
              && states[n][InControl(a)] != {}
  {
    if n > 0 {
      ControlIsHistory(states, calls, a, n - 1);
      ControlStep(states, calls, a, n - 1);
    } else {
      assert Standing(states, calls, a, 0) == {};
    }
  }

  /** The states before, between and after the calls of a run. */
  ghost function States(s: State, calls: seq<Call>): seq<State> {
    seq(|calls| + 1, i requires 0 <= i <= |calls| => Run(s, calls[..i]))
  }

  lemma StatesAreTrace(s: State, calls: seq<Call>)
    ensures IsTrace(States(s, calls), calls) && States(s, calls)[0] == s && States(s, calls)[|calls|] == Run(s, calls)
  {
    forall i | 0 <= i < |calls|
      ensures States(s, calls)[i + 1] == Step(States(s, calls)[i], calls[i])
    {
      assert calls[..i + 1] == calls[..i] + [calls[i]];
      RunAll(s, calls[..i], calls[i]);
    }
    assert calls[..0] == [] && calls[..|calls|] == calls;
  }

  /** The branches active after a run, and their marks, in terms of the states that it went through. */
  lemma RunControlIsHistory(s: State, calls: seq<Call>, a: int)
    requires InControl(a) !in s
    ensures IsTrace(States(s, calls), calls)
    ensures
      var standing := Standing(States(s, calls), calls, a, |calls|);
      && (InControl(a) in Run(s, calls) <==> standing != {})
      && (standing != {} ==> Run(s, calls)[InControl(a)] == FlagsOf(States(s, calls), standing) != {})
  {
    StatesAreTrace(s, calls);
    ControlIsHistory(States(s, calls), calls, a, |calls|);
  }

  lemma ControlStep(states: seq<State>, calls: seq<Call>, a: int, n: nat)
    requires IsTrace(states, calls) && n < |calls|
    requires InControl(a) in states[n] <==> Standing(states, calls, a, n) != {}
    requires InControl(a) in states[n] ==>
               && states[n][InControl(a)] == FlagsOf(states, Standing(states, calls, a, n))
               && states[n][InControl(a)] != {}
    ensures InControl(a) in states[n + 1] <==> Standing(states, calls, a, n + 1) != {}
    ensures InControl(a) in states[n + 1] ==>
              && states[n + 1][InControl(a)] == FlagsOf(states, Standing(states, calls, a, n + 1))
              && states[n + 1][InControl(a)] != {}
  {
    var s, c, p := states[n], calls[n], InControl(a);
    StandingNext(states, calls, a, n);
    if c.PopControl? {
      PopRemoves(s, c, a);
    } else if c == PushControl(a) && Flags(s) != {} {
      PushAdds(s, a);
      FlagsGrow(states, Standing(states, calls, a, n), n);
      assert n in Standing(states, calls, a, n + 1);
    } else if c != PushControl(a) {
      OnlyTargetsChange(s, c, p);
    }
  }

  lemma PushAdds(s: State, a: int)
    requires Flags(s) != {}
    ensures InControl(a) in Step(s, PushControl(a))
    ensures Step(s, PushControl(a))[InControl(a)] == (if InControl(a) in s then s[InControl(a)] else {}) + Flags(s)
  {
    var p, q := InControl(a), InReg(EFLAGS);
    assert {p, q} == {p} + {q};
    OverBoth(s, {p}, {q});
    assert Over(s, {p}) == if p in s then s[p] else {};
  }

  lemma FlagsGrow(states: seq<State>, pushes: set<int>, n: nat)
    requires n < |states|
    ensures FlagsOf(states, pushes + {n}) == FlagsOf(states, pushes) + Flags(states[n])
    ensures FlagsOf(states, {}) == {}
  {
  }
}
