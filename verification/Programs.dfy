/**
  Whole sequences of instructions: the calls that the handlers emit for them, run one after
  another on the store, do what the instructions' transfers say, and nothing that one
  instruction leaves in a scratch set reaches another.
*/
module Programs {
  import opened TaintState
  import opened TaintStores
  import opened Handlers
  import opened Meanings
  import opened Transfers
  import opened Endings
  import TaintRuns

  /** Every handler's calls make its instruction's transfer. */
  lemma HandlersAreRight(x: Instruction, s: State)
    ensures Visible(Run(s, Emits(x).calls)) == Means(x, s)
  {
    match x
    case AddressOf(dest, base, index) => LeaTransfers(dest, base, index, s);
    case Plain(kind, i) =>
      match kind
      case KADC => AdcTransfers(i, s);
      case KADD => AddTransfers(i, s);
      case KCMP => CmpTransfers(i, s);
      case KDEC => DecTransfers(i, s);
      case KDIV => DivTransfers(i, s);
      case KIDIV => IdivTransfers(i, s);
      case KMOV => MovTransfers(i, s);
      case KMUL => MulTransfers(i, s);
      case KPOP => PopTransfers(i, s);
      case KPUSH => PushTransfers(i, s);
      case KSAR => SarTransfers(i, s);
      case KTEST => TestTransfers(i, s);
      case KXADD => XaddTransfers(i, s);
      case KXCHG => XchgTransfers(i, s);
      case KXOR => XorTransfers(i, s);
  }

  // ------------------------------------------------------ programs

  ghost function CallsOf(program: seq<Instruction>): seq<DataFlow> {
    if program == [] then [] else CallsOf(program[..|program| - 1]) + Emits(program[|program| - 1]).calls
  }

  ghost function MeansEach(program: seq<Instruction>, s: State): State {
    if program == [] then Visible(s)
    else Means(program[|program| - 1], MeansEach(program[..|program| - 1], s))
  }

  function Instrumented(program: seq<Instruction>): seq<Emitted> {
    seq(|program|, i requires 0 <= i < |program| => Emits(program[i]))
  }

  /** The first instruction whose operands make its handler abort is number n; if there is none, n is their number. */
  ghost predicate StopsAt(program: seq<Instruction>, n: nat) {
    && n <= |program| && (n < |program| ==> Aborts(program[n]))
    && forall i :: 0 <= i < n ==> !Aborts(program[i])
  }

  /** How many instructions run: a handler that aborts ends the process before its instruction does. */
  ghost function Survives(program: seq<Instruction>): (n: nat)
    ensures StopsAt(program, n)
  {
    if program == [] then 0
    else
      var before := Survives(program[..|program| - 1]);
      if before < |program| - 1 || Aborts(program[|program| - 1]) then before else |program|
  }

  ghost function Calls(program: seq<Instruction>): seq<DataFlow> {
    CallsOf(program[..Survives(program)])
  }

  ghost function MeansAll(program: seq<Instruction>, s: State): State {
    MeansEach(program[..Survives(program)], s)
  }

  lemma VisibleTwice(s: State)
    ensures Visible(Visible(s)) == Visible(s)
  {
  }

  lemma TaintIsVisible(s: State, t: State, op: Operand, read: Access)
    requires Visible(s) == Visible(t)
    ensures Taint(s, op, read) == Taint(t, op, read) && Address(s, op) == Address(t, op)
  {
    match op
    case RegOp(r) => OverVisible(s, t, {InReg(r)});
    case MemOp(base, index) =>
      OverVisible(s, t, {InReg(base)});
      OverVisible(s, t, {InReg(index)});
      if read.Range? {
        OverVisible(s, t, Bytes(read.start, read.size) + Registers(Usable(base) + Usable(index)));
      }
    case _ =>
  }

  /** Everything that an instruction can read is the same. */
  ghost predicate Alike(s: State, t: State, i: Instr) {
    && Visible(s) == Visible(t) && Control(s) == Control(t)
    && Taint(s, i.op0, i.read) == Taint(t, i.op0, i.read) && Address(s, i.op0) == Address(t, i.op0)
    && Taint(s, i.op1, i.read) == Taint(t, i.op1, i.read) && Taint(s, i.op1, Unknown) == Taint(t, i.op1, Unknown)
    && Over(s, {InReg(EFLAGS)}) == Over(t, {InReg(EFLAGS)})
    && Over(s, {InReg(EAX)}) == Over(t, {InReg(EAX)}) && Over(s, {InReg(EDX)}) == Over(t, {InReg(EDX)})
    && (i.read.Range? ==> Over(s, Bytes(i.read.start, i.read.size)) == Over(t, Bytes(i.read.start, i.read.size)))
    && {InReg(EFLAGS)} * s.Keys == {InReg(EFLAGS)} * t.Keys
    && (i.op0.RegOp? ==>
          Registers(Parts(i.op0.reg) + [i.op0.reg]) * s.Keys == Registers(Parts(i.op0.reg) + [i.op0.reg]) * t.Keys)
  }

  lemma SameVisibleIsAlike(s: State, t: State, i: Instr)
    requires Visible(s) == Visible(t)
    ensures Alike(s, t, i)
  {
    SameControl(s, t);
    TaintIsVisible(s, t, i.op0, i.read);
    TaintIsVisible(s, t, i.op1, i.read);
    TaintIsVisible(s, t, i.op1, Unknown);
    OverVisible(s, t, {InReg(EFLAGS)});
    OverVisible(s, t, {InReg(EAX)});
    OverVisible(s, t, {InReg(EDX)});
    if i.read.Range? {
      OverVisible(s, t, Bytes(i.read.start, i.read.size));
    }
    SameKeys(s, t, {InReg(EFLAGS)});
    if i.op0.RegOp? {
      SameKeys(s, t, Registers(Parts(i.op0.reg) + [i.op0.reg]));
    }
  }

  lemma AlikeMeansTheSame(kind: Kind, i: Instr, s: State, t: State)
    requires Alike(s, t, i)
    ensures Means(Plain(kind, i), s) == Means(Plain(kind, i), t)
  {
    match kind
    case KADC =>
    case KADD =>
    case KCMP =>
    case KDEC =>
    case KDIV =>
    case KIDIV =>
    case KMOV =>
    case KMUL =>
    case KPOP =>
    case KPUSH =>
    case KSAR =>
    case KTEST =>
    case KXADD =>
    case KXCHG =>
    case KXOR =>
  }

  /** What an instruction means does not depend on the scratch sets. */
  lemma MeaningIsVisible(x: Instruction, s: State, t: State)
    requires Visible(s) == Visible(t)
    ensures Means(x, s) == Means(x, t)
  {
    match x
    case AddressOf(dest, base, index) =>
      SameControl(s, t);
      OverVisible(s, t, {InReg(base)});
      OverVisible(s, t, {InReg(index)});
    case Plain(kind, i) =>
      SameVisibleIsAlike(s, t, i);
      AlikeMeansTheSame(kind, i, s, t);
  }

  lemma SameKeys(s: State, t: State, places: set<Place>)
    requires Visible(s) == Visible(t) && forall p :: p in places ==> !p.InScratch?
    ensures places * s.Keys == places * t.Keys
  {
    forall p | p in places
      ensures p in s <==> p in t
    {
      assert p in s <==> p in Visible(s);
      assert p in t <==> p in Visible(t);
    }
  }

  lemma {:induction false} SequencesAreRight(program: seq<Instruction>, s: State)
    ensures Visible(Run(s, CallsOf(program))) == MeansEach(program, s)
    decreases |program|
  {
    if program != [] {
      var n := |program| - 1;
      var before, x := program[..n], program[n];
      SequencesAreRight(before, s);
      var t := Run(s, CallsOf(before));
      RunBoth(s, CallsOf(before), Emits(x).calls);
      HandlersAreRight(x, t);
      VisibleTwice(t);
      MeaningIsVisible(x, t, Visible(t));
    }
  }

  /** A program's calls mean what its instructions mean, one after another, up to one whose handler aborts. */
  lemma ProgramsAreRight(program: seq<Instruction>, s: State)
    ensures Visible(Run(s, Calls(program))) == MeansAll(program, s)
  {
    SequencesAreRight(program[..Survives(program)], s);
  }

  /** Marks do not influence each other over whole programs. */
  lemma ProgramsKeepMarksApart(program: seq<Instruction>, s: State, keep: Marks)
    ensures MeansAll(program, TaintRuns.Restrict(s, keep)) == TaintRuns.Restrict(MeansAll(program, s), keep)
  {
    var calls := Calls(program);
    assert TaintRuns.AllDataFlow(calls);
    TaintRuns.MarksAreIndependent(s, calls, keep);
    ProgramsAreRight(program, s);
    ProgramsAreRight(program, TaintRuns.Restrict(s, keep));
    RestrictVisible(Run(s, calls), keep);
  }

  lemma RestrictVisible(s: State, keep: Marks)
    ensures Visible(TaintRuns.Restrict(s, keep)) == TaintRuns.Restrict(Visible(s), keep)
  {
  }

  // ------------------------------------------------------ on the heap

  ghost function Joined(codes: seq<Emitted>): seq<DataFlow> {
    if codes == [] then [] else Joined(codes[..|codes| - 1]) + codes[|codes| - 1].calls
  }

  lemma {:induction false} InstrumentedCalls(program: seq<Instruction>, n: nat)
    requires n <= |program|
    ensures Joined(Instrumented(program)[..n]) == CallsOf(program[..n])
  {
    if n > 0 {
      var codes := Instrumented(program);
      InstrumentedCalls(program, n - 1);
      assert codes[..n][..n - 1] == codes[..n - 1] && program[..n][..n - 1] == program[..n - 1];
    }
  }

  method FindStop(ghost program: seq<Instruction>, codes: seq<Emitted>) returns (n: nat)
    requires codes == Instrumented(program)
    ensures n == Survives(program)
  {
    n := 0;
    while n < |codes| && !codes[n].ending.Aborted?
      invariant n <= |codes| && forall i :: 0 <= i < n ==> !Aborts(program[i])
    {
      EmitsEnds(program[n]);
      n := n + 1;
    }
    if n < |codes| {
      EmitsEnds(program[n]);
    }
    assert StopsAt(program, n);
  }

  /** Runs a program on the store: registers, memory and branches end as its instructions mean. */
  method Execute(store: TaintStore, program: seq<Instruction>) returns (n: nat)
    requires store.Valid()
    modifies store`regTaintMap, store`memTaintMap, store`controlTaintMap
    modifies store`cells, store`arrays, store`state, store.arrays
    ensures n <= |program| && (forall i :: 0 <= i < n ==> !Aborts(program[i])) && (n < |program| ==> Aborts(program[n]))
    ensures store.Valid() && Visible(store.state) == MeansEach(program[..n], old(store.state))
  {
    var codes := Instrumented(program);
    n := FindStop(program, codes);
    RunCodes(store, codes, n);
    InstrumentedCalls(program, n);
    ProgramsAreRight(program, old(store.state));
  }

  method RunCodes(store: TaintStore, codes: seq<Emitted>, n: nat)
    requires store.Valid() && n <= |codes|
    modifies store`regTaintMap, store`memTaintMap, store`controlTaintMap
    modifies store`cells, store`arrays, store`state, store.arrays
    ensures store.Valid() && store.state == Run(old(store.state), Joined(codes[..n]))
  {
    ghost var s := store.state;
    for i := 0 to n
      invariant store.Valid() && store.state == Run(s, Joined(codes[..i]))
      invariant fresh(store.arrays - old(store.arrays))
    {
      ghost var before := store.arrays;
      RunCode(store, codes, i, s);
      assert fresh(store.arrays - before);
    }
  }

  method RunCode(store: TaintStore, codes: seq<Emitted>, n: nat, ghost s: State)
    requires store.Valid() && n < |codes| && store.state == Run(s, Joined(codes[..n]))
    modifies store`regTaintMap, store`memTaintMap, store`controlTaintMap
    modifies store`cells, store`arrays, store`state, store.arrays
    ensures store.Valid() && store.state == Run(s, Joined(codes[..n + 1]))
    ensures fresh(store.arrays - old(store.arrays))
  {
    var calls := codes[n].calls;
    JoinedNext(codes, n);
    RunBoth(s, Joined(codes[..n]), calls);
    assert forall i :: 0 <= i < |calls| ==> IsDataFlow(calls[i]);
    var k := store.PerformAll(calls);
    assert calls[..|calls|] == calls;
  }

  lemma JoinedNext(codes: seq<Emitted>, n: nat)
    requires n < |codes|
    ensures Joined(codes[..n + 1]) == Joined(codes[..n]) + codes[n].calls
  {
    assert codes[..n + 1][..n] == codes[..n];
  }
}
