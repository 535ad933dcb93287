/**
  The instruction handlers as a compiler: each turns an instruction into a sequence of analysis
  calls.  The calls first load the operands' taint into scratch sets and then store unions of
  scratch sets.  Running them is proved to make a simultaneous transfer, one whose right-hand
  sides are all taken from the state before the instruction.
*/
module Handlers {
  import opened TaintState

  datatype Operand = RegOp(reg: Reg) | MemOp(base: Reg, index: Reg) | ImmOp | OtherOp

  /** The memory an instruction touches, if Pin can tell. */
  datatype Access = Unknown | Range(start: int, size: nat)

  datatype Instr = Instr(op0: Operand, op1: Operand, width: nat, read: Access, write: Access)

  /** How a handler ends: it gets to its end, bails out early, or aborts the program. */
  datatype Ending = Done | Returned | Aborted

  /** The calls a handler inserts, and for each the argument to_profile that it passes. */
  datatype Code = Code(calls: seq<DataFlow>, toProfile: seq<bool>, ending: Ending)

  type Emitted = e: Code | |e.toProfile| == |e.calls| witness Code([], [], Done)

  function Then(a: Emitted, b: Emitted): Emitted {
    if a.ending.Done? then Code(a.calls + b.calls, a.toProfile + b.toProfile, b.ending) else a
  }

  function Emit(c: DataFlow): Emitted {
    Code([c], [true], Done)
  }

  /** A call that is not to be profiled. */
  function EmitQuietly(c: DataFlow): Emitted {
    Code([c], [false], Done)
  }

  const BAIL: Emitted := Code([], [], Returned)
  const ABORT: Emitted := Code([], [], Aborted)

  // ------------------------------------------------------ what handlers are made of

  function FetchReg(r: Reg, n: Scratch): Emitted {
    Emit(LoadReg(r, n))
  }

  /** Loads an operand that must be a register or memory. */
  function Fetch(op: Operand, read: Access, n: Scratch): Emitted {
    match op
    case RegOp(r) => FetchReg(r, n)
    case MemOp(base, index) =>
      if read.Unknown? then BAIL else Emit(LoadMem(read.start, read.size, base, index, n))
    case _ => ABORT
  }

  /** Loads an operand that may also be an immediate. */
  function FetchAny(op: Operand, read: Access, n: Scratch): Emitted {
    if op.ImmOp? then Emit(ClearSet(n)) else Fetch(op, read, n)
  }

  /** Loads an operand that must be a register, or an immediate if that is allowed. */
  function FetchNoMemory(op: Operand, n: Scratch, immediate: bool): Emitted {
    if op.ImmOp? && immediate then Emit(ClearSet(n))
    else if op.RegOp? then FetchReg(op.reg, n)
    else ABORT
  }

  function Put(op: Operand, write: Access, args: seq<Scratch>): Emitted {
    match op
    case RegOp(r) => Emit(SetReg(r, args))
    case MemOp(_, _) => if write.Unknown? then BAIL else Emit(SetMem(write.start, write.size, args))
    case _ => ABORT
  }

  /** As Put, but the registers that address the memory taint it as well. */
  function PutThrough(op: Operand, write: Access, n: Scratch): Emitted {
    if op.MemOp? then
      Then(FetchReg(op.base, Base), Then(FetchReg(op.index, Idx), Put(op, write, [n, Base, Idx])))
    else Put(op, write, [n])
  }

  // ------------------------------------------------------ the handlers

  function ADC(i: Instr): Emitted {
    Then(Fetch(i.op0, i.read, Dest),
    Then(FetchAny(i.op1, i.read, Src),
    Then(FetchReg(EFLAGS, Eflags),
    Then(Put(i.op0, i.write, [Dest, Src, Eflags]),
         EmitQuietly(SetReg(EFLAGS, [Dest, Src, Eflags]))))))
  }

  function ADD(i: Instr): Emitted {
    Then(Fetch(i.op0, i.read, Dest),
    Then(FetchAny(i.op1, i.read, Src),
    Then(Put(i.op0, i.write, [Dest, Src]),
         EmitQuietly(SetReg(EFLAGS, [Dest, Src])))))
  }

  function CMP(i: Instr): Emitted {
    Then(Fetch(i.op0, i.read, Dest),
    Then(FetchAny(i.op1, i.read, Src),
         Emit(SetReg(EFLAGS, [Dest, Src]))))
  }

  function TEST(i: Instr): Emitted {
    Then(Fetch(i.op0, i.read, Dest),
    Then(FetchNoMemory(i.op1, Src, true),
         Emit(SetReg(EFLAGS, [Dest, Src]))))
  }

  function DEC(i: Instr): Emitted {
    Then(Fetch(i.op0, i.read, Dest), Emit(SetReg(EFLAGS, [Dest])))
  }

  function DIV(i: Instr): Emitted {
    if i.width != 32 then ABORT else
    Then(Fetch(i.op0, i.read, Src),
    Then(FetchReg(EAX, Eax),
    Then(FetchReg(EDX, Edx),
    Then(Emit(SetReg(EAX, [Eax, Edx, Src])),
    Then(EmitQuietly(SetReg(EDX, [Eax, Edx, Src])),
         Emit(ClearReg(EFLAGS)))))))
  }

  function IDIV(i: Instr): Emitted {
    if i.width != 32 then ABORT else
    Then(Fetch(i.op0, i.read, Src),
    Then(FetchReg(EDX, Edx),
    Then(FetchReg(EAX, Eax),
    Then(Emit(SetReg(EAX, [Eax, Edx, Src])),
    Then(EmitQuietly(SetReg(EDX, [Eax, Edx, Src])),
         Emit(ClearReg(EFLAGS)))))))
  }

  function MUL(i: Instr): Emitted {
    if i.width != 32 then ABORT else
    Then(Fetch(i.op0, i.read, Src),
    Then(FetchReg(EAX, Eax),
    Then(Emit(SetReg(EAX, [Eax, Src])),
    Then(EmitQuietly(SetReg(EDX, [Eax, Src])),
         EmitQuietly(SetReg(EFLAGS, [Eax, Src]))))))
  }

  /** LEA has a register and an address as its operands; it does not look at their kinds. */
  function LEA(dest: Reg, base: Reg, index: Reg): Emitted {
    Then(FetchReg(base, Base),
    Then(FetchReg(index, Idx),
         Emit(SetReg(dest, [Base, Idx]))))
  }

  function MOV(i: Instr): Emitted {
    Then(FetchAny(i.op1, i.read, Src), PutThrough(i.op0, i.write, Src))
  }

  function PUSH(i: Instr): Emitted {
    Then(FetchAny(i.op0, i.read, Src),
         if i.write.Unknown? then BAIL else Emit(SetMem(i.write.start, i.write.size, [Src])))
  }

  function POP(i: Instr): Emitted {
    if i.read.Unknown? then BAIL else
    Then(Emit(LoadMem(i.read.start, i.read.size, Invalid, Invalid, Src)), PutThrough(i.op0, i.write, Src))
  }

  function SAR(i: Instr): Emitted {
    Then(Fetch(i.op0, i.read, Dest),
    Then(FetchNoMemory(i.op1, Cnt, true),
    Then(Put(i.op0, i.write, [Dest, Cnt]),
         EmitQuietly(SetReg(EFLAGS, [Dest, Cnt])))))
  }

  function XADD(i: Instr): Emitted {
    Then(Fetch(i.op0, i.read, Dest),
    Then(FetchNoMemory(i.op1, Src, false),
    Then(Put(i.op0, i.write, [Dest, Src]),
    Then(if i.op1.RegOp? then Emit(SetReg(i.op1.reg, [Dest])) else ABORT,
         EmitQuietly(SetReg(EFLAGS, [Dest, Src]))))))
  }

  function XCHG(i: Instr): Emitted {
    Then(Fetch(i.op0, i.read, Dest),
    Then(Fetch(i.op1, i.read, Src),
    Then(Put(i.op0, i.write, [Src]),
         Put(i.op1, i.write, [Dest]))))
  }

  function XOR(i: Instr): Emitted {
    Then(Fetch(i.op0, i.read, Dest),
    Then(FetchAny(i.op1, i.read, Src),
    Then(if i.op0.RegOp? && i.op1 == i.op0 then Emit(ClearReg(i.op0.reg)) else Put(i.op0, i.write, [Dest, Src]),
         EmitQuietly(SetReg(EFLAGS, [Dest, Src])))))
  }

  // ------------------------------------------------------ loads, then stores

  ghost predicate IsLoad(c: Call) {
    c.ClearSet? || c.LoadReg? || c.LoadMem?
  }

  ghost predicate IsStore(c: Call) {
    c.SetReg? || c.ClearReg? || c.SetMem?
  }

  /** What a load reads: registers and memory, never scratch sets or branches. */
  ghost function Reads(c: Call): set<Place>
    requires IsLoad(c)
  {
    Sources(c, {})
  }

  ghost function Args(c: Call): seq<Scratch> {
    if c.SetReg? || c.SetMem? then c.args else []
  }

  /** Everything but the scratch sets. */
  ghost function Visible(s: State): State {
    map p | p in s && !p.InScratch? :: s[p]
  }

  ghost function Control(s: State): Marks {
    Over(s, Branches(s.Keys))
  }

  /** The scratch sets after the loads. */
  ghost predicate Loaded(s: State, l: State, loads: seq<Call>) {
    && Visible(l) == Visible(s)
    && forall i {:trigger loads[i]} :: 0 <= i < |loads| && IsLoad(loads[i]) ==>
         InScratch(loads[i].name) in l && l[InScratch(loads[i].name)] == Over(s, Reads(loads[i]))
  }

  ghost predicate AreLoads(loads: seq<Call>) {
    && (forall i :: 0 <= i < |loads| ==> IsLoad(loads[i]))
    && forall i, j :: 0 <= i < j < |loads| ==> loads[i].name != loads[j].name
  }

  lemma OverVisible(s: State, t: State, places: set<Place>)
    requires Visible(s) == Visible(t) && forall p :: p in places ==> !p.InScratch?
    ensures Over(s, places) == Over(t, places)
  {
    forall p | p in places
      ensures p in s <==> p in t
      ensures p in s ==> s[p] == t[p]
    {
      assert p in s <==> p in Visible(s);
      assert p in t <==> p in Visible(t);
    }
  }

  lemma SameControl(s: State, t: State)
    requires Visible(s) == Visible(t)
    ensures Control(s) == Control(t) && Branches(s.Keys) == Branches(t.Keys)
  {
    assert Branches(s.Keys) == Branches(Visible(s).Keys);
    assert Branches(t.Keys) == Branches(Visible(t).Keys);
    OverVisible(s, t, Branches(s.Keys));
  }

  lemma LoadStep(s: State, c: Call)
    requires IsLoad(c)
    ensures Step(s, c) == s[InScratch(c.name) := Over(s, Reads(c))] && Visible(Step(s, c)) == Visible(s)
    ensures forall p :: p in Reads(c) ==> !p.InScratch?
  {
    AssignOne(s, {}, InScratch(c.name), Over(s, Reads(c)));
  }

  lemma {:induction false} LoadsLoad(s: State, loads: seq<Call>)
    requires AreLoads(loads)
    ensures Loaded(s, Run(s, loads), loads)
    decreases |loads|
  {
    if loads != [] {
      var n := |loads| - 1;
      var before, c := loads[..n], loads[n];
      LoadsLoad(s, before);
      var l := Run(s, before);
      LoadStep(l, c);
      OverVisible(s, l, Reads(c));
      forall i | 0 <= i < |loads|
        ensures InScratch(loads[i].name) in Step(l, c)
        ensures Step(l, c)[InScratch(loads[i].name)] == Over(s, Reads(loads[i]))
      {
        if i < n {
          assert before[i] == loads[i];
        }
      }
    }
  }

  /** The marks that the loads fetched into these scratch sets, read in the state before them. */
  ghost function Fetched(s: State, loads: seq<Call>, args: seq<Scratch>): Marks {
    set i, m | 0 <= i < |loads| && IsLoad(loads[i]) && loads[i].name in args && m in Over(s, Reads(loads[i])) :: m
  }

  /** The stores, with all values taken from the state s before the instruction. */
  ghost function Effect(s: State, loads: seq<Call>, stores: seq<Call>): State {
    if stores == [] then Visible(s)
    else
      var n := |stores| - 1;
      var before := Effect(s, loads, stores[..n]);
      Assign(before, Targets(stores[n], before.Keys), Fetched(s, loads, Args(stores[n])) + Control(s))
  }

  ghost predicate IsLoaded(loads: seq<Call>, n: Scratch) {
    exists i :: 0 <= i < |loads| && IsLoad(loads[i]) && loads[i].name == n
  }

  ghost predicate AreStores(loads: seq<Call>, stores: seq<Call>) {
    forall i :: 0 <= i < |stores| ==>
      IsStore(stores[i]) && forall n :: n in Args(stores[i]) ==> IsLoaded(loads, n)
  }

  /** Scratch sets and branches are as they were. */
  ghost predicate SameInputs(s: State, t: State) {
    && Branches(s.Keys) == Branches(t.Keys) && Control(s) == Control(t)
    && forall n: Scratch {:trigger InScratch(n)} ::
         (InScratch(n) in s <==> InScratch(n) in t) && (InScratch(n) in s ==> s[InScratch(n)] == t[InScratch(n)])
  }

  lemma FetchedIsScratch(s: State, l: State, loads: seq<Call>, args: seq<Scratch>)
    requires AreLoads(loads) && Loaded(s, l, loads) && forall n :: n in args ==> IsLoaded(loads, n)
    ensures Over(l, Named(args)) == Fetched(s, loads, args)
  {
    forall m | m in Over(l, Named(args))
      ensures m in Fetched(s, loads, args)
    {
      var n :| n in args && InScratch(n) in l && m in l[InScratch(n)];
      var i :| 0 <= i < |loads| && IsLoad(loads[i]) && loads[i].name == n;
      assert m in Over(s, Reads(loads[i]));
    }
    forall m | m in Fetched(s, loads, args)
      ensures m in Over(l, Named(args))
    {
      var i :| 0 <= i < |loads| && IsLoad(loads[i]) && loads[i].name in args && m in Over(s, Reads(loads[i]));
      assert InScratch(loads[i].name) in Named(args);
    }
  }

  lemma StoreStep(t: State, c: Call)
    requires IsStore(c)
    ensures Step(t, c) == Assign(t, Targets(c, t.Keys), Over(t, Named(Args(c))) + Control(t))
    ensures Targets(c, Visible(t).Keys) == Targets(c, t.Keys)
    ensures forall p :: p in Targets(c, t.Keys) ==> p.InReg? || p.InMem?
  {
    OverBoth(t, Named(Args(c)), Branches(t.Keys));
    if c.ClearReg? {
      assert Named([]) + Branches(t.Keys) == Branches(t.Keys);
      assert Named(Args(c)) + Branches(t.Keys) == Sources(c, t.Keys);
    }
  }

  lemma StoreKeepsInputs(t: State, places: set<Place>, v: Marks)
    requires forall p :: p in places ==> p.InReg? || p.InMem?
    ensures SameInputs(t, Assign(t, places, v))
    ensures Visible(Assign(t, places, v)) == Assign(Visible(t), places, v)
  {
    var u := Assign(t, places, v);
    assert Branches(u.Keys) == Branches(t.Keys);
    assert forall p :: p in Branches(t.Keys) ==> u[p] == t[p];
  }

  lemma SameArgs(l: State, t: State, args: seq<Scratch>)
    requires SameInputs(l, t)
    ensures Over(l, Named(args)) == Over(t, Named(args))
  {
  }

  lemma {:induction false} StoresStore(s: State, l: State, loads: seq<Call>, stores: seq<Call>)
    requires AreLoads(loads) && Loaded(s, l, loads) && AreStores(loads, stores)
    ensures Visible(Run(l, stores)) == Effect(s, loads, stores) && SameInputs(l, Run(l, stores))
    decreases |stores|
  {
    if stores != [] {
      var n := |stores| - 1;
      var before, c := stores[..n], stores[n];
      StoresStore(s, l, loads, before);
      var t := Run(l, before);
      StoreStep(t, c);
      SameArgs(l, t, Args(c));
      FetchedIsScratch(s, l, loads, Args(c));
      SameControl(s, l);
      StoreKeepsInputs(t, Targets(c, t.Keys), Over(t, Named(Args(c))) + Control(t));
    }
  }

  /**
    Loads into different scratch sets followed by stores of them make a simultaneous transfer:
    what is stored is what was there before the instruction, also if a store overwrites what
    another one read.
  */
  lemma RunsSimultaneously(s: State, loads: seq<Call>, stores: seq<Call>)
    requires AreLoads(loads) && AreStores(loads, stores)
    ensures Visible(Run(s, loads + stores)) == Effect(s, loads, stores)
  {
    LoadsLoad(s, loads);
    StoresStore(s, Run(s, loads), loads, stores);
    RunBoth(s, loads, stores);
  }
}
