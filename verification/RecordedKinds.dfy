/**
  Which instructions record a key, kind by kind, and which leave sets in the stream instead.
*/
module RecordedKinds {
  import opened TaintState
  import opened Handlers
  import opened Meanings
  import ProfilingKeys
  import opened ProfiledStores
  import opened ProfiledPrograms

  /** A store that ends a key if it is profiled: any but one to the stack or frame pointer. */
  ghost predicate EndsKey(c: Call) {
    c.ClearReg? || c.SetMem? || c.ClearMem? || (c.SetReg? && !IsFrame(c.reg))
  }

  ghost predicate RecordsIn(e: Emitted) {
    exists i :: 0 <= i < |e.calls| && e.toProfile[i] && EndsKey(e.calls[i])
  }

  lemma ProfilesRecordIff(z: Settings, x: Instruction, opcode: nat)
    ensures RecordsSome(z, Profiles(x, opcode)) <==> z.markop && RecordsIn(Emits(x))
  {
    var ls, e := Profiles(x, opcode), Emits(x);
    assert forall i :: 0 <= i < |ls| ==> (Records(z, ls[i]) <==> z.markop && e.toProfile[i] && EndsKey(e.calls[i]));
  }

  /**
    What a call does to the profile: a profiled store that is not skipped counts the sets pending and
    control's, and empties the stream; a load adds what it prints; any other call does nothing.
  */
  lemma ProfileIs(z: Settings, p: ProfilingKeys.Prof, s: State, l: Profiled)
    ensures
      var q := Profile(z, p, s, l);
      if z.markop && l.toProfile && EndsKey(l.call) then
        q.pending == [] && q.log == p.log + [ProfilingKeys.Entry(p.pending + ControlShown(s), l.opcode)]
      else q.log == p.log && q.pending == if IsLoad(l.call) then p.pending + Printed(z, s, l) else p.pending
  {
  }

  lemma ThenRecordsIff(a: Emitted, b: Emitted)
    ensures RecordsIn(Then(a, b)) <==> RecordsIn(a) || (a.ending.Done? && RecordsIn(b))
  {
    if a.ending.Done? {
      var e, n := Then(a, b), |a.calls|;
      assert forall i :: 0 <= i < n ==> e.calls[i] == a.calls[i] && e.toProfile[i] == a.toProfile[i];
      forall i | 0 <= i < |b.calls|
        ensures e.calls[n + i] == b.calls[i] && e.toProfile[n + i] == b.toProfile[i]
      {
      }
      if RecordsIn(e) && !RecordsIn(a) {
        var i :| 0 <= i < |e.calls| && e.toProfile[i] && EndsKey(e.calls[i]);
        assert b.toProfile[i - n] && EndsKey(b.calls[i - n]);
      }
    }
  }

  lemma OneRecordsIff(c: DataFlow)
    ensures RecordsIn(Emit(c)) <==> EndsKey(c)
    ensures !RecordsIn(EmitQuietly(c))
  {
    assert Emit(c).toProfile[0] && Emit(c).calls[0] == c;
  }

  lemma LoadsRecordNothing(e: Emitted)
    requires OnlyLoads(e)
    ensures !RecordsIn(e)
  {
  }

  /** A store to the operand is made, and it is not one to the stack or frame pointer. */
  ghost predicate Recordable(op: Operand, write: Access) {
    Writable(op, write) && !(op.RegOp? && IsFrame(op.reg))
  }

  lemma PutRecordsIff(op: Operand, write: Access, args: seq<Scratch>)
    ensures RecordsIn(Put(op, write, args)) <==> Recordable(op, write)
    ensures Put(op, write, args).ending.Done? <==> Writable(op, write)
  {
    match op
    case RegOp(r) => OneRecordsIff(SetReg(r, args));
    case MemOp(_, _) =>
      if write.Range? {
        OneRecordsIff(SetMem(write.start, write.size, args));
      }
    case _ =>
  }

  lemma FetchEnds(op: Operand, read: Access, n: Scratch, immediate: bool)
    ensures !RecordsIn(Fetch(op, read, n)) && (Fetch(op, read, n).ending.Done? <==> Readable(op, read))
    ensures !RecordsIn(FetchAny(op, read, n)) && (FetchAny(op, read, n).ending.Done? <==> ReadableOrImm(op, read))
    ensures !RecordsIn(FetchNoMemory(op, n, immediate))
    ensures FetchNoMemory(op, n, immediate).ending.Done? <==> op.RegOp? || (op.ImmOp? && immediate)
  {
    Fetching(op, read, n, immediate);
    LoadsRecordNothing(Fetch(op, read, n));
    LoadsRecordNothing(FetchAny(op, read, n));
    LoadsRecordNothing(FetchNoMemory(op, n, immediate));
  }

  /** Two loads, then the stores. */
  lemma AfterLoads(a: Emitted, b: Emitted, stores: Emitted)
    requires !RecordsIn(a) && !RecordsIn(b)
    ensures RecordsIn(Then(a, Then(b, stores))) <==> a.ending.Done? && b.ending.Done? && RecordsIn(stores)
  {
    ThenRecordsIff(b, stores);
    ThenRecordsIff(a, Then(b, stores));
  }

  lemma AfterLoad(a: Emitted, stores: Emitted)
    requires !RecordsIn(a)
    ensures RecordsIn(Then(a, stores)) <==> a.ending.Done? && RecordsIn(stores)
  {
    ThenRecordsIff(a, stores);
  }

  lemma RegLoads(r: Reg, n: Scratch)
    ensures !RecordsIn(FetchReg(r, n)) && FetchReg(r, n).ending.Done?
  {
    OneRecordsIff(LoadReg(r, n));
  }

  /** A profiled store, then one that is not. */
  lemma QuietlyAfter(first: Emitted, c: DataFlow)
    ensures RecordsIn(Then(first, EmitQuietly(c))) <==> RecordsIn(first)
  {
    OneRecordsIff(c);
    ThenRecordsIff(first, EmitQuietly(c));
  }

  lemma ThroughRecordsIff(op: Operand, write: Access, n: Scratch)
    ensures RecordsIn(PutThrough(op, write, n)) <==> Recordable(op, write)
  {
    PutRecordsIff(op, write, [n]);
    PutRecordsIff(op, write, [n, Base, Idx]);
    if op.MemOp? {
      RegLoads(op.base, Base);
      RegLoads(op.index, Idx);
      AfterLoads(FetchReg(op.base, Base), FetchReg(op.index, Idx), Put(op, write, [n, Base, Idx]));
    }
  }

  // ------------------------------------------------------ kind by kind

  lemma AdcRecordsIff(i: Instr)
    ensures RecordsIn(ADC(i)) <==> Arithmetic(i) && Recordable(i.op0, i.write)
  {
    var args := [Dest, Src, Eflags];
    var put := Put(i.op0, i.write, args);
    var stores := Then(put, EmitQuietly(SetReg(EFLAGS, args)));
    FetchEnds(i.op0, i.read, Dest, true);
    FetchEnds(i.op1, i.read, Src, true);
    RegLoads(EFLAGS, Eflags);
    PutRecordsIff(i.op0, i.write, args);
    QuietlyAfter(put, SetReg(EFLAGS, args));
    AfterLoad(FetchReg(EFLAGS, Eflags), stores);
    AfterLoads(Fetch(i.op0, i.read, Dest), FetchAny(i.op1, i.read, Src), Then(FetchReg(EFLAGS, Eflags), stores));
  }

  lemma AddRecordsIff(i: Instr)
    ensures RecordsIn(ADD(i)) <==> Arithmetic(i) && Recordable(i.op0, i.write)
  {
    var args := [Dest, Src];
    FetchEnds(i.op0, i.read, Dest, true);
    FetchEnds(i.op1, i.read, Src, true);
    PutRecordsIff(i.op0, i.write, args);
    QuietlyAfter(Put(i.op0, i.write, args), SetReg(EFLAGS, args));
    AfterLoads(Fetch(i.op0, i.read, Dest), FetchAny(i.op1, i.read, Src),
               Then(Put(i.op0, i.write, args), EmitQuietly(SetReg(EFLAGS, args))));
  }

  lemma XorRecordsIff(i: Instr)
    ensures RecordsIn(XOR(i)) <==> Arithmetic(i) && (Recordable(i.op0, i.write) || i.op1 == i.op0)
  {
    var args := [Dest, Src];
    var first := if i.op0.RegOp? && i.op1 == i.op0 then Emit(ClearReg(i.op0.reg)) else Put(i.op0, i.write, args);
    FetchEnds(i.op0, i.read, Dest, true);
    FetchEnds(i.op1, i.read, Src, true);
    PutRecordsIff(i.op0, i.write, args);
    if i.op0.RegOp? {
      OneRecordsIff(ClearReg(i.op0.reg));
    }
    QuietlyAfter(first, SetReg(EFLAGS, args));
    AfterLoads(Fetch(i.op0, i.read, Dest), FetchAny(i.op1, i.read, Src),
               Then(first, EmitQuietly(SetReg(EFLAGS, args))));
  }

  lemma SarRecordsIff(i: Instr)
    ensures RecordsIn(SAR(i)) <==> Readable(i.op0, i.read) && RegOrImm(i.op1) && Recordable(i.op0, i.write)
  {
    var args := [Dest, Cnt];
    FetchEnds(i.op0, i.read, Dest, true);
    FetchEnds(i.op1, i.read, Cnt, true);
    PutRecordsIff(i.op0, i.write, args);
    QuietlyAfter(Put(i.op0, i.write, args), SetReg(EFLAGS, args));
    AfterLoads(Fetch(i.op0, i.read, Dest), FetchNoMemory(i.op1, Cnt, true),
               Then(Put(i.op0, i.write, args), EmitQuietly(SetReg(EFLAGS, args))));
  }

  lemma XaddRecordsIff(i: Instr)
    ensures RecordsIn(XADD(i)) <==>
            && Readable(i.op0, i.read) && i.op1.RegOp? && Writable(i.op0, i.write)
            && (Recordable(i.op0, i.write) || !IsFrame(i.op1.reg))
  {
    var args := [Dest, Src];
    var copy := if i.op1.RegOp? then Emit(SetReg(i.op1.reg, [Dest])) else ABORT;
    var rest := Then(copy, EmitQuietly(SetReg(EFLAGS, args)));
    FetchEnds(i.op0, i.read, Dest, true);
    FetchEnds(i.op1, i.read, Src, false);
    PutRecordsIff(i.op0, i.write, args);
    if i.op1.RegOp? {
      OneRecordsIff(SetReg(i.op1.reg, [Dest]));
    }
    QuietlyAfter(copy, SetReg(EFLAGS, args));
    ThenRecordsIff(Put(i.op0, i.write, args), rest);
    AfterLoads(Fetch(i.op0, i.read, Dest), FetchNoMemory(i.op1, Src, false), Then(Put(i.op0, i.write, args), rest));
  }

  lemma XchgRecordsIff(i: Instr)
    ensures RecordsIn(XCHG(i)) <==>
            && Readable(i.op0, i.read) && Readable(i.op1, i.read) && Writable(i.op0, i.write)
            && (Recordable(i.op0, i.write) || Recordable(i.op1, i.write))
  {
    var a, b := Put(i.op0, i.write, [Src]), Put(i.op1, i.write, [Dest]);
    FetchEnds(i.op0, i.read, Dest, true);
    FetchEnds(i.op1, i.read, Src, true);
    PutRecordsIff(i.op0, i.write, [Src]);
    PutRecordsIff(i.op1, i.write, [Dest]);
    ThenRecordsIff(a, b);
    AfterLoads(Fetch(i.op0, i.read, Dest), Fetch(i.op1, i.read, Src), Then(a, b));
  }

  /** Handlers that store to the flags alone. */
  lemma FlagsRecordIff(i: Instr)
    ensures RecordsIn(CMP(i)) <==> Readable(i.op0, i.read) && ReadableOrImm(i.op1, i.read)
    ensures RecordsIn(TEST(i)) <==> Readable(i.op0, i.read) && RegOrImm(i.op1)
    ensures RecordsIn(DEC(i)) <==> Readable(i.op0, i.read)
  {
    var a, both := Fetch(i.op0, i.read, Dest), Emit(SetReg(EFLAGS, [Dest, Src]));
    FetchEnds(i.op0, i.read, Dest, true);
    FetchEnds(i.op1, i.read, Src, true);
    OneRecordsIff(SetReg(EFLAGS, [Dest, Src]));
    OneRecordsIff(SetReg(EFLAGS, [Dest]));
    AfterLoads(a, FetchAny(i.op1, i.read, Src), both);
    AfterLoads(a, FetchNoMemory(i.op1, Src, true), both);
    AfterLoad(a, Emit(SetReg(EFLAGS, [Dest])));
  }

  lemma DividingRecordsIff(a: Emitted, b: Emitted, c: Emitted)
    requires !RecordsIn(a) && !RecordsIn(b) && b.ending.Done? && !RecordsIn(c) && c.ending.Done?
    ensures
      var args := [Eax, Edx, Src];
      var stores := Then(Emit(SetReg(EAX, args)), Then(EmitQuietly(SetReg(EDX, args)), Emit(ClearReg(EFLAGS))));
      RecordsIn(Then(a, Then(b, Then(c, stores)))) <==> a.ending.Done?
  {
    var args := [Eax, Edx, Src];
    var rest := Then(EmitQuietly(SetReg(EDX, args)), Emit(ClearReg(EFLAGS)));
    OneRecordsIff(SetReg(EAX, args));
    ThenRecordsIff(Emit(SetReg(EAX, args)), rest);
    AfterLoad(c, Then(Emit(SetReg(EAX, args)), rest));
    AfterLoads(a, b, Then(c, Then(Emit(SetReg(EAX, args)), rest)));
  }

  lemma DivRecordsIff(i: Instr)
    ensures RecordsIn(DIV(i)) <==> i.width == 32 && Readable(i.op0, i.read)
    ensures RecordsIn(IDIV(i)) <==> i.width == 32 && Readable(i.op0, i.read)
  {
    FetchEnds(i.op0, i.read, Src, true);
    RegLoads(EAX, Eax);
    RegLoads(EDX, Edx);
    DividingRecordsIff(Fetch(i.op0, i.read, Src), FetchReg(EAX, Eax), FetchReg(EDX, Edx));
    DividingRecordsIff(Fetch(i.op0, i.read, Src), FetchReg(EDX, Edx), FetchReg(EAX, Eax));
  }

  lemma MulRecordsIff(i: Instr)
    ensures RecordsIn(MUL(i)) <==> i.width == 32 && Readable(i.op0, i.read)
  {
    var args := [Eax, Src];
    var rest := Then(EmitQuietly(SetReg(EDX, args)), EmitQuietly(SetReg(EFLAGS, args)));
    FetchEnds(i.op0, i.read, Src, true);
    RegLoads(EAX, Eax);
    OneRecordsIff(SetReg(EAX, args));
    ThenRecordsIff(Emit(SetReg(EAX, args)), rest);
    AfterLoads(Fetch(i.op0, i.read, Src), FetchReg(EAX, Eax), Then(Emit(SetReg(EAX, args)), rest));
  }

  lemma MovRecordsIff(i: Instr)
    ensures RecordsIn(MOV(i)) <==> ReadableOrImm(i.op1, i.read) && Recordable(i.op0, i.write)
  {
    FetchEnds(i.op1, i.read, Src, true);
    ThroughRecordsIff(i.op0, i.write, Src);
    AfterLoad(FetchAny(i.op1, i.read, Src), PutThrough(i.op0, i.write, Src));
  }

  lemma PushRecordsIff(i: Instr)
    ensures RecordsIn(PUSH(i)) <==> ReadableOrImm(i.op0, i.read) && i.write.Range?
  {
    var store := if i.write.Unknown? then BAIL else Emit(SetMem(i.write.start, i.write.size, [Src]));
    FetchEnds(i.op0, i.read, Src, true);
    if i.write.Range? {
      OneRecordsIff(SetMem(i.write.start, i.write.size, [Src]));
    }
    AfterLoad(FetchAny(i.op0, i.read, Src), store);
  }

  lemma PopRecordsIff(i: Instr)
    ensures RecordsIn(POP(i)) <==> i.read.Range? && Recordable(i.op0, i.write)
  {
    if i.read.Range? {
      var load := LoadMem(i.read.start, i.read.size, Invalid, Invalid, Src);
      OneRecordsIff(load);
      ThroughRecordsIff(i.op0, i.write, Src);
      AfterLoad(Emit(load), PutThrough(i.op0, i.write, Src));
    }
  }

  lemma LeaRecordsIff(dest: Reg, base: Reg, index: Reg)
    ensures RecordsIn(LEA(dest, base, index)) <==> !IsFrame(dest)
  {
    RegLoads(base, Base);
    RegLoads(index, Idx);
    OneRecordsIff(SetReg(dest, [Base, Idx]));
    AfterLoads(FetchReg(base, Base), FetchReg(index, Idx), Emit(SetReg(dest, [Base, Idx])));
  }

  /** When an instruction records, going by its operands. */
  ghost predicate IsRecorded(x: Instruction) {
    match x
    case AddressOf(dest, _, _) => !IsFrame(dest)
    case Plain(kind, i) =>
      var first, any := Readable(i.op0, i.read), ReadableOrImm(i.op1, i.read);
      match kind
      case KADC => Arithmetic(i) && Recordable(i.op0, i.write)
      case KADD => Arithmetic(i) && Recordable(i.op0, i.write)
      case KCMP => first && any
      case KDEC => first
      case KDIV => i.width == 32 && first
      case KIDIV => i.width == 32 && first
      case KMOV => any && Recordable(i.op0, i.write)
      case KMUL => i.width == 32 && first
      case KPOP => i.read.Range? && Recordable(i.op0, i.write)
      case KPUSH => ReadableOrImm(i.op0, i.read) && i.write.Range?
      case KSAR => first && RegOrImm(i.op1) && Recordable(i.op0, i.write)
      case KTEST => first && RegOrImm(i.op1)
      case KXADD =>
        && first && i.op1.RegOp? && Writable(i.op0, i.write)
        && (Recordable(i.op0, i.write) || !IsFrame(i.op1.reg))
      case KXCHG =>
        && first && Readable(i.op1, i.read) && Writable(i.op0, i.write)
        && (Recordable(i.op0, i.write) || Recordable(i.op1, i.write))
      case KXOR => Arithmetic(i) && (Recordable(i.op0, i.write) || i.op1 == i.op0)
  }

  lemma EmitsRecordsIff(x: Instruction)
    ensures RecordsIn(Emits(x)) <==> IsRecorded(x)
  {
    match x
    case AddressOf(dest, base, index) => LeaRecordsIff(dest, base, index);
    case Plain(kind, i) =>
      match kind
      case KADC => AdcRecordsIff(i);
      case KADD => AddRecordsIff(i);
      case KXOR => XorRecordsIff(i);
      case KSAR => SarRecordsIff(i);
      case KXADD => XaddRecordsIff(i);
      case KXCHG => XchgRecordsIff(i);
      case KDIV => DivRecordsIff(i);
      case KIDIV => DivRecordsIff(i);
      case KMUL => MulRecordsIff(i);
      case KMOV => MovRecordsIff(i);
      case KPUSH => PushRecordsIff(i);
      case KPOP => PopRecordsIff(i);
      case _ => FlagsRecordIff(i);
  }

  /** Every kind of instruction: it records a key exactly if its operands let it come to a store that is not skipped. */
  lemma RecordsIff(z: Settings, x: Instruction, opcode: nat)
    ensures RecordsSome(z, Profiles(x, opcode)) <==> z.markop && IsRecorded(x)
  {
    ProfilesRecordIff(z, x, opcode);
    EmitsRecordsIff(x);
  }

  // ------------------------------------------------------ what leaks

  lemma {:induction false} SameBytesShown(z: Settings, s: State, t: State, start: int, n: nat)
    requires Visible(s) == Visible(t)
    ensures BytesShown(z, s, start, n) == BytesShown(z, t, start, n)
    decreases n
  {
    if n > 0 {
      SameBytesShown(z, s, t, start, n - 1);
      SameShown(s, t, InMem(start + n - 1));
    }
  }

  lemma SameShown(s: State, t: State, p: Place)
    requires Visible(s) == Visible(t) && !p.InScratch?
    ensures Shown(s, p) == Shown(t, p)
  {
    assert p in s <==> p in Visible(s);
    assert p in t <==> p in Visible(t);
  }

  lemma LoadPrintsTheSame(z: Settings, s: State, t: State, l: Profiled)
    requires Visible(s) == Visible(t) && IsLoad(l.call)
    ensures Printed(z, s, l) == Printed(z, t, l)
  {
    match l.call {
      case LoadReg(r, _) => OverVisible(s, t, {InReg(r)});
      case LoadMem(start, size, base, index, _) =>
        SameBytesShown(z, s, t, start, size);
        SameShown(s, t, InReg(base));
        SameShown(s, t, InReg(index));
      case _ =>
    }
  }

  lemma {:induction false} LoadsKeepVisible(s: State, calls: seq<Call>)
    requires forall i :: 0 <= i < |calls| ==> IsLoad(calls[i])
    ensures Visible(Run(s, calls)) == Visible(s)
    decreases |calls|
  {
    if calls != [] {
      var n := |calls| - 1;
      LoadsKeepVisible(s, calls[..n]);
      LoadStep(Run(s, calls[..n]), calls[n]);
    }
  }

  /** A call of the sequence prints something. */
  ghost predicate PrintsSome(z: Settings, s: State, ls: seq<Profiled>) {
    exists i :: 0 <= i < |ls| && Printed(z, s, ls[i]) != []
  }

  lemma LastPrints(z: Settings, s: State, ls: seq<Profiled>)
    requires ls != [] && LoadsFirst(CallsIn(ls)) && !Records(z, ls[|ls| - 1])
    ensures
      var n := |ls| - 1;
      Printed(z, Run(s, CallsIn(ls[..n])), ls[n]) == Printed(z, s, ls[n])
  {
    var n := |ls| - 1;
    if IsLoad(ls[n].call) {
      var before := CallsIn(ls[..n]);
      forall i | 0 <= i < |before|
        ensures IsLoad(before[i])
      {
        assert before[i] == CallsIn(ls)[i] && CallsIn(ls)[n] == ls[n].call;
      }
      LoadsKeepVisible(s, before);
      LoadPrintsTheSame(z, s, Run(s, before), ls[n]);
    }
  }

  lemma PrintsNext(z: Settings, s: State, first: seq<Profiled>, l: Profiled)
    ensures PrintsSome(z, s, first + [l]) <==> PrintsSome(z, s, first) || Printed(z, s, l) != []
    ensures RecordsSome(z, first + [l]) <==> RecordsSome(z, first) || Records(z, l)
  {
    var ls, n := first + [l], |first|;
    assert ls[n] == l && forall i :: 0 <= i < n ==> ls[i] == first[i];
  }

  lemma FirstLoadsFirst(first: seq<Profiled>, l: Profiled)
    requires LoadsFirst(CallsIn(first + [l]))
    ensures LoadsFirst(CallsIn(first))
  {
    assert CallsIn(first) == CallsIn(first + [l])[..|first|];
  }

  lemma {:induction false} UnrecordedStays(z: Settings, s: State, ls: seq<Profiled>)
    requires LoadsFirst(CallsIn(ls)) && !RecordsSome(z, ls)
    ensures Fresh(z, s, ls).pending != [] <==> PrintsSome(z, s, ls)
    decreases |ls|
  {
    if ls != [] {
      var first, l := ls[..|ls| - 1], ls[|ls| - 1];
      assert ls == first + [l];
      PrintsNext(z, s, first, l);
      FirstLoadsFirst(first, l);
      UnrecordedStays(z, s, first);
      LastPrints(z, s, ls);
      FreshNext(z, s, first, l);
    }
  }

  /**
    Instruction k leaks exactly if its operands keep it from recording, and one of its loads finds
    something to print in the store before it.
  */
  lemma LeaksIff(z: Settings, s: State, trace: seq<Traced>, k: nat)
    requires k < |trace|
    ensures
      Leaks(z, s, trace, k) <==>
      && !(z.markop && IsRecorded(trace[k].x))
      && PrintsSome(z, Before(s, trace, k), Profiles(trace[k].x, trace[k].opcode))
  {
    var ls := Profiles(trace[k].x, trace[k].opcode);
    RecordsIff(z, trace[k].x, trace[k].opcode);
    LoadsComeFirst(trace[k].x);
    CallsOfProfiles(trace[k].x, trace[k].opcode);
    if !RecordsSome(z, ls) {
      UnrecordedStays(z, Before(s, trace, k), ls);
    }
  }
}
