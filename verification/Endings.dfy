/**
  How handlers end, going by the operands alone: which instructions abort the program and which a
  handler merely leaves, so that the next instruction is instrumented all the same.
*/
module Endings {
  import opened TaintState
  import opened Handlers
  import opened Meanings

  /** Neither a register nor memory. */
  predicate IsUnhandled(op: Operand) {
    op.ImmOp? || op.OtherOp?
  }

  /** Memory whose address is not known. */
  predicate IsLost(op: Operand, access: Access) {
    op.MemOp? && access.Unknown?
  }

  /** The first operand is of no kind that the handler knows, or, the first having been loaded, the second is. */
  predicate AbortsLoading(i: Instr) {
    IsUnhandled(i.op0) || (!IsLost(i.op0, i.read) && i.op1.OtherOp?)
  }

  /** As AbortsLoading, for handlers that take no memory as second operand. */
  predicate AbortsOnMemory(i: Instr) {
    IsUnhandled(i.op0) || (!IsLost(i.op0, i.read) && !i.op1.RegOp? && !i.op1.ImmOp?)
  }

  /** The instruction's handler aborts the program. */
  predicate Aborts(x: Instruction) {
    match x
    case AddressOf(_, _, _) => false
    case Plain(kind, i) =>
      match kind
      case KADC => AbortsLoading(i)
      case KADD => AbortsLoading(i)
      case KCMP => AbortsLoading(i)
      case KDEC => IsUnhandled(i.op0)
      case KDIV => i.width != 32 || IsUnhandled(i.op0)
      case KIDIV => i.width != 32 || IsUnhandled(i.op0)
      case KMOV => i.op1.OtherOp? || (!IsLost(i.op1, i.read) && IsUnhandled(i.op0))
      case KMUL => i.width != 32 || IsUnhandled(i.op0)
      case KPOP => i.read.Range? && IsUnhandled(i.op0)
      case KPUSH => i.op0.OtherOp?
      case KSAR => AbortsOnMemory(i)
      case KTEST => AbortsOnMemory(i)
      case KXADD => IsUnhandled(i.op0) || (!IsLost(i.op0, i.read) && !i.op1.RegOp?)
      case KXCHG => IsUnhandled(i.op0) || (!IsLost(i.op0, i.read) && IsUnhandled(i.op1))
      case KXOR => AbortsLoading(i)
  }

  /** The handler bails out: memory that it reads or writes next is not to be found. */
  predicate Returns(x: Instruction) {
    match x
    case AddressOf(_, _, _) => false
    case Plain(kind, i) =>
      var loses, loses1, puts := IsLost(i.op0, i.read), IsLost(i.op1, i.read), IsLost(i.op0, i.write);
      !Aborts(x) &&
      match kind
      case KADC => loses || loses1 || puts
      case KADD => loses || loses1 || puts
      case KCMP => loses || loses1
      case KDEC => loses
      case KDIV => loses
      case KIDIV => loses
      case KMOV => loses1 || puts
      case KMUL => loses
      case KPOP => i.read.Unknown? || puts
      case KPUSH => loses || i.write.Unknown?
      case KSAR => loses || puts
      case KTEST => loses
      case KXADD => loses || puts
      case KXCHG => loses || loses1 || puts || IsLost(i.op1, i.write)
      case KXOR => loses || loses1 || puts
  }

  /** How an instruction's handler ends, by its operands. */
  function EndingOf(x: Instruction): Ending {
    if Aborts(x) then Aborted else if Returns(x) then Returned else Done
  }

  lemma FetchEnds(op: Operand, read: Access, n: Scratch)
    ensures Fetch(op, read, n).ending ==
            if IsUnhandled(op) then Aborted else if IsLost(op, read) then Returned else Done
    ensures FetchAny(op, read, n).ending ==
            if op.OtherOp? then Aborted else if IsLost(op, read) then Returned else Done
    ensures FetchNoMemory(op, n, true).ending == if op.RegOp? || op.ImmOp? then Done else Aborted
    ensures FetchNoMemory(op, n, false).ending == if op.RegOp? then Done else Aborted
  {
  }

  lemma PutEnds(op: Operand, write: Access, args: seq<Scratch>, n: Scratch)
    ensures Put(op, write, args).ending ==
            if IsUnhandled(op) then Aborted else if IsLost(op, write) then Returned else Done
    ensures PutThrough(op, write, n).ending ==
            if IsUnhandled(op) then Aborted else if IsLost(op, write) then Returned else Done
  {
  }

  /** Two operands, a store to the first and one to the flags. */
  lemma ArithmeticEnds(i: Instr)
    ensures ADD(i).ending == EndingOf(Plain(KADD, i))
    ensures ADC(i).ending == EndingOf(Plain(KADC, i))
    ensures XOR(i).ending == EndingOf(Plain(KXOR, i))
  {
    FetchEnds(i.op0, i.read, Dest);
    FetchEnds(i.op1, i.read, Src);
    PutEnds(i.op0, i.write, [Dest, Src], Src);
    PutEnds(i.op0, i.write, [Dest, Src, Eflags], Src);
  }

  lemma NoMemoryEnds(i: Instr)
    ensures SAR(i).ending == EndingOf(Plain(KSAR, i))
    ensures TEST(i).ending == EndingOf(Plain(KTEST, i))
  {
    FetchEnds(i.op0, i.read, Dest);
    FetchEnds(i.op1, i.read, Src);
    FetchEnds(i.op1, i.read, Cnt);
    PutEnds(i.op0, i.write, [Dest, Cnt], Src);
  }

  lemma XaddEnds(i: Instr)
    ensures XADD(i).ending == EndingOf(Plain(KXADD, i))
  {
    FetchEnds(i.op0, i.read, Dest);
    FetchEnds(i.op1, i.read, Src);
    PutEnds(i.op0, i.write, [Dest, Src], Src);
  }

  lemma XchgEnds(i: Instr)
    ensures XCHG(i).ending == EndingOf(Plain(KXCHG, i))
  {
    FetchEnds(i.op0, i.read, Dest);
    FetchEnds(i.op1, i.read, Src);
    PutEnds(i.op0, i.write, [Src], Src);
    PutEnds(i.op1, i.write, [Dest], Dest);
  }

  lemma WideEnds(i: Instr)
    ensures DIV(i).ending == EndingOf(Plain(KDIV, i))
    ensures IDIV(i).ending == EndingOf(Plain(KIDIV, i))
    ensures MUL(i).ending == EndingOf(Plain(KMUL, i))
  {
    FetchEnds(i.op0, i.read, Src);
  }

  lemma MovesEnd(i: Instr)
    ensures MOV(i).ending == EndingOf(Plain(KMOV, i))
    ensures PUSH(i).ending == EndingOf(Plain(KPUSH, i))
    ensures POP(i).ending == EndingOf(Plain(KPOP, i))
  {
    FetchEnds(i.op0, i.read, Src);
    FetchEnds(i.op1, i.read, Src);
    PutEnds(i.op0, i.write, [Src], Src);
  }

  lemma FlagsEnd(i: Instr)
    ensures CMP(i).ending == EndingOf(Plain(KCMP, i))
    ensures DEC(i).ending == EndingOf(Plain(KDEC, i))
  {
    FetchEnds(i.op0, i.read, Dest);
    FetchEnds(i.op1, i.read, Src);
  }

  /** For every kind: how the handler ends is what its operands say. */
  lemma EmitsEnds(x: Instruction)
    ensures Emits(x).ending == EndingOf(x)
  {
    match x
    case AddressOf(_, _, _) =>
    case Plain(kind, i) =>
      match kind
      case KADC => ArithmeticEnds(i);
      case KADD => ArithmeticEnds(i);
      case KXOR => ArithmeticEnds(i);
      case KSAR => NoMemoryEnds(i);
      case KTEST => NoMemoryEnds(i);
      case KXADD => XaddEnds(i);
      case KDIV => WideEnds(i);
      case KIDIV => WideEnds(i);
      case KMUL => WideEnds(i);
      case KMOV => MovesEnd(i);
      case KPUSH => MovesEnd(i);
      case KPOP => MovesEnd(i);
      case KXCHG => XchgEnds(i);
      case KCMP => FlagsEnd(i);
      case KDEC => FlagsEnd(i);
  }
}
