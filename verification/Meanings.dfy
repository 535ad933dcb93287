/**
  What instructions mean for taint, stated on their operands.  Every right-hand side is read in the
  state before the instruction.
*/
module Meanings {
  import opened TaintState
  import opened Handlers

  datatype Kind =
    | KADC | KADD | KCMP | KDEC | KDIV | KIDIV | KMOV | KMUL | KPOP | KPUSH | KSAR | KTEST | KXADD | KXCHG | KXOR

  datatype Instruction = Plain(kind: Kind, i: Instr) | AddressOf(dest: Reg, base: Reg, index: Reg)

  function Emits(x: Instruction): Emitted {
    match x
    case AddressOf(dest, base, index) => LEA(dest, base, index)
    case Plain(kind, i) =>
      match kind
      case KADC => ADC(i)
      case KADD => ADD(i)
      case KCMP => CMP(i)
      case KDEC => DEC(i)
      case KDIV => DIV(i)
      case KIDIV => IDIV(i)
      case KMOV => MOV(i)
      case KMUL => MUL(i)
      case KPOP => POP(i)
      case KPUSH => PUSH(i)
      case KSAR => SAR(i)
      case KTEST => TEST(i)
      case KXADD => XADD(i)
      case KXCHG => XCHG(i)
      case KXOR => XOR(i)
  }

  /** The marks of an operand. */
  ghost function Taint(s: State, op: Operand, read: Access): Marks {
    match op
    case RegOp(r) => Over(s, {InReg(r)})
    case MemOp(base, index) =>
      if read.Unknown? then {}
      else Over(s, Bytes(read.start, read.size) + Registers(Usable(base) + Usable(index)))
    case _ => {}
  }

  /** The places of a register, or none for the stack and frame pointers. */
  ghost function Whole(r: Reg): set<Place> {
    if IsFrame(r) then {} else Registers(Parts(r) + [r])
  }

  ghost function Written(op: Operand, write: Access): set<Place> {
    match op
    case RegOp(r) => Whole(r)
    case MemOp(_, _) => if write.Unknown? then {} else Bytes(write.start, write.size)
    case _ => {}
  }

  ghost predicate Readable(op: Operand, read: Access) {
    op.RegOp? || (op.MemOp? && read.Range?)
  }

  ghost predicate Writable(op: Operand, write: Access) {
    op.RegOp? || (op.MemOp? && write.Range?)
  }

  /** The registers that address a memory operand. */
  ghost function Address(s: State, op: Operand): Marks {
    if op.MemOp? then Over(s, {InReg(op.base)}) + Over(s, {InReg(op.index)}) else {}
  }

  /** The taint of the first operand, of both, and of the flags, each with that of control. */
  ghost function First(s: State, i: Instr): Marks {
    Taint(s, i.op0, i.read) + Control(s)
  }

  ghost function Both(s: State, i: Instr): Marks {
    Taint(s, i.op0, i.read) + Taint(s, i.op1, i.read) + Control(s)
  }

  /** Both, for handlers that take no memory as second operand. */
  ghost function BothNoMemory(s: State, i: Instr): Marks {
    Taint(s, i.op0, i.read) + Taint(s, i.op1, Unknown) + Control(s)
  }

  ghost predicate ReadableOrImm(op: Operand, read: Access) {
    Readable(op, read) || op.ImmOp?
  }

  ghost predicate RegOrImm(op: Operand) {
    op.RegOp? || op.ImmOp?
  }

  // Each of these is the state after an instruction; where a handler bails out, the one before it.

  /** dest, eflags <- dest, src, eflags */
  ghost function AdcMeans(i: Instr, s: State): State {
    if !Arithmetic(i) then Visible(s)
    else Assign(Visible(s), Written(i.op0, i.write) + Whole(EFLAGS),
                Taint(s, i.op0, i.read) + Taint(s, i.op1, i.read) + Over(s, {InReg(EFLAGS)}) + Control(s))
  }

  ghost predicate Arithmetic(i: Instr) {
    Readable(i.op0, i.read) && ReadableOrImm(i.op1, i.read) && Writable(i.op0, i.write)
  }

  /** dest, eflags <- dest, src */
  ghost function AddMeans(i: Instr, s: State): State {
    if !Arithmetic(i) then Visible(s) else Assign(Visible(s), Written(i.op0, i.write) + Whole(EFLAGS), Both(s, i))
  }

  /** eflags <- dest, src */
  ghost function CmpMeans(i: Instr, s: State): State {
    if !(Readable(i.op0, i.read) && ReadableOrImm(i.op1, i.read)) then Visible(s)
    else Assign(Visible(s), {InReg(EFLAGS)}, Both(s, i))
  }

  /** eflags <- dest; the operand keeps its taint. */
  ghost function DecMeans(i: Instr, s: State): State {
    if !Readable(i.op0, i.read) then Visible(s) else Assign(Visible(s), {InReg(EFLAGS)}, First(s, i))
  }

  /** eax, edx <- eax, edx, src; eflags, if they have an entry, get the taint of control alone. */
  ghost function DivMeans(i: Instr, s: State): State {
    if i.width != 32 || !Readable(i.op0, i.read) then Visible(s)
    else
      var v := Taint(s, i.op0, i.read) + Over(s, {InReg(EAX)}) + Over(s, {InReg(EDX)}) + Control(s);
      Assign(Assign(Visible(s), Whole(EAX) + Whole(EDX), v), {InReg(EFLAGS)} * s.Keys, Control(s))
  }

  /** dest <- base, index: the address is computed, memory is not read. */
  ghost function LeaMeans(dest: Reg, base: Reg, index: Reg, s: State): State {
    Assign(Visible(s), Whole(dest), Over(s, {InReg(base)}) + Over(s, {InReg(index)}) + Control(s))
  }

  /** dest <- src, and for a destination in memory also the registers that address it. */
  ghost function MovMeans(i: Instr, s: State): State {
    if !(ReadableOrImm(i.op1, i.read) && Writable(i.op0, i.write)) then Visible(s)
    else Assign(Visible(s), Written(i.op0, i.write), Taint(s, i.op1, i.read) + Address(s, i.op0) + Control(s))
  }

  /** eax, edx, eflags <- eax, src */
  ghost function MulMeans(i: Instr, s: State): State {
    if !(i.width == 32 && Readable(i.op0, i.read)) then Visible(s)
    else Assign(Visible(s), Whole(EAX) + Whole(EDX) + Whole(EFLAGS),
                Taint(s, i.op0, i.read) + Over(s, {InReg(EAX)}) + Control(s))
  }

  /** dest <- stack: the registers that address the stack do not count. */
  ghost function PopMeans(i: Instr, s: State): State {
    if !(i.read.Range? && Writable(i.op0, i.write)) then Visible(s)
    else Assign(Visible(s), Written(i.op0, i.write),
                Over(s, Bytes(i.read.start, i.read.size)) + Address(s, i.op0) + Control(s))
  }

  /** stack <- src */
  ghost function PushMeans(i: Instr, s: State): State {
    if !(ReadableOrImm(i.op0, i.read) && i.write.Range?) then Visible(s)
    else Assign(Visible(s), Bytes(i.write.start, i.write.size), First(s, i))
  }

  /** dest, eflags <- dest, count */
  ghost function SarMeans(i: Instr, s: State): State {
    if !(Readable(i.op0, i.read) && RegOrImm(i.op1) && Writable(i.op0, i.write)) then Visible(s)
    else Assign(Visible(s), Written(i.op0, i.write) + Whole(EFLAGS), BothNoMemory(s, i))
  }

  /** eflags <- dest, src */
  ghost function TestMeans(i: Instr, s: State): State {
    if !(Readable(i.op0, i.read) && RegOrImm(i.op1)) then Visible(s)
    else Assign(Visible(s), {InReg(EFLAGS)}, BothNoMemory(s, i))
  }

  /** dest, eflags <- dest, src; src <- dest */
  ghost function XaddMeans(i: Instr, s: State): State {
    if !(Readable(i.op0, i.read) && i.op1.RegOp? && Writable(i.op0, i.write)) then Visible(s)
    else
      Assign(Assign(Assign(Visible(s), Written(i.op0, i.write), BothNoMemory(s, i)), Whole(i.op1.reg), First(s, i)),
             Whole(EFLAGS), BothNoMemory(s, i))
  }

  /** dest <- src; src <- dest, both from before the instruction.  The second store may be missing. */
  ghost function XchgMeans(i: Instr, s: State): State {
    if !(Readable(i.op0, i.read) && Readable(i.op1, i.read) && Writable(i.op0, i.write)) then Visible(s)
    else
      var half := Assign(Visible(s), Written(i.op0, i.write), Taint(s, i.op1, i.read) + Control(s));
      if Writable(i.op1, i.write) then Assign(half, Written(i.op1, i.write), First(s, i)) else half
  }

  /** dest, eflags <- dest, src; but a register with itself is cleared, while eflags still get its old taint. */
  ghost function XorMeans(i: Instr, s: State): State {
    if !Arithmetic(i) then Visible(s)
    else if i.op0.RegOp? && i.op1 == i.op0 then
      Assign(Assign(Visible(s), Registers(Parts(i.op0.reg) + [i.op0.reg]) * s.Keys, Control(s)),
             Whole(EFLAGS), First(s, i))
    else Assign(Visible(s), Written(i.op0, i.write) + Whole(EFLAGS), Both(s, i))
  }

  ghost function Means(x: Instruction, s: State): State {
    match x
    case AddressOf(dest, base, index) => LeaMeans(dest, base, index, s)
    case Plain(kind, i) =>
      match kind
      case KADC => AdcMeans(i, s)
      case KADD => AddMeans(i, s)
      case KCMP => CmpMeans(i, s)
      case KDEC => DecMeans(i, s)
      case KDIV => DivMeans(i, s)
      case KIDIV => DivMeans(i, s)
      case KMOV => MovMeans(i, s)
      case KMUL => MulMeans(i, s)
      case KPOP => PopMeans(i, s)
      case KPUSH => PushMeans(i, s)
      case KSAR => SarMeans(i, s)
      case KTEST => TestMeans(i, s)
      case KXADD => XaddMeans(i, s)
      case KXCHG => XchgMeans(i, s)
      case KXOR => XorMeans(i, s)
  }
}
