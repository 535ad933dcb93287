/**
  The calls of a handler that gets to its end, one after another, going by the operands: what it
  loads, in the order in which the sets are printed, what it stores, and which stores are profiled.
*/
module OperandCalls {
  import opened TaintState
  import opened Handlers
  import opened Meanings
  import opened Endings

  /** The call that loads an operand; an immediate has no taint. */
  function LoadOf(op: Operand, read: Access, n: Scratch): Call {
    match op
    case RegOp(r) => LoadReg(r, n)
    case MemOp(base, index) =>
      if read.Range? then LoadMem(read.start, read.size, base, index, n) else ClearSet(n)
    case _ => ClearSet(n)
  }

  function StoreTo(op: Operand, write: Access, args: seq<Scratch>): Call {
    match op
    case RegOp(r) => SetReg(r, args)
    case _ => if write.Range? then SetMem(write.start, write.size, args) else SetMem(0, 0, args)
  }

  /** The registers that address a destination in memory. */
  function AddressLoads(op: Operand): seq<Call> {
    if op.MemOp? then [LoadReg(op.base, Base), LoadReg(op.index, Idx)] else []
  }

  /** Which operands and registers an instruction loads, one after another. */
  function Loads(x: Instruction): seq<Call> {
    match x
    case AddressOf(_, base, index) => [LoadReg(base, Base), LoadReg(index, Idx)]
    case Plain(kind, i) =>
      var first, second := LoadOf(i.op0, i.read, Dest), LoadOf(i.op1, i.read, Src);
      var only := LoadOf(i.op0, i.read, Src);
      match kind
      case KADC => [first, second, LoadReg(EFLAGS, Eflags)]
      case KADD => [first, second]
      case KCMP => [first, second]
      case KDEC => [first]
      case KDIV => [only, LoadReg(EAX, Eax), LoadReg(EDX, Edx)]
      case KIDIV => [only, LoadReg(EDX, Edx), LoadReg(EAX, Eax)]
      case KMOV => [second] + AddressLoads(i.op0)
      case KMUL => [only, LoadReg(EAX, Eax)]
      case KPOP => [StackLoad(i)] + AddressLoads(i.op0)
      case KPUSH => [only]
      case KSAR => [first, LoadOf(i.op1, i.read, Cnt)]
      case KTEST => [first, second]
      case KXADD => [first, second]
      case KXCHG => [first, second]
      case KXOR => [first, second]
  }

  /** The stack is read without the registers that address it. */
  function StackLoad(i: Instr): Call {
    if i.read.Range? then LoadMem(i.read.start, i.read.size, Invalid, Invalid, Src) else ClearSet(Src)
  }

  /** Where a moved operand goes; in memory it takes the taint of the address along. */
  function MovedTo(i: Instr): Call {
    StoreTo(i.op0, i.write, if i.op0.MemOp? then [Src, Base, Idx] else [Src])
  }

  /** What an instruction stores, one after another, and the argument to_profile of each store. */
  function Stores(x: Instruction): seq<(Call, bool)> {
    match x
    case AddressOf(dest, _, _) => [(SetReg(dest, [Base, Idx]), true)]
    case Plain(kind, i) =>
      var both, wide, half := [Dest, Src], [Eax, Edx, Src], [Eax, Src];
      match kind
      case KADC => Arithmetically(i, [Dest, Src, Eflags])
      case KADD => Arithmetically(i, both)
      case KCMP => [(SetReg(EFLAGS, both), true)]
      case KDEC => [(SetReg(EFLAGS, [Dest]), true)]
      case KDIV => [(SetReg(EAX, wide), true), (SetReg(EDX, wide), false), (ClearReg(EFLAGS), true)]
      case KIDIV => [(SetReg(EAX, wide), true), (SetReg(EDX, wide), false), (ClearReg(EFLAGS), true)]
      case KMOV => [(MovedTo(i), true)]
      case KMUL => [(SetReg(EAX, half), true), (SetReg(EDX, half), false), (SetReg(EFLAGS, half), false)]
      case KPOP => [(MovedTo(i), true)]
      case KPUSH => [(if i.write.Range? then SetMem(i.write.start, i.write.size, [Src]) else SetMem(0, 0, [Src]), true)]
      case KSAR => Arithmetically(i, [Dest, Cnt])
      case KTEST => [(SetReg(EFLAGS, both), true)]
      case KXADD =>
        [(StoreTo(i.op0, i.write, both), true), (StoreTo(i.op1, Unknown, [Dest]), true), (SetReg(EFLAGS, both), false)]
      case KXCHG => [(StoreTo(i.op0, i.write, [Src]), true), (StoreTo(i.op1, i.write, [Dest]), true)]
      case KXOR =>
        if i.op0.RegOp? && i.op1 == i.op0 then [(ClearReg(i.op0.reg), true), (SetReg(EFLAGS, both), false)]
        else Arithmetically(i, both)
  }

  /** The first operand and the flags get the same; only the first of these stores is profiled. */
  function Arithmetically(i: Instr, args: seq<Scratch>): seq<(Call, bool)> {
    [(StoreTo(i.op0, i.write, args), true), (SetReg(EFLAGS, args), false)]
  }

  // ------------------------------------------------------ putting handlers together

  /** The calls of a handler, each with its argument to_profile. */
  function Paired(e: Emitted): seq<(Call, bool)> {
    seq(|e.calls|, k requires 0 <= k < |e.calls| => (e.calls[k], e.toProfile[k]))
  }

  /** Loads are all profiled. */
  function Profiled(loads: seq<Call>): seq<(Call, bool)> {
    seq(|loads|, k requires 0 <= k < |loads| => (loads[k], true))
  }

  /** If e gets to its end it is one call. */
  ghost predicate IsOne(e: Emitted, c: Call, flag: bool) {
    e.ending.Done? ==> e.calls == [c] && e.toProfile == [flag]
  }

  /** If e gets to its end it makes these loads and then these stores. */
  ghost predicate IsAll(e: Emitted, loads: seq<Call>, stores: seq<(Call, bool)>) {
    e.ending.Done? ==> Paired(e) == Profiled(loads) + stores
  }

  lemma PairedThen(a: Emitted, rest: Emitted, c: Call, flag: bool)
    requires a.ending.Done? && a.calls == [c] && a.toProfile == [flag]
    ensures Paired(Then(a, rest)) == [(c, flag)] + Paired(rest)
  {
  }

  lemma OneMoreLoad(c: Call, loads: seq<Call>, stores: seq<(Call, bool)>)
    ensures Profiled([c] + loads) + stores == [(c, true)] + (Profiled(loads) + stores)
  {
  }

  lemma LoadsThen(a: Emitted, rest: Emitted, c: Call, loads: seq<Call>, stores: seq<(Call, bool)>)
    requires IsOne(a, c, true) && IsAll(rest, loads, stores)
    ensures IsAll(Then(a, rest), [c] + loads, stores)
  {
    if a.ending.Done? {
      PairedThen(a, rest, c, true);
      OneMoreLoad(c, loads, stores);
    }
  }

  lemma NoLoads(stores: seq<(Call, bool)>)
    ensures Profiled([]) + stores == stores
  {
  }

  lemma StoresThen(a: Emitted, rest: Emitted, c: Call, flag: bool, stores: seq<(Call, bool)>)
    requires IsOne(a, c, flag) && IsAll(rest, [], stores)
    ensures IsAll(Then(a, rest), [], [(c, flag)] + stores)
  {
    NoLoads(stores);
    NoLoads([(c, flag)] + stores);
    if a.ending.Done? {
      PairedThen(a, rest, c, flag);
    }
  }

  lemma LastStore(e: Emitted, c: Call, flag: bool)
    requires IsOne(e, c, flag)
    ensures IsAll(e, [], [(c, flag)])
  {
  }

  lemma PartsAreOne(op: Operand, access: Access, n: Scratch, args: seq<Scratch>)
    ensures IsOne(Fetch(op, access, n), LoadOf(op, access, n), true)
    ensures IsOne(FetchAny(op, access, n), LoadOf(op, access, n), true)
    ensures IsOne(FetchNoMemory(op, n, true), LoadOf(op, access, n), true)
    ensures IsOne(FetchNoMemory(op, n, false), LoadOf(op, access, n), true)
    ensures IsOne(Put(op, access, args), StoreTo(op, access, args), true)
  {
  }

  lemma TwoLoads(a: Emitted, b: Emitted, rest: Emitted, c: Call, d: Call, stores: seq<(Call, bool)>)
    requires IsOne(a, c, true) && IsOne(b, d, true) && IsAll(rest, [], stores)
    ensures IsAll(Then(a, Then(b, rest)), [c, d], stores)
  {
    LoadsThen(b, rest, d, [], stores);
    LoadsThen(a, Then(b, rest), c, [d] + [], stores);
    assert [c] + ([d] + []) == [c, d];
  }

  lemma ThreeLoads(a: Emitted, b: Emitted, f: Emitted, rest: Emitted, c: Call, d: Call, g: Call,
                   stores: seq<(Call, bool)>)
    requires IsOne(a, c, true) && IsOne(b, d, true) && IsOne(f, g, true) && IsAll(rest, [], stores)
    ensures IsAll(Then(a, Then(b, Then(f, rest))), [c, d, g], stores)
  {
    TwoLoads(b, f, rest, d, g, stores);
    LoadsThen(a, Then(b, Then(f, rest)), c, [d, g], stores);
    assert [c] + [d, g] == [c, d, g];
  }

  lemma TwoStores(a: Emitted, b: Emitted, c: Call, d: Call, flag: bool, other: bool)
    requires IsOne(a, c, flag) && IsOne(b, d, other)
    ensures IsAll(Then(a, b), [], [(c, flag), (d, other)])
  {
    LastStore(b, d, other);
    StoresThen(a, b, c, flag, [(d, other)]);
    assert [(c, flag)] + [(d, other)] == [(c, flag), (d, other)];
  }

  lemma ThreeStores(a: Emitted, b: Emitted, e: Emitted, c: Call, d: Call, f: Call, flag: bool, other: bool, last: bool)
    requires IsOne(a, c, flag) && IsOne(b, d, other) && IsOne(e, f, last)
    ensures IsAll(Then(a, Then(b, e)), [], [(c, flag), (d, other), (f, last)])
  {
    TwoStores(b, e, d, f, other, last);
    StoresThen(a, Then(b, e), c, flag, [(d, other), (f, last)]);
    assert [(c, flag)] + [(d, other), (f, last)] == [(c, flag), (d, other), (f, last)];
  }

  // ------------------------------------------------------ kind by kind

  ghost predicate IsWhole(x: Instruction) {
    IsAll(Emits(x), Loads(x), Stores(x))
  }

  lemma ArithmeticStores(i: Instr, args: seq<Scratch>)
    ensures IsAll(Then(Put(i.op0, i.write, args), EmitQuietly(SetReg(EFLAGS, args))), [], Arithmetically(i, args))
  {
    PartsAreOne(i.op0, i.write, Dest, args);
    TwoStores(Put(i.op0, i.write, args), EmitQuietly(SetReg(EFLAGS, args)), StoreTo(i.op0, i.write, args),
              SetReg(EFLAGS, args), true, false);
  }

  lemma OperandsAreOne(i: Instr)
    ensures IsOne(Fetch(i.op0, i.read, Dest), LoadOf(i.op0, i.read, Dest), true)
    ensures IsOne(Fetch(i.op0, i.read, Src), LoadOf(i.op0, i.read, Src), true)
    ensures IsOne(FetchAny(i.op0, i.read, Src), LoadOf(i.op0, i.read, Src), true)
    ensures IsOne(Fetch(i.op1, i.read, Src), LoadOf(i.op1, i.read, Src), true)
    ensures IsOne(FetchAny(i.op1, i.read, Src), LoadOf(i.op1, i.read, Src), true)
    ensures IsOne(FetchNoMemory(i.op1, Src, true), LoadOf(i.op1, i.read, Src), true)
    ensures IsOne(FetchNoMemory(i.op1, Src, false), LoadOf(i.op1, i.read, Src), true)
    ensures IsOne(FetchNoMemory(i.op1, Cnt, true), LoadOf(i.op1, i.read, Cnt), true)
  {
    PartsAreOne(i.op0, i.read, Dest, []);
    PartsAreOne(i.op0, i.read, Src, []);
    PartsAreOne(i.op1, i.read, Src, []);
    PartsAreOne(i.op1, i.read, Cnt, []);
  }

  lemma ArithmeticIsWhole(i: Instr)
    ensures IsWhole(Plain(KADC, i)) && IsWhole(Plain(KADD, i)) && IsWhole(Plain(KSAR, i))
  {
    var a, b, c, d := Fetch(i.op0, i.read, Dest), FetchAny(i.op1, i.read, Src),
                      LoadOf(i.op0, i.read, Dest), LoadOf(i.op1, i.read, Src);
    var both, three, count := [Dest, Src], [Dest, Src, Eflags], [Dest, Cnt];
    OperandsAreOne(i);
    ArithmeticStores(i, both);
    ArithmeticStores(i, three);
    ArithmeticStores(i, count);
    TwoLoads(a, b, Then(Put(i.op0, i.write, both), EmitQuietly(SetReg(EFLAGS, both))), c, d, Arithmetically(i, both));
    ThreeLoads(a, b, FetchReg(EFLAGS, Eflags), Then(Put(i.op0, i.write, three), EmitQuietly(SetReg(EFLAGS, three))),
               c, d, LoadReg(EFLAGS, Eflags), Arithmetically(i, three));
    TwoLoads(a, FetchNoMemory(i.op1, Cnt, true), Then(Put(i.op0, i.write, count), EmitQuietly(SetReg(EFLAGS, count))),
             c, LoadOf(i.op1, i.read, Cnt), Arithmetically(i, count));
  }

  lemma XorIsWhole(i: Instr)
    ensures IsWhole(Plain(KXOR, i))
  {
    var both := [Dest, Src];
    var self := i.op0.RegOp? && i.op1 == i.op0;
    var first := if self then Emit(ClearReg(i.op0.reg)) else Put(i.op0, i.write, both);
    var to := if self then ClearReg(i.op0.reg) else StoreTo(i.op0, i.write, both);
    OperandsAreOne(i);
    PartsAreOne(i.op0, i.write, Dest, both);
    TwoStores(first, EmitQuietly(SetReg(EFLAGS, both)), to, SetReg(EFLAGS, both), true, false);
    TwoLoads(Fetch(i.op0, i.read, Dest), FetchAny(i.op1, i.read, Src), Then(first, EmitQuietly(SetReg(EFLAGS, both))),
             LoadOf(i.op0, i.read, Dest), LoadOf(i.op1, i.read, Src), [(to, true), (SetReg(EFLAGS, both), false)]);
  }

  lemma ExchangesAreWhole(i: Instr)
    ensures IsWhole(Plain(KXADD, i)) && IsWhole(Plain(KXCHG, i))
  {
    var a, both := Fetch(i.op0, i.read, Dest), [Dest, Src];
    var c, d := LoadOf(i.op0, i.read, Dest), LoadOf(i.op1, i.read, Src);
    var sum, copy := Put(i.op0, i.write, both), if i.op1.RegOp? then Emit(SetReg(i.op1.reg, [Dest])) else ABORT;
    var flags := EmitQuietly(SetReg(EFLAGS, both));
    OperandsAreOne(i);
    PartsAreOne(i.op0, i.write, Dest, both);
    PartsAreOne(i.op0, i.write, Dest, [Src]);
    PartsAreOne(i.op1, i.write, Dest, [Dest]);
    ThreeStores(sum, copy, flags, StoreTo(i.op0, i.write, both), StoreTo(i.op1, Unknown, [Dest]), SetReg(EFLAGS, both),
                true, true, false);
    TwoLoads(a, FetchNoMemory(i.op1, Src, false), Then(sum, Then(copy, flags)), c, d, Stores(Plain(KXADD, i)));
    var one, other := Put(i.op0, i.write, [Src]), Put(i.op1, i.write, [Dest]);
    TwoStores(one, other, StoreTo(i.op0, i.write, [Src]), StoreTo(i.op1, i.write, [Dest]), true, true);
    TwoLoads(a, Fetch(i.op1, i.read, Src), Then(one, other), c, d, Stores(Plain(KXCHG, i)));
  }

  lemma FlagsAreWhole(i: Instr)
    ensures IsWhole(Plain(KCMP, i)) && IsWhole(Plain(KTEST, i)) && IsWhole(Plain(KDEC, i))
  {
    var a, c, d := Fetch(i.op0, i.read, Dest), LoadOf(i.op0, i.read, Dest), LoadOf(i.op1, i.read, Src);
    var both := SetReg(EFLAGS, [Dest, Src]);
    OperandsAreOne(i);
    LastStore(Emit(both), both, true);
    LastStore(Emit(SetReg(EFLAGS, [Dest])), SetReg(EFLAGS, [Dest]), true);
    TwoLoads(a, FetchAny(i.op1, i.read, Src), Emit(both), c, d, [(both, true)]);
    TwoLoads(a, FetchNoMemory(i.op1, Src, true), Emit(both), c, d, [(both, true)]);
    LoadsThen(a, Emit(SetReg(EFLAGS, [Dest])), c, [], [(SetReg(EFLAGS, [Dest]), true)]);
    assert [c] + [] == [c];
  }

  lemma DivIsWhole(i: Instr)
    ensures IsWhole(Plain(KDIV, i)) && IsWhole(Plain(KIDIV, i))
  {
    var a, c, eax, edx := Fetch(i.op0, i.read, Src), LoadOf(i.op0, i.read, Src), FetchReg(EAX, Eax), FetchReg(EDX, Edx);
    var wide := [Eax, Edx, Src];
    var to, too, stores := SetReg(EAX, wide), SetReg(EDX, wide), Stores(Plain(KDIV, i));
    var rest := Then(Emit(to), Then(EmitQuietly(too), Emit(ClearReg(EFLAGS))));
    OperandsAreOne(i);
    ThreeStores(Emit(to), EmitQuietly(too), Emit(ClearReg(EFLAGS)), to, too, ClearReg(EFLAGS), true, false, true);
    ThreeLoads(a, eax, edx, rest, c, LoadReg(EAX, Eax), LoadReg(EDX, Edx), stores);
    ThreeLoads(a, edx, eax, rest, c, LoadReg(EDX, Edx), LoadReg(EAX, Eax), stores);
  }

  lemma MulIsWhole(i: Instr)
    ensures IsWhole(Plain(KMUL, i))
  {
    var half := [Eax, Src];
    var to, too, flags := SetReg(EAX, half), SetReg(EDX, half), SetReg(EFLAGS, half);
    OperandsAreOne(i);
    ThreeStores(Emit(to), EmitQuietly(too), EmitQuietly(flags), to, too, flags, true, false, false);
    TwoLoads(Fetch(i.op0, i.read, Src), FetchReg(EAX, Eax), Then(Emit(to), Then(EmitQuietly(too), EmitQuietly(flags))),
             LoadOf(i.op0, i.read, Src), LoadReg(EAX, Eax), Stores(Plain(KMUL, i)));
  }

  /** A loaded operand moved to a destination. */
  lemma MovesThrough(a: Emitted, c: Call, i: Instr)
    requires IsOne(a, c, true)
    ensures IsAll(Then(a, PutThrough(i.op0, i.write, Src)), [c] + AddressLoads(i.op0), [(MovedTo(i), true)])
  {
    var op, write := i.op0, i.write;
    PartsAreOne(op, write, Src, [Src]);
    PartsAreOne(op, write, Src, [Src, Base, Idx]);
    LastStore(Put(op, write, [Src]), StoreTo(op, write, [Src]), true);
    LastStore(Put(op, write, [Src, Base, Idx]), StoreTo(op, write, [Src, Base, Idx]), true);
    if op.MemOp? {
      TwoLoads(FetchReg(op.base, Base), FetchReg(op.index, Idx), Put(op, write, [Src, Base, Idx]),
               LoadReg(op.base, Base), LoadReg(op.index, Idx), [(MovedTo(i), true)]);
    }
    LoadsThen(a, PutThrough(op, write, Src), c, AddressLoads(op), [(MovedTo(i), true)]);
  }

  lemma MovesAreWhole(i: Instr)
    ensures IsWhole(Plain(KMOV, i)) && IsWhole(Plain(KPOP, i))
  {
    OperandsAreOne(i);
    MovesThrough(FetchAny(i.op1, i.read, Src), LoadOf(i.op1, i.read, Src), i);
    if i.read.Range? {
      MovesThrough(Emit(StackLoad(i)), StackLoad(i), i);
    }
  }

  lemma PushIsWhole(i: Instr)
    ensures IsWhole(Plain(KPUSH, i))
  {
    var store := if i.write.Unknown? then BAIL else Emit(SetMem(i.write.start, i.write.size, [Src]));
    var c := LoadOf(i.op0, i.read, Src);
    OperandsAreOne(i);
    LastStore(store, Stores(Plain(KPUSH, i))[0].0, true);
    LoadsThen(FetchAny(i.op0, i.read, Src), store, c, [], Stores(Plain(KPUSH, i)));
    assert [c] + [] == [c];
  }

  lemma LeaIsWhole(dest: Reg, base: Reg, index: Reg)
    ensures IsWhole(AddressOf(dest, base, index))
  {
    var store := SetReg(dest, [Base, Idx]);
    LastStore(Emit(store), store, true);
    TwoLoads(FetchReg(base, Base), FetchReg(index, Idx), Emit(store), LoadReg(base, Base), LoadReg(index, Idx),
             [(store, true)]);
  }

  lemma EachIsWhole(x: Instruction)
    ensures IsWhole(x)
  {
    match x
    case AddressOf(dest, base, index) => LeaIsWhole(dest, base, index);
    case Plain(kind, i) =>
      match kind
      case KADC => ArithmeticIsWhole(i);
      case KADD => ArithmeticIsWhole(i);
      case KSAR => ArithmeticIsWhole(i);
      case KXOR => XorIsWhole(i);
      case KXADD => ExchangesAreWhole(i);
      case KXCHG => ExchangesAreWhole(i);
      case KCMP => FlagsAreWhole(i);
      case KTEST => FlagsAreWhole(i);
      case KDEC => FlagsAreWhole(i);
      case KDIV => DivIsWhole(i);
      case KIDIV => DivIsWhole(i);
      case KMUL => MulIsWhole(i);
      case KMOV => MovesAreWhole(i);
      case KPOP => MovesAreWhole(i);
      case KPUSH => PushIsWhole(i);
  }

  /**
    The calls of a handler that gets to its end, which it does unless its operands make it abort or
    bail out: all its loads, profiled, and then its stores, profiled or not as listed.
  */
  lemma CallsAre(x: Instruction)
    requires !Aborts(x) && !Returns(x)
    ensures
      var e, loads, stores := Emits(x), Loads(x), Stores(x);
      && e.ending.Done? && |e.calls| == |loads| + |stores|
      && (forall k :: 0 <= k < |loads| ==> e.calls[k] == loads[k] && e.toProfile[k])
      && forall k :: |loads| <= k < |e.calls| ==>
           e.calls[k] == stores[k - |loads|].0 && e.toProfile[k] == stores[k - |loads|].1
  {
    EmitsEnds(x);
    EachIsWhole(x);
    ReadPairs(Emits(x), Loads(x), Stores(x));
  }

  lemma ReadPairs(e: Emitted, loads: seq<Call>, stores: seq<(Call, bool)>)
    requires Paired(e) == Profiled(loads) + stores
    ensures |e.calls| == |loads| + |stores|
    ensures forall k :: 0 <= k < |loads| ==> e.calls[k] == loads[k] && e.toProfile[k]
    ensures forall k :: |loads| <= k < |e.calls| ==>
              e.calls[k] == stores[k - |loads|].0 && e.toProfile[k] == stores[k - |loads|].1
  {
    assert |Paired(e)| == |e.calls|;
    forall k | 0 <= k < |loads|
      ensures e.calls[k] == loads[k] && e.toProfile[k]
    {
      assert Paired(e)[k] == (loads[k], true);
    }
    forall k | |loads| <= k < |e.calls|
      ensures e.calls[k] == stores[k - |loads|].0 && e.toProfile[k] == stores[k - |loads|].1
    {
      assert Paired(e)[k] == stores[k - |loads|];
    }
  }
}
