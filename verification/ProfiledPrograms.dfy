/**
  Whose sets a key lists.  A call that is skipped for the stack or frame pointer leaves the sets
  that its instruction has printed in the stream, where the next key finds them.
*/
module ProfiledPrograms {
  import opened Collections
  import opened TaintState
  import opened Handlers
  import opened Meanings
  import opened ProfilingKeys
  import opened ProfiledStores

  ghost function Fresh(z: Settings, s: State, ls: seq<Profiled>): Prof {
    ProfileAll(z, Prof([], []), s, ls)
  }

  /** Calls that follow on a stream with sets pending put these in front of the first key they record. */
  ghost function Following(p: Prof, q: Prof): Prof {
    if q.log == [] then Prof(p.pending + q.pending, p.log)
    else Prof(q.pending, p.log + [Entry(p.pending + q.log[0].sets, q.log[0].opcode)] + q.log[1..])
  }

  lemma {:induction false} PendingComesFirst(z: Settings, p: Prof, s: State, ls: seq<Profiled>)
    ensures ProfileAll(z, p, s, ls) == Following(p, Fresh(z, s, ls))
    decreases |ls|
  {
    if ls != [] {
      var n := |ls| - 1;
      PendingComesFirst(z, p, s, ls[..n]);
      FollowingStep(z, p, Fresh(z, s, ls[..n]), Run(s, CallsIn(ls[..n])), ls[n]);
    } else {
      assert p.pending + [] == p.pending;
    }
  }

  lemma FollowingStep(z: Settings, p: Prof, q: Prof, s: State, l: Profiled)
    ensures Profile(z, Following(p, q), s, l) == Following(p, Profile(z, q, s, l))
  {
    var more := Printed(z, s, l);
    if q.log == [] {
      assert p.pending + q.pending + more == p.pending + (q.pending + more);
      assert [Entry(q.pending + more, l.opcode)][1..] == [];
    } else {
      var e := Entry(q.pending + more, l.opcode);
      assert (q.log + [e])[1..] == q.log[1..] + [e] && (q.log + [e])[0] == q.log[0];
    }
  }

  // ------------------------------------------------------ one instruction

  ghost function Profiles(x: Instruction, opcode: nat): seq<Profiled> {
    var e := Emits(x);
    seq(|e.calls|, i requires 0 <= i < |e.calls| => Profiled(e.calls[i], opcode, e.toProfile[i]))
  }

  ghost predicate LoadsFirst(calls: seq<Call>) {
    forall i, j :: 0 <= i < j < |calls| && IsLoad(calls[j]) ==> IsLoad(calls[i])
  }

  ghost predicate OnlyLoads(e: Emitted) {
    forall i :: 0 <= i < |e.calls| ==> IsLoad(e.calls[i])
  }

  ghost predicate NoLoads(e: Emitted) {
    forall i :: 0 <= i < |e.calls| ==> !IsLoad(e.calls[i])
  }

  ghost predicate Sorted(e: Emitted) {
    LoadsFirst(e.calls)
  }

  lemma ThenSorts(a: Emitted, b: Emitted)
    ensures OnlyLoads(a) && Sorted(b) ==> Sorted(Then(a, b))
    ensures NoLoads(a) && NoLoads(b) ==> NoLoads(Then(a, b))
    ensures NoLoads(a) || OnlyLoads(a) ==> Sorted(a)
  {
  }

  lemma Fetching(op: Operand, read: Access, n: Scratch, immediate: bool)
    ensures OnlyLoads(Fetch(op, read, n)) && OnlyLoads(FetchAny(op, read, n))
    ensures OnlyLoads(FetchNoMemory(op, n, immediate))
  {
  }

  lemma Putting(op: Operand, write: Access, args: seq<Scratch>)
    ensures NoLoads(Put(op, write, args))
  {
  }

  lemma AfterOne(a: Emitted, stores: Emitted)
    requires OnlyLoads(a) && NoLoads(stores)
    ensures Sorted(Then(a, stores))
  {
  }

  lemma AfterTwo(a: Emitted, b: Emitted, stores: Emitted)
    requires OnlyLoads(a) && OnlyLoads(b) && NoLoads(stores)
    ensures Sorted(Then(a, Then(b, stores)))
  {
    AfterOne(b, stores);
    ThenSorts(a, Then(b, stores));
  }

  lemma AfterThree(a: Emitted, b: Emitted, c: Emitted, stores: Emitted)
    requires OnlyLoads(a) && OnlyLoads(b) && OnlyLoads(c) && NoLoads(stores)
    ensures Sorted(Then(a, Then(b, Then(c, stores))))
  {
    AfterTwo(b, c, stores);
    ThenSorts(a, Then(b, Then(c, stores)));
  }

  lemma Two(a: Emitted, b: Emitted)
    requires NoLoads(a) && NoLoads(b)
    ensures NoLoads(Then(a, b))
  {
    ThenSorts(a, b);
  }

  lemma PuttingThrough(a: Emitted, op: Operand, write: Access)
    requires OnlyLoads(a)
    ensures Sorted(Then(a, PutThrough(op, write, Src)))
  {
    Putting(op, write, [Src]);
    Putting(op, write, [Src, Base, Idx]);
    if op.MemOp? {
      AfterThree(a, FetchReg(op.base, Base), FetchReg(op.index, Idx), Put(op, write, [Src, Base, Idx]));
    } else {
      AfterOne(a, Put(op, write, [Src]));
    }
  }

  lemma AdcSorts(i: Instr)
    ensures Sorted(ADC(i))
  {
    var args := [Dest, Src, Eflags];
    Fetching(i.op0, i.read, Dest, true);
    Fetching(i.op1, i.read, Src, true);
    Putting(i.op0, i.write, args);
    Two(Put(i.op0, i.write, args), EmitQuietly(SetReg(EFLAGS, args)));
    AfterThree(Fetch(i.op0, i.read, Dest), FetchAny(i.op1, i.read, Src), FetchReg(EFLAGS, Eflags),
               Then(Put(i.op0, i.write, args), EmitQuietly(SetReg(EFLAGS, args))));
  }

  lemma XaddSorts(i: Instr)
    ensures Sorted(XADD(i))
  {
    var args := [Dest, Src];
    var flags := EmitQuietly(SetReg(EFLAGS, args));
    var copy := if i.op1.RegOp? then Emit(SetReg(i.op1.reg, [Dest])) else ABORT;
    Fetching(i.op0, i.read, Dest, true);
    Fetching(i.op1, i.read, Src, false);
    Putting(i.op0, i.write, args);
    Two(copy, flags);
    Two(Put(i.op0, i.write, args), Then(copy, flags));
    AfterTwo(Fetch(i.op0, i.read, Dest), FetchNoMemory(i.op1, Src, false),
             Then(Put(i.op0, i.write, args), Then(copy, flags)));
  }

  lemma ArithmeticSorts(i: Instr)
    ensures Sorted(ADD(i)) && Sorted(SAR(i)) && Sorted(XOR(i))
  {
    Fetching(i.op0, i.read, Dest, true);
    Fetching(i.op1, i.read, Src, true);
    Fetching(i.op1, i.read, Cnt, true);
    var a, b, args := Fetch(i.op0, i.read, Dest), FetchAny(i.op1, i.read, Src), [Dest, Src];
    Putting(i.op0, i.write, args);
    Putting(i.op0, i.write, [Dest, Cnt]);
    var flags := EmitQuietly(SetReg(EFLAGS, args));
    Two(Put(i.op0, i.write, args), flags);
    AfterTwo(a, b, Then(Put(i.op0, i.write, args), flags));
    Two(Put(i.op0, i.write, [Dest, Cnt]), EmitQuietly(SetReg(EFLAGS, [Dest, Cnt])));
    AfterTwo(a, FetchNoMemory(i.op1, Cnt, true),
             Then(Put(i.op0, i.write, [Dest, Cnt]), EmitQuietly(SetReg(EFLAGS, [Dest, Cnt]))));
    var first := if i.op0.RegOp? && i.op1 == i.op0 then Emit(ClearReg(i.op0.reg)) else Put(i.op0, i.write, args);
    Two(first, flags);
    AfterTwo(a, b, Then(first, flags));
  }

  lemma OthersSort(i: Instr)
    ensures Sorted(CMP(i)) && Sorted(TEST(i)) && Sorted(DEC(i)) && Sorted(XCHG(i))
    ensures Sorted(MOV(i)) && Sorted(PUSH(i)) && Sorted(POP(i))
  {
    Fetching(i.op0, i.read, Dest, true);
    Fetching(i.op0, i.read, Src, true);
    Fetching(i.op1, i.read, Src, true);
    var a, b := Fetch(i.op0, i.read, Dest), FetchAny(i.op1, i.read, Src);
    AfterTwo(a, b, Emit(SetReg(EFLAGS, [Dest, Src])));
    AfterTwo(a, FetchNoMemory(i.op1, Src, true), Emit(SetReg(EFLAGS, [Dest, Src])));
    AfterOne(a, Emit(SetReg(EFLAGS, [Dest])));
    Putting(i.op0, i.write, [Src]);
    Putting(i.op1, i.write, [Dest]);
    Two(Put(i.op0, i.write, [Src]), Put(i.op1, i.write, [Dest]));
    AfterTwo(a, Fetch(i.op1, i.read, Src), Then(Put(i.op0, i.write, [Src]), Put(i.op1, i.write, [Dest])));
    PuttingThrough(b, i.op0, i.write);
    AfterOne(FetchAny(i.op0, i.read, Src),
             if i.write.Unknown? then BAIL else Emit(SetMem(i.write.start, i.write.size, [Src])));
    if i.read.Range? {
      PuttingThrough(Emit(LoadMem(i.read.start, i.read.size, Invalid, Invalid, Src)), i.op0, i.write);
    }
  }

  lemma DividingSorts(a: Emitted, b: Emitted, c: Emitted)
    requires OnlyLoads(a) && OnlyLoads(b) && OnlyLoads(c)
    ensures
      var args := [Eax, Edx, Src];
      Sorted(Then(a, Then(b, Then(c, Then(Emit(SetReg(EAX, args)),
                                          Then(EmitQuietly(SetReg(EDX, args)), Emit(ClearReg(EFLAGS))))))))
  {
    var eax, edx := Emit(SetReg(EAX, [Eax, Edx, Src])), EmitQuietly(SetReg(EDX, [Eax, Edx, Src]));
    Two(edx, Emit(ClearReg(EFLAGS)));
    Two(eax, Then(edx, Emit(ClearReg(EFLAGS))));
    AfterThree(a, b, c, Then(eax, Then(edx, Emit(ClearReg(EFLAGS)))));
  }

  lemma DivSorts(i: Instr)
    ensures Sorted(DIV(i)) && Sorted(IDIV(i))
  {
    Fetching(i.op0, i.read, Src, true);
    DividingSorts(Fetch(i.op0, i.read, Src), FetchReg(EAX, Eax), FetchReg(EDX, Edx));
    DividingSorts(Fetch(i.op0, i.read, Src), FetchReg(EDX, Edx), FetchReg(EAX, Eax));
  }

  lemma MulSorts(i: Instr)
    ensures Sorted(MUL(i))
  {
    Fetching(i.op0, i.read, Src, true);
    var args := [Eax, Src];
    var edx, flags := EmitQuietly(SetReg(EDX, args)), EmitQuietly(SetReg(EFLAGS, args));
    Two(edx, flags);
    Two(Emit(SetReg(EAX, args)), Then(edx, flags));
    AfterTwo(Fetch(i.op0, i.read, Src), FetchReg(EAX, Eax), Then(Emit(SetReg(EAX, args)), Then(edx, flags)));
  }

  /** Every handler loads before it stores. */
  lemma LoadsComeFirst(x: Instruction)
    ensures LoadsFirst(Emits(x).calls)
  {
    match x
    case AddressOf(dest, base, index) =>
      AfterTwo(FetchReg(base, Base), FetchReg(index, Idx), Emit(SetReg(dest, [Base, Idx])));
    case Plain(kind, i) =>
      match kind
      case KADC => AdcSorts(i);
      case KADD => ArithmeticSorts(i);
      case KSAR => ArithmeticSorts(i);
      case KXADD => XaddSorts(i);
      case KXOR => ArithmeticSorts(i);
      case KDIV => DivSorts(i);
      case KIDIV => DivSorts(i);
      case KMUL => MulSorts(i);
      case _ => OthersSort(i);
  }

  ghost predicate RecordsSome(z: Settings, ls: seq<Profiled>) {
    exists i :: 0 <= i < |ls| && Records(z, ls[i])
  }

  lemma {:induction false} LogIffRecords(z: Settings, s: State, ls: seq<Profiled>)
    ensures Fresh(z, s, ls).log != [] <==> RecordsSome(z, ls)
    decreases |ls|
  {
    if ls != [] {
      var n := |ls| - 1;
      LogIffRecords(z, s, ls[..n]);
      if RecordsSome(z, ls) && !Records(z, ls[n]) {
        var i :| 0 <= i < |ls| && Records(z, ls[i]);
        assert Records(z, ls[..n][i]);
      }
    }
  }

  /** If loads come first, a sequence of calls that records leaves nothing in the stream. */
  lemma {:induction false} RecordingEmptiesStream(z: Settings, s: State, ls: seq<Profiled>)
    requires LoadsFirst(CallsIn(ls))
    ensures RecordsSome(z, ls) ==> Fresh(z, s, ls).pending == []
    decreases |ls|
  {
    if ls != [] {
      var n := |ls| - 1;
      var before := ls[..n];
      assert CallsIn(before) == CallsIn(ls)[..n];
      RecordingEmptiesStream(z, s, before);
      if RecordsSome(z, ls) && !Records(z, ls[n]) {
        var i :| 0 <= i < |ls| && Records(z, ls[i]);
        assert Records(z, before[i]);
        assert !IsLoad(CallsIn(ls)[i]) && !IsLoad(CallsIn(ls)[n]);
      }
    }
  }

  // ------------------------------------------------------ programs

  datatype Traced = Traced(x: Instruction, opcode: nat)

  ghost function AllProfiles(trace: seq<Traced>): seq<Profiled> {
    if trace == [] then []
    else AllProfiles(trace[..|trace| - 1]) + Profiles(trace[|trace| - 1].x, trace[|trace| - 1].opcode)
  }

  /** The store before instruction k. */
  ghost function Before(s: State, trace: seq<Traced>, k: nat): State
    requires k <= |trace|
  {
    Run(s, CallsIn(AllProfiles(trace[..k])))
  }

  /** What the stream and the log hold before instruction k, starting with neither. */
  ghost function Come(z: Settings, s: State, trace: seq<Traced>, k: nat): Prof
    requires k <= |trace|
  {
    Fresh(z, s, AllProfiles(trace[..k]))
  }

  /** What instruction k prints and records by itself. */
  ghost function Own(z: Settings, s: State, trace: seq<Traced>, k: nat): Prof
    requires k < |trace|
  {
    Fresh(z, Before(s, trace, k), Profiles(trace[k].x, trace[k].opcode))
  }

  ghost predicate RecordsAt(z: Settings, trace: seq<Traced>, k: nat)
    requires k < |trace|
  {
    RecordsSome(z, Profiles(trace[k].x, trace[k].opcode))
  }

  /** Instruction k prints sets, but none of its stores is profiled and not skipped. */
  ghost predicate Leaks(z: Settings, s: State, trace: seq<Traced>, k: nat)
    requires k < |trace|
  {
    Own(z, s, trace, k).pending != [] && !RecordsAt(z, trace, k)
  }

  lemma LastCall(z: Settings, p: Prof, s: State, ls: seq<Profiled>, first: seq<Profiled>, l: Profiled)
    requires ls == first + [l]
    ensures ProfileAll(z, p, s, ls) == Profile(z, ProfileAll(z, p, s, first), Run(s, CallsIn(first)), l)
    ensures Run(s, CallsIn(ls)) == Step(Run(s, CallsIn(first)), l.call)
  {
    var n := |first|;
    NextCall(z, p, s, ls, n);
    assert ls[..n] == first && ls[..n + 1] == ls && ls[n] == l;
  }

  lemma FreshNext(z: Settings, s: State, first: seq<Profiled>, l: Profiled)
    ensures Fresh(z, s, first + [l]) == Profile(z, Fresh(z, s, first), Run(s, CallsIn(first)), l)
  {
    LastCall(z, Prof([], []), s, first + [l], first, l);
  }

  lemma Associate(a: seq<Profiled>, b: seq<Profiled>)
    requires b != []
    ensures a + b == (a + b[..|b| - 1]) + [b[|b| - 1]] && b == b[..|b| - 1] + [b[|b| - 1]]
  {
  }

  lemma {:induction false} ProfileBoth(z: Settings, p: Prof, s: State, a: seq<Profiled>, b: seq<Profiled>)
    ensures ProfileAll(z, p, s, a + b) == ProfileAll(z, ProfileAll(z, p, s, a), Run(s, CallsIn(a)), b)
    ensures Run(s, CallsIn(a + b)) == Run(Run(s, CallsIn(a)), CallsIn(b))
    decreases |b|
  {
    if b == [] {
      assert a + b == a;
    } else {
      var first, l := b[..|b| - 1], b[|b| - 1];
      ProfileBoth(z, p, s, a, first);
      Associate(a, b);
      LastCall(z, p, s, a + b, a + first, l);
      LastCall(z, ProfileAll(z, p, s, a), Run(s, CallsIn(a)), b, first, l);
    }
  }

  lemma FreshBoth(z: Settings, s: State, a: seq<Profiled>, b: seq<Profiled>)
    ensures Fresh(z, s, a + b) == Following(Fresh(z, s, a), Fresh(z, Run(s, CallsIn(a)), b))
  {
    ProfileBoth(z, Prof([], []), s, a, b);
    PendingComesFirst(z, Fresh(z, s, a), Run(s, CallsIn(a)), b);
  }

  lemma ProfilesNext(trace: seq<Traced>, k: nat)
    requires k < |trace|
    ensures AllProfiles(trace[..k + 1]) == AllProfiles(trace[..k]) + Profiles(trace[k].x, trace[k].opcode)
  {
    assert trace[..k + 1][..k] == trace[..k];
  }

  /** The stream before an instruction goes in front of the first key that it records. */
  lemma NextStream(z: Settings, s: State, trace: seq<Traced>, k: nat)
    requires k < |trace|
    ensures Come(z, s, trace, k + 1) == Following(Come(z, s, trace, k), Own(z, s, trace, k))
  {
    ProfilesNext(trace, k);
    FreshBoth(z, s, AllProfiles(trace[..k]), Profiles(trace[k].x, trace[k].opcode));
  }

  lemma CallsOfProfiles(x: Instruction, opcode: nat)
    ensures CallsIn(Profiles(x, opcode)) == Emits(x).calls
  {
  }

  /** An instruction that records leaves nothing in the stream. */
  lemma OwnRecords(z: Settings, s: State, x: Instruction, opcode: nat)
    ensures
      var ls := Profiles(x, opcode);
      (RecordsSome(z, ls) <==> Fresh(z, s, ls).log != []) && (RecordsSome(z, ls) ==> Fresh(z, s, ls).pending == [])
  {
    var ls := Profiles(x, opcode);
    LogIffRecords(z, s, ls);
    LoadsComeFirst(x);
    CallsOfProfiles(x, opcode);
    RecordingEmptiesStream(z, s, ls);
  }

  /** Of the first k, each that leaks is followed by one that records. */
  ghost predicate Clean(leaks: seq<bool>, records: seq<bool>, k: nat)
    requires k <= |leaks| == |records|
  {
    forall j :: 0 <= j < k && leaks[j] ==> exists m :: j < m < k && records[m]
  }

  lemma CleanNext(leaks: seq<bool>, records: seq<bool>, k: nat)
    requires k < |leaks| == |records| && !(leaks[k] && records[k])
    ensures Clean(leaks, records, k + 1) <==> records[k] || (Clean(leaks, records, k) && !leaks[k])
  {
    if Clean(leaks, records, k + 1) && !records[k] {
      forall j | 0 <= j < k && leaks[j]
        ensures exists m :: j < m < k && records[m]
      {
        var m :| j < m < k + 1 && records[m];
        assert m != k;
      }
    }
  }

  ghost function LeakList(z: Settings, s: State, trace: seq<Traced>): seq<bool> {
    seq(|trace|, k requires 0 <= k < |trace| => Leaks(z, s, trace, k))
  }

  ghost function RecordList(z: Settings, trace: seq<Traced>): seq<bool> {
    seq(|trace|, k requires 0 <= k < |trace| => RecordsAt(z, trace, k))
  }

  /** Every instruction before k that leaks is followed, still before k, by one that records. */
  ghost predicate NoLeak(z: Settings, s: State, trace: seq<Traced>, k: nat)
    requires k <= |trace|
  {
    Clean(LeakList(z, s, trace), RecordList(z, trace), k)
  }

  lemma StreamNext(z: Settings, s: State, trace: seq<Traced>, k: nat)
    requires k < |trace|
    ensures Come(z, s, trace, k + 1).pending == [] <==>
            RecordsAt(z, trace, k) || (Come(z, s, trace, k).pending == [] && !Leaks(z, s, trace, k))
    ensures !(Leaks(z, s, trace, k) && RecordsAt(z, trace, k))
  {
    NextStream(z, s, trace, k);
    OwnRecords(z, Before(s, trace, k), trace[k].x, trace[k].opcode);
  }

  /** A stream that a recording empties and a leak fills is empty exactly while it is clean. */
  lemma {:induction false} EmptyIffClean(leaks: seq<bool>, records: seq<bool>, empty: seq<bool>, k: nat)
    requires |leaks| == |records| && |empty| == |leaks| + 1 && k <= |leaks| && empty[0]
    requires forall j :: 0 <= j < |leaks| ==> !(leaks[j] && records[j])
    requires forall j :: 0 <= j < |leaks| ==> (empty[j + 1] <==> records[j] || (empty[j] && !leaks[j]))
    ensures empty[k] <==> Clean(leaks, records, k)
  {
    if k > 0 {
      EmptyIffClean(leaks, records, empty, k - 1);
      CleanNext(leaks, records, k - 1);
    }
  }

  ghost function EmptyList(z: Settings, s: State, trace: seq<Traced>): seq<bool> {
    seq(|trace| + 1, k requires 0 <= k <= |trace| => Come(z, s, trace, k).pending == [])
  }

  lemma StreamIsEmptyIff(z: Settings, s: State, trace: seq<Traced>, k: nat)
    requires k <= |trace|
    ensures Come(z, s, trace, k).pending == [] <==> NoLeak(z, s, trace, k)
  {
    var leaks, records, empty := LeakList(z, s, trace), RecordList(z, trace), EmptyList(z, s, trace);
    assert trace[..0] == [] && AllProfiles([]) == [];
    forall j | 0 <= j < |trace|
      ensures !(leaks[j] && records[j]) && (empty[j + 1] <==> records[j] || (empty[j] && !leaks[j]))
    {
      StreamNext(z, s, trace, j);
    }
    EmptyIffClean(leaks, records, empty, k);
  }

  /**
    The first key that an instruction records lists just its own operand and control sets if and
    only if no earlier instruction leaked since the last one that recorded.  Its other keys, if it
    records more than one, always list just its own.
  */
  lemma KeysAreOwnIff(z: Settings, s: State, trace: seq<Traced>, k: nat)
    requires k < |trace| && RecordsAt(z, trace, k)
    ensures
      var before, own, after := Come(z, s, trace, k), Own(z, s, trace, k), Come(z, s, trace, k + 1);
      && own.log != [] && |after.log| == |before.log| + |own.log|
      && after.log[..|before.log|] == before.log
      && after.log[|before.log| + 1..] == own.log[1..]
      && (after.log[|before.log|].sets == own.log[0].sets <==> NoLeak(z, s, trace, k))
  {
    var before, own := Come(z, s, trace, k), Own(z, s, trace, k);
    NextStream(z, s, trace, k);
    OwnRecords(z, Before(s, trace, k), trace[k].x, trace[k].opcode);
    StreamIsEmptyIff(z, s, trace, k);
    Prefixed(before.pending, own.log[0].sets);
  }

  lemma Prefixed(a: seq<Marks>, b: seq<Marks>)
    ensures a + b == b <==> a == []
  {
    if a != [] {
      assert |a + b| > |b|;
    } else {
      assert a + b == b;
    }
  }

  // ------------------------------------------------------ the stack pointer

  ghost function AddRegisters(to: Reg, from: Reg): Instruction {
    Plain(KADD, Instr(RegOp(to), RegOp(from), 32, Unknown, Unknown))
  }

  lemma FourCalls(z: Settings, s: State, a: Profiled, b: Profiled, c: Profiled, d: Profiled)
    ensures
      var t := Step(s, a.call);
      var u := Step(t, b.call);
      var v := Step(u, c.call);
      Fresh(z, s, [a, b, c, d]) == Profile(z, Profile(z, Profile(z, Profile(z, Prof([], []), s, a), t, b), u, c), v, d)
  {
    var none := Prof([], []);
    assert CallsIn([]) == [];
    LastCall(z, none, s, [a], [], a);
    LastCall(z, none, s, [a, b], [a], b);
    LastCall(z, none, s, [a, b, c], [a, b], c);
    LastCall(z, none, s, [a, b, c, d], [a, b, c], d);
  }

  ghost function AddCalls(to: Reg, from: Reg, opcode: nat): seq<Profiled> {
    [Profiled(LoadReg(to, Dest), opcode, true), Profiled(LoadReg(from, Src), opcode, true),
     Profiled(SetReg(to, [Dest, Src]), opcode, true), Profiled(SetReg(EFLAGS, [Dest, Src]), opcode, false)]
  }

  lemma AddCallsAre(to: Reg, from: Reg, opcode: nat)
    ensures Profiles(AddRegisters(to, from), opcode) == AddCalls(to, from, opcode)
  {
    var e := ADD(Instr(RegOp(to), RegOp(from), 32, Unknown, Unknown));
    assert e.calls == [LoadReg(to, Dest), LoadReg(from, Src), SetReg(to, [Dest, Src]), SetReg(EFLAGS, [Dest, Src])];
    assert e.toProfile == [true, true, true, false];
  }

  lemma PrintsOne(z: Settings, p: Prof, s: State, l: Profiled)
    requires z.markop && l.call.LoadReg?
    ensures Profile(z, p, s, l) == Prof(p.pending + [Over(s, {InReg(l.call.reg)})], p.log)
  {
  }

  lemma RecordsControl(z: Settings, p: Prof, s: State, l: Profiled)
    requires z.markop && l.call.SetReg?
    ensures Profile(z, p, s, l) ==
            if l.toProfile && !IsFrame(l.call.reg)
            then Prof([], p.log + [Entry(p.pending + ControlShown(s), l.opcode)]) else p
  {
  }

  /** What ADD of two registers prints: the taint of both, and control's if it records. */
  lemma AddPrints(z: Settings, s: State, to: Reg, from: Reg, opcode: nat)
    requires z.markop
    ensures
      var sets := [Over(s, {InReg(to)}), Over(s, {InReg(from)})];
      Fresh(z, s, Profiles(AddRegisters(to, from), opcode)) ==
      if IsFrame(to) then Prof(sets, []) else Prof([], [Entry(sets + ControlShown(s), opcode)])
  {
    AddCallsAre(to, from, opcode);
    var ls := AddCalls(to, from, opcode);
    AddCallsPrint(z, s, ls[0], ls[1], ls[2], ls[3]);
  }

  lemma AddCallsPrint(z: Settings, s: State, a: Profiled, b: Profiled, c: Profiled, d: Profiled)
    requires z.markop && a.call.LoadReg? && b.call.LoadReg?
    requires c.call.SetReg? && d.call.SetReg? && c.toProfile && !d.toProfile
    ensures
      var sets := [Over(s, {InReg(a.call.reg)}), Over(s, {InReg(b.call.reg)})];
      Fresh(z, s, [a, b, c, d]) ==
      if IsFrame(c.call.reg) then Prof(sets, []) else Prof([], [Entry(sets + ControlShown(s), c.opcode)])
  {
    var t := Step(s, a.call);
    var u := Step(t, b.call);
    FourCalls(z, s, a, b, c, d);
    LoadsShowTheSame(s, a.call);
    LoadsShowTheSame(t, b.call);
    OverVisible(s, t, {InReg(b.call.reg)});
    var none := Prof([], []);
    PrintsOne(z, none, s, a);
    var one := Profile(z, none, s, a);
    PrintsOne(z, one, t, b);
    var two := Profile(z, one, t, b);
    RecordsControl(z, two, u, c);
    RecordsControl(z, Profile(z, two, u, c), Step(u, c.call), d);
    assert [] + [Over(s, {InReg(a.call.reg)})] + [Over(s, {InReg(b.call.reg)})] ==
           [Over(s, {InReg(a.call.reg)}), Over(s, {InReg(b.call.reg)})];
  }

  lemma LoadsShowTheSame(s: State, c: Call)
    requires IsLoad(c)
    ensures Visible(Step(s, c)) == Visible(s) && ControlShown(Step(s, c)) == ControlShown(s)
  {
    LoadStep(s, c);
    assert Active(Step(s, c).Keys) == Active(s.Keys);
    SameBranchesShown(s, Step(s, c), Active(s.Keys));
  }

  lemma {:induction false} SameBranchesShown(s: State, t: State, branches: set<int>)
    requires forall a :: Shown(s, InControl(a)) == Shown(t, InControl(a))
    ensures BranchesShown(s, branches) == BranchesShown(t, branches)
    decreases |branches|
  {
    if exists a :: a in branches {
      LeastExists(branches);
      var a :| IsLeast(a, branches);
      LeastFirst(s, branches, a);
      LeastFirst(t, branches, a);
      SameBranchesShown(s, t, branches - {a});
    }
  }

  lemma FollowedBy(z: Settings, s: State, trace: seq<Traced>, sets: seq<Marks>, own: Entry)
    requires |trace| == 2 && Fresh(z, s, Profiles(trace[0].x, trace[0].opcode)) == Prof(sets, [])
    requires Own(z, s, trace, 1) == Prof([], [own])
    ensures Come(z, s, trace, 2).log == [Entry(sets + own.sets, own.opcode)]
  {
    assert trace[..0] == [] && AllProfiles([]) == [] && CallsIn([]) == [];
    NextStream(z, s, trace, 0);
    NextStream(z, s, trace, 1);
    assert [] + sets == sets;
  }

  /**
    Adding to the stack pointer and then to another register: the second key lists the sets of
    both instructions.
  */
  lemma StackPointerLeaks(z: Settings, s: State, from: Reg, to: Reg, other: Reg, first: nat, second: nat)
    requires z.markop && !IsFrame(to)
    ensures
      var trace := [Traced(AddRegisters(ESP, from), first), Traced(AddRegisters(to, other), second)];
      var t := Before(s, trace, 1);
      Come(z, s, trace, 2).log ==
        [Entry([Over(s, {InReg(ESP)}), Over(s, {InReg(from)})] +
               ([Over(t, {InReg(to)}), Over(t, {InReg(other)})] + ControlShown(t)), second)]
  {
    var trace := [Traced(AddRegisters(ESP, from), first), Traced(AddRegisters(to, other), second)];
    var t := Before(s, trace, 1);
    AddPrints(z, s, ESP, from, first);
    AddPrints(z, t, to, other, second);
    FollowedBy(z, s, trace, [Over(s, {InReg(ESP)}), Over(s, {InReg(from)})],
               Entry([Over(t, {InReg(to)}), Over(t, {InReg(other)})] + ControlShown(t), second));
  }
}
