/**
  What the analysis calls do to taint, as a pure transition on one map.

  A place is a register, a memory byte, an active branch or a scratch set; a state gives the
  marks of every place that has an entry.  A place without an entry is not the same as a place
  with no marks: clearing skips the former, and a branch without an entry is not active.
*/
module TaintState {
  datatype Reg =
    | EAX | AX | AH | AL | EBX | BX | BH | BL | ECX | CX | CH | CL | EDX | DX | DH | DL
    | ESP | EBP | EFLAGS | Other(id: nat) | Invalid

  datatype Scratch = Dest | Src | Eax | Edx | Base | Idx | Eflags | Cnt

  datatype Place = InReg(reg: Reg) | InMem(byte: int) | InControl(branch: int) | InScratch(name: Scratch)

  type Marks = set<nat>

  type State = map<Place, Marks>

  /** The analysis functions, with the arguments that matter to taint. */
  datatype Call =
    | ClearSet(name: Scratch)
    | LoadReg(reg: Reg, name: Scratch)
    | LoadMem(start: int, size: nat, base: Reg, index: Reg, name: Scratch)
    | SetReg(reg: Reg, args: seq<Scratch>)
    | ClearReg(reg: Reg)
    | SetMem(start: int, size: nat, args: seq<Scratch>)
    | ClearMem(start: int, size: nat)
    | NewTaint(start: int, size: nat, mark: nat)
    | PushControl(branch: int)
    | PopControl(branches: seq<int>)

  /** The marks found at any of these places. */
  ghost function Over(s: State, places: set<Place>): Marks {
    set p, m | p in places && p in s && m in s[p] :: m
  }

  /** Every one of these places gets the marks v, whether it had an entry or not. */
  ghost function Assign(s: State, places: set<Place>, v: Marks): State {
    map p | p in s.Keys + places :: if p in places then v else s[p]
  }

  /** The registers that hold parts of r, as far as the store knows them. */
  function Parts(r: Reg): seq<Reg> {
    match r
    case EAX => [AX, AH, AL]
    case EBX => [BX, BH, BL]
    case ECX => [CX, CH, CL]
    case EDX => [DX, DH, DL]
    case AX => [AH, AL]
    case BX => [BH, BL]
    case CX => [CH, CL]
    case DX => [DH, DL]
    case _ => []
  }

  ghost function Registers(rs: seq<Reg>): set<Place> {
    set r | r in rs :: InReg(r)
  }

  function Usable(r: Reg): seq<Reg> {
    if r.Invalid? then [] else [r]
  }

  ghost function Bytes(start: int, size: nat): set<Place> {
    set a | start <= a < start + size :: InMem(a)
  }

  ghost function Branches(keys: set<Place>): set<Place> {
    set p | p in keys && p.InControl?
  }

  ghost function Named(args: seq<Scratch>): set<Place> {
    set n | n in args :: InScratch(n)
  }

  /** Stack and frame pointer carry no taint. */
  predicate IsFrame(r: Reg) {
    r == ESP || r == EBP
  }

  /** Which places a data-flow call writes; this depends on which places have entries only. */
  ghost function Targets(c: Call, keys: set<Place>): set<Place> {
    match c
    case ClearSet(n) => {InScratch(n)}
    case LoadReg(_, n) => {InScratch(n)}
    case LoadMem(_, _, _, _, n) => {InScratch(n)}
    case SetReg(r, _) => if IsFrame(r) then {} else Registers(Parts(r) + [r])
    case ClearReg(r) => Registers(Parts(r) + [r]) * keys
    case SetMem(start, size, _) => Bytes(start, size)
    case ClearMem(start, size) => Bytes(start, size) * keys
    case NewTaint(start, size, _) => Bytes(start, size)
    case PushControl(a) => {InControl(a)}
    case PopControl(_) => {}
  }

  /** Which places a data-flow call reads. */
  ghost function Sources(c: Call, keys: set<Place>): set<Place> {
    match c
    case LoadReg(r, _) => {InReg(r)}
    case LoadMem(start, size, base, index, _) => Bytes(start, size) + Registers(Usable(base) + Usable(index))
    case SetReg(_, args) => Named(args) + Branches(keys)
    case SetMem(_, _, args) => Named(args) + Branches(keys)
    case ClearReg(_) => Branches(keys)
    case ClearMem(_, _) => Branches(keys)
    case PushControl(a) => {InControl(a), InReg(EFLAGS)}
    case _ => {}
  }

  /** A branch is pushed only when the flags it tests carry marks. */
  ghost predicate Pushes(s: State) {
    Over(s, {InReg(EFLAGS)}) != {}
  }

  ghost function Pop(s: State, branches: seq<int>): State {
    if branches == [] || InControl(branches[0]) !in s then s
    else Pop(s - {InControl(branches[0])}, branches[1..])
  }

  ghost function Step(s: State, c: Call): State {
    match c
    case NewTaint(_, _, mark) => Assign(s, Targets(c, s.Keys), {mark})
    case PushControl(_) => if Pushes(s) then Assign(s, Targets(c, s.Keys), Over(s, Sources(c, s.Keys))) else s
    case PopControl(branches) => Pop(s, branches)
    case _ => Assign(s, Targets(c, s.Keys), Over(s, Sources(c, s.Keys)))
  }

  ghost function Run(s: State, calls: seq<Call>): State {
    if calls == [] then s else Step(Run(s, calls[..|calls| - 1]), calls[|calls| - 1])
  }

  /** A mark must fit the width of the sets. */
  predicate Legal(c: Call, width: nat) {
    c.NewTaint? ==> c.mark < width
  }

  predicate IsDataFlow(c: Call) {
    !c.NewTaint? && !c.PushControl? && !c.PopControl?
  }

  type DataFlow = c: Call | IsDataFlow(c) witness ClearSet(Dest)

  function ScratchNames(): seq<Scratch> {
    [Dest, Src, Eax, Edx, Base, Idx, Eflags, Cnt]
  }

  lemma AllScratchNamed(n: Scratch)
    ensures n in ScratchNames()
  {
    var names := ScratchNames();
    match n {
      case Dest => assert names[0] == n;
      case Src => assert names[1] == n;
      case Eax => assert names[2] == n;
      case Edx => assert names[3] == n;
      case Base => assert names[4] == n;
      case Idx => assert names[5] == n;
      case Eflags => assert names[6] == n;
      case Cnt => assert names[7] == n;
    }
  }

  ghost function EmptySets(names: seq<Scratch>): State {
    map n | n in names :: InScratch(n) := {}
  }

  /** The store as it starts: no entries but the eight scratch sets. */
  ghost function Start(): State {
    EmptySets(ScratchNames())
  }

  lemma {:induction false} RunAll(s: State, calls: seq<Call>, c: Call)
    ensures Run(s, calls + [c]) == Step(Run(s, calls), c)
  {
    assert (calls + [c])[..|calls|] == calls;
  }

  lemma {:induction false} RunBoth(s: State, first: seq<Call>, rest: seq<Call>)
    ensures Run(s, first + rest) == Run(Run(s, first), rest)
    decreases |rest|
  {
    if rest == [] {
      assert first + rest == first;
    } else {
      var before, last := rest[..|rest| - 1], rest[|rest| - 1];
      RunBoth(s, first, before);
      assert first + rest == (first + before) + [last];
      RunAll(s, first + before, last);
    }
  }

  /** All of the n bytes from start have entries, and the next one has none. */
  ghost predicate IsTagged(s: State, start: int, n: nat) {
    InMem(start + n) !in s && forall a :: start <= a < start + n ==> InMem(a) in s
  }

  lemma {:induction false} TagRunExists(s: State, start: int)
    ensures exists n: nat :: IsTagged(s, start, n)
    decreases s.Keys
  {
    if InMem(start) in s {
      var less := s - {InMem(start)};
      assert less.Keys == s.Keys - {InMem(start)};
      TagRunExists(less, start + 1);
      var n: nat :| IsTagged(less, start + 1, n);
      assert IsTagged(s, start, n + 1) by {
        assert InMem(start + (n + 1)) !in less;
        forall a | start <= a < start + (n + 1)
          ensures InMem(a) in s
        {
          assert a != start ==> InMem(a) in less;
        }
      }
    } else {
      assert IsTagged(s, start, 0);
    }
  }

  lemma TagRunIsUnique(s: State, start: int, n: nat, k: nat)
    requires IsTagged(s, start, n) && IsTagged(s, start, k)
    ensures n == k
  {
    assert n < k ==> InMem(start + n) in s;
    assert k < n ==> InMem(start + k) in s;
  }

  /** How many bytes from start on have entries without a gap. */
  ghost function TagRun(s: State, start: int): (n: nat)
    ensures IsTagged(s, start, n)
  {
    TagRunExists(s, start);
    var n: nat :| IsTagged(s, start, n);
    n
  }

  // ------------------------------------------------------ collecting and assigning step by step

  lemma OverNone(s: State)
    ensures Over(s, {}) == {}
  {
  }

  lemma OverOne(s: State, places: set<Place>, p: Place)
    ensures Over(s, places + {p}) == if p in s then Over(s, places) + s[p] else Over(s, places)
  {
  }

  lemma OverBoth(s: State, places: set<Place>, others: set<Place>)
    ensures Over(s, places + others) == Over(s, places) + Over(s, others)
  {
  }

  lemma AssignNone(s: State, v: Marks)
    ensures Assign(s, {}, v) == s
  {
  }

  lemma AssignOne(s: State, places: set<Place>, p: Place, v: Marks)
    ensures Assign(s, places + {p}, v) == Assign(s, places, v)[p := v]
    ensures Assign(s, {p}, v) == s[p := v]
  {
  }

  lemma OneMoreByte(start: int, n: nat)
    ensures Bytes(start, n + 1) == Bytes(start, n) + {InMem(start + n)}
    ensures InMem(start + n) !in Bytes(start, n) && Bytes(start, 0) == {}
  {
    assert InMem(start + n) in Bytes(start, n + 1);
    forall p | p in Bytes(start, n)
      ensures p in Bytes(start, n + 1)
    {
      assert start <= p.byte < start + (n + 1);
    }
  }

  lemma OneMoreArg(args: seq<Scratch>, n: nat)
    requires n < |args|
    ensures Named(args[..n + 1]) == Named(args[..n]) + {InScratch(args[n])}
  {
    assert args[..n + 1] == args[..n] + [args[n]];
  }
}
