/**
  The analysis calls with their profiling: which sets they print, in which order, and which calls
  end a key.
*/
module ProfiledStores {
  import opened Collections
  import opened Bitsets
  import opened TaintState
  import opened TaintStores
  import opened ProfilingKeys

  /** Whether operations are profiled, and whether memory is printed by words. */
  datatype Settings = Settings(markop: bool, word: bool, wordSize: nat)

  datatype Profiled = Profiled(call: Call, opcode: nat, toProfile: bool)

  // ------------------------------------------------------ what a call prints

  ghost function Shown(s: State, p: Place): seq<Marks> {
    if p in s then [s[p]] else []
  }

  /** The entries of the first n bytes; by words, those of every wordSize-th byte only. */
  ghost function BytesShown(z: Settings, s: State, start: int, n: nat): seq<Marks> {
    if n == 0 then []
    else
      var before := BytesShown(z, s, start, n - 1);
      if Skips(z, n - 1) then before else before + Shown(s, InMem(start + n - 1))
  }

  /** By words, only the first byte of each is printed. */
  predicate Skips(z: Settings, count: nat) {
    z.word && z.wordSize > 0 && count % z.wordSize != 0
  }

  ghost function RegShown(s: State, r: Reg): seq<Marks> {
    if r.Invalid? then [] else Shown(s, InReg(r))
  }

  ghost function Active(keys: set<Place>): set<int> {
    set p | p in keys && p.InControl? :: p.branch
  }

  /** The sets of these branches, in ascending order of their addresses. */
  ghost function BranchesShown(s: State, branches: set<int>): seq<Marks>
    decreases |branches|
  {
    if !exists a :: a in branches then []
    else
      LeastExists(branches);
      var a :| IsLeast(a, branches);
      Shown(s, InControl(a)) + BranchesShown(s, branches - {a})
  }

  ghost function ControlShown(s: State): seq<Marks> {
    BranchesShown(s, Active(s.Keys))
  }

  ghost function Printed(z: Settings, s: State, l: Profiled): seq<Marks> {
    if !z.markop then []
    else
      match l.call
      case LoadReg(r, _) => [Over(s, {InReg(r)})]
      case LoadMem(start, size, base, index, _) =>
        if l.toProfile then BytesShown(z, s, start, size) + RegShown(s, base) + RegShown(s, index) else []
      case _ => if Records(z, l) then ControlShown(s) else []
  }

  /** A profiled store that is not skipped for the stack or frame pointer. */
  ghost predicate Records(z: Settings, l: Profiled) {
    z.markop && l.toProfile &&
    match l.call
    case SetReg(r, _) => !IsFrame(r)
    case ClearReg(_) => true
    case SetMem(_, _, _) => true
    case ClearMem(_, _) => true
    case _ => false
  }

  ghost function Profile(z: Settings, p: Prof, s: State, l: Profiled): Prof {
    var pending := p.pending + Printed(z, s, l);
    if Records(z, l) then Prof([], p.log + [Entry(pending, l.opcode)]) else Prof(pending, p.log)
  }

  ghost function CallsIn(ls: seq<Profiled>): seq<Call> {
    seq(|ls|, i requires 0 <= i < |ls| => ls[i].call)
  }

  ghost function ProfileAll(z: Settings, p: Prof, s: State, ls: seq<Profiled>): Prof {
    if ls == [] then p
    else
      var n := |ls| - 1;
      Profile(z, ProfileAll(z, p, s, ls[..n]), Run(s, CallsIn(ls[..n])), ls[n])
  }

  ghost function Recorded(z: Settings, ls: seq<Profiled>): nat {
    if ls == [] then 0 else Recorded(z, ls[..|ls| - 1]) + if Records(z, ls[|ls| - 1]) then 1 else 0
  }

  lemma {:induction false} LogGrows(z: Settings, p: Prof, s: State, ls: seq<Profiled>)
    ensures |ProfileAll(z, p, s, ls).log| == |p.log| + Recorded(z, ls)
    decreases |ls|
  {
    if ls != [] {
      LogGrows(z, p, s, ls[..|ls| - 1]);
    }
  }

  class ProfiledStore {
    const store: TaintStore
    const prof: Profiler
    const settings: Settings

    ghost predicate Valid()
      reads store, store.arrays, prof
    {
      && store.Valid() && prof.Valid() && prof.width == store.width
      && (settings.word ==> settings.wordSize > 0)
    }

    constructor (width: nat, settings: Settings)
      requires settings.word ==> settings.wordSize > 0
      ensures Valid() && this.settings == settings && store.width == width
      ensures store.state == Start() && prof.Value() == Prof([], []) && prof.profilingMap == map[]
      ensures fresh(store) && fresh(store.arrays) && fresh(prof)
    {
      store := new TaintStore(width);
      prof := new Profiler(width);
      this.settings := settings;
    }

    // ------------------------------------------------------ printing

    method Show(b: Bitset, ghost p: Place)
      requires Valid() && p in store.cells && store.cells[p] == b
      modifies prof`profStream, prof`pending
      ensures Valid() && prof.Value() == Prof(old(prof.pending) + [store.state[p]], old(prof.log))
    {
      assert HoldsMarks(store.cells[p], store.state[p], store.width);
      prof.Print(b);
    }

    method ShowByte(a: int)
      requires Valid()
      modifies prof`profStream, prof`pending
      ensures Valid() && prof.Value() == Prof(old(prof.pending) + Shown(store.state, InMem(a)), old(prof.log))
    {
      ghost var p := InMem(a);
      if a in store.memTaintMap {
        Show(store.memTaintMap[a], p);
      }
    }

    method ShowNextByte(start: int, count: nat, ghost p: Prof)
      requires Valid() && prof.Value() == Prof(p.pending + BytesShown(settings, store.state, start, count), p.log)
      modifies prof`profStream, prof`pending
      ensures Valid()
      ensures prof.Value() == Prof(p.pending + BytesShown(settings, store.state, start, count + 1), p.log)
    {
      ghost var before, one := BytesShown(settings, store.state, start, count),
                         Shown(store.state, InMem(start + count));
      Joins(p.pending, before, one, []);
      var skip := Skips(settings, count);
      if !skip {
        ShowByte(start + count);
      }
    }

    method ShowBytes(start: int, size: nat)
      requires Valid()
      modifies prof`profStream, prof`pending
      ensures Valid()
      ensures prof.Value() == Prof(old(prof.pending) + BytesShown(settings, store.state, start, size), old(prof.log))
    {
      ghost var p := prof.Value();
      for count := 0 to size
        invariant Valid() && prof.Value() == Prof(p.pending + BytesShown(settings, store.state, start, count), p.log)
      {
        ShowNextByte(start, count, p);
      }
    }

    method ShowReg(r: Reg)
      requires Valid()
      modifies prof`profStream, prof`pending
      ensures Valid() && prof.Value() == Prof(old(prof.pending) + RegShown(store.state, r), old(prof.log))
    {
      ghost var p := InReg(r);
      if !r.Invalid? && r in store.regTaintMap {
        Show(store.regTaintMap[r], p);
      }
    }

    method ShowBranch(a: int)
      requires Valid()
      modifies prof`profStream, prof`pending
      ensures Valid() && prof.Value() == Prof(old(prof.pending) + Shown(store.state, InControl(a)), old(prof.log))
    {
      ghost var p := InControl(a);
      if a in store.controlTaintMap {
        Show(store.controlTaintMap[a], p);
      }
    }

    /** Of the active branches, those in `shown` are printed; the ones in todo are not. */
    ghost predicate Showing(p: Prof, shown: seq<Marks>, todo: set<int>)
      reads store, store.arrays, prof
    {
      && Valid() && prof.Value() == Prof(p.pending + shown, p.log)
      && shown + BranchesShown(store.state, todo) == ControlShown(store.state)
    }

    method ShowLeast(todo: set<int>, ghost p: Prof, ghost shown: seq<Marks>) returns (a: int, ghost more: seq<Marks>)
      requires Showing(p, shown, todo) && exists b :: b in todo
      modifies prof`profStream, prof`pending
      ensures a in todo && Showing(p, more, todo - {a})
    {
      LeastExists(todo);
      a :| IsLeast(a, todo);
      LeastFirst(store.state, todo, a);
      more := shown + Shown(store.state, InControl(a));
      Joins(p.pending, shown, Shown(store.state, InControl(a)), []);
      ShowBranch(a);
    }

    /** Prints the sets of all active branches, as the map holds them, in ascending order. */
    method ShowControl()
      requires Valid()
      modifies prof`profStream, prof`pending
      ensures Valid() && prof.Value() == Prof(old(prof.pending) + ControlShown(store.state), old(prof.log))
    {
      ActiveIs(store);
      ghost var p, shown: seq<Marks> := prof.Value(), [];
      var todo := store.controlTaintMap.Keys;
      while exists a :: a in todo
        invariant Showing(p, shown, todo)
        decreases todo
      {
        var a;
        a, shown := ShowLeast(todo, p, shown);
        todo := todo - {a};
      }
    }

    // ------------------------------------------------------ stores

    /** What every store does first: print control and count the key that this completes. */
    method EndKey(opcode: nat, toProfile: bool)
      requires Valid()
      modifies prof`profStream, prof`pending, prof`profilingMap, prof`log
      ensures Valid()
      ensures prof.Value() ==
        if settings.markop && toProfile
        then Prof([], old(prof.log) + [Entry(old(prof.pending) + ControlShown(store.state), opcode)])
        else old(prof.Value())
    {
      if settings.markop && toProfile {
        ShowControl();
        prof.Record(opcode);
      }
    }

    ghost predicate Does(z: Settings, p: Prof, s: State, l: Profiled)
      reads store, store.arrays, prof
    {
      Valid() && store.state == Step(s, l.call) && prof.Value() == Profile(z, p, s, l)
    }

    method LoadOne(reg: Reg, n: Scratch)
      requires Valid()
      modifies store`state, store.arrays
      ensures Valid() && store.state == Step(old(store.state), LoadReg(reg, n)) && prof.Value() == old(prof.Value())
      ensures InScratch(n) in store.cells && store.cells[InScratch(n)] == store.scratch[n]
      ensures store.state[InScratch(n)] == Over(old(store.state), {InReg(reg)})
    {
      ghost var p := InScratch(n);
      LoadRegStep(store.state, reg, n);
      store.TaintForRegister(reg, n);
    }

    method TaintForRegister(reg: Reg, n: Scratch, ghost l: Profiled)
      requires Valid() && l.call == LoadReg(reg, n)
      modifies store`state, store.arrays, prof`profStream, prof`pending
      ensures Does(settings, old(prof.Value()), old(store.state), l)
    {
      LoadRegPrints(settings, prof.Value(), store.state, l);
      LoadOne(reg, n);
      if settings.markop {
        Show(store.scratch[n], InScratch(n));
      }
    }

    /** Prints the entries that the load of a range adds up. */
    method ShowMemory(start: int, size: nat, baseReg: Reg, indexReg: Reg, n: Scratch, ghost l: Profiled)
      requires Valid() && settings.markop && l.toProfile && l.call == LoadMem(start, size, baseReg, indexReg, n)
      modifies prof`profStream, prof`pending
      ensures Valid() && prof.Value() == Profile(settings, old(prof.Value()), store.state, l)
    {
      ShowBytes(start, size);
      ShowReg(baseReg);
      ShowReg(indexReg);
      Joins(old(prof.pending), BytesShown(settings, store.state, start, size),
            RegShown(store.state, baseReg), RegShown(store.state, indexReg));
    }

    method TaintForMemory(start: int, size: nat, baseReg: Reg, indexReg: Reg, n: Scratch, toProfile: bool,
                          ghost l: Profiled)
      requires Valid() && l.call == LoadMem(start, size, baseReg, indexReg, n) && l.toProfile == toProfile
      modifies store`state, store.arrays, prof`profStream, prof`pending
      ensures Does(settings, old(prof.Value()), old(store.state), l)
    {
      PrintsNothing(settings, prof.Value(), store.state, l);
      if settings.markop && toProfile {
        ShowMemory(start, size, baseReg, indexReg, n, l);
      }
      LoadRange(start, size, baseReg, indexReg, n);
    }

    method LoadRange(start: int, size: nat, baseReg: Reg, indexReg: Reg, n: Scratch)
      requires Valid()
      modifies store`state, store.arrays
      ensures Valid() && store.state == Step(old(store.state), LoadMem(start, size, baseReg, indexReg, n))
      ensures prof.Value() == old(prof.Value())
    {
      store.TaintForMemory(start, size, baseReg, indexReg, n);
    }

    method SetTaintForRegister(reg: Reg, args: seq<Scratch>, opcode: nat, toProfile: bool, ghost l: Profiled)
      requires Valid() && l == Profiled(SetReg(reg, args), opcode, toProfile)
      modifies store`regTaintMap, store`cells, store`arrays, store`state, store.arrays
      modifies prof`profStream, prof`pending, prof`profilingMap, prof`log
      ensures Does(settings, old(prof.Value()), old(store.state), l) && fresh(store.arrays - old(store.arrays))
    {
      if reg == ESP || reg == EBP {
        AssignNone(store.state, Over(store.state, Sources(l.call, store.state.Keys)));
        return;
      }
      EndKey(opcode, toProfile);
      store.SetTaintForRegister(reg, args);
    }

    method ClearTaintForRegister(reg: Reg, opcode: nat, toProfile: bool, ghost l: Profiled)
      requires Valid() && l == Profiled(ClearReg(reg), opcode, toProfile)
      modifies store`state, store.arrays
      modifies prof`profStream, prof`pending, prof`profilingMap, prof`log
      ensures Does(settings, old(prof.Value()), old(store.state), l)
    {
      EndKey(opcode, toProfile);
      store.ClearTaintForRegister(reg);
    }

    method SetTaintForMemory(start: int, size: nat, args: seq<Scratch>, opcode: nat, toProfile: bool, ghost l: Profiled)
      requires Valid() && l == Profiled(SetMem(start, size, args), opcode, toProfile)
      modifies store`memTaintMap, store`cells, store`arrays, store`state, store.arrays
      modifies prof`profStream, prof`pending, prof`profilingMap, prof`log
      ensures Does(settings, old(prof.Value()), old(store.state), l) && fresh(store.arrays - old(store.arrays))
    {
      EndKey(opcode, toProfile);
      store.SetTaintForMemory(start, size, args);
    }

    method ClearTaintForMemory(start: int, size: nat, opcode: nat, toProfile: bool, ghost l: Profiled)
      requires Valid() && l == Profiled(ClearMem(start, size), opcode, toProfile)
      modifies store`state, store.arrays
      modifies prof`profStream, prof`pending, prof`profilingMap, prof`log
      ensures Does(settings, old(prof.Value()), old(store.state), l)
    {
      EndKey(opcode, toProfile);
      store.ClearTaintForMemory(start, size);
    }

    /** The calls that neither print nor record. */
    method PerformPlainly(l: Profiled) returns (ok: bool)
      requires Valid() && (l.call.ClearSet? || l.call.NewTaint? || l.call.PushControl? || l.call.PopControl?)
      modifies store`regTaintMap, store`memTaintMap, store`controlTaintMap
      modifies store`cells, store`arrays, store`state, store.arrays
      ensures Valid() && fresh(store.arrays - old(store.arrays)) && (ok <==> Legal(l.call, store.width))
      ensures store.state == if ok then Step(old(store.state), l.call) else old(store.state)
      ensures prof.Value() == old(prof.Value())
    {
      ok := store.Perform(l.call);
    }

    method PerformStore(l: Profiled)
      requires Valid() && (l.call.SetReg? || l.call.ClearReg? || l.call.SetMem? || l.call.ClearMem?)
      modifies store`regTaintMap, store`memTaintMap, store`controlTaintMap
      modifies store`cells, store`arrays, store`state, store.arrays
      modifies prof
      ensures Does(settings, old(prof.Value()), old(store.state), l) && fresh(store.arrays - old(store.arrays))
    {
      match l.call {
        case SetReg(r, args) => SetTaintForRegister(r, args, l.opcode, l.toProfile, l);
        case ClearReg(r) => ClearTaintForRegister(r, l.opcode, l.toProfile, l);
        case SetMem(start, size, args) => SetTaintForMemory(start, size, args, l.opcode, l.toProfile, l);
        case ClearMem(start, size) => ClearTaintForMemory(start, size, l.opcode, l.toProfile, l);
      }
    }

    method Perform(l: Profiled) returns (ok: bool)
      requires Valid()
      modifies store`regTaintMap, store`memTaintMap, store`controlTaintMap
      modifies store`cells, store`arrays, store`state, store.arrays
      modifies prof
      ensures Valid() && fresh(store.arrays - old(store.arrays)) && (ok <==> Legal(l.call, store.width))
      ensures ok ==> Does(settings, old(prof.Value()), old(store.state), l)
      ensures !ok ==> store.state == old(store.state) && prof.Value() == old(prof.Value())
    {
      ok := true;
      if l.call.LoadReg? {
        TaintForRegister(l.call.reg, l.call.name, l);
      } else if l.call.LoadMem? {
        TaintForMemory(l.call.start, l.call.size, l.call.base, l.call.index, l.call.name, l.toProfile, l);
      } else if l.call.SetReg? || l.call.ClearReg? || l.call.SetMem? || l.call.ClearMem? {
        PerformStore(l);
      } else {
        ok := PerformPlainly(l);
      }
    }

    /** Over any run, the counts add up to the number of profiled stores that were not skipped. */
    method PerformAll(ls: seq<Profiled>) returns (n: nat)
      requires Valid() && prof.Value() == Prof([], [])
      modifies store`regTaintMap, store`memTaintMap, store`controlTaintMap
      modifies store`cells, store`arrays, store`state, store.arrays
      modifies prof
      ensures Valid() && n <= |ls| && (n < |ls| ==> !Legal(ls[n].call, store.width))
      ensures store.state == Run(old(store.state), CallsIn(ls[..n]))
      ensures prof.Value() == ProfileAll(settings, Prof([], []), old(store.state), ls[..n])
      ensures Total(prof.profilingMap) == Recorded(settings, ls[..n])
    {
      ghost var s, p := store.state, prof.Value();
      n := 0;
      var ok := true;
      while n < |ls| && ok
        invariant n <= |ls| && Came(ls, n, s, p) && fresh(store.arrays - old(store.arrays))
        invariant !ok ==> n < |ls| && !Legal(ls[n].call, store.width)
        decreases |ls| - n, ok
      {
        ghost var before := store.arrays;
        ok := PerformNext(ls, n, s, p);
        assert fresh(store.arrays - before);
        if ok {
          n := n + 1;
        }
      }
      LogGrows(settings, p, s, ls[..n]);
    }

    ghost predicate Came(ls: seq<Profiled>, n: nat, s: State, p: Prof)
      requires n <= |ls|
      reads store, store.arrays, prof
    {
      && Valid() && store.state == Run(s, CallsIn(ls[..n]))
      && prof.Value() == ProfileAll(settings, p, s, ls[..n])
    }

    method PerformNext(ls: seq<Profiled>, n: nat, ghost s: State, ghost p: Prof) returns (ok: bool)
      requires n < |ls| && Came(ls, n, s, p)
      modifies store`regTaintMap, store`memTaintMap, store`controlTaintMap
      modifies store`cells, store`arrays, store`state, store.arrays
      modifies prof
      ensures fresh(store.arrays - old(store.arrays)) && (ok <==> Legal(ls[n].call, store.width))
      ensures if ok then Came(ls, n + 1, s, p) else Came(ls, n, s, p)
    {
      NextCall(settings, p, s, ls, n);
      ok := Perform(ls[n]);
    }
  }

  lemma Joins(a: seq<Marks>, b: seq<Marks>, c: seq<Marks>, d: seq<Marks>)
    ensures a + b + c + d == a + (b + c + d)
  {
  }

  lemma LoadRegPrints(z: Settings, p: Prof, s: State, l: Profiled)
    requires l.call.LoadReg?
    ensures Profile(z, p, s, l) == if z.markop then Prof(p.pending + [Over(s, {InReg(l.call.reg)})], p.log) else p
  {
  }

  lemma PrintsNothing(z: Settings, p: Prof, s: State, l: Profiled)
    requires l.call.LoadMem?
    ensures !(z.markop && l.toProfile) ==> Profile(z, p, s, l) == p
  {
  }

  lemma NextCall(z: Settings, p: Prof, s: State, ls: seq<Profiled>, n: nat)
    requires n < |ls|
    ensures Run(s, CallsIn(ls[..n + 1])) == Step(Run(s, CallsIn(ls[..n])), ls[n].call)
    ensures ProfileAll(z, p, s, ls[..n + 1]) ==
            Profile(z, ProfileAll(z, p, s, ls[..n]), Run(s, CallsIn(ls[..n])), ls[n])
  {
    assert ls[..n + 1][..n] == ls[..n];
    assert CallsIn(ls[..n + 1]) == CallsIn(ls[..n]) + [ls[n].call];
    RunAll(s, CallsIn(ls[..n]), ls[n].call);
  }

  lemma ActiveIs(store: TaintStore)
    requires store.Valid()
    ensures Active(store.state.Keys) == store.controlTaintMap.Keys
  {
    forall a
      ensures a in Active(store.state.Keys) <==> a in store.controlTaintMap
    {
      assert a in store.controlTaintMap <==> InControl(a) in store.cells;
    }
  }

  lemma LeastFirst(s: State, branches: set<int>, a: int)
    requires IsLeast(a, branches)
    ensures BranchesShown(s, branches) == Shown(s, InControl(a)) + BranchesShown(s, branches - {a})
  {
    assert forall b :: IsLeast(b, branches) ==> b == a;
  }
}
