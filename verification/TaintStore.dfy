/**
  The taint store: maps from registers, memory bytes and active branches to bitsets on the
  heap, and eight scratch bitsets that the analysis calls pass values through.  Every call
  updates bitsets in place and is proved to make exactly the pure step of TaintState.
*/
module TaintStores {
  import opened Words
  import opened Bitsets
  import opened TaintState

  /** Which bitset is stored at which place. */
  type Cells = map<Place, Bitset>

  type Arrays = set<array<Word>>

  ghost predicate Separate(a: Bitset, b: Bitset) {
    a.bits != b.bits
  }

  /** No two places share their bits. */
  ghost predicate Apart(cells: Cells) {
    forall p, q {:trigger Separate(cells[p], cells[q])} :: p in cells && q in cells && p != q ==>
      Separate(cells[p], cells[q])
  }

  ghost predicate Within(cells: Cells, arrays: Arrays) {
    forall p :: p in cells ==> cells[p].bits in arrays
  }

  ghost predicate HoldsMarks(b: Bitset, m: Marks, width: nat)
    reads b.bits
  {
    b.Valid() && b.nbits == width && b.Marks() == m
  }

  ghost predicate Holds(cells: Cells, s: State, arrays: Arrays, width: nat)
    reads arrays
  {
    && Apart(cells) && Within(cells, arrays) && cells.Keys == s.Keys
    && forall p {:trigger HoldsMarks(cells[p], s[p], width)} :: p in cells ==> HoldsMarks(cells[p], s[p], width)
  }

  lemma ReplacesAll(before: Marks, width: nat)
    requires Bounded(before, width)
    ensures before - Below(before, BITS * Used(width)) == {}
  {
  }

  /** A bitset with marks m that is stored nowhere. */
  ghost predicate Loose(v: Bitset, m: Marks, arrays: Arrays, width: nat)
    reads v.bits
  {
    HoldsMarks(v, m, width) && v.bits !in arrays
  }

  /** Overwrites the marks of one place. */
  method Overwrite(b: Bitset, v: Bitset, ghost m: Marks, ghost p: Place, ghost cells: Cells, ghost s: State,
                   ghost arrays: Arrays, ghost width: nat)
    requires Holds(cells, s, arrays, width) && p in cells && cells[p] == b && Loose(v, m, arrays, width)
    modifies b.bits
    ensures Holds(cells, s[p := m], arrays, width) && Loose(v, m, arrays, width)
  {
    assert HoldsMarks(cells[p], s[p], width);
    ReplacesAll(b.Marks(), width);
    b.SetBits(v);
    ghost var now := s[p := m];
    forall q | q in cells
      ensures HoldsMarks(cells[q], now[q], width)
    {
      assert q != p ==> Separate(cells[q], cells[p]);
      assert old(HoldsMarks(cells[q], s[q], width));
    }
  }

  /** Stores a copy at a place, in a bitset of its own. */
  method Store(v: Bitset, ghost m: Marks, ghost p: Place, ghost cells: Cells, ghost s: State, ghost arrays: Arrays,
               ghost width: nat)
    returns (b: Bitset)
    requires Holds(cells, s, arrays, width) && Loose(v, m, arrays, width)
    ensures Holds(cells[p := b], s[p := m], arrays + {b.bits}, width) && fresh(b) && fresh(b.bits)
    ensures Loose(v, m, arrays + {b.bits}, width)
  {
    b := v.Copy();
    ghost var more, now := cells[p := b], s[p := m];
    forall q | q in more
      ensures HoldsMarks(more[q], now[q], width)
    {
      assert q != p ==> old(HoldsMarks(cells[q], s[q], width));
    }
    forall q, k | q in more && k in more && q != k
      ensures Separate(more[q], more[k])
    {
      assert q != p && k != p ==> Separate(cells[q], cells[k]);
      assert q != p ==> old(HoldsMarks(cells[q], s[q], width));
      assert k != p ==> old(HoldsMarks(cells[k], s[k], width));
    }
  }

  /** Makes an entry without marks. */
  method NewEntry(ghost p: Place, ghost cells: Cells, ghost s: State, ghost arrays: Arrays, width: nat)
    returns (b: Bitset)
    requires Holds(cells, s, arrays, width)
    ensures Holds(cells[p := b], s[p := {}], arrays + {b.bits}, width) && fresh(b) && fresh(b.bits)
  {
    b := new Bitset(width);
    ghost var more, now: State := cells[p := b], s[p := {}];
    forall q | q in more
      ensures HoldsMarks(more[q], now[q], width)
    {
      assert q != p ==> old(HoldsMarks(cells[q], s[q], width));
    }
    forall q, k | q in more && k in more && q != k
      ensures Separate(more[q], more[k])
    {
      assert q != p && k != p ==> Separate(cells[q], cells[k]);
      assert q != p ==> old(HoldsMarks(cells[q], s[q], width));
      assert k != p ==> old(HoldsMarks(cells[k], s[k], width));
    }
  }

  /** Adds the marks of one place to a bitset that is stored nowhere. */
  method Collect(v: Bitset, b: Bitset, ghost m: Marks, ghost p: Place, ghost cells: Cells, ghost s: State,
                 ghost arrays: Arrays, ghost width: nat)
    requires Holds(cells, s, arrays, width) && p in cells && cells[p] == b && Loose(v, m, arrays, width)
    modifies v.bits
    ensures Holds(cells, s, arrays, width) && Loose(v, m + s[p], arrays, width)
  {
    assert HoldsMarks(cells[p], s[p], width);
    v.Union(b);
    forall q | q in cells
      ensures HoldsMarks(cells[q], s[q], width)
    {
      assert old(HoldsMarks(cells[q], s[q], width));
    }
  }

  /** Gives place p the marks of place q. */
  method Transfer(b: Bitset, v: Bitset, ghost p: Place, ghost q: Place, ghost cells: Cells, ghost s: State,
                  ghost arrays: Arrays, ghost width: nat)
    requires Holds(cells, s, arrays, width) && p in cells && cells[p] == b && q in cells && cells[q] == v
    modifies b.bits
    ensures Holds(cells, s[p := s[q]], arrays, width)
  {
    assert HoldsMarks(cells[p], s[p], width) && HoldsMarks(cells[q], s[q], width);
    ReplacesAll(b.Marks(), width);
    b.SetBits(v);
    ghost var now := s[p := s[q]];
    forall k | k in cells
      ensures HoldsMarks(cells[k], now[k], width)
    {
      assert k != p ==> Separate(cells[k], cells[p]);
      assert old(HoldsMarks(cells[k], s[k], width));
    }
  }

  /** Adds the marks of place q to those of place p. */
  method Join(v: Bitset, b: Bitset, ghost p: Place, ghost q: Place, ghost cells: Cells, ghost s: State,
              ghost arrays: Arrays, ghost width: nat)
    requires Holds(cells, s, arrays, width) && p in cells && cells[p] == v && q in cells && cells[q] == b
    modifies v.bits
    ensures Holds(cells, s[p := s[p] + s[q]], arrays, width)
  {
    assert HoldsMarks(cells[p], s[p], width) && HoldsMarks(cells[q], s[q], width);
    v.Union(b);
    ghost var now := s[p := s[p] + s[q]];
    forall k | k in cells
      ensures HoldsMarks(cells[k], now[k], width)
    {
      assert k != p ==> Separate(cells[k], cells[p]);
      assert old(HoldsMarks(cells[k], s[k], width));
    }
  }

  method Empty(b: Bitset, ghost p: Place, ghost cells: Cells, ghost s: State, ghost arrays: Arrays, ghost width: nat)
    requires Holds(cells, s, arrays, width) && p in cells && cells[p] == b
    modifies b.bits
    ensures Holds(cells, s[p := {}], arrays, width)
  {
    assert HoldsMarks(cells[p], s[p], width);
    b.Reset();
    ghost var now: State := s[p := {}];
    forall q | q in cells
      ensures HoldsMarks(cells[q], now[q], width)
    {
      assert q != p ==> Separate(cells[q], cells[p]);
      assert old(HoldsMarks(cells[q], s[q], width));
    }
  }

  /** Adds the marks of one bitset that is stored nowhere to another. */
  method Merge(v: Bitset, b: Bitset, ghost m: Marks, ghost more: Marks, ghost cells: Cells, ghost s: State,
               ghost arrays: Arrays, ghost width: nat)
    requires Holds(cells, s, arrays, width) && Loose(v, m, arrays, width) && Loose(b, more, arrays, width)
    modifies v.bits
    ensures Holds(cells, s, arrays, width) && Loose(v, m + more, arrays, width)
  {
    v.Union(b);
    forall q | q in cells
      ensures HoldsMarks(cells[q], s[q], width)
    {
      assert old(HoldsMarks(cells[q], s[q], width));
    }
  }

  method SetLoose(s: Bitset, tag: nat, ghost cells: Cells, ghost state: State, ghost arrays: Arrays, ghost width: nat)
    requires Holds(cells, state, arrays, width) && Loose(s, {}, arrays, width) && tag < width
    modifies s.bits
    ensures Holds(cells, state, arrays, width) && Loose(s, {tag}, arrays, width)
  {
    s.SetBit(tag);
    forall q | q in cells
      ensures HoldsMarks(cells[q], state[q], width)
    {
      assert old(HoldsMarks(cells[q], state[q], width));
    }
  }

  method ResetLoose(s: Bitset, ghost m: Marks, ghost cells: Cells, ghost state: State, ghost arrays: Arrays,
                    ghost width: nat)
    requires Holds(cells, state, arrays, width) && Loose(s, m, arrays, width)
    modifies s.bits
    ensures Holds(cells, state, arrays, width) && Loose(s, {}, arrays, width)
  {
    s.Reset();
    forall q | q in cells
      ensures HoldsMarks(cells[q], state[q], width)
    {
      assert old(HoldsMarks(cells[q], state[q], width));
    }
  }

  lemma Dropped(cells: Cells, s: State, arrays: Arrays, width: nat, p: Place)
    requires Holds(cells, s, arrays, width)
    ensures Holds(cells - {p}, s - {p}, arrays, width)
  {
    var fewer, now := cells - {p}, s - {p};
    forall q | q in fewer
      ensures HoldsMarks(fewer[q], now[q], width)
    {
      assert HoldsMarks(cells[q], s[q], width);
    }
    forall q, k | q in fewer && k in fewer && q != k
      ensures Separate(fewer[q], fewer[k])
    {
      assert Separate(cells[q], cells[k]);
    }
  }

  ghost predicate IndexesRegs(regs: map<Reg, Bitset>, cells: Cells) {
    forall r {:trigger InReg(r)} {:trigger regs[r]} ::
      (r in regs <==> InReg(r) in cells) && (r in regs ==> regs[r] == cells[InReg(r)])
  }

  ghost predicate IndexesMem(mem: map<int, Bitset>, cells: Cells) {
    forall a {:trigger InMem(a)} {:trigger mem[a]} ::
      (a in mem <==> InMem(a) in cells) && (a in mem ==> mem[a] == cells[InMem(a)])
  }

  ghost predicate IndexesControl(control: map<int, Bitset>, cells: Cells) {
    forall a {:trigger InControl(a)} {:trigger control[a]} ::
      (a in control <==> InControl(a) in cells) && (a in control ==> control[a] == cells[InControl(a)])
  }

  ghost predicate IndexesScratch(scratch: map<Scratch, Bitset>, cells: Cells) {
    forall n: Scratch {:trigger InScratch(n)} {:trigger scratch[n]} ::
      (n in scratch && InScratch(n) in cells) && scratch[n] == cells[InScratch(n)]
  }

  /** The three maps and the scratch sets, seen as one map from places. */
  ghost predicate Indexed(regs: map<Reg, Bitset>, mem: map<int, Bitset>, control: map<int, Bitset>,
                          scratch: map<Scratch, Bitset>, cells: Cells)
  {
    && IndexesRegs(regs, cells) && IndexesMem(mem, cells)
    && IndexesControl(control, cells) && IndexesScratch(scratch, cells)
  }

  lemma IndexedReg(regs: map<Reg, Bitset>, mem: map<int, Bitset>, control: map<int, Bitset>,
                   scratch: map<Scratch, Bitset>, cells: Cells, r: Reg, b: Bitset)
    requires Indexed(regs, mem, control, scratch, cells)
    ensures Indexed(regs[r := b], mem, control, scratch, cells[InReg(r) := b])
  {
    var more, larger := regs[r := b], cells[InReg(r) := b];
    assert IndexesRegs(more, larger);
    assert IndexesMem(mem, larger);
    assert IndexesControl(control, larger);
    forall n: Scratch
      ensures (n in scratch && InScratch(n) in larger) && scratch[n] == larger[InScratch(n)]
    {
      assert InScratch(n) in cells;
    }
  }

  lemma IndexedMem(regs: map<Reg, Bitset>, mem: map<int, Bitset>, control: map<int, Bitset>,
                   scratch: map<Scratch, Bitset>, cells: Cells, a: int, b: Bitset)
    requires Indexed(regs, mem, control, scratch, cells)
    ensures Indexed(regs, mem[a := b], control, scratch, cells[InMem(a) := b])
    ensures Indexed(regs, mem - {a}, control, scratch, cells - {InMem(a)})
  {
    var more, larger := mem[a := b], cells[InMem(a) := b];
    assert IndexesRegs(regs, larger);
    assert IndexesMem(more, larger);
    assert IndexesControl(control, larger);
    forall n: Scratch
      ensures (n in scratch && InScratch(n) in larger) && scratch[n] == larger[InScratch(n)]
    {
      assert InScratch(n) in cells;
    }
    var less, smaller := mem - {a}, cells - {InMem(a)};
    assert IndexesRegs(regs, smaller);
    assert IndexesMem(less, smaller);
    assert IndexesControl(control, smaller);
    forall n: Scratch
      ensures (n in scratch && InScratch(n) in smaller) && scratch[n] == smaller[InScratch(n)]
    {
      assert InScratch(n) in cells;
    }
  }

  lemma IndexedControl(regs: map<Reg, Bitset>, mem: map<int, Bitset>, control: map<int, Bitset>,
                       scratch: map<Scratch, Bitset>, cells: Cells, a: int, b: Bitset)
    requires Indexed(regs, mem, control, scratch, cells)
    ensures Indexed(regs, mem, control[a := b], scratch, cells[InControl(a) := b])
    ensures Indexed(regs, mem, control - {a}, scratch, cells - {InControl(a)})
  {
    var more, larger := control[a := b], cells[InControl(a) := b];
    assert IndexesRegs(regs, larger);
    assert IndexesMem(mem, larger);
    assert IndexesControl(more, larger);
    forall n: Scratch
      ensures (n in scratch && InScratch(n) in larger) && scratch[n] == larger[InScratch(n)]
    {
      assert InScratch(n) in cells;
    }
    var less, smaller := control - {a}, cells - {InControl(a)};
    assert IndexesRegs(regs, smaller);
    assert IndexesMem(mem, smaller);
    assert IndexesControl(less, smaller);
    forall n: Scratch
      ensures (n in scratch && InScratch(n) in smaller) && scratch[n] == smaller[InScratch(n)]
    {
      assert InScratch(n) in cells;
    }
  }

  /** The scratch sets that are already there. */
  ghost predicate HasSets(names: seq<Scratch>, sets: map<Scratch, Bitset>, cells: Cells) {
    forall n :: n in names ==> n in sets && InScratch(n) in cells && sets[n] == cells[InScratch(n)]
  }

  method AddScratchSet(n: Scratch, sets: map<Scratch, Bitset>, ghost names: seq<Scratch>,
                       ghost cells: Cells, ghost arrays: Arrays, width: nat)
    returns (sets': map<Scratch, Bitset>, ghost cells': Cells, ghost b: Bitset)
    requires Holds(cells, EmptySets(names), arrays, width) && HasSets(names, sets, cells)
    ensures Holds(cells', EmptySets(names + [n]), arrays + {b.bits}, width) && HasSets(names + [n], sets', cells')
    ensures fresh(b.bits)
  {
    var bits := NewEntry(InScratch(n), cells, EmptySets(names), arrays, width);
    assert EmptySets(names + [n]) == EmptySets(names)[InScratch(n) := {}];
    b, sets', cells' := bits, sets[n := bits], cells[InScratch(n) := bits];
  }

  method AddScratchSets(names: seq<Scratch>, width: nat)
    returns (sets: map<Scratch, Bitset>, ghost cells: Cells, ghost arrays: Arrays)
    ensures Holds(cells, EmptySets(names), arrays, width) && HasSets(names, sets, cells) && fresh(arrays)
  {
    sets, cells, arrays := map[], map[], {};
    for i := 0 to |names|
      invariant Holds(cells, EmptySets(names[..i]), arrays, width) && HasSets(names[..i], sets, cells)
      invariant fresh(arrays)
    {
      ghost var b;
      sets, cells, b := AddScratchSet(names[i], sets, names[..i], cells, arrays, width);
      assert names[..i + 1] == names[..i] + [names[i]];
      arrays := arrays + {b.bits};
    }
    assert names[..|names|] == names;
  }

  lemma IndexedAtStart(names: seq<Scratch>, sets: map<Scratch, Bitset>, cells: Cells)
    requires HasSets(names, sets, cells) && cells.Keys == EmptySets(names).Keys && names == ScratchNames()
    ensures Indexed(map[], map[], map[], sets, cells)
  {
    forall n: Scratch
      ensures (n in sets && InScratch(n) in cells) && sets[n] == cells[InScratch(n)]
    {
      AllScratchNamed(n);
    }
  }

  class TaintStore {
    const width: nat
    const scratch: map<Scratch, Bitset>
    var regTaintMap: map<Reg, Bitset>
    var memTaintMap: map<int, Bitset>
    var controlTaintMap: map<int, Bitset>

    ghost var cells: Cells
    ghost var arrays: Arrays
    ghost var state: State

    ghost predicate Valid()
      reads this, arrays
    {
      && Indexed(regTaintMap, memTaintMap, controlTaintMap, scratch, cells)
      && Holds(cells, state, arrays, width)
    }

    constructor (width: nat)
      ensures Valid() && state == Start() && this.width == width && fresh(arrays)
      ensures regTaintMap == map[] && memTaintMap == map[] && controlTaintMap == map[]
    {
      var sets;
      ghost var c, a;
      sets, c, a := AddScratchSets(ScratchNames(), width);
      IndexedAtStart(ScratchNames(), sets, c);
      this.width, scratch := width, sets;
      regTaintMap, memTaintMap, controlTaintMap := map[], map[], map[];
      cells, arrays, state := c, a, Start();
    }

    // ------------------------------------------------------ one entry

    method EnterRegister(r: Reg, b: Bitset, ghost m: Marks)
      requires Indexed(regTaintMap, memTaintMap, controlTaintMap, scratch, cells)
      requires Holds(cells[InReg(r) := b], state[InReg(r) := m], arrays + {b.bits}, width)
      modifies this`regTaintMap, this`cells, this`arrays, this`state
      ensures Valid() && state == old(state)[InReg(r) := m] && arrays == old(arrays) + {b.bits}
    {
      IndexedReg(regTaintMap, memTaintMap, controlTaintMap, scratch, cells, r, b);
      regTaintMap, cells := regTaintMap[r := b], cells[InReg(r) := b];
      arrays, state := arrays + {b.bits}, state[InReg(r) := m];
    }

    method AddRegister(r: Reg, v: Bitset, ghost m: Marks)
      requires Valid() && Loose(v, m, arrays, width)
      modifies this`regTaintMap, this`cells, this`arrays, this`state
      ensures Valid() && state == old(state)[InReg(r) := m]
      ensures Loose(v, m, arrays, width) && fresh(arrays - old(arrays))
    {
      var b := Store(v, m, InReg(r), cells, state, arrays, width);
      EnterRegister(r, b, m);
    }

    method SetRegister(r: Reg, v: Bitset, ghost m: Marks)
      requires Valid() && Loose(v, m, arrays, width)
      modifies this`regTaintMap, this`cells, this`arrays, this`state, arrays
      ensures Valid() && state == old(state)[InReg(r) := m]
      ensures Loose(v, m, arrays, width) && fresh(arrays - old(arrays))
    {
      if r in regTaintMap {
        Overwrite(regTaintMap[r], v, m, InReg(r), cells, state, arrays, width);
        state := state[InReg(r) := m];
      } else {
        AddRegister(r, v, m);
      }
    }

    method EnterByte(a: int, b: Bitset, ghost m: Marks)
      requires Indexed(regTaintMap, memTaintMap, controlTaintMap, scratch, cells)
      requires Holds(cells[InMem(a) := b], state[InMem(a) := m], arrays + {b.bits}, width)
      modifies this`memTaintMap, this`cells, this`arrays, this`state
      ensures Valid() && state == old(state)[InMem(a) := m] && arrays == old(arrays) + {b.bits}
    {
      IndexedMem(regTaintMap, memTaintMap, controlTaintMap, scratch, cells, a, b);
      memTaintMap, cells := memTaintMap[a := b], cells[InMem(a) := b];
      arrays, state := arrays + {b.bits}, state[InMem(a) := m];
    }

    method AddByte(a: int, v: Bitset, ghost m: Marks)
      requires Valid() && Loose(v, m, arrays, width)
      modifies this`memTaintMap, this`cells, this`arrays, this`state
      ensures Valid() && state == old(state)[InMem(a) := m]
      ensures Loose(v, m, arrays, width) && fresh(arrays - old(arrays))
    {
      var b := Store(v, m, InMem(a), cells, state, arrays, width);
      EnterByte(a, b, m);
    }

    method SetByte(a: int, v: Bitset, ghost m: Marks)
      requires Valid() && Loose(v, m, arrays, width)
      modifies this`memTaintMap, this`cells, this`arrays, this`state, arrays
      ensures Valid() && state == old(state)[InMem(a) := m]
      ensures Loose(v, m, arrays, width) && fresh(arrays - old(arrays))
    {
      if a in memTaintMap {
        Overwrite(memTaintMap[a], v, m, InMem(a), cells, state, arrays, width);
        state := state[InMem(a) := m];
      } else {
        AddByte(a, v, m);
      }
    }

    method ResetRegister(r: Reg, v: Bitset, ghost m: Marks)
      requires Valid() && Loose(v, m, arrays, width)
      modifies this`state, arrays
      ensures Valid() && state == if InReg(r) in old(state) then old(state)[InReg(r) := m] else old(state)
      ensures Loose(v, m, arrays, width)
    {
      if r in regTaintMap {
        Overwrite(regTaintMap[r], v, m, InReg(r), cells, state, arrays, width);
        state := state[InReg(r) := m];
      }
    }

    method ResetByte(a: int, v: Bitset, ghost m: Marks)
      requires Valid() && Loose(v, m, arrays, width)
      modifies this`state, arrays
      ensures Valid() && state == if InMem(a) in old(state) then old(state)[InMem(a) := m] else old(state)
      ensures Loose(v, m, arrays, width)
    {
      if a in memTaintMap {
        Overwrite(memTaintMap[a], v, m, InMem(a), cells, state, arrays, width);
        state := state[InMem(a) := m];
      }
    }

    // ------------------------------------------------------ values

    /** The union of the scratch sets named in the argument list. */
    method Arguments(args: seq<Scratch>) returns (tmp: Bitset)
      requires Valid()
      ensures Valid() && Loose(tmp, Over(state, Named(args)), arrays, width) && fresh(tmp) && fresh(tmp.bits)
    {
      tmp := new Bitset(width);
      OverNone(state);
      for i := 0 to |args|
        invariant Holds(cells, state, arrays, width) && Loose(tmp, Over(state, Named(args[..i])), arrays, width)
      {
        ghost var p := InScratch(args[i]);
        OneMoreArg(args, i);
        OverOne(state, Named(args[..i]), p);
        Collect(tmp, scratch[args[i]], Over(state, Named(args[..i])), p, cells, state, arrays, width);
      }
      assert args[..|args|] == args;
    }

    /** The union of the marks of all active branches. */
    method ControlTaint() returns (controlTaint: Bitset)
      requires Valid()
      ensures Valid() && Loose(controlTaint, Over(state, Branches(state.Keys)), arrays, width)
      ensures fresh(controlTaint) && fresh(controlTaint.bits)
    {
      controlTaint := new Bitset(width);
      OverNone(state);
      ghost var done: set<Place> := {};
      var todo := controlTaintMap.Keys;
      while exists a :: a in todo
        invariant todo <= controlTaintMap.Keys
        invariant forall p :: p in Branches(state.Keys) <==> p in done || (p.InControl? && p.branch in todo)
        invariant Holds(cells, state, arrays, width) && Loose(controlTaint, Over(state, done), arrays, width)
        decreases todo
      {
        var a :| a in todo;
        OverOne(state, done, InControl(a));
        Collect(controlTaint, controlTaintMap[a], Over(state, done), InControl(a), cells, state, arrays, width);
        done, todo := done + {InControl(a)}, todo - {a};
      }
      assert done == Branches(state.Keys);
    }

    // ------------------------------------------------------ loads

    method ClearTaintSet(n: Scratch)
      requires Valid()
      modifies this`state, arrays
      ensures Valid() && state == Step(old(state), ClearSet(n))
    {
      ClearSetStep(state, n);
      Empty(scratch[n], InScratch(n), cells, state, arrays, width);
      state := state[InScratch(n) := {}];
    }

    method LoadRegister(reg: Reg, n: Scratch, ghost m: Marks)
      requires Valid() && m == if InReg(reg) in state then state[InReg(reg)] else {}
      modifies this`state, arrays
      ensures Valid() && state == old(state)[InScratch(n) := m]
    {
      ghost var p := InScratch(n);
      if reg in regTaintMap {
        Transfer(scratch[n], regTaintMap[reg], p, InReg(reg), cells, state, arrays, width);
      } else {
        Empty(scratch[n], p, cells, state, arrays, width);
      }
      state := state[p := m];
    }

    method TaintForRegister(reg: Reg, n: Scratch)
      requires Valid()
      modifies this`state, arrays
      ensures Valid() && state == Step(old(state), LoadReg(reg, n))
    {
      LoadRegStep(state, reg, n);
      OverThis(state, InReg(reg));
      LoadRegister(reg, n, Over(state, {InReg(reg)}));
    }

    /** Adds a register's marks to a scratch set that already holds those of some other places. */
    method AddTaintOf(reg: Reg, n: Scratch, ghost s: State, ghost places: set<Place>)
      requires Valid() && InScratch(n) in s && state == s[InScratch(n) := Over(s, places)]
      modifies this`state, arrays
      ensures Valid() && state == s[InScratch(n) := Over(s, places + Registers(Usable(reg)))]
    {
      OverValid(s, places, reg);
      if !reg.Invalid? && reg in regTaintMap {
        Join(scratch[n], regTaintMap[reg], InScratch(n), InReg(reg), cells, state, arrays, width);
        state := s[InScratch(n) := Over(s, places + Registers(Usable(reg)))];
      }
    }

    method AddTaintOfByte(a: int, n: Scratch, ghost s: State, ghost places: set<Place>)
      requires Valid() && InScratch(n) in s && state == s[InScratch(n) := Over(s, places)]
      modifies this`state, arrays
      ensures Valid() && state == s[InScratch(n) := Over(s, places + {InMem(a)})]
    {
      OverOne(s, places, InMem(a));
      if a in memTaintMap {
        Join(scratch[n], memTaintMap[a], InScratch(n), InMem(a), cells, state, arrays, width);
        state := s[InScratch(n) := Over(s, places + {InMem(a)})];
      }
    }

    method AddTaintOfBytes(start: int, size: nat, n: Scratch, ghost s: State)
      requires Valid() && InScratch(n) in s && state == s[InScratch(n) := {}]
      modifies this`state, arrays
      ensures Valid() && state == s[InScratch(n) := Over(s, Bytes(start, size))]
    {
      OneMoreByte(start, 0);
      OverNone(s);
      for i := 0 to size
        invariant Valid() && state == s[InScratch(n) := Over(s, Bytes(start, i))]
      {
        OneMoreByte(start, i);
        AddTaintOfByte(start + i, n, s, Bytes(start, i));
      }
    }

    /** Collects the marks of a range of bytes and of the registers that addressed it. */
    method TaintForMemory(start: int, size: nat, baseReg: Reg, indexReg: Reg, n: Scratch)
      requires Valid()
      modifies this`state, arrays
      ensures Valid() && state == Step(old(state), LoadMem(start, size, baseReg, indexReg, n))
    {
      ghost var s, places, p := state, Bytes(start, size), InScratch(n);
      Empty(scratch[n], InScratch(n), cells, state, arrays, width);
      state := state[InScratch(n) := {}];
      AddTaintOfBytes(start, size, n, s);
      AddTaintOf(baseReg, n, s, places);
      AddTaintOf(indexReg, n, s, places + Registers(Usable(baseReg)));
      LoadMemStep(s, start, size, baseReg, indexReg, n);
    }

    // ------------------------------------------------------ stores

    method SetNextRegister(r: Reg, v: Bitset, ghost m: Marks, ghost s: State, ghost places: seq<Place>, ghost n: nat)
      requires Valid() && Loose(v, m, arrays, width)
      requires n < |places| && places[n] == InReg(r) && state == AssignFirst(s, places, n, m)
      modifies this`regTaintMap, this`cells, this`arrays, this`state, arrays
      ensures Valid() && state == AssignFirst(s, places, n + 1, m)
      ensures Loose(v, m, arrays, width) && fresh(arrays - old(arrays))
    {
      AssignNext(s, places, n, m);
      SetRegister(r, v, m);
    }

    method ResetNextRegister(r: Reg, v: Bitset, ghost m: Marks, ghost s: State, ghost places: seq<Place>, ghost n: nat)
      requires Valid() && Loose(v, m, arrays, width)
      requires n < |places| && places[n] == InReg(r) && state == ResetFirst(s, places, n, m)
      modifies this`state, arrays
      ensures Valid() && state == ResetFirst(s, places, n + 1, m) && Loose(v, m, arrays, width)
    {
      ResetNextOf(s, places, n, m);
      ResetRegister(r, v, m);
    }

    method SetNextByte(a: int, v: Bitset, ghost m: Marks, ghost s: State, ghost places: seq<Place>, ghost n: nat)
      requires Valid() && Loose(v, m, arrays, width)
      requires n < |places| && places[n] == InMem(a) && state == AssignFirst(s, places, n, m)
      modifies this`memTaintMap, this`cells, this`arrays, this`state, arrays
      ensures Valid() && state == AssignFirst(s, places, n + 1, m)
      ensures Loose(v, m, arrays, width) && fresh(arrays - old(arrays))
    {
      AssignNext(s, places, n, m);
      SetByte(a, v, m);
    }

    method ResetNextByte(a: int, v: Bitset, ghost m: Marks, ghost s: State, ghost places: seq<Place>, ghost n: nat)
      requires Valid() && Loose(v, m, arrays, width)
      requires n < |places| && places[n] == InMem(a) && state == ResetFirst(s, places, n, m)
      modifies this`state, arrays
      ensures Valid() && state == ResetFirst(s, places, n + 1, m) && Loose(v, m, arrays, width)
    {
      ResetNextOf(s, places, n, m);
      ResetByte(a, v, m);
    }

    /** Copies v into the entries of the first n of these registers, making entries where there are none. */
    method SetRegisters(rs: seq<Reg>, n: nat, v: Bitset, ghost m: Marks, ghost s: State, ghost places: seq<Place>)
      requires Valid() && Loose(v, m, arrays, width) && state == s && n <= |rs|
      requires |places| == |rs| && forall i :: 0 <= i < |rs| ==> places[i] == InReg(rs[i])
      modifies this`regTaintMap, this`cells, this`arrays, this`state, arrays
      ensures Valid() && state == AssignFirst(s, places, n, m)
      ensures Loose(v, m, arrays, width) && fresh(arrays - old(arrays))
    {
      if n > 0 {
        SetRegisters(rs, n - 1, v, m, s, places);
        ghost var before := arrays;
        SetNextRegister(rs[n - 1], v, m, s, places, n - 1);
        assert fresh(arrays - before);
      }
    }

    /** Copies v into the entries of these registers that exist. */
    method ResetRegisters(rs: seq<Reg>, v: Bitset, ghost m: Marks, ghost places: seq<Place>)
      requires Valid() && Loose(v, m, arrays, width)
      requires |places| == |rs| && forall i :: 0 <= i < |rs| ==> places[i] == InReg(rs[i])
      modifies this`state, arrays
      ensures Valid() && state == ResetFirst(old(state), places, |places|, m)
    {
      ghost var s := state;
      for i := 0 to |rs|
        invariant Valid() && Loose(v, m, arrays, width) && state == ResetFirst(s, places, i, m)
      {
        ResetNextRegister(rs[i], v, m, s, places, i);
      }
    }

    method SetBytes(start: int, size: nat, v: Bitset, ghost m: Marks, ghost places: seq<Place>)
      requires Valid() && Loose(v, m, arrays, width)
      requires |places| == size && forall i :: 0 <= i < size ==> places[i] == InMem(start + i)
      modifies this`memTaintMap, this`cells, this`arrays, this`state, arrays
      ensures Valid() && state == AssignFirst(old(state), places, |places|, m)
      ensures fresh(arrays - old(arrays))
    {
      ghost var s := state;
      for i := 0 to size
        invariant Valid() && Loose(v, m, arrays, width) && state == AssignFirst(s, places, i, m)
        invariant fresh(arrays - old(arrays))
      {
        ghost var before := arrays;
        SetNextByte(start + i, v, m, s, places, i);
        assert fresh(arrays - before);
      }
    }

    method ResetBytes(start: int, size: nat, v: Bitset, ghost m: Marks, ghost places: seq<Place>)
      requires Valid() && Loose(v, m, arrays, width)
      requires |places| == size && forall i :: 0 <= i < size ==> places[i] == InMem(start + i)
      modifies this`state, arrays
      ensures Valid() && state == ResetFirst(old(state), places, |places|, m)
    {
      ghost var s := state;
      for i := 0 to size
        invariant Valid() && Loose(v, m, arrays, width) && state == ResetFirst(s, places, i, m)
      {
        ResetNextByte(start + i, v, m, s, places, i);
      }
    }

    /** The union of the named scratch sets and of the marks of all active branches. */
    method ArgumentsAndControl(args: seq<Scratch>) returns (tmp: Bitset)
      requires Valid()
      ensures Valid() && Loose(tmp, Over(state, Named(args) + Branches(state.Keys)), arrays, width)
      ensures fresh(tmp) && fresh(tmp.bits)
    {
      tmp := Arguments(args);
      var controlTaint := ControlTaint();
      OverBoth(state, Named(args), Branches(state.Keys));
      Merge(tmp, controlTaint, Over(state, Named(args)), Over(state, Branches(state.Keys)),
            cells, state, arrays, width);
    }

    method SetTaintForRegister(reg: Reg, args: seq<Scratch>)
      requires Valid()
      modifies this`regTaintMap, this`cells, this`arrays, this`state, arrays
      ensures Valid() && state == Step(old(state), SetReg(reg, args))
      ensures fresh(arrays - old(arrays))
    {
      ghost var m := Over(state, Named(args) + Branches(state.Keys));
      if reg == ESP || reg == EBP {
        AssignNone(state, m);
        return;
      }
      SetRegStep(state, reg, args, m);
      var tmp := ArgumentsAndControl(args);
      SetRegisters(Parts(reg) + [reg], |Parts(reg)| + 1, tmp, m, state, PartList(reg));
    }

    method ClearTaintForRegister(reg: Reg)
      requires Valid()
      modifies this`state, arrays
      ensures Valid() && state == Step(old(state), ClearReg(reg))
    {
      ghost var m := Over(state, Branches(state.Keys));
      ClearRegStep(state, reg, m);
      var controlTaint := ControlTaint();
      ResetRegisters(Parts(reg) + [reg], controlTaint, m, PartList(reg));
    }

    method SetTaintForMemory(start: int, size: nat, args: seq<Scratch>)
      requires Valid()
      modifies this`memTaintMap, this`cells, this`arrays, this`state, arrays
      ensures Valid() && state == Step(old(state), SetMem(start, size, args))
      ensures fresh(arrays - old(arrays))
    {
      ghost var m := Over(state, Named(args) + Branches(state.Keys));
      SetMemStep(state, start, size, args, m);
      var tmp := ArgumentsAndControl(args);
      SetBytes(start, size, tmp, m, ByteList(start, size));
    }

    method ClearTaintForMemory(start: int, size: nat)
      requires Valid()
      modifies this`state, arrays
      ensures Valid() && state == Step(old(state), ClearMem(start, size))
    {
      ghost var m := Over(state, Branches(state.Keys));
      ClearMemStep(state, start, size, m);
      var controlTaint := ControlTaint();
      ResetBytes(start, size, controlTaint, m, ByteList(start, size));
    }

    /** Gives a range of bytes one new mark; false where the program aborts. */
    method SetNewTaintForMemory(start: int, size: nat, taintMark: int) returns (ok: bool)
      requires Valid()
      modifies this`memTaintMap, this`cells, this`arrays, this`state
      ensures Valid() && fresh(arrays - old(arrays))
      ensures ok <==> 0 <= taintMark < width
      ensures state == if ok then Step(old(state), NewTaint(start, size, taintMark)) else old(state)
    {
      ok := 0 <= taintMark < width;
      if ok {
        var tmp := new Bitset(width);
        tmp.SetBit(taintMark);
        NewTaintStep(state, start, size, taintMark);
        NewBytes(start, size, tmp, {taintMark}, ByteList(start, size));
      }
    }

    /** Stores a copy of the empty bitset s with one bit set, and resets s. */
    method StoreMark(s: Bitset, a: int, tag: nat)
      requires Valid() && Loose(s, {}, arrays, width) && tag < width
      modifies s.bits, this`memTaintMap, this`cells, this`arrays, this`state
      ensures Valid() && Loose(s, {}, arrays, width) && fresh(arrays - old(arrays))
      ensures state == old(state)[InMem(a) := {tag}]
    {
      SetLoose(s, tag, cells, state, arrays, width);
      AddByte(a, s, {tag});
      ResetLoose(s, {tag}, cells, state, arrays, width);
    }

    /** Stores a new copy of v for every byte of the range, also where there was an entry. */
    method NewBytes(start: int, size: nat, v: Bitset, ghost m: Marks, ghost places: seq<Place>)
      requires Valid() && Loose(v, m, arrays, width)
      requires |places| == size && forall i :: 0 <= i < size ==> places[i] == InMem(start + i)
      modifies this`memTaintMap, this`cells, this`arrays, this`state
      ensures Valid() && state == AssignFirst(old(state), places, |places|, m)
      ensures fresh(arrays - old(arrays))
    {
      ghost var s := state;
      for i := 0 to size
        invariant Valid() && Loose(v, m, arrays, width) && state == AssignFirst(s, places, i, m)
        invariant fresh(arrays - old(arrays))
      {
        NewNextByte(start + i, v, m, s, places, i);
      }
    }

    method NewNextByte(a: int, v: Bitset, ghost m: Marks, ghost s: State, ghost places: seq<Place>, ghost n: nat)
      requires Valid() && Loose(v, m, arrays, width)
      requires n < |places| && places[n] == InMem(a) && state == AssignFirst(s, places, n, m)
      modifies this`memTaintMap, this`cells, this`arrays, this`state
      ensures Valid() && state == AssignFirst(s, places, n + 1, m)
      ensures Loose(v, m, arrays, width) && fresh(arrays - old(arrays))
    {
      AssignNext(s, places, n, m);
      AddByte(a, v, m);
    }

    // ------------------------------------------------------ active branches

    method OpenBranch(a: int)
      requires Valid()
      modifies this`controlTaintMap, this`cells, this`arrays, this`state
      ensures Valid() && fresh(arrays - old(arrays)) && InControl(a) in state
      ensures state == if InControl(a) in old(state) then old(state) else old(state)[InControl(a) := {}]
    {
      if a !in controlTaintMap {
        var b := NewEntry(InControl(a), cells, state, arrays, width);
        IndexedControl(regTaintMap, memTaintMap, controlTaintMap, scratch, cells, a, b);
        controlTaintMap, cells := controlTaintMap[a := b], cells[InControl(a) := b];
        arrays, state := arrays + {b.bits}, state[InControl(a) := {}];
      }
    }

    /** Whether the flags carry marks. */
    method FlagsTainted() returns (yes: bool)
      requires Valid()
      ensures yes <==> Pushes(state)
    {
      if EFLAGS !in regTaintMap {
        assert InReg(EFLAGS) !in state;
        return false;
      }
      assert HoldsMarks(cells[InReg(EFLAGS)], state[InReg(EFLAGS)], width);
      OverThis(state, InReg(EFLAGS));
      var none := regTaintMap[EFLAGS].IsEmpty();
      return !none;
    }

    method PushControl(a: int)
      requires Valid()
      modifies this`controlTaintMap, this`cells, this`arrays, this`state, arrays
      ensures Valid() && state == Step(old(state), TaintState.PushControl(a))
      ensures fresh(arrays - old(arrays))
    {
      var yes := FlagsTainted();
      if yes {
        Push(a);
      }
    }

    method Push(a: int)
      requires Valid() && Pushes(state)
      modifies this`controlTaintMap, this`cells, this`arrays, this`state, arrays
      ensures Valid() && state == Step(old(state), TaintState.PushControl(a))
      ensures fresh(arrays - old(arrays))
    {
      PushStep(state, a);
      OpenBranch(a);
      AddFlags(a);
    }

    method AddFlags(a: int)
      requires Valid() && InControl(a) in state && InReg(EFLAGS) in state
      modifies this`state, arrays
      ensures Valid() && state == old(state)[InControl(a) := old(state)[InControl(a)] + old(state)[InReg(EFLAGS)]]
    {
      Join(controlTaintMap[a], regTaintMap[EFLAGS], InControl(a), InReg(EFLAGS), cells, state, arrays, width);
      state := state[InControl(a) := state[InControl(a)] + state[InReg(EFLAGS)]];
    }

    method CloseBranch(a: int)
      requires Valid() && a in controlTaintMap
      modifies this`controlTaintMap, this`cells, this`state
      ensures Valid() && state == old(state) - {InControl(a)}
    {
      Dropped(cells, state, arrays, width, InControl(a));
      IndexedControl(regTaintMap, memTaintMap, controlTaintMap, scratch, cells, a, controlTaintMap[a]);
      controlTaintMap, cells, state := controlTaintMap - {a}, cells - {InControl(a)}, state - {InControl(a)};
    }

    method PopControl(branches: seq<int>)
      requires Valid()
      modifies this`controlTaintMap, this`cells, this`state
      ensures Valid() && state == Step(old(state), TaintState.PopControl(branches))
    {
      var n := 0;
      while n < |branches|
        invariant n <= |branches| && Valid() && arrays == old(arrays)
        invariant Pop(old(state), branches) == Pop(state, branches[n..])
      {
        assert branches[n..][0] == branches[n] && branches[n..][1..] == branches[n + 1..];
        if branches[n] !in controlTaintMap {
          return;
        }
        CloseBranch(branches[n]);
        n := n + 1;
      }
    }

    // ------------------------------------------------------ untagging

    method ForgetByte(a: int)
      requires Valid() && a in memTaintMap
      modifies this`memTaintMap, this`cells, this`state
      ensures Valid() && state == old(state) - {InMem(a)} && memTaintMap == old(memTaintMap) - {a}
    {
      Dropped(cells, state, arrays, width, InMem(a));
      IndexedMem(regTaintMap, memTaintMap, controlTaintMap, scratch, cells, a, memTaintMap[a]);
      memTaintMap, cells, state := memTaintMap - {a}, cells - {InMem(a)}, state - {InMem(a)};
    }

    /** Erases the entries from start up to the first byte that has none. */
    method ClearTagsForByteRange(start: int) returns (n: nat)
      requires Valid()
      modifies this`memTaintMap, this`cells, this`state
      ensures Valid() && n == TagRun(old(state), start) && state == old(state) - Bytes(start, n)
    {
      ghost var s := state;
      n := 0;
      NoneErased(s, start);
      while start + n in memTaintMap
        invariant Valid() && Erased(s, start, n, state)
        decreases memTaintMap.Keys
      {
        OneMoreErased(s, start, n, state);
        ForgetByte(start + n);
        n := n + 1;
      }
      ErasedRun(s, start, n, state);
      TagRunIsUnique(s, start, n, TagRun(s, start));
    }

    // ------------------------------------------------------ runs

    /** Makes one call; false where the program aborts because of an illegal mark. */
    method Perform(c: Call) returns (ok: bool)
      requires Valid()
      modifies this`regTaintMap, this`memTaintMap, this`controlTaintMap, this`cells, this`arrays, this`state, arrays
      ensures Valid() && fresh(arrays - old(arrays))
      ensures ok <==> Legal(c, width)
      ensures state == if ok then Step(old(state), c) else old(state)
    {
      ok := true;
      match c {
        case ClearSet(n) => ClearTaintSet(n);
        case LoadReg(r, n) => TaintForRegister(r, n);
        case LoadMem(start, size, base, index, n) => TaintForMemory(start, size, base, index, n);
        case SetReg(r, args) => SetTaintForRegister(r, args);
        case ClearReg(r) => ClearTaintForRegister(r);
        case SetMem(start, size, args) => SetTaintForMemory(start, size, args);
        case ClearMem(start, size) => ClearTaintForMemory(start, size);
        case NewTaint(start, size, mark) => ok := SetNewTaintForMemory(start, size, mark);
        case PushControl(a) => PushControl(a);
        case PopControl(branches) => PopControl(branches);
      }
    }

    /** Makes calls one after another; n of them are made before the program aborts, if it does. */
    method PerformAll(calls: seq<Call>) returns (n: nat)
      requires Valid()
      modifies this`regTaintMap, this`memTaintMap, this`controlTaintMap, this`cells, this`arrays, this`state, arrays
      ensures Valid() && n <= |calls| && state == Run(old(state), calls[..n])
      ensures fresh(arrays - old(arrays))
      ensures n < |calls| ==> !Legal(calls[n], width)
      ensures forall i :: 0 <= i < n ==> Legal(calls[i], width)
    {
      n := 0;
      while n < |calls|
        invariant n <= |calls| && Valid() && fresh(arrays - old(arrays)) && state == Run(old(state), calls[..n])
        invariant forall i :: 0 <= i < n ==> Legal(calls[i], width)
      {
        ghost var before := arrays;
        RunNext(old(state), calls, n);
        var ok := Perform(calls[n]);
        assert fresh(arrays - before);
        if !ok {
          return;
        }
        n := n + 1;
      }
    }
  }

  /** The n bytes from start had entries in s and have none in t, which is otherwise like s. */
  ghost predicate Erased(s: State, start: int, n: nat, t: State) {
    t == s - Bytes(start, n) && forall a :: start <= a < start + n ==> InMem(a) in s
  }

  lemma NoneErased(s: State, start: int)
    ensures Erased(s, start, 0, s)
  {
    OneMoreByte(start, 0);
  }

  lemma OneMoreErased(s: State, start: int, n: nat, t: State)
    requires Erased(s, start, n, t) && InMem(start + n) in t
    ensures Erased(s, start, n + 1, t - {InMem(start + n)})
  {
    OneMoreByte(start, n);
    assert s - (Bytes(start, n) + {InMem(start + n)}) == (s - Bytes(start, n)) - {InMem(start + n)};
  }

  lemma ErasedRun(s: State, start: int, n: nat, t: State)
    requires Erased(s, start, n, t) && InMem(start + n) !in t
    ensures IsTagged(s, start, n)
  {
    OneMoreByte(start, n);
  }

  lemma RunNext(s: State, calls: seq<Call>, n: nat)
    requires n < |calls|
    ensures Run(s, calls[..n + 1]) == Step(Run(s, calls[..n]), calls[n])
  {
    assert calls[..n + 1] == calls[..n] + [calls[n]];
    RunAll(s, calls[..n], calls[n]);
  }

  lemma ClearSetStep(s: State, n: Scratch)
    ensures Step(s, ClearSet(n)) == s[InScratch(n) := {}]
  {
    AssignOne(s, {}, InScratch(n), {});
    OverNone(s);
  }

  lemma PushStep(s: State, a: int)
    requires Pushes(s)
    ensures InReg(EFLAGS) in s
    ensures
      var open: State := if InControl(a) in s then s else s[InControl(a) := {}];
      Step(s, TaintState.PushControl(a)) == open[InControl(a) := open[InControl(a)] + open[InReg(EFLAGS)]]
  {
    var p, q := InControl(a), InReg(EFLAGS);
    var m := Over(s, {p, q});
    assert {p, q} == {p} + {q};
    OverBoth(s, {p}, {q});
    OverThis(s, p);
    OverThis(s, q);
    AssignOne(s, {}, p, m);
  }

  lemma OverThis(s: State, p: Place)
    ensures Over(s, {p}) == if p in s then s[p] else {}
  {
  }

  lemma LoadRegStep(s: State, r: Reg, n: Scratch)
    ensures Step(s, LoadReg(r, n)) == s[InScratch(n) := Over(s, {InReg(r)})]
  {
    AssignOne(s, {}, InScratch(n), Over(s, {InReg(r)}));
  }

  lemma LoadMemStep(s: State, start: int, size: nat, base: Reg, index: Reg, n: Scratch)
    ensures Step(s, LoadMem(start, size, base, index, n)) ==
            s[InScratch(n) := Over(s, Bytes(start, size) + Registers(Usable(base)) + Registers(Usable(index)))]
  {
    var b, i := Usable(base), Usable(index);
    assert Registers(b + i) == Registers(b) + Registers(i);
    var places := Bytes(start, size) + Registers(b) + Registers(i);
    assert Bytes(start, size) + Registers(b + i) == places;
    AssignOne(s, {}, InScratch(n), Over(s, places));
  }

  lemma OverValid(s: State, places: set<Place>, r: Reg)
    ensures Over(s, places + Registers(Usable(r))) ==
            if !r.Invalid? && InReg(r) in s then Over(s, places) + s[InReg(r)] else Over(s, places)
  {
    if r.Invalid? {
      assert places + Registers([]) == places;
    } else {
      assert Registers([r]) == {InReg(r)};
      OverOne(s, places, InReg(r));
    }
  }

  // ------------------------------------------------------ entry by entry

  ghost function RegisterList(rs: seq<Reg>): seq<Place> {
    seq(|rs|, i requires 0 <= i < |rs| => InReg(rs[i]))
  }

  ghost function ByteList(start: int, size: nat): seq<Place> {
    seq(size, i => InMem(start + i))
  }

  ghost function Listed(places: seq<Place>): set<Place> {
    set p | p in places
  }

  lemma RegisterListIs(rs: seq<Reg>)
    ensures Listed(RegisterList(rs)) == Registers(rs) && RegisterList(rs)[..|rs|] == RegisterList(rs)
  {
    forall r | r in rs
      ensures InReg(r) in RegisterList(rs)
    {
      var i :| 0 <= i < |rs| && rs[i] == r;
      assert RegisterList(rs)[i] == InReg(r);
    }
  }

  lemma ByteListIs(start: int, size: nat)
    ensures Listed(ByteList(start, size)) == Bytes(start, size)
    ensures ByteList(start, size)[..size] == ByteList(start, size)
  {
    forall a | start <= a < start + size
      ensures InMem(a) in ByteList(start, size)
    {
      assert ByteList(start, size)[a - start] == InMem(a);
    }
  }

  ghost function AssignFirst(s: State, places: seq<Place>, n: nat, m: Marks): State
    requires n <= |places|
  {
    if n == 0 then s else AssignFirst(s, places, n - 1, m)[places[n - 1] := m]
  }

  ghost function ResetFirst(s: State, places: seq<Place>, n: nat, m: Marks): State
    requires n <= |places|
  {
    if n == 0 then s
    else
      var before := ResetFirst(s, places, n - 1, m);
      if places[n - 1] in before then before[places[n - 1] := m] else before
  }

  lemma AssignNext(s: State, places: seq<Place>, n: nat, m: Marks)
    requires n < |places|
    ensures AssignFirst(s, places, n + 1, m) == AssignFirst(s, places, n, m)[places[n] := m]
  {
  }

  lemma ResetNextOf(s: State, places: seq<Place>, n: nat, m: Marks)
    requires n < |places|
    ensures var before := ResetFirst(s, places, n, m);
            ResetFirst(s, places, n + 1, m) == if places[n] in before then before[places[n] := m] else before
  {
  }

  lemma {:induction false} AssignsList(s: State, places: seq<Place>, n: nat, m: Marks)
    requires n <= |places|
    ensures AssignFirst(s, places, n, m) == Assign(s, Listed(places[..n]), m)
  {
    if n == 0 {
      AssignNone(s, m);
      assert Listed(places[..0]) == {};
    } else {
      AssignsList(s, places, n - 1, m);
      assert Listed(places[..n]) == Listed(places[..n - 1]) + {places[n - 1]};
      AssignOne(s, Listed(places[..n - 1]), places[n - 1], m);
    }
  }

  lemma {:induction false} ResetsList(s: State, places: seq<Place>, n: nat, m: Marks)
    requires n <= |places|
    ensures ResetFirst(s, places, n, m) == Assign(s, Listed(places[..n]) * s.Keys, m)
  {
    if n == 0 {
      AssignNone(s, m);
      assert Listed(places[..0]) * s.Keys == {};
    } else {
      ResetsList(s, places, n - 1, m);
      assert Listed(places[..n]) == Listed(places[..n - 1]) + {places[n - 1]};
      ResetNext(s, Listed(places[..n - 1]), places[n - 1], m);
    }
  }

  ghost function PartList(reg: Reg): seq<Place> {
    RegisterList(Parts(reg) + [reg])
  }

  lemma SetRegStep(s: State, reg: Reg, args: seq<Scratch>, m: Marks)
    requires !IsFrame(reg) && m == Over(s, Named(args) + Branches(s.Keys))
    ensures Step(s, SetReg(reg, args)) == AssignFirst(s, PartList(reg), |PartList(reg)|, m)
  {
    RegistersDone(s, Parts(reg) + [reg], m);
  }

  lemma ClearRegStep(s: State, reg: Reg, m: Marks)
    requires m == Over(s, Branches(s.Keys))
    ensures Step(s, ClearReg(reg)) == ResetFirst(s, PartList(reg), |PartList(reg)|, m)
  {
    RegistersDone(s, Parts(reg) + [reg], m);
  }

  lemma SetMemStep(s: State, start: int, size: nat, args: seq<Scratch>, m: Marks)
    requires m == Over(s, Named(args) + Branches(s.Keys))
    ensures Step(s, SetMem(start, size, args)) == AssignFirst(s, ByteList(start, size), |ByteList(start, size)|, m)
  {
    BytesDone(s, start, size, m);
  }

  lemma ClearMemStep(s: State, start: int, size: nat, m: Marks)
    requires m == Over(s, Branches(s.Keys))
    ensures Step(s, ClearMem(start, size)) == ResetFirst(s, ByteList(start, size), |ByteList(start, size)|, m)
  {
    BytesDone(s, start, size, m);
  }

  lemma NewTaintStep(s: State, start: int, size: nat, mark: nat)
    ensures Step(s, NewTaint(start, size, mark)) ==
            AssignFirst(s, ByteList(start, size), |ByteList(start, size)|, {mark})
  {
    BytesDone(s, start, size, {mark});
  }

  lemma RegistersDone(s: State, rs: seq<Reg>, m: Marks)
    ensures AssignFirst(s, RegisterList(rs), |rs|, m) == Assign(s, Registers(rs), m)
    ensures ResetFirst(s, RegisterList(rs), |rs|, m) == Assign(s, Registers(rs) * s.Keys, m)
  {
    RegisterListIs(rs);
    AssignsList(s, RegisterList(rs), |rs|, m);
    ResetsList(s, RegisterList(rs), |rs|, m);
  }

  lemma BytesDone(s: State, start: int, size: nat, m: Marks)
    ensures AssignFirst(s, ByteList(start, size), size, m) == Assign(s, Bytes(start, size), m)
    ensures ResetFirst(s, ByteList(start, size), size, m) == Assign(s, Bytes(start, size) * s.Keys, m)
  {
    ByteListIs(start, size);
    AssignsList(s, ByteList(start, size), size, m);
    ResetsList(s, ByteList(start, size), size, m);
  }

  lemma ResetNext(s: State, places: set<Place>, p: Place, m: Marks)
    ensures Assign(s, (places + {p}) * s.Keys, m) ==
            if p in s then Assign(s, places * s.Keys, m)[p := m] else Assign(s, places * s.Keys, m)
    ensures Assign(s, places * s.Keys, m).Keys == s.Keys
  {
    if p in s {
      assert (places + {p}) * s.Keys == places * s.Keys + {p};
      AssignOne(s, places * s.Keys, p, m);
    } else {
      assert (places + {p}) * s.Keys == places * s.Keys;
    }
  }
}
