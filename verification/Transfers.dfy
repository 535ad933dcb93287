/**
  What each handler's calls amount to: one transfer of taint, stated on the operands, with every
  right-hand side read before the instruction.
*/
module Transfers {
  import opened TaintState
  import opened RegisterBits
  import opened Handlers
  import opened Meanings
  import TaintRuns

  // ------------------------------------------------------ one call at a time

  ghost predicate Fetches(s: State, c: Call, n: Scratch, v: Marks) {
    IsLoad(c) && c.name == n && Over(s, Reads(c)) == v
  }

  ghost predicate Writes(c: Call, places: set<Place>, args: seq<Scratch>) {
    (c.SetReg? || c.SetMem?) && Args(c) == args && Targets(c, {}) == places
  }

  lemma FetchIs(s: State, op: Operand, read: Access, n: Scratch)
    ensures Fetch(op, read, n).ending.Done? <==> Readable(op, read)
    ensures
      var e := Fetch(op, read, n);
      if e.ending.Done? then |e.calls| == 1 && Fetches(s, e.calls[0], n, Taint(s, op, read)) else e.calls == []
  {
  }

  lemma FetchAnyIs(s: State, op: Operand, read: Access, n: Scratch)
    ensures FetchAny(op, read, n).ending.Done? <==> Readable(op, read) || op.ImmOp?
    ensures
      var e := FetchAny(op, read, n);
      if e.ending.Done? then |e.calls| == 1 && Fetches(s, e.calls[0], n, Taint(s, op, read)) else e.calls == []
  {
    if op.ImmOp? {
      OverNone(s);
    } else {
      FetchIs(s, op, read, n);
    }
  }

  lemma FetchNoMemoryIs(s: State, op: Operand, n: Scratch, immediate: bool)
    ensures FetchNoMemory(op, n, immediate).ending.Done? <==> op.RegOp? || (op.ImmOp? && immediate)
    ensures
      var e := FetchNoMemory(op, n, immediate);
      if e.ending.Done? then |e.calls| == 1 && Fetches(s, e.calls[0], n, Taint(s, op, Unknown)) else e.calls == []
  {
    OverNone(s);
  }

  lemma PutIs(op: Operand, write: Access, args: seq<Scratch>)
    ensures Put(op, write, args).ending.Done? <==> Writable(op, write)
    ensures
      var e := Put(op, write, args);
      if e.ending.Done? then |e.calls| == 1 && Writes(e.calls[0], Written(op, write), args) else e.calls == []
  {
  }

  lemma SetRegIs(r: Reg, args: seq<Scratch>)
    ensures Writes(SetReg(r, args), Whole(r), args) && Whole(EFLAGS) == {InReg(EFLAGS)}
  {
  }

  // ------------------------------------------------------ what loads provide

  /** The loads fill these scratch sets, together with the marks v. */
  ghost predicate Provides(s: State, loads: seq<Call>, args: seq<Scratch>, v: Marks) {
    Fetched(s, loads, args) == v && forall n :: n in args ==> IsLoaded(loads, n)
  }

  ghost function Share(n: Scratch, args: seq<Scratch>, v: Marks): Marks {
    if n in args then v else {}
  }

  lemma FetchedNext(s: State, loads: seq<Call>, c: Call, args: seq<Scratch>)
    requires IsLoad(c)
    ensures Fetched(s, loads + [c], args) == Fetched(s, loads, args) + Share(c.name, args, Over(s, Reads(c)))
    ensures Fetched(s, [], args) == {}
  {
    var more := loads + [c];
    forall m | m in Fetched(s, loads, args)
      ensures m in Fetched(s, more, args)
    {
      var i :| 0 <= i < |loads| && IsLoad(loads[i]) && loads[i].name in args && m in Over(s, Reads(loads[i]));
      assert more[i] == loads[i];
    }
    if c.name in args {
      assert more[|loads|] == c;
    }
  }

  lemma OneLoad(s: State, a: Call, m: Scratch, u: Marks, args: seq<Scratch>)
    requires Fetches(s, a, m, u) && forall x :: x in args ==> x == m
    ensures AreLoads([a]) && Provides(s, [a], args, Share(m, args, u))
  {
    FetchedNext(s, [], a, args);
    assert [] + [a] == [a];
    assert [a][0] == a;
  }

  lemma TwoLoads(s: State, a: Call, b: Call, m: Scratch, n: Scratch, u: Marks, v: Marks, args: seq<Scratch>)
    requires m != n && Fetches(s, a, m, u) && Fetches(s, b, n, v) && forall x :: x in args ==> x == m || x == n
    ensures AreLoads([a, b]) && Provides(s, [a, b], args, Share(m, args, u) + Share(n, args, v))
  {
    FetchedNext(s, [], a, args);
    FetchedNext(s, [a], b, args);
    assert [] + [a] == [a] && [a] + [b] == [a, b];
    assert [a, b][0] == a && [a, b][1] == b;
  }

  lemma ThreeLoads(s: State, a: Call, b: Call, c: Call, m: Scratch, n: Scratch, k: Scratch,
                   u: Marks, v: Marks, w: Marks, args: seq<Scratch>)
    requires m != n && n != k && m != k && Fetches(s, a, m, u) && Fetches(s, b, n, v) && Fetches(s, c, k, w)
    requires forall x :: x in args ==> x == m || x == n || x == k
    ensures AreLoads([a, b, c])
    ensures Provides(s, [a, b, c], args, Share(m, args, u) + Share(n, args, v) + Share(k, args, w))
  {
    FetchedNext(s, [], a, args);
    FetchedNext(s, [a], b, args);
    FetchedNext(s, [a, b], c, args);
    assert [] + [a] == [a] && [a] + [b] == [a, b] && [a, b] + [c] == [a, b, c];
    assert [a, b, c][0] == a && [a, b, c][1] == b && [a, b, c][2] == c;
  }

  // ------------------------------------------------------ what stores amount to

  /** One store, on the visible state. */
  ghost function After(s: State, t: State, c: Call, v: Marks): State {
    Assign(t, Targets(c, t.Keys), v + Control(s))
  }

  lemma EffectNext(s: State, loads: seq<Call>, stores: seq<Call>, c: Call, v: Marks)
    requires Provides(s, loads, Args(c), v)
    ensures Effect(s, loads, stores + [c]) == After(s, Effect(s, loads, stores), c, v)
    ensures Effect(s, loads, []) == Visible(s)
  {
    assert (stores + [c])[..|stores|] == stores;
  }

  lemma OneStore(s: State, loads: seq<Call>, c: Call, v: Marks)
    requires AreLoads(loads) && IsStore(c) && Provides(s, loads, Args(c), v)
    ensures Visible(Run(s, loads + [c])) == After(s, Visible(s), c, v)
  {
    EffectNext(s, loads, [], c, v);
    assert [] + [c] == [c];
    RunsSimultaneously(s, loads, [c]);
  }

  lemma EffectOfTwo(s: State, loads: seq<Call>, c: Call, d: Call, v: Marks, w: Marks)
    requires Provides(s, loads, Args(c), v) && Provides(s, loads, Args(d), w)
    ensures Effect(s, loads, [c, d]) == After(s, After(s, Visible(s), c, v), d, w)
  {
    EffectNext(s, loads, [], c, v);
    EffectNext(s, loads, [c], d, w);
    assert [] + [c] == [c] && [c] + [d] == [c, d];
  }

  lemma TwoStores(s: State, loads: seq<Call>, c: Call, d: Call, v: Marks, w: Marks)
    requires AreLoads(loads) && IsStore(c) && Provides(s, loads, Args(c), v)
    requires IsStore(d) && Provides(s, loads, Args(d), w)
    ensures Visible(Run(s, loads + [c, d])) == After(s, After(s, Visible(s), c, v), d, w)
  {
    EffectOfTwo(s, loads, c, d, v, w);
    RunsSimultaneously(s, loads, [c, d]);
  }

  lemma ThreeStores(s: State, loads: seq<Call>, c: Call, d: Call, e: Call, v: Marks, w: Marks, x: Marks)
    requires AreLoads(loads) && IsStore(c) && Provides(s, loads, Args(c), v)
    requires IsStore(d) && Provides(s, loads, Args(d), w)
    requires IsStore(e) && Provides(s, loads, Args(e), x)
    ensures Visible(Run(s, loads + [c, d, e])) == After(s, After(s, After(s, Visible(s), c, v), d, w), e, x)
  {
    EffectOfTwo(s, loads, c, d, v, w);
    EffectNext(s, loads, [c, d], e, x);
    assert [c, d] + [e] == [c, d, e];
    assert AreStores(loads, [c, d, e]);
    RunsSimultaneously(s, loads, [c, d, e]);
  }

  lemma AfterWrites(s: State, t: State, c: Call, places: set<Place>, args: seq<Scratch>, v: Marks)
    requires Writes(c, places, args)
    ensures After(s, t, c, v) == Assign(t, places, v + Control(s))
  {
  }

  lemma AssignTwice(s: State, places: set<Place>, others: set<Place>, v: Marks)
    ensures Assign(Assign(s, places, v), others, v) == Assign(s, places + others, v)
  {
  }

  /** Loads alone change scratch sets alone. */
  lemma {:induction false} OnlyLoads(s: State, calls: seq<Call>)
    requires forall i :: 0 <= i < |calls| ==> IsLoad(calls[i])
    ensures Visible(Run(s, calls)) == Visible(s)
    decreases |calls|
  {
    if calls != [] {
      var n := |calls| - 1;
      OnlyLoads(s, calls[..n]);
      LoadStep(Run(s, calls[..n]), calls[n]);
    }
  }

  // ------------------------------------------------------ the handlers

  /** Two operands loaded, their union stored twice. */
  lemma UnionTwice(s: State, a: Call, b: Call, c: Call, d: Call, m: Scratch, n: Scratch, u: Marks, v: Marks,
                   places: set<Place>, others: set<Place>)
    requires m != n && Fetches(s, a, m, u) && Fetches(s, b, n, v)
    requires Writes(c, places, [m, n]) && Writes(d, others, [m, n])
    ensures Visible(Run(s, [a, b, c, d])) == Assign(Visible(s), places + others, u + v + Control(s))
  {
    var args := [m, n];
    TwoLoads(s, a, b, m, n, u, v, args);
    TwoStores(s, [a, b], c, d, u + v, u + v);
    assert [a, b] + [c, d] == [a, b, c, d];
    AfterWrites(s, Visible(s), c, places, args, u + v);
    AfterWrites(s, After(s, Visible(s), c, u + v), d, others, args, u + v);
    AssignTwice(Visible(s), places, others, u + v + Control(s));
  }

  lemma AddTransfers(i: Instr, s: State)
    ensures ADD(i).ending.Done? <==>
            Readable(i.op0, i.read) && (Readable(i.op1, i.read) || i.op1.ImmOp?) && Writable(i.op0, i.write)
    ensures Visible(Run(s, ADD(i).calls)) == AddMeans(i, s)
  {
    var e := ADD(i);
    FetchIs(s, i.op0, i.read, Dest);
    FetchAnyIs(s, i.op1, i.read, Src);
    PutIs(i.op0, i.write, [Dest, Src]);
    SetRegIs(EFLAGS, [Dest, Src]);
    if e.ending.Done? {
      var a, b := Fetch(i.op0, i.read, Dest).calls[0], FetchAny(i.op1, i.read, Src).calls[0];
      var c, d := Put(i.op0, i.write, [Dest, Src]).calls[0], SetReg(EFLAGS, [Dest, Src]);
      assert e.calls == [a, b, c, d];
      UnionTwice(s, a, b, c, d, Dest, Src, Taint(s, i.op0, i.read), Taint(s, i.op1, i.read),
                 Written(i.op0, i.write), Whole(EFLAGS));
    } else {
      OnlyLoads(s, e.calls);
    }
  }

  lemma SarTransfers(i: Instr, s: State)
    ensures SAR(i).ending.Done? <==>
            Readable(i.op0, i.read) && (i.op1.RegOp? || i.op1.ImmOp?) && Writable(i.op0, i.write)
    ensures Visible(Run(s, SAR(i).calls)) == SarMeans(i, s)
  {
    var e := SAR(i);
    FetchIs(s, i.op0, i.read, Dest);
    FetchNoMemoryIs(s, i.op1, Cnt, true);
    PutIs(i.op0, i.write, [Dest, Cnt]);
    SetRegIs(EFLAGS, [Dest, Cnt]);
    if e.ending.Done? {
      var a, b := Fetch(i.op0, i.read, Dest).calls[0], FetchNoMemory(i.op1, Cnt, true).calls[0];
      var c, d := Put(i.op0, i.write, [Dest, Cnt]).calls[0], SetReg(EFLAGS, [Dest, Cnt]);
      assert e.calls == [a, b, c, d];
      UnionTwice(s, a, b, c, d, Dest, Cnt, Taint(s, i.op0, i.read), Taint(s, i.op1, Unknown),
                 Written(i.op0, i.write), Whole(EFLAGS));
    } else {
      OnlyLoads(s, e.calls);
    }
  }

  lemma ThreeStoredTwice(s: State, a: Call, b: Call, c: Call, d: Call, f: Call, u: Marks, v: Marks, w: Marks,
                         places: set<Place>, others: set<Place>, args: seq<Scratch>)
    requires Fetches(s, a, Dest, u) && Fetches(s, b, Src, v) && Fetches(s, c, Eflags, w) && args == [Dest, Src, Eflags]
    requires Writes(d, places, args) && Writes(f, others, args)
    ensures Visible(Run(s, [a, b, c] + [d, f])) == Assign(Visible(s), places + others, u + v + w + Control(s))
  {
    ThreeLoads(s, a, b, c, Dest, Src, Eflags, u, v, w, args);
    TwoStores(s, [a, b, c], d, f, u + v + w, u + v + w);
    AfterWrites(s, Visible(s), d, places, args, u + v + w);
    AfterWrites(s, After(s, Visible(s), d, u + v + w), f, others, args, u + v + w);
    AssignTwice(Visible(s), places, others, u + v + w + Control(s));
  }

  lemma AdcTransfers(i: Instr, s: State)
    ensures ADC(i).ending.Done? <==>
            Readable(i.op0, i.read) && (Readable(i.op1, i.read) || i.op1.ImmOp?) && Writable(i.op0, i.write)
    ensures Visible(Run(s, ADC(i).calls)) == AdcMeans(i, s)
  {
    var e, args := ADC(i), [Dest, Src, Eflags];
    FetchIs(s, i.op0, i.read, Dest);
    FetchAnyIs(s, i.op1, i.read, Src);
    PutIs(i.op0, i.write, args);
    SetRegIs(EFLAGS, args);
    if e.ending.Done? {
      var a, b, c := Fetch(i.op0, i.read, Dest).calls[0], FetchAny(i.op1, i.read, Src).calls[0],
                     LoadReg(EFLAGS, Eflags);
      var d, f := Put(i.op0, i.write, args).calls[0], SetReg(EFLAGS, args);
      assert e.calls == [a, b, c] + [d, f];
      ThreeStoredTwice(s, a, b, c, d, f, Taint(s, i.op0, i.read), Taint(s, i.op1, i.read), Over(s, {InReg(EFLAGS)}),
                       Written(i.op0, i.write), Whole(EFLAGS), args);
    } else {
      OnlyLoads(s, e.calls);
    }
  }

  /** Two operands loaded, their union stored. */
  lemma UnionOnce(s: State, a: Call, b: Call, c: Call, m: Scratch, n: Scratch, u: Marks, v: Marks, places: set<Place>)
    requires m != n && Fetches(s, a, m, u) && Fetches(s, b, n, v) && Writes(c, places, [m, n])
    ensures Visible(Run(s, [a, b, c])) == Assign(Visible(s), places, u + v + Control(s))
  {
    TwoLoads(s, a, b, m, n, u, v, [m, n]);
    OneStore(s, [a, b], c, u + v);
    assert [a, b] + [c] == [a, b, c];
    AfterWrites(s, Visible(s), c, places, [m, n], u + v);
  }

  lemma CopyOnce(s: State, a: Call, c: Call, m: Scratch, u: Marks, places: set<Place>)
    requires Fetches(s, a, m, u) && Writes(c, places, [m])
    ensures Visible(Run(s, [a, c])) == Assign(Visible(s), places, u + Control(s))
  {
    OneLoad(s, a, m, u, [m]);
    OneStore(s, [a], c, u);
    assert [a] + [c] == [a, c];
    AfterWrites(s, Visible(s), c, places, [m], u);
  }

  lemma CmpTransfers(i: Instr, s: State)
    ensures CMP(i).ending.Done? <==> Readable(i.op0, i.read) && (Readable(i.op1, i.read) || i.op1.ImmOp?)
    ensures Visible(Run(s, CMP(i).calls)) == CmpMeans(i, s)
  {
    var e := CMP(i);
    FetchIs(s, i.op0, i.read, Dest);
    FetchAnyIs(s, i.op1, i.read, Src);
    SetRegIs(EFLAGS, [Dest, Src]);
    if e.ending.Done? {
      var a, b := Fetch(i.op0, i.read, Dest).calls[0], FetchAny(i.op1, i.read, Src).calls[0];
      assert e.calls == [a, b, SetReg(EFLAGS, [Dest, Src])];
      UnionOnce(s, a, b, SetReg(EFLAGS, [Dest, Src]), Dest, Src,
                Taint(s, i.op0, i.read), Taint(s, i.op1, i.read), {InReg(EFLAGS)});
    } else {
      OnlyLoads(s, e.calls);
    }
  }

  lemma TestTransfers(i: Instr, s: State)
    ensures TEST(i).ending.Done? <==> Readable(i.op0, i.read) && (i.op1.RegOp? || i.op1.ImmOp?)
    ensures Visible(Run(s, TEST(i).calls)) == TestMeans(i, s)
  {
    var e := TEST(i);
    FetchIs(s, i.op0, i.read, Dest);
    FetchNoMemoryIs(s, i.op1, Src, true);
    SetRegIs(EFLAGS, [Dest, Src]);
    if e.ending.Done? {
      var a, b := Fetch(i.op0, i.read, Dest).calls[0], FetchNoMemory(i.op1, Src, true).calls[0];
      assert e.calls == [a, b, SetReg(EFLAGS, [Dest, Src])];
      UnionOnce(s, a, b, SetReg(EFLAGS, [Dest, Src]), Dest, Src,
                Taint(s, i.op0, i.read), Taint(s, i.op1, Unknown), {InReg(EFLAGS)});
    } else {
      OnlyLoads(s, e.calls);
    }
  }

  lemma DecTransfers(i: Instr, s: State)
    ensures DEC(i).ending.Done? <==> Readable(i.op0, i.read)
    ensures Visible(Run(s, DEC(i).calls)) == DecMeans(i, s)
  {
    var e := DEC(i);
    FetchIs(s, i.op0, i.read, Dest);
    SetRegIs(EFLAGS, [Dest]);
    if e.ending.Done? {
      var a := Fetch(i.op0, i.read, Dest).calls[0];
      assert e.calls == [a, SetReg(EFLAGS, [Dest])];
      CopyOnce(s, a, SetReg(EFLAGS, [Dest]), Dest, Taint(s, i.op0, i.read), {InReg(EFLAGS)});
    } else {
      OnlyLoads(s, e.calls);
    }
  }

  lemma LeaTransfers(dest: Reg, base: Reg, index: Reg, s: State)
    ensures LEA(dest, base, index).ending.Done?
    ensures Visible(Run(s, LEA(dest, base, index).calls)) == LeaMeans(dest, base, index, s)
  {
    var a, b, c := LoadReg(base, Base), LoadReg(index, Idx), SetReg(dest, [Base, Idx]);
    assert LEA(dest, base, index).calls == [a, b, c];
    SetRegIs(dest, [Base, Idx]);
    UnionOnce(s, a, b, c, Base, Idx, Over(s, {InReg(base)}), Over(s, {InReg(index)}), Whole(dest));
  }

  /** Two operands loaded, their union stored three times. */
  lemma UnionThrice(s: State, a: Call, b: Call, c: Call, d: Call, f: Call, m: Scratch, n: Scratch, u: Marks, v: Marks,
                    p: set<Place>, q: set<Place>, r: set<Place>)
    requires m != n && Fetches(s, a, m, u) && Fetches(s, b, n, v)
    requires Writes(c, p, [n, m]) && Writes(d, q, [n, m]) && Writes(f, r, [n, m])
    ensures Visible(Run(s, [a, b, c, d, f])) == Assign(Visible(s), p + q + r, u + v + Control(s))
  {
    TwoLoads(s, a, b, m, n, u, v, [n, m]);
    ThreeStores(s, [a, b], c, d, f, u + v, u + v, u + v);
    assert [a, b] + [c, d, f] == [a, b, c, d, f];
    WriteTwo(s, c, d, p, q, [n, m], u + v);
    AfterWrites(s, Assign(Visible(s), p + q, u + v + Control(s)), f, r, [n, m], u + v);
    AssignTwice(Visible(s), p + q, r, u + v + Control(s));
  }

  lemma WriteTwo(s: State, c: Call, d: Call, p: set<Place>, q: set<Place>, args: seq<Scratch>, v: Marks)
    requires Writes(c, p, args) && Writes(d, q, args)
    ensures After(s, After(s, Visible(s), c, v), d, v) == Assign(Visible(s), p + q, v + Control(s))
  {
    AfterWrites(s, Visible(s), c, p, args, v);
    AfterWrites(s, After(s, Visible(s), c, v), d, q, args, v);
    AssignTwice(Visible(s), p, q, v + Control(s));
  }

  lemma MulTransfers(i: Instr, s: State)
    ensures MUL(i).ending.Done? <==> i.width == 32 && Readable(i.op0, i.read)
    ensures Visible(Run(s, MUL(i).calls)) == MulMeans(i, s)
  {
    var e, args := MUL(i), [Eax, Src];
    FetchIs(s, i.op0, i.read, Src);
    if e.ending.Done? {
      var a, b := Fetch(i.op0, i.read, Src).calls[0], LoadReg(EAX, Eax);
      assert e.calls == [a, b, SetReg(EAX, args), SetReg(EDX, args), SetReg(EFLAGS, args)];
      FanOut(s, a, b, Taint(s, i.op0, i.read), args);
    } else {
      OnlyLoads(s, e.calls);
    }
  }

  lemma FanOut(s: State, a: Call, b: Call, u: Marks, args: seq<Scratch>)
    requires Fetches(s, a, Src, u) && b == LoadReg(EAX, Eax) && args == [Eax, Src]
    ensures Visible(Run(s, [a, b, SetReg(EAX, args), SetReg(EDX, args), SetReg(EFLAGS, args)])) ==
            Assign(Visible(s), Whole(EAX) + Whole(EDX) + Whole(EFLAGS), u + Over(s, {InReg(EAX)}) + Control(s))
  {
    WritesWhole(EAX, args);
    WritesWhole(EDX, args);
    WritesWhole(EFLAGS, args);
    UnionThrice(s, a, b, SetReg(EAX, args), SetReg(EDX, args), SetReg(EFLAGS, args), Src, Eax, u, Over(s, {InReg(EAX)}),
                Whole(EAX), Whole(EDX), Whole(EFLAGS));
  }

  lemma WritesWhole(r: Reg, args: seq<Scratch>)
    ensures Writes(SetReg(r, args), Whole(r), args)
  {
  }

  /** Two stores of one union, then a register without parts cleared. */
  lemma StoreAndClear(s: State, loads: seq<Call>, c: Call, d: Call, r: Reg, p: set<Place>, q: set<Place>,
                      args: seq<Scratch>, v: Marks)
    requires AreLoads(loads) && Provides(s, loads, args, v) && Provides(s, loads, [], {})
    requires Writes(c, p, args) && Writes(d, q, args) && Parts(r) == [] && InReg(r) !in p + q
    ensures Visible(Run(s, loads + [c, d, ClearReg(r)])) ==
            Assign(Assign(Visible(s), p + q, v + Control(s)), {InReg(r)} * s.Keys, Control(s))
  {
    var t := Assign(Visible(s), p + q, v + Control(s));
    ThreeStores(s, loads, c, d, ClearReg(r), v, v, {});
    WriteTwo(s, c, d, p, q, args, v);
    ClearTargets(s, t, r);
  }

  lemma ClearTargets(s: State, t: State, r: Reg)
    requires Parts(r) == [] && (InReg(r) in t <==> InReg(r) in s)
    ensures After(s, t, ClearReg(r), {}) == Assign(t, {InReg(r)} * s.Keys, Control(s))
  {
    assert {} + Control(s) == Control(s);
    assert Registers([] + [r]) == {InReg(r)};
    assert {InReg(r)} * t.Keys == {InReg(r)} * s.Keys;
  }

  lemma DivideAndClear(s: State, a: Call, b: Call, c: Call, m: Scratch, n: Scratch, u: Marks, v: Marks, w: Marks,
                       args: seq<Scratch>)
    requires Fetches(s, a, Src, u) && Fetches(s, b, m, v) && Fetches(s, c, n, w) && args == [Eax, Edx, Src]
    requires (m == Eax && n == Edx) || (m == Edx && n == Eax)
    ensures Visible(Run(s, [a, b, c] + [SetReg(EAX, args), SetReg(EDX, args), ClearReg(EFLAGS)])) ==
            Assign(Assign(Visible(s), Whole(EAX) + Whole(EDX), u + v + w + Control(s)),
                   {InReg(EFLAGS)} * s.Keys, Control(s))
  {
    ThreeLoads(s, a, b, c, Src, m, n, u, v, w, args);
    ThreeLoads(s, a, b, c, Src, m, n, u, v, w, []);
    WritesWhole(EAX, args);
    WritesWhole(EDX, args);
    FlagsApart();
    StoreAndClear(s, [a, b, c], SetReg(EAX, args), SetReg(EDX, args), EFLAGS, Whole(EAX), Whole(EDX), args, u + v + w);
  }

  lemma FlagsApart()
    ensures InReg(EFLAGS) !in Whole(EAX) + Whole(EDX)
  {
  }

  lemma DivTransfers(i: Instr, s: State)
    ensures DIV(i).ending.Done? <==> i.width == 32 && Readable(i.op0, i.read)
    ensures Visible(Run(s, DIV(i).calls)) == DivMeans(i, s)
  {
    var e, args := DIV(i), [Eax, Edx, Src];
    FetchIs(s, i.op0, i.read, Src);
    if e.ending.Done? {
      var a, b, c := Fetch(i.op0, i.read, Src).calls[0], LoadReg(EAX, Eax), LoadReg(EDX, Edx);
      assert e.calls == [a, b, c] + [SetReg(EAX, args), SetReg(EDX, args), ClearReg(EFLAGS)];
      DivideAndClear(s, a, b, c, Eax, Edx, Taint(s, i.op0, i.read), Over(s, {InReg(EAX)}), Over(s, {InReg(EDX)}), args);
    } else {
      OnlyLoads(s, e.calls);
    }
  }

  lemma AnyOrder(u: Marks, v: Marks, w: Marks, c: Marks)
    ensures u + v + w + c == u + w + v + c
  {
  }

  lemma IdivTransfers(i: Instr, s: State)
    ensures IDIV(i).ending.Done? <==> i.width == 32 && Readable(i.op0, i.read)
    ensures Visible(Run(s, IDIV(i).calls)) == DivMeans(i, s)
  {
    var e, args := IDIV(i), [Eax, Edx, Src];
    FetchIs(s, i.op0, i.read, Src);
    if e.ending.Done? {
      var a, b, c := Fetch(i.op0, i.read, Src).calls[0], LoadReg(EDX, Edx), LoadReg(EAX, Eax);
      var u, v, w := Taint(s, i.op0, i.read), Over(s, {InReg(EDX)}), Over(s, {InReg(EAX)});
      assert e.calls == [a, b, c] + [SetReg(EAX, args), SetReg(EDX, args), ClearReg(EFLAGS)];
      DivideAndClear(s, a, b, c, Edx, Eax, u, v, w, args);
      AnyOrder(u, v, w, Control(s));
    } else {
      OnlyLoads(s, e.calls);
    }
  }

  lemma CopyThrough(s: State, a: Call, u: Marks, op: Operand, write: Access)
    requires Fetches(s, a, Src, u)
    ensures PutThrough(op, write, Src).ending.Done? <==> Writable(op, write)
    ensures Visible(Run(s, [a] + PutThrough(op, write, Src).calls)) ==
            if Writable(op, write) then Assign(Visible(s), Written(op, write), u + Address(s, op) + Control(s))
            else Visible(s)
  {
    var e := PutThrough(op, write, Src);
    if !op.MemOp? {
      PutIs(op, write, [Src]);
      if op.RegOp? {
        assert [a] + e.calls == [a, e.calls[0]];
        CopyOnce(s, a, e.calls[0], Src, u, Written(op, write));
        assert u + {} == u;
      } else {
        OnlyLoads(s, [a] + e.calls);
      }
    } else {
      var args, b, c := [Src, Base, Idx], LoadReg(op.base, Base), LoadReg(op.index, Idx);
      PutIs(op, write, args);
      if Writable(op, write) {
        assert [a] + e.calls == [a, b, c] + [SetMem(write.start, write.size, args)];
        CopyWithAddress(s, a, b, c, u, SetMem(write.start, write.size, args), Written(op, write), args);
      } else {
        OnlyLoads(s, [a] + e.calls);
      }
    }
  }

  lemma CopyWithAddress(s: State, a: Call, b: Call, c: Call, u: Marks, d: Call, places: set<Place>, args: seq<Scratch>)
    requires Fetches(s, a, Src, u) && b.LoadReg? && b.name == Base && c.LoadReg? && c.name == Idx
    requires args == [Src, Base, Idx]
    requires Writes(d, places, args)
    ensures Visible(Run(s, [a, b, c] + [d])) ==
            Assign(Visible(s), places, u + (Over(s, {InReg(b.reg)}) + Over(s, {InReg(c.reg)})) + Control(s))
  {
    var v, w := Over(s, {InReg(b.reg)}), Over(s, {InReg(c.reg)});
    ThreeLoads(s, a, b, c, Src, Base, Idx, u, v, w, args);
    OneStore(s, [a, b, c], d, u + v + w);
    AfterWrites(s, Visible(s), d, places, args, u + v + w);
    assert u + v + w + Control(s) == u + (v + w) + Control(s);
  }

  lemma MovTransfers(i: Instr, s: State)
    ensures MOV(i).ending.Done? <==> (Readable(i.op1, i.read) || i.op1.ImmOp?) && Writable(i.op0, i.write)
    ensures Visible(Run(s, MOV(i).calls)) == MovMeans(i, s)
  {
    FetchAnyIs(s, i.op1, i.read, Src);
    if Readable(i.op1, i.read) || i.op1.ImmOp? {
      var a := FetchAny(i.op1, i.read, Src).calls[0];
      assert MOV(i).calls == [a] + PutThrough(i.op0, i.write, Src).calls;
      CopyThrough(s, a, Taint(s, i.op1, i.read), i.op0, i.write);
    } else {
      OnlyLoads(s, MOV(i).calls);
    }
  }

  lemma PushTransfers(i: Instr, s: State)
    ensures PUSH(i).ending.Done? <==> (Readable(i.op0, i.read) || i.op0.ImmOp?) && i.write.Range?
    ensures Visible(Run(s, PUSH(i).calls)) == PushMeans(i, s)
  {
    FetchAnyIs(s, i.op0, i.read, Src);
    if PUSH(i).ending.Done? {
      var a, c := FetchAny(i.op0, i.read, Src).calls[0], SetMem(i.write.start, i.write.size, [Src]);
      assert PUSH(i).calls == [a, c];
      CopyOnce(s, a, c, Src, Taint(s, i.op0, i.read), Bytes(i.write.start, i.write.size));
    } else {
      OnlyLoads(s, PUSH(i).calls);
    }
  }

  lemma PopTransfers(i: Instr, s: State)
    ensures POP(i).ending.Done? <==> i.read.Range? && Writable(i.op0, i.write)
    ensures Visible(Run(s, POP(i).calls)) == PopMeans(i, s)
  {
    if i.read.Range? {
      var a := LoadMem(i.read.start, i.read.size, Invalid, Invalid, Src);
      assert POP(i).calls == [a] + PutThrough(i.op0, i.write, Src).calls;
      assert Reads(a) == Bytes(i.read.start, i.read.size);
      CopyThrough(s, a, Over(s, Bytes(i.read.start, i.read.size)), i.op0, i.write);
    }
  }

  lemma XchgTransfers(i: Instr, s: State)
    ensures XCHG(i).ending.Done? <==>
            Readable(i.op0, i.read) && Readable(i.op1, i.read) && Writable(i.op0, i.write) && Writable(i.op1, i.write)
    ensures Visible(Run(s, XCHG(i).calls)) == XchgMeans(i, s)
  {
    FetchIs(s, i.op0, i.read, Dest);
    FetchIs(s, i.op1, i.read, Src);
    PutIs(i.op0, i.write, [Src]);
    PutIs(i.op1, i.write, [Dest]);
    var e := XCHG(i);
    if Readable(i.op0, i.read) && Readable(i.op1, i.read) && Writable(i.op0, i.write) {
      var a, b, c := Fetch(i.op0, i.read, Dest).calls[0], Fetch(i.op1, i.read, Src).calls[0],
                     Put(i.op0, i.write, [Src]).calls[0];
      if Writable(i.op1, i.write) {
        var d := Put(i.op1, i.write, [Dest]).calls[0];
        assert e.calls == [a, b] + [c, d];
        Swap(s, a, b, c, d, Taint(s, i.op0, i.read), Taint(s, i.op1, i.read),
             Written(i.op0, i.write), Written(i.op1, i.write));
      } else {
        assert e.calls == [a, b] + [c];
        HalfSwap(s, a, b, c, Taint(s, i.op0, i.read), Taint(s, i.op1, i.read), Written(i.op0, i.write));
      }
    } else {
      OnlyLoads(s, e.calls);
    }
  }

  lemma Swap(s: State, a: Call, b: Call, c: Call, d: Call, u: Marks, v: Marks, p: set<Place>, q: set<Place>)
    requires Fetches(s, a, Dest, u) && Fetches(s, b, Src, v) && Writes(c, p, [Src]) && Writes(d, q, [Dest])
    ensures Visible(Run(s, [a, b] + [c, d])) == Assign(Assign(Visible(s), p, v + Control(s)), q, u + Control(s))
  {
    TwoLoads(s, a, b, Dest, Src, u, v, [Src]);
    TwoLoads(s, a, b, Dest, Src, u, v, [Dest]);
    assert {} + v == v && u + {} == u;
    TwoStores(s, [a, b], c, d, v, u);
    AfterWrites(s, Visible(s), c, p, [Src], v);
    AfterWrites(s, After(s, Visible(s), c, v), d, q, [Dest], u);
  }

  lemma HalfSwap(s: State, a: Call, b: Call, c: Call, u: Marks, v: Marks, p: set<Place>)
    requires Fetches(s, a, Dest, u) && Fetches(s, b, Src, v) && Writes(c, p, [Src])
    ensures Visible(Run(s, [a, b] + [c])) == Assign(Visible(s), p, v + Control(s))
  {
    TwoLoads(s, a, b, Dest, Src, u, v, [Src]);
    assert {} + v == v;
    OneStore(s, [a, b], c, v);
    AfterWrites(s, Visible(s), c, p, [Src], v);
  }

  lemma XaddTransfers(i: Instr, s: State)
    ensures XADD(i).ending.Done? <==> Readable(i.op0, i.read) && i.op1.RegOp? && Writable(i.op0, i.write)
    ensures Visible(Run(s, XADD(i).calls)) == XaddMeans(i, s)
  {
    var e, args := XADD(i), [Dest, Src];
    FetchIs(s, i.op0, i.read, Dest);
    FetchNoMemoryIs(s, i.op1, Src, false);
    PutIs(i.op0, i.write, args);
    if e.ending.Done? {
      var a, b := Fetch(i.op0, i.read, Dest).calls[0], FetchNoMemory(i.op1, Src, false).calls[0];
      var c, d, f := Put(i.op0, i.write, args).calls[0], SetReg(i.op1.reg, [Dest]), SetReg(EFLAGS, args);
      assert e.calls == [a, b] + [c, d, f];
      WritesWhole(i.op1.reg, [Dest]);
      WritesWhole(EFLAGS, args);
      AddAndCopy(s, a, b, c, d, f, Taint(s, i.op0, i.read), Taint(s, i.op1, Unknown),
                 Written(i.op0, i.write), Whole(i.op1.reg), Whole(EFLAGS));
    } else {
      OnlyLoads(s, e.calls);
    }
  }

  lemma AddAndCopy(s: State, a: Call, b: Call, c: Call, d: Call, f: Call, u: Marks, v: Marks,
                   p: set<Place>, q: set<Place>, r: set<Place>)
    requires Fetches(s, a, Dest, u) && Fetches(s, b, Src, v)
    requires Writes(c, p, [Dest, Src]) && Writes(d, q, [Dest]) && Writes(f, r, [Dest, Src])
    ensures Visible(Run(s, [a, b] + [c, d, f])) ==
            Assign(Assign(Assign(Visible(s), p, u + v + Control(s)), q, u + Control(s)), r, u + v + Control(s))
  {
    TwoLoads(s, a, b, Dest, Src, u, v, [Dest, Src]);
    TwoLoads(s, a, b, Dest, Src, u, v, [Dest]);
    assert u + {} == u;
    ThreeStores(s, [a, b], c, d, f, u + v, u, u + v);
    var t := Assign(Visible(s), p, u + v + Control(s));
    AfterWrites(s, Visible(s), c, p, [Dest, Src], u + v);
    AfterWrites(s, t, d, q, [Dest], u);
    AfterWrites(s, Assign(t, q, u + Control(s)), f, r, [Dest, Src], u + v);
  }

  lemma XorTransfers(i: Instr, s: State)
    ensures XOR(i).ending.Done? <==>
            Readable(i.op0, i.read) && (Readable(i.op1, i.read) || i.op1.ImmOp?) && Writable(i.op0, i.write)
    ensures Visible(Run(s, XOR(i).calls)) == XorMeans(i, s)
  {
    var e, args := XOR(i), [Dest, Src];
    FetchIs(s, i.op0, i.read, Dest);
    FetchAnyIs(s, i.op1, i.read, Src);
    PutIs(i.op0, i.write, args);
    WritesWhole(EFLAGS, args);
    if e.ending.Done? {
      var a, b, d := Fetch(i.op0, i.read, Dest).calls[0], FetchAny(i.op1, i.read, Src).calls[0], SetReg(EFLAGS, args);
      var u, v := Taint(s, i.op0, i.read), Taint(s, i.op1, i.read);
      if i.op0.RegOp? && i.op1 == i.op0 {
        assert e.calls == [a, b] + [ClearReg(i.op0.reg), d];
        ClearAndFlag(s, a, b, i.op0.reg, d, u, args);
      } else {
        var c := Put(i.op0, i.write, args).calls[0];
        assert e.calls == [a, b, c, d];
        UnionTwice(s, a, b, c, d, Dest, Src, u, v, Written(i.op0, i.write), Whole(EFLAGS));
      }
    } else {
      OnlyLoads(s, e.calls);
    }
  }

  lemma ClearAndFlag(s: State, a: Call, b: Call, r: Reg, d: Call, u: Marks, args: seq<Scratch>)
    requires Fetches(s, a, Dest, u) && Fetches(s, b, Src, u) && args == [Dest, Src] && Writes(d, Whole(EFLAGS), args)
    ensures Visible(Run(s, [a, b] + [ClearReg(r), d])) ==
            Assign(Assign(Visible(s), Registers(Parts(r) + [r]) * s.Keys, Control(s)), Whole(EFLAGS), u + Control(s))
  {
    TwoLoads(s, a, b, Dest, Src, u, u, args);
    TwoLoads(s, a, b, Dest, Src, u, u, []);
    assert u + u == u;
    TwoStores(s, [a, b], ClearReg(r), d, {}, u);
    ClearedFirst(s, r);
    AfterWrites(s, After(s, Visible(s), ClearReg(r), {}), d, Whole(EFLAGS), args, u);
  }

  lemma ClearedFirst(s: State, r: Reg)
    ensures After(s, Visible(s), ClearReg(r), {}) == Assign(Visible(s), Registers(Parts(r) + [r]) * s.Keys, Control(s))
  {
    var places := Registers(Parts(r) + [r]);
    assert places * Visible(s).Keys == places * s.Keys;
    assert {} + Control(s) == Control(s);
  }

  // ------------------------------------------------------ two instructions

  lemma ReadVisible(s: State, p: Place, v: Marks)
    requires p in Visible(s) && Visible(s)[p] == v
    ensures Over(s, {p}) == v
  {
  }

  lemma OverAssigned(t: State, places: set<Place>, v: Marks, chosen: set<Place>)
    requires chosen <= places && chosen != {}
    ensures Over(Assign(t, places, v), chosen) == v
  {
    var u := Assign(t, places, v);
    var p :| p in chosen;
    assert u[p] == v;
    forall m | m in v
      ensures m in Over(u, chosen)
    {
      assert m in u[p];
    }
  }

  lemma ControlUntouched(s: State, t: State, places: set<Place>, v: Marks)
    requires Visible(t) == Assign(Visible(s), places, v) && forall p :: p in places ==> p.InReg? || p.InMem?
    ensures Control(t) == Control(s)
  {
    StoreKeepsInputs(s, places, v);
    SameControl(t, Assign(s, places, v));
  }

  /** Pushing register r and popping the same bytes into q. */
  ghost function PushedAndPopped(s: State, r: Reg, q: Reg, a: int, n: nat): State {
    Run(Run(s, PUSH(Instr(RegOp(r), OtherOp, 32, Unknown, Range(a, n))).calls),
        POP(Instr(RegOp(q), OtherOp, 32, Range(a, n), Unknown)).calls)
  }

  lemma PushesOnto(s: State, t: State, r: Reg, a: int, n: nat)
    requires t == Run(s, PUSH(Instr(RegOp(r), OtherOp, 32, Unknown, Range(a, n))).calls)
    ensures Control(t) == Control(s)
    ensures Over(t, Bytes(a, n)) == if n > 0 then Over(s, {InReg(r)}) + Control(s) else {}
  {
    var v := Over(s, {InReg(r)}) + Control(s);
    PushTransfers(Instr(RegOp(r), OtherOp, 32, Unknown, Range(a, n)), s);
    ControlUntouched(s, t, Bytes(a, n), v);
    StackHolds(s, t, a, n, v);
  }

  lemma PopsFrom(t: State, end: State, q: Reg, a: int, n: nat)
    requires end == Run(t, POP(Instr(RegOp(q), OtherOp, 32, Range(a, n), Unknown)).calls) && !IsFrame(q)
    ensures Over(end, {InReg(q)}) == Over(t, Bytes(a, n)) + Control(t)
  {
    PopTransfers(Instr(RegOp(q), OtherOp, 32, Range(a, n), Unknown), t);
    var v := Over(t, Bytes(a, n));
    assert v + {} + Control(t) == v + Control(t);
    assert InReg(q) in Whole(q);
    ReadVisible(end, InReg(q), v + Control(t));
  }

  lemma PopsWhatWasPushed(s: State, r: Reg, q: Reg, a: int, n: nat)
    requires !IsFrame(q)
    ensures Over(PushedAndPopped(s, r, q, a, n), {InReg(q)}) ==
            (if n > 0 then Over(s, {InReg(r)}) else {}) + Control(s)
  {
    var t := Run(s, PUSH(Instr(RegOp(r), OtherOp, 32, Unknown, Range(a, n))).calls);
    PushesOnto(s, t, r, a, n);
    PopsFrom(t, PushedAndPopped(s, r, q, a, n), q, a, n);
  }

  lemma StackHolds(s: State, t: State, a: int, n: nat, v: Marks)
    requires Visible(t) == Assign(Visible(s), Bytes(a, n), v)
    ensures Over(t, Bytes(a, n)) == if n > 0 then v else {}
  {
    OverVisible(t, Visible(t), Bytes(a, n));
    if n > 0 {
      assert InMem(a) in Bytes(a, n);
      OverAssigned(Visible(s), Bytes(a, n), v, Bytes(a, n));
    } else {
      OneMoreByte(a, 0);
      OverNone(t);
    }
  }

  /** The register gets exactly what was pushed unless nothing was moved and something would have been. */
  lemma PushPopRoundTrip(s: State, r: Reg, q: Reg, a: int, n: nat)
    requires !IsFrame(q)
    ensures Over(PushedAndPopped(s, r, q, a, n), {InReg(q)}) == Over(s, {InReg(r)}) + Control(s) <==>
            (n > 0 || Over(s, {InReg(r)}) <= Control(s))
  {
    PopsWhatWasPushed(s, r, q, a, n);
    if n > 0 {
    } else if Over(s, {InReg(r)}) <= Control(s) {
      assert Over(s, {InReg(r)}) + Control(s) == Control(s);
      assert {} + Control(s) == Control(s);
    } else {
      var m :| m in Over(s, {InReg(r)}) && m !in Control(s);
      assert m in Over(s, {InReg(r)}) + Control(s);
    }
  }

  lemma WholesApart(q: Reg, r: Reg)
    requires {q, r} !! {ESP, EBP} && !Overlap(q, r)
    ensures Whole(q) !! Whole(r) && InReg(q) in Whole(q) && InReg(r) in Whole(r) && !IsFrame(q) && !IsFrame(r)
  {
    TaintRuns.PartsApart(q, r);
    ReachedIsWithin(q, q);
    ReachedIsWithin(r, r);
  }

  /** Two registers that have no bit in common swap their taint. */
  lemma XchgSwaps(s: State, q: Reg, r: Reg)
    requires {q, r} !! {ESP, EBP} && !Overlap(q, r)
    ensures
      var end := Run(s, XCHG(Instr(RegOp(q), RegOp(r), 32, Unknown, Unknown)).calls);
      && Over(end, {InReg(q)}) == Over(s, {InReg(r)}) + Control(s)
      && Over(end, {InReg(r)}) == Over(s, {InReg(q)}) + Control(s)
  {
    var i := Instr(RegOp(q), RegOp(r), 32, Unknown, Unknown);
    var end := Run(s, XCHG(i).calls);
    XchgTransfers(i, s);
    WholesApart(q, r);
    Swapped(s, end, Whole(q), Whole(r), InReg(q), InReg(r),
            Over(s, {InReg(q)}) + Control(s), Over(s, {InReg(r)}) + Control(s));
  }

  lemma Swapped(s: State, end: State, places: set<Place>, others: set<Place>, p: Place, q: Place, u: Marks, v: Marks)
    requires p in places && q in others && places !! others && !p.InScratch? && !q.InScratch?
    requires Visible(end) == Assign(Assign(Visible(s), places, v), others, u)
    ensures Over(end, {p}) == v && Over(end, {q}) == u
  {
    ReadVisible(end, p, v);
    ReadVisible(end, q, u);
  }
}
