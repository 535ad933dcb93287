/**
  What each analysis call does to a single place, mark by mark: in terms of entries, bytes and the
  bits of registers, without the tables and sets that the machine computes with.
*/
module CallEffects {
  import opened TaintState
  import opened RegisterBits

  ghost predicate Carries(s: State, p: Place, m: nat) {
    p in s && m in s[p]
  }

  /** One of these scratch sets carries the mark. */
  ghost predicate Offered(s: State, args: seq<Scratch>, m: nat) {
    exists n :: n in args && Carries(s, InScratch(n), m)
  }

  /** An active branch carries the mark. */
  ghost predicate Controlled(s: State, m: nat) {
    exists a :: Carries(s, InControl(a), m)
  }

  ghost predicate InRange(s: State, start: int, size: nat, m: nat) {
    exists a :: start <= a < start + size && Carries(s, InMem(a), m)
  }

  ghost predicate IsByteOf(p: Place, start: int, size: nat) {
    p.InMem? && start <= p.byte < start + size
  }

  ghost predicate Same(s: State, t: State, p: Place) {
    (p in t <==> p in s) && (p in s ==> t[p] == s[p])
  }

  lemma OfferedIs(s: State, args: seq<Scratch>, m: nat)
    ensures m in Over(s, Named(args)) <==> Offered(s, args, m)
  {
    if Offered(s, args, m) {
      var n :| n in args && Carries(s, InScratch(n), m);
      assert InScratch(n) in Named(args);
    }
    if m in Over(s, Named(args)) {
      var p :| p in Named(args) && p in s && m in s[p];
      assert Carries(s, InScratch(p.name), m);
    }
  }

  lemma ControlledIs(s: State, m: nat)
    ensures m in Over(s, Branches(s.Keys)) <==> Controlled(s, m)
  {
    if Controlled(s, m) {
      var a :| Carries(s, InControl(a), m);
      assert InControl(a) in Branches(s.Keys);
    }
    if m in Over(s, Branches(s.Keys)) {
      var p :| p in Branches(s.Keys) && p in s && m in s[p];
      assert Carries(s, InControl(p.branch), m);
    }
  }

  lemma StoredIs(s: State, args: seq<Scratch>, m: nat)
    ensures m in Over(s, Named(args) + Branches(s.Keys)) <==> Offered(s, args, m) || Controlled(s, m)
  {
    OverBoth(s, Named(args), Branches(s.Keys));
    OfferedIs(s, args, m);
    ControlledIs(s, m);
  }

  /** A register gets the marks of the scratch sets and of all active branches, and so do its parts. */
  lemma SetRegEffect(s: State, r: Reg, args: seq<Scratch>, p: Place)
    ensures
      var t := Step(s, SetReg(r, args));
      if p.InReg? && r != ESP && r != EBP && IsWithin(p.reg, r) then
        p in t && forall m: nat :: m in t[p] <==> Offered(s, args, m) || Controlled(s, m)
      else Same(s, t, p)
  {
    if p.InReg? {
      ReachedIsWithin(p.reg, r);
    }
    forall m: nat
      ensures m in Over(s, Named(args) + Branches(s.Keys)) <==> Offered(s, args, m) || Controlled(s, m)
    {
      StoredIs(s, args, m);
    }
  }

  /** Clearing a register leaves control's marks in it and in its parts, where these have an entry. */
  lemma ClearRegEffect(s: State, r: Reg, p: Place)
    ensures
      var t := Step(s, ClearReg(r));
      if p.InReg? && IsWithin(p.reg, r) && p in s then p in t && forall m: nat :: m in t[p] <==> Controlled(s, m)
      else Same(s, t, p)
  {
    if p.InReg? {
      ReachedIsWithin(p.reg, r);
    }
    forall m: nat
      ensures m in Over(s, Branches(s.Keys)) <==> Controlled(s, m)
    {
      ControlledIs(s, m);
    }
  }

  lemma SetMemEffect(s: State, start: int, size: nat, args: seq<Scratch>, p: Place)
    ensures
      var t := Step(s, SetMem(start, size, args));
      if IsByteOf(p, start, size) then
        p in t && forall m: nat :: m in t[p] <==> Offered(s, args, m) || Controlled(s, m)
      else Same(s, t, p)
  {
    assert p in Bytes(start, size) <==> IsByteOf(p, start, size);
    forall m: nat
      ensures m in Over(s, Named(args) + Branches(s.Keys)) <==> Offered(s, args, m) || Controlled(s, m)
    {
      StoredIs(s, args, m);
    }
  }

  lemma ClearMemEffect(s: State, start: int, size: nat, p: Place)
    ensures
      var t := Step(s, ClearMem(start, size));
      if IsByteOf(p, start, size) && p in s then p in t && forall m: nat :: m in t[p] <==> Controlled(s, m)
      else Same(s, t, p)
  {
    assert p in Bytes(start, size) <==> IsByteOf(p, start, size);
    forall m: nat
      ensures m in Over(s, Branches(s.Keys)) <==> Controlled(s, m)
    {
      ControlledIs(s, m);
    }
  }

  lemma LoadRegEffect(s: State, r: Reg, n: Scratch, p: Place)
    ensures
      var t := Step(s, LoadReg(r, n));
      if p == InScratch(n) then p in t && forall m: nat :: m in t[p] <==> Carries(s, InReg(r), m)
      else Same(s, t, p)
  {
  }

  /** A load from memory adds up the bytes and the registers that address them, if there are any. */
  lemma LoadMemEffect(s: State, start: int, size: nat, base: Reg, index: Reg, n: Scratch, p: Place)
    ensures
      var t := Step(s, LoadMem(start, size, base, index, n));
      if p == InScratch(n) then
        && p in t
        && forall m: nat :: m in t[p] <==>
             || InRange(s, start, size, m)
             || (base != Invalid && Carries(s, InReg(base), m)) || (index != Invalid && Carries(s, InReg(index), m))
      else Same(s, t, p)
  {
    forall m: nat
      ensures m in Over(s, Bytes(start, size) + Registers(Usable(base) + Usable(index))) <==>
              || InRange(s, start, size, m)
              || (base != Invalid && Carries(s, InReg(base), m)) || (index != Invalid && Carries(s, InReg(index), m))
    {
      OverBoth(s, Bytes(start, size), Registers(Usable(base) + Usable(index)));
      InRangeIs(s, start, size, m);
      AddressIs(s, base, index, m);
    }
  }

  lemma InRangeIs(s: State, start: int, size: nat, m: nat)
    ensures m in Over(s, Bytes(start, size)) <==> InRange(s, start, size, m)
  {
    if InRange(s, start, size, m) {
      var a :| start <= a < start + size && Carries(s, InMem(a), m);
      assert InMem(a) in Bytes(start, size);
    }
    if m in Over(s, Bytes(start, size)) {
      var p :| p in Bytes(start, size) && p in s && m in s[p];
      assert Carries(s, InMem(p.byte), m);
    }
  }

  lemma UsableIs(s: State, r: Reg, m: nat)
    ensures m in Over(s, Registers(Usable(r))) <==> r != Invalid && Carries(s, InReg(r), m)
  {
    if r != Invalid {
      assert Usable(r) == [r] && InReg(r) in Registers([r]);
    } else {
      assert Registers([]) == {};
    }
  }

  lemma BothRegisters(a: seq<Reg>, b: seq<Reg>)
    ensures Registers(a + b) == Registers(a) + Registers(b)
  {
  }

  lemma AddressIs(s: State, base: Reg, index: Reg, m: nat)
    ensures m in Over(s, Registers(Usable(base) + Usable(index))) <==>
            (base != Invalid && Carries(s, InReg(base), m)) || (index != Invalid && Carries(s, InReg(index), m))
  {
    BothRegisters(Usable(base), Usable(index));
    OverBoth(s, Registers(Usable(base)), Registers(Usable(index)));
    UsableIs(s, base, m);
    UsableIs(s, index, m);
  }

  lemma ClearSetEffect(s: State, n: Scratch, p: Place)
    ensures
      var t := Step(s, ClearSet(n));
      if p == InScratch(n) then p in t && t[p] == {} else Same(s, t, p)
  {
  }

  lemma NewTaintEffect(s: State, start: int, size: nat, mark: nat, p: Place)
    ensures
      var t := Step(s, NewTaint(start, size, mark));
      if IsByteOf(p, start, size) then p in t && t[p] == {mark} else Same(s, t, p)
  {
    assert p in Bytes(start, size) <==> IsByteOf(p, start, size);
  }

  /** A branch on flags with marks becomes active, if it is not yet, and gains them; else nothing happens. */
  lemma PushControlEffect(s: State, a: int, p: Place)
    ensures
      var t := Step(s, PushControl(a));
      if p == InControl(a) && exists m :: Carries(s, InReg(EFLAGS), m) then
        p in t && forall m: nat :: m in t[p] <==> Carries(s, p, m) || Carries(s, InReg(EFLAGS), m)
      else Same(s, t, p)
  {
    var flags := Over(s, {InReg(EFLAGS)});
    forall m: nat
      ensures m in flags <==> Carries(s, InReg(EFLAGS), m)
      ensures m in Over(s, {InControl(a), InReg(EFLAGS)}) <==>
              Carries(s, InControl(a), m) || Carries(s, InReg(EFLAGS), m)
    {
    }
    if flags != {} {
      var m :| m in flags;
      assert Carries(s, InReg(EFLAGS), m);
    }
  }
}
