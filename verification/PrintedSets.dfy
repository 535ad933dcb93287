/**
  Which sets a profiled call prints, and in which order, by addresses: bytes in ascending order, then
  base and index register; and control's sets by ascending branch.
*/
module PrintedSets {
  import opened Collections
  import opened TaintState
  import opened ProfiledStores

  /** Byte number c of a load is printed: it has an entry and, by words, it is the first of its word. */
  ghost predicate IsShown(z: Settings, s: State, start: int, c: nat) {
    InMem(start + c) in s && (z.word && z.wordSize > 0 ==> c % z.wordSize == 0)
  }

  /** The numbers in `at`, in ascending order, are those of the bytes among the first n that are printed. */
  ghost predicate AreShown(z: Settings, s: State, start: int, n: nat, at: seq<nat>) {
    && (forall k :: 0 <= k < |at| ==> at[k] < n && IsShown(z, s, start, at[k]))
    && (forall k, l :: 0 <= k < l < |at| ==> at[k] < at[l])
    && forall c: nat {:trigger IsShown(z, s, start, c)} :: c < n && IsShown(z, s, start, c) ==> c in at
  }

  /** The sets are those of the bytes with these numbers. */
  ghost predicate AreOfBytes(s: State, start: int, at: seq<nat>, sets: seq<Marks>) {
    && |sets| == |at|
    && forall k :: 0 <= k < |at| ==> InMem(start + at[k]) in s && sets[k] == s[InMem(start + at[k])]
  }

  lemma ShownStay(z: Settings, s: State, start: int, n: nat, at: seq<nat>)
    requires AreShown(z, s, start, n, at) && !IsShown(z, s, start, n)
    ensures AreShown(z, s, start, n + 1, at)
  {
  }

  lemma ShownNext(z: Settings, s: State, start: int, n: nat, at: seq<nat>)
    requires AreShown(z, s, start, n, at) && IsShown(z, s, start, n)
    ensures AreShown(z, s, start, n + 1, at + [n])
  {
    var more := at + [n];
    assert more[|at|] == n;
    forall c: nat | c < n + 1 && IsShown(z, s, start, c)
      ensures c in more
    {
      assert c < n ==> c in at;
    }
  }

  lemma OneMoreByteShown(s: State, start: int, at: seq<nat>, sets: seq<Marks>, c: nat)
    requires AreOfBytes(s, start, at, sets) && InMem(start + c) in s
    ensures AreOfBytes(s, start, at + [c], sets + [s[InMem(start + c)]])
  {
  }

  lemma ByteShownNext(z: Settings, s: State, start: int, n: nat)
    ensures BytesShown(z, s, start, n + 1) ==
            BytesShown(z, s, start, n) + if IsShown(z, s, start, n) then [s[InMem(start + n)]] else []
  {
  }

  lemma {:induction false} BytesShownAre(z: Settings, s: State, start: int, n: nat) returns (at: seq<nat>)
    ensures AreShown(z, s, start, n, at) && AreOfBytes(s, start, at, BytesShown(z, s, start, n))
    decreases n
  {
    at := [];
    if n > 0 {
      at := BytesShownAre(z, s, start, n - 1);
      ByteShownNext(z, s, start, n - 1);
      if IsShown(z, s, start, n - 1) {
        ShownNext(z, s, start, n - 1, at);
        OneMoreByteShown(s, start, at, BytesShown(z, s, start, n - 1), n - 1);
        at := at + [n - 1];
      } else {
        ShownStay(z, s, start, n - 1, at);
      }
    }
  }

  ghost function EntryOf(s: State, r: Reg): seq<Marks> {
    if r != Invalid && InReg(r) in s then [s[InReg(r)]] else []
  }

  /**
    A profiled load from memory prints the sets of its bytes that have entries, in ascending order,
    of which with words those count that begin one; then the entry of the base register, then that
    of the index register.
  */
  lemma LoadMemPrints(z: Settings, s: State, l: Profiled) returns (at: seq<nat>)
    requires z.markop && l.toProfile && l.call.LoadMem?
    ensures AreShown(z, s, l.call.start, l.call.size, at)
    ensures
      var sets := Printed(z, s, l);
      && |at| <= |sets| && AreOfBytes(s, l.call.start, at, sets[..|at|])
      && sets[|at|..] == EntryOf(s, l.call.base) + EntryOf(s, l.call.index)
  {
    at := BytesShownAre(z, s, l.call.start, l.call.size);
  }

  ghost predicate AreOfBranches(s: State, order: seq<int>, sets: seq<Marks>) {
    && |sets| == |order|
    && forall k :: 0 <= k < |order| ==> InControl(order[k]) in s && sets[k] == s[InControl(order[k])]
  }

  ghost predicate Ascends(order: seq<int>, elements: set<int>) {
    && (forall a :: a in order <==> a in elements)
    && forall k, l :: 0 <= k < l < |order| ==> order[k] < order[l]
  }

  lemma AscendsFrom(order: seq<int>, elements: set<int>, a: int)
    requires IsLeast(a, elements) && Ascends(order, elements - {a})
    ensures Ascends([a] + order, elements)
  {
    forall k, l | 0 <= k < l < |order| + 1
      ensures ([a] + order)[k] < ([a] + order)[l]
    {
      assert ([a] + order)[l] == order[l - 1] && order[l - 1] in order;
    }
  }

  lemma OneMoreBranchShown(s: State, order: seq<int>, sets: seq<Marks>, a: int)
    requires AreOfBranches(s, order, sets) && InControl(a) in s
    ensures AreOfBranches(s, [a] + order, [s[InControl(a)]] + sets)
  {
  }

  lemma {:induction false} BranchesShownAre(s: State, branches: set<int>) returns (order: seq<int>)
    requires forall a :: a in branches ==> InControl(a) in s
    ensures Ascends(order, branches)
    ensures AreOfBranches(s, order, BranchesShown(s, branches))
    decreases |branches|
  {
    order := [];
    if exists a :: a in branches {
      LeastExists(branches);
      var a :| IsLeast(a, branches);
      LeastFirst(s, branches, a);
      order := BranchesShownAre(s, branches - {a});
      AscendsFrom(order, branches, a);
      OneMoreBranchShown(s, order, BranchesShown(s, branches - {a}), a);
      order := [a] + order;
    }
  }

  /** Control's sets are those of all active branches, by ascending address. */
  lemma ControlShownAre(s: State) returns (order: seq<int>)
    ensures forall a :: a in order <==> InControl(a) in s
    ensures forall k, l :: 0 <= k < l < |order| ==> order[k] < order[l]
    ensures AreOfBranches(s, order, ControlShown(s))
  {
    order := BranchesShownAre(s, Active(s.Keys));
  }
}
