/**
  The packed bitset: marks are stored one bit each in an array of 32-bit words, and every
  operation is proved against the set of marks that the words stand for.
*/
module Words {
  type Word = bv32

  const BITS: nat := 32

  /** The word with bit k alone; BITSET_MASK computes it by a shift. */
  function Mask(k: nat): Word {
    if k == 0 then 1 else Mask(k - 1) << 1
  }

  predicate Under(w: Word, m: Word) {
    w & m != 0
  }

  /** The positions below n at which w has a one. */
  ghost function Ones(w: Word, n: nat): set<nat> {
    if n == 0 then {} else Ones(w, n - 1) + if Under(w, Mask(n - 1)) then {n - 1} else {}
  }

  ghost function Bits(w: Word): set<nat> {
    Ones(w, BITS)
  }

  lemma {:induction false} OnesAt(w: Word, n: nat, k: nat)
    ensures k in Ones(w, n) <==> k < n && Under(w, Mask(k))
  {
    if n > 0 {
      OnesAt(w, n - 1, k);
    }
  }

  lemma BitAt(w: Word, k: nat)
    ensures k in Bits(w) <==> k < BITS && Under(w, Mask(k))
  {
    OnesAt(w, BITS, k);
  }

  // ------------------------------------------------------ masks

  predicate IsSingle(m: Word) {
    m != 0 && m & (m - 1) == 0
  }

  lemma OneMoreFits(k: nat)
    requires k < 31
    ensures (k + 1) as bv6 == k as bv6 + 1
  {
  }

  lemma ShiftOnce(j: bv6, k: bv6)
    requires j < 31 && k == j + 1
    ensures (1 as Word) << k == ((1 as Word) << j) << 1
  {
  }

  lemma {:induction false} MaskIsShift(k: nat)
    requires k < BITS
    ensures Mask(k) == 1 << k
  {
    if k > 0 {
      MaskIsShift(k - 1);
      OneMoreFits(k - 1);
      ShiftOnce((k - 1) as bv6, k as bv6);
    }
  }

  lemma ShiftIsSingle(k: bv6)
    requires k < 32
    ensures IsSingle((1 as Word) << k)
  {
  }

  lemma MaskIsSingle(k: nat)
    requires k < BITS
    ensures IsSingle(Mask(k))
  {
    MaskIsShift(k);
    ShiftIsSingle(k as bv6);
  }

  lemma ShiftsAreApart(j: bv6, k: bv6)
    requires j < 32 && k < 32 && j != k
    ensures ((1 as Word) << j) & ((1 as Word) << k) == 0
  {
  }

  lemma SmallNumberFits(k: nat)
    requires k < BITS
    ensures (k as bv6) as int == k
  {
  }

  lemma MasksAreApart(j: nat, k: nat)
    requires j < BITS && k < BITS && j != k
    ensures Mask(j) & Mask(k) == 0
  {
    MaskIsShift(k);
    MaskIsShift(j);
    SmallNumberFits(j);
    SmallNumberFits(k);
    ShiftsAreApart(j as bv6, k as bv6);
  }

  // ------------------------------------------------------ bitwise operations under a mask

  lemma OrDistributes(a: Word, b: Word, m: Word)
    ensures (a | b) & m == (a & m) | (b & m)
  {
  }

  lemma OrIsZero(a: Word, b: Word)
    ensures a | b == 0 <==> a == 0 && b == 0
  {
  }

  lemma OrMeets(a: Word, b: Word, m: Word)
    ensures (a | b) & m == 0 <==> a & m == 0 && b & m == 0
  {
    OrDistributes(a, b, m);
    OrIsZero(a & m, b & m);
  }

  lemma OrUnder(a: Word, b: Word, m: Word)
    ensures Under(a | b, m) <==> Under(a, m) || Under(b, m)
  {
    OrMeets(a, b, m);
  }

  lemma SingleMeets(a: Word, m: Word)
    requires IsSingle(m)
    ensures a & m == 0 || a & m == m
  {
  }

  lemma AndUnder(a: Word, b: Word, m: Word)
    requires IsSingle(m)
    ensures Under(a & b, m) <==> Under(a, m) && Under(b, m)
  {
  }

  lemma AndNotUnder(a: Word, b: Word, m: Word)
    requires IsSingle(m)
    ensures Under(a & !b, m) <==> Under(a, m) && !Under(b, m)
  {
    SingleMeets(a, m);
    SingleMeets(b, m);
  }

  lemma OrMask(a: Word, b: Word, k: nat)
    requires k < BITS
    ensures Under(a | b, Mask(k)) <==> Under(a, Mask(k)) || Under(b, Mask(k))
  {
    var m := Mask(k);
    assert Under(a | b, m) <==> Under(a, m) || Under(b, m) by {
      OrUnder(a, b, m);
    }
  }

  lemma OrBits(a: Word, b: Word, w: Word)
    requires w == a | b
    ensures Bits(w) == Bits(a) + Bits(b)
  {
    forall k: nat
      ensures k in Bits(w) <==> k in Bits(a) || k in Bits(b)
    {
      BitAt(w, k);
      BitAt(a, k);
      BitAt(b, k);
      if k < BITS {
        OrMask(a, b, k);
      }
    }
  }

  lemma AndMask(a: Word, b: Word, k: nat)
    requires k < BITS
    ensures Under(a & b, Mask(k)) <==> Under(a, Mask(k)) && Under(b, Mask(k))
  {
    var m := Mask(k);
    assert Under(a & b, m) <==> Under(a, m) && Under(b, m) by {
      MaskIsSingle(k);
      AndUnder(a, b, m);
    }
  }

  lemma AndBits(a: Word, b: Word, w: Word)
    requires w == a & b
    ensures Bits(w) == Bits(a) * Bits(b)
  {
    forall k: nat
      ensures k in Bits(w) <==> k in Bits(a) && k in Bits(b)
    {
      BitAt(w, k);
      BitAt(a, k);
      BitAt(b, k);
      if k < BITS {
        AndMask(a, b, k);
      }
    }
  }

  lemma AndNotMask(a: Word, b: Word, k: nat)
    requires k < BITS
    ensures Under(a & !b, Mask(k)) <==> Under(a, Mask(k)) && !Under(b, Mask(k))
  {
    var m := Mask(k);
    assert Under(a & !b, m) <==> Under(a, m) && !Under(b, m) by {
      MaskIsSingle(k);
      AndNotUnder(a, b, m);
    }
  }

  lemma AndNotBits(a: Word, b: Word, w: Word)
    requires w == a & !b
    ensures Bits(w) == Bits(a) - Bits(b)
  {
    forall k: nat
      ensures k in Bits(w) <==> k in Bits(a) && k !in Bits(b)
    {
      BitAt(w, k);
      BitAt(a, k);
      BitAt(b, k);
      if k < BITS {
        AndNotMask(a, b, k);
      }
    }
  }

  lemma XorIsEither(a: Word, b: Word)
    ensures a ^ b == (a & !b) | (b & !a)
  {
  }

  lemma XorBits(a: Word, b: Word, w: Word)
    requires w == a ^ b
    ensures Bits(w) == (Bits(a) - Bits(b)) + (Bits(b) - Bits(a))
  {
    XorIsEither(a, b);
    var x, y := a & !b, b & !a;
    AndNotBits(a, b, x);
    AndNotBits(b, a, y);
    OrBits(x, y, w);
  }

  lemma MaskBits(j: nat)
    requires j < BITS
    ensures Bits(Mask(j)) == {j}
  {
    forall k: nat
      ensures k in Bits(Mask(j)) <==> k == j
    {
      BitAt(Mask(j), k);
      MaskIsSingle(j);
      if k < BITS && k != j {
        MasksAreApart(j, k);
      }
    }
  }

  lemma {:induction false} ZeroOnes(n: nat)
    ensures Ones(0, n) == {}
  {
    if n > 0 {
      ZeroOnes(n - 1);
    }
  }

  // ------------------------------------------------------ a word is known by its bits

  lemma LowBitsStep(w: Word, m: Word)
    requires IsSingle(m) && w & (m - 1) == 0 && !Under(w, m)
    ensures w & ((m << 1) - 1) == 0
  {
  }

  lemma NoneBelow(w: Word, n: nat)
    requires n > 0 && Ones(w, n) == {}
    ensures Ones(w, n - 1) == {} && !Under(w, Mask(n - 1))
  {
    OnesAt(w, n, n - 1);
    assert Ones(w, n - 1) <= Ones(w, n);
  }

  lemma {:induction false} LowBitsAreZero(w: Word, n: nat)
    requires n < BITS && Ones(w, n) == {}
    ensures w & (Mask(n) - 1) == 0
  {
    if n > 0 {
      NoneBelow(w, n);
      LowBitsAreZero(w, n - 1);
      MaskIsSingle(n - 1);
      LowBitsStep(w, Mask(n - 1));
    }
  }

  lemma LastBit(w: Word)
    requires w & 0x7fff_ffff == 0 && w & 0x8000_0000 == 0
    ensures w == 0
  {
  }

  lemma NoBitsIsZero(w: Word)
    ensures Bits(w) == {} <==> w == 0
  {
    ZeroOnes(BITS);
    if Bits(w) == {} {
      NoneBelow(w, BITS);
      LowBitsAreZero(w, 31);
      MaskIsShift(31);
      LastBit(w);
    }
  }

  lemma XorIsZero(a: Word, b: Word)
    requires a ^ b == 0
    ensures a == b
  {
  }

  lemma SameBits(a: Word, b: Word)
    requires Bits(a) == Bits(b)
    ensures a == b
  {
    XorBits(a, b, a ^ b);
    NoBitsIsZero(a ^ b);
    XorIsZero(a, b);
  }

  lemma AbsorbsBits(a: Word, b: Word)
    ensures a | b == a <==> Bits(b) <= Bits(a)
  {
    OrBits(a, b, a | b);
    if Bits(b) <= Bits(a) {
      assert Bits(a) + Bits(b) == Bits(a);
      SameBits(a | b, a);
    }
  }

  // ------------------------------------------------------ the word operations the bitset uses

  method BitMask(pos: nat) returns (m: Word)
    ensures m == Mask(pos % BITS)
  {
    MaskIsShift(pos % BITS);
    m := 1 << (pos % BITS);
  }

  method WithBit(a: Word, pos: nat) returns (w: Word)
    ensures Bits(w) == Bits(a) + {pos % BITS}
  {
    var m := BitMask(pos);
    w := a | m;
    OrBits(a, m, w);
    MaskBits(pos % BITS);
  }

  method WithoutBit(a: Word, pos: nat) returns (w: Word)
    ensures Bits(w) == Bits(a) - {pos % BITS}
  {
    var m := BitMask(pos);
    w := a & !m;
    AndNotBits(a, m, w);
    MaskBits(pos % BITS);
  }

  method HasBit(a: Word, pos: nat) returns (b: bool)
    ensures b <==> pos % BITS in Bits(a)
  {
    var m := BitMask(pos);
    b := Under(a, m);
    BitAt(a, pos % BITS);
  }

  method Or(a: Word, b: Word) returns (w: Word)
    ensures Bits(w) == Bits(a) + Bits(b)
  {
    w := a | b;
    OrBits(a, b, w);
  }

  method And(a: Word, b: Word) returns (w: Word)
    ensures Bits(w) == Bits(a) * Bits(b)
  {
    w := a & b;
    AndBits(a, b, w);
  }

  method AndNot(a: Word, b: Word) returns (w: Word)
    ensures Bits(w) == Bits(a) - Bits(b)
  {
    w := a & !b;
    AndNotBits(a, b, w);
  }

  method Xor(a: Word, b: Word) returns (w: Word)
    ensures Bits(w) == (Bits(a) - Bits(b)) + (Bits(b) - Bits(a))
  {
    w := a ^ b;
    XorBits(a, b, w);
  }

  method Absorbs(a: Word, b: Word) returns (all: bool)
    ensures all <==> Bits(b) <= Bits(a)
  {
    AbsorbsBits(a, b);
    all := a | b == a;
  }

  method IsZero(a: Word) returns (none: bool)
    ensures none <==> Bits(a) == {}
  {
    NoBitsIsZero(a);
    none := a == 0;
  }

  method IsSame(a: Word, b: Word) returns (same: bool)
    ensures same <==> Bits(a) == Bits(b)
  {
    if Bits(a) == Bits(b) {
      SameBits(a, b);
    }
    same := a == b;
  }
}

module Bitsets {
  import opened Words

  /** How many words hold nbits bits. */
  function Used(nbits: nat): nat {
    (nbits + (BITS - 1)) / BITS
  }

  ghost predicate Has(ws: seq<Word>, p: nat) {
    p / BITS < |ws| && p % BITS in Bits(ws[p / BITS])
  }

  /** The marks that a sequence of words stands for. */
  ghost function Held(ws: seq<Word>): set<nat> {
    set p: nat | p < BITS * |ws| && Has(ws, p)
  }

  lemma HasIsHeld(ws: seq<Word>, p: nat)
    ensures p in Held(ws) <==> Has(ws, p)
  {
  }

  lemma BitsAreSmall(w: Word)
    ensures forall k :: k in Bits(w) ==> k < BITS
  {
    forall k | k in Bits(w)
      ensures k < BITS
    {
      BitAt(w, k);
    }
  }

  lemma BitIsHeld(ws: seq<Word>, i: nat, k: nat)
    requires i < |ws| && k < BITS
    ensures k in Bits(ws[i]) <==> BITS * i + k in Held(ws)
  {
    var p := BITS * i + k;
    assert p / BITS == i && p % BITS == k;
    HasIsHeld(ws, p);
  }

  lemma SubsetHeld(a: seq<Word>, b: seq<Word>)
    requires |a| == |b|
    ensures Held(b) <= Held(a) <==> forall i :: 0 <= i < |a| ==> Bits(b[i]) <= Bits(a[i])
  {
    if Held(b) <= Held(a) {
      forall i | 0 <= i < |a|
        ensures Bits(b[i]) <= Bits(a[i])
      {
        BitsAreSmall(b[i]);
        forall k | k in Bits(b[i])
          ensures k in Bits(a[i])
        {
          BitIsHeld(a, i, k);
          BitIsHeld(b, i, k);
        }
      }
    }
  }

  lemma SameHeld(a: seq<Word>, b: seq<Word>)
    requires |a| == |b|
    ensures Held(a) == Held(b) <==> forall i :: 0 <= i < |a| ==> Bits(a[i]) == Bits(b[i])
  {
    SubsetHeld(a, b);
    SubsetHeld(b, a);
  }

  lemma EmptyHeld(ws: seq<Word>)
    ensures Held(ws) == {} <==> forall i :: 0 <= i < |ws| ==> Bits(ws[i]) == {}
  {
    if Held(ws) == {} {
      forall i | 0 <= i < |ws|
        ensures Bits(ws[i]) == {}
      {
        BitsAreSmall(ws[i]);
        forall k | k in Bits(ws[i])
          ensures false
        {
          BitIsHeld(ws, i, k);
        }
      }
    }
  }

  predicate Bounded(marks: set<nat>, n: nat) {
    forall p :: p in marks ==> p < n
  }

  /** The marks below n. */
  ghost function Below(marks: set<nat>, n: nat): set<nat> {
    set p | p in marks && p < n
  }

  ghost function Count(marks: set<nat>, n: nat): nat {
    |Below(marks, n)|
  }

  lemma CountNext(marks: set<nat>, n: nat)
    ensures Count(marks, n + 1) == Count(marks, n) + if n in marks then 1 else 0
  {
    assert Below(marks, n + 1) == if n in marks then Below(marks, n) + {n} else Below(marks, n);
  }

  lemma CountNone(marks: set<nat>)
    ensures Count(marks, 0) == 0
  {
    assert Below(marks, 0) == {};
  }

  lemma AllBelow(marks: set<nat>, n: nat)
    requires Bounded(marks, n)
    ensures Count(marks, n) == |marks|
  {
    assert Below(marks, n) == marks;
  }

  lemma CopyHeld(a: seq<Word>, b: seq<Word>)
    requires |b| <= |a|
    ensures Held(b + a[|b|..]) == Held(b) + (Held(a) - Below(Held(a), BITS * |b|))
  {
    var r := b + a[|b|..];
    forall p: nat | p < BITS * |r|
      ensures Has(r, p) <==> Has(b, p) || (Has(a, p) && p >= BITS * |b|)
    {
    }
  }

  /** Position p of the text is '1' exactly if p is a mark. */
  ghost predicate Spells(s: string, marks: set<nat>) {
    forall p :: 0 <= p < |s| ==> s[p] == if p in marks then '1' else '0'
  }

  /** The source's struct: its two fields keep their values, the words in `bits` change. */
  class Bitset {
    const bits: array<Word>
    const nbits: nat

    /** The words fit the width, and the padding bits of the last word are zero. */
    ghost predicate Valid()
      reads bits
    {
      bits.Length == Used(nbits) && Bounded(Marks(), nbits)
    }

    ghost function Marks(): set<nat>
      reads bits
    {
      Held(bits[..])
    }

    constructor (nbits: nat)
      ensures Valid() && Marks() == {} && this.nbits == nbits && fresh(bits)
    {
      this.nbits := nbits;
      bits := new Word[Used(nbits)](_ => 0);
      new;
      NoBitsIsZero(0);
      EmptyHeld(bits[..]);
    }

    method Copy() returns (clone: Bitset)
      requires Valid()
      ensures fresh(clone) && fresh(clone.bits) && clone.Valid()
      ensures clone.nbits == nbits && clone.Marks() == Marks()
    {
      clone := new Bitset(nbits);
      for i := 0 to Used(nbits)
        invariant clone.bits[..i] == bits[..i]
      {
        clone.bits[i] := bits[i];
      }
      assert clone.bits[..] == bits[..];
    }

    method Reset()
      requires Valid()
      modifies bits
      ensures Valid() && Marks() == {}
    {
      for i := 0 to Used(nbits)
        invariant forall j :: 0 <= j < i ==> bits[j] == 0
      {
        bits[i] := 0;
      }
      NoBitsIsZero(0);
      EmptyHeld(bits[..]);
    }

    method ClearBit(pos: nat)
      requires Valid() && pos < nbits
      modifies bits
      ensures Valid() && Marks() == old(Marks()) - {pos}
    {
      ghost var was := bits[..];
      bits[pos / BITS] := WithoutBit(bits[pos / BITS], pos);
      assert Marks() == Held(was) - {pos};
    }

    method SetBit(pos: nat)
      requires Valid() && pos < nbits
      modifies bits
      ensures Valid() && Marks() == old(Marks()) + {pos}
    {
      ghost var was := bits[..];
      bits[pos / BITS] := WithBit(bits[pos / BITS], pos);
      assert Marks() == Held(was) + {pos};
    }

    /** Copies the words of a set that is no wider; the words beyond them keep their marks. */
    method SetBits(src: Bitset)
      requires Valid() && src.Valid() && nbits >= src.nbits
      modifies bits
      ensures Valid()
      ensures Marks() == old(src.Marks()) + (old(Marks()) - Below(old(Marks()), BITS * Used(src.nbits)))
    {
      ghost var was, from := bits[..], src.bits[..];
      for i := 0 to Used(src.nbits)
        invariant forall j :: 0 <= j < i ==> bits[j] == from[j]
        invariant forall j :: i <= j < bits.Length ==> bits[j] == was[j]
        invariant forall j :: 0 <= j < src.bits.Length ==> src.bits[j] == from[j]
      {
        bits[i] := src.bits[i];
      }
      assert bits[..] == from + was[|from|..];
      CopyHeld(was, from);
    }

    method TestBit(pos: nat) returns (b: bool)
      requires Valid() && pos < nbits
      ensures b <==> pos in Marks()
    {
      b := HasBit(bits[pos / BITS], pos);
    }

    method ToggleBit(pos: nat)
      requires Valid() && pos < nbits
      modifies bits
      ensures Valid() && (pos in Marks() <==> pos !in old(Marks()))
      ensures Marks() - {pos} == old(Marks()) - {pos}
    {
      var b := TestBit(pos);
      if b {
        ClearBit(pos);
      } else {
        SetBit(pos);
      }
    }

    method Union(src: Bitset)
      requires Valid() && src.Valid() && nbits == src.nbits
      modifies bits
      ensures Valid() && Marks() == old(Marks()) + old(src.Marks())
    {
      ghost var was, from := bits[..], src.bits[..];
      var i := Used(nbits);
      while i > 0
        invariant 0 <= i <= bits.Length
        invariant forall j :: 0 <= j < i ==> bits[j] == was[j] && src.bits[j] == from[j]
        invariant forall j :: i <= j < bits.Length ==> Bits(bits[j]) == Bits(was[j]) + Bits(from[j])
      {
        i := i - 1;
        bits[i] := Or(bits[i], src.bits[i]);
      }
      assert Marks() == Held(was) + Held(from);
    }

    method Intersection(src: Bitset)
      requires Valid() && src.Valid() && nbits == src.nbits
      modifies bits
      ensures Valid() && Marks() == old(Marks()) * old(src.Marks())
    {
      ghost var was, from := bits[..], src.bits[..];
      var i := Used(nbits);
      while i > 0
        invariant 0 <= i <= bits.Length
        invariant forall j :: 0 <= j < i ==> bits[j] == was[j] && src.bits[j] == from[j]
        invariant forall j :: i <= j < bits.Length ==> Bits(bits[j]) == Bits(was[j]) * Bits(from[j])
      {
        i := i - 1;
        bits[i] := And(bits[i], src.bits[i]);
      }
      assert Marks() == Held(was) * Held(from);
    }

    method Difference(src: Bitset)
      requires Valid() && src.Valid() && nbits == src.nbits
      modifies bits
      ensures Valid() && Marks() == old(Marks()) - old(src.Marks())
    {
      ghost var was, from := bits[..], src.bits[..];
      var i := Used(nbits);
      while i > 0
        invariant 0 <= i <= bits.Length
        invariant forall j :: 0 <= j < i ==> bits[j] == was[j] && src.bits[j] == from[j]
        invariant forall j :: i <= j < bits.Length ==> Bits(bits[j]) == Bits(was[j]) - Bits(from[j])
      {
        i := i - 1;
        bits[i] := AndNot(bits[i], src.bits[i]);
      }
      assert Marks() == Held(was) - Held(from);
    }

    method SymmetricDifference(src: Bitset)
      requires Valid() && src.Valid() && nbits == src.nbits
      modifies bits
      ensures Valid() && Marks() == (old(Marks()) - old(src.Marks())) + (old(src.Marks()) - old(Marks()))
    {
      ghost var was, from := bits[..], src.bits[..];
      var i := Used(nbits);
      while i > 0
        invariant 0 <= i <= bits.Length
        invariant forall j :: 0 <= j < i ==> bits[j] == was[j] && src.bits[j] == from[j]
        invariant forall j :: i <= j < bits.Length ==>
                  Bits(bits[j]) == (Bits(was[j]) - Bits(from[j])) + (Bits(from[j]) - Bits(was[j]))
      {
        i := i - 1;
        bits[i] := Xor(bits[i], src.bits[i]);
      }
      assert Marks() == (Held(was) - Held(from)) + (Held(from) - Held(was));
    }

    method Equal(b: Bitset) returns (same: bool)
      requires Valid() && b.Valid()
      ensures same <==> nbits == b.nbits && Marks() == b.Marks()
    {
      if nbits != b.nbits {
        return false;
      }
      SameHeld(bits[..], b.bits[..]);
      var i := Used(nbits);
      while i > 0
        invariant 0 <= i <= bits.Length
        invariant forall j :: i <= j < bits.Length ==> Bits(bits[..][j]) == Bits(b.bits[..][j])
      {
        i := i - 1;
        same := IsSame(bits[i], b.bits[i]);
        if !same {
          assert Bits(bits[..][i]) != Bits(b.bits[..][i]);
          return;
        }
      }
      return true;
    }

    /** Whether every mark of b is one of this set's. */
    method IsSubset(b: Bitset) returns (all: bool)
      requires Valid() && b.Valid() && nbits == b.nbits
      ensures all <==> b.Marks() <= Marks()
    {
      SubsetHeld(bits[..], b.bits[..]);
      var i := Used(nbits);
      while i > 0
        invariant 0 <= i <= bits.Length
        invariant forall j :: i <= j < bits.Length ==> Bits(b.bits[..][j]) <= Bits(bits[..][j])
      {
        i := i - 1;
        all := Absorbs(bits[i], b.bits[i]);
        if !all {
          assert !(Bits(b.bits[..][i]) <= Bits(bits[..][i]));
          return;
        }
      }
      return true;
    }

    method IsEmpty() returns (none: bool)
      requires Valid()
      ensures none <==> Marks() == {}
    {
      EmptyHeld(bits[..]);
      var i := Used(nbits);
      while i > 0
        invariant 0 <= i <= bits.Length
        invariant forall j :: i <= j < bits.Length ==> Bits(bits[..][j]) == {}
      {
        i := i - 1;
        none := IsZero(bits[i]);
        if !none {
          assert Bits(bits[..][i]) != {};
          return;
        }
      }
      return true;
    }

    method Population() returns (total: nat)
      requires Valid()
      ensures total == |Marks()|
    {
      ghost var marks := Marks();
      CountNone(marks);
      total := 0;
      for i := 0 to nbits
        invariant total == Count(marks, i)
      {
        CountNext(marks, i);
        var b := TestBit(i);
        if b {
          total := total + 1;
        }
      }
      AllBelow(marks, nbits);
    }

    method Str() returns (buf: string)
      requires Valid()
      ensures |buf| == nbits && Spells(buf, Marks())
    {
      buf := "";
      for i := 0 to nbits
        invariant |buf| == i && Spells(buf, Marks())
      {
        var b := TestBit(i);
        buf := buf + (if b then "1" else "0");
      }
    }
  }
}
