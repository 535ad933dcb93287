/**
  Which bits of which 32-bit register the sixteen general registers name, and that the store's
  lists of parts say just this.
*/
module RegisterBits {
  import opened TaintState

  datatype Family = A | B | C | D

  /** The bits from low up to, but not including, high of a family; registers of other kinds have no parts. */
  datatype Extent = Bits(family: Family, low: nat, high: nat) | Elsewhere

  function ExtentOf(r: Reg): Extent {
    match r
    case EAX => Bits(A, 0, 32)
    case AX => Bits(A, 0, 16)
    case AH => Bits(A, 8, 16)
    case AL => Bits(A, 0, 8)
    case EBX => Bits(B, 0, 32)
    case BX => Bits(B, 0, 16)
    case BH => Bits(B, 8, 16)
    case BL => Bits(B, 0, 8)
    case ECX => Bits(C, 0, 32)
    case CX => Bits(C, 0, 16)
    case CH => Bits(C, 8, 16)
    case CL => Bits(C, 0, 8)
    case EDX => Bits(D, 0, 32)
    case DX => Bits(D, 0, 16)
    case DH => Bits(D, 8, 16)
    case DL => Bits(D, 0, 8)
    case _ => Elsewhere
  }

  /** All bits of q are bits of r. */
  predicate IsWithin(q: Reg, r: Reg) {
    var inner, outer := ExtentOf(q), ExtentOf(r);
    || q == r
    || (&& inner.Bits? && outer.Bits? && inner.family == outer.family
        && outer.low <= inner.low && inner.high <= outer.high)
  }

  /** The registers have a bit in common. */
  predicate Overlap(q: Reg, r: Reg) {
    var one, other := ExtentOf(q), ExtentOf(r);
    || q == r
    || (one.Bits? && other.Bits? && one.family == other.family && one.low < other.high && other.low < one.high)
  }

  lemma WidePartsAreWithin(q: Reg, r: Reg)
    requires r.EAX? || r.EBX? || r.ECX? || r.EDX?
    ensures q in Parts(r) <==> q != r && IsWithin(q, r)
  {
    match r
    case EAX => assert Parts(r) == [AX, AH, AL];
    case EBX => assert Parts(r) == [BX, BH, BL];
    case ECX => assert Parts(r) == [CX, CH, CL];
    case EDX => assert Parts(r) == [DX, DH, DL];
  }

  lemma HalfPartsAreWithin(q: Reg, r: Reg)
    requires r.AX? || r.BX? || r.CX? || r.DX?
    ensures q in Parts(r) <==> q != r && IsWithin(q, r)
  {
    match r
    case AX => assert Parts(r) == [AH, AL];
    case BX => assert Parts(r) == [BH, BL];
    case CX => assert Parts(r) == [CH, CL];
    case DX => assert Parts(r) == [DH, DL];
  }

  /** The parts of a register are the other registers whose bits all lie in it. */
  lemma PartsAreWithin(q: Reg, r: Reg)
    ensures q in Parts(r) <==> q != r && IsWithin(q, r)
  {
    if r.EAX? || r.EBX? || r.ECX? || r.EDX? {
      WidePartsAreWithin(q, r);
    } else if r.AX? || r.BX? || r.CX? || r.DX? {
      HalfPartsAreWithin(q, r);
    } else {
      assert Parts(r) == [];
    }
  }

  /** The places that a store to r reaches. */
  lemma ReachedIsWithin(q: Reg, r: Reg)
    ensures InReg(q) in Registers(Parts(r) + [r]) <==> IsWithin(q, r)
  {
    PartsAreWithin(q, r);
  }
}
