/** The library's product and quotient of integers of either sign, on top of
    the primitives for nonnegative ones. */
module Library {
  import opened VmArch
  import opened Wrappers
  import opened Powers
  import opened Integers
  import opened MemoryManagement
  import opened Digits
  import opened Bignum
  import opened Comparisons
  import opened Temporaries
  import opened NumericPrimitives
  import Division

  function Negate(v: int): int { -v }

  function WithoutSign(v: int): (r: nat)
    ensures r == v || r == Negate(v)
  {
    if v < 0 then Negate(v) else v
  }

  /** The sign the library gives to a result for operands x and y. */
  function Signed(x: int, y: int, r: nat): int {
    if x < 0 && y < 0 then r
    else if x < 0 || y < 0 then Negate(r)
    else r
  }

  function Mul(x: int, y: int): int {
    Signed(x, y, WithoutSign(x) * WithoutSign(y))
  }

  lemma MulIsExact(x: int, y: int)
    ensures Mul(x, y) == x * y
  {
    assert (-x) * (-y) == x * y;
    assert (-x) * y == -(x * y) == x * (-y);
  }

  function Quotient(x: int, y: int): int {
    Signed(x, y, Division.Quotient(WithoutSign(x), WithoutSign(y)))
  }

  /** x divided by y, rounding towards zero. */
  function Truncated(x: int, y: int): int
    requires y != 0
  {
    Signed(x, y, WithoutSign(x) / WithoutSign(y))
  }

  /** That is, what is left is shorter than y and has the sign of x. */
  lemma TruncatedIsTowardsZero(x: int, y: int)
    requires y != 0
    ensures var rest := x - Truncated(x, y) * y;
            WithoutSign(rest) < WithoutSign(y) && (rest < 0 ==> x < 0) && (rest > 0 ==> x > 0)
  {
    var a, b := WithoutSign(x), WithoutSign(y);
    Division.RemainderBounds(a, b);
    SignsCancel(x, y, a / b, b);
  }

  lemma SignsCancel(x: int, y: int, q: nat, b: nat)
    requires b == WithoutSign(y)
    ensures Signed(x, y, q) * y == if x < 0 then Negate(q * b) else q * b
  {
    assert Negate(q) * y == Negate(q * y);
    assert q * Negate(y) == Negate(q * y);
  }

  /** The quotient truncates, whatever the signs, exactly when the bit lengths
      do not wrap apart. */
  lemma QuotientTruncatesExactlyWhen(x: int, y: int)
    requires y != 0
    ensures Quotient(x, y) == Truncated(x, y) <==>
              High(BitLength(WithoutSign(x))) <= High(BitLength(WithoutSign(y)))
  {
    Division.QuotientIsRightExactlyWhen(WithoutSign(x), WithoutSign(y));
  }

  // On the heap. The procedure's variables are in the first two registers; its
  // result comes into the first.

  /** Below zero, as the primitive tells. */
  method IsNegative(h: Heap, x: nat, ghost v: int) returns (r: bool)
    requires Usable(h) && Holds(Mem(h), x, v)
    ensures r <==> v < 0
  {
    CodedIsHeld(h, 0);
    var order := Cmp(h, x, ZERO, v, 0);
    r := order == 0;
  }

  lemma CodedIsHeld(h: Heap, v: int)
    requires Usable(h) && IsSmall(v)
    ensures Holds(Mem(h), Encode(v), v) && Cells(Mem(h), Encode(v), v) == {}
  {
  }

  /** The first register turns negative. */
  method NegateReg1(h: Heap, ghost m: Memory, ghost b: set<nat>, ghost x: int, ghost y: int, ghost x': int)
      returns (r: Option<nat>)
    requires x' == Negate(x) && Loaded(h, m, b, Contents(Some(x), Some(y), None, None))
    modifies h.car, h.cdr, h.typ, h.mark, h.flip, h.vectorUsed, h`freeCells, h`freeCount, h`usedCount, h`free, h`tmp1,
             h`reg1
    ensures r.Some? ==> Loaded(h, m, b, Contents(Some(x'), Some(y), None, None))
    ensures r.None? ==> h.Room() == {}
  {
    hide Holds, Cells, SameKept;
    RegistersHold(h);
    RegisterHolds(h, h.reg1, x);
    RegisterHolds(h, h.reg2, y);
    ghost var j := JobFor(h, Kept(h));
    CodedIsHeld(h, 0);
    AsOperand(h, Kept(h), ZERO, 0);
    AsOperand(h, Kept(h), h.reg1, x);
    var p :- Sub(h, ZERO, h.reg1, j.shared, 0, x);
    InnerResult(h, j, p, x');
    InnerKeeps(h, j, h.reg2, y);
    BystandersKept(m, h, j);
    SetReg1(h, p);
    r := Some(p);
  }

  method NegateReg2(h: Heap, ghost m: Memory, ghost b: set<nat>, ghost x: int, ghost y: int, ghost y': int)
      returns (r: Option<nat>)
    requires y' == Negate(y) && Loaded(h, m, b, Contents(Some(x), Some(y), None, None))
    modifies h.car, h.cdr, h.typ, h.mark, h.flip, h.vectorUsed, h`freeCells, h`freeCount, h`usedCount, h`free, h`tmp1,
             h`reg2
    ensures r.Some? ==> Loaded(h, m, b, Contents(Some(x), Some(y'), None, None))
    ensures r.None? ==> h.Room() == {}
  {
    hide Holds, Cells, SameKept;
    RegistersHold(h);
    RegisterHolds(h, h.reg1, x);
    RegisterHolds(h, h.reg2, y);
    ghost var j := JobFor(h, Kept(h));
    CodedIsHeld(h, 0);
    AsOperand(h, Kept(h), ZERO, 0);
    AsOperand(h, Kept(h), h.reg2, y);
    var p :- Sub(h, ZERO, h.reg2, j.shared, 0, y);
    InnerResult(h, j, p, y');
    InnerKeeps(h, j, h.reg1, x);
    BystandersKept(m, h, j);
    SetReg2(h, p);
    r := Some(p);
  }

  /** Both operands without their signs. */
  method DropSigns(h: Heap, ghost m: Memory, ghost b: set<nat>, ghost x: int, ghost y: int)
    returns (r: Option<nat>, xNeg: bool, yNeg: bool)
    requires Loaded(h, m, b, Contents(Some(x), Some(y), None, None))
    modifies h.car, h.cdr, h.typ, h.mark, h.flip, h.vectorUsed, h`freeCells, h`freeCount, h`usedCount, h`free, h`tmp1,
             h`reg1, h`reg2
    ensures r.Some? ==> Loaded(h, m, b, Contents(Some(WithoutSign(x)), Some(WithoutSign(y)), None, None))
    ensures (xNeg <==> x < 0) && (yNeg <==> y < 0)
    ensures r.None? ==> h.Room() == {}
  {
    xNeg := IsNegative(h, h.reg1, x);
    yNeg := IsNegative(h, h.reg2, y);
    r := Some(NIL);
    if xNeg {
      r := NegateReg1(h, m, b, x, y, WithoutSign(x));
    }
    if r.Some? && yNeg {
      r := NegateReg2(h, m, b, WithoutSign(x), y, WithoutSign(y));
    }
  }

  /** The result in the fourth register goes into the first, with a sign if need
      be. */
  method GiveSign(h: Heap, negative: bool, ghost m: Memory, ghost b: set<nat>, ghost z: int) returns (r: Option<nat>)
    requires Loaded(h, m, b, Contents(None, None, None, Some(z)))
    modifies h.car, h.cdr, h.typ, h.mark, h.flip, h.vectorUsed, h`freeCells, h`freeCount, h`usedCount, h`free, h`tmp1,
             h`reg1, h`reg2, h`reg3, h`reg4
    ensures r.Some? ==> Calculating(h, m, b) && Holds(Mem(h), h.reg1, if negative then Negate(z) else z)
    ensures r.Some? ==> h.reg2 == h.reg3 == h.reg4 == NIL
    ensures r.None? ==> h.Room() == {}
  {
    if negative {
      LoadZero(h, m, b, z);
      r := SubtractReg4(h, m, b, 0, z);
      if r.Some? {
        ClearRegisters(h, m, b, 0 - z);
      }
    } else {
      LoadReg4(h, m, b, z);
      ClearRegisters(h, m, b, z);
      r := Some(NIL);
    }
  }

  method LoadZero(h: Heap, ghost m: Memory, ghost b: set<nat>, ghost z: int)
    requires Loaded(h, m, b, Contents(None, None, None, Some(z)))
    modifies h`reg1
    ensures Loaded(h, m, b, Contents(Some(0), None, None, Some(z)))
  {
    hide Cells, SameKept;
    CodedIsHeld(h, 0);
    CodedIsNoCell(Mem(h), ZERO);
    AtomIsSafe(h, ZERO);
    SetReg1(h, ZERO);
  }

  method LoadReg4(h: Heap, ghost m: Memory, ghost b: set<nat>, ghost z: int)
    requires Loaded(h, m, b, Contents(None, None, None, Some(z)))
    modifies h`reg1
    ensures Loaded(h, m, b, Contents(Some(z), None, None, None))
  {
    hide Cells, SameKept, Holds;
    FreeByRegister(h);
    SetReg1(h, h.reg4);
  }

  /** The first register is copied into the third. */
  method CopyFactor(h: Heap, ghost m: Memory, ghost b: set<nat>, ghost x: int, ghost y: int)
    requires Loaded(h, m, b, Contents(Some(x), Some(y), None, None))
    modifies h`reg3
    ensures Loaded(h, m, b, Contents(Some(x), Some(y), Some(x), None))
  {
    hide Cells, SameKept, Holds;
    FreeByRegister(h);
    SetReg3(h, h.reg1);
  }

  lemma OnlyReg4(h: Heap, m: Memory, b: set<nat>, x: int, z: int)
    requires Loaded(h, m, b, Contents(Some(x), None, None, Some(z)))
    ensures Loaded(h, m, b, Contents(None, None, None, Some(z)))
  {
  }

  function SizesProduct(x: int, y: int): int {
    WithoutSign(y) * WithoutSign(x)
  }

  lemma ProductIsSigned(x: int, y: int)
    ensures x * y == if (x < 0) == (y < 0) then SizesProduct(x, y) else Negate(SizesProduct(x, y))
  {
    MulIsExact(x, y);
  }

  /** The primitive for nonnegative operands, into the fourth register. */
  method MultiplySizes(h: Heap, ghost m: Memory, ghost b: set<nat>, ghost x: int, ghost y: int, ghost z: int)
      returns (r: Option<nat>)
    requires z == SizesProduct(x, y)
    requires Loaded(h, m, b, Contents(Some(WithoutSign(x)), Some(WithoutSign(y)), None, None))
    modifies h.car, h.cdr, h.typ, h.mark, h.flip, h.vectorUsed, h`freeCells, h`freeCount, h`usedCount, h`free, h`tmp1,
             h`tmp2, h`tmp3, h`tmp4, h`reg3, h`reg4
    ensures r.Some? ==> Loaded(h, m, b, Contents(None, None, None, Some(z)))
    ensures r.None? ==> h.Room() == {}
  {
    hide Loaded, Holds, WithoutSign;
    ghost var u, v := WithoutSign(x), WithoutSign(y);
    CopyFactor(h, m, b, u, v);
    r := MultiplyIntoReg4(h, m, b, u, v, u, z);
    if r.Some? {
      OnlyReg4(h, m, b, u, z);
    }
  }

  /** #%mul: the product of two integers of either sign, through any collections. */
  method MulOnHeap(h: Heap, ghost m: Memory, ghost b: set<nat>, ghost x: int, ghost y: int) returns (r: Option<nat>)
    requires Loaded(h, m, b, Contents(Some(x), Some(y), None, None))
    modifies h.car, h.cdr, h.typ, h.mark, h.flip, h.vectorUsed, h`freeCells, h`freeCount, h`usedCount, h`free, h`tmp1,
             h`tmp2, h`tmp3, h`tmp4, h`reg1, h`reg2, h`reg3, h`reg4
    ensures r.Some? ==> Calculating(h, m, b) && Holds(Mem(h), h.reg1, x * y) && h.reg2 == h.reg3 == h.reg4 == NIL
    ensures r.None? ==> h.Room() == {}
  {
    hide Loaded, Holds, SizesProduct, WithoutSign;
    var p, xNeg, yNeg := DropSigns(h, m, b, x, y);
    if p.None? {
      return None;
    }
    ghost var z := SizesProduct(x, y);
    var q :- MultiplySizes(h, m, b, x, y, z);
    r := GiveSign(h, if xNeg && yNeg then false else xNeg || yNeg, m, b, z);
    ProductIsSigned(x, y);
  }

  method CopyQuotient(h: Heap, ghost m: Memory, ghost b: set<nat>, ghost x: int, ghost y: int, ghost q: int)
    requires Loaded(h, m, b, Contents(Some(x), Some(y), Some(q), None))
    modifies h`reg4
    ensures Loaded(h, m, b, Contents(None, None, None, Some(q)))
  {
    hide Cells, SameKept, Holds;
    FreeByRegister(h);
    SetReg4(h, h.reg3);
  }

  /** quotient, likewise. */
  method QuotientOnHeap(h: Heap, ghost m: Memory, ghost b: set<nat>, ghost x: int, ghost y: int)
      returns (r: Option<nat>)
    requires Loaded(h, m, b, Contents(Some(x), Some(y), None, None))
    modifies h.car, h.cdr, h.typ, h.mark, h.flip, h.vectorUsed, h`freeCells, h`freeCount, h`usedCount, h`free, h`tmp1,
             h`tmp2, h`tmp3, h`tmp4, h`tmp5, h`reg1, h`reg2, h`reg3, h`reg4
    ensures r.Some? ==>
            Calculating(h, m, b) && Holds(Mem(h), h.reg1, Quotient(x, y)) && h.reg2 == h.reg3 == h.reg4 == NIL
    ensures r.None? ==> h.Room() == {}
  {
    hide Loaded, Holds, Division.Quotient;
    ghost var u, v := WithoutSign(x), WithoutSign(y);
    var p, xNeg, yNeg := DropSigns(h, m, b, x, y);
    if p.None? {
      return None;
    }
    ghost var q := Division.Quotient(u, v);
    var d :- DivideIntoReg3(h, m, b, u, v, q);
    CopyQuotient(h, m, b, u, v, q);
    r := GiveSign(h, if xNeg && yNeg then false else xNeg || yNeg, m, b, q);
  }
}
