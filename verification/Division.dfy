/** Division: shift the divisor up, then subtract and shift down. */
module Division {
  import opened VmArch
  import opened Wrappers
  import opened Integers
  import opened Powers
  import opened MemoryManagement
  import opened Digits
  import opened Bignum
  import opened Comparisons
  import opened Shifting
  import opened Temporaries

  // What the loop computes.

  /** The quotient that n more rounds make of q, with r left to divide. */
  ghost function Rounds(y: nat, n: nat, q: nat, r: nat): nat
    decreases n
  {
    if n == 0 then q
    else if r >= Shift(y, n - 1) >= 0 then Rounds(y, n - 1, 2 * q + 1, r - Shift(y, n - 1))
    else Rounds(y, n - 1, 2 * q, r)
  }

  /** The quotient as far as n bits can tell. */
  function Capped(x: nat, y: nat, n: nat): nat {
    if y == 0 || x / y > Power2(n) - 1 then Power2(n) - 1 else x / y
  }

  lemma QuotientBelow(r: nat, y: nat, p: nat)
    requires y > 0
    ensures r < y * p <==> r / y < p
  {
    assert r == y * (r / y) + r % y;
    if r < y * p {
      if r / y >= p {
        Grows(y, p, r / y);
      }
    } else if r / y < p {
      Grows(y, r / y + 1, p);
    }
  }

  lemma Grows(y: nat, a: nat, b: nat)
    requires a <= b
    ensures y * a <= y * b
  {
  }

  lemma QuotientLess(r: nat, y: nat, p: nat)
    requires y > 0 && y * p <= r
    ensures (r - y * p) / y == r / y - p
  {
    var a, b := (r - y * p) / y, r / y;
    assert r == y * b + r % y;
    assert r - y * p == y * a + (r - y * p) % y;
    QuotientIsOnly(r, y, a + p, (r - y * p) % y);
  }

  lemma QuotientIsOnly(r: nat, y: nat, q: nat, rest: nat)
    requires y > 0 && rest < y && r == y * q + rest
    ensures r / y == q
  {
    var b := r / y;
    assert r == y * b + r % y;
    if b < q {
      Grows(y, b + 1, q);
    } else if q < b {
      Grows(y, q + 1, b);
    }
  }

  lemma {:induction false} RoundsDivide(y: nat, n: nat, q: nat, r: nat)
    ensures Rounds(y, n, q, r) == q * Power2(n) + Capped(r, y, n)
    decreases n
  {
    if n > 0 {
      var p := Power2(n - 1);
      Twice(q, p);
      if y > 0 {
        QuotientBelow(r, y, p);
      }
      if r >= y * p {
        RoundsDivide(y, n - 1, 2 * q + 1, r - y * p);
        assert (2 * q + 1) * p == 2 * q * p + p;
        if y > 0 {
          QuotientLess(r, y, p);
        }
      } else {
        RoundsDivide(y, n - 1, 2 * q, r);
      }
    } else if y > 0 {
      QuotientBelow(r, y, 1);
    }
  }

  function QuotientFor(x: nat, y: nat, lx: nat, ly: nat): nat {
    if lx < ly then 0 else Capped(x, y, lx - ly + 1)
  }

  /** What divnonneg returns: it computes the bit lengths modulo 2^16. */
  function Quotient(x: nat, y: nat): nat {
    QuotientFor(x, y, Low(BitLength(x)), Low(BitLength(y)))
  }

  lemma LengthOrder(x: nat, y: nat)
    requires BitLength(x) < BitLength(y)
    ensures x < y
  {
    BitLengthBounds(x);
    BitLengthBounds(y);
    Power2Grows(BitLength(x), BitLength(y) - 1);
  }

  /** The quotient needs at most one bit more than the lengths differ. */
  lemma QuotientLength(x: nat, y: nat, n: nat)
    requires y > 0 && BitLength(x) < BitLength(y) + n
    ensures x / y < Power2(n)
  {
    BitLengthBounds(x);
    BitLengthBounds(y);
    var p := Power2(BitLength(y) - 1);
    Power2Grows(BitLength(x), BitLength(y) - 1 + n);
    Power2Adds(BitLength(y) - 1, n);
    MulGrows(p, y, Power2(n));
    QuotientBelow(x, y, Power2(n));
  }

  lemma MulGrows(a: nat, b: nat, c: nat)
    requires a <= b
    ensures a * c <= b * c
  {
  }

  /** And at least as many bits as they differ. */
  lemma QuotientLengthBelow(x: nat, y: nat, n: nat)
    requires y > 0 && BitLength(x) > BitLength(y) + n
    ensures x / y >= Power2(n)
  {
    BitLengthBounds(x);
    BitLengthBounds(y);
    Power2Grows(BitLength(y) + n, BitLength(x) - 1);
    Power2Adds(BitLength(y), n);
    MulGrows(y, Power2(BitLength(y)), Power2(n));
    QuotientBelow(x, y, Power2(n));
  }

  lemma ShorterGivesZero(x: nat, y: nat)
    requires y > 0 && BitLength(x) < BitLength(y)
    ensures x / y == 0
  {
    LengthOrder(x, y);
    LessGivesZero(x, y);
  }

  lemma LessGivesZero(x: nat, y: nat)
    requires x < y
    ensures x / y == 0
  {
    QuotientIsOnly(x, y, 0, x);
  }

  lemma EqualWraps(x: nat, y: nat, lx: nat, ly: nat, k: nat)
    requires y > 0 && BitLength(x) == lx + 0x1_0000 * k && BitLength(y) == ly + 0x1_0000 * k
    ensures QuotientFor(x, y, lx, ly) == x / y
  {
    if lx < ly {
      ShorterGivesZero(x, y);
    } else {
      QuotientLength(x, y, lx - ly + 1);
    }
  }

  lemma FewerWraps(x: nat, y: nat, lx: nat, ly: nat)
    requires y > 0 && BitLength(x) < BitLength(y)
    ensures QuotientFor(x, y, lx, ly) == x / y
  {
    ShorterGivesZero(x, y);
  }

  lemma MoreWraps(x: nat, y: nat, lx: nat, ly: nat)
    requires y > 0 && lx < 0x1_0000 && BitLength(x) >= BitLength(y) + lx - ly + 0x1_0000 && ly < 0x1_0000
    ensures QuotientFor(x, y, lx, ly) != x / y
  {
    if lx < ly {
      QuotientLengthBelow(x, y, 0);
    } else {
      QuotientLengthBelow(x, y, lx - ly + 1);
    }
  }

  /** The quotient is right exactly when the wrapped lengths do not hide how
      much longer x is. */
  lemma QuotientIsRightExactlyWhen(x: nat, y: nat)
    requires y > 0
    ensures Quotient(x, y) == x / y <==> High(BitLength(x)) <= High(BitLength(y))
  {
    var a, b := BitLength(x), BitLength(y);
    JoinApart(a);
    JoinApart(b);
    if High(a) == High(b) {
      EqualWraps(x, y, Low(a), Low(b), High(a));
    } else if High(a) < High(b) {
      FewerWraps(x, y, Low(a), Low(b));
    } else {
      MoreWraps(x, y, Low(a), Low(b));
    }
  }

  lemma RemainderBounds(x: nat, y: nat)
    requires y > 0
    ensures x == x / y * y + x % y && 0 <= x - x / y * y < y
  {
  }

  /** Up to 65535 bits it is, and the remainder follows. */
  lemma QuotientOfShortIntegers(x: nat, y: nat)
    requires y > 0 && BitLength(x) < 0x1_0000
    ensures Quotient(x, y) == x / y && 0 <= x - Quotient(x, y) * y < y
  {
    hide Quotient, BitLength;
    QuotientIsRightExactlyWhen(x, y);
    RemainderBounds(x, y);
  }

  lemma {:induction false} Power2Length(n: nat)
    ensures BitLength(Power2(n)) == n + 1
  {
    if n > 0 {
      Power2Length(n - 1);
      Doubles(0, Power2(n - 1));
    }
  }

  /** 2^65535 divided by 1 gives 0: its length wraps to 0. */
  lemma LongDividendGoesWrong(k: nat)
    requires k == 0xFFFF
    ensures Quotient(Power2(k), 1) == 0 && Power2(k) / 1 > 0
  {
    hide Capped;
    Power2Length(k);
    Power2Length(0);
  }

  // The loop.

  /** In memory m, a, b and c are quotient, rest and divisor. */
  ghost predicate DivisionIn(m: Memory, roots: set<nat>, j: Job, a: nat, q: int, b: nat, r: int, c: nat, d: int)
    requires Sound(m) && Sound(j.m)
  {
    && SameKept(j.m, m, j.kept)
    && Live(m.g, roots) == j.kept
    && Holds(m, a, q) && Holds(m, b, r) && Holds(m, c, d)
  }

  /** The third temporary holds the quotient, the fourth the rest and the fifth
      the divisor. */
  ghost predicate Dividing(h: Heap, j: Job, q: int, r: int, d: int)
    reads h, h.car, h.cdr, h.typ, h.mark, h.flip
  {
    && Ready(h)
    && Sound(j.m)
    && h.tmp1 == NIL
    && DivisionIn(Mem(h), h.Registers(), j, h.tmp3, q, h.tmp4, r, h.tmp5, d)
  }

  lemma DivisionIsLive(h: Heap, j: Job, q: int, r: int, d: int)
    requires Dividing(h, j, q, r, d)
    ensures Cells(Mem(h), h.tmp3, q) <= Kept(h) && Cells(Mem(h), h.tmp4, r) <= Kept(h)
            && Cells(Mem(h), h.tmp5, d) <= Kept(h)
    ensures j.kept <= Kept(h)
  {
    InTemporary(h, h.tmp3, q);
    InTemporary(h, h.tmp4, r);
    InTemporary(h, h.tmp5, d);
    LiveByRoot(h);
  }

  /** A step at level 1 on the three integers keeps them, and its result p can
      replace one of them. */
  lemma StepTaken(h: Heap, j: Job, inner: Job, q: int, r: int, d: int, p: nat, v: int)
    requires Finished(h, inner, p, v)
    requires Sound(j.m) && Sound(inner.m) && DivisionIn(inner.m, h.Registers(), j, h.tmp3, q, h.tmp4, r, h.tmp5, d)
    requires j.kept <= inner.kept && Cells(inner.m, h.tmp3, q) <= inner.kept
    requires Cells(inner.m, h.tmp4, r) <= inner.kept && Cells(inner.m, h.tmp5, d) <= inner.kept
    ensures Dividing(h, j, q, r, d) && Holds(Mem(h), p, v) && Safe(h, p)
  {
    hide Finished;
    InnerResult(h, inner, p, v);
    StillKept(j, inner, Mem(h), h.Registers());
    InnerKeeps(h, inner, h.tmp3, q);
    InnerKeeps(h, inner, h.tmp4, r);
    InnerKeeps(h, inner, h.tmp5, d);
  }

  /** All that is kept may be shared. */
  ghost function OnKept(h: Heap): Job
    requires Usable(h)
    reads h, h.car, h.cdr, h.typ
  {
    JobFor(h, Kept(h))
  }

  method SetQuotient(h: Heap, p: nat, ghost j: Job, ghost q: int, ghost r: int, ghost d: int, ghost v: int)
    requires Dividing(h, j, q, r, d) && Holds(Mem(h), p, v) && Safe(h, p)
    modifies h`tmp3
    ensures Dividing(h, j, v, r, d)
  {
    SetTmp3(h, p);
  }

  method SetRest(h: Heap, p: nat, ghost j: Job, ghost q: int, ghost r: int, ghost d: int, ghost v: int)
    requires Dividing(h, j, q, r, d) && Holds(Mem(h), p, v) && Safe(h, p)
    modifies h`tmp4
    ensures Dividing(h, j, q, v, d)
  {
    SetTmp4(h, p);
  }

  method SetDivisor(h: Heap, p: nat, ghost j: Job, ghost q: int, ghost r: int, ghost d: int, ghost v: int)
    requires Dividing(h, j, q, r, d) && Holds(Mem(h), p, v) && Safe(h, p)
    modifies h`tmp5
    ensures Dividing(h, j, q, r, v)
  {
    SetTmp5(h, p);
  }

  method DoubleQuotient(h: Heap, ghost j: Job, ghost q: int, ghost r: int, ghost d: int) returns (res: Option<nat>)
    requires Dividing(h, j, q, r, d)
    modifies h.car, h.cdr, h.typ, h.mark, h.flip, h.vectorUsed, h`freeCells, h`freeCount, h`usedCount, h`free, h`tmp1,
             h`tmp3
    ensures res.Some? ==> Dividing(h, j, 2 * q, r, d)
    ensures res.None? ==> h.Room() == {}
  {
    DivisionIsLive(h, j, q, r, d);
    AsOperand(h, Kept(h), h.tmp3, q);
    ghost var inner := OnKept(h);
    var p :- Shl(h, h.tmp3, inner.shared, q);
    StepTaken(h, j, inner, q, r, d, p, 2 * q);
    SetQuotient(h, p, j, q, r, d, 2 * q);
    res := Some(p);
  }

  method SubtractDivisor(h: Heap, ghost j: Job, ghost q: int, ghost r: int, ghost d: int) returns (res: Option<nat>)
    requires Dividing(h, j, q, r, d)
    modifies h.car, h.cdr, h.typ, h.mark, h.flip, h.vectorUsed, h`freeCells, h`freeCount, h`usedCount, h`free, h`tmp1,
             h`tmp4
    ensures res.Some? ==> Dividing(h, j, q, r - d, d)
    ensures res.None? ==> h.Room() == {}
  {
    DivisionIsLive(h, j, q, r, d);
    AsOperand(h, Kept(h), h.tmp4, r);
    AsOperand(h, Kept(h), h.tmp5, d);
    ghost var inner := OnKept(h);
    var p :- Sub(h, h.tmp4, h.tmp5, inner.shared, r, d);
    StepTaken(h, j, inner, q, r, d, p, r - d);
    SetRest(h, p, j, q, r, d, r - d);
    res := Some(p);
  }

  method IncrementQuotient(h: Heap, ghost j: Job, ghost q: int, ghost r: int, ghost d: int) returns (res: Option<nat>)
    requires Dividing(h, j, q, r, d)
    modifies h.car, h.cdr, h.typ, h.mark, h.flip, h.vectorUsed, h`freeCells, h`freeCount, h`usedCount, h`free, h`tmp1,
             h`tmp3
    ensures res.Some? ==> Dividing(h, j, 1 + q, r, d)
    ensures res.None? ==> h.Room() == {}
  {
    DivisionIsLive(h, j, q, r, d);
    AsOperand(h, Kept(h), h.tmp3, q);
    ghost var inner := OnKept(h);
    CodedOperand(inner, 1);
    var p :- Add(h, POS1, h.tmp3, inner.shared, 1, q);
    StepTaken(h, j, inner, q, r, d, p, 1 + q);
    SetQuotient(h, p, j, q, r, d, 1 + q);
    res := Some(p);
  }

  method HalveDivisor(h: Heap, ghost j: Job, ghost q: int, ghost r: int, ghost d: int) returns (res: Option<nat>)
    requires Dividing(h, j, q, r, d)
    modifies h.car, h.cdr, h.typ, h.mark, h.flip, h.vectorUsed, h`freeCells, h`freeCount, h`usedCount, h`free, h`tmp1,
             h`tmp5
    ensures res.Some? ==> Dividing(h, j, q, r, Half(d))
    ensures res.None? ==> h.Room() == {}
  {
    DivisionIsLive(h, j, q, r, d);
    AsOperand(h, Kept(h), h.tmp5, d);
    ghost var inner := OnKept(h);
    var p :- Shr(h, h.tmp5, inner.shared, d);
    StepTaken(h, j, inner, q, r, d, p, Half(d));
    SetDivisor(h, p, j, q, r, d, Half(d));
    res := Some(p);
  }

  method RestReaches(h: Heap, ghost j: Job, ghost q: int, ghost r: int, ghost d: int) returns (b: bool)
    requires Dividing(h, j, q, r, d)
    ensures b <==> r >= d
  {
    var order := Cmp(h, h.tmp4, h.tmp5, r, d);
    b := order >= 1;
  }

  /** One round: another bit of the quotient. */
  method Round(h: Heap, ghost j: Job, ghost q0: int, ghost r0: int, ghost d0: int)
      returns (res: Option<nat>, ghost q: int, ghost r: int)
    requires Dividing(h, j, q0, r0, d0)
    modifies h.car, h.cdr, h.typ, h.mark, h.flip, h.vectorUsed, h`freeCells, h`freeCount, h`usedCount, h`free, h`tmp1,
             h`tmp3, h`tmp4, h`tmp5
    ensures res.Some? ==> Dividing(h, j, q, r, Half(d0))
    ensures (q, r) == if r0 >= d0 then (2 * q0 + 1, r0 - d0) else (2 * q0, r0)
    ensures res.None? ==> h.Room() == {}
  {
    hide Dividing;
    q, r := if r0 >= d0 then 2 * q0 + 1 else 2 * q0, if r0 >= d0 then r0 - d0 else r0;
    var p :- DoubleQuotient(h, j, q0, r0, d0);
    var reaches := RestReaches(h, j, 2 * q0, r0, d0);
    if reaches {
      p :- SubtractDivisor(h, j, 2 * q0, r0, d0);
      p :- IncrementQuotient(h, j, 2 * q0, r0 - d0, d0);
    }
    res := HalveDivisor(h, j, q, r, d0);
  }

  lemma HalfOfShift(y: int, n: nat)
    requires n > 0
    ensures Half(Shift(y, n)) == Shift(y, n - 1)
  {
    assert y * Power2(n) == 2 * (y * Power2(n - 1));
  }

  lemma ShiftNonneg(y: nat, n: nat)
    ensures Shift(y, n) >= 0
  {
  }

  /** Counts the shift down to zero, a round each time, zero included. */
  method DivideRounds(h: Heap, lx0: nat, ghost j: Job, ghost x: nat, ghost y: nat)
      returns (res: Option<nat>, ghost q: int, ghost r: int, ghost d: int)
    requires Dividing(h, j, 0, x, Shift(y, lx0))
    modifies h.car, h.cdr, h.typ, h.mark, h.flip, h.vectorUsed, h`freeCells, h`freeCount, h`usedCount, h`free, h`tmp1,
             h`tmp3, h`tmp4, h`tmp5
    ensures res.Some? ==> Dividing(h, j, q, r, d) && q == Capped(x, y, lx0 + 1)
    ensures res.None? ==> h.Room() == {}
  {
    hide Dividing, Shift;
    var lx: nat := lx0;
    var more := true;
    q, r, d := 0, x, Shift(y, lx0);
    while more
      invariant Dividing(h, j, q, r, d)
      invariant 0 <= q && 0 <= r && (more ==> d == Shift(y, lx))
      invariant Rounds(y, if more then lx + 1 else 0, q, r) == Rounds(y, lx0 + 1, 0, x)
      decreases more, lx
    {
      ShiftNonneg(y, lx);
      res, q, r := Round(h, j, q, r, d);
      if res.None? {
        return;
      }
      if lx > 0 {
        HalfOfShift(y, lx);
      }
      d := Half(d);
      more := lx != 0;
      lx := if lx == 0 then 0xFFFF else lx - 1;
    }
    RoundsDivide(y, lx0 + 1, 0, x);
    res := Some(h.tmp3);
  }

  /** The job of a division: the registers and what they lead to. */
  ghost function DivisionJob(h: Heap): Job
    requires Usable(h)
    reads h, h.car, h.cdr, h.typ
  {
    Job(Mem(h), Live(h.Graph(), h.Registers()), Live(h.Graph(), h.Registers()))
  }

  lemma RegistersAreLive(h: Heap)
    requires h.Shape()
    ensures Live(h.Graph(), h.Registers()) <= Live(h.Graph(), h.RootsPast2()) <= Kept(h) <= h.LiveCells()
  {
    LiveByRoot(h);
  }

  lemma OperandIsSafe(h: Heap, x: nat, v: int)
    requires Ready(h) && Takes(DivisionJob(h), x, v)
    ensures Holds(Mem(h), x, v) && Safe(h, x)
  {
    var j := DivisionJob(h);
    RegistersAreLive(h);
    OperandIsPlaced(h, j, h.Registers(), x, v);
  }

  method StartDivision(h: Heap, x: nat, y: nat, ghost vx: int, ghost vy: int)
    requires Ready(h) && h.tmp1 == NIL && Takes(DivisionJob(h), x, vx) && Takes(DivisionJob(h), y, vy)
    modifies h`tmp3, h`tmp4, h`tmp5
    ensures Dividing(h, old(DivisionJob(h)), 0, vx, vy)
  {
    hide Takes;
    OperandIsSafe(h, x, vx);
    OperandIsSafe(h, y, vy);
    ghost var j := DivisionJob(h);
    SetTmp4(h, x);
    SetTmp5(h, y);
    AtomIsSafe(h, ZERO);
    SetTmp3(h, ZERO);
  }

  lemma ShiftTaken(h: Heap, j: Job, inner: Job, q: int, r: int, d: int, p: nat, v: int)
    requires Placed(h, inner, h.RootsPast2(), p, v) && h.tmp1 == NIL
    requires Sound(j.m) && DivisionIn(inner.m, h.Registers(), j, h.tmp3, q, h.tmp4, r, h.tmp5, d)
    requires j.kept <= inner.kept && Cells(inner.m, h.tmp3, q) <= inner.kept
    requires Cells(inner.m, h.tmp4, r) <= inner.kept && Cells(inner.m, h.tmp5, d) <= inner.kept
    ensures Dividing(h, j, q, r, d) && Holds(Mem(h), p, v) && Safe(h, p)
  {
    StillKept(j, inner, Mem(h), h.Registers());
    HoldsFrame(inner.m, Mem(h), h.tmp3, q);
    HoldsFrame(inner.m, Mem(h), h.tmp4, r);
    HoldsFrame(inner.m, Mem(h), h.tmp5, d);
    IntegerReachesItself(Mem(h), p, v);
  }

  lemma DivisionPast2(h: Heap, j: Job, q: int, r: int, d: int)
    requires Dividing(h, j, q, r, d)
    ensures var live := Live(h.Graph(), h.RootsPast2());
            && Cells(Mem(h), h.tmp3, q) <= live && Cells(Mem(h), h.tmp4, r) <= live && Cells(Mem(h), h.tmp5, d) <= live
            && j.kept <= live
  {
    LiveByRoot(h);
    InRoot(h, h.tmp3, q);
    InRoot(h, h.tmp4, r);
    InRoot(h, h.tmp5, d);
  }

  lemma InRoot(h: Heap, x: nat, v: int)
    requires Ready(h) && Holds(Mem(h), x, v)
    ensures Cells(Mem(h), x, v) <= Live(h.Graph(), {x})
  {
    LiveIsClosed(h.Graph(), {x});
    CellsInClosed(Mem(h), x, v, Live(h.Graph(), {x}));
  }

  method ShiftDivisor(h: Heap, n: nat, ghost j: Job, ghost q: int, ghost r: int, ghost d: int)
      returns (res: Option<nat>)
    requires Dividing(h, j, q, r, d)
    modifies h.car, h.cdr, h.typ, h.mark, h.flip, h.vectorUsed, h`freeCells, h`freeCount, h`usedCount, h`free, h`tmp1,
             h`tmp2, h`tmp5
    ensures res.Some? ==> Dividing(h, j, q, r, Shift(d, n))
    ensures res.None? ==> h.Room() == {}
  {
    hide Shift;
    DivisionPast2(h, j, q, r, d);
    ghost var shared := Cells(Mem(h), h.tmp5, d);
    ghost var inner := Job(Mem(h), Live(h.Graph(), h.RootsPast2()), shared);
    var p :- ShiftLeft(h, h.tmp5, n, shared, d);
    ShiftTaken(h, j, inner, q, r, d, p, Shift(d, n));
    SetDivisor(h, p, j, q, r, d, Shift(d, n));
    res := Some(p);
  }

  method TakeQuotient(h: Heap, ghost j: Job, ghost q: int, ghost r: int, ghost d: int) returns (res: nat)
    requires Dividing(h, j, q, r, d) && j.shared == j.kept
    modifies h`tmp3, h`tmp4
    ensures Sound(j.m) && Placed(h, j, h.Registers(), res, q) && h.tmp1 == h.tmp3 == h.tmp4 == NIL
  {
    DivisionIsLive(h, j, q, r, d);
    DeadApart(h);
    res := h.tmp3;
    AtomIsSafe(h, NIL);
    SetTmp3(h, NIL);
    SetTmp4(h, NIL);
  }

  method Lengths(h: Heap, ghost j: Job, ghost r: nat, ghost d: nat) returns (lx: nat, ly: nat)
    requires Dividing(h, j, 0, r, d)
    ensures lx == Low(BitLength(r)) && ly == Low(BitLength(d))
  {
    lx := IntegerLength(h, h.tmp4, r);
    ly := IntegerLength(h, h.tmp5, d);
  }

  method DivideShifted(h: Heap, lx: nat, ghost j: Job, ghost x: nat, ghost y: nat)
      returns (res: Option<nat>, ghost q: int, ghost r: int, ghost d: int)
    requires Dividing(h, j, 0, x, y)
    modifies h.car, h.cdr, h.typ, h.mark, h.flip, h.vectorUsed, h`freeCells, h`freeCount, h`usedCount, h`free, h`tmp1,
             h`tmp2, h`tmp3, h`tmp4, h`tmp5
    ensures res.Some? ==> Dividing(h, j, q, r, d) && q == Capped(x, y, lx + 1)
    ensures res.None? ==> h.Room() == {}
  {
    hide Dividing;
    q, r, d := 0, x, y;
    var p :- ShiftDivisor(h, lx, j, 0, x, y);
    res, q, r, d := DivideRounds(h, lx, j, x, y);
  }

  /** x divided by y, as far as the 16-bit lengths allow (see
      QuotientIsRightExactlyWhen). */
  method DivNonNeg(h: Heap, x: nat, y: nat, ghost vx: nat, ghost vy: nat) returns (res: Option<nat>)
    requires Ready(h) && h.tmp1 == NIL && Takes(DivisionJob(h), x, vx) && Takes(DivisionJob(h), y, vy)
    modifies h.car, h.cdr, h.typ, h.mark, h.flip, h.vectorUsed, h`freeCells, h`freeCount, h`usedCount, h`free, h`tmp1,
             h`tmp2, h`tmp3, h`tmp4, h`tmp5
    ensures res.Some? ==> Placed(h, old(DivisionJob(h)), h.Registers(), res.value, Quotient(vx, vy))
    ensures res.Some? ==> h.tmp1 == h.tmp3 == h.tmp4 == NIL
    ensures res.None? ==> h.Room() == {}
  {
    hide Dividing, Placed, Takes, Capped;
    ghost var j, q, r, d := DivisionJob(h), 0, vx, vy as int;
    StartDivision(h, x, y, vx, vy);
    var lx, ly := Lengths(h, j, vx, vy);
    if lx >= ly {
      var p;
      p, q, r, d := DivideShifted(h, lx - ly, j, vx, vy);
      if p.None? {
        return None;
      }
    }
    var n := TakeQuotient(h, j, q, r, d);
    return Some(n);
  }
}