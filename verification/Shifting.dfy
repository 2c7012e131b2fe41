/** Shifts by one bit, and to the left by any number of bits. */
module Shifting {
  import opened VmArch
  import opened Wrappers
  import opened Integers
  import opened MemoryManagement
  import opened Digits
  import opened Temporaries
  import opened Powers

  /** Half of v, rounding down. */
  function Half(v: int): int { v / 2 }

  /** A digit shifted right, the lowest bit of the next one coming in. */
  function ShiftedRight(d: nat, next: nat): (r: nat)
    requires IsDigit(d)
    ensures IsDigit(r)
  {
    d / 2 + if next % 2 == 1 then 0x8000 else 0
  }

  lemma HalfOfJoin(v: int)
    ensures Half(v) == Join(ShiftedRight(Low(v), Low(High(v))), Half(High(v)))
  {
    JoinApart(v);
    LowKeepsParity(High(v));
    HalfOfSum(Low(v), High(v));
  }

  lemma LowKeepsParity(v: int)
    ensures Low(v) % 2 == v % 2
  {
    JoinApart(v);
  }

  lemma HalfOfSum(low: nat, high: int)
    ensures Half(Join(low, high)) == low / 2 + (if high % 2 == 1 then 0x8000 else 0) + 0x1_0000 * (high / 2)
  {
    var q := high / 2;
    assert high == 2 * q + high % 2;
    assert Join(low, high) == low + 0x2_0000 * q + 0x1_0000 * (high % 2);
  }

  /** One digit of a right shift. */
  method PushHalf(h: Heap, d: nat, next: nat, ghost a: int, ghost j: Job, ghost digits: seq<nat>, ghost cells: seq<nat>)
    returns (r: Option<nat>, ghost digits': seq<nat>, ghost cells': seq<nat>)
    requires Working(h, j, digits, cells)
    requires d == Low(a) && next == Low(High(a))
    modifies h.car, h.cdr, h.typ, h.mark, h.flip, h.vectorUsed, h`freeCells, h`freeCount, h`usedCount, h`free, h`tmp1
    ensures r.Some? ==> Working(h, j, digits', cells')
    ensures r.Some? ==> Attach(digits', Half(High(a))) == Attach(digits, Half(a))
    ensures r.None? ==> h.Room() == {}
  {
    hide Working, Attach;
    var half := ShiftedRight(d, next);
    HalfOfJoin(a);
    AttachOne(half, digits, Half(High(a)));
    digits', cells' := [half] + digits, [];
    r, cells' := PushDigit(h, half, j, digits, cells);
  }

  method Shr(h: Heap, x0: nat, ghost shared: set<nat>, ghost vx: int) returns (r: Option<nat>)
    requires Ready(h) && shared <= Kept(h)
    requires Takes(JobFor(h, shared), x0, vx)
    modifies h.car, h.cdr, h.typ, h.mark, h.flip, h.vectorUsed, h`freeCells, h`freeCount, h`usedCount, h`free, h`tmp1
    ensures r.Some? ==> Finished(h, old(JobFor(h, shared)), r.value, Half(vx))
    ensures r.None? ==> h.Room() == {}
  {
    hide Working, Finished, Takes, Attach;
    ghost var j := JobFor(h, shared);
    var x := x0;
    StartDigits(h, shared);
    ghost var a := vx;
    ghost var digits: seq<nat>, cells: seq<nat> := [], [];
    AttachNone(Half(vx));
    while true
      invariant Working(h, j, digits, cells)
      invariant Takes(j, x, a)
      invariant Attach(digits, Half(a)) == Half(vx)
      decreases Magnitude(a)
    {
      ReadOperand(h, x, a, j, digits, cells);
      if x == ZERO || x == NEG1 {
        assert Half(a) == a;
        var n := EndWith(h, x, a, j, digits, cells);
        return Some(n);
      }
      var d := IntegerLo(h, x);
      x := IntegerHi(h, x);
      ReadOperand(h, x, High(a), j, digits, cells);
      var next := IntegerLo(h, x);
      var p, ds, cs :- PushHalf(h, d, next, a, j, digits, cells);
      a, digits, cells := High(a), ds, cs;
    }
  }

  /** A digit shifted left with a bit coming in, cut to 16 bits. */
  function ShiftedLeft(d: nat, bit: nat): (r: nat)
    requires IsDigit(d) && bit <= 1
    ensures IsDigit(r)
  {
    Low(2 * d) + bit
  }

  /** The bit that a left shift pushes out. */
  function HighBit(d: nat): bool { d >= 0x8000 }

  lemma DoubleOfJoin(v: int, bit: nat)
    requires bit <= 1
    ensures Join(ShiftedLeft(Low(v), bit), 2 * High(v) + CarryValue(NegativeCarry(HighBit(Low(v))))) == 2 * v + bit
  {
    JoinApart(v);
  }

  ghost function ShiftWork(a: int, negc: nat): nat {
    2 * Magnitude(a) + if a + CarryValue(negc) == 0 then 0 else 1
  }

  lemma ShiftStep(a: int, negc: nat)
    requires IsCarry(negc) && !(Magnitude(a) == 0 && a + CarryValue(negc) == 0)
    ensures ShiftWork(High(a), NegativeCarry(HighBit(Low(a)))) < ShiftWork(a, negc)
  {
    JoinApart(a);
  }

  method PushDouble(h: Heap, d: nat, negc: nat, ghost a: int, ghost j: Job, ghost digits: seq<nat>,
      ghost cells: seq<nat>)
    returns (r: Option<nat>, ghost digits': seq<nat>, ghost cells': seq<nat>)
    requires Working(h, j, digits, cells)
    requires d == Low(a) && IsCarry(negc)
    modifies h.car, h.cdr, h.typ, h.mark, h.flip, h.vectorUsed, h`freeCells, h`freeCount, h`usedCount, h`free, h`tmp1
    ensures r.Some? ==> r.value == NegativeCarry(HighBit(d)) && Working(h, j, digits', cells')
    ensures r.Some? ==> Attach(digits', 2 * High(a) + CarryValue(r.value)) == Attach(digits, 2 * a + CarryValue(negc))
    ensures r.None? ==> h.Room() == {}
  {
    hide Working, Attach;
    var carry := NegativeCarry(HighBit(d));
    var double := ShiftedLeft(d, CarryValue(negc));
    DoubleOfJoin(a, CarryValue(negc));
    AttachOne(double, digits, 2 * High(a) + CarryValue(carry));
    digits', cells' := [double] + digits, [];
    var p, cs :- PushDigit(h, double, j, digits, cells);
    r, cells' := Some(carry), cs;
  }

  method Shl(h: Heap, x0: nat, ghost shared: set<nat>, ghost vx: int) returns (r: Option<nat>)
    requires Ready(h) && shared <= Kept(h)
    requires Takes(JobFor(h, shared), x0, vx)
    modifies h.car, h.cdr, h.typ, h.mark, h.flip, h.vectorUsed, h`freeCells, h`freeCount, h`usedCount, h`free, h`tmp1
    ensures r.Some? ==> Finished(h, old(JobFor(h, shared)), r.value, 2 * vx)
    ensures r.None? ==> h.Room() == {}
  {
    hide Working, Finished, Takes, Attach;
    ghost var j := JobFor(h, shared);
    var x, negc := x0, ZERO;
    StartDigits(h, shared);
    ghost var a := vx;
    ghost var digits: seq<nat>, cells: seq<nat> := [], [];
    AttachNone(2 * vx);
    while true
      invariant Working(h, j, digits, cells)
      invariant Takes(j, x, a) && IsCarry(negc)
      invariant Attach(digits, 2 * a + CarryValue(negc)) == 2 * vx
      decreases ShiftWork(a, negc)
    {
      ReadOperand(h, x, a, j, digits, cells);
      if x == negc {
        var n := EndWith(h, x, a, j, digits, cells);
        return Some(n);
      }
      ShiftStep(a, negc);
      var d := IntegerLo(h, x);
      x := IntegerHi(h, x);
      var carry, ds, cs :- PushDouble(h, d, negc, a, j, digits, cells);
      negc, a, digits, cells := carry, High(a), ds, cs;
    }
  }

  // Any number of bits.

  /** The second temporary holds v. */
  ghost predicate Shifted(h: Heap, j: Job, v: int)
    reads h, h.car, h.cdr, h.typ, h.mark, h.flip
  {
    Holding(h, j, h.RootsPast2()) && h.tmp1 == NIL && Has(Mem(h), j, h.tmp2, v)
  }

  method DoubleTmp2(h: Heap, ghost j: Job, ghost v: int) returns (r: Option<nat>)
    requires Shifted(h, j, v)
    modifies h.car, h.cdr, h.typ, h.mark, h.flip, h.vectorUsed, h`freeCells, h`freeCount, h`usedCount, h`free, h`tmp1,
             h`tmp2
    ensures r.Some? ==> Shifted(h, j, 2 * v)
    ensures r.None? ==> h.Room() == {}
  {
    ghost var shared := Cells(Mem(h), h.tmp2, v);
    InTemporary(h, h.tmp2, v);
    AsOperand(h, shared, h.tmp2, v);
    ghost var inner := JobFor(h, shared);
    LiveByRoot(h);
    var p :- Shl(h, h.tmp2, shared, v);
    InnerResult(h, inner, p, 2 * v);
    StillKept(j, inner, Mem(h), h.RootsPast2());
    SetTmp2(h, p);
    r := Some(p);
  }

  lemma ZeroDigitBelow(m: Memory, p: nat, high: nat, v: int)
    requires Sound(m) && InRam(m, p) && m.g.typ[p] == BIGNUM_TYPE && m.g.car[p] == high && m.g.cdr[p] == 0
    requires v != 0 && Holds(m, high, v)
    ensures Holds(m, p, Join(0, v)) && Cells(m, p, Join(0, v)) == {p} + Cells(m, high, v)
  {
    var w := Join(0, v);
    assert High(w) == v && Low(w) == 0;
  }

  lemma ZeroDigitPut(j: Job, m: Memory, m': Memory, live: set<nat>, roots: set<nat>, p: nat, high: nat, v: int)
    requires Sound(j.m) && Sound(m) && Sound(m')
    requires SameKept(j.m, m, j.kept) && Live(m.g, roots) == j.kept && j.kept <= live && SameKept(m, m', live)
    requires v != 0 && Has(m, j, high, v) && Cells(m, high, v) <= live
    requires InRam(m', p) && p !in live && m'.g.typ[p] == BIGNUM_TYPE && m'.g.car[p] == high && m'.g.cdr[p] == 0
    ensures Live(m'.g, roots) == j.kept && SameKept(j.m, m', j.kept)
    ensures Has(m', j, p, Join(0, v))
  {
    StillKept(j, Job(m, live, {}), m', roots);
    HoldsFrame(m, m', high, v);
    ZeroDigitBelow(m', p, high, v);
  }

  lemma RootTmp2(h: Heap)
    ensures h.tmp2 in h.Roots()
  {
    WithIs(h.RootsPast2(), h.tmp2);
    WithIs(h.RootsPast1(), h.tmp1);
  }

  lemma Tmp2IsLive(h: Heap, v: int)
    requires Ready(h) && Holds(Mem(h), h.tmp2, v)
    ensures Cells(Mem(h), h.tmp2, v) <= h.LiveCells()
    ensures Live(h.Graph(), h.RootsPast2()) <= h.LiveCells()
  {
    InTemporary(h, h.tmp2, v);
    LiveByRoot(h);
  }

  /** Sixteen bits at once: a zero digit below the second temporary. */
  method DigitBelowTmp2(h: Heap, ghost j: Job, ghost v: int) returns (r: Option<nat>)
    requires Shifted(h, j, v) && v != 0
    modifies h.car, h.cdr, h.typ, h.mark, h.flip, h.vectorUsed, h`freeCells, h`freeCount, h`usedCount, h`free, h`tmp2
    ensures r.Some? ==> Shifted(h, j, Join(0, v))
    ensures r.None? ==> h.Room() == {}
  {
    ghost var m, live := Mem(h), h.LiveCells();
    Tmp2IsLive(h, v);
    RootTmp2(h);
    var p :- NewDigit(h, 0, h.tmp2);
    ZeroDigitPut(j, m, Mem(h), live, h.RootsPast2(), p, h.tmp2, v);
    SetTmp2(h, p);
    r := Some(p);
  }

  function Shift(v: int, n: nat): int { v * Power2(n) }

  lemma ShiftNone(v: int)
    ensures Shift(v, 0) == v
  {
  }

  lemma ShiftBit(v: int, n: nat)
    requires n > 0
    ensures Shift(v, n) == Shift(2 * v, n - 1)
  {
    Twice(v, Power2(n - 1));
  }

  lemma Twice(v: int, p: int)
    ensures 2 * v * p == v * (2 * p)
  {
  }

  lemma ShiftDigit(v: int, n: nat)
    requires n >= 16
    ensures Shift(v, n) == Shift(Join(0, v), n - 16)
  {
    SixteenBits();
    Power2Adds(16, n - 16);
    MulAssoc(v, 0x1_0000, Power2(n - 16));
  }

  lemma MulAssoc(a: int, b: int, c: int)
    ensures a * b * c == a * (b * c)
  {
  }

  method TakeTmp2(h: Heap, ghost j: Job, ghost v: int) returns (r: nat)
    requires Shifted(h, j, v)
    modifies h`tmp2
    ensures Placed(h, j, h.RootsPast2(), r, v) && h.tmp2 == NIL
  {
    InTemporary(h, h.tmp2, v);
    DeadApart(h);
    r := h.tmp2;
    AtomIsSafe(h, NIL);
    SetTmp2(h, NIL);
  }

  /** Bit by bit, until n is a multiple of 16. */
  method ShiftBits(h: Heap, n0: nat, ghost j: Job, ghost v0: int) returns (r: Option<nat>, ghost v: int)
    requires Shifted(h, j, v0) && v0 != 0
    modifies h.car, h.cdr, h.typ, h.mark, h.flip, h.vectorUsed, h`freeCells, h`freeCount, h`usedCount, h`free, h`tmp1,
             h`tmp2
    ensures r.Some? ==> Shifted(h, j, v) && v != 0 && r.value % 16 == 0 && Shift(v, r.value) == Shift(v0, n0)
    ensures r.None? ==> h.Room() == {}
  {
    hide Shifted, Shift;
    var n: nat := n0;
    v := v0;
    while n % 16 != 0
      invariant Shifted(h, j, v) && v != 0
      invariant Shift(v, n) == Shift(v0, n0)
    {
      var p :- DoubleTmp2(h, j, v);
      ShiftBit(v, n);
      n, v := n - 1, 2 * v;
    }
    r := Some(n);
  }

  /** Then digit by digit. */
  method ShiftDigits(h: Heap, n0: nat, ghost j: Job, ghost v0: int) returns (r: Option<nat>)
    requires Shifted(h, j, v0) && v0 != 0 && n0 % 16 == 0
    modifies h.car, h.cdr, h.typ, h.mark, h.flip, h.vectorUsed, h`freeCells, h`freeCount, h`usedCount, h`free, h`tmp2
    ensures r.Some? ==> Shifted(h, j, Shift(v0, n0))
    ensures r.None? ==> h.Room() == {}
  {
    hide Shifted, Shift;
    var n: nat := n0;
    ghost var v := v0;
    ghost var digits: nat := n / 16;
    while n > 0
      invariant Shifted(h, j, v) && v != 0
      invariant n == 16 * digits && Shift(v, n) == Shift(v0, n0)
      decreases digits
    {
      var p :- DigitBelowTmp2(h, j, v);
      ShiftDigit(v, n);
      n, v, digits := n - 16, Join(0, v), digits - 1;
    }
    ShiftNone(v);
    r := Some(h.tmp2);
  }

  /** x times 2^n. The second temporary is clear in the end. */
  method ShiftLeft(h: Heap, x: nat, n0: nat, ghost shared: set<nat>, ghost vx: int) returns (r: Option<nat>)
    requires Ready(h) && h.tmp1 == NIL && shared <= Live(h.Graph(), h.RootsPast2())
    requires Holds(Mem(h), x, vx) && Cells(Mem(h), x, vx) <= shared
    modifies h.car, h.cdr, h.typ, h.mark, h.flip, h.vectorUsed, h`freeCells, h`freeCount, h`usedCount, h`free, h`tmp1,
             h`tmp2
    ensures r.Some? ==>
            Placed(h, old(Job(Mem(h), Live(h.Graph(), h.RootsPast2()), shared)), h.RootsPast2(), r.value, Shift(vx, n0))
    ensures r.Some? ==> h.tmp1 == NIL
    ensures r.None? ==> h.Room() == {}
  {
    ghost var j := Job(Mem(h), Live(h.Graph(), h.RootsPast2()), shared);
    HoldsApart(Mem(h), x, vx);
    LiveByRoot(h);
    OperandIsPlaced(h, j, h.RootsPast2(), x, vx);
    if x == ZERO {
      return Some(x);
    }
    SetTmp2(h, x);
    var n, v :- ShiftBits(h, n0, j, vx);
    var p :- ShiftDigits(h, n, j, v);
    var q := TakeTmp2(h, j, Shift(vx, n0));
    return Some(q);
  }
}
