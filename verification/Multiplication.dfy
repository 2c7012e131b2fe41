/** Multiplication: by one digit, and digit by digit. */
module Multiplication {
  import opened VmArch
  import opened Wrappers
  import opened Integers
  import opened MemoryManagement
  import opened Digits
  import opened Bignum
  import opened Temporaries

  const TWO_DIGITS: nat := 0x1_0000_0000

  /** The product of a digit by n with a carry below n fits in 32 bits and
      carries again less than n. */
  lemma ProductFits(d: nat, n: nat, carry: nat)
    requires IsDigit(d) && IsDigit(n) && carry < n
    ensures d * n + carry < TWO_DIGITS && 0 <= High(d * n + carry) < n
  {
    DigitTimes(d, n);
    assert d * n + carry < 0x1_0000 * n;
  }

  lemma DigitTimes(d: nat, n: nat)
    requires IsDigit(d)
    ensures 0 <= d * n <= 0xFFFF * n
  {
  }

  lemma JoinTimes(n: int, d: int, v: int)
    ensures n * Join(d, v) == Join(n * d, n * v)
  {
    Distributes(n, d, 0x1_0000 * v);
    Distributes(0x1_0000, 0, n * v);
    Swaps(n, 0x1_0000, v);
  }

  lemma Distributes(n: int, a: int, b: int)
    ensures n * (a + b) == n * a + n * b
  {
  }

  lemma Swaps(n: int, a: int, b: int)
    ensures n * (a * b) == a * (n * b)
  {
  }

  /** One digit of n * a + carry. */
  lemma ScaleStep(n: nat, a: int, carry: nat)
    ensures var m := Low(a) * n + carry; Join(Low(m), n * High(a) + High(m)) == n * a + carry
  {
    JoinApart(a);
    JoinTimes(n, Low(a), High(a));
    JoinApart(Low(a) * n + carry);
  }

  method PushScaled(h: Heap, m: nat, n: nat, ghost carry: nat, ghost a: int, ghost j: Job, ghost digits: seq<nat>,
      ghost cells: seq<nat>)
    returns (r: Option<nat>, ghost digits': seq<nat>, ghost cells': seq<nat>)
    requires Working(h, j, digits, cells)
    requires m == Low(a) * n + carry
    modifies h.car, h.cdr, h.typ, h.mark, h.flip, h.vectorUsed, h`freeCells, h`freeCount, h`usedCount, h`free, h`tmp1
    ensures r.Some? ==> Working(h, j, digits', cells')
    ensures r.Some? ==> Attach(digits', n * High(a) + High(m)) == Attach(digits, n * a + carry)
    ensures r.None? ==> h.Room() == {}
  {
    hide Working, Attach;
    ScaleStep(n, a, carry);
    AttachOne(Low(m), digits, n * High(a) + High(m));
    digits', cells' := [Low(m)] + digits, [];
    r, cells' := PushDigit(h, Low(m), j, digits, cells);
  }

  /** A digit cell above which there is nothing but the sign. */
  lemma TopDigit(m: Memory, p: nat, d: nat, sign: nat)
    requires Sound(m) && InRam(m, p) && m.g.typ[p] == BIGNUM_TYPE && m.g.car[p] == sign && m.g.cdr[p] == d
    requires (sign == ZERO && MAX_SMALL < d && IsDigit(d)) || (sign == NEG1 && IsDigit(d) && d < 0x1_0000 + MIN_SMALL)
    ensures var v := Join(d, if sign == ZERO then 0 else -1); Holds(m, p, v) && Cells(m, p, v) == {p}
  {
    var s := if sign == ZERO then 0 else -1;
    var v := Join(d, s);
    assert High(v) == s && Low(v) == d;
  }

  lemma StillWorking(h: Heap, m: Memory, j: Job, digits: seq<nat>, cells: seq<nat>, live: set<nat>)
    requires Ready(h) && Sound(m) && SameKept(m, Mem(h), live) && Kept(h) == j.kept && Sound(j.m)
    requires j.shared <= j.kept <= live && SameKept(j.m, m, j.kept)
    requires Prefix(m, h.tmp1, digits, cells, j.kept) && CellSet(cells) <= live && CellSet(cells) !! j.kept
    ensures Working(h, j, digits, cells)
  {
    assert forall c :: c in cells ==> c in CellSet(cells);
    PrefixFrame(m, Mem(h), h.tmp1, digits, cells, j.kept, j.kept);
  }

  /** The end with a highest digit of its own. */
  method EndWithDigit(h: Heap, d: nat, sign: nat, ghost v: int, ghost j: Job, ghost digits: seq<nat>,
      ghost cells: seq<nat>)
    returns (r: Option<nat>)
    requires Working(h, j, digits, cells)
    requires IsDigit(d) && v == Join(d, if sign == ZERO then 0 else -1)
    requires (sign == ZERO && MAX_SMALL < d) || (sign == NEG1 && d < 0x1_0000 + MIN_SMALL)
    modifies h.car, h.cdr, h.typ, h.mark, h.flip, h.vectorUsed, h`freeCells, h`freeCount, h`usedCount, h`free, h`tmp1
    ensures r.Some? ==> Finished(h, j, r.value, Attach(digits, v))
    ensures r.None? ==> h.Room() == {}
  {
    hide Finished, Attach;
    PrefixApart(h, j, digits, cells);
    DeadApart(h);
    ghost var m, live := Mem(h), h.LiveCells();
    var p :- NewDigit(h, d, sign);
    StillWorking(h, m, j, digits, cells, live);
    TopDigit(Mem(h), p, d, sign);
    var n := TakeNorm(h, p, v, j, digits, cells);
    return Some(n);
  }

  /** n times x. The carry stays below n and no product needs more than 32
      bits. */
  method Scale(n: nat, h: Heap, x0: nat, ghost shared: set<nat>, ghost vx: int) returns (r: Option<nat>)
    requires IsDigit(n) && h.tmp1 == NIL
    requires Ready(h) && shared <= Kept(h)
    requires Takes(JobFor(h, shared), x0, vx)
    modifies h.car, h.cdr, h.typ, h.mark, h.flip, h.vectorUsed, h`freeCells, h`freeCount, h`usedCount, h`free, h`tmp1
    ensures r.Some? ==> Finished(h, old(JobFor(h, shared)), r.value, n * vx)
    ensures r.None? ==> h.Room() == {}
  {
    hide Takes;
    ghost var j := JobFor(h, shared);
    OperandIsMade(h, j, x0, vx);
    HoldsApart(Mem(h), x0, vx);
    CodedIsMade(h, j, 0);
    if n == 0 || x0 == ZERO {
      return Some(ZERO);
    }
    if n == 1 {
      return Some(x0);
    }
    r := ScaleDigits(n, h, x0, shared, vx);
  }

  lemma CodedIsMade(h: Heap, j: Job, v: int)
    requires Usable(h) && IsSmall(v)
    ensures Made(h, j, Encode(v), v)
  {
  }

  /** The loop of Scale. */
  method ScaleDigits(n: nat, h: Heap, x0: nat, ghost shared: set<nat>, ghost vx: int) returns (r: Option<nat>)
    requires 1 < n && IsDigit(n)
    requires Ready(h) && shared <= Kept(h)
    requires Takes(JobFor(h, shared), x0, vx)
    modifies h.car, h.cdr, h.typ, h.mark, h.flip, h.vectorUsed, h`freeCells, h`freeCount, h`usedCount, h`free, h`tmp1
    ensures r.Some? ==> Finished(h, old(JobFor(h, shared)), r.value, n * vx)
    ensures r.None? ==> h.Room() == {}
  {
    hide Working, Finished, Takes, Attach, Sound, Usable;
    ghost var j := JobFor(h, shared);
    var x, carry: nat := x0, 0;
    StartDigits(h, shared);
    ghost var a := vx;
    ghost var digits: seq<nat>, cells: seq<nat> := [], [];
    AttachNone(n * vx);
    while true
      invariant Working(h, j, digits, cells)
      invariant Takes(j, x, a) && carry < n
      invariant Attach(digits, n * a + carry) == n * vx
      decreases Magnitude(a)
    {
      ReadOperand(h, x, a, j, digits, cells);
      if x == ZERO {
        r := EndNonneg(h, carry, j, digits, cells);
        return;
      }
      if x == NEG1 {
        r := EndNegative(h, n, carry, j, digits, cells);
        return;
      }
      var lo := IntegerLo(h, x);
      ProductFits(lo, n, carry);
      var m: nat := lo * n + carry;
      x := IntegerHi(h, x);
      var p, ds, cs :- PushScaled(h, m, n, carry, a, j, digits, cells);
      carry := High(m);
      a, digits, cells := High(a), ds, cs;
    }
  }

  method EndNonneg(h: Heap, carry: nat, ghost j: Job, ghost digits: seq<nat>, ghost cells: seq<nat>)
      returns (r: Option<nat>)
    requires Working(h, j, digits, cells) && Sound(j.m) && IsDigit(carry)
    modifies h.car, h.cdr, h.typ, h.mark, h.flip, h.vectorUsed, h`freeCells, h`freeCount, h`usedCount, h`free, h`tmp1
    ensures r.Some? ==> Finished(h, j, r.value, Attach(digits, carry))
    ensures r.None? ==> h.Room() == {}
  {
    hide Working, Finished, Attach;
    if carry <= 255 {
      CodedOperand(j, carry);
      var q := EndWith(h, carry + 1 + SMALL_INT_START, carry, j, digits, cells);
      return Some(q);
    }
    r := EndWithDigit(h, carry, ZERO, carry, j, digits, cells);
  }

  /** The difference of carry and n wraps around in 16 bits. */
  method EndNegative(h: Heap, n: nat, carry0: nat, ghost j: Job, ghost digits: seq<nat>, ghost cells: seq<nat>)
      returns (r: Option<nat>)
    requires Working(h, j, digits, cells) && Sound(j.m) && IsDigit(n) && carry0 < n
    modifies h.car, h.cdr, h.typ, h.mark, h.flip, h.vectorUsed, h`freeCells, h`freeCount, h`usedCount, h`free, h`tmp1
    ensures r.Some? ==> Finished(h, j, r.value, Attach(digits, carry0 - n))
    ensures r.None? ==> h.Room() == {}
  {
    hide Working, Finished, Attach;
    var carry := Low(carry0 - n);
    assert carry == carry0 - n + 0x1_0000;
    if carry >= 0xFFFF {
      CodedOperand(j, -1);
      var q := EndWith(h, Low(carry + 1) + SMALL_INT_START, -1, j, digits, cells);
      return Some(q);
    }
    r := EndWithDigit(h, carry, NEG1, carry0 - n, j, digits, cells);
  }

  // The product of two integers.

  /** In the middle of a product: the third temporary holds the digits that are
      done, the fourth what is left above them. */
  ghost predicate Multiplying(h: Heap, j: Job, digits: seq<nat>, cells: seq<nat>, t: int)
    reads h, h.car, h.cdr, h.typ, h.mark, h.flip
  {
    && Ready(h)
    && Sound(j.m)
    && j.shared <= j.kept
    && h.tmp1 == NIL
    && ProductIn(Mem(h), h.RootsPast4(), j, h.tmp3, digits, cells, h.tmp4, t)
  }

  /** In memory m, the digits start at p and x is what is left above them. */
  ghost predicate ProductIn(m: Memory, roots: set<nat>, j: Job, p: nat, digits: seq<nat>, cells: seq<nat>, x: nat,
      t: int)
    requires Sound(m) && Sound(j.m)
  {
    && SameKept(j.m, m, j.kept)
    && Live(m.g, roots) == j.kept
    && Prefix(m, p, digits, cells, j.kept)
    && Has(m, j, x, t)
    && Cells(m, x, t) !! CellSet(cells)
  }

  /** An operand of the product, held by the registers. */
  ghost predicate Factor(j: Job, x: nat, v: int)
    requires Sound(j.m)
  {
    Holds(j.m, x, v) && Cells(j.m, x, v) <= j.shared <= j.kept
  }

  lemma FactorLater(h: Heap, j: Job, x: nat, v: int)
    requires Ready(h) && Sound(j.m) && Live(h.Graph(), h.RootsPast4()) == j.kept && SameKept(j.m, Mem(h), j.kept)
    requires Factor(j, x, v)
    ensures Holds(Mem(h), x, v) && Cells(Mem(h), x, v) == Cells(j.m, x, v)
    ensures Cells(Mem(h), x, v) <= Live(h.Graph(), h.RootsPast4()) <= Kept(h)
  {
    HoldsFrame(j.m, Mem(h), x, v);
    LiveByRoot(h);
  }

  /** The digits that are done, and what is left, are live. */
  lemma MultiplyingIsLive(h: Heap, j: Job, digits: seq<nat>, cells: seq<nat>, t: int)
    requires Multiplying(h, j, digits, cells, t)
    ensures CellSet(cells) <= Kept(h) && CellSet(cells) !! j.kept
    ensures Cells(Mem(h), h.tmp4, t) <= Kept(h)
    ensures j.kept <= Kept(h) <= h.LiveCells()
    ensures h.tmp3 in h.Roots()
  {
    LiveByRoot(h);
    LiveIsClosed(h.Graph(), {h.tmp3});
    PrefixInClosed(Mem(h), h.tmp3, digits, cells, j.kept, Live(h.Graph(), {h.tmp3}));
    InTemporary(h, h.tmp4, t);
    WithIs(With(h.RootsPast4(), h.tmp4), h.tmp3);
    WithIs(h.RootsPast2(), h.tmp2);
    WithIs(h.RootsPast1(), h.tmp1);
  }

  lemma DigitMoved(j: Job, m: Memory, m': Memory, live: set<nat>, p: nat, tmp3: nat, digits: seq<nat>, cells: seq<nat>,
      tmp4: nat, t: int)
    requires Sound(j.m) && Sound(m) && Sound(m') && SameKept(m, m', live) && j.kept <= live
    requires Prefix(m, tmp3, digits, cells, j.kept) && CellSet(cells) <= live && CellSet(cells) !! j.kept
    requires Has(m, j, tmp4, t) && Cells(m, tmp4, t) <= live && Cells(m, tmp4, t) !! CellSet(cells)
    requires InRam(m', p) && p !in live && m'.g.typ[p] == BIGNUM_TYPE && m'.g.car[p] == tmp3 && m'.g.cdr[p] == Low(t)
    ensures Prefix(m', p, [Low(t)] + digits, [p] + cells, j.kept)
    ensures Has(m', j, Hi(m', tmp4), High(t))
    ensures Cells(m', Hi(m', tmp4), High(t)) <= Cells(m, tmp4, t)
    ensures Cells(m', Hi(m', tmp4), High(t)) !! CellSet([p] + cells)
  {
    assert forall c :: c in cells ==> c in CellSet(cells);
    PrefixFrame(m, m', tmp3, digits, cells, j.kept, j.kept);
    assert ([Low(t)] + digits)[1..] == digits && ([p] + cells)[1..] == cells;
    HoldsFrame(m, m', tmp4, t);
    HoldsApart(m', tmp4, t);
  }

  lemma LeftIsSafe(h: Heap, live: set<nat>, x: nat, v: int)
    requires Ready(h) && Holds(Mem(h), x, v) && Cells(Mem(h), x, v) <= live == h.LiveCells()
    ensures Safe(h, x)
  {
    DeadApart(h);
    IntegerReachesItself(Mem(h), x, v);
  }

  /** p and x could go into the third and fourth temporary. */
  ghost predicate Movable(h: Heap, j: Job, p: nat, digits: seq<nat>, cells: seq<nat>, x: nat, t: int)
    reads h, h.car, h.cdr, h.typ, h.mark, h.flip
  {
    && Ready(h)
    && Sound(j.m)
    && j.shared <= j.kept
    && h.tmp1 == NIL
    && ProductIn(Mem(h), h.RootsPast4(), j, p, digits, cells, x, t)
    && Safe(h, p) && Safe(h, x)
  }

  method Move(h: Heap, p: nat, x: nat, ghost j: Job, ghost digits: seq<nat>, ghost cells: seq<nat>, ghost t: int)
    requires Movable(h, j, p, digits, cells, x, t)
    modifies h`tmp3, h`tmp4
    ensures Multiplying(h, j, digits, cells, t)
  {
    SetTmp3(h, p);
    SetTmp4(h, x);
  }

  /** The heap after a new cell for the lowest digit of what is left. */
  lemma DigitMade(h: Heap, j: Job, m: Memory, p: nat, digits: seq<nat>, cells: seq<nat>, t: int)
    requires Ready(h) && Sound(j.m) && Sound(m) && SameKept(m, Mem(h), h.LiveCells())
    requires ProductIn(m, h.RootsPast4(), j, h.tmp3, digits, cells, h.tmp4, t)
    requires j.kept <= h.LiveCells() && CellSet(cells) <= h.LiveCells() && CellSet(cells) !! j.kept
    requires Cells(m, h.tmp4, t) <= h.LiveCells()
    requires InRam(Mem(h), p) && p !in h.LiveCells() && h.typ[p] == BIGNUM_TYPE && h.car[p] == h.tmp3
             && h.cdr[p] == Low(t)
    requires j.shared <= j.kept && h.tmp1 == NIL && Safe(h, p)
    ensures Movable(h, j, p, [Low(t)] + digits, [p] + cells, IntegerHi(h, h.tmp4), High(t))
  {
    var live := h.LiveCells();
    DigitMoved(j, m, Mem(h), live, p, h.tmp3, digits, cells, h.tmp4, t);
    StillKept(j, Job(m, live, {}), Mem(h), h.RootsPast4());
    LeftIsSafe(h, live, IntegerHi(h, h.tmp4), High(t));
  }

  /** The lowest digit of what is left is done. */
  method MoveDigit(h: Heap, ghost j: Job, ghost digits: seq<nat>, ghost cells: seq<nat>, ghost t: int)
    returns (r: Option<nat>, ghost cells': seq<nat>)
    requires Multiplying(h, j, digits, cells, t)
    modifies h.car, h.cdr, h.typ, h.mark, h.flip, h.vectorUsed, h`freeCells, h`freeCount, h`usedCount, h`free, h`tmp3,
             h`tmp4
    ensures r.Some? ==> Multiplying(h, j, [Low(t)] + digits, cells', High(t))
    ensures r.None? ==> h.Room() == {}
  {
    MultiplyingIsLive(h, j, digits, cells, t);
    HoldsApart(Mem(h), h.tmp4, t);
    ghost var m := Mem(h);
    cells' := [];
    var p :- NewDigit(h, IntegerLo(h, h.tmp4), h.tmp3);
    DigitMade(h, j, m, p, digits, cells, t);
    Move(h, p, IntegerHi(h, h.tmp4), j, [Low(t)] + digits, [p] + cells, High(t));
    r, cells' := Some(p), [p] + cells;
  }

  function Times(x: int, y: int): int { x * y }

  /** An operation that keeps the temporaries keeps the product. */
  lemma ProductKept(inner: Job, m: Memory, roots: set<nat>, j: Job, p: nat, digits: seq<nat>, cells: seq<nat>, x: nat,
      t: int)
    requires Sound(inner.m) && Sound(m) && Sound(j.m) && ProductIn(inner.m, roots, j, p, digits, cells, x, t)
    requires SameKept(inner.m, m, inner.kept) && j.kept <= inner.kept
    requires CellSet(cells) <= inner.kept && CellSet(cells) !! j.kept && Cells(inner.m, x, t) <= inner.kept
    ensures ProductIn(m, roots, j, p, digits, cells, x, t)
    ensures Cells(m, x, t) == Cells(inner.m, x, t)
  {
    assert forall c :: c in cells ==> c in CellSet(cells);
    PrefixFrame(inner.m, m, p, digits, cells, j.kept, j.kept);
    HoldsFrame(inner.m, m, x, t);
    StillKept(j, inner, m, roots);
  }

  /** The second temporary holds the next summand. */
  ghost predicate Adding(h: Heap, j: Job, digits: seq<nat>, cells: seq<nat>, t: int, u: int)
    reads h, h.car, h.cdr, h.typ, h.mark, h.flip
  {
    && Multiplying(h, j, digits, cells, t)
    && Has(Mem(h), j, h.tmp2, u)
    && Cells(Mem(h), h.tmp2, u) !! CellSet(cells)
  }

  lemma SummandMade(h: Heap, j: Job, inner: Job, digits: seq<nat>, cells: seq<nat>, t: int, p: nat, u: int)
    requires Finished(h, inner, p, u)
    requires Sound(j.m) && Sound(inner.m) && inner.shared <= j.shared <= j.kept <= inner.kept
    requires ProductIn(inner.m, h.RootsPast4(), j, h.tmp3, digits, cells, h.tmp4, t)
    requires CellSet(cells) <= inner.kept && CellSet(cells) !! j.kept && Cells(inner.m, h.tmp4, t) <= inner.kept
    ensures Multiplying(h, j, digits, cells, t) && Safe(h, p)
    ensures Has(Mem(h), j, p, u) && Cells(Mem(h), p, u) !! CellSet(cells)
  {
    hide Finished;
    InnerResult(h, inner, p, u);
    ProductKept(inner, Mem(h), h.RootsPast4(), j, h.tmp3, digits, cells, h.tmp4, t);
  }

  method ScaleIntoTmp2(h: Heap, d: nat, y: nat, ghost vy: int, ghost j: Job, ghost digits: seq<nat>,
      ghost cells: seq<nat>, ghost t: int)
    returns (r: Option<nat>)
    requires Multiplying(h, j, digits, cells, t) && IsDigit(d) && Factor(j, y, vy)
    modifies h.car, h.cdr, h.typ, h.mark, h.flip, h.vectorUsed, h`freeCells, h`freeCount, h`usedCount, h`free, h`tmp1,
             h`tmp2
    ensures r.Some? ==> Adding(h, j, digits, cells, t, Times(d, vy))
    ensures r.None? ==> h.Room() == {}
  {
    hide Takes, Finished, Sound;
    ghost var shared := Cells(j.m, y, vy);
    MultiplyingIsLive(h, j, digits, cells, t);
    FactorLater(h, j, y, vy);
    AsOperand(h, shared, y, vy);
    ghost var inner := JobFor(h, shared);
    var p :- Scale(d, h, y, shared, vy);
    SummandMade(h, j, inner, digits, cells, t, p, Times(d, vy));
    SetTmp2(h, p);
    r := Some(p);
  }

  lemma TemporaryIsSafe(h: Heap)
    requires h.Valid()
    ensures Safe(h, h.tmp3)
  {
    LiveByRoot(h);
  }

  lemma SumMade(h: Heap, j: Job, inner: Job, digits: seq<nat>, cells: seq<nat>, t: int, p: nat, w: int)
    requires h.Valid() && Finished(h, inner, p, w)
    requires Sound(j.m) && Sound(inner.m) && j.shared <= j.kept <= inner.kept
    requires inner.shared * j.kept <= j.shared && inner.shared !! CellSet(cells)
    requires ProductIn(inner.m, h.RootsPast4(), j, h.tmp3, digits, cells, h.tmp4, t)
    requires CellSet(cells) <= inner.kept && CellSet(cells) !! j.kept && Cells(inner.m, h.tmp4, t) <= inner.kept
    ensures Movable(h, j, h.tmp3, digits, cells, p, w)
  {
    hide Finished;
    InnerResult(h, inner, p, w);
    TemporaryIsSafe(h);
    ProductKept(inner, Mem(h), h.RootsPast4(), j, h.tmp3, digits, cells, h.tmp4, t);
    assert Cells(Mem(h), p, w) * j.kept <= j.shared;
    assert Cells(Mem(h), p, w) !! CellSet(cells);
  }

  /** The summand is added to what is left. */
  method AddTmp2(h: Heap, ghost j: Job, ghost digits: seq<nat>, ghost cells: seq<nat>, ghost t: int, ghost u: int)
    returns (r: Option<nat>)
    requires Adding(h, j, digits, cells, t, u)
    modifies h.car, h.cdr, h.typ, h.mark, h.flip, h.vectorUsed, h`freeCells, h`freeCount, h`usedCount, h`free, h`tmp1,
             h`tmp3, h`tmp4
    ensures r.Some? ==> Multiplying(h, j, digits, cells, t + u)
    ensures r.None? ==> h.Room() == {}
  {
    hide Holds, Cells, SameKept;
    ghost var shared := Cells(Mem(h), h.tmp4, t) + Cells(Mem(h), h.tmp2, u);
    MultiplyingIsLive(h, j, digits, cells, t);
    InTemporary(h, h.tmp2, u);
    AsOperand(h, shared, h.tmp4, t);
    AsOperand(h, shared, h.tmp2, u);
    ghost var inner := JobFor(h, shared);
    var p :- Add(h, h.tmp4, h.tmp2, shared, t, u);
    InnerResult(h, inner, p, t + u);
    SumMade(h, j, inner, digits, cells, t, p, t + u);
    Move(h, h.tmp3, p, j, digits, cells, t + u);
    r := Some(p);
  }

  lemma ClearTemporaries(h: Heap)
    requires h.Shape() && h.tmp1 == h.tmp2 == h.tmp3 == h.tmp4 == NIL
    ensures Live(h.Graph(), h.Roots()) == Live(h.Graph(), h.RootsPast4())
  {
    LiveByRoot(h);
    LiveIsLeast(h.Graph(), {NIL}, {});
  }

  /** The digits are put below what is left and all temporaries are clear. */
  lemma ProductLinked(h: Heap, j: Job, m: Memory, written: set<nat>)
    requires Usable(h) && h.Tidy() && h.tmp1 == h.tmp2 == h.tmp3 == h.tmp4 == NIL
    requires Sound(j.m) && Sound(m) && SameKept(j.m, m, j.kept) && j.shared <= j.kept
    requires j.kept == Live(m.g, h.RootsPast4()) && j.kept !! h.FreeSet() && j.kept !! written
    requires m.reserved == h.reserved && m.rom == h.rom && |m.g.car| == h.size && m.g.cdr == h.cdr[..]
             && m.g.typ == h.typ[..]
    requires forall c: nat :: c < h.size && c !in written ==> h.car[c] == m.g.car[c]
    ensures Holding(h, j, h.RootsPast4())
  {
    assert Agree(m.g, h.Graph(), j.kept);
    LiveUnchanged(m.g, h.Graph(), h.RootsPast4());
    ClearTemporaries(h);
  }

  lemma ProductPending(h: Heap, j: Job, digits: seq<nat>, cells: seq<nat>, t: int)
    requires Multiplying(h, j, digits, cells, t)
    ensures var all := Cells(Mem(h), h.tmp4, t) + CellSet(cells);
            Pending(Mem(h), h.tmp3, digits, cells, h.tmp4, t, all) && all * j.kept <= j.shared && all !! h.FreeSet()
    ensures j.kept !! h.FreeSet() && j.kept !! CellSet(cells)
  {
    MultiplyingIsLive(h, j, digits, cells, t);
    DeadApart(h);
    assert forall c :: c in cells ==> c in CellSet(cells);
    PrefixFrame(Mem(h), Mem(h), h.tmp3, digits, cells, j.kept, {});
  }

  method TakeProduct(h: Heap, ghost j: Job, ghost digits: seq<nat>, ghost cells: seq<nat>, ghost t: int)
      returns (r: nat)
    requires Multiplying(h, j, digits, cells, t)
    modifies h.car, h`tmp2, h`tmp3, h`tmp4
    ensures Placed(h, j, h.RootsPast4(), r, Attach(digits, t))
    ensures h.tmp1 == h.tmp2 == h.tmp3 == h.tmp4 == NIL
  {
    hide Holds, Cells, SameKept;
    ghost var m := Mem(h);
    ghost var all := Cells(m, h.tmp4, t) + CellSet(cells);
    ProductPending(h, j, digits, cells, t);
    var digitList, rest := h.tmp3, h.tmp4;
    h.tmp2, h.tmp3, h.tmp4 := NIL, NIL, NIL;
    r := Norm(h, digitList, rest, digits, cells, t, all);
    ProductLinked(h, j, m, CellSet(cells));
  }

  lemma ProductStart(x: nat, y: int)
    ensures Times(Low(x), y) + 0x1_0000 * Times(High(x), y) == Times(x, y)
  {
    JoinApart(x);
    JoinTimes(y, Low(x), High(x));
  }

  lemma ProductStep(t: int, a: int, y: int, digits: seq<nat>)
    ensures Attach([Low(t)] + digits, High(t) + Times(a, y)) == Attach(digits, t + 0x1_0000 * Times(a, y))
  {
    hide Times, Attach;
    AttachOne(Low(t), digits, High(t) + Times(a, y));
    JoinApart(t);
  }

  /** Taking a factor apart in the middle of a product. */
  lemma FactorApart(h: Heap, j: Job, x: nat, a: nat, digits: seq<nat>, cells: seq<nat>, t: int)
    requires Multiplying(h, j, digits, cells, t) && Factor(j, x, a)
    ensures 0 <= High(a) && IntegerLo(h, x) == Low(a) && Factor(j, IntegerHi(h, x), High(a))
    ensures IntegerHi(h, x) == ZERO <==> High(a) == 0
    ensures a > 0 ==> High(a) < a
  {
    TakeApart(j.m, Mem(h), x, a, j.shared);
    HoldsApart(j.m, IntegerHi(h, x), High(a));
  }

  /** The lowest digit of x times y. */
  /** The first product, with no digit moved out yet. */
  lemma ProductBegun(h: Heap, j: Job, inner: Job, p: nat, t: int)
    requires Finished(h, inner, p, t) && h.tmp3 == NIL
    requires Sound(j.m) && Sound(inner.m) && inner.shared <= j.shared <= j.kept <= inner.kept
    requires SameKept(j.m, inner.m, j.kept) && Live(inner.m.g, h.RootsPast4()) == j.kept
    ensures Ready(h) && Safe(h, p) && h.tmp1 == NIL && ProductIn(Mem(h), h.RootsPast4(), j, h.tmp3, [], [], p, t)
  {
    hide Finished;
    InnerResult(h, inner, p, t);
    StillKept(j, inner, Mem(h), h.RootsPast4());
  }

  method StartProduct(h: Heap, d: nat, y: nat, ghost vy: int, ghost j: Job) returns (r: Option<nat>)
    requires Holding(h, j, h.RootsPast4()) && h.tmp1 == NIL && IsDigit(d) && Factor(j, y, vy)
    modifies h.car, h.cdr, h.typ, h.mark, h.flip, h.vectorUsed, h`freeCells, h`freeCount, h`usedCount, h`free, h`tmp1,
             h`tmp3, h`tmp4
    ensures r.Some? ==> Multiplying(h, j, [], [], Times(d, vy))
    ensures r.None? ==> h.Room() == {}
  {
    hide ProductIn, Finished, Takes, SameKept, Holds, Sound, Cells;
    AtomIsSafe(h, NIL);
    SetTmp3(h, NIL);
    ghost var shared := Cells(j.m, y, vy);
    LiveByRoot(h);
    FactorLater(h, j, y, vy);
    AsOperand(h, shared, y, vy);
    ghost var inner := JobFor(h, shared);
    var p :- Scale(d, h, y, shared, vy);
    ProductBegun(h, j, inner, p, Times(d, vy));
    SetTmp4(h, p);
    r := Some(p);
  }

  // The loop itself.

  lemma FactorIs(j: Job, x: nat, v: int)
    requires Sound(j.m) && j.shared <= j.kept
    ensures Takes(j, x, v) <==> Factor(j, x, v)
  {
  }

  /** One turn of the loop, up to its exit. */
  method NextFactorDigit(h: Heap, x0: nat, ghost j: Job, ghost digits0: seq<nat>, ghost cells0: seq<nat>,
      ghost t0: int, ghost a0: nat, ghost vy: int)
    returns (r: Option<nat>, x: nat, ghost digits: seq<nat>, ghost cells: seq<nat>, ghost t: int, ghost a: nat)
    requires Sound(j.m) && Multiplying(h, j, digits0, cells0, t0) && Takes(j, x0, a0)
    modifies h.car, h.cdr, h.typ, h.mark, h.flip, h.vectorUsed, h`freeCells, h`freeCount, h`usedCount, h`free, h`tmp3,
             h`tmp4
    ensures r.Some? ==> Multiplying(h, j, digits, cells, t) && Takes(j, x, a)
    ensures r.Some? ==> (x == ZERO <==> a == 0) && a <= a0 && (a0 > 0 ==> a < a0)
    ensures r.Some? ==> Attach(digits, t + Times(a, vy)) == Attach(digits0, t0 + 0x1_0000 * Times(High(a0), vy))
    ensures r.None? ==> h.Room() == {}
  {
    hide Takes, Times, Attach;
    FactorIs(j, x0, a0);
    x, digits, t := x0, [Low(t0)] + digits0, High(t0);
    FactorApart(h, j, x, a0, digits0, cells0, t0);
    a := High(a0);
    ProductStep(t0, a, vy, digits0);
    r, cells := MoveDigit(h, j, digits0, cells0, t0);
    if r.Some? {
      FactorApart(h, j, x, a0, digits, cells, t);
      x := IntegerHi(h, x);
      FactorIs(j, x, a);
    }
  }

  lemma ReadFactor(h: Heap, j: Job, x: nat, a: nat, digits: seq<nat>, cells: seq<nat>, t: int)
    requires Sound(j.m) && Multiplying(h, j, digits, cells, t) && Takes(j, x, a)
    ensures Usable(h) && IntegerLo(h, x) == Low(a)
  {
    hide Takes;
    FactorIs(j, x, a);
    FactorApart(h, j, x, a, digits, cells, t);
  }

  method AddDigitProduct(h: Heap, d: nat, y: nat, ghost j: Job, ghost digits: seq<nat>, ghost cells: seq<nat>,
      ghost t: int, ghost vy: int)
    returns (r: Option<nat>)
    requires IsDigit(d) && Sound(j.m) && Multiplying(h, j, digits, cells, t) && Takes(j, y, vy)
    modifies h.car, h.cdr, h.typ, h.mark, h.flip, h.vectorUsed, h`freeCells, h`freeCount, h`usedCount, h`free, h`tmp1,
             h`tmp2, h`tmp3, h`tmp4
    ensures r.Some? ==> Multiplying(h, j, digits, cells, t + Times(d, vy))
    ensures r.None? ==> h.Room() == {}
  {
    hide Adding, Factor, Times, ProductIn, Holds, Takes;
    FactorIs(j, y, vy);
    var p :- ScaleIntoTmp2(h, d, y, vy, j, digits, cells, t);
    r := AddTmp2(h, j, digits, cells, t, Times(d, vy));
  }

  /** The rest of the turn: the next digit of x times y is added. */
  method AddNextProduct(h: Heap, x: nat, y: nat, ghost j: Job, ghost digits: seq<nat>, ghost cells: seq<nat>,
      ghost t0: int, ghost a: nat, ghost vy: int)
    returns (r: Option<nat>, ghost t: int)
    requires Sound(j.m) && Multiplying(h, j, digits, cells, t0) && Takes(j, x, a) && Takes(j, y, vy)
    modifies h.car, h.cdr, h.typ, h.mark, h.flip, h.vectorUsed, h`freeCells, h`freeCount, h`usedCount, h`free, h`tmp1,
             h`tmp2, h`tmp3, h`tmp4
    ensures r.Some? ==> Multiplying(h, j, digits, cells, t)
    ensures r.Some? ==> t + 0x1_0000 * Times(High(a), vy) == t0 + Times(a, vy)
    ensures r.None? ==> h.Room() == {}
  {
    hide Multiplying, Takes, Times;
    ReadFactor(h, j, x, a, digits, cells, t0);
    t := t0 + Times(Low(a), vy);
    ProductStart(a, vy);
    r := AddDigitProduct(h, IntegerLo(h, x), y, j, digits, cells, t0, vy);
  }

  method EndProduct(h: Heap, ghost j: Job, ghost digits: seq<nat>, ghost cells: seq<nat>, ghost t: int) returns (r: nat)
    requires Multiplying(h, j, digits, cells, t)
    modifies h.car, h`tmp2, h`tmp3, h`tmp4
    ensures Placed(h, j, h.RootsPast4(), r, Attach(digits, t))
    ensures h.tmp1 == h.tmp2 == h.tmp3 == h.tmp4 == NIL
  {
    hide Attach;
    r := TakeProduct(h, j, digits, cells, t);
  }

  /** Digit by digit of x, from the product of its lowest digit. */
  method MultiplyDigits(h: Heap, x0: nat, y: nat, ghost j: Job, ghost vx: nat, ghost vy: int) returns (r: Option<nat>)
    requires Sound(j.m) && Multiplying(h, j, [], [], Times(Low(vx), vy))
    requires Takes(j, x0, vx) && Takes(j, y, vy)
    modifies h.car, h.cdr, h.typ, h.mark, h.flip, h.vectorUsed, h`freeCells, h`freeCount, h`usedCount, h`free, h`tmp1,
             h`tmp2, h`tmp3, h`tmp4
    ensures r.Some? ==> Placed(h, j, h.RootsPast4(), r.value, Times(vx, vy))
    ensures r.Some? ==> h.tmp1 == h.tmp2 == h.tmp3 == h.tmp4 == NIL
    ensures r.None? ==> h.Room() == {}
  {
    hide Multiplying, Takes, Attach;
    var x := x0;
    ghost var a: nat, t, digits: seq<nat>, cells: seq<nat> := vx, Times(Low(vx), vy), [], [];
    ProductStart(vx, vy);
    AttachNone(Times(vx, vy));
    while true
      invariant Multiplying(h, j, digits, cells, t) && Takes(j, x, a)
      invariant Attach(digits, t + 0x1_0000 * Times(High(a), vy)) == Times(vx, vy)
      decreases a
    {
      ghost var a';
      r, x, digits, cells, t, a' := NextFactorDigit(h, x, j, digits, cells, t, a, vy);
      if r.None? {
        return;
      }
      if x == ZERO {
        var q := EndProduct(h, j, digits, cells, t);
        return Some(q);
      }
      r, t := AddNextProduct(h, x, y, j, digits, cells, t, a', vy);
      if r.None? {
        return;
      }
      a := a';
    }
  }

  /** x times y, for x at least 0 and y of either sign. */
  method MulNonNeg(h: Heap, x: nat, y: nat, ghost shared: set<nat>, ghost vx: nat, ghost vy: int)
      returns (r: Option<nat>)
    requires Ready(h) && h.tmp1 == NIL && shared <= Live(h.Graph(), h.RootsPast4())
    requires var j := Job(Mem(h), Live(h.Graph(), h.RootsPast4()), shared); Takes(j, x, vx) && Takes(j, y, vy)
    modifies h.car, h.cdr, h.typ, h.mark, h.flip, h.vectorUsed, h`freeCells, h`freeCount, h`usedCount, h`free, h`tmp1,
             h`tmp2, h`tmp3, h`tmp4
    ensures r.Some? ==>
            Placed(h, old(Job(Mem(h), Live(h.Graph(), h.RootsPast4()), shared)), h.RootsPast4(), r.value, vx * vy)
    ensures r.Some? ==> h.tmp1 == h.tmp2 == h.tmp3 == h.tmp4 == NIL
    ensures r.None? ==> h.Room() == {}
  {
    hide Takes;
    ghost var j := Job(Mem(h), Live(h.Graph(), h.RootsPast4()), shared);
    FactorIs(j, x, vx);
    FactorIs(j, y, vy);
    TakeApart(j.m, Mem(h), x, vx, j.shared);
    var p :- StartProduct(h, IntegerLo(h, x), y, vy, j);
    r := MultiplyDigits(h, x, y, j, vx, vy);
  }
}