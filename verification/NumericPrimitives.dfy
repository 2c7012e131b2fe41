/** The primitives that multiply and divide: their operands and intermediate
    results are held by registers, and so survive every collection. */
module NumericPrimitives {
  import opened VmArch
  import opened Wrappers
  import opened Integers
  import opened MemoryManagement
  import opened Digits
  import opened Bignum
  import opened Temporaries
  import Multiplication
  import Division
  import opened Powers

  /** What no numeric primitive may change: all the machine holds but the four
      registers. */
  ghost function Bystanders(h: Heap): set<nat>
    requires h.Shape()
    reads h, h.car, h.cdr, h.typ
  {
    Live(h.Graph(), h.Globals()) + Live(h.Graph(), {h.cont}) + Live(h.Graph(), {h.env})
  }

  /** The machine is between two integer operations, and the bystanders are
      still those of memory m. */
  ghost predicate Calculating(h: Heap, m: Memory, bystanders: set<nat>)
    reads h, h.car, h.cdr, h.typ, h.mark, h.flip
  {
    && Ready(h)
    && h.tmp1 == NIL
    && Sound(m)
    && Bystanders(h) == bystanders
    && SameKept(m, Mem(h), bystanders)
  }

  lemma RegistersHold(h: Heap)
    requires h.Shape()
    ensures Bystanders(h) <= Live(h.Graph(), h.Registers()) <= Live(h.Graph(), h.RootsPast4()) <= Kept(h) <=
            h.LiveCells()
  {
    LiveByRoot(h);
    LiveByRegister(h);
  }

  /** A register's integer is made of cells the registers lead to. */
  lemma RegisterHolds(h: Heap, x: nat, v: int)
    requires Ready(h) && Holds(Mem(h), x, v)
    requires x == h.reg1 || x == h.reg2 || x == h.reg3 || x == h.reg4
    ensures Cells(Mem(h), x, v) <= Live(h.Graph(), h.Registers())
  {
    LiveByRegister(h);
    Division.InRoot(h, x, v);
  }

  lemma BystandersKept(m: Memory, h: Heap, inner: Job)
    requires Ready(h) && Sound(m) && Sound(inner.m) && SameKept(inner.m, Mem(h), inner.kept)
    requires var g := inner.m.g; var b := Live(g, h.Globals()) + Live(g, {h.cont}) + Live(g, {h.env});
             b <= inner.kept && SameKept(m, inner.m, b)
    ensures var g := inner.m.g; var b := Live(g, h.Globals()) + Live(g, {h.cont}) + Live(g, {h.env});
            Bystanders(h) == b && SameKept(m, Mem(h), b)
  {
    LiveUnchanged(inner.m.g, h.Graph(), h.Globals());
    LiveUnchanged(inner.m.g, h.Graph(), {h.cont});
    LiveUnchanged(inner.m.g, h.Graph(), {h.env});
  }

  /** x is a result of an operation that kept the registers: it can go into a
      register, and what a register r held it still holds. */
  lemma ResultReady(h: Heap, j: Job, roots: set<nat>, x: nat, v: int, r: nat, w: int)
    requires Placed(h, j, roots, x, v) && Holds(j.m, r, w) && Cells(j.m, r, w) <= j.kept
    ensures Safe(h, x) && Holds(Mem(h), r, w)
  {
    IntegerReachesItself(Mem(h), x, v);
    HoldsFrame(j.m, Mem(h), r, w);
  }

  /** What the registers hold, where it matters. */
  datatype Contents = Contents(reg1: Option<int>, reg2: Option<int>, reg3: Option<int>, reg4: Option<int>)

  ghost predicate RegisterIs(m: Memory, x: nat, v: Option<int>)
    requires Sound(m)
  {
    v.Some? ==> Holds(m, x, v.value)
  }

  ghost predicate Loaded(h: Heap, m: Memory, b: set<nat>, c: Contents)
    reads h, h.car, h.cdr, h.typ, h.mark, h.flip
  {
    && Calculating(h, m, b)
    && RegisterIs(Mem(h), h.reg1, c.reg1) && RegisterIs(Mem(h), h.reg2, c.reg2)
    && RegisterIs(Mem(h), h.reg3, c.reg3) && RegisterIs(Mem(h), h.reg4, c.reg4)
  }

  /** The quotient of the first two registers goes into the third. */
  method DivideIntoReg3(h: Heap, ghost m: Memory, ghost b: set<nat>, ghost x: nat, ghost y: nat, ghost q: int)
      returns (r: Option<nat>)
    requires q == Division.Quotient(x, y)
    requires Loaded(h, m, b, Contents(Some(x), Some(y), None, None))
    modifies h.car, h.cdr, h.typ, h.mark, h.flip, h.vectorUsed, h`freeCells, h`freeCount, h`usedCount, h`free, h`tmp1,
             h`tmp2, h`tmp3, h`tmp4, h`tmp5, h`reg3
    ensures r.Some? ==> Loaded(h, m, b, Contents(Some(x), Some(y), Some(q), None))
    ensures r.None? ==> h.Room() == {}
  {
    hide Holds, Cells, SameKept, Division.Quotient;
    ghost var j := Division.DivisionJob(h);
    RegistersHold(h);
    RegisterHolds(h, h.reg1, x);
    RegisterHolds(h, h.reg2, y);
    var p :- Division.DivNonNeg(h, h.reg1, h.reg2, x, y);
    ResultReady(h, j, h.Registers(), p, q, h.reg1, x);
    ResultReady(h, j, h.Registers(), p, q, h.reg2, y);
    BystandersKept(m, h, j);
    SetReg3(h, p);
    r := Some(p);
  }

  /** The product of the second and third register goes into the fourth. */
  method MultiplyIntoReg4(h: Heap, ghost m: Memory, ghost b: set<nat>, ghost x: int, ghost y: nat, ghost q: int,
      ghost z: int)
      returns (r: Option<nat>)
    requires z == y * q
    requires Loaded(h, m, b, Contents(Some(x), Some(y), Some(q), None))
    modifies h.car, h.cdr, h.typ, h.mark, h.flip, h.vectorUsed, h`freeCells, h`freeCount, h`usedCount, h`free, h`tmp1,
             h`tmp2, h`tmp3, h`tmp4, h`reg4
    ensures r.Some? ==> Loaded(h, m, b, Contents(Some(x), None, None, Some(z)))
    ensures r.None? ==> h.Room() == {}
  {
    hide Holds, Cells, SameKept, Division.Quotient;
    RegistersHold(h);
    RegisterHolds(h, h.reg1, x);
    RegisterHolds(h, h.reg2, y);
    RegisterHolds(h, h.reg3, q);
    ghost var kept := Live(h.Graph(), h.RootsPast4());
    ghost var j := Job(Mem(h), kept, kept);
    var p :- Multiplication.MulNonNeg(h, h.reg2, h.reg3, kept, y, q);
    ResultReady(h, j, h.RootsPast4(), p, z, h.reg1, x);
    BystandersKept(m, h, j);
    SetReg4(h, p);
    r := Some(p);
  }

  /** The first register loses the fourth. */
  method SubtractReg4(h: Heap, ghost m: Memory, ghost b: set<nat>, ghost x: int, ghost z: int) returns (r: Option<nat>)
    requires Loaded(h, m, b, Contents(Some(x), None, None, Some(z)))
    modifies h.car, h.cdr, h.typ, h.mark, h.flip, h.vectorUsed, h`freeCells, h`freeCount, h`usedCount, h`free, h`tmp1,
             h`reg1
    ensures r.Some? ==> Loaded(h, m, b, Contents(Some(x - z), None, None, None))
    ensures r.None? ==> h.Room() == {}
  {
    hide Holds, Cells, SameKept;
    RegistersHold(h);
    RegisterHolds(h, h.reg1, x);
    RegisterHolds(h, h.reg4, z);
    ghost var j := JobFor(h, Kept(h));
    AsOperand(h, Kept(h), h.reg1, x);
    AsOperand(h, Kept(h), h.reg4, z);
    var p :- Sub(h, h.reg1, h.reg4, j.shared, x, z);
    InnerResult(h, j, p, x - z);
    BystandersKept(m, h, j);
    SetReg1(h, p);
    r := Some(p);
  }

  method ClearRegisters(h: Heap, ghost m: Memory, ghost b: set<nat>, ghost x: int)
    requires Loaded(h, m, b, Contents(Some(x), None, None, None))
    modifies h`reg2, h`reg3, h`reg4
    ensures Calculating(h, m, b) && Holds(Mem(h), h.reg1, x) && h.reg2 == h.reg3 == h.reg4 == NIL
  {
    AtomIsSafe(h, NIL);
    SetReg3(h, NIL);
    SetReg4(h, NIL);
    SetReg2(h, NIL);
  }

  lemma LargerFactor(y: nat, a: int, b: int)
    requires y > 0 && a < b
    ensures y * a < y * b
  {
    Multiplication.Distributes(y, a, b - a);
    Division.Grows(y, 1, b - a);
  }

  lemma SameFactor(y: nat, a: int, b: int)
    requires y > 0
    ensures y * a == y * b <==> a == b
  {
    if a < b {
      LargerFactor(y, a, b);
    } else if b < a {
      LargerFactor(y, b, a);
    }
  }

  lemma RestTells(x: nat, y: nat, q: int)
    requires y > 0
    ensures x - y * q == x % y <==> q == x / y
  {
    assert x == y * (x / y) + x % y;
    SameFactor(y, q, x / y);
  }

  lemma RemainderIs(x: nat, y: nat)
    requires y > 0
    ensures x - y * Division.Quotient(x, y) == x % y <==> High(BitLength(x)) <= High(BitLength(y))
  {
    Division.QuotientIsRightExactlyWhen(x, y);
    RestTells(x, y, Division.Quotient(x, y));
  }

  /** The three steps and the clearing of the registers. */
  method TakeRemainder(h: Heap, ghost m: Memory, ghost b: set<nat>, ghost x: nat, ghost y: nat, ghost q: int,
      ghost z: int)
      returns (r: Option<nat>)
    requires q == Division.Quotient(x, y) && z == y * q
    requires Loaded(h, m, b, Contents(Some(x), Some(y), None, None))
    modifies h.car, h.cdr, h.typ, h.mark, h.flip, h.vectorUsed, h`freeCells, h`freeCount, h`usedCount, h`free, h`tmp1,
             h`tmp2, h`tmp3, h`tmp4, h`tmp5, h`reg1, h`reg2, h`reg3, h`reg4
    ensures r.Some? ==> Calculating(h, m, b) && Holds(Mem(h), h.reg1, x - z) && h.reg2 == h.reg3 == h.reg4 == NIL
    ensures r.None? ==> h.Room() == {}
  {
    hide Loaded, Holds;
    var p :- DivideIntoReg3(h, m, b, x, y, q);
    p :- MultiplyIntoReg4(h, m, b, x, y, q, z);
    p :- SubtractReg4(h, m, b, x, z);
    ClearRegisters(h, m, b, x - z);
    r := Some(p);
  }

  /** The remainder primitive. A zero divisor is reported on the console and
      then treated like any other. */
  method RemNonNeg(h: Heap, ghost x: nat, ghost y: nat) returns (r: Option<nat>)
    requires Ready(h) && h.tmp1 == NIL && Holds(Mem(h), h.reg1, x) && Holds(Mem(h), h.reg2, y)
    modifies h.car, h.cdr, h.typ, h.mark, h.flip, h.vectorUsed, h`freeCells, h`freeCount, h`usedCount, h`free, h`tmp1,
             h`tmp2, h`tmp3, h`tmp4, h`tmp5, h`reg1, h`reg2, h`reg3, h`reg4
    ensures r.Some? ==> Calculating(h, old(Mem(h)), old(Bystanders(h)))
    ensures r.Some? ==> Holds(Mem(h), h.reg1, x - y * Division.Quotient(x, y)) && h.reg2 == h.reg3 == h.reg4 == NIL
    ensures r.Some? && y > 0 ==> (Holds(Mem(h), h.reg1, x % y) <==> High(BitLength(x)) <= High(BitLength(y)))
    ensures r.None? ==> h.Room() == {}
  {
    ghost var q := Division.Quotient(x, y);
    r := TakeRemainder(h, Mem(h), Bystanders(h), x, y, q, y * q);
    if r.Some? && y > 0 {
      RemainderIs(x, y);
      if Holds(Mem(h), h.reg1, x % y) {
        HoldsOnce(Mem(h), h.reg1, x % y, x - y * q);
      }
    }
  }
}