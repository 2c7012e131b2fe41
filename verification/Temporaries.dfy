/** The temporaries and registers in which the larger integer operations keep
    what they work on, so that a collection inside the smaller ones spares it. */
module Temporaries {
  import opened VmArch
  import opened Wrappers
  import opened Integers
  import opened MemoryManagement
  import opened Digits

  /** The live cells, root by root. */
  lemma LiveByRoot(h: Heap)
    requires h.Shape()
    ensures var g := h.Graph();
            && Live(g, h.RootsPast4()) == Live(g, h.Registers()) + Live(g, {h.tmp5})
            && Live(g, h.RootsPast2()) == Live(g, h.RootsPast4()) + Live(g, {h.tmp4}) + Live(g, {h.tmp3})
            && Live(g, h.RootsPast1()) == Live(g, h.RootsPast2()) + Live(g, {h.tmp2})
            && Live(g, h.Roots()) == Live(g, h.RootsPast1()) + Live(g, {h.tmp1})
  {
    var g := h.Graph();
    LiveWithRoot(g, h.Registers(), h.tmp5);
    LiveWithRoot(g, h.RootsPast4(), h.tmp4);
    LiveWithRoot(g, With(h.RootsPast4(), h.tmp4), h.tmp3);
    LiveWithRoot(g, h.RootsPast2(), h.tmp2);
    LiveWithRoot(g, h.RootsPast1(), h.tmp1);
  }

  method SetTmp2(h: Heap, x: nat)
    requires h.Valid() && Safe(h, x)
    modifies h`tmp2
    ensures h.Valid() && h.tmp2 == x
  {
    LiveByRoot(h);
    h.tmp2 := x;
    LiveByRoot(h);
  }

  method SetTmp3(h: Heap, x: nat)
    requires h.Valid() && Safe(h, x)
    modifies h`tmp3
    ensures h.Valid() && h.tmp3 == x
  {
    LiveByRoot(h);
    h.tmp3 := x;
    LiveByRoot(h);
  }

  method SetTmp4(h: Heap, x: nat)
    requires h.Valid() && Safe(h, x)
    modifies h`tmp4
    ensures h.Valid() && h.tmp4 == x
  {
    LiveByRoot(h);
    h.tmp4 := x;
    LiveByRoot(h);
  }

  method SetTmp5(h: Heap, x: nat)
    requires h.Valid() && Safe(h, x)
    modifies h`tmp5
    ensures h.Valid() && h.tmp5 == x
  {
    LiveByRoot(h);
    h.tmp5 := x;
    LiveByRoot(h);
  }

  lemma LiveByRegister(h: Heap)
    requires h.Shape()
    ensures var g := h.Graph();
            Live(g, h.Registers()) == Live(g, h.Globals()) + Live(g, {h.reg1}) + Live(g, {h.reg2}) + Live(g, {h.reg3})
                                      + Live(g, {h.reg4}) + Live(g, {h.cont}) + Live(g, {h.env})
  {
    var g := h.Graph();
    var r1 := With(h.Globals(), h.reg1);
    var r2 := With(r1, h.reg2);
    var r3 := With(r2, h.reg3);
    var r4 := With(r3, h.reg4);
    LiveWithRoot(g, h.Globals(), h.reg1);
    LiveWithRoot(g, r1, h.reg2);
    LiveWithRoot(g, r2, h.reg3);
    LiveWithRoot(g, r3, h.reg4);
    LiveWithRoot(g, r4, h.cont);
    LiveWithRoot(g, With(r4, h.cont), h.env);
  }

  lemma FreeByRegister(h: Heap)
    requires h.Shape()
    ensures h.FreeSet() !! h.LiveCells() <==>
              (&& h.FreeSet() !! Live(h.Graph(), h.Globals())
               && Safe(h, h.reg1) && Safe(h, h.reg2) && Safe(h, h.reg3) && Safe(h, h.reg4) && Safe(h, h.cont)
                 && Safe(h, h.env)
               && Safe(h, h.tmp1) && Safe(h, h.tmp2) && Safe(h, h.tmp3) && Safe(h, h.tmp4) && Safe(h, h.tmp5))
  {
    LiveByRoot(h);
    LiveByRegister(h);
  }

  method SetReg1(h: Heap, x: nat)
    requires h.Valid() && Safe(h, x)
    modifies h`reg1
    ensures h.Valid() && h.reg1 == x
  {
    FreeByRegister(h);
    h.reg1 := x;
    FreeByRegister(h);
  }

  method SetReg2(h: Heap, x: nat)
    requires h.Valid() && Safe(h, x)
    modifies h`reg2
    ensures h.Valid() && h.reg2 == x
  {
    FreeByRegister(h);
    h.reg2 := x;
    FreeByRegister(h);
  }

  method SetReg3(h: Heap, x: nat)
    requires h.Valid() && Safe(h, x)
    modifies h`reg3
    ensures h.Valid() && h.reg3 == x
  {
    FreeByRegister(h);
    h.reg3 := x;
    FreeByRegister(h);
  }

  method SetReg4(h: Heap, x: nat)
    requires h.Valid() && Safe(h, x)
    modifies h`reg4
    ensures h.Valid() && h.reg4 == x
  {
    FreeByRegister(h);
    h.reg4 := x;
    FreeByRegister(h);
  }

  method SetEnv(h: Heap, x: nat)
    requires h.Valid() && Safe(h, x)
    modifies h`env
    ensures h.Valid() && h.env == x
  {
    FreeByRegister(h);
    h.env := x;
    FreeByRegister(h);
  }

  method SetCont(h: Heap, x: nat)
    requires h.Valid() && Safe(h, x)
    modifies h`cont
    ensures h.Valid() && h.cont == x
  {
    FreeByRegister(h);
    h.cont := x;
    FreeByRegister(h);
  }

  /** The heap has kept what the job is to keep, which is all that the given
      roots lead to. */
  ghost predicate Holding(h: Heap, j: Job, roots: set<nat>)
    reads h, h.car, h.cdr, h.typ, h.mark, h.flip
  {
    && Ready(h)
    && Sound(j.m)
    && j.shared <= j.kept
    && Live(h.Graph(), roots) == j.kept
    && SameKept(j.m, Mem(h), j.kept)
  }

  /** x holds v, and shares kept cells only as the job allows. */
  ghost predicate Has(m: Memory, j: Job, x: nat, v: int)
    requires Sound(m)
  {
    Holds(m, x, v) && Cells(m, x, v) * j.kept <= j.shared
  }

  /** An inner operation that keeps more keeps this. */
  lemma StillKept(j: Job, inner: Job, m: Memory, roots: set<nat>)
    requires Sound(j.m) && Sound(inner.m) && Sound(m)
    requires SameKept(j.m, inner.m, j.kept) && Live(inner.m.g, roots) == j.kept
    requires j.kept <= inner.kept && SameKept(inner.m, m, inner.kept)
    ensures Live(m.g, roots) == j.kept && SameKept(j.m, m, j.kept)
  {
    LiveUnchanged(inner.m.g, m.g, roots);
  }

  /** What an inner operation has made can be kept in a root, and shares with
      the outer job no more than its operands did. */
  lemma InnerResult(h: Heap, inner: Job, x: nat, v: int)
    requires Finished(h, inner, x, v)
    ensures Keeping(h, inner) && h.tmp1 == NIL && Made(h, inner, x, v) && Safe(h, x)
  {
    IntegerReachesItself(Mem(h), x, v);
  }

  /** An integer the inner operation kept. */
  lemma InnerKeeps(h: Heap, inner: Job, x: nat, v: int)
    requires Keeping(h, inner) && Holds(inner.m, x, v) && Cells(inner.m, x, v) <= inner.kept
    ensures Holds(Mem(h), x, v) && Cells(Mem(h), x, v) == Cells(inner.m, x, v)
  {
    HoldsFrame(inner.m, Mem(h), x, v);
  }

  /** An integer in a temporary past the first is safe from level 1 operations. */
  lemma InTemporary(h: Heap, x: nat, v: int)
    requires Ready(h) && Holds(Mem(h), x, v)
    requires x == h.tmp2 || x == h.tmp3 || x == h.tmp4 || x == h.tmp5
    ensures Cells(Mem(h), x, v) <= Kept(h)
  {
    LiveByRoot(h);
    LiveIsClosed(h.Graph(), {x});
    CellsInClosed(Mem(h), x, v, Live(h.Graph(), {x}));
  }

  /** The job of an inner operation on kept integers. */
  lemma AsOperand(h: Heap, shared: set<nat>, x: nat, v: int)
    requires Usable(h) && Holds(Mem(h), x, v) && Cells(Mem(h), x, v) <= shared
    ensures Takes(JobFor(h, shared), x, v)
  {
  }

  /** A finished result: x holds v in cells none of which is free. */
  ghost predicate Placed(h: Heap, j: Job, roots: set<nat>, x: nat, v: int)
    reads h, h.car, h.cdr, h.typ, h.mark, h.flip
  {
    Holding(h, j, roots) && Has(Mem(h), j, x, v) && Cells(Mem(h), x, v) !! h.FreeSet()
  }

  lemma OperandIsPlaced(h: Heap, j: Job, roots: set<nat>, x: nat, v: int)
    requires Ready(h) && j.m == Mem(h) && j.shared <= j.kept == Live(h.Graph(), roots) && j.kept <= h.LiveCells()
    requires Holds(Mem(h), x, v) && Cells(Mem(h), x, v) <= j.shared
    ensures Placed(h, j, roots, x, v) && Safe(h, x)
  {
    DeadApart(h);
    IntegerReachesItself(Mem(h), x, v);
  }
}
