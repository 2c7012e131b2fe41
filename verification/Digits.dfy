/** How the integer operations build their results: digit by digit, lowest
    first, as a list held by the first temporary, put together by Norm in the
    end. Every digit is a fresh cell, so any step may collect. */
module Digits {
  import opened VmArch
  import opened Wrappers
  import opened Integers
  import opened MemoryManagement

  /** The heap has its shape, and ROM integers link to ROM only. */
  ghost predicate Usable(h: Heap) {
    && h.Shape()
    && |h.rom| <= SMALL_INT_START - ROM_START
    && (forall i :: 0 <= i < |h.rom| && h.rom[i].typ == BIGNUM_TYPE ==> h.rom[i].car >= ROM_START)
  }

  ghost function Mem(h: Heap): (m: Memory)
    requires Usable(h)
    reads h.car, h.cdr, h.typ
    ensures Sound(m) && RomClosed(m)
  {
    Memory(h.Graph(), h.reserved, h.rom)
  }

  function IntegerHi(h: Heap, x: nat): (r: nat)
    requires Usable(h)
    reads h.car, h.cdr, h.typ
    ensures r == Hi(Mem(h), x)
  {
    if h.reserved <= x < h.size then h.car[x]
    else if ROM_START <= x < ROM_START + |h.rom| then h.rom[x - ROM_START].car
    else if x == NEG1 then NEG1
    else ZERO
  }

  function IntegerLo(h: Heap, x: nat): (r: nat)
    requires Usable(h)
    reads h.car, h.cdr, h.typ
    ensures r == Lo(Mem(h), x)
  {
    if h.reserved <= x < h.size then Low(h.cdr[x])
    else if ROM_START <= x < ROM_START + |h.rom| then Low(h.rom[x - ROM_START].cdr)
    else Low((x % 0x200) - 1)
  }

  /** Puts the digits of a list below an integer, lowest last, reusing the
      list's cells and dropping those a coded small integer absorbs. Nothing
      but cells of the list is written. */
  method Norm(h: Heap, prefix0: nat, n0: nat, ghost digits0: seq<nat>, ghost cells0: seq<nat>, ghost v0: int,
      ghost all: set<nat>)
    returns (n: nat)
    requires Usable(h)
    requires Pending(Mem(h), prefix0, digits0, cells0, n0, v0, all)
    modifies h.car
    ensures forall c: nat :: c < h.size && c !in CellSet(cells0) ==> h.car[c] == old(h.car[c])
    ensures Holds(Mem(h), n, Attach(digits0, v0))
    ensures Cells(Mem(h), n, Attach(digits0, v0)) <= all
  {
    n := n0;
    var prefix := prefix0;
    ghost var digits, cells, v := digits0, cells0, v0;
    while prefix != NIL
      invariant Pending(Mem(h), prefix, digits, cells, n, v, all)
      invariant CellSet(cells) <= CellSet(cells0)
      invariant Attach(digits, v) == Attach(digits0, v0)
      invariant forall c: nat :: c < h.size && c !in CellSet(cells0) ==> h.car[c] == old(h.car[c])
      decreases digits
    {
      ghost var m := Mem(h);
      NextDigit(m, prefix, digits, cells, n, v, all);
      var d, temp := IntegerLo(h, prefix), prefix;
      prefix := IntegerHi(h, temp);
      if n == ZERO && d <= 255 {
        AbsorbDigit(m, temp, digits, cells, n, v, all);
        n := d + 1 + SMALL_INT_START;
      } else if n == NEG1 && d >= 0xFFFF {
        AbsorbDigit(m, temp, digits, cells, n, v, all);
        n := d - 0x1_0000 + 1 + SMALL_INT_START;
      } else {
        h.car[temp] := n;
        LinkDigit(m, Mem(h), temp, digits, cells, n, v, all);
        n := temp;
      }
      v := Join(digits[0], v);
      digits, cells := digits[1..], cells[1..];
    }
  }

  ghost predicate Ready(h: Heap)
    reads h, h.car, h.cdr, h.typ, h.mark, h.flip
  {
    Usable(h) && h.Valid()
  }

  /** What an operation that works with the first temporary must not touch. */
  ghost function Kept(h: Heap): set<nat>
    requires h.Shape()
    reads h, h.car, h.cdr, h.typ
  {
    Live(h.Graph(), h.RootsPast1())
  }

  /** What an operation starts from: the memory, the cells it has to keep, and
      those of its operands, which its result may share. */
  datatype Job = Job(m: Memory, kept: set<nat>, shared: set<nat>)

  ghost function JobFor(h: Heap, shared: set<nat>): Job
    requires Usable(h)
    reads h, h.car, h.cdr, h.typ
  {
    Job(Mem(h), Kept(h), shared)
  }

  ghost predicate Keeping(h: Heap, j: Job)
    reads h, h.car, h.cdr, h.typ, h.mark, h.flip
  {
    && Ready(h)
    && Sound(j.m)
    && j.shared <= j.kept
    && Kept(h) == j.kept
    && SameKept(j.m, Mem(h), j.kept)
  }

  /** The first temporary holds the digits produced so far, last one first. */
  ghost predicate Working(h: Heap, j: Job, digits: seq<nat>, cells: seq<nat>)
    reads h, h.car, h.cdr, h.typ, h.mark, h.flip
  {
    Keeping(h, j) && Prefix(Mem(h), h.tmp1, digits, cells, j.kept)
  }

  /** x holds v in cells none of which is free, or kept but for sharing. */
  ghost predicate Made(h: Heap, j: Job, x: nat, v: int)
    requires Usable(h)
    reads h, h.car, h.cdr, h.typ
  {
    && Holds(Mem(h), x, v)
    && Cells(Mem(h), x, v) !! h.FreeSet()
    && Cells(Mem(h), x, v) * j.kept <= j.shared
  }

  /** The operation is over: x holds v, and nothing it had to keep has changed. */
  ghost predicate Finished(h: Heap, j: Job, x: nat, v: int)
    reads h, h.car, h.cdr, h.typ, h.mark, h.flip
  {
    Keeping(h, j) && h.tmp1 == NIL && Made(h, j, x, v)
  }

  /** x is an operand of value v, in the memory the operation started from. */
  ghost predicate Takes(j: Job, x: nat, v: int)
    requires Sound(j.m)
  {
    IsOperand(j.m, x, v, j.shared)
  }

  lemma DeadApart(h: Heap)
    requires h.Valid()
    ensures h.FreeSet() !! h.LiveCells()
    ensures Kept(h) <= h.LiveCells()
    ensures h.tmp1 in h.Roots()
    ensures h.tmp1 < h.size ==> h.tmp1 in h.LiveCells()
  {
    WithIs(h.RootsPast1(), h.tmp1);
    LiveIsClosed(h.Graph(), h.Roots());
    LiveWithRoot(h.Graph(), h.RootsPast1(), h.tmp1);
  }

  /** No free cell can be got to from x. */
  ghost predicate Safe(h: Heap, x: nat)
    requires h.Shape()
    reads h, h.car, h.cdr, h.typ
  {
    h.FreeSet() !! Live(h.Graph(), {x})
  }

  lemma AtomIsSafe(h: Heap, x: nat)
    requires h.Shape() && x >= h.size
    ensures Safe(h, x)
  {
    LiveIsLeast(h.Graph(), {x}, {});
  }

  method SetTmp1(h: Heap, x: nat)
    requires h.Valid() && Safe(h, x)
    modifies h`tmp1
    ensures h.Valid() && h.tmp1 == x
    ensures Kept(h) == old(Kept(h))
  {
    DeadApart(h);
    h.tmp1 := x;
    LiveWithRoot(h.Graph(), h.RootsPast1(), x);
  }

  /** The first temporary gives up its digits. */
  method StartDigits(h: Heap, ghost shared: set<nat>)
    requires Ready(h) && shared <= Kept(h)
    modifies h`tmp1
    ensures Working(h, old(JobFor(h, shared)), [], [])
  {
    AtomIsSafe(h, NIL);
    SetTmp1(h, NIL);
  }

  /** A fresh digit cell p in front of an atom or of what some root holds leads
      to nothing new. */
  lemma FreshDigit(g: Graph, roots: set<nat>, high: nat, p: nat, dead: set<nat>)
    requires WellShaped(g) && p < |g.car| && g.typ[p] == BIGNUM_TYPE && g.car[p] == high
    requires dead !! Live(g, roots) && p !in dead && (high in roots || high >= |g.car|)
    ensures dead !! Live(g, {p})
  {
    LiveIsClosed(g, roots);
    LiveIsLeast(g, {p}, Live(g, roots) + {p});
  }

  lemma PushedDigit(j: Job, m: Memory, m': Memory, p: nat, d: nat, old1: nat, digits: seq<nat>, cells: seq<nat>,
      live: set<nat>)
    requires Sound(j.m) && Sound(m) && Sound(m') && SameKept(j.m, m, j.kept) && SameKept(m, m', live)
    requires j.kept <= live && Closed(m.g, live)
    requires Prefix(m, old1, digits, cells, j.kept) && (old1 < |m.g.car| ==> old1 in live)
    requires InRam(m', p) && p !in live && m'.g.typ[p] == BIGNUM_TYPE && m'.g.cdr[p] == d && IsDigit(d)
             && m'.g.car[p] == old1
    ensures SameKept(j.m, m', j.kept)
    ensures Prefix(m', p, [d] + digits, [p] + cells, j.kept)
  {
    PrefixInClosed(m, old1, digits, cells, j.kept, live);
    PrefixFrame(m, m', old1, digits, cells, j.kept, j.kept);
    assert ([d] + digits)[1..] == digits && ([p] + cells)[1..] == cells;
  }

  /** A digit cell in front of an integer or a list. */
  method NewDigit(h: Heap, d: int, high: nat) returns (r: Option<nat>)
    requires Ready(h) && (high in h.Roots() || high >= h.size)
    modifies h.car, h.cdr, h.typ, h.mark, h.flip, h.vectorUsed, h`freeCells, h`freeCount, h`usedCount, h`free
    ensures Ready(h) && SameKept(old(Mem(h)), Mem(h), old(h.LiveCells()))
    ensures Kept(h) == old(Kept(h)) && h.LiveCells() == old(h.LiveCells())
    ensures r.Some? ==>
            InRam(Mem(h), r.value) && r.value !in old(h.LiveCells()) && r.value !in h.FreeSet() && Safe(h, r.value)
    ensures r.Some? ==> h.typ[r.value] == BIGNUM_TYPE && h.car[r.value] == high && h.cdr[r.value] == Low(d)
    ensures r.None? ==> h.Room() == {}
  {
    ghost var g := h.Graph();
    LiveWithRoot(g, h.RootsPast1(), h.tmp1);
    r := h.NewBignum(d, high);
    LiveUnchanged(g, h.Graph(), h.RootsPast1());
    if r.Some? {
      DeadApart(h);
      FreshDigit(h.Graph(), h.Roots(), high, r.value, h.FreeSet());
    }
  }

  /** One more digit in front of those the first temporary holds. The cell may
      come from a collection. */
  method PushDigit(h: Heap, d: nat, ghost j: Job, ghost digits: seq<nat>, ghost cells: seq<nat>)
    returns (r: Option<nat>, ghost cells': seq<nat>)
    requires IsDigit(d) && Working(h, j, digits, cells)
    modifies h.car, h.cdr, h.typ, h.mark, h.flip, h.vectorUsed, h`freeCells, h`freeCount, h`usedCount, h`free, h`tmp1
    ensures r.Some? ==> Working(h, j, [d] + digits, cells')
    ensures r.None? ==> h.Room() == {}
  {
    ghost var m, live, old1 := Mem(h), h.LiveCells(), h.tmp1;
    DeadApart(h);
    LiveIsClosed(m.g, h.Roots());
    cells' := [];
    var p :- NewDigit(h, d, h.tmp1);
    PushedDigit(j, m, Mem(h), p, d, old1, digits, cells, live);
    SetTmp1(h, p);
    r := Some(p);
    cells' := [p] + cells;
  }

  lemma PrefixApart(h: Heap, j: Job, digits: seq<nat>, cells: seq<nat>)
    requires Working(h, j, digits, cells)
    ensures CellSet(cells) !! j.kept && CellSet(cells) !! h.FreeSet() && j.kept !! h.FreeSet()
    ensures CellSet(cells) <= h.LiveCells()
  {
    DeadApart(h);
    LiveIsClosed(h.Graph(), h.Roots());
    PrefixInClosed(Mem(h), h.tmp1, digits, cells, j.kept, h.LiveCells());
  }

  /** Writing links of cells that are not kept, and clearing the temporary. */
  lemma LinksWritten(h: Heap, j: Job, m: Memory, written: set<nat>)
    requires Usable(h) && h.Tidy() && h.tmp1 == NIL
    requires Sound(j.m) && Sound(m) && SameKept(j.m, m, j.kept) && j.shared <= j.kept
    requires j.kept == Live(m.g, h.RootsPast1()) && j.kept !! h.FreeSet() && j.kept !! written
    requires m.reserved == h.reserved && m.rom == h.rom && |m.g.car| == h.size && m.g.cdr == h.cdr[..]
             && m.g.typ == h.typ[..]
    requires forall c: nat :: c < h.size && c !in written ==> h.car[c] == m.g.car[c]
    ensures Keeping(h, j)
  {
    var g := h.Graph();
    assert Agree(m.g, g, j.kept);
    LiveUnchanged(m.g, g, h.RootsPast1());
    LiveWithRoot(g, h.RootsPast1(), NIL);
    LiveIsLeast(g, {NIL}, {});
  }

  /** Normalizes the digits of the first temporary below an integer, and clears
      the temporary. */
  method TakeNorm(h: Heap, n: nat, ghost v: int, ghost j: Job, ghost digits: seq<nat>, ghost cells: seq<nat>)
    returns (r: nat)
    requires Working(h, j, digits, cells)
    requires Usable(h) && Made(h, j, n, v) && Cells(Mem(h), n, v) !! CellSet(cells)
    modifies h.car, h`tmp1
    ensures Finished(h, j, r, Attach(digits, v))
  {
    PrefixApart(h, j, digits, cells);
    ghost var m := Mem(h);
    ghost var all := Cells(m, n, v) + CellSet(cells);
    PrefixFrame(m, m, h.tmp1, digits, cells, j.kept, {});
    h.tmp1 := Norm(h, h.tmp1, n, digits, cells, v, all);
    r := h.tmp1;
    h.tmp1 := NIL;
    LinksWritten(h, j, m, CellSet(cells));
  }

  lemma OperandIsMade(h: Heap, j: Job, x: nat, v: int)
    requires Keeping(h, j) && Takes(j, x, v)
    ensures Made(h, j, x, v) && Cells(Mem(h), x, v) <= j.shared
  {
    DeadApart(h);
    OperandLater(j.m, Mem(h), x, v, j.shared);
  }

  /** The same below an operand. */
  method EndWith(h: Heap, x: nat, ghost v: int, ghost j: Job, ghost digits: seq<nat>, ghost cells: seq<nat>)
    returns (r: nat)
    requires Sound(j.m) && Working(h, j, digits, cells) && Takes(j, x, v)
    modifies h.car, h`tmp1
    ensures Finished(h, j, r, Attach(digits, v))
  {
    hide Finished, Takes, Attach;
    OperandIsMade(h, j, x, v);
    PrefixApart(h, j, digits, cells);
    r := TakeNorm(h, x, v, j, digits, cells);
  }

  /** Reading an operand in the middle of an operation. */
  lemma ReadOperand(h: Heap, x: nat, v: int, j: Job, digits: seq<nat>, cells: seq<nat>)
    requires Sound(j.m) && Working(h, j, digits, cells) && Takes(j, x, v)
    ensures Usable(h)
    ensures IntegerLo(h, x) == Low(v) && Takes(j, IntegerHi(h, x), High(v))
    ensures x == ZERO <==> v == 0
    ensures x == NEG1 <==> v == -1
    ensures v != 0 && v != -1 ==> Magnitude(High(v)) < Magnitude(v)
  {
    TakeApart(j.m, Mem(h), x, v, j.shared);
  }

  lemma CodedOperand(j: Job, v: int)
    requires Sound(j.m) && IsSmall(v)
    ensures Takes(j, Encode(v), v)
  {
  }
}
