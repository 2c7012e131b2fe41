/** The memory manager: allocation of RAM cells from a free list, marking by
    pointer reversal, and sweeping. */
module MemoryManagement {
  import opened VmArch
  import opened Wrappers
  import Marking
  import opened Sweeping
  import opened Integers

  ghost function MarkedCells(mark: seq<bool>): set<nat> {
    set c: nat | c < |mark| && mark[c]
  }

  ghost predicate AllClear(bits: seq<bool>) {
    forall c :: 0 <= c < |bits| ==> !bits[c]
  }

  class Heap {
    const size: nat          // number of RAM cells
    const reserved: nat      // cells holding the global variables
    const car: array<nat>
    const cdr: array<nat>
    const typ: array<nat>
    const mark: array<bool>
    const flip: array<bool>
    const vectorUsed: array<bool>   // one bit for each cell of the vector space
    const rom: seq<RomCell>         // constants of the program, never written
    var freeCells: nat
    var usedCount: nat
    var freeCount: nat
    ghost var free: seq<nat>

    // Registers of the virtual machine, and the temporaries of the big
    // integer operations. All of them are roots.
    var reg1: nat
    var reg2: nat
    var reg3: nat
    var reg4: nat
    var cont: nat
    var env: nat
    var tmp1: nat
    var tmp2: nat
    var tmp3: nat
    var tmp4: nat
    var tmp5: nat

    ghost predicate Shape() {
      && car.Length == cdr.Length == typ.Length == mark.Length == flip.Length == size
      && reserved < size < ROM_START
      && car != cdr && car != typ && cdr != typ
      && mark != flip && mark != vectorUsed && flip != vectorUsed
    }

    ghost predicate IsGlobal(c: nat) { c < reserved }

    ghost function Globals(): set<nat> {
      set c: nat | c < size && IsGlobal(c)
    }

    /** The roots of the machine itself. */
    ghost function Registers(): set<nat>
      reads this
    {
      With(With(With(With(With(With(Globals(), reg1), reg2), reg3), reg4), cont), env)
    }

    /** The roots an operation that works with the first temporaries leaves
        alone. */
    ghost function RootsPast4(): set<nat>
      reads this
    {
      With(Registers(), tmp5)
    }

    ghost function RootsPast2(): set<nat>
      reads this
    {
      With(With(RootsPast4(), tmp4), tmp3)
    }

    ghost function RootsPast1(): set<nat>
      reads this
    {
      With(RootsPast2(), tmp2)
    }

    ghost function Roots(): set<nat>
      reads this
    {
      With(RootsPast1(), tmp1)
    }

    /** A vector cell knows where its bytes start, one past their header. */
    ghost predicate VectorsPlaced()
      requires Shape()
      reads cdr, typ
    {
      forall c :: reserved <= c < size && typ[c] == VECTOR_TYPE ==> 1 <= cdr[c] <= vectorUsed.Length
    }

    ghost function Graph(): (g: Graph)
      requires Shape()
      reads car, cdr, typ
      ensures WellShaped(g)
    {
      VmArch.Graph(car[..], cdr[..], typ[..])
    }

    /** Marks and flips are clear, and the free list is a list of distinct cells
        outside the globals. */
    ghost predicate Tidy()
      requires Shape()
      reads `freeCells, `free, cdr, typ, mark, flip
    {
      && AllClear(mark[..]) && AllClear(flip[..])
      && VectorsPlaced()
      && IsChain(cdr[..], freeCells, free)
      && Marking.Distinct(free)
      && forall c :: c in free ==> reserved <= c < size && typ[c] != VECTOR_TYPE
    }

    ghost function FreeSet(): set<nat>
      reads `free
    {
      CellSet(free)
    }

    ghost function LiveCells(): set<nat>
      requires Shape()
      reads this, car, cdr, typ
    {
      Live(Graph(), Roots())
    }

    ghost predicate Valid()
      reads this, car, cdr, typ, mark, flip
    {
      Shape() && Tidy() && FreeSet() !! LiveCells()
    }

    ghost predicate NothingHeld()
      reads this
    {
      reg1 == reg2 == reg3 == reg4 == cont == env == tmp1 == tmp2 == tmp3 == tmp4 == tmp5 == NIL
    }

    /** The memory of a program with the given number of global variables, two to
        a cell. The size is what the platform gave. */
    constructor (size: nat, globals: nat, vectorSize: nat, rom: seq<RomCell>)
      requires (globals + 1) / 2 < size < ROM_START
      ensures Started()
      ensures this.size == size && reserved == (globals + 1) / 2 && this.rom == rom && vectorUsed.Length == vectorSize
      ensures fresh({car, cdr, typ}) && fresh({mark, flip, vectorUsed})
    {
      this.size, reserved, this.rom := size, (globals + 1) / 2, rom;
      car, cdr, typ := new nat[size](_ => 0), new nat[size](_ => 0), new nat[size](_ => 0);
      mark, flip := new bool[size](_ => false), new bool[size](_ => false);
      vectorUsed := new bool[vectorSize](_ => false);
      freeCells, usedCount, freeCount, free := 0, 0, 0, [];
      reg1, reg2, reg3, reg4, cont, env := NIL, NIL, NIL, NIL, NIL, NIL;
      tmp1, tmp2, tmp3, tmp4, tmp5 := NIL, NIL, NIL, NIL, NIL;
      new;
      Start();
    }

    method Start()
      requires Shape() && AllClear(mark[..]) && AllClear(flip[..]) && NothingHeld()
      requires forall c: nat :: c < size ==> typ[c] == CONS_TYPE
      modifies car, cdr, typ, mark, vectorUsed, `freeCells, `freeCount, `free
      ensures Started()
    {
      SetGlobals();
      RootsAre();
      FirstFreeList();
    }

    /** Every cell is free but those of the globals, and nothing is held. */
    ghost predicate Started()
      reads this, car, cdr, typ, mark, flip
    {
      && Valid()
      && NothingHeld()
      && (forall c: nat :: c < reserved ==> car[c] == NIL && cdr[c] == NIL && typ[c] == CONS_TYPE)
      && LiveCells() == Globals()
      && Increasing(free) && (forall c: nat :: c in free <==> reserved <= c < size)
      && |free| + reserved == size
    }

    method SetGlobals()
      requires Shape()
      modifies car, cdr, typ
      ensures forall c: nat :: c < reserved ==> car[c] == NIL && cdr[c] == NIL && typ[c] == CONS_TYPE
      ensures forall c: nat :: reserved <= c < size ==> typ[c] == old(typ[c])
    {
      for i := 0 to reserved
        invariant forall c: nat :: c < i ==> car[c] == NIL && cdr[c] == NIL && typ[c] == CONS_TYPE
        invariant forall c: nat :: reserved <= c < size ==> typ[c] == old(typ[c])
      {
        typ[i] := CONS_TYPE;
        car[i] := NIL;
        cdr[i] := NIL;
      }
    }

    /** The first sweep, of a heap without vectors and with no roots but empty
        globals. */
    method FirstFreeList()
      requires Shape() && AllClear(mark[..]) && AllClear(flip[..]) && Roots() <= Globals() + {NIL}
               && Globals() <= Roots()
      requires forall c: nat :: c < size ==> typ[c] == CONS_TYPE
      requires forall c: nat :: c < reserved ==> car[c] == NIL && cdr[c] == NIL
      modifies cdr, typ, mark, vectorUsed, `freeCells, `freeCount, `free
      ensures Valid()
      ensures forall c: nat :: c < reserved ==> cdr[c] == NIL && typ[c] == CONS_TYPE
      ensures LiveCells() == Globals()
      ensures Increasing(free) && (forall c: nat :: c in free <==> reserved <= c < size)
      ensures |free| + reserved == size
    {
      Sweep();
      IncreasingIsDistinct(free);
      LiveIsClosed(Graph(), Roots());
      LiveIsLeast(Graph(), Roots(), Globals());
      FreeAndLiveFillTheHeap(size, Below(reserved), free);
    }

    /** The free list has as many cells as there are cells outside the globals. */
    method CheckFreeList(total: int) returns (ok: bool)
      requires Shape() && IsChain(cdr[..], freeCells, free)
      ensures ok <==> |free| + reserved == total
    {
      var count, next := total, freeCells;
      ghost var rest := free;
      while next != NIL
        invariant IsChain(cdr[..], next, rest) && count == total - |free| + |rest|
        decreases rest
      {
        count := count - 1;
        next := cdr[next];
        rest := rest[1..];
      }
      ok := count == reserved;
    }

    /** A marking run from root is at moment s. */
    ghost predicate Running(g: Graph, before: seq<bool>, root: nat, s: Marking.State, current: nat, prev: nat)
      requires Shape()
      reads this, car, cdr, typ, mark, flip
    {
      && g.typ == typ[..]
      && s.car == car[..] && s.cdr == cdr[..] && s.mark == mark[..] && s.flip == flip[..]
      && s.current == current && s.prev == prev
      && Marking.Inv(g, before, root, s)
      && usedCount == |MarkedCells(s.mark)|
    }

    /** Marks all that p leads to on top of what is marked already. */
    method Mark(p: nat)
      requires Shape()
      requires AllClear(flip[..])
      requires forall a: nat, b: nat :: Edge(Graph(), a, b) && mark[a] ==> mark[b]
      requires usedCount == |MarkedCells(mark[..])|
      modifies car, cdr, mark, flip, `usedCount
      ensures car[..] == old(car[..]) && cdr[..] == old(cdr[..])
      ensures AllClear(flip[..])
      ensures forall c :: 0 <= c < size ==> (mark[c] <==> old(mark[c]) || Reachable(Graph(), p, c))
      ensures forall a: nat, b: nat :: Edge(Graph(), a, b) && mark[a] ==> mark[b]
      ensures usedCount == |MarkedCells(mark[..])|
    {
      ghost var g, before := Graph(), mark[..];
      var current: nat, prev: nat := p, NIL;
      ghost var s := Marking.State(car[..], cdr[..], mark[..], flip[..], p, NIL, []);
      Marking.InvStart(g, before, flip[..], p);
      while true
        invariant Running(g, before, p, s, current, prev)
        decreases Marking.Work(s)
      {
        current, prev, s := GoDown(g, before, p, s, current, prev);
        current, prev, s := LeaveCrossed(g, before, p, s, current, prev);
        if prev >= size {
          break;
        }
        current, prev, s := Turn(g, before, p, s, current, prev);
      }
      Marking.InvFinish(g, before, p, s);
      assert Graph() == g;
    }

    /** The first inner loop: down the car links to a marked cell, a cell
        without links, or out of RAM. */
    method GoDown(ghost g: Graph, ghost before: seq<bool>, ghost root: nat, ghost s0: Marking.State, current0: nat,
        prev0: nat)
      returns (current: nat, prev: nat, ghost s: Marking.State)
      requires Shape() && Running(g, before, root, s0, current0, prev0)
      modifies car, mark, `usedCount
      ensures Running(g, before, root, s, current, prev)
      ensures Marking.Settled(g, s)
      ensures Marking.Work(s) <= Marking.Work(s0)
    {
      current, prev, s := current0, prev0, s0;
      while current < size && !mark[current]
        invariant Running(g, before, root, s, current, prev)
        invariant Marking.Work(s) <= Marking.Work(s0)
        decreases Marking.Work(s)
      {
        Marking.DescendKeepsInv(g, before, root, s);
        Marking.DescendWorks(g, before, root, s);
        CountOneMore(s.mark, current);
        s := Marking.Descend(g, s);
        mark[current] := true;
        usedCount := usedCount + 1;
        if HasLeftLink(typ[current]) {
          var next := car[current];
          car[current] := prev;
          prev := current;
          current := next;
        }
      }
    }

    /** The second inner loop: up through every cell already left by its cdr. */
    method LeaveCrossed(ghost g: Graph, ghost before: seq<bool>, ghost root: nat, ghost s0: Marking.State,
        current0: nat, prev0: nat)
      returns (current: nat, prev: nat, ghost s: Marking.State)
      requires Shape() && Running(g, before, root, s0, current0, prev0) && Marking.Settled(g, s0)
      modifies cdr, flip
      ensures Running(g, before, root, s, current, prev)
      ensures Marking.Settled(g, s)
      ensures prev < size ==> !flip[prev]
      ensures Marking.Work(s) <= Marking.Work(s0)
    {
      current, prev, s := current0, prev0, s0;
      while prev < size && flip[prev]
        invariant Running(g, before, root, s, current, prev)
        invariant Marking.Settled(g, s)
        invariant Marking.Work(s) <= Marking.Work(s0)
        decreases Marking.Work(s)
      {
        Marking.UpThroughCdrKeepsInv(g, before, root, s);
        s := Marking.UpThroughCdr(g, s);
        flip[prev] := false;
        var next := cdr[prev];
        cdr[prev] := current;
        current := prev;
        prev := next;
      }
    }

    /** The end of the outer loop: cross from car to cdr, or go up through
        every cell that has no right link. */
    method Turn(ghost g: Graph, ghost before: seq<bool>, ghost root: nat, ghost s0: Marking.State, current0: nat,
        prev0: nat)
      returns (current: nat, prev: nat, ghost s: Marking.State)
      requires Shape() && Running(g, before, root, s0, current0, prev0) && Marking.Settled(g, s0)
      requires prev0 < size && !flip[prev0]
      modifies car, cdr, flip
      ensures Running(g, before, root, s, current, prev)
      ensures Marking.Work(s) < Marking.Work(s0)
    {
      current, prev, s := current0, prev0, s0;
      if HasRightLink(typ[prev]) {
        Marking.CrossKeepsInv(g, before, root, s);
        s := Marking.Cross(g, s);
        var next := car[prev];
        car[prev] := current;
        flip[prev] := true;
        current := cdr[prev];
        cdr[prev] := next;
      } else {
        while prev < size && !HasRightLink(typ[prev])
          invariant Running(g, before, root, s, current, prev)
          invariant Marking.Settled(g, s)
          invariant s != s0 ==> Marking.Work(s) < Marking.Work(s0)
          decreases Marking.Work(s)
          modifies car
        {
          Marking.UpThroughCarKeepsInv(g, before, root, s);
          s := Marking.UpThroughCar(g, s);
          var next := car[prev];
          car[prev] := current;
          current := prev;
          prev := next;
        }
      }
    }
  
    /** Rebuilds the free list from the cells without a mark and clears all
        marks. */
    method Sweep()
      requires Shape() && VectorsPlaced()
      modifies cdr, typ, mark, vectorUsed, `freeCells, `freeCount, `free
      ensures AllClear(mark[..])
      ensures Swept(old(Graph()), old(mark[..]), old(vectorUsed[..]), reserved,
                    Work(mark[..], cdr[..], typ[..], vectorUsed[..], freeCells, free))
      ensures freeCount == |free|
    {
      hide Swept;
      freeCells, freeCount, free := NIL, 0, [];
      ghost var g, marks, used := Graph(), mark[..], vectorUsed[..];
      ghost var w := Work(marks, cdr[..], typ[..], used, NIL, []);
      var p: nat := size - 1;
      var more := true;
      SweepStarts(g, marks, used);
      while more
        invariant more ==> reserved <= p < size
        invariant !more && reserved > 0 ==> p == reserved - 1
        invariant Sweeping(g, marks, used, if more then p + 1 else reserved, w)
        decreases more, p
      {
        w := SweepCell(p, g, marks, used, w);
        more := p > reserved;
        p := if p == 0 then 0xFFFF else p - 1;
      }
      if reserved > 0 {
        ClearGlobals(p);
      }
      MarksDoNotMatter(g, marks, used, reserved, w, mark[..]);
    }

    /** The sweep has come down to lo. */
    ghost predicate Sweeping(g: Graph, marks: seq<bool>, used: seq<bool>, lo: nat, w: Work)
      reads this, mark, cdr, typ, vectorUsed
    {
      && w.mark == mark[..] && w.cdr == cdr[..] && w.typ == typ[..]
      && w.vectorUsed == vectorUsed[..] && w.head == freeCells && w.free == free
      && freeCount == |free|
      && Swept(g, marks, used, lo, w)
      && Cleared(marks, lo, w)
    }

    /** One turn of the sweep. */
    method SweepCell(p: nat, ghost g: Graph, ghost marks: seq<bool>, ghost used: seq<bool>, ghost w0: Work)
      returns (ghost w: Work)
      requires Shape() && p < size && Sweeping(g, marks, used, p + 1, w0)
      requires g.typ[p] == VECTOR_TYPE ==> 1 <= g.cdr[p] <= vectorUsed.Length
      modifies cdr, typ, mark, vectorUsed, `freeCells, `freeCount, `free
      ensures Sweeping(g, marks, used, p, w)
    {
      if mark[p] {
        KeepCell(g, marks, used, p + 1, w0);
        mark[p] := false;
        w := w0.(mark := w0.mark[p := false]);
      } else {
        FreeCell(g, marks, used, p + 1, w0);
        w := Freed(w0, p);
        Release(p, w0);
      }
    }

    method Release(p: nat, ghost w: Work)
      requires Shape() && p < size
      requires w == Work(mark[..], cdr[..], typ[..], vectorUsed[..], freeCells, free) && freeCount == |free|
      requires typ[p] == VECTOR_TYPE ==> 1 <= cdr[p] <= vectorUsed.Length
      modifies cdr, typ, vectorUsed, `freeCells, `freeCount, `free
      ensures Freed(w, p) == Work(mark[..], cdr[..], typ[..], vectorUsed[..], freeCells, free)
      ensures freeCount == |free|
    {
      if typ[p] == VECTOR_TYPE {
        vectorUsed[cdr[p] - 1] := false;
        typ[p] := CONS_TYPE;
      }
      cdr[p] := freeCells;
      freeCells := p;
      free := [p] + free;
      freeCount := freeCount + 1;
    }

    method ClearGlobals(start: nat)
      requires Shape() && start == reserved - 1
      modifies mark
      ensures forall c :: 0 <= c < size ==> mark[c] == (c >= reserved && old(mark[c]))
    {
      var p: nat, more := start, true;
      while more
        invariant if more then p < reserved else p == 0xFFFF
        invariant forall c :: 0 <= c < size ==> mark[c] == ((c >= reserved || (more && c <= p)) && old(mark[c]))
        decreases more, p
      {
        mark[p] := false;
        more := p > 0;
        p := if p == 0 then 0xFFFF else p - 1;
      }
    }
  
    /** What a collection needs: it does not rely on the free list. */
    ghost predicate Collectable()
      reads cdr, typ, mark, flip
    {
      Shape() && AllClear(mark[..]) && AllClear(flip[..]) && VectorsPlaced()
    }

    ghost predicate MarkedFrom(roots: set<nat>)
      requires Shape()
      reads this, car, cdr, typ, mark, flip
    {
      && AllClear(flip[..])
      && (forall c: nat :: c < size ==> (mark[c] <==> c in Live(Graph(), roots)))
      && usedCount == |MarkedCells(mark[..])|
    }

    /** Marks from one more root. */
    method MarkRoot(p: nat, ghost roots: set<nat>)
      requires Shape() && MarkedFrom(roots)
      modifies car, cdr, mark, flip, `usedCount
      ensures car[..] == old(car[..]) && cdr[..] == old(cdr[..])
      ensures MarkedFrom(With(roots, p))
    {
      LiveIsClosed(Graph(), roots);
      LiveWithRoot(Graph(), roots, p);
      ghost var g := Graph();
      Mark(p);
      assert Graph() == g;
      forall c: nat | c < size
        ensures mark[c] <==> c in Live(g, With(roots, p))
      {
        LiveIsReachable(g, p, c);
      }
    }

    method MarkAll()
      requires Collectable()
      modifies car, cdr, mark, flip, `usedCount
      ensures car[..] == old(car[..]) && cdr[..] == old(cdr[..])
      ensures MarkedFrom(Roots())
    {
      usedCount := 0;
      assert MarkedCells(mark[..]) == {};
      ghost var roots: set<nat> := {};
      LiveIsLeast(Graph(), {}, {});
      for i := 0 to reserved
        invariant car[..] == old(car[..]) && cdr[..] == old(cdr[..])
        invariant roots == set c: nat | c < i && IsGlobal(c)
        invariant MarkedFrom(roots)
      {
        MarkRoot(i, roots);
        WithIs(roots, i);
        roots := With(roots, i);
      }
      assert roots == Globals();
      MarkRegisters();
      AnyOrder(Registers(), tmp1, tmp2, tmp3, tmp4, tmp5);
      MarkTemporaries(Registers());
    }

    method MarkRegisters()
      requires Shape() && MarkedFrom(Globals())
      modifies car, cdr, mark, flip, `usedCount
      ensures car[..] == old(car[..]) && cdr[..] == old(cdr[..])
      ensures MarkedFrom(Registers())
    {
      ghost var roots := Globals();
      MarkRoot(reg1, roots); roots := With(roots, reg1);
      MarkRoot(reg2, roots); roots := With(roots, reg2);
      MarkRoot(reg3, roots); roots := With(roots, reg3);
      MarkRoot(reg4, roots); roots := With(roots, reg4);
      MarkRoot(cont, roots); roots := With(roots, cont);
      MarkRoot(env, roots);
    }

    /** The temporaries of the big integer operations are roots too. */
    method MarkTemporaries(ghost fixed: set<nat>)
      requires Shape() && MarkedFrom(fixed)
      modifies car, cdr, mark, flip, `usedCount
      ensures car[..] == old(car[..]) && cdr[..] == old(cdr[..])
      ensures MarkedFrom(With(With(With(With(With(fixed, tmp1), tmp2), tmp3), tmp4), tmp5))
    {
      MarkRoot(tmp1, fixed);
      MarkRoot(tmp2, With(fixed, tmp1));
      MarkRoot(tmp3, With(With(fixed, tmp1), tmp2));
      MarkRoot(tmp4, With(With(With(fixed, tmp1), tmp2), tmp3));
      MarkRoot(tmp5, With(With(With(With(fixed, tmp1), tmp2), tmp3), tmp4));
    }

    /** A collection, whatever the free list was. Live cells keep their
        contents, all other cells make up the new free list, and nothing is
        lost between the two. */
    method Gc()
      requires Collectable()
      modifies car, cdr, typ, mark, flip, vectorUsed, `freeCells, `freeCount, `usedCount, `free
      ensures Valid()
      ensures car[..] == old(car[..])
      ensures Agree(old(Graph()), Graph(), old(LiveCells()))
      ensures LiveCells() == old(LiveCells())
      ensures Increasing(free)
      ensures forall c: nat :: c in free <==> c < size && c !in LiveCells()
      ensures usedCount == |LiveCells()| && freeCount == |free| && usedCount + freeCount == size
      ensures forall b :: 0 <= b < vectorUsed.Length ==>
                vectorUsed[b] == (old(vectorUsed[b]) && !DeadVectorOwns(old(Graph()), old(LiveCells()), b))
    {
      ghost var g := Graph();
      MarkAll();
      assert Graph() == g;
      LiveIsClosed(g, Roots());
      assert MarkedCells(mark[..]) == LiveCells();
      Reclaim();
      FreeAndLiveFillTheHeap(size, LiveCells(), free);
    }

    /** The roots, if env were e. */
    ghost function RootsIf(e: nat): set<nat>
      reads this
    {
      Globals() + {reg1, reg2, reg3, reg4, cont, e} + {tmp1, tmp2, tmp3, tmp4, tmp5}
    }

    lemma RegistersAre()
      ensures Registers() == Globals() + {reg1, reg2, reg3, reg4, cont, env}
    {
      var r1 := With(Globals(), reg1);
      var r2 := With(r1, reg2);
      var r3 := With(r2, reg3);
      var r4 := With(r3, reg4);
      WithIs(Globals(), reg1);
      WithIs(r1, reg2);
      WithIs(r2, reg3);
      WithIs(r3, reg4);
      WithIs(r4, cont);
      WithIs(With(r4, cont), env);
    }

    lemma RootsAre()
      ensures Roots() == RootsIf(env)
    {
      RegistersAre();
      WithIs(Registers(), tmp5);
      WithIs(RootsPast4(), tmp4);
      WithIs(With(RootsPast4(), tmp4), tmp3);
      WithIs(RootsPast2(), tmp2);
      WithIs(RootsPast1(), tmp1);
    }

    lemma GlobalsAreRoots()
      requires Shape()
      ensures forall c: nat :: c < reserved ==> c in Roots()
    {
      RootsAre();
      assert forall c: nat :: c < reserved ==> IsGlobal(c);
    }

    /** The sweep that follows marking from every root. */
    method Reclaim()
      requires Shape() && VectorsPlaced() && MarkedFrom(Roots())
      modifies cdr, typ, mark, vectorUsed, `freeCells, `freeCount, `free
      ensures Valid()
      ensures Agree(old(Graph()), Graph(), old(LiveCells()))
      ensures LiveCells() == old(LiveCells())
      ensures Increasing(free)
      ensures forall c: nat :: c in free <==> c < size && c !in LiveCells()
      ensures freeCount == |free|
      ensures forall b :: 0 <= b < vectorUsed.Length ==>
                vectorUsed[b] == (old(vectorUsed[b]) && !DeadVectorOwns(old(Graph()), old(LiveCells()), b))
    {
      ghost var g, live, used, marks := Graph(), LiveCells(), vectorUsed[..], mark[..];
      assert forall c: nat :: c < reserved ==> c in live by {
        LiveIsClosed(g, Roots());
        GlobalsAreRoots();
      }
      Sweep();
      ghost var w := Work(mark[..], cdr[..], typ[..], vectorUsed[..], freeCells, free);
      SweptLeavesTheDead(g, marks, used, reserved, w, live);
      IncreasingIsDistinct(free);
      LiveUnchanged(g, Graph(), Roots());
    }

    /** A cell that can be written without harm: no root leads to it and the
        free list does not hold it. */
    ghost predicate Spare(p: nat)
      requires Shape()
      reads this, car, cdr, typ
    {
      reserved <= p < size && p !in LiveCells() && p !in free
    }

    /** The live cells are still those of an earlier heap, and unchanged. */
    ghost predicate Keeps(g: Graph, live: set<nat>)
      requires WellShaped(g)
      reads this, car, cdr, typ, mark, flip
    {
      Valid() && Agree(g, Graph(), live) && LiveCells() == live
    }

    /** The cells no root leads to. */
    ghost function Room(): set<nat>
      reads this, car, cdr, typ
    {
      if Shape() then set c: nat | c < size && c !in LiveCells() else {}
    }

    /** Hands out a cell, after a collection when the free list is empty. The
        fatal stop comes exactly when every cell is live. */
    method NewRamCell() returns (r: Option<nat>)
      requires Valid()
      modifies car, cdr, typ, mark, flip, vectorUsed, `freeCells, `freeCount, `usedCount, `free
      ensures Keeps(old(Graph()), old(LiveCells()))
      ensures r.Some? ==> Spare(r.value) && typ[r.value] != VECTOR_TYPE
      ensures r.None? <==> Room() == {}
      ensures old(free) != [] ==> Graph() == old(Graph()) && r == Some(old(free)[0]) && free == old(free)[1..]
    {
      if freeCells == NIL {
        Gc();
        if freeCells == NIL {
          return None;
        }
      }
      var p := TakeFirst();
      assert p in Room();
      r := Some(p);
    }

    method TakeFirst() returns (p: nat)
      requires Valid() && free != []
      modifies `freeCells, `free
      ensures Valid() && Spare(p) && typ[p] != VECTOR_TYPE
      ensures p == old(free[0]) && free == old(free[1..])
    {
      p := freeCells;
      DistinctTail(free);
      freeCells := cdr[freeCells];
      free := free[1..];
    }

    /** Gives a spare cell its contents. */
    method Fill(p: nat, t: nat, a: nat, d: nat)
      requires Valid() && Spare(p) && t != VECTOR_TYPE
      modifies car, cdr, typ
      ensures Keeps(old(Graph()), old(LiveCells()))
      ensures Spare(p) && typ[p] == t && car[p] == a && cdr[p] == d
    {
      ghost var g := Graph();
      typ[p] := t;
      car[p] := a;
      cdr[p] := d;
      ChainFrame(g.cdr, cdr[..], freeCells, free);
      LiveUnchanged(g, Graph(), Roots());
    }

    method NewCell(t: nat, a: nat, d: nat) returns (r: Option<nat>)
      requires Valid() && t != VECTOR_TYPE
      modifies car, cdr, typ, mark, flip, vectorUsed, `freeCells, `freeCount, `usedCount, `free
      ensures Keeps(old(Graph()), old(LiveCells()))
      ensures r.Some? ==> Spare(r.value) && typ[r.value] == t && car[r.value] == a && cdr[r.value] == d
      ensures r.None? <==> Room() == {}
    {
      var p :- NewRamCell();
      Fill(p, t, a, d);
      return Some(p);
    }

    method NewPair(first: nat, rest: nat) returns (r: Option<nat>)
      requires Valid()
      modifies car, cdr, typ, mark, flip, vectorUsed, `freeCells, `freeCount, `usedCount, `free
      ensures Keeps(old(Graph()), old(LiveCells()))
      ensures r.Some? ==> Spare(r.value) && typ[r.value] == CONS_TYPE && car[r.value] == first && cdr[r.value] == rest
      ensures r.None? <==> Room() == {}
    {
      r := NewCell(CONS_TYPE, first, rest);
    }

    /** The number part is a 16-bit field. */
    method NewBignum(value: int, high: nat) returns (r: Option<nat>)
      requires Valid()
      modifies car, cdr, typ, mark, flip, vectorUsed, `freeCells, `freeCount, `usedCount, `free
      ensures Keeps(old(Graph()), old(LiveCells()))
      ensures r.Some? ==>
              Spare(r.value) && typ[r.value] == BIGNUM_TYPE && car[r.value] == high && cdr[r.value] == value % 0x1_0000
      ensures r.None? <==> Room() == {}
    {
      r := NewCell(BIGNUM_TYPE, high, value % 0x1_0000);
    }
  }

  lemma AnyOrder(roots: set<nat>, a: nat, b: nat, c: nat, d: nat, e: nat)
    ensures With(With(With(With(With(roots, a), b), c), d), e) == With(With(With(With(With(roots, e), d), c), b), a)
  {
    assert Key(0);
    WithIs(roots, a); WithIs(With(roots, a), b); WithIs(With(With(roots, a), b), c);
    WithIs(With(With(With(roots, a), b), c), d); WithIs(With(With(With(With(roots, a), b), c), d), e);
    WithIs(roots, e); WithIs(With(roots, e), d); WithIs(With(With(roots, e), d), c);
    WithIs(With(With(With(roots, e), d), c), b); WithIs(With(With(With(With(roots, e), d), c), b), a);
  }

  lemma SomeMember(cells: seq<nat>)
    ensures cells == [] || exists c: nat :: c in cells
  {
    if cells != [] {
      assert cells[0] in cells;
    }
  }

  lemma {:induction false} FreeAndLiveFillTheHeap(size: nat, live: set<nat>, free: seq<nat>)
    requires Increasing(free) && forall c :: c in live ==> c < size
    requires forall c: nat :: c in free <==> c < size && c !in live
    ensures |live| + |free| == size
  {
    if size == 0 {
      SomeMember(free);
      assert live == {};
    } else if size - 1 in live {
      FreeAndLiveFillTheHeap(size - 1, live - {size - 1}, free);
    } else {
      var last := |free| - 1;
      assert size - 1 in free;
      assert free[last] in free;
      assert free == free[..last] + [free[last]];
      FreeAndLiveFillTheHeap(size - 1, live, free[..last]);
    }
  }

  ghost function Below(n: nat): (cells: set<nat>)
    ensures |cells| == n && forall c: nat :: c in cells <==> c < n
  {
    if n == 0 then {} else Below(n - 1) + {n - 1}
  }

  lemma CountOneMore(mark: seq<bool>, c: nat)
    requires c < |mark| && !mark[c]
    ensures |MarkedCells(mark[c := true])| == |MarkedCells(mark)| + 1
  {
    assert MarkedCells(mark[c := true]) == MarkedCells(mark) + {c};
  }
}
