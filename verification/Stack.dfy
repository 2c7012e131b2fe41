/** The evaluation stack: a list of pairs held by env. Popping gives its cell
    straight back to the free list. */
module Stack {
  import opened VmArch
  import opened Wrappers
  import opened Marking
  import opened Sweeping
  import opened Integers
  import opened MemoryManagement
  import opened Digits
  import opened Temporaries

  /** A cell goes to the front of the free list. */
  method ReturnToFreeList(h: Heap, p: nat)
    requires h.Shape() && h.Tidy() && h.reserved <= p < h.size && p !in h.free
    modifies h.typ, h.cdr, h`freeCells, h`free
    ensures h.Tidy() && h.free == [p] + old(h.free)
    ensures h.typ[..] == old(h.typ[..])[p := CONS_TYPE] && h.cdr[..] == old(h.cdr[..])[p := old(h.freeCells)]
  {
    ghost var cdr0 := h.cdr[..];
    h.typ[p] := CONS_TYPE;
    h.cdr[p] := h.freeCells;
    ChainFrame(cdr0, h.cdr[..], h.freeCells, h.free);
    h.freeCells := p;
    h.free := [p] + h.free;
    assert h.free[1..] == old(h.free);
  }

  /** Rewriting a cell keeps it out of what the roots lead to, or keeps it in. */
  lemma RewrittenCell(g: Graph, g': Graph, roots: set<nat>, f: nat)
    requires WellShaped(g) && WellShaped(g') && |g.car| == |g'.car|
    requires forall c: nat :: c < |g.car| && c != f ==>
             g.car[c] == g'.car[c] && g.cdr[c] == g'.cdr[c] && g.typ[c] == g'.typ[c]
    ensures f in Live(g', roots) <==> f in Live(g, roots)
    ensures f !in Live(g, roots) ==> Live(g', roots) == Live(g, roots)
  {
    if f !in Live(g, roots) {
      LiveUnchanged(g, g', roots);
    }
    if f !in Live(g', roots) {
      LiveUnchanged(g', g, roots);
    }
  }

  /** With f back on the free list, the heap is sound exactly when no root led to
      it any more. */
  lemma SoundExactlyWhen(h: Heap, g: Graph, roots: set<nat>, f: nat, free: seq<nat>)
    requires h.Shape() && h.Tidy() && h.free == [f] + free && f < h.size
    requires WellShaped(g) && |g.car| == h.size && Live(g, h.Roots()) <= Live(g, roots) && forall c :: c in free ==>
             c !in Live(g, roots)
    requires forall c: nat :: c < h.size && c != f ==>
             h.car[c] == g.car[c] && h.cdr[c] == g.cdr[c] && h.typ[c] == g.typ[c]
    ensures h.Valid() <==> f !in Live(g, h.Roots())
    ensures h.Valid() ==> Agree(g, h.Graph(), h.LiveCells())
  {
    RewrittenCell(g, h.Graph(), h.Roots(), f);
    assert f in h.FreeSet();
    assert forall c :: c in h.FreeSet() ==> c == f || c in free;
  }

  lemma AgreesWithItself(h: Heap)
    requires h.Valid()
    ensures Agree(h.Graph(), h.Graph(), h.LiveCells())
  {
  }

  lemma TopIsHeld(h: Heap)
    requires h.Valid() && h.env < h.size
    ensures h.Shape() && h.Tidy() && h.env !in h.free && forall c :: c in h.free ==>
            c !in Live(h.Graph(), h.RootsIf(h.env))
  {
    h.RootsAre();
    LiveIsClosed(h.Graph(), h.Roots());
    assert h.env in h.FreeSet() <==> h.env in h.free;
    assert forall c :: c in h.free ==> c in h.FreeSet();
  }

  /** Takes the top value. The heap stays sound exactly when the cell popped was
      held by the stack alone. */
  method Pop(h: Heap) returns (p: nat)
    requires h.Valid()
    requires h.env == NIL || (h.reserved <= h.env < h.size && h.typ[h.env] == CONS_TYPE)
    modifies h.typ, h.cdr, h`freeCells, h`free, h`env
    ensures old(h.env) == NIL ==>
            p == NIL && h.Valid() && h.Graph() == old(h.Graph()) && h.env == NIL && h.free == old(h.free)
    ensures old(h.env) != NIL ==>
              && p == old(h.car[h.env]) && h.env == old(h.cdr[h.env]) && h.free == [old(h.env)] + old(h.free)
              && (forall c: nat :: c < h.size && c != old(h.env) ==>
                h.cdr[c] == old(h.cdr[c]) && h.typ[c] == old(h.typ[c]))
    ensures old(h.env) != NIL ==>
              (h.Valid() <==> old(h.env) !in Live(old(h.Graph()), h.RootsIf(h.env)))
    ensures h.Valid() ==> Agree(old(h.Graph()), h.Graph(), h.LiveCells())
  {
    hide Heap.Valid, Agree, Heap.Tidy;
    if h.env == NIL {
      AgreesWithItself(h);
      return NIL;
    }
    TopIsHeld(h);
    ghost var g := h.Graph();
    p := h.car[h.env];
    var f := h.env;
    h.env := h.cdr[h.env];
    ghost var free := h.free;
    ReturnToFreeList(h, f);
    h.RootsAre();
    assert Edge(g, f, h.env) || h.env >= h.size;
    LiveAfterPop(g, h.RootsIf(f), h.Roots(), f, h.env);
    SoundExactlyWhen(h, g, h.RootsIf(f), f, free);
  }

  /** Following one of a cell's links finds nothing the cell did not lead to. */
  lemma LiveAfterPop(g: Graph, roots: set<nat>, roots': set<nat>, f: nat, next: nat)
    requires WellShaped(g) && f in roots && f < |g.car| && roots' <= roots + {next}
    requires next < |g.car| ==> Edge(g, f, next)
    ensures Live(g, roots') <= Live(g, roots)
  {
    LiveIsClosed(g, roots);
    LiveIsLeast(g, roots', Live(g, roots));
  }

  /** A fresh pair of live things leads to no free cell. */
  lemma FreshPairIsSafe(h: Heap, p: nat)
    requires h.Valid() && p < h.size && p !in h.free && h.typ[p] == CONS_TYPE
    requires h.car[p] in h.LiveCells() || h.car[p] >= h.size
    requires h.cdr[p] in h.LiveCells() || h.cdr[p] >= h.size
    ensures Safe(h, p)
  {
    LiveIsClosed(h.Graph(), h.Roots());
    LiveIsLeast(h.Graph(), {p}, h.LiveCells() + {p});
  }

  lemma EnvIsLive(h: Heap)
    requires h.Shape()
    ensures h.env in h.LiveCells() || h.env >= h.size
  {
    h.RootsAre();
    LiveIsClosed(h.Graph(), h.Roots());
  }

  /** Puts a value on the stack. The new pair may take a collection, which the
      caller's value must survive; the new cell is held by the stack alone. */
  method Push(h: Heap, v: nat) returns (r: Option<nat>)
    requires h.Valid() && (v in h.LiveCells() || v >= h.size)
    modifies h.car, h.cdr, h.typ, h.mark, h.flip, h.vectorUsed, h`freeCells, h`freeCount, h`usedCount, h`free, h`env
    ensures r.Some? ==>
              && h.Valid() && h.reserved <= h.env < h.size && h.typ[h.env] == CONS_TYPE
              && h.car[h.env] == v && h.cdr[h.env] == old(h.env)
              && h.env !in Live(h.Graph(), h.RootsIf(old(h.env)))
    ensures Agree(old(h.Graph()), h.Graph(), old(h.LiveCells()))
    ensures r.None? <==> old(h.Room()) == {}
  {
    hide Agree, Safe;
    EnvIsLive(h);
    h.RootsAre();
    var p :- h.NewPair(v, h.env);
    FreshPairIsSafe(h, p);
    SetEnv(h, p);
    r := Some(p);
  }
}
