/** What the sweep has done when it has come down to some cell. */
module Sweeping {
  import opened VmArch
  import opened Marking

  /** The cells form the chain of cdr links that starts at head. */
  ghost predicate IsChain(cdr: seq<nat>, head: nat, cells: seq<nat>)
    decreases cells
  {
    if cells == [] then
      head == NIL
    else
      head == cells[0] && head < |cdr| && IsChain(cdr, cdr[head], cells[1..])
  }

  ghost predicate Increasing(cells: seq<nat>) {
    forall i, j :: 0 <= i < j < |cells| ==> cells[i] < cells[j]
  }

  /** Some unmarked vector cell from lo up owns vector block b. */
  ghost predicate LosesHead(g: Graph, mark: seq<bool>, lo: nat, b: int)
    requires WellShaped(g) && |mark| == |g.car|
  {
    exists c: nat :: lo <= c < |mark| && !mark[c] && g.typ[c] == VECTOR_TYPE && g.cdr[c] == b + 1
  }

  lemma {:induction false} ChainFrame(cdr: seq<nat>, cdr': seq<nat>, head: nat, cells: seq<nat>)
    requires IsChain(cdr, head, cells) && |cdr'| == |cdr|
    requires forall c :: c in cells && c < |cdr| ==> cdr'[c] == cdr[c]
    ensures IsChain(cdr', head, cells)
    decreases cells
  {
    if cells != [] {
      ChainFrame(cdr, cdr', cdr[head], cells[1..]);
    }
  }

  lemma IncreasingGrows(p: nat, cells: seq<nat>)
    requires Increasing(cells) && forall c :: c in cells ==> p < c
    ensures Increasing([p] + cells)
  {
    var more := [p] + cells;
    forall i, j | 0 <= i < j < |more|
      ensures more[i] < more[j]
    {
      assert more[j] == cells[j-1] && cells[j-1] in cells;
      if i > 0 {
        assert more[i] == cells[i-1];
      }
    }
  }

  /** The fields the sweep writes. */
  datatype Work = Work(mark: seq<bool>, cdr: seq<nat>, typ: seq<nat>, vectorUsed: seq<bool>, head: nat, free: seq<nat>)

  ghost predicate Placed(g: Graph, lo: nat, blocks: nat)
    requires WellShaped(g)
  {
    forall c: nat :: lo <= c < |g.car| && g.typ[c] == VECTOR_TYPE ==> 1 <= g.cdr[c] <= blocks
  }

  /** Cells from lo up are swept: the unmarked ones form the free list in
      ascending order and are no longer vectors, the marked ones and all cells
      below lo are as they were, their marks apart, and the blocks of the freed vectors, and no
      others, have been given up. */
  ghost predicate Swept(g: Graph, mark: seq<bool>, used: seq<bool>, lo: nat, w: Work) {
    && WellShaped(g)
    && |mark| == |w.mark| == |w.cdr| == |w.typ| == |g.car|
    && |used| == |w.vectorUsed|
    && ListSwept(mark, lo, w)
    && CellsSwept(g, mark, lo, w)
    && (forall b :: 0 <= b < |used| ==> w.vectorUsed[b] == (used[b] && !LosesHead(g, mark, lo, b)))
  }

  ghost predicate ListSwept(mark: seq<bool>, lo: nat, w: Work) {
    && IsChain(w.cdr, w.head, w.free)
    && Increasing(w.free)
    && (forall c: nat :: c in w.free <==> lo <= c < |mark| && !mark[c])
  }

  ghost predicate CellsSwept(g: Graph, mark: seq<bool>, lo: nat, w: Work)
    requires WellShaped(g) && |mark| == |w.cdr| == |w.typ| == |g.car|
  {
    && (forall c: nat :: lo <= c < |mark| && !mark[c] ==>
      w.typ[c] == if g.typ[c] == VECTOR_TYPE then CONS_TYPE else g.typ[c])
    && (forall c: nat :: c < |mark| && (c < lo || mark[c]) ==> w.cdr[c] == g.cdr[c] && w.typ[c] == g.typ[c])
  }

  /** Marks are cleared from lo up. */
  ghost predicate Cleared(mark: seq<bool>, lo: nat, w: Work) {
    |w.mark| == |mark| && forall c :: 0 <= c < |mark| ==> w.mark[c] == (c < lo && mark[c])
  }

  /** Before the first cell. */
  lemma SweepStarts(g: Graph, mark: seq<bool>, used: seq<bool>)
    requires WellShaped(g) && |mark| == |g.car|
    ensures var w := Work(mark, g.cdr, g.typ, used, NIL, []);
            Swept(g, mark, used, |mark|, w) && Cleared(mark, |mark|, w)
  {
  }

  lemma MarksDoNotMatter(g: Graph, mark: seq<bool>, used: seq<bool>, lo: nat, w: Work, cleared: seq<bool>)
    requires Swept(g, mark, used, lo, w) && |cleared| == |w.mark|
    ensures Swept(g, mark, used, lo, w.(mark := cleared))
  {
  }

  ghost function Freed(w: Work, p: nat): Work
    requires p < |w.cdr| == |w.typ|
    requires w.typ[p] == VECTOR_TYPE ==> 1 <= w.cdr[p] <= |w.vectorUsed|
  {
    Work(w.mark, w.cdr[p := w.head],
         if w.typ[p] == VECTOR_TYPE then w.typ[p := CONS_TYPE] else w.typ,
         if w.typ[p] == VECTOR_TYPE then w.vectorUsed[w.cdr[p] - 1 := false] else w.vectorUsed,
         p, [p] + w.free)
  }

  lemma NoHeadLost(g: Graph, mark: seq<bool>, lo: nat, b: int)
    requires WellShaped(g) && |mark| == |g.car| && 0 < lo <= |mark|
    ensures LosesHead(g, mark, lo - 1, b) <==>
              LosesHead(g, mark, lo, b) || (!mark[lo-1] && g.typ[lo-1] == VECTOR_TYPE && g.cdr[lo-1] == b + 1)
  {
  }

  lemma KeepCell(g: Graph, mark: seq<bool>, used: seq<bool>, lo: nat, w: Work)
    requires 0 < lo <= |mark| && Swept(g, mark, used, lo, w) && mark[lo-1]
    ensures Swept(g, mark, used, lo - 1, w.(mark := w.mark[lo - 1 := false]))
  {
    forall b | 0 <= b < |used|
      ensures LosesHead(g, mark, lo - 1, b) <==> LosesHead(g, mark, lo, b)
    {
      NoHeadLost(g, mark, lo, b);
    }
  }

  lemma FreeCell(g: Graph, mark: seq<bool>, used: seq<bool>, lo: nat, w: Work)
    requires 0 < lo <= |mark| && Swept(g, mark, used, lo, w) && !mark[lo-1]
    requires g.typ[lo-1] == VECTOR_TYPE ==> 1 <= g.cdr[lo-1] <= |used|
    ensures w.typ[lo-1] == g.typ[lo-1] && w.cdr[lo-1] == g.cdr[lo-1]
    ensures Swept(g, mark, used, lo - 1, Freed(w, lo - 1))
  {
    FreeListGrows(mark, lo, w);
    FreeContents(g, mark, lo, w);
    FreeBlock(g, mark, used, lo, w);
  }

  lemma FreeListGrows(mark: seq<bool>, lo: nat, w: Work)
    requires 0 < lo <= |mark| == |w.cdr| == |w.typ| && !mark[lo-1] && ListSwept(mark, lo, w)
    requires w.typ[lo-1] == VECTOR_TYPE ==> 1 <= w.cdr[lo-1] <= |w.vectorUsed|
    ensures ListSwept(mark, lo - 1, Freed(w, lo - 1))
  {
    IncreasingGrows(lo - 1, w.free);
    ChainFrame(w.cdr, w.cdr[lo - 1 := w.head], w.head, w.free);
    assert ([lo - 1] + w.free)[1..] == w.free;
  }

  lemma FreeContents(g: Graph, mark: seq<bool>, lo: nat, w: Work)
    requires WellShaped(g) && 0 < lo <= |mark| == |w.cdr| == |w.typ| == |g.car|
    requires CellsSwept(g, mark, lo, w) && !mark[lo-1]
    requires g.typ[lo-1] == VECTOR_TYPE ==> 1 <= g.cdr[lo-1] <= |w.vectorUsed|
    ensures CellsSwept(g, mark, lo - 1, Freed(w, lo - 1))
  {
  }

  lemma FreeBlock(g: Graph, mark: seq<bool>, used: seq<bool>, lo: nat, w: Work)
    requires WellShaped(g) && 0 < lo <= |mark| == |w.cdr| == |w.typ| == |g.car| && !mark[lo-1]
    requires |used| == |w.vectorUsed| && (g.typ[lo-1] == VECTOR_TYPE ==> 1 <= g.cdr[lo-1] <= |used|)
    requires w.typ[lo-1] == g.typ[lo-1] && w.cdr[lo-1] == g.cdr[lo-1]
    requires forall b :: 0 <= b < |used| ==> w.vectorUsed[b] == (used[b] && !LosesHead(g, mark, lo, b))
    ensures forall b :: 0 <= b < |used| ==>
            Freed(w, lo - 1).vectorUsed[b] == (used[b] && !LosesHead(g, mark, lo - 1, b))
  {
    forall b | 0 <= b < |used|
      ensures Freed(w, lo - 1).vectorUsed[b] == (used[b] && !LosesHead(g, mark, lo - 1, b))
    {
      NoHeadLost(g, mark, lo, b);
    }
  }

  /** After a whole sweep with exactly the live cells marked. */
  lemma SweptLeavesTheDead(g: Graph, mark: seq<bool>, used: seq<bool>, reserved: nat, w: Work, live: set<nat>)
    requires Swept(g, mark, used, reserved, w)
    requires forall c: nat :: c < |mark| ==> (mark[c] <==> c in live)
    requires forall c: nat :: c < reserved ==> c in live
    ensures forall c: nat :: c in w.free <==> c < |mark| && c !in live
    ensures forall c :: c in w.free ==> reserved <= c && w.typ[c] != VECTOR_TYPE
    ensures forall c :: reserved <= c < |mark| && w.typ[c] == VECTOR_TYPE ==>
            g.typ[c] == VECTOR_TYPE && w.cdr[c] == g.cdr[c]
    ensures Agree(g, VmArch.Graph(g.car, w.cdr, w.typ), live)
    ensures forall b :: 0 <= b < |used| ==> w.vectorUsed[b] == (used[b] && !DeadVectorOwns(g, live, b))
  {
    forall b | 0 <= b < |used|
      ensures LosesHead(g, mark, reserved, b) <==> DeadVectorOwns(g, live, b)
    {
    }
  }

  /** Some dead vector cell owns vector block b. */
  ghost predicate DeadVectorOwns(g: Graph, live: set<nat>, b: int)
    requires WellShaped(g)
  {
    exists c: nat :: c < |g.car| && c !in live && g.typ[c] == VECTOR_TYPE && g.cdr[c] == b + 1
  }

  lemma DistinctTail(cells: seq<nat>)
    requires cells != [] && Distinct(cells)
    ensures Distinct(cells[1..])
    ensures cells[0] in cells
    ensures forall c :: c in cells[1..] <==> c in cells && c != cells[0]
  {
  }

  lemma IncreasingIsDistinct(cells: seq<nat>)
    requires Increasing(cells)
    ensures Distinct(cells)
  {
  }
}
