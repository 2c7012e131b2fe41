/** The invariant of the pointer-reversing marker.

    While the marker runs, the cells it has entered and not yet left form a
    path. Each of them keeps, in the link it was left through, the cell it was
    entered from; the flip bit says which of the two links that is. */
module Marking {
  import opened VmArch

  /** A moment of a run: the heap fields, the two cursors, and the path of
      entered cells, deepest last. */
  datatype State = State(
    car: seq<nat>, cdr: seq<nat>, mark: seq<bool>, flip: seq<bool>,
    current: nat, prev: nat, path: seq<nat>)

  ghost predicate Shape(g: Graph, s: State) {
    && WellShaped(g)
    && |s.car| == |s.cdr| == |s.mark| == |s.flip| == |g.car|
  }

  /** What the cell was entered from. */
  ghost function Below(path: seq<nat>, k: nat): nat
    requires k <= |path|
  {
    if k == 0 then NIL else path[k-1]
  }

  /** What the cell was left towards. */
  ghost function Above(path: seq<nat>, current: nat, k: nat): nat
    requires k < |path|
  {
    if k + 1 < |path| then path[k+1] else current
  }

  ghost predicate Entered(g: Graph, root: nat, s: State, k: nat)
    requires Shape(g, s) && k < |s.path|
  {
    var c := s.path[k];
    && c < |g.car|
    && s.mark[c]
    && Reachable(g, root, c)
    && HasLeftLink(g.typ[c])
    && (if s.flip[c] then
          && HasRightLink(g.typ[c])
          && s.cdr[c] == Below(s.path, k)
          && g.cdr[c] == Above(s.path, s.current, k)
          && s.car[c] == g.car[c]
          && (g.car[c] < |g.car| ==> s.mark[g.car[c]])
        else
          && s.car[c] == Below(s.path, k)
          && g.car[c] == Above(s.path, s.current, k)
          && s.cdr[c] == g.cdr[c])
  }

  /** A cell off the path is as it was, and if it is marked so are its children. */
  ghost predicate Untouched(g: Graph, s: State, c: nat)
    requires Shape(g, s) && c < |g.car|
  {
    s.car[c] == g.car[c] && s.cdr[c] == g.cdr[c] && !s.flip[c]
  }

  ghost predicate Marked(s: State, c: nat) {
    c < |s.mark| && s.mark[c]
  }

  ghost predicate DoneBelow(g: Graph, s: State)
    requires Shape(g, s)
  {
    forall a: nat, b: nat :: Edge(g, a, b) && Marked(s, a) && a !in s.path ==> Marked(s, b)
  }

  ghost predicate Distinct(path: seq<nat>) {
    forall i, j :: 0 <= i < j < |path| ==> path[i] != path[j]
  }

  /** Old marks stay; every new mark is on a cell the root leads to. */
  ghost predicate OnlyReached(g: Graph, before: seq<bool>, root: nat, s: State)
    requires Shape(g, s) && |before| == |g.car|
  {
    && (forall c :: 0 <= c < |before| ==> (before[c] ==> s.mark[c]))
    && (forall c :: 0 <= c < |before| ==> (s.mark[c] && !before[c] ==> Reachable(g, root, c)))
    && (s.current < |g.car| ==> Reachable(g, root, s.current))
    && (root < |g.car| ==> Marked(s, root) || s.current == root)
  }

  ghost predicate Inv(g: Graph, before: seq<bool>, root: nat, s: State) {
    && Shape(g, s)
    && |before| == |g.car|
    && s.prev == Below(s.path, |s.path|)
    && Distinct(s.path)
    && (forall k :: 0 <= k < |s.path| ==> Entered(g, root, s, k))
    && (forall c :: 0 <= c < |g.car| && c !in s.path ==> Untouched(g, s, c))
    && DoneBelow(g, s)
    && OnlyReached(g, before, root, s)
  }

  /** The subtree at the current cursor needs no more work. */
  ghost predicate Settled(g: Graph, s: State)
    requires Shape(g, s)
  {
    s.current < |g.car| ==> s.mark[s.current]
  }

  // The four moves.

  ghost function Descend(g: Graph, s: State): State
    requires Shape(g, s) && s.current < |g.car|
  {
    var c := s.current;
    if HasLeftLink(g.typ[c]) then
      s.(mark := s.mark[c := true], car := s.car[c := s.prev],
         prev := c, current := s.car[c], path := s.path + [c])
    else
      s.(mark := s.mark[c := true])
  }

  ghost function UpThroughCdr(g: Graph, s: State): State
    requires Shape(g, s) && s.prev < |g.car| && 0 < |s.path|
  {
    var c := s.prev;
    s.(flip := s.flip[c := false], cdr := s.cdr[c := s.current],
       current := c, prev := s.cdr[c], path := s.path[..|s.path|-1])
  }

  ghost function Cross(g: Graph, s: State): State
    requires Shape(g, s) && s.prev < |g.car|
  {
    var c := s.prev;
    s.(car := s.car[c := s.current], flip := s.flip[c := true],
       current := s.cdr[c], cdr := s.cdr[c := s.car[c]])
  }

  ghost function UpThroughCar(g: Graph, s: State): State
    requires Shape(g, s) && s.prev < |g.car| && 0 < |s.path|
  {
    var c := s.prev;
    s.(car := s.car[c := s.current],
       current := c, prev := s.car[c], path := s.path[..|s.path|-1])
  }

  // Termination. A cell costs three moves at most: entering it, crossing
  // from its car to its cdr, and leaving it.

  ghost function Unmarked(s: State): set<nat> {
    set c: nat | c < |s.mark| && !s.mark[c]
  }

  ghost function Uncrossed(s: State): set<nat> {
    set c: nat | c < |s.flip| && c in s.path && !s.flip[c]
  }

  ghost function Work(s: State): nat {
    3 * |Unmarked(s)| + |Uncrossed(s)| + |s.path|
  }

  lemma InvStart(g: Graph, before: seq<bool>, flip: seq<bool>, root: nat)
    requires WellShaped(g) && |before| == |flip| == |g.car|
    requires forall c :: 0 <= c < |flip| ==> !flip[c]
    requires forall a: nat, b: nat :: Edge(g, a, b) && before[a] ==> before[b]
    ensures Inv(g, before, root, State(g.car, g.cdr, before, flip, root, NIL, []))
  {
    if root < |g.car| {
      ReachableSelf(g, root);
    }
  }

  lemma PathIsMarked(g: Graph, before: seq<bool>, root: nat, s: State)
    requires Inv(g, before, root, s)
    ensures forall c :: c in s.path ==> c < |g.car| && s.mark[c]
    ensures s.prev < |g.car| <==> s.path != []
  {
    forall k | 0 <= k < |s.path|
      ensures s.path[k] < |g.car| && s.mark[s.path[k]]
    {
      assert Entered(g, root, s, k);
    }
  }

  lemma DescendKeepsEntered(g: Graph, before: seq<bool>, root: nat, s: State, k: nat)
    requires Inv(g, before, root, s) && s.current < |g.car| && !s.mark[s.current]
    requires s.current !in s.path && Untouched(g, s, s.current)
    requires k < |Descend(g, s).path|
    ensures Entered(g, root, Descend(g, s), k)
  {
    if k < |s.path| {
      assert Entered(g, root, s, k);
      assert s.path[k] in s.path;
    }
  }

  lemma DescendKeepsInv(g: Graph, before: seq<bool>, root: nat, s: State)
    requires Inv(g, before, root, s) && s.current < |g.car| && !s.mark[s.current]
    ensures Inv(g, before, root, Descend(g, s))
  {
    var c, s' := s.current, Descend(g, s);
    PathIsMarked(g, before, root, s);
    assert Untouched(g, s, c);
    forall k | 0 <= k < |s'.path|
      ensures Entered(g, root, s', k)
    {
      DescendKeepsEntered(g, before, root, s, k);
    }
    if HasLeftLink(g.typ[c]) && s'.current < |g.car| {
      assert Edge(g, c, s'.current);
      ReachableStep(g, root, c, s'.current);
    }
    forall a | 0 <= a < |g.car| && a !in s'.path
      ensures Untouched(g, s', a)
    {
      assert Untouched(g, s, a);
    }
  }

  lemma DescendMarksOne(g: Graph, s: State)
    requires Shape(g, s) && s.current < |g.car| && !s.mark[s.current]
    ensures |Unmarked(Descend(g, s))| == |Unmarked(s)| - 1
  {
    assert Unmarked(Descend(g, s)) == Unmarked(s) - {s.current};
  }

  lemma DescendEntersOne(g: Graph, s: State)
    requires Shape(g, s) && s.current < |g.car| && s.current !in s.path && !s.flip[s.current]
    ensures |Uncrossed(Descend(g, s))| <= |Uncrossed(s)| + 1
  {
    assert Uncrossed(Descend(g, s)) == Uncrossed(s) + if HasLeftLink(g.typ[s.current]) then {s.current} else {};
  }

  lemma DescendWorks(g: Graph, before: seq<bool>, root: nat, s: State)
    requires Inv(g, before, root, s) && s.current < |g.car| && !s.mark[s.current]
    ensures Work(Descend(g, s)) < Work(s)
  {
    PathIsMarked(g, before, root, s);
    assert Untouched(g, s, s.current);
    DescendMarksOne(g, s);
    DescendEntersOne(g, s);
  }

  lemma UpThroughCdrKeepsInv(g: Graph, before: seq<bool>, root: nat, s: State)
    requires Inv(g, before, root, s) && Settled(g, s)
    requires s.prev < |g.car| && s.flip[s.prev]
    ensures 0 < |s.path|
    ensures Inv(g, before, root, UpThroughCdr(g, s)) && Settled(g, UpThroughCdr(g, s))
    ensures Work(UpThroughCdr(g, s)) < Work(s)
  {
    var c, top := s.prev, |s.path| - 1;
    assert Entered(g, root, s, top);
    var s' := UpThroughCdr(g, s);
    PathLosesTop(s.path);
    assert Uncrossed(s') == Uncrossed(s);
    forall k | 0 <= k < |s'.path|
      ensures Entered(g, root, s', k)
    {
      assert Entered(g, root, s, k);
    }
    forall a | 0 <= a < |g.car| && a !in s'.path
      ensures Untouched(g, s', a)
    {
      if a != c {
        assert Untouched(g, s, a);
      }
    }
  }

  lemma CrossKeepsInv(g: Graph, before: seq<bool>, root: nat, s: State)
    requires Inv(g, before, root, s) && Settled(g, s)
    requires s.prev < |g.car| && !s.flip[s.prev] && HasRightLink(g.typ[s.prev])
    ensures Inv(g, before, root, Cross(g, s))
    ensures Work(Cross(g, s)) < Work(s)
  {
    var c, top := s.prev, |s.path| - 1;
    assert Entered(g, root, s, top);
    var s' := Cross(g, s);
    assert Uncrossed(s') == Uncrossed(s) - {c};
    if s'.current < |g.car| {
      assert Edge(g, c, s'.current);
      ReachableStep(g, root, c, s'.current);
    }
    forall k | 0 <= k < |s'.path|
      ensures Entered(g, root, s', k)
    {
      assert Entered(g, root, s, k);
    }
    forall a | 0 <= a < |g.car| && a !in s'.path
      ensures Untouched(g, s', a)
    {
      assert Untouched(g, s, a);
    }
  }

  lemma UpThroughCarKeepsInv(g: Graph, before: seq<bool>, root: nat, s: State)
    requires Inv(g, before, root, s) && Settled(g, s)
    requires s.prev < |g.car| && !HasRightLink(g.typ[s.prev])
    ensures 0 < |s.path|
    ensures Inv(g, before, root, UpThroughCar(g, s)) && Settled(g, UpThroughCar(g, s))
    ensures Work(UpThroughCar(g, s)) < Work(s)
  {
    var c, top := s.prev, |s.path| - 1;
    assert Entered(g, root, s, top);
    var s' := UpThroughCar(g, s);
    PathLosesTop(s.path);
    assert Uncrossed(s') == Uncrossed(s) - {c};
    forall k | 0 <= k < |s'.path|
      ensures Entered(g, root, s', k)
    {
      assert Entered(g, root, s, k);
    }
    forall a | 0 <= a < |g.car| && a !in s'.path
      ensures Untouched(g, s', a)
    {
      if a != c {
        assert Untouched(g, s, a);
      }
    }
  }

  lemma PathLosesTop(path: seq<nat>)
    requires 0 < |path| && Distinct(path)
    ensures Distinct(path[..|path|-1])
    ensures forall c :: c in path[..|path|-1] <==> c in path && c != path[|path|-1]
  {
  }

  /** A run that has left every cell has marked exactly what the root leads to,
      on top of the old marks, and has put every link and flip bit back. */
  lemma InvFinish(g: Graph, before: seq<bool>, root: nat, s: State)
    requires Inv(g, before, root, s) && Settled(g, s) && s.prev >= |g.car|
    ensures s.car == g.car && s.cdr == g.cdr
    ensures forall c :: 0 <= c < |s.flip| ==> !s.flip[c]
    ensures forall c :: 0 <= c < |s.mark| ==> (s.mark[c] <==> before[c] || Reachable(g, root, c))
    ensures forall a: nat, b: nat :: Edge(g, a, b) && s.mark[a] ==> s.mark[b]
  {
    PathIsMarked(g, before, root, s);
    assert s.path == [];
    forall c | 0 <= c < |g.car|
      ensures s.car[c] == g.car[c] && s.cdr[c] == g.cdr[c] && !s.flip[c]
    {
      assert Untouched(g, s, c);
    }
    var cells := set c: nat | c < |g.car| && s.mark[c];
    assert Closed(g, cells) by {
      forall a: nat, b: nat | Edge(g, a, b) && a in cells
        ensures b in cells
      {
        assert Marked(s, a) && a !in s.path;
        assert Marked(s, b);
      }
    }
    forall c | 0 <= c < |s.mark|
      ensures s.mark[c] <==> before[c] || Reachable(g, root, c)
    {
      if Reachable(g, root, c) {
        ReachableInHeap(g, root, c);
        ClosedContainsReachable(g, cells, root, c);
      }
    }
    forall a: nat, b: nat | Edge(g, a, b) && s.mark[a]
      ensures s.mark[b]
    {
      assert a in cells;
    }
  }
}
