/** The virtual heap of the Scheme virtual machine: addresses, cell types and
    the graph that cells and their links form. */
module VmArch {

  // Address space. RAM cells are numbered from 0; ROM cells, the coded small
  // integers and the three atoms live above them.
  const ROM_START: nat := 0xE000
  const SMALL_INT_START: nat := 0xFE00
  const SMALL_INT_MAX: nat := 0xFF00
  const FALSE: nat := 0xFFFD
  const TRUE: nat := 0xFFFE
  const NIL: nat := 0xFFFF
  const ZERO: nat := 0xFE01
  const NEG1: nat := 0xFE00
  const POS1: nat := 0xFE02

  // Cell types. Types 0..7 link through car, types 0..3 also through cdr.
  const CONS_TYPE: nat := 0
  const CONTINUATION_TYPE: nat := 1
  const CLOSURE_TYPE: nat := 4
  const BIGNUM_TYPE: nat := 5
  const STRING_TYPE: nat := 6
  const FIXNUM_TYPE: nat := 8
  const VECTOR_TYPE: nat := 12
  const SYMBOL_TYPE: nat := 13

  predicate HasLeftLink(t: nat) { t < 8 }

  predicate HasRightLink(t: nat) { t < 4 }

  /** The flag byte holds, from bit 0 up: mark, flip, four type bits and two
      user bits. */
  function FlagByte(mark: bv8, flip: bv8, typ: bv8, user: bv8): bv8 {
    mark | (flip << 1) | (typ << 2) | (user << 6)
  }

  /** The link tests mask the flag byte; whatever the mark, flip and user bits
      are, they decide exactly the two type ranges. */
  lemma LinkMasksTestTheType(mark: bv8, flip: bv8, typ: bv8, user: bv8)
    requires mark <= 1 && flip <= 1 && typ <= 15 && user <= 3
    ensures FlagByte(mark, flip, typ, user) & 0x20 == 0 <==> HasLeftLink(typ as nat)
    ensures FlagByte(mark, flip, typ, user) & 0x30 == 0 <==> HasRightLink(typ as nat)
  {
    var bits := FlagByte(mark, flip, typ, user);
    assert bits & 0x20 == (typ << 2) & 0x20;
    assert bits & 0x30 == (typ << 2) & 0x30;
    assert (typ << 2) & 0x20 == 0 <==> typ < 8;
    assert (typ << 2) & 0x30 == 0 <==> typ < 4;
  }

  /** The heap with its links: entry i of each sequence belongs to cell i. */
  datatype Graph = Graph(car: seq<nat>, cdr: seq<nat>, typ: seq<nat>)

  ghost predicate WellShaped(g: Graph) {
    && |g.car| == |g.cdr| == |g.typ|
    && |g.car| <= ROM_START
  }

  /** Cell a has a link the collector follows to RAM cell b. */
  ghost predicate Edge(g: Graph, a: nat, b: nat)
    requires WellShaped(g)
  {
    && a < |g.car|
    && b < |g.car|
    && ((HasLeftLink(g.typ[a]) && g.car[a] == b) || (HasRightLink(g.typ[a]) && g.cdr[a] == b))
  }

  ghost predicate IsPath(g: Graph, path: seq<nat>)
    requires WellShaped(g)
  {
    && 0 < |path|
    && path[0] < |g.car|
    && forall i :: 0 < i < |path| ==> Edge(g, path[i-1], path[i])
  }

  ghost predicate Reachable(g: Graph, root: nat, c: nat)
    requires WellShaped(g)
  {
    exists path :: IsPath(g, path) && path[0] == root && path[|path|-1] == c
  }

  ghost predicate Closed(g: Graph, cells: set<nat>)
    requires WellShaped(g)
  {
    forall a: nat, b: nat :: Edge(g, a, b) && a in cells ==> b in cells
  }

  lemma ReachableSelf(g: Graph, r: nat)
    requires WellShaped(g) && r < |g.car|
    ensures Reachable(g, r, r)
  {
    assert IsPath(g, [r]);
  }

  lemma ReachableStep(g: Graph, r: nat, a: nat, b: nat)
    requires WellShaped(g) && Reachable(g, r, a) && Edge(g, a, b)
    ensures Reachable(g, r, b)
  {
    var path :| IsPath(g, path) && path[0] == r && path[|path|-1] == a;
    assert IsPath(g, path + [b]);
  }

  lemma {:induction false} ClosedContainsPath(g: Graph, cells: set<nat>, path: seq<nat>)
    requires WellShaped(g) && Closed(g, cells) && IsPath(g, path) && path[0] in cells
    ensures path[|path|-1] in cells
  {
    if |path| > 1 {
      var init := path[..|path|-1];
      assert IsPath(g, init);
      ClosedContainsPath(g, cells, init);
      assert Edge(g, path[|path|-2], path[|path|-1]);
    }
  }

  /** A closed set that holds a root holds all the root leads to. */
  lemma ClosedContainsReachable(g: Graph, cells: set<nat>, r: nat, c: nat)
    requires WellShaped(g) && Closed(g, cells) && r in cells && Reachable(g, r, c)
    ensures c in cells
  {
    var path :| IsPath(g, path) && path[0] == r && path[|path|-1] == c;
    ClosedContainsPath(g, cells, path);
  }

  lemma ReachableInHeap(g: Graph, r: nat, c: nat)
    requires WellShaped(g) && Reachable(g, r, c)
    ensures r < |g.car| && c < |g.car|
  {
    var path :| IsPath(g, path) && path[0] == r && path[|path|-1] == c;
    if |path| > 1 {
      assert Edge(g, path[|path|-2], path[|path|-1]);
    }
  }

  ghost predicate HoldsRoots(g: Graph, roots: set<nat>, cells: set<nat>)
    requires WellShaped(g)
  {
    forall r :: r in roots && r < |g.car| ==> r in cells
  }

  /** The cells are what the roots lead to: the least closed set that holds
      the roots that are cells. */
  ghost predicate LeastClosed(g: Graph, roots: set<nat>, cells: set<nat>)
    requires WellShaped(g)
  {
    && (forall c :: c in cells ==> c < |g.car|)
    && HoldsRoots(g, roots, cells)
    && Closed(g, cells)
    && forall s: set<nat> :: Closed(g, s) && HoldsRoots(g, roots, s) ==> cells <= s
  }

  ghost predicate Rooted(g: Graph, roots: set<nat>, c: nat)
    requires WellShaped(g)
  {
    exists r :: r in roots && Reachable(g, r, c)
  }

  lemma RootedIsLeastClosed(g: Graph, roots: set<nat>, cells: set<nat>)
    requires WellShaped(g)
    requires forall c: nat :: c in cells <==> c < |g.car| && Rooted(g, roots, c)
    ensures LeastClosed(g, roots, cells)
  {
    forall r | r in roots && r < |g.car|
      ensures r in cells
    {
      ReachableSelf(g, r);
    }
    forall a: nat, b: nat | Edge(g, a, b) && a in cells
      ensures b in cells
    {
      var r :| r in roots && Reachable(g, r, a);
      ReachableStep(g, r, a, b);
    }
    forall s: set<nat>, c | Closed(g, s) && HoldsRoots(g, roots, s) && c in cells
      ensures c in s
    {
      var r :| r in roots && Reachable(g, r, c);
      ReachableInHeap(g, r, c);
      ClosedContainsReachable(g, s, r, c);
    }
  }

  /** A proof that wants to look inside a definition guarded by Key mentions it;
      all others carry the definition along closed, which keeps them short. */
  ghost predicate Key(k: nat) { true }

  /** Everything the roots lead to, the roots that are cells included. */
  ghost function Live(g: Graph, roots: set<nat>): set<nat>
    requires WellShaped(g)
  {
    RootedIsLeastClosed(g, roots, set c: nat | c < |g.car| && Rooted(g, roots, c));
    var live :| forall k: nat {:trigger Key(k)} :: Key(k) ==> LeastClosed(g, roots, live);
    live
  }

  ghost predicate IsWith(more: set<nat>, roots: set<nat>, r: nat) {
    forall k: nat {:trigger Key(k)} :: Key(k) ==> more == roots + {r}
  }

  /** roots and r, closed. */
  ghost function With(roots: set<nat>, r: nat): set<nat> {
    assert IsWith(roots + {r}, roots, r);
    var more :| IsWith(more, roots, r);
    more
  }

  lemma WithIs(roots: set<nat>, r: nat)
    ensures With(roots, r) == roots + {r}
  {
    assert IsWith(roots + {r}, roots, r);
    assert Key(0);
  }

  lemma LiveIsLeastClosed(g: Graph, roots: set<nat>)
    requires WellShaped(g)
    ensures LeastClosed(g, roots, Live(g, roots))
  {
    RootedIsLeastClosed(g, roots, set c: nat | c < |g.car| && Rooted(g, roots, c));
    assert Key(0);
  }

  /** A cell is live exactly when some path of links gets to it from a root. */
  lemma LiveIsRooted(g: Graph, roots: set<nat>, c: nat)
    requires WellShaped(g)
    ensures c in Live(g, roots) <==> c < |g.car| && Rooted(g, roots, c)
  {
    RootedIsLeastClosed(g, roots, set a: nat | a < |g.car| && Rooted(g, roots, a));
    LiveIsLeastClosed(g, roots);
  }

  lemma LiveIsReachable(g: Graph, r: nat, c: nat)
    requires WellShaped(g)
    ensures c in Live(g, {r}) <==> Reachable(g, r, c)
  {
    LiveIsRooted(g, {r}, c);
    if Reachable(g, r, c) {
      ReachableInHeap(g, r, c);
      assert Rooted(g, {r}, c);
    }
  }

  lemma LiveIsClosed(g: Graph, roots: set<nat>)
    requires WellShaped(g)
    ensures Closed(g, Live(g, roots))
    ensures forall r :: r in roots && r < |g.car| ==> r in Live(g, roots)
    ensures forall c :: c in Live(g, roots) ==> c < |g.car|
  {
    LiveIsLeastClosed(g, roots);
  }

  /** Live is the least closed set that holds the roots. */
  lemma LiveIsLeast(g: Graph, roots: set<nat>, cells: set<nat>)
    requires WellShaped(g) && Closed(g, cells)
    requires forall r :: r in roots && r < |g.car| ==> r in cells
    ensures Live(g, roots) <= cells
  {
    LiveIsLeastClosed(g, roots);
    assert HoldsRoots(g, roots, cells);
  }

  /** Two heaps agree on the given cells. */
  ghost predicate Agree(g: Graph, g': Graph, cells: set<nat>)
    requires WellShaped(g) && WellShaped(g')
  {
    && |g.car| == |g'.car|
    && forall c :: c in cells && c < |g.car| ==>
         g.car[c] == g'.car[c] && g.cdr[c] == g'.cdr[c] && g.typ[c] == g'.typ[c]
  }

  lemma LiveStaysClosed(g: Graph, g': Graph, roots: set<nat>)
    requires WellShaped(g) && WellShaped(g') && Agree(g, g', Live(g, roots))
    ensures Closed(g', Live(g, roots))
    ensures Live(g', roots) <= Live(g, roots)
    ensures forall r :: r in roots && r < |g.car| ==> r in Live(g, roots)
  {
    LiveIsClosed(g, roots);
    forall a: nat, b: nat | Edge(g', a, b) && a in Live(g, roots)
      ensures b in Live(g, roots)
    {
      assert Edge(g, a, b);
    }
    LiveIsLeast(g', roots, Live(g, roots));
  }

  /** Writing only to dead cells leaves the live set as it was. */
  lemma LiveUnchanged(g: Graph, g': Graph, roots: set<nat>)
    requires WellShaped(g) && WellShaped(g') && Agree(g, g', Live(g, roots))
    ensures Live(g', roots) == Live(g, roots)
  {
    LiveStaysClosed(g, g', roots);
    LiveStaysClosed(g', g, roots);
  }

  lemma LiveMonotone(g: Graph, roots: set<nat>, more: set<nat>)
    requires WellShaped(g) && roots <= more
    ensures Live(g, roots) <= Live(g, more)
  {
    LiveIsClosed(g, more);
    LiveIsLeast(g, roots, Live(g, more));
  }

  /** What one more root adds. */
  lemma LiveWithRoot(g: Graph, roots: set<nat>, r: nat)
    requires WellShaped(g)
    ensures Live(g, With(roots, r)) == Live(g, roots) + Live(g, {r})
  {
    WithIs(roots, r);
    LiveMonotone(g, roots, roots + {r});
    LiveMonotone(g, {r}, roots + {r});
    LiveIsClosed(g, roots);
    LiveIsClosed(g, {r});
    LiveIsLeast(g, roots + {r}, Live(g, roots) + Live(g, {r}));
  }
}
