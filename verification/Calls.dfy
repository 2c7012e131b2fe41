/** Procedure calls: the pairs that hold the arguments on the stack are turned
    into the environment of the procedure, in place and without allocation. */
module Calls {
  import opened VmArch
  import opened Wrappers
  import opened Marking
  import opened Sweeping
  import opened MemoryManagement
  import opened Digits
  import opened Temporaries

  /** The pairs form the list at p, which goes on with rest. */
  ghost predicate PairsAt(g: Graph, reserved: nat, p: nat, pairs: seq<nat>, rest: nat)
    requires WellShaped(g)
    decreases pairs
  {
    if pairs == [] then p == rest
    else
      && p == pairs[0] && reserved <= p < |g.car| && g.typ[p] == CONS_TYPE
      && PairsAt(g, reserved, g.cdr[p], pairs[1..], rest)
  }

  lemma {:induction false} PairsFrame(g: Graph, g': Graph, reserved: nat, p: nat, pairs: seq<nat>, rest: nat)
    requires WellShaped(g) && WellShaped(g') && |g.car| == |g'.car| && PairsAt(g, reserved, p, pairs, rest)
    requires forall c :: c in pairs && c < |g.car| ==> g'.cdr[c] == g.cdr[c] && g'.typ[c] == g.typ[c]
    ensures PairsAt(g', reserved, p, pairs, rest)
    decreases pairs
  {
    if pairs != [] {
      PairsFrame(g, g', reserved, g.cdr[p], pairs[1..], rest);
    }
  }

  /** Whatever holds the list holds its pairs. */
  lemma {:induction false} PairsInClosed(g: Graph, reserved: nat, p: nat, pairs: seq<nat>, rest: nat, cells: set<nat>)
    requires WellShaped(g) && PairsAt(g, reserved, p, pairs, rest) && Closed(g, cells) && (p < |g.car| ==> p in cells)
    ensures forall c :: c in pairs ==> c in cells
    ensures rest < |g.car| ==> rest in cells
    decreases pairs
  {
    if pairs != [] {
      if g.cdr[p] < |g.car| {
        assert Edge(g, p, g.cdr[p]);
      }
      PairsInClosed(g, reserved, g.cdr[p], pairs[1..], rest, cells);
    }
  }

  function Reversed(pairs: seq<nat>): (r: seq<nat>)
    ensures |r| == |pairs| && forall c :: c in r <==> c in pairs
  {
    if pairs == [] then [] else Reversed(pairs[1..]) + [pairs[0]]
  }

  lemma {:induction false} ReversedMore(pairs: seq<nat>, k: nat)
    requires k < |pairs|
    ensures Reversed(pairs[..k + 1]) == [pairs[k]] + Reversed(pairs[..k])
  {
    if k > 0 {
      assert pairs[..k + 1][1..] == pairs[1..][..k] && pairs[..k][1..] == pairs[1..][..k - 1];
      ReversedMore(pairs[1..], k - 1);
    } else {
      assert pairs[..1] == [pairs[0]] && pairs[..1][1..] == [];
    }
  }

  /** The first pair of one list is moved to the front of another. */
  lemma PairMoved(g: Graph, g': Graph, reserved: nat, from: nat, todo: seq<nat>, rest: nat, to: nat, done: seq<nat>,
      end: nat)
    requires WellShaped(g) && PairsAt(g, reserved, from, todo, rest) && PairsAt(g, reserved, to, done, end)
    requires todo != [] && Distinct(todo) && todo[0] !in done
    requires g' == g.(cdr := g.cdr[from := to])
    ensures WellShaped(g') && PairsAt(g', reserved, g.cdr[from], todo[1..], rest)
            && PairsAt(g', reserved, from, [from] + done, end)
  {
    DistinctTail(todo);
    PairsFrame(g, g', reserved, g.cdr[from], todo[1..], rest);
    PairsFrame(g, g', reserved, to, done, end);
    assert ([from] + done)[1..] == done;
  }

  /** A pair that is linked to something live instead, and held by no more than
      live roots, leads to nothing new. */
  lemma NothingNew(g: Graph, g': Graph, roots: set<nat>, roots': set<nat>, p: nat)
    requires WellShaped(g) && WellShaped(g') && |g.car| == |g'.car| && p < |g.car|
    requires forall c: nat :: c < |g.car| && c != p ==> g'.car[c] == g.car[c] && g'.cdr[c] == g.cdr[c]
    requires g'.typ == g.typ
    requires g'.car[p] < |g.car| ==> g'.car[p] in Live(g, roots)
    requires g'.cdr[p] < |g.car| ==> g'.cdr[p] in Live(g, roots)
    requires forall r :: r in roots' && r < |g.car| ==> r in Live(g, roots)
    ensures Live(g', roots') <= Live(g, roots)
  {
    LiveIsClosed(g, roots);
    forall a: nat, b: nat | Edge(g', a, b) && a in Live(g, roots)
      ensures b in Live(g, roots)
    {
      if a != p {
        assert Edge(g, a, b);
      }
    }
    LiveIsLeast(g', roots', Live(g, roots));
  }

  lemma RewrittenStaysTidy(h: Heap, cdr0: seq<nat>, p: nat)
    requires h.Shape() && |cdr0| == h.size && p < h.size && h.typ[p] == CONS_TYPE && p !in h.free
    requires AllClear(h.mark[..]) && AllClear(h.flip[..]) && IsChain(cdr0, h.freeCells, h.free) && Distinct(h.free)
    requires forall c :: h.reserved <= c < h.size && h.typ[c] == VECTOR_TYPE ==> 1 <= cdr0[c] <= h.vectorUsed.Length
    requires forall c :: c in h.free ==> h.reserved <= c < h.size && h.typ[c] != VECTOR_TYPE
    requires forall c: nat :: c < h.size && c != p ==> h.cdr[c] == cdr0[c]
    ensures h.Tidy()
  {
    ChainFrame(cdr0, h.cdr[..], h.freeCells, h.free);
  }

  lemma RootIsLive(h: Heap)
    requires h.Shape()
    ensures forall r :: r in h.Roots() ==> r in h.LiveCells() || r >= h.size
    ensures h.env in h.Roots() && h.cont in h.Roots()
    ensures h.reg1 in h.Roots() && h.reg2 in h.Roots() && h.reg3 in h.Roots() && h.reg4 in h.Roots()
  {
    h.RootsAre();
    LiveIsClosed(h.Graph(), h.Roots());
  }

  lemma LiveIsSafe(h: Heap, x: nat)
    requires h.Valid() && (x in h.LiveCells() || x >= h.size)
    ensures Safe(h, x)
  {
    LiveIsClosed(h.Graph(), h.Roots());
    LiveIsLeast(h.Graph(), {x}, h.LiveCells());
  }

  /** The cdr of a live pair is set to something live. */
  method Relink(h: Heap, p: nat, d: nat)
    requires h.Valid() && p < h.size && p in h.LiveCells() && h.typ[p] == CONS_TYPE
             && (d in h.LiveCells() || d >= h.size)
    modifies h.cdr
    ensures h.Valid() && h.cdr[..] == old(h.cdr[..])[p := d]
  {
    ghost var g := h.Graph();
    LiveIsClosed(g, h.Roots());
    DeadApart(h);
    if h.car[p] < h.size {
      assert Edge(g, p, h.car[p]);
    }
    h.cdr[p] := d;
    NothingNew(g, h.Graph(), h.Roots(), h.Roots(), p);
    RewrittenStaysTidy(h, g.cdr, p);
  }

  lemma NextIsSafe(h: Heap)
    requires h.Valid() && h.env < h.size && h.typ[h.env] == CONS_TYPE
    ensures Safe(h, h.env) && Safe(h, h.cdr[h.env])
  {
    RootIsLive(h);
    LiveIsClosed(h.Graph(), h.Roots());
    if h.cdr[h.env] < h.size {
      assert Edge(h.Graph(), h.env, h.cdr[h.env]);
    }
    LiveIsSafe(h, h.env);
    LiveIsSafe(h, h.cdr[h.env]);
  }

  /** Takes the first pair of the stack off and puts it in front of reg1. */
  method MoveToReg1(h: Heap)
    requires h.Valid() && h.reserved <= h.env < h.size && h.typ[h.env] == CONS_TYPE
    modifies h.cdr, h`env, h`reg1, h`reg2
    ensures h.Valid()
    ensures h.env == old(h.cdr[h.env]) && h.reg1 == h.reg2 == old(h.env)
    ensures h.cdr[..] == old(h.cdr[..])[old(h.env) := old(h.reg1)]
  {
    NextIsSafe(h);
    SetReg2(h, h.env);
    NextIsSafe(h);
    SetEnv(h, h.cdr[h.env]);
    RootIsLive(h);
    Relink(h, h.reg2, h.reg1);
    RootIsLive(h);
    LiveIsSafe(h, h.reg2);
    SetReg1(h, h.reg2);
  }

  /** The same for reg3. */
  method MoveToReg3(h: Heap)
    requires h.Valid() && h.reserved <= h.env < h.size && h.typ[h.env] == CONS_TYPE
    modifies h.cdr, h`env, h`reg3, h`reg4
    ensures h.Valid()
    ensures h.env == old(h.cdr[h.env]) && h.reg3 == h.reg4 == old(h.env)
    ensures h.cdr[..] == old(h.cdr[..])[old(h.env) := old(h.reg3)]
  {
    NextIsSafe(h);
    SetReg4(h, h.env);
    NextIsSafe(h);
    SetEnv(h, h.cdr[h.env]);
    RootIsLive(h);
    Relink(h, h.reg4, h.reg3);
    RootIsLive(h);
    LiveIsSafe(h, h.reg4);
    SetReg3(h, h.reg4);
  }

  /** The first k pairs of the stack have been moved to the list at p. */
  ghost predicate Moving(h: Heap, pairs: seq<nat>, k: nat, stack: nat, p: nat, end: nat)
    requires k <= |pairs|
    reads h, h.car, h.cdr, h.typ, h.mark, h.flip
  {
    && h.Valid()
    && PairsAt(h.Graph(), h.reserved, h.env, pairs[k..], stack)
    && PairsAt(h.Graph(), h.reserved, p, Reversed(pairs[..k]), end)
  }

  method MoveArgument(h: Heap, ghost pairs: seq<nat>, ghost k: nat, ghost stack: nat, ghost end: nat)
    requires k < |pairs| && Distinct(pairs) && Moving(h, pairs, k, stack, h.reg1, end)
    modifies h.cdr, h`env, h`reg1, h`reg2
    ensures Moving(h, pairs, k + 1, stack, h.reg1, end)
    ensures forall c: nat :: c < h.size && c !in pairs ==> h.cdr[c] == old(h.cdr[c])
  {
    ghost var g, from, to := h.Graph(), h.env, h.reg1;
    Unmoved(pairs, k);
    MoveToReg1(h);
    assert h.Graph() == g.(cdr := g.cdr[from := to]);
    PairMoved(g, h.Graph(), h.reserved, from, pairs[k..], stack, to, Reversed(pairs[..k]), end);
  }

  method MoveFurther(h: Heap, ghost pairs: seq<nat>, ghost k: nat, ghost stack: nat)
    requires k < |pairs| && Distinct(pairs) && Moving(h, pairs, k, stack, h.reg3, NIL)
    modifies h.cdr, h`env, h`reg3, h`reg4
    ensures Moving(h, pairs, k + 1, stack, h.reg3, NIL)
    ensures forall c: nat :: c < h.size && c !in pairs ==> h.cdr[c] == old(h.cdr[c])
  {
    ghost var g, from, to := h.Graph(), h.env, h.reg3;
    Unmoved(pairs, k);
    MoveToReg3(h);
    assert h.Graph() == g.(cdr := g.cdr[from := to]);
    PairMoved(g, h.Graph(), h.reserved, from, pairs[k..], stack, to, Reversed(pairs[..k]), NIL);
  }

  /** The arguments, last one first on the stack, end up first one first before
      what reg1 held. Only their links are written. */
  method BuildEnvironment(h: Heap, nbrArgs: nat, ghost pairs: seq<nat>, ghost stack: nat)
    requires h.Valid() && nbrArgs == |pairs| && Distinct(pairs) && PairsAt(h.Graph(), h.reserved, h.env, pairs, stack)
    modifies h.cdr, h`env, h`reg1, h`reg2
    ensures h.Valid() && h.env == stack && h.reg2 == NIL
    ensures PairsAt(h.Graph(), h.reserved, h.reg1, Reversed(pairs), old(h.reg1))
    ensures forall c: nat :: c < h.size && c !in pairs ==> h.cdr[c] == old(h.cdr[c])
  {
    ghost var end := h.reg1;
    var n := nbrArgs;
    ghost var k: nat := 0;
    assert pairs[0..] == pairs && pairs[..0] == [];
    while n > 0
      invariant n == |pairs| - k && k <= |pairs| && Moving(h, pairs, k, stack, h.reg1, end)
      invariant forall c: nat :: c < h.size && c !in pairs ==> h.cdr[c] == old(h.cdr[c])
    {
      MoveArgument(h, pairs, k, stack, end);
      n, k := n - 1, k + 1;
    }
    assert pairs[k..] == [] && pairs[..k] == pairs;
    AtomIsSafe(h, NIL);
    SetReg2(h, NIL);
  }

  lemma Unmoved(pairs: seq<nat>, k: nat)
    requires k < |pairs| && Distinct(pairs)
    ensures pairs[k..][0] == pairs[k] && pairs[k..][1..] == pairs[k + 1..] && Distinct(pairs[k..]) && pairs[k] in pairs
    ensures Reversed(pairs[..k + 1]) == [pairs[k]] + Reversed(pairs[..k]) && pairs[k] !in Reversed(pairs[..k])
  {
    ReversedMore(pairs, k);
  }

  /** The arguments past the fixed ones, as a list of their own in reg3. */
  method CollectRest(h: Heap, count: nat, ghost pairs: seq<nat>, ghost stack: nat)
    requires h.Valid() && count <= |pairs| && Distinct(pairs) && PairsAt(h.Graph(), h.reserved, h.env, pairs, stack)
    modifies h.cdr, h`env, h`reg3, h`reg4
    ensures h.Valid()
    ensures PairsAt(h.Graph(), h.reserved, h.env, pairs[count..], stack)
    ensures PairsAt(h.Graph(), h.reserved, h.reg3, Reversed(pairs[..count]), NIL)
    ensures forall c: nat :: c < h.size && c !in pairs ==> h.cdr[c] == old(h.cdr[c])
  {
    hide Distinct, Reversed;
    AtomIsSafe(h, NIL);
    SetReg3(h, NIL);
    var n: nat := 0;
    assert pairs[0..] == pairs && pairs[..0] == [];
    while n < count
      invariant n <= count && Moving(h, pairs, n, stack, h.reg3, NIL)
      invariant forall c: nat :: c < h.size && c !in pairs ==> h.cdr[c] == old(h.cdr[c])
    {
      MoveFurther(h, pairs, n, stack);
      n := n + 1;
    }
  }

  ghost predicate IsClosure(h: Heap, f: nat)
    requires h.Shape()
    reads h.typ
  {
    h.reserved <= f < h.size && h.typ[f] == CLOSURE_TYPE
  }

  /** The pair that held the closure takes the list of the further arguments and
      goes in front of the closure's environment. */
  method PutRest(h: Heap)
    requires h.Valid() && h.reserved <= h.reg2 < h.size && h.typ[h.reg2] == CONS_TYPE
    modifies h.car, h.cdr, h`reg1, h`reg3, h`reg4
    ensures h.Valid() && h.reg1 == h.reg2 && h.reg3 == h.reg4 == NIL
    ensures h.car[..] == old(h.car[..])[h.reg2 := old(h.reg3)] && h.cdr[..] == old(h.cdr[..])[h.reg2 := old(h.reg1)]
  {
    ghost var g, roots, p := h.Graph(), h.Roots(), h.reg2;
    h.RootsAre();
    LiveIsClosed(g, h.Roots());
    DeadApart(h);
    h.cdr[h.reg2] := h.reg1;
    h.car[h.reg2] := h.reg3;
    h.reg1 := h.reg2;
    h.reg3, h.reg4 := NIL, NIL;
    h.RootsAre();
    NothingNew(g, h.Graph(), roots, h.Roots(), p);
    RewrittenStaysTidy(h, g.cdr, p);
  }

  /** Takes the closure off the stack: reg2 keeps its pair, reg1 gets its
      environment. None is the fatal stop for anything but a closure. */
  method TakeClosure(h: Heap, ghost top: nat, ghost pairs: seq<nat>, ghost stack: nat) returns (entry: Option<nat>)
    requires h.Valid() && PairsAt(h.Graph(), h.reserved, h.env, [top] + pairs, stack)
    modifies h`env, h`reg1, h`reg2
    ensures entry.Some? <==> IsClosure(h, h.car[top])
    ensures entry.Some? ==>
              && h.Valid() && h.reg2 == top && h.reg1 == h.car[h.car[top]] && entry.value == h.cdr[h.car[top]]
              && PairsAt(h.Graph(), h.reserved, h.env, pairs, stack)
  {
    hide Live;
    ghost var g := h.Graph();
    assert ([top] + pairs)[1..] == pairs;
    h.RootsAre();
    LiveIsClosed(g, h.Roots());
    if h.cdr[top] < h.size {
      assert Edge(g, top, h.cdr[top]);
    }
    if h.car[top] < h.size {
      assert Edge(g, top, h.car[top]);
      if HasLeftLink(h.typ[h.car[top]]) && h.car[h.car[top]] < h.size {
        assert Edge(g, h.car[top], h.car[h.car[top]]);
      }
    }
    LiveIsSafe(h, top);
    LiveIsSafe(h, h.cdr[top]);
    var pair := h.env;
    var f := h.car[pair];
    if !(h.reserved <= f < h.size && h.typ[f] == CLOSURE_TYPE) {
      return None;
    }
    LiveIsSafe(h, h.car[f]);
    SetReg2(h, pair);
    SetEnv(h, h.cdr[pair]);
    SetReg1(h, h.car[f]);
    return Some(h.cdr[f]);
  }

  /** How many of n arguments are collected in a list: none for a procedure with
      a fixed number, for others those past the fixed ones. A byte above 127 is
      the complement of the fixed number. */
  function RestCount(byte: nat, n: nat): (r: nat)
    requires byte < 0x100
    ensures r <= n
  {
    if byte >= 0x80 && n > 0xFF - byte then n - (0xFF - byte) else 0
  }

  /** The entry byte the assembler writes: the number of parameters, negated for
      a procedure that takes a list of further arguments. */
  function EntryByte(params: nat, rest: bool): nat {
    var n: int := if rest then 0 - params else params;
    n % 0x100
  }

  /** It tells the machine the number of parameters, the list not counted. */
  lemma EntryByteTells(params: nat, rest: bool, n: nat)
    requires params <= 127 && (rest ==> params >= 1)
    ensures EntryByte(params, rest) >= 0x80 <==> rest
    ensures !rest ==> EntryByte(params, rest) == params
    ensures rest && n >= params - 1 ==> n - RestCount(EntryByte(params, rest), n) == params - 1
  {
  }

  /** Where the arguments are when reg1 is ready to get the others in front. */
  ghost predicate Prepared(h: Heap, byte: nat, top: nat, pairs: seq<nat>, stack: nat, closed: nat)
    requires byte < 0x100
    reads h, h.car, h.cdr, h.typ, h.mark, h.flip
  {
    var count := RestCount(byte, |pairs|);
    && h.Valid()
    && PairsAt(h.Graph(), h.reserved, h.env, pairs[count..], stack)
    && if byte >= 0x80 then
         && PairsAt(h.Graph(), h.reserved, h.reg1, [top], closed)
         && PairsAt(h.Graph(), h.reserved, h.car[top], Reversed(pairs[..count]), NIL)
       else
         h.reg1 == closed
  }

  method TakeRest(h: Heap, count: nat, ghost top: nat, ghost pairs: seq<nat>, ghost stack: nat)
    requires h.Valid() && count <= |pairs| && Distinct(pairs) && top !in pairs
    requires h.reg2 == top && h.reserved <= top < h.size && h.typ[top] == CONS_TYPE
    requires PairsAt(h.Graph(), h.reserved, h.env, pairs, stack)
    modifies h.car, h.cdr, h`env, h`reg1, h`reg3, h`reg4
    ensures h.Valid()
    ensures PairsAt(h.Graph(), h.reserved, h.env, pairs[count..], stack)
    ensures PairsAt(h.Graph(), h.reserved, h.reg1, [top], old(h.reg1))
    ensures PairsAt(h.Graph(), h.reserved, h.car[top], Reversed(pairs[..count]), NIL)
    ensures forall c: nat :: c < h.size && c != top ==> h.car[c] == old(h.car[c])
    ensures forall c: nat :: c < h.size && c != top && c !in pairs ==> h.cdr[c] == old(h.cdr[c])
  {
    CollectRest(h, count, pairs, stack);
    ghost var g, list, closed := h.Graph(), h.reg3, h.reg1;
    PutRest(h);
    OnlyOnePair(h, g, top, pairs, count, stack, list, closed);
  }

  /** The closure is in reg1 and the entry byte is known: the surplus arguments
      of a rest procedure become a list. */
  method PrepareFor(h: Heap, byte: nat, nbrArgs: nat, ghost top: nat, ghost pairs: seq<nat>, ghost stack: nat)
      returns (count: nat)
    requires h.Valid() && nbrArgs == |pairs| && Distinct(pairs) && top !in pairs && byte < 0x100
    requires h.reg2 == top && h.reserved <= top < h.size && h.typ[top] == CONS_TYPE
    requires PairsAt(h.Graph(), h.reserved, h.env, pairs, stack)
    modifies h.car, h.cdr, h`env, h`reg1, h`reg2, h`reg3, h`reg4
    ensures count == RestCount(byte, nbrArgs)
    ensures Prepared(h, byte, top, pairs, stack, old(h.reg1))
    ensures forall c: nat :: c < h.size && c != top ==> h.car[c] == old(h.car[c])
    ensures forall c: nat :: c < h.size && c != top && c !in pairs ==> h.cdr[c] == old(h.cdr[c])
  {
    count := RestCount(byte, nbrArgs);
    if byte >= 0x80 {
      TakeRest(h, count, top, pairs, stack);
    } else {
      assert pairs[0..] == pairs;
    }
    AtomIsSafe(h, NIL);
    SetReg2(h, NIL);
  }

  /** A wrong number of arguments is reported on the console only. */
  method PrepareArguments(h: Heap, program: seq<nat>, nbrArgs: nat, ghost top: nat, ghost pairs: seq<nat>,
      ghost stack: nat)
    returns (r: Option<nat>, entry: nat)
    requires h.Valid() && nbrArgs == |pairs| && Distinct([top] + pairs)
    requires PairsAt(h.Graph(), h.reserved, h.env, [top] + pairs, stack)
    requires IsClosure(h, h.car[top]) ==> h.cdr[h.car[top]] < |program| && program[h.cdr[h.car[top]]] < 0x100
    modifies h.car, h.cdr, h`env, h`reg1, h`reg2, h`reg3, h`reg4
    ensures r.Some? <==> IsClosure(h, old(h.car[top]))
    ensures r.Some? ==>
            entry == old(h.cdr[h.car[top]]) + 1 && r.value == |pairs| - RestCount(program[entry - 1], |pairs|)
    ensures r.Some? ==> Prepared(h, program[entry - 1], top, pairs, stack, old(h.car[h.car[top]]))
    ensures forall c: nat :: c < h.size && c != top ==> h.car[c] == old(h.car[c])
    ensures forall c: nat :: c < h.size && c != top && c !in pairs ==> h.cdr[c] == old(h.cdr[c])
  {
    entry := 0;
    assert ([top] + pairs)[1..] == pairs && ([top] + pairs)[0] == top;
    DistinctTail([top] + pairs);
    var at :- TakeClosure(h, top, pairs, stack);
    entry := at + 1;
    var count := PrepareFor(h, program[at], nbrArgs, top, pairs, stack);
    r := Some(nbrArgs - count);
  }

  lemma OnlyOnePair(h: Heap, g: Graph, top: nat, pairs: seq<nat>, count: nat, stack: nat, list: nat, closed: nat)
    requires h.Shape() && h.reserved <= top < h.size && h.typ[top] == CONS_TYPE && count <= |pairs| && top !in pairs
    requires WellShaped(g) && |g.car| == h.size && g.typ == h.typ[..] && h.car[..] == g.car[top := list]
             && h.cdr[..] == g.cdr[top := closed]
    requires PairsAt(g, h.reserved, h.env, pairs[count..], stack)
             && PairsAt(g, h.reserved, list, Reversed(pairs[..count]), NIL)
    ensures PairsAt(h.Graph(), h.reserved, h.env, pairs[count..], stack)
    ensures PairsAt(h.Graph(), h.reserved, h.car[top], Reversed(pairs[..count]), NIL)
    ensures PairsAt(h.Graph(), h.reserved, top, [top], closed)
  {
    PairsFrame(g, h.Graph(), h.reserved, h.env, pairs[count..], stack);
    PairsFrame(g, h.Graph(), h.reserved, list, Reversed(pairs[..count]), NIL);
  }

  lemma {:induction false} PairsAppended(g: Graph, reserved: nat, p: nat, front: seq<nat>, q: nat, back: seq<nat>,
      rest: nat)
    requires WellShaped(g) && PairsAt(g, reserved, p, front, q) && PairsAt(g, reserved, q, back, rest)
    ensures PairsAt(g, reserved, p, front + back, rest)
    decreases front
  {
    if front == [] {
      assert front + back == back;
    } else {
      assert (front + back)[1..] == front[1..] + back;
      PairsAppended(g, reserved, g.cdr[p], front[1..], q, back, rest);
    }
  }

  /** The environment of a procedure called with the arguments that the pairs
      hold: the arguments in order, those past the fixed ones as a list, and the
      environment of the closure. */
  ghost predicate Environment(h: Heap, byte: nat, p: nat, top: nat, pairs: seq<nat>, closed: nat)
    requires h.Shape() && byte < 0x100
    reads h.car, h.cdr, h.typ
  {
    var count := RestCount(byte, |pairs|);
    if byte >= 0x80 then
      && top < h.size
      && PairsAt(h.Graph(), h.reserved, p, Reversed(pairs[count..]) + [top], closed)
      && PairsAt(h.Graph(), h.reserved, h.car[top], Reversed(pairs[..count]), NIL)
    else
      PairsAt(h.Graph(), h.reserved, p, Reversed(pairs), closed)
  }

  lemma EnvironmentBuilt(h: Heap, g: Graph, byte: nat, top: nat, pairs: seq<nat>, closed: nat, reg1: nat)
    requires h.Shape() && byte < 0x100 && Distinct([top] + pairs) && top < h.size
    requires WellShaped(g) && |g.car| == h.size && g.typ == h.typ[..] && g.car == h.car[..]
    requires var rest := pairs[RestCount(byte, |pairs|)..];
             && (forall c: nat :: c < h.size && c !in rest ==> h.cdr[c] == g.cdr[c])
             && PairsAt(h.Graph(), h.reserved, h.reg1, Reversed(rest), reg1)
    requires if byte >= 0x80 then
               PairsAt(g, h.reserved, reg1, [top], closed) && PairsAt(g, h.reserved, g.car[top],
                 Reversed(pairs[..RestCount(byte, |pairs|)]), NIL)
             else reg1 == closed
    ensures Environment(h, byte, h.reg1, top, pairs, closed)
  {
    var count := RestCount(byte, |pairs|);
    var rest := pairs[count..];
    if byte >= 0x80 {
      assert ([top] + pairs)[1..] == pairs;
      DistinctTail([top] + pairs);
      PairsFrame(g, h.Graph(), h.reserved, reg1, [top], closed);
      assert forall c :: c in Reversed(pairs[..count]) ==> c !in rest;
      PairsFrame(g, h.Graph(), h.reserved, g.car[top], Reversed(pairs[..count]), NIL);
      PairsAppended(h.Graph(), h.reserved, h.reg1, Reversed(rest), reg1, [top], closed);
    } else {
      assert rest == pairs;
    }
  }

  /** The environment, once the arguments are prepared. */
  method BuildPrepared(h: Heap, nbrArgs: nat, ghost byte: nat, ghost top: nat, ghost pairs: seq<nat>, ghost stack: nat,
      ghost closed: nat)
    requires byte < 0x100 && Distinct([top] + pairs) && top < h.size && Prepared(h, byte, top, pairs, stack, closed)
    requires nbrArgs == |pairs| - RestCount(byte, |pairs|)
    modifies h.cdr, h`env, h`reg1, h`reg2
    ensures h.Valid() && h.env == stack && h.reg2 == NIL
    ensures Environment(h, byte, h.reg1, top, pairs, closed)
    ensures forall c: nat :: c < h.size && c !in pairs ==> h.cdr[c] == old(h.cdr[c])
  {
    ghost var g, reg1, rest := h.Graph(), h.reg1, pairs[RestCount(byte, |pairs|)..];
    assert Distinct(rest) && (forall c :: c in rest ==> c in pairs) by {
      assert ([top] + pairs)[1..] == pairs;
      DistinctTail([top] + pairs);
    }
    BuildEnvironment(h, nbrArgs, rest, stack);
    EnvironmentBuilt(h, g, byte, top, pairs, closed, reg1);
  }

  /** The arguments of a call, from the stack into reg1. Neither the rest of the
      stack nor the environment of the closure is touched, and nothing is
      allocated. */
  method BindArguments(h: Heap, program: seq<nat>, nbrArgs: nat, ghost top: nat, ghost pairs: seq<nat>,
      ghost stack: nat)
    returns (r: Option<nat>)
    requires h.Valid() && nbrArgs == |pairs| && Distinct([top] + pairs)
    requires PairsAt(h.Graph(), h.reserved, h.env, [top] + pairs, stack)
    requires IsClosure(h, h.car[top]) ==> h.cdr[h.car[top]] < |program| && program[h.cdr[h.car[top]]] < 0x100
    modifies h.car, h.cdr, h`env, h`reg1, h`reg2, h`reg3, h`reg4
    ensures r.Some? <==> IsClosure(h, old(h.car[top]))
    ensures r.Some? ==> h.Valid() && h.env == stack && r.value == old(h.cdr[h.car[top]]) + 1
    ensures r.Some? ==> Environment(h, program[r.value - 1], h.reg1, top, pairs, old(h.car[h.car[top]]))
    ensures forall c: nat :: c < h.size && c != top ==> h.car[c] == old(h.car[c])
    ensures forall c: nat :: c < h.size && c != top && c !in pairs ==> h.cdr[c] == old(h.cdr[c])
  {
    var n, entry := PrepareArguments(h, program, nbrArgs, top, pairs, stack);
    if n.None? {
      return None;
    }
    BuildPrepared(h, n.value, program[entry - 1], top, pairs, stack, old(h.car[h.car[top]]));
    r := Some(entry);
  }

  /** A jump to the closure on the stack: its environment takes the place of the
      arguments. The result is where its code goes on. */
  method JumpClosure(h: Heap, program: seq<nat>, nbrArgs: nat, ghost top: nat, ghost pairs: seq<nat>, ghost stack: nat)
      returns (pc: Option<nat>)
    requires h.Valid() && nbrArgs == |pairs| && Distinct([top] + pairs)
    requires PairsAt(h.Graph(), h.reserved, h.env, [top] + pairs, stack)
    requires IsClosure(h, h.car[top]) ==> h.cdr[h.car[top]] < |program| && program[h.cdr[h.car[top]]] < 0x100
    modifies h.car, h.cdr, h`env, h`reg1, h`reg2, h`reg3, h`reg4
    ensures pc.Some? <==> IsClosure(h, old(h.car[top]))
    ensures pc.Some? ==> h.Valid() && h.reg1 == h.reg2 == NIL && pc.value == old(h.cdr[h.car[top]]) + 1
    ensures pc.Some? ==> Environment(h, program[pc.value - 1], h.env, top, pairs, old(h.car[h.car[top]]))
    ensures forall c: nat :: c < h.size && c != top ==> h.car[c] == old(h.car[c])
    ensures forall c: nat :: c < h.size && c != top && c !in pairs ==> h.cdr[c] == old(h.cdr[c])
  {
    pc := BindArguments(h, program, nbrArgs, top, pairs, stack);
    if pc.Some? {
      EnterEnvironment(h);
    }
  }

  method EnterEnvironment(h: Heap)
    requires h.Valid()
    modifies h`env, h`reg1, h`reg2
    ensures h.Valid() && h.env == old(h.reg1) && h.reg1 == h.reg2 == NIL
  {
    h.RootsAre();
    LiveIsClosed(h.Graph(), h.Roots());
    LiveIsSafe(h, h.reg1);
    AtomIsSafe(h, NIL);
    SetEnv(h, h.reg1);
    SetReg1(h, NIL);
    SetReg2(h, NIL);
  }

  // Calls that come back.

  /** A fresh cell whose links are live leads to no free cell. */
  lemma FreshCellIsSafe(h: Heap, p: nat)
    requires h.Valid() && p < h.size && p !in h.free
    requires h.car[p] in h.LiveCells() || h.car[p] >= h.size
    requires HasRightLink(h.typ[p]) ==> h.cdr[p] in h.LiveCells() || h.cdr[p] >= h.size
    ensures Safe(h, p)
  {
    LiveIsClosed(h.Graph(), h.Roots());
    LiveIsLeast(h.Graph(), {p}, h.LiveCells() + {p});
  }

  /** What a program holds between two instructions, when the registers are empty:
      its globals, the stack, the continuation and the temporaries. */
  ghost function ProgramRoots(h: Heap): set<nat>
    reads h
  {
    h.Globals() + {h.cont, h.env} + {h.tmp1, h.tmp2, h.tmp3, h.tmp4, h.tmp5}
  }

  /** What is held while the caller is saved, by all roots but reg4. */
  ghost function Lasting(h: Heap): set<nat>
    requires h.Shape()
    reads h, h.car, h.cdr, h.typ
  {
    Live(h.Graph(), ProgramRoots(h) + {h.reg1, h.reg2, h.reg3})
  }

  lemma LastingKept(h: Heap, g: Graph, live: set<nat>, lasting: set<nat>)
    requires h.Shape() && WellShaped(g) && Agree(g, h.Graph(), live) && lasting <= live
    requires lasting == Live(g, ProgramRoots(h) + {h.reg1, h.reg2, h.reg3})
    ensures Lasting(h) == lasting && Agree(g, h.Graph(), lasting)
  {
    LiveUnchanged(g, h.Graph(), ProgramRoots(h) + {h.reg1, h.reg2, h.reg3});
  }

  lemma LastingIsLive(h: Heap)
    requires h.Shape()
    ensures Lasting(h) <= h.LiveCells()
  {
    h.RootsAre();
    LiveMonotone(h.Graph(), ProgramRoots(h) + {h.reg1, h.reg2, h.reg3}, h.Roots());
  }

  /** cont is a continuation that goes back to the given stack and place. */
  ghost predicate Saved(h: Heap, parent: nat, stack: nat, pc: nat)
    requires h.Shape()
    reads h`cont, h.car, h.cdr, h.typ
  {
    && h.reserved <= h.cont < h.size && h.typ[h.cont] == CONTINUATION_TYPE && h.car[h.cont] == parent
    && IsClosure(h, h.cdr[h.cont]) && h.car[h.cdr[h.cont]] == stack && h.cdr[h.cdr[h.cont]] == pc
  }

  /** A closure for the caller's stack and the place to come back to. */
  method NewReturn(h: Heap, pc: nat) returns (r: Option<nat>)
    requires h.Valid()
    modifies h.car, h.cdr, h.typ, h.mark, h.flip, h.vectorUsed, h`freeCells, h`freeCount, h`usedCount, h`free, h`reg4
    ensures r.Some? ==> h.Valid() && IsClosure(h, h.reg4) && h.car[h.reg4] == h.env && h.cdr[h.reg4] == pc
    ensures r.Some? ==> Lasting(h) == old(Lasting(h)) && Agree(old(h.Graph()), h.Graph(), old(Lasting(h)))
    ensures r.None? ==> h.Room() == {}
  {
    ghost var g, live, lasting := h.Graph(), h.LiveCells(), Lasting(h);
    RootIsLive(h);
    LastingIsLive(h);
    hide Agree;
    var k :- h.NewCell(CLOSURE_TYPE, h.env, pc);
    LastingKept(h, g, live, lasting);
    FreshCellIsSafe(h, k);
    SetReg4(h, k);
    r := Some(k);
  }

  lemma ClosureKept(h: Heap, g: Graph, live: set<nat>, f: nat)
    requires h.Shape() && WellShaped(g) && Agree(g, h.Graph(), live) && f in live && f < |g.car|
    ensures h.typ[f] == g.typ[f] && h.car[f] == g.car[f] && h.cdr[f] == g.cdr[f]
  {
  }

  /** A continuation for the closure in reg4, which it takes over. */
  method NewContinuation(h: Heap) returns (r: Option<nat>)
    requires h.Valid() && IsClosure(h, h.reg4)
    modifies h.car, h.cdr, h.typ, h.mark, h.flip, h.vectorUsed, h`freeCells, h`freeCount, h`usedCount, h`free, h`reg4,
             h`cont
    ensures r.Some? ==> h.Valid() && h.reg4 == NIL && Saved(h, old(h.cont), old(h.car[h.reg4]), old(h.cdr[h.reg4]))
    ensures r.Some? ==> Agree(old(h.Graph()), h.Graph(), old(Lasting(h)))
    ensures r.None? ==> h.Room() == {}
  {
    ghost var g, live, lasting := h.Graph(), h.LiveCells(), Lasting(h);
    RootIsLive(h);
    LastingIsLive(h);
    hide Agree;
    var c :- h.NewCell(CONTINUATION_TYPE, h.cont, h.reg4);
    LastingKept(h, g, live, lasting);
    ClosureKept(h, g, live, h.reg4);
    FreshCellIsSafe(h, c);
    SetCont(h, c);
    AtomIsSafe(h, NIL);
    SetReg4(h, NIL);
    r := Some(c);
  }

  lemma AgreeOnwards(a: Graph, b: Graph, c: Graph, cells: set<nat>)
    requires WellShaped(a) && WellShaped(b) && WellShaped(c) && Agree(a, b, cells) && Agree(b, c, cells)
    ensures Agree(a, c, cells)
  {
  }

  /** The caller is saved in a new continuation. Each of the two cells may take a
      collection; whatever the program, its continuations and the other registers
      hold stays as it was. */
  method SaveCont(h: Heap, pc: nat) returns (r: Option<nat>)
    requires h.Valid()
    modifies h.car, h.cdr, h.typ, h.mark, h.flip, h.vectorUsed, h`freeCells, h`freeCount, h`usedCount, h`free, h`reg4,
             h`cont
    ensures r.Some? ==> h.Valid() && h.reg4 == NIL && Saved(h, old(h.cont), h.env, pc)
    ensures r.Some? ==> Agree(old(h.Graph()), h.Graph(), old(Lasting(h)))
    ensures r.None? ==> h.Room() == {}
  {
    hide Agree, Lasting, Saved;
    ghost var g, lasting := h.Graph(), Lasting(h);
    var k :- NewReturn(h, pc);
    ghost var g' := h.Graph();
    r := NewContinuation(h);
    if r.Some? {
      AgreeOnwards(g, g', h.Graph(), lasting);
    }
  }

  /** All cells of an environment can be got to from its first pair. */
  lemma EnvironmentIsLive(h: Heap, byte: nat, top: nat, pairs: seq<nat>, closed: nat, cells: set<nat>)
    requires h.Shape() && byte < 0x100 && top < h.size && Environment(h, byte, h.reg1, top, pairs, closed)
    requires Closed(h.Graph(), cells) && (h.reg1 < h.size ==> h.reg1 in cells)
    ensures forall c :: c in pairs ==> c in cells
    ensures byte >= 0x80 ==> top in cells
    ensures closed < h.size ==> closed in cells
  {
    var g, count := h.Graph(), RestCount(byte, |pairs|);
    if byte >= 0x80 {
      var front := Reversed(pairs[count..]) + [top];
      PairsInClosed(g, h.reserved, h.reg1, front, closed, cells);
      assert front[|front| - 1] == top && top in front;
      PairAt(g, h.reserved, h.reg1, front, closed, |front| - 1);
      if g.car[top] < h.size {
        assert Edge(g, top, g.car[top]);
      }
      PairsInClosed(g, h.reserved, g.car[top], Reversed(pairs[..count]), NIL, cells);
      forall c | c in pairs
        ensures c in cells
      {
        assert pairs == pairs[..count] + pairs[count..];
        assert c in Reversed(pairs[..count]) || c in front;
      }
    } else {
      PairsInClosed(g, h.reserved, h.reg1, Reversed(pairs), closed, cells);
    }
  }

  /** An environment whose pairs are unchanged is unchanged. */
  lemma EnvironmentKept(h: Heap, g: Graph, byte: nat, top: nat, pairs: seq<nat>, closed: nat)
    requires h.Shape() && byte < 0x100 && WellShaped(g) && |g.car| == h.size && top < h.size
    requires var count := RestCount(byte, |pairs|);
             if byte >= 0x80 then
               && PairsAt(g, h.reserved, h.reg1, Reversed(pairs[count..]) + [top], closed)
               && PairsAt(g, h.reserved, g.car[top], Reversed(pairs[..count]), NIL)
             else
               PairsAt(g, h.reserved, h.reg1, Reversed(pairs), closed)
    requires forall c: nat :: (c in pairs || (byte >= 0x80 && c == top)) && c < h.size ==>
               h.car[c] == g.car[c] && h.cdr[c] == g.cdr[c] && h.typ[c] == g.typ[c]
    ensures Environment(h, byte, h.reg1, top, pairs, closed)
  {
    var count := RestCount(byte, |pairs|);
    if byte >= 0x80 {
      PairsFrame(g, h.Graph(), h.reserved, h.reg1, Reversed(pairs[count..]) + [top], closed);
      PairsFrame(g, h.Graph(), h.reserved, g.car[top], Reversed(pairs[..count]), NIL);
    } else {
      PairsFrame(g, h.Graph(), h.reserved, h.reg1, Reversed(pairs), closed);
    }
  }

  lemma {:induction false} PairAt(g: Graph, reserved: nat, p: nat, pairs: seq<nat>, rest: nat, k: nat)
    requires WellShaped(g) && PairsAt(g, reserved, p, pairs, rest) && k < |pairs|
    ensures reserved <= pairs[k] < |g.car| && g.typ[pairs[k]] == CONS_TYPE
    decreases k
  {
    if k > 0 {
      PairAt(g, reserved, g.cdr[p], pairs[1..], rest, k - 1);
    }
  }

  /** The next of a pair on the list is on it, or behind it. */
  lemma {:induction false} PairsFollow(g: Graph, reserved: nat, p: nat, pairs: seq<nat>, rest: nat)
    requires WellShaped(g) && PairsAt(g, reserved, p, pairs, rest)
    ensures forall c :: c in pairs ==> c < |g.car| && g.typ[c] == CONS_TYPE && (g.cdr[c] in pairs || g.cdr[c] == rest)
    decreases pairs
  {
    if pairs != [] {
      var next := pairs[1..];
      PairsFollow(g, reserved, g.cdr[p], next, rest);
      assert if next == [] then g.cdr[p] == rest else g.cdr[p] == next[0] && next[0] in pairs;
      assert forall c :: c in pairs ==> c == p || c in next;
      assert forall c :: c in next ==> c in pairs;
    }
  }

  /** What was held before a call is held after the arguments are bound, but for
      the closure and the pair it came in. */
  lemma CallHolds(g: Graph, g': Graph, reserved: nat, top: nat, pairs: seq<nat>, stack: nat, roots: set<nat>,
      cells: set<nat>)
    requires WellShaped(g) && WellShaped(g') && PairsAt(g, reserved, top, [top] + pairs, stack)
    requires |g'.car| == |g.car| && g'.typ == g.typ && g.car[top] < |g.car| && g.typ[g.car[top]] == CLOSURE_TYPE
    requires forall c: nat :: c < |g.car| && c != top ==> g'.car[c] == g.car[c]
    requires forall c: nat :: c < |g.car| && c != top && c !in pairs ==> g'.cdr[c] == g.cdr[c]
    requires Closed(g', cells) && forall c :: c in pairs ==> c in cells
    requires stack < |g.car| ==> stack in cells
    requires g.car[g.car[top]] < |g.car| ==> g.car[g.car[top]] in cells
    requires forall r :: r in roots && r < |g.car| ==> r in cells || r == top
    ensures Live(g, roots) <= cells + {top, g.car[top]}
  {
    var f := g.car[top];
    PairsFollow(g, reserved, top, [top] + pairs, stack);
    assert top in [top] + pairs;
    forall a: nat, b: nat | Edge(g, a, b) && a in cells + {top, f}
      ensures b in cells + {top, f}
    {
      if a != top && a != f {
        if a in pairs {
          assert a in [top] + pairs;
        }
        if b == g.car[a] || a !in pairs {
          assert Edge(g', a, b);
        }
      }
    }
    LiveIsLeast(g, roots, cells + {top, f});
  }

  /** The cells of the program but for those that make up the call. */
  ghost function CallersCells(g: Graph, roots: set<nat>, top: nat, pairs: seq<nat>): set<nat>
    requires WellShaped(g) && top < |g.car|
  {
    Live(g, roots) - {top, g.car[top]} - (set c | c in pairs)
  }

  /** The arguments of the call that g shows are bound, and nothing else has
      changed. */
  ghost predicate Bound(h: Heap, g: Graph, byte: nat, top: nat, pairs: seq<nat>, stack: nat)
    requires WellShaped(g)
    reads h, h.car, h.cdr, h.typ, h.mark, h.flip
  {
    && h.Valid() && |g.car| == h.size && top < h.size && PairsAt(g, h.reserved, top, [top] + pairs, stack)
    && g.car[top] < h.size && g.typ[g.car[top]] == CLOSURE_TYPE && g.typ == h.typ[..]
    && (forall c: nat :: c < h.size && c != top ==> h.car[c] == g.car[c])
    && (forall c: nat :: c < h.size && c != top && c !in pairs ==> h.cdr[c] == g.cdr[c])
    && byte < 0x100 && Environment(h, byte, h.reg1, top, pairs, g.car[g.car[top]])
    && h.env == stack
  }

  /** Then the caller's cells, the pairs of the environment and what they lead to
      are all held. */
  lemma BoundIsHeld(h: Heap, g: Graph, roots: set<nat>, byte: nat, top: nat, pairs: seq<nat>, stack: nat)
    requires WellShaped(g) && Bound(h, g, byte, top, pairs, stack) && roots <= ProgramRoots(h) + {top}
    ensures Live(g, roots) <= Lasting(h) + {top, g.car[top]}
    ensures forall c :: c in pairs ==> c in Lasting(h)
    ensures byte >= 0x80 ==> top in Lasting(h)
  {
    LiveIsClosed(h.Graph(), ProgramRoots(h) + {h.reg1, h.reg2, h.reg3});
    EnvironmentIsLive(h, byte, top, pairs, g.car[g.car[top]], Lasting(h));
    CallHolds(g, h.Graph(), h.reserved, top, pairs, stack, roots, Lasting(h));
  }

  /** Saving the caller leaves the environment and the caller's cells alone. */
  lemma CallerKept(h: Heap, g: Graph, g': Graph, cells: set<nat>, lasting: set<nat>, top: nat, pairs: seq<nat>)
    requires h.Shape() && WellShaped(g) && WellShaped(g') && |g.car| == |g'.car| && g'.typ == g.typ
    requires forall c: nat :: c < |g.car| && c != top ==> g'.car[c] == g.car[c]
    requires forall c: nat :: c < |g.car| && c != top && c !in pairs ==> g'.cdr[c] == g.cdr[c]
    requires top !in cells && (forall c :: c in pairs ==> c !in cells) && cells <= lasting
             && Agree(g', h.Graph(), lasting)
    ensures Agree(g, h.Graph(), cells)
  {
  }

  /** Saves the caller of a procedure whose arguments are bound, and enters it. */
  method EnterProcedure(h: Heap, here: nat, ghost g: Graph, ghost roots: set<nat>, ghost byte: nat, ghost top: nat,
      ghost pairs: seq<nat>, ghost stack: nat) returns (r: Option<nat>)
    requires WellShaped(g) && Bound(h, g, byte, top, pairs, stack) && roots <= ProgramRoots(h) + {top}
    modifies h.car, h.cdr, h.typ, h.mark, h.flip, h.vectorUsed, h`freeCells, h`freeCount, h`usedCount, h`free, h`env,
             h`cont, h`reg1, h`reg2, h`reg4
    ensures r.Some? ==> h.Valid() && h.reg1 == h.reg2 == h.reg4 == NIL && Saved(h, old(h.cont), stack, here)
    ensures r.Some? ==> Environment(h, byte, h.env, top, pairs, g.car[g.car[top]])
    ensures r.Some? ==> Agree(g, h.Graph(), CallersCells(g, roots, top, pairs))
    ensures r.None? ==> h.Room() == {}
  {
    ghost var g', lasting := h.Graph(), Lasting(h);
    BoundIsHeld(h, g, roots, byte, top, pairs, stack);
    r := SaveCont(h, here);
    if r.Some? {
      EnvironmentKept(h, g', byte, top, pairs, g.car[g.car[top]]);
      CallerKept(h, g, g', CallersCells(g, roots, top, pairs), lasting, top, pairs);
      EnterEnvironment(h);
    }
  }

  /** A call of the closure on the stack: the caller is saved, and its procedure
      starts in the environment made of the arguments. */
  method CallClosure(h: Heap, program: seq<nat>, here: nat, nbrArgs: nat, ghost top: nat, ghost pairs: seq<nat>,
      ghost stack: nat)
      returns (pc: Option<nat>)
    requires h.Valid() && nbrArgs == |pairs| && Distinct([top] + pairs)
    requires PairsAt(h.Graph(), h.reserved, h.env, [top] + pairs, stack)
    requires IsClosure(h, h.car[top]) ==> h.cdr[h.car[top]] < |program| && program[h.cdr[h.car[top]]] < 0x100
    modifies h.car, h.cdr, h.typ, h.mark, h.flip, h.vectorUsed, h`freeCells, h`freeCount, h`usedCount, h`free, h`env,
             h`cont, h`reg1, h`reg2, h`reg3, h`reg4
    ensures pc.Some? ==> h.Valid() && h.reg1 == h.reg2 == h.reg4 == NIL && Saved(h, old(h.cont), stack, here)
    ensures pc.Some? ==> old(IsClosure(h, h.car[top])) && pc.value == old(h.cdr[h.car[top]]) + 1
    ensures pc.Some? ==> Environment(h, program[pc.value - 1], h.env, top, pairs, old(h.car[h.car[top]]))
    ensures pc.Some? ==> Agree(old(h.Graph()), h.Graph(), old(CallersCells(h.Graph(), ProgramRoots(h), top, pairs)))
    ensures pc.None? ==> !old(IsClosure(h, h.car[top])) || h.Room() == {}
  {
    ghost var g, roots := h.Graph(), ProgramRoots(h);
    var entry :- BindArguments(h, program, nbrArgs, top, pairs, stack);
    pc := EnterProcedure(h, here, g, roots, program[entry - 1], top, pairs, stack);
    if pc.Some? {
      pc := Some(entry);
    }
  }
}
