/** Unlimited integers in the heap: a coded small integer, or a cell with the
    low 16 bits and a link to the integer made of the remaining bits. */
module Integers {
  import opened VmArch
  import opened Wrappers

  const MAX_SMALL: int := 255
  const MIN_SMALL: int := -1

  datatype RomCell = RomCell(car: nat, cdr: nat, typ: nat)

  /** The two heaps integers live in. The first reserved RAM cells hold global
      variables. */
  datatype Memory = Memory(g: Graph, reserved: nat, rom: seq<RomCell>)

  ghost predicate Sound(m: Memory) {
    && WellShaped(m.g)
    && |m.g.car| < ROM_START
    && |m.rom| <= SMALL_INT_START - ROM_START
  }

  // A digit is 16 bits wide.

  predicate IsDigit(d: int) { 0 <= d < 0x1_0000 }

  function Low(v: int): (d: nat)
    ensures IsDigit(d)
  {
    v % 0x1_0000
  }

  /** What is left of v without its low digit, rounding down. */
  function High(v: int): int { v / 0x1_0000 }

  function Join(d: int, v: int): int { d + 0x1_0000 * v }

  predicate IsSmall(v: int) { MIN_SMALL <= v <= MAX_SMALL }

  function Encode(v: int): nat
    requires IsSmall(v)
  {
    v + 1 + SMALL_INT_START
  }

  ghost predicate InRam(m: Memory, x: nat) {
    m.reserved <= x < |m.g.car|
  }

  ghost predicate InRom(m: Memory, x: nat) {
    ROM_START <= x < ROM_START + |m.rom|
  }

  ghost predicate IsBignum(m: Memory, x: nat)
    requires Sound(m)
  {
    || (InRam(m, x) && m.g.typ[x] == BIGNUM_TYPE)
    || (InRom(m, x) && m.rom[x - ROM_START].typ == BIGNUM_TYPE)
  }

  /** The integer without its low 16 bits, rounding down. */
  ghost function Hi(m: Memory, x: nat): nat
    requires Sound(m)
  {
    if InRam(m, x) then m.g.car[x]
    else if InRom(m, x) then m.rom[x - ROM_START].car
    else if x == NEG1 then NEG1
    else ZERO
  }

  /** The low 16 bits, read as an unsigned digit. */
  ghost function Lo(m: Memory, x: nat): nat
    requires Sound(m)
  {
    if InRam(m, x) then Low(m.g.cdr[x])
    else if InRom(m, x) then Low(m.rom[x - ROM_START].cdr)
    else Low((x % 0x200) - 1)
  }

  /** How far v is from 0 or -1, the integers every chain of digits ends in. */
  function Magnitude(v: int): nat {
    if v >= 0 then v else -v - 1
  }

  /** The address x holds v, in canonical form: small values are coded, others
      are cells whose link holds the higher bits in canonical form. */
  ghost predicate Holds(m: Memory, x: nat, v: int)
    requires Sound(m)
    decreases Magnitude(v)
  {
    if IsSmall(v) then
      x == Encode(v)
    else
      IsBignum(m, x) && Lo(m, x) == Low(v) && Holds(m, Hi(m, x), High(v))
  }

  /** The RAM cells an integer is made of. */
  ghost function Cells(m: Memory, x: nat, v: int): set<nat>
    requires Sound(m)
    decreases Magnitude(v)
  {
    if IsSmall(v) then {}
    else (if InRam(m, x) then {x} else {}) + Cells(m, Hi(m, x), High(v))
  }

  lemma CodedIsNoCell(m: Memory, x: nat)
    requires Sound(m) && SMALL_INT_START <= x
    ensures !InRam(m, x) && !InRom(m, x)
  {
  }

  /** Taking an integer apart: the two readers give the remainder and the
      quotient by 2^16, and the quotient is again canonical. */
  lemma HoldsApart(m: Memory, x: nat, v: int)
    requires Sound(m) && Holds(m, x, v)
    ensures Lo(m, x) == Low(v)
    ensures Holds(m, Hi(m, x), High(v))
    ensures Cells(m, Hi(m, x), High(v)) <= Cells(m, x, v)
    ensures x == ZERO <==> v == 0
    ensures x == NEG1 <==> v == -1
    ensures v != 0 && v != -1 ==> Magnitude(High(v)) < Magnitude(v)
  {
    if IsSmall(v) {
      CodedIsNoCell(m, x);
      assert x % 0x200 == v + 1;
    }
  }

  /** A canonical address holds one value only. */
  lemma {:induction false} HoldsOnce(m: Memory, x: nat, v: int, w: int)
    requires Sound(m) && Holds(m, x, v) && Holds(m, x, w)
    ensures v == w
    decreases Magnitude(v)
  {
    if !IsSmall(v) && !IsSmall(w) {
      HoldsOnce(m, Hi(m, x), High(v), High(w));
      assert v == Join(Low(v), High(v)) && w == Join(Low(w), High(w));
    }
  }

  /** Heaps that agree on an integer's cells hold the same integer there. */
  lemma {:induction false} HoldsFrame(m: Memory, m': Memory, x: nat, v: int)
    requires Sound(m) && Sound(m') && m.reserved == m'.reserved && m.rom == m'.rom
    requires Holds(m, x, v) && Agree(m.g, m'.g, Cells(m, x, v))
    ensures Holds(m', x, v) && Cells(m', x, v) == Cells(m, x, v)
    decreases Magnitude(v)
  {
    if !IsSmall(v) {
      HoldsFrame(m, m', Hi(m, x), High(v));
    }
  }

  ghost predicate RomClosed(m: Memory) {
    forall i :: 0 <= i < |m.rom| && m.rom[i].typ == BIGNUM_TYPE ==> m.rom[i].car >= ROM_START
  }

  /** All cells of a live integer are live. */
  lemma {:induction false} CellsInClosed(m: Memory, x: nat, v: int, live: set<nat>)
    requires Sound(m) && RomClosed(m) && Holds(m, x, v) && Closed(m.g, live)
    requires x < |m.g.car| ==> x in live
    ensures Cells(m, x, v) <= live
    decreases Magnitude(v)
  {
    if !IsSmall(v) {
      if InRam(m, x) && Hi(m, x) < |m.g.car| {
        assert Edge(m.g, x, Hi(m, x));
      }
      CellsInClosed(m, Hi(m, x), High(v), live);
    }
  }

  /** The cells of an integer have no links but to each other. */
  lemma {:induction false} CellsClosed(m: Memory, x: nat, v: int)
    requires Sound(m) && RomClosed(m) && Holds(m, x, v)
    ensures Closed(m.g, Cells(m, x, v))
    ensures x < |m.g.car| ==> x in Cells(m, x, v)
    ensures forall c :: c in Cells(m, x, v) ==> m.reserved <= c < |m.g.car|
    decreases Magnitude(v)
  {
    if IsSmall(v) {
      CodedIsNoCell(m, x);
    } else {
      var h := Hi(m, x);
      CellsClosed(m, h, High(v));
      var cs := Cells(m, x, v);
      forall a: nat, b: nat | Edge(m.g, a, b) && a in cs
        ensures b in cs
      {
        if a !in Cells(m, h, High(v)) {
          assert b == h;
        }
      }
    }
  }

  // Digits not yet in place.

  /** The integer made of the digits, last digit lowest, below v. */
  ghost function Attach(digits: seq<nat>, v: int): int {
    if digits == [] then v else Attach(digits[1..], Join(digits[0], v))
  }

  /** A list of digit cells that ends in NIL. The cells are distinct and none of
      them is kept. */
  ghost predicate Prefix(m: Memory, p: nat, digits: seq<nat>, cells: seq<nat>, kept: set<nat>)
    requires Sound(m)
    decreases digits
  {
    && |digits| == |cells|
    && if digits == [] then
         p == NIL
       else
         && p == cells[0] && InRam(m, p) && m.g.typ[p] == BIGNUM_TYPE && m.g.cdr[p] == digits[0] && IsDigit(digits[0])
         && p !in cells[1..] && p !in kept
         && Prefix(m, m.g.car[p], digits[1..], cells[1..], kept)
  }

  lemma {:induction false} PrefixFrame(m: Memory, m': Memory, p: nat, digits: seq<nat>, cells: seq<nat>,
      kept: set<nat>, kept': set<nat>)
    requires Sound(m) && Sound(m') && m.reserved == m'.reserved
    requires Prefix(m, p, digits, cells, kept)
    requires |m.g.car| == |m'.g.car|
    requires forall c :: c in cells ==> c !in kept'
    requires forall c :: c in cells && c < |m.g.car| ==>
               m.g.car[c] == m'.g.car[c] && m.g.cdr[c] == m'.g.cdr[c] && m.g.typ[c] == m'.g.typ[c]
    ensures Prefix(m', p, digits, cells, kept')
    decreases digits
  {
    if digits != [] {
      assert cells[0] in cells;
      PrefixFrame(m, m', m.g.car[p], digits[1..], cells[1..], kept, kept');
    }
  }

  lemma {:induction false} PrefixInClosed(m: Memory, p: nat, digits: seq<nat>, cells: seq<nat>, kept: set<nat>,
      live: set<nat>)
    requires Sound(m) && Prefix(m, p, digits, cells, kept) && Closed(m.g, live)
    requires p < |m.g.car| ==> p in live
    ensures forall c :: c in cells ==> m.reserved <= c < |m.g.car| && c in live && c !in kept
    decreases digits
  {
    if digits != [] {
      if m.g.car[p] < |m.g.car| {
        assert Edge(m.g, p, m.g.car[p]);
      }
      PrefixInClosed(m, m.g.car[p], digits[1..], cells[1..], kept, live);
      assert forall c :: c in cells ==> c == p || c in cells[1..];
    }
  }

  ghost function CellSet(cells: seq<nat>): set<nat> {
    set c | c in cells
  }

  /** Digits waiting to be put below an integer, all within the given cells. */
  ghost predicate Pending(m: Memory, prefix: nat, digits: seq<nat>, cells: seq<nat>, n: nat, v: int, all: set<nat>)
    requires Sound(m)
  {
    && Prefix(m, prefix, digits, cells, {})
    && Holds(m, n, v)
    && Cells(m, n, v) !! CellSet(cells)
    && Cells(m, n, v) <= all
    && CellSet(cells) <= all
  }

  lemma NextDigit(m: Memory, prefix: nat, digits: seq<nat>, cells: seq<nat>, n: nat, v: int, all: set<nat>)
    requires Sound(m) && Pending(m, prefix, digits, cells, n, v, all) && digits != []
    ensures prefix in CellSet(cells) && prefix < |m.g.car| && prefix !in CellSet(cells[1..])
    ensures CellSet(cells[1..]) <= CellSet(cells)
    ensures Lo(m, prefix) == digits[0] && IsDigit(digits[0]) && Hi(m, prefix) == m.g.car[prefix]
    ensures n == ZERO <==> v == 0
    ensures n == NEG1 <==> v == -1
    ensures IsSmall(Join(digits[0], v)) <==> (v == 0 && digits[0] <= 255) || (v == -1 && digits[0] >= 0xFFFF)
  {
    assert cells[0] in cells;
    HoldsApart(m, n, v);
  }

  /** A coded small integer absorbs the digit and the digit's cell is dropped. */
  lemma AbsorbDigit(m: Memory, prefix: nat, digits: seq<nat>, cells: seq<nat>, n: nat, v: int, all: set<nat>)
    requires Sound(m) && Pending(m, prefix, digits, cells, n, v, all) && digits != []
    requires IsSmall(Join(digits[0], v))
    ensures var w := Join(digits[0], v); Pending(m, Hi(m, prefix), digits[1..], cells[1..], Encode(w), w, all)
  {
    NextDigit(m, prefix, digits, cells, n, v, all);
  }

  /** Otherwise the digit's cell becomes the lowest cell of the integer. */
  lemma LinkDigit(m: Memory, m': Memory, prefix: nat, digits: seq<nat>, cells: seq<nat>, n: nat, v: int, all: set<nat>)
    requires Sound(m) && Pending(m, prefix, digits, cells, n, v, all) && digits != []
    requires !IsSmall(Join(digits[0], v))
    requires prefix < |m.g.car| && m' == m.(g := m.g.(car := m.g.car[prefix := n]))
    ensures Sound(m')
    ensures Pending(m', Hi(m, prefix), digits[1..], cells[1..], prefix, Join(digits[0], v), all)
  {
    NextDigit(m, prefix, digits, cells, n, v, all);
    assert forall c :: c in cells[1..] ==> c in CellSet(cells[1..]);
    PrefixFrame(m, m', m.g.car[prefix], digits[1..], cells[1..], {}, {});
    HoldsFrame(m, m', n, v);
    var w := Join(digits[0], v);
    assert High(w) == v && Low(w) == digits[0];
    assert Cells(m', prefix, w) == {prefix} + Cells(m, n, v);
  }

  /** An integer all of whose cells are among the kept ones. */
  ghost predicate IsOperand(m: Memory, x: nat, v: int, kept: set<nat>)
    requires Sound(m)
  {
    Holds(m, x, v) && Cells(m, x, v) <= kept
  }

  /** Two memories with the same ROM that agree on the kept cells. */
  ghost predicate SameKept(m: Memory, m': Memory, kept: set<nat>)
    requires Sound(m) && Sound(m')
  {
    m.reserved == m'.reserved && m.rom == m'.rom && Agree(m.g, m'.g, kept)
  }

  /** Reading an operand of memory m in a later memory m' that kept its cells. */
  lemma TakeApart(m: Memory, m': Memory, x: nat, v: int, kept: set<nat>)
    requires Sound(m) && Sound(m') && SameKept(m, m', kept) && IsOperand(m, x, v, kept)
    ensures Lo(m', x) == Low(v)
    ensures IsOperand(m, Hi(m', x), High(v), kept)
    ensures x == ZERO <==> v == 0
    ensures x == NEG1 <==> v == -1
    ensures v != 0 && v != -1 ==> Magnitude(High(v)) < Magnitude(v)
    ensures v == 0 || v == -1 ==> High(v) == v
  {
    HoldsApart(m, x, v);
    HoldsFrame(m, m', x, v);
    HoldsApart(m', x, v);
    if IsSmall(v) {
      CodedIsNoCell(m, x);
    }
  }

  lemma OperandLater(m: Memory, m': Memory, x: nat, v: int, kept: set<nat>)
    requires Sound(m) && Sound(m') && SameKept(m, m', kept) && IsOperand(m, x, v, kept)
    ensures IsOperand(m', x, v, kept)
  {
    HoldsFrame(m, m', x, v);
  }

  /** An integer leads to none but its own cells. */
  lemma IntegerReachesItself(m: Memory, x: nat, v: int)
    requires Sound(m) && RomClosed(m) && Holds(m, x, v)
    ensures Live(m.g, {x}) <= Cells(m, x, v)
  {
    CellsClosed(m, x, v);
    LiveIsLeast(m.g, {x}, Cells(m, x, v));
  }

  lemma AttachNone(v: int)
    ensures Attach([], v) == v
  {
  }

  lemma AttachOne(d: nat, digits: seq<nat>, v: int)
    ensures Attach([d] + digits, v) == Attach(digits, Join(d, v))
  {
    assert ([d] + digits)[1..] == digits;
  }

  lemma JoinApart(v: int)
    ensures Join(Low(v), High(v)) == v
  {
  }

  /** The bits of v turned over. */
  function Invert(v: int): int { -v - 1 }

  lemma InvertApart(v: int)
    ensures Low(Invert(v)) == 0xFFFF - Low(v) && High(Invert(v)) == Invert(High(v))
    ensures Magnitude(Invert(v)) == Magnitude(v)
  {
  }

  predicate IsCarry(c: nat) { c == ZERO || c == NEG1 }

  function CarryValue(negc: nat): nat {
    if negc == NEG1 then 1 else 0
  }

  /** A carry is 0 or 1; the code keeps it as the integer 0 or -1. */
  function NegativeCarry(carry: bool): nat {
    if carry then NEG1 else ZERO
  }
}
