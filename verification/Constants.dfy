/** The constant pool of a program: which objects get an entry, how they are
    encoded, and what the machine reads in ROM. */
module Constants {
  import opened Wrappers
  import opened VmArch
  import opened Integers

  datatype Obj =
    | False
    | True
    | Nil
    | Int(v: int)
    | Char(c: nat)
    | Symbol(name: nat)
    | Pair(car: Obj, cdr: Obj)
    | Str(chars: seq<nat>)
    | Vec(elems: seq<Obj>)
    | U8Vec(bytes: seq<nat>)

  function ListOf(os: seq<Obj>): Obj {
    if os == [] then Nil else Pair(os[0], ListOf(os[1..]))
  }

  function Ints(ns: seq<nat>): (os: seq<Obj>)
    ensures |os| == |ns|
  {
    seq(|ns|, i requires 0 <= i < |ns| => Int(ns[i]))
  }

  /** Characters are integers. */
  function Translate(o: Obj): Obj {
    if o.Char? then Int(o.c) else o
  }

  const MIN_ROM_ENCODING: nat := 260

  function EncodeDirect(o: Obj): Option<nat> {
    match o
    case False => Some(0)
    case True => Some(1)
    case Nil => Some(2)
    case Int(v) => if MIN_SMALL <= v <= MAX_SMALL then Some(v + 4) else None
    case _ => None
  }

  // How large an object is, so that adding it ends.

  function Weight(o: Obj): nat {
    match o
    case Int(v) => 1 + Magnitude(v)
    case Pair(a, b) => 1 + Weight(a) + Weight(b)
    case Char(c) => 1 + c
    case Str(chars) => 1 + WeightOfInts(chars)
    case Vec(elems) => 1 + WeightOfAll(elems)
    case U8Vec(bytes) => 1 + WeightOfInts(bytes)
    case _ => 1
  }

  function WeightOfAll(os: seq<Obj>): nat {
    if os == [] then 1 else 1 + Weight(os[0]) + WeightOfAll(os[1..])
  }

  function WeightOfInts(ns: seq<nat>): nat {
    if ns == [] then 1 else 2 + ns[0] + WeightOfInts(ns[1..])
  }

  lemma {:induction false} ListWeighs(os: seq<Obj>)
    ensures Weight(ListOf(os)) == WeightOfAll(os)
  {
    if os != [] {
      ListWeighs(os[1..]);
    }
  }

  lemma {:induction false} IntsWeigh(ns: seq<nat>)
    ensures Weight(ListOf(Ints(ns))) == WeightOfInts(ns)
  {
    if ns != [] {
      assert Ints(ns)[1..] == Ints(ns[1..]);
      IntsWeigh(ns[1..]);
    }
  }

  /** What has to be in the pool for an entry to be assembled. */
  function Parts(o: Obj): seq<Obj> {
    match o
    case Int(v) => [Int(High(v))]
    case Pair(a, b) => [a, b]
    case Str(chars) => [ListOf(Ints(chars))]
    case Vec(elems) => [ListOf(elems)]
    case U8Vec(bytes) => [ListOf(Ints(bytes))]
    case _ => []
  }

  lemma PartsWeighLess(o: Obj)
    ensures forall p :: p in Parts(o) && EncodeDirect(o).None? ==> Weight(Translate(p)) < Weight(o)
  {
    match o {
      case Str(chars) => IntsWeigh(chars);
      case Vec(elems) => ListWeighs(elems);
      case U8Vec(bytes) => IntsWeigh(bytes);
      case _ =>
    }
  }

  /** An object with a direct code, or an entry of its own. */
  predicate Encodable(o: Obj, pool: seq<Obj>) {
    EncodeDirect(Translate(o)).Some? || Translate(o) in pool
  }

  /** Adds an object and all it is made of. */
  function AddConstant(o: Obj, pool: seq<Obj>): seq<Obj>
    decreases Weight(Translate(o)), 1
  {
    var t := Translate(o);
    if Encodable(o, pool) then pool
    else
      PartsWeighLess(t);
      AddAll(Parts(t), pool + [t], Weight(t))
  }

  function AddAll(os: seq<Obj>, pool: seq<Obj>, limit: nat): seq<Obj>
    requires forall o :: o in os ==> Weight(Translate(o)) < limit
    decreases limit, 0, |os|
  {
    if os == [] then pool else AddAll(os[1..], AddConstant(os[0], pool), limit)
  }

  /** Every entry can be assembled. */
  ghost predicate PartsIn(o: Obj, pool: seq<Obj>) {
    forall p :: p in Parts(o) ==> Encodable(p, pool)
  }

  ghost predicate Closed(pool: seq<Obj>) {
    forall o :: o in pool ==> PartsIn(o, pool)
  }

  /** Entries are translated objects without a direct code. */
  ghost predicate Entries(pool: seq<Obj>) {
    && (forall o :: o in pool ==> !o.Char? && EncodeDirect(o).None?)
    && (forall i, j :: 0 <= i < j < |pool| ==> pool[i] != pool[j])
  }

  /** All the new pool has beyond the old one can be assembled. */
  ghost predicate Extends(pool: seq<Obj>, pool': seq<Obj>) {
    && (forall o :: o in pool ==> o in pool')
    && (forall o :: o in pool' && o !in pool ==> PartsIn(o, pool'))
    && (Entries(pool) ==> Entries(pool'))
  }

  lemma ExtendsOnwards(a: seq<Obj>, b: seq<Obj>, c: seq<Obj>)
    requires Extends(a, b) && Extends(b, c)
    ensures Extends(a, c)
  {
    forall o | o in c && o !in a
      ensures PartsIn(o, c)
    {
      if o in b {
        assert PartsIn(o, b);
      }
    }
  }

  lemma {:induction false} AddedIsEncodable(o: Obj, pool: seq<Obj>)
    ensures Extends(pool, AddConstant(o, pool)) && Encodable(o, AddConstant(o, pool))
    decreases Weight(Translate(o)), 1
  {
    var t := Translate(o);
    if !Encodable(o, pool) {
      PartsWeighLess(t);
      var pool' := AddConstant(o, pool);
      AllAreEncodable(Parts(t), pool + [t], Weight(t));
      assert t in pool + [t];
      forall x | x in pool' && x !in pool
        ensures PartsIn(x, pool')
      {
        assert x == t || x !in pool + [t];
      }
    }
  }

  lemma {:induction false} AllAreEncodable(os: seq<Obj>, pool: seq<Obj>, limit: nat)
    requires forall o :: o in os ==> Weight(Translate(o)) < limit
    ensures Extends(pool, AddAll(os, pool, limit)) && forall o :: o in os ==> Encodable(o, AddAll(os, pool, limit))
    decreases limit, 0, |os|
  {
    if os != [] {
      var middle := AddConstant(os[0], pool);
      AddedIsEncodable(os[0], pool);
      AllAreEncodable(os[1..], middle, limit);
      ExtendsOnwards(pool, middle, AddAll(os[1..], middle, limit));
      forall o | o in os
        ensures Encodable(o, AddAll(os, pool, limit))
      {
        assert o == os[0] || o in os[1..];
      }
    }
  }

  /** All constants of a program, one after the other. */
  function PoolOf(os: seq<Obj>, pool: seq<Obj>): seq<Obj> {
    if os == [] then pool else PoolOf(os[1..], AddConstant(os[0], pool))
  }

  lemma {:induction false} PoolIsClosed(os: seq<Obj>, pool: seq<Obj>)
    requires Closed(pool) && Entries(pool)
    ensures Closed(PoolOf(os, pool)) && Entries(PoolOf(os, pool))
    ensures forall o :: o in pool ==> o in PoolOf(os, pool)
    ensures forall o :: o in os ==> Encodable(o, PoolOf(os, pool))
    decreases |os|
  {
    if os != [] {
      var middle := AddConstant(os[0], pool);
      AddedIsEncodable(os[0], pool);
      forall o | o in middle
        ensures PartsIn(o, middle)
      {
        if o in pool {
          assert PartsIn(o, pool);
        }
      }
      PoolIsClosed(os[1..], middle);
      forall o | o in os
        ensures Encodable(o, PoolOf(os, pool))
      {
        assert o == os[0] || o in os[1..];
      }
    }
  }

  // The order of the pool.

  /** A pool may be put in any order. */
  lemma OrderIsFree(pool: seq<Obj>, pool': seq<Obj>)
    requires multiset(pool) == multiset(pool') && Closed(pool) && Entries(pool)
    ensures Closed(pool') && Entries(pool')
    ensures forall o :: Encodable(o, pool') <==> Encodable(o, pool)
  {
    assert forall o :: o in pool' <==> o in multiset(pool');
    assert forall o :: o in pool <==> o in multiset(pool);
    forall o | o in pool'
      ensures PartsIn(o, pool')
    {
      assert PartsIn(o, pool);
    }
    forall i, j | 0 <= i < j < |pool'|
      ensures pool'[i] != pool'[j]
    {
      if pool'[i] == pool'[j] {
        TwiceThere(pool', i, j);
        OnceThere(pool, pool'[i]);
      }
    }
  }

  lemma TwiceThere(pool: seq<Obj>, i: nat, j: nat)
    requires i < j < |pool| && pool[i] == pool[j]
    ensures multiset(pool)[pool[i]] >= 2
  {
    assert pool == pool[..j] + pool[j..];
    assert pool[..j][i] == pool[i] && pool[j..][0] == pool[i];
  }

  lemma {:induction false} OnceThere(pool: seq<Obj>, o: Obj)
    requires forall i, j :: 0 <= i < j < |pool| ==> pool[i] != pool[j]
    ensures multiset(pool)[o] <= 1
  {
    if pool != [] {
      assert pool == [pool[0]] + pool[1..];
      OnceThere(pool[1..], o);
      if o == pool[0] {
        assert o !in pool[1..];
      }
    }
  }

  /** How often the code pushes a constant that the entry stands for. */
  function Uses(o: Obj, os: seq<Obj>): nat {
    if os == [] then 0 else (if Translate(os[0]) == o then 1 else 0) + Uses(o, os[1..])
  }

  /** Behind all entries used at least as often. */
  function Insert(o: Obj, sorted: seq<Obj>, os: seq<Obj>): seq<Obj> {
    if sorted == [] then [o]
    else if Uses(sorted[0], os) >= Uses(o, os) then [sorted[0]] + Insert(o, sorted[1..], os)
    else [o] + sorted
  }

  function SortConstants(pool: seq<Obj>, os: seq<Obj>): seq<Obj> {
    if pool == [] then []
    else
      var n := |pool| - 1;
      Insert(pool[n], SortConstants(pool[..n], os), os)
  }

  ghost predicate MostUsedFirst(pool: seq<Obj>, os: seq<Obj>) {
    forall i, j :: 0 <= i < j < |pool| ==> Uses(pool[i], os) >= Uses(pool[j], os)
  }

  lemma FirstOfAll(x: Obj, rest: seq<Obj>, os: seq<Obj>)
    requires MostUsedFirst(rest, os) && forall y :: y in rest ==> Uses(x, os) >= Uses(y, os)
    ensures MostUsedFirst([x] + rest, os)
  {
  }

  lemma {:induction false} InsertAdds(o: Obj, sorted: seq<Obj>, os: seq<Obj>)
    ensures multiset(Insert(o, sorted, os)) == multiset(sorted) + multiset{o}
  {
    if sorted != [] && Uses(sorted[0], os) >= Uses(o, os) {
      InsertAdds(o, sorted[1..], os);
      assert sorted == [sorted[0]] + sorted[1..];
    }
  }

  lemma {:induction false} InsertKeeps(o: Obj, sorted: seq<Obj>, os: seq<Obj>)
    requires MostUsedFirst(sorted, os)
    ensures MostUsedFirst(Insert(o, sorted, os), os)
  {
    if sorted == [] {
      FirstOfAll(o, [], os);
    } else if Uses(sorted[0], os) >= Uses(o, os) {
      var rest := Insert(o, sorted[1..], os);
      InsertKeeps(o, sorted[1..], os);
      InsertAdds(o, sorted[1..], os);
      forall x | x in rest
        ensures Uses(sorted[0], os) >= Uses(x, os)
      {
        assert x in multiset(rest);
        assert x == o || x in sorted[1..];
      }
      FirstOfAll(sorted[0], rest, os);
    } else {
      FirstOfAll(o, sorted, os);
    }
  }

  /** Sorting loses no entry and doubles none, and the most used come first. */
  lemma {:induction false} SortedByUse(pool: seq<Obj>, os: seq<Obj>)
    ensures multiset(SortConstants(pool, os)) == multiset(pool)
    ensures MostUsedFirst(SortConstants(pool, os), os)
  {
    if pool != [] {
      var n := |pool| - 1;
      SortedByUse(pool[..n], os);
      InsertKeeps(pool[n], SortConstants(pool[..n], os), os);
      InsertAdds(pool[n], SortConstants(pool[..n], os), os);
      assert pool == pool[..n] + [pool[n]];
    }
  }

  /** The pool of a program whose code pushes these constants. */
  function ProgramPool(os: seq<Obj>): (pool: seq<Obj>)
    ensures Closed(pool) && Entries(pool)
  {
    PoolIsClosed(os, []);
    SortedByUse(PoolOf(os, []), os);
    OrderIsFree(PoolOf(os, []), SortConstants(PoolOf(os, []), os));
    SortConstants(PoolOf(os, []), os)
  }

  /** Every constant of the program has a code. */
  lemma ProgramIsEncodable(os: seq<Obj>)
    ensures forall o :: o in os ==> Encodable(o, ProgramPool(os))
  {
    PoolIsClosed(os, []);
    SortedByUse(PoolOf(os, []), os);
    OrderIsFree(PoolOf(os, []), ProgramPool(os));
  }

  // The ROM image.

  function IndexIn(pool: seq<Obj>, o: Obj): (k: nat)
    requires o in pool
    ensures k < |pool| && pool[k] == o
  {
    if pool[0] == o then 0 else 1 + IndexIn(pool[1..], o)
  }

  function Code(o: Obj, pool: seq<Obj>): nat
    requires Encodable(o, pool)
  {
    match EncodeDirect(Translate(o))
    case Some(n) => n
    case None => MIN_ROM_ENCODING + IndexIn(pool, Translate(o))
  }

  /** Where the machine finds what a code stands for. */
  function Address(code: nat): nat {
    if code < 3 then code + FALSE
    else if code < MIN_ROM_ENCODING then code - 3 + SMALL_INT_START
    else code - MIN_ROM_ENCODING + ROM_START
  }

  /** The cell of an entry; an empty vector has none. */
  function CellOf(o: Obj, pool: seq<Obj>): RomCell
    requires PartsIn(o, pool) && (o.Vec? ==>
             o.elems != [] && Encodable(o.elems[0], pool) && Encodable(ListOf(o.elems[1..]), pool))
  {
    match o
    case Int(v) => RomCell(Address(Code(Int(High(v)), pool)), Low(v), BIGNUM_TYPE)
    case Pair(a, b) => RomCell(Address(Code(a, pool)), Address(Code(b, pool)), CONS_TYPE)
    case Str(chars) => RomCell(Address(Code(ListOf(Ints(chars)), pool)), NIL, STRING_TYPE)
    case Vec(elems) => RomCell(Address(Code(elems[0], pool)), Address(Code(ListOf(elems[1..]), pool)), CONS_TYPE)
    case U8Vec(bytes) => RomCell(|bytes|, Address(Code(ListOf(Ints(bytes)), pool)), VECTOR_TYPE)
    case _ => RomCell(NIL, NIL, SYMBOL_TYPE)
  }

  ghost predicate NoEmptyVectors(pool: seq<Obj>) {
    forall o :: o in pool && o.Vec? ==> o.elems != []
  }

  /** The list of a vector is an entry itself, and so its parts can be encoded. */
  lemma VectorPartsIn(o: Obj, pool: seq<Obj>)
    requires Closed(pool) && NoEmptyVectors(pool) && o in pool && o.Vec?
    ensures o.elems != [] && Encodable(o.elems[0], pool) && Encodable(ListOf(o.elems[1..]), pool)
  {
    var list := ListOf(o.elems);
    assert PartsIn(o, pool) && list in Parts(o);
    assert PartsIn(list, pool) && o.elems[0] in Parts(list) && ListOf(o.elems[1..]) in Parts(list);
  }

  ghost predicate IsImage(rom: seq<RomCell>, pool: seq<Obj>)
    requires Closed(pool) && NoEmptyVectors(pool)
  {
    && |rom| == |pool|
    && forall k :: 0 <= k < |pool| ==> IsCell(rom[k], pool[k], pool)
  }

  lemma CellIsDefined(o: Obj, pool: seq<Obj>)
    requires Closed(pool) && NoEmptyVectors(pool) && o in pool
    ensures PartsIn(o, pool) && (o.Vec? ==>
            o.elems != [] && Encodable(o.elems[0], pool) && Encodable(ListOf(o.elems[1..]), pool))
  {
    if o.Vec? {
      VectorPartsIn(o, pool);
    }
  }

  ghost predicate IsCell(cell: RomCell, o: Obj, pool: seq<Obj>)
    requires Closed(pool) && NoEmptyVectors(pool) && o in pool
  {
    CellIsDefined(o, pool);
    cell == CellOf(o, pool)
  }

  /** What the machine reads at an address: characters as integers, and vectors
      as lists. */
  ghost predicate Reads(m: Memory, x: nat, o: Obj)
    requires Sound(m)
    decreases Weight(Translate(o))
  {
    PartsWeighLess(o);
    match o
    case False => x == FALSE
    case True => x == TRUE
    case Nil => x == NIL
    case Int(v) => Holds(m, x, v)
    case Char(c) => Holds(m, x, c)
    case Symbol(_) => InRom(m, x) && m.rom[x - ROM_START].typ == SYMBOL_TYPE
    case Pair(a, b) =>
      InRom(m, x) && (var cell := m.rom[x - ROM_START];
        cell.typ == CONS_TYPE && Reads(m, cell.car, a) && Reads(m, cell.cdr, b))
    case Str(chars) =>
      InRom(m, x) && (var cell := m.rom[x - ROM_START];
        cell.typ == STRING_TYPE && Reads(m, cell.car, ListOf(Ints(chars))))
    case Vec(elems) => Reads(m, x, ListOf(elems))
    case U8Vec(bytes) =>
      InRom(m, x) && (var cell := m.rom[x - ROM_START];
                      cell.typ == VECTOR_TYPE && cell.car == |bytes| && Reads(m, cell.cdr, ListOf(Ints(bytes))))
  }

  function RomOf(pool: seq<Obj>): (rom: seq<RomCell>)
    requires Closed(pool) && NoEmptyVectors(pool)
    ensures IsImage(rom, pool)
  {
    seq(|pool|, k requires 0 <= k < |pool| => CellIsDefined(pool[k], pool); CellOf(pool[k], pool))
  }

  /** The pool has been assembled into the ROM of the machine. */
  ghost predicate Assembled(m: Memory, pool: seq<Obj>) {
    && Sound(m)
    && Closed(pool) && Entries(pool) && NoEmptyVectors(pool) && |pool| <= 255
    && IsImage(m.rom, pool)
  }

  lemma EntryIsThere(m: Memory, pool: seq<Obj>, o: Obj)
    requires Assembled(m, pool) && o in pool
    ensures var x := Address(Code(o, pool)); InRom(m, x) && !InRam(m, x) && IsCell(m.rom[x - ROM_START], o, pool)
  {
    assert Translate(o) == o && EncodeDirect(o).None?;
    var k := IndexIn(pool, o);
    assert IsCell(m.rom[k], pool[k], pool);
  }

  /** From the address that a push of the constant loads, the machine reads the
      constant, however it is nested. */
  lemma {:induction false} ConstantReadsBack(m: Memory, pool: seq<Obj>, o: Obj)
    requires Assembled(m, pool) && Encodable(o, pool)
    ensures Reads(m, Address(Code(o, pool)), o)
    decreases Weight(Translate(o))
  {
    var t, x := Translate(o), Address(Code(o, pool));
    if EncodeDirect(t).None? {
      EntryIsThere(m, pool, t);
      CellIsDefined(t, pool);
      PartsWeighLess(t);
      forall p | p in Parts(t) && !t.Vec?
        ensures Encodable(p, pool) && Reads(m, Address(Code(p, pool)), p)
      {
        ConstantReadsBack(m, pool, p);
      }
      PartsReadBack(m, pool, o, x);
    }
  }

  /** The cell of an entry, once its parts are known to read back. */
  lemma {:induction false} PartsReadBack(m: Memory, pool: seq<Obj>, o: Obj, x: nat)
    requires Assembled(m, pool) && Translate(o) in pool && x == Address(Code(o, pool))
    requires !Translate(o).Vec? ==> forall p :: p in Parts(Translate(o)) ==>
             Encodable(p, pool) && Reads(m, Address(Code(p, pool)), p)
    ensures Reads(m, x, o)
    decreases Weight(Translate(o)), 1
  {
    hide NoEmptyVectors;
    var t := Translate(o);
    EntryIsThere(m, pool, t);
    CellIsDefined(t, pool);
    match t {
      case Int(v) => assert Int(High(v)) in Parts(t);
      case Pair(a, b) => assert a in Parts(t) && b in Parts(t);
      case Str(chars) => assert ListOf(Ints(chars)) in Parts(t);
      case U8Vec(bytes) => assert ListOf(Ints(bytes)) in Parts(t);
      case Vec(elems) => VectorReadsBack(m, pool, t, x);
      case _ =>
    }
  }

  /** A vector is read as the list of its elements. */
  lemma {:induction false} VectorReadsBack(m: Memory, pool: seq<Obj>, o: Obj, x: nat)
    requires Assembled(m, pool) && o.Vec? && o in pool && x == Address(Code(o, pool))
    ensures Reads(m, x, ListOf(o.elems))
    decreases Weight(o), 0
  {
    EntryIsThere(m, pool, o);
    CellIsDefined(o, pool);
    ListWeighs(o.elems);
    var list := ListOf(o.elems);
    PartsWeighLess(list);
    assert o.elems[0] in Parts(list) && ListOf(o.elems[1..]) in Parts(list);
    ConstantReadsBack(m, pool, o.elems[0]);
    ConstantReadsBack(m, pool, ListOf(o.elems[1..]));
  }

  /** No constant has a lower code than one that is pushed more often, unless its
      code is fixed. */
  lemma LowCodesForTheMostUsed(os: seq<Obj>, a: Obj, b: Obj)
    requires Encodable(a, ProgramPool(os)) && Encodable(b, ProgramPool(os)) && EncodeDirect(Translate(a)).None?
    requires Code(a, ProgramPool(os)) < Code(b, ProgramPool(os))
    ensures Uses(Translate(a), os) >= Uses(Translate(b), os)
  {
    SortedByUse(PoolOf(os, []), os);
  }

  /** Equal constants are shared, and different ones are told apart. */
  lemma CodesTellApart(a: Obj, b: Obj, pool: seq<Obj>)
    requires Encodable(a, pool) && Encodable(b, pool)
    ensures Code(a, pool) == Code(b, pool) <==> Translate(a) == Translate(b)
  {
  }

  // Bytes.

  /** A cell in five bytes, low bytes first: cdr, car, and the type above the two
      bits of the collector. */
  function CellBytes(c: RomCell): seq<nat> {
    [c.cdr % 0x100, c.cdr / 0x100 % 0x100, c.car % 0x100, c.car / 0x100 % 0x100, c.typ * 4 % 0x100]
  }

  function CellFrom(bytes: seq<nat>): RomCell
    requires |bytes| == 5
  {
    RomCell(bytes[2] + 0x100 * bytes[3], bytes[0] + 0x100 * bytes[1], bytes[4] / 4 % 16)
  }

  lemma CellReadsBack(c: RomCell)
    requires IsDigit(c.car) && IsDigit(c.cdr) && c.typ < 16
    ensures CellFrom(CellBytes(c)) == c
  {
  }

  /** A push of a constant: one byte for the first 32 codes, two for others. */
  function PushBytes(code: nat): seq<nat> {
    if code <= 31 then [code] else [0xA0 + code / 0x100 % 0x10, code % 0x100]
  }

  /** What the machine pushes for the bytes of a push. */
  function Pushed(bytes: seq<nat>): nat
    requires bytes != [] && (bytes[0] >= 0x20 ==> |bytes| > 1)
  {
    if bytes[0] < 0x20 then
      (var r := bytes[0] % 0x20; if r < 3 then r + 0xFFFD else r - 3 + 0xFE00)
    else
      (var r := bytes[0] % 0x10 * 0x100 + bytes[1];
       if r < 3 then r + 0xFFFD else if r < 260 then r - 3 + 0xFE00 else r - 260 + ROM_START)
  }

  /** The machine and the assembler agree on every code a pool can have. */
  lemma PushLoadsAddress(code: nat)
    requires code < 0x1000
    ensures Pushed(PushBytes(code)) == Address(code)
  {
    if code > 31 {
      var high, low := code / 0x100, code % 0x100;
      assert high % 0x10 == high && (0xA0 + high) % 0x10 == high;
      assert PushBytes(code) == [0xA0 + high, low];
    }
  }

  // The program in one piece: header, constants, code.

  function CellsBytes(rom: seq<RomCell>): (bytes: seq<nat>)
    ensures |bytes| == 5 * |rom|
  {
    if rom == [] then [] else CellBytes(rom[0]) + CellsBytes(rom[1..])
  }

  function ProgramBytes(rom: seq<RomCell>, globals: nat, code: seq<nat>): seq<nat> {
    [0xD7, 0xFB, |rom| % 0x100, globals % 0x100] + CellsBytes(rom) + code
  }

  /** Where the machine starts to run. */
  function CodeStart(image: seq<nat>): nat
    requires |image| >= 4
  {
    image[2] * 5 + 4
  }

  /** The constants as the machine finds them behind the header. */
  function RomIn(image: seq<nat>): seq<RomCell>
    requires |image| >= 4 && |image| >= CodeStart(image)
  {
    seq(image[2], k requires 0 <= k < image[2] && |image| >= 4 && |image| >= CodeStart(image) =>
                    CellFrom(image[4 + 5 * k..4 + 5 * k + 5]))
  }

  ghost predicate FitsRom(c: RomCell) {
    IsDigit(c.car) && IsDigit(c.cdr) && c.typ < 16
  }

  lemma {:induction false} CellStands(rom: seq<RomCell>, k: nat)
    requires k < |rom|
    ensures CellsBytes(rom)[5 * k..5 * k + 5] == CellBytes(rom[k])
  {
    if k > 0 {
      CellStands(rom[1..], k - 1);
      assert CellsBytes(rom)[5 * k..5 * k + 5] == CellsBytes(rom[1..])[5 * (k - 1)..5 * (k - 1) + 5];
    }
  }

  /** The machine finds the cells and the code that went into the program. */
  lemma ProgramBytesReadBack(rom: seq<RomCell>, globals: nat, code: seq<nat>)
    requires |rom| <= 255 && forall k :: 0 <= k < |rom| ==> FitsRom(rom[k])
    ensures var image := ProgramBytes(rom, globals, code);
            && |image| >= 4 && |image| >= CodeStart(image) && image[0] == 0xD7 && image[1] == 0xFB
            && RomIn(image) == rom && image[CodeStart(image)..] == code
  {
    hide CellBytes, CellFrom, CellsBytes;
    var image := ProgramBytes(rom, globals, code);
    forall k | 0 <= k < |rom|
      ensures CellFrom(image[4 + 5 * k..4 + 5 * k + 5]) == rom[k]
    {
      CellStands(rom, k);
      assert image[4 + 5 * k..4 + 5 * k + 5] == CellsBytes(rom)[5 * k..5 * k + 5];
      CellReadsBack(rom[k]);
    }
  }

  /** The pairs of a list are entries of their own. */
  lemma {:induction false} ListEntries(os: seq<Obj>, pool: seq<Obj>) returns (pairs: set<Obj>)
    requires Closed(pool) && Encodable(ListOf(os), pool)
    ensures |pairs| == |os| && forall p :: p in pairs ==> p in pool && Weight(p) <= Weight(ListOf(os))
  {
    if os == [] {
      pairs := {};
    } else {
      assert PartsIn(ListOf(os), pool);
      assert ListOf(os[1..]) in Parts(ListOf(os));
      var rest := ListEntries(os[1..], pool);
      pairs := rest + {ListOf(os)};
    }
  }

  lemma {:induction false} NoMoreThan(pairs: set<Obj>, pool: seq<Obj>)
    requires forall p :: p in pairs ==> p in pool
    ensures |pairs| <= |pool|
  {
    if pool == [] {
      assert pairs == {};
    } else {
      NoMoreThan(pairs - {pool[0]}, pool[1..]);
    }
  }

  /** All links are addresses, and a byte vector is no longer than the pool. */
  lemma CellFitsRom(o: Obj, pool: seq<Obj>)
    requires Closed(pool) && NoEmptyVectors(pool) && |pool| <= 255 && o in pool
    ensures PartsIn(o, pool) && (o.Vec? ==>
            o.elems != [] && Encodable(o.elems[0], pool) && Encodable(ListOf(o.elems[1..]), pool))
    ensures FitsRom(CellOf(o, pool))
  {
    CellIsDefined(o, pool);
    match o {
      case U8Vec(bytes) =>
        assert ListOf(Ints(bytes)) in Parts(o);
        var pairs := ListEntries(Ints(bytes), pool);
        NoMoreThan(pairs, pool);
      case _ =>
    }
  }

  lemma ProgramRomFits(os: seq<Obj>)
    requires NoEmptyVectors(ProgramPool(os)) && |ProgramPool(os)| <= 255
    ensures forall k :: 0 <= k < |ProgramPool(os)| ==> FitsRom(RomOf(ProgramPool(os))[k])
  {
    var pool := ProgramPool(os);
    forall k | 0 <= k < |pool|
      ensures FitsRom(RomOf(pool)[k])
    {
      CellFitsRom(pool[k], pool);
    }
  }

  /** The whole way: whatever constants a program has, each of them reads back
      from where the bytes of a push point, in the ROM that the machine finds in
      the bytes of the program. */
  lemma ProgramConstantsReadBack(m: Memory, os: seq<Obj>, globals: nat, code: seq<nat>)
    requires NoEmptyVectors(ProgramPool(os)) && |ProgramPool(os)| <= 255
    ensures var image := ProgramBytes(RomOf(ProgramPool(os)), globals, code);
            && |image| >= 4 && |image| >= CodeStart(image) && image[CodeStart(image)..] == code
            && (Sound(m) && m.rom == RomIn(image) ==>
                  forall o :: o in os ==>
                    Encodable(o, ProgramPool(os)) && Reads(m, Pushed(PushBytes(Code(o, ProgramPool(os)))), o))
  {
    var pool := ProgramPool(os);
    ProgramRomFits(os);
    ProgramBytesReadBack(RomOf(pool), globals, code);
    ProgramIsEncodable(os);
    if Sound(m) && m.rom == RomOf(pool) {
      forall o | o in os
        ensures Encodable(o, pool) && Reads(m, Pushed(PushBytes(Code(o, pool))), o)
      {
        ConstantReadsBack(m, pool, o);
        PushLoadsAddress(Code(o, pool));
      }
    }
  }
}
