/** From linear code to bytes, and back: the assembler writes every line as bytes, and
    the virtual machine that fetches them does what the lines do. */
module ByteCode {
  import opened Wrappers
  import I = Ir
  import S = Shapes
  import R = CompilerRuns
  import C = Compiler
  import P = Programs
  import B = Blocks
  import N = Renumbering
  import L = LinearCode
  import X = Relaxation
  import A = Assembler
  import Constants

  // Single instructions.

  /** The bytes of an instruction that is no branch. None stands for an error: a
      slot too deep in the stack. Constants, globals and primitives are numbered as
      the assembler numbers them. */
  function Encode(i: I.Instr): (r: Option<seq<nat>>)
    ensures r.Some? ==> r.value != []
  {
    match i
    case PushConstant(n) => Some(Constants.PushBytes(n))
    case PushStack(n) => if n > 31 then None else Some([0x20 + n])
    case PushGlobal(n) => Some(if n <= 15 then [0x40 + n] else [0x8E, A.LowByte(n)])
    case SetGlobal(n) => Some(if n <= 15 then [0x50 + n] else [0x8F, A.LowByte(n)])
    case Prim(n) => Some([A.LowByte(0xC0 + n)])
    case Return => Some([0xC1])
    case Pop => Some([0xC2])
    case Goto(_) => None
    case GotoIfFalse(_, _) => None
  }

  datatype Fetched = Plain(instr: I.Instr, next: nat) | Branch(step: A.Step)

  /** What the machine takes the bytes at pc for. Calls and jumps to closures are not
      part of this machine. */
  function Fetch(code: seq<nat>, pc: nat): Option<Fetched> {
    if pc >= |code| then None
    else
      var instr, next := code[pc], pc + 1;
      match A.Decode(code, pc)
      case Some(step) => Some(Branch(step))
      case None =>
        if instr < 0x20 then Some(Plain(I.PushConstant(instr), next))
        else if instr < 0x40 then Some(Plain(I.PushStack(instr - 0x20), next))
        else if instr < 0x50 then Some(Plain(I.PushGlobal(instr - 0x40), next))
        else if instr < 0x60 then Some(Plain(I.SetGlobal(instr - 0x50), next))
        else if 0xA0 <= instr < 0xB0 && next < |code| then
          Some(Plain(I.PushConstant(instr % 0x10 * 0x100 + code[next]), next + 1))
        else if instr == 0xBE && next < |code| then Some(Plain(I.PushGlobal(code[next]), next + 1))
        else if instr == 0xBF && next < |code| then Some(Plain(I.SetGlobal(code[next]), next + 1))
        else if instr == 0xC1 then Some(Plain(I.Return, next))
        else if instr == 0xC2 then Some(Plain(I.Pop, next))
        else if 0xC0 <= instr < 0x100 then Some(Plain(I.Prim(instr - 0xC0), next))
        else None
  }

  /** Numbers the forms have room for. The long form for globals, which the machine
      reads as a jump, is not among them. */
  predicate Readable(i: I.Instr) {
    match i
    case PushConstant(n) => n < 0x1000
    case PushStack(n) => n < 32
    case PushGlobal(n) => n < 16
    case SetGlobal(n) => n < 16
    case Prim(n) => n < 64 && n != 1 && n != 2
    case Return => true
    case Pop => true
    case _ => false
  }

  lemma ConstantFetchesBack(n: nat, code: seq<nat>, pc: nat)
    requires var bytes := Constants.PushBytes(n);
             pc + |bytes| <= |code| && forall k :: 0 <= k < |bytes| ==> bytes[k] == code[pc + k]
    ensures Fetch(code, pc) == Some(Plain(I.PushConstant(n), pc + |Constants.PushBytes(n)|)) <==> n < 0x1000
  {
    assert Constants.PushBytes(n)[0] == code[pc];
    if n > 31 {
      assert Constants.PushBytes(n)[1] == code[pc + 1] == n % 0x100;
      assert code[pc] % 0x10 == n / 0x100 % 0x10;
    }
  }

  lemma PrimFetchesBack(n: nat, code: seq<nat>, pc: nat)
    requires pc < |code| && code[pc] == A.LowByte(0xC0 + n)
    ensures Fetch(code, pc) == Some(Plain(I.Prim(n), pc + 1)) <==> n < 64 && n != 1 && n != 2
  {
    if n < 64 {
      assert code[pc] == 0xC0 + n;
    }
  }

  /** The machine takes the bytes of an instruction for that instruction exactly when
      it is readable. */
  lemma FetchesBack(i: I.Instr, code: seq<nat>, pc: nat)
    requires Encode(i).Some? && A.StandAt(code, pc, Encode(i).value)
    ensures Fetch(code, pc) == Some(Plain(i, pc + |Encode(i).value|)) <==> Readable(i)
  {
    hide A.StandAt, A.LowByte, Constants.PushBytes;
    A.ByteFromCode(code, pc, Encode(i).value);
    assert code[pc] == Encode(i).value[0];
    match i {
      case PushConstant(n) => ConstantFetchesBack(n, code, pc);
      case Prim(n) => PrimFetchesBack(n, code, pc);
      case _ =>
    }
  }

  /** Globals beyond the first sixteen: the machine takes the assembler's long forms for
      jumps to a top-level procedure, fourteen or fifteen bytes on. */
  lemma LongGlobalIsAJump(n: nat, code: seq<nat>, pc: nat)
    requires n >= 16
    ensures A.StandAt(code, pc, Encode(I.PushGlobal(n)).value) ==>
              Fetch(code, pc) == Some(Branch(A.Step(X.JumpToplevel, pc + 15, pc + 1)))
    ensures A.StandAt(code, pc, Encode(I.SetGlobal(n)).value) ==>
              Fetch(code, pc) == Some(Branch(A.Step(X.JumpToplevel, pc + 16, pc + 1)))
  {
    hide A.StandAt;
    if A.StandAt(code, pc, Encode(I.PushGlobal(n)).value) {
      A.ByteFromCode(code, pc, [0x8E, A.LowByte(n)]);
      assert code[pc] == [0x8E, A.LowByte(n)][0];
    }
    if A.StandAt(code, pc, Encode(I.SetGlobal(n)).value) {
      A.ByteFromCode(code, pc, [0x8F, A.LowByte(n)]);
      assert code[pc] == [0x8F, A.LowByte(n)][0];
    }
  }

  // Lines as items of the assembler.

  function Raw(bytes: seq<nat>): (r: seq<X.Item>)
    ensures |r| == |bytes| && forall k :: 0 <= k < |r| ==> r[k] == X.Byte(bytes[k])
  {
    seq(|bytes|, k requires 0 <= k < |bytes| => X.Byte(bytes[k]))
  }

  /** None stands for an error. The negation is one: the linearizer asks for a
      primitive under a name that no primitive has. */
  function ItemsOf(line: L.Line): Option<seq<X.Item>> {
    match line
    case Mark(l) => Some([X.Label(l)])
    case BranchIfFalse(l) => Some([X.Branch(X.GotoIfFalse, l)])
    case Negate => None
    case Do(Goto(l)) => Some([X.Branch(X.Goto, l)])
    case Do(Closure(l)) => Some([X.Branch(X.MakeClosure, l)])
    case Do(CallToplevel(l)) => Some([X.Branch(X.CallToplevel, l)])
    case Do(JumpToplevel(l)) => Some([X.Branch(X.JumpToplevel, l)])
    case Do(GotoIfFalse(_, _)) => None
    case Do(Plain(c)) => RawOf(Encode(P.InstrOf(c)))
    case Do(Exit(c)) => RawOf(Encode(P.InstrOf(c)))
  }

  function RawOf(bytes: Option<seq<nat>>): Option<seq<X.Item>> {
    match bytes case None => None case Some(b) => Some(Raw(b))
  }

  /** All lines can be written. */
  predicate Writable(code: seq<L.Line>) {
    forall q :: 0 <= q < |code| ==> ItemsOf(code[q]).Some?
  }

  /** The items of the header and of the lines before q. */
  function ItemsUpTo(header: seq<nat>, code: seq<L.Line>, q: nat): seq<X.Item>
    requires q <= |code| && forall k :: 0 <= k < q ==> ItemsOf(code[k]).Some?
  {
    if q == 0 then Raw(header) else ItemsUpTo(header, code, q - 1) + ItemsOf(code[q - 1]).value
  }

  function AllItems(header: seq<nat>, code: seq<L.Line>): seq<X.Item>
    requires Writable(code)
  {
    ItemsUpTo(header, code, |code|)
  }

  /** The first item of line q. */
  function First(header: seq<nat>, code: seq<L.Line>, q: nat): nat
    requires q <= |code| && Writable(code)
  {
    |ItemsUpTo(header, code, q)|
  }

  lemma OneLineMore(header: seq<nat>, code: seq<L.Line>, q: nat)
    requires Writable(code) && q < |code|
    ensures ItemsUpTo(header, code, q + 1) == ItemsUpTo(header, code, q) + ItemsOf(code[q]).value
  {
  }

  lemma {:induction false} LineIsThere(header: seq<nat>, code: seq<L.Line>, q: nat, n: nat)
    requires Writable(code) && q < n <= |code|
    ensures var items, own := ItemsUpTo(header, code, n), ItemsOf(code[q]).value;
            && First(header, code, q + 1) == First(header, code, q) + |own| <= |items|
            && forall k :: 0 <= k < |own| ==> items[First(header, code, q) + k] == own[k]
    decreases n
  {
    hide ItemsUpTo, ItemsOf;
    OneLineMore(header, code, n - 1);
    if q < n - 1 {
      LineIsThere(header, code, q, n - 1);
    }
  }

  /** Labels and branches come from marks and branches. */
  lemma {:induction false} LineBehind(header: seq<nat>, code: seq<L.Line>, i: nat, n: nat) returns (q: nat)
    requires Writable(code) && n <= |code| && i < First(header, code, n) && !ItemsUpTo(header, code, n)[i].Byte?
    ensures q < n && i == First(header, code, q) && ItemsOf(code[q]) == Some([ItemsUpTo(header, code, n)[i]])
    decreases n
  {
    if n > 0 {
      if i < First(header, code, n - 1) {
        q := LineBehind(header, code, i, n - 1);
      } else {
        q := n - 1;
        assert ItemsUpTo(header, code, n)[i] == ItemsOf(code[q]).value[i - First(header, code, q)];
      }
    }
  }

  /** Every label is set once, and every branch goes to a label that is set. */
  lemma LinesArePlaced(header: seq<nat>, blocks: seq<B.Block>, code: seq<L.Line>, at: seq<nat>)
    requires Writable(code) && B.WellFormed(blocks) && L.Laid(code, at, blocks) && L.DrawnFrom(blocks, code)
    ensures X.WellPlaced(AllItems(header, code))
  {
    var items := AllItems(header, code);
    forall i: nat, j: nat, id: nat | X.LabelAt(items, i, id) && X.LabelAt(items, j, id)
      ensures i == j
    {
      var q := LabelBehind(header, code, i, id);
      var q' := LabelBehind(header, code, j, id);
      assert at[id] == q == q';
    }
    forall i | 0 <= i < |items| && items[i].Branch?
      ensures exists j: nat :: X.LabelAt(items, j, items[i].target)
    {
      var q := LineBehind(header, code, i, |code|);
      TargetInRange(blocks, code[q]);
      LabelStands(header, blocks, code, at, items[i].target);
    }
  }

  lemma LabelBehind(header: seq<nat>, code: seq<L.Line>, i: nat, id: nat) returns (q: nat)
    requires Writable(code) && X.LabelAt(AllItems(header, code), i, id)
    ensures q < |code| && code[q] == L.Mark(id) && i == First(header, code, q)
  {
    q := LineBehind(header, code, i, |code|);
    ItemTells(code[q]);
  }

  lemma ItemTells(line: L.Line)
    requires ItemsOf(line).Some? && |ItemsOf(line).value| == 1 && ItemsOf(line).value[0].Label?
    ensures line == L.Mark(ItemsOf(line).value[0].id)
  {
  }

  lemma TargetInRange(blocks: seq<B.Block>, line: L.Line)
    requires B.WellFormed(blocks) && L.LineFrom(blocks, line)
    requires ItemsOf(line).Some? && |ItemsOf(line).value| == 1 && ItemsOf(line).value[0].Branch?
    ensures ItemsOf(line).value[0].target < |blocks|
  {
    hide Encode, B.WellFormed;
    match line {
      case Do(Closure(l)) => DrawnInRange(blocks, line.instr);
      case Do(CallToplevel(l)) => DrawnInRange(blocks, line.instr);
      case Do(JumpToplevel(l)) => DrawnInRange(blocks, line.instr);
      case _ =>
    }
  }

  lemma DrawnInRange(blocks: seq<B.Block>, i: B.Instr)
    requires B.WellFormed(blocks) && L.Drawn(blocks, i)
    ensures B.InRange(i, |blocks|)
  {
    var l :| 0 <= l < |blocks| && (i in blocks[l].body || i == blocks[l].jump);
    assert B.WellFormedBlock(blocks[l], |blocks|);
    if i in blocks[l].body {
      var k :| 0 <= k < |blocks[l].body| && blocks[l].body[k] == i;
      assert B.InRange(blocks[l].body[k], |blocks|);
    } else {
      assert B.InRange(blocks[l].jump, |blocks|);
    }
  }

  lemma LabelStands(header: seq<nat>, blocks: seq<B.Block>, code: seq<L.Line>, at: seq<nat>, l: nat)
    requires Writable(code) && L.Laid(code, at, blocks) && l < |blocks|
    ensures at[l] < |code| && code[at[l]] == L.Mark(l)
    ensures X.LabelAt(AllItems(header, code), First(header, code, at[l]), l)
  {
    assert L.BlockAt(code, at[l], l, blocks[l]);
    LineIsThere(header, code, at[l], |code|);
    assert AllItems(header, code)[First(header, code, at[l])] == ItemsOf(code[at[l]]).value[0];
  }

  // The code that comes out, line by line.

  /** The bytes of a plain instruction stand at its address. */
  lemma {:induction false} BytesAt(items: seq<X.Item>, slots: seq<X.Slot>, i: nat, bytes: seq<nat>)
    requires X.WellPlaced(items) && A.Settled(items, slots) && i + |bytes| <= |items| == |slots|
    requires forall k :: 0 <= k < |bytes| ==> items[i + k] == X.Byte(bytes[k])
    ensures X.Position(items, slots, i + |bytes|) == X.Position(items, slots, i) + |bytes|
    ensures bytes != [] ==> A.StandAt(A.CodeUpTo(items, slots, |items|), X.Position(items, slots, i), bytes)
    decreases |bytes|
  {
    hide X.WellPlaced, A.Settled, A.StandAt, A.CodeUpTo, A.Produced, X.Target;
    var code := A.CodeUpTo(items, slots, |items|);
    if bytes != [] {
      var n := |bytes| - 1;
      assert items[i + n] == X.Byte(bytes[n]);
      A.CodeAt(items, slots, i + n, |items|);
      BytesAt(items, slots, i, bytes[..n]);
      assert bytes == bytes[..n] + [bytes[n]];
      if n > 0 {
        OneByteMore(code, X.Position(items, slots, i), bytes[..n], bytes[n]);
      }
    }
  }

  lemma OneByteMore(code: seq<nat>, p: nat, bytes: seq<nat>, b: nat)
    requires A.StandAt(code, p, bytes) && A.StandAt(code, p + |bytes|, [b])
    ensures A.StandAt(code, p, bytes + [b])
  {
    var n := |bytes|;
    assert code[p..p + n + 1] == code[p..p + n] + code[p + n..p + n + 1];
  }

  /** What the assembler makes of the lines. */
  datatype Image = Image(header: seq<nat>, code: seq<L.Line>, at: seq<nat>, slots: seq<X.Slot>, bytes: seq<nat>)

  ghost predicate Assembled(r: Image) {
    && Writable(r.code) && X.WellPlaced(AllItems(r.header, r.code)) && A.Settled(AllItems(r.header, r.code), r.slots)
    && r.bytes == A.CodeUpTo(AllItems(r.header, r.code), r.slots, |AllItems(r.header, r.code)|)
  }

  /** All branches go home. */
  ghost predicate Homing(r: Image)
    requires Assembled(r)
  {
    var items := AllItems(r.header, r.code);
    forall i :: 0 <= i < |items| && items[i].Branch? ==> A.GoesHome(items, r.slots, r.bytes, i)
  }

  ghost predicate MarkedAt(r: Image, l: nat) {
    l < |r.at| && r.at[l] < |r.code| && r.code[r.at[l]] == L.Mark(l)
  }

  /** Lines that the machine of bytes knows, with labels that have their marks. */
  ghost predicate Known(r: Image, line: L.Line) {
    match line
    case Do(Plain(c)) => Readable(P.InstrOf(c))
    case Do(Exit(c)) => Readable(P.InstrOf(c))
    case Do(Goto(l)) => MarkedAt(r, l)
    case Do(_) => false
    case BranchIfFalse(l) => MarkedAt(r, l)
    case Mark(_) => true
    case Negate => false
  }

  ghost predicate AllKnown(r: Image) {
    forall q :: 0 <= q < |r.code| ==> Known(r, r.code[q])
  }

  /** The address of line q. */
  ghost function Address(r: Image, q: nat): nat
    requires Assembled(r) && q <= |r.code|
  {
    FirstBefore(r.header, r.code, q, |r.code|);
    X.Position(AllItems(r.header, r.code), r.slots, First(r.header, r.code, q))
  }

  lemma {:induction false} FirstBefore(header: seq<nat>, code: seq<L.Line>, q: nat, n: nat)
    requires Writable(code) && q <= n <= |code|
    ensures First(header, code, q) <= First(header, code, n)
    decreases n
  {
    if q < n {
      FirstBefore(header, code, q, n - 1);
    }
  }


  lemma LineItems(r: Image, q: nat)
    requires Assembled(r) && q < |r.code|
    ensures var items, i, own := AllItems(r.header, r.code), First(r.header, r.code, q), ItemsOf(r.code[q]).value;
            && i + |own| == First(r.header, r.code, q + 1) <= |items|
            && forall k :: 0 <= k < |own| ==> items[i + k] == own[k]
  {
    LineIsThere(r.header, r.code, q, |r.code|);
  }

  lemma OneItem(r: Image, q: nat, x: X.Item)
    requires Assembled(r) && q < |r.code| && ItemsOf(r.code[q]) == Some([x])
    ensures First(r.header, r.code, q + 1) == First(r.header, r.code, q) + 1 <= |AllItems(r.header, r.code)|
    ensures AllItems(r.header, r.code)[First(r.header, r.code, q)] == x
  {
    LineItems(r, q);
    assert AllItems(r.header, r.code)[First(r.header, r.code, q) + 0] == x;
  }

  lemma MarkTakesNone(r: Image, q: nat)
    requires Assembled(r) && q < |r.code| && r.code[q].Mark?
    ensures Address(r, q + 1) == Address(r, q)
  {
    OneItem(r, q, X.Label(r.code[q].id));
  }

  /** A plain instruction is fetched as it is, with the next line behind it. */
  lemma PlainIsFetched(r: Image, q: nat, i: I.Instr)
    requires Assembled(r) && q < |r.code| && Encode(i).Some? && ItemsOf(r.code[q]) == Some(Raw(Encode(i).value))
             && Readable(i)
    ensures Fetch(r.bytes, Address(r, q)) == Some(Plain(i, Address(r, q + 1)))
  {
    hide A.StandAt, Fetch, Readable, AllItems, First, X.Position, X.WellPlaced, ItemsOf, Encode, A.CodeUpTo;
    LineItems(r, q);
    BytesAt(AllItems(r.header, r.code), r.slots, First(r.header, r.code, q), Encode(i).value);
    FetchesBack(i, r.bytes, Address(r, q));
  }

  lemma LabelIs(items: seq<X.Item>, j: nat, l: nat)
    requires X.WellPlaced(items) && j < |items| && items[j] == X.Label(l)
    ensures (exists i: nat :: X.LabelAt(items, i, l)) && X.LabelIndex(items, l) == j
  {
    assert X.LabelAt(items, j, l);
  }

  lemma DecodedIsFetched(code: seq<nat>, pc: nat)
    ensures A.Decode(code, pc).Some? ==> Fetch(code, pc) == Some(Branch(A.Decode(code, pc).value))
  {
  }

  /** A branch is fetched as one to the line behind its label. */
  lemma BranchIsFetched(r: Image, q: nat, kind: X.Kind, l: nat)
    requires Assembled(r) && Homing(r) && q < |r.code| && ItemsOf(r.code[q]) == Some([X.Branch(kind, l)])
             && MarkedAt(r, l)
    ensures Fetch(r.bytes, Address(r, q)) == Some(Branch(A.Step(kind, Address(r, r.at[l] + 1), Address(r, q + 1))))
  {
    hide Fetch, A.Decode, AllItems, First, X.Position, X.WellPlaced, A.CodeUpTo, X.LabelAt;
    var items, i := AllItems(r.header, r.code), First(r.header, r.code, q);
    OneItem(r, q, X.Branch(kind, l));
    OneItem(r, r.at[l], X.Label(l));
    LabelIs(items, First(r.header, r.code, r.at[l]), l);
    MarkTakesNone(r, r.at[l]);
    DecodedIsFetched(r.bytes, Address(r, q));
    assert A.GoesHome(items, r.slots, r.bytes, i);
  }

  // The machine of bytes.

  function Target(target: int): nat { if target < 0 then 0 else target }

  /** One instruction. The machine is stuck where it fetches none it knows. */
  function StepBytes<V, W>(ps: C.Primitives, m: R.Semantics<V, W>, bytes: seq<nat>, c: B.Config<nat, P.Data<V, W>>)
    : B.Config<nat, P.Data<V, W>>
  {
    if c.Over? then c
    else
      match Fetch(bytes, c.pc)
      case None => c
      case Some(Branch(step)) =>
        (match step.kind
         case Goto => c.(pc := Target(step.target))
         case GotoIfFalse =>
           c.(pc := if P.FalseOnTop(m, c.data) then Target(step.target) else step.next, data := P.Dropped(c.data))
         case _ => c)
      case Some(Plain(i, next)) =>
        if i == I.Return then B.Return(c.pending, c.saved, c.data)
        else
          var (data, control) := P.Plainly(ps, m, i, c.data);
          if control == B.Halt then B.Over(data) else c.(pc := next, data := data)
  }

  function RunBytes<V, W>(ps: C.Primitives, m: R.Semantics<V, W>, bytes: seq<nat>, c: B.Config<nat, P.Data<V, W>>,
      steps: nat)
    : B.Config<nat, P.Data<V, W>>
    decreases steps
  {
    if steps == 0 then c else RunBytes(ps, m, bytes, StepBytes(ps, m, bytes, c), steps - 1)
  }

  /** Started at an address, the bytes come to this end. */
  ghost predicate BytesEndWith<V(!new), W(!new)>(ps: C.Primitives, m: R.Semantics<V, W>, bytes: seq<nat>, pc: nat,
      start: P.Data<V, W>, end: P.Data<V, W>)
  {
    exists n: nat :: RunBytes(ps, m, bytes, B.At(pc, [], [], start), n) == B.Over(end)
  }

  /** Lines and bytes at the same place. */
  function ByteConfig<V, W>(pc: nat, s: P.Data<V, W>): B.Config<nat, P.Data<V, W>> { B.At(pc, [], [], s) }

  /** The step from line q leads the bytes from its address to that of q', unless it
      ends in nonsense. */
  ghost predicate Follows<V(!new), W(!new)>(ps: C.Primitives, m: R.Semantics<V, W>, r: Image, q: nat, s: P.Data<V, W>,
      q': nat, s': P.Data<V, W>, steps: nat)
    requires Assembled(r) && q < |r.code|
  {
    var c' := L.StepLine(P.MachineFor(ps, m), r.code, r.at, ByteConfig(q, s));
    if c'.Over? then c'.data.sound ==> StepBytes(ps, m, r.bytes, ByteConfig(Address(r, q), s)) == c'
    else
      && c' == ByteConfig(q', s') && q' <= |r.code| && steps <= 1
      && (steps == 0 ==> Address(r, q') == Address(r, q) && s' == s)
      && (steps == 1 ==> StepBytes(ps, m, r.bytes, ByteConfig(Address(r, q), s)) == ByteConfig(Address(r, q'), s'))
  }

  lemma PlainFollowed<V(!new), W(!new)>(ps: C.Primitives, m: R.Semantics<V, W>, r: Image, q: nat, s: P.Data<V, W>,
      code: nat)
    requires Assembled(r) && q < |r.code| && r.code[q] == L.Do(B.Plain(code)) && Writable(r.code) && Known(r, r.code[q])
    ensures Follows(ps, m, r, q, s, q + 1, P.Plainly(ps, m, P.InstrOf(code), s).0, 1)
  {
    hide Address, Fetch, Assembled, Encode, R.Effect, P.InstrOf;
    PlainIsFetched(r, q, P.InstrOf(code));
    ReturnIsNotPlain(ps, m, s);
  }

  lemma ReturnIsNotPlain<V, W>(ps: C.Primitives, m: R.Semantics<V, W>, s: P.Data<V, W>)
    ensures P.Plainly(ps, m, I.Return, s) == (s.(sound := false), B.Halt)
  {
  }

  lemma ExitFollowed<V(!new), W(!new)>(ps: C.Primitives, m: R.Semantics<V, W>, r: Image, q: nat, s: P.Data<V, W>,
      code: nat)
    requires Assembled(r) && q < |r.code| && r.code[q] == L.Do(B.Exit(code)) && Writable(r.code) && Known(r, r.code[q])
    ensures Follows(ps, m, r, q, s, q + 1, s, 1)
  {
    hide Address, Fetch, Assembled, Encode, R.Effect, P.InstrOf;
    PlainIsFetched(r, q, P.InstrOf(code));
  }

  lemma GotoFollowed<V(!new), W(!new)>(ps: C.Primitives, m: R.Semantics<V, W>, r: Image, q: nat, s: P.Data<V, W>,
      l: nat)
    requires Assembled(r) && Homing(r) && q < |r.code| && r.code[q] == L.Do(B.Goto(l)) && MarkedAt(r, l)
    ensures Follows(ps, m, r, q, s, r.at[l] + 1, s, 1)
  {
    hide Address, Fetch, Assembled, Homing;
    BranchIsFetched(r, q, X.Goto, l);
  }

  lemma TestFollowed<V(!new), W(!new)>(ps: C.Primitives, m: R.Semantics<V, W>, r: Image, q: nat, s: P.Data<V, W>,
      l: nat)
    requires Assembled(r) && Homing(r) && q < |r.code| && r.code[q] == L.BranchIfFalse(l) && MarkedAt(r, l)
    ensures Follows(ps, m, r, q, s, if P.FalseOnTop(m, s) then r.at[l] + 1 else q + 1, P.Dropped(s), 1)
  {
    hide Address, Fetch, Assembled, Homing;
    BranchIsFetched(r, q, X.GotoIfFalse, l);
  }

  lemma LineFollowed<V(!new), W(!new)>(ps: C.Primitives, m: R.Semantics<V, W>, r: Image, q: nat, s: P.Data<V, W>)
    returns (q': nat, s': P.Data<V, W>, steps: nat)
    requires Assembled(r) && Homing(r) && AllKnown(r) && q < |r.code|
    ensures Follows(ps, m, r, q, s, q', s', steps)
  {
    hide Address, Assembled, Homing, StepBytes, P.Plainly;
    q', s', steps := q + 1, s, 1;
    match r.code[q] {
      case Mark(_) =>
        MarkTakesNone(r, q);
        steps := 0;
      case BranchIfFalse(l) =>
        TestFollowed(ps, m, r, q, s, l);
        q' := if P.FalseOnTop(m, s) then r.at[l] + 1 else q + 1;
        s' := P.Dropped(s);
      case Do(Goto(l)) =>
        GotoFollowed(ps, m, r, q, s, l);
        q' := r.at[l] + 1;
      case Do(Plain(code)) =>
        PlainFollowed(ps, m, r, q, s, code);
        s' := P.Plainly(ps, m, P.InstrOf(code), s).0;
      case Do(Exit(code)) => ExitFollowed(ps, m, r, q, s, code);
      case _ =>
    }
  }

  /** Bytes end as lines do, from any line on. */
  lemma {:induction false} LinesFollowed<V(!new), W(!new)>(ps: C.Primitives, m: R.Semantics<V, W>, r: Image, q: nat,
      s: P.Data<V, W>, k: nat, end: P.Data<V, W>)
    returns (n: nat)
    requires Assembled(r) && Homing(r) && AllKnown(r) && q <= |r.code|
    requires L.RunLines(P.MachineFor(ps, m), r.code, r.at, ByteConfig(q, s), k) == B.Over(end) && end.sound
    ensures RunBytes(ps, m, r.bytes, ByteConfig(Address(r, q), s), n) == B.Over(end)
    decreases k
  {
    hide Address, Assembled, Homing, AllKnown, P.MachineFor, StepBytes;
    if q == |r.code| {
      n := LinesFollowed(ps, m, r, q, s, k - 1, end);
    } else {
      var c, c' := ByteConfig(Address(r, q), s), L.StepLine(P.MachineFor(ps, m), r.code, r.at, ByteConfig(q, s));
      var q', s', steps := LineFollowed(ps, m, r, q, s);
      if c'.Over? {
        OverAtOnce(ps, m, r, c', k - 1, end);
        n := 1;
        assert RunBytes(ps, m, r.bytes, c, 1) == RunBytes(ps, m, r.bytes, StepBytes(ps, m, r.bytes, c), 0);
      } else {
        n := LinesFollowed(ps, m, r, q', s', k - 1, end);
        n := n + steps;
      }
    }
  }

  lemma OverAtOnce<V(!new), W(!new)>(ps: C.Primitives, m: R.Semantics<V, W>, r: Image, c: B.Config<nat, P.Data<V, W>>,
      k: nat, end: P.Data<V, W>)
    requires c.Over? && L.RunLines(P.MachineFor(ps, m), r.code, r.at, c, k) == B.Over(end)
    ensures c == B.Over(end)
  {
    L.OverStays(P.MachineFor(ps, m), r.code, r.at, c, 0, k);
  }

  lemma BytesEndToo<V(!new), W(!new)>(ps: C.Primitives, m: R.Semantics<V, W>, r: Image, s: P.Data<V, W>,
      end: P.Data<V, W>)
    requires Assembled(r) && Homing(r) && AllKnown(r) && end.sound
    requires L.LinesEndWith(P.MachineFor(ps, m), r.code, r.at, s, end)
    ensures BytesEndWith(ps, m, r.bytes, |r.header|, s, end)
  {
    var k: nat :| L.RunLines(P.MachineFor(ps, m), r.code, r.at, ByteConfig(0, s), k) == B.Over(end);
    var n := LinesFollowed(ps, m, r, 0, s, k, end);
    StartsBehindHeader(r);
  }

  lemma {:induction false} HeaderFirst(header: seq<nat>, code: seq<L.Line>, n: nat)
    requires Writable(code) && n <= |code|
    ensures |header| <= First(header, code, n)
    ensures forall k :: 0 <= k < |header| ==> ItemsUpTo(header, code, n)[k] == X.Byte(header[k])
  {
    if n > 0 {
      OneLineMore(header, code, n - 1);
      HeaderFirst(header, code, n - 1);
    }
  }

  lemma NoLineYet(header: seq<nat>, code: seq<L.Line>)
    requires Writable(code)
    ensures First(header, code, 0) == |header|
  {
  }

  lemma NoItemYet(items: seq<X.Item>, slots: seq<X.Slot>)
    requires |items| == |slots|
    ensures X.Position(items, slots, 0) == 0
  {
  }

  lemma BytesFirst(items: seq<X.Item>, slots: seq<X.Slot>, bytes: seq<nat>)
    requires X.WellPlaced(items) && A.Settled(items, slots) && |bytes| <= |items| == |slots|
    requires forall k :: 0 <= k < |bytes| ==> items[k] == X.Byte(bytes[k])
    ensures X.Position(items, slots, |bytes|) == |bytes|
  {
    hide X.WellPlaced, A.Settled, X.Position, A.CodeUpTo, A.StandAt;
    BytesAt(items, slots, 0, bytes);
    NoItemYet(items, slots);
  }

  lemma StartsBehindHeader(r: Image)
    requires Assembled(r)
    ensures Address(r, 0) == |r.header|
  {
    hide ItemsUpTo, X.Position, X.WellPlaced, A.CodeUpTo;
    HeaderFirst(r.header, r.code, |r.code|);
    NoLineYet(r.header, r.code);
    BytesFirst(AllItems(r.header, r.code), r.slots, r.header);
  }

  lemma {:induction false} BytesStay<V, W>(ps: C.Primitives, m: R.Semantics<V, W>, bytes: seq<nat>,
      c: B.Config<nat, P.Data<V, W>>, j: nat, k: nat)
    requires j <= k && RunBytes(ps, m, bytes, c, j).Over?
    ensures RunBytes(ps, m, bytes, c, k) == RunBytes(ps, m, bytes, c, j)
    decreases k
  {
    if j > 0 {
      BytesStay(ps, m, bytes, StepBytes(ps, m, bytes, c), j - 1, k - 1);
    } else if k > 0 {
      BytesStay(ps, m, bytes, c, 0, k - 1);
    }
  }

  lemma OneEnd<V(!new), W(!new)>(ps: C.Primitives, m: R.Semantics<V, W>, bytes: seq<nat>, pc: nat, s: P.Data<V, W>,
      end: P.Data<V, W>, end': P.Data<V, W>)
    requires BytesEndWith(ps, m, bytes, pc, s, end) && BytesEndWith(ps, m, bytes, pc, s, end')
    ensures end == end'
  {
    var c := ByteConfig(pc, s);
    var j: nat :| RunBytes(ps, m, bytes, c, j) == B.Over(end);
    var k: nat :| RunBytes(ps, m, bytes, c, k) == B.Over(end');
    if j <= k {
      BytesStay(ps, m, bytes, c, j, k);
    } else {
      BytesStay(ps, m, bytes, c, k, j);
    }
  }

  // The lines of compiled expressions are known.

  /** No procedures. */
  predicate SimpleInstr(i: B.Instr) { i.Plain? || i.Exit? || i.Goto? || i.GotoIfFalse? }

  ghost predicate Simple(blocks: seq<B.Block>) {
    forall l :: 0 <= l < |blocks| ==> SimpleBlock(blocks[l])
  }

  ghost predicate SimpleBlock(b: B.Block) {
    SimpleInstr(b.jump) && forall k :: 0 <= k < |b.body| ==> SimpleInstr(b.body[k])
  }

  lemma {:induction false} VectorIsSimple(code: I.Code, i: nat)
    requires I.WellLabeled(code) && i <= |code.blocks|
    ensures Simple(P.VectorFrom(code, i))
    decreases |code.blocks| - i
  {
    if i < |code.blocks| {
      VectorIsSimple(code, i + 1);
    }
  }

  lemma RenumberedIsSimple(blocks: seq<B.Block>, kept: set<nat>, ids: seq<nat>, blocks': seq<B.Block>)
    requires Simple(blocks) && N.Renumbered(blocks, kept, ids, blocks')
    ensures Simple(blocks')
  {
    forall x | 0 <= x < |blocks'|
      ensures SimpleBlock(blocks'[x])
    {
      assert N.Taken(ids, kept, x);
      var l :| l in kept && N.NewLabel(ids, l) == x;
      assert blocks'[x] == N.FixBlock(ids, l, blocks[l]);
    }
  }

  /** Every number in the code is one its form has room for. */
  ghost predicate AllReadable(code: seq<L.Line>) {
    forall q :: 0 <= q < |code| ==> ReadableLine(code[q])
  }

  predicate ReadableLine(line: L.Line) {
    match line
    case Do(Plain(c)) => Readable(P.InstrOf(c))
    case Do(Exit(c)) => Readable(P.InstrOf(c))
    case _ => true
  }

  lemma SimpleIsKnown(blocks: seq<B.Block>, r: Image)
    requires B.WellFormed(blocks) && Simple(blocks) && L.Laid(r.code, r.at, blocks) && L.DrawnFrom(blocks, r.code)
    requires Writable(r.code) && AllReadable(r.code)
    ensures AllKnown(r)
  {
    forall q | 0 <= q < |r.code|
      ensures Known(r, r.code[q])
    {
      forall l: nat | l < |blocks|
        ensures MarkedAt(r, l)
      {
        LabelStands(r.header, blocks, r.code, r.at, l);
      }
      assert L.LineFrom(blocks, r.code[q]) && ReadableLine(r.code[q]);
      if r.code[q].Do? {
        LineIsSimple(blocks, r.code[q]);
      }
    }
  }

  lemma LineIsSimple(blocks: seq<B.Block>, line: L.Line)
    requires Simple(blocks) && L.LineFrom(blocks, line) && line.Do?
    ensures SimpleInstr(line.instr)
  {
    if !line.instr.Goto? {
      var l :| 0 <= l < |blocks| && (line.instr in blocks[l].body || line.instr == blocks[l].jump);
      assert SimpleBlock(blocks[l]);
    }
  }

  // From forms to bytes.

  /** The lines are those of the blocks, and the bytes those of the lines. */
  ghost predicate BytesOf(compiled: I.Code, chain: P.Chain, r: Image)
    requires I.WellLabeled(compiled)
  {
    && P.LinesOf(P.VectorOf(compiled), chain) && L.DrawnFrom(chain.ordered, chain.code)
    && r.code == chain.code && r.at == chain.at && Assembled(r)
  }

  lemma CompiledIsKnown(compiled: I.Code, chain: P.Chain, r: Image)
    requires I.WellLabeled(compiled) && BytesOf(compiled, chain, r) && AllReadable(r.code)
    ensures AllKnown(r)
  {
    hide L.Laid, N.Renumbered, Simple, B.WellFormed, A.Settled, X.WellPlaced, A.CodeUpTo, L.DrawnFrom, AllReadable,
         AllKnown;
    VectorIsSimple(compiled, 0);
    RenumberedIsSimple(P.VectorOf(compiled), chain.kept, chain.ids, chain.shaken);
    RenumberedIsSimple(chain.shaken, B.All(|chain.shaken|), chain.ids', chain.ordered);
    SimpleIsKnown(chain.ordered, r);
  }

  /** The bytes of a program, fetched from behind the header, end with the world that
      its forms leave, evaluated one after the other, and in no other way. */
  lemma BytesCompute<V(!new), W(!new)>(ps: C.Primitives, m: R.Semantics<V, W>, forms: seq<C.Expr>, rho: nat -> V,
      w: W, compiled: I.Code, chain: P.Chain, r: Image)
    requires P.CanHalt(ps) && C.AllApplied(ps, forms) && R.AllScoped(forms, {}) && S.AllQuiet(forms) && R.Sane(m)
    requires C.Applied(ps, P.Program(forms)) && compiled == C.CompNone(ps, P.Program(forms), R.Initial(P.NOTHING)).code
    requires I.WellLabeled(compiled) && BytesOf(compiled, chain, r) && Homing(r) && AllReadable(r.code)
    ensures forall end :: BytesEndWith(ps, m, r.bytes, |r.header|, P.Data([], w, true), end) <==>
                          end == P.Data([], R.Eval(ps, m, C.Seq(forms), rho, w).1, true)
  {
    hide Assembled, Homing, AllReadable, AllKnown, BytesEndWith, L.LinesEndWith, P.LinesOf, L.DrawnFrom,
         I.WellLabeled, C.CompNone, R.Eval, P.MachineFor, R.Sane, C.AllApplied, C.Applied;
    var start, end := P.Data([], w, true), P.Data([], R.Eval(ps, m, C.Seq(forms), rho, w).1, true);
    CompiledIsKnown(compiled, chain, r);
    P.ProgramComputes(ps, m, forms, rho, w, compiled, chain);
    BytesEndToo(ps, m, r, start, end);
    forall end' | BytesEndWith(ps, m, r.bytes, |r.header|, start, end')
      ensures end' == end
    {
      OneEnd(ps, m, r.bytes, |r.header|, start, end, end');
    }
  }

  /** The items of all lines, or an error. */
  method WriteItems(header: seq<nat>, code: seq<L.Line>) returns (r: Option<seq<X.Item>>)
    ensures r.Some? <==> Writable(code)
    ensures r.Some? ==> r.value == AllItems(header, code)
  {
    var items := Raw(header);
    for q := 0 to |code|
      invariant forall k :: 0 <= k < q ==> ItemsOf(code[k]).Some?
      invariant items == ItemsUpTo(header, code, q)
    {
      var more := ItemsOf(code[q]);
      if more.None? {
        return None;
      }
      items := items + more.value;
    }
    return Some(items);
  }

  lemma {:induction false} PositionsGrow(items: seq<X.Item>, slots: seq<X.Slot>, i: nat, n: nat)
    requires i <= n <= |items| == |slots|
    ensures X.Position(items, slots, i) <= X.Position(items, slots, n)
    decreases n
  {
    if i < n {
      PositionsGrow(items, slots, i, n - 1);
    }
  }

  /** No label is farther than the code is long. */
  lemma TargetsInCode(items: seq<X.Item>, slots: seq<X.Slot>, i: nat)
    requires X.WellPlaced(items) && A.Settled(items, slots) && i < |items| && items[i].Branch?
    ensures X.Target(items, slots, i) <= |A.CodeUpTo(items, slots, |items|)|
  {
    A.CodeReaches(items, slots, |items|);
    PositionsGrow(items, slots, X.LabelIndex(items, items[i].target), |items|);
  }

  ghost predicate AllAnchored(items: seq<X.Item>) {
    forall i :: 0 <= i < |items| && items[i].Branch? ==> X.Anchored(items, i)
  }

  lemma AnchoredGoHome(r: Image)
    requires Assembled(r) && |r.bytes| < 0x1_0000 && AllAnchored(AllItems(r.header, r.code))
    requires var items := AllItems(r.header, r.code);
             forall i: nat :: i < |items| && items[i].Branch? && X.Target(items, r.slots, i) < 0x1_0000 ==>
               (A.GoesHome(items, r.slots, r.bytes, i) <==> A.InReach(items, r.slots, i))
               && (X.Anchored(items, i) ==> A.InReach(items, r.slots, i))
    ensures Homing(r)
  {
    hide A.GoesHome, A.InReach, X.Target, A.CodeUpTo, X.Anchored, AllItems;
    var items := AllItems(r.header, r.code);
    forall i | 0 <= i < |items| && items[i].Branch?
      ensures A.GoesHome(items, r.slots, r.bytes, i)
    {
      TargetsInCode(items, r.slots, i);
    }
  }

  /** From forms to bytes behind a header. An error means that some line cannot be
      written. All branches go home if all are anchored. */
  method Compile(ps: C.Primitives, forms: seq<C.Expr>, header: seq<nat>)
    returns (bytes: Option<seq<nat>>, ghost compiled: I.Code, ghost chain: P.Chain, ghost r: Image)
    requires P.CanHalt(ps) && C.AllApplied(ps, forms) && S.AllQuiet(forms)
    ensures C.Applied(ps, P.Program(forms)) && compiled == C.CompNone(ps, P.Program(forms), R.Initial(P.NOTHING)).code
    ensures I.WellLabeled(compiled) && (bytes.Some? <==> Writable(chain.code))
    ensures bytes.Some? ==> BytesOf(compiled, chain, r) && bytes.value == r.bytes && header == r.header
    ensures bytes.Some? && |r.bytes| < 0x1_0000 && AllAnchored(AllItems(header, chain.code)) ==> Homing(r)
  {
    hide A.GoesHome, A.InReach, X.Target, A.CodeUpTo, X.Anchored, AllItems, L.DrawnFrom, L.Laid, A.Settled,
         X.WellPlaced, Writable, Homing, AllAnchored, C.CompNone, I.WellLabeled, B.WellFormed;
    var code;
    code, compiled, chain := P.Compile(ps, forms);
    var items := WriteItems(header, code);
    if items.None? {
      bytes, r := None, Image(header, code, chain.at, [], []);
      return;
    }
    LinesArePlaced(header, chain.ordered, code, chain.at);
    ghost var slots;
    bytes, slots := A.Assemble(items.value);
    r := Image(header, code, chain.at, slots, bytes.value);
    if |r.bytes| < 0x1_0000 && AllAnchored(items.value) {
      AnchoredGoHome(r);
    }
  }
}
