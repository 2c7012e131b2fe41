/** The generic assembler: relaxation of branches and emission of the code. */
module Assembler {
  import opened Wrappers
  import opened Relaxation

  // The code a layout stands for.

  /** The low byte of a signed or unsigned integer. */
  function LowByte(n: int): nat { n % 0x100 }

  function HighByte(n: int): nat { n / 0x100 % 0x100 }

  /** The production procedures. */
  function Produced(k: Kind, f: Form, self: int, target: int): (bytes: seq<nat>)
    requires Opcode(k, f).Some?
    ensures |bytes| == Bytes(f)
  {
    var op, n := Opcode(k, f).value, Operand(f, self, target);
    match f
    case Rel4 => [LowByte(op + n)]
    case Rel8 => [LowByte(op), LowByte(n)]
    case Rel12 => [LowByte(op * 0x100 + n), HighByte(op * 0x100 + n)]
    case Abs16 => [LowByte(op), LowByte(n), HighByte(n)]
  }

  /** All sizes are those of the forms, and all forms can be produced. */
  ghost predicate Settled(items: seq<Item>, slots: seq<Slot>) {
    && |items| == |slots|
    && forall i :: 0 <= i < |items| && items[i].Branch? ==>
         slots[i].size == Bytes(slots[i].form) && Opcode(items[i].kind, slots[i].form).Some?
  }

  ghost function CodeOf(items: seq<Item>, slots: seq<Slot>, i: nat): seq<nat>
    requires WellPlaced(items) && Settled(items, slots) && i < |items|
  {
    match items[i]
    case Byte(n) => [n]
    case Label(_) => []
    case Branch(k, _) => Produced(k, slots[i].form, Position(items, slots, i), Target(items, slots, i))
  }

  ghost function CodeUpTo(items: seq<Item>, slots: seq<Slot>, i: nat): seq<nat>
    requires WellPlaced(items) && Settled(items, slots) && i <= |items|
  {
    if i == 0 then [] else CodeUpTo(items, slots, i - 1) + CodeOf(items, slots, i - 1)
  }

  lemma NoCode(items: seq<Item>, slots: seq<Slot>)
    requires WellPlaced(items) && Settled(items, slots)
    ensures CodeUpTo(items, slots, 0) == []
  {
  }

  lemma {:induction false} CodeReaches(items: seq<Item>, slots: seq<Slot>, i: nat)
    requires WellPlaced(items) && Settled(items, slots) && i <= |items|
    ensures |CodeUpTo(items, slots, i)| == Position(items, slots, i)
  {
    if i > 0 {
      CodeReaches(items, slots, i - 1);
    }
  }

  /** The bytes stand in the code from p on. */
  predicate StandAt(code: seq<nat>, p: nat, bytes: seq<nat>) {
    p + |bytes| <= |code| && code[p..p + |bytes|] == bytes
  }

  lemma AppendKeeps(code: seq<nat>, more: seq<nat>, p: nat, bytes: seq<nat>)
    ensures StandAt(code, p, bytes) ==> StandAt(code + more, p, bytes)
    ensures StandAt(code + more, |code|, more)
  {
    if StandAt(code, p, bytes) {
      assert (code + more)[p..p + |bytes|] == code[p..p + |bytes|];
    }
  }

  lemma {:induction false} CodeAt(items: seq<Item>, slots: seq<Slot>, i: nat, n: nat)
    requires WellPlaced(items) && Settled(items, slots) && i < n <= |items|
    ensures StandAt(CodeUpTo(items, slots, n), Position(items, slots, i), CodeOf(items, slots, i))
  {
    CodeReaches(items, slots, i);
    AppendKeeps(CodeUpTo(items, slots, n - 1), CodeOf(items, slots, n - 1), Position(items, slots, i),
      CodeOf(items, slots, i));
    if i < n - 1 {
      CodeAt(items, slots, i, n - 1);
    }
  }

  // What the virtual machine makes of it.

  datatype Step = Step(kind: Kind, target: int, next: nat)

  /** Reads the branch at pc, if there is one. */
  function Decode(code: seq<nat>, pc: nat): Option<Step> {
    if pc >= |code| then None
    else
      var instr, next := code[pc], pc + 1;
      if 0x80 <= instr < 0x90 then Some(Step(JumpToplevel, next + instr % 0x10, next))
      else if 0x90 <= instr < 0xA0 then Some(Step(GotoIfFalse, next + instr % 0x10, next))
      else if 0xB5 <= instr <= 0xB9 && pc + 1 < |code| then
        Some(Step(RelativeKind(instr), next + 1 + code[pc+1] - 128, next + 1))
      else if 0xB0 <= instr <= 0xB4 && pc + 2 < |code| then
        Some(Step(AbsoluteKind(instr), code[pc+1] + 0x100 * code[pc+2], next + 2))
      else None
  }

  function RelativeKind(instr: nat): Kind {
    if instr == 0xB5 then CallToplevel else if instr == 0xB6 then JumpToplevel
    else if instr == 0xB7 then Goto else if instr == 0xB8 then GotoIfFalse else MakeClosure
  }

  function AbsoluteKind(instr: nat): Kind {
    if instr == 0xB0 then CallToplevel else if instr == 0xB1 then JumpToplevel
    else if instr == 0xB2 then Goto else if instr == 0xB3 then GotoIfFalse else MakeClosure
  }

  lemma NibbleDecodes(k: Kind, code: seq<nat>, pc: nat, target: nat)
    requires Opcode(k, Rel4).Some? && pc < |code|
    requires code[pc] == LowByte(Opcode(k, Rel4).value + Operand(Rel4, pc, target))
    ensures Decode(code, pc) == Some(Step(k, target, pc + 1)) <==> Fits(k, Rel4, pc, target)
  {
    NibbleWraps(Opcode(k, Rel4).value, Operand(Rel4, pc, target));
  }

  lemma ByteDecodes(k: Kind, code: seq<nat>, pc: nat, target: nat)
    requires pc + 1 < |code| && code[pc] == Opcode(k, Rel8).value && code[pc + 1] == LowByte(Operand(Rel8, pc, target))
    ensures Decode(code, pc) == Some(Step(k, target, pc + 2)) <==> Fits(k, Rel8, pc, target)
  {
  }

  lemma AddressDecodes(k: Kind, code: seq<nat>, pc: nat, target: nat)
    requires target < 0x1_0000 && pc + 2 < |code| && code[pc] == Opcode(k, Abs16).value
    requires code[pc + 1] == LowByte(target) && code[pc + 2] == HighByte(target)
    ensures Decode(code, pc) == Some(Step(k, target, pc + 3))
  {
  }

  /** A branch is decoded to its target exactly when the target is in reach of
      its form: bytes that do not fit wrap around. */
  lemma ProducedDecodes(k: Kind, f: Form, code: seq<nat>, pc: nat, target: nat)
    requires Opcode(k, f).Some? && target < 0x1_0000
    requires StandAt(code, pc, Produced(k, f, pc, target))
    ensures Decode(code, pc) == Some(Step(k, target, pc + Bytes(f))) <==> Fits(k, f, pc, target)
  {
    hide Decode, StandAt;
    var bytes := Produced(k, f, pc, target);
    ByteFromCode(code, pc, bytes);
    match f {
      case Rel4 => assert bytes[0] == code[pc]; NibbleDecodes(k, code, pc, target);
      case Rel8 => assert bytes[0] == code[pc] && bytes[1] == code[pc + 1]; ByteDecodes(k, code, pc, target);
      case Rel12 =>
      case Abs16 =>
        assert bytes[0] == code[pc] && bytes[1] == code[pc + 1] && bytes[2] == code[pc + 2];
        AddressDecodes(k, code, pc, target);
    }
  }

  lemma ByteFromCode(code: seq<nat>, p: nat, bytes: seq<nat>)
    requires StandAt(code, p, bytes)
    ensures p + |bytes| <= |code| && forall b :: 0 <= b < |bytes| ==> bytes[b] == code[p + b]
  {
    forall b | 0 <= b < |bytes|
      ensures bytes[b] == code[p + b]
    {
      assert code[p..p + |bytes|][b] == code[p + b];
    }
  }

  lemma NibbleWraps(op: nat, n: int)
    requires op == 0x80 || op == 0x90
    ensures op <= LowByte(op + n) < op + 0x10 && LowByte(op + n) % 0x10 == n <==> 0 <= n <= 15
  {
  }

  /** The last layout of a run of the relaxation loop. */
  ghost predicate Relaxed(items: seq<Item>, before: seq<Slot>, slots: seq<Slot>)
    requires WellPlaced(items)
  {
    && |items| == |before|
    && Sized(before)
    && IsRound(items, before, slots)
    && SameLabels(items, before, slots)
    && Needed(items, slots)
  }

  lemma {:induction false} RelaxedIsSettled(items: seq<Item>, before: seq<Slot>, slots: seq<Slot>)
    requires WellPlaced(items) && Relaxed(items, before, slots)
    ensures Settled(items, slots)
  {
    forall i | 0 <= i < |items| && items[i].Branch?
      ensures slots[i].size == Bytes(slots[i].form) && Opcode(items[i].kind, slots[i].form).Some?
    {
      assert slots[i] == Choice(items, before, i);
    }
  }

  /** The machine reads branch i as one to the address of its label, with the
      next item behind it. */
  ghost predicate GoesHome(items: seq<Item>, slots: seq<Slot>, code: seq<nat>, i: nat)
    requires WellPlaced(items) && i < |items| == |slots| && items[i].Branch?
  {
    Decode(code, Position(items, slots, i)) == Some(Step(items[i].kind, Target(items, slots, i),
      Position(items, slots, i + 1)))
  }

  ghost predicate InReach(items: seq<Item>, slots: seq<Slot>, i: nat)
    requires WellPlaced(items) && i < |items| == |slots| && items[i].Branch?
  {
    Fits(items[i].kind, slots[i].form, Position(items, slots, i), Target(items, slots, i))
  }

  /** A branch is decoded to the address of its label, and to the instruction
      behind it, exactly when its form reaches that far in the layout emitted.
      All anchored branches do. */
  lemma {:induction false} BranchesDecode(items: seq<Item>, before: seq<Slot>, slots: seq<Slot>, i: nat)
    requires WellPlaced(items) && Relaxed(items, before, slots)
    requires i < |items| && items[i].Branch? && Target(items, slots, i) < 0x1_0000
    ensures Settled(items, slots)
    ensures GoesHome(items, slots, CodeUpTo(items, slots, |items|), i) <==> InReach(items, slots, i)
    ensures Anchored(items, i) ==> InReach(items, slots, i)
  {
    RelaxedIsSettled(items, before, slots);
    if Anchored(items, i) {
      LastRoundFits(items, before, slots, i);
    }
    BranchDecodes(items, slots, i);
  }

  lemma {:induction false} BranchDecodes(items: seq<Item>, slots: seq<Slot>, i: nat)
    requires WellPlaced(items) && Settled(items, slots)
    requires i < |items| && items[i].Branch? && Target(items, slots, i) < 0x1_0000
    ensures GoesHome(items, slots, CodeUpTo(items, slots, |items|), i) <==> InReach(items, slots, i)
  {
    hide Decode, Produced, Fits, WellPlaced, Target, StandAt;
    CodeAt(items, slots, i, |items|);
    ProducedDecodes(items[i].kind, slots[i].form, CodeUpTo(items, slots, |items|), Position(items, slots, i),
      Target(items, slots, i));
  }

  /** No branch takes three bytes where two would reach. */
  lemma {:induction false} NoLongFormInVain(items: seq<Item>, before: seq<Slot>, slots: seq<Slot>, i: nat)
    requires WellPlaced(items) && Relaxed(items, before, slots)
    requires i < |items| && items[i].Branch? && slots[i].size == 3
    ensures !Fits(items[i].kind, Rel8, Position(items, slots, i), Target(items, slots, i))
  {
    RelaxedIsSettled(items, before, slots);
  }

  /** The positions of the labels before i, written over a table. */
  ghost function Overlay(items: seq<Item>, table: map<nat, nat>, slots: seq<Slot>, i: nat): map<nat, nat>
    requires i <= |items| == |slots|
  {
    if i == 0 then table
    else
      var before := Overlay(items, table, slots, i - 1);
      match items[i-1]
      case Label(id) => before[id := Position(items, slots, i - 1)]
      case _ => before
  }

  lemma {:induction false} OverlayLooksUp(items: seq<Item>, table: map<nat, nat>, slots: seq<Slot>, i: nat, k: nat,
      id: nat)
    requires WellPlaced(items) && i <= |items| == |slots| && LabelAt(items, k, id)
    ensures k < i ==>
            id in Overlay(items, table, slots, i) && Overlay(items, table, slots, i)[id] == Position(items, slots, k)
    ensures i <= k && id in table ==>
            id in Overlay(items, table, slots, i) && Overlay(items, table, slots, i)[id] == table[id]
  {
    if i > 0 {
      OverlayLooksUp(items, table, slots, i - 1, k, id);
      assert items[i-1].Label? ==> LabelAt(items, i - 1, items[i-1].id);
    }
  }

  ghost predicate SameUpTo(items: seq<Item>, slots: seq<Slot>, next: seq<Slot>, i: nat)
    requires i <= |items| == |slots| == |next|
  {
    forall k :: 0 <= k < i && items[k].Label? ==> Position(items, slots, k) == Position(items, next, k)
  }

  lemma OneMoreSame(items: seq<Item>, slots: seq<Slot>, next: seq<Slot>, i: nat)
    requires i < |items| == |slots| == |next|
    ensures SameUpTo(items, slots, next, i + 1) <==>
              SameUpTo(items, slots, next, i) && (items[i].Label? ==>
                Position(items, slots, i) == Position(items, next, i))
  {
  }

  lemma LabelsOverlaid(items: seq<Item>, table: map<nat, nat>, slots: seq<Slot>)
    requires WellPlaced(items) && |items| == |slots|
    ensures var all := Overlay(items, table, slots, |items|);
            forall k: nat, id: nat :: LabelAt(items, k, id) ==> id in all && all[id] == Position(items, slots, k)
  {
    forall k: nat, id: nat | LabelAt(items, k, id)
      ensures var all := Overlay(items, table, slots, |items|); id in all && all[id] == Position(items, slots, k)
    {
      OverlayLooksUp(items, table, slots, |items|, k, id);
    }
  }

  lemma WrittenAgain(table: map<nat, nat>, id: nat, pos: nat)
    requires id in table && table[id] == pos
    ensures table[id := pos] == table
  {
  }

  lemma SameUpToAll(items: seq<Item>, slots: seq<Slot>, next: seq<Slot>)
    requires |items| == |slots| == |next|
    ensures SameUpTo(items, slots, next, 0)
    ensures SameUpTo(items, slots, next, |items|) <==> SameLabels(items, slots, next)
  {
  }

  class Assembler {
    const items: seq<Item>
    const slot: array<Slot>
    var position: map<nat, nat>   // of every label

    constructor (items: seq<Item>)
      requires WellPlaced(items)
      ensures this.items == items && slot.Length == |items| && fresh(slot)
      ensures forall i :: 0 <= i < |items| ==> slot[i] == Slot(Rel4, 0)
    {
      this.items := items;
      slot := new Slot[|items|](_ => Slot(Rel4, 0));
      position := map[];
    }

    ghost predicate Valid()
      reads this
    {
      WellPlaced(items) && slot.Length == |items|
    }

    /** The labels stand where the given layout puts them. */
    ghost predicate LabelsAt(slots: seq<Slot>)
      requires |slots| == |items|
      reads this
    {
      forall k: nat, id: nat :: LabelAt(items, k, id) ==> id in position && position[id] == Position(items, slots, k)
    }

    lemma TargetStands(slots: seq<Slot>, i: nat)
      requires WellPlaced(items) && |slots| == |items| && LabelsAt(slots) && i < |items| && items[i].Branch?
      ensures items[i].target in position && position[items[i].target] == Target(items, slots, i)
    {
      var k := LabelIndex(items, items[i].target);
      assert LabelAt(items, k, items[i].target);
    }

    /** First labels: deferred code counts for nothing yet. */
    method Pass1()
      requires Valid() && forall i :: 0 <= i < |items| ==> slot[i].size == 0
      modifies `position
      ensures LabelsAt(slot[..])
    {
      position := map[];
      var pos: nat := 0;
      ghost var slots := slot[..];
      for i := 0 to |items|
        invariant pos == Position(items, slots, i)
        invariant position == Overlay(items, map[], slots, i)
      {
        assert slots[i].size == 0;
        match items[i] {
          case Byte(_) => pos := pos + 1;
          case Label(id) => position := position[id := pos];
          case Branch(_, _) =>
        }
      }
      LabelsOverlaid(items, map[], slots);
    }

    /** One round of choosing, with the labels and sizes of the old layout. */
    method ChooseForms()
      requires Valid() && LabelsAt(slot[..])
      modifies slot
      ensures IsRound(items, old(slot[..]), slot[..])
    {
      ghost var before := slot[..];
      var pos: nat := 0;
      for i := 0 to |items|
        invariant pos == Position(items, before, i)
        invariant forall k :: 0 <= k < i ==> slot[k] == Choice(items, before, k)
        invariant forall k :: i <= k < |items| ==> slot[k] == before[k]
      {
        match items[i] {
          case Byte(_) => pos := pos + 1;
          case Label(_) =>
          case Branch(kind, dest) =>
            TargetStands(before, i);
            var size := slot[i].size;
            var form := DropForms(kind, slot[i].form, pos, position[dest]);
            slot[i] := Slot(form, Bytes(form));
            pos := pos + size;
        }
      }
    }

    /** Drops check procedures until one accepts. */
    method DropForms(kind: Kind, first: Form, pos: nat, target: nat) returns (form: Form)
      ensures form == FirstFit(kind, first, pos, target)
    {
      form := first;
      while !Fits(kind, form, pos, target)
        invariant FirstFit(kind, form, pos, target) == FirstFit(kind, first, pos, target)
        decreases Remaining(form)
      {
        form := Later(form);
      }
    }

    /** Puts a label where it belongs now. */
    method PlaceLabel(id: nat, pos: nat) returns (moved: bool)
      requires id in position
      modifies `position
      ensures position == old(position)[id := pos] && moved == (old(position)[id] != pos)
    {
      moved := position[id] != pos;
      if moved {
        position := position[id := pos];
      } else {
        WrittenAgain(position, id, pos);
      }
    }

    /** The items before i have been passed, and their labels placed. */
    ghost predicate Placing(before: seq<Slot>, slots: seq<Slot>, table: map<nat, nat>, i: nat, pos: nat, changed: bool)
      requires i <= |items| == |slots| == |before|
      reads `position
    {
      && pos == Position(items, slots, i)
      && position == Overlay(items, table, slots, i)
      && (changed <==> !SameUpTo(items, before, slots, i))
    }

    method PlaceNext(i: nat, pos0: nat, changed0: bool, ghost before: seq<Slot>, ghost slots: seq<Slot>,
        ghost table: map<nat, nat>)
      returns (pos: nat, changed: bool)
      requires Valid() && i < |items| == |before| && slots == slot[..]
               && Placing(before, slots, table, i, pos0, changed0)
      requires forall k: nat, id: nat :: LabelAt(items, k, id) ==>
               id in table && table[id] == Position(items, before, k)
      modifies `position
      ensures Placing(before, slots, table, i + 1, pos, changed)
    {
      pos, changed := pos0, changed0;
      OneMoreSame(items, before, slots, i);
      hide SameUpTo;
      match items[i] {
        case Byte(_) => pos := pos + 1;
        case Label(id) =>
          assert LabelAt(items, i, id);
          OverlayLooksUp(items, table, slots, i, i, id);
          var moved := PlaceLabel(id, pos);
          changed := changed || moved;
        case Branch(_, _) => pos := pos + slot[i].size;
      }
    }

    /** Moves the labels to the new layout. */
    method PlaceLabels(ghost before: seq<Slot>) returns (changed: bool)
      requires Valid() && |before| == |items| && LabelsAt(before)
      modifies `position
      ensures LabelsAt(slot[..])
      ensures changed <==> !SameLabels(items, before, slot[..])
    {
      changed := false;
      var pos: nat := 0;
      ghost var slots, table := slot[..], position;
      SameUpToAll(items, before, slots);
      LabelsOverlaid(items, table, slots);
      assert Placing(before, slots, table, 0, pos, changed);
      hide SameUpTo, SameLabels, Position, Overlay, WellPlaced;
      for i := 0 to |items|
        invariant Placing(before, slots, table, i, pos, changed)
      {
        pos, changed := PlaceNext(i, pos, changed, before, slots, table);
      }
    }

    /** Rounds until no label moves. */
    method Relax() returns (ghost before: seq<Slot>)
      requires Valid() && forall i :: 0 <= i < |items| ==> slot[i] == Slot(Rel4, 0)
      modifies slot, `position
      ensures Relaxed(items, before, slot[..]) && LabelsAt(slot[..])
      ensures LabelsFirst(items) ==> before == Unsized(|items|)
    {
      Pass1();
      var changed := true;
      before := slot[..];
      while changed
        invariant Sized(slot[..]) && Needed(items, slot[..]) && LabelsAt(slot[..])
        invariant !changed ==> Relaxed(items, before, slot[..])
        invariant LabelsFirst(items) ==> Unsized(|items|) == if changed then slot[..] else before
        decreases changed, Work(slot[..])
      {
        before := slot[..];
        ChooseForms();
        RoundGrows(items, before, slot[..]);
        RoundKeepsNeeded(items, before, slot[..]);
        MovedLabelsTakeWork(items, before, slot[..]);
        if LabelsFirst(items) {
          OneRoundIsAll(items, slot[..]);
        }
        changed := PlaceLabels(before);
      }
    }

    /** Writes the bytes of item i. */
    method EmitNext(i: nat, code0: seq<nat>, ghost slots: seq<Slot>) returns (r: Option<seq<nat>>)
      requires Valid() && i < |items| && slots == slot[..] && Settled(items, slots) && LabelsAt(slots)
      requires code0 == CodeUpTo(items, slots, i)
      ensures r == Some(CodeUpTo(items, slots, i + 1))
    {
      CodeReaches(items, slots, i);
      assert CodeUpTo(items, slots, i + 1) == code0 + CodeOf(items, slots, i);
      hide CodeUpTo, Position;
      var pos := |code0|;
      match items[i] {
        case Byte(n) => return Some(code0 + [n]);
        case Label(id) =>
          assert LabelAt(items, i, id);
          if position[id] != pos {
            return None;
          }
          return Some(code0 + []);
        case Branch(kind, dest) =>
          TargetStands(slots, i);
          return Some(code0 + Produced(kind, slot[i].form, pos, position[dest]));
      }
    }

    /** Writes the code, checking every label on the way. None would be the
        internal error of a label that is not where it was promised. */
    method Emit(ghost before: seq<Slot>) returns (r: Option<seq<nat>>)
      requires Valid() && Relaxed(items, before, slot[..]) && LabelsAt(slot[..])
      ensures Settled(items, slot[..]) && r == Some(CodeUpTo(items, slot[..], |items|))
    {
      RelaxedIsSettled(items, before, slot[..]);
      r := EmitAll(slot[..]);
    }

    method EmitAll(ghost slots: seq<Slot>) returns (r: Option<seq<nat>>)
      requires Valid() && slots == slot[..] && Settled(items, slots) && LabelsAt(slots)
      ensures r == Some(CodeUpTo(items, slots, |items|))
    {
      hide CodeUpTo, CodeOf, WellPlaced, LabelsAt, Position;
      NoCode(items, slots);
      var code: seq<nat> := [];
      for i := 0 to |items|
        invariant slots == slot[..] && code == CodeUpTo(items, slots, i)
      {
        var more := EmitNext(i, code, slots);
        if more.None? {
          return None;
        }
        code := more.value;
      }
      return Some(code);
    }
  }

  // What goes wrong without an anchor.

  /** A label, 126 bytes, and two branches back to the label. */
  function TwoTrailingBranches(): (items: seq<Item>)
    ensures |items| == 129
  {
    seq(129, i requires 0 <= i < 129 => if i == 0 then Label(0) else if i < 127 then Byte(0) else Branch(Goto, 0))
  }

  function AllSlots(s: Slot): (slots: seq<Slot>)
    ensures |slots| == 129
  {
    seq(129, i requires 0 <= i < 129 => s)
  }

  lemma {:induction false} BytesCount(slots: seq<Slot>, i: nat)
    requires |slots| == 129 && 1 <= i <= 127
    ensures Position(TwoTrailingBranches(), slots, i) == i - 1
  {
    if i > 1 {
      BytesCount(slots, i - 1);
    }
  }

  lemma {:induction false} TrailingPlaced()
    ensures var items := TwoTrailingBranches();
            WellPlaced(items) && LabelAt(items, 0, 0) && LabelIndex(items, 0) == 0
    ensures forall k :: 0 <= k < 129 && TwoTrailingBranches()[k].Label? ==> k == 0
  {
    var items := TwoTrailingBranches();
    assert LabelAt(items, 0, 0);
    assert forall i: nat, id: nat :: LabelAt(items, i, id) ==> i == 0 && id == 0;
  }

  lemma {:induction false} TrailingPositions(s: Slot)
    ensures var items, slots := TwoTrailingBranches(), AllSlots(s);
            Position(items, slots, 127) == 126 && Position(items, slots, 128) == 126 + s.size
  {
    BytesCount(AllSlots(s), 127);
    assert TwoTrailingBranches()[127] == Branch(Goto, 0);
  }

  lemma {:induction false} TrailingLayout()
    ensures var items, before, slots := TwoTrailingBranches(), AllSlots(Slot(Rel4, 0)), AllSlots(Slot(Rel8, 2));
            && WellPlaced(items) && SameLabels(items, before, slots) && Settled(items, slots)
            && Position(items, before, 127) == Position(items, before, 128) == 126
            && Position(items, slots, 127) == 126 && Position(items, slots, 128) == 128
            && LabelAt(items, 0, 0) && LabelIndex(items, 0) == 0
  {
    TrailingPlaced();
    TrailingPositions(Slot(Rel4, 0));
    TrailingPositions(Slot(Rel8, 2));
    assert Settled(TwoTrailingBranches(), AllSlots(Slot(Rel8, 2)));
    hide WellPlaced, LabelIndex, Settled;
  }

  lemma {:induction false} TrailingChoice(i: nat)
    requires i == 127 || i == 128
    ensures WellPlaced(TwoTrailingBranches()) && Choice(TwoTrailingBranches(), AllSlots(Slot(Rel4, 0)), i) ==
            Slot(Rel8, 2)
  {
    TrailingLayout();
    assert FirstFit(Goto, Rel4, 126, 0) == Rel8;
  }

  lemma {:induction false} TrailingCode()
    ensures var items, slots := TwoTrailingBranches(), AllSlots(Slot(Rel8, 2));
            WellPlaced(items) && Settled(items, slots) && Position(items, slots, 128) == 128
              && Target(items, slots, 128) == 0
            && CodeOf(items, slots, 128) == [0xB7, 254]
  {
    TrailingLayout();
  }

  lemma TwoBytesBack(code: seq<nat>, p: nat)
    requires StandAt(code, p, [0xB7, 254])
    ensures Decode(code, p) == Some(Step(Goto, p + 128, p + 2))
  {
    assert code[p..p + 2][0] == code[p] && code[p..p + 2][1] == code[p + 1];
  }

  /** The loop stops after one round, the label having stayed where it was. */
  lemma {:induction false} TrailingBranchesStop()
    ensures var items, before, slots := TwoTrailingBranches(), AllSlots(Slot(Rel4, 0)), AllSlots(Slot(Rel8, 2));
            && WellPlaced(items) && SameLabels(items, before, slots)
            && (forall i: nat :: i < 129 && items[i].Branch? ==> slots[i] == Choice(items, before, i))
  {
    TrailingLayout();
    TrailingChoice(127);
    TrailingChoice(128);
  }

  lemma {:induction false} TrailingBranchStands()
    ensures var items, slots := TwoTrailingBranches(), AllSlots(Slot(Rel8, 2));
            WellPlaced(items) && Settled(items, slots) && StandAt(CodeUpTo(items, slots, 129), 128, [0xB7, 254])
  {
    TrailingCode();
    CodeAt(TwoTrailingBranches(), AllSlots(Slot(Rel8, 2)), 128, 129);
  }

  /** But the first branch has grown by two bytes and pushed the second one out
      of the range it was checked for, and the machine reads 256 for 0. */
  lemma {:induction false} TrailingBranchGoesWrong()
    ensures var items, slots := TwoTrailingBranches(), AllSlots(Slot(Rel8, 2));
            && WellPlaced(items) && Settled(items, slots)
            && Position(items, slots, 128) == 128 && Target(items, slots, 128) == 0
            && Decode(CodeUpTo(items, slots, 129), 128) == Some(Step(Goto, 256, 130))
  {
    TrailingCode();
    TrailingBranchStands();
    TwoBytesBack(CodeUpTo(TwoTrailingBranches(), AllSlots(Slot(Rel8, 2)), 129), 128);
  }

  /** When all labels come before all branches, a branch of the code emitted goes
      home exactly when its form fits after all. */
  lemma TrailingBranchesGoHome(items: seq<Item>, slots: seq<Slot>, i: nat)
    requires WellPlaced(items) && LabelsFirst(items) && IsRound(items, Unsized(|items|), slots) && Settled(items, slots)
    requires i < |items| && items[i].Branch? && Target(items, slots, i) < 0x1_0000
    ensures GoesHome(items, slots, CodeUpTo(items, slots, |items|), i) <==> FitsAfterAll(items, i)
  {
    OneRoundIsAll(items, slots);
    BranchDecodes(items, slots, i);
  }

  /** A whole run: it ends, it never reports the internal error, and every
      anchored branch decodes to its label. */
  method Assemble(items: seq<Item>) returns (r: Option<seq<nat>>, ghost slots: seq<Slot>)
    requires WellPlaced(items)
    ensures LabelsFirst(items) ==> IsRound(items, Unsized(|items|), slots)
    ensures Settled(items, slots) && r == Some(CodeUpTo(items, slots, |items|))
    ensures forall i: nat :: i < |items| && items[i].Branch? && Target(items, slots, i) < 0x1_0000 ==>
              (GoesHome(items, slots, r.value, i) <==> InReach(items, slots, i))
                && (Anchored(items, i) ==> InReach(items, slots, i))
    ensures forall i: nat :: i < |items| && items[i].Branch? && slots[i].size == 3 ==>
              !Fits(items[i].kind, Rel8, Position(items, slots, i), Target(items, slots, i))
  {
    var a := new Assembler(items);
    ghost var before := a.Relax();
    slots := a.slot[..];
    r := a.Emit(before);
    forall i: nat | i < |items| && items[i].Branch? && Target(items, slots, i) < 0x1_0000
      ensures (GoesHome(items, slots, r.value, i) <==> InReach(items, slots, i))
              && (Anchored(items, i) ==> InReach(items, slots, i))
    {
      BranchesDecode(items, before, slots, i);
    }
    forall i: nat | i < |items| && items[i].Branch? && slots[i].size == 3
      ensures !Fits(items[i].kind, Rel8, Position(items, slots, i), Target(items, slots, i))
    {
      NoLongFormInVain(items, before, slots, i);
    }
  }
}
