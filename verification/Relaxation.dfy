/** Branches of variable length: which form each branch of a program takes, and
    what the virtual machine reads back. */
module Relaxation {
  import opened Wrappers

  datatype Kind = CallToplevel | JumpToplevel | Goto | GotoIfFalse | MakeClosure

  /** The forms the assembler tries, in this order. */
  datatype Form = Rel4 | Rel8 | Rel12 | Abs16

  /** What the assembler keeps of the code: bytes, labels at the place they are
      set, and branches to a label. */
  datatype Item = Byte(value: nat) | Label(id: nat) | Branch(kind: Kind, target: nat)

  function Opcode(k: Kind, f: Form): Option<nat> {
    match f
    case Rel4 => (match k case JumpToplevel => Some(0x80) case GotoIfFalse => Some(0x90) case _ => None)
    case Rel8 => (match k
      case CallToplevel => Some(0xB5) case JumpToplevel => Some(0xB6) case Goto => Some(0xB7)
      case GotoIfFalse => Some(0xB8) case MakeClosure => Some(0xB9))
    case Rel12 => None
    case Abs16 => (match k
      case CallToplevel => Some(0xB0) case JumpToplevel => Some(0xB1) case Goto => Some(0xB2)
      case GotoIfFalse => Some(0xB3) case MakeClosure => Some(0xB4))
  }

  function Bytes(f: Form): nat {
    match f case Rel4 => 1 case Rel8 => 2 case Rel12 => 2 case Abs16 => 3
  }

  /** The operand of the form for a branch at self. */
  function Operand(f: Form, self: int, target: int): int {
    match f
    case Rel4 => target - (self + 1)
    case Rel8 => 128 + target - (self + 2)
    case Rel12 => 2048 + target - (self + 2)
    case Abs16 => target
  }

  /** The check procedures. */
  predicate Fits(k: Kind, f: Form, self: int, target: int) {
    match f
    case Rel4 => Opcode(k, f).Some? && 0 <= Operand(f, self, target) <= 15
    case Rel8 => Opcode(k, f).Some? && 0 <= Operand(f, self, target) <= 255
    case Rel12 => Opcode(k, f).Some? && 0 <= Operand(f, self, target) <= 4095
    case Abs16 => true
  }

  function Later(f: Form): Form {
    match f case Rel4 => Rel8 case Rel8 => Rel12 case Rel12 => Abs16 case Abs16 => Abs16
  }

  function Remaining(f: Form): nat {
    match f case Rel4 => 3 case Rel8 => 2 case Rel12 => 1 case Abs16 => 0
  }

  /** The first form from f on that fits. */
  function FirstFit(k: Kind, f: Form, self: int, target: int): (r: Form)
    ensures Fits(k, r, self, target) && Remaining(r) <= Remaining(f) && Bytes(r) >= Bytes(f)
    decreases Remaining(f)
  {
    if Fits(k, f, self, target) then f else FirstFit(k, Later(f), self, target)
  }

  /** What the assembler knows of an item: the form to try first, and the size
      given to it in the last round, 0 before the first. */
  datatype Slot = Slot(form: Form, size: nat)

  function Width(x: Item, s: Slot): nat {
    match x case Byte(_) => 1 case Label(_) => 0 case Branch(_, _) => s.size
  }

  function Position(items: seq<Item>, slots: seq<Slot>, i: nat): nat
    requires i <= |items| == |slots|
  {
    if i == 0 then 0 else Position(items, slots, i - 1) + Width(items[i-1], slots[i-1])
  }

  ghost predicate LabelAt(items: seq<Item>, i: nat, id: nat) {
    i < |items| && items[i] == Label(id)
  }

  /** Every label is set once, and every branch goes to a label that is set; the
      assembler stops with an error otherwise. */
  ghost predicate WellPlaced(items: seq<Item>) {
    && (forall i: nat, j: nat, id: nat :: LabelAt(items, i, id) && LabelAt(items, j, id) ==> i == j)
    && (forall i :: 0 <= i < |items| && items[i].Branch? ==> exists j: nat :: LabelAt(items, j, items[i].target))
  }

  ghost function LabelIndex(items: seq<Item>, id: nat): (i: nat)
    requires exists i: nat :: LabelAt(items, i, id)
    ensures LabelAt(items, i, id)
  {
    var i: nat :| LabelAt(items, i, id);
    i
  }

  /** Where the layout puts the label a branch goes to. */
  ghost function Target(items: seq<Item>, slots: seq<Slot>, i: nat): nat
    requires WellPlaced(items) && i < |items| == |slots| && items[i].Branch?
  {
    Position(items, slots, LabelIndex(items, items[i].target))
  }

  /** Sizes belong to the forms, except before the first round. */
  ghost predicate Sized(slots: seq<Slot>) {
    forall i :: 0 <= i < |slots| ==> slots[i].size == 0 || slots[i].size == Bytes(slots[i].form)
  }

  /** One round: every branch drops the forms that do not fit the old layout. */
  ghost function Choice(items: seq<Item>, slots: seq<Slot>, i: nat): Slot
    requires WellPlaced(items) && i < |items| == |slots|
  {
    if items[i].Branch? then
      var f := FirstFit(items[i].kind, slots[i].form, Position(items, slots, i), Target(items, slots, i));
      Slot(f, Bytes(f))
    else
      slots[i]
  }

  ghost predicate IsRound(items: seq<Item>, slots: seq<Slot>, next: seq<Slot>)
    requires WellPlaced(items) && |items| == |slots|
  {
    |next| == |slots| && forall i :: 0 <= i < |slots| ==> next[i] == Choice(items, slots, i)
  }

  ghost predicate SameLabels(items: seq<Item>, slots: seq<Slot>, next: seq<Slot>)
    requires |items| == |slots| == |next|
  {
    forall i :: 0 <= i < |items| && items[i].Label? ==> Position(items, slots, i) == Position(items, next, i)
  }

  // Sizes and distances only grow.

  ghost predicate Grown(slots: seq<Slot>, next: seq<Slot>) {
    && |slots| == |next|
    && forall i :: 0 <= i < |slots| ==>
      slots[i].size <= next[i].size && Remaining(next[i].form) <= Remaining(slots[i].form)
  }

  lemma {:induction false} RoundGrows(items: seq<Item>, slots: seq<Slot>, next: seq<Slot>)
    requires WellPlaced(items) && |items| == |slots| && Sized(slots) && IsRound(items, slots, next)
    ensures Grown(slots, next) && Sized(next)
  {
    forall i | 0 <= i < |slots|
      ensures slots[i].size <= next[i].size && Remaining(next[i].form) <= Remaining(slots[i].form)
    {
      assert next[i] == Choice(items, slots, i);
    }
    forall i | 0 <= i < |next|
      ensures next[i].size == 0 || next[i].size == Bytes(next[i].form)
    {
      assert next[i] == Choice(items, slots, i);
    }
  }

  lemma {:induction false} DistancesGrow(items: seq<Item>, slots: seq<Slot>, next: seq<Slot>, i: nat, j: nat)
    requires i <= j <= |items| == |slots| && Grown(slots, next)
    ensures Position(items, slots, j) - Position(items, slots, i) <= Position(items, next, j) - Position(items, next, i)
    ensures Position(items, slots, i) <= Position(items, slots, j)
  {
    if i < j {
      DistancesGrow(items, slots, next, i, j - 1);
    }
  }

  /** A form that did not reach does not reach later: labels ahead stay out of
      range ahead, labels behind stay out of range behind. */
  lemma {:induction false} StaysOutOfReach(items: seq<Item>, slots: seq<Slot>, next: seq<Slot>, i: nat)
    requires WellPlaced(items) && i < |items| == |slots| && items[i].Branch? && Grown(slots, next)
    requires !Fits(items[i].kind, Rel8, Position(items, slots, i), Target(items, slots, i))
    ensures !Fits(items[i].kind, Rel8, Position(items, next, i), Target(items, next, i))
  {
    var t := LabelIndex(items, items[i].target);
    if i <= t {
      DistancesGrow(items, slots, next, i, t);
    } else {
      DistancesGrow(items, slots, next, t, i);
    }
  }

  /** No branch has given up the two-byte form in vain. */
  ghost predicate Needed(items: seq<Item>, slots: seq<Slot>)
    requires WellPlaced(items) && |items| == |slots|
  {
    forall i :: 0 <= i < |items| && items[i].Branch? && Remaining(slots[i].form) < Remaining(Rel8) ==>
      !Fits(items[i].kind, Rel8, Position(items, slots, i), Target(items, slots, i))
  }

  lemma {:induction false} RoundKeepsNeeded(items: seq<Item>, slots: seq<Slot>, next: seq<Slot>)
    requires WellPlaced(items) && |items| == |slots| && Sized(slots) && IsRound(items, slots, next)
             && Needed(items, slots)
    ensures Needed(items, next)
  {
    RoundGrows(items, slots, next);
    forall i | 0 <= i < |items| && items[i].Branch? && Remaining(next[i].form) < Remaining(Rel8)
      ensures !Fits(items[i].kind, Rel8, Position(items, next, i), Target(items, next, i))
    {
      assert next[i] == Choice(items, slots, i);
      StaysOutOfReach(items, slots, next, i);
    }
  }

  // Termination.

  function Pending(s: Slot): nat {
    if s.size == 0 then 4 else Remaining(s.form)
  }

  function Work(slots: seq<Slot>): nat {
    if slots == [] then 0 else Pending(slots[0]) + Work(slots[1..])
  }

  lemma {:induction false} WorkShrinks(slots: seq<Slot>, next: seq<Slot>)
    requires Grown(slots, next) && Sized(slots) && Sized(next)
    ensures Work(next) <= Work(slots)
    ensures Work(next) == Work(slots) ==> forall i :: 0 <= i < |slots| ==> next[i].size == slots[i].size
  {
    if slots != [] {
      assert forall i :: 0 <= i < |slots[1..]| ==> slots[1..][i] == slots[i+1] && next[1..][i] == next[i+1];
      WorkShrinks(slots[1..], next[1..]);
      assert Pending(next[0]) <= Pending(slots[0]);
      if Work(next) == Work(slots) {
        forall i | 0 <= i < |slots|
          ensures next[i].size == slots[i].size
        {
          if i > 0 {
            assert next[1..][i-1].size == slots[1..][i-1].size;
          }
        }
      }
    }
  }

  lemma {:induction false} SamePosition(items: seq<Item>, slots: seq<Slot>, next: seq<Slot>, i: nat)
    requires i <= |items| == |slots| == |next|
    requires forall k :: 0 <= k < i && items[k].Branch? ==> next[k].size == slots[k].size
    ensures Position(items, next, i) == Position(items, slots, i)
  {
    if i > 0 {
      SamePosition(items, slots, next, i - 1);
    }
  }

  lemma {:induction false} MovedLabelsTakeWork(items: seq<Item>, slots: seq<Slot>, next: seq<Slot>)
    requires WellPlaced(items) && |items| == |slots| && Sized(slots) && IsRound(items, slots, next)
    ensures !SameLabels(items, slots, next) ==> Work(next) < Work(slots)
  {
    RoundGrows(items, slots, next);
    WorkShrinks(slots, next);
    if Work(next) == Work(slots) {
      forall i | 0 <= i < |items| && items[i].Label?
        ensures Position(items, slots, i) == Position(items, next, i)
      {
        SamePosition(items, slots, next, i);
      }
    }
  }

  // The final layout.

  /** Every branch before item i is followed by some label. That holds when a
      label follows item i, and for the first branch after the last label. */
  ghost predicate Anchored(items: seq<Item>, i: nat)
    requires i < |items|
  {
    forall k :: 0 <= k < i && items[k].Branch? ==> exists j :: k < j < |items| && items[j].Label?
  }

  /** A label that stays put holds every size before it. */
  lemma {:induction false} StillBefore(items: seq<Item>, slots: seq<Slot>, next: seq<Slot>, k: nat, j: nat)
    requires k < j <= |items| == |slots| && Grown(slots, next) && items[k].Branch?
    requires Position(items, slots, j) == Position(items, next, j)
    ensures next[k].size == slots[k].size
  {
    DistancesGrow(items, slots, next, 0, k);
    DistancesGrow(items, slots, next, k + 1, j);
  }

  lemma {:induction false} LastRoundFits(items: seq<Item>, slots: seq<Slot>, next: seq<Slot>, i: nat)
    requires WellPlaced(items) && |items| == |slots| && Sized(slots) && IsRound(items, slots, next)
    requires SameLabels(items, slots, next)
    requires i < |items| && items[i].Branch? && Anchored(items, i)
    ensures Fits(items[i].kind, next[i].form, Position(items, next, i), Target(items, next, i))
  {
    RoundGrows(items, slots, next);
    forall k | 0 <= k < i && items[k].Branch?
      ensures next[k].size == slots[k].size
    {
      var j :| k < j < |items| && items[j].Label?;
      StillBefore(items, slots, next, k, j);
    }
    SamePosition(items, slots, next, i);
    assert next[i] == Choice(items, slots, i);
    assert LabelAt(items, LabelIndex(items, items[i].target), items[i].target);
  }

  // Labels in front of all branches: there one round is all, and what becomes of
  // a branch can be told from the items.

  ghost predicate LabelsFirst(items: seq<Item>) {
    forall k, j :: 0 <= k < j < |items| && items[k].Branch? ==> !items[j].Label?
  }

  /** Before the first round. */
  function Unsized(n: nat): seq<Slot> {
    seq(n, _ => Slot(Rel4, 0))
  }

  function BytesBefore(items: seq<Item>, i: nat): nat
    requires i <= |items|
  {
    if i == 0 then 0 else BytesBefore(items, i - 1) + if items[i-1].Byte? then 1 else 0
  }

  /** The form that fits when no branch takes any room. */
  ghost function FormAtOnce(items: seq<Item>, i: nat): Form
    requires WellPlaced(items) && i < |items| && items[i].Branch?
  {
    FirstFit(items[i].kind, Rel4, BytesBefore(items, i), BytesBefore(items, LabelIndex(items, items[i].target)))
  }

  /** The room the branches before item i take. */
  ghost function BranchBytesBefore(items: seq<Item>, i: nat): nat
    requires WellPlaced(items) && i <= |items|
  {
    if i == 0 then 0
    else BranchBytesBefore(items, i - 1) + if items[i-1].Branch? then Bytes(FormAtOnce(items, i - 1)) else 0
  }

  /** The form still fits when those branches have pushed item i away. */
  ghost predicate FitsAfterAll(items: seq<Item>, i: nat)
    requires WellPlaced(items) && i < |items| && items[i].Branch?
  {
    Fits(items[i].kind, FormAtOnce(items, i), BytesBefore(items, i) + BranchBytesBefore(items, i),
         BytesBefore(items, LabelIndex(items, items[i].target)))
  }

  lemma {:induction false} UnsizedLayout(items: seq<Item>, i: nat)
    requires i <= |items|
    ensures Position(items, Unsized(|items|), i) == BytesBefore(items, i)
  {
    if i > 0 {
      UnsizedLayout(items, i - 1);
    }
  }

  lemma {:induction false} ChosenAtOnce(items: seq<Item>, slots: seq<Slot>, i: nat)
    requires WellPlaced(items) && IsRound(items, Unsized(|items|), slots) && i < |items| && items[i].Branch?
    ensures slots[i] == Slot(FormAtOnce(items, i), Bytes(FormAtOnce(items, i)))
  {
    UnsizedLayout(items, i);
    UnsizedLayout(items, LabelIndex(items, items[i].target));
    assert slots[i] == Choice(items, Unsized(|items|), i);
  }

  lemma {:induction false} OneRoundLayout(items: seq<Item>, slots: seq<Slot>, i: nat)
    requires WellPlaced(items) && IsRound(items, Unsized(|items|), slots) && i <= |items|
    ensures Position(items, slots, i) == BytesBefore(items, i) + BranchBytesBefore(items, i)
  {
    if i > 0 {
      OneRoundLayout(items, slots, i - 1);
      if items[i-1].Branch? {
        ChosenAtOnce(items, slots, i - 1);
      }
    }
  }

  lemma {:induction false} NoBranchBefore(items: seq<Item>, i: nat)
    requires WellPlaced(items) && i <= |items| && forall k :: 0 <= k < i ==> !items[k].Branch?
    ensures BranchBytesBefore(items, i) == 0
  {
    if i > 0 {
      NoBranchBefore(items, i - 1);
    }
  }

  /** After one round the labels stand where they stood, and a branch reaches its
      label exactly when its form fits after all. */
  lemma {:induction false} OneRoundIsAll(items: seq<Item>, slots: seq<Slot>)
    requires WellPlaced(items) && LabelsFirst(items) && IsRound(items, Unsized(|items|), slots)
    ensures SameLabels(items, Unsized(|items|), slots)
    ensures forall i: nat :: i < |items| && items[i].Branch? ==>
              (Fits(items[i].kind, slots[i].form, Position(items, slots, i), Target(items, slots, i)) <==>
                FitsAfterAll(items, i))
  {
    forall i | 0 <= i < |items| && items[i].Label?
      ensures Position(items, Unsized(|items|), i) == Position(items, slots, i) == BytesBefore(items, i)
    {
      UnsizedLayout(items, i);
      OneRoundLayout(items, slots, i);
      NoBranchBefore(items, i);
    }
    forall i: nat | i < |items| && items[i].Branch?
      ensures Fits(items[i].kind, slots[i].form, Position(items, slots, i), Target(items, slots, i)) <==>
              FitsAfterAll(items, i)
    {
      ChosenAtOnce(items, slots, i);
      OneRoundLayout(items, slots, i);
      assert LabelAt(items, LabelIndex(items, items[i].target), items[i].target);
    }
  }
}
