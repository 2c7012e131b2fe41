/** The shape of compiled code: every block that is left behind ends at its one
    jump, every jump goes to a label that has been made, and every label that has
    been made is used for a block. */
module Shapes {
  import opened Wrappers
  import opened Ir
  import opened Compiler

  predicate IsJump(i: Instr) { i.Goto? || i.GotoIfFalse? || i.Return? }

  predicate Aimed(i: Instr, n: nat) {
    match i
    case Goto(l) => l <= n
    case GotoIfFalse(f, t) => f <= n && t <= n
    case _ => true
  }

  /** The first primitives stop the machine or change where it goes on: to halt, to
      return, to pop, and three that work on continuations. */
  const HALT: nat := 0
  const CONTROL: nat := 6

  predicate IsControl(i: Instr) { i.Prim? && i.id < CONTROL }

  /** No jumps, and no primitives that are one. */
  ghost predicate Straight(instrs: seq<Instr>) {
    forall k :: 0 <= k < |instrs| ==> !IsJump(instrs[k]) && !IsControl(instrs[k])
  }

  ghost predicate Finished(b: Block, n: nat) {
    && b.instrs != []
    && Straight(b.instrs[..|b.instrs| - 1])
    && IsJump(b.instrs[|b.instrs| - 1]) && Aimed(b.instrs[|b.instrs| - 1], n)
  }

  /** Every label made so far has its block, but for those kept for later. */
  ghost predicate Used(code: Code, later: set<nat>) {
    forall l: nat :: l <= code.lastLabel ==> l in later || HasLabel(code, l)
  }

  ghost predicate LeftBehind(code: Code) {
    forall k :: 0 <= k < |code.blocks| - 1 ==> Finished(code.blocks[k], code.lastLabel)
  }

  /** The last block is still being built. */
  ghost predicate Growing(code: Code, later: set<nat>) {
    code.blocks != [] && Used(code, later) && LeftBehind(code) && Straight(Current(code).instrs)
  }

  /** All blocks have their jumps. */
  ghost predicate Complete(code: Code, later: set<nat>) {
    code.blocks != [] && Used(code, later) && LeftBehind(code) && Finished(Current(code), code.lastLabel)
  }

  /** Only primitives that compute are called. */
  predicate Quiet(e: Expr) {
    match e
    case Cst(_) => true
    case Local(_) => true
    case Global(_) => true
    case Assign(_, _, rhs) => Quiet(rhs)
    case If(a, b, c) => Quiet(a) && Quiet(b) && Quiet(c)
    case Seq(body) => AllQuiet(body)
    case Call(p, args) => p >= CONTROL && AllQuiet(args)
  }

  predicate AllQuiet(es: seq<Expr>) {
    es == [] || (Quiet(es[0]) && AllQuiet(es[1..]))
  }

  // One instruction, one block, some labels.

  lemma InstrAdded(c: Context, i: Instr, code': Code)
    requires Building(c) && code' == AddInstr(c, i).code
    ensures |code'.blocks| == |c.code.blocks| && code'.lastLabel == c.code.lastLabel
    ensures forall k :: 0 <= k < |c.code.blocks| - 1 ==> code'.blocks[k] == c.code.blocks[k]
    ensures Current(code').instrs == Current(c.code).instrs + [i] && Current(code').id == Current(c.code).id
  {
  }

  lemma UsedStill(code: Code, code': Code, later: set<nat>)
    requires Used(code, later) && code'.lastLabel == code.lastLabel && |code.blocks| <= |code'.blocks|
    requires forall k :: 0 <= k < |code.blocks| ==> code'.blocks[k].id == code.blocks[k].id
    ensures Used(code', later)
  {
    forall l: nat | l <= code'.lastLabel && l !in later
      ensures HasLabel(code', l)
    {
      var k :| 0 <= k < |code.blocks| && code.blocks[k].id == l;
      assert code'.blocks[k].id == l;
    }
  }

  lemma StraightOn(i: Instr, pop: nat, push: nat, c: Context, later: set<nat>)
    requires Building(c) && pop <= |c.env.slots| && Growing(c.code, later) && !IsJump(i) && !IsControl(i)
    ensures Growing(Gen(i, pop, push, c).code, later)
  {
    var code' := Gen(i, pop, push, c).code;
    InstrAdded(c.(env := Shift(c.env, pop, push)), i, code');
    UsedStill(c.code, code', later);
  }

  lemma JumpsOff(i: Instr, pop: nat, push: nat, c: Context, later: set<nat>)
    requires Building(c) && pop <= |c.env.slots| && Growing(c.code, later) && IsJump(i) && Aimed(i, c.code.lastLabel)
    ensures Complete(Gen(i, pop, push, c).code, later)
  {
    var code' := Gen(i, pop, push, c).code;
    InstrAdded(c.(env := Shift(c.env, pop, push)), i, code');
    UsedStill(c.code, code', later);
    assert Current(code').instrs[..|Current(c.code).instrs|] == Current(c.code).instrs;
  }

  lemma StartsBlock(c: Context, id: nat, later: set<nat>)
    requires Building(c) && Complete(c.code, later)
    ensures Growing(AddBlock(c, id).code, later - {id})
  {
    var code, code' := c.code, AddBlock(c, id).code;
    forall l: nat | l <= code'.lastLabel && l !in later - {id}
      ensures HasLabel(code', l)
    {
      if l == id {
        assert code'.blocks[|code.blocks|].id == l;
      } else {
        var k :| 0 <= k < |code.blocks| && code.blocks[k].id == l;
        assert code'.blocks[k].id == l;
      }
    }
  }

  /** k labels from l + 1 on. */
  ghost function After(l: nat, k: nat): (r: set<nat>)
    ensures forall x: nat :: x in r <==> l < x <= l + k
  {
    if k == 0 then {} else After(l, k - 1) + {l + k}
  }

  lemma MakesLabels(c: Context, k: nat, later: set<nat>)
    requires Building(c) && Growing(c.code, later)
    ensures Growing(Labels(k, c).code, later + After(c.code.lastLabel, k))
  {
    var code, code' := c.code, Labels(k, c).code;
    forall l: nat | l <= code'.lastLabel && l !in later + After(code.lastLabel, k)
      ensures HasLabel(code', l)
    {
      assert HasLabel(code, l);
      var k :| 0 <= k < |code.blocks| && code.blocks[k].id == l;
      assert code'.blocks[k].id == l;
    }
  }

  /** What compiling for a reason leaves. */
  ghost predicate Shaped(reason: Reason, code: Code, later: set<nat>) {
    if reason == ForReturn then Complete(code, later) else Growing(code, later)
  }

  // Every expression, by cases.

  lemma {:induction false} CompShapes(ps: Primitives, e: Expr, reason: Reason, c: Context, later: set<nat>)
    requires Building(c) && Applied(ps, e) && Quiet(e) && Growing(c.code, later)
    ensures Shaped(reason, Comp(ps, e, reason, c).code, later)
    ensures c.code.lastLabel <= Comp(ps, e, reason, c).code.lastLabel
    decreases e, 4
  {
    hide Growing, Complete, CompNone, CompPush, CompTail;
    match reason {
      case ForEffect => NoneShapes(ps, e, c, later);
      case ForValue => PushShapes(ps, e, c, later);
      case ForReturn => TailShapes(ps, e, c, later);
    }
  }

  lemma {:induction false} NoneShapes(ps: Primitives, e: Expr, c: Context, later: set<nat>)
    requires Building(c) && Applied(ps, e) && Quiet(e) && Growing(c.code, later)
    ensures Growing(CompNone(ps, e, c).code, later) && c.code.lastLabel <= CompNone(ps, e, c).code.lastLabel
    decreases e, 1
  {
    hide Growing, CompPush, CompIf, CompSeq, CompCall;
    match e {
      case Cst(_) =>
      case Local(_) =>
      case Global(_) =>
      case Assign(x, needed, rhs) =>
        if needed {
          PushShapes(ps, rhs, c, later);
          StraightOn(SetGlobal(x), 1, 0, CompPush(ps, rhs, c), later);
        } else {
          NoneShapes(ps, rhs, c, later);
        }
      case If(_, _, _) => IfShapes(ps, e, ForEffect, c, later);
      case Seq(_) => SeqShapes(ps, e, ForEffect, c, later);
      case Call(_, _) => CallShapes(ps, e, ForEffect, c, later);
    }
  }

  lemma {:induction false} PushShapes(ps: Primitives, e: Expr, c: Context, later: set<nat>)
    requires Building(c) && Applied(ps, e) && Quiet(e) && Growing(c.code, later)
    ensures Growing(CompPush(ps, e, c).code, later) && c.code.lastLabel <= CompPush(ps, e, c).code.lastLabel
    decreases e, 2
  {
    hide Growing, CompNone, CompIf, CompSeq, CompCall;
    match e {
      case Cst(val) => StraightOn(PushConstant(val), 0, 1, c, later);
      case Local(x) =>
        var i := FindLocal(x, c.env);
        StraightOn(PushStack(if i >= 0 then i else -1 - i + |c.env.slots|), 0, 1, c, later);
      case Global(x) => StraightOn(PushGlobal(x), 0, 1, c, later);
      case Assign(_, _, _) =>
        NoneShapes(ps, e, c, later);
        StraightOn(PushConstant(FALSE), 0, 1, CompNone(ps, e, c), later);
      case If(_, _, _) => IfShapes(ps, e, ForValue, c, later);
      case Seq(_) => SeqShapes(ps, e, ForValue, c, later);
      case Call(_, _) => CallShapes(ps, e, ForValue, c, later);
    }
  }

  lemma {:induction false} TailShapes(ps: Primitives, e: Expr, c: Context, later: set<nat>)
    requires Building(c) && Applied(ps, e) && Quiet(e) && Growing(c.code, later)
    ensures Complete(CompTail(ps, e, c).code, later) && c.code.lastLabel <= CompTail(ps, e, c).code.lastLabel
    decreases e, 3
  {
    hide Growing, Complete, CompPush, CompIf, CompSeq, CompCall;
    match e {
      case If(_, _, _) => IfShapes(ps, e, ForReturn, c, later);
      case Seq(_) => SeqShapes(ps, e, ForReturn, c, later);
      case Call(_, _) => CallShapes(ps, e, ForReturn, c, later);
      case _ =>
        PushShapes(ps, e, c, later);
        Returned(CompPush(ps, e, c), later);
    }
  }

  lemma Returned(c: Context, later: set<nat>)
    requires Building(c) && Growing(c.code, later)
    ensures Complete(GenReturn(c).code, later) && GenReturn(c).code.lastLabel == c.code.lastLabel
  {
    JumpsOff(Return, |c.env.slots|, 0, c, later);
  }

  lemma {:induction false} TestShapes(ps: Primitives, e: Expr, ifTrue: nat, ifFalse: nat, c: Context, later: set<nat>)
    requires Building(c) && Applied(ps, e) && Quiet(e) && Growing(c.code, later)
    requires ifTrue <= c.code.lastLabel && ifFalse <= c.code.lastLabel
    ensures Complete(CompTest(ps, e, ifTrue, ifFalse, c).code, later)
    ensures c.code.lastLabel <= CompTest(ps, e, ifTrue, ifFalse, c).code.lastLabel
    decreases e, 3
  {
    hide Growing, Complete, CompPush;
    if e.Cst? {
      JumpsOff(Goto(if e.val == FALSE then ifFalse else ifTrue), 0, 0, c, later);
    } else {
      PushShapes(ps, e, c, later);
      JumpsOff(GotoIfFalse(ifFalse, ifTrue), 1, 0, CompPush(ps, e, c), later);
    }
  }

  lemma {:induction false} SeqShapes(ps: Primitives, e: Expr, reason: Reason, c: Context, later: set<nat>)
    requires Building(c) && e.Seq? && Applied(ps, e) && Quiet(e) && Growing(c.code, later)
    ensures Shaped(reason, CompSeq(ps, e, reason, c).code, later)
    ensures c.code.lastLabel <= CompSeq(ps, e, reason, c).code.lastLabel
    decreases e, 0
  {
    hide Growing, Complete, CompBody;
    if e.body == [] {
      StraightOn(PushConstant(FALSE), 0, 1, c, later);
      Returned(GenPushUnspecified(c), later);
    } else {
      BodyShapes(ps, e.body, reason, c, later);
    }
  }

  lemma {:induction false} BodyShapes(ps: Primitives, es: seq<Expr>, reason: Reason, c: Context, later: set<nat>)
    requires Building(c) && es != [] && AllApplied(ps, es) && AllQuiet(es) && Growing(c.code, later)
    ensures Shaped(reason, CompBody(ps, es, reason, c).code, later)
    ensures c.code.lastLabel <= CompBody(ps, es, reason, c).code.lastLabel
    decreases es, 0
  {
    hide Growing, Complete, Comp, CompNone;
    if |es| == 1 {
      CompShapes(ps, es[0], reason, c, later);
    } else {
      NoneShapes(ps, es[0], c, later);
      BodyShapes(ps, es[1..], reason, CompNone(ps, es[0], c), later);
    }
  }

  lemma {:induction false} ArgsShape(ps: Primitives, es: seq<Expr>, c: Context, later: set<nat>)
    requires Building(c) && AllApplied(ps, es) && AllQuiet(es) && Growing(c.code, later)
    ensures Growing(CompArgs(ps, es, c).code, later) && c.code.lastLabel <= CompArgs(ps, es, c).code.lastLabel
    decreases es, 0
  {
    hide Growing, CompPush;
    if es != [] {
      PushShapes(ps, es[0], c, later);
      ArgsShape(ps, es[1..], CompPush(ps, es[0], c), later);
    }
  }

  lemma {:induction false} CallShapes(ps: Primitives, e: Expr, reason: Reason, c: Context, later: set<nat>)
    requires Building(c) && e.Call? && Applied(ps, e) && Quiet(e) && Growing(c.code, later)
    ensures Shaped(reason, CompCall(ps, e, reason, c).code, later)
    ensures c.code.lastLabel <= CompCall(ps, e, reason, c).code.lastLabel
    decreases e, 0
  {
    hide Growing, Complete, CompArgs;
    var unspecified := ps.unspecified(e.prim);
    var pushed := CompArgs(ps, e.args, c);
    ArgsShape(ps, e.args, c, later);
    StraightOn(Prim(e.prim), ps.arity(e.prim), if unspecified then 0 else 1, pushed, later);
    var bare := GenPrim(ps, e.prim, pushed);
    StraightOn(PushConstant(FALSE), 0, 1, bare, later);
    var result := if unspecified then GenPushUnspecified(bare) else bare;
    Returned(result, later);
    StraightOn(Pop, 1, 0, result, later);
  }

  /** A join: a jump there, and its block. */
  lemma JoinShapes(c: Context, target: nat, id: nat, later: set<nat>)
    requires Building(c) && Growing(c.code, later) && target <= c.code.lastLabel
    ensures var c' := AddBlock(GenGoto(target, c), id);
            Growing(c'.code, later - {id}) && c'.code.lastLabel == c.code.lastLabel
  {
    JumpsOff(Goto(target), 0, 0, c, later);
    StartsBlock(GenGoto(target, c), id, later);
  }

  lemma {:induction false} ArmShapes(ps: Primitives, e: Expr, reason: Reason, before: Context, id: nat, later: set<nat>)
    requires Building(before) && Applied(ps, e) && Quiet(e) && Complete(before.code, later)
    ensures var done := Comp(ps, e, reason, AddBlock(before, id)).code;
            Shaped(reason, done, later - {id}) && before.code.lastLabel <= done.lastLabel
    decreases e, 5
  {
    hide Growing, Complete, Comp;
    StartsBlock(before, id, later);
    CompShapes(ps, e, reason, AddBlock(before, id), later - {id});
  }

  lemma FewerLater(reason: Reason, code: Code, later: set<nat>, more: set<nat>)
    requires Shaped(reason, code, later) && later <= more
    ensures Shaped(reason, code, more)
  {
  }

  lemma {:induction false} IfShapes(ps: Primitives, e: Expr, reason: Reason, c: Context, later: set<nat>)
    requires Building(c) && e.If? && Applied(ps, e) && Quiet(e) && Growing(c.code, later)
    ensures Shaped(reason, CompIf(ps, e, reason, c).code, later)
    ensures c.code.lastLabel <= CompIf(ps, e, reason, c).code.lastLabel
    decreases e, 0
  {
    hide Growing, Complete, CompIf, CompTest, Comp;
    var l, k := c.code.lastLabel, LabelsFor(reason);
    var tested, a := IfIs(ps, e, reason, c);
    var all := later + After(l, k);
    MakesLabels(c, k, later);
    TestShapes(ps, e.test, l + 1, l + 2, Labels(k, c), all);
    ArmShapes(ps, e.els, reason, tested.(env2 := None), l + 2, all);
    if reason != ForReturn {
      JumpsOff(Goto(l + 4), 0, 0, a.elsDone, all - {l + 2});
    }
    ArmShapes(ps, e.thn, reason, a.between.(env := tested.env), l + 1, all - {l + 2});
    if reason != ForReturn {
      JoinsShape(l, a.thnDone, all - {l + 2} - {l + 1});
    }
    AllTaken(l, later);
    FewerLater(reason, CompIf(ps, e, reason, c).code,
               if reason == ForReturn then all - {l + 2} - {l + 1}
                 else all - {l + 2} - {l + 1} - {l + 4} - {l + 3} - {l + 5}, later);
  }

  lemma AllTaken(l: nat, later: set<nat>)
    ensures later + After(l, 2) - {l + 2} - {l + 1} <= later
    ensures later + After(l, 5) - {l + 2} - {l + 1} - {l + 4} - {l + 3} - {l + 5} <= later
  {
  }

  lemma JoinsShape(l: nat, done: Context, later: set<nat>)
    requires Building(done) && Growing(done.code, later) && l + 5 <= done.code.lastLabel
    ensures Growing(JoinsOf(l, done).joined.code, later - {l + 4} - {l + 3} - {l + 5})
    ensures JoinsOf(l, done).joined.code.lastLabel == done.code.lastLabel
  {
    hide Growing;
    var j := JoinsOf(l, done);
    JoinShapes(done, l + 3, l + 4, later);
    JoinShapes(j.elsJoin, l + 5, l + 3, later - {l + 4});
    JoinShapes(j.thnJoin, l + 5, l + 5, later - {l + 4} - {l + 3});
  }
}
