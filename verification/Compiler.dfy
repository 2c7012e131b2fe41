/** From expressions to basic blocks. */
module Compiler {
  import opened Wrappers
  import opened Ir

  /** The fragment: constants, variables, assignments of globals, tests,
      sequences and calls of primitives. An assignment of a global that nothing
      reads is not needed and only evaluates its right-hand side. */
  datatype Expr =
    | Cst(val: nat)
    | Local(x: nat)
    | Global(x: nat)
    | Assign(x: nat, needed: bool, rhs: Expr)
    | If(test: Expr, thn: Expr, els: Expr)
    | Seq(body: seq<Expr>)
    | Call(prim: nat, args: seq<Expr>)

  /** What is known of the primitives: their arities, and which of them leave no
      value. */
  datatype Primitives = Primitives(arity: nat -> nat, unspecified: nat -> bool)

  datatype Reason = ForEffect | ForValue | ForReturn

  /** Primitives are called with as many arguments as they take; the compiler
      stops with an error otherwise. */
  predicate Applied(ps: Primitives, e: Expr) {
    match e
    case Cst(_) => true
    case Local(_) => true
    case Global(_) => true
    case Assign(_, _, rhs) => Applied(ps, rhs)
    case If(a, b, c) => Applied(ps, a) && Applied(ps, b) && Applied(ps, c)
    case Seq(body) => AllApplied(ps, body)
    case Call(p, args) => |args| == ps.arity(p) && AllApplied(ps, args)
  }

  predicate AllApplied(ps: Primitives, es: seq<Expr>) {
    es == [] || (Applied(ps, es[0]) && AllApplied(ps, es[1..]))
  }

  function GenPushUnspecified(c: Context): Context
    requires Building(c)
  {
    GenPushConstant(FALSE, c)
  }

  function GenPrim(ps: Primitives, p: nat, c: Context): Context
    requires Building(c) && ps.arity(p) <= |c.env.slots|
  {
    Gen(Prim(p), ps.arity(p), if ps.unspecified(p) then 0 else 1, c)
  }

  /** How many values an expression leaves on the stack. */
  function Pushes(reason: Reason): nat { if reason == ForValue then 1 else 0 }

  function Comp(ps: Primitives, e: Expr, reason: Reason, c: Context): (c': Context)
    requires Building(c) && Applied(ps, e)
    ensures Building(c') && (reason != ForReturn ==> c'.env == Shift(c.env, 0, Pushes(reason)))
    decreases e, 4
  {
    match reason
    case ForEffect => CompNone(ps, e, c)
    case ForValue => CompPush(ps, e, c)
    case ForReturn => CompTail(ps, e, c)
  }

  function CompNone(ps: Primitives, e: Expr, c: Context): (c': Context)
    requires Building(c) && Applied(ps, e)
    ensures Building(c') && c'.env == Shift(c.env, 0, 0)
    decreases e, 1
  {
    match e
    case Cst(_) => c
    case Local(_) => c
    case Global(_) => c
    case Assign(x, needed, rhs) =>
      if needed then Gen(SetGlobal(x), 1, 0, CompPush(ps, rhs, c)) else CompNone(ps, rhs, c)
    case If(_, _, _) => CompIf(ps, e, ForEffect, c)
    case Seq(_) => CompSeq(ps, e, ForEffect, c)
    case Call(_, _) => CompCall(ps, e, ForEffect, c)
  }

  function CompPush(ps: Primitives, e: Expr, c: Context): (c': Context)
    requires Building(c) && Applied(ps, e)
    ensures Building(c') && c'.env == Shift(c.env, 0, 1)
    decreases e, 2
  {
    match e
    case Cst(val) => GenPushConstant(val, c)
    case Local(x) => GenPushLocal(x, c)
    case Global(x) => Gen(PushGlobal(x), 0, 1, c)
    case Assign(_, _, _) => GenPushUnspecified(CompNone(ps, e, c))
    case If(_, _, _) => CompIf(ps, e, ForValue, c)
    case Seq(_) => CompSeq(ps, e, ForValue, c)
    case Call(_, _) => CompCall(ps, e, ForValue, c)
  }

  function CompTail(ps: Primitives, e: Expr, c: Context): (c': Context)
    requires Building(c) && Applied(ps, e)
    ensures Building(c')
    decreases e, 3
  {
    match e
    case If(_, _, _) => CompIf(ps, e, ForReturn, c)
    case Seq(_) => CompSeq(ps, e, ForReturn, c)
    case Call(_, _) => CompCall(ps, e, ForReturn, c)
    case _ => GenReturn(CompPush(ps, e, c))
  }

  function CompTest(ps: Primitives, e: Expr, ifTrue: nat, ifFalse: nat, c: Context): (c': Context)
    requires Building(c) && Applied(ps, e)
    ensures Building(c') && c'.env == Shift(c.env, 0, 0) && c'.env2 == Some(c'.env)
    decreases e, 3
  {
    var c1 := if e.Cst? then GenGoto(if e.val == FALSE then ifFalse else ifTrue, c)
              else Gen(GotoIfFalse(ifFalse, ifTrue), 1, 0, CompPush(ps, e, c));
    c1.(env2 := Some(c1.env))
  }

  /** k new labels. */
  function Labels(k: nat, c: Context): Context {
    c.(code := c.code.(lastLabel := c.code.lastLabel + k))
  }

  function LabelsFor(reason: Reason): nat { if reason == ForReturn then 2 else 5 }

  /** Where the second arm starts from. */
  function Between(reason: Reason, l: nat, elsDone: Context): (c: Context)
    requires Building(elsDone)
    ensures Building(c)
  {
    if reason == ForReturn then elsDone else GenGoto(l + 4, elsDone)
  }

  /** A join for each arm, and the one behind both. */
  datatype Joins = Joins(elsJoin: Context, thnJoin: Context, joined: Context)

  function JoinsOf(l: nat, done: Context): (j: Joins)
    requires Building(done)
    ensures Building(j.elsJoin) && Building(j.thnJoin) && Building(j.joined) && j.joined.env == done.env
  {
    ShiftNone(done.env);
    var elsJoin := AddBlock(GenGoto(l + 3, done), l + 4);
    var thnJoin := AddBlock(GenGoto(l + 5, elsJoin), l + 3);
    Joins(elsJoin, thnJoin, AddBlock(GenGoto(l + 5, thnJoin), l + 5))
  }

  /** Where an if gets to from its arms. */
  function EndOf(reason: Reason, l: nat, thnDone: Context): Context
    requires Building(thnDone)
    ensures Building(EndOf(reason, l, thnDone)) && EndOf(reason, l, thnDone).env == thnDone.env
  {
    if reason == ForReturn then thnDone else JoinsOf(l, thnDone).joined
  }

  /** Both arms are compiled from the stack that the test leaves behind. */
  function CompIf(ps: Primitives, e: Expr, reason: Reason, c: Context): (c': Context)
    requires Building(c) && e.If? && Applied(ps, e)
    ensures Building(c') && (reason != ForReturn ==> c'.env == Shift(c.env, 0, Pushes(reason)))
    decreases e, 0
  {
    var l := c.code.lastLabel;
    var tested := CompTest(ps, e.test, l + 1, l + 2, Labels(LabelsFor(reason), c));
    var elsDone := Comp(ps, e.els, reason, AddBlock(tested.(env2 := None), l + 2));
    var thnStart := AddBlock(Between(reason, l, elsDone).(env := tested.env2.value), l + 1);
    EndOf(reason, l, Comp(ps, e.thn, reason, thnStart))
  }

  function CompSeq(ps: Primitives, e: Expr, reason: Reason, c: Context): (c': Context)
    requires Building(c) && e.Seq? && Applied(ps, e)
    ensures Building(c') && (reason != ForReturn ==> c'.env == Shift(c.env, 0, Pushes(reason)))
    decreases e, 0
  {
    if e.body == [] then
      match reason
      case ForEffect => c
      case ForReturn => GenReturn(GenPushUnspecified(c))
      case ForValue => GenPushUnspecified(c)
    else
      CompBody(ps, e.body, reason, c)
  }

  /** All but the last for effect only. */
  function CompBody(ps: Primitives, es: seq<Expr>, reason: Reason, c: Context): (c': Context)
    requires Building(c) && es != [] && AllApplied(ps, es)
    ensures Building(c') && (reason != ForReturn ==> c'.env == Shift(c.env, 0, Pushes(reason)))
    decreases es, 0
  {
    if |es| == 1 then Comp(ps, es[0], reason, c)
    else CompBody(ps, es[1..], reason, CompNone(ps, es[0], c))
  }

  function CompArgs(ps: Primitives, es: seq<Expr>, c: Context): (c': Context)
    requires Building(c) && AllApplied(ps, es)
    ensures Building(c') && c'.env == Shift(c.env, 0, |es|)
    decreases es, 0
  {
    if es == [] then c else CompArgs(ps, es[1..], CompPush(ps, es[0], c))
  }

  function CompCall(ps: Primitives, e: Expr, reason: Reason, c: Context): (c': Context)
    requires Building(c) && e.Call? && Applied(ps, e)
    ensures Building(c') && (reason != ForReturn ==> c'.env == Shift(c.env, 0, Pushes(reason)))
    decreases e, 0
  {
    var bare := GenPrim(ps, e.prim, CompArgs(ps, e.args, c));
    var result := if ps.unspecified(e.prim) then GenPushUnspecified(bare) else bare;
    match reason
    case ForReturn => GenReturn(result)
    case ForValue => result
    case ForEffect => if ps.unspecified(e.prim) then bare else Gen(Pop, 1, 0, result)
  }

  // Compiling only adds to the code.

  lemma {:induction false} CompExtends(ps: Primitives, e: Expr, reason: Reason, c: Context)
    requires Building(c) && Applied(ps, e) && WellLabeled(c.code)
    ensures Extends(c.code.lastLabel, c.code, Comp(ps, e, reason, c).code)
    decreases e, 7
  {
    match reason {
      case ForEffect => NoneExtends(ps, e, c);
      case ForValue => PushExtends(ps, e, c);
      case ForReturn => TailExtends(ps, e, c);
    }
  }

  /** One more instruction. */
  lemma {:induction false} GenExtends(n: nat, code: Code, i: Instr, pop: nat, push: nat, c: Context)
    requires Building(c) && pop <= |c.env.slots| && Extends(n, code, c.code)
    ensures Extends(n, code, Gen(i, pop, push, c).code)
  {
    InstrExtends(n, c.(env := Shift(c.env, pop, push)), i);
    ExtendsOnwards(n, code, c.code, Gen(i, pop, push, c).code);
  }

  lemma {:induction false} NoneExtends(ps: Primitives, e: Expr, c: Context)
    requires Building(c) && Applied(ps, e) && WellLabeled(c.code)
    ensures Extends(c.code.lastLabel, c.code, CompNone(ps, e, c).code)
    decreases e, 4
  {
    var n := c.code.lastLabel;
    ExtendsSelf(n, c.code);
    match e {
      case Cst(_) =>
      case Local(_) =>
      case Global(_) =>
      case Assign(x, needed, rhs) =>
        if needed {
          PushExtends(ps, rhs, c);
          GenExtends(n, c.code, SetGlobal(x), 1, 0, CompPush(ps, rhs, c));
        } else {
          NoneExtends(ps, rhs, c);
        }
      case If(_, _, _) => IfExtends(ps, e, ForEffect, c);
      case Seq(_) => SeqExtends(ps, e, ForEffect, c);
      case Call(_, _) => CallExtends(ps, e, ForEffect, c);
    }
  }

  lemma {:induction false} PushExtends(ps: Primitives, e: Expr, c: Context)
    requires Building(c) && Applied(ps, e) && WellLabeled(c.code)
    ensures Extends(c.code.lastLabel, c.code, CompPush(ps, e, c).code)
    decreases e, 5
  {
    var n := c.code.lastLabel;
    ExtendsSelf(n, c.code);
    match e {
      case Cst(val) => GenExtends(n, c.code, PushConstant(val), 0, 1, c);
      case Local(x) =>
        var i := FindLocal(x, c.env);
        GenExtends(n, c.code, PushStack(if i >= 0 then i else -1 - i + |c.env.slots|), 0, 1, c);
      case Global(x) => GenExtends(n, c.code, PushGlobal(x), 0, 1, c);
      case Assign(_, _, _) =>
        NoneExtends(ps, e, c);
        GenExtends(n, c.code, PushConstant(FALSE), 0, 1, CompNone(ps, e, c));
      case If(_, _, _) => IfExtends(ps, e, ForValue, c);
      case Seq(_) => SeqExtends(ps, e, ForValue, c);
      case Call(_, _) => CallExtends(ps, e, ForValue, c);
    }
  }

  lemma {:induction false} TailExtends(ps: Primitives, e: Expr, c: Context)
    requires Building(c) && Applied(ps, e) && WellLabeled(c.code)
    ensures Extends(c.code.lastLabel, c.code, CompTail(ps, e, c).code)
    decreases e, 6
  {
    match e {
      case If(_, _, _) => IfExtends(ps, e, ForReturn, c);
      case Seq(_) => SeqExtends(ps, e, ForReturn, c);
      case Call(_, _) => CallExtends(ps, e, ForReturn, c);
      case _ =>
        PushExtends(ps, e, c);
        var c' := CompPush(ps, e, c);
        GenExtends(c.code.lastLabel, c.code, Return, |c'.env.slots|, 0, c');
    }
  }

  lemma {:induction false} TestExtends(ps: Primitives, e: Expr, ifTrue: nat, ifFalse: nat, c: Context)
    requires Building(c) && Applied(ps, e) && WellLabeled(c.code)
    ensures Extends(c.code.lastLabel, c.code, CompTest(ps, e, ifTrue, ifFalse, c).code)
    decreases e, 6
  {
    var n := c.code.lastLabel;
    if e.Cst? {
      ExtendsSelf(n, c.code);
      GenExtends(n, c.code, Goto(if e.val == FALSE then ifFalse else ifTrue), 0, 0, c);
    } else {
      PushExtends(ps, e, c);
      GenExtends(n, c.code, GotoIfFalse(ifFalse, ifTrue), 1, 0, CompPush(ps, e, c));
    }
  }

  lemma {:induction false} SeqExtends(ps: Primitives, e: Expr, reason: Reason, c: Context)
    requires Building(c) && e.Seq? && Applied(ps, e) && WellLabeled(c.code)
    ensures Extends(c.code.lastLabel, c.code, CompSeq(ps, e, reason, c).code)
    decreases e, 0
  {
    var n := c.code.lastLabel;
    ExtendsSelf(n, c.code);
    if e.body == [] {
      GenExtends(n, c.code, PushConstant(FALSE), 0, 1, c);
      var c' := GenPushUnspecified(c);
      GenExtends(n, c.code, Return, |c'.env.slots|, 0, c');
    } else {
      BodyExtends(ps, e.body, reason, c);
    }
  }

  lemma {:induction false} BodyExtends(ps: Primitives, es: seq<Expr>, reason: Reason, c: Context)
    requires Building(c) && es != [] && AllApplied(ps, es) && WellLabeled(c.code)
    ensures Extends(c.code.lastLabel, c.code, CompBody(ps, es, reason, c).code)
    decreases es, 0
  {
    if |es| == 1 {
      CompExtends(ps, es[0], reason, c);
    } else {
      var c' := CompNone(ps, es[0], c);
      NoneExtends(ps, es[0], c);
      BodyExtends(ps, es[1..], reason, c');
      ExtendsLater(c.code.lastLabel, c.code, c'.code, CompBody(ps, es[1..], reason, c').code);
    }
  }

  lemma {:induction false} ExtendsLater(n: nat, a: Code, b: Code, d: Code)
    requires Extends(n, a, b) && n <= b.lastLabel && Extends(b.lastLabel, b, d)
    ensures Extends(n, a, d)
  {
    ExtendsOnwards(n, a, b, d);
  }

  lemma {:induction false} ArgsExtend(ps: Primitives, es: seq<Expr>, c: Context)
    requires Building(c) && AllApplied(ps, es) && WellLabeled(c.code)
    ensures Extends(c.code.lastLabel, c.code, CompArgs(ps, es, c).code)
    decreases es, 0
  {
    ExtendsSelf(c.code.lastLabel, c.code);
    if es != [] {
      var c' := CompPush(ps, es[0], c);
      PushExtends(ps, es[0], c);
      ArgsExtend(ps, es[1..], c');
      ExtendsLater(c.code.lastLabel, c.code, c'.code, CompArgs(ps, es[1..], c').code);
    }
  }

  lemma {:induction false} CallExtends(ps: Primitives, e: Expr, reason: Reason, c: Context)
    requires Building(c) && e.Call? && Applied(ps, e) && WellLabeled(c.code)
    ensures Extends(c.code.lastLabel, c.code, CompCall(ps, e, reason, c).code)
    decreases e, 0
  {
    var n, unspecified := c.code.lastLabel, ps.unspecified(e.prim);
    var pushed := CompArgs(ps, e.args, c);
    ArgsExtend(ps, e.args, c);
    GenExtends(n, c.code, Prim(e.prim), ps.arity(e.prim), if unspecified then 0 else 1, pushed);
    var bare := GenPrim(ps, e.prim, pushed);
    GenExtends(n, c.code, PushConstant(FALSE), 0, 1, bare);
    var result := if unspecified then GenPushUnspecified(bare) else bare;
    GenExtends(n, c.code, Return, |result.env.slots|, 0, result);
    GenExtends(n, c.code, Pop, 1, 0, result);
  }

  // An if, step by step.

  /** The contexts of the arms, given the one after the test. */
  datatype Arms = Arms(elsStart: Context, elsDone: Context, between: Context, thnStart: Context, thnDone: Context)

  ghost predicate AreArms(ps: Primitives, e: Expr, reason: Reason, l: nat, tested: Context, a: Arms)
    requires e.If? && Applied(ps, e)
  {
    && Building(tested)
    && a.elsStart == AddBlock(tested.(env2 := None), l + 2)
    && a.elsDone == Comp(ps, e.els, reason, a.elsStart)
    && a.between == Between(reason, l, a.elsDone)
    && a.thnStart == AddBlock(a.between.(env := tested.env), l + 1)
    && a.thnDone == Comp(ps, e.thn, reason, a.thnStart)
  }

  lemma IfIs(ps: Primitives, e: Expr, reason: Reason, c: Context) returns (tested: Context, a: Arms)
    requires Building(c) && e.If? && Applied(ps, e)
    ensures tested == CompTest(ps, e.test, c.code.lastLabel + 1, c.code.lastLabel + 2, Labels(LabelsFor(reason), c))
    ensures AreArms(ps, e, reason, c.code.lastLabel, tested, a)
    ensures CompIf(ps, e, reason, c) == EndOf(reason, c.code.lastLabel, a.thnDone)
  {
    hide CompTest, Between, EndOf;
    var l := c.code.lastLabel;
    tested := CompTest(ps, e.test, l + 1, l + 2, Labels(LabelsFor(reason), c));
    var elsStart := AddBlock(tested.(env2 := None), l + 2);
    var elsDone := Comp(ps, e.els, reason, elsStart);
    var between := Between(reason, l, elsDone);
    var thnStart := AddBlock(between.(env := tested.env), l + 1);
    a := Arms(elsStart, elsDone, between, thnStart, Comp(ps, e.thn, reason, thnStart));
  }

  /** Both arms reach the join with the stack of the test, one higher when the value
      is wanted. */
  lemma ArmsMeet(ps: Primitives, e: Expr, reason: Reason, c: Context) returns (tested: Context, a: Arms)
    requires Building(c) && e.If? && Applied(ps, e) && reason != ForReturn
    ensures tested == CompTest(ps, e.test, c.code.lastLabel + 1, c.code.lastLabel + 2, Labels(LabelsFor(reason), c))
    ensures AreArms(ps, e, reason, c.code.lastLabel, tested, a)
    ensures a.elsDone.env == a.thnDone.env == CompIf(ps, e, reason, c).env == Shift(c.env, 0, Pushes(reason))
  {
    tested, a := IfIs(ps, e, reason, c);
    ShiftNone(c.env);
    ShiftNone(tested.env);
  }

  lemma StartArm(n: nat, code: Code, c: Context, id: nat)
    requires Building(c) && Extends(n, code, c.code) && WellLabeled(code)
    requires n < id <= c.code.lastLabel && !HasLabel(c.code, id)
    ensures var started := AddBlock(c, id).code;
            && Extends(n, code, started) && Grows(c.code, started) && WellLabeled(started)
              && started.lastLabel == c.code.lastLabel
            && forall k: nat :: HasLabel(started, k) ==> k == id || HasLabel(c.code, k)
  {
    BlockExtends(n, c, id);
    ExtendsOnwards(n, code, c.code, AddBlock(c, id).code);
  }

  lemma FinishArm(n: nat, code: Code, started: Code, done: Code)
    requires Extends(n, code, started) && WellLabeled(code) && n <= started.lastLabel
             && Extends(started.lastLabel, started, done)
    ensures Extends(n, code, done) && WellLabeled(done)
  {
    ExtendsOnwards(n, code, started, done);
  }

  lemma BetweenExtends(reason: Reason, l: nat, n: nat, code: Code, elsDone: Context)
    requires Building(elsDone) && Extends(n, code, elsDone.code)
    ensures var c := Between(reason, l, elsDone);
            && Extends(n, code, c.code) && Grows(elsDone.code, c.code) && c.code.lastLabel == elsDone.code.lastLabel
            && forall k: nat :: HasLabel(c.code, k) ==> HasLabel(elsDone.code, k)
  {
    ExtendsSelf(n, elsDone.code);
    if reason != ForReturn {
      GenExtends(n, code, Goto(l + 4), 0, 0, elsDone);
      GenExtends(n, elsDone.code, Goto(l + 4), 0, 0, elsDone);
      var c := GenGoto(l + 4, elsDone);
      forall k: nat | HasLabel(c.code, k)
        ensures HasLabel(elsDone.code, k)
      {
        var j :| 0 <= j < |c.code.blocks| && c.code.blocks[j].id == k;
        assert elsDone.code.blocks[j].id == k;
      }
    }
  }

  /** Both arms only add to the code, and leave the labels of the joins alone. */
  ghost predicate ArmsFine(l: nat, code: Code, tested: Context, a: Arms) {
    && Extends(l, code, a.thnDone.code)
    && Grows(a.elsStart.code, a.elsDone.code) && Grows(a.elsDone.code, a.between.code)
    && Grows(a.between.code, a.thnStart.code) && Grows(a.thnStart.code, a.thnDone.code)
    && WellLabeled(a.elsStart.code) && WellLabeled(a.thnStart.code) && WellLabeled(a.thnDone.code)
    && tested.code.lastLabel <= a.thnDone.code.lastLabel
    && forall k: nat :: l + 2 < k <= tested.code.lastLabel && HasLabel(a.thnDone.code, k) ==> HasLabel(tested.code, k)
  }

  lemma {:induction false} OneArmExtends(ps: Primitives, e: Expr, reason: Reason, n: nat, code: Code, c: Context,
      id: nat, started: Context, done: Context)
    requires Building(c) && Applied(ps, e) && started == AddBlock(c, id) && done == Comp(ps, e, reason, started)
    requires Extends(n, code, c.code) && WellLabeled(code) && n < id <= c.code.lastLabel && !HasLabel(c.code, id)
    ensures Extends(n, code, done.code) && Grows(c.code, started.code) && Grows(started.code, done.code)
    ensures WellLabeled(started.code) && WellLabeled(done.code) && c.code.lastLabel <= done.code.lastLabel
    ensures forall k: nat :: k <= c.code.lastLabel && HasLabel(done.code, k) ==> k == id || HasLabel(c.code, k)
    decreases e, 8
  {
    StartArm(n, code, c, id);
    CompExtends(ps, e, reason, started);
    FinishArm(n, code, started.code, done.code);
  }

  lemma {:induction false} ArmsExtend(ps: Primitives, e: Expr, reason: Reason, l: nat, code: Code, tested: Context,
      a: Arms)
    requires e.If? && Applied(ps, e) && AreArms(ps, e, reason, l, tested, a)
    requires WellLabeled(code) && Extends(l, code, tested.code)
    requires l + 2 <= tested.code.lastLabel && !HasLabel(tested.code, l + 1) && !HasLabel(tested.code, l + 2)
    ensures ArmsFine(l, code, tested, a)
    decreases e, 0
  {
    OneArmExtends(ps, e.els, reason, l, code, tested.(env2 := None), l + 2, a.elsStart, a.elsDone);
    BetweenExtends(reason, l, l, code, a.elsDone);
    OneArmExtends(ps, e.thn, reason, l, code, a.between.(env := tested.env), l + 1, a.thnStart, a.thnDone);
  }

  lemma JoinExtends(n: nat, code: Code, target: nat, c: Context, id: nat, gone: Context, c': Context)
    requires Building(c) && Extends(n, code, c.code) && WellLabeled(code) && n < id <= c.code.lastLabel
             && !HasLabel(c.code, id)
    requires gone == GenGoto(target, c) && c' == AddBlock(gone, id)
    ensures Extends(n, code, c'.code) && Grows(c.code, gone.code) && Grows(gone.code, c'.code)
    ensures c'.code.lastLabel == c.code.lastLabel
    ensures forall k: nat :: HasLabel(c'.code, k) ==> k == id || HasLabel(c.code, k)
  {
    GenExtends(n, code, Goto(target), 0, 0, c);
    ExtendsSelf(gone.code.lastLabel, c.code);
    GenExtends(gone.code.lastLabel, c.code, Goto(target), 0, 0, c);
    StartArm(n, code, gone, id);
  }

  /** All that runs through the joins stays. */
  ghost predicate JoinsFine(l: nat, code: Code, done: Context, j: Joins)
    requires Building(done) && Building(j.elsJoin) && Building(j.thnJoin)
  {
    && Extends(l, code, j.joined.code)
    && Grows(done.code, j.joined.code) && Grows(GenGoto(l + 3, done).code, j.joined.code)
    && Grows(GenGoto(l + 5, j.elsJoin).code, j.joined.code) && Grows(GenGoto(l + 5, j.thnJoin).code, j.joined.code)
  }

  lemma JoinsExtend(l: nat, code: Code, done: Context)
    requires Building(done) && Extends(l, code, done.code) && WellLabeled(code) && l + 5 <= done.code.lastLabel
    requires forall k: nat :: l + 2 < k <= l + 5 ==> !HasLabel(done.code, k)
    ensures JoinsFine(l, code, done, JoinsOf(l, done))
  {
    var j := JoinsOf(l, done);
    var elsGone, thnGone, bothGone := GenGoto(l + 3, done), GenGoto(l + 5, j.elsJoin), GenGoto(l + 5, j.thnJoin);
    JoinExtends(l, code, l + 3, done, l + 4, elsGone, j.elsJoin);
    JoinExtends(l, code, l + 5, j.elsJoin, l + 3, thnGone, j.thnJoin);
    JoinExtends(l, code, l + 5, j.thnJoin, l + 5, bothGone, j.joined);
    JoinsGrow(done.code, elsGone.code, j.elsJoin.code, thnGone.code, j.thnJoin.code, bothGone.code, j.joined.code);
  }

  lemma JoinsGrow(a: Code, b: Code, c: Code, d: Code, e: Code, f: Code, g: Code)
    requires Grows(a, b) && Grows(b, c) && Grows(c, d) && Grows(d, e) && Grows(e, f) && Grows(f, g)
    ensures Grows(a, g) && Grows(b, g) && Grows(d, g)
  {
    GrowsOnwards(e, f, g);
    GrowsOnwards(d, e, g);
    GrowsOnwards(c, d, g);
    GrowsOnwards(b, c, g);
    GrowsOnwards(a, b, g);
  }

  /** The code after the test of an if; none of the labels made for it is used. */
  lemma {:induction false} TestedExtends(ps: Primitives, e: Expr, k: nat, c: Context, tested: Context)
    requires Building(c) && Applied(ps, e) && WellLabeled(c.code) && k >= 2
    requires tested == CompTest(ps, e, c.code.lastLabel + 1, c.code.lastLabel + 2, Labels(k, c))
    ensures Extends(c.code.lastLabel, c.code, tested.code) && c.code.lastLabel + k <= tested.code.lastLabel
    ensures forall i: nat :: c.code.lastLabel < i <= c.code.lastLabel + k ==> !HasLabel(tested.code, i)
    decreases e, 7
  {
    hide CompTest, WellLabeled;
    LabelsMade(k, c);
    TestExtends(ps, e, c.code.lastLabel + 1, c.code.lastLabel + 2, Labels(k, c));
    ExtendsLater(c.code.lastLabel, c.code, Labels(k, c).code, tested.code);
  }

  lemma LabelsMade(k: nat, c: Context)
    requires Building(c) && WellLabeled(c.code)
    ensures Extends(c.code.lastLabel, c.code, Labels(k, c).code) && WellLabeled(Labels(k, c).code)
    ensures forall l: nat :: l > c.code.lastLabel ==> !HasLabel(Labels(k, c).code, l)
  {
    var made := Labels(k, c);
    forall l: nat | HasLabel(made.code, l)
      ensures HasLabel(c.code, l)
    {
      var j :| 0 <= j < |made.code.blocks| && made.code.blocks[j].id == l;
      assert c.code.blocks[j].id == l;
    }
  }

  lemma {:induction false} IfExtends(ps: Primitives, e: Expr, reason: Reason, c: Context)
    requires Building(c) && e.If? && Applied(ps, e) && WellLabeled(c.code)
    ensures Extends(c.code.lastLabel, c.code, CompIf(ps, e, reason, c).code)
    decreases e, 1
  {
    hide CompIf, CompTest, AreArms, Extends, WellLabeled;
    var l := c.code.lastLabel;
    var tested, a := IfIs(ps, e, reason, c);
    TestedExtends(ps, e.test, LabelsFor(reason), c, tested);
    ArmsExtend(ps, e, reason, l, c.code, tested, a);
    if reason != ForReturn {
      JoinsExtend(l, c.code, a.thnDone);
    }
  }
}
