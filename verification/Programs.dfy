/** From expressions to one line of code: the blocks that the compiler makes of a
    whole program go through the back end, and what comes out computes the program. */
module Programs {
  import opened Wrappers
  import opened Ir
  import opened Compiler
  import opened CompilerRuns
  import opened Shapes
  import B = Blocks
  import L = LinearCode
  import N = Renumbering
  import BackEnd

  // Blocks as the back end takes them.

  /** Instructions that carry no labels, by number. */
  function CodeOf(i: Instr): nat {
    match i
    case PushConstant(val) => 6 * val
    case PushStack(pos) => 6 * pos + 1
    case PushGlobal(x) => 6 * x + 2
    case SetGlobal(x) => 6 * x + 3
    case Prim(id) => 6 * id + 4
    case Pop => 5
    case _ => 11
  }

  function InstrOf(code: nat): Instr {
    var n := code / 6;
    match code % 6
    case 0 => PushConstant(n)
    case 1 => PushStack(n)
    case 2 => PushGlobal(n)
    case 3 => SetGlobal(n)
    case 4 => Prim(n)
    case _ => if n == 0 then Pop else Return
  }

  lemma CodeTells(i: Instr)
    requires !i.Goto? && !i.GotoIfFalse?
    ensures InstrOf(CodeOf(i)) == i
  {
  }

  /** The last instruction of a block is taken for its jump, whatever it is. */
  function JumpOf(i: Instr): B.Instr {
    match i
    case Goto(l) => B.Goto(l)
    case GotoIfFalse(f, t) => B.GotoIfFalse(f, t)
    case _ => B.Exit(CodeOf(i))
  }

  function BodyOf(instrs: seq<Instr>): (r: seq<B.Instr>)
    ensures |r| == |instrs| && forall k :: 0 <= k < |instrs| ==> r[k] == B.Plain(CodeOf(instrs[k]))
  {
    seq(|instrs|, k requires 0 <= k < |instrs| => B.Plain(CodeOf(instrs[k])))
  }

  function BlockOf(b: Block): B.Block {
    if b.instrs == [] then Blank(b.id)
    else
      var n := |b.instrs| - 1;
      B.Block(b.id, BodyOf(b.instrs[..n]), JumpOf(b.instrs[n]))
  }

  /** What is found where no block has been put. */
  function Blank(l: nat): B.Block { B.Block(l, [], B.Exit(CodeOf(Return))) }

  function Blanks(n: nat): (r: seq<B.Block>)
    ensures |r| == n
  {
    seq(n, l requires 0 <= l < n => Blank(l))
  }

  /** The blocks from i on, at their labels. */
  ghost function VectorFrom(code: Code, i: nat): (v: seq<B.Block>)
    requires WellLabeled(code) && i <= |code.blocks|
    ensures |v| == code.lastLabel + 1
    decreases |code.blocks| - i
  {
    if i == |code.blocks| then Blanks(code.lastLabel + 1)
    else VectorFrom(code, i + 1)[code.blocks[i].id := BlockOf(code.blocks[i])]
  }

  ghost function VectorOf(code: Code): (v: seq<B.Block>)
    requires WellLabeled(code)
    ensures |v| == code.lastLabel + 1
  {
    VectorFrom(code, 0)
  }

  method ToVector(code: Code) returns (v: array<B.Block>)
    requires WellLabeled(code)
    ensures fresh(v) && v[..] == VectorOf(code)
  {
    v := new B.Block[code.lastLabel + 1](l requires l >= 0 => Blank(l));
    assert v[..] == Blanks(code.lastLabel + 1);
    for i := |code.blocks| downto 0
      invariant v[..] == VectorFrom(code, i)
    {
      v[code.blocks[i].id] := BlockOf(code.blocks[i]);
    }
  }

  lemma {:induction false} VectorAt(code: Code, i: nat, k: nat)
    requires WellLabeled(code) && i <= k < |code.blocks|
    ensures VectorFrom(code, i)[code.blocks[k].id] == BlockOf(code.blocks[k])
    decreases k - i
  {
    if i < k {
      VectorAt(code, i + 1, k);
    }
  }

  /** There is a last instruction, and if it is a jump its labels have been made. */
  ghost predicate Whole(b: Block, n: nat) {
    b.instrs != [] && Aimed(b.instrs[|b.instrs| - 1], n)
  }

  lemma WholeIsWellFormed(b: Block, n: nat)
    requires Whole(b, n)
    ensures B.WellFormedBlock(BlockOf(b), n + 1)
  {
  }

  lemma VectorIsWellFormed(code: Code)
    requires WellLabeled(code) && Used(code, {}) && forall k :: 0 <= k < |code.blocks| ==>
             Whole(code.blocks[k], code.lastLabel)
    ensures B.WellFormed(VectorOf(code))
  {
    var v := VectorOf(code);
    forall l | 0 <= l < |v|
      ensures B.WellFormedBlock(v[l], |v|)
    {
      assert HasLabel(code, l);
      var k :| 0 <= k < |code.blocks| && code.blocks[k].id == l;
      VectorAt(code, 0, k);
      WholeIsWellFormed(code.blocks[k], code.lastLabel);
    }
  }

  // The machine of the back end that does what the instructions do.

  /** What the instructions work on. It is not sound after an instruction that made
      no sense, such as one that pops an empty stack. */
  datatype Data<V, W> = Data(stack: seq<V>, world: W, sound: bool)

  const TRUE: nat := 1

  function Negated<V, W>(m: Semantics<V, W>, s: Data<V, W>): Data<V, W> {
    if s.stack == [] then Data([m.constant(FALSE)], s.world, false)
    else s.(stack := [m.constant(if m.isFalse(s.stack[0]) then TRUE else FALSE)] + s.stack[1..])
  }

  function Dropped<V, W>(s: Data<V, W>): Data<V, W> {
    if s.stack == [] then s.(sound := false) else s.(stack := s.stack[1..])
  }

  predicate FalseOnTop<V, W>(m: Semantics<V, W>, s: Data<V, W>) { s.stack != [] && m.isFalse(s.stack[0]) }

  function Plainly<V, W>(ps: Primitives, m: Semantics<V, W>, i: Instr, s: Data<V, W>): (Data<V, W>, B.Control) {
    if i == Prim(HALT) then (s, B.Halt)
    else
      match Effect(ps, m, i, s.stack, s.world)
      case Some((stack, w)) => (Data(stack, w, s.sound), B.Next)
      case None => (s.(sound := false), B.Halt)
  }

  /** Nothing but a return leaves a block without a label. */
  function Exits<V, W>(i: Instr, s: Data<V, W>): (Data<V, W>, B.Control) {
    if i == Return then (s, B.Leave) else (s.(sound := false), B.Halt)
  }

  /** Data hold no code addresses: the fragment has no closures. */
  function MachineFor<V, W>(ps: Primitives, m: Semantics<V, W>): B.Machine<Data<V, W>> {
    B.Machine(
      (c, s) => Plainly(ps, m, InstrOf(c), s),
      (c, s) => Exits(InstrOf(c), s),
      (l, s) => s,
      (l, s) => s,
      s => FalseOnTop(m, s),
      s => Dropped(s),
      s => Negated(m, s),
      s => {})
  }

  lemma NegatedTurns<V, W>(m: Semantics<V, W>, s: Data<V, W>)
    requires Sane(m)
    ensures FalseOnTop(m, Negated(m, s)) == !FalseOnTop(m, s) && Dropped(Negated(m, s)) == Dropped(s)
  {
    if s.stack != [] {
      assert Negated(m, s).stack[1..] == s.stack[1..];
    }
  }

  lemma MachineIsSane<V(!new), W(!new)>(ps: Primitives, m: Semantics<V, W>)
    requires Sane(m)
    ensures B.Sane(MachineFor(ps, m))
  {
    hide Negated, Dropped, FalseOnTop, Effect, Sane;
    forall s: Data<V, W>
      ensures FalseOnTop(m, Negated(m, s)) == !FalseOnTop(m, s) && Dropped(Negated(m, s)) == Dropped(s)
    {
      NegatedTurns(m, s);
    }
  }

  /** Data without labels need no renaming. */
  lemma MachineIsOpaque<V(!new), W(!new)>(ps: Primitives, m: Semantics<V, W>, ids: seq<nat>)
    ensures N.Opaque(MachineFor(ps, m), ids, (s: Data<V, W>) => s)
  {
    hide Negated, Dropped, FalseOnTop, Effect;
  }

  // Block by block.

  ghost predicate Stands(v: seq<B.Block>, l: nat, k: nat, i: Instr) {
    && l < |v| && k <= |v[l].body|
    && B.InstrAt(v, B.Place(l, k)) == if IsJump(i) then JumpOf(i) else B.Plain(CodeOf(i))
  }

  /** All instructions of the program stand in the vector, and none of them stops. */
  ghost predicate Embedded(p: map<nat, seq<Instr>>, v: seq<B.Block>) {
    forall l, k :: l in p && 0 <= k < |p[l]| ==> Stands(v, l, k, p[l][k]) && !IsControl(p[l][k])
  }

  function DataOf<V, W>(s: State<V, W>): Data<V, W> { Data(s.stack, s.world, true) }

  function Image<V, W>(s: State<V, W>): B.Config<B.Place, Data<V, W>> {
    B.At(B.Place(s.block, s.offset), [], [], DataOf(s))
  }

  lemma StepFollowed<V(!new), W(!new)>(ps: Primitives, m: Semantics<V, W>, p: map<nat, seq<Instr>>, v: seq<B.Block>,
      s: State<V, W>)
    requires Embedded(p, v)
    ensures var s' := Step(ps, m, p, s); s' == s || B.Step(MachineFor(ps, m), v, Image(s)) == Image(s')
  {
    if s.block in p && s.offset < |p[s.block]| {
      var i := p[s.block][s.offset];
      assert Stands(v, s.block, s.offset, i);
      if !IsJump(i) {
        CodeTells(i);
      }
    }
  }

  lemma {:induction false} RunFollowed<V(!new), W(!new)>(ps: Primitives, m: Semantics<V, W>, p: map<nat, seq<Instr>>,
      v: seq<B.Block>, s: State<V, W>, n: nat) returns (k: nat)
    requires Embedded(p, v)
    ensures B.Run(MachineFor(ps, m), v, Image(s), k) == Image(Run(ps, m, p, s, n))
    decreases n
  {
    if n == 0 {
      k := 0;
    } else {
      var s' := Step(ps, m, p, s);
      StepFollowed(ps, m, p, v, s);
      k := RunFollowed(ps, m, p, v, s', n - 1);
      if s' != s {
        k := k + 1;
      }
    }
  }

  lemma {:induction false} OneStepOn<S>(m: B.Machine<S>, v: seq<B.Block>, c: B.Config<B.Place, S>, k: nat)
    ensures B.Run(m, v, c, k + 1) == B.Step(m, v, B.Run(m, v, c, k))
    decreases k
  {
    if k > 0 {
      OneStepOn(m, v, B.Step(m, v, c), k - 1);
    }
  }

  /** Where the code comes to a halt or a return, the blocks end. */
  lemma EndsThere<V(!new), W(!new)>(ps: Primitives, m: Semantics<V, W>, p: map<nat, seq<Instr>>, v: seq<B.Block>,
      s: State<V, W>, s': State<V, W>, i: Instr)
    requires Embedded(p, v) && s.block == s.offset == 0 && Reaches(ps, m, p, s, s')
    requires Stands(v, s'.block, s'.offset, i) && (i == Prim(HALT) || i == Return)
    ensures B.EndsWith(MachineFor(ps, m), v, DataOf(s), DataOf(s'))
  {
    var n: nat :| Run(ps, m, p, s, n) == s';
    var k := RunFollowed(ps, m, p, v, s, n);
    OneStepOn(MachineFor(ps, m), v, Image(s), k);
    CodeTells(i);
    assert B.Run(MachineFor(ps, m), v, B.Start(DataOf(s)), k + 1) == B.Over(DataOf(s'));
  }

  // What the compiler makes stands in the vector.

  /** All of b is in b', whose only jump is its last instruction. */
  ghost predicate Orderly(b: Block, b': Block) {
    && b.id == b'.id && b.instrs <= b'.instrs
    && forall k :: 0 <= k < |b.instrs| ==> !IsControl(b.instrs[k]) && (IsJump(b.instrs[k]) <==> k == |b'.instrs| - 1)
  }

  lemma {:induction false} ProgramFrom(blocks: seq<Block>, l: nat) returns (k: nat)
    requires l in ProgramOf(blocks)
    ensures k < |blocks| && blocks[k].id == l && ProgramOf(blocks)[l] == blocks[k].instrs
  {
    k := |blocks| - 1;
    if blocks[k].id != l {
      k := ProgramFrom(blocks[..k], l);
    }
  }

  lemma InstrStands(v: seq<B.Block>, b: Block, b': Block, k: nat)
    requires Orderly(b, b') && b.id < |v| && v[b.id] == BlockOf(b') && k < |b.instrs|
    ensures Stands(v, b.id, k, b.instrs[k])
  {
  }

  lemma CodeEmbedded(code: Code, code': Code)
    requires WellLabeled(code') && |code.blocks| <= |code'.blocks|
    requires forall j :: 0 <= j < |code.blocks| ==> Orderly(code.blocks[j], code'.blocks[j])
    ensures Embedded(ProgramOf(code.blocks), VectorOf(code'))
  {
    var p := ProgramOf(code.blocks);
    forall l, k | l in p && 0 <= k < |p[l]|
      ensures Stands(VectorOf(code'), l, k, p[l][k]) && !IsControl(p[l][k])
    {
      var j := ProgramFrom(code.blocks, l);
      assert Orderly(code.blocks[j], code'.blocks[j]);
      VectorAt(code', 0, j);
      InstrStands(VectorOf(code'), code.blocks[j], code'.blocks[j], k);
    }
  }

  lemma InitialGrows(env: Env)
    ensures Growing(Initial(env).code, {}) && WellLabeled(Initial(env).code)
  {
    assert Initial(env).code.blocks[0].id == 0;
    assert HasLabel(Initial(env).code, 0);
  }

  // A body in tail position.

  lemma CompleteIsWhole(code: Code)
    requires WellLabeled(code) && Complete(code, {})
    ensures B.WellFormed(VectorOf(code)) && Embedded(ProgramOf(code.blocks), VectorOf(code))
  {
    forall j | 0 <= j < |code.blocks|
      ensures Whole(code.blocks[j], code.lastLabel) && Orderly(code.blocks[j], code.blocks[j])
    {
      assert Finished(code.blocks[j], code.lastLabel);
      FinishedIsOrderly(code.blocks[j], code.lastLabel);
    }
    VectorIsWellFormed(code);
    CodeEmbedded(code, code);
  }

  lemma FinishedIsOrderly(b: Block, n: nat)
    requires Finished(b, n)
    ensures Whole(b, n) && Orderly(b, b)
  {
    forall k | 0 <= k < |b.instrs| - 1
      ensures !IsControl(b.instrs[k]) && !IsJump(b.instrs[k])
    {
      assert b.instrs[..|b.instrs| - 1][k] == b.instrs[k];
    }
  }

  /** A chain of results of the back end, and its line of code. */
  datatype Chain = Chain(kept: set<nat>, ids: seq<nat>, shaken: seq<B.Block>, ids': seq<nat>, ordered: seq<B.Block>,
                         code: seq<L.Line>, at: seq<nat>)

  ghost predicate LinesOf(blocks: seq<B.Block>, r: Chain) {
    BackEnd.Chained(blocks, r.kept, r.ids, r.shaken, r.ids', r.ordered, r.code, r.at)
  }

  lemma LinesEndToo<V(!new), W(!new)>(ps: Primitives, m: Semantics<V, W>, blocks: seq<B.Block>, r: Chain,
      start: Data<V, W>, end: Data<V, W>)
    requires Sane(m) && LinesOf(blocks, r) && B.EndsWith(MachineFor(ps, m), blocks, start, end)
    ensures L.LinesEndWith(MachineFor(ps, m), r.code, r.at, start, end)
  {
    var any := (s: Data<V, W>) => s;
    MachineIsSane(ps, m);
    MachineIsOpaque(ps, m, r.ids);
    MachineIsOpaque(ps, m, r.ids');
    BackEnd.ChainForwards(MachineFor(ps, m), blocks, r.kept, r.ids, r.shaken, r.ids', r.ordered, r.code, r.at, any,
      any, start, end);
  }

  lemma OneEnd<S(!new)>(m: B.Machine<S>, code: seq<L.Line>, at: seq<nat>, start: S, end: S, end': S)
    requires L.LinesEndWith(m, code, at, start, end) && L.LinesEndWith(m, code, at, start, end')
    ensures end == end'
  {
    var c := B.At(0, [], [], start);
    var j: nat :| L.RunLines(m, code, at, c, j) == B.Over(end);
    var k: nat :| L.RunLines(m, code, at, c, k) == B.Over(end');
    if j <= k {
      L.OverStays(m, code, at, c, j, k);
    } else {
      L.OverStays(m, code, at, c, k, j);
    }
  }

  /** The code of a body, put in line, returns with the value of the body on top. */
  lemma BodyComputes<V(!new), W(!new)>(ps: Primitives, m: Semantics<V, W>, e: Expr, env: Env, vars: set<nat>,
      rho: nat -> V, stack: seq<V>, w: W, r: Chain)
    returns (rest: seq<V>)
    requires Applied(ps, e) && Scoped(e, vars) && Quiet(e) && Sane(m)
    requires Matches(env, stack, rho) && forall x :: x in vars ==> Bound(x, env)
    requires WellLabeled(CompTail(ps, e, Initial(env)).code) && LinesOf(VectorOf(CompTail(ps, e, Initial(env)).code), r)
    ensures var (v, w') := Eval(ps, m, e, rho, w);
            L.LinesEndWith(MachineFor(ps, m), r.code, r.at, Data(stack, w, true), Data([v] + rest, w', true))
  {
    hide CompTail, Eval, Embedded, B.WellFormed, LinesOf, B.EndsWith, L.LinesEndWith, MachineFor, Growing, Complete,
         Matches, Reaches, WellLabeled, Sane, Bound;
    var code := CompTail(ps, e, Initial(env)).code;
    var p, v := ProgramOf(code.blocks), VectorOf(code);
    InitialGrows(env);
    TailShapes(ps, e, Initial(env), {});
    CompleteIsWhole(code);
    ExpressionReturns(ps, m, e, env, vars, rho, stack, w);
    var (x, w') := Eval(ps, m, e, rho, w);
    var s: State<V, W> :| Reaches(ps, m, p, State(0, 0, stack, w), s) && s.block in p && s.offset < |p[s.block]|
      && p[s.block][s.offset] == Return && s.stack != [] && s.stack[0] == x && s.world == w';
    EndsThere(ps, m, p, v, State(0, 0, stack, w), s, Return);
    LinesEndToo(ps, m, v, r, Data(stack, w, true), DataOf(s));
    rest := s.stack[1..];
    assert s.stack == [x] + rest;
  }

  // A whole program: forms for their effects, and then the halt.

  function Program(forms: seq<Expr>): Expr { Seq(forms + [Call(HALT, [])]) }

  const NOTHING: Env := Env([], [])

  lemma SeqIsBody(ps: Primitives, es: seq<Expr>, c: Context)
    requires Building(c) && AllApplied(ps, es) && es != []
    ensures CompNone(ps, Seq(es), c) == CompBody(ps, es, ForEffect, c) ==
            CompNone(ps, Seq(es[1..]), CompNone(ps, es[0], c))
  {
  }

  lemma {:induction false} FormsFirst(ps: Primitives, es: seq<Expr>, e: Expr, c: Context)
    requires Building(c) && AllApplied(ps, es) && Applied(ps, e)
    ensures AllApplied(ps, es + [e])
    ensures CompBody(ps, es + [e], ForEffect, c) == CompNone(ps, e, CompNone(ps, Seq(es), c))
    decreases es
  {
    if es == [] {
      assert es + [e] == [e];
    } else {
      assert (es + [e])[1..] == es[1..] + [e];
      FormsFirst(ps, es[1..], e, CompNone(ps, es[0], c));
      SeqIsBody(ps, es, c);
    }
  }

  /** The primitive that halts takes no arguments, and counts as having a result. */
  predicate CanHalt(ps: Primitives) { ps.arity(HALT) == 0 && !ps.unspecified(HALT) }

  /** The forms, one more instruction that halts, and one that is never reached. */
  lemma ProgramIs(ps: Primitives, forms: seq<Expr>) returns (c: Context)
    requires CanHalt(ps) && AllApplied(ps, forms)
    ensures Applied(ps, Program(forms)) && c == CompNone(ps, Seq(forms), Initial(NOTHING))
    ensures CompNone(ps, Program(forms), Initial(NOTHING)) == Gen(Pop, 1, 0, Gen(Prim(HALT), 0, 1, c))
  {
    c := CompNone(ps, Seq(forms), Initial(NOTHING));
    FormsFirst(ps, forms, Call(HALT, []), Initial(NOTHING));
  }

  lemma ProgramGrows(ps: Primitives, forms: seq<Expr>, c: Context, code: Code)
    requires AllApplied(ps, forms) && AllQuiet(forms) && c == CompNone(ps, Seq(forms), Initial(NOTHING))
    requires code == Gen(Pop, 1, 0, Gen(Prim(HALT), 0, 1, c)).code
    ensures WellLabeled(code) && B.WellFormed(VectorOf(code)) && Embedded(ProgramOf(c.code.blocks), VectorOf(code))
    ensures Stands(VectorOf(code), Current(c.code).id, |Current(c.code).instrs|, Prim(HALT))
  {
    hide CompNone, Growing, WellLabeled, Extends, Embedded, B.WellFormed, Stands;
    InitialGrows(NOTHING);
    NoneExtends(ps, Seq(forms), Initial(NOTHING));
    FormsLabeled(Initial(NOTHING).code, c.code);
    NoneShapes(ps, Seq(forms), Initial(NOTHING), {});
    HaltAdded(c, code);
    HaltStands(c, code);
  }

  lemma FormsLabeled(a: Code, b: Code)
    requires WellLabeled(a) && Extends(a.lastLabel, a, b)
    ensures WellLabeled(b)
  {
  }

  lemma HaltStands(c: Context, code: Code)
    requires Building(c) && Growing(c.code, {}) && |code.blocks| == |c.code.blocks|
             && code.lastLabel == c.code.lastLabel
    requires forall k :: 0 <= k < |code.blocks| - 1 ==> code.blocks[k] == c.code.blocks[k]
    requires Current(code) == Block(Current(c.code).id, Current(c.code).instrs + [Prim(HALT), Pop])
    requires WellLabeled(code) && Used(code, {})
    ensures B.WellFormed(VectorOf(code)) && Embedded(ProgramOf(c.code.blocks), VectorOf(code))
    ensures Stands(VectorOf(code), Current(c.code).id, |Current(c.code).instrs|, Prim(HALT))
  {
    hide Embedded, B.WellFormed, WellLabeled, Used, VectorOf, Whole, Orderly;
    forall j | 0 <= j < |code.blocks|
      ensures Whole(code.blocks[j], code.lastLabel) && Orderly(c.code.blocks[j], code.blocks[j])
    {
      if j < |code.blocks| - 1 {
        assert Finished(c.code.blocks[j], c.code.lastLabel);
        FinishedIsOrderly(code.blocks[j], code.lastLabel);
      } else {
        LastIsOrderly(Current(c.code), Current(code), code.lastLabel);
      }
    }
    VectorIsWellFormed(code);
    CodeEmbedded(c.code, code);
    LastStands(c.code, code);
  }

  lemma LastIsOrderly(b: Block, b': Block, n: nat)
    requires Straight(b.instrs) && b' == Block(b.id, b.instrs + [Prim(HALT), Pop])
    ensures Whole(b', n) && Orderly(b, b')
  {
  }

  lemma LastStands(before: Code, code: Code)
    requires before.blocks != [] && |code.blocks| == |before.blocks| && WellLabeled(code)
    requires Current(code) == Block(Current(before).id, Current(before).instrs + [Prim(HALT), Pop])
    ensures Stands(VectorOf(code), Current(before).id, |Current(before).instrs|, Prim(HALT))
  {
    VectorAt(code, 0, |code.blocks| - 1);
  }

  lemma HaltAdded(c: Context, code: Code)
    requires Building(c) && Growing(c.code, {}) && WellLabeled(c.code)
             && code == Gen(Pop, 1, 0, Gen(Prim(HALT), 0, 1, c)).code
    ensures |code.blocks| == |c.code.blocks| && code.lastLabel == c.code.lastLabel
    ensures forall k :: 0 <= k < |code.blocks| - 1 ==> code.blocks[k] == c.code.blocks[k]
    ensures Current(code) == Block(Current(c.code).id, Current(c.code).instrs + [Prim(HALT), Pop])
    ensures WellLabeled(code) && Used(code, {})
  {
    var halted := Gen(Prim(HALT), 0, 1, c);
    InstrAdded(c.(env := Shift(c.env, 0, 1)), Prim(HALT), halted.code);
    InstrAdded(halted.(env := Shift(halted.env, 1, 0)), Pop, code);
    UsedStill(c.code, code, {});
  }

  /** Compiled and put in line, a program ends with the world that its forms leave,
      evaluated one after the other, and an empty stack. It ends in no other way. */
  lemma ProgramComputes<V(!new), W(!new)>(ps: Primitives, m: Semantics<V, W>, forms: seq<Expr>, rho: nat -> V, w: W,
      code: Code, r: Chain)
    requires CanHalt(ps) && AllApplied(ps, forms) && AllScoped(forms, {}) && AllQuiet(forms) && Sane(m)
    requires Applied(ps, Program(forms)) && code == CompNone(ps, Program(forms), Initial(NOTHING)).code
    requires WellLabeled(code) && LinesOf(VectorOf(code), r)
    ensures forall end :: L.LinesEndWith(MachineFor(ps, m), r.code, r.at, Data([], w, true), end) <==>
                          end == Data([], Eval(ps, m, Seq(forms), rho, w).1, true)
  {
    hide CompNone, Eval, WellLabeled, Embedded, B.WellFormed, LinesOf, B.EndsWith, L.LinesEndWith, MachineFor, Stands,
         Sane, Reaches;
    var c := ProgramIs(ps, forms);
    var w' := Eval(ps, m, Seq(forms), rho, w).1;
    ProgramGrows(ps, forms, c, code);
    ExpressionRuns(ps, m, Seq(forms), NOTHING, {}, rho, [], w);
    EndsThere(ps, m, ProgramOf(c.code.blocks), VectorOf(code), State(0, 0, [], w), Here(c, [], w'), Prim(HALT));
    LinesEndToo(ps, m, VectorOf(code), r, Data([], w, true), Data([], w', true));
    forall end | L.LinesEndWith(MachineFor(ps, m), r.code, r.at, Data([], w, true), end)
      ensures end == Data([], w', true)
    {
      OneEnd(MachineFor(ps, m), r.code, r.at, Data([], w, true), end, Data([], w', true));
    }
  }

  /** From forms to linear code. */
  method Compile(ps: Primitives, forms: seq<Expr>) returns (code: seq<L.Line>, ghost compiled: Code, ghost r: Chain)
    requires CanHalt(ps) && AllApplied(ps, forms) && AllQuiet(forms)
    ensures Applied(ps, Program(forms)) && compiled == CompNone(ps, Program(forms), Initial(NOTHING)).code
    ensures WellLabeled(compiled) && LinesOf(VectorOf(compiled), r) && r.code == code && L.DrawnFrom(r.ordered, code)
  {
    ghost var c := ProgramIs(ps, forms);
    var made := CompNone(ps, Program(forms), Initial(NOTHING)).code;
    compiled := made;
    ProgramGrows(ps, forms, c, compiled);
    var blocks := ToVector(made);
    ghost var kept, ids, shaken, ids', ordered, at;
    code, kept, ids, shaken, ids', ordered, at := BackEnd.Compile(blocks[..]);
    r := Chain(kept, ids, shaken, ids', ordered, code, at);
  }
}
