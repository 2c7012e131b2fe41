/** What compiled code does: it computes the value of the expression, and
    nothing below it on the stack is touched. */
module CompilerRuns {
  import opened Wrappers
  import opened Ir
  import opened Compiler

  /** What constants, globals and primitives mean; W is the world they change. */
  datatype Semantics<!V, !W> = Semantics(
    constant: nat -> V,
    isFalse: V -> bool,
    get: (nat, W) -> V,
    put: (nat, V, W) -> W,
    prim: (nat, seq<V>, W) -> (V, W))

  ghost predicate Sane<V, W>(m: Semantics<V, W>) {
    forall c :: m.isFalse(m.constant(c)) <==> c == FALSE
  }

  // The value of an expression, from the values of local variables.

  function Eval<V, W>(ps: Primitives, m: Semantics<V, W>, e: Expr, rho: nat -> V, w: W): (V, W)
    decreases e, 0
  {
    match e
    case Cst(val) => (m.constant(val), w)
    case Local(x) => (rho(x), w)
    case Global(x) => (m.get(x, w), w)
    case Assign(x, needed, rhs) =>
      var (v, w') := Eval(ps, m, rhs, rho, w);
      (m.constant(FALSE), if needed then m.put(x, v, w') else w')
    case If(test, thn, els) =>
      var (v, w') := Eval(ps, m, test, rho, w);
      if m.isFalse(v) then Eval(ps, m, els, rho, w') else Eval(ps, m, thn, rho, w')
    case Seq(body) => if body == [] then (m.constant(FALSE), w) else EvalBody(ps, m, body, rho, w)
    case Call(p, args) =>
      var (vs, w') := EvalArgs(ps, m, args, rho, w);
      var (v, w'') := m.prim(p, vs, w');
      (if ps.unspecified(p) then m.constant(FALSE) else v, w'')
  }

  function EvalBody<V, W>(ps: Primitives, m: Semantics<V, W>, es: seq<Expr>, rho: nat -> V, w: W): (V, W)
    requires es != []
    decreases es, 0
  {
    var (v, w') := Eval(ps, m, es[0], rho, w);
    if |es| == 1 then (v, w') else EvalBody(ps, m, es[1..], rho, w')
  }

  function EvalArgs<V, W>(ps: Primitives, m: Semantics<V, W>, es: seq<Expr>, rho: nat -> V, w: W): (r: (seq<V>, W))
    ensures |r.0| == |es|
    decreases es, 0
  {
    if es == [] then ([], w)
    else
      var (v, w') := Eval(ps, m, es[0], rho, w);
      var (vs, w'') := EvalArgs(ps, m, es[1..], rho, w');
      ([v] + vs, w'')
  }

  // The machine.

  datatype State<V, W> = State(block: nat, offset: nat, stack: seq<V>, world: W)

  function Reversed<V>(vs: seq<V>): (r: seq<V>)
    ensures |r| == |vs|
  {
    if vs == [] then [] else Reversed(vs[1..]) + [vs[0]]
  }

  /** What an instruction that is no jump does to the stack and the world. */
  function Effect<V, W>(ps: Primitives, m: Semantics<V, W>, i: Instr, stack: seq<V>, w: W): Option<(seq<V>, W)> {
    match i
    case PushConstant(val) => Some(([m.constant(val)] + stack, w))
    case PushStack(pos) => if pos < |stack| then Some(([stack[pos]] + stack, w)) else None
    case PushGlobal(x) => Some(([m.get(x, w)] + stack, w))
    case SetGlobal(x) => if stack == [] then None else Some((stack[1..], m.put(x, stack[0], w)))
    case Prim(f) =>
      var n := ps.arity(f);
      if n > |stack| then None
      else
        var (v, w') := m.prim(f, Reversed(stack[..n]), w);
        Some(((if ps.unspecified(f) then [] else [v]) + stack[n..], w'))
    case Pop => if stack == [] then None else Some((stack[1..], w))
    case _ => None
  }

  /** One instruction; a return, or anything that makes no sense, goes nowhere. */
  function Step<V, W>(ps: Primitives, m: Semantics<V, W>, p: map<nat, seq<Instr>>, s: State<V, W>): State<V, W> {
    if s.block !in p || s.offset >= |p[s.block]| then s
    else
      match p[s.block][s.offset]
      case Goto(l) => s.(block := l, offset := 0)
      case GotoIfFalse(f, t) =>
        if s.stack == [] then s
        else State(if m.isFalse(s.stack[0]) then f else t, 0, s.stack[1..], s.world)
      case Return => s
      case i =>
        match Effect(ps, m, i, s.stack, s.world)
        case Some((stack, w)) => State(s.block, s.offset + 1, stack, w)
        case None => s
  }

  function Run<V, W>(ps: Primitives, m: Semantics<V, W>, p: map<nat, seq<Instr>>, s: State<V, W>, n: nat): State<V, W>
    decreases n
  {
    if n == 0 then s else Run(ps, m, p, Step(ps, m, p, s), n - 1)
  }

  ghost predicate Reaches<V(!new), W(!new)>(ps: Primitives, m: Semantics<V, W>, p: map<nat, seq<Instr>>,
      s: State<V, W>, s': State<V, W>) {
    exists n: nat :: Run(ps, m, p, s, n) == s'
  }

  lemma {:induction false} RunsAdd<V, W>(ps: Primitives, m: Semantics<V, W>, p: map<nat, seq<Instr>>, s: State<V, W>,
      j: nat, k: nat)
    ensures Run(ps, m, p, s, j + k) == Run(ps, m, p, Run(ps, m, p, s, j), k)
    decreases j
  {
    if j > 0 {
      RunsAdd(ps, m, p, Step(ps, m, p, s), j - 1, k);
    }
  }

  lemma ReachesOnwards<V(!new), W(!new)>(ps: Primitives, m: Semantics<V, W>, p: map<nat, seq<Instr>>, a: State<V, W>,
      b: State<V, W>, c: State<V, W>)
    requires Reaches(ps, m, p, a, b) && Reaches(ps, m, p, b, c)
    ensures Reaches(ps, m, p, a, c)
  {
    var j: nat :| Run(ps, m, p, a, j) == b;
    var k: nat :| Run(ps, m, p, b, k) == c;
    RunsAdd(ps, m, p, a, j, k);
  }

  lemma ReachesSelf<V(!new), W(!new)>(ps: Primitives, m: Semantics<V, W>, p: map<nat, seq<Instr>>, a: State<V, W>)
    ensures Reaches(ps, m, p, a, a)
  {
    assert Run(ps, m, p, a, 0) == a;
  }

  lemma ReachesNext<V(!new), W(!new)>(ps: Primitives, m: Semantics<V, W>, p: map<nat, seq<Instr>>, a: State<V, W>)
    ensures Reaches(ps, m, p, a, Step(ps, m, p, a))
  {
    assert Run(ps, m, p, a, 1) == Run(ps, m, p, Step(ps, m, p, a), 0);
  }

  /** The program has the code built so far: finished blocks as they are, the one
      being built as the beginning of its block. */
  ghost predicate Holds(p: map<nat, seq<Instr>>, code: Code) {
    && code.blocks != []
    && (forall k :: 0 <= k < |code.blocks| - 1 ==>
      code.blocks[k].id in p && p[code.blocks[k].id] == code.blocks[k].instrs)
    && Current(code).id in p && Current(code).instrs <= p[Current(code).id]
  }

  lemma HoldsBefore(p: map<nat, seq<Instr>>, code: Code, code': Code)
    requires Grows(code, code') && Holds(p, code')
    ensures Holds(p, code)
  {
    var k := |code.blocks| - 1;
    if |code'.blocks| > |code.blocks| {
      assert code'.blocks[k].id in p && p[code'.blocks[k].id] == code'.blocks[k].instrs;
    }
  }

  /** At the end of the code built so far. */
  function Here<V, W>(c: Context, stack: seq<V>, w: W): State<V, W>
    requires Building(c)
  {
    State(Current(c.code).id, |Current(c.code).instrs|, stack, w)
  }

  lemma GenAt<V, W>(p: map<nat, seq<Instr>>, i: Instr, pop: nat, push: nat, c: Context, stack: seq<V>, w: W)
    requires Building(c) && pop <= |c.env.slots| && Holds(p, Gen(i, pop, push, c).code)
    ensures var s := Here(c, stack, w);
            && s.block in p && s.offset < |p[s.block]| && p[s.block][s.offset] == i
            && Here(Gen(i, pop, push, c), stack, w) == s.(offset := s.offset + 1)
  {
    var c' := Gen(i, pop, push, c);
    assert Current(c'.code).instrs[|Current(c.code).instrs|] == i;
  }

  // The stack as the compiler sees it.

  function Depth(x: nat, env: Env): nat {
    if Some(x) in env.slots then IndexOf(env.slots, Some(x)) else |env.slots| + IndexOf(env.closed, x)
  }

  /** Every variable is where the compiler thinks it is. */
  ghost predicate Matches<V(!new)>(env: Env, stack: seq<V>, rho: nat -> V) {
    && |env.slots| <= |stack|
    && forall x: nat {:trigger Bound(x, env)} :: Bound(x, env) ==>
      Depth(x, env) < |stack| && stack[Depth(x, env)] == rho(x)
  }

  lemma DepthShifted(x: nat, env: Env, n: nat)
    requires Bound(x, env)
    ensures Bound(x, Shift(env, 0, n)) && Depth(x, Shift(env, 0, n)) == n + Depth(x, env)
  {
    var env' := Shift(env, 0, n);
    if Some(x) in env.slots {
      IndexFound(env.slots, Some(x));
      var k := IndexOf(env.slots, Some(x));
      assert env'.slots[n + k] == Some(x);
      IndexFound(env'.slots, Some(x));
      var j := IndexOf(env'.slots, Some(x));
      assert j >= n;
      assert env.slots[j - n] == Some(x);
    }
  }

  lemma BoundBefore(x: nat, env: Env, n: nat)
    ensures Bound(x, Shift(env, 0, n)) <==> Bound(x, env)
  {
    var env' := Shift(env, 0, n);
    if Some(x) in env'.slots {
      var j :| 0 <= j < |env'.slots| && env'.slots[j] == Some(x);
      assert env.slots[j - n] == Some(x);
    }
    if Bound(x, env) {
      DepthShifted(x, env, n);
    }
  }

  lemma MatchesPushed<V(!new)>(env: Env, stack: seq<V>, rho: nat -> V, vs: seq<V>)
    requires Matches(env, stack, rho)
    ensures Matches(Shift(env, 0, |vs|), vs + stack, rho)
  {
    forall x: nat | Bound(x, Shift(env, 0, |vs|))
      ensures Depth(x, Shift(env, 0, |vs|)) < |vs + stack| && (vs + stack)[Depth(x, Shift(env, 0, |vs|))] == rho(x)
    {
      BoundBefore(x, env, |vs|);
      DepthShifted(x, env, |vs|);
    }
  }

  // Simulation, case by case.

  predicate Scoped(e: Expr, vars: set<nat>) {
    match e
    case Cst(_) => true
    case Local(x) => x in vars
    case Global(_) => true
    case Assign(_, _, rhs) => Scoped(rhs, vars)
    case If(a, b, c) => Scoped(a, vars) && Scoped(b, vars) && Scoped(c, vars)
    case Seq(body) => AllScoped(body, vars)
    case Call(_, args) => AllScoped(args, vars)
  }

  predicate AllScoped(es: seq<Expr>, vars: set<nat>) {
    es == [] || (Scoped(es[0], vars) && AllScoped(es[1..], vars))
  }

  /** Code has been compiled from c up to c', and all local variables are where
      they should be. */
  ghost predicate Ready<V(!new)>(p: map<nat, seq<Instr>>, c: Context, c': Context, vars: set<nat>, stack: seq<V>,
      rho: nat -> V) {
    && Building(c) && WellLabeled(c.code)
    && Holds(p, c'.code)
    && Matches(c.env, stack, rho)
    && forall x :: x in vars ==> Bound(x, c.env)
  }

  lemma ReadyPushed<V(!new)>(p: map<nat, seq<Instr>>, env: Env, vars: set<nat>, stack: seq<V>, rho: nat -> V,
      vs: seq<V>)
    requires Matches(env, stack, rho) && forall x :: x in vars ==> Bound(x, env)
    ensures Matches(Shift(env, 0, |vs|), vs + stack, rho) && forall x :: x in vars ==> Bound(x, Shift(env, 0, |vs|))
  {
    MatchesPushed(env, stack, rho, vs);
    forall x | x in vars
      ensures Bound(x, Shift(env, 0, |vs|))
    {
      BoundBefore(x, env, |vs|);
    }
  }

  /** One more instruction, from wherever the code so far has been reached. */
  lemma OneMore<V(!new), W(!new)>(ps: Primitives, m: Semantics<V, W>, p: map<nat, seq<Instr>>, from: State<V, W>,
      i: Instr, pop: nat, push: nat, c: Context, stack: seq<V>, w: W, stack': seq<V>, w': W)
    requires Building(c) && pop <= |c.env.slots| && Holds(p, Gen(i, pop, push, c).code)
    requires Reaches(ps, m, p, from, Here(c, stack, w)) && Effect(ps, m, i, stack, w) == Some((stack', w'))
    ensures Reaches(ps, m, p, from, Here(Gen(i, pop, push, c), stack', w'))
  {
    GenAt(p, i, pop, push, c, stack, w);
    ReachesNext(ps, m, p, Here(c, stack, w));
    ReachesOnwards(ps, m, p, from, Here(c, stack, w), Step(ps, m, p, Here(c, stack, w)));
  }

  /** The code has returned v. */
  ghost predicate Returns<V(!new), W(!new)>(ps: Primitives, m: Semantics<V, W>, p: map<nat, seq<Instr>>,
      from: State<V, W>, v: V, w: W) {
    exists s: State<V, W> ::
      && Reaches(ps, m, p, from, s)
      && s.block in p && s.offset < |p[s.block]| && p[s.block][s.offset] == Return
      && s.stack != [] && s.stack[0] == v && s.world == w
  }

  lemma OneReturn<V(!new), W(!new)>(ps: Primitives, m: Semantics<V, W>, p: map<nat, seq<Instr>>, from: State<V, W>,
      c: Context, v: V, stack: seq<V>, w: W)
    requires Building(c) && Holds(p, GenReturn(c).code) && Reaches(ps, m, p, from, Here(c, [v] + stack, w))
    ensures Returns(ps, m, p, from, v, w)
  {
    GenAt(p, Return, |c.env.slots|, 0, c, [v] + stack, w);
  }

  /** What running the code for an expression comes to. */
  ghost predicate Does<V(!new), W(!new)>(ps: Primitives, m: Semantics<V, W>, p: map<nat, seq<Instr>>, reason: Reason,
      from: State<V, W>, c': Context, stack: seq<V>, v: V, w': W)
    requires Building(c')
  {
    match reason
    case ForEffect => Reaches(ps, m, p, from, Here(c', stack, w'))
    case ForValue => Reaches(ps, m, p, from, Here(c', [v] + stack, w'))
    case ForReturn => Returns(ps, m, p, from, v, w')
  }

  lemma DoesFromBefore<V(!new), W(!new)>(ps: Primitives, m: Semantics<V, W>, p: map<nat, seq<Instr>>, reason: Reason,
      before: State<V, W>, from: State<V, W>, c': Context, stack: seq<V>, v: V, w': W)
    requires Building(c') && Reaches(ps, m, p, before, from) && Does(ps, m, p, reason, from, c', stack, v, w')
    ensures Does(ps, m, p, reason, before, c', stack, v, w')
  {
    match reason {
      case ForEffect => ReachesOnwards(ps, m, p, before, from, Here(c', stack, w'));
      case ForValue => ReachesOnwards(ps, m, p, before, from, Here(c', [v] + stack, w'));
      case ForReturn =>
        var s: State<V, W> :| Reaches(ps, m, p, from, s) && s.block in p && s.offset < |p[s.block]|
          && p[s.block][s.offset] == Return
          && s.stack != [] && s.stack[0] == v && s.world == w';
        ReachesOnwards(ps, m, p, before, from, s);
    }
  }

  lemma HoldsGen(p: map<nat, seq<Instr>>, i: Instr, pop: nat, push: nat, c: Context)
    requires Building(c) && pop <= |c.env.slots| && Holds(p, Gen(i, pop, push, c).code)
    ensures Holds(p, c.code)
  {
    InstrExtends(0, c.(env := Shift(c.env, pop, push)), i);
    HoldsBefore(p, c.code, Gen(i, pop, push, c).code);
  }

  lemma {:induction false} CompRuns<V(!new), W(!new)>(ps: Primitives, m: Semantics<V, W>, p: map<nat, seq<Instr>>,
      e: Expr, reason: Reason, c: Context, vars: set<nat>, rho: nat -> V, stack: seq<V>, w: W)
    requires Building(c) && Applied(ps, e) && Scoped(e, vars) && Sane(m)
             && Ready(p, c, Comp(ps, e, reason, c), vars, stack, rho)
    ensures var (v, w') := Eval(ps, m, e, rho, w);
            Does(ps, m, p, reason, Here(c, stack, w), Comp(ps, e, reason, c), stack, v, w')
    decreases e, 7
  {
    match reason {
      case ForEffect => NoneRuns(ps, m, p, e, c, vars, rho, stack, w);
      case ForValue => PushRuns(ps, m, p, e, c, vars, rho, stack, w);
      case ForReturn => TailRuns(ps, m, p, e, c, vars, rho, stack, w);
    }
  }

  lemma {:induction false} NoneRuns<V(!new), W(!new)>(ps: Primitives, m: Semantics<V, W>, p: map<nat, seq<Instr>>,
      e: Expr, c: Context, vars: set<nat>, rho: nat -> V, stack: seq<V>, w: W)
    requires Building(c) && Applied(ps, e) && Scoped(e, vars) && Sane(m)
             && Ready(p, c, CompNone(ps, e, c), vars, stack, rho)
    ensures Reaches(ps, m, p, Here(c, stack, w), Here(CompNone(ps, e, c), stack, Eval(ps, m, e, rho, w).1))
    decreases e, 4
  {
    match e {
      case Cst(_) => ReachesSelf(ps, m, p, Here(c, stack, w));
      case Local(_) => ReachesSelf(ps, m, p, Here(c, stack, w));
      case Global(_) => ReachesSelf(ps, m, p, Here(c, stack, w));
      case Assign(x, needed, rhs) => AssignRuns(ps, m, p, e, c, vars, rho, stack, w);
      case If(_, _, _) => IfRuns(ps, m, p, e, ForEffect, c, vars, rho, stack, w);
      case Seq(_) => SeqRuns(ps, m, p, e, ForEffect, c, vars, rho, stack, w);
      case Call(_, _) => CallRuns(ps, m, p, e, ForEffect, c, vars, rho, stack, w);
    }
  }

  lemma {:induction false} AssignRuns<V(!new), W(!new)>(ps: Primitives, m: Semantics<V, W>, p: map<nat, seq<Instr>>,
      e: Expr, c: Context, vars: set<nat>, rho: nat -> V, stack: seq<V>, w: W)
    requires Building(c) && e.Assign? && Applied(ps, e) && Scoped(e, vars) && Sane(m)
             && Ready(p, c, CompNone(ps, e, c), vars, stack, rho)
    ensures Reaches(ps, m, p, Here(c, stack, w), Here(CompNone(ps, e, c), stack, Eval(ps, m, e, rho, w).1))
    decreases e, 0
  {
    if e.needed {
      var pushed := CompPush(ps, e.rhs, c);
      HoldsGen(p, SetGlobal(e.x), 1, 0, pushed);
      PushRuns(ps, m, p, e.rhs, c, vars, rho, stack, w);
      var (v, w') := Eval(ps, m, e.rhs, rho, w);
      OneMore(ps, m, p, Here(c, stack, w), SetGlobal(e.x), 1, 0, pushed, [v] + stack, w', stack, m.put(e.x, v, w'));
    } else {
      NoneRuns(ps, m, p, e.rhs, c, vars, rho, stack, w);
    }
  }

  lemma {:induction false} PushRuns<V(!new), W(!new)>(ps: Primitives, m: Semantics<V, W>, p: map<nat, seq<Instr>>,
      e: Expr, c: Context, vars: set<nat>, rho: nat -> V, stack: seq<V>, w: W)
    requires Building(c) && Applied(ps, e) && Scoped(e, vars) && Sane(m)
             && Ready(p, c, CompPush(ps, e, c), vars, stack, rho)
    ensures var (v, w') := Eval(ps, m, e, rho, w);
            Reaches(ps, m, p, Here(c, stack, w), Here(CompPush(ps, e, c), [v] + stack, w'))
    decreases e, 5
  {
    var here := Here(c, stack, w);
    ReachesSelf(ps, m, p, here);
    match e {
      case Cst(val) => OneMore(ps, m, p, here, PushConstant(val), 0, 1, c, stack, w, [m.constant(val)] + stack, w);
      case Local(x) => LocalRuns(ps, m, p, x, c, rho, stack, w);
      case Global(x) => OneMore(ps, m, p, here, PushGlobal(x), 0, 1, c, stack, w, [m.get(x, w)] + stack, w);
      case Assign(_, _, _) =>
        var done := CompNone(ps, e, c);
        HoldsGen(p, PushConstant(FALSE), 0, 1, done);
        NoneRuns(ps, m, p, e, c, vars, rho, stack, w);
        var w' := Eval(ps, m, e, rho, w).1;
        OneMore(ps, m, p, here, PushConstant(FALSE), 0, 1, done, stack, w', [m.constant(FALSE)] + stack, w');
      case If(_, _, _) => IfRuns(ps, m, p, e, ForValue, c, vars, rho, stack, w);
      case Seq(_) => SeqRuns(ps, m, p, e, ForValue, c, vars, rho, stack, w);
      case Call(_, _) => CallRuns(ps, m, p, e, ForValue, c, vars, rho, stack, w);
    }
  }

  /** Local and closed variables alike are read from where the compiler put
      them. */
  lemma LocalRuns<V(!new), W(!new)>(ps: Primitives, m: Semantics<V, W>, p: map<nat, seq<Instr>>, x: nat, c: Context,
      rho: nat -> V, stack: seq<V>, w: W)
    requires Building(c) && Bound(x, c.env) && Matches(c.env, stack, rho) && Holds(p, GenPushLocal(x, c).code)
    ensures Reaches(ps, m, p, Here(c, stack, w), Here(GenPushLocal(x, c), [rho(x)] + stack, w))
  {
    var i, d := FindLocal(x, c.env), Depth(x, c.env);
    if Some(x) in c.env.slots {
      IndexFound(c.env.slots, Some(x));
    }
    assert d == if i >= 0 then i else -1 - i + |c.env.slots|;
    ReachesSelf(ps, m, p, Here(c, stack, w));
    OneMore(ps, m, p, Here(c, stack, w), PushStack(d), 0, 1, c, stack, w, [rho(x)] + stack, w);
  }

  lemma {:induction false} TailRuns<V(!new), W(!new)>(ps: Primitives, m: Semantics<V, W>, p: map<nat, seq<Instr>>,
      e: Expr, c: Context, vars: set<nat>, rho: nat -> V, stack: seq<V>, w: W)
    requires Building(c) && Applied(ps, e) && Scoped(e, vars) && Sane(m)
             && Ready(p, c, CompTail(ps, e, c), vars, stack, rho)
    ensures var (v, w') := Eval(ps, m, e, rho, w); Returns(ps, m, p, Here(c, stack, w), v, w')
    decreases e, 6
  {
    match e {
      case If(_, _, _) => IfRuns(ps, m, p, e, ForReturn, c, vars, rho, stack, w);
      case Seq(_) => SeqRuns(ps, m, p, e, ForReturn, c, vars, rho, stack, w);
      case Call(_, _) => CallRuns(ps, m, p, e, ForReturn, c, vars, rho, stack, w);
      case _ =>
        var pushed := CompPush(ps, e, c);
        HoldsGen(p, Return, |pushed.env.slots|, 0, pushed);
        PushRuns(ps, m, p, e, c, vars, rho, stack, w);
        var (v, w') := Eval(ps, m, e, rho, w);
        OneReturn(ps, m, p, Here(c, stack, w), pushed, v, stack, w');
    }
  }

  lemma {:induction false} SeqRuns<V(!new), W(!new)>(ps: Primitives, m: Semantics<V, W>, p: map<nat, seq<Instr>>,
      e: Expr, reason: Reason, c: Context, vars: set<nat>, rho: nat -> V, stack: seq<V>, w: W)
    requires Building(c) && e.Seq? && Applied(ps, e) && Scoped(e, vars) && Sane(m)
             && Ready(p, c, CompSeq(ps, e, reason, c), vars, stack, rho)
    ensures var (v, w') := Eval(ps, m, e, rho, w);
            Does(ps, m, p, reason, Here(c, stack, w), CompSeq(ps, e, reason, c), stack, v, w')
    decreases e, 0
  {
    if e.body == [] {
      var here, v := Here(c, stack, w), m.constant(FALSE);
      ReachesSelf(ps, m, p, here);
      if reason != ForEffect {
        var pushed := GenPushUnspecified(c);
        if reason == ForReturn {
          HoldsGen(p, Return, |pushed.env.slots|, 0, pushed);
        }
        OneMore(ps, m, p, here, PushConstant(FALSE), 0, 1, c, stack, w, [v] + stack, w);
        if reason == ForReturn {
          OneReturn(ps, m, p, here, pushed, v, stack, w);
        }
      }
    } else {
      BodyRuns(ps, m, p, e.body, reason, c, vars, rho, stack, w);
    }
  }

  lemma {:induction false} BodyRuns<V(!new), W(!new)>(ps: Primitives, m: Semantics<V, W>, p: map<nat, seq<Instr>>,
      es: seq<Expr>, reason: Reason, c: Context, vars: set<nat>, rho: nat -> V, stack: seq<V>, w: W)
    requires Building(c) && es != [] && AllApplied(ps, es) && AllScoped(es, vars) && Sane(m)
             && Ready(p, c, CompBody(ps, es, reason, c), vars, stack, rho)
    ensures var (v, w') := EvalBody(ps, m, es, rho, w);
            Does(ps, m, p, reason, Here(c, stack, w), CompBody(ps, es, reason, c), stack, v, w')
    decreases es, 0
  {
    if |es| == 1 {
      CompRuns(ps, m, p, es[0], reason, c, vars, rho, stack, w);
    } else {
      var c1 := CompNone(ps, es[0], c);
      var c2 := CompBody(ps, es[1..], reason, c1);
      NoneExtends(ps, es[0], c);
      BodyExtends(ps, es[1..], reason, c1);
      HoldsBefore(p, c1.code, c2.code);
      NoneRuns(ps, m, p, es[0], c, vars, rho, stack, w);
      ShiftNone(c.env);
      var w1 := Eval(ps, m, es[0], rho, w).1;
      BodyRuns(ps, m, p, es[1..], reason, c1, vars, rho, stack, w1);
      var (v, w') := EvalBody(ps, m, es[1..], rho, w1);
      DoesFromBefore(ps, m, p, reason, Here(c, stack, w), Here(c1, stack, w1), c2, stack, v, w');
    }
  }

  lemma {:induction false} ArgsRun<V(!new), W(!new)>(ps: Primitives, m: Semantics<V, W>, p: map<nat, seq<Instr>>,
      es: seq<Expr>, c: Context, vars: set<nat>, rho: nat -> V, stack: seq<V>, w: W)
    requires Building(c) && AllApplied(ps, es) && AllScoped(es, vars) && Sane(m)
             && Ready(p, c, CompArgs(ps, es, c), vars, stack, rho)
    ensures var (vs, w') := EvalArgs(ps, m, es, rho, w);
            Reaches(ps, m, p, Here(c, stack, w), Here(CompArgs(ps, es, c), Reversed(vs) + stack, w'))
    decreases es, 0
  {
    if es == [] {
      ReachesSelf(ps, m, p, Here(c, stack, w));
      assert [] + stack == stack;
    } else {
      var c1 := CompPush(ps, es[0], c);
      var c2 := CompArgs(ps, es[1..], c1);
      PushExtends(ps, es[0], c);
      ArgsExtend(ps, es[1..], c1);
      HoldsBefore(p, c1.code, c2.code);
      PushRuns(ps, m, p, es[0], c, vars, rho, stack, w);
      var (v, w1) := Eval(ps, m, es[0], rho, w);
      ReadyPushed(p, c.env, vars, stack, rho, [v]);
      ArgsRun(ps, m, p, es[1..], c1, vars, rho, [v] + stack, w1);
      var (vs, w') := EvalArgs(ps, m, es[1..], rho, w1);
      assert ([v] + vs)[1..] == vs;
      assert Reversed(vs) + ([v] + stack) == Reversed([v] + vs) + stack;
      ReachesOnwards(ps, m, p, Here(c, stack, w), Here(c1, [v] + stack, w1),
        Here(c2, Reversed(vs) + ([v] + stack), w'));
    }
  }

  lemma {:induction false} ReversedTwice<V>(vs: seq<V>)
    ensures Reversed(Reversed(vs)) == vs
  {
    if vs != [] {
      ReversedTwice(vs[1..]);
      ReversedEnd(Reversed(vs[1..]), vs[0]);
    }
  }

  lemma {:induction false} ReversedEnd<V>(vs: seq<V>, v: V)
    ensures Reversed(vs + [v]) == [v] + Reversed(vs)
  {
    if vs != [] {
      assert (vs + [v])[1..] == vs[1..] + [v];
      ReversedEnd(vs[1..], v);
    }
  }

  /** The primitive itself gets its arguments in order. */
  lemma PrimEffect<V, W>(ps: Primitives, m: Semantics<V, W>, f: nat, vs: seq<V>, stack: seq<V>, w: W)
    requires |vs| == ps.arity(f)
    ensures var (v, w') := m.prim(f, vs, w);
            Effect(ps, m, Prim(f), Reversed(vs) + stack, w) ==
              Some(((if ps.unspecified(f) then [] else [v]) + stack, w'))
  {
    ReversedTwice(vs);
    var all := Reversed(vs) + stack;
    assert all[..|vs|] == Reversed(vs) && all[|vs|..] == stack;
  }

  lemma {:induction false} PrimRuns<V(!new), W(!new)>(ps: Primitives, m: Semantics<V, W>, p: map<nat, seq<Instr>>,
      e: Expr, c: Context, vars: set<nat>, rho: nat -> V, stack: seq<V>, w: W)
    requires Building(c) && e.Call? && Applied(ps, e) && Scoped(e, vars) && Sane(m)
    requires Ready(p, c, GenPrim(ps, e.prim, CompArgs(ps, e.args, c)), vars, stack, rho)
    ensures var (vs, w1) := EvalArgs(ps, m, e.args, rho, w); var (v, w') := m.prim(e.prim, vs, w1);
            Reaches(ps, m, p, Here(c, stack, w),
                    Here(GenPrim(ps, e.prim, CompArgs(ps, e.args, c)),
                      (if ps.unspecified(e.prim) then [] else [v]) + stack, w'))
    decreases e, 0
  {
    var pushed, n := CompArgs(ps, e.args, c), if ps.unspecified(e.prim) then 0 else 1;
    HoldsGen(p, Prim(e.prim), ps.arity(e.prim), n, pushed);
    ArgsRun(ps, m, p, e.args, c, vars, rho, stack, w);
    var (vs, w1) := EvalArgs(ps, m, e.args, rho, w);
    var (v, w') := m.prim(e.prim, vs, w1);
    PrimEffect(ps, m, e.prim, vs, stack, w1);
    OneMore(ps, m, p, Here(c, stack, w), Prim(e.prim), ps.arity(e.prim), n, pushed, Reversed(vs) + stack, w1,
            (if ps.unspecified(e.prim) then [] else [v]) + stack, w');
  }

  lemma {:induction false} CallRuns<V(!new), W(!new)>(ps: Primitives, m: Semantics<V, W>, p: map<nat, seq<Instr>>,
      e: Expr, reason: Reason, c: Context, vars: set<nat>, rho: nat -> V, stack: seq<V>, w: W)
    requires Building(c) && e.Call? && Applied(ps, e) && Scoped(e, vars) && Sane(m)
             && Ready(p, c, CompCall(ps, e, reason, c), vars, stack, rho)
    ensures var (v, w') := Eval(ps, m, e, rho, w);
            Does(ps, m, p, reason, Here(c, stack, w), CompCall(ps, e, reason, c), stack, v, w')
    decreases e, 1
  {
    var here, unspecified := Here(c, stack, w), ps.unspecified(e.prim);
    var bare := GenPrim(ps, e.prim, CompArgs(ps, e.args, c));
    var result := if unspecified then GenPushUnspecified(bare) else bare;
    var (v, w') := Eval(ps, m, e, rho, w);
    if reason == ForReturn {
      HoldsGen(p, Return, |result.env.slots|, 0, result);
    } else if reason == ForEffect && !unspecified {
      HoldsGen(p, Pop, 1, 0, result);
    }
    if unspecified && reason != ForEffect {
      HoldsGen(p, PushConstant(FALSE), 0, 1, bare);
    }
    PrimRuns(ps, m, p, e, c, vars, rho, stack, w);
    assert [] + stack == stack;
    if unspecified && reason != ForEffect {
      OneMore(ps, m, p, here, PushConstant(FALSE), 0, 1, bare, stack, w', [v] + stack, w');
    }
    if reason == ForReturn {
      OneReturn(ps, m, p, here, result, v, stack, w');
    } else if reason == ForEffect && !unspecified {
      OneMore(ps, m, p, here, Pop, 1, 0, result, [v] + stack, w', stack, w');
    }
  }

  // Tests.

  /** A jump at the end of the code so far. */
  lemma OneJump<V(!new), W(!new)>(ps: Primitives, m: Semantics<V, W>, p: map<nat, seq<Instr>>, from: State<V, W>,
      l: nat, c: Context, stack: seq<V>, w: W)
    requires Building(c) && Holds(p, GenGoto(l, c).code) && Reaches(ps, m, p, from, Here(c, stack, w))
    ensures Reaches(ps, m, p, from, State(l, 0, stack, w))
  {
    GenAt(p, Goto(l), 0, 0, c, stack, w);
    ReachesNext(ps, m, p, Here(c, stack, w));
    ReachesOnwards(ps, m, p, from, Here(c, stack, w), State(l, 0, stack, w));
  }

  lemma {:induction false} TestRuns<V(!new), W(!new)>(ps: Primitives, m: Semantics<V, W>, p: map<nat, seq<Instr>>,
      e: Expr, ifTrue: nat, ifFalse: nat, c: Context, vars: set<nat>, rho: nat -> V, stack: seq<V>, w: W)
    requires Building(c) && Applied(ps, e) && Scoped(e, vars) && Sane(m)
             && Ready(p, c, CompTest(ps, e, ifTrue, ifFalse, c), vars, stack, rho)
    ensures var (v, w') := Eval(ps, m, e, rho, w);
            Reaches(ps, m, p, Here(c, stack, w), State(if m.isFalse(v) then ifFalse else ifTrue, 0, stack, w'))
    decreases e, 6
  {
    var here := Here(c, stack, w);
    if e.Cst? {
      ReachesSelf(ps, m, p, here);
      OneJump(ps, m, p, here, if e.val == FALSE then ifFalse else ifTrue, c, stack, w);
    } else {
      var pushed := CompPush(ps, e, c);
      var (v, w') := Eval(ps, m, e, rho, w);
      HoldsGen(p, GotoIfFalse(ifFalse, ifTrue), 1, 0, pushed);
      PushRuns(ps, m, p, e, c, vars, rho, stack, w);
      GenAt(p, GotoIfFalse(ifFalse, ifTrue), 1, 0, pushed, [v] + stack, w');
      ReachesNext(ps, m, p, Here(pushed, [v] + stack, w'));
      ReachesOnwards(ps, m, p, here, Here(pushed, [v] + stack, w'),
        State(if m.isFalse(v) then ifFalse else ifTrue, 0, stack, w'));
    }
  }

  /** An arm, from the block it starts with. */
  lemma {:induction false} ArmRuns<V(!new), W(!new)>(ps: Primitives, m: Semantics<V, W>, p: map<nat, seq<Instr>>,
      e: Expr, reason: Reason, before: Context, id: nat, started: Context, done: Context, vars: set<nat>,
      rho: nat -> V, stack: seq<V>, w: W)
    requires Building(before) && Applied(ps, e) && Scoped(e, vars) && Sane(m)
    requires started == AddBlock(before, id) && done == Comp(ps, e, reason, started)
             && Ready(p, started, done, vars, stack, rho)
    ensures var (v, w') := Eval(ps, m, e, rho, w); Does(ps, m, p, reason, State(id, 0, stack, w), done, stack, v, w')
    decreases e, 8
  {
    CompRuns(ps, m, p, e, reason, started, vars, rho, stack, w);
    assert Here(started, stack, w) == State(id, 0, stack, w);
  }

  /** From the end of an arm over its own join to the common one. */
  lemma OverJoins<V(!new), W(!new)>(ps: Primitives, m: Semantics<V, W>, p: map<nat, seq<Instr>>, from: State<V, W>,
      l: nat, via: nat, done: Context, before: Context, join: Context, joined: Context, stack: seq<V>, w: W)
    requires Building(done) && Holds(p, GenGoto(via, done).code) && Reaches(ps, m, p, from, Here(done, stack, w))
    requires Building(before) && join == AddBlock(before, via) && Holds(p, GenGoto(l, join).code)
    requires Building(joined) && Current(joined.code) == Block(l, [])
    ensures Reaches(ps, m, p, from, Here(joined, stack, w))
  {
    OneJump(ps, m, p, from, via, done, stack, w);
    assert Here(join, stack, w) == State(via, 0, stack, w);
    OneJump(ps, m, p, from, l, join, stack, w);
  }

  /** All parts of an if are in the program. */
  ghost predicate PartsHeld(p: map<nat, seq<Instr>>, reason: Reason, l: nat, tested: Context, a: Arms)
    requires Building(a.elsDone) && Building(a.thnDone)
  {
    && Building(tested) && Building(a.elsStart) && Building(a.thnStart)
    && Holds(p, tested.code) && Holds(p, a.elsDone.code) && Holds(p, a.thnDone.code)
    && WellLabeled(a.elsStart.code) && WellLabeled(a.thnStart.code)
    && (reason != ForReturn ==>
          && Holds(p, GenGoto(l + 4, a.elsDone).code) && Holds(p, GenGoto(l + 3, a.thnDone).code)
          && Holds(p, GenGoto(l + 5, JoinsOf(l, a.thnDone).elsJoin).code)
            && Holds(p, GenGoto(l + 5, JoinsOf(l, a.thnDone).thnJoin).code))
  }

  lemma PartsAreHeld(p: map<nat, seq<Instr>>, ps: Primitives, e: Expr, reason: Reason, l: nat, code: Code,
      tested: Context, a: Arms)
    requires e.If? && Applied(ps, e) && AreArms(ps, e, reason, l, tested, a) && ArmsFine(l, code, tested, a)
    requires Grows(tested.code, a.elsStart.code)
    requires reason != ForReturn ==> JoinsFine(l, code, a.thnDone, JoinsOf(l, a.thnDone))
    requires Holds(p, EndOf(reason, l, a.thnDone).code)
    ensures PartsHeld(p, reason, l, tested, a)
  {
    if reason != ForReturn {
      var j := JoinsOf(l, a.thnDone);
      HoldsBefore(p, a.thnDone.code, j.joined.code);
      HoldsBefore(p, GenGoto(l + 3, a.thnDone).code, j.joined.code);
      HoldsBefore(p, GenGoto(l + 5, j.elsJoin).code, j.joined.code);
      HoldsBefore(p, GenGoto(l + 5, j.thnJoin).code, j.joined.code);
    }
    HoldsBefore(p, a.thnStart.code, a.thnDone.code);
    HoldsBefore(p, a.between.code, a.thnStart.code);
    HoldsBefore(p, a.elsDone.code, a.between.code);
    HoldsBefore(p, a.elsStart.code, a.elsDone.code);
    HoldsBefore(p, tested.code, a.elsStart.code);
  }

  lemma {:induction false} IfRuns<V(!new), W(!new)>(ps: Primitives, m: Semantics<V, W>, p: map<nat, seq<Instr>>,
      e: Expr, reason: Reason, c: Context, vars: set<nat>, rho: nat -> V, stack: seq<V>, w: W)
    requires Building(c) && e.If? && Applied(ps, e) && Scoped(e, vars) && Sane(m)
             && Ready(p, c, CompIf(ps, e, reason, c), vars, stack, rho)
    ensures var (v, w') := Eval(ps, m, e, rho, w);
            Does(ps, m, p, reason, Here(c, stack, w), CompIf(ps, e, reason, c), stack, v, w')
    decreases e, 2
  {
    var l := c.code.lastLabel;
    var tested, a := IfIs(ps, e, reason, c);
    TestedExtends(ps, e.test, LabelsFor(reason), c, tested);
    ArmsExtend(ps, e, reason, l, c.code, tested, a);
    StartArm(l, c.code, tested.(env2 := None), l + 2);
    if reason != ForReturn {
      JoinsExtend(l, c.code, a.thnDone);
    }
    PartsAreHeld(p, ps, e, reason, l, c.code, tested, a);
    PartsRun(ps, m, p, e, reason, c, tested, a, vars, rho, stack, w);
  }

  lemma {:induction false} PartsRun<V(!new), W(!new)>(ps: Primitives, m: Semantics<V, W>, p: map<nat, seq<Instr>>,
      e: Expr, reason: Reason, c: Context, tested: Context, a: Arms, vars: set<nat>, rho: nat -> V, stack: seq<V>, w: W)
    requires Building(c) && e.If? && Applied(ps, e) && Scoped(e, vars) && Sane(m) && WellLabeled(c.code)
    requires Matches(c.env, stack, rho) && forall x :: x in vars ==> Bound(x, c.env)
    requires var l := c.code.lastLabel;
             && tested == CompTest(ps, e.test, l + 1, l + 2, Labels(LabelsFor(reason), c))
               && AreArms(ps, e, reason, l, tested, a)
             && PartsHeld(p, reason, l, tested, a)
    ensures var (v, w') := Eval(ps, m, e, rho, w);
            Does(ps, m, p, reason, Here(c, stack, w), EndOf(reason, c.code.lastLabel, a.thnDone), stack, v, w')
    decreases e, 1
  {
    hide Holds, Reaches, Does, CompTest, Matches, EndOf, Bound, WellLabeled, Comp;
    var l, here := c.code.lastLabel, Here(c, stack, w);
    IfTestRuns(ps, m, p, e.test, LabelsFor(reason), c, tested, vars, rho, stack, w);
    var (t, w1) := Eval(ps, m, e.test, rho, w);
    var (v, w') := Eval(ps, m, e, rho, w);
    ArmReached(ps, m, p, e, reason, l, tested, a, vars, rho, stack, w1, m.isFalse(t));
    ArmEnds(ps, m, p, reason, l, tested, a, m.isFalse(t), here, State(l + if m.isFalse(t) then 2 else 1, 0, stack, w1),
      stack, v, w');
  }

  /** The arm that the test chooses. */
  lemma {:induction false} ArmReached<V(!new), W(!new)>(ps: Primitives, m: Semantics<V, W>, p: map<nat, seq<Instr>>,
      e: Expr, reason: Reason, l: nat, tested: Context, a: Arms, vars: set<nat>, rho: nat -> V, stack: seq<V>, w: W,
      isFalse: bool)
    requires e.If? && Applied(ps, e) && Scoped(e, vars) && Sane(m) && AreArms(ps, e, reason, l, tested, a)
             && PartsHeld(p, reason, l, tested, a)
    requires Matches(tested.env, stack, rho) && forall x :: x in vars ==> Bound(x, tested.env)
    ensures var arm := if isFalse then e.els else e.thn; var (v, w') := Eval(ps, m, arm, rho, w);
            Does(ps, m, p, reason, State(l + if isFalse then 2 else 1, 0, stack, w),
                 if isFalse then a.elsDone else a.thnDone, stack, v, w')
    decreases e, 0
  {
    if isFalse {
      ArmRuns(ps, m, p, e.els, reason, tested.(env2 := None), l + 2, a.elsStart, a.elsDone, vars, rho, stack, w);
    } else {
      ArmRuns(ps, m, p, e.thn, reason, a.between.(env := tested.env), l + 1, a.thnStart, a.thnDone, vars, rho, stack,
        w);
    }
  }

  lemma {:induction false} IfTestRuns<V(!new), W(!new)>(ps: Primitives, m: Semantics<V, W>, p: map<nat, seq<Instr>>,
      e: Expr, k: nat, c: Context, tested: Context, vars: set<nat>, rho: nat -> V, stack: seq<V>, w: W)
    requires Building(c) && Applied(ps, e) && Scoped(e, vars) && Sane(m) && WellLabeled(c.code) && k >= 2
    requires Matches(c.env, stack, rho) && forall x :: x in vars ==> Bound(x, c.env)
    requires tested == CompTest(ps, e, c.code.lastLabel + 1, c.code.lastLabel + 2, Labels(k, c))
             && Holds(p, tested.code)
    ensures tested.env == c.env
    ensures var (t, w1) := Eval(ps, m, e, rho, w);
            Reaches(ps, m, p, Here(c, stack, w), State(c.code.lastLabel + if m.isFalse(t) then 2 else 1, 0, stack, w1))
    decreases e, 7
  {
    hide Reaches, CompTest, Bound, Matches, Holds;
    LabelsMade(k, c);
    ShiftNone(c.env);
    TestRuns(ps, m, p, e, c.code.lastLabel + 1, c.code.lastLabel + 2, Labels(k, c), vars, rho, stack, w);
    assert Here(Labels(k, c), stack, w) == Here(c, stack, w);
  }

  /** The end of the arm that the test chose. */
  lemma ArmEnds<V(!new), W(!new)>(ps: Primitives, m: Semantics<V, W>, p: map<nat, seq<Instr>>, reason: Reason, l: nat,
      tested: Context, a: Arms, isFalse: bool, here: State<V, W>, arm: State<V, W>, stack: seq<V>, v: V, w: W)
    requires Building(a.elsDone) && Building(a.thnDone) && PartsHeld(p, reason, l, tested, a)
    requires Reaches(ps, m, p, here, arm)
    requires Does(ps, m, p, reason, arm, if isFalse then a.elsDone else a.thnDone, stack, v, w)
    ensures Does(ps, m, p, reason, here, EndOf(reason, l, a.thnDone), stack, v, w)
  {
    var done := if isFalse then a.elsDone else a.thnDone;
    DoesFromBefore(ps, m, p, reason, here, arm, done, stack, v, w);
    if reason != ForReturn {
      var j := JoinsOf(l, a.thnDone);
      var stack' := if reason == ForValue then [v] + stack else stack;
      if isFalse {
        OverJoins(ps, m, p, here, l + 5, l + 4, done, GenGoto(l + 3, a.thnDone), j.elsJoin, j.joined, stack', w);
      } else {
        OverJoins(ps, m, p, here, l + 5, l + 3, done, GenGoto(l + 5, j.elsJoin), j.thnJoin, j.joined, stack', w);
      }
    }
  }

  // Whole pieces of code.

  function ProgramOf(blocks: seq<Block>): map<nat, seq<Instr>> {
    if blocks == [] then map[]
    else
      var last := blocks[|blocks| - 1];
      ProgramOf(blocks[..|blocks| - 1])[last.id := last.instrs]
  }

  lemma {:induction false} ProgramHas(blocks: seq<Block>, k: nat)
    requires k < |blocks| && forall i, j :: 0 <= i < j < |blocks| ==> blocks[i].id != blocks[j].id
    ensures blocks[k].id in ProgramOf(blocks) && ProgramOf(blocks)[blocks[k].id] == blocks[k].instrs
  {
    if k < |blocks| - 1 {
      ProgramHas(blocks[..|blocks| - 1], k);
    }
  }

  lemma ProgramHolds(code: Code)
    requires code.blocks != [] && WellLabeled(code)
    ensures Holds(ProgramOf(code.blocks), code)
  {
    forall k | 0 <= k < |code.blocks|
      ensures code.blocks[k].id in ProgramOf(code.blocks) && ProgramOf(code.blocks)[code.blocks[k].id] ==
              code.blocks[k].instrs
    {
      ProgramHas(code.blocks, k);
    }
  }

  /** An empty piece of code, for a stack and environment of the given shape. */
  function Initial(env: Env): Context {
    Context(Code(0, [Block(0, [])]), env, None)
  }

  /** The blocks compiled for an expression in tail position, run from block 0,
      return its value. */
  lemma ExpressionReturns<V(!new), W(!new)>(ps: Primitives, m: Semantics<V, W>, e: Expr, env: Env, vars: set<nat>,
      rho: nat -> V, stack: seq<V>, w: W)
    requires Applied(ps, e) && Scoped(e, vars) && Sane(m)
    requires Matches(env, stack, rho) && forall x :: x in vars ==> Bound(x, env)
    ensures var p, (v, w') := ProgramOf(CompTail(ps, e, Initial(env)).code.blocks), Eval(ps, m, e, rho, w);
            Returns(ps, m, p, State(0, 0, stack, w), v, w')
  {
    var c := Initial(env);
    TailExtends(ps, e, c);
    ProgramHolds(CompTail(ps, e, c).code);
    TailRuns(ps, m, ProgramOf(CompTail(ps, e, c).code.blocks), e, c, vars, rho, stack, w);
  }

  /** Compiled for its value, it leaves the value on an otherwise untouched
      stack; compiled for its effect, it leaves the stack as it was. */
  lemma ExpressionRuns<V(!new), W(!new)>(ps: Primitives, m: Semantics<V, W>, e: Expr, env: Env, vars: set<nat>,
      rho: nat -> V, stack: seq<V>, w: W)
    requires Applied(ps, e) && Scoped(e, vars) && Sane(m)
    requires Matches(env, stack, rho) && forall x :: x in vars ==> Bound(x, env)
    ensures var c := Initial(env);
            var pushed, dropped, (v, w') := CompPush(ps, e, c), CompNone(ps, e, c), Eval(ps, m, e, rho, w);
            && Reaches(ps, m, ProgramOf(pushed.code.blocks), State(0, 0, stack, w), Here(pushed, [v] + stack, w'))
            && Reaches(ps, m, ProgramOf(dropped.code.blocks), State(0, 0, stack, w), Here(dropped, stack, w'))
  {
    var c := Initial(env);
    PushExtends(ps, e, c);
    NoneExtends(ps, e, c);
    ProgramHolds(CompPush(ps, e, c).code);
    ProgramHolds(CompNone(ps, e, c).code);
    PushRuns(ps, m, ProgramOf(CompPush(ps, e, c).code.blocks), e, c, vars, rho, stack, w);
    NoneRuns(ps, m, ProgramOf(CompNone(ps, e, c).code.blocks), e, c, vars, rho, stack, w);
  }
}
