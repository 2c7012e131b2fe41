/** The compiler's intermediate representation: contexts, basic blocks under
    construction, and the stack as the compiler sees it. */
module Ir {
  import opened Wrappers

  /** Instructions of the fragment. The constant 0 is false. */
  datatype Instr =
    | PushConstant(val: nat)
    | PushStack(pos: nat)
    | PushGlobal(x: nat)
    | SetGlobal(x: nat)
    | Prim(id: nat)
    | Pop
    | Goto(to: nat)
    | GotoIfFalse(ifFalse: nat, ifTrue: nat)
    | Return

  const FALSE: nat := 0

  datatype Block = Block(id: nat, instrs: seq<Instr>)

  /** The last block is the one being built. */
  datatype Code = Code(lastLabel: nat, blocks: seq<Block>)

  /** Slots of the stack hold a variable, or none. Below them is the closed
      environment. */
  datatype Env = Env(slots: seq<Option<nat>>, closed: seq<nat>)

  datatype Context = Context(code: Code, env: Env, env2: Option<Env>)

  ghost predicate Building(c: Context) { c.code.blocks != [] }

  function Current(code: Code): Block
    requires code.blocks != []
  {
    code.blocks[|code.blocks| - 1]
  }

  function AddBlock(c: Context, id: nat): Context {
    c.(code := c.code.(blocks := c.code.blocks + [Block(id, [])]))
  }

  function AddInstr(c: Context, i: Instr): Context
    requires Building(c)
  {
    var n := |c.code.blocks| - 1;
    c.(code := c.code.(blocks := c.code.blocks[..n] + [Block(c.code.blocks[n].id, c.code.blocks[n].instrs + [i])]))
  }

  function Slots(n: nat): (r: seq<Option<nat>>)
    ensures |r| == n && forall k :: 0 <= k < n ==> r[k] == None
  {
    seq(n, _ => None)
  }

  /** Discards slots and puts empty ones in their place. */
  function Shift(env: Env, pop: nat, push: nat): Env
    requires pop <= |env.slots|
  {
    env.(slots := Slots(push) + env.slots[pop..])
  }

  lemma ShiftNone(env: Env)
    ensures Shift(env, 0, 0) == env
  {
  }

  // Code generation.

  function Gen(i: Instr, pop: nat, push: nat, c: Context): Context
    requires Building(c) && pop <= |c.env.slots|
  {
    AddInstr(c.(env := Shift(c.env, pop, push)), i)
  }

  function IndexOf<T(==)>(xs: seq<T>, x: T): (k: nat)
    ensures k <= |xs| && (k < |xs| ==> xs[k] == x) && (forall i :: 0 <= i < k ==> xs[i] != x)
  {
    if xs == [] then 0 else if xs[0] == x then 0 else 1 + IndexOf(xs[1..], x)
  }

  predicate Bound(x: nat, env: Env) {
    Some(x) in env.slots || x in env.closed
  }

  lemma IndexFound<T>(xs: seq<T>, x: T)
    requires x in xs
    ensures IndexOf(xs, x) < |xs|
  {
  }

  /** The slot of a variable, or the complement of its place in the closed
      environment. */
  function FindLocal(x: nat, env: Env): int {
    if Some(x) in env.slots then IndexOf(env.slots, Some(x)) else -(IndexOf(env.closed, x) + 1)
  }

  function GenPushConstant(val: nat, c: Context): Context
    requires Building(c)
  {
    Gen(PushConstant(val), 0, 1, c)
  }

  function GenPushLocal(x: nat, c: Context): Context
    requires Building(c)
  {
    var i := FindLocal(x, c.env);
    if i >= 0 then Gen(PushStack(i), 0, 1, c) else Gen(PushStack(-1 - i + |c.env.slots|), 0, 1, c)
  }

  function GenGoto(l: nat, c: Context): Context
    requires Building(c)
  {
    Gen(Goto(l), 0, 0, c)
  }

  function GenReturn(c: Context): Context
    requires Building(c)
  {
    Gen(Return, |c.env.slots|, 0, c)
  }

  // How code grows.

  ghost predicate HasLabel(code: Code, l: nat) {
    exists k :: 0 <= k < |code.blocks| && code.blocks[k].id == l
  }

  /** No two blocks have the same label, and none has a label not made yet. */
  ghost predicate WellLabeled(code: Code) {
    && (forall j, k :: 0 <= j < k < |code.blocks| ==> code.blocks[j].id != code.blocks[k].id)
    && (forall k :: 0 <= k < |code.blocks| ==> code.blocks[k].id <= code.lastLabel)
  }

  /** Finished blocks stay, and the one being built only gets longer. */
  ghost predicate Grows(code: Code, code': Code) {
    && 0 < |code.blocks| <= |code'.blocks|
    && (forall k :: 0 <= k < |code.blocks| - 1 ==> code'.blocks[k] == code.blocks[k])
    && code'.blocks[|code.blocks| - 1].id == Current(code).id
    && Current(code).instrs <= code'.blocks[|code.blocks| - 1].instrs
  }

  /** Labels up to n that are not used yet are left alone. */
  ghost predicate Spares(n: nat, code: Code, code': Code) {
    && code.lastLabel <= code'.lastLabel
    && (forall l: nat :: l <= n && HasLabel(code', l) ==> HasLabel(code, l))
    && (WellLabeled(code) ==> WellLabeled(code'))
  }

  ghost predicate Extends(n: nat, code: Code, code': Code) {
    Grows(code, code') && Spares(n, code, code')
  }

  lemma ExtendsSelf(n: nat, code: Code)
    requires code.blocks != []
    ensures Extends(n, code, code)
  {
  }

  lemma GrowsOnwards(a: Code, b: Code, c: Code)
    requires Grows(a, b) && Grows(b, c)
    ensures Grows(a, c)
  {
    var k := |a.blocks| - 1;
    if |b.blocks| > |a.blocks| {
      assert c.blocks[k] == b.blocks[k];
    }
  }

  lemma ExtendsOnwards(n: nat, a: Code, b: Code, c: Code)
    requires Extends(n, a, b) && Extends(n, b, c)
    ensures Extends(n, a, c)
  {
    GrowsOnwards(a, b, c);
  }

  lemma InstrExtends(n: nat, c: Context, i: Instr)
    requires Building(c)
    ensures Extends(n, c.code, AddInstr(c, i).code)
  {
    var code' := AddInstr(c, i).code;
    forall l: nat | HasLabel(code', l)
      ensures HasLabel(c.code, l)
    {
      var k :| 0 <= k < |code'.blocks| && code'.blocks[k].id == l;
      assert c.code.blocks[k].id == l;
    }
  }

  /** Starting a block uses its label up, and no other. */
  lemma BlockExtends(n: nat, c: Context, id: nat)
    requires Building(c) && n < id <= c.code.lastLabel && !HasLabel(c.code, id)
    ensures var code' := AddBlock(c, id).code;
            Extends(n, c.code, code') && forall l: nat :: HasLabel(code', l) ==> l == id || HasLabel(c.code, l)
  {
    var code' := AddBlock(c, id).code;
    forall l: nat | HasLabel(code', l)
      ensures l == id || HasLabel(c.code, l)
    {
      var k :| 0 <= k < |code'.blocks| && code'.blocks[k].id == l;
      if k < |c.code.blocks| {
        assert c.code.blocks[k].id == l;
      }
    }
    if WellLabeled(c.code) {
      forall k | 0 <= k < |c.code.blocks|
        ensures c.code.blocks[k].id != id
      {
        assert HasLabel(c.code, c.code.blocks[k].id);
      }
    }
  }
}
