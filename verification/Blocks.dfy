/** Programs as basic blocks, and how they run. What the instructions do to the
    data is left open: everything here holds for every such machine. */
module Blocks {

  /** Instructions that carry labels, and all others. A plain instruction may
      call a closure; an exit (a return, or a jump to a closure) ends a block. */
  datatype Instr =
    | Goto(to: nat)
    | GotoIfFalse(ifFalse: nat, ifTrue: nat)
    | Closure(entry: nat)
    | CallToplevel(entry: nat)
    | JumpToplevel(entry: nat)
    | Plain(code: nat)
    | Exit(code: nat)
  {
    predicate InBody() { Closure? || CallToplevel? || Plain? }

    predicate IsJump() { Goto? || GotoIfFalse? || JumpToplevel? || Exit? }

    /** The labels an instruction mentions. */
    function Refs(): seq<nat> {
      match this
      case Goto(l) => [l]
      case GotoIfFalse(f, t) => [f, t]
      case Closure(l) => [l]
      case CallToplevel(l) => [l]
      case JumpToplevel(l) => [l]
      case Plain(_) => []
      case Exit(_) => []
    }
  }

  datatype Block = Block(id: nat, body: seq<Instr>, jump: Instr)

  /** A block ends at its first jump, and all labels are in range. */
  ghost predicate WellFormed(blocks: seq<Block>) {
    && 0 < |blocks|
    && forall l :: 0 <= l < |blocks| ==> WellFormedBlock(blocks[l], |blocks|)
  }

  predicate InRange(i: Instr, n: nat) {
    match i
    case Goto(l) => l < n
    case GotoIfFalse(f, t) => f < n && t < n
    case Closure(l) => l < n
    case CallToplevel(l) => l < n
    case JumpToplevel(l) => l < n
    case Plain(_) => true
    case Exit(_) => true
  }

  ghost predicate WellFormedBlock(b: Block, n: nat) {
    && (forall k :: 0 <= k < |b.body| ==> b.body[k].InBody() && InRange(b.body[k], n))
    && b.jump.IsJump() && InRange(b.jump, n)
  }

  /** Block a mentions label b. */
  ghost predicate Mentions(blocks: seq<Block>, a: nat, b: nat) {
    && a < |blocks|
    && (b in blocks[a].jump.Refs() || exists k :: 0 <= k < |blocks[a].body| && b in blocks[a].body[k].Refs())
  }

  ghost predicate ClosedUnderMentions(blocks: seq<Block>, labels: set<nat>) {
    forall a: nat, b: nat :: Mentions(blocks, a, b) && a in labels ==> b in labels
  }

  ghost predicate IsPath(blocks: seq<Block>, path: seq<nat>) {
    && 0 < |path|
    && path[0] == 0
    && forall i :: 0 < i < |path| ==> Mentions(blocks, path[i-1], path[i])
  }

  /** Some chain of mentions leads from block 0 to l. */
  ghost predicate Reachable(blocks: seq<Block>, l: nat) {
    exists path :: IsPath(blocks, path) && path[|path|-1] == l
  }

  lemma {:induction false} ClosedHoldsPath(blocks: seq<Block>, labels: set<nat>, path: seq<nat>)
    requires ClosedUnderMentions(blocks, labels) && 0 in labels && IsPath(blocks, path)
    ensures path[|path|-1] in labels
  {
    if |path| > 1 {
      ClosedHoldsPath(blocks, labels, path[..|path|-1]);
      assert Mentions(blocks, path[|path|-2], path[|path|-1]);
    }
  }

  lemma ClosedHoldsReachable(blocks: seq<Block>, labels: set<nat>, l: nat)
    requires ClosedUnderMentions(blocks, labels) && 0 in labels && Reachable(blocks, l)
    ensures l in labels
  {
    var path :| IsPath(blocks, path) && path[|path|-1] == l;
    ClosedHoldsPath(blocks, labels, path);
  }

  lemma ReachableNext(blocks: seq<Block>, a: nat, b: nat)
    requires Reachable(blocks, a) && Mentions(blocks, a, b)
    ensures Reachable(blocks, b)
  {
    var path :| IsPath(blocks, path) && path[|path|-1] == a;
    assert IsPath(blocks, path + [b]);
  }

  lemma ReachableStart(blocks: seq<Block>)
    ensures Reachable(blocks, 0)
  {
    assert IsPath(blocks, [0]);
  }

  // Machines.

  /** Where an instruction sends control. Save keeps the pending returns as a
      continuation, which gets the next number; Graft goes to a label with those of
      a continuation in their place, and Resume goes back to where it was taken. */
  datatype Control =
    | Next | Jump(to: nat) | Call(to: nat) | Leave | Halt
    | Save | Graft(cont: nat, to: nat) | Resume(cont: nat)

  datatype Machine<!S> = Machine(
    plain: (nat, S) -> (S, Control),
    exit: (nat, S) -> (S, Control),
    closure: (nat, S) -> S,       // makes a closure for a label
    bind: (nat, S) -> S,          // binds the arguments of a top-level procedure
    isFalse: S -> bool,           // the value on top
    drop: S -> S,
    negate: S -> S,
    labels: S -> set<nat>)        // the code addresses the data hold

  /** Control goes only where the data say. */
  ghost predicate Aims<S>(m: Machine<S>, c: Control, s: S) {
    match c
    case Jump(l) => l in m.labels(s)
    case Call(l) => l in m.labels(s)
    case Graft(_, l) => l in m.labels(s)
    case _ => true
  }

  /** Exits do leave their block, plain instructions come back to theirs if they
      leave it; data get code addresses from closures only; and negation turns
      the truth of the top value over. */
  ghost predicate Sane<S(!new)>(m: Machine<S>) {
    && (forall c, s :: Aims(m, m.plain(c, s).1, s) && !m.plain(c, s).1.Jump? && !m.plain(c, s).1.Leave?)
    && (forall c, s ::
          Aims(m, m.exit(c, s).1, s) && !m.exit(c, s).1.Next? && !m.exit(c, s).1.Call? && !m.exit(c, s).1.Save?)
    && (forall c, s :: m.labels(m.plain(c, s).0) <= m.labels(s) && m.labels(m.exit(c, s).0) <= m.labels(s))
    && (forall l, s :: m.labels(m.closure(l, s)) <= m.labels(s) + {l} && m.labels(m.bind(l, s)) <= m.labels(s))
    && (forall s :: m.labels(m.drop(s)) <= m.labels(s) && m.labels(m.negate(s)) <= m.labels(s))
    && (forall s :: m.isFalse(m.negate(s)) == !m.isFalse(s) && m.drop(m.negate(s)) == m.drop(s))
  }

  /** What an instruction does to the data, and where it goes on. */
  function Effect<S>(m: Machine<S>, i: Instr, s: S): (S, Control) {
    match i
    case Goto(l) => (s, Jump(l))
    case GotoIfFalse(f, t) => (m.drop(s), Jump(if m.isFalse(s) then f else t))
    case Closure(l) => (m.closure(l, s), Next)
    case CallToplevel(l) => (m.bind(l, s), Call(l))
    case JumpToplevel(l) => (m.bind(l, s), Jump(l))
    case Plain(c) => m.plain(c, s)
    case Exit(c) => m.exit(c, s)
  }

  /** A place in the code is of type P: running at pc with pending returns and the
      continuations saved so far, or over. */
  datatype Config<P, S> = At(pc: P, pending: seq<P>, saved: seq<seq<P>>, data: S) | Over(data: S)

  datatype Place = Place(block: nat, offset: nat)

  /** Going on after an instruction: next is the place behind it, entry the
      place its target names. */
  function Follow<P, S>(pending: seq<P>, saved: seq<seq<P>>, data: S, control: Control, next: P,
      entry: P): Config<P, S> {
    match control
    case Next => At(next, pending, saved, data)
    case Jump(_) => At(entry, pending, saved, data)
    case Call(_) => At(entry, pending + [next], saved, data)
    case Leave => Return(pending, saved, data)
    case Halt => Over(data)
    case Save => At(next, pending, saved + [pending], data)
    case Graft(k, _) => At(entry, Saved(saved, k), saved, data)
    case Resume(k) => Return(Saved(saved, k), saved, data)
  }

  function Return<P, S>(pending: seq<P>, saved: seq<seq<P>>, data: S): Config<P, S> {
    if pending == [] then Over(data) else At(pending[|pending|-1], pending[..|pending|-1], saved, data)
  }

  function Saved<P>(saved: seq<seq<P>>, k: nat): seq<P> {
    if k < |saved| then saved[k] else []
  }

  function TargetOf(c: Control): nat {
    match c
    case Jump(l) => l
    case Call(l) => l
    case Graft(_, l) => l
    case _ => 0
  }

  ghost predicate InProgram(blocks: seq<Block>, kept: set<nat>, p: Place) {
    p.block in kept && p.block < |blocks| && p.offset <= |blocks[p.block].body|
  }

  ghost predicate AllInProgram(blocks: seq<Block>, kept: set<nat>, ps: seq<Place>) {
    forall k :: 0 <= k < |ps| ==> InProgram(blocks, kept, ps[k])
  }

  /** The configuration knows no blocks but those kept. */
  ghost predicate Proper<S>(m: Machine<S>, blocks: seq<Block>, kept: set<nat>, c: Config<Place, S>) {
    c.At? ==>
      && InProgram(blocks, kept, c.pc)
      && AllInProgram(blocks, kept, c.pending)
      && (forall k :: 0 <= k < |c.saved| ==> AllInProgram(blocks, kept, c.saved[k]))
      && m.labels(c.data) <= kept
  }

  /** Blocks that are there and mention each other only. */
  ghost predicate Kept(blocks: seq<Block>, kept: set<nat>) {
    && WellFormed(blocks)
    && ClosedUnderMentions(blocks, kept)
    && forall l :: l in kept ==> l < |blocks|
  }

  ghost function All(n: nat): (labels: set<nat>)
    ensures forall l: nat :: l in labels <==> l < n
  {
    if n == 0 then {} else All(n - 1) + {n - 1}
  }

  lemma AllKept(blocks: seq<Block>)
    requires WellFormed(blocks)
    ensures Kept(blocks, All(|blocks|))
  {
    forall a: nat, b: nat | Mentions(blocks, a, b)
      ensures b < |blocks|
    {
      MentionInRange(blocks[a], |blocks|, b);
    }
  }

  lemma MentionInRange(b: Block, n: nat, l: nat)
    requires WellFormedBlock(b, n)
    requires l in b.jump.Refs() || exists k :: 0 <= k < |b.body| && l in b.body[k].Refs()
    ensures l < n
  {
  }

  /** The instruction at a place. */
  function InstrAt(blocks: seq<Block>, p: Place): Instr
    requires p.block < |blocks| && p.offset <= |blocks[p.block].body|
  {
    if p.offset < |blocks[p.block].body| then blocks[p.block].body[p.offset] else blocks[p.block].jump
  }

  lemma MentionedAt(blocks: seq<Block>, kept: set<nat>, p: Place, l: nat)
    requires Kept(blocks, kept) && InProgram(blocks, kept, p) && l in InstrAt(blocks, p).Refs()
    ensures l in kept
  {
    assert Mentions(blocks, p.block, l);
  }

  /** One step of the block machine. */
  function Step<S>(m: Machine<S>, blocks: seq<Block>, c: Config<Place, S>): Config<Place, S> {
    if c.Over? || c.pc.block >= |blocks| || c.pc.offset > |blocks[c.pc.block].body| then c
    else
      var (data, control) := Effect(m, InstrAt(blocks, c.pc), c.data);
      Follow(c.pending, c.saved, data, control, Place(c.pc.block, c.pc.offset + 1), Place(TargetOf(control), 0))
  }

  /** No step gets out of the blocks that are kept. */
  lemma StepStaysProper<S(!new)>(m: Machine<S>, blocks: seq<Block>, kept: set<nat>, c: Config<Place, S>)
    requires Sane(m) && Kept(blocks, kept) && Proper(m, blocks, kept, c)
    ensures Proper(m, blocks, kept, Step(m, blocks, c))
  {
    if c.At? {
      var i := InstrAt(blocks, c.pc);
      assert WellFormedBlock(blocks[c.pc.block], |blocks|);
      forall l | l in i.Refs()
        ensures l in kept
      {
        MentionedAt(blocks, kept, c.pc, l);
      }
      EffectStays(m, i, c.data, kept);
    }
  }

  lemma EffectStays<S(!new)>(m: Machine<S>, i: Instr, s: S, kept: set<nat>)
    requires Sane(m) && m.labels(s) <= kept && forall l :: l in i.Refs() ==> l in kept
    ensures var (s', control) := Effect(m, i, s);
            && m.labels(s') <= kept
            && (control.Jump? || control.Call? || control.Graft? ==> TargetOf(control) in kept)
            && (i.IsJump() ==> !control.Next? && !control.Call? && !control.Save?)
  {
    match i {
      case Goto(l) => assert l in i.Refs();
      case GotoIfFalse(f, t) => assert f in i.Refs() && t in i.Refs();
      case Closure(l) => assert l in i.Refs();
      case CallToplevel(l) => assert l in i.Refs();
      case JumpToplevel(l) => assert l in i.Refs();
      case Plain(c) =>
      case Exit(c) =>
    }
  }

  function Run<S>(m: Machine<S>, blocks: seq<Block>, c: Config<Place, S>, steps: nat): Config<Place, S>
    decreases steps
  {
    if steps == 0 then c else Run(m, blocks, Step(m, blocks, c), steps - 1)
  }

  /** A run from block 0. */
  function Start<S>(s: S): Config<Place, S> { At(Place(0, 0), [], [], s) }

  ghost predicate EndsWith<S(!new)>(m: Machine<S>, blocks: seq<Block>, start: S, end: S) {
    exists k: nat :: Run(m, blocks, Start(start), k) == Over(end)
  }
}
