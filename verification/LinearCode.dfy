/** Code as one line of instructions, where a block may fall through to the next
    one, and why it runs as the blocks do. */
module LinearCode {
  import opened Blocks

  datatype Line = Mark(id: nat) | Do(instr: Instr) | BranchIfFalse(to: nat) | Negate

  /** Where a jump to label l goes on: behind its mark. */
  function Behind(at: seq<nat>, l: nat): nat {
    if l < |at| then at[l] + 1 else 0
  }

  /** One step of the machine on linear code; at gives the positions of the
      labels. A machine that runs off the code is stuck. */
  function StepLine<S>(m: Machine<S>, code: seq<Line>, at: seq<nat>, c: Config<nat, S>): Config<nat, S> {
    if c.Over? || c.pc >= |code| then c
    else
      match code[c.pc]
      case Mark(_) => At(c.pc + 1, c.pending, c.saved, c.data)
      case Negate => At(c.pc + 1, c.pending, c.saved, m.negate(c.data))
      case BranchIfFalse(l) =>
        At(if m.isFalse(c.data) then Behind(at, l) else c.pc + 1, c.pending, c.saved, m.drop(c.data))
      case Do(i) =>
        var (data, control) := Effect(m, i, c.data);
        Follow(c.pending, c.saved, data, control, c.pc + 1, Behind(at, TargetOf(control)))
  }

  function RunLines<S>(m: Machine<S>, code: seq<Line>, at: seq<nat>, c: Config<nat, S>, steps: nat): Config<nat, S>
    decreases steps
  {
    if steps == 0 then c else RunLines(m, code, at, StepLine(m, code, at, c), steps - 1)
  }

  /** The end of a block: its jump, or the mark of a label it falls through to. */
  ghost predicate TailAt(code: seq<Line>, q: nat, jump: Instr) {
    match jump
    case Goto(l) => q < |code| && (code[q] == Do(jump) || code[q] == Mark(l))
    case GotoIfFalse(f, t) =>
      q + 1 < |code| &&
      if code[q] == Negate then code[q+1] == BranchIfFalse(t) && q + 2 < |code| && code[q+2] == Mark(f)
      else code[q] == BranchIfFalse(f) && (code[q+1] == Mark(t) || code[q+1] == Do(Goto(t)))
    case _ => q < |code| && code[q] == Do(jump)
  }

  ghost predicate BlockAt(code: seq<Line>, p: nat, l: nat, b: Block) {
    && p + |b.body| < |code|
    && code[p] == Mark(l)
    && (forall k :: 0 <= k < |b.body| ==> code[p + 1 + k] == Do(b.body[k]))
    && TailAt(code, p + 1 + |b.body|, b.jump)
  }

  /** Every block is there, once. */
  ghost predicate Laid(code: seq<Line>, at: seq<nat>, blocks: seq<Block>) {
    && |at| == |blocks|
    && (forall q :: 0 <= q < |code| && code[q].Mark? ==> code[q].id < |at| && at[code[q].id] == q)
    && (forall l :: 0 <= l < |blocks| ==> BlockAt(code, at[l], l, blocks[l]))
  }

  /** The instruction is found in some block. */
  ghost predicate Drawn(blocks: seq<Block>, i: Instr) {
    exists l :: 0 <= l < |blocks| && (i in blocks[l].body || i == blocks[l].jump)
  }

  /** A line that belongs in code for the blocks. */
  ghost predicate LineFrom(blocks: seq<Block>, line: Line) {
    match line
    case Mark(l) => l < |blocks|
    case Do(Goto(l)) => l < |blocks|
    case Do(i) => !i.GotoIfFalse? && Drawn(blocks, i)
    case BranchIfFalse(l) => l < |blocks|
    case Negate => true
  }

  /** There are no lines but those of the blocks. */
  ghost predicate DrawnFrom(blocks: seq<Block>, code: seq<Line>) {
    forall q :: 0 <= q < |code| ==> LineFrom(blocks, code[q])
  }

  // The simulation.

  function PlaceIn(at: seq<nat>, p: Place): nat {
    Behind(at, p.block) + p.offset
  }

  function PlacesIn(at: seq<nat>, ps: seq<Place>): (r: seq<nat>)
    ensures |r| == |ps| && forall k :: 0 <= k < |ps| ==> r[k] == PlaceIn(at, ps[k])
  {
    if ps == [] then [] else PlacesIn(at, ps[..|ps|-1]) + [PlaceIn(at, ps[|ps|-1])]
  }

  function StacksIn(at: seq<nat>, pss: seq<seq<Place>>): (r: seq<seq<nat>>)
    ensures |r| == |pss| && forall k :: 0 <= k < |pss| ==> r[k] == PlacesIn(at, pss[k])
  {
    seq(|pss|, k requires 0 <= k < |pss| => PlacesIn(at, pss[k]))
  }

  /** The configuration of the linear machine that stands for c. */
  function Image<S>(at: seq<nat>, c: Config<Place, S>): Config<nat, S> {
    match c
    case At(pc, pending, saved, data) => At(PlaceIn(at, pc), PlacesIn(at, pending), StacksIn(at, saved), data)
    case Over(data) => Over(data)
  }

  lemma PlacesPushed(at: seq<nat>, ps: seq<Place>, p: Place)
    ensures PlacesIn(at, ps + [p]) == PlacesIn(at, ps) + [PlaceIn(at, p)]
  {
  }

  lemma PlacesPopped(at: seq<nat>, ps: seq<Place>)
    requires ps != []
    ensures PlacesIn(at, ps[..|ps|-1]) == PlacesIn(at, ps)[..|ps|-1]
  {
  }

  lemma ReturnImage<S>(at: seq<nat>, pending: seq<Place>, saved: seq<seq<Place>>, data: S)
    ensures Image(at, Return(pending, saved, data)) == Return(PlacesIn(at, pending), StacksIn(at, saved), data)
  {
    if pending != [] {
      PlacesPopped(at, pending);
    }
  }

  lemma FollowImage<S>(at: seq<nat>, pending: seq<Place>, saved: seq<seq<Place>>, data: S, control: Control,
      next: Place, entry: Place)
    ensures Image(at, Follow(pending, saved, data, control, next, entry)) ==
              Follow(PlacesIn(at, pending), StacksIn(at, saved), data, control, PlaceIn(at, next), PlaceIn(at, entry))
  {
    match control {
      case Call(_) => PlacesPushed(at, pending, next);
      case Leave => ReturnImage(at, pending, saved, data);
      case Save => assert StacksIn(at, saved + [pending]) == StacksIn(at, saved) + [PlacesIn(at, pending)];
      case Resume(k) => ReturnImage(at, Saved(saved, k), saved, data);
      case _ =>
    }
  }

  /** At c the next instruction is i of block b, and goes to some block. */
  ghost predicate Facing<S>(m: Machine<S>, blocks: seq<Block>, c: Config<Place, S>, b: Block, i: Instr) {
    && c.At? && c.pc.block < |blocks| && c.pc.offset <= |b.body|
    && b == blocks[c.pc.block]
    && i == InstrAt(blocks, c.pc)
    && (var control := Effect(m, i, c.data).1;
        && (control.Jump? || control.Call? || control.Graft? ==> TargetOf(control) < |blocks|)
        && (c.pc.offset == |b.body| ==> i.IsJump() && !control.Next? && !control.Call? && !control.Save?))
  }

  lemma ProperFaces<S(!new)>(m: Machine<S>, blocks: seq<Block>, c: Config<Place, S>)
    requires WellFormed(blocks) && Sane(m) && Proper(m, blocks, All(|blocks|), c) && c.At?
    ensures Facing(m, blocks, c, blocks[c.pc.block], InstrAt(blocks, c.pc))
  {
    AllKept(blocks);
    assert WellFormedBlock(blocks[c.pc.block], |blocks|);
    var i := InstrAt(blocks, c.pc);
    forall l | l in i.Refs()
      ensures l in All(|blocks|)
    {
      MentionedAt(blocks, All(|blocks|), c.pc, l);
    }
    EffectStays(m, i, c.data, All(|blocks|));
  }

  lemma BodyLineIs(blocks: seq<Block>, code: seq<Line>, at: seq<nat>, p: Place)
    requires Laid(code, at, blocks) && p.block < |blocks| && p.offset < |blocks[p.block].body|
    ensures PlaceIn(at, p) < |code| && code[PlaceIn(at, p)] == Do(blocks[p.block].body[p.offset])
  {
    assert BlockAt(code, at[p.block], p.block, blocks[p.block]);
  }

  lemma BodyStepSimulated<S>(m: Machine<S>, blocks: seq<Block>, code: seq<Line>, at: seq<nat>, c: Config<Place, S>,
      b: Block, i: Instr)
    requires Laid(code, at, blocks) && Facing(m, blocks, c, b, i) && c.pc.offset < |b.body|
    ensures StepLine(m, code, at, Image(at, c)) == Image(at, Step(m, blocks, c))
  {
    hide Laid, PlacesIn;
    BodyLineIs(blocks, code, at, c.pc);
    var (data, control) := Effect(m, i, c.data);
    FollowImage(at, c.pending, c.saved, data, control, Place(c.pc.block, c.pc.offset + 1), Place(TargetOf(control), 0));
  }

  /** How many lines a block's end takes. */
  function TailSteps(code: seq<Line>, q: nat, jump: Instr, isFalse: bool): nat {
    match jump
    case GotoIfFalse(f, t) =>
      if q < |code| && code[q] == Negate then if isFalse then 3 else 2
      else if isFalse then 1 else 2
    case _ => 1
  }

  lemma AwayStepSimulated<S>(m: Machine<S>, blocks: seq<Block>, code: seq<Line>, at: seq<nat>, c: Config<Place, S>,
      b: Block, i: Instr)
    requires Laid(code, at, blocks) && Facing(m, blocks, c, b, i) && c.pc.offset == |b.body| && !i.GotoIfFalse?
    ensures StepLine(m, code, at, Image(at, c)) == Image(at, Step(m, blocks, c))
  {
    assert BlockAt(code, at[c.pc.block], c.pc.block, b);
    if i.Goto? {
      assert StepLine(m, code, at, Image(at, c)) == At(at[i.to] + 1, PlacesIn(at, c.pending), StacksIn(at, c.saved),
             c.data);
    } else {
      assert code[PlaceIn(at, c.pc)] == Do(i);
      var (data, control) := Effect(m, i, c.data);
      FollowImage(at, c.pending, c.saved, data, control, Place(c.pc.block, c.pc.offset + 1),
        Place(TargetOf(control), 0));
    }
  }

  /** Negation turns the truth of the value on top over. */
  ghost predicate Negates<S>(m: Machine<S>, s: S) {
    m.isFalse(m.negate(s)) == !m.isFalse(s) && m.drop(m.negate(s)) == m.drop(s)
  }

  lemma TestStepSimulated<S>(m: Machine<S>, blocks: seq<Block>, code: seq<Line>, at: seq<nat>, c: Config<Place, S>,
      b: Block, i: Instr)
    requires Laid(code, at, blocks) && Facing(m, blocks, c, b, i) && c.pc.offset == |b.body| && i.GotoIfFalse?
             && Negates(m, c.data)
    ensures RunLines(m, code, at, Image(at, c), TailSteps(code, PlaceIn(at, c.pc), i, m.isFalse(c.data))) ==
            Image(at, Step(m, blocks, c))
  {
    assert BlockAt(code, at[c.pc.block], c.pc.block, b);
    var n := TailSteps(code, PlaceIn(at, c.pc), i, m.isFalse(c.data));
    var d := Image(at, c);
    var d1 := StepLine(m, code, at, d);
    assert RunLines(m, code, at, d, n) == RunLines(m, code, at, d1, n - 1);
    if n > 1 {
      var d2 := StepLine(m, code, at, d1);
      assert RunLines(m, code, at, d1, n - 1) == RunLines(m, code, at, d2, n - 2);
      if n > 2 {
        assert RunLines(m, code, at, d2, 1) == RunLines(m, code, at, StepLine(m, code, at, d2), 0);
      }
    }
  }

  lemma {:induction false} RunsAdd<S>(m: Machine<S>, code: seq<Line>, at: seq<nat>, c: Config<nat, S>, j: nat, k: nat)
    ensures RunLines(m, code, at, c, j + k) == RunLines(m, code, at, RunLines(m, code, at, c, j), k)
    decreases j
  {
    if j > 0 {
      RunsAdd(m, code, at, StepLine(m, code, at, c), j - 1, k);
    }
  }

  /** Every step of the blocks is at least one and at most three steps of the
      linear code. */
  lemma StepSimulated<S(!new)>(m: Machine<S>, blocks: seq<Block>, code: seq<Line>, at: seq<nat>, c: Config<Place, S>)
      returns (n: nat)
    requires WellFormed(blocks) && Sane(m) && Laid(code, at, blocks) && Proper(m, blocks, All(|blocks|), c)
    ensures 1 <= n <= 3 && RunLines(m, code, at, Image(at, c), n) == Image(at, Step(m, blocks, c))
  {
    n := 1;
    assert RunLines(m, code, at, Image(at, c), 1) == RunLines(m, code, at, StepLine(m, code, at, Image(at, c)), 0);
    if c.At? {
      ProperFaces(m, blocks, c);
      var b, i := blocks[c.pc.block], InstrAt(blocks, c.pc);
      if c.pc.offset < |b.body| {
        BodyStepSimulated(m, blocks, code, at, c, b, i);
      } else if i.GotoIfFalse? {
        TestStepSimulated(m, blocks, code, at, c, b, i);
        n := TailSteps(code, PlaceIn(at, c.pc), i, m.isFalse(c.data));
      } else {
        AwayStepSimulated(m, blocks, code, at, c, b, i);
      }
    }
  }

  /** Linear code runs as the blocks do, from any point on and for ever. */
  lemma {:induction false} RunSimulated<S(!new)>(m: Machine<S>, blocks: seq<Block>, code: seq<Line>, at: seq<nat>,
      c: Config<Place, S>, k: nat)
    returns (n: nat)
    requires WellFormed(blocks) && Sane(m) && Laid(code, at, blocks) && Proper(m, blocks, All(|blocks|), c)
    ensures k <= n <= 3 * k && RunLines(m, code, at, Image(at, c), n) == Image(at, Run(m, blocks, c, k))
    decreases k
  {
    hide Laid, Proper, Sane, WellFormed, Step, StepLine;
    if k == 0 {
      n := 0;
    } else {
      var first := StepSimulated(m, blocks, code, at, c);
      AllKept(blocks);
      StepStaysProper(m, blocks, All(|blocks|), c);
      var rest := RunSimulated(m, blocks, code, at, Step(m, blocks, c), k - 1);
      RunsAdd(m, code, at, Image(at, c), first, rest);
      n := first + rest;
    }
  }

  lemma {:induction false} OverStays<S>(m: Machine<S>, code: seq<Line>, at: seq<nat>, c: Config<nat, S>, j: nat, k: nat)
    requires j <= k && RunLines(m, code, at, c, j).Over?
    ensures RunLines(m, code, at, c, k) == RunLines(m, code, at, c, j)
    decreases k - j
  {
    if j < k {
      OverStays(m, code, at, c, j, k - 1);
      RunsAdd(m, code, at, c, k - 1, 1);
      assert RunLines(m, code, at, RunLines(m, code, at, c, k - 1), 1) ==
             RunLines(m, code, at, StepLine(m, code, at, RunLines(m, code, at, c, k - 1)), 0);
    }
  }

  ghost predicate LinesEndWith<S(!new)>(m: Machine<S>, code: seq<Line>, at: seq<nat>, start: S, end: S) {
    exists n: nat :: RunLines(m, code, at, At(0, [], [], start), n) == Over(end)
  }

  lemma FirstLine<S>(m: Machine<S>, blocks: seq<Block>, code: seq<Line>, at: seq<nat>, start: S, n: nat)
    requires WellFormed(blocks) && Laid(code, at, blocks) && at[0] == 0
    ensures RunLines(m, code, at, At(0, [], [], start), n + 1) == RunLines(m, code, at, Image(at, Start(start)), n)
  {
    assert BlockAt(code, at[0], 0, blocks[0]);
    assert StepLine(m, code, at, At(0, [], [], start)) == Image(at, Start(start));
  }

  lemma LinesEndToo<S(!new)>(m: Machine<S>, blocks: seq<Block>, code: seq<Line>, at: seq<nat>, start: S, end: S)
    requires WellFormed(blocks) && Sane(m) && Laid(code, at, blocks) && at[0] == 0 && m.labels(start) <= All(|blocks|)
    requires EndsWith(m, blocks, start, end)
    ensures LinesEndWith(m, code, at, start, end)
  {
    var k: nat :| Run(m, blocks, Start(start), k) == Over(end);
    var n := RunSimulated(m, blocks, code, at, Start(start), k);
    FirstLine(m, blocks, code, at, start, n);
  }

  lemma BlocksEndToo<S(!new)>(m: Machine<S>, blocks: seq<Block>, code: seq<Line>, at: seq<nat>, start: S, end: S,
      n: nat)
    requires WellFormed(blocks) && Sane(m) && Laid(code, at, blocks) && at[0] == 0 && m.labels(start) <= All(|blocks|)
    requires RunLines(m, code, at, At(0, [], [], start), n) == Over(end)
    ensures Run(m, blocks, Start(start), n) == Over(end)
  {
    var n' := RunSimulated(m, blocks, code, at, Start(start), n);
    FirstLine(m, blocks, code, at, start, n');
    ImageOver(m, code, at, At(0, [], [], start), n, n' + 1, Run(m, blocks, Start(start), n), end);
  }

  lemma ImageOver<S>(m: Machine<S>, code: seq<Line>, at: seq<nat>, d: Config<nat, S>, n: nat, n': nat,
      c: Config<Place, S>, end: S)
    requires n <= n' && RunLines(m, code, at, d, n) == Over(end) && RunLines(m, code, at, d, n') == Image(at, c)
    ensures c == Over(end)
  {
    OverStays(m, code, at, d, n, n');
  }

  /** Started at its first line, the code ends exactly when the blocks do, and
      with the same data. */
  lemma SameEnds<S(!new)>(m: Machine<S>, blocks: seq<Block>, code: seq<Line>, at: seq<nat>, start: S, end: S)
    requires WellFormed(blocks) && Sane(m) && Laid(code, at, blocks) && at[0] == 0 && m.labels(start) <= All(|blocks|)
    ensures EndsWith(m, blocks, start, end) <==> LinesEndWith(m, code, at, start, end)
  {
    if EndsWith(m, blocks, start, end) {
      LinesEndToo(m, blocks, code, at, start, end);
    }
    if LinesEndWith(m, code, at, start, end) {
      var n: nat :| RunLines(m, code, at, At(0, [], [], start), n) == Over(end);
      BlocksEndToo(m, blocks, code, at, start, end, n);
    }
  }
}
