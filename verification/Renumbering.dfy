/** Giving blocks new labels, and leaving some out. */
module Renumbering {
  import opened Blocks

  function NewLabel(ids: seq<nat>, l: nat): nat {
    if l < |ids| then ids[l] else l
  }

  function Fix(ids: seq<nat>, i: Instr): Instr {
    match i
    case Goto(l) => Goto(NewLabel(ids, l))
    case GotoIfFalse(f, t) => GotoIfFalse(NewLabel(ids, f), NewLabel(ids, t))
    case Closure(l) => Closure(NewLabel(ids, l))
    case CallToplevel(l) => CallToplevel(NewLabel(ids, l))
    case JumpToplevel(l) => JumpToplevel(NewLabel(ids, l))
    case Plain(_) => i
    case Exit(_) => i
  }

  function FixAll(ids: seq<nat>, body: seq<Instr>): (r: seq<Instr>)
    ensures |r| == |body| && forall k :: 0 <= k < |body| ==> r[k] == Fix(ids, body[k])
  {
    seq(|body|, k requires 0 <= k < |body| => Fix(ids, body[k]))
  }

  function FixBlock(ids: seq<nat>, l: nat, b: Block): Block {
    Block(NewLabel(ids, l), FixAll(ids, b.body), Fix(ids, b.jump))
  }

  ghost predicate Injective(ids: seq<nat>, kept: set<nat>) {
    forall a, b :: a in kept && b in kept && NewLabel(ids, a) == NewLabel(ids, b) ==> a == b
  }

  /** x is the new label of some kept block. */
  ghost predicate Taken(ids: seq<nat>, kept: set<nat>, x: nat) {
    exists l :: l in kept && NewLabel(ids, l) == x
  }

  /** The new blocks are the kept old ones under their new labels, block 0
      first, and no others. */
  ghost predicate Renumbered(blocks: seq<Block>, kept: set<nat>, ids: seq<nat>, blocks': seq<Block>) {
    && Kept(blocks, kept) && 0 in kept
    && |ids| == |blocks| && ids[0] == 0
    && Injective(ids, kept)
    && (forall l :: l in kept ==> ids[l] < |blocks'| && blocks'[ids[l]] == FixBlock(ids, l, blocks[l]))
    && (forall x: nat :: x < |blocks'| ==> Taken(ids, kept, x))
  }

  function FixControl(ids: seq<nat>, c: Control): Control {
    match c
    case Jump(l) => Jump(NewLabel(ids, l))
    case Call(l) => Call(NewLabel(ids, l))
    case Graft(k, l) => Graft(k, NewLabel(ids, l))
    case _ => c
  }

  /** Renaming the code addresses in the data makes no difference to what the
      instructions do, but for the names. */
  ghost predicate Opaque<S(!new)>(m: Machine<S>, ids: seq<nat>, rename: S -> S) {
    && (forall c, s :: m.plain(c, rename(s)) == (rename(m.plain(c, s).0), FixControl(ids, m.plain(c, s).1)))
    && (forall c, s :: m.exit(c, rename(s)) == (rename(m.exit(c, s).0), FixControl(ids, m.exit(c, s).1)))
    && (forall l, s :: m.closure(NewLabel(ids, l), rename(s)) == rename(m.closure(l, s)))
    && (forall l, s :: m.bind(NewLabel(ids, l), rename(s)) == rename(m.bind(l, s)))
    && (forall s :: m.isFalse(rename(s)) == m.isFalse(s) && m.drop(rename(s)) == rename(m.drop(s)))
    && (forall s, l :: l in m.labels(rename(s)) ==> exists k :: k in m.labels(s) && l == NewLabel(ids, k))
  }

  function NewPlace(ids: seq<nat>, p: Place): Place {
    Place(NewLabel(ids, p.block), p.offset)
  }

  function NewPlaces(ids: seq<nat>, ps: seq<Place>): (r: seq<Place>)
    ensures |r| == |ps| && forall k :: 0 <= k < |ps| ==> r[k] == NewPlace(ids, ps[k])
  {
    seq(|ps|, k requires 0 <= k < |ps| => NewPlace(ids, ps[k]))
  }

  function NewStacks(ids: seq<nat>, pss: seq<seq<Place>>): (r: seq<seq<Place>>)
    ensures |r| == |pss| && forall k :: 0 <= k < |pss| ==> r[k] == NewPlaces(ids, pss[k])
  {
    seq(|pss|, k requires 0 <= k < |pss| => NewPlaces(ids, pss[k]))
  }

  function NewConfig<S>(ids: seq<nat>, rename: S -> S, c: Config<Place, S>): Config<Place, S> {
    match c
    case At(pc, pending, saved, data) => At(NewPlace(ids, pc), NewPlaces(ids, pending), NewStacks(ids, saved),
      rename(data))
    case Over(data) => Over(rename(data))
  }

  lemma EffectRenamed<S(!new)>(m: Machine<S>, ids: seq<nat>, rename: S -> S, i: Instr, s: S)
    requires Opaque(m, ids, rename)
    ensures var (s', control) := Effect(m, i, s);
            Effect(m, Fix(ids, i), rename(s)) == (rename(s'), FixControl(ids, control))
  {
  }

  lemma ReturnRenamed<S>(ids: seq<nat>, rename: S -> S, pending: seq<Place>, saved: seq<seq<Place>>, data: S)
    ensures NewConfig(ids, rename, Return(pending, saved, data)) ==
            Return(NewPlaces(ids, pending), NewStacks(ids, saved), rename(data))
  {
    if pending != [] {
      assert NewPlaces(ids, pending[..|pending|-1]) == NewPlaces(ids, pending)[..|pending|-1];
    }
  }

  lemma FollowRenamed<S>(ids: seq<nat>, rename: S -> S, pending: seq<Place>, saved: seq<seq<Place>>, data: S,
      control: Control, next: Place)
    ensures NewConfig(ids, rename, Follow(pending, saved, data, control, next, Place(TargetOf(control), 0))) ==
              Follow(NewPlaces(ids, pending), NewStacks(ids, saved), rename(data), FixControl(ids, control),
                NewPlace(ids, next),
                     Place(TargetOf(FixControl(ids, control)), 0))
  {
    match control {
      case Call(_) => assert NewPlaces(ids, pending + [next]) == NewPlaces(ids, pending) + [NewPlace(ids, next)];
      case Leave => ReturnRenamed(ids, rename, pending, saved, data);
      case Save => assert NewStacks(ids, saved + [pending]) == NewStacks(ids, saved) + [NewPlaces(ids, pending)];
      case Resume(k) => ReturnRenamed(ids, rename, Saved(saved, k), saved, data);
      case _ =>
    }
  }

  /** The instruction at the new place is the old one with its labels fixed. */
  lemma PlaceRenamed(blocks: seq<Block>, kept: set<nat>, ids: seq<nat>, blocks': seq<Block>, p: Place)
    requires Renumbered(blocks, kept, ids, blocks') && InProgram(blocks, kept, p)
    ensures var p' := NewPlace(ids, p);
            && p'.block < |blocks'| && p'.offset == p.offset && |blocks'[p'.block].body| == |blocks[p.block].body|
            && InstrAt(blocks', p') == Fix(ids, InstrAt(blocks, p))
  {
    assert blocks'[ids[p.block]] == FixBlock(ids, p.block, blocks[p.block]);
  }

  lemma StepRenamed<S(!new)>(m: Machine<S>, blocks: seq<Block>, kept: set<nat>, ids: seq<nat>, blocks': seq<Block>,
      rename: S -> S, c: Config<Place, S>)
    requires Renumbered(blocks, kept, ids, blocks') && Opaque(m, ids, rename) && Proper(m, blocks, kept, c)
    ensures Step(m, blocks', NewConfig(ids, rename, c)) == NewConfig(ids, rename, Step(m, blocks, c))
  {
    hide Renumbered, Opaque, Fix, Effect, Follow, FixControl, NewPlaces, InstrAt;
    if c.At? {
      var i := InstrAt(blocks, c.pc);
      PlaceRenamed(blocks, kept, ids, blocks', c.pc);
      var (data, control) := Effect(m, i, c.data);
      EffectRenamed(m, ids, rename, i, c.data);
      FollowRenamed(ids, rename, c.pending, c.saved, data, control, Place(c.pc.block, c.pc.offset + 1));
    }
  }

  lemma {:induction false} RunRenamed<S(!new)>(m: Machine<S>, blocks: seq<Block>, kept: set<nat>, ids: seq<nat>,
      blocks': seq<Block>, rename: S -> S, c: Config<Place, S>, k: nat)
    requires Renumbered(blocks, kept, ids, blocks') && Sane(m) && Opaque(m, ids, rename) && Proper(m, blocks, kept, c)
    ensures Run(m, blocks', NewConfig(ids, rename, c), k) == NewConfig(ids, rename, Run(m, blocks, c, k))
    decreases k
  {
    if k > 0 {
      StepRenamed(m, blocks, kept, ids, blocks', rename, c);
      StepStaysProper(m, blocks, kept, c);
      RunRenamed(m, blocks, kept, ids, blocks', rename, Step(m, blocks, c), k - 1);
    }
  }

  /** The renumbered blocks end exactly when the old ones do, with the same data
      but for the names of labels. */
  lemma SameEndsRenamed<S(!new)>(m: Machine<S>, blocks: seq<Block>, kept: set<nat>, ids: seq<nat>,
      blocks': seq<Block>, rename: S -> S, start: S)
    requires Renumbered(blocks, kept, ids, blocks') && Sane(m) && Opaque(m, ids, rename) && m.labels(start) <= kept
    ensures forall end :: EndsWith(m, blocks, start, end) ==> EndsWith(m, blocks', rename(start), rename(end))
    ensures forall end' :: EndsWith(m, blocks', rename(start), end') ==>
              exists end :: EndsWith(m, blocks, start, end) && end' == rename(end)
  {
    forall end | EndsWith(m, blocks, start, end)
      ensures EndsWith(m, blocks', rename(start), rename(end))
    {
      var k: nat :| Run(m, blocks, Start(start), k) == Over(end);
      RunRenamed(m, blocks, kept, ids, blocks', rename, Start(start), k);
      assert Run(m, blocks', Start(rename(start)), k) == Over(rename(end));
    }
    forall end' | EndsWith(m, blocks', rename(start), end')
      ensures exists end :: EndsWith(m, blocks, start, end) && end' == rename(end)
    {
      var k: nat :| Run(m, blocks', Start(rename(start)), k) == Over(end');
      RunRenamed(m, blocks, kept, ids, blocks', rename, Start(start), k);
      var c := Run(m, blocks, Start(start), k);
      assert c.Over? && EndsWith(m, blocks, start, c.data);
    }
  }

  /** Renumbered blocks are well formed, and nothing unreachable is among them
      if nothing unreachable was kept. */
  lemma RenumberedIsWellFormed(blocks: seq<Block>, kept: set<nat>, ids: seq<nat>, blocks': seq<Block>)
    requires Renumbered(blocks, kept, ids, blocks')
    ensures WellFormed(blocks')
  {
    assert blocks'[ids[0]] == FixBlock(ids, 0, blocks[0]);
    forall x: nat | x < |blocks'|
      ensures WellFormedBlock(blocks'[x], |blocks'|)
    {
      assert Taken(ids, kept, x);
      var l :| l in kept && NewLabel(ids, l) == x;
      FixedBlockIsWellFormed(blocks, kept, ids, blocks', l);
    }
  }

  lemma FixInRange(ids: seq<nat>, kept: set<nat>, n: nat, i: Instr)
    requires forall l :: l in kept ==> NewLabel(ids, l) < n
    requires forall r :: r in i.Refs() ==> r in kept
    ensures InRange(Fix(ids, i), n)
  {
    assert i.Goto? ==> i.to in i.Refs();
    assert i.GotoIfFalse? ==> i.ifFalse in i.Refs() && i.ifTrue in i.Refs();
    assert i.Closure? || i.CallToplevel? || i.JumpToplevel? ==> i.entry in i.Refs();
  }

  lemma FixedBlockIsWellFormed(blocks: seq<Block>, kept: set<nat>, ids: seq<nat>, blocks': seq<Block>, l: nat)
    requires Renumbered(blocks, kept, ids, blocks') && l in kept
    ensures WellFormedBlock(FixBlock(ids, l, blocks[l]), |blocks'|)
  {
    var b := blocks[l];
    assert WellFormedBlock(b, |blocks|);
    forall r | r in b.jump.Refs()
      ensures r in kept
    {
      assert Mentions(blocks, l, r);
    }
    FixInRange(ids, kept, |blocks'|, b.jump);
    forall k | 0 <= k < |b.body|
      ensures InRange(Fix(ids, b.body[k]), |blocks'|) && Fix(ids, b.body[k]).InBody()
    {
      forall r | r in b.body[k].Refs()
        ensures r in kept
      {
        assert Mentions(blocks, l, r);
      }
      FixInRange(ids, kept, |blocks'|, b.body[k]);
    }
  }

  lemma MentionsRenamed(blocks: seq<Block>, kept: set<nat>, ids: seq<nat>, blocks': seq<Block>, a: nat, b: nat)
    requires Renumbered(blocks, kept, ids, blocks') && a in kept && Mentions(blocks, a, b)
    ensures b in kept && Mentions(blocks', ids[a], ids[b])
  {
    var b' := blocks'[ids[a]];
    assert b' == FixBlock(ids, a, blocks[a]);
    if b in blocks[a].jump.Refs() {
      FixRefs(ids, blocks[a].jump, b);
    } else {
      var k :| 0 <= k < |blocks[a].body| && b in blocks[a].body[k].Refs();
      FixRefs(ids, blocks[a].body[k], b);
      assert NewLabel(ids, b) in b'.body[k].Refs();
    }
  }

  lemma FixRefs(ids: seq<nat>, i: Instr, l: nat)
    requires l in i.Refs()
    ensures NewLabel(ids, l) in Fix(ids, i).Refs()
  {
    match i {
      case Goto(a) => assert Fix(ids, i).Refs() == [NewLabel(ids, a)];
      case GotoIfFalse(f, t) => assert Fix(ids, i).Refs() == [NewLabel(ids, f), NewLabel(ids, t)];
      case Closure(a) => assert Fix(ids, i).Refs() == [NewLabel(ids, a)];
      case CallToplevel(a) => assert Fix(ids, i).Refs() == [NewLabel(ids, a)];
      case JumpToplevel(a) => assert Fix(ids, i).Refs() == [NewLabel(ids, a)];
      case Plain(_) =>
      case Exit(_) =>
    }
  }

  lemma {:induction false} PathRenamed(blocks: seq<Block>, kept: set<nat>, ids: seq<nat>, blocks': seq<Block>,
      path: seq<nat>)
    requires Renumbered(blocks, kept, ids, blocks') && IsPath(blocks, path)
    ensures path[|path|-1] in kept && Reachable(blocks', ids[path[|path|-1]])
  {
    if |path| == 1 {
      ReachableStart(blocks');
    } else {
      var init := path[..|path|-1];
      PathRenamed(blocks, kept, ids, blocks', init);
      assert Mentions(blocks, path[|path|-2], path[|path|-1]);
      MentionsRenamed(blocks, kept, ids, blocks', path[|path|-2], path[|path|-1]);
      ReachableNext(blocks', ids[path[|path|-2]], ids[path[|path|-1]]);
    }
  }

  lemma RenumberedIsReachable(blocks: seq<Block>, kept: set<nat>, ids: seq<nat>, blocks': seq<Block>)
    requires Renumbered(blocks, kept, ids, blocks') && forall l :: l in kept ==> Reachable(blocks, l)
    ensures forall x: nat :: x < |blocks'| ==> Reachable(blocks', x)
  {
    forall x: nat | x < |blocks'|
      ensures Reachable(blocks', x)
    {
      assert Taken(ids, kept, x);
      var l :| l in kept && NewLabel(ids, l) == x;
      var path :| IsPath(blocks, path) && path[|path|-1] == l;
      PathRenamed(blocks, kept, ids, blocks', path);
    }
  }

  function Ids(blocks: seq<Block>): (ids: seq<nat>)
    ensures |ids| == |blocks| && forall l :: 0 <= l < |blocks| ==> ids[l] == blocks[l].id
  {
    seq(|blocks|, l requires 0 <= l < |blocks| => blocks[l].id)
  }

  /** Builds the vector of the blocks in use under the labels they carry. */
  method RenumberLabels(blocks: seq<Block>, refCounts: seq<nat>, n: nat) returns (blocks': seq<Block>)
    requires |refCounts| == |blocks|
    requires forall l :: 0 <= l < |blocks| && refCounts[l] > 0 ==> blocks[l].id < n
    requires forall a, b :: 0 <= a < b < |blocks| && refCounts[a] > 0 && refCounts[b] > 0 ==>
             blocks[a].id != blocks[b].id
    ensures |blocks'| == n
    ensures forall l :: 0 <= l < |blocks| && refCounts[l] > 0 ==>
            blocks'[blocks[l].id] == FixBlock(Ids(blocks), l, blocks[l])
  {
    var vector := new Block[n](_ => Block(0, [], Exit(0)));
    for l := 0 to |blocks|
      invariant forall k :: 0 <= k < l && refCounts[k] > 0 ==>
                vector[blocks[k].id] == FixBlock(Ids(blocks), k, blocks[k])
    {
      if refCounts[l] > 0 {
        vector[blocks[l].id] := FixBlock(Ids(blocks), l, blocks[l]);
      }
    }
    blocks' := vector[..];
  }
}
