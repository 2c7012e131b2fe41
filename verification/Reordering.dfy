/** Numbering the blocks in the order they should stand: after a goto its
    target, after a test the block for a true value. */
module Reordering {
  import opened Blocks
  import opened Renumbering

  /** The procedures a block mentions, in the order they go on the list. */
  function ProcedureRefs(instrs: seq<Instr>): seq<nat> {
    if instrs == [] then []
    else
      (match instrs[0]
       case Closure(l) => [l]
       case CallToplevel(l) => [l]
       case JumpToplevel(l) => [l]
       case _ => []) + ProcedureRefs(instrs[1..])
  }

  /** A list with the procedures of the instructions from k on in front. */
  function Listed(instrs: seq<Instr>, k: nat, todo: seq<nat>): seq<nat>
    requires k <= |instrs|
  {
    ProcedureRefs(instrs[k..]) + todo
  }

  lemma AllListed(instrs: seq<Instr>, todo: seq<nat>)
    ensures Listed(instrs, |instrs|, todo) == todo
    ensures Listed(instrs, 0, todo) == ProcedureRefs(instrs) + todo
  {
    assert instrs[0..] == instrs;
  }

  lemma OneMoreListed(instrs: seq<Instr>, k: nat, todo: seq<nat>)
    requires k < |instrs|
    ensures Listed(instrs, k, todo) ==
              match instrs[k]
              case Closure(l) => [l] + Listed(instrs, k + 1, todo)
              case CallToplevel(l) => [l] + Listed(instrs, k + 1, todo)
              case JumpToplevel(l) => [l] + Listed(instrs, k + 1, todo)
              case _ => Listed(instrs, k + 1, todo)
  {
    assert instrs[k..][1..] == instrs[k + 1..];
  }

  /** The blocks scheduled so far: block order[x] has got the label x. What they
      mention is scheduled itself, waits on the list, or is about to be
      scheduled. */
  ghost predicate Ordered(blocks: seq<Block>, done: seq<bool>, ids: seq<nat>, order: seq<nat>) {
    && |done| == |ids| == |blocks|
    && (forall x :: 0 <= x < |order| ==> order[x] < |blocks| && done[order[x]] && ids[order[x]] == x)
    && (forall l :: 0 <= l < |blocks| && done[l] ==> ids[l] < |order| && order[ids[l]] == l)
  }

  ghost predicate Followed(blocks: seq<Block>, done: seq<bool>, todo: seq<nat>, due: set<nat>) {
    && |done| == |blocks|
    && (forall a: nat, b: nat :: Mentions(blocks, a, b) && done[a] && b < |blocks| ==> done[b] || b in todo || b in due)
  }

  lemma {:induction false} ProcedureListed(instrs: seq<Instr>, k: nat, l: nat)
    requires k < |instrs| && l in instrs[k].Refs() && (instrs[k].InBody() || instrs[k].JumpToplevel?)
    ensures l in ProcedureRefs(instrs)
  {
    if k > 0 {
      ProcedureListed(instrs[1..], k - 1, l);
    }
  }

  lemma {:induction false} ListedIsMentioned(instrs: seq<Instr>, l: nat)
    requires l in ProcedureRefs(instrs)
    ensures exists k :: 0 <= k < |instrs| && l in instrs[k].Refs()
  {
    if l in ProcedureRefs(instrs[1..]) {
      ListedIsMentioned(instrs[1..], l);
      var k :| 0 <= k < |instrs[1..]| && l in instrs[1..][k].Refs();
      assert l in instrs[k+1].Refs();
    } else {
      assert l in instrs[0].Refs();
    }
  }

  /** The targets of a block's end, but for procedures. */
  function Targets(jump: Instr): (r: set<nat>)
    ensures forall l :: l in r ==> l in jump.Refs()
  {
    match jump
    case Goto(l) => {l}
    case GotoIfFalse(f, t) => {f, t}
    case _ => {}
  }

  lemma ScheduledOne(blocks: seq<Block>, done: seq<bool>, ids: seq<nat>, order: seq<nat>, todo: seq<nat>, l: nat)
    requires WellFormed(blocks) && Ordered(blocks, done, ids, order) && l < |blocks| && !done[l]
    requires Followed(blocks, done, todo, {l})
    ensures Ordered(blocks, done[l := true], ids[l := |order|], order + [l])
    ensures Followed(blocks, done[l := true], ProcedureRefs(blocks[l].body + [blocks[l].jump]) + todo,
            Targets(blocks[l].jump))
  {
    var done', instrs := done[l := true], blocks[l].body + [blocks[l].jump];
    forall a: nat, b: nat | Mentions(blocks, a, b) && done'[a] && b < |blocks|
      ensures done'[b] || b in ProcedureRefs(instrs) + todo || b in Targets(blocks[l].jump)
    {
      if a == l {
        OwnMentions(blocks, l, b);
      }
    }
  }

  lemma OwnMentions(blocks: seq<Block>, l: nat, b: nat)
    requires WellFormed(blocks) && Mentions(blocks, l, b)
    ensures b in ProcedureRefs(blocks[l].body + [blocks[l].jump]) || b in Targets(blocks[l].jump)
  {
    var block := blocks[l];
    var instrs := block.body + [block.jump];
    assert WellFormedBlock(block, |blocks|);
    if b in block.jump.Refs() {
      assert instrs[|block.body|] == block.jump;
      if block.jump.JumpToplevel? {
        ProcedureListed(instrs, |block.body|, b);
      }
    } else {
      var k :| 0 <= k < |block.body| && b in block.body[k].Refs();
      assert instrs[k] == block.body[k];
      ProcedureListed(instrs, k, b);
    }
  }

  class Reorderer {
    const blocks: seq<Block>
    const done: array<bool>
    const ids: array<nat>        // the labels the blocks carry
    ghost var order: seq<nat>

    constructor (blocks: seq<Block>)
      ensures this.blocks == blocks && fresh(done) && fresh(ids) && done.Length == ids.Length == |blocks|
      ensures (forall l :: 0 <= l < |blocks| ==> !done[l]) && order == []
    {
      this.blocks := blocks;
      done := new bool[|blocks|](_ => false);
      ids := new nat[|blocks|](l => l);
      order := [];
    }

    ghost predicate Valid(todo: seq<nat>, due: set<nat>)
      reads this, done, ids
    {
      && WellFormed(blocks)
      && Ordered(blocks, done[..], ids[..], order)
      && Followed(blocks, done[..], todo, due)
      && forall l :: l in todo ==> l < |blocks|
    }

    ghost function Undone(): set<nat>
      reads done
    {
      set l: nat | l < done.Length && !done[l]
    }

    /** Puts the procedures a block mentions on the list; the compiler keeps the
        instructions last one first. */
    method ListProcedures(b: Block, todo0: seq<nat>) returns (todo: seq<nat>)
      ensures todo == ProcedureRefs(b.body + [b.jump]) + todo0
    {
      hide Listed, ProcedureRefs;
      var instrs := b.body + [b.jump];
      todo := todo0;
      AllListed(instrs, todo0);
      for k := |instrs| downto 0
        invariant todo == Listed(instrs, k, todo0)
      {
        OneMoreListed(instrs, k, todo0);
        match instrs[k] {
          case Closure(l) => todo := [l] + todo;
          case CallToplevel(l) => todo := [l] + todo;
          case JumpToplevel(l) => todo := [l] + todo;
          case _ =>
        }
      }
    }

    method ScheduleHere(l: nat, newLabel: nat, todo: seq<nat>) returns (newLabel': nat, todo': seq<nat>)
      requires Valid(todo, {l}) && l < |blocks| && !done[l] && newLabel == |order|
      modifies done, ids, `order
      ensures Valid(todo', {}) && newLabel' == |order|
      ensures done[l] && Undone() < old(Undone())
      ensures old(order) <= order && order[|old(order)|] == l
      decreases Undone()
    {
      ScheduledOne(blocks, done[..], ids[..], order, todo, l);
      ListedInRange(blocks, l);
      var newTodo := ListProcedures(blocks[l], todo);
      ids[l] := newLabel;
      done[l] := true;
      order := order + [l];
      assert l in old(Undone()) && l !in Undone();
      var jump := blocks[l].jump;
      assert WellFormedBlock(blocks[l], |blocks|);
      if jump.Goto? && !done[jump.to] {
        newLabel', todo' := ScheduleHere(jump.to, newLabel + 1, newTodo);
      } else if jump.GotoIfFalse? && !done[jump.ifTrue] {
        newLabel', todo' := ScheduleHere(jump.ifTrue, newLabel + 1, [jump.ifFalse] + newTodo);
      } else if jump.GotoIfFalse? && !done[jump.ifFalse] {
        newLabel', todo' := ScheduleHere(jump.ifFalse, newLabel + 1, newTodo);
      } else {
        newLabel', todo' := newLabel + 1, newTodo;
      }
    }

    /** The rest of the list, until nothing waits. */
    method ScheduleTodo(newLabel0: nat, todo0: seq<nat>) returns (newLabel: nat)
      requires Valid(todo0, {}) && newLabel0 == |order|
      modifies done, ids, `order
      ensures Valid([], {}) && newLabel == |order| && old(order) <= order
    {
      newLabel := newLabel0;
      var todo := todo0;
      while todo != []
        invariant Valid(todo, {}) && newLabel == |order| && old(order) <= order
        decreases Undone(), |todo|
      {
        var l := todo[0];
        Dropped(todo);
        assert l in todo;
        if done[l] {
          todo := todo[1..];
        } else {
          newLabel, todo := ScheduleHere(l, newLabel, todo[1..]);
        }
      }
    }
  }

  lemma Dropped(todo: seq<nat>)
    requires todo != []
    ensures forall b :: b in todo <==> b == todo[0] || b in todo[1..]
  {
    assert todo == [todo[0]] + todo[1..];
  }

  lemma ListedInRange(blocks: seq<Block>, l: nat)
    requires WellFormed(blocks) && l < |blocks|
    ensures forall b :: b in ProcedureRefs(blocks[l].body + [blocks[l].jump]) ==> b < |blocks|
  {
    var instrs := blocks[l].body + [blocks[l].jump];
    assert WellFormedBlock(blocks[l], |blocks|);
    forall b | b in ProcedureRefs(instrs)
      ensures b < |blocks|
    {
      ListedIsMentioned(instrs, b);
      var k :| 0 <= k < |instrs| && b in instrs[k].Refs();
      assert InRange(instrs[k], |blocks|);
    }
  }

  lemma OrderIsPermutation(blocks: seq<Block>, done: seq<bool>, ids: seq<nat>, order: seq<nat>)
    requires Ordered(blocks, done, ids, order) && forall l :: 0 <= l < |blocks| ==> done[l]
    ensures |order| == |blocks|
    ensures Injective(ids, All(|blocks|)) && forall x: nat :: x < |blocks| ==> Taken(ids, All(|blocks|), x)
  {
    var labels := set l | l in order;
    assert labels == All(|blocks|) by {
      forall l: nat | l < |blocks|
        ensures l in labels
      {
        assert order[ids[l]] == l;
      }
    }
    assert forall x, y :: 0 <= x < y < |order| ==> order[x] != order[y];
    DistinctCount(order, labels);
    AllCount(|blocks|);
    forall x: nat | x < |blocks|
      ensures Taken(ids, All(|blocks|), x)
    {
      assert order[x] in All(|blocks|) && NewLabel(ids, order[x]) == x;
    }
  }

  lemma {:induction false} DistinctCount(order: seq<nat>, labels: set<nat>)
    requires forall l :: l in labels <==> l in order
    requires forall x, y :: 0 <= x < y < |order| ==> order[x] != order[y]
    ensures |labels| == |order|
  {
    if order == [] {
      assert labels == {};
    } else {
      var last, init := order[|order|-1], order[..|order|-1];
      assert order == init + [last];
      DistinctCount(init, labels - {last});
      assert |labels| == |labels - {last}| + 1;
    }
  }

  lemma OneMore(labels: set<nat>, l: nat)
    requires l !in labels
    ensures |labels + {l}| == |labels| + 1
  {
  }

  lemma {:induction false} AllCount(n: nat)
    ensures |All(n)| == n
  {
    if n > 0 {
      AllCount(n - 1);
      OneMore(All(n - 1), n - 1);
    }
  }

  /** All blocks under their new labels. */
  method RenumberAll(blocks: seq<Block>, ids: seq<nat>) returns (blocks': seq<Block>)
    requires WellFormed(blocks) && |ids| == |blocks| && ids[0] == 0
    requires Injective(ids, All(|blocks|)) && forall x: nat :: x < |blocks| ==> Taken(ids, All(|blocks|), x)
    requires forall l :: 0 <= l < |ids| ==> ids[l] < |blocks|
    ensures |blocks'| == |blocks| && Renumbered(blocks, All(|blocks|), ids, blocks')
  {
    var vector := seq(|blocks|, l requires 0 <= l < |blocks|
      && |ids| == |blocks| => Block(ids[l], blocks[l].body, blocks[l].jump));
    assert Ids(vector) == ids;
    AllKept(blocks);
    PermutationIsDistinct(ids, |blocks|);
    blocks' := RenumberLabels(vector, seq(|blocks|, _ => 1), |blocks|);
    assert forall l :: l in All(|blocks|) ==>
           blocks'[ids[l]] == FixBlock(ids, l, vector[l]) == FixBlock(ids, l, blocks[l]);
  }

  /** The blocks under new labels, each exactly once and block 0 still first. */
  method Reorder(blocks: seq<Block>) returns (blocks': seq<Block>, ghost ids: seq<nat>)
    requires WellFormed(blocks) && forall l: nat :: l < |blocks| ==> Reachable(blocks, l)
    ensures |blocks'| == |blocks| && Renumbered(blocks, All(|blocks|), ids, blocks')
    ensures WellFormed(blocks') && forall l: nat :: l < |blocks'| ==> Reachable(blocks', l)
  {
    hide Renumbered, Reachable;
    var r := new Reorderer(blocks);
    var next, todo := r.ScheduleHere(0, 0, []);
    next := r.ScheduleTodo(next, todo);
    ids := r.ids[..];
    AllScheduled(blocks, r.done[..]);
    OrderIsPermutation(blocks, r.done[..], ids, r.order);
    blocks' := RenumberAll(blocks, r.ids[..]);
    RenumberedIsWellFormed(blocks, All(|blocks|), ids, blocks');
    RenumberedIsReachable(blocks, All(|blocks|), ids, blocks');
  }

  lemma AllScheduled(blocks: seq<Block>, done: seq<bool>)
    requires WellFormed(blocks) && Followed(blocks, done, [], {}) && done[0] && forall l: nat :: l < |blocks| ==>
             Reachable(blocks, l)
    ensures forall l :: 0 <= l < |blocks| ==> done[l]
  {
    var labels := set l: nat | l < |blocks| && done[l];
    AllKept(blocks);
    forall l: nat | l < |blocks|
      ensures done[l]
    {
      ClosedHoldsReachable(blocks, labels, l);
    }
  }

  lemma PermutationIsDistinct(ids: seq<nat>, n: nat)
    requires |ids| == n && Injective(ids, All(n))
    ensures forall a, b :: 0 <= a < b < n ==> ids[a] != ids[b]
  {
    forall a: nat, b: nat | a < b < n
      ensures ids[a] != ids[b]
    {
      assert a in All(n) && b in All(n) && NewLabel(ids, a) == ids[a];
    }
  }
}
