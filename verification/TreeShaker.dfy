/** Leaving out the blocks that nothing refers to. */
module TreeShaker {
  import opened Blocks
  import opened Renumbering

  function Used(counts: seq<nat>): (labels: set<nat>)
    ensures forall l: nat :: l in labels <==> l < |counts| && counts[l] > 0
  {
    set l: nat | l < |counts| && counts[l] > 0
  }

  /** Between two moments of the visit: counts have only grown, and every block
      counted since is reachable and has had all it mentions counted. */
  ghost predicate Explored(blocks: seq<Block>, before: seq<nat>, after: seq<nat>) {
    && |before| == |after| == |blocks|
    && (forall l :: 0 <= l < |before| ==> before[l] <= after[l])
    && (forall l: nat :: l < |before| && before[l] == 0 < after[l] ==> Reachable(blocks, l))
    && (forall a: nat, b: nat :: Mentions(blocks, a, b) && before[a] == 0 < after[a] ==> b < |after| && after[b] > 0)
  }

  lemma ExploredOnwards(blocks: seq<Block>, before: seq<nat>, middle: seq<nat>, after: seq<nat>)
    requires Explored(blocks, before, middle) && Explored(blocks, middle, after)
    ensures Explored(blocks, before, after)
  {
    forall a: nat, b: nat | Mentions(blocks, a, b) && before[a] == 0 < after[a]
      ensures b < |after| && after[b] > 0
    {
      if middle[a] > 0 {
        assert b < |middle| && middle[b] > 0;
      }
    }
  }

  /** All labels the first k instructions of the reversed block mention are
      counted. */
  ghost predicate CountedUpTo(instrs: seq<Instr>, k: nat, counts: seq<nat>)
    requires k <= |instrs|
  {
    forall i, l :: 0 <= i < k && l in instrs[i].Refs() ==> l < |counts| && counts[l] > 0
  }

  lemma CountedMore(blocks: seq<Block>, instrs: seq<Instr>, k: nat, before: seq<nat>, after: seq<nat>)
    requires k < |instrs| && CountedUpTo(instrs, k, before) && Explored(blocks, before, after)
    requires forall r :: r in instrs[k].Refs() ==> r < |after| && after[r] > 0
    ensures CountedUpTo(instrs, k + 1, after)
  {
    forall i, l | 0 <= i < k + 1 && l in instrs[i].Refs()
      ensures l < |after| && after[l] > 0
    {
      if i < k {
        assert before[l] <= after[l];
      }
    }
  }

  /** The instructions of a block as the compiler keeps them, last one first. */
  function Reversed(b: Block): (instrs: seq<Instr>)
    ensures |instrs| == |b.body| + 1 && instrs[0] == b.jump
    ensures forall k :: 0 < k < |instrs| ==> instrs[k] == b.body[|b.body| - k]
  {
    [b.jump] + seq(|b.body|, k requires 0 <= k < |b.body| => b.body[|b.body| - 1 - k])
  }

  lemma MentionsReversed(blocks: seq<Block>, a: nat, b: nat)
    requires a < |blocks|
    ensures Mentions(blocks, a, b) <==> exists k :: 0 <= k < |Reversed(blocks[a])| && b in Reversed(blocks[a])[k].Refs()
  {
    var body, instrs := blocks[a].body, Reversed(blocks[a]);
    if Mentions(blocks, a, b) && b !in blocks[a].jump.Refs() {
      var k :| 0 <= k < |body| && b in body[k].Refs();
      assert instrs[|body| - k] == body[k];
    }
    if k :| 0 <= k < |instrs| && b in instrs[k].Refs() {
      if k > 0 {
        assert instrs[k] == body[|body| - k];
      }
    }
  }

  lemma OwnMentionsCounted(blocks: seq<Block>, l: nat, counts: seq<nat>, b: nat)
    requires Mentions(blocks, l, b) && CountedUpTo(Reversed(blocks[l]), |Reversed(blocks[l])|, counts)
    ensures b < |counts| && counts[b] > 0
  {
    MentionsReversed(blocks, l, b);
    var instrs := Reversed(blocks[l]);
    var k :| 0 <= k < |instrs| && b in instrs[k].Refs();
    CountedAt(instrs, k, counts, b);
  }

  lemma CountedAt(instrs: seq<Instr>, k: nat, counts: seq<nat>, b: nat)
    requires k < |instrs| && b in instrs[k].Refs() && CountedUpTo(instrs, |instrs|, counts)
    ensures b < |counts| && counts[b] > 0
  {
  }

  lemma BlockExplored(blocks: seq<Block>, l: nat, before: seq<nat>, after: seq<nat>)
    requires l < |blocks| == |before| && before[l] == 0 && Reachable(blocks, l)
    requires Explored(blocks, before[l := 1], after) && CountedUpTo(Reversed(blocks[l]), |Reversed(blocks[l])|, after)
    ensures Explored(blocks, before, after)
  {
    forall a: nat, b: nat | Mentions(blocks, a, b) && before[a] == 0 < after[a]
      ensures b < |after| && after[b] > 0
    {
      if a == l {
        OwnMentionsCounted(blocks, l, after, b);
      } else {
        assert before[l := 1][a] == 0;
      }
    }
  }

  class TreeShaker {
    const blocks: seq<Block>
    const refCounts: array<nat>

    constructor (blocks: seq<Block>)
      ensures this.blocks == blocks && fresh(refCounts) && refCounts.Length == |blocks|
      ensures forall l :: 0 <= l < |blocks| ==> refCounts[l] == 0
    {
      this.blocks := blocks;
      refCounts := new nat[|blocks|](_ => 0);
    }

    ghost predicate Valid()
      reads this
    {
      WellFormed(blocks) && refCounts.Length == |blocks|
    }

    ghost function Unvisited(): (labels: set<nat>)
      reads this, refCounts
    {
      set l: nat | l < refCounts.Length && refCounts[l] == 0
    }

    method Visit(l: nat)
      requires Valid() && l < |blocks| && Reachable(blocks, l)
      modifies refCounts
      ensures Explored(blocks, old(refCounts[..]), refCounts[..]) && refCounts[l] > 0
      decreases Unvisited(), 0
    {
      ghost var before := refCounts[..];
      var refCount := refCounts[l];
      refCounts[l] := refCount + 1;
      if refCount == 0 {
        ghost var start := refCounts[..];
        assert start == before[l := 1];
        assert l in old(Unvisited()) && l !in Unvisited();
        var instrs := Reversed(blocks[l]);
        hide CountedUpTo, Mentions;
        for k := 0 to |instrs|
          invariant Explored(blocks, start, refCounts[..])
          invariant Unvisited() < old(Unvisited())
          invariant CountedUpTo(instrs, k, refCounts[..])
        {
          ghost var middle := refCounts[..];
          InstrAt(l, k);
          VisitInstr(instrs[k]);
          ExploredOnwards(blocks, start, middle, refCounts[..]);
          CountedMore(blocks, instrs, k, middle, refCounts[..]);
        }
        BlockExplored(blocks, l, before, refCounts[..]);
      }
    }

    lemma InstrAt(l: nat, k: nat)
      requires Valid() && l < |blocks| && Reachable(blocks, l) && k < |Reversed(blocks[l])|
      ensures var i := Reversed(blocks[l])[k];
              InRange(i, |blocks|) && forall r :: r in i.Refs() ==> Reachable(blocks, r)
    {
      var i := Reversed(blocks[l])[k];
      assert WellFormedBlock(blocks[l], |blocks|);
      forall r | r in i.Refs()
        ensures Reachable(blocks, r)
      {
        MentionsReversed(blocks, l, r);
        ReachableNext(blocks, l, r);
      }
    }

    method VisitInstr(i: Instr)
      requires Valid() && InRange(i, |blocks|) && forall r :: r in i.Refs() ==> Reachable(blocks, r)
      modifies refCounts
      ensures Explored(blocks, old(refCounts[..]), refCounts[..])
      ensures forall r :: r in i.Refs() ==> r < |blocks| && refCounts[r] > 0
      decreases Unvisited(), 1
    {
      match i {
        case Goto(l) =>
          assert l in i.Refs();
          Visit(l);
        case GotoIfFalse(f, t) =>
          assert f in i.Refs() && t in i.Refs();
          Visit(f);
          ghost var middle := refCounts[..];
          assert Unvisited() <= old(Unvisited());
          Visit(t);
          ExploredOnwards(blocks, old(refCounts[..]), middle, refCounts[..]);
        case Closure(l) =>
          assert l in i.Refs();
          Visit(l);
        case CallToplevel(l) =>
          assert l in i.Refs();
          Visit(l);
        case JumpToplevel(l) =>
          assert l in i.Refs();
          Visit(l);
        case Plain(_) =>
        case Exit(_) =>
      }
    }
  }

  /** The blocks counted are the reachable ones. */
  method RefCounts(blocks: seq<Block>) returns (counts: seq<nat>)
    requires WellFormed(blocks)
    ensures |counts| == |blocks| && Kept(blocks, Used(counts))
    ensures forall l: nat :: l in Used(counts) <==> Reachable(blocks, l)
  {
    var shaker := new TreeShaker(blocks);
    ReachableStart(blocks);
    shaker.Visit(0);
    counts := shaker.refCounts[..];
    forall l: nat | Reachable(blocks, l)
      ensures l in Used(counts)
    {
      ClosedHoldsReachable(blocks, Used(counts), l);
    }
  }

  /** How many of the first l blocks are used. */
  function Rank(counts: seq<nat>, l: nat): nat
    requires l <= |counts|
  {
    if l == 0 then 0 else Rank(counts, l - 1) + if counts[l-1] > 0 then 1 else 0
  }

  lemma {:induction false} RankGrows(counts: seq<nat>, a: nat, b: nat)
    requires a <= b <= |counts|
    ensures Rank(counts, a) <= Rank(counts, b)
    ensures a < b && counts[a] > 0 ==> Rank(counts, a) < Rank(counts, b)
  {
    if a < b {
      RankGrows(counts, a, b - 1);
    }
  }

  lemma {:induction false} RankTaken(counts: seq<nat>, n: nat, x: nat)
    requires n <= |counts| && x < Rank(counts, n)
    ensures exists l: nat :: l < n && counts[l] > 0 && Rank(counts, l) == x
  {
    if Rank(counts, n - 1) > x {
      RankTaken(counts, n - 1, x);
    } else {
      assert Rank(counts, n - 1) == x && counts[n-1] > 0;
    }
  }

  ghost predicate Ranked(blocks: seq<Block>, counts: seq<nat>, n: nat, vector: seq<Block>)
    requires n <= |blocks| == |counts|
  {
    && |vector| == |blocks|
    && forall k :: 0 <= k < n && counts[k] > 0 ==> vector[k] == Block(Rank(counts, k), blocks[k].body, blocks[k].jump)
  }

  /** Gives the blocks in use their new labels, in order. */
  method NumberUsed(blocks: seq<Block>, counts: seq<nat>) returns (vector: seq<Block>, next: nat)
    requires |blocks| == |counts|
    ensures Ranked(blocks, counts, |blocks|, vector) && next == Rank(counts, |counts|)
  {
    vector, next := blocks, 0;
    for l := 0 to |blocks|
      invariant next == Rank(counts, l)
      invariant Ranked(blocks, counts, l, vector)
      invariant vector[l..] == blocks[l..]
    {
      assert vector[l] == vector[l..][0] == blocks[l];
      assert vector[l + 1..] == vector[l..][1..] == blocks[l + 1..];
      if counts[l] > 0 {
        vector := vector[l := Block(next, vector[l].body, vector[l].jump)];
        next := next + 1;
      }
    }
  }

  /** The reachable blocks, and no others, in their old order. */
  method RemoveUseless(blocks: seq<Block>) returns (blocks': seq<Block>, ghost kept: set<nat>, ghost ids: seq<nat>)
    requires WellFormed(blocks)
    ensures Renumbered(blocks, kept, ids, blocks')
    ensures forall l: nat :: l in kept <==> Reachable(blocks, l)
    ensures WellFormed(blocks') && forall x: nat :: x < |blocks'| ==> Reachable(blocks', x)
  {
    var counts := RefCounts(blocks);
    kept := Used(counts);
    ReachableStart(blocks);
    var vector, n := NumberUsed(blocks, counts);
    ids := Ids(vector);
    RanksFit(counts);
    blocks' := RenumberLabels(vector, counts, n);
    RanksRenumber(blocks, vector, counts, ids, blocks');
    RenumberedIsWellFormed(blocks, kept, ids, blocks');
    RenumberedIsReachable(blocks, kept, ids, blocks');
  }

  lemma RanksFit(counts: seq<nat>)
    ensures forall l: nat :: l < |counts| && counts[l] > 0 ==> Rank(counts, l) < Rank(counts, |counts|)
    ensures forall a: nat, b: nat :: a < b < |counts| && counts[a] > 0 && counts[b] > 0 ==>
            Rank(counts, a) != Rank(counts, b)
  {
    forall l: nat | l < |counts| && counts[l] > 0
      ensures Rank(counts, l) < Rank(counts, |counts|)
    {
      RankGrows(counts, l, |counts|);
    }
    forall a: nat, b: nat | a < b < |counts| && counts[a] > 0 && counts[b] > 0
      ensures Rank(counts, a) != Rank(counts, b)
    {
      RankGrows(counts, a, b);
    }
  }

  lemma RanksRenumber(blocks: seq<Block>, vector: seq<Block>, counts: seq<nat>, ids: seq<nat>, blocks': seq<Block>)
    requires |blocks| == |counts| && |vector| == |blocks| && ids == Ids(vector) && Kept(blocks, Used(counts))
             && 0 in Used(counts)
    requires Ranked(blocks, counts, |blocks|, vector)
    requires |blocks'| == Rank(counts, |counts|)
    requires forall l :: 0 <= l < |blocks| && counts[l] > 0 ==>
               vector[l].id < |blocks'| && blocks'[vector[l].id] == FixBlock(ids, l, vector[l])
    ensures Renumbered(blocks, Used(counts), ids, blocks')
  {
    RanksFit(counts);
    forall x: nat | x < |blocks'|
      ensures Taken(ids, Used(counts), x)
    {
      RankTaken(counts, |counts|, x);
      var l: nat :| l < |counts| && counts[l] > 0 && Rank(counts, l) == x;
      assert l in Used(counts) && NewLabel(ids, l) == x;
    }
    forall l | l in Used(counts)
      ensures ids[l] < |blocks'| && blocks'[ids[l]] == FixBlock(ids, l, blocks[l])
    {
      assert vector[l] == Block(Rank(counts, l), blocks[l].body, blocks[l].jump);
    }
  }
}
