/** The back end of the compiler: shake the tree of blocks, put them in order,
    put them in line. */
module BackEnd {
  import opened Blocks
  import opened LinearCode
  import opened Renumbering
  import TreeShaker
  import Reordering
  import Linearizer

  /** A machine in which labels can be renamed both times. */
  ghost predicate Renames<S(!new)>(m: Machine<S>, ids: seq<nat>, ids': seq<nat>, rename: S -> S, rename': S -> S) {
    Sane(m) && Opaque(m, ids, rename) && Opaque(m, ids', rename')
  }

  /** The linear code, started with data that hold no code addresses, ends as
      the blocks do. */
  ghost predicate RunsAs<S(!new)>(m: Machine<S>, blocks: seq<Block>, code: seq<Line>, at: seq<nat>, rename: S -> S,
      start: S) {
    && (forall end :: EndsWith(m, blocks, start, end) ==> LinesEndWith(m, code, at, rename(start), rename(end)))
    && (forall end' :: LinesEndWith(m, code, at, rename(start), end') ==>
          exists end :: EndsWith(m, blocks, start, end) && end' == rename(end))
  }

  /** The three results fit together. */
  ghost predicate Chained(blocks: seq<Block>, kept: set<nat>, ids: seq<nat>, shaken: seq<Block>, ids': seq<nat>,
      ordered: seq<Block>, code: seq<Line>, at: seq<nat>) {
    && Renumbered(blocks, kept, ids, shaken)
    && WellFormed(shaken) && Renumbered(shaken, All(|shaken|), ids', ordered) && |ordered| == |shaken|
    && WellFormed(ordered) && Laid(code, at, ordered) && at[0] == 0
  }

  lemma NoLabelsRenamed<S(!new)>(m: Machine<S>, ids: seq<nat>, rename: S -> S, s: S)
    requires Opaque(m, ids, rename) && m.labels(s) == {}
    ensures m.labels(rename(s)) == {}
  {
  }

  lemma ChainForwards<S(!new)>(m: Machine<S>, blocks: seq<Block>, kept: set<nat>, ids: seq<nat>, shaken: seq<Block>,
      ids': seq<nat>, ordered: seq<Block>, code: seq<Line>, at: seq<nat>, rename: S -> S, rename': S -> S, start: S,
      end: S)
    requires Chained(blocks, kept, ids, shaken, ids', ordered, code, at) && Renames(m, ids, ids', rename, rename')
    requires m.labels(start) == {} && EndsWith(m, blocks, start, end)
    ensures LinesEndWith(m, code, at, rename'(rename(start)), rename'(rename(end)))
  {
    NoLabelsRenamed(m, ids, rename, start);
    NoLabelsRenamed(m, ids', rename', rename(start));
    SameEndsRenamed(m, blocks, kept, ids, shaken, rename, start);
    SameEndsRenamed(m, shaken, All(|shaken|), ids', ordered, rename', rename(start));
    SameEnds(m, ordered, code, at, rename'(rename(start)), rename'(rename(end)));
  }

  lemma ChainBackwards<S(!new)>(m: Machine<S>, blocks: seq<Block>, kept: set<nat>, ids: seq<nat>, shaken: seq<Block>,
      ids': seq<nat>, ordered: seq<Block>, code: seq<Line>, at: seq<nat>, rename: S -> S, rename': S -> S, start: S,
      end': S)
    requires Chained(blocks, kept, ids, shaken, ids', ordered, code, at) && Renames(m, ids, ids', rename, rename')
    requires m.labels(start) == {} && LinesEndWith(m, code, at, rename'(rename(start)), end')
    ensures exists end :: EndsWith(m, blocks, start, end) && end' == rename'(rename(end))
  {
    NoLabelsRenamed(m, ids, rename, start);
    NoLabelsRenamed(m, ids', rename', rename(start));
    SameEnds(m, ordered, code, at, rename'(rename(start)), end');
    SameEndsRenamed(m, shaken, All(|shaken|), ids', ordered, rename', rename(start));
    var middle :| EndsWith(m, shaken, rename(start), middle) && end' == rename'(middle);
    SameEndsRenamed(m, blocks, kept, ids, shaken, rename, start);
    var end :| EndsWith(m, blocks, start, end) && middle == rename(end);
  }

  /** Whatever the blocks are, on every machine the code ends exactly as they do. */
  lemma CodeRunsAsBlocks<S(!new)>(m: Machine<S>, blocks: seq<Block>, kept: set<nat>, ids: seq<nat>,
      shaken: seq<Block>, ids': seq<nat>, ordered: seq<Block>, code: seq<Line>, at: seq<nat>, rename: S -> S,
      rename': S -> S, start: S)
    requires Chained(blocks, kept, ids, shaken, ids', ordered, code, at) && Renames(m, ids, ids', rename, rename')
    requires m.labels(start) == {}
    ensures RunsAs(m, blocks, code, at, s => rename'(rename(s)), start)
  {
    var both := s => rename'(rename(s));
    forall end | EndsWith(m, blocks, start, end)
      ensures LinesEndWith(m, code, at, both(start), both(end))
    {
      ChainForwards(m, blocks, kept, ids, shaken, ids', ordered, code, at, rename, rename', start, end);
    }
    forall end' | LinesEndWith(m, code, at, both(start), end')
      ensures exists end :: EndsWith(m, blocks, start, end) && end' == both(end)
    {
      ChainBackwards(m, blocks, kept, ids, shaken, ids', ordered, code, at, rename, rename', start, end');
    }
  }

  /** All passes in a row. Every block that can be reached from block 0 is put in
      line exactly once, and no other. */
  method Compile(blocks: seq<Block>)
    returns (code: seq<Line>, ghost kept: set<nat>, ghost ids: seq<nat>, ghost shaken: seq<Block>, ghost ids': seq<nat>,
            ghost ordered: seq<Block>, ghost at: seq<nat>)
    requires WellFormed(blocks)
    ensures forall l: nat :: l in kept <==> Reachable(blocks, l)
    ensures Chained(blocks, kept, ids, shaken, ids', ordered, code, at) && DrawnFrom(ordered, code)
  {
    var b, k, i := TreeShaker.RemoveUseless(blocks);
    kept, ids, shaken := k, i, b;
    var b', i' := Reordering.Reorder(b);
    ids', ordered := i', b';
    code, at := Linearizer.Linearize(b');
  }
}
