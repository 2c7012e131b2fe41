/** Puts the blocks of a program in a line, so that as many as possible fall
    through to the next one. */
module Linearizer {
  import opened Wrappers
  import opened Blocks
  import opened LinearCode

  datatype Entry = Entry(id: nat, pos: nat)

  ghost predicate Waiting(todo: seq<Entry>, l: nat) {
    exists k :: 0 <= k < |todo| && todo[k].id == l
  }

  /** The first label on the list that is not done yet. */
  function NextOf(todo: seq<Entry>, dumped: seq<bool>): Option<nat>
    requires forall k :: 0 <= k < |todo| ==> todo[k].id < |dumped|
  {
    if todo == [] then None
    else if !dumped[todo[0].id] then Some(todo[0].id)
    else NextOf(todo[1..], dumped)
  }

  lemma {:induction false} NextIsWaiting(todo: seq<Entry>, dumped: seq<bool>)
    requires forall k :: 0 <= k < |todo| ==> todo[k].id < |dumped|
    ensures NextOf(todo, dumped).Some? ==>
            Waiting(todo, NextOf(todo, dumped).value) && !dumped[NextOf(todo, dumped).value]
    ensures NextOf(todo, dumped).None? ==> forall k :: 0 <= k < |todo| ==> dumped[todo[k].id]
  {
    if todo != [] && dumped[todo[0].id] {
      NextIsWaiting(todo[1..], dumped);
      assert forall k :: 0 < k < |todo| ==> todo[k] == todo[1..][k-1];
      if NextOf(todo, dumped).Some? {
        var k :| 0 <= k < |todo[1..]| && todo[1..][k].id == NextOf(todo, dumped).value;
        assert todo[k+1].id == NextOf(todo, dumped).value;
      }
    } else if todo != [] {
      assert todo[0].id == todo[0].id;
    }
  }

  /** The lines of a block before its end. */
  function Lines(l: nat, body: seq<Instr>): (lines: seq<Line>)
    ensures |lines| == 1 + |body| && lines[0] == Mark(l)
    ensures forall k :: 0 <= k < |body| ==> lines[1 + k] == Do(body[k])
  {
    [Mark(l)] + seq(|body|, k requires 0 <= k < |body| => Do(body[k]))
  }

  lemma OneLineMore(l: nat, body: seq<Instr>, k: nat)
    requires k < |body|
    ensures Lines(l, body)[..2 + k] == Lines(l, body)[..1 + k] + [Do(body[k])]
  {
  }

  /** A block's end may still wait for the mark it falls through to, which then
      is to be the next line of the code. */
  ghost predicate TailUpTo(code: seq<Line>, q: nat, jump: Instr, due: Option<nat>) {
    TailAt(if due.Some? then code + [Mark(due.value)] else code, q, jump)
  }

  ghost predicate PartAt(code: seq<Line>, p: nat, l: nat, b: Block, due: Option<nat>) {
    && p + |b.body| < |code|
    && code[p] == Mark(l)
    && (forall k :: 0 <= k < |b.body| ==> code[p + 1 + k] == Do(b.body[k]))
    && TailUpTo(code, p + 1 + |b.body|, b.jump, due)
  }

  lemma PartGrows(code: seq<Line>, more: seq<Line>, p: nat, l: nat, b: Block, due: Option<nat>, due': Option<nat>)
    requires PartAt(code, p, l, b, due)
    requires due.Some? ==> more != [] && more[0] == Mark(due.value)
    ensures PartAt(code + more, p, l, b, due')
  {
    var code' := if due.Some? then code + [Mark(due.value)] else code;
    var q := p + 1 + |b.body|;
    assert forall i :: 0 <= i < |code'| ==> (code + more)[i] == code'[i];
  }

  /** The lines that end a block, and the label it falls through to: whatever is
      next on the list can be fallen through to. */
  function Ending(jump: Instr, next: Option<nat>): (seq<Line>, Option<nat>) {
    match jump
    case Goto(l) => if next == Some(l) then ([], next) else ([Do(jump)], None)
    case GotoIfFalse(f, t) =>
      if next == Some(t) then ([BranchIfFalse(f)], next)
      else if next == Some(f) then ([Negate, BranchIfFalse(t)], next)
      else ([BranchIfFalse(f), Do(Goto(t))], None)
    case _ => ([Do(jump)], None)
  }

  lemma BlockEmitted(code: seq<Line>, l: nat, b: Block, next: Option<nat>)
    requires b.jump.IsJump()
    ensures var (end, due) := Ending(b.jump, next); PartAt(code + Lines(l, b.body) + end, |code|, l, b, due)
  {
    var (end, due) := Ending(b.jump, next);
    var lines := Lines(l, b.body);
    var code' := code + lines + end;
    var q := |code| + 1 + |b.body|;
    assert forall k :: 0 <= k < |lines| ==> code'[|code| + k] == lines[k];
    assert forall k :: 0 <= k < |end| ==> code'[q + k] == end[k];
  }

  lemma BlockIsDrawn(blocks: seq<Block>, code: seq<Line>, l: nat, next: Option<nat>)
    requires WellFormed(blocks) && l < |blocks| && DrawnFrom(blocks, code)
    ensures DrawnFrom(blocks, code + Lines(l, blocks[l].body) + Ending(blocks[l].jump, next).0)
  {
    var b, end := blocks[l], Ending(blocks[l].jump, next).0;
    assert WellFormedBlock(b, |blocks|);
    forall k | 0 <= k < |b.body|
      ensures LineFrom(blocks, Do(b.body[k]))
    {
      assert b.body[k].InBody() && Drawn(blocks, b.body[k]);
    }
    var lines := Lines(l, b.body);
    assert forall k :: 0 < k < |lines| ==> lines[k] == Do(b.body[k - 1]);
    assert Drawn(blocks, b.jump);
    assert DrawnFrom(blocks, lines) && DrawnFrom(blocks, end);
  }

  /** Blocks not done yet. */
  function Left(dumped: seq<bool>): nat {
    if dumped == [] then 0 else (if dumped[0] then 0 else 1) + Left(dumped[1..])
  }

  lemma {:induction false} OneLess(dumped: seq<bool>, l: nat)
    requires l < |dumped| && !dumped[l]
    ensures Left(dumped[l := true]) < Left(dumped)
  {
    if l > 0 {
      OneLess(dumped[1..], l - 1);
      assert dumped[l := true][1..] == dumped[1..][l - 1 := true];
    } else {
      assert dumped[0 := true][1..] == dumped[1..];
    }
  }

  /** Every mark stands where its label is. */
  ghost predicate MarksAt(code: seq<Line>, at: map<nat, nat>) {
    forall q :: 0 <= q < |code| && code[q].Mark? ==> code[q].id in at && at[code[q].id] == q
  }

  /** Every block that is done stands where its label is, but for a tail that is
      due, and there are no other marks. */
  ghost predicate Built(blocks: seq<Block>, code: seq<Line>, at: map<nat, nat>, due: Option<nat>) {
    && (forall l: nat :: l in at ==> l < |blocks| && PartAt(code, at[l], l, blocks[l], due))
    && MarksAt(code, at)
  }

  /** What is mentioned by a block that is done is done itself or waits. */
  ghost predicate Followed(blocks: seq<Block>, at: map<nat, nat>, todo: seq<Entry>) {
    forall a: nat, b: nat :: Mentions(blocks, a, b) && a in at ==> b in at || Waiting(todo, b)
  }

  /** The state of the linearizer between two blocks. */
  ghost predicate Inv(blocks: seq<Block>, code: seq<Line>, todo: seq<Entry>, dumped: seq<bool>, at: map<nat, nat>,
      due: Option<nat>) {
    && WellFormed(blocks) && DoneAre(|blocks|, dumped, at)
    && (forall k :: 0 <= k < |todo| ==> todo[k].id < |blocks|)
    && Built(blocks, code, at, due)
    && Followed(blocks, at, todo)
    && (if code == [] then at == map[] && todo == [Entry(0, 0)] else 0 in at && at[0] == 0)
    && (due.Some? ==> NextOf(todo, dumped) == due)
  }

  lemma {:induction false} WaitingGrows(todo: seq<Entry>, before: seq<Entry>, after: seq<Entry>, l: nat)
    ensures Waiting(todo, l) ==> Waiting(before + todo + after, l)
    ensures forall k :: 0 <= k < |before| ==> Waiting(before + todo + after, before[k].id)
    ensures forall k :: 0 <= k < |after| ==> Waiting(before + todo + after, after[k].id)
  {
    var all := before + todo + after;
    if k :| 0 <= k < |todo| && todo[k].id == l {
      assert all[|before| + k] == todo[k];
    }
    forall k | 0 <= k < |before|
      ensures Waiting(all, before[k].id)
    {
      assert all[k] == before[k];
    }
    forall k | 0 <= k < |after|
      ensures Waiting(all, after[k].id)
    {
      assert all[|before| + |todo| + k] == after[k];
    }
  }

  class Linearizer {
    const blocks: seq<Block>
    const dumped: array<bool>
    var code: seq<Line>
    var todo: seq<Entry>
    ghost var at: map<nat, nat>

    constructor (blocks: seq<Block>)
      requires WellFormed(blocks)
      ensures fresh(dumped) && this.blocks == blocks && code == []
      ensures Inv(blocks, code, todo, dumped[..], at, None)
    {
      this.blocks := blocks;
      dumped := new bool[|blocks|](_ => false);
      code, at := [], map[];
      todo := [Entry(0, 0)];
    }

    ghost predicate Valid(due: Option<nat>)
      reads this, dumped
    {
      Inv(blocks, code, todo, dumped[..], at, due)
    }

    method Emit(line: Line)
      modifies `code
      ensures code == old(code) + [line]
    {
      code := code + [line];
    }

    /** A label to be done: next of all, or after all others. */
    method Schedule(l: nat, tail: bool)
      modifies `todo
      ensures todo == if tail then old(todo) + [Entry(l, |code|)] else [Entry(l, |code|)] + old(todo)
    {
      var entry := Entry(l, |code|);
      todo := if tail then todo + [entry] else [entry] + todo;
    }

    method NextLabel() returns (r: Option<nat>)
      requires forall k :: 0 <= k < |todo| ==> todo[k].id < dumped.Length
      ensures r == NextOf(todo, dumped[..])
    {
      var k := 0;
      while k < |todo| && dumped[todo[k].id]
        invariant 0 <= k <= |todo|
        invariant NextOf(todo[k..], dumped[..]) == NextOf(todo, dumped[..])
      {
        assert todo[k..][1..] == todo[k+1..];
        k := k + 1;
      }
      r := if k < |todo| then Some(todo[k].id) else None;
      assert k == |todo| ==> todo[k..] == [];
    }

    /** Takes the first label off the list to fall through to; otherwise picks,
        without taking it off, the label scheduled last of those not done. */
    method Get(fallThrough: bool) returns (r: Option<nat>)
      requires forall k :: 0 <= k < |todo| ==> todo[k].id < dumped.Length
      modifies `todo
      ensures fallThrough ==>
              if old(todo) == [] then r == None && todo == [] else r == Some(old(todo)[0].id) && todo == old(todo)[1..]
      ensures !fallThrough ==> todo == old(todo)
      ensures !fallThrough && r.Some? ==> Waiting(todo, r.value) && r.value < dumped.Length && !dumped[r.value]
      ensures !fallThrough && r.None? ==> forall k :: 0 <= k < |todo| ==> dumped[todo[k].id]
    {
      if fallThrough {
        if todo == [] {
          return None;
        }
        r := Some(todo[0].id);
        todo := todo[1..];
        return;
      }
      var best: Option<Entry> := None;
      for k := 0 to |todo|
        invariant best.Some? ==> Waiting(todo, best.value.id) && best.value.id < dumped.Length && !dumped[best.value.id]
        invariant best.None? ==> forall i :: 0 <= i < k ==> dumped[todo[i].id]
      {
        if !dumped[todo[k].id] && (best.None? || todo[k].pos > best.value.pos) {
          best := Some(todo[k]);
        }
      }
      r := if best.Some? then Some(best.value.id) else None;
    }

    /** The block's mark and body; procedures it mentions go to the end of the
        list. */
    method DumpBody(l: nat)
      requires l < |blocks|
      modifies `code, `todo
      ensures code == old(code) + Lines(l, blocks[l].body)
      ensures exists more :: todo == old(todo) + more && MentionsOf(blocks[l].body, |blocks[l].body|, more)
    {
      hide MentionedIn, Waiting;
      Emit(Mark(l));
      var body := blocks[l].body;
      ghost var more: seq<Entry> := [];
      for k := 0 to |body|
        invariant code == old(code) + Lines(l, body)[..1 + k]
        invariant todo == old(todo) + more && MentionsOf(body, k, more)
      {
        ghost var before := more;
        match body[k] {
          case Closure(entry) => Schedule(entry, true); more := more + [Entry(entry, |code|)];
          case CallToplevel(entry) => Schedule(entry, true); more := more + [Entry(entry, |code|)];
          case _ =>
        }
        WaitingMore(body, k, before, more);
        OneLineMore(l, body, k);
        Emit(Do(body[k]));
      }
    }

    /** The labels a block's end mentions come next. */
    method ScheduleTargets(jump: Instr)
      requires jump.IsJump() && InRange(jump, dumped.Length)
      modifies `todo
      ensures exists first :: todo == first + old(todo) && EndMentions(jump, first)
    {
      ghost var first: seq<Entry>;
      match jump {
        case Goto(l) =>
          Schedule(l, false);
          first := [Entry(l, |code|)];
        case GotoIfFalse(f, t) =>
          Schedule(f, false);
          Schedule(t, false);
          first := [Entry(t, |code|), Entry(f, |code|)];
          assert first[1].id == f;
        case JumpToplevel(l) =>
          Schedule(l, false);
          first := [Entry(l, |code|)];
        case Exit(_) =>
          first := [];
      }
      assert first != [] ==> first[0].id == first[0].id;
      assert todo == first + old(todo) && EndMentions(jump, first);
    }

    /** The end of the block, which may be left out when the next label on the
        list is where it goes. */
    method EmitEnd(jump: Instr) returns (fallThrough: bool)
      requires jump.IsJump()
      requires forall k :: 0 <= k < |todo| ==> todo[k].id < dumped.Length
      modifies `code
      ensures var (end, due) := Ending(jump, NextOf(todo, dumped[..]));
              code == old(code) + end && fallThrough == due.Some?
    {
      var next := NextLabel();
      if jump.Goto? {
        if next != Some(jump.to) {
          Emit(Do(jump));
          return false;
        }
        return true;
      }
      if jump.GotoIfFalse? {
        if next == Some(jump.ifTrue) {
          Emit(BranchIfFalse(jump.ifFalse));
          return true;
        }
        if next == Some(jump.ifFalse) {
          Emit(Negate);
          Emit(BranchIfFalse(jump.ifTrue));
          return true;
        }
        Emit(BranchIfFalse(jump.ifFalse));
        Emit(Do(Goto(jump.ifTrue)));
        return false;
      }
      Emit(Do(jump));
      return false;
    }

    /** A whole block. */
    method DumpBlock(l: nat) returns (fallThrough: bool)
      requires l < |blocks| == dumped.Length && WellFormed(blocks)
      requires forall k :: 0 <= k < |todo| ==> todo[k].id < |blocks|
      modifies `code, `todo
      ensures exists first, more :: Scheduled(blocks[l], old(todo), first, more, todo)
      ensures forall k :: 0 <= k < |todo| ==> todo[k].id < |blocks|
      ensures var (end, due) := Ending(blocks[l].jump, NextOf(todo, dumped[..]));
              code == old(code) + Lines(l, blocks[l].body) + end && fallThrough == due.Some?
    {
      ghost var before := todo;
      DumpBody(l);
      ghost var more :| todo == before + more && MentionsOf(blocks[l].body, |blocks[l].body|, more);
      ghost var middle := todo;
      ScheduleTargets(blocks[l].jump);
      ghost var first :| todo == first + middle && EndMentions(blocks[l].jump, first);
      assert Scheduled(blocks[l], before, first, more, todo);
      EntriesInRange(blocks[l], |blocks|, before, first, more, todo);
      fallThrough := EmitEnd(blocks[l].jump);
    }

    /** The main loop. It falls through to the next label on the list as long as
        it can. */
    method Dump()
      requires Valid(None) && code == []
      modifies dumped, `code, `todo, `at
      ensures Inv(blocks, code, todo, dumped[..], at, None)
      ensures forall k :: 0 <= k < |todo| ==> dumped[todo[k].id]
      ensures code != [] && DrawnFrom(blocks, code)
    {
      var fallThrough := true;
      ghost var due: Option<nat> := None;
      while true
        invariant Valid(due) && (due.Some? ==> fallThrough) && DrawnFrom(blocks, code)
        decreases Left(dumped[..]), |todo|
      {
        ghost var code0, todo0, dumped0, at0 := code, todo, dumped[..], at;
        NextIsWaiting(todo, dumped[..]);
        var r := Get(fallThrough);
        if r.None? {
          break;
        }
        var l := r.value;
        if dumped[l] {
          DoneDropped(blocks, code, todo0, dumped[..], at, due);
        } else {
          OneLess(dumped[..], l);
          dumped[l] := true;
          ghost var rest := todo;
          fallThrough := DumpBlock(l);
          at := at[l := |code0|];
          BlockIsDrawn(blocks, code0, l, NextOf(todo, dumped[..]));
          ghost var first, more :| Scheduled(blocks[l], rest, first, more, todo);
          ghost var (end, due') := Ending(blocks[l].jump, NextOf(todo, dumped[..]));
          BlockAdded(blocks, code0, todo0, dumped0, at0, due, l, rest, first, more, todo, end, due');
          due := due';
        }
      }
    }
  }

  /** The list after a block: its targets first, its procedures last. */
  ghost predicate Scheduled(b: Block, before: seq<Entry>, first: seq<Entry>, more: seq<Entry>, todo: seq<Entry>) {
    todo == first + before + more && EndMentions(b.jump, first) && MentionsOf(b.body, |b.body|, more)
  }

  lemma EntriesInRange(b: Block, n: nat, before: seq<Entry>, first: seq<Entry>, more: seq<Entry>, todo: seq<Entry>)
    requires WellFormedBlock(b, n) && Scheduled(b, before, first, more, todo)
    requires forall k :: 0 <= k < |before| ==> before[k].id < n
    ensures forall k :: 0 <= k < |todo| ==> todo[k].id < n
  {
    hide WellFormedBlock;
    forall k | 0 <= k < |first|
      ensures first[k].id < n
    {
      assert first[k].id in b.jump.Refs();
      MentionInRange(b, n, first[k].id);
    }
    forall k | 0 <= k < |more|
      ensures more[k].id < n
    {
      var j :| 0 <= j < |b.body| && more[k].id in b.body[j].Refs();
      MentionInRange(b, n, more[k].id);
    }
  }

  /** Taking a label off the list that is done changes nothing. */
  lemma DoneDropped(blocks: seq<Block>, code: seq<Line>, todo: seq<Entry>, dumped: seq<bool>, at: map<nat, nat>,
      due: Option<nat>)
    requires Inv(blocks, code, todo, dumped, at, due) && todo != [] && dumped[todo[0].id]
    ensures Inv(blocks, code, todo[1..], dumped, at, due)
  {
    forall a: nat, b: nat | Mentions(blocks, a, b) && a in at
      ensures b in at || Waiting(todo[1..], b)
    {
      if b !in at {
        var k :| 0 <= k < |todo| && todo[k].id == b;
        assert todo[1..][k-1].id == b;
      }
    }
  }

  /** A block added at the end of the code keeps the invariant. */
  lemma BlockAdded(blocks: seq<Block>, code: seq<Line>, todo: seq<Entry>, dumped: seq<bool>, at: map<nat, nat>,
      due: Option<nat>, l: nat, rest: seq<Entry>, first: seq<Entry>, more: seq<Entry>, todo': seq<Entry>,
      end: seq<Line>, due': Option<nat>)
    requires Inv(blocks, code, todo, dumped, at, due)
    requires l < |blocks| && !dumped[l] && (due.Some? ==> due == Some(l)) && (code == [] ==> l == 0)
    requires rest == todo || (todo != [] && todo[0].id == l && rest == todo[1..])
    requires Scheduled(blocks[l], rest, first, more, todo')
    requires forall k :: 0 <= k < |todo'| ==> todo'[k].id < |blocks|
    requires (end, due') == Ending(blocks[l].jump, NextOf(todo', dumped[l := true]))
    ensures Inv(blocks, code + Lines(l, blocks[l].body) + end, todo', dumped[l := true], at[l := |code|], due')
  {
    hide Built, Followed, WellFormed, MentionsOf, EndMentions;
    var code', dumped', at' := code + Lines(l, blocks[l].body) + end, dumped[l := true], at[l := |code|];
    PartsAdded(blocks, code, at, due, l, NextOf(todo', dumped'));
    FollowedAdded(blocks, at, todo, l, rest, first, more, |code|, todo');
    DoneAdded(|blocks|, dumped, at, l, |code|);
    assert due'.Some? ==> NextOf(todo', dumped') == due';
    InvFrom(blocks, code', todo', dumped', at', due');
  }

  ghost predicate DoneAre(n: nat, dumped: seq<bool>, at: map<nat, nat>) {
    |dumped| == n && forall l: nat :: l in at <==> l < n && dumped[l]
  }

  lemma DoneAdded(n: nat, dumped: seq<bool>, at: map<nat, nat>, l: nat, p: nat)
    requires DoneAre(n, dumped, at) && l < n
    ensures DoneAre(n, dumped[l := true], at[l := p])
  {
  }

  lemma InvFrom(blocks: seq<Block>, code: seq<Line>, todo: seq<Entry>, dumped: seq<bool>, at: map<nat, nat>,
      due: Option<nat>)
    requires WellFormed(blocks) && DoneAre(|blocks|, dumped, at) && Built(blocks, code, at, due)
             && Followed(blocks, at, todo)
    requires forall k :: 0 <= k < |todo| ==> todo[k].id < |blocks|
    requires code != [] && 0 in at && at[0] == 0 && (due.Some? ==> NextOf(todo, dumped) == due)
    ensures Inv(blocks, code, todo, dumped, at, due)
  {
  }

  lemma PartsAdded(blocks: seq<Block>, code: seq<Line>, at: map<nat, nat>, due: Option<nat>, l: nat, next: Option<nat>)
    requires WellFormed(blocks) && l < |blocks| && l !in at && (due.Some? ==> due == Some(l))
    requires Built(blocks, code, at, due)
    ensures var (end, due') := Ending(blocks[l].jump, next);
            Built(blocks, code + Lines(l, blocks[l].body) + end, at[l := |code|], due')
  {
    var (end, due') := Ending(blocks[l].jump, next);
    var lines := Lines(l, blocks[l].body);
    var code', at' := code + lines + end, at[l := |code|];
    assert code' == code + (lines + end);
    BlockEmitted(code, l, blocks[l], next);
    forall a: nat | a in at
      ensures PartAt(code', at[a], a, blocks[a], due')
    {
      PartGrows(code, lines + end, at[a], a, blocks[a], due, due');
    }
    MarksAdded(code, at, l, blocks[l].body, end);
  }

  lemma MarksAdded(code: seq<Line>, at: map<nat, nat>, l: nat, body: seq<Instr>, end: seq<Line>)
    requires MarksAt(code, at) && l !in at && forall k :: 0 <= k < |end| ==> !end[k].Mark?
    ensures MarksAt(code + Lines(l, body) + end, at[l := |code|])
  {
    var lines := Lines(l, body);
    var code' := code + lines + end;
    assert forall q :: 0 <= q < |code| ==> code'[q] == code[q];
    assert forall k :: 0 <= k < |lines| ==> code'[|code| + k] == lines[k];
    assert forall k :: 0 <= k < |end| ==> code'[|code| + |lines| + k] == end[k];
    forall q | |code| < q < |code'|
      ensures !code'[q].Mark?
    {
      var k := q - |code|;
      if k < |lines| {
        assert code'[q] == lines[1 + (k - 1)];
      } else {
        assert code'[q] == end[k - |lines|];
      }
    }
  }

  lemma FollowedAdded(blocks: seq<Block>, at: map<nat, nat>, todo: seq<Entry>, l: nat, rest: seq<Entry>,
      first: seq<Entry>, more: seq<Entry>, p: nat, todo': seq<Entry>)
    requires WellFormed(blocks) && l < |blocks| && Followed(blocks, at, todo)
    requires rest == todo || (todo != [] && todo[0].id == l && rest == todo[1..])
    requires Scheduled(blocks[l], rest, first, more, todo')
    ensures Followed(blocks, at[l := p], todo')
  {
    var all, at' := first + rest + more, at[l := p];
    forall a: nat, b: nat | Mentions(blocks, a, b) && a in at'
      ensures b in at' || Waiting(all, b)
    {
      if a != l {
        assert b in at || Waiting(todo, b);
        if Waiting(todo, b) && b != l {
          StillWaiting(todo, l, rest, b);
          WaitingGrows(rest, first, more, b);
        }
      } else {
        OwnMentionsWait(blocks, l, first, rest, more, b);
      }
    }
  }

  lemma StillWaiting(todo: seq<Entry>, l: nat, rest: seq<Entry>, b: nat)
    requires rest == todo || (todo != [] && todo[0].id == l && rest == todo[1..])
    requires Waiting(todo, b) && b != l
    ensures Waiting(rest, b)
  {
    var k :| 0 <= k < |todo| && todo[k].id == b;
    if rest != todo {
      assert rest[k-1].id == b;
    }
  }

  lemma OwnMentionsWait(blocks: seq<Block>, l: nat, first: seq<Entry>, rest: seq<Entry>, more: seq<Entry>, b: nat)
    requires WellFormed(blocks) && Mentions(blocks, l, b)
    requires EndMentions(blocks[l].jump, first) && MentionsOf(blocks[l].body, |blocks[l].body|, more)
    ensures Waiting(first + rest + more, b)
  {
    WaitingGrows(rest, first, more, b);
    if b in blocks[l].jump.Refs() {
      TargetWaits(blocks[l].jump, first, b);
    } else {
      ProcedureWaits(blocks[l], |blocks|, more, b);
    }
  }

  lemma TargetWaits(jump: Instr, first: seq<Entry>, b: nat)
    requires EndMentions(jump, first) && b in jump.Refs()
    ensures exists k :: 0 <= k < |first| && first[k].id == b
  {
  }

  lemma ProcedureWaits(block: Block, n: nat, more: seq<Entry>, b: nat)
    requires WellFormedBlock(block, n) && MentionsOf(block.body, |block.body|, more)
    requires exists j :: 0 <= j < |block.body| && b in block.body[j].Refs()
    ensures exists k :: 0 <= k < |more| && more[k].id == b
  {
    var j :| 0 <= j < |block.body| && b in block.body[j].Refs();
    BodyRef(block.body[j], b);
    assert Waiting(more, block.body[j].entry);
  }

  lemma BodyRef(i: Instr, b: nat)
    requires i.InBody() && b in i.Refs()
    ensures (i.Closure? || i.CallToplevel?) && i.entry == b
  {
  }

  ghost predicate MentionedIn(body: seq<Instr>, k: nat, l: nat)
    requires k <= |body|
  {
    exists j :: 0 <= j < k && l in body[j].Refs()
  }

  /** The entries are for all labels the first k instructions mention. */
  ghost predicate MentionsOf(body: seq<Instr>, k: nat, more: seq<Entry>)
    requires k <= |body|
  {
    && (forall i :: 0 <= i < |more| ==> MentionedIn(body, k, more[i].id))
    && (forall j :: 0 <= j < k && (body[j].Closure? || body[j].CallToplevel?) ==> Waiting(more, body[j].entry))
  }

  lemma MentionedOn(body: seq<Instr>, k: nat, l: nat)
    requires k < |body| && (MentionedIn(body, k, l) || l in body[k].Refs())
    ensures MentionedIn(body, k + 1, l)
  {
  }

  lemma WaitingMore(body: seq<Instr>, k: nat, before: seq<Entry>, more: seq<Entry>)
    requires k < |body| && MentionsOf(body, k, before)
    requires if body[k].Closure? || body[k].CallToplevel? then more != [] && more == before + [more[|more|-1]]
             && more[|more|-1].id == body[k].entry
             else more == before
    ensures MentionsOf(body, k + 1, more)
  {
    hide MentionedIn;
    forall i | 0 <= i < |more|
      ensures MentionedIn(body, k + 1, more[i].id)
    {
      assert i < |before| ==> more[i] == before[i];
      MentionedOn(body, k, more[i].id);
    }
    if more != before {
      assert Waiting(more, body[k].entry);
      forall j | 0 <= j < k && (body[j].Closure? || body[j].CallToplevel?)
        ensures Waiting(more, body[j].entry)
      {
        WaitingGrows(before, [], [more[|more|-1]], body[j].entry);
        assert [] + before + [more[|more|-1]] == more;
      }
    }
  }

  ghost predicate EndMentions(jump: Instr, first: seq<Entry>) {
    && (forall i :: 0 <= i < |first| ==> first[i].id in jump.Refs())
    && (forall l :: l in jump.Refs() ==> Waiting(first, l))
  }

  lemma AllDone(blocks: seq<Block>, code: seq<Line>, todo: seq<Entry>, dumped: seq<bool>, at: map<nat, nat>)
    requires Inv(blocks, code, todo, dumped, at, None) && code != []
    requires forall k :: 0 <= k < |todo| ==> dumped[todo[k].id]
    ensures forall l: nat :: Reachable(blocks, l) ==> l in at
  {
    forall a: nat, b: nat | Mentions(blocks, a, b) && a in at.Keys
      ensures b in at.Keys
    {
      assert b in at || Waiting(todo, b);
    }
    forall l: nat | Reachable(blocks, l)
      ensures l in at
    {
      ClosedHoldsReachable(blocks, at.Keys, l);
    }
  }

  function Positions(at: map<nat, nat>, n: nat): (r: seq<nat>)
    requires forall l: nat :: l < n ==> l in at
    ensures |r| == n && forall l: nat :: l < n ==> r[l] == at[l]
  {
    seq(n, l requires 0 <= l < n => at[l])
  }

  /** Every reachable block is put in line exactly once, block 0 first, and every
      end that is left out falls through to where it went. */
  method Linearize(blocks: seq<Block>) returns (code: seq<Line>, ghost at: seq<nat>)
    requires WellFormed(blocks) && forall l: nat :: l < |blocks| ==> Reachable(blocks, l)
    ensures Laid(code, at, blocks) && at[0] == 0 && DrawnFrom(blocks, code)
  {
    var linear := new Linearizer(blocks);
    linear.Dump();
    code := linear.code;
    AllDone(blocks, code, linear.todo, linear.dumped[..], linear.at);
    at := Positions(linear.at, |blocks|);
    forall l: nat | l < |blocks|
      ensures BlockAt(code, at[l], l, blocks[l])
    {
      assert PartAt(code, linear.at[l], l, blocks[l], None);
    }
  }
}