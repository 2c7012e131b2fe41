/** The bitwise operations on unlimited integers. */
module BitwiseOperations {
  import opened VmArch
  import opened Wrappers
  import opened Integers
  import opened MemoryManagement
  import opened Digits
  import opened Bits

  lemma LoopStep(op: BitOp, a: int, b: int, digits: seq<nat>)
    ensures Magnitude(a) != 0 ==>
              Attach([DigitOp(op, Low(a), Low(b))] + digits, LoopResult(op, High(a), High(b))) ==
                Attach(digits, LoopResult(op, a, b))
  {
    hide Attach;
    AttachOne(DigitOp(op, Low(a), Low(b)), digits, LoopResult(op, High(a), High(b)));
  }

  /** The loop shared by the three operations: they differ in the operation on
      digits and in what they do once x is down to its sign. */
  method BitwiseLoop(op: BitOp, h: Heap, x0: nat, y0: nat, ghost shared: set<nat>, ghost vx: int, ghost vy: int)
      returns (r: Option<nat>)
    requires Ready(h) && shared <= Kept(h)
    requires Takes(JobFor(h, shared), x0, vx) && Takes(JobFor(h, shared), y0, vy)
    modifies h.car, h.cdr, h.typ, h.mark, h.flip, h.vectorUsed, h`freeCells, h`freeCount, h`usedCount, h`free, h`tmp1
    ensures r.Some? ==> Finished(h, old(JobFor(h, shared)), r.value, LoopResult(op, vx, vy))
    ensures r.Some? && RightWhen(op, vx, vy) ==> Finished(h, old(JobFor(h, shared)), r.value, Bitwise(op, vx, vy))
    ensures r.None? ==> h.Room() == {}
  {
    hide Working, Finished, Takes, Attach;
    ghost var j := JobFor(h, shared);
    LoopIsRightExactlyWhen(op, vx, vy);
    var x, y := x0, y0;
    StartDigits(h, shared);
    ghost var a, b := vx, vy;
    ghost var digits: seq<nat>, cells: seq<nat> := [], [];
    AttachNone(LoopResult(op, vx, vy));
    while true
      invariant Working(h, j, digits, cells)
      invariant Takes(j, x, a) && Takes(j, y, b)
      invariant Attach(digits, LoopResult(op, a, b)) == LoopResult(op, vx, vy)
      decreases Magnitude(a)
    {
      ReadOperand(h, x, a, j, digits, cells);
      ReadOperand(h, y, b, j, digits, cells);
      if x == ZERO || x == NEG1 {
        var n := match op
          case And => if x == ZERO then ZERO else y
          case Ior => x
          case Xor => if x == ZERO then y else x;
        n := EndWith(h, n, AtEnd(op, a, b), j, digits, cells);
        return Some(n);
      }
      LoopStep(op, a, b, digits);
      var d := DigitOp(op, IntegerLo(h, x), IntegerLo(h, y));
      x, y := IntegerHi(h, x), IntegerHi(h, y);
      var p, cs :- PushDigit(h, d, j, digits, cells);
      digits, cells := [d] + digits, cs;
      a, b := High(a), High(b);
    }
  }

  lemma InvertStep(a: int, digits: seq<nat>)
    ensures IsDigit(0xFFFF - Low(a))
    ensures Attach([0xFFFF - Low(a)] + digits, Invert(High(a))) == Attach(digits, Invert(a))
  {
    hide Attach;
    InvertApart(a);
    JoinApart(Invert(a));
    AttachOne(0xFFFF - Low(a), digits, Invert(High(a)));
  }

  lemma InvertEnd(j: Job, a: int)
    requires Sound(j.m) && (a == 0 || a == -1)
    ensures Takes(j, if a == 0 then NEG1 else ZERO, Invert(a))
  {
    hide Takes;
    CodedOperand(j, Invert(a));
  }

  method BitwiseNot(h: Heap, x0: nat, ghost shared: set<nat>, ghost vx: int) returns (r: Option<nat>)
    requires Ready(h) && shared <= Kept(h)
    requires Takes(JobFor(h, shared), x0, vx)
    modifies h.car, h.cdr, h.typ, h.mark, h.flip, h.vectorUsed, h`freeCells, h`freeCount, h`usedCount, h`free, h`tmp1
    ensures r.Some? ==> Finished(h, old(JobFor(h, shared)), r.value, Invert(vx))
    ensures r.None? ==> h.Room() == {}
  {
    hide Working, Finished, Takes, Attach;
    ghost var j := JobFor(h, shared);
    var x := x0;
    StartDigits(h, shared);
    ghost var a := vx;
    ghost var digits: seq<nat>, cells: seq<nat> := [], [];
    AttachNone(Invert(vx));
    while true
      invariant Working(h, j, digits, cells)
      invariant Takes(j, x, a)
      invariant Attach(digits, Invert(a)) == Invert(vx)
      decreases Magnitude(a)
    {
      ReadOperand(h, x, a, j, digits, cells);
      if x == ZERO || x == NEG1 {
        InvertEnd(j, a);
        var n := EndWith(h, if x == ZERO then NEG1 else ZERO, Invert(a), j, digits, cells);
        return Some(n);
      }
      InvertStep(a, digits);
      var d := 0xFFFF - IntegerLo(h, x);
      x := IntegerHi(h, x);
      var p, cs :- PushDigit(h, d, j, digits, cells);
      digits, cells := [d] + digits, cs;
      a := High(a);
    }
  }
}
