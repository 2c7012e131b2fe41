/** Arithmetic on unlimited integers. */
module Bignum {
  import opened VmArch
  import opened Wrappers
  import opened Integers
  import opened MemoryManagement
  import opened Digits

  /** One column of an addition, with wrap-around on 16 bits. */
  method AddColumn(dx0: nat, dy: nat, negc: nat) returns (dx: nat, carry: nat)
    requires IsDigit(dx0) && IsDigit(dy) && IsCarry(negc)
    ensures IsDigit(dx) && IsCarry(carry)
    ensures dx0 + dy + CarryValue(negc) == Join(dx, CarryValue(carry))
  {
    dx := Low(dx0 + dy);
    if negc == ZERO {
      carry := NegativeCarry(dx < dy);
    } else {
      dx := Low(dx + 1);
      carry := NegativeCarry(dx <= dy);
    }
  }

  ghost function AddWork(a: int, b: int, c: nat): nat {
    2 * (Magnitude(a) + Magnitude(b)) + if a + c != 0 && b + c != 0 then 1 else 0
  }

  ghost predicate Unfinished(a: int, b: int, c: nat) {
    Magnitude(a) + Magnitude(b) > 0 || (a + c != 0 && b + c != 0)
  }

  /** A column takes its digit off the sum and brings the end nearer. */
  lemma AddStep(a: int, b: int, c: nat, d: nat, c': nat)
    requires c <= 1 && c' <= 1 && IsDigit(d) && Low(a) + Low(b) + c == Join(d, c')
    ensures Join(d, High(a) + High(b) + c') == a + b + c
    ensures Unfinished(a, b, c) ==> AddWork(High(a), High(b), c') < AddWork(a, b, c)
  {
    JoinApart(a);
    JoinApart(b);
  }

  /** One column of a + b: its digit goes to the result. */
  method PushColumn(h: Heap, dx: nat, dy: nat, negc: nat, ghost a: int, ghost b: int, ghost j: Job,
      ghost digits: seq<nat>, ghost cells: seq<nat>)
    returns (r: Option<nat>, ghost digits': seq<nat>, ghost cells': seq<nat>)
    requires Working(h, j, digits, cells)
    requires dx == Low(a) && dy == Low(b) && IsCarry(negc)
    modifies h.car, h.cdr, h.typ, h.mark, h.flip, h.vectorUsed, h`freeCells, h`freeCount, h`usedCount, h`free, h`tmp1
    ensures r.Some? ==> IsCarry(r.value) && Working(h, j, digits', cells')
    ensures r.Some? ==>
            Attach(digits', High(a) + High(b) + CarryValue(r.value)) == Attach(digits, a + b + CarryValue(negc))
    ensures r.Some? && Unfinished(a, b, CarryValue(negc)) ==>
              AddWork(High(a), High(b), CarryValue(r.value)) < AddWork(a, b, CarryValue(negc))
    ensures r.None? ==> h.Room() == {}
  {
    hide Working, Attach;
    var d, carry := AddColumn(dx, dy, negc);
    AddStep(a, b, CarryValue(negc), d, CarryValue(carry));
    AttachOne(d, digits, High(a) + High(b) + CarryValue(carry));
    digits', cells' := [d] + digits, [];
    var p, cs :- PushDigit(h, d, j, digits, cells);
    r, cells' := Some(carry), cs;
  }

  method Add(h: Heap, x0: nat, y0: nat, ghost shared: set<nat>, ghost vx: int, ghost vy: int) returns (r: Option<nat>)
    requires Ready(h) && shared <= Kept(h)
    requires Takes(JobFor(h, shared), x0, vx) && Takes(JobFor(h, shared), y0, vy)
    modifies h.car, h.cdr, h.typ, h.mark, h.flip, h.vectorUsed, h`freeCells, h`freeCount, h`usedCount, h`free, h`tmp1
    ensures r.Some? ==> Finished(h, old(JobFor(h, shared)), r.value, vx + vy)
    ensures r.None? ==> h.Room() == {}
  {
    hide Working, Takes, Attach, Finished;
    ghost var j := JobFor(h, shared);
    var x, y, negc := x0, y0, ZERO;
    StartDigits(h, shared);
    ghost var a, b := vx, vy;
    ghost var digits: seq<nat>, cells: seq<nat> := [], [];
    AttachNone(vx + vy);
    while true
      invariant Working(h, j, digits, cells)
      invariant Takes(j, x, a) && Takes(j, y, b)
      invariant IsCarry(negc)
      invariant Attach(digits, a + b + CarryValue(negc)) == vx + vy
      decreases AddWork(a, b, CarryValue(negc))
    {
      ReadOperand(h, x, a, j, digits, cells);
      ReadOperand(h, y, b, j, digits, cells);
      if x == negc {
        var n := EndWith(h, y, b, j, digits, cells);
        return Some(n);
      }
      if y == negc {
        var n := EndWith(h, x, a, j, digits, cells);
        return Some(n);
      }
      var dx, dy := IntegerLo(h, x), IntegerLo(h, y);
      x, y := IntegerHi(h, x), IntegerHi(h, y);
      var carry, ds, cs :- PushColumn(h, dx, dy, negc, a, b, j, digits, cells);
      negc, digits, cells := carry, ds, cs;
      a, b := High(a), High(b);
    }
  }

  method Sub(h: Heap, x0: nat, y0: nat, ghost shared: set<nat>, ghost vx: int, ghost vy: int) returns (r: Option<nat>)
    requires Ready(h) && shared <= Kept(h)
    requires Takes(JobFor(h, shared), x0, vx) && Takes(JobFor(h, shared), y0, vy)
    modifies h.car, h.cdr, h.typ, h.mark, h.flip, h.vectorUsed, h`freeCells, h`freeCount, h`usedCount, h`free, h`tmp1
    ensures r.Some? ==> Finished(h, old(JobFor(h, shared)), r.value, vx - vy)
    ensures r.None? ==> h.Room() == {}
  {
    hide Working, Takes, Attach, Finished, AddWork;
    ghost var j := JobFor(h, shared);
    var x, y, negc := x0, y0, NEG1;
    StartDigits(h, shared);
    ghost var a, b := vx, vy;
    ghost var digits: seq<nat>, cells: seq<nat> := [], [];
    AttachNone(vx - vy);
    while true
      invariant Working(h, j, digits, cells)
      invariant Takes(j, x, a) && Takes(j, y, b)
      invariant IsCarry(negc)
      invariant Attach(digits, a + Invert(b) + CarryValue(negc)) == vx - vy
      decreases AddWork(a, Invert(b), CarryValue(negc))
    {
      ReadOperand(h, x, a, j, digits, cells);
      ReadOperand(h, y, b, j, digits, cells);
      if x == negc && (y == ZERO || y == NEG1) {
        CodedOperand(j, Invert(b));
        var n := EndWith(h, if y == ZERO then NEG1 else ZERO, Invert(b), j, digits, cells);
        return Some(n);
      }
      if y == (if negc == ZERO then NEG1 else ZERO) {
        var n := EndWith(h, x, a, j, digits, cells);
        return Some(n);
      }
      InvertApart(b);
      var dx, dy := IntegerLo(h, x), 0xFFFF - IntegerLo(h, y);
      x, y := IntegerHi(h, x), IntegerHi(h, y);
      var carry, ds, cs :- PushColumn(h, dx, dy, negc, a, Invert(b), j, digits, cells);
      negc, digits, cells := carry, ds, cs;
      a, b := High(a), High(b);
    }
  }
}
