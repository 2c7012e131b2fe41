/** Integers as infinite two's complement bit strings, and what the digit loops
    of the bitwise operations compute. */
module Bits {
  import opened Integers
  import opened Powers

  datatype BitOp = And | Ior | Xor

  predicate Apply(op: BitOp, p: bool, q: bool) {
    match op
    case And => p && q
    case Ior => p || q
    case Xor => p != q
  }

  /** The operation on the low bits of two digits. */
  function OnDigits(op: BitOp, a: nat, b: nat, width: nat): (r: nat)
    ensures r < Power2(width)
  {
    if width == 0 then 0
    else (if Apply(op, a % 2 == 1, b % 2 == 1) then 1 else 0) + 2 * OnDigits(op, a / 2, b / 2, width - 1)
  }

  function DigitOp(op: BitOp, a: nat, b: nat): (r: nat)
    ensures IsDigit(r)
  {
    SixteenBits();
    OnDigits(op, a, b, 16)
  }

  predicate DigitBit(d: nat, i: nat) {
    if i == 0 then d % 2 == 1 else DigitBit(d / 2, i - 1)
  }

  /** Bit i of v: bit i % 16 of digit i / 16. */
  predicate Bit(v: int, i: nat)
    decreases i
  {
    if i < 16 then DigitBit(Low(v), i) else Bit(High(v), i - 16)
  }

  /** What a bitwise operation should give: the operation on every digit, and
      on the signs. */
  ghost function Bitwise(op: BitOp, a: int, b: int): int
    decreases Magnitude(a) + Magnitude(b)
  {
    if Magnitude(a) == 0 == Magnitude(b) then
      if Apply(op, a == -1, b == -1) then -1 else 0
    else
      Join(DigitOp(op, Low(a), Low(b)), Bitwise(op, High(a), High(b)))
  }

  /** What the loops do when the first operand is down to its sign. */
  function AtEnd(op: BitOp, a: int, b: int): int {
    match op
    case And => if a == 0 then 0 else b
    case Ior => a
    case Xor => if a == 0 then b else a
  }

  /** What the loops give. */
  ghost function LoopResult(op: BitOp, a: int, b: int): int
    decreases Magnitude(a)
  {
    if Magnitude(a) == 0 then AtEnd(op, a, b)
    else Join(DigitOp(op, Low(a), Low(b)), LoopResult(op, High(a), High(b)))
  }

  /** Digits before v is down to its sign. */
  function DigitCount(v: int): nat
    decreases Magnitude(v)
  {
    if Magnitude(v) == 0 then 0 else 1 + DigitCount(High(v))
  }

  // Bits of the pieces.

  lemma JoinedParts(d: nat, v: int)
    requires IsDigit(d)
    ensures Low(Join(d, v)) == d && High(Join(d, v)) == v
  {
  }

  lemma Halves(bit: bool, rest: nat)
    ensures var d := (if bit then 1 else 0) + 2 * rest; d / 2 == rest && (d % 2 == 1) == bit
  {
  }

  lemma {:induction false} OnDigitsBit(op: BitOp, a: nat, b: nat, width: nat, i: nat)
    requires i < width
    ensures DigitBit(OnDigits(op, a, b, width), i) == Apply(op, DigitBit(a, i), DigitBit(b, i))
  {
    Halves(Apply(op, a % 2 == 1, b % 2 == 1), OnDigits(op, a / 2, b / 2, width - 1));
    if i > 0 {
      OnDigitsBit(op, a / 2, b / 2, width - 1, i - 1);
    }
  }

  lemma {:induction false} ZeroDigitBit(i: nat)
    ensures !DigitBit(0, i)
  {
    if i > 0 {
      ZeroDigitBit(i - 1);
    }
  }

  /** Width low bits set. */
  lemma {:induction false} OnesDigitBit(width: nat, i: nat)
    requires i < width
    ensures DigitBit(Power2(width) - 1, i)
  {
    if i > 0 {
      OnesDigitBit(width - 1, i - 1);
      assert (Power2(width) - 1) / 2 == Power2(width - 1) - 1;
    }
  }

  lemma {:induction false} SignBits(i: nat)
    ensures !Bit(0, i) && Bit(-1, i)
  {
    if i < 16 {
      ZeroDigitBit(i);
      OnesDigitBit(16, i);
      SixteenBits();
    } else {
      SignBits(i - 16);
    }
  }

  /** Bitwise is the operation bit by bit, at every position. */
  lemma {:induction false} BitwiseBits(op: BitOp, a: int, b: int, i: nat)
    ensures Bit(Bitwise(op, a, b), i) == Apply(op, Bit(a, i), Bit(b, i))
    decreases i
  {
    if Magnitude(a) == 0 == Magnitude(b) {
      SignBits(i);
    } else {
      var d := DigitOp(op, Low(a), Low(b));
      JoinedParts(d, Bitwise(op, High(a), High(b)));
      if i < 16 {
        OnDigitsBit(op, Low(a), Low(b), 16, i);
      } else {
        BitwiseBits(op, High(a), High(b), i - 16);
      }
    }
  }

  lemma {:induction false} ComplementDigitBit(d: nat, width: nat, i: nat)
    requires i < width && d < Power2(width)
    ensures DigitBit(Power2(width) - 1 - d, i) == !DigitBit(d, i)
  {
    var c := Power2(width) - 1 - d;
    if i > 0 {
      assert c / 2 == Power2(width - 1) - 1 - d / 2;
      ComplementDigitBit(d / 2, width - 1, i - 1);
    }
  }

  /** Inverting turns every bit over. */
  lemma {:induction false} InvertBits(v: int, i: nat)
    ensures Bit(Invert(v), i) == !Bit(v, i)
    decreases i
  {
    InvertApart(v);
    if i < 16 {
      SixteenBits();
      ComplementDigitBit(Low(v), 16, i);
    } else {
      InvertBits(High(v), i - 16);
    }
  }

  lemma {:induction false} DigitDetermined(a: nat, b: nat, width: nat)
    requires a < Power2(width) && b < Power2(width)
    requires forall i: nat :: i < width ==> DigitBit(a, i) == DigitBit(b, i)
    ensures a == b
  {
    if width > 0 {
      assert DigitBit(a, 0) == DigitBit(b, 0);
      forall i: nat | i < width - 1
        ensures DigitBit(a / 2, i) == DigitBit(b / 2, i)
      {
        assert DigitBit(a, i + 1) == DigitBit(b, i + 1);
      }
      DigitDetermined(a / 2, b / 2, width - 1);
    }
  }

  /** Two integers with the same bits are the same. */
  lemma {:induction false} BitsDetermine(a: int, b: int)
    requires forall i: nat :: Bit(a, i) == Bit(b, i)
    ensures a == b
    decreases Magnitude(a) + Magnitude(b)
  {
    SixteenBits();
    forall i: nat | i < 16
      ensures DigitBit(Low(a), i) == DigitBit(Low(b), i)
    {
      assert Bit(a, i) == Bit(b, i);
    }
    DigitDetermined(Low(a), Low(b), 16);
    if Magnitude(a) + Magnitude(b) > 0 {
      forall i: nat
        ensures Bit(High(a), i) == Bit(High(b), i)
      {
        assert Bit(a, i + 16) == Bit(b, i + 16);
      }
      BitsDetermine(High(a), High(b));
      JoinApart(a);
      JoinApart(b);
    }
  }

  // What the loops give against what they should give.

  lemma {:induction false} OnDigitsWithSign(op: BitOp, d: nat, width: nat)
    requires d < Power2(width)
    ensures OnDigits(op, 0, d, width) == match op case And => 0 case Ior => d case Xor => d
    ensures OnDigits(op, Power2(width) - 1, d, width) ==
              match op case And => d case Ior => Power2(width) - 1 case Xor => Power2(width) - 1 - d
  {
    if width > 0 {
      OnDigitsWithSign(op, d / 2, width - 1);
      assert (Power2(width) - 1) / 2 == Power2(width - 1) - 1;
    }
  }

  lemma {:induction false} BitwiseWithSign(op: BitOp, a: int, b: int)
    requires Magnitude(a) == 0
    ensures Bitwise(op, a, b) == match op
      case And => if a == 0 then 0 else b
      case Ior => if a == 0 then b else -1
      case Xor => if a == 0 then b else Invert(b)
    decreases Magnitude(b)
  {
    hide Power2;
    if Magnitude(b) > 0 {
      SixteenBits();
      OnDigitsWithSign(op, Low(b), 16);
      BitwiseWithSign(op, a, High(b));
      JoinApart(b);
      InvertApart(b);
      JoinApart(Invert(b));
    }
  }

  /** When the loop's result is right. The loop of ior forgets the second
      operand once a nonnegative first one has run out, and that of xor does so
      for a negative first one; neither matters just when nothing is left of
      the second operand by then. */
  ghost predicate RightWhen(op: BitOp, a: int, b: int) {
    match op
    case And => true
    case Ior => a < 0 || (b >= 0 && DigitCount(b) <= DigitCount(a))
    case Xor => a >= 0 || (b >= 0 && DigitCount(b) <= DigitCount(a))
  }

  lemma {:induction false} LoopIsRightExactlyWhen(op: BitOp, a: int, b: int)
    ensures LoopResult(op, a, b) == Bitwise(op, a, b) <==> RightWhen(op, a, b)
    decreases Magnitude(a)
  {
    if Magnitude(a) == 0 {
      BitwiseWithSign(op, a, b);
    } else {
      LoopIsRightExactlyWhen(op, High(a), High(b));
      var d := DigitOp(op, Low(a), Low(b));
      JoinedParts(d, LoopResult(op, High(a), High(b)));
      JoinedParts(d, Bitwise(op, High(a), High(b)));
    }
  }

  /** Inclusive or of 0 and 1 comes out as 0, exclusive or of -1 and 1 as -1. */
  lemma LoopsGoWrong()
    ensures LoopResult(Ior, 0, 1) == 0 && Bitwise(Ior, 0, 1) == 1
    ensures LoopResult(Xor, -1, 1) == -1 && Bitwise(Xor, -1, 1) == -2
  {
    BitwiseWithSign(Ior, 0, 1);
    BitwiseWithSign(Xor, -1, 1);
  }
}
