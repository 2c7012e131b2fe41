/** The readers of the big integer code: sign, bit length and order. None of
    them allocates or writes. */
module Comparisons {
  import opened VmArch
  import opened Integers
  import opened Powers
  import opened MemoryManagement
  import opened Digits

  method Negp(h: Heap, x0: nat, ghost v: int) returns (r: bool)
    requires Usable(h) && Holds(Mem(h), x0, v)
    ensures r <==> v < 0
  {
    var x := x0;
    ghost var w := v;
    while true
      invariant Holds(Mem(h), x, w)
      invariant w < 0 <==> v < 0
      decreases Magnitude(w)
    {
      HoldsApart(Mem(h), x, w);
      x, w := IntegerHi(h, x), High(w);
      HoldsApart(Mem(h), x, w);
      if x == ZERO {
        return false;
      }
      if x == NEG1 {
        return true;
      }
    }
  }

  lemma DigitOff(v: nat)
    requires High(v) > 0
    ensures BitLength(v) == 16 + BitLength(High(v))
  {
    SixteenBits();
    LowBitsOff(16, Low(v), High(v));
  }

  /** The next higher digits of a nonnegative integer. */
  lemma NextHigher(m: Memory, x: nat, w: nat)
    requires Sound(m) && Holds(m, x, w)
    ensures 0 <= High(w) && Holds(m, Hi(m, x), High(w))
    ensures Hi(m, x) == ZERO <==> High(w) == 0
    ensures High(w) == 0 ==> Lo(m, x) == w
    ensures High(w) != 0 ==> High(w) < w && BitLength(w) == 16 + BitLength(High(w))
  {
    HoldsApart(m, x, w);
    HoldsApart(m, Hi(m, x), High(w));
    if High(w) != 0 {
      DigitOff(w);
    }
  }

  lemma LowOfSum(n: nat, k: nat)
    ensures Low(Low(n) + k) == Low(n + k)
  {
  }

  /** The count is kept in 16 bits and wraps around. */
  method IntegerLength(h: Heap, x0: nat, ghost v: nat) returns (r: nat)
    requires Usable(h) && Holds(Mem(h), x0, v)
    ensures r == Low(BitLength(v))
  {
    var x := x0;
    r := 0;
    ghost var w: nat, count: nat := v, 0;
    var next := IntegerHi(h, x);
    NextHigher(Mem(h), x, w);
    while next != ZERO
      invariant Holds(Mem(h), x, w) && next == Hi(Mem(h), x)
      invariant r == Low(count) && count + BitLength(w) == BitLength(v)
      decreases w
    {
      NextHigher(Mem(h), x, w);
      LowOfSum(count, 16);
      r, count := Low(r + 16), count + 16;
      x, w := next, High(w);
      next := IntegerHi(h, x);
    }
    NextHigher(Mem(h), x, w);
    var d := IntegerLo(h, x);
    r := CountDigit(d, r, count);
  }

  /** The bits of the highest digit. */
  method CountDigit(d0: nat, r0: nat, ghost count0: nat) returns (r: nat)
    requires r0 == Low(count0)
    ensures r == Low(count0 + BitLength(d0))
  {
    var d: nat := d0;
    r := r0;
    ghost var count: nat := count0;
    while d > 0
      invariant r == Low(count) && count + BitLength(d) == count0 + BitLength(d0)
    {
      LowOfSum(count, 1);
      r, d, count := Low(r + 1), d / 2, count + 1;
    }
  }

  function Order(a: int, b: int): nat {
    if a < b then 0 else if a == b then 1 else 2
  }

  lemma OrderOfParts(a: int, b: int, result: nat)
    ensures (if a == b then result else Order(a, b)) ==
              (if High(a) == High(b) then if Low(a) == Low(b) then result else Order(Low(a), Low(b))
               else Order(High(a), High(b)))
  {
    JoinApart(a);
    JoinApart(b);
  }

  /** 0, 1 or 2 as x is below, equal to or above y. */
  method Cmp(h: Heap, x0: nat, y0: nat, ghost vx: int, ghost vy: int) returns (result: nat)
    requires Usable(h) && Holds(Mem(h), x0, vx) && Holds(Mem(h), y0, vy)
    ensures result == Order(vx, vy)
  {
    var x, y := x0, y0;
    result := 1;
    ghost var a, b := vx, vy;
    while true
      invariant Holds(Mem(h), x, a) && Holds(Mem(h), y, b)
      invariant Order(vx, vy) == if a == b then result else Order(a, b)
      decreases Magnitude(a)
    {
      HoldsApart(Mem(h), x, a);
      HoldsApart(Mem(h), y, b);
      if x == ZERO || x == NEG1 {
        if x != y {
          var negative := Negp(h, y, b);
          result := if negative then 2 else 0;
        }
        return;
      }
      if y == ZERO || y == NEG1 {
        var negative := Negp(h, x, a);
        result := if negative then 0 else 2;
        return;
      }
      OrderOfParts(a, b, result);
      var xlo, ylo := IntegerLo(h, x), IntegerLo(h, y);
      x, y := IntegerHi(h, x), IntegerHi(h, y);
      if xlo != ylo {
        result := if xlo < ylo then 0 else 2;
      }
      a, b := High(a), High(b);
    }
  }
}
