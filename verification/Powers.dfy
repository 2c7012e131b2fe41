/** Powers of two and lengths in bits. */
module Powers {

  function Power2(n: nat): (r: nat)
    ensures r >= 1
  {
    if n == 0 then 1 else 2 * Power2(n - 1)
  }

  /** Bits of v without leading zeros. */
  function BitLength(v: nat): nat {
    if v == 0 then 0 else 1 + BitLength(v / 2)
  }

  lemma SixteenBits()
    ensures Power2(16) == 0x1_0000
  {
    assert Power2(8) == 256;
    assert Power2(12) == 4096;
  }

  lemma {:induction false} Power2Grows(m: nat, n: nat)
    requires m <= n
    ensures Power2(m) <= Power2(n)
    decreases n
  {
    if m < n {
      Power2Grows(m, n - 1);
    }
  }

  lemma {:induction false} Power2Adds(m: nat, n: nat)
    ensures Power2(m + n) == Power2(m) * Power2(n)
  {
    if m > 0 {
      Power2Adds(m - 1, n);
    }
  }

  /** v has n bits exactly when it lies in [2^(n-1), 2^n). */
  lemma {:induction false} BitLengthBounds(v: nat)
    ensures v < Power2(BitLength(v))
    ensures v > 0 ==> BitLength(v) > 0 && Power2(BitLength(v) - 1) <= v
  {
    if v > 0 {
      BitLengthBounds(v / 2);
    }
  }

  lemma Doubles(bit: nat, v: nat)
    requires bit <= 1 && bit + v > 0
    ensures BitLength(2 * v + bit) == 1 + BitLength(v)
  {
    assert (2 * v + bit) / 2 == v;
  }

  lemma HalfOfSum(low: nat, p: nat, v: nat)
    ensures low + 2 * p * v == 2 * (low / 2 + p * v) + low % 2
    ensures v > 0 && p > 0 ==> p * v > 0
  {
  }

  /** Splitting off k low bits shortens the rest by k. */
  lemma {:induction false} LowBitsOff(k: nat, low: nat, v: nat)
    requires v > 0 && low < Power2(k)
    ensures BitLength(low + Power2(k) * v) == k + BitLength(v)
    decreases k
  {
    if k > 0 {
      var p := Power2(k - 1);
      LowBitsOff(k - 1, low / 2, v);
      HalfOfSum(low, p, v);
      Doubles(low % 2, low / 2 + p * v);
    }
  }
}
