/**
 The bits of a byte, and what they say of its value.
 */
module Bits {
  import Arith

  function Pow2(k: nat): (r: nat)
    ensures r > 0
  {
    if k == 0 then 1 else 2 * Pow2(k - 1)
  }

  // 1 << k, for a bit k of a byte.
  function Mask(k: nat): bv8
    requires k < 8
  {
    if k == 0 then 1 else if k == 1 then 2 else if k == 2 then 4 else if k == 3 then 8
    else if k == 4 then 16 else if k == 5 then 32 else if k == 6 then 64 else 128
  }

  predicate BitOf(byte: bv8, k: nat)
    requires k < 8
  {
    byte & Mask(k) != 0
  }

  function Value(byte: bv8): nat {
    byte as nat
  }

  function Upper(byte: bv8): bv8 {
    byte >> 1
  }

  lemma Half(byte: bv8)
    ensures Value(Upper(byte)) == Value(byte) / 2
  {
  }

  lemma Odd(byte: bv8)
    ensures BitOf(byte, 0) <==> Value(byte) % 2 == 1
  {
  }

  lemma NextBit(byte: bv8, k: nat)
    requires 0 < k < 8
    ensures BitOf(byte, k) <==> BitOf(Upper(byte), k - 1)
  {
  }

  lemma HalfOf(n: nat, p: nat)
    requires p > 0
    ensures n / (2 * p) == n / 2 / p
  {
    var q, r := n / 2 / p, n / 2 % p;
    assert n / 2 == p * q + r;
    Arith.QuotientUnique(n, 2 * p, q, 2 * r + n % 2);
  }

  // Bit k is the binary digit of weight 2^k.
  lemma {:induction false} BitIsDigit(byte: bv8, k: nat)
    requires k < 8
    ensures BitOf(byte, k) <==> Value(byte) / Pow2(k) % 2 == 1
    decreases k
  {
    hide BitOf, Value, Upper;
    if k == 0 {
      Odd(byte);
    } else {
      NextBit(byte, k);
      Half(byte);
      HalfOf(Value(byte), Pow2(k - 1));
      BitIsDigit(Upper(byte), k - 1);
    }
  }
}
