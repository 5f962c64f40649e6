/**
 Numbers of 32 bits, bytes, and division with a variable divisor.
 */
module Arithmetic {

  const WORD := 0x1_0000_0000
  const SIGN := 0x8000_0000

  type Byte = b: int | 0 <= b < 256

  predicate Int32(i: int) {
    -SIGN <= i < SIGN
  }

  /** The conversion of a wider integer to 32 bits. */
  function ToInt32(i: int): (r: int)
    ensures Int32(r)
  {
    var m := i % WORD;
    if m < SIGN then m else m - WORD
  }

  function Min(a: nat, b: nat): nat {
    if a < b then a else b
  }

  function Max(a: nat, b: nat): nat {
    if a < b then b else a
  }

  /** One if something holds, for counting. */
  function One(b: bool): nat {
    if b then 1 else 0
  }

  lemma MultipleMod(k: nat, d: nat)
    requires 0 < d
    ensures (k * d) % d == 0
  {
    var c := k * d;
    var q, r := c / d, c % d;
    assert c == q * d + r;
    var z := k - q;
    assert z * d == k * d - q * d == r;
    assert z >= 1 ==> z * d >= d;
    assert z < 0 ==> z * d < 0;
  }
}
