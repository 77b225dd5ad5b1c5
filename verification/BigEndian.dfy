/**
 Big-endian integers in byte strings: what packing an integer means, and the loops of the contracts that read one back
 by shifting each byte into place and combining it with a bitwise or.
 */
module BigEndian {
  import opened Wrappers
  import opened Numeric

  function Pow2(k: nat): (p: nat)
    ensures p > 0
  {
    if k == 0 then 1 else 2 * Pow2(k - 1)
  }

  /** The number of values that `n` bytes can hold. */
  function Pow256(n: nat): (p: nat)
    ensures p > 0
  {
    if n == 0 then 1 else 256 * Pow256(n - 1)
  }

  /** The value of a byte string. */
  function FromBytes(b: seq<Byte>): nat {
    if b == [] then 0 else FromBytes(b[..|b| - 1]) * 256 + b[|b| - 1]
  }

  /** The `n` low bytes of a number; higher ones are cut off, as a Solidity conversion does. */
  function ToBytes(x: nat, n: nat): (b: seq<Byte>)
    ensures |b| == n
  {
    if n == 0 then [] else ToBytes(x / 256, n - 1) + [x % 256]
  }

  lemma {:induction false} FromBytesBound(b: seq<Byte>)
    ensures FromBytes(b) < Pow256(|b|)
  {
    if b != [] {
      FromBytesBound(b[..|b| - 1]);
    }
  }

  /** Reading back what was packed gives the number, if it fits. */
  lemma {:induction false} FromTo(x: nat, n: nat)
    ensures x < Pow256(n) <==> FromBytes(ToBytes(x, n)) == x
  {
    if n > 0 {
      FromTo(x / 256, n - 1);
      var b := ToBytes(x, n);
      assert b[..n - 1] == ToBytes(x / 256, n - 1);
      assert x == x / 256 * 256 + x % 256;
    }
  }

  /** Packing what was read gives the bytes. */
  lemma {:induction false} ToFrom(b: seq<Byte>)
    ensures ToBytes(FromBytes(b), |b|) == b
  {
    if b != [] {
      ToFrom(b[..|b| - 1]);
      var low := b[|b| - 1];
      assert (FromBytes(b[..|b| - 1]) * 256 + low) / 256 == FromBytes(b[..|b| - 1]);
      assert (FromBytes(b[..|b| - 1]) * 256 + low) % 256 == low;
    }
  }

  // ----- Bitwise or -----

  /** Bitwise or of two numbers. */
  function Or(a: nat, b: nat): nat
    decreases a + b
  {
    if a == 0 && b == 0 then 0
    else 2 * Or(a / 2, b / 2) + (if a % 2 == 1 || b % 2 == 1 then 1 else 0)
  }

  lemma {:induction false} OrZero(a: nat)
    ensures Or(a, 0) == a
  {
    if a > 0 {
      OrZero(a / 2);
    }
  }

  /** The bits of a multiple of a power of two and of a smaller number do not meet, so or is addition. */
  lemma {:induction false} OrIsPlus(c: nat, b: nat, k: nat)
    requires b < Pow2(k)
    ensures Or(c * Pow2(k), b) == c * Pow2(k) + b
  {
    if k == 0 {
      OrZero(c);
    } else {
      OrIsPlus(c, b / 2, k - 1);
      var a := c * Pow2(k - 1);
      assert c * Pow2(k) == 2 * a;
      if 2 * a + b > 0 {
        assert Or(2 * a, b) == 2 * Or(a, b / 2) + b % 2;
      }
    }
  }

  function ShiftLeft(x: nat, bits: nat): nat {
    x * Pow2(bits)
  }

  lemma NextByte(k: nat)
    ensures Pow2(k + 8) == 256 * Pow2(k)
  {
    assert Pow2(k + 4) == 16 * Pow2(k) by {
      assert Pow2(k + 2) == 4 * Pow2(k);
    }
    assert Pow2(k + 6) == 4 * Pow2(k + 4);
  }

  lemma {:induction false} PowersAgree(n: nat)
    ensures Pow2(8 * n) == Pow256(n)
  {
    if n > 0 {
      PowersAgree(n - 1);
      NextByte(8 * n - 8);
    }
  }

  lemma Distribute(high: nat, b: nat, p: nat)
    ensures (high * 256 + b) * p == high * (256 * p) + b * p
  {
  }

  /** One step of the reading loop: a further byte enters below the ones read so far. */
  lemma EnterByte(high: nat, b: Byte, n: nat)
    ensures Or(high * Pow256(n + 1), ShiftLeft(b, 8 * n)) == (high * 256 + b) * Pow256(n)
  {
    var p := Pow256(n);
    PowersAgree(n);
    PowersAgree(n + 1);
    assert Pow256(n + 1) == 256 * p;
    assert b * p < 256 * p;
    OrIsPlus(high, b * p, 8 * (n + 1));
    Distribute(high, b, p);
  }

  /** The reading loop of the contracts; an index outside of the input reverts. */
  method ReadInteger<E>(input: seq<Byte>, index: nat, n: nat, outOfBounds: E) returns (r: Result<nat, E>)
    ensures r == if index + n <= |input| || n == 0 then
                   Ok(if n == 0 then 0 else FromBytes(input[index..index + n]))
                 else Revert(outOfBounds)
  {
    var acc := 0;
    var i := 0;
    while i < n
      invariant 0 <= i <= n
      invariant i > 0 ==> index + i <= |input|
      invariant acc == (if i == 0 then 0 else FromBytes(input[index..index + i])) * Pow256(n - i)
    {
      if index + i >= |input| {
        return Revert(outOfBounds);
      }
      ghost var high := if i == 0 then 0 else FromBytes(input[index..index + i]);
      EnterByte(high, input[i + index], n - 1 - i);
      assert input[index..index + i + 1][..i] == input[index..index + i];
      assert FromBytes(input[index..index + i + 1]) == high * 256 + input[index + i] by {
        if i == 0 {
          assert input[index..index + 1][..0] == [];
        }
      }
      acc := Or(acc, ShiftLeft(input[i + index], 8 * (n - 1 - i)));
      i := i + 1;
    }
    return Ok(acc);
  }

  /** Copying bytes out of the input one by one into a new buffer. */
  method ReadBytes<E>(input: seq<Byte>, index: nat, n: nat, outOfBounds: E) returns (r: Result<seq<Byte>, E>)
    ensures r == if index + n <= |input| || n == 0 then
                   Ok(if n == 0 then [] else input[index..index + n])
                 else Revert(outOfBounds)
  {
    var buffer := new Byte[n];
    var i := 0;
    while i < n
      invariant 0 <= i <= n
      invariant i > 0 ==> index + i <= |input|
      invariant i > 0 ==> buffer[..i] == input[index..index + i]
    {
      if i + index >= |input| {
        return Revert(outOfBounds);
      }
      buffer[i] := input[i + index];
      i := i + 1;
    }
    assert n > 0 ==> buffer[..] == buffer[..n];
    return Ok(buffer[..]);
  }
}
