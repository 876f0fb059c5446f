/** The 64-bit FNV-1a checksum of storage records and snapshots. */
module Checksums {
  import opened Common

  const FNV_OFFSET_BASIS: nat := 14695981039346656037
  const FNV_PRIME: nat := 1099511628211

  /** Bitwise exclusive or of the low `width` bits. */
  function XorBits(a: nat, b: nat, width: nat): nat {
    if width == 0 then 0 else (a + b) % 2 + 2 * XorBits(a / 2, b / 2, width - 1)
  }

  /** One byte: exclusive or into the low byte, then a 64-bit multiplication that wraps. */
  function Mix(value: nat, byte: Byte): (r: nat)
    ensures r < U64_LIMIT
  {
    (value / 256 * 256 + XorBits(value % 256, byte, 8)) * FNV_PRIME % U64_LIMIT
  }

  function MixAll(value: nat, data: Bytes): (r: nat)
    requires value < U64_LIMIT
    ensures r < U64_LIMIT
    decreases |data|
  {
    if data == [] then value else MixAll(Mix(value, data[0]), data[1..])
  }

  function Checksum(data: Bytes): (r: nat)
    ensures r < U64_LIMIT
  {
    MixAll(FNV_OFFSET_BASIS, data)
  }

  lemma {:induction false} MixAllConcat(value: nat, a: Bytes, b: Bytes)
    requires value < U64_LIMIT
    ensures MixAll(value, a + b) == MixAll(MixAll(value, a), b)
    decreases |a|
  {
    hide Mix;
    if a == [] {
      assert a + b == b;
    } else {
      assert (a + b)[1..] == a[1..] + b;
      MixAllConcat(Mix(value, a[0]), a[1..], b);
    }
  }

  method Compute(data: Bytes) returns (value: nat)
    ensures value == Checksum(data)
  {
    hide Mix;
    value := FNV_OFFSET_BASIS;
    for i := 0 to |data|
      invariant value < U64_LIMIT
      invariant value == MixAll(FNV_OFFSET_BASIS, data[..i])
    {
      assert data[..i + 1] == data[..i] + [data[i]];
      MixAllConcat(FNV_OFFSET_BASIS, data[..i], [data[i]]);
      value := Mix(value, data[i]);
    }
    assert data[..|data|] == data;
  }

  // ---------------------------------------------------------------- a changed byte changes the checksum

  function Pow2(n: nat): (p: nat)
    ensures p > 0
  {
    if n == 0 then 1 else 2 * Pow2(n - 1)
  }

  lemma {:induction false} XorBitsFacts(a: nat, b: nat, c: nat, width: nat)
    requires a < Pow2(width) && b < Pow2(width)
    ensures XorBits(c, a, width) < Pow2(width)
    ensures XorBits(c, a, width) == XorBits(c, b, width) ==> a == b
    ensures XorBits(a, c, width) == XorBits(b, c, width) ==> a == b
  {
    if width > 0 {
      XorBitsFacts(a / 2, b / 2, c / 2, width - 1);
      assert a == 2 * (a / 2) + a % 2 && b == 2 * (b / 2) + b % 2;
      LowBit(a, b, c);
    }
  }

  lemma LowBit(a: nat, b: nat, c: nat)
    ensures (c + a) % 2 == (c + b) % 2 <==> a % 2 == b % 2
  {
  }

  const PRIME_INVERSE: nat := 14886173955864302971
  const INVERSE_QUOTIENT: nat := 887285111055

  /** The prime is invertible, so the wrapping multiplication loses nothing. */
  lemma MultiplyInjective(a: nat, b: nat)
    requires a < U64_LIMIT && b < U64_LIMIT
    requires a * FNV_PRIME % U64_LIMIT == b * FNV_PRIME % U64_LIMIT
    ensures a == b
  {
    var q := a * FNV_PRIME / U64_LIMIT - b * FNV_PRIME / U64_LIMIT;
    assert (a - b) * FNV_PRIME == q * U64_LIMIT;
    assert FNV_PRIME * PRIME_INVERSE == 1 + INVERSE_QUOTIENT * U64_LIMIT;
    assert (a - b) * FNV_PRIME * PRIME_INVERSE == q * U64_LIMIT * PRIME_INVERSE;
    assert a - b == (q * PRIME_INVERSE - (a - b) * INVERSE_QUOTIENT) * U64_LIMIT;
    NoMultiple(a - b, q * PRIME_INVERSE - (a - b) * INVERSE_QUOTIENT, U64_LIMIT);
  }

  lemma NoMultiple(d: int, q: int, m: int)
    requires -m < d < m && d == q * m
    ensures d == 0
  {
  }

  lemma MixParts(u: nat, v: nat, x: Byte, y: Byte)
    requires u < U64_LIMIT && v < U64_LIMIT && Mix(u, x) == Mix(v, y)
    requires XorBits(u % 256, x, 8) < 256 && XorBits(v % 256, y, 8) < 256
    ensures u / 256 == v / 256 && XorBits(u % 256, x, 8) == XorBits(v % 256, y, 8)
  {
    hide XorBits;
    MultiplyInjective(u / 256 * 256 + XorBits(u % 256, x, 8), v / 256 * 256 + XorBits(v % 256, y, 8));
    SplitByte(u / 256, XorBits(u % 256, x, 8), v / 256, XorBits(v % 256, y, 8));
  }

  lemma MixInjective(u: nat, v: nat, x: Byte, y: Byte)
    requires u < U64_LIMIT && v < U64_LIMIT && Mix(u, x) == Mix(v, y)
    ensures u == v ==> x == y
    ensures x == y ==> u == v
  {
    hide XorBits, Mix;
    assert Pow2(8) == 256 by { assert Pow2(4) == 16; assert Pow2(6) == 64; }
    XorBitsFacts(x, y, u % 256, 8);
    XorBitsFacts(y, x, v % 256, 8);
    XorBitsFacts(u % 256, v % 256, x, 8);
    MixParts(u, v, x, y);
  }

  lemma SplitByte(a: nat, x: nat, b: nat, y: nat)
    requires x < 256 && y < 256 && a * 256 + x == b * 256 + y
    ensures a == b && x == y
  {
  }

  lemma {:induction false} MixAllInjective(u: nat, v: nat, data: Bytes)
    requires u < U64_LIMIT && v < U64_LIMIT && MixAll(u, data) == MixAll(v, data)
    ensures u == v
    decreases |data|
  {
    hide Mix;
    if data != [] {
      MixAllInjective(Mix(u, data[0]), Mix(v, data[0]), data[1..]);
      MixInjective(u, v, data[0], data[0]);
    }
  }

  /** Replacing any single byte of the data by another changes the checksum. */
  lemma ChangedByteDetected(before: Bytes, x: Byte, y: Byte, after: Bytes)
    requires x != y
    ensures Checksum(before + [x] + after) != Checksum(before + [y] + after)
  {
    hide Mix;
    var value := MixAll(FNV_OFFSET_BASIS, before);
    MixAllConcat(FNV_OFFSET_BASIS, before + [x], after);
    MixAllConcat(FNV_OFFSET_BASIS, before + [y], after);
    MixAllConcat(FNV_OFFSET_BASIS, before, [x]);
    MixAllConcat(FNV_OFFSET_BASIS, before, [y]);
    assert MixAll(value, [x]) == Mix(value, x) && MixAll(value, [y]) == Mix(value, y);
    if Checksum(before + [x] + after) == Checksum(before + [y] + after) {
      MixAllInjective(Mix(value, x), Mix(value, y), after);
      MixInjective(value, value, x, y);
    }
  }
}
