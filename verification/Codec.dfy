/**
 Fixed-width integers in byte strings. The storage, membership and snapshot formats of the Raft
 layer are little endian; the metadata formats are big endian.
 */
module Codec {
  import opened Common

  function Pow256(n: nat): (p: nat)
    ensures p > 0
  {
    if n == 0 then 1 else 256 * Pow256(n - 1)
  }

  lemma Pow256Values()
    ensures Pow256(1) == 256
    ensures Pow256(2) == U16_LIMIT
    ensures Pow256(4) == U32_LIMIT
    ensures Pow256(8) == U64_LIMIT
  {
    assert Pow256(3) == 256 * Pow256(2);
    assert Pow256(5) == 256 * Pow256(4);
    assert Pow256(6) == 256 * Pow256(5);
    assert Pow256(7) == 256 * Pow256(6);
  }

  function PutLE(value: nat, width: nat): (b: Bytes)
    ensures |b| == width
  {
    if width == 0 then [] else [value % 256] + PutLE(value / 256, width - 1)
  }

  function GetLE(b: Bytes): nat {
    if b == [] then 0 else b[0] + 256 * GetLE(b[1..])
  }

  function PutBE(value: nat, width: nat): (b: Bytes)
    ensures |b| == width
  {
    if width == 0 then [] else PutBE(value / 256, width - 1) + [value % 256]
  }

  function GetBE(b: Bytes): nat {
    if b == [] then 0 else 256 * GetBE(b[..|b| - 1]) + b[|b| - 1]
  }

  lemma {:induction false} GetPutLE(value: nat, width: nat)
    requires value < Pow256(width)
    ensures GetLE(PutLE(value, width)) == value
  {
    if width > 0 {
      GetPutLE(value / 256, width - 1);
      assert PutLE(value, width)[1..] == PutLE(value / 256, width - 1);
    }
  }

  lemma {:induction false} PutGetLE(b: Bytes)
    ensures GetLE(b) < Pow256(|b|)
    ensures PutLE(GetLE(b), |b|) == b
  {
    if b != [] {
      PutGetLE(b[1..]);
      var rest := GetLE(b[1..]);
      assert (b[0] + 256 * rest) % 256 == b[0];
      assert (b[0] + 256 * rest) / 256 == rest;
      assert b == [b[0]] + b[1..];
    }
  }

  lemma {:induction false} GetPutBE(value: nat, width: nat)
    requires value < Pow256(width)
    ensures GetBE(PutBE(value, width)) == value
  {
    if width > 0 {
      GetPutBE(value / 256, width - 1);
      var b := PutBE(value, width);
      assert b[..|b| - 1] == PutBE(value / 256, width - 1);
    }
  }

  lemma {:induction false} PutGetBE(b: Bytes)
    ensures GetBE(b) < Pow256(|b|)
    ensures PutBE(GetBE(b), |b|) == b
  {
    if b != [] {
      var init, last := b[..|b| - 1], b[|b| - 1];
      PutGetBE(init);
      assert (256 * GetBE(init) + last) % 256 == last;
      assert (256 * GetBE(init) + last) / 256 == GetBE(init);
      assert b == init + [last];
    }
  }

  // Readers take a prefix of the input and hand back the rest; None means the input is truncated.

  function TakeBytes(b: Bytes, length: nat): (r: Option<(Bytes, Bytes)>)
    ensures r.Some? <==> length <= |b|
    ensures r.Some? ==> b == r.value.0 + r.value.1 && |r.value.0| == length
  {
    if length <= |b| then Some((b[..length], b[length..])) else None
  }

  function TakeLE(b: Bytes, width: nat): Option<(nat, Bytes)> {
    if width <= |b| then Some((GetLE(b[..width]), b[width..])) else None
  }

  function TakeBE(b: Bytes, width: nat): Option<(nat, Bytes)> {
    if width <= |b| then Some((GetBE(b[..width]), b[width..])) else None
  }

  lemma TakeBytesConcat(head: Bytes, rest: Bytes)
    ensures TakeBytes(head + rest, |head|) == Some((head, rest))
  {
    assert (head + rest)[..|head|] == head;
    assert (head + rest)[|head|..] == rest;
  }

  lemma TakePutLE(value: nat, width: nat, rest: Bytes)
    requires value < Pow256(width)
    ensures TakeLE(PutLE(value, width) + rest, width) == Some((value, rest))
  {
    var b := PutLE(value, width) + rest;
    assert b[..width] == PutLE(value, width);
    assert b[width..] == rest;
    GetPutLE(value, width);
  }

  lemma TakePutBE(value: nat, width: nat, rest: Bytes)
    requires value < Pow256(width)
    ensures TakeBE(PutBE(value, width) + rest, width) == Some((value, rest))
  {
    var b := PutBE(value, width) + rest;
    assert b[..width] == PutBE(value, width);
    assert b[width..] == rest;
    GetPutBE(value, width);
  }

  lemma TakeLEInRange(b: Bytes, width: nat)
    requires TakeLE(b, width).Some?
    ensures TakeLE(b, width).value.0 < Pow256(width)
  {
    PutGetLE(b[..width]);
  }

  lemma TakeBEInverse(b: Bytes, width: nat)
    requires width <= |b|
    ensures TakeBE(b, width).Some?
    ensures var (value, rest) := TakeBE(b, width).value;
            value < Pow256(width) && b == PutBE(value, width) + rest
  {
    PutGetBE(b[..width]);
    assert b == b[..width] + b[width..];
  }

  /** The `PutU16`/`PutU32`/`PutU64` loops: shift the value right by eight bits per byte. */
  method AppendLE(data: Bytes, value: nat, width: nat) returns (out: Bytes)
    ensures out == data + PutLE(value, width)
  {
    out := data;
    var shifted := value;
    for k := 0 to width
      invariant out + PutLE(shifted, width - k) == data + PutLE(value, width)
    {
      assert out + PutLE(shifted, width - k) == out + [shifted % 256] + PutLE(shifted / 256, width - k - 1);
      out := out + [shifted % 256];
      shifted := shifted / 256;
    }
  }

  /** The `ReadU16`/`ReadU32`/`ReadU64` loops: move the offset one byte at a time. */
  method ReadLE(data: Bytes, offset: nat, width: nat) returns (value: Option<nat>, next: nat)
    requires offset <= |data|
    ensures offset <= next <= |data|
    ensures value.None? <==> |data| - offset < width
    ensures value.None? ==> next == offset
    ensures value.Some? ==> TakeLE(data[offset..], width) == Some((value.value, data[next..]))
    ensures value.Some? ==> next == offset + width
  {
    if |data| - offset < width {
      return None, offset;
    }
    var result: nat, scale: nat := 0, 1;
    next := offset;
    for k := 0 to width
      invariant next == offset + k
      invariant scale == Pow256(k)
      invariant result == GetLE(data[offset..next])
    {
      GetLEExtend(data[offset..next], data[next]);
      assert data[offset..next + 1] == data[offset..next] + [data[next]];
      result := result + data[next] * scale;
      scale := 256 * scale;
      next := next + 1;
    }
    assert data[offset..][..width] == data[offset..next];
    assert data[offset..][width..] == data[next..];
    value := Some(result);
  }

  lemma {:induction false} GetLEExtend(b: Bytes, last: Byte)
    ensures GetLE(b + [last]) == GetLE(b) + last * Pow256(|b|)
  {
    if b != [] {
      GetLEExtend(b[1..], last);
      assert (b + [last])[1..] == b[1..] + [last];
      assert 256 * (last * Pow256(|b| - 1)) == last * Pow256(|b|);
    } else {
      assert (b + [last])[1..] == b;
    }
  }
}
