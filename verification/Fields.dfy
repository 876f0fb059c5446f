/**
 The building blocks of the metadata formats: big-endian numbers, length-prefixed byte strings and byte
 strings whose length was read earlier. A format is a list of shapes.
 */
module Fields {
  import opened Common
  import opened Codec

  datatype Shape =
    | Num(width: nat)
    /** A 32-bit length, at most `max`, and that many bytes. */
    | Blob(max: nat)
    /** A length known from an earlier field, at most `max`. */
    | Raw(length: nat, max: nat)

  datatype Value = N(n: nat) | D(bytes: Bytes)

  predicate Matches(s: Shape, v: Value) {
    match s
    case Num(width) => v.N? && v.n < Pow256(width)
    case Blob(max) => v.D? && |v.bytes| <= max && |v.bytes| < U32_LIMIT
    case Raw(length, max) => v.D? && |v.bytes| == length <= max
  }

  ghost predicate AllMatch(ss: seq<Shape>, vs: seq<Value>) {
    |ss| == |vs| && forall k :: 0 <= k < |ss| ==> Matches(ss[k], vs[k])
  }

  function Put(s: Shape, v: Value): Bytes
    requires Matches(s, v)
  {
    match s
    case Num(width) => PutBE(v.n, width)
    case Blob(_) => PutBE(|v.bytes|, 4) + v.bytes
    case Raw(_, _) => v.bytes
  }

  ghost function PutAll(ss: seq<Shape>, vs: seq<Value>): Bytes
    requires AllMatch(ss, vs)
  {
    if ss == [] then [] else Put(ss[0], vs[0]) + PutAll(ss[1..], vs[1..])
  }

  function Take(s: Shape, b: Bytes): Option<(Value, Bytes)> {
    match s
    case Num(width) =>
      var r := TakeBE(b, width);
      if r.None? then None else Some((N(r.value.0), r.value.1))
    case Blob(max) =>
      var size := TakeBE(b, 4);
      if size.None? || size.value.0 > max then None else
      var r := TakeBytes(size.value.1, size.value.0);
      if r.None? then None else Some((D(r.value.0), r.value.1))
    case Raw(length, max) =>
      if length > max then None else
      var r := TakeBytes(b, length);
      if r.None? then None else Some((D(r.value.0), r.value.1))
  }

  function TakeAll(ss: seq<Shape>, b: Bytes): Option<(seq<Value>, Bytes)> {
    if ss == [] then Some(([], b)) else
    var first := Take(ss[0], b);
    if first.None? then None else
    var others := TakeAll(ss[1..], first.value.1);
    if others.None? then None else Some(([first.value.0] + others.value.0, others.value.1))
  }

  // ---------------------------------------------------------------- both directions

  lemma TakePut(s: Shape, v: Value, rest: Bytes)
    requires Matches(s, v)
    ensures Take(s, Put(s, v) + rest) == Some((v, rest))
  {
    hide PutBE, GetBE;
    match s
    case Num(width) => TakePutBE(v.n, width, rest);
    case Blob(_) =>
      Pow256Values();
      assert Put(s, v) + rest == PutBE(|v.bytes|, 4) + (v.bytes + rest);
      TakePutBE(|v.bytes|, 4, v.bytes + rest);
      TakeBytesConcat(v.bytes, rest);
    case Raw(_, _) => TakeBytesConcat(v.bytes, rest);
  }

  lemma PutTake(s: Shape, b: Bytes)
    requires Take(s, b).Some?
    ensures var (v, rest) := Take(s, b).value; Matches(s, v) && b == Put(s, v) + rest
  {
    hide PutBE, GetBE;
    Pow256Values();
    match s
    case Num(width) => TakeBEInverse(b, width);
    case Blob(_) =>
      TakeBEInverse(b, 4);
      var (size, after) := TakeBE(b, 4).value;
      var (v, rest) := Take(s, b).value;
      assert after == v.bytes + rest;
      assert PutBE(size, 4) + (v.bytes + rest) == PutBE(size, 4) + v.bytes + rest;
    case Raw(_, _) =>
  }

  lemma {:induction false} TakePutAll(ss: seq<Shape>, vs: seq<Value>, rest: Bytes)
    requires AllMatch(ss, vs)
    ensures TakeAll(ss, PutAll(ss, vs) + rest) == Some((vs, rest))
  {
    hide Put, Take, Matches;
    if ss == [] {
      assert PutAll(ss, vs) + rest == rest;
    } else {
      var others := PutAll(ss[1..], vs[1..]);
      TakePut(ss[0], vs[0], others + rest);
      TakePutAll(ss[1..], vs[1..], rest);
      Regrouped(Put(ss[0], vs[0]), others, rest);
      assert [vs[0]] + vs[1..] == vs;
    }
  }

  lemma Regrouped(a: Bytes, b: Bytes, c: Bytes)
    ensures a + b + c == a + (b + c)
  {
  }

  lemma {:induction false} PutTakeAll(ss: seq<Shape>, b: Bytes)
    requires TakeAll(ss, b).Some?
    ensures var (vs, rest) := TakeAll(ss, b).value; AllMatch(ss, vs) && b == PutAll(ss, vs) + rest
  {
    hide Put, Take, Matches;
    if ss != [] {
      var (v, after) := Take(ss[0], b).value;
      var (vs, rest) := TakeAll(ss, b).value;
      PutTake(ss[0], b);
      PutTakeAll(ss[1..], after);
      assert vs[1..] == TakeAll(ss[1..], after).value.0;
      assert Put(ss[0], v) + (PutAll(ss[1..], vs[1..]) + rest) == PutAll(ss, vs) + rest;
    }
  }

  // ---------------------------------------------------------------- the writer and the reader

  /** `value` shifted right by `k` bytes. */
  function Shifted(value: nat, k: nat): nat {
    if k == 0 then value else Shifted(value, k - 1) / 256
  }

  /** The shift-and-push loops of `AppendU16`, `AppendU32` and `AppendU64`. */
  method AppendBE(data: Bytes, value: nat, width: nat) returns (out: Bytes)
    ensures out == data + PutBE(value, width)
  {
    out := data;
    for k := width downto 0
      invariant out == data + PutBE(Shifted(value, k), width - k)
    {
      assert Shifted(value, k + 1) == Shifted(value, k) / 256;
      out := out + [Shifted(value, k) % 256];
    }
  }

  /** Appends the fields one after the other. */
  method AppendFields(data: Bytes, ss: seq<Shape>, vs: seq<Value>) returns (out: Bytes)
    requires AllMatch(ss, vs)
    ensures out == data + PutAll(ss, vs)
  {
    hide Put, Matches;
    out := data;
    for k := 0 to |ss|
      invariant out + PutAll(ss[k..], vs[k..]) == data + PutAll(ss, vs)
    {
      assert ss[k..][1..] == ss[k + 1..] && vs[k..][1..] == vs[k + 1..];
      ghost var before := out;
      out := AppendField(out, ss[k], vs[k]);
      assert before + (Put(ss[k], vs[k]) + PutAll(ss[k + 1..], vs[k + 1..])) == out + PutAll(ss[k + 1..], vs[k + 1..]);
    }
  }

  method AppendField(data: Bytes, s: Shape, v: Value) returns (out: Bytes)
    requires Matches(s, v)
    ensures out == data + Put(s, v)
  {
    hide PutBE;
    match s
    case Num(width) => out := AppendBE(data, v.n, width);
    case Blob(_) =>
      out := AppendBE(data, |v.bytes|, 4);
      out := out + v.bytes;
    case Raw(_, _) => out := data + v.bytes;
  }

  /** The source's `Decoder`: a payload and an offset that moves past every field read. */
  class Decoder {
    const payload: Bytes
    var offset: nat

    ghost predicate Valid()
      reads this
    {
      offset <= |payload|
    }

    ghost function Rest(): Bytes
      reads this
      requires Valid()
    {
      payload[offset..]
    }

    constructor (payload: Bytes)
      ensures Valid() && offset == 0 && this.payload == payload && Rest() == payload
    {
      this.payload := payload;
      offset := 0;
    }

    method Remaining() returns (n: nat)
      requires Valid()
      ensures n == |Rest()|
    {
      n := |payload| - offset;
    }

    /** `ReadU8` to `ReadU64`. */
    method ReadNumber(width: nat) returns (value: Option<nat>)
      requires Valid()
      modifies this
      ensures Valid()
      ensures var spec := TakeBE(old(Rest()), width);
              if spec.None? then value.None? && offset == old(offset)
              else value == Some(spec.value.0) && Rest() == spec.value.1
    {
      if |payload| - offset < width {
        return None;
      }
      var result: nat := 0;
      ghost var start := offset;
      for k := 0 to width
        invariant offset == start + k && offset <= |payload|
        invariant result == GetBE(payload[start..offset])
      {
        assert payload[start..offset + 1][..k] == payload[start..offset];
        result := 256 * result + payload[offset];
        offset := offset + 1;
      }
      assert payload[start..][..width] == payload[start..offset];
      value := Some(result);
    }

    /** `ReadString` and `ReadPayload`. */
    method ReadData(length: nat, max: nat) returns (data: Option<Bytes>)
      requires Valid()
      modifies this
      ensures Valid()
      ensures var spec := TakeBytes(old(Rest()), length);
              if length > max || spec.None? then data.None? && offset == old(offset)
              else data == Some(spec.value.0) && Rest() == spec.value.1
    {
      if length > max || length > |payload| - offset {
        return None;
      }
      data := Some(payload[offset..offset + length]);
      assert payload[offset..][..length] == payload[offset..offset + length];
      offset := offset + length;
    }

    method ReadField(s: Shape) returns (v: Option<Value>)
      requires Valid()
      modifies this
      ensures Valid()
      ensures var spec := Take(s, old(Rest()));
              if spec.None? then v.None? else v == Some(spec.value.0) && Rest() == spec.value.1
    {
      hide GetBE;
      match s
      case Num(width) =>
        var n := ReadNumber(width);
        v := if n.None? then None else Some(N(n.value));
      case Blob(max) =>
        var size := ReadNumber(4);
        if size.None? {
          return None;
        }
        var data := ReadData(size.value, max);
        v := if data.None? then None else Some(D(data.value));
      case Raw(length, max) =>
        var data := ReadData(length, max);
        v := if data.None? then None else Some(D(data.value));
    }

    method ReadFields(ss: seq<Shape>) returns (vs: Option<seq<Value>>)
      requires Valid()
      modifies this
      ensures Valid()
      ensures var spec := TakeAll(ss, old(Rest()));
              if spec.None? then vs.None? else vs == Some(spec.value.0) && Rest() == spec.value.1
    {
      hide Take;
      var values: seq<Value> := [];
      ghost var all := TakeAll(ss, Rest());
      assert all.Some? ==> [] + all.value.0 == all.value.0;
      for k := 0 to |ss|
        invariant Valid()
        invariant all == Resumed(values, ss[k..], Rest())
      {
        assert ss[k..][1..] == ss[k + 1..];
        ghost var rest := Rest();
        var v := ReadField(ss[k]);
        if v.None? {
          return None;
        }
        ResumeStep(values, ss[k..], rest);
        values := values + [v.value];
      }
      assert values + [] == values;
      vs := Some(values);
    }
  }

  /** The outcome once the remaining fields are read as well. */
  ghost function Resumed(values: seq<Value>, ss: seq<Shape>, rest: Bytes): Option<(seq<Value>, Bytes)> {
    var others := TakeAll(ss, rest);
    if others.None? then None else Some((values + others.value.0, others.value.1))
  }

  lemma ResumeStep(values: seq<Value>, ss: seq<Shape>, rest: Bytes)
    requires ss != [] && Take(ss[0], rest).Some?
    ensures var (v, after) := Take(ss[0], rest).value;
            Resumed(values, ss, rest) == Resumed(values + [v], ss[1..], after)
  {
    hide Take;
    var (v, after) := Take(ss[0], rest).value;
    var others := TakeAll(ss[1..], after);
    if others.Some? {
      assert values + ([v] + others.value.0) == values + [v] + others.value.0;
    }
  }

  // ---------------------------------------------------------------- repeated groups of fields

  ghost function PutMany(ss: seq<Shape>, rows: seq<seq<Value>>): Bytes
    requires forall r :: r in rows ==> AllMatch(ss, r)
  {
    if rows == [] then [] else PutAll(ss, rows[0]) + PutMany(ss, rows[1..])
  }

  function TakeMany(ss: seq<Shape>, count: nat, b: Bytes): Option<(seq<seq<Value>>, Bytes)>
    decreases count
  {
    if count == 0 then Some(([], b)) else
    var first := TakeAll(ss, b);
    if first.None? then None else
    var others := TakeMany(ss, count - 1, first.value.1);
    if others.None? then None else Some(([first.value.0] + others.value.0, others.value.1))
  }

  lemma {:induction false} TakePutMany(ss: seq<Shape>, rows: seq<seq<Value>>, rest: Bytes)
    requires forall r :: r in rows ==> AllMatch(ss, r)
    ensures TakeMany(ss, |rows|, PutMany(ss, rows) + rest) == Some((rows, rest))
  {
    hide PutAll, TakeAll, AllMatch;
    if rows == [] {
      assert PutMany(ss, rows) + rest == rest;
    } else {
      assert rows == [rows[0]] + rows[1..];
      var tail := PutMany(ss, rows[1..]) + rest;
      assert PutMany(ss, rows) + rest == PutAll(ss, rows[0]) + tail;
      TakePutAll(ss, rows[0], tail);
      TakePutMany(ss, rows[1..], rest);
    }
  }

  lemma {:induction false} PutTakeMany(ss: seq<Shape>, count: nat, b: Bytes)
    requires TakeMany(ss, count, b).Some?
    ensures var (rows, rest) := TakeMany(ss, count, b).value;
            |rows| == count && (forall r :: r in rows ==> AllMatch(ss, r)) && b == PutMany(ss, rows) + rest
    decreases count
  {
    hide PutAll, TakeAll, AllMatch;
    if count > 0 {
      var (row, after) := TakeAll(ss, b).value;
      var (rows, rest) := TakeMany(ss, count, b).value;
      PutTakeAll(ss, b);
      PutTakeMany(ss, count - 1, after);
      assert rows[1..] == TakeMany(ss, count - 1, after).value.0;
      assert PutAll(ss, row) + (PutMany(ss, rows[1..]) + rest) == PutMany(ss, rows) + rest;
    }
  }
}
