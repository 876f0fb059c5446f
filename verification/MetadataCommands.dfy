/** The byte format of replicated metadata commands. */
module MetadataCommands {
  import opened Common
  import opened Codec
  import opened Fields

  const FORMAT_VERSION: nat := 1
  const OPAQUE_OPERATION: Byte := 1
  const STORE_OPERATION: Byte := 2
  const MAX_ID_BYTES: nat := 4 * 1024
  const MAX_TARGET_BYTES: nat := 4 * 1024
  const MAX_PAYLOAD_BYTES: nat := 4 * 1024 * 1024

  datatype MetadataCommand = MetadataCommand(
    kind: Byte,
    commandId: Bytes,
    targetId: Bytes,
    expected: Option<nat>,
    payload: Bytes
  )

  /** `ValidateMetadataCommand`. */
  predicate Valid(c: MetadataCommand) {
    && (c.kind == OPAQUE_OPERATION || c.kind == STORE_OPERATION)
    && 0 < |c.commandId| <= MAX_ID_BYTES
    && 0 < |c.targetId| <= MAX_TARGET_BYTES
    && |c.payload| <= MAX_PAYLOAD_BYTES
    && c.expected != Some(0)
  }

  /** The range of the source's 64-bit generation. */
  predicate InRange(c: MetadataCommand) {
    c.expected.Some? ==> c.expected.value < U64_LIMIT
  }

  // ---------------------------------------------------------------- format

  const HEADER_SHAPES := [Num(1), Num(1), Num(2), Num(4), Num(4), Num(4)]

  function HeaderValues(c: MetadataCommand): seq<Value> {
    [N(FORMAT_VERSION), N(c.kind), N(if c.expected.Some? then 1 else 0),
     N(|c.commandId|), N(|c.targetId|), N(|c.payload|)]
  }

  function TailShapes(flagged: bool, id: nat, target: nat, payload: nat): seq<Shape> {
    (if flagged then [Num(8)] else []) +
    [Raw(id, MAX_ID_BYTES), Raw(target, MAX_TARGET_BYTES), Raw(payload, MAX_PAYLOAD_BYTES)]
  }

  function TailValues(c: MetadataCommand): seq<Value> {
    (if c.expected.Some? then [N(c.expected.value)] else []) + [D(c.commandId), D(c.targetId), D(c.payload)]
  }

  function ShapesOf(c: MetadataCommand): seq<Shape> {
    TailShapes(c.expected.Some?, |c.commandId|, |c.targetId|, |c.payload|)
  }

  lemma FieldsMatch(c: MetadataCommand)
    requires Valid(c) && InRange(c)
    ensures AllMatch(HEADER_SHAPES, HeaderValues(c)) && AllMatch(ShapesOf(c), TailValues(c))
  {
    Pow256Values();
  }

  ghost function CommandBytes(c: MetadataCommand): Bytes
    requires Valid(c) && InRange(c)
  {
    FieldsMatch(c);
    PutAll(HEADER_SHAPES, HeaderValues(c)) + PutAll(ShapesOf(c), TailValues(c))
  }

  ghost function Encode(c: MetadataCommand): Result<Bytes>
    requires InRange(c)
  {
    if !Valid(c) then Failure(InvalidArgument) else Success(CommandBytes(c))
  }

  /** The fields after the header, as a command of the header's type. */
  function FromTail(kind: Byte, flagged: bool, vs: seq<Value>): MetadataCommand
    requires |vs| == if flagged then 4 else 3
    requires flagged ==> vs[0].N?
    requires vs[|vs| - 3].D? && vs[|vs| - 2].D? && vs[|vs| - 1].D?
  {
    MetadataCommand(kind, vs[|vs| - 3].bytes, vs[|vs| - 2].bytes, if flagged then Some(vs[0].n) else None,
                    vs[|vs| - 1].bytes)
  }

  ghost predicate GoodHeader(vs: seq<Value>) {
    && AllMatch(HEADER_SHAPES, vs)
    && vs[0].n == FORMAT_VERSION && (vs[1].n == OPAQUE_OPERATION || vs[1].n == STORE_OPERATION) && vs[2].n <= 1
  }

  ghost function Decode(b: Bytes): Result<MetadataCommand> {
    var header := TakeAll(HEADER_SHAPES, b);
    if header.None? || !GoodHeader(header.value.0) then Failure(Corruption) else
    var h := header.value.0;
    var shapes := TailShapes(h[2].n == 1, h[3].n, h[4].n, h[5].n);
    var tail := TakeAll(shapes, header.value.1);
    if tail.None? || tail.value.1 != [] then Failure(Corruption) else
    PutTakeAll(shapes, header.value.1);
    TailMatches(h[2].n == 1, h[3].n, h[4].n, h[5].n, tail.value.0);
    var c := FromTail(h[1].n, h[2].n == 1, tail.value.0);
    if !Valid(c) then Failure(InvalidArgument) else Success(c)
  }

  lemma TailMatches(flagged: bool, id: nat, target: nat, payload: nat, vs: seq<Value>)
    requires AllMatch(TailShapes(flagged, id, target, payload), vs)
    ensures |vs| == (if flagged then 4 else 3) && (flagged ==> vs[0].N? && vs[0].n < Pow256(8))
    ensures vs[|vs| - 3].D? && vs[|vs| - 2].D? && vs[|vs| - 1].D?
    ensures |vs[|vs| - 3].bytes| == id && |vs[|vs| - 2].bytes| == target && |vs[|vs| - 1].bytes| == payload
  {
    assert Matches(TailShapes(flagged, id, target, payload)[0], vs[0]);
    var n := |vs|;
    assert Matches(TailShapes(flagged, id, target, payload)[n - 3], vs[n - 3]);
    assert Matches(TailShapes(flagged, id, target, payload)[n - 2], vs[n - 2]);
    assert Matches(TailShapes(flagged, id, target, payload)[n - 1], vs[n - 1]);
  }

  // ---------------------------------------------------------------- one command, one byte string

  /** What follows an encoded command is left over. */
  lemma TakeCommandBytes(c: MetadataCommand, rest: Bytes)
    requires Valid(c) && InRange(c)
    ensures TakeAll(HEADER_SHAPES, CommandBytes(c) + rest)
            == Some((HeaderValues(c), TailBytes(c) + rest))
    ensures TakeAll(ShapesOf(c), TailBytes(c) + rest) == Some((TailValues(c), rest))
  {
    hide TakeAll, PutAll, AllMatch;
    FieldsMatch(c);
    assert CommandBytes(c) + rest == PutAll(HEADER_SHAPES, HeaderValues(c)) + (TailBytes(c) + rest);
    TakePutAll(HEADER_SHAPES, HeaderValues(c), TailBytes(c) + rest);
    TakePutAll(ShapesOf(c), TailValues(c), rest);
  }

  ghost function TailBytes(c: MetadataCommand): Bytes
    requires Valid(c) && InRange(c)
  {
    FieldsMatch(c);
    PutAll(ShapesOf(c), TailValues(c))
  }

  lemma HeaderIsGood(c: MetadataCommand)
    requires Valid(c) && InRange(c)
    ensures GoodHeader(HeaderValues(c))
  {
    FieldsMatch(c);
  }

  lemma TailBack(c: MetadataCommand)
    requires |TailValues(c)| == if c.expected.Some? then 4 else 3
    ensures FromTail(c.kind, c.expected.Some?, TailValues(c)) == c
  {
  }

  /** Decoding the encoding of a valid command gives back the command; anything appended is rejected. */
  lemma DecodeExtended(c: MetadataCommand, rest: Bytes)
    requires Valid(c) && InRange(c)
    ensures Decode(CommandBytes(c) + rest) == if rest == [] then Success(c) else Failure(Corruption)
  {
    TakeCommandBytes(c, rest);
    HeaderIsGood(c);
    TailBack(c);
    hide TakeAll, PutAll, AllMatch, CommandBytes, TailBytes, GoodHeader, Valid;
  }

  lemma RoundTrip(c: MetadataCommand)
    requires Valid(c) && InRange(c)
    ensures Encode(c).Success? && Decode(Encode(c).value) == Success(c)
  {
    DecodeExtended(c, []);
    assert CommandBytes(c) + [] == CommandBytes(c);
  }

  lemma DecodedShape(b: Bytes)
    requires Decode(b).Success?
    ensures Valid(Decode(b).value) && InRange(Decode(b).value)
    ensures TakeAll(HEADER_SHAPES, b).Some?
    ensures var c := Decode(b).value;
            var (h, after) := TakeAll(HEADER_SHAPES, b).value;
            && h == HeaderValues(c)
            && TakeAll(ShapesOf(c), after) == Some((TailValues(c), []))
  {
    hide TakeAll, PutAll;
    Pow256Values();
    var (h, after) := TakeAll(HEADER_SHAPES, b).value;
    var shapes := TailShapes(h[2].n == 1, h[3].n, h[4].n, h[5].n);
    PutTakeAll(shapes, after);
    var vs := TakeAll(shapes, after).value.0;
    TailMatches(h[2].n == 1, h[3].n, h[4].n, h[5].n, vs);
    var c := Decode(b).value;
    assert TailValues(c) == vs;
    assert h == HeaderValues(c);
  }

  /** Encoding whatever was decoded gives back the same bytes. */
  lemma EncodeDecoded(b: Bytes)
    requires Decode(b).Success?
    ensures InRange(Decode(b).value) && Encode(Decode(b).value) == Success(b)
  {
    DecodedShape(b);
    hide TakeAll, PutAll, AllMatch, Decode, HeaderValues, TailValues, ShapesOf;
    var c := Decode(b).value;
    var after := TakeAll(HEADER_SHAPES, b).value.1;
    PutTakeAll(HEADER_SHAPES, b);
    PutTakeAll(ShapesOf(c), after);
    assert TailBytes(c) + [] == TailBytes(c);
  }

  /** Every strict prefix and every extension of an encoding is rejected. */
  lemma OnlyTheEncodingDecodes(c: MetadataCommand, k: nat, rest: Bytes)
    requires Valid(c) && InRange(c) && k < |CommandBytes(c)| && rest != []
    ensures Decode(CommandBytes(c)[..k]).Failure?
    ensures Decode(CommandBytes(c) + rest) == Failure(Corruption)
  {
    hide Decode, CommandBytes, Valid;
    DecodeExtended(c, rest);
    var b := CommandBytes(c);
    if Decode(b[..k]).Success? {
      EncodeDecoded(b[..k]);
      var d := Decode(b[..k]).value;
      assert b == CommandBytes(d) + b[k..];
      DecodeExtended(d, b[k..]);
      RoundTrip(c);
    }
  }

  // ---------------------------------------------------------------- the writer and the reader

  method EncodeMetadataCommand(c: MetadataCommand) returns (payload: Result<Bytes>)
    requires InRange(c)
    ensures payload == Encode(c)
  {
    if !Valid(c) {
      return Failure(InvalidArgument);
    }
    FieldsMatch(c);
    hide PutAll, AllMatch;
    var encoded := AppendFields([], HEADER_SHAPES, HeaderValues(c));
    encoded := AppendFields(encoded, ShapesOf(c), TailValues(c));
    assert [] + PutAll(HEADER_SHAPES, HeaderValues(c)) == PutAll(HEADER_SHAPES, HeaderValues(c));
    payload := Success(encoded);
  }

  method DecodeMetadataCommand(payload: Bytes) returns (c: Result<MetadataCommand>)
    ensures c == Decode(payload)
  {
    hide TakeAll, PutAll;
    var decoder := new Decoder(payload);
    var header := decoder.ReadFields(HEADER_SHAPES);
    if header.None? {
      return Failure(Corruption);
    }
    PutTakeAll(HEADER_SHAPES, payload);
    var h := header.value;
    if h[0].n != FORMAT_VERSION || h[2].n > 1 {
      return Failure(Corruption);
    }
    if h[1].n != OPAQUE_OPERATION && h[1].n != STORE_OPERATION {
      return Failure(Corruption);
    }
    var flagged := h[2].n == 1;
    var shapes := TailShapes(flagged, h[3].n, h[4].n, h[5].n);
    ghost var after := decoder.Rest();
    var tail := decoder.ReadFields(shapes);
    if tail.None? {
      return Failure(Corruption);
    }
    PutTakeAll(shapes, after);
    TailMatches(flagged, h[3].n, h[4].n, h[5].n, tail.value);
    var left := decoder.Remaining();
    if left != 0 {
      return Failure(Corruption);
    }
    var decoded := FromTail(h[1].n, flagged, tail.value);
    c := if Valid(decoded) then Success(decoded) else Failure(InvalidArgument);
  }
}
