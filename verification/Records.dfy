/** The record format of the hard state and log files, and what survives truncation or damage. */
module Records {
  import opened Common
  import opened Codec
  import opened Checksums

  const FORMAT_VERSION: nat := 1
  const HARD_STATE_RECORD: nat := 1
  const LOG_ENTRY_RECORD: nat := 2
  const MAX_PAYLOAD_LENGTH: nat := 64 * 1024 * 1024
  const RECORD_HEADER_SIZE: nat := 40

  datatype Record = Record(kind: nat, index: LogIndex, term: Term, payload: Bytes)

  // ---------------------------------------------------------------- format

  /** Version, type, index, term and payload length. */
  function HeaderBytes(r: Record): (b: Bytes)
    ensures |b| == 32
  {
    PutLE(FORMAT_VERSION, 4) + (PutLE(r.kind, 4) + (PutLE(r.index, 8) + (PutLE(r.term, 8) + PutLE(|r.payload|, 8))))
  }

  function ChecksumInput(r: Record): Bytes {
    HeaderBytes(r) + r.payload
  }

  function RecordBytes(r: Record): (b: Bytes)
    ensures |b| == RECORD_HEADER_SIZE + |r.payload|
  {
    HeaderBytes(r) + (PutLE(Checksum(ChecksumInput(r)), 8) + r.payload)
  }

  function RecordsBytes(rs: seq<Record>): Bytes {
    if rs == [] then [] else RecordBytes(rs[0]) + RecordsBytes(rs[1..])
  }

  /** The records the storage writes. */
  predicate Fits(r: Record) {
    && (r.kind == HARD_STATE_RECORD || r.kind == LOG_ENTRY_RECORD)
    && r.index < U64_LIMIT && r.term < U64_LIMIT && |r.payload| <= MAX_PAYLOAD_LENGTH
  }

  ghost predicate AllFit(rs: seq<Record>) {
    forall r :: r in rs ==> Fits(r)
  }

  datatype Taken = Whole(record: Record, rest: Bytes) | Torn | Broken

  function Field(b: Bytes, at: nat, width: nat): nat
    requires at + width <= |b|
  {
    GetLE(b[at..at + width])
  }

  /** One turn of the `DecodeRecords` loop on the bytes that are left. */
  function TakeRecord(b: Bytes): Taken {
    if |b| < RECORD_HEADER_SIZE then Torn
    else
      var kind, size := Field(b, 4, 4), Field(b, 24, 8);
      if Field(b, 0, 4) != FORMAT_VERSION then Broken
      else if kind != HARD_STATE_RECORD && kind != LOG_ENTRY_RECORD then Broken
      else if size > MAX_PAYLOAD_LENGTH then Broken
      else if size > |b| - RECORD_HEADER_SIZE then Torn
      else
        var r := Record(kind, Field(b, 8, 8), Field(b, 16, 8), b[40..40 + size]);
        if Checksum(ChecksumInput(r)) != Field(b, 32, 8) then Broken else Whole(r, b[40 + size..])
  }

  /** `DecodeRecords`; the flag reports an incomplete tail, which only the log may have. */
  function DecodeRecords(b: Bytes, allowTorn: bool): Result<(seq<Record>, bool)>
    decreases |b|
  {
    if b == [] then Success(([], false))
    else match TakeRecord(b)
      case Torn => if allowTorn then Success(([], true)) else Failure(Corruption)
      case Broken => Failure(Corruption)
      case Whole(r, rest) =>
        var others := DecodeRecords(rest, allowTorn);
        if others.Failure? then others else Success(([r] + others.value.0, others.value.1))
  }

  // ---------------------------------------------------------------- one record

  lemma HeaderParts(r: Record, tail: Bytes)
    ensures var b := HeaderBytes(r) + tail;
            && b[0..4] == PutLE(FORMAT_VERSION, 4) && b[4..8] == PutLE(r.kind, 4) && b[8..16] == PutLE(r.index, 8)
            && b[16..24] == PutLE(r.term, 8) && b[24..32] == PutLE(|r.payload|, 8) && b[32..] == tail
  {
    hide PutLE;
  }

  lemma HeaderFields(r: Record, tail: Bytes)
    requires Fits(r)
    ensures var b := HeaderBytes(r) + tail;
            && Field(b, 0, 4) == FORMAT_VERSION && Field(b, 4, 4) == r.kind && Field(b, 8, 8) == r.index
            && Field(b, 16, 8) == r.term && Field(b, 24, 8) == |r.payload|
  {
    HeaderParts(r, tail);
    hide PutLE, GetLE, HeaderBytes;
    Pow256Values();
    GetPutLE(FORMAT_VERSION, 4);
    GetPutLE(r.kind, 4);
    GetPutLE(r.index, 8);
    GetPutLE(r.term, 8);
    GetPutLE(|r.payload|, 8);
  }

  lemma TakeRecordBytes(r: Record, rest: Bytes)
    requires Fits(r)
    ensures TakeRecord(RecordBytes(r) + rest) == Whole(r, rest)
  {
    hide PutLE, GetLE, HeaderBytes, Field, Checksum;
    var sum := Checksum(ChecksumInput(r));
    var tail := PutLE(sum, 8) + (r.payload + rest);
    var b := RecordBytes(r) + rest;
    assert b == HeaderBytes(r) + tail;
    HeaderFields(r, tail);
    SumField(r, sum, r.payload + rest);
    assert b[40..40 + |r.payload|] == r.payload;
    assert b[40 + |r.payload|..] == rest;
  }

  lemma SumField(r: Record, sum: nat, tail: Bytes)
    requires sum < U64_LIMIT
    ensures Field(HeaderBytes(r) + (PutLE(sum, 8) + tail), 32, 8) == sum
  {
    hide PutLE, GetLE, HeaderBytes;
    Pow256Values();
    assert (HeaderBytes(r) + (PutLE(sum, 8) + tail))[32..40] == PutLE(sum, 8);
    GetPutLE(sum, 8);
  }

  lemma TakeTornRecord(r: Record, k: nat)
    requires Fits(r) && k < |RecordBytes(r)|
    ensures TakeRecord(RecordBytes(r)[..k]) == Torn
  {
    hide PutLE, GetLE, HeaderBytes, Field, Checksum;
    if k >= RECORD_HEADER_SIZE {
      var tail := PutLE(Checksum(ChecksumInput(r)), 8) + r.payload[..k - 40];
      assert RecordBytes(r)[..k] == HeaderBytes(r) + tail;
      HeaderFields(r, tail);
    }
  }

  // ---------------------------------------------------------------- whole and torn files

  lemma {:induction false} DecodeRecordsBytes(rs: seq<Record>, allowTorn: bool)
    requires AllFit(rs)
    ensures DecodeRecords(RecordsBytes(rs), allowTorn) == Success((rs, false))
  {
    hide TakeRecord, Fits;
    if rs != [] {
      assert rs == [rs[0]] + rs[1..];
      TakeRecordBytes(rs[0], RecordsBytes(rs[1..]));
      DecodeRecordsBytes(rs[1..], allowTorn);
    }
  }

  /** How many whole records the first `k` bytes hold. */
  function WholeRecords(rs: seq<Record>, k: nat): (n: nat)
    ensures n <= |rs|
  {
    if rs == [] || k < |RecordBytes(rs[0])| then 0 else 1 + WholeRecords(rs[1..], k - |RecordBytes(rs[0])|)
  }

  /** Any prefix of a log file decodes to exactly the whole records it holds, and the rest is noticed. */
  lemma {:induction false} DecodePrefix(rs: seq<Record>, k: nat)
    requires AllFit(rs) && k <= |RecordsBytes(rs)|
    ensures var n := WholeRecords(rs, k);
            && |RecordsBytes(rs[..n])| <= k
            && DecodeRecords(RecordsBytes(rs)[..k], true) == Success((rs[..n], k != |RecordsBytes(rs[..n])|))
  {
    hide TakeRecord, Fits, RecordBytes;
    var b := RecordsBytes(rs)[..k];
    if rs != [] {
      var first, others := rs[0], rs[1..];
      assert rs == [first] + others;
      var size := |RecordBytes(first)|;
      if k < size {
        assert b == RecordBytes(first)[..k];
        TakeTornRecord(first, k);
        assert rs[..0] == [];
      } else {
        var n := WholeRecords(others, k - size);
        assert b == RecordBytes(first) + RecordsBytes(others)[..k - size];
        TakeRecordBytes(first, RecordsBytes(others)[..k - size]);
        DecodePrefix(others, k - size);
        assert rs[..n + 1] == [first] + others[..n];
        assert rs[..n + 1][1..] == others[..n];
      }
    }
  }

  // ---------------------------------------------------------------- damaged files

  /** The bytes that carry the payload length. */
  predicate InLengthField(i: nat) {
    24 <= i < 32
  }

  lemma {:induction false} FieldDiffers(b: Bytes, i: nat, y: Byte, at: nat, width: nat)
    requires at <= i < at + width <= |b| && b[i] != y
    ensures Field(b[i := y], at, width) != Field(b, at, width)
  {
    hide GetLE, PutLE;
    PutGetLE(b[at..at + width]);
    PutGetLE(b[i := y][at..at + width]);
    assert b[i := y][at..at + width][i - at] != b[at..at + width][i - at];
  }

  /** What the checksum covers is what was read. */
  lemma InputIsRead(b: Bytes, r: Record)
    requires |b| >= RECORD_HEADER_SIZE && |r.payload| == Field(b, 24, 8)
    requires Field(b, 0, 4) == FORMAT_VERSION
    requires r.kind == Field(b, 4, 4) && r.index == Field(b, 8, 8) && r.term == Field(b, 16, 8)
    ensures HeaderBytes(r) == b[..32]
  {
    hide GetLE, PutLE;
    PutGetLE(b[0..4]);
    PutGetLE(b[4..8]);
    PutGetLE(b[8..16]);
    PutGetLE(b[16..24]);
    PutGetLE(b[24..32]);
    assert b[..32] == b[0..4] + (b[4..8] + (b[8..16] + (b[16..24] + b[24..32])));
  }

  lemma SameField(b: Bytes, i: nat, y: Byte, at: nat, width: nat)
    requires at + width <= |b| && i < |b| && !(at <= i < at + width)
    ensures Field(b[i := y], at, width) == Field(b, at, width)
  {
    assert b[i := y][at..at + width] == b[at..at + width];
  }

  lemma DamagedSum(b: Bytes, i: nat, y: Byte, size: nat)
    requires 40 + size <= |b| && i < 40 + size && b[i] != y
    requires Checksum(b[..32] + b[40..40 + size]) == Field(b, 32, 8)
    ensures var d := b[i := y]; Checksum(d[..32] + d[40..40 + size]) != Field(d, 32, 8)
  {
    hide Checksum, Field;
    var d := b[i := y];
    if i < 32 {
      var before, after := b[..i], b[i + 1..32] + b[40..40 + size];
      assert b[..32] + b[40..40 + size] == before + [b[i]] + after;
      assert d[..32] + d[40..40 + size] == before + [y] + after;
      ChangedByteDetected(before, b[i], y, after);
      SameField(b, i, y, 32, 8);
    } else if i < 40 {
      assert d[..32] + d[40..40 + size] == b[..32] + b[40..40 + size];
      FieldDiffers(b, i, y, 32, 8);
    } else {
      var before, after := b[..32] + b[40..i], b[i + 1..40 + size];
      assert b[..32] + b[40..40 + size] == before + [b[i]] + after;
      assert d[..32] + d[40..40 + size] == before + [y] + after;
      ChangedByteDetected(before, b[i], y, after);
      SameField(b, i, y, 32, 8);
    }
  }

  /** A record in which one byte outside the length field was changed is not accepted. */
  lemma ChangedByteBreaksRecord(r: Record, rest: Bytes, i: nat, y: Byte)
    requires Fits(r) && i < |RecordBytes(r)| && RecordBytes(r)[i] != y && !InLengthField(i)
    ensures TakeRecord((RecordBytes(r) + rest)[i := y]) == Broken
  {
    hide PutLE, GetLE, HeaderBytes, Field, Checksum;
    var b := RecordBytes(r) + rest;
    var d, size := b[i := y], |r.payload|;
    TakeRecordBytes(r, rest);
    assert Field(b, 24, 8) == size by {
      HeaderFields(r, PutLE(Checksum(ChecksumInput(r)), 8) + (r.payload + rest));
      assert b == HeaderBytes(r) + (PutLE(Checksum(ChecksumInput(r)), 8) + (r.payload + rest));
    }
    InputIsRead(b, r);
    DamagedSum(b, i, y, size);
    SameField(b, i, y, 24, 8);
    if Field(d, 0, 4) == FORMAT_VERSION {
      InputIsRead(d, Record(Field(d, 4, 4), Field(d, 8, 8), Field(d, 16, 8), d[40..40 + size]));
    }
  }

  lemma RecordsBytesConcat(a: seq<Record>, b: seq<Record>)
    ensures RecordsBytes(a + b) == RecordsBytes(a) + RecordsBytes(b)
  {
    if a == [] {
      assert a + b == b;
    } else {
      assert (a + b)[1..] == a[1..] + b;
    }
  }

  lemma {:induction false} DecodeAfter(before: seq<Record>, tail: Bytes, allowTorn: bool)
    requires AllFit(before) && DecodeRecords(tail, allowTorn).Failure?
    ensures DecodeRecords(RecordsBytes(before) + tail, allowTorn) == DecodeRecords(tail, allowTorn)
  {
    hide TakeRecord, Fits, RecordBytes;
    if before == [] {
      assert RecordsBytes(before) + tail == tail;
    } else {
      assert before == [before[0]] + before[1..];
      assert RecordsBytes(before) + tail == RecordBytes(before[0]) + (RecordsBytes(before[1..]) + tail);
      TakeRecordBytes(before[0], RecordsBytes(before[1..]) + tail);
      DecodeAfter(before[1..], tail, allowTorn);
    }
  }

  /** A file in which one byte of one record, outside its length field, was changed is reported as corrupt. */
  lemma ChangedByteIsCorruption(before: seq<Record>, r: Record, after: seq<Record>, i: nat, y: Byte, allowTorn: bool)
    requires AllFit(before) && Fits(r) && i < |RecordBytes(r)| && RecordBytes(r)[i] != y && !InLengthField(i)
    ensures var b, at := RecordsBytes(before + [r] + after), |RecordsBytes(before)| + i;
            at < |b| && DecodeRecords(b[at := y], allowTorn) == Failure(Corruption)
  {
    hide TakeRecord, Fits, RecordBytes;
    RecordsBytesConcat(before + [r], after);
    RecordsBytesConcat(before, [r]);
    var tail := RecordBytes(r) + RecordsBytes(after);
    assert RecordsBytes([r]) == RecordBytes(r) + [] == RecordBytes(r);
    var b := RecordsBytes(before + [r] + after);
    assert b == RecordsBytes(before) + tail;
    assert b[|RecordsBytes(before)| + i := y] == RecordsBytes(before) + tail[i := y];
    ChangedByteBreaksRecord(r, RecordsBytes(after), i, y);
    DecodeAfter(before, tail[i := y], allowTorn);
  }

  // ---------------------------------------------------------------- the writer and the reader

  method AppendRecord(data: Bytes, r: Record) returns (out: Bytes)
    ensures out == data + RecordBytes(r)
  {
    hide PutLE, Checksum;
    var input := AppendLE([], FORMAT_VERSION, 4);
    input := AppendLE(input, r.kind, 4);
    input := AppendLE(input, r.index, 8);
    input := AppendLE(input, r.term, 8);
    input := AppendLE(input, |r.payload|, 8);
    assert input == HeaderBytes(r);
    var sum := Compute(input + r.payload);
    out := AppendLE(data, FORMAT_VERSION, 4);
    out := AppendLE(out, r.kind, 4);
    out := AppendLE(out, r.index, 8);
    out := AppendLE(out, r.term, 8);
    out := AppendLE(out, |r.payload|, 8);
    assert out == data + HeaderBytes(r);
    hide HeaderBytes;
    out := AppendLE(out, sum, 8);
    out := out + r.payload;
    assert out == data + RecordBytes(r);
  }

  /** The outcome once `rest` is decoded as well. */
  ghost function Resumed(decoded: seq<Record>, rest: Bytes, allowTorn: bool): Result<(seq<Record>, bool)> {
    var others := DecodeRecords(rest, allowTorn);
    if others.Failure? then others else Success((decoded + others.value.0, others.value.1))
  }

  lemma ResumeStep(decoded: seq<Record>, rest: Bytes, allowTorn: bool)
    requires rest != [] && TakeRecord(rest).Whole?
    ensures var t := TakeRecord(rest); Resumed(decoded, rest, allowTorn) == Resumed(decoded + [t.record], t.rest, allowTorn)
  {
    hide TakeRecord;
    var t := TakeRecord(rest);
    var others := DecodeRecords(t.rest, allowTorn);
    if others.Success? {
      assert decoded + ([t.record] + others.value.0) == decoded + [t.record] + others.value.0;
    }
  }

  method ReadRecord(b: Bytes, offset: nat) returns (taken: Taken, next: nat)
    requires offset < |b|
    ensures taken == TakeRecord(b[offset..])
    ensures offset <= next <= |b|
    ensures taken.Whole? ==> next > offset && taken.rest == b[next..]
  {
    hide GetLE, Checksum;
    if |b| - offset < RECORD_HEADER_SIZE {
      return Torn, offset;
    }
    var version, at := ReadLE(b, offset, 4);
    var kind, size, index, term, sum;
    kind, at := ReadLE(b, at, 4);
    index, at := ReadLE(b, at, 8);
    term, at := ReadLE(b, at, 8);
    size, at := ReadLE(b, at, 8);
    sum, at := ReadLE(b, at, 8);
    FieldsRead(b[offset..]);
    if version.value != FORMAT_VERSION {
      return Broken, at;
    }
    if kind.value != HARD_STATE_RECORD && kind.value != LOG_ENTRY_RECORD {
      return Broken, at;
    }
    if size.value > MAX_PAYLOAD_LENGTH {
      return Broken, at;
    }
    if size.value > |b| - at {
      return Torn, at;
    }
    next := at + size.value;
    var r := Record(kind.value, index.value, term.value, b[at..next]);
    assert b[offset..][40..40 + size.value] == b[at..next];
    assert b[offset..][40 + size.value..] == b[next..];
    var expected := Compute(HeaderBytes(r) + r.payload);
    taken := if expected != sum.value then Broken else Whole(r, b[next..]);
  }

  lemma FieldsRead(b: Bytes)
    requires |b| >= RECORD_HEADER_SIZE
    ensures TakeLE(b, 4) == Some((Field(b, 0, 4), b[4..])) && TakeLE(b[4..], 4) == Some((Field(b, 4, 4), b[8..]))
    ensures TakeLE(b[8..], 8) == Some((Field(b, 8, 8), b[16..])) && TakeLE(b[16..], 8) == Some((Field(b, 16, 8), b[24..]))
    ensures TakeLE(b[24..], 8) == Some((Field(b, 24, 8), b[32..])) && TakeLE(b[32..], 8) == Some((Field(b, 32, 8), b[40..]))
  {
    hide GetLE;
    assert b[0..4] == b[..4];
    assert b[4..][..4] == b[4..8] && b[4..][4..] == b[8..];
    assert b[8..][..8] == b[8..16] && b[8..][8..] == b[16..];
    assert b[16..][..8] == b[16..24] && b[16..][8..] == b[24..];
    assert b[24..][..8] == b[24..32] && b[24..][8..] == b[32..];
    assert b[32..][..8] == b[32..40] && b[32..][8..] == b[40..];
  }

  method DecodeAll(b: Bytes, allowTorn: bool) returns (records: Result<seq<Record>>, torn: bool)
    ensures var spec := DecodeRecords(b, allowTorn);
            if spec.Failure? then records == Failure(spec.error)
            else records == Success(spec.value.0) && torn == spec.value.1
  {
    hide TakeRecord;
    var decoded: seq<Record> := [];
    var offset: nat := 0;
    assert b[0..] == b;
    ghost var all := DecodeRecords(b, allowTorn);
    assert all.Success? ==> [] + all.value.0 == all.value.0;
    torn := false;
    while offset < |b|
      invariant offset <= |b| && !torn
      invariant all == Resumed(decoded, b[offset..], allowTorn)
      decreases |b| - offset
    {
      var taken, next := ReadRecord(b, offset);
      match taken
      case Torn =>
        assert decoded + [] == decoded;
        return if allowTorn then Success(decoded) else Failure(Corruption), true;
      case Broken =>
        return Failure(Corruption), false;
      case Whole(r, _) =>
        ResumeStep(decoded, b[offset..], allowTorn);
        decoded := decoded + [r];
        offset := next;
    }
    assert decoded + [] == decoded;
    records := Success(decoded);
  }
}
