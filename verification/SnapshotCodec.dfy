/** The byte format of snapshot files: a little-endian body followed by its checksum. */
module SnapshotCodec {
  import opened Common
  import opened Codec
  import opened Checksums
  import opened RaftTypes
  import opened StorageModel

  const SNAPSHOT_FORMAT_VERSION: nat := 1
  const MAX_SNAPSHOT_PAYLOAD: nat := 64 * 1024 * 1024
  const MAX_MEMBERS: nat := 10000
  const MAX_HOST_LENGTH: nat := 4096

  // ---------------------------------------------------------------- format

  function MemberBytes(m: Member): Bytes {
    PutLE(m.id, 8) + (PutLE(m.address.port, 4) + (PutLE(|m.address.host|, 8) + m.address.host))
  }

  function ListBytes(members: seq<Member>): Bytes {
    if members == [] then [] else MemberBytes(members[0]) + ListBytes(members[1..])
  }

  function MembersBytes(members: seq<Member>): Bytes {
    PutLE(|members|, 8) + ListBytes(members)
  }

  function HeaderBytes(s: Snapshot): Bytes {
    PutLE(SNAPSHOT_FORMAT_VERSION, 4) + (PutLE(s.index, 8) + (PutLE(s.term, 8)
    + (PutLE(s.membership.configurationId, 8) + PutLE(if s.membership.inTransition then 1 else 0, 4))))
  }

  function TailBytes(s: Snapshot): Bytes {
    MembersBytes(s.membership.voters) + (MembersBytes(s.membership.learners) + (PutLE(|s.payload|, 8) + s.payload))
  }

  function BodyBytes(s: Snapshot): Bytes {
    HeaderBytes(s) + TailBytes(s)
  }

  function SnapshotBytes(s: Snapshot): Bytes {
    BodyBytes(s) + PutLE(Checksum(BodyBytes(s)), 8)
  }

  predicate GoodMember(m: Member) {
    m.id != 0 && |m.address.host| <= MAX_HOST_LENGTH
  }

  ghost predicate GoodMembers(members: seq<Member>) {
    forall m :: m in members ==> GoodMember(m)
  }

  /** `EncodeSnapshotData`. */
  ghost function Encode(s: Snapshot): Result<Bytes> {
    if s.index == 0 || s.term == 0 || |s.payload| > MAX_SNAPSHOT_PAYLOAD
       || !GoodMembers(s.membership.voters) || !GoodMembers(s.membership.learners)
    then Failure(InvalidArgument)
    else Success(SnapshotBytes(s))
  }

  function TakeMember(b: Bytes): Option<(Member, Bytes)> {
    var id := TakeLE(b, 8);
    if id.None? then None else
    var port := TakeLE(id.value.1, 4);
    if port.None? then None else
    var size := TakeLE(port.value.1, 8);
    if size.None? then None else
    if id.value.0 == 0 || port.value.0 > 65535 || size.value.0 > MAX_HOST_LENGTH then None else
    var host := TakeBytes(size.value.1, size.value.0);
    if host.None? then None else
    Some((Member(id.value.0, NodeAddress(host.value.0, port.value.0)), host.value.1))
  }

  function TakeList(b: Bytes, count: nat): Option<(seq<Member>, Bytes)> {
    if count == 0 then Some(([], b)) else
    var first := TakeMember(b);
    if first.None? then None else
    var others := TakeList(first.value.1, count - 1);
    if others.None? then None else
    Some(([first.value.0] + others.value.0, others.value.1))
  }

  function TakeMembers(b: Bytes): Option<(seq<Member>, Bytes)> {
    var count := TakeLE(b, 8);
    if count.None? || count.value.0 > MAX_MEMBERS then None else TakeList(count.value.1, count.value.0)
  }

  /** Version, index, term, configuration id and transition flag. */
  function TakeHeader(b: Bytes): Option<((LogIndex, Term, nat, bool), Bytes)> {
    var version := TakeLE(b, 4);
    if version.None? || version.value.0 != SNAPSHOT_FORMAT_VERSION then None else
    var index := TakeLE(version.value.1, 8);
    if index.None? then None else
    var term := TakeLE(index.value.1, 8);
    if term.None? then None else
    var id := TakeLE(term.value.1, 8);
    if id.None? then None else
    var flag := TakeLE(id.value.1, 4);
    if flag.None? || flag.value.0 > 1 then None else
    Some(((index.value.0, term.value.0, id.value.0, flag.value.0 == 1), flag.value.1))
  }

  /** Both member lists and the payload. */
  function TakeTail(b: Bytes): Option<((seq<Member>, seq<Member>, Bytes), Bytes)> {
    var voters := TakeMembers(b);
    if voters.None? then None else
    var learners := TakeMembers(voters.value.1);
    if learners.None? then None else
    var size := TakeLE(learners.value.1, 8);
    if size.None? || size.value.0 > MAX_SNAPSHOT_PAYLOAD then None else
    var payload := TakeBytes(size.value.1, size.value.0);
    if payload.None? then None else
    Some(((voters.value.0, learners.value.0, payload.value.0), payload.value.1))
  }

  function TakeBody(b: Bytes): Option<(Snapshot, Bytes)> {
    var header := TakeHeader(b);
    if header.None? then None else
    var tail := TakeTail(header.value.1);
    if tail.None? then None else
    var (index, term, id, flag) := header.value.0;
    var (voters, learners, payload) := tail.value.0;
    Some((Snapshot(index, term, Membership(id, voters, learners, flag, [], []), payload), tail.value.1))
  }

  /** `DecodeSnapshotData`. */
  function Decode(b: Bytes): Result<Snapshot> {
    var body := TakeBody(b);
    if body.None? || |body.value.1| != 8 || |b| < 8 then Failure(Corruption)
    else if GetLE(body.value.1) != Checksum(b[..|b| - 8]) then Failure(Corruption)
    else if body.value.0.index == 0 || body.value.0.term == 0 then Failure(Corruption)
    else Success(body.value.0)
  }

  /** The ranges of the source's integer fields. */
  ghost predicate InRange(s: Snapshot) {
    && s.index < U64_LIMIT && s.term < U64_LIMIT && s.membership.configurationId < U64_LIMIT
    && |s.membership.voters| < U64_LIMIT && |s.membership.learners| < U64_LIMIT
    && ListInRange(s.membership.voters) && ListInRange(s.membership.learners)
  }

  ghost predicate ListInRange(members: seq<Member>) {
    forall m :: m in members ==> m.id < U64_LIMIT && m.address.port < U16_LIMIT
  }

  ghost predicate MembersFit(s: Snapshot) {
    |s.membership.voters| <= MAX_MEMBERS && |s.membership.learners| <= MAX_MEMBERS
  }

  // ---------------------------------------------------------------- round trip

  lemma TakeMemberBytes(m: Member, rest: Bytes)
    requires m.id < U64_LIMIT && m.address.port < U16_LIMIT && GoodMember(m)
    ensures TakeMember(MemberBytes(m) + rest) == Some((m, rest))
  {
    hide PutLE, GetLE;
    Pow256Values();
    var afterSize := m.address.host + rest;
    var afterPort := PutLE(|m.address.host|, 8) + afterSize;
    var afterId := PutLE(m.address.port, 4) + afterPort;
    assert MemberBytes(m) + rest == PutLE(m.id, 8) + afterId;
    TakePutLE(m.id, 8, afterId);
    TakePutLE(m.address.port, 4, afterPort);
    TakePutLE(|m.address.host|, 8, afterSize);
    TakeBytesConcat(m.address.host, rest);
  }

  lemma {:induction false} TakeListBytes(members: seq<Member>, rest: Bytes)
    requires ListInRange(members) && GoodMembers(members)
    ensures TakeList(ListBytes(members) + rest, |members|) == Some((members, rest))
  {
    hide MemberBytes, TakeMember;
    if members == [] {
      assert ListBytes(members) + rest == rest;
    } else {
      var tail := ListBytes(members[1..]) + rest;
      assert members == [members[0]] + members[1..];
      assert ListBytes(members) + rest == MemberBytes(members[0]) + tail;
      TakeMemberBytes(members[0], tail);
      TakeListBytes(members[1..], rest);
    }
  }

  lemma TakeMembersBytes(members: seq<Member>, rest: Bytes)
    requires ListInRange(members) && GoodMembers(members) && |members| < U64_LIMIT
    ensures TakeMembers(MembersBytes(members) + rest) == if |members| <= MAX_MEMBERS then Some((members, rest)) else None
  {
    hide PutLE, GetLE, ListBytes, TakeList;
    Pow256Values();
    assert MembersBytes(members) + rest == PutLE(|members|, 8) + (ListBytes(members) + rest);
    TakePutLE(|members|, 8, ListBytes(members) + rest);
    TakeListBytes(members, rest);
  }

  lemma TakeHeaderBytes(s: Snapshot, rest: Bytes)
    requires InRange(s)
    ensures TakeHeader(HeaderBytes(s) + rest)
            == Some(((s.index, s.term, s.membership.configurationId, s.membership.inTransition), rest))
  {
    hide PutLE, GetLE;
    Pow256Values();
    var flag: nat := if s.membership.inTransition then 1 else 0;
    var afterId := PutLE(flag, 4) + rest;
    var afterTerm := PutLE(s.membership.configurationId, 8) + afterId;
    var afterIndex := PutLE(s.term, 8) + afterTerm;
    var afterVersion := PutLE(s.index, 8) + afterIndex;
    assert HeaderBytes(s) + rest == PutLE(SNAPSHOT_FORMAT_VERSION, 4) + afterVersion;
    TakePutLE(SNAPSHOT_FORMAT_VERSION, 4, afterVersion);
    TakePutLE(s.index, 8, afterIndex);
    TakePutLE(s.term, 8, afterTerm);
    TakePutLE(s.membership.configurationId, 8, afterId);
    TakePutLE(flag, 4, rest);
  }

  lemma TakeTailBytes(s: Snapshot, rest: Bytes)
    requires InRange(s) && Encode(s).Success?
    ensures TakeTail(TailBytes(s) + rest)
            == if MembersFit(s) then Some(((s.membership.voters, s.membership.learners, s.payload), rest)) else None
  {
    hide PutLE, GetLE, MembersBytes, TakeMembers;
    Pow256Values();
    var voters, learners := s.membership.voters, s.membership.learners;
    var afterSize := s.payload + rest;
    var afterLearners := PutLE(|s.payload|, 8) + afterSize;
    var afterVoters := MembersBytes(learners) + afterLearners;
    assert TailBytes(s) + rest == MembersBytes(voters) + afterVoters;
    TakeMembersBytes(voters, afterVoters);
    TakeMembersBytes(learners, afterLearners);
    TakePutLE(|s.payload|, 8, afterSize);
    TakeBytesConcat(s.payload, rest);
  }

  /** What a snapshot file gives back: the snapshot without the target sets of its membership. */
  function Stripped(s: Snapshot): Snapshot {
    s.(membership := s.membership.(nextVoters := [], nextLearners := []))
  }

  lemma TakeBodyBytes(s: Snapshot, rest: Bytes)
    requires InRange(s) && Encode(s).Success?
    ensures TakeBody(BodyBytes(s) + rest) == if MembersFit(s) then Some((Stripped(s), rest)) else None
  {
    hide HeaderBytes, TailBytes, TakeHeader, TakeTail;
    assert BodyBytes(s) + rest == HeaderBytes(s) + (TailBytes(s) + rest);
    TakeHeaderBytes(s, TailBytes(s) + rest);
    TakeTailBytes(s, rest);
  }

  /**
   Decoding an encoded snapshot gives it back without its target sets, unless a member list is longer
   than the decoder accepts: the encoder does not check that.
   */
  lemma DecodeEncoded(s: Snapshot)
    requires InRange(s) && Encode(s).Success?
    ensures Decode(Encode(s).value) == if MembersFit(s) then Success(Stripped(s)) else Failure(Corruption)
  {
    hide BodyBytes, TakeBody, PutLE, GetLE;
    Pow256Values();
    var sum := Checksum(BodyBytes(s));
    TakeBodyBytes(s, PutLE(sum, 8));
    GetPutLE(sum, 8);
    var b := SnapshotBytes(s);
    assert b[..|b| - 8] == BodyBytes(s);
  }

  /** The snapshot survives its file exactly when its lists fit and its membership has no target sets. */
  lemma RoundTripIff(s: Snapshot)
    requires InRange(s) && Encode(s).Success?
    ensures Decode(Encode(s).value) == Success(s)
            <==> MembersFit(s) && s.membership.nextVoters == [] && s.membership.nextLearners == []
  {
    DecodeEncoded(s);
  }

  // ---------------------------------------------------------------- damaged files

  predicate IsSuffix(rest: Bytes, b: Bytes) {
    |rest| <= |b| && b[|b| - |rest|..] == rest
  }

  lemma SuffixTransitive(c: Bytes, b: Bytes, a: Bytes)
    requires IsSuffix(c, b) && IsSuffix(b, a)
    ensures IsSuffix(c, a)
  {
  }

  lemma TakeMemberSuffix(b: Bytes)
    ensures TakeMember(b).Some? ==> IsSuffix(TakeMember(b).value.1, b)
  {
    hide GetLE;
  }

  lemma {:induction false} TakeListSuffix(b: Bytes, count: nat)
    ensures TakeList(b, count).Some? ==> IsSuffix(TakeList(b, count).value.1, b)
    decreases count
  {
    hide TakeMember, IsSuffix;
    assert IsSuffix(b, b) by { SuffixSelf(b); }
    if count > 0 && TakeList(b, count).Some? {
      var after := TakeMember(b).value.1;
      TakeMemberSuffix(b);
      TakeListSuffix(after, count - 1);
      SuffixTransitive(TakeList(b, count).value.1, after, b);
    }
  }

  lemma SuffixSelf(b: Bytes)
    ensures IsSuffix(b, b)
  {
  }

  lemma TakeMembersSuffix(b: Bytes)
    ensures TakeMembers(b).Some? ==> IsSuffix(TakeMembers(b).value.1, b)
  {
    hide GetLE, TakeList;
    if TakeMembers(b).Some? {
      TakeListSuffix(b[8..], TakeLE(b, 8).value.0);
      SuffixTransitive(TakeMembers(b).value.1, b[8..], b);
    }
  }

  lemma TakeHeaderSuffix(b: Bytes)
    ensures TakeHeader(b).Some? ==> TakeHeader(b).value.1 == b[32..] && |b| >= 32
  {
    hide GetLE;
  }

  lemma TakeTailSuffix(b: Bytes)
    ensures TakeTail(b).Some? ==> IsSuffix(TakeTail(b).value.1, b)
  {
    hide GetLE, TakeMembers, IsSuffix;
    if TakeTail(b).Some? {
      var afterVoters := TakeMembers(b).value.1;
      var afterLearners := TakeMembers(afterVoters).value.1;
      TakeMembersSuffix(b);
      TakeMembersSuffix(afterVoters);
      SuffixTransitive(afterLearners, afterVoters, b);
      SizedSuffix(afterLearners, TakeTail(b).value.1, TakeLE(afterLearners, 8).value.0);
      SuffixTransitive(TakeTail(b).value.1, afterLearners, b);
    }
  }

  lemma SizedSuffix(b: Bytes, rest: Bytes, size: nat)
    requires |b| >= 8 + size && rest == b[8..][size..]
    ensures IsSuffix(rest, b)
  {
  }

  lemma TakeBodySuffix(b: Bytes)
    ensures TakeBody(b).Some? ==> IsSuffix(TakeBody(b).value.1, b)
  {
    hide TakeHeader, TakeTail;
    if TakeBody(b).Some? {
      TakeHeaderSuffix(b);
      TakeTailSuffix(b[32..]);
    }
  }

  lemma DamagedSumDiffers(b: Bytes, i: nat, y: Byte)
    requires |b| >= 8 && i < |b| && b[i] != y
    requires GetLE(b[|b| - 8..]) == Checksum(b[..|b| - 8])
    ensures var d := b[i := y]; GetLE(d[|d| - 8..]) != Checksum(d[..|d| - 8])
  {
    hide GetLE, Checksum;
    var d, n := b[i := y], |b| - 8;
    if i < n {
      var before, after := b[..i], b[i + 1..n];
      assert b[..n] == before + [b[i]] + after;
      assert d[..n] == before + [y] + after;
      assert d[n..] == b[n..];
      ChangedByteDetected(before, b[i], y, after);
    } else {
      assert d[..n] == b[..n];
      assert d[n..][i - n] != b[n..][i - n];
      PutGetLE(d[n..]);
      PutGetLE(b[n..]);
    }
  }

  /** A snapshot file in which any one byte was changed is reported as corrupt. */
  lemma ChangedByteIsCorruption(s: Snapshot, i: nat, y: Byte)
    requires Encode(s).Success? && i < |Encode(s).value| && Encode(s).value[i] != y
    ensures Decode(Encode(s).value[i := y]) == Failure(Corruption)
  {
    hide BodyBytes, TakeBody, PutLE, GetLE;
    Pow256Values();
    var b := SnapshotBytes(s);
    var sum := Checksum(BodyBytes(s));
    GetPutLE(sum, 8);
    assert b[..|b| - 8] == BodyBytes(s) && b[|b| - 8..] == PutLE(sum, 8);
    DamagedSumDiffers(b, i, y);
    TakeBodySuffix(b[i := y]);
  }

  // ---------------------------------------------------------------- the writer and the reader

  method WriteMember(m: Member, data: Bytes) returns (status: Status, out: Bytes)
    ensures status == if GoodMember(m) then Ok else InvalidArgument
    ensures status == Ok ==> out == data + MemberBytes(m)
  {
    if m.id == 0 || |m.address.host| > MAX_HOST_LENGTH {
      return InvalidArgument, data;
    }
    hide PutLE;
    out := AppendLE(data, m.id, 8);
    out := AppendLE(out, m.address.port, 4);
    out := AppendLE(out, |m.address.host|, 8);
    out := out + m.address.host;
    Regroup4(data, PutLE(m.id, 8), PutLE(m.address.port, 4), PutLE(|m.address.host|, 8), m.address.host);
    status := Ok;
  }

  lemma Regroup4(a: Bytes, b: Bytes, c: Bytes, d: Bytes, e: Bytes)
    ensures a + b + c + d + e == a + (b + (c + (d + e)))
  {
  }

  lemma {:induction false} ListBytesSnoc(members: seq<Member>, m: Member)
    ensures ListBytes(members + [m]) == ListBytes(members) + MemberBytes(m)
  {
    hide MemberBytes;
    if members != [] {
      ListBytesSnoc(members[1..], m);
      assert (members + [m])[1..] == members[1..] + [m];
    } else {
      assert (members + [m])[1..] == members;
    }
  }

  method WriteMembers(members: seq<Member>, data: Bytes) returns (status: Status, out: Bytes)
    ensures status == if GoodMembers(members) then Ok else InvalidArgument
    ensures status == Ok ==> out == data + MembersBytes(members)
  {
    hide MemberBytes, PutLE;
    out := AppendLE(data, |members|, 8);
    ghost var start := out;
    for i := 0 to |members|
      invariant GoodMembers(members[..i])
      invariant out == start + ListBytes(members[..i])
    {
      assert members[..i + 1] == members[..i] + [members[i]];
      ListBytesSnoc(members[..i], members[i]);
      status, out := WriteMember(members[i], out);
      if status != Ok {
        assert members[i] in members;
        return;
      }
    }
    assert members[..|members|] == members;
    status := Ok;
  }

  method WriteHeader(s: Snapshot) returns (out: Bytes)
    ensures out == HeaderBytes(s)
  {
    hide PutLE;
    var flag := if s.membership.inTransition then 1 else 0;
    out := AppendLE([], SNAPSHOT_FORMAT_VERSION, 4);
    out := AppendLE(out, s.index, 8);
    out := AppendLE(out, s.term, 8);
    out := AppendLE(out, s.membership.configurationId, 8);
    out := AppendLE(out, flag, 4);
    assert [] + PutLE(SNAPSHOT_FORMAT_VERSION, 4) == PutLE(SNAPSHOT_FORMAT_VERSION, 4);
    Regroup4(PutLE(SNAPSHOT_FORMAT_VERSION, 4), PutLE(s.index, 8), PutLE(s.term, 8),
             PutLE(s.membership.configurationId, 8), PutLE(flag, 4));
  }

  method EncodeSnapshotData(s: Snapshot) returns (bytes: Result<Bytes>)
    ensures bytes == Encode(s)
  {
    if s.index == 0 || s.term == 0 || |s.payload| > MAX_SNAPSHOT_PAYLOAD {
      return Failure(InvalidArgument);
    }
    hide HeaderBytes, MembersBytes, PutLE, Checksum;
    var body := WriteHeader(s);
    var status: Status;
    status, body := WriteMembers(s.membership.voters, body);
    if status != Ok { return Failure(status); }
    status, body := WriteMembers(s.membership.learners, body);
    if status != Ok { return Failure(status); }
    body := AppendLE(body, |s.payload|, 8);
    body := body + s.payload;
    Regroup4(HeaderBytes(s), MembersBytes(s.membership.voters), MembersBytes(s.membership.learners),
             PutLE(|s.payload|, 8), s.payload);
    var sum := Compute(body);
    body := AppendLE(body, sum, 8);
    bytes := Success(body);
  }

  method ReadMember(b: Bytes, offset: nat) returns (m: Option<Member>, next: nat)
    requires offset <= |b|
    ensures next <= |b|
    ensures var spec := TakeMember(b[offset..]);
            if spec.None? then m.None? else m.Some? && spec.value == (m.value, b[next..])
  {
    hide GetLE;
    var id, at := ReadLE(b, offset, 8);
    if id.None? { return None, at; }
    var port: Option<nat>;
    port, at := ReadLE(b, at, 4);
    if port.None? { return None, at; }
    var size: Option<nat>;
    size, at := ReadLE(b, at, 8);
    if size.None? { return None, at; }
    if id.value == 0 || port.value > 65535 || size.value > MAX_HOST_LENGTH { return None, at; }
    if size.value > |b| - at { return None, at; }
    var host := b[at..at + size.value];
    assert b[at..][..size.value] == host;
    assert b[at..][size.value..] == b[at + size.value..];
    next := at + size.value;
    m := Some(Member(id.value, NodeAddress(host, port.value)));
  }

  /** The outcome once `left` more members are read from `rest`. */
  ghost function Resumed(decoded: seq<Member>, rest: Bytes, left: nat): Option<(seq<Member>, Bytes)> {
    var others := TakeList(rest, left);
    if others.None? then None else Some((decoded + others.value.0, others.value.1))
  }

  lemma ResumeStep(decoded: seq<Member>, rest: Bytes, left: nat, m: Member, after: Bytes)
    requires left > 0 && TakeMember(rest) == Some((m, after))
    ensures Resumed(decoded, rest, left) == Resumed(decoded + [m], after, left - 1)
  {
    hide TakeMember;
    var others := TakeList(after, left - 1);
    assert others.Some? ==> decoded + ([m] + others.value.0) == decoded + [m] + others.value.0;
  }

  method ReadMembers(b: Bytes, offset: nat) returns (members: Option<seq<Member>>, next: nat)
    requires offset <= |b|
    ensures next <= |b|
    ensures var spec := TakeMembers(b[offset..]);
            if spec.None? then members.None? else members.Some? && spec.value == (members.value, b[next..])
  {
    hide GetLE, TakeMember;
    var count, at := ReadLE(b, offset, 8);
    if count.None? || count.value > MAX_MEMBERS { return None, at; }
    next := at;
    ghost var all := TakeList(b[at..], count.value);
    assert all.Some? ==> [] + all.value.0 == all.value.0;
    var decoded := [];
    for i := 0 to count.value
      invariant next <= |b|
      invariant all == Resumed(decoded, b[next..], count.value - i)
    {
      var m, after := ReadMember(b, next);
      if m.None? { return None, after; }
      ResumeStep(decoded, b[next..], count.value - i, m.value, b[after..]);
      decoded := decoded + [m.value];
      next := after;
    }
    assert decoded + [] == decoded;
    members := Some(decoded);
  }

  method ReadHeader(b: Bytes) returns (header: Option<(LogIndex, Term, nat, bool)>, next: nat)
    ensures next <= |b|
    ensures var spec := TakeHeader(b);
            if spec.None? then header.None? else header.Some? && spec.value == (header.value, b[next..])
  {
    hide GetLE;
    assert b[0..] == b;
    var version, at := ReadLE(b, 0, 4);
    if version.None? || version.value != SNAPSHOT_FORMAT_VERSION { return None, at; }
    var index: Option<nat>;
    index, at := ReadLE(b, at, 8);
    if index.None? { return None, at; }
    var term: Option<nat>;
    term, at := ReadLE(b, at, 8);
    if term.None? { return None, at; }
    var id: Option<nat>;
    id, at := ReadLE(b, at, 8);
    if id.None? { return None, at; }
    var flag: Option<nat>;
    flag, at := ReadLE(b, at, 4);
    if flag.None? || flag.value > 1 { return None, at; }
    header := Some((index.value, term.value, id.value, flag.value == 1));
    next := at;
  }

  method ReadTail(b: Bytes, offset: nat) returns (tail: Option<(seq<Member>, seq<Member>, Bytes)>, next: nat)
    requires offset <= |b|
    ensures next <= |b|
    ensures var spec := TakeTail(b[offset..]);
            if spec.None? then tail.None? else tail.Some? && spec.value == (tail.value, b[next..])
  {
    hide GetLE, TakeMembers;
    var voters, at := ReadMembers(b, offset);
    if voters.None? { return None, at; }
    var learners: Option<seq<Member>>;
    learners, at := ReadMembers(b, at);
    if learners.None? { return None, at; }
    var size: Option<nat>;
    size, at := ReadLE(b, at, 8);
    if size.None? || size.value > MAX_SNAPSHOT_PAYLOAD { return None, at; }
    if size.value > |b| - at { return None, at; }
    var payload := b[at..at + size.value];
    assert b[at..][..size.value] == payload;
    assert b[at..][size.value..] == b[at + size.value..];
    next := at + size.value;
    tail := Some((voters.value, learners.value, payload));
  }

  method DecodeSnapshotData(b: Bytes) returns (s: Result<Snapshot>)
    ensures s == Decode(b)
  {
    hide GetLE, TakeHeader, TakeTail, Checksum;
    if b == [] {
      ShortHeader(b);
      return Failure(Corruption);
    }
    var header, at := ReadHeader(b);
    if header.None? { return Failure(Corruption); }
    var tail: Option<(seq<Member>, seq<Member>, Bytes)>;
    tail, at := ReadTail(b, at);
    if tail.None? { return Failure(Corruption); }
    if |b| - at != 8 { return Failure(Corruption); }
    var stored, end := ReadLE(b, at, 8);
    assert b[at..][..8] == b[at..];
    var sum := Compute(b[..|b| - 8]);
    if sum != stored.value { return Failure(Corruption); }
    var (index, term, id, flag) := header.value;
    var (voters, learners, payload) := tail.value;
    if index == 0 || term == 0 { return Failure(Corruption); }
    s := Success(Snapshot(index, term, Membership(id, voters, learners, flag, [], []), payload));
  }

  lemma ShortHeader(b: Bytes)
    requires b == []
    ensures TakeHeader(b).None?
  {
  }
}
