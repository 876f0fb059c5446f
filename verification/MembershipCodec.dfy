/** The byte format of membership log entries (version 2; version 1 had no target sets). */
module MembershipCodec {
  import opened Common
  import opened Codec
  import opened RaftTypes
  import opened MembershipRules

  const FORMAT_VERSION: Byte := 2
  const ACTIVE_TRANSITION_FLAG: Byte := 1

  // ---------------------------------------------------------------- format

  function MemberBytes(m: Member): Bytes {
    PutLE(m.id, 8) + (PutLE(|m.address.host|, 4) + (m.address.host + PutLE(m.address.port, 2)))
  }

  function ListBytes(members: seq<Member>): Bytes {
    if members == [] then [] else MemberBytes(members[0]) + ListBytes(members[1..])
  }

  function MembersBytes(members: seq<Member>): Bytes {
    PutLE(|members|, 4) + ListBytes(members)
  }

  function ListsBytes(lists: seq<seq<Member>>): Bytes {
    if lists == [] then [] else MembersBytes(lists[0]) + ListsBytes(lists[1..])
  }

  function Header(m: Membership): Bytes {
    [FORMAT_VERSION, if m.inTransition then ACTIVE_TRANSITION_FLAG else 0] + PutLE(m.configurationId, 8)
  }

  function Lists(m: Membership): seq<seq<Member>> {
    [m.voters, m.learners, m.nextVoters, m.nextLearners]
  }

  function EntryBytes(m: Membership): Bytes {
    Header(m) + ListsBytes(Lists(m))
  }

  function TakeMember(b: Bytes): Option<(Member, Bytes)> {
    var id := TakeLE(b, 8);
    if id.None? then None else
    var size := TakeLE(id.value.1, 4);
    if size.None? then None else
    var host := TakeBytes(size.value.1, size.value.0);
    if host.None? then None else
    var port := TakeLE(host.value.1, 2);
    if port.None? then None else
    Some((Member(id.value.0, NodeAddress(host.value.0, port.value.0)), port.value.1))
  }

  function TakeList(b: Bytes, count: nat): Option<(seq<Member>, Bytes)> {
    if count == 0 then Some(([], b)) else
    var first := TakeMember(b);
    if first.None? then None else
    var others := TakeList(first.value.1, count - 1);
    if others.None? then None else
    Some(([first.value.0] + others.value.0, others.value.1))
  }

  function TakeMembers(b: Bytes): Option<(seq<Member>, Bytes)> {
    var count := TakeLE(b, 4);
    if count.None? then None else TakeList(count.value.1, count.value.0)
  }

  function TakeLists(b: Bytes, count: nat): (r: Option<(seq<seq<Member>>, Bytes)>)
    ensures r.Some? ==> |r.value.0| == count
    decreases count
  {
    if count == 0 then Some(([], b)) else
    var first := TakeMembers(b);
    if first.None? then None else
    var others := TakeLists(first.value.1, count - 1);
    if others.None? then None else
    Some(([first.value.0] + others.value.0, others.value.1))
  }

  function TakeEntry(b: Bytes): Option<(Membership, Bytes)> {
    if |b| < 2 || (b[0] != 1 && b[0] != FORMAT_VERSION) || b[1] > ACTIVE_TRANSITION_FLAG then None else
    var id := TakeLE(b[2..], 8);
    if id.None? then None else
    var lists := TakeLists(id.value.1, if b[0] == 1 then 2 else 4);
    if lists.None? then None else
    var l := lists.value.0;
    var stable := Membership(id.value.0, l[0], l[1], b[1] == 1, [], []);
    Some((if b[0] == 1 then stable else stable.(nextVoters := l[2], nextLearners := l[3]), lists.value.1))
  }

  ghost function Encode(m: Membership): Result<Bytes> {
    if !ValidMembership(m) || !SizesFit(Sorted(m)) then Failure(InvalidArgument)
    else Success(EntryBytes(Sorted(m)))
  }

  ghost function Decode(b: Bytes): Result<Membership> {
    var entry := TakeEntry(b);
    if entry.None? || entry.value.1 != [] || !ValidMembership(entry.value.0) then Failure(Corruption)
    else Success(Sorted(entry.value.0))
  }

  /** The sizes `EncodeMembers` and `EncodeMember` refuse. */
  ghost predicate SizesFit(m: Membership) {
    ListFits(m.voters) && ListFits(m.learners) && ListFits(m.nextVoters) && ListFits(m.nextLearners)
  }

  ghost predicate ListFits(members: seq<Member>) {
    |members| < U32_LIMIT && forall m :: m in members ==> |m.address.host| < U32_LIMIT
  }

  /** The ranges of the source's integer fields. */
  ghost predicate InRange(m: Membership) {
    && m.configurationId < U64_LIMIT
    && ListInRange(m.voters) && ListInRange(m.learners)
    && ListInRange(m.nextVoters) && ListInRange(m.nextLearners)
  }

  ghost predicate ListInRange(members: seq<Member>) {
    forall m :: m in members ==> m.id < U64_LIMIT && m.address.port < U16_LIMIT
  }

  // ---------------------------------------------------------------- round trip

  lemma TakeMemberBytes(m: Member, rest: Bytes)
    requires m.id < U64_LIMIT && m.address.port < U16_LIMIT && |m.address.host| < U32_LIMIT
    ensures TakeMember(MemberBytes(m) + rest) == Some((m, rest))
  {
    Pow256Values();
    var afterHost := PutLE(m.address.port, 2) + rest;
    var afterSize := m.address.host + afterHost;
    var afterId := PutLE(|m.address.host|, 4) + afterSize;
    assert MemberBytes(m) + rest == PutLE(m.id, 8) + afterId;
    TakePutLE(m.id, 8, afterId);
    TakePutLE(|m.address.host|, 4, afterSize);
    TakeBytesConcat(m.address.host, afterHost);
    TakePutLE(m.address.port, 2, rest);
  }

  lemma {:induction false} TakeListBytes(members: seq<Member>, rest: Bytes)
    requires ListInRange(members) && ListFits(members)
    ensures TakeList(ListBytes(members) + rest, |members|) == Some((members, rest))
  {
    hide TakeMember, MemberBytes;
    if members == [] {
      assert ListBytes(members) + rest == rest;
    } else {
      var tail := ListBytes(members[1..]) + rest;
      assert members == [members[0]] + members[1..];
      assert ListBytes(members) + rest == MemberBytes(members[0]) + tail;
      TakeMemberBytes(members[0], tail);
      TakeListBytes(members[1..], rest);
    }
  }

  lemma TakeMembersBytes(members: seq<Member>, rest: Bytes)
    requires ListInRange(members) && ListFits(members)
    ensures TakeMembers(MembersBytes(members) + rest) == Some((members, rest))
  {
    Pow256Values();
    assert MembersBytes(members) + rest == PutLE(|members|, 4) + (ListBytes(members) + rest);
    TakePutLE(|members|, 4, ListBytes(members) + rest);
    TakeListBytes(members, rest);
  }

  lemma {:induction false} TakeListsBytes(lists: seq<seq<Member>>)
    requires forall list :: list in lists ==> ListInRange(list) && ListFits(list)
    ensures TakeLists(ListsBytes(lists), |lists|) == Some((lists, []))
  {
    if lists != [] {
      assert lists[0] in lists;
      assert lists == [lists[0]] + lists[1..];
      TakeMembersBytes(lists[0], ListsBytes(lists[1..]));
      TakeListsBytes(lists[1..]);
    }
  }

  lemma TakeHeader(m: Membership, body: Bytes)
    requires m.configurationId < U64_LIMIT
    ensures var b := Header(m) + body;
            && b[0] == FORMAT_VERSION && b[1] == (if m.inTransition then ACTIVE_TRANSITION_FLAG else 0)
            && TakeLE(b[2..], 8) == Some((m.configurationId, body))
  {
    Pow256Values();
    TakePutLE(m.configurationId, 8, body);
    assert (Header(m) + body)[2..] == PutLE(m.configurationId, 8) + body;
  }

  lemma TakeEntryBytes(m: Membership)
    requires InRange(m) && SizesFit(m)
    ensures TakeEntry(EntryBytes(m)) == Some((m, []))
  {
    var lists := Lists(m);
    TakeListsBytes(lists);
    TakeHeader(m, ListsBytes(lists));
  }

  /** A valid entry survives the codec, with voters and learners sorted and targets in order. */
  lemma RoundTrip(m: Membership)
    requires ValidMembership(m) && InRange(m) && SizesFit(m)
    ensures Encode(m).Success?
    ensures Decode(Encode(m).value) == Success(Sorted(m))
  {
    SortedFacts(m);
    SortMembersFacts(m.voters);
    SortMembersFacts(m.learners);
    TakeEntryBytes(Sorted(m));
  }

  // ---------------------------------------------------------------- the first version of the format

  function OldHeader(id: nat, flag: Byte): Bytes {
    [1, flag] + PutLE(id, 8)
  }

  /** An entry as the first version of the format has it: no target sets. */
  function OldBytes(m: Membership, flag: Byte): Bytes {
    OldHeader(m.configurationId, flag) + ListsBytes([m.voters, m.learners])
  }

  lemma TakeOldHeader(id: nat, flag: Byte, body: Bytes)
    requires id < U64_LIMIT
    ensures var b := OldHeader(id, flag) + body;
            |b| >= 2 && b[0] == 1 && b[1] == flag && TakeLE(b[2..], 8) == Some((id, body))
  {
    Pow256Values();
    TakePutLE(id, 8, body);
    assert (OldHeader(id, flag) + body)[2..] == PutLE(id, 8) + body;
  }

  lemma TakeOldBytes(m: Membership, flag: Byte)
    requires InRange(m) && SizesFit(m) && flag <= ACTIVE_TRANSITION_FLAG
    ensures TakeEntry(OldBytes(m, flag))
            == Some((m.(inTransition := flag == ACTIVE_TRANSITION_FLAG, nextVoters := [], nextLearners := []), []))
  {
    hide ListInRange, ListFits, ListsBytes, TakeLists, TakeLE, OldHeader;
    var lists := [m.voters, m.learners];
    TakeListsBytes(lists);
    TakeOldHeader(m.configurationId, flag, ListsBytes(lists));
  }

  /** Entries of the first version are still read, unless they claim a transition they cannot describe. */
  lemma OldVersionDecodes(m: Membership, flag: Byte)
    requires ValidMembership(m) && !m.inTransition && InRange(m) && SizesFit(m) && flag <= ACTIVE_TRANSITION_FLAG
    ensures Decode(OldBytes(m, flag)) == if flag == 0 then Success(Sorted(m)) else Failure(Corruption)
  {
    TakeOldBytes(m, flag);
    hide GoodMembers, SortMembers, TakeEntry;
  }

  // ---------------------------------------------------------------- what can be decoded

  lemma TakenMemberFits(b: Bytes)
    requires TakeMember(b).Some?
    ensures ListInRange([TakeMember(b).value.0]) && ListFits([TakeMember(b).value.0])
  {
    Pow256Values();
    hide Pow256, GetLE;
    var id := TakeLE(b, 8).value;
    TakeLEInRange(b, 8);
    var size := TakeLE(id.1, 4).value;
    TakeLEInRange(id.1, 4);
    TakeLEInRange(TakeBytes(size.1, size.0).value.1, 2);
  }

  lemma {:induction false} TakenListFits(b: Bytes, count: nat)
    requires TakeList(b, count).Some?
    ensures |TakeList(b, count).value.0| == count
    ensures ListInRange(TakeList(b, count).value.0)
    ensures forall m :: m in TakeList(b, count).value.0 ==> |m.address.host| < U32_LIMIT
    decreases count
  {
    hide TakeMember;
    if count > 0 {
      TakenMemberFits(b);
      var first := TakeMember(b).value;
      assert first.0 in [first.0];
      TakenListFits(first.1, count - 1);
    }
  }

  lemma TakenMembersFit(b: Bytes)
    requires TakeMembers(b).Some?
    ensures ListInRange(TakeMembers(b).value.0) && ListFits(TakeMembers(b).value.0)
  {
    Pow256Values();
    hide Pow256, TakeList, GetLE;
    TakeLEInRange(b, 4);
    var count := TakeLE(b, 4).value;
    TakenListFits(count.1, count.0);
  }

  lemma {:induction false} TakenListsFit(b: Bytes, count: nat)
    requires TakeLists(b, count).Some?
    ensures forall list :: list in TakeLists(b, count).value.0 ==> ListInRange(list) && ListFits(list)
    decreases count
  {
    hide TakeMembers, ListInRange, ListFits;
    if count > 0 {
      TakenMembersFit(b);
      TakenListsFit(TakeMembers(b).value.1, count - 1);
    }
  }

  /** The numbers and the sizes of a decoded entry fit their fields. */
  lemma TakenEntryFits(b: Bytes)
    requires TakeEntry(b).Some?
    ensures InRange(TakeEntry(b).value.0) && SizesFit(TakeEntry(b).value.0)
  {
    Pow256Values();
    hide Pow256, TakeLists, GetLE;
    TakeLEInRange(b[2..], 8);
    var rest := TakeLE(b[2..], 8).value.1;
    var count := if b[0] == 1 then 2 else 4;
    TakenListsFit(rest, count);
    var l := TakeLists(rest, count).value.0;
    hide ListInRange, ListFits;
    assert l[0] in l && l[1] in l && (count == 4 ==> l[2] in l && l[3] in l);
    EmptyFits();
  }

  lemma EmptyFits()
    ensures ListInRange([]) && ListFits([])
  {
  }

  lemma SortedFits(m: Membership)
    requires InRange(m) && SizesFit(m)
    ensures InRange(Sorted(m)) && SizesFit(Sorted(m))
  {
    SortedListFits(m.voters);
    SortedListFits(m.learners);
    hide ListInRange, ListFits;
  }

  lemma SortedListFits(members: seq<Member>)
    requires ListInRange(members) && ListFits(members)
    ensures ListInRange(SortMembers(members)) && ListFits(SortMembers(members))
  {
    hide SortMembers;
    SortMembersFacts(members);
  }

  /** Whatever is decoded is settled, and decoding its encoding changes nothing. */
  lemma DecodedIsSettled(b: Bytes)
    requires Decode(b).Success?
    ensures Settled(Decode(b).value)
    ensures InRange(Decode(b).value) && SizesFit(Decode(b).value)
    ensures Encode(Decode(b).value).Success? && Decode(Encode(Decode(b).value).value) == Decode(b)
  {
    hide TakeEntry, SizesFit, InRange, EntryBytes;
    SortedFacts(TakeEntry(b).value.0);
    TakenEntryFits(b);
    SortedFits(TakeEntry(b).value.0);
    RoundTrip(Decode(b).value);
  }

  // ---------------------------------------------------------------- the reader and the writer

  method WriteMember(m: Member, payload: Bytes) returns (status: Status, out: Bytes)
    ensures status == if |m.address.host| < U32_LIMIT then Ok else InvalidArgument
    ensures status == Ok ==> out == payload + MemberBytes(m)
  {
    out := AppendLE(payload, m.id, 8);
    if |m.address.host| >= U32_LIMIT {
      return InvalidArgument, out;
    }
    out := AppendLE(out, |m.address.host|, 4);
    out := out + m.address.host;
    out := AppendLE(out, m.address.port, 2);
    Regroup(payload, PutLE(m.id, 8), PutLE(|m.address.host|, 4), m.address.host, PutLE(m.address.port, 2));
    return Ok, out;
  }

  lemma Regroup(a: Bytes, b: Bytes, c: Bytes, d: Bytes, e: Bytes)
    ensures a + b + c + d + e == a + (b + (c + (d + e)))
  {
  }

  lemma {:induction false} ListBytesSnoc(members: seq<Member>, m: Member)
    ensures ListBytes(members + [m]) == ListBytes(members) + MemberBytes(m)
  {
    if members != [] {
      ListBytesSnoc(members[1..], m);
      assert (members + [m])[1..] == members[1..] + [m];
    } else {
      assert (members + [m])[1..] == members;
    }
  }

  method WriteMembers(members: seq<Member>, payload: Bytes) returns (status: Status, out: Bytes)
    ensures status == if ListFits(members) then Ok else InvalidArgument
    ensures status == Ok ==> out == payload + MembersBytes(members)
  {
    hide MemberBytes, PutLE;
    if |members| >= U32_LIMIT {
      return InvalidArgument, payload;
    }
    out := AppendLE(payload, |members|, 4);
    ghost var start := out;
    for i := 0 to |members|
      invariant forall m :: m in members[..i] ==> |m.address.host| < U32_LIMIT
      invariant out == start + ListBytes(members[..i])
    {
      assert members[..i + 1] == members[..i] + [members[i]];
      ListBytesSnoc(members[..i], members[i]);
      status, out := WriteMember(members[i], out);
      if status != Ok {
        assert members[i] in members;
        return;
      }
    }
    assert members[..|members|] == members;
    return Ok, out;
  }

  lemma {:induction false} ListsBytesSnoc(lists: seq<seq<Member>>, list: seq<Member>)
    ensures ListsBytes(lists + [list]) == ListsBytes(lists) + MembersBytes(list)
  {
    if lists != [] {
      ListsBytesSnoc(lists[1..], list);
      assert (lists + [list])[1..] == lists[1..] + [list];
    } else {
      assert (lists + [list])[1..] == lists;
    }
  }

  method WriteLists(lists: seq<seq<Member>>, payload: Bytes) returns (status: Status, out: Bytes)
    ensures status == if forall list :: list in lists ==> ListFits(list) then Ok else InvalidArgument
    ensures status == Ok ==> out == payload + ListsBytes(lists)
  {
    out := payload;
    for i := 0 to |lists|
      invariant forall list :: list in lists[..i] ==> ListFits(list)
      invariant out == payload + ListsBytes(lists[..i])
    {
      assert lists[..i + 1] == lists[..i] + [lists[i]];
      ListsBytesSnoc(lists[..i], lists[i]);
      status, out := WriteMembers(lists[i], out);
      if status != Ok {
        assert lists[i] in lists;
        return;
      }
    }
    assert lists[..|lists|] == lists;
    return Ok, out;
  }

  method EncodeEntry(entry: Membership) returns (payload: Result<Bytes>)
    ensures payload == Encode(entry)
  {
    var status := ValidateMembership(entry);
    if status != Ok {
      return Failure(status);
    }
    var m := Sorted(entry);
    var b := AppendLE([FORMAT_VERSION, if m.inTransition then ACTIVE_TRANSITION_FLAG else 0], m.configurationId, 8);
    var lists := Lists(m);
    status, b := WriteLists(lists, b);
    assert forall list :: list in lists <==>
      list == m.voters || list == m.learners || list == m.nextVoters || list == m.nextLearners;
    return if status != Ok then Failure(status) else Success(b);
  }

  method ReadMember(payload: Bytes, offset: nat) returns (m: Option<Member>, next: nat)
    requires offset <= |payload|
    ensures next <= |payload|
    ensures var spec := TakeMember(payload[offset..]);
            if spec.None? then m.None? else m.Some? && spec.value == (m.value, payload[next..])
  {
    var id, at := ReadLE(payload, offset, 8);
    if id.None? { return None, at; }
    var size: Option<nat>;
    size, at := ReadLE(payload, at, 4);
    if size.None? { return None, at; }
    if |payload| - at < size.value { return None, at; }
    var host := payload[at..at + size.value];
    assert payload[at..][..size.value] == host;
    assert payload[at..][size.value..] == payload[at + size.value..];
    at := at + size.value;
    var port: Option<nat>;
    port, next := ReadLE(payload, at, 2);
    if port.None? { return None, next; }
    m := Some(Member(id.value, NodeAddress(host, port.value)));
  }

  method ReadList(payload: Bytes, offset: nat, count: nat) returns (members: Option<seq<Member>>, next: nat)
    requires offset <= |payload|
    ensures next <= |payload|
    ensures var spec := TakeList(payload[offset..], count);
            if spec.None? then members.None? else members.Some? && spec.value == (members.value, payload[next..])
  {
    hide TakeMember, TakeList;
    next := offset;
    ghost var all := TakeList(payload[offset..], count);
    assert all.Some? ==> [] + all.value.0 == all.value.0;
    var decoded := [];
    for i := 0 to count
      invariant next <= |payload|
      invariant all == Resumed(decoded, payload[next..], count - i)
    {
      var m, at := ReadMember(payload, next);
      if m.None? {
        NothingResumes(decoded, payload[next..], count - i);
        return None, at;
      }
      ResumeStep(decoded, payload[next..], count - i, m.value, payload[at..]);
      decoded := decoded + [m.value];
      next := at;
    }
    NothingLeft(decoded, payload[next..]);
    members := Some(decoded);
  }

  lemma NothingResumes(decoded: seq<Member>, rest: Bytes, left: nat)
    requires left > 0 && TakeMember(rest).None?
    ensures Resumed(decoded, rest, left).None?
  {
  }

  lemma NothingLeft(decoded: seq<Member>, rest: Bytes)
    ensures Resumed(decoded, rest, 0) == Some((decoded, rest))
  {
    assert decoded + [] == decoded;
  }

  method ReadMembers(payload: Bytes, offset: nat) returns (members: Option<seq<Member>>, next: nat)
    requires offset <= |payload|
    ensures next <= |payload|
    ensures var spec := TakeMembers(payload[offset..]);
            if spec.None? then members.None? else members.Some? && spec.value == (members.value, payload[next..])
  {
    var count, at := ReadLE(payload, offset, 4);
    if count.None? { return None, at; }
    members, next := ReadList(payload, at, count.value);
  }

  /** The outcome once `left` more members are read from `rest`. */
  ghost function Resumed(decoded: seq<Member>, rest: Bytes, left: nat): Option<(seq<Member>, Bytes)> {
    var others := TakeList(rest, left);
    if others.None? then None else Some((decoded + others.value.0, others.value.1))
  }

  lemma ResumeStep(decoded: seq<Member>, rest: Bytes, left: nat, m: Member, after: Bytes)
    requires left > 0 && TakeMember(rest) == Some((m, after))
    ensures Resumed(decoded, rest, left) == Resumed(decoded + [m], after, left - 1)
  {
    var others := TakeList(after, left - 1);
    assert others.Some? ==> decoded + ([m] + others.value.0) == decoded + [m] + others.value.0;
  }

  ghost function ResumedLists(lists: seq<seq<Member>>, rest: Bytes, left: nat): Option<(seq<seq<Member>>, Bytes)> {
    var others := TakeLists(rest, left);
    if others.None? then None else Some((lists + others.value.0, others.value.1))
  }

  lemma ResumeLists(lists: seq<seq<Member>>, rest: Bytes, left: nat, members: seq<Member>, after: Bytes)
    requires left > 0 && TakeMembers(rest) == Some((members, after))
    ensures ResumedLists(lists, rest, left) == ResumedLists(lists + [members], after, left - 1)
  {
    var others := TakeLists(after, left - 1);
    assert others.Some? ==> lists + ([members] + others.value.0) == lists + [members] + others.value.0;
  }

  lemma NoListResumes(lists: seq<seq<Member>>, rest: Bytes, left: nat)
    requires left > 0 && TakeMembers(rest).None?
    ensures ResumedLists(lists, rest, left).None?
  {
  }

  lemma NoListLeft(lists: seq<seq<Member>>, rest: Bytes)
    ensures ResumedLists(lists, rest, 0) == Some((lists, rest))
  {
    assert lists + [] == lists;
  }

  lemma NothingRead(rest: Bytes, count: nat)
    ensures ResumedLists([], rest, count) == TakeLists(rest, count)
  {
    var all := TakeLists(rest, count);
    assert all.Some? ==> [] + all.value.0 == all.value.0;
  }

  /** The two or four member lists of an entry, one after the other. */
  method ReadLists(payload: Bytes, offset: nat, count: nat) returns (lists: Option<seq<seq<Member>>>, next: nat)
    requires offset <= |payload|
    ensures next <= |payload|
    ensures var spec := TakeLists(payload[offset..], count);
            if spec.None? then lists.None? else lists.Some? && spec.value == (lists.value, payload[next..])
  {
    hide TakeMembers, TakeLists, ResumedLists;
    next := offset;
    var read := [];
    NothingRead(payload[offset..], count);
    for i := 0 to count
      invariant next <= |payload|
      invariant TakeLists(payload[offset..], count) == ResumedLists(read, payload[next..], count - i)
    {
      var members, at := ReadMembers(payload, next);
      if members.None? {
        NoListResumes(read, payload[next..], count - i);
        return None, at;
      }
      ResumeLists(read, payload[next..], count - i, members.value, payload[at..]);
      read := read + [members.value];
      next := at;
    }
    NoListLeft(read, payload[next..]);
    lists := Some(read);
  }

  method DecodeEntry(payload: Bytes) returns (entry: Result<Membership>)
    ensures entry == Decode(payload)
  {
    hide GetLE, TakeLists, ValidMembership, SortMembers;
    if |payload| < 2 {
      return Failure(Corruption);
    }
    var version, flags := payload[0], payload[1];
    if version != 1 && version != FORMAT_VERSION {
      return Failure(Corruption);
    }
    if flags > ACTIVE_TRANSITION_FLAG {
      return Failure(Corruption);
    }
    var id, at := ReadLE(payload, 2, 8);
    if id.None? { return Failure(Corruption); }
    var lists;
    lists, at := ReadLists(payload, at, if version == 1 then 2 else 4);
    if lists.None? { return Failure(Corruption); }
    var decoded := Membership(id.value, lists.value[0], lists.value[1], flags == 1, [], []);
    if version >= 2 {
      decoded := decoded.(nextVoters := lists.value[2], nextLearners := lists.value[3]);
    }
    assert TakeEntry(payload) == Some((decoded, payload[at..]));
    if at != |payload| {
      return Failure(Corruption);
    }
    var status := ValidateMembership(decoded);
    return if status != Ok then Failure(Corruption) else Success(Sorted(decoded));
  }
}
