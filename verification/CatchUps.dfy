/**
 The exchange between a leader and one follower: the leader builds what the follower lacks, the follower
 answers, and the leader handles the answer. Repeating it brings the follower's log up to the leader's.
 */
module CatchUps {
  import opened Common
  import opened RaftTypes
  import opened IdSets
  import opened LogModel
  import opened Messages
  import opened MembershipRules
  import opened ActiveMembers
  import opened NodeModel
  import opened NodeRuns
  import opened CommitRule
  import opened Deliveries
  import opened Backtracking
  import opened Replications
  import Elections
  import Lineages

  /** One exchange, delivered without loss. */
  ghost function Exchange(l: Node, f: Node): (Node, Node)
    requires f.log.Valid()
  {
    var (_, sent, request) := l.BuildAppendEntries(f.id);
    if request.None? then (sent, f) else
    var (_, heard, response) := f.HandleAppendEntries(request.value);
    if response.None? then (sent, heard) else (sent.HandleAppendResponse(f.id, response.value).1, heard)
  }

  lemma ExchangeValid(l: Node, f: Node)
    requires l.Valid() && f.Valid()
    ensures Exchange(l, f).0.Valid() && Exchange(l, f).1.Valid()
    ensures Exchange(l, f).0.id == l.id && Exchange(l, f).1.id == f.id
  {
    hide Settled, ActiveVoters, Distinct, SetOf, WellNumbered, Node.BuildAppendEntries, Node.HandleAppendEntries,
         Node.HandleAppendResponse;
    var (_, sent, request) := l.BuildAppendEntries(f.id);
    AppendBuiltIff(l, f.id);
    if request.Some? {
      AppendEntriesContinues(f, request.value);
      var response := f.HandleAppendEntries(request.value).2;
      if response.Some? {
        AppendResponseContinues(sent, f.id, response.value);
      }
    }
  }

  ghost function Exchanges(l: Node, f: Node, count: nat): (Node, Node)
    requires l.Valid() && f.Valid()
    decreases count
  {
    if count == 0 then (l, f) else
    ExchangeValid(l, f);
    Exchanges(Exchange(l, f).0, Exchange(l, f).1, count - 1)
  }

  /** A leader and a member that follows it in its term or an older one. */
  ghost predicate Paired(l: Node, f: Node) {
    && l.Valid() && f.Valid() && l.role == Leader && f.role != Leader && l.id != f.id && f.Term() <= l.Term()
    && f.id in l.progress && (f.id in l.voters || f.id in l.learners)
    && !SomeVoterUntracked(l) && InRange(l)
  }

  /**
   The logs are comparable, agree on what either has compacted and on what the follower has committed, and
   the leader probes past everything they agree on.
   */
  ghost predicate CatchingUp(l: Node, f: Node) {
    && Paired(l, f) && Searchable(l, f, l.progress[f.id].nextIndex)
    && AgreeUpTo(l.log.full, f.log.full, f.log.commitIndex)
  }

  /** The follower has the whole log of the leader, and the leader knows unless the follower has more. */
  ghost predicate CaughtUp(l: Node, f: Node) {
    && l.log.full <= f.log.full && f.id in l.progress
    && (f.log.full == l.log.full ==>
          && l.progress[f.id].matchIndex == |l.log.full| && l.progress[f.id].nextIndex == |l.log.full| + 1
          && l.progress[f.id].isActive)
  }

  // ---------------------------------------------------------------- an accepted probe

  ghost predicate Matching(l: Node, f: Node)
    requires f.id in l.progress
  {
    var next := l.progress[f.id].nextIndex;
    1 <= next <= |l.log.full| + 1 && f.log.Matches(next - 1, TermAt(l.log.full, next - 1))
  }

  /** What the leader sends after a matching position is in order and contradicts nothing committed. */
  lemma RestCanMerge(l: Node, f: Node, prev: LogIndex)
    requires l.log.Valid() && f.log.Valid() && prev <= |l.log.full|
    requires f.log.snapshotIndex <= prev <= |f.log.full| && AgreeUpTo(l.log.full, f.log.full, f.log.commitIndex)
    ensures CanMerge(f.log, l.log.full[prev..])
  {
    var incoming := l.log.full[prev..];
    forall k | 0 <= k < |incoming| && 1 <= incoming[k].index <= f.log.commitIndex && incoming[k].index <= |f.log.full|
      ensures f.log.full[incoming[k].index - 1].term == incoming[k].term
    {
      assert incoming[k] == l.log.full[prev + k];
      AgreedTerm(l.log.full, f.log.full, f.log.commitIndex, incoming[k].index);
    }
  }

  /** After it the follower's log contains the leader's; it is the leader's, or the old one if that was longer. */
  lemma RestMerged(l: Node, f: Node, prev: LogIndex)
    requires l.log.Valid() && f.log.Valid() && prev <= |l.log.full| && Compatible(l.log.full, f.log.full)
    requires f.log.Matches(prev, TermAt(l.log.full, prev)) && Merge(f.log, l.log.full[prev..]).0 == Ok
    ensures var merged := Merge(f.log, l.log.full[prev..]).1;
            l.log.full <= merged.full && (merged.full == f.log.full || merged.full == l.log.full)
  {
    hide Merge, Compatible, Spliced, WellNumbered, HeldPrefix;
    var incoming := l.log.full[prev..];
    if incoming == [] {
      Lineages.MergeNothing(f.log);
      AgreedAt(l, f, prev);
      assert l.log.full == l.log.full[..prev];
    } else {
      var held := HeldPrefix(f.log, incoming);
      HeldRest(l, f, prev);
      MergeIsSplice(f.log, incoming);
      AgreedAt(l, f, prev + held);
      SpliceOfRest(l.log.full, f.log.full, prev, held);
    }
  }

  lemma HeldRest(l: Node, f: Node, prev: LogIndex)
    requires l.log.Valid() && prev < |l.log.full|
    requires f.log.Matches(prev, TermAt(l.log.full, prev))
    ensures var held := HeldPrefix(f.log, l.log.full[prev..]);
            && l.log.full[prev..][0].index == prev + 1
            && prev + held <= |l.log.full| && prev + held <= |f.log.full|
            && TermAt(l.log.full, prev + held) == TermAt(f.log.full, prev + held)
  {
    var incoming := l.log.full[prev..];
    var held := HeldPrefix(f.log, incoming);
    if held > 0 {
      Lineages.HeldAgrees(f.log, incoming, held - 1);
      assert incoming[held - 1] == l.log.full[prev + held - 1];
    }
  }

  lemma SpliceOfRest(a: seq<LogEntry>, b: seq<LogEntry>, prev: nat, held: nat)
    requires prev + held <= |a| && prev + held <= |b| && a[..prev + held] == b[..prev + held]
    ensures var spliced := Spliced(b, a[prev..], prev, held);
            a <= spliced && (spliced == b || spliced == a)
  {
    if prev + held == |a| {
      assert a == a[..|a|];
    } else {
      assert a == a[..prev + held] + a[prev..][held..];
    }
  }

  lemma AgreedAt(l: Node, f: Node, index: LogIndex)
    requires Compatible(l.log.full, f.log.full) && index <= |l.log.full| && index <= |f.log.full|
    requires TermAt(l.log.full, index) == TermAt(f.log.full, index)
    ensures l.log.full[..index] == f.log.full[..index]
  {
    if index > 0 {
      SameTermAgrees(l.log.full, f.log.full, index, index);
    }
  }

  /** An accepted exchange ends the search: the follower has everything. */
  lemma AcceptedExchange(l: Node, f: Node)
    requires CatchingUp(l, f) && Matching(l, f)
    ensures var (l', f') := Exchange(l, f);
            && CaughtUp(l', f') && l'.log.full == l.log.full
            && (f'.log.full == f.log.full || f'.log.full == l.log.full)
  {
    hide Node.Valid, Searchable, Comparable, AgreeUpTo, Node.BuildAppendEntries, Node.HandleAppendEntries,
         Node.HandleAppendResponse, SomeVoterUntracked, InRange, Exchange, Matching;
    AcceptedParts(l, f);
    ProbeAccepted(l, f);
    var sent, f' := l.BuildAppendEntries(f.id).1, f.HandleAppendEntries(Probe(l, l.progress[f.id].nextIndex)).1;
    hide Probe;
    LongerOrEqual(l.log.full, f'.log.full);
    ConfirmationHandled(l, sent, f.id, AppendResponse(l.Term(), true, |f'.log.full|, 0, 0));
  }

  lemma LongerOrEqual(a: seq<LogEntry>, b: seq<LogEntry>)
    requires a <= b
    ensures |a| <= |b|
  {
  }

  lemma AcceptedParts(l: Node, f: Node)
    requires CatchingUp(l, f) && Matching(l, f)
    ensures f.log.Valid() && 1 <= l.progress[f.id].nextIndex <= |l.log.full| + 1 && f.id != 0
    ensures var (_, sent, request) := l.BuildAppendEntries(f.id);
            var (_, f', response) := f.HandleAppendEntries(Probe(l, l.progress[f.id].nextIndex));
            && sent == l.(outbox := sent.outbox)
            && request == Some(Probe(l, l.progress[f.id].nextIndex))
            && (response.Some? ==> Exchange(l, f) == (sent.HandleAppendResponse(f.id, response.value).1, f'))
  {
    hide Searchable, Comparable, AgreeUpTo, Node.HandleAppendEntries, Settled, ActiveVoters, Distinct, SetOf, WellNumbered,
         Node.HandleAppendResponse, SomeVoterUntracked, InRange, Node.BuildAppendEntries;
    SearchableFacts(l, f, l.progress[f.id].nextIndex);
    ProbeIsBuilt(l, f.id);
    AppendBuiltIff(l, f.id);
  }

  /** The leader takes up a confirmation of exactly its own log, and nothing of its log changes otherwise. */
  lemma ConfirmationHandled(l: Node, sent: Node, peer: NodeId, response: AppendResponse)
    requires l.Valid() && InRange(l) && !SomeVoterUntracked(l) && FromMember(l, peer, response.term) && peer in l.progress
    requires sent == l.(outbox := sent.outbox) && response.success && response.matchIndex >= |l.log.full|
    ensures var after := sent.HandleAppendResponse(peer, response).1;
            && after.log.full == l.log.full && peer in after.progress
            && (response.matchIndex == |l.log.full| ==>
                  && after.progress[peer].matchIndex == |l.log.full|
                  && after.progress[peer].nextIndex == |l.log.full| + 1 && after.progress[peer].isActive)
  {
    hide Node.Valid, SomeVoterUntracked, Committable, Node.HandleAppendResponse;
    OutboxAside(l, sent);
    SuccessOutcome(sent, peer, response);
    assert SomeVoterUntracked(sent) <==> SomeVoterUntracked(l) by { SameVotersTracked(l, sent); }
  }

  lemma OutboxAside(l: Node, sent: Node)
    requires l.Valid() && sent == l.(outbox := sent.outbox)
    ensures sent.Valid() && l.id != 0
  {
  }

  lemma PrevHasTerm(l: Node, prev: LogIndex)
    requires l.log.Valid() && 0 < prev <= |l.log.full|
    ensures TermAt(l.log.full, prev) > 0
  {
  }

  lemma SearchableFacts(l: Node, f: Node, next: LogIndex)
    requires Searchable(l, f, next)
    ensures l.log.Valid() && f.log.Valid() && Comparable(l, f)
    ensures l.log.snapshotIndex < next <= |l.log.full| + 1 && f.log.snapshotIndex < next
  {
  }

  lemma ProbeSuits(l: Node, f: Node)
    requires CatchingUp(l, f) && Matching(l, f)
    ensures l.log.Valid() && f.Valid() && f.log.Valid() && Compatible(l.log.full, f.log.full)
    ensures var next := l.progress[f.id].nextIndex;
            && 1 <= next <= |l.log.full| + 1
            && f.log.Matches(next - 1, TermAt(l.log.full, next - 1))
            && var request := Probe(l, next);
               Hears(f, request) && AgreesBefore(f.log, request) && CanMerge(f.log, request.entries)
               && Merge(f.log, request.entries).0 == Ok
  {
    hide Settled, ActiveVoters, Distinct, SetOf, WellNumbered, Searchable, Compatible, NonDecreasing, AgreeUpTo, Merge,
         InOrder, RespectsCommitted, SomeVoterUntracked, InRange;
    var next := l.progress[f.id].nextIndex;
    SearchableFacts(l, f, next);
    RestCanMerge(l, f, next - 1);
    MergeSucceedsIff(f.log, l.log.full[next - 1..]);
    if next > 1 {
      PrevHasTerm(l, next - 1);
    }
  }

  lemma ProbeAccepted(l: Node, f: Node)
    requires CatchingUp(l, f) && Matching(l, f)
    ensures var (_, f', response) := f.HandleAppendEntries(Probe(l, l.progress[f.id].nextIndex));
            && response == Some(AppendResponse(l.Term(), true, |f'.log.full|, 0, 0)) && f'.id == f.id
            && l.log.full <= f'.log.full && (f'.log.full == f.log.full || f'.log.full == l.log.full)
  {
    hide Node.Valid, Searchable, Comparable, AgreeUpTo, Merge, Node.HandleAppendEntries, CanMerge, SomeVoterUntracked,
         InRange, Matching, Hears;
    ProbeSuits(l, f);
    var next := l.progress[f.id].nextIndex;
    var request := Probe(l, next);
    AppendAcceptedIff(f, request);
    AppendLeaves(f, request);
    AppendAnswer(f, request);
    RestMerged(l, f, next - 1);
  }

  // ---------------------------------------------------------------- a rejected probe

  lemma {:induction false} SearchDependsOnLog(l: Node, sent: Node, term: Term, index: LogIndex)
    requires sent.log == l.log
    ensures sent.LastIndexOfTerm(term, index) == l.LastIndexOfTerm(term, index)
    decreases index
  {
    if index > l.log.snapshotIndex && index <= l.log.LastIndex() && TermAt(l.log.full, index) > term {
      SearchDependsOnLog(l, sent, term, index - 1);
    }
  }

  lemma AllMatchAtZero(s: LogState)
    ensures s.Matches(0, 0)
  {
  }

  lemma ProbeRejected(l: Node, f: Node)
    requires CatchingUp(l, f) && !Matching(l, f)
    ensures var next := l.progress[f.id].nextIndex;
            var (_, f', response) := f.HandleAppendEntries(Probe(l, next));
            && response == Some(f.Mismatch(next - 1).(term := l.Term()))
            && !response.value.success && response.value.conflictIndex > 0
            && f'.id == f.id && f'.log == f.log && f'.role != Leader && f'.Term() == l.Term()
  {
    hide Settled, ActiveVoters, Distinct, SetOf, WellNumbered, Searchable, Comparable, AgreeUpTo, Node.HandleAppendEntries,
         Node.Mismatch, SomeVoterUntracked, InRange;
    var next := l.progress[f.id].nextIndex;
    SearchableFacts(l, f, next);
    AllMatchAtZero(f.log);
    ProbeIsAnswered(l, f, next);
    HintIsUsable(f, next - 1);
    AppendLeaves(f, Probe(l, next));
    PrevHasTerm(l, next - 1);
  }

  /** A rejected exchange lowers the next index and leaves both logs as they are. */
  lemma RejectedExchange(l: Node, f: Node)
    requires CatchingUp(l, f) && !Matching(l, f)
    ensures var (l', f') := Exchange(l, f);
            && l'.log == l.log && f'.log == f.log && l'.id == l.id && f'.id == f.id
            && l'.progress.Keys == l.progress.Keys
            && l' == l.(progress := l'.progress, outbox := l'.outbox)
            && f.id in l'.progress && l'.progress[f.id].nextIndex == Retry(l, f, l.progress[f.id].nextIndex)
            && l'.progress[f.id].nextIndex < l.progress[f.id].nextIndex
            && f'.role != Leader && f'.Term() == l.Term()
  {
    hide Node.Valid, Searchable, Comparable, AgreeUpTo, Node.BuildAppendEntries, Node.HandleAppendEntries,
         Node.HandleAppendResponse, Node.Mismatch, SomeVoterUntracked, InRange, Node.LastIndexOfTerm;
    var next := l.progress[f.id].nextIndex;
    SearchableFacts(l, f, next);
    ProbeIsBuilt(l, f.id);
    AppendBuiltIff(l, f.id);
    var (_, sent, request) := l.BuildAppendEntries(f.id);
    ProbeRejected(l, f);
    OutboxAside(f, f);
    var hint := f.Mismatch(next - 1);
    RejectionOutcome(sent, f.id, hint.(term := l.Term()));
    SearchDependsOnLog(l, sent, hint.conflictTerm, l.log.LastIndex());
    RetrySearchable(l, f, next);
  }

  lemma RejectedKeepsCatchingUp(l: Node, f: Node)
    requires CatchingUp(l, f) && !Matching(l, f)
    ensures CatchingUp(Exchange(l, f).0, Exchange(l, f).1)
  {
    hide Node.Valid, Comparable, AgreeUpTo, Exchange, Retry, SomeVoterUntracked;
    RejectedExchange(l, f);
    ExchangeValid(l, f);
    var next := l.progress[f.id].nextIndex;
    RetrySearchable(l, f, next);
    var l', f' := Exchange(l, f).0, Exchange(l, f).1;
    SameVotersTracked(l, l');
    ExchangeInRange(l, f);
    assert Comparable(l', f') by { ComparableLogs(l, f, l', f'); }
  }

  lemma ComparableLogs(l: Node, f: Node, l': Node, f': Node)
    requires Comparable(l, f) && l'.log == l.log && f'.log == f.log
    ensures Comparable(l', f')
  {
  }

  lemma ExchangeInRange(l: Node, f: Node)
    requires l.Valid() && f.Valid() && InRange(l)
    ensures InRange(Exchange(l, f).0)
  {
    hide Settled, ActiveVoters, Distinct, SetOf, WellNumbered, Node.BuildAppendEntries, Node.HandleAppendEntries,
         Node.HandleAppendResponse;
    AppendBuiltIff(l, f.id);
    var (_, sent, request) := l.BuildAppendEntries(f.id);
    if request.Some? {
      var response := f.HandleAppendEntries(request.value).2;
      if response.Some? {
        ResponseKeepsRange(sent, f.id, response.value);
      }
    }
  }

  // ---------------------------------------------------------------- all of it

  /**
   A leader that keeps exchanging requests and responses with a follower ends with the follower holding its
   whole log, after no more exchanges than the next index it started with.
   */
  lemma {:induction false} FollowerCatchesUp(l: Node, f: Node) returns (count: nat)
    requires CatchingUp(l, f)
    ensures 1 <= count <= l.progress[f.id].nextIndex
    ensures var (l', f') := Exchanges(l, f, count);
            && CaughtUp(l', f') && l'.log.full == l.log.full
            && (f'.log.full == f.log.full || f'.log.full == l.log.full)
    decreases l.progress[f.id].nextIndex
  {
    hide Node.Valid, Paired, Searchable, AgreeUpTo, Exchange, CaughtUp, Matching, Retry;
    PairFacts(l, f);
    ExchangeValid(l, f);
    if Matching(l, f) {
      AcceptedExchange(l, f);
      count := 1;
      assert Exchanges(l, f, 1) == Exchanges(Exchange(l, f).0, Exchange(l, f).1, 0);
    } else {
      RejectedExchange(l, f);
      RejectedKeepsCatchingUp(l, f);
      var rest := FollowerCatchesUp(Exchange(l, f).0, Exchange(l, f).1);
      count := rest + 1;
    }
  }

  lemma PairFacts(l: Node, f: Node)
    requires CatchingUp(l, f)
    ensures l.Valid() && f.Valid() && f.log.Valid() && f.id in l.progress && 1 <= l.progress[f.id].nextIndex
  {
  }

  /** A follower that is known to have everything is sent nothing but the position to check. */
  lemma NothingLeftToSend(l: Node, f: Node)
    requires Paired(l, f) && CaughtUp(l, f) && f.log.full == l.log.full
    ensures var request := l.BuildAppendEntries(f.id).2;
            request.Some? && request.value.entries == [] && request.value.prevLogIndex == |l.log.full|
  {
    hide Settled, ActiveVoters, Distinct, SetOf, WellNumbered, Node.BuildAppendEntries, SomeVoterUntracked;
    AppendBuiltIff(l, f.id);
  }

  /** A new leader can bring up to date every member whose log agrees with its own on what is compacted or committed. */
  lemma NewLeaderCanCatchUp(c: Node, f: Node)
    requires c.Valid() && f.Valid() && c.role == Candidate && f.role != Leader && c.id != f.id && f.Term() <= c.Term()
    requires f.id in c.voters || f.id in c.learners
    requires Comparable(c, f) && AgreeUpTo(c.log.full, f.log.full, c.log.snapshotIndex)
    requires AgreeUpTo(c.log.full, f.log.full, f.log.commitIndex)
    ensures CatchingUp(c.BecomeLeader().1, f)
  {
    hide Node.Valid, Comparable, Node.BecomeLeader;
    Elections.LeaderFacts(c);
    var l := c.BecomeLeader().1;
    NewLeaderValid(c);
    ComparableLogs(c, f, l, f);
    AgreedOnSnapshot(c, f);
  }

  lemma NewLeaderValid(c: Node)
    requires c.Valid() && c.role == Candidate
    ensures c.BecomeLeader().1.Valid() && c.log.Valid()
  {
    CallKeepsValid(c, CallBecomeLeader);
  }

  lemma AgreedOnSnapshot(c: Node, f: Node)
    requires f.Valid() && AgreeUpTo(c.log.full, f.log.full, f.log.commitIndex)
    ensures f.log.Valid() && AgreeUpTo(c.log.full, f.log.full, f.log.snapshotIndex)
  {
    assert c.log.full[..f.log.snapshotIndex] == c.log.full[..f.log.commitIndex][..f.log.snapshotIndex];
    assert f.log.full[..f.log.snapshotIndex] == f.log.full[..f.log.commitIndex][..f.log.snapshotIndex];
  }
}
