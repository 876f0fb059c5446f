/**
 What a follower does with the entries it is sent, stated on the entries of its log: when it accepts them,
 which of them it keeps or replaces, what it answers, and what it remembers of the sender.
 */
module Deliveries {
  import opened Common
  import opened RaftTypes
  import opened IdSets
  import opened LogModel
  import opened Messages
  import opened MembershipRules
  import opened ActiveMembers
  import opened NodeModel
  import opened NodeRuns
  import opened Elections
  import Lineages

  // ---------------------------------------------------------------- merging a batch

  /** Consecutive entries of positive terms, past the snapshot and starting no later than right after the log. */
  ghost predicate InOrder(s: LogState, incoming: seq<LogEntry>) {
    incoming != [] ==>
      && s.snapshotIndex < incoming[0].index <= |s.full| + 1
      && forall k :: 0 <= k < |incoming| ==> incoming[k].index == incoming[0].index + k && incoming[k].term > 0
  }

  /** No entry of the batch contradicts a committed one. */
  ghost predicate RespectsCommitted(s: LogState, incoming: seq<LogEntry>) {
    forall k :: 0 <= k < |incoming| && 1 <= incoming[k].index <= s.commitIndex && incoming[k].index <= |s.full|
      ==> s.full[incoming[k].index - 1].term == incoming[k].term
  }

  lemma GoodBatchIff(s: LogState, incoming: seq<LogEntry>)
    requires incoming != []
    ensures s.GoodBatch(incoming, incoming[0].index) && incoming[0].index <= |s.full| + 1 <==> InOrder(s, incoming)
  {
    if s.GoodBatch(incoming, incoming[0].index) {
      assert incoming[0].index > s.snapshotIndex;
    }
  }

  lemma FirstNewIndex(s: LogState, incoming: seq<LogEntry>)
    requires incoming != [] && s.GoodBatch(incoming, incoming[0].index)
    requires HeldPrefix(s, incoming) < |incoming|
    ensures var k := HeldPrefix(s, incoming);
            && incoming[k].index == incoming[0].index + k
            && (incoming[k].index > |s.full| + 1 <==> incoming[0].index > |s.full| + 1)
  {
    var k := HeldPrefix(s, incoming);
    if k > 0 {
      assert Holds(s, incoming[k - 1]);
      assert incoming[k - 1].index == incoming[0].index + (k - 1);
    }
  }

  /** Truncate-then-append succeeds if and only if the batch is in order and respects what is committed. */
  lemma MergeSucceedsIff(s: LogState, incoming: seq<LogEntry>)
    requires s.Valid()
    ensures Merge(s, incoming).0 == Ok <==> InOrder(s, incoming) && RespectsCommitted(s, incoming)
  {
    hide WellNumbered, InOrder;
    if incoming == [] {
      assert InOrder(s, incoming) by { EmptyInOrder(s); }
    } else {
      GoodBatchIff(s, incoming);
      if s.GoodBatch(incoming, incoming[0].index) {
        var k := HeldPrefix(s, incoming);
        forall j | 0 <= j < k ensures Holds(s, incoming[j]) {}
        if k < |incoming| {
          FirstNewIndex(s, incoming);
          assert !Holds(s, incoming[k]);
          hide HeldPrefix;
          NewPartAppends(s, incoming, k);
        }
      }
    }
  }

  lemma EmptyInOrder(s: LogState)
    ensures InOrder(s, [])
  {
  }

  /** The part of a batch that is not held can be appended to the log cut before it. */
  lemma NewPartAppends(s: LogState, incoming: seq<LogEntry>, k: nat)
    requires s.Valid() && incoming != [] && s.GoodBatch(incoming, incoming[0].index) && k < |incoming|
    ensures var cut := s.TruncateSuffix(incoming[k].index);
            && (cut.0 == Ok ==> cut.1.Append(incoming[k..]).0 == Ok)
            && (incoming[k].index == |s.full| + 1 ==> s.Append(incoming[k..]).0 == Ok)
            && (incoming[k].index > |s.full| + 1 ==> s.Append(incoming[k..]).0 != Ok)
  {
    hide WellNumbered;
    var rest := incoming[k..];
    assert rest[0] == incoming[k];
    assert forall j :: 0 <= j < |rest| ==> rest[j] == incoming[k + j];
  }

  ghost predicate AllHeld(s: LogState, incoming: seq<LogEntry>, count: nat) {
    forall k :: 0 <= k < count && k < |incoming| ==> Holds(s, incoming[k])
  }

  lemma HeldPrefixIs(s: LogState, incoming: seq<LogEntry>, count: nat)
    requires count <= |incoming|
    ensures AllHeld(s, incoming, count) <==> count <= HeldPrefix(s, incoming)
  {
    var k := HeldPrefix(s, incoming);
    if k < count {
      assert !Holds(s, incoming[k]);
    }
  }

  /** The old log up to the held part of the batch, then the rest of the batch. */
  ghost function Spliced(log: seq<LogEntry>, incoming: seq<LogEntry>, start: nat, held: nat): seq<LogEntry>
    requires held <= |incoming| && start + held <= |log|
  {
    if held == |incoming| then log else log[..start + held] + incoming[held..]
  }

  lemma SplicedFacts(log: seq<LogEntry>, incoming: seq<LogEntry>, start: nat, held: nat)
    requires held <= |incoming| && start + held <= |log|
    ensures var spliced := Spliced(log, incoming, start, held);
            && |spliced| == (if held == |incoming| then |log| else start + |incoming|)
            && start + |incoming| <= |spliced|
            && spliced[..start] == log[..start]
            && forall i :: start <= i < start + |incoming| ==>
                 spliced[i] == if i < start + held then log[i] else incoming[i - start]
  {
  }

  /**
   A merged log is unchanged before the batch; of the batch it keeps its own entries as long as they have
   the same terms and takes the sender's from the first that differs; and it ends with the batch unless it
   held all of it.
   */
  lemma MergeLeaves(s: LogState, incoming: seq<LogEntry>)
    requires s.Valid() && incoming != [] && Merge(s, incoming).0 == Ok
    ensures var merged := Merge(s, incoming).1;
            var start := incoming[0].index - 1;
            && 0 <= start <= |s.full| && start + |incoming| <= |merged.full| && merged.full[..start] == s.full[..start]
            && |merged.full| == (if AllHeld(s, incoming, |incoming|) then |s.full| else start + |incoming|)
            && (forall i :: start <= i < start + |incoming| ==>
                  merged.full[i] == if i < |s.full| && AllHeld(s, incoming, i - start + 1) then s.full[i]
                                    else incoming[i - start])
            && merged == s.(full := merged.full, stableIndex := merged.stableIndex)
  {
    hide LogState.Valid, Merge, HeldPrefix, AllHeld, Spliced;
    MergeIsSplice(s, incoming);
    var held := HeldPrefix(s, incoming);
    var start := incoming[0].index - 1;
    SplicedFacts(s.full, incoming, start, held);
    HeldPrefixIs(s, incoming, |incoming|);
    forall i | start <= i < start + |incoming|
      ensures Merge(s, incoming).1.full[i] == if i < |s.full| && AllHeld(s, incoming, i - start + 1) then s.full[i]
                                              else incoming[i - start]
    {
      HeldPrefixIs(s, incoming, i - start + 1);
    }
  }

  lemma MergeIsSplice(s: LogState, incoming: seq<LogEntry>)
    requires s.Valid() && incoming != [] && Merge(s, incoming).0 == Ok
    ensures var merged, held := Merge(s, incoming).1, HeldPrefix(s, incoming);
            && 0 < incoming[0].index && incoming[0].index - 1 + held <= |s.full|
            && merged == s.(full := merged.full, stableIndex := merged.stableIndex)
            && merged.full == Spliced(s.full, incoming, incoming[0].index - 1, held)
  {
    hide WellNumbered, Merge, HeldPrefix, RespectsCommitted, LogState.GoodBatch;
    Lineages.MergeOutcome(s, incoming);
    MergeSucceedsIff(s, incoming);
    MergeFrame(s, incoming);
    HeldReaches(s, incoming);
  }

  lemma HeldReaches(s: LogState, incoming: seq<LogEntry>)
    requires incoming != [] && InOrder(s, incoming)
    ensures incoming[0].index - 1 + HeldPrefix(s, incoming) <= |s.full|
  {
    var held := HeldPrefix(s, incoming);
    if held > 0 {
      Lineages.HeldAgrees(s, incoming, held - 1);
      assert incoming[held - 1].index == incoming[0].index + (held - 1);
    }
  }

  lemma MergeFrame(s: LogState, incoming: seq<LogEntry>)
    ensures var merged := Merge(s, incoming).1;
            merged.stableIndex <= s.stableIndex && merged == s.(full := merged.full, stableIndex := merged.stableIndex)
  {
    hide HeldPrefix, LogState.GoodBatch;
  }

  /** What is known to be durable ends right before the first entry that was replaced, or stays. */
  lemma MergeKeepsDurable(s: LogState, incoming: seq<LogEntry>)
    requires s.Valid() && Merge(s, incoming).0 == Ok
    ensures var merged := Merge(s, incoming).1;
            var stable := merged.stableIndex;
            && stable <= |merged.full| && merged.full[..stable] == s.full[..stable]
            && (stable == s.stableIndex
                || (stable < |merged.full| && stable < |s.full| && merged.full[stable].term != s.full[stable].term))
  {
    hide WellNumbered;
    if incoming != [] {
      assert s.GoodBatch(incoming, incoming[0].index);
      var held := HeldPrefix(s, incoming);
      if held < |incoming| {
        FirstNewIndex(s, incoming);
        assert !Holds(s, incoming[held]);
        hide HeldPrefix;
        var rest := incoming[held..];
        assert rest[0] == incoming[held];
      }
    }
  }

  // ---------------------------------------------------------------- answering

  ghost predicate WellFormed(request: AppendRequest) {
    request.leaderId != 0 && (request.prevLogIndex > 0 ==> request.prevLogTerm > 0)
  }

  /** The request is not old, and does not come from another leader while this node leads. */
  ghost predicate Hears(n: Node, request: AppendRequest) {
    && WellFormed(request) && request.term >= n.hard.currentTerm
    && (n.role == Leader ==> request.leaderId == n.id)
  }

  /** The log has the entry before the batch, or the batch starts the log. */
  ghost predicate AgreesBefore(s: LogState, request: AppendRequest) {
    if request.prevLogIndex == 0 then request.prevLogTerm == 0
    else && s.snapshotIndex <= request.prevLogIndex <= |s.full|
         && s.full[request.prevLogIndex - 1].term == request.prevLogTerm
  }

  ghost predicate CanMerge(s: LogState, incoming: seq<LogEntry>) {
    InOrder(s, incoming) && RespectsCommitted(s, incoming)
  }

  /**
   Entries are accepted if and only if the node hears the sender, its log agrees with the entry before them,
   and they are in order and contradict nothing committed; the call itself fails only for a malformed
   request and for entries it would have had to merge but cannot.
   */
  lemma AppendAcceptedIff(n: Node, request: AppendRequest)
    requires n.Valid()
    ensures var (status, _, response) := n.HandleAppendEntries(request);
            && (response.Some? && response.value.success
                <==> Hears(n, request) && AgreesBefore(n.log, request) && CanMerge(n.log, request.entries))
            && (status != Ok <==> !WellFormed(request)
                                  || (&& Hears(n, request) && AgreesBefore(n.log, request)
                                      && !CanMerge(n.log, request.entries)))
            && (status == Ok <==> response.Some?)
  {
    hide Settled, ActiveVoters, Distinct, SetOf, WellNumbered, Node.Accept, Node.Mismatch, Outbox.Stage, CanMerge, Merge,
         AgreesBefore, LogState.Matches;
    if WellFormed(request) {
      AgreesIffMatches(n.log, request);
    }
    AcceptSucceedsIff(Heard(n, request), request, n.hard);
    MismatchSays(Heard(n, request), request.prevLogIndex);
  }

  /** A mismatch is a rejection that says where the log ends, where it starts, or which term it has instead. */
  lemma MismatchSays(n: Node, prev: LogIndex)
    requires n.log.Valid()
    ensures var r := n.Mismatch(prev);
            && !r.success && r.matchIndex == 0 && r.term == n.hard.currentTerm
            && (prev > |n.log.full| ==> r.conflictIndex == |n.log.full| + 1 && r.conflictTerm == 0)
            && (0 < prev < n.log.snapshotIndex ==>
                  r.conflictIndex == n.log.snapshotIndex + 1 && r.conflictTerm == n.log.full[n.log.snapshotIndex - 1].term)
            && (0 < prev && n.log.snapshotIndex <= prev <= |n.log.full| ==> r.conflictTerm == n.log.full[prev - 1].term)
  {
    hide WellNumbered, Node.RunStart;
  }

  lemma AgreesIffMatches(s: LogState, request: AppendRequest)
    requires request.prevLogIndex > 0 ==> request.prevLogTerm > 0
    ensures AgreesBefore(s, request) <==> s.Matches(request.prevLogIndex, request.prevLogTerm)
  {
  }

  lemma AcceptSucceedsIff(n: Node, request: AppendRequest, before: HardState)
    requires n.log.Valid()
    ensures var (status, after, response) := n.Accept(request, before);
            && (status == Ok <==> CanMerge(n.log, request.entries)) && (status == Ok <==> response.Some?)
            && (response.Some? ==> response.value == AppendResponse(n.hard.currentTerm, true, |after.log.full|, 0, 0))
  {
    MergeSucceedsIff(n.log, request.entries);
    hide CanMerge, WellNumbered, Merge, Outbox.Stage;
  }

  /**
   A request changes the term, the vote, the known leader, the election timer and a candidacy exactly as far
   as the sender is heard, and the log exactly when the entries are accepted; the commit index then rises to
   what the leader has committed of it.
   */
  lemma AppendLeaves(n: Node, request: AppendRequest)
    requires n.Valid()
    ensures var (status, after, response) := n.HandleAppendEntries(request);
            var newer := WellFormed(request) && request.term > n.hard.currentTerm;
            var accepted := response.Some? && response.value.success;
            && after.hard == HardState(if newer then request.term else n.hard.currentTerm,
                                       if newer then 0 else n.hard.votedFor,
                                       after.log.commitIndex, n.hard.configurationId)
            && after.role == (if Hears(n, request) && n.role == Candidate then Follower else n.role)
            && after.leaderId == (if Hears(n, request) then request.leaderId else n.leaderId)
            && after.electionElapsed == (if Hears(n, request) then 0 else n.electionElapsed)
            && after.log == (if !accepted then n.log else
                               var merged := Merge(n.log, request.entries).1;
                               merged.(commitIndex := Max(n.log.commitIndex, Min(request.leaderCommit, |merged.full|))))
            && after == n.(hard := after.hard, role := after.role, leaderId := after.leaderId, log := after.log,
                           electionElapsed := after.electionElapsed, progress := after.progress, outbox := after.outbox)
  {
    hide Settled, ActiveVoters, Distinct, SetOf, WellNumbered, Node.Accept, Node.Mismatch, Outbox.Stage, InOrder, Merge,
         RespectsCommitted, AgreesBefore, LogState.Matches;
    AppendAcceptedIff(n, request);
    if WellFormed(request) {
      AgreesIffMatches(n.log, request);
    }
    AcceptSucceedsIff(Heard(n, request), request, n.hard);
    MergeSucceedsIff(n.log, request.entries);
    AcceptFacts(Heard(n, request), request, n.hard);
    MismatchSays(Heard(n, request), request.prevLogIndex);
  }

  /** What the sender is told: its own term and the length of the log, the old term, or where the logs part. */
  lemma AppendAnswer(n: Node, request: AppendRequest)
    requires n.Valid() && n.HandleAppendEntries(request).2.Some?
    ensures var (_, after, response) := n.HandleAppendEntries(request);
            var r := response.value;
            && Message(n.id, request.leaderId, AppendReply(r)) in Waiting(after.outbox)
            && (r.success ==> r == AppendResponse(request.term, true, |after.log.full|, 0, 0))
            && (!Hears(n, request) ==> r == AppendResponse(n.hard.currentTerm, false, 0, 0, 0))
            && (Hears(n, request) && !r.success ==>
                  && r.term == request.term && r.matchIndex == 0
                  && (request.prevLogIndex > |n.log.full| ==> r.conflictIndex == |n.log.full| + 1 && r.conflictTerm == 0)
                  && (0 < request.prevLogIndex < n.log.snapshotIndex ==>
                        r.conflictIndex == n.log.snapshotIndex + 1
                        && r.conflictTerm == n.log.full[n.log.snapshotIndex - 1].term)
                  && (0 < request.prevLogIndex && n.log.snapshotIndex <= request.prevLogIndex <= |n.log.full| ==>
                        r.conflictTerm == n.log.full[request.prevLogIndex - 1].term))
  {
    hide Settled, ActiveVoters, Distinct, SetOf, WellNumbered, Node.Accept, Outbox.Stage, Node.Mismatch, Node.Answer,
         CanMerge, AgreesBefore, LogState.Matches, Waiting;
    AppendAcceptedIff(n, request);
    if WellFormed(request) {
      AgreesIffMatches(n.log, request);
    }
    var f := Heard(n, request);
    AcceptSucceedsIff(f, request, n.hard);
    AcceptStages(f, request, n.hard);
    MismatchSays(f, request.prevLogIndex);
    AnswerWaits(f, request, f.Mismatch(request.prevLogIndex), n.hard, 0);
    var refusal := AppendResponse(n.hard.currentTerm, false, 0, 0, 0);
    AnswerWaits(n, request, refusal, n.hard, 0);
    AnswerWaits(n.WithTerm(request.term), request, refusal, n.hard, 0);
  }

  lemma AnswerWaits(n: Node, request: AppendRequest, response: AppendResponse, before: HardState, stableIndex: LogIndex)
    ensures Message(n.id, request.leaderId, AppendReply(response))
            in Waiting(n.Answer(request, response, before, stableIndex).1.outbox)
    ensures n.Answer(request, response, before, stableIndex).2 == Some(response)
  {
  }

  lemma AcceptStages(n: Node, request: AppendRequest, before: HardState)
    requires n.log.Valid()
    ensures var (_, after, response) := n.Accept(request, before);
            response.Some? ==> Message(n.id, request.leaderId, AppendReply(response.value)) in Waiting(after.outbox)
  {
    hide WellNumbered, Merge, Outbox.Stage, Waiting;
    var merged := Merge(n.log, request.entries).1;
    var m := n.(log := merged).Commit(Max(Min(request.leaderCommit, merged.LastIndex()), n.log.commitIndex)).SyncLocal();
    AnswerWaits(m, request, AppendResponse(m.hard.currentTerm, true, merged.LastIndex(), 0, 0), before,
               if merged.LastIndex() > n.log.LastIndex() then merged.LastIndex() else 0);
  }
}
