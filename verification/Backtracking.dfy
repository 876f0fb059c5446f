/**
 Conflict backtracking: how a leader finds the end of the common prefix of its log and a follower's from
 the hints in the follower's rejections.
 */
module Backtracking {
  import opened Common
  import opened RaftTypes
  import opened LogModel
  import opened Messages
  import opened IdSets
  import opened MembershipRules
  import opened ActiveMembers
  import opened NodeModel
  import Clusters
  import LogMatching

  /** Two logs whose entries of one term lie on one line; what any two reachable logs satisfy. */
  ghost predicate Compatible(a: seq<LogEntry>, b: seq<LogEntry>) {
    forall i, j :: 0 <= i < |a| && 0 <= j < |b| && a[i].term == b[j].term ==>
      a[..Min(i, j) + 1] == b[..Min(i, j) + 1]
  }

  ghost predicate NonDecreasing(log: seq<LogEntry>) {
    forall i, j :: 0 <= i <= j < |log| ==> log[i].term <= log[j].term
  }

  ghost predicate AgreeUpTo(a: seq<LogEntry>, b: seq<LogEntry>, n: nat) {
    n <= |a| && n <= |b| && a[..n] == b[..n]
  }

  lemma AgreedTerm(a: seq<LogEntry>, b: seq<LogEntry>, n: nat, index: LogIndex)
    requires AgreeUpTo(a, b, n) && index <= n
    ensures TermAt(a, index) == TermAt(b, index)
  {
    if index > 0 {
      assert a[..n][index - 1] == b[..n][index - 1];
    }
  }

  lemma SameTermAgrees(a: seq<LogEntry>, b: seq<LogEntry>, i: LogIndex, j: LogIndex)
    requires Compatible(a, b) && 1 <= i <= |a| && 1 <= j <= |b| && TermAt(a, i) == TermAt(b, j)
    ensures AgreeUpTo(a, b, Min(i, j))
  {
    assert a[i - 1].term == b[j - 1].term;
  }

  // ---------------------------------------------------------------- the two searches

  /** The follower's hint starts a stretch of entries of the conflicting term that ends at the probe. */
  lemma {:induction false} RunStartFacts(f: Node, term: Term, index: LogIndex)
    requires f.log.Valid() && index <= f.log.LastIndex()
    ensures var r := f.RunStart(term, index);
            && r <= index + 1
            && (index > f.log.snapshotIndex && TermAt(f.log.full, index) == term ==> r <= index)
            && (index >= f.log.snapshotIndex ==> r > f.log.snapshotIndex)
            && forall i :: r <= i <= index ==> TermAt(f.log.full, i) == term
    decreases index
  {
    hide WellNumbered;
    if index > f.log.snapshotIndex && TermAt(f.log.full, index) == term {
      RunStartFacts(f, term, index - 1);
    }
  }

  /** The leader's search finds its last entry of the term, at or after its snapshot boundary. */
  lemma {:induction false} LastIndexFacts(l: Node, term: Term, index: LogIndex)
    requires l.log.Valid() && NonDecreasing(l.log.full) && term > 0
    requires l.log.snapshotIndex <= index <= l.log.LastIndex()
    ensures var r := l.LastIndexOfTerm(term, index);
            && r <= index
            && (r != 0 ==> r >= l.log.snapshotIndex && TermAt(l.log.full, r) == term)
            && forall i :: r < i <= index && i >= l.log.snapshotIndex ==> TermAt(l.log.full, i) != term
    decreases index
  {
    hide WellNumbered;
    if index > l.log.snapshotIndex {
      if TermAt(l.log.full, index) < term {
        forall i | l.log.snapshotIndex <= i <= index ensures TermAt(l.log.full, i) != term
        {
          if i > 0 {
            assert l.log.full[i - 1].term <= l.log.full[index - 1].term;
          }
        }
      } else if TermAt(l.log.full, index) != term {
        LastIndexFacts(l, term, index - 1);
      }
    }
  }

  // ---------------------------------------------------------------- one rejection

  /** A probe the leader can send and the follower can judge, but does not match. */
  ghost predicate RejectedProbe(l: Node, f: Node, next: LogIndex) {
    && l.log.Valid() && f.log.Valid()
    && l.log.snapshotIndex < next <= l.log.LastIndex() + 1
    && !f.log.Matches(next - 1, TermAt(l.log.full, next - 1))
  }

  ghost predicate Comparable(l: Node, f: Node) {
    Compatible(l.log.full, f.log.full) && NonDecreasing(l.log.full) && NonDecreasing(f.log.full)
  }

  /** Where the leader probes next after the rejection. */
  ghost function Retry(l: Node, f: Node, next: LogIndex): LogIndex
    requires f.log.Valid() && next > 0
  {
    var hint := f.Mismatch(next - 1);
    l.BackOff(hint.conflictIndex, hint.conflictTerm)
  }

  lemma RetryAfterShortLog(l: Node, f: Node, next: LogIndex)
    requires RejectedProbe(l, f, next) && next - 1 > f.log.LastIndex()
    ensures Retry(l, f, next) < next
    ensures forall n: nat :: AgreeUpTo(l.log.full, f.log.full, n) ==> n < Retry(l, f, next)
  {
    hide WellNumbered;
  }

  /** The hint a follower sends when it holds another term at the probe. */
  lemma TermHint(f: Node, prev: LogIndex)
    requires f.log.Valid() && 1 <= prev <= f.log.LastIndex() && f.log.snapshotIndex <= prev
    ensures var hint := f.Mismatch(prev);
            && hint.conflictTerm == TermAt(f.log.full, prev) > 0
            && 1 <= hint.conflictIndex <= prev
            && forall i :: hint.conflictIndex <= i <= prev ==> TermAt(f.log.full, i) == hint.conflictTerm
  {
    RunStartFacts(f, TermAt(f.log.full, prev), prev);
  }

  lemma RetryAfterTermClash(l: Node, f: Node, next: LogIndex)
    requires RejectedProbe(l, f, next) && Comparable(l, f)
    requires 1 <= next - 1 <= f.log.LastIndex() && f.log.snapshotIndex <= next - 1
    ensures Retry(l, f, next) < next
    ensures forall n: nat :: AgreeUpTo(l.log.full, f.log.full, n) ==> n < Retry(l, f, next)
  {
    var a, b, prev := l.log.full, f.log.full, next - 1;
    var hint := f.Mismatch(prev);
    TermHint(f, prev);
    var term := hint.conflictTerm;
    LastIndexFacts(l, term, l.log.LastIndex());
    var local := l.LastIndexOfTerm(term, l.log.LastIndex());
    hide WellNumbered, Node.Mismatch, Node.LastIndexOfTerm, Compatible;
    if local >= prev {
      SameTermAgrees(a, b, local, prev);
      AgreedTerm(a, b, prev, prev);
      assert false;
    }
    hide LogState.Valid;
    forall n: nat | AgreeUpTo(a, b, n) ensures n < Retry(l, f, next)
    {
      if n >= prev {
        AgreedTerm(a, b, n, prev);
        assert false;
      }
      AgreedTerm(a, b, n, n);
      if local != 0 && n > local {
        assert false;
      }
    }
  }

  /**
   Every rejection of the current probe strictly lowers the next index and keeps it past every index
   up to which the two logs agree.
   */
  lemma RejectionNarrows(l: Node, f: Node, next: LogIndex)
    requires RejectedProbe(l, f, next) && Comparable(l, f) && f.log.snapshotIndex <= next - 1
    ensures Retry(l, f, next) < next
    ensures forall n: nat :: AgreeUpTo(l.log.full, f.log.full, n) ==> n < Retry(l, f, next)
  {
    hide WellNumbered, Retry, Comparable;
    if next - 1 > f.log.LastIndex() {
      RetryAfterShortLog(l, f, next);
    } else {
      RetryAfterTermClash(l, f, next);
    }
  }

  /** A probe below the follower's snapshot gets the leader nowhere. */
  lemma BelowSnapshotStalls(l: Node, f: Node, next: LogIndex)
    requires RejectedProbe(l, f, next) && Comparable(l, f)
    requires AgreeUpTo(l.log.full, f.log.full, f.log.snapshotIndex) && next - 1 < f.log.snapshotIndex
    ensures Retry(l, f, next) >= next
  {
    var term := TermAt(f.log.full, f.log.snapshotIndex);
    AgreedTerm(l.log.full, f.log.full, f.log.snapshotIndex, f.log.snapshotIndex);
    assert term > 0;
    LastIndexFacts(l, term, l.log.LastIndex());
    hide WellNumbered, Node.LastIndexOfTerm, Compatible;
  }

  /** For logs that agree on the follower's snapshot, a rejection helps exactly when it is not below it. */
  lemma RejectionNarrowsIff(l: Node, f: Node, next: LogIndex)
    requires RejectedProbe(l, f, next) && Comparable(l, f)
    requires AgreeUpTo(l.log.full, f.log.full, f.log.snapshotIndex)
    ensures Retry(l, f, next) < next <==> f.log.snapshotIndex <= next - 1
  {
    hide WellNumbered, Retry, Comparable;
    if f.log.snapshotIndex <= next - 1 {
      RejectionNarrows(l, f, next);
    } else {
      BelowSnapshotStalls(l, f, next);
    }
  }

  // ---------------------------------------------------------------- all rejections

  /** The probe that is finally accepted, retrying after every rejection. */
  ghost function Accepted(l: Node, f: Node, next: LogIndex): LogIndex
    requires Searchable(l, f, next)
    decreases next
  {
    if f.log.Matches(next - 1, TermAt(l.log.full, next - 1)) then next
    else
      RetrySearchable(l, f, next);
      Accepted(l, f, Retry(l, f, next))
  }

  /** The logs agree on both snapshots, and the probe is past everything they agree on. */
  ghost predicate Searchable(l: Node, f: Node, next: LogIndex) {
    && l.log.Valid() && f.log.Valid() && Comparable(l, f)
    && AgreeUpTo(l.log.full, f.log.full, l.log.snapshotIndex)
    && AgreeUpTo(l.log.full, f.log.full, f.log.snapshotIndex)
    && next <= l.log.LastIndex() + 1
    && forall n: nat :: AgreeUpTo(l.log.full, f.log.full, n) ==> n < next
  }

  lemma RetrySearchable(l: Node, f: Node, next: LogIndex)
    requires Searchable(l, f, next) && !f.log.Matches(next - 1, TermAt(l.log.full, next - 1))
    ensures Retry(l, f, next) < next && Searchable(l, f, Retry(l, f, next))
  {
    hide WellNumbered, Retry, Comparable, AgreeUpTo;
    RejectionNarrows(l, f, next);
  }

  /** Backtracking ends, exactly one past the last index up to which the two logs agree. */
  lemma {:induction false} BacktrackingFindsCommonPrefix(l: Node, f: Node, next: LogIndex)
    requires Searchable(l, f, next)
    ensures var found := Accepted(l, f, next);
            && 1 <= found <= next
            && AgreeUpTo(l.log.full, f.log.full, found - 1)
            && forall n: nat :: AgreeUpTo(l.log.full, f.log.full, n) ==> n <= found - 1
    decreases next
  {
    hide WellNumbered, Retry;
    if f.log.Matches(next - 1, TermAt(l.log.full, next - 1)) {
      assert AgreeUpTo(l.log.full, f.log.full, 0);
      if next - 1 > 0 {
        SameTermAgrees(l.log.full, f.log.full, next - 1, next - 1);
      }
    } else {
      RetrySearchable(l, f, next);
      BacktrackingFindsCommonPrefix(l, f, Retry(l, f, next));
    }
  }

  // ---------------------------------------------------------------- on the nodes themselves

  lemma {:induction false} RunStartDependsOnLog(f: Node, g: Node, term: Term, index: LogIndex)
    requires f.log == g.log
    ensures f.RunStart(term, index) == g.RunStart(term, index)
    decreases index
  {
    if index > f.log.snapshotIndex && index <= f.log.LastIndex() && TermAt(f.log.full, index) == term {
      RunStartDependsOnLog(f, g, term, index - 1);
    }
  }

  lemma MismatchDependsOnLog(f: Node, g: Node, prev: LogIndex)
    requires f.log.Valid() && f.log == g.log
    ensures g.Mismatch(prev) == f.Mismatch(prev).(term := g.Term())
  {
    hide WellNumbered;
    if f.log.Answers(prev) && prev <= f.log.LastIndex() {
      RunStartDependsOnLog(f, g, TermAt(f.log.full, prev), prev);
    }
  }

  /** The probe a leader sends a follower, whose next index it holds. */
  ghost function Probe(l: Node, next: LogIndex): AppendRequest
    requires 1 <= next <= l.log.LastIndex() + 1
  {
    AppendRequest(l.Term(), l.id, next - 1, TermAt(l.log.full, next - 1), l.log.full[next - 1..], l.log.commitIndex)
  }

  lemma ProbeIsBuilt(l: Node, peer: NodeId)
    requires l.role == Leader && peer in l.progress && peer != l.id
    requires l.log.snapshotIndex < l.progress[peer].nextIndex <= l.log.LastIndex() + 1
    ensures l.BuildAppendEntries(peer).2 == Some(Probe(l, l.progress[peer].nextIndex))
  {
    hide Outbox.Stage;
  }

  lemma ProbeIsAnswered(l: Node, f: Node, next: LogIndex)
    requires l.Valid() && f.log.Valid() && f.role != Leader && f.Term() <= l.Term()
    requires RejectedProbe(l, f, next)
    ensures f.HandleAppendEntries(Probe(l, next)).2 == Some(f.Mismatch(next - 1).(term := l.Term()))
  {
    hide Settled, ActiveVoters, Distinct, SetOf, Node.Mismatch, Node.Accept, Outbox.Stage;
    var g := f.WithTerm(l.Term()).(role := if f.role == Candidate then Follower else f.role, leaderId := l.id,
                                   electionElapsed := 0);
    MismatchDependsOnLog(f, g, next - 1);
  }

  lemma HintIsUsable(f: Node, prev: LogIndex)
    requires f.log.Valid() && prev > 0
    ensures f.Mismatch(prev).conflictIndex > 0 && !f.Mismatch(prev).success
  {
    hide WellNumbered;
    if prev <= f.log.LastIndex() && f.log.Answers(prev) {
      RunStartFacts(f, TermAt(f.log.full, prev), prev);
    }
  }

  lemma HintLowersNextIndex(l: Node, peer: NodeId, hint: AppendResponse)
    requires l.role == Leader && peer in l.progress && peer != 0 && (peer in l.voters || peer in l.learners)
    requires hint.term == l.Term() && !hint.success && hint.conflictIndex > 0
    requires l.BackOff(hint.conflictIndex, hint.conflictTerm) <= l.progress[peer].nextIndex
    ensures var (status, after, action) := l.HandleAppendResponse(peer, hint);
            && status == Ok && action == NodeModel.Rejected
            && peer in after.progress
            && after.progress[peer].nextIndex == l.BackOff(hint.conflictIndex, hint.conflictTerm)
            && after.log == l.log && after.hard == l.hard && after.role == l.role
  {
    hide Node.BackOff;
  }

  /** A leader that probes, hears the rejection and handles it has moved its next index to the retry. */
  lemma RoundLowersNextIndex(l: Node, f: Node)
    requires l.Valid() && f.Valid() && l.role == Leader && f.id in l.progress && f.id != l.id
    requires f.id in l.voters || f.id in l.learners
    requires f.role != Leader && f.Term() <= l.Term()
    requires RejectedProbe(l, f, l.progress[f.id].nextIndex) && Comparable(l, f)
    requires f.log.snapshotIndex <= l.progress[f.id].nextIndex - 1
    ensures var next := l.progress[f.id].nextIndex;
            var request := l.BuildAppendEntries(f.id).2;
            && request.Some?
            && var response := f.HandleAppendEntries(request.value).2;
            && response.Some?
            && var (status, after, action) := l.HandleAppendResponse(f.id, response.value);
            && status == Ok && action == NodeModel.Rejected && f.id in after.progress
            && after.progress[f.id].nextIndex == Retry(l, f, next) < next
  {
    hide Settled, ActiveVoters, Distinct, SetOf, WellNumbered, Comparable, Node.Mismatch,
         Node.HandleAppendEntries, Node.BuildAppendEntries, Node.HandleAppendResponse, Node.BackOff;
    var next := l.progress[f.id].nextIndex;
    assert next > 1;
    RejectionNarrows(l, f, next);
    ProbeIsBuilt(l, f.id);
    ProbeIsAnswered(l, f, next);
    HintIsUsable(f, next - 1);
    HintLowersNextIndex(l, f.id, f.Mismatch(next - 1).(term := l.Term()));
  }

  // ---------------------------------------------------------------- delayed rejections

  /** A rejection that the leader of its term takes up. */
  ghost predicate Usable(l: Node, peer: NodeId, hint: AppendResponse) {
    && l.role == Leader && peer in l.progress && peer != 0 && (peer in l.voters || peer in l.learners)
    && hint.term == l.Term() && !hint.success && hint.conflictIndex > 0
  }

  /** The leader still holds an entry of the term at or above the index. */
  ghost predicate HoldsTermFrom(log: LogState, term: Term, from: LogIndex) {
    exists i :: Max(from, 1) <= i <= log.LastIndex() && log.snapshotIndex <= i && TermAt(log.full, i) == term
  }

  /** What a rejection says about a peer that has acknowledged the log up to an index. */
  ghost predicate HintAbove(log: LogState, hint: AppendResponse, matched: LogIndex) {
    if hint.conflictTerm > 0 && HoldsTermFrom(log, hint.conflictTerm, 0)
    then HoldsTermFrom(log, hint.conflictTerm, matched)
    else matched < hint.conflictIndex
  }

  /**
   A rejection, however late, keeps the next index of a peer above its match index if and only if the
   leader holds an entry of the conflicting term at or above the match index, or holds none of that term
   and the conflict is above it; nothing acknowledged, or nothing after the snapshot, is never undercut.
   */
  lemma RejectionKeepsOrderIff(l: Node, peer: NodeId, hint: AppendResponse)
    requires l.log.Valid() && NonDecreasing(l.log.full)
    requires Usable(l, peer, hint) && l.progress[peer].matchIndex < l.progress[peer].nextIndex
    ensures var after := l.HandleAppendResponse(peer, hint).1;
            var matched := l.progress[peer].matchIndex;
            && peer in after.progress && after.progress[peer].matchIndex == matched
            && (matched < after.progress[peer].nextIndex
                <==> matched <= l.log.LastIndex()
                     && (matched == 0 || matched < l.log.snapshotIndex || HintAbove(l.log, hint, matched)))
  {
    hide HintAbove, WellNumbered, NonDecreasing, Node.BackOff;
    BackOffAboveIff(l, hint, l.progress[peer].matchIndex);
  }

  lemma BackOffAboveIff(l: Node, hint: AppendResponse, matched: LogIndex)
    requires l.log.Valid() && NonDecreasing(l.log.full)
    ensures matched < l.BackOff(hint.conflictIndex, hint.conflictTerm)
            <==> matched <= l.log.LastIndex()
                 && (matched == 0 || matched < l.log.snapshotIndex || HintAbove(l.log, hint, matched))
  {
    hide WellNumbered, NonDecreasing;
    if hint.conflictTerm > 0 {
      LastIndexFacts(l, hint.conflictTerm, l.log.LastIndex());
      var local := l.LastIndexOfTerm(hint.conflictTerm, l.log.LastIndex());
      hide Node.LastIndexOfTerm;
      assert local != 0 ==> HoldsTermFrom(l.log, hint.conflictTerm, 0);
      assert local != 0 && matched <= local ==> HoldsTermFrom(l.log, hint.conflictTerm, matched);
    }
  }

  /** A rejection never undercuts what the logs agreed on when the follower sent it. */
  lemma AgreementIsNotUndercut(l: Node, f: Node, peer: NodeId, next: LogIndex, term: Term)
    requires RejectedProbe(l, f, next) && Comparable(l, f) && f.log.snapshotIndex <= next - 1
    requires Usable(l, peer, f.Mismatch(next - 1).(term := term))
    requires l.progress[peer].matchIndex < l.progress[peer].nextIndex
    requires AgreeUpTo(l.log.full, f.log.full, l.progress[peer].matchIndex)
    ensures var after := l.HandleAppendResponse(peer, f.Mismatch(next - 1).(term := term)).1;
            peer in after.progress && after.progress[peer].matchIndex < after.progress[peer].nextIndex
  {
    hide WellNumbered, Comparable, AgreeUpTo, Node.Mismatch, Node.BackOff;
    RejectionNarrows(l, f, next);
  }

  ghost function SampleLeader(entry: LogEntry): Node {
    Node(1, Leader, 1, 0, 0, 1, HardState(1, 1, 0, 0), LogState([entry], 0, 0, 0, 0), [1, 2, 3], [], NO_MEMBERSHIP,
         map[1 := PeerProgress(false, true, 1, 2), 2 := PeerProgress(false, true, 1, 2),
             3 := PeerProgress(false, true, 0, 1)],
         HardState(1, 1, 0, 0), EMPTY_OUTBOX)
  }

  /** A rejection from before the peer caught up: its next index falls back to what it has acknowledged. */
  lemma DelayedRejectionUndercuts(entry: LogEntry)
    requires entry == LogEntry(1, 1, Command, [])
    ensures SampleLeader(entry).Valid() && Usable(SampleLeader(entry), 2, AppendResponse(1, false, 0, 1, 0))
    ensures var after := SampleLeader(entry).HandleAppendResponse(2, AppendResponse(1, false, 0, 1, 0)).1;
            2 in after.progress && after.progress[2].nextIndex == after.progress[2].matchIndex == 1
  {
  }

  /** In every reachable cluster state any two logs are comparable, so the results above apply to them. */
  lemma ReachableLogsComparable(states: seq<Clusters.Cluster>, steps: seq<Clusters.Step>, s: nat, x: NodeId, y: NodeId)
    requires Clusters.Execution(states, steps) && s < |states| && x in states[s].nodes && y in states[s].nodes
    ensures Comparable(states[s].nodes[x], states[s].nodes[y])
  {
    hide Clusters.Execution;
    var a, b := states[s].nodes[x].log.full, states[s].nodes[y].log.full;
    forall i, j | 0 <= i < |a| && 0 <= j < |b| && a[i].term == b[j].term
      ensures a[..Min(i, j) + 1] == b[..Min(i, j) + 1]
    {
      if i <= j {
        LogMatching.LogsShareLines(states, steps, s, x, y, i, j);
      } else {
        LogMatching.LogsShareLines(states, steps, s, y, x, j, i);
      }
    }
    forall i, j | 0 <= i <= j < |a| ensures a[i].term <= a[j].term
    {
      LogMatching.LogsShareLines(states, steps, s, y, x, i, j);
    }
    forall i, j | 0 <= i <= j < |b| ensures b[i].term <= b[j].term
    {
      LogMatching.LogsShareLines(states, steps, s, x, y, i, j);
    }
  }
}
