/** What a node holds back until it is durable, and what a confirmation of durability or of applying does. */
module Persistences {
  import opened Common
  import opened RaftTypes
  import opened IdSets
  import opened LogModel
  import opened Messages
  import opened MembershipRules
  import opened ActiveMembers
  import opened NodeModel
  import opened Replications
  import Departures

  /** What the message waits for is on disk: the hard state, the log up to an index, or both. */
  ghost predicate MayLeave(p: Pending, n: Node) {
    && (p.needsHardState ==> n.persisted == n.hard)
    && (p.stableIndex > 0 ==> p.stableIndex <= n.log.stableIndex)
  }

  lemma {:induction false} ReleasedIffReady(queue: seq<Pending>, dirty: bool, stable: LogIndex)
    ensures forall p :: p in queue && p.Ready(dirty, stable) ==> p.message in Released(queue, dirty, stable)
    ensures forall m :: m in Released(queue, dirty, stable) ==>
              exists p :: p in queue && p.message == m && p.Ready(dirty, stable)
    ensures forall p :: p in Blocked(queue, dirty, stable) <==> p in queue && !p.Ready(dirty, stable)
  {
    hide Pending.Ready;
    if queue != [] {
      var rest := queue[1..];
      assert queue == [queue[0]] + rest;
      ReleasedIffReady(rest, dirty, stable);
      forall m | m in Released(queue, dirty, stable)
        ensures exists p :: p in queue && p.message == m && p.Ready(dirty, stable)
      {
        if !(queue[0].Ready(dirty, stable) && m == queue[0].message) {
          assert m in Released(rest, dirty, stable);
          var p :| p in rest && p.message == m && p.Ready(dirty, stable);
          assert p in queue;
        }
      }
    }
  }

  /** The storage did what it was asked, no less than before and no more than the log and the batch contain. */
  ghost predicate GoodConfirmation(n: Node, c: Confirmation) {
    && c.status == Ok && n.log.stableIndex <= c.stableIndex <= |n.log.full|
    && (c.maxStableIndex > 0 ==> c.stableIndex <= c.maxStableIndex)
  }

  /**
   A good confirmation records what is durable, and of the messages that waited it lets go exactly those that
   wait for nothing else; any other is refused and changes nothing.
   */
  lemma ConfirmationOutcome(n: Node, c: Confirmation)
    ensures var (status, after) := n.ConfirmPersistence(c);
            && (status == Ok <==> GoodConfirmation(n, c))
            && (status != Ok ==> after == n)
            && (status == Ok ==>
                  && after == n.(persisted := after.persisted, log := n.log.(stableIndex := c.stableIndex),
                                 outbox := after.outbox)
                  && after.persisted == (if c.hardStatePersisted then n.hard else n.persisted)
                  && n.outbox.immediate <= after.outbox.immediate
                  && (forall p :: p in after.outbox.pending <==> p in n.outbox.pending && !MayLeave(p, after))
                  && (forall p :: p in n.outbox.pending && MayLeave(p, after) ==> p.message in after.outbox.immediate)
                  && forall m :: m in after.outbox.immediate[|n.outbox.immediate|..] ==>
                       exists p :: p in n.outbox.pending && p.message == m && MayLeave(p, after))
  {
    if GoodConfirmation(n, c) {
      var after := n.ConfirmPersistence(c).1;
      ReleasedIffReady(n.outbox.pending, after.Dirty(), c.stableIndex);
      ReadyIffMayLeave(after);
      hide Released, Blocked, MayLeave, Pending.Ready;
      var released := Released(n.outbox.pending, after.Dirty(), c.stableIndex);
      assert after.outbox.immediate == n.outbox.immediate + released;
      assert after.outbox.immediate[|n.outbox.immediate|..] == released;
    }
  }

  lemma ReadyIffMayLeave(n: Node)
    ensures forall p: Pending :: p.Ready(n.Dirty(), n.log.stableIndex) <==> MayLeave(p, n)
  {
  }

  /** Once everything is durable nothing waits any more. */
  lemma FullConfirmationReleasesAll(n: Node)
    requires n.Valid() && forall p :: p in n.outbox.pending ==> p.stableIndex <= |n.log.full|
    ensures var (status, after) := n.ConfirmPersistence(Confirmation(Ok, true, |n.log.full|, 0));
            && status == Ok && after.outbox.pending == []
            && forall p :: p in n.outbox.pending ==> p.message in after.outbox.immediate
  {
    hide Settled, ActiveVoters, Distinct, SetOf, WellNumbered, Node.ConfirmPersistence;
    var c := Confirmation(Ok, true, |n.log.full|, 0);
    var after := n.ConfirmPersistence(c).1;
    ConfirmationOutcome(n, c);
    if after.outbox.pending != [] {
      SomethingWaits(after.outbox.pending);
    }
  }

  lemma SomethingWaits(queue: seq<Pending>)
    requires queue != []
    ensures exists p :: p in queue
  {
    assert queue[0] in queue;
  }

  /** Entries are applied one by one, in order, and only once they are committed. */
  lemma AppliedOneByOne(n: Node, index: LogIndex)
    requires n.Valid()
    ensures var (status, after) := n.ConfirmApplied(index);
            && (status == Ok <==> index == n.log.appliedIndex + 1 && index <= n.log.commitIndex)
            && after == if status == Ok then n.(log := n.log.(appliedIndex := index)) else n
  {
    hide Settled, ActiveVoters, Distinct, SetOf, WellNumbered;
  }

  /** What a leader sends waits until its hard state and the entries it carries are durable. */
  lemma AppendLeavesAtOnceIff(l: Node, peer: NodeId)
    requires l.Valid() && l.BuildAppendEntries(peer).0 == Ok
    ensures var (_, after, request) := l.BuildAppendEntries(peer);
            && request.Some?
            && (Message(l.id, peer, AppendOrder(request.value)) in after.outbox.immediate
                <==> l.persisted == l.hard && (request.value.entries == [] || l.log.stableIndex == |l.log.full|))
  {
    hide Settled, ActiveVoters, Distinct, SetOf, WellNumbered, Outbox.Stage;
    var (_, after, request) := l.BuildAppendEntries(peer);
    var next := l.progress[peer].nextIndex;
    Departures.StagedAtOnceIff(l.outbox, Message(l.id, peer, AppendOrder(request.value)), l.Dirty(),
                               if next <= l.log.LastIndex() then l.log.LastIndex() else 0, l.log.stableIndex);
  }

  lemma SnapshotLeavesAtOnceIff(l: Node, peer: NodeId)
    requires l.Valid() && l.BuildInstallSnapshot(peer).0 == Ok
    ensures var (_, after, request) := l.BuildInstallSnapshot(peer);
            && request.Some?
            && (Message(l.id, peer, SnapshotOrder(request.value)) in after.outbox.immediate <==> l.persisted == l.hard)
  {
    hide Settled, ActiveVoters, Distinct, SetOf, WellNumbered, Outbox.Stage;
    var (_, after, request) := l.BuildInstallSnapshot(peer);
    Departures.StagedAtOnceIff(l.outbox, Message(l.id, peer, SnapshotOrder(request.value)), l.Dirty(), 0, l.log.stableIndex);
  }
}
