/** The two message queues over every run: one message per kind and target, none lost on release. */
module Outboxes {
  import opened Common
  import opened RaftTypes
  import opened IdSets
  import opened LogModel
  import opened Messages
  import opened MembershipRules
  import opened ActiveMembers
  import opened NodeModel
  import opened NodeRuns

  ghost function Waiting(queue: seq<Pending>): seq<Message> {
    if queue == [] then [] else [queue[0].message] + Waiting(queue[1..])
  }

  /** How many messages of the kind and target of `m` a queue holds. */
  ghost function Rivals(queue: seq<Message>, m: Message): nat {
    if queue == [] then 0 else (if Supersedes(m, queue[0]) then 1 else 0) + Rivals(queue[1..], m)
  }

  /** At most one message of each kind for each target, over both queues. */
  ghost predicate OnePerKind(o: Outbox) {
    forall m :: Rivals(o.immediate, m) + Rivals(Waiting(o.pending), m) <= 1
  }

  lemma {:induction false} RivalsConcat(a: seq<Message>, b: seq<Message>, m: Message)
    ensures Rivals(a + b, m) == Rivals(a, m) + Rivals(b, m)
  {
    if a == [] {
      assert a + b == b;
    } else {
      assert (a + b)[1..] == a[1..] + b;
      RivalsConcat(a[1..], b, m);
    }
  }

  lemma {:induction false} WaitingConcat(a: seq<Pending>, b: seq<Pending>)
    ensures Waiting(a + b) == Waiting(a) + Waiting(b)
  {
    if a == [] {
      assert a + b == b;
    } else {
      assert (a + b)[1..] == a[1..] + b;
      WaitingConcat(a[1..], b);
    }
  }

  /** Dropping what `newer` supersedes leaves no rival of it and the other kinds as they were. */
  lemma {:induction false} DropMessagesFacts(queue: seq<Message>, newer: Message, m: Message)
    ensures Rivals(DropMessages(queue, newer), m) == if Supersedes(m, newer) then 0 else Rivals(queue, m)
  {
    if queue != [] {
      DropMessagesFacts(queue[1..], newer, m);
      assert ([queue[0]] + DropMessages(queue[1..], newer))[1..] == DropMessages(queue[1..], newer);
    }
  }

  lemma {:induction false} DropPendingFacts(queue: seq<Pending>, newer: Message, m: Message)
    ensures Rivals(Waiting(DropPending(queue, newer)), m)
            == if Supersedes(m, newer) then 0 else Rivals(Waiting(queue), m)
  {
    if queue != [] {
      DropPendingFacts(queue[1..], newer, m);
      assert Waiting(queue) == [queue[0].message] + Waiting(queue[1..]);
      assert ([queue[0].message] + Waiting(queue[1..]))[1..] == Waiting(queue[1..]);
      var kept := DropPending(queue[1..], newer);
      assert ([queue[0]] + kept)[1..] == kept;
      assert ([queue[0].message] + Waiting(kept))[1..] == Waiting(kept);
    }
  }

  /** After staging, the new message is the only one of its kind and target; other kinds are untouched. */
  lemma StageFacts(o: Outbox, message: Message, needsHardState: bool, stableIndex: LogIndex, stable: LogIndex, m: Message)
    ensures var after := o.Stage(message, needsHardState, stableIndex, stable);
            Rivals(after.immediate, m) + Rivals(Waiting(after.pending), m)
            == if Supersedes(m, message) then 1 else Rivals(o.immediate, m) + Rivals(Waiting(o.pending), m)
  {
    DropMessagesFacts(o.immediate, message, m);
    DropPendingFacts(o.pending, message, m);
    RivalsConcat(DropMessages(o.immediate, message), [message], m);
    var p := Pending(message, needsHardState, if stableIndex > stable then stableIndex else 0);
    WaitingConcat(DropPending(o.pending, message), [p]);
    assert Waiting([p]) == [message];
    RivalsConcat(Waiting(DropPending(o.pending, message)), [message], m);
  }

  lemma StageKeepsOnePerKind(o: Outbox, message: Message, needsHardState: bool, stableIndex: LogIndex, stable: LogIndex)
    requires OnePerKind(o)
    ensures OnePerKind(o.Stage(message, needsHardState, stableIndex, stable))
  {
    hide Outbox.Stage, Rivals;
    forall m
      ensures var after := o.Stage(message, needsHardState, stableIndex, stable);
              Rivals(after.immediate, m) + Rivals(Waiting(after.pending), m) <= 1
    {
      StageFacts(o, message, needsHardState, stableIndex, stable, m);
    }
  }

  /** Releasing splits the waiting messages in two: nothing is lost, nothing is duplicated. */
  lemma MultisetCons(first: Message, rest: seq<Message>)
    ensures multiset([first] + rest) == multiset{first} + multiset(rest)
  {
  }

  lemma WaitingCons(first: Pending, rest: seq<Pending>)
    ensures Waiting([first] + rest) == [first.message] + Waiting(rest)
  {
    assert ([first] + rest)[1..] == rest;
  }

  lemma {:induction false} ReleaseConserves(queue: seq<Pending>, dirty: bool, stable: LogIndex)
    ensures multiset(Released(queue, dirty, stable)) + multiset(Waiting(Blocked(queue, dirty, stable)))
            == multiset(Waiting(queue))
  {
    hide Pending.Ready, Waiting;
    if queue == [] {
      assert Waiting(queue) == [] by { EmptyWaiting(queue); }
    } else {
      var first, rest := queue[0], queue[1..];
      ReleaseConserves(rest, dirty, stable);
      assert queue == [first] + rest;
      WaitingCons(first, rest);
      MultisetCons(first.message, Waiting(rest));
      if first.Ready(dirty, stable) {
        MultisetCons(first.message, Released(rest, dirty, stable));
      } else {
        WaitingCons(first, Blocked(rest, dirty, stable));
        MultisetCons(first.message, Waiting(Blocked(rest, dirty, stable)));
      }
    }
  }

  lemma EmptyWaiting(queue: seq<Pending>)
    requires queue == []
    ensures Waiting(queue) == []
  {
  }

  lemma {:induction false} BlockedNotReady(queue: seq<Pending>, dirty: bool, stable: LogIndex)
    ensures forall p :: p in Blocked(queue, dirty, stable) ==> !p.Ready(dirty, stable)
  {
    if queue != [] {
      BlockedNotReady(queue[1..], dirty, stable);
    }
  }

  lemma {:induction false} RivalsWithout(a: seq<Message>, m: Message, x: Message)
    requires x in a
    ensures Rivals(a, m) == Rivals(Without(a, x), m) + if Supersedes(m, x) then 1 else 0
  {
    hide Supersedes;
    assert a == [a[0]] + a[1..];
    if a[0] != x {
      RivalsWithout(a[1..], m, x);
      assert ([a[0]] + Without(a[1..], x))[1..] == Without(a[1..], x);
    }
  }

  lemma {:induction false} WithoutRemoves(a: seq<Message>, x: Message)
    requires x in a
    ensures multiset(Without(a, x)) == multiset(a) - multiset{x}
  {
    assert a == [a[0]] + a[1..];
    if a[0] != x {
      WithoutRemoves(a[1..], x);
    }
  }

  ghost function Without(a: seq<Message>, x: Message): seq<Message> {
    if a == [] then [] else if a[0] == x then a[1..] else [a[0]] + Without(a[1..], x)
  }

  lemma {:induction false} RivalsPermute(a: seq<Message>, b: seq<Message>, m: Message)
    requires multiset(a) == multiset(b)
    ensures Rivals(a, m) == Rivals(b, m)
    decreases |a|
  {
    if a == [] {
      assert multiset(b) == multiset{};
      assert |multiset(b)| == |b|;
    } else {
      assert a[0] in multiset(b);
      assert a == [a[0]] + a[1..];
      RivalsWithout(b, m, a[0]);
      WithoutRemoves(b, a[0]);
      RivalsPermute(a[1..], Without(b, a[0]), m);
    }
  }

  /** A confirmation conserves all messages and leaves only messages waiting that may not be sent yet. */
  lemma ReclassifyConserves(o: Outbox, dirty: bool, stable: LogIndex)
    ensures var after := o.Reclassify(dirty, stable);
            && multiset(after.immediate) + multiset(Waiting(after.pending))
               == multiset(o.immediate) + multiset(Waiting(o.pending))
            && forall p :: p in after.pending ==> !p.Ready(dirty, stable)
  {
    ReleaseConserves(o.pending, dirty, stable);
    BlockedNotReady(o.pending, dirty, stable);
    hide Waiting, Blocked, Released, Pending.Ready;
  }

  lemma ReclassifyKeepsOnePerKind(o: Outbox, dirty: bool, stable: LogIndex)
    requires OnePerKind(o)
    ensures OnePerKind(o.Reclassify(dirty, stable))
  {
    var after := o.Reclassify(dirty, stable);
    ReclassifyConserves(o, dirty, stable);
    hide Outbox.Reclassify, Rivals, Waiting;
    forall m ensures Rivals(after.immediate, m) + Rivals(Waiting(after.pending), m) <= 1
    {
      RivalsPermute(after.immediate + Waiting(after.pending), o.immediate + Waiting(o.pending), m);
      RivalsConcat(after.immediate, Waiting(after.pending), m);
      RivalsConcat(o.immediate, Waiting(o.pending), m);
    }
  }

  // ---------------------------------------------------------------- over runs

  /** The outbox of a node after a call: as before, with one message staged, or reclassified. */
  ghost predicate OutboxFrame(before: Outbox, after: Outbox) {
    || after == before
    || (exists message, needs, index, stable :: after == before.Stage(message, needs, index, stable))
    || (exists dirty, stable :: after == before.Reclassify(dirty, stable))
  }

  lemma FrameKeeps(before: Outbox, after: Outbox)
    requires OnePerKind(before) && OutboxFrame(before, after)
    ensures OnePerKind(after)
  {
    hide OnePerKind, Outbox.Stage, Outbox.Reclassify;
    if after != before {
      if message, needs, index, stable :| after == before.Stage(message, needs, index, stable) {
        StageKeepsOnePerKind(before, message, needs, index, stable);
      } else {
        var dirty, stable :| after == before.Reclassify(dirty, stable);
        ReclassifyKeepsOnePerKind(before, dirty, stable);
      }
    }
  }

  lemma ProposalFrames(n: Node, call: Call)
    requires n.Valid() && (call.CallPropose? || call.CallProposeChange?)
    ensures After(n, call).outbox == n.outbox
  {
    hide Settled, ActiveVoters, Distinct, SetOf, WellNumbered, Build, Codec.Encode, Node.PendingChange,
         Node.ActiveCount, Node.SearchCommit;
  }

  lemma AcceptFrames(n: Node, request: AppendRequest, before: HardState)
    requires n.log.Valid()
    ensures OutboxFrame(n.outbox, n.Accept(request, before).1.outbox)
  {
    hide WellNumbered, Merge, Outbox.Stage;
  }

  lemma AppendEntriesFrames(n: Node, request: AppendRequest)
    requires n.Valid()
    ensures OutboxFrame(n.outbox, n.HandleAppendEntries(request).1.outbox)
  {
    hide Settled, ActiveVoters, Distinct, SetOf, WellNumbered, Node.Mismatch, Node.Accept, Outbox.Stage,
         Outbox.Reclassify;
    AcceptFrames(Heard(n, request), request, n.hard);
  }

  lemma AppendResponseFrames(n: Node, source: NodeId, response: AppendResponse)
    requires n.Valid()
    ensures n.HandleAppendResponse(source, response).1.outbox == n.outbox
  {
    hide Settled, ActiveVoters, Distinct, SetOf, WellNumbered, Node.SearchCommit, Node.BackOff;
  }

  lemma MembershipFrames(n: Node, call: Call)
    requires n.Valid() && (call.CallApplyMembership? || call.CallUpdateSnapshot?)
    ensures After(n, call).outbox == n.outbox
  {
    hide Settled, ActiveVoters, AppliedLearners, TransitionLearners, Listing, Distinct, SetOf, WellNumbered,
         ValidMembership, SortMembers, ApplyEntry, Codec.Decode, LogState.UpdateSnapshotBoundary;
  }

  lemma RoleCallFrames(n: Node, call: Call)
    requires n.Valid()
    requires call.CallTick? || call.CallUpdateTimeout? || call.CallBecomeFollower? || call.CallStartElection?
             || call.CallBecomeLeader? || call.CallVoteResponse? || call.CallSnapshotResponse? || call.CallConfirmApplied?
    ensures After(n, call).outbox == n.outbox
  {
    hide Settled, ActiveVoters, Distinct, SetOf, WellNumbered;
  }

  lemma VoteFrames(n: Node, request: VoteRequest)
    requires n.Valid()
    ensures OutboxFrame(n.outbox, n.HandleRequestVote(request).1.outbox)
  {
    hide Settled, ActiveVoters, Distinct, SetOf, WellNumbered, Outbox.Stage, Outbox.Reclassify;
  }

  lemma SendFrames(n: Node, call: Call)
    requires n.Valid() && (call.CallBuildAppend? || call.CallBuildSnapshot? || call.CallConfirmPersistence?)
    ensures OutboxFrame(n.outbox, After(n, call).outbox)
  {
    hide Settled, ActiveVoters, Distinct, SetOf, WellNumbered, Outbox.Stage, Outbox.Reclassify;
  }

  lemma CallFrames(n: Node, call: Call)
    requires n.Valid()
    ensures OutboxFrame(n.outbox, After(n, call).outbox)
  {
    hide Node.Valid, Node.HandleAppendEntries, Node.HandleAppendResponse, Node.ApplyMembershipEntry,
         Node.UpdateSnapshotBoundary;
    if call.CallAppendEntries? {
      AppendEntriesFrames(n, call.append);
    } else if call.CallAppendResponse? {
      AppendResponseFrames(n, call.source, call.appendReply);
    } else if call.CallPropose? || call.CallProposeChange? {
      ProposalFrames(n, call);
    } else if call.CallApplyMembership? || call.CallUpdateSnapshot? {
      MembershipFrames(n, call);
    } else if call.CallRequestVote? {
      VoteFrames(n, call.vote);
    } else if call.CallBuildAppend? || call.CallBuildSnapshot? || call.CallConfirmPersistence? {
      SendFrames(n, call);
    } else {
      RoleCallFrames(n, call);
    }
  }

  /** Over every run the node holds at most one message of each kind for each target. */
  lemma {:induction false} RunKeepsOnePerKind(n: Node, calls: seq<Call>)
    requires n.Valid() && OnePerKind(n.outbox)
    ensures OnePerKind(Run(n, calls).outbox)
    decreases |calls|
  {
    hide Node.Valid, After, OnePerKind, OutboxFrame;
    if calls != [] {
      CallContinues(n, calls[0]);
      CallFrames(n, calls[0]);
      FrameKeeps(n.outbox, After(n, calls[0]).outbox);
      RunKeepsOnePerKind(After(n, calls[0]), calls[1..]);
    }
  }
}
