/** The value types of the Raft layer. */
module RaftTypes {
  import opened Common

  datatype Role = Follower | Candidate | Leader | Learner

  datatype EntryKind = NoOp | Command | MembershipChange

  datatype LogEntry = LogEntry(index: LogIndex, term: Term, kind: EntryKind, payload: Bytes)

  datatype HardState = HardState(
    currentTerm: Term,
    votedFor: NodeId,
    commitIndex: LogIndex,
    configurationId: nat
  )

  datatype NodeAddress = NodeAddress(host: Bytes, port: nat)

  datatype Member = Member(id: NodeId, address: NodeAddress)

  /**
   `MembershipView`, `MembershipLogEntry` and the fields of `MembershipState` carry the same data;
   the source copies them field by field into one another.
   */
  datatype Membership = Membership(
    configurationId: nat,
    voters: seq<Member>,
    learners: seq<Member>,
    inTransition: bool,
    nextVoters: seq<Member>,
    nextLearners: seq<Member>
  )

  const NO_MEMBERSHIP := Membership(0, [], [], false, [], [])
}
