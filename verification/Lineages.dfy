/**
 Logs that descend from elected leaders. The lineage of a term is the log of the one leader elected in
 it; a log follows the lineages when, up to each of its entries, it is the log of the leader who wrote
 that entry.
 */
module Lineages {
  import opened Common
  import opened RaftTypes
  import opened LogModel

  type Lineage = map<Term, seq<LogEntry>>

  ghost predicate Follows(lineage: Lineage, log: seq<LogEntry>) {
    forall i :: 0 <= i < |log| ==>
      && log[i].term in lineage
      && i < |lineage[log[i].term]|
      && log[..i + 1] == lineage[log[i].term][..i + 1]
  }

  /** Every lineage is itself a well-formed log, follows the lineages and stays within its term. */
  ghost predicate Sound(lineage: Lineage) {
    forall t :: t in lineage ==> WellNumbered(lineage[t]) && Follows(lineage, lineage[t]) && TermsUpTo(lineage[t], t)
  }

  ghost predicate TermsUpTo(log: seq<LogEntry>, term: Term) {
    forall i :: 0 <= i < |log| ==> log[i].term <= term
  }

  /** Lineages only grow. */
  ghost predicate Extends(newer: Lineage, older: Lineage) {
    forall t :: t in older ==> t in newer && older[t] <= newer[t]
  }

  /** Two entries of one term, at whatever indexes, put both logs on one lineage. */
  lemma SameTermSamePrefix(lineage: Lineage, a: seq<LogEntry>, b: seq<LogEntry>, i: nat, j: nat)
    requires Follows(lineage, a) && Follows(lineage, b)
    requires i <= j && i < |a| && j < |b| && a[i].term == b[j].term
    ensures a[..i + 1] == b[..i + 1]
  {
    var line := lineage[a[i].term];
    assert b[..i + 1] == b[..j + 1][..i + 1];
    assert line[..i + 1] == line[..j + 1][..i + 1];
  }

  /** Terms along a log that follows sound lineages never decrease. */
  lemma TermsNeverDecrease(lineage: Lineage, log: seq<LogEntry>, i: nat, j: nat)
    requires Sound(lineage) && Follows(lineage, log) && i <= j < |log|
    ensures log[i].term <= log[j].term
  {
    var line := lineage[log[j].term];
    assert log[..j + 1][i] == line[..j + 1][i];
    assert line[i].term <= log[j].term;
  }

  lemma PrefixFollows(lineage: Lineage, log: seq<LogEntry>, longer: seq<LogEntry>)
    requires log <= longer && Follows(lineage, longer)
    ensures Follows(lineage, log)
  {
    forall i | 0 <= i < |log|
      ensures log[i].term in lineage && i < |lineage[log[i].term]|
              && log[..i + 1] == lineage[log[i].term][..i + 1]
    {
      assert log[i] == longer[i];
      assert log[..i + 1] == longer[..i + 1];
    }
  }

  lemma FollowsExtended(older: Lineage, newer: Lineage, log: seq<LogEntry>)
    requires Follows(older, log) && Extends(newer, older)
    ensures Follows(newer, log)
  {
    forall i | 0 <= i < |log|
      ensures log[i].term in newer && i < |newer[log[i].term]|
              && log[..i + 1] == newer[log[i].term][..i + 1]
    {
      var t := log[i].term;
      assert older[t][..i + 1] == newer[t][..i + 1];
    }
  }

  /** What truncate-then-append leaves, in terms of how much of the batch was already held. */
  lemma MergeOutcome(s: LogState, incoming: seq<LogEntry>)
    requires s.Valid() && incoming != [] && Merge(s, incoming).0 == Ok
    ensures incoming[0].index > 0
    ensures var k := HeldPrefix(s, incoming);
            var at := incoming[0].index - 1 + k;
            if k == |incoming| then Merge(s, incoming).1.full == s.full
            else at <= |s.full| && Merge(s, incoming).1.full == s.full[..at] + incoming[k..]
  {
    hide WellNumbered, HeldPrefix;
    var k := HeldPrefix(s, incoming);
    assert s.GoodBatch(incoming, incoming[0].index);
    if k < |incoming| {
      assert incoming[k].index == incoming[0].index + k;
      if incoming[k].index > s.LastIndex() {
        assert incoming[k..][0] == incoming[k];
        assert s.full[..|s.full|] == s.full;
      }
    }
  }

  lemma HeldAgrees(s: LogState, incoming: seq<LogEntry>, j: nat)
    requires j < HeldPrefix(s, incoming)
    ensures 1 <= incoming[j].index <= |s.full| && s.full[incoming[j].index - 1].term == incoming[j].term
  {
    assert Holds(s, incoming[j]);
  }

  lemma SharedUpTo(lineage: Lineage, a: seq<LogEntry>, b: seq<LogEntry>, n: nat)
    requires Follows(lineage, a) && Follows(lineage, b) && n <= |a| && n <= |b|
    requires n > 0 ==> a[n - 1].term == b[n - 1].term
    ensures a[..n] == b[..n]
  {
    hide Follows;
    if n > 0 {
      SameTermSamePrefix(lineage, a, b, n - 1, n - 1);
    }
  }

  /**
   Accepting the rest of a leader's log after a matching position leaves a log that contains the
   leader's, and is either the old log or exactly the leader's.
   */
  lemma MergeFollows(lineage: Lineage, s: LogState, origin: seq<LogEntry>, prev: LogIndex)
    requires s.Valid() && Follows(lineage, s.full) && Follows(lineage, origin) && WellNumbered(origin)
    requires prev <= |origin| && s.Matches(prev, TermAt(origin, prev))
    requires Merge(s, origin[prev..]).0 == Ok
    ensures var merged := Merge(s, origin[prev..]).1;
            && origin <= merged.full
            && (merged.full == s.full || merged.full == origin)
  {
    hide Follows, Merge, HeldPrefix;
    var incoming := origin[prev..];
    if incoming == [] {
      SharedUpTo(lineage, s.full, origin, prev);
      assert origin == origin[..prev];
      MergeNothing(s);
    } else {
      var k := HeldPrefix(s, incoming);
      assert incoming[0].index == prev + 1;
      MergeOutcome(s, incoming);
      HeldShared(lineage, s, origin, prev);
      assert origin == origin[..prev + k] + incoming[k..];
    }
  }

  /** The log agrees with the sender's up to the end of the held part of the batch. */
  lemma HeldShared(lineage: Lineage, s: LogState, origin: seq<LogEntry>, prev: LogIndex)
    requires s.Valid() && Follows(lineage, s.full) && Follows(lineage, origin) && WellNumbered(origin)
    requires prev < |origin| && s.Matches(prev, TermAt(origin, prev))
    ensures var k := HeldPrefix(s, origin[prev..]);
            prev + k <= |s.full| && prev + k <= |origin| && s.full[..prev + k] == origin[..prev + k]
  {
    hide Follows, HeldPrefix;
    var incoming := origin[prev..];
    var k := HeldPrefix(s, incoming);
    if k > 0 {
      HeldAgrees(s, incoming, k - 1);
      assert incoming[k - 1] == origin[prev + k - 1];
    }
    hide WellNumbered;
    SharedUpTo(lineage, s.full, origin, prev + k);
  }

  lemma MergeNothing(s: LogState)
    ensures Merge(s, []) == (Ok, s)
  {
  }
}
