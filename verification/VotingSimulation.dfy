/** SimulateQueue of cactivemasternode.cpp: the loops over a snapshot that compute the rotation. */
module QueueSimulation {
  import opened Basics
  import opened VotingConstants
  import opened Rotation

  ghost predicate Undercut(paid: map<OutPoint, int>, e: SnapshotEntry, best: SnapshotEntry) {
    var re, rb := Rank(paid, e.vin, e.confirmedHeight), Rank(paid, best.vin, best.confirmedHeight);
    re < rb || (re == rb && e.vin.Less(best.vin))
  }

  ghost predicate Leads(entries: seq<SnapshotEntry>, paid: map<OutPoint, int>, target: int,
                        best: Option<SnapshotEntry>) {
    match best
    case None => forall e :: e in entries ==> !VotingEligible(e.confirmedHeight, ReferenceHeight(target))
    case Some(b) =>
      && b in entries && VotingEligible(b.confirmedHeight, ReferenceHeight(target))
      && forall e :: e in entries && VotingEligible(e.confirmedHeight, ReferenceHeight(target)) ==>
           !Undercut(paid, e, b)
  }

  lemma {:induction false} LeaderIsNextPick(entries: seq<SnapshotEntry>, paid: map<OutPoint, int>, target: int,
                                            best: Option<SnapshotEntry>)
    requires DistinctVins(entries) && Leads(entries, paid, target, best)
    ensures NextPick(Roster(entries), paid, target) == if best.Some? then Some(MemberOf(best.value)) else None
  {
    var pool := EligibleAt(Roster(entries), target);
    match best
    case None =>
      forall m | m in Roster(entries) ensures m !in pool {
        var e :| e in entries && MemberOf(e) == m;
      }
    case Some(b) =>
      var m := MemberOf(b);
      assert m in Roster(entries);
      forall o | o in pool && o != m ensures Older(paid, m, o) {
        var e :| e in entries && MemberOf(e) == o;
        var i :| 0 <= i < |entries| && entries[i] == e;
        var j :| 0 <= j < |entries| && entries[j] == b;
        assert e.vin != b.vin;
      }
      OldestIsUnique(pool, paid, m);
  }

  lemma {:induction false} RosterIsDistinct(entries: seq<SnapshotEntry>)
    requires DistinctVins(entries)
    ensures DistinctMembers(Roster(entries))
  {
    forall a, b | a in Roster(entries) && b in Roster(entries) && a.vin == b.vin ensures a == b {
      var i :| 0 <= i < |entries| && MemberOf(entries[i]) == a;
      var j :| 0 <= j < |entries| && MemberOf(entries[j]) == b;
    }
  }

  /** A queue entry names a masternode exactly when some candidate is eligible at its reference height. */
  lemma {:induction false} EntryIsFilledIff(candidates: seq<SnapshotEntry>, queueHeight: int, p: nat)
    requires DistinctVins(candidates) && p < VOTE_QUEUE_LENGTH
    ensures Picks(Roster(candidates), PaidHeights(candidates), queueHeight + 1, VOTE_QUEUE_LENGTH)[p].Some? <==>
            exists e :: e in candidates && VotingEligible(e.confirmedHeight, ReferenceHeight(queueHeight + 1 + p))
  {
    var roster, paid := Roster(candidates), PaidHeights(candidates);
    var target := queueHeight + 1 + p;
    PickIsSelection(roster, paid, queueHeight + 1, VOTE_QUEUE_LENGTH, p);
    RosterIsDistinct(candidates);
    OldestExists(EligibleAt(roster, target), PaidAfter(roster, paid, queueHeight + 1, p));
    if e :| e in candidates && VotingEligible(e.confirmedHeight, ReferenceHeight(target)) {
      assert MemberOf(e) in EligibleAt(roster, target);
    }
    if EligibleAt(roster, target) != {} {
      var m :| m in EligibleAt(roster, target);
      var e :| e in candidates && MemberOf(e) == m;
    }
  }

  /** The scan over all candidates for one position. */
  method PickForPosition(candidates: seq<SnapshotEntry>, simPaid: map<OutPoint, int>, target: int)
      returns (best: Option<SnapshotEntry>)
    ensures Leads(candidates, simPaid, target, best)
    ensures DistinctVins(candidates) ==>
      NextPick(Roster(candidates), simPaid, target) == if best.Some? then Some(MemberOf(best.value)) else None
  {
    var referenceHeight := ReferenceHeight(target);
    best := None;
    var bestRank := 0;
    for i := 0 to |candidates|
      invariant Leads(candidates[..i], simPaid, target, best)
      invariant best.Some? ==> bestRank == Rank(simPaid, best.value.vin, best.value.confirmedHeight)
    {
      var e := candidates[i];
      assert candidates[..i + 1] == candidates[..i] + [e];
      if referenceHeight <= 0 { continue; }
      if e.confirmedHeight < 0 { continue; }
      if e.confirmedHeight + VOTER_ELIGIBILITY_DEPTH > referenceHeight { continue; }
      var rank := if e.vin in simPaid then simPaid[e.vin] else if e.confirmedHeight >= 0 then e.confirmedHeight else 0;
      if best.None? || rank < bestRank || (rank == bestRank && e.vin.Less(best.value.vin)) {
        best, bestRank := Some(e), rank;
      }
    }
    assert candidates[..|candidates|] == candidates;
    if DistinctVins(candidates) {
      LeaderIsNextPick(candidates, simPaid, target, best);
    }
  }

  /** The mutable copy of the paid heights the simulation starts from. */
  method CopyPaidHeights(candidates: seq<SnapshotEntry>) returns (simPaid: map<OutPoint, int>)
    ensures simPaid == PaidHeights(candidates)
  {
    simPaid := map[];
    for i := 0 to |candidates|
      invariant simPaid == PaidHeights(candidates[..i])
    {
      assert candidates[..i + 1][..i] == candidates[..i];
      if candidates[i].hasPaid {
        simPaid := simPaid[candidates[i].vin := candidates[i].paidHeight];
      }
    }
    assert candidates[..|candidates|] == candidates;
  }

  /** SimulateQueue. */
  method SimulateQueue(queueHeight: int, candidates: seq<SnapshotEntry>) returns (result: seq<Script>)
    ensures |result| == VOTE_QUEUE_LENGTH
    ensures DistinctVins(candidates) ==> result == QueueAt(Roster(candidates), PaidHeights(candidates), queueHeight)
  {
    var simPaid := CopyPaidHeights(candidates);
    ghost var roster, paid := Roster(candidates), PaidHeights(candidates);
    result := [];
    for p := 0 to VOTE_QUEUE_LENGTH
      invariant |result| == p
      invariant DistinctVins(candidates) ==>
        simPaid == PaidAfter(roster, paid, queueHeight + 1, p) && result == QueueAt(roster, paid, queueHeight)[..p]
    {
      var target := queueHeight + 1 + p;
      var best := PickForPosition(candidates, simPaid, target);
      QueueEntry(roster, paid, queueHeight, p);
      if best.None? {
        result := result + [[]];
      } else {
        result := result + [best.value.payeeScript];
        simPaid := simPaid[best.value.vin := target];
      }
    }
  }

  /** Two nodes that list the same masternodes in different orders compute the same queue. */
  lemma {:induction false} ListOrderIsIrrelevant(a: seq<SnapshotEntry>, b: seq<SnapshotEntry>, queueHeight: int)
    requires DistinctVins(a) && DistinctVins(b) && multiset(a) == multiset(b)
    ensures QueueAt(Roster(a), PaidHeights(a), queueHeight) == QueueAt(Roster(b), PaidHeights(b), queueHeight)
  {
    forall e ensures e in a <==> e in b {
      assert e in multiset(a) <==> e in a;
      assert e in multiset(b) <==> e in b;
    }
    assert Roster(a) == Roster(b);
    PaidHeightsAreOrderFree(a);
    PaidHeightsAreOrderFree(b);
    assert PaidHeights(a) == PaidHeights(b);
  }

  lemma {:induction false} PaidHeightsAreOrderFree(entries: seq<SnapshotEntry>)
    requires DistinctVins(entries)
    ensures forall v :: v in PaidHeights(entries) <==> exists e :: e in entries && e.hasPaid && e.vin == v
    ensures forall e :: e in entries && e.hasPaid ==> PaidHeights(entries)[e.vin] == e.paidHeight
  {
    if entries != [] {
      var n := |entries| - 1;
      PaidHeightsAreOrderFree(entries[..n]);
      assert entries == entries[..n] + [entries[n]];
    }
  }
}
