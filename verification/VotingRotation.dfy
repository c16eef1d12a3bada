/**
 * The deterministic payment rotation that SimulateQueue of cactivemasternode.cpp computes. The specification speaks
 * about the SET of masternodes, so that it cannot depend on the order in which a node happens to list them.
 */
module Rotation {
  import opened Basics
  import opened VotingConstants

  /** CMnPaymentSnapshotEntry. */
  datatype SnapshotEntry = SnapshotEntry(
    vin: OutPoint, payeeScript: Script, confirmedHeight: int, hasPaid: bool, paidHeight: int)

  /** The part of a snapshot entry that payments do not change. */
  datatype Member = Member(vin: OutPoint, payeeScript: Script, confirmedHeight: int)

  function MemberOf(e: SnapshotEntry): Member {
    Member(e.vin, e.payeeScript, e.confirmedHeight)
  }

  function Roster(entries: seq<SnapshotEntry>): set<Member> {
    set e | e in entries :: MemberOf(e)
  }

  /** The paid heights a snapshot carries; a later entry for the same outpoint wins. */
  function PaidHeights(entries: seq<SnapshotEntry>): map<OutPoint, int> {
    if entries == [] then map[]
    else
      var last := entries[|entries| - 1];
      var before := PaidHeights(entries[..|entries| - 1]);
      if last.hasPaid then before[last.vin := last.paidHeight] else before
  }

  predicate DistinctVins(entries: seq<SnapshotEntry>) {
    forall i, j :: 0 <= i < j < |entries| ==> entries[i].vin != entries[j].vin
  }

  ghost predicate DistinctMembers(roster: set<Member>) {
    forall a, b :: a in roster && b in roster && a.vin == b.vin ==> a == b
  }

  // ----- Eligibility and rank

  /** CMasternode::IsVotingEligible, with the collateral's confirmation height resolved. */
  predicate VotingEligible(confirmedHeight: int, height: int) {
    height > 0 && confirmedHeight >= 0 && confirmedHeight + VOTER_ELIGIBILITY_DEPTH <= height
  }

  function Rank(paid: map<OutPoint, int>, vin: OutPoint, confirmedHeight: int): int {
    if vin in paid then paid[vin] else if confirmedHeight >= 0 then confirmedHeight else 0
  }

  function ReferenceHeight(target: int): int {
    target - VOTE_LOOKAHEAD - REORG_DEPTH_BUFFER
  }

  ghost function EligibleAt(roster: set<Member>, target: int): set<Member> {
    set m | m in roster && VotingEligible(m.confirmedHeight, ReferenceHeight(target))
  }

  // ----- The oldest member of a pool

  ghost predicate Older(paid: map<OutPoint, int>, a: Member, b: Member) {
    var ra, rb := Rank(paid, a.vin, a.confirmedHeight), Rank(paid, b.vin, b.confirmedHeight);
    ra < rb || (ra == rb && a.vin.Less(b.vin))
  }

  ghost predicate IsOldest(pool: set<Member>, paid: map<OutPoint, int>, m: Member) {
    m in pool && forall o :: o in pool && o != m ==> Older(paid, m, o)
  }

  /** The member of the pool paid longest ago, ties broken by the smaller outpoint. */
  ghost function Oldest(pool: set<Member>, paid: map<OutPoint, int>): (r: Option<Member>)
    ensures r.Some? ==> IsOldest(pool, paid, r.value)
    ensures r.None? ==> forall m :: !IsOldest(pool, paid, m)
  {
    if exists m :: IsOldest(pool, paid, m) then
      var m :| IsOldest(pool, paid, m);
      Some(m)
    else
      None
  }

  lemma {:induction false} OldestIsUnique(pool: set<Member>, paid: map<OutPoint, int>, m: Member)
    requires IsOldest(pool, paid, m)
    ensures Oldest(pool, paid) == Some(m)
  {
    var o := Oldest(pool, paid).value;
    assert o == m || Older(paid, m, o);
    assert o == m || !Older(paid, o, m);
  }

  lemma {:induction false} OldestExists(pool: set<Member>, paid: map<OutPoint, int>)
    requires DistinctMembers(pool)
    ensures Oldest(pool, paid).Some? <==> pool != {}
    decreases |pool|
  {
    if pool != {} {
      var m :| m in pool;
      var rest := pool - {m};
      OldestExists(rest, paid);
      if rest == {} {
        assert IsOldest(pool, paid, m);
      } else {
        var o := Oldest(rest, paid).value;
        assert o in pool && o.vin != m.vin;
        if Older(paid, m, o) {
          forall x | x in pool && x != m && x != o ensures Older(paid, m, x) {
            assert Older(paid, o, x);
          }
          assert IsOldest(pool, paid, m);
        } else {
          assert IsOldest(pool, paid, o);
        }
      }
    }
  }

  // ----- The rotation: each pick counts as paid at its target height

  function Pay(paid: map<OutPoint, int>, pick: Option<Member>, target: int): map<OutPoint, int> {
    if pick.Some? then paid[pick.value.vin := target] else paid
  }

  ghost function NextPick(roster: set<Member>, paid: map<OutPoint, int>, target: int): Option<Member> {
    Oldest(EligibleAt(roster, target), paid)
  }

  /** The picks for the heights target, target + 1, ..., target + k - 1. */
  ghost function Picks(roster: set<Member>, paid: map<OutPoint, int>, target: int, k: nat): (r: seq<Option<Member>>)
    ensures |r| == k
    decreases k, roster
  {
    if k == 0 then []
    else
      var pick := NextPick(roster, paid, target);
      [pick] + Picks(roster, Pay(paid, pick, target), target + 1, k - 1)
  }

  /** The paid heights once the first k picks have been paid. */
  ghost function PaidAfter(roster: set<Member>, paid: map<OutPoint, int>, target: int, k: nat): map<OutPoint, int>
    decreases k, roster
  {
    if k == 0 then paid
    else PaidAfter(roster, Pay(paid, NextPick(roster, paid, target), target), target + 1, k - 1)
  }

  function PayeeOf(pick: Option<Member>): Script {
    if pick.Some? then pick.value.payeeScript else []
  }

  /** The queue every honest masternode computes at a queue height. */
  ghost function QueueAt(roster: set<Member>, paid: map<OutPoint, int>, queueHeight: int): (r: seq<Script>)
    ensures |r| == VOTE_QUEUE_LENGTH
  {
    var picks := Picks(roster, paid, queueHeight + 1, VOTE_QUEUE_LENGTH);
    seq(VOTE_QUEUE_LENGTH, p requires 0 <= p < VOTE_QUEUE_LENGTH => PayeeOf(picks[p]))
  }

  /** Every pick is what the selector chooses once the earlier picks have been paid. */
  lemma {:induction false} PickIsSelection(roster: set<Member>, paid: map<OutPoint, int>, target: int, k: nat, p: nat)
    requires p < k
    ensures Picks(roster, paid, target, k)[p] == NextPick(roster, PaidAfter(roster, paid, target, p), target + p)
    decreases p
  {
    if p > 0 {
      var paid' := Pay(paid, NextPick(roster, paid, target), target);
      PickIsSelection(roster, paid', target + 1, k - 1, p - 1);
    }
  }

  lemma {:induction false} PaidAfterStep(roster: set<Member>, paid: map<OutPoint, int>, target: int, p: nat)
    ensures PaidAfter(roster, paid, target, p + 1)
         == Pay(PaidAfter(roster, paid, target, p), NextPick(roster, PaidAfter(roster, paid, target, p), target + p),
                target + p)
    decreases p
  {
    if p > 0 {
      PaidAfterStep(roster, Pay(paid, NextPick(roster, paid, target), target), target + 1, p - 1);
    }
  }

  /** Paying the first pick shifts the whole rotation by one place. */
  lemma {:induction false} PicksShift(roster: set<Member>, paid: map<OutPoint, int>, target: int, k: nat, p: nat)
    requires p + 1 < k
    ensures Picks(roster, Pay(paid, NextPick(roster, paid, target), target), target + 1, k)[p]
         == Picks(roster, paid, target, k)[p + 1]
  {
    PickIsSelection(roster, Pay(paid, NextPick(roster, paid, target), target), target + 1, k, p);
    PickIsSelection(roster, paid, target, k, p + 1);
  }

  /** Shift consistency of whole queues: what the next queue height predicts is what this one predicted. */
  lemma {:induction false} QueueShift(roster: set<Member>, paid: map<OutPoint, int>, queueHeight: int, p: nat)
    requires p + 1 < VOTE_QUEUE_LENGTH
    ensures QueueAt(roster, Pay(paid, NextPick(roster, paid, queueHeight + 1), queueHeight + 1), queueHeight + 1)[p]
         == QueueAt(roster, paid, queueHeight)[p + 1]
  {
    PicksShift(roster, paid, queueHeight + 1, VOTE_QUEUE_LENGTH, p);
  }

  /** Any two queue heights that cover a height name the same payee for it, when every block in
      between pays the predicted payee. */
  lemma {:induction false} QueuesAgree(roster: set<Member>, paid: map<OutPoint, int>, queueHeight: int, p: nat, d: nat)
    requires p + d < VOTE_QUEUE_LENGTH
    ensures QueueAt(roster, PaidAfter(roster, paid, queueHeight + 1, d), queueHeight + d)[p]
         == QueueAt(roster, paid, queueHeight)[p + d]
    decreases d
  {
    if d > 0 {
      var paid' := Pay(paid, NextPick(roster, paid, queueHeight + 1), queueHeight + 1);
      QueuesAgree(roster, paid', queueHeight + 1, p, d - 1);
      QueueShift(roster, paid, queueHeight, p + d - 1);
    }
  }

  lemma {:induction false} PickIsMember(roster: set<Member>, paid: map<OutPoint, int>, target: int)
    ensures var pick := NextPick(roster, paid, target); pick.Some? ==> pick.value in roster
  {
  }

  lemma {:induction false} QueueEntry(roster: set<Member>, paid: map<OutPoint, int>, queueHeight: int, p: nat)
    requires p < VOTE_QUEUE_LENGTH
    ensures var now := PaidAfter(roster, paid, queueHeight + 1, p);
            var pick := NextPick(roster, now, queueHeight + 1 + p);
            && QueueAt(roster, paid, queueHeight)[p] == PayeeOf(pick)
            && PaidAfter(roster, paid, queueHeight + 1, p + 1) == Pay(now, pick, queueHeight + 1 + p)
  {
    PickIsSelection(roster, paid, queueHeight + 1, VOTE_QUEUE_LENGTH, p);
    PaidAfterStep(roster, paid, queueHeight + 1, p);
  }

  // ----- What a pick is, in terms of heights alone

  /** A masternode is picked for a target exactly when its collateral is deep enough below it and every other masternode
      whose collateral is had its turn later, or at the same height with a greater outpoint. A masternode that was
      never paid had its turn when its collateral was confirmed. */
  lemma {:induction false} IsPickedIff(roster: set<Member>, paid: map<OutPoint, int>, target: int, m: Member)
    ensures NextPick(roster, paid, target) == Some(m) <==>
            && m in roster && m.confirmedHeight >= 0 && target > VOTE_LOOKAHEAD + REORG_DEPTH_BUFFER
            && target >= m.confirmedHeight + VOTER_ELIGIBILITY_DEPTH + VOTE_LOOKAHEAD + REORG_DEPTH_BUFFER
            && forall o ::
                 o in roster && o != m && o.confirmedHeight >= 0 &&
                 target >= o.confirmedHeight + VOTER_ELIGIBILITY_DEPTH + VOTE_LOOKAHEAD + REORG_DEPTH_BUFFER ==>
                 var turn := if m.vin in paid then paid[m.vin] else m.confirmedHeight;
                 var other := if o.vin in paid then paid[o.vin] else o.confirmedHeight;
                 turn < other || (turn == other && m.vin.Less(o.vin))
  {
    var pool := EligibleAt(roster, target);
    if IsOldest(pool, paid, m) {
      OldestIsUnique(pool, paid, m);
    }
    assert NextPick(roster, paid, target) == Some(m) <==> IsOldest(pool, paid, m);
    assert m in pool ==> forall o :: o in pool && o != m ==> o in roster && (Older(paid, m, o) <==>
      var turn := if m.vin in paid then paid[m.vin] else m.confirmedHeight;
      var other := if o.vin in paid then paid[o.vin] else o.confirmedHeight;
      turn < other || (turn == other && m.vin.Less(o.vin)));
  }

  /** Alone in the roster, a masternode is assigned to exactly the heights from its eligibility on. */
  lemma {:induction false} LoneMemberIsAssignedIff(m: Member, paid: map<OutPoint, int>, queueHeight: int, p: nat)
    requires p < VOTE_QUEUE_LENGTH
    ensures var target := queueHeight + 1 + p;
            QueueAt({m}, paid, queueHeight)[p] ==
            if m.confirmedHeight >= 0 && target > VOTE_LOOKAHEAD + REORG_DEPTH_BUFFER &&
               target >= m.confirmedHeight + VOTER_ELIGIBILITY_DEPTH + VOTE_LOOKAHEAD + REORG_DEPTH_BUFFER
            then m.payeeScript else []
  {
    var now := PaidAfter({m}, paid, queueHeight + 1, p);
    QueueEntry({m}, paid, queueHeight, p);
    IsPickedIff({m}, now, queueHeight + 1 + p, m);
    PickIsMember({m}, now, queueHeight + 1 + p);
  }

  /** No queue entry names a masternode before its target, or one whose collateral has no height. */
  lemma {:induction false} QueueNamesOnlyMature(roster: set<Member>, paid: map<OutPoint, int>, queueHeight: int, p: nat)
    requires p < VOTE_QUEUE_LENGTH && QueueAt(roster, paid, queueHeight)[p] != []
    ensures var target := queueHeight + 1 + p;
            exists m :: m in roster && m.payeeScript == QueueAt(roster, paid, queueHeight)[p] &&
              m.confirmedHeight >= 0 && target > VOTE_LOOKAHEAD + REORG_DEPTH_BUFFER &&
              target >= m.confirmedHeight + VOTER_ELIGIBILITY_DEPTH + VOTE_LOOKAHEAD + REORG_DEPTH_BUFFER
  {
    var now := PaidAfter(roster, paid, queueHeight + 1, p);
    QueueEntry(roster, paid, queueHeight, p);
    var pick := NextPick(roster, now, queueHeight + 1 + p);
    IsPickedIff(roster, now, queueHeight + 1 + p, pick.value);
  }

  /** A masternode whose collateral is confirmed at 100 and that was paid at 1000 goes before one confirmed at 990 and
      never paid: at target 1010 the second is not yet eligible, and it is from target 1027 on. */
  lemma {:induction false} YoungCollateralWaits(a: Member, b: Member, target: int)
    requires a.vin != b.vin && a.confirmedHeight == 100 && b.confirmedHeight == 990 && target >= 1010
    ensures NextPick({a, b}, map[a.vin := 1000], target) == Some(if target < 1027 then a else b)
  {
    IsPickedIff({a, b}, map[a.vin := 1000], target, if target < 1027 then a else b);
  }
}
