/** How the payments of the rotation are spread: no masternode is paid twice before the others had their turn. */
module RotationOrder {
  import opened Basics
  import opened VotingConstants
  import opened Rotation

  /** Nobody has a payment or confirmation height at or above the first target. */
  ghost predicate HeightsBelow(roster: set<Member>, paid: map<OutPoint, int>, target: int) {
    forall m :: m in roster ==> Rank(paid, m.vin, m.confirmedHeight) < target
  }

  ghost predicate NotPicked(picks: seq<Option<Member>>, lo: int, hi: int, m: Member) {
    forall r :: 0 <= r < |picks| && lo <= r < hi ==> picks[r] != Some(m)
  }

  /** Where a rank comes from: the latest pick, or the snapshot. */
  lemma {:induction false} RankAfter(roster: set<Member>, paid: map<OutPoint, int>, target: int, n: nat, q: nat,
                                     m: Member)
    requires q <= n && DistinctMembers(roster) && m in roster
    ensures var picks := Picks(roster, paid, target, n);
            var rank := Rank(PaidAfter(roster, paid, target, q), m.vin, m.confirmedHeight);
            || (rank == Rank(paid, m.vin, m.confirmedHeight) && NotPicked(picks, 0, q, m))
            || (target <= rank < target + q && picks[rank - target] == Some(m) &&
                NotPicked(picks, rank - target + 1, q, m))
    decreases q
  {
    if q > 0 {
      var picks := Picks(roster, paid, target, n);
      RankAfter(roster, paid, target, n, q - 1, m);
      PaidAfterStep(roster, paid, target, q - 1);
      PickIsSelection(roster, paid, target, n, q - 1);
      var before := PaidAfter(roster, paid, target, q - 1);
      PickIsMember(roster, before, target + q - 1);
      RankAfterPay(roster, before, picks[q - 1], target + q - 1, m);
    }
  }

  lemma {:induction false} RankAfterPay(roster: set<Member>, paid: map<OutPoint, int>, pick: Option<Member>,
                                        target: int, m: Member)
    requires DistinctMembers(roster) && m in roster && (pick.Some? ==> pick.value in roster)
    ensures Rank(Pay(paid, pick, target), m.vin, m.confirmedHeight)
         == if pick == Some(m) then target else Rank(paid, m.vin, m.confirmedHeight)
  {
  }

  /** Between two picks of one masternode every other masternode eligible at the second is picked. */
  lemma {:induction false} NoPaymentStreak(roster: set<Member>, paid: map<OutPoint, int>, target: int, n: nat, p: nat,
                                           q: nat, m: Member, other: Member)
      returns (r: nat)
    requires DistinctMembers(roster) && HeightsBelow(roster, paid, target)
    requires p < q < n
    requires Picks(roster, paid, target, n)[p] == Picks(roster, paid, target, n)[q] == Some(m)
    requires other in EligibleAt(roster, target + q) && other != m
    ensures p < r < q && Picks(roster, paid, target, n)[r] == Some(other)
  {
    var picks := Picks(roster, paid, target, n);
    var paidQ := PaidAfter(roster, paid, target, q);
    PickIsSelection(roster, paid, target, n, q);
    RankAfter(roster, paid, target, n, q, m);
    assert Older(paidQ, m, other);
    RankAfter(roster, paid, target, n, q, other);
    r := Rank(paidQ, other.vin, other.confirmedHeight) - target;
  }

  ghost predicate ConstantPool(roster: set<Member>, target: int, n: nat, pool: set<Member>) {
    forall i :: target <= i < target + n ==> EligibleAt(roster, i) == pool
  }

  /** With a constant pool of k eligible masternodes, two picks of one masternode are at least k apart. */
  lemma {:induction false} PicksAreSpaced(roster: set<Member>, paid: map<OutPoint, int>, target: int, n: nat,
                                          pool: set<Member>, p: nat, q: nat)
    requires DistinctMembers(roster) && HeightsBelow(roster, paid, target)
    requires ConstantPool(roster, target, n, pool) && pool != {}
    requires p < q < n && Picks(roster, paid, target, n)[p] == Picks(roster, paid, target, n)[q]
    ensures q - p >= |pool|
  {
    var picks := Picks(roster, paid, target, n);
    PickInPool(roster, paid, target, n, pool, p);
    var m := picks[p].value;
    var between := set r | p < r < q :: picks[r];
    var others := set o | o in pool && o != m :: Some(o);
    forall o | o in others ensures o in between {
      var r := NoPaymentStreak(roster, paid, target, n, p, q, m, o.value);
    }
    SubsetSize(others, between);
    WindowSize(picks, p + 1, q);
    assert between == Elements(picks[p + 1..q]) by {
      forall o | o in picks[p + 1..q] ensures o in between {
        var i :| 0 <= i < q - p - 1 && picks[p + 1..q][i] == o;
        assert picks[p + 1 + i] == o;
      }
      forall r | p < r < q ensures picks[r] in picks[p + 1..q] {
        assert picks[p + 1..q][r - p - 1] == picks[r];
      }
    }
    SomeImageSize(pool - {m});
    assert others == set o | o in pool - {m} :: Some(o);
  }

  lemma {:induction false} PickInPool(roster: set<Member>, paid: map<OutPoint, int>, target: int, n: nat,
                                      pool: set<Member>, i: nat)
    requires DistinctMembers(roster) && ConstantPool(roster, target, n, pool) && pool != {} && i < n
    ensures var pick := Picks(roster, paid, target, n)[i]; pick.Some? && pick.value in pool
  {
    PickIsSelection(roster, paid, target, n, i);
    assert EligibleAt(roster, target + i) == pool;
    OldestExists(pool, PaidAfter(roster, paid, target, i));
  }

  lemma {:induction false} WindowSize<T>(s: seq<T>, lo: nat, hi: nat)
    requires lo <= hi <= |s|
    ensures |Elements(s[lo..hi])| <= hi - lo
  {
    if lo < hi {
      WindowSize(s, lo, hi - 1);
      assert s[lo..hi] == s[lo..hi - 1] + [s[hi - 1]];
      assert Elements(s[lo..hi]) == Elements(s[lo..hi - 1]) + {s[hi - 1]};
    }
  }

  lemma {:induction false} SomeImageSize(s: set<Member>)
    ensures |set o | o in s :: Some(o)| == |s|
    decreases |s|
  {
    if s != {} {
      var m :| m in s;
      SomeImageSize(s - {m});
      assert (set o | o in s :: Some(o)) == (set o | o in s - {m} :: Some(o)) + {Some(m)};
    }
  }

  /** With a constant pool of size k the rotation has period k. */
  lemma {:induction false} RotationIsPeriodic(roster: set<Member>, paid: map<OutPoint, int>, target: int, n: nat,
                                              pool: set<Member>, i: nat)
    requires DistinctMembers(roster) && HeightsBelow(roster, paid, target)
    requires ConstantPool(roster, target, n, pool) && pool != {}
    requires i + |pool| < n
    ensures Picks(roster, paid, target, n)[i + |pool|] == Picks(roster, paid, target, n)[i]
  {
    hide Picks, ConstantPool, HeightsBelow, DistinctMembers;
    var picks := Picks(roster, paid, target, n);
    var k := |pool|;
    var window := picks[i..i + k];
    forall a, b | 0 <= a < b < k ensures window[a] != window[b] {
      if window[a] == window[b] {
        PicksAreSpaced(roster, paid, target, n, pool, i + a, i + b);
      }
    }
    DistinctSize(window);
    var image := set o | o in pool :: Some(o);
    SomeImageSize(pool);
    forall o | o in window ensures o in image {
      var a :| 0 <= a < k && window[a] == o;
      PickInPool(roster, paid, target, n, pool, i + a);
    }
    SubsetSize(Elements(window), image);
    PickInPool(roster, paid, target, n, pool, i + k);
    assert picks[i + k] in Elements(window);
    var a :| 0 <= a < k && window[a] == picks[i + k];
    PicksAreSpaced(roster, paid, target, n, pool, i + a, i + k);
  }
}
