/**
 * CAddrMan: the operations that add, promote, evict and forget addresses. Every method states its whole
 * new state through the elementary changes of AddressTables and keeps the invariant of Check_.
 */
module AddressManager {
  import opened Basics
  import opened Arithmetic
  import opened AddressTables

  // ----- Updates of one entry in place

  function Touched(t: Tables, n: int, e: AddrInfo): Tables {
    t.(info := t.info[n := e])
  }

  /** The new statistics keep the identity, the memory-only fields and the sign conditions. */
  predicate Harmless(a: AddrInfo, e: AddrInfo) {
    && e.address.service == a.address.service
    && e.nRefCount == a.nRefCount && e.fInTried == a.fInTried && e.nRandomPos == a.nRandomPos
    && e.nLastTry >= 0 && e.nLastSuccess >= 0 && (e.fInTried ==> e.nLastSuccess != 0)
  }

  lemma {:induction false} TouchKeepsValid(t: Tables, h: Hashing, n: int, e: AddrInfo)
    requires Valid(t, h) && n in t.info && Harmless(t.info[n], e)
    ensures Valid(Touched(t, n, e), h)
  {
    hide RandomOk, AddrOk, TriedOk, BucketsOk, EntriesOk, CountsOk;
    var s := Touched(t, n, e);
    SamePlacesKeepIndices(t, s);
    SameRolesKeepTried(t, s, h);
    SameRolesKeepBuckets(t, s);
    TouchKeepsEntries(t, n, e);
    SameRolesKeepCounts(t, s);
  }

  lemma {:induction false} TouchKeepsEntries(t: Tables, n: int, e: AddrInfo)
    requires EntriesOk(t, {}) && n in t.info && Harmless(t.info[n], e)
    ensures EntriesOk(Touched(t, n, e), {})
  {
    hide Holders;
    forall m | m in t.info ensures EntryOk(Touched(t, n, e), m) {
      assert EntryOk(t, m);
    }
  }

  // ----- Adding a reference

  function Max(a: int, b: int): int {
    if a < b then b else a
  }

  ghost predicate CanDrop(t: Tables, b: int, n: int) {
    && n in t.info && |t.random| > 0 && 0 <= b < |t.news|
    && 0 <= t.info[n].nRandomPos < |t.random|
    && t.random[t.info[n].nRandomPos] in t.info && t.random[|t.random| - 1] in t.info
  }

  ghost function AfterDrop(t: Tables, b: int, victim: Option<int>): Tables {
    if victim.Some? && CanDrop(t, b, victim.value) then Dropped(t, b, victim.value) else t
  }

  /** Add_'s last step: count the reference, make room, insert. */
  ghost function Placed(t: Tables, b: int, n: int, victim: Option<int>): Tables
    requires n in t.info && 0 <= b < |t.news|
  {
    var d := AfterDrop(WithRefs(t, n, t.info[n].nRefCount + 1), b, victim);
    d.(news := if b < |d.news| then d.news[b := d.news[b] + {n}] else d.news)
  }

  /** The statistics Add_ refreshes on an address it already knows. */
  function Refreshed(e: AddrInfo, address: Address, penalty: int, now: int): AddrInfo {
    var interval := if now - address.nTime < DAY then 60 * 60 else DAY;
    var time :=
      if address.nTime != 0 && (e.address.nTime == 0 || e.address.nTime < address.nTime - interval - penalty)
      then Floored(address.nTime, penalty) else e.address.nTime;
    e.(address := e.address.(nTime := time, nServices := e.address.nServices + address.nServices))
  }

  /** A seen time less the penalty, but not below zero, as an unsigned 32-bit time. */
  function Floored(nTime: int, penalty: int): (r: int)
    ensures 0 <= r < TWO_TO_32
    ensures nTime <= penalty ==> r == 0
    ensures 0 <= nTime - penalty < TWO_TO_32 ==> r == nTime - penalty
  {
    Max(0, nTime - penalty) % TWO_TO_32
  }

  function Penalized(address: Address, penalty: int): Address {
    address.(nTime := Floored(address.nTime, penalty))
  }

  /** The state before a reference is added: the entry refreshed, or a new one registered. */
  ghost function Noted(t: Tables, address: Address, source: NetAddr, penalty: int, now: int): Tables {
    var ip := address.service.ip;
    if ip in t.addr && t.addr[ip] in t.info then
      Touched(t, t.addr[ip], Refreshed(t.info[t.addr[ip]], address, penalty, now))
    else Registered(t, Penalized(address, penalty), source)
  }

  /** A known address that is seen again takes the seen time less the penalty once its own time is behind that by more
      than an hour, if it was seen within the last day, or by more than a day; it gains the seen service bits, and
      nothing else changes, of it or of any other. */
  lemma {:induction false} SeenAgain(t: Tables, address: Address, source: NetAddr, penalty: int, now: int)
    requires address.service.ip in t.addr && t.addr[address.service.ip] in t.info
    ensures var n := t.addr[address.service.ip];
            var e := t.info[n];
            var s := Noted(t, address, source, penalty, now);
            && n in s.info && s == t.(info := t.info[n := s.info[n]])
            && var seen := s.info[n].address;
               var behind := address.nTime - penalty - e.address.nTime;
               && s.info[n] == e.(address := seen) && seen.service == e.address.service
               && seen.nServices == e.address.nServices + address.nServices
               && (address.nTime == 0 ==> seen.nTime == e.address.nTime)
               && (address.nTime > now - 86400 && address.nTime != 0 && e.address.nTime != 0 ==>
                     seen.nTime == if behind > 3600 then Floored(address.nTime, penalty) else e.address.nTime)
               && (address.nTime <= now - 86400 && address.nTime != 0 && e.address.nTime != 0 ==>
                     seen.nTime == if behind > 86400 then Floored(address.nTime, penalty) else e.address.nTime)
               && (address.nTime != 0 && e.address.nTime == 0 ==> seen.nTime == Floored(address.nTime, penalty))
  {
  }

  /** An address seen for the first time gets the next id and the last random position, knows its source and has never
      been tried; nothing else changes. */
  lemma {:induction false} FirstSeen(t: Tables, address: Address, source: NetAddr, penalty: int, now: int)
    requires address.service.ip !in t.addr
    ensures var s, n := Noted(t, address, source, penalty, now), t.nIdCount;
            && n in s.info && s.info == t.info[n := s.info[n]] && s.addr == t.addr[address.service.ip := n]
            && s.random == t.random + [n] && s.tried == t.tried && s.news == t.news
            && s.nIdCount == n + 1 && s.nNew == t.nNew + 1 && s.nTried == t.nTried
            && var e := s.info[n];
               && e.address == Address(address.service, address.nServices, Floored(address.nTime, penalty))
               && e.source == source && e.nLastSuccess == e.nLastTry == e.nAttempts == e.nRefCount == 0
               && !e.fInTried && e.nRandomPos == |t.random|
  {
  }

  /** The id an address has once it is noted. */
  ghost function NotedId(t: Tables, address: Address): int {
    if address.service.ip in t.addr then t.addr[address.service.ip] else t.nIdCount
  }

  /** Add_ leaves the noted state, or gives the entry one reference in the bucket of this source; if that
      bucket was full, one of its ids made room. */
  ghost predicate Outcome(s: Tables, result: Tables, h: Hashing, n: int, source: NetAddr, placed: bool,
                          victim: Option<int>) {
    && n in s.info && |s.news| == NEW_BUCKET_COUNT
    && var b := h.newBucket(s.info[n].address.service, source);
       if !placed then result == s
       else
         && n !in s.news[b] && result == Placed(s, b, n, victim)
         && (victim.Some? <==> |s.news[b]| == NEW_BUCKET_SIZE) && (victim.Some? ==> victim.value in s.news[b])
  }

  lemma {:induction false} EntryFacts(t: Tables, h: Hashing, n: int)
    requires Valid(t, h) && n in t.info
    ensures t.info[n].nRefCount == |Holders(t.news, n)| <= NEW_BUCKETS_PER_ADDRESS && |t.news| == NEW_BUCKET_COUNT
    ensures t.info[n].nLastTry >= 0 && t.info[n].nLastSuccess >= 0 &&
            (t.info[n].fInTried ==> t.info[n].nLastSuccess != 0)
  {
  }

  lemma {:induction false} TriedHasNoReference(t: Tables, h: Hashing, n: int)
    requires Valid(t, h) && n in t.info
    ensures t.info[n].fInTried ==> t.info[n].nRefCount == 0
  {
    assert EntryOk(t, n);
  }

  // ----- Promotion

  /** Good_'s statistics. */
  function Succeeded(e: AddrInfo, nTime: int): AddrInfo {
    e.(nLastSuccess := nTime, nLastTry := nTime, nAttempts := 0, address := e.address.(nTime := nTime % TWO_TO_32))
  }

  /** A peer that answered is good for thirty days, whatever went before. */
  lemma {:induction false} GoodForAMonth(e: AddrInfo, nTime: int, now: int)
    requires 0 < nTime < TWO_TO_32 && nTime <= now
    ensures Succeeded(e, nTime).IsTerrible(now) <==> now - nTime > 30 * 86400
  {
  }

  /** Failed attempts alone make a peer terrible, a minute after the last: three if it never answered, ten if it did not
      answer for a week. Fewer do not, if its time lies within the month. */
  lemma {:induction false} FailuresMakeTerrible(e: AddrInfo, now: int)
    requires 0 < e.address.nTime <= now && now - e.address.nTime <= 30 * 86400 && e.nLastSuccess >= 0
    ensures e.IsTerrible(now) <==>
            && (e.nLastTry == 0 || now - e.nLastTry > 60)
            && ((e.nLastSuccess == 0 && e.nAttempts >= 3) || (now - e.nLastSuccess > 7 * 86400 && e.nAttempts >= 10))
  {
  }

  /** A terrible peer stays terrible while nothing is heard of it, unless it was so for a time in the future. */
  lemma {:induction false} TerribleStays(e: AddrInfo, now: int, later: int)
    requires e.IsTerrible(now) && now <= later
    ensures e.IsTerrible(later) || e.address.nTime > now + 600
  {
  }

  /** How MakeTried resolved a full tried bucket: its shuffled contents, the evicted position and the
      new bucket that takes the evicted entry. */
  datatype Eviction = Eviction(shuffled: seq<int>, pos: int, bucket: int)

  ghost predicate Evicts(t: Tables, u: Tables, h: Hashing, n: int, e: Eviction) {
    var k := if n in u.info then h.tried(u.info[n].address.service) else 0;
    && n in u.info && |u.tried| == TRIED_BUCKET_COUNT && |u.news| == NEW_BUCKET_COUNT
    && multiset(e.shuffled) == multiset(u.tried[k])
    && 0 <= e.pos < |e.shuffled| && e.shuffled[e.pos] in u.info
    && 0 <= e.bucket < NEW_BUCKET_COUNT
    && var home := h.newBucket(u.info[e.shuffled[e.pos]].address.service, u.info[e.shuffled[e.pos]].source);
       if |u.news[home]| < NEW_BUCKET_SIZE then e.bucket == home else e.bucket in Holders(t.news, n)
  }

  ghost function Evicted(u: Tables, h: Hashing, n: int, e: Eviction): Tables
    requires n in u.info && |u.tried| == TRIED_BUCKET_COUNT && |u.news| == NEW_BUCKET_COUNT
    requires 0 <= e.pos < |e.shuffled| && e.shuffled[e.pos] in u.info && 0 <= e.bucket < NEW_BUCKET_COUNT
  {
    Exchanged(u.(tried := u.tried[h.tried(u.info[n].address.service) := e.shuffled]), h, n, e.pos, e.bucket)
  }

  /** What MakeTried does: append to the tried bucket, or exchange with an evicted entry when it is full. */
  ghost predicate MovedToTried(t: Tables, s: Tables, h: Hashing, n: int, e: Eviction) {
    && n in t.info && |t.tried| == TRIED_BUCKET_COUNT && |t.news| == NEW_BUCKET_COUNT
    && var u := Unreferenced(t, n);
       if |u.tried[h.tried(u.info[n].address.service)]| < TRIED_BUCKET_SIZE then s == Promoted(u, h, n)
       else Evicts(t, u, h, n, e) && s == Evicted(u, h, n, e)
  }

  /** A promotion loses nobody: the id set is unchanged, the entry is tried, and at most one other entry
      changes, from tried back to new with a single reference. */
  lemma {:induction false} PromotionLosesNobody(t: Tables, s: Tables, h: Hashing, n: int, e: Eviction)
    requires Valid(t, h) && n in t.info && !t.info[n].fInTried && MovedToTried(t, s, h, n, e)
    ensures s.info.Keys == t.info.Keys && s.addr == t.addr && s.random == t.random
    ensures s.info[n] == t.info[n].(fInTried := true, nRefCount := 0)
    ensures var k := h.tried(t.info[n].address.service);
            var full := |t.tried[k]| >= TRIED_BUCKET_SIZE;
            && n in s.tried[k] && s.nTried == t.nTried + (if full then 0 else 1)
            && (!full ==> forall m :: m in t.info && m != n ==> s.info[m] == t.info[m])
            && (full ==>
              && e.pos < |e.shuffled| && 0 <= e.pos && var out := e.shuffled[e.pos];
                 && out in t.tried[k] && out != n && s.info[out] == t.info[out].(fInTried := false, nRefCount := 1)
                 && forall m :: m in t.info && m != n && m != out ==> s.info[m] == t.info[m])
  {
    hide RandomOk, AddrOk, BucketsOk, EntriesOk, CountsOk, Holders;
    var k := h.tried(t.info[n].address.service);
    var u := Unreferenced(t, n);
    if |t.tried[k]| >= TRIED_BUCKET_SIZE {
      PermutationKeepsDistinct(t.tried[k], e.shuffled);
      var out := e.shuffled[e.pos];
      assert out in e.shuffled && out in t.tried[k];
      assert s.tried[k][e.pos] == n;
    } else {
      assert s.tried[k][|t.tried[k]|] == n;
    }
  }

  /** Adding a reference loses at most the victim, and that only when it was the victim's last reference. */
  lemma {:induction false} PlacementLosesOnlyVictim(t: Tables, h: Hashing, b: int, n: int, victim: Option<int>)
    requires RandomOk(t) && AddrOk(t) && n in t.info && 0 <= b < |t.news|
    requires victim.Some? ==> victim.value in t.news[b] && victim.value in t.info && victim.value != n
    ensures var s := Placed(t, b, n, victim);
            && n in s.info && s.info[n].nRefCount == t.info[n].nRefCount + 1 && |s.news| == |t.news| && n in s.news[b]
            && s.tried == t.tried
            && (forall m :: m in t.info && m != n && Some(m) != victim ==>
                m in s.info && SameEntry(t.info[m], s.info[m]))
            && (forall c :: 0 <= c < |t.news| && c != b ==> s.news[c] == t.news[c])
            && s.news[b] == t.news[b] - (if victim.Some? then {victim.value} else {}) + {n}
            && (victim.Some? ==> (victim.value !in s.info <==> t.info[victim.value].nRefCount == 1))
  {
    hide Dropped, RandomOk, AddrOk;
    var counted := WithRefs(t, n, t.info[n].nRefCount + 1);
    CountingKeepsIndices(t, n);
    if victim.Some? {
      VictimCanDrop(counted, b, victim.value);
      DropEffect(counted, b, victim.value);
    }
  }

  lemma {:induction false} CountingKeepsIndices(t: Tables, n: int)
    requires RandomOk(t) && AddrOk(t) && n in t.info
    ensures RandomOk(WithRefs(t, n, t.info[n].nRefCount + 1)) && AddrOk(WithRefs(t, n, t.info[n].nRefCount + 1))
  {
  }

  lemma {:induction false} VictimCanDrop(t: Tables, b: int, n: int)
    requires RandomOk(t) && n in t.info && 0 <= b < |t.news|
    ensures CanDrop(t, b, n)
  {
  }

  lemma {:induction false} PermutationKeepsDistinct(s: seq<int>, r: seq<int>)
    requires Distinct(s) && multiset(r) == multiset(s)
    ensures Distinct(r) && |r| == |s| && forall n :: n in r <==> n in s
  {
    assert |r| == |multiset(r)| && |s| == |multiset(s)|;
    forall n ensures n in r <==> n in s {
      assert n in multiset(r) <==> n in multiset(s);
    }
    forall i, j | 0 <= i < j < |r| ensures r[i] != r[j] {
      CountTwice(r, i, j);
      CountOnce(s, r[i]);
    }
  }

  lemma {:induction false} CountTwice(r: seq<int>, i: int, j: int)
    requires 0 <= i < j < |r|
    ensures r[i] == r[j] ==> multiset(r)[r[i]] >= 2
  {
    assert r == r[..j] + r[j..];
    assert r[i] == r[..j][i] && r[j] == r[j..][0];
  }

  lemma {:induction false} CountOnce(s: seq<int>, n: int)
    requires Distinct(s)
    ensures multiset(s)[n] <= 1
  {
    if s != [] {
      var last := |s| - 1;
      CountOnce(s[..last], n);
      assert s == s[..last] + [s[last]];
    }
  }

  lemma {:induction false} ShuffleKeepsTried(t: Tables, h: Hashing, k: int, shuffled: seq<int>)
    requires TriedOk(t, h) && 0 <= k < TRIED_BUCKET_COUNT && multiset(shuffled) == multiset(t.tried[k])
    ensures TriedOk(t.(tried := t.tried[k := shuffled]), h)
  {
    PermutationKeepsDistinct(t.tried[k], shuffled);
  }

  /** The eviction path keeps the invariant: in particular the bucket the new entry came from has room. */
  lemma {:induction false} EvictionKeepsValid(t: Tables, h: Hashing, n: int, e: Eviction)
    requires Valid(t, h) && n in t.info && !t.info[n].fInTried && t.info[n].nLastSuccess != 0
    requires Evicts(t, Unreferenced(t, n), h, n, e)
    ensures Valid(Evicted(Unreferenced(t, n), h, n, e), h)
  {
    var u := Unreferenced(t, n);
    UnreferenceKeepsValid(t, h, n);
    var k := h.tried(u.info[n].address.service);
    var s := u.(tried := u.tried[k := e.shuffled]);
    ShuffleKeepsTried(u, h, k, e.shuffled);
    assert ValidExcept(s, h, {n}) by {
      forall m | m in s.info && m != n ensures EntryOk(s, m) {
        assert EntryOk(u, m);
      }
    }
    if e.bucket in Holders(t.news, n) {
      assert |u.news[e.bucket]| == |t.news[e.bucket]| - 1;
    }
    ExchangeKeepsValid(s, h, n, e.pos, e.bucket);
  }

  lemma {:induction false} PromotionKeepsValid(t: Tables, h: Hashing, n: int)
    requires Valid(t, h) && n in t.info && !t.info[n].fInTried && t.info[n].nLastSuccess != 0
    requires |t.tried[h.tried(t.info[n].address.service)]| < TRIED_BUCKET_SIZE
    ensures Valid(Promoted(Unreferenced(t, n), h, n), h)
  {
    UnreferenceKeepsValid(t, h, n);
    PromoteKeepsValid(Unreferenced(t, n), h, n);
  }

  // ----- Drawing from a new bucket

  ghost predicate NoneTerrible(info: map<int, AddrInfo>, bucket: set<int>, now: int) {
    forall m :: m in bucket ==> m in info && !info[m].IsTerrible(now)
  }

  ghost predicate IsFirstTerrible(info: map<int, AddrInfo>, bucket: set<int>, now: int, victim: int) {
    && victim in bucket && victim in info && info[victim].IsTerrible(now)
    && forall m :: m in bucket && m < victim ==> m in info && !info[m].IsTerrible(now)
  }

  predicate FourDrawn(drawn: seq<int>, n: int) {
    |drawn| == 4 && forall i :: 0 <= i < 4 ==> 0 <= drawn[i] < n
  }

  /** The place of an id in a bucket, which is kept in ascending order. */
  ghost function Place(bucket: set<int>, n: int): nat {
    |set x | x in bucket && x < n|
  }

  /** The id at a drawn place whose address is oldest; the smaller one of equally old ones. */
  ghost predicate IsOldestDrawn(info: map<int, AddrInfo>, bucket: set<int>, drawn: seq<int>, victim: int) {
    && victim in bucket && victim in info && Place(bucket, victim) in drawn
    && forall m :: m in bucket && Place(bucket, m) in drawn ==>
         && m in info
         && (info[victim].address.nTime < info[m].address.nTime ||
             (info[victim].address.nTime == info[m].address.nTime && victim <= m))
  }

  /** The same for places below n of a list. */
  ghost predicate IsOldestAt(info: map<int, AddrInfo>, ids: seq<int>, drawn: seq<int>, n: nat, k: int) {
    && n <= |ids| && 0 <= k < n && k in drawn && ids[k] in info
    && forall j :: 0 <= j < n && j in drawn ==>
         && ids[j] in info
         && (info[ids[k]].address.nTime < info[ids[j]].address.nTime ||
             (info[ids[k]].address.nTime == info[ids[j]].address.nTime && k <= j))
  }

  lemma {:induction false} PlaceIsIndex(bucket: set<int>, ids: seq<int>, i: nat)
    requires (forall a, b :: 0 <= a < b < |ids| ==> ids[a] < ids[b]) && (forall x :: x in ids <==> x in bucket) &&
             i < |ids|
    ensures Place(bucket, ids[i]) == i
  {
    DistinctSize(ids[..i]);
    assert (set x | x in bucket && x < ids[i]) == Elements(ids[..i]) by {
      forall x ensures x in bucket && x < ids[i] <==> x in ids[..i] {
        if x in bucket && x < ids[i] {
          var j :| 0 <= j < |ids| && ids[j] == x;
          assert ids[..i][j] == x;
        }
      }
    }
  }

  lemma {:induction false} DrawnByPlace(info: map<int, AddrInfo>, bucket: set<int>, ids: seq<int>, drawn: seq<int>,
                                        k: nat)
    requires (forall a, b :: 0 <= a < b < |ids| ==> ids[a] < ids[b]) && (forall x :: x in ids <==> x in bucket) &&
             |ids| == |bucket|
    requires IsOldestAt(info, ids, drawn, |ids|, k)
    ensures IsOldestDrawn(info, bucket, drawn, ids[k])
  {
    hide Place;
    PlaceIsIndex(bucket, ids, k);
    assert ids[k] in ids;
    forall m | m in bucket && Place(bucket, m) in drawn
      ensures m in info &&
        (info[ids[k]].address.nTime < info[m].address.nTime ||
         (info[ids[k]].address.nTime == info[m].address.nTime && ids[k] <= m))
    {
      var j :| 0 <= j < |ids| && ids[j] == m;
      PlaceIsIndex(bucket, ids, j);
    }
  }

  lemma {:induction false} BucketIsKnown(t: Tables, h: Hashing, busy: set<int>, b: int, ids: seq<int>)
    requires ValidExcept(t, h, busy) && 0 <= b < NEW_BUCKET_COUNT && forall x :: x in ids <==> x in t.news[b]
    ensures |t.news| == NEW_BUCKET_COUNT &&
            forall i :: 0 <= i < |ids| ==> ids[i] in t.info && ids[i] >= 0 && ids[i] in t.news[b]
    ensures t.news[b] !! busy ==> forall x :: x in t.news[b] ==> x in t.info && x !in busy
  {
    hide RandomOk, AddrOk, TriedOk, CountsOk;
    forall i | 0 <= i < |ids| ensures ids[i] in t.info && ids[i] >= 0 && ids[i] in t.news[b] {
      var x := ids[i];
      assert x in ids;
      assert x in t.news[b];
    }
  }

  lemma {:induction false} TablesHaveBuckets(t: Tables, h: Hashing, busy: set<int>)
    requires ValidExcept(t, h, busy)
    ensures RandomOk(t) && |t.news| == NEW_BUCKET_COUNT
  {
  }

  lemma {:induction false} Terribles(info: map<int, AddrInfo>, bucket: set<int>, ids: seq<int>, now: int,
                                     first: Option<int>)
    requires forall x :: x in ids <==> x in bucket
    ensures (first.None? && forall n :: n in ids ==> n in info && !info[n].IsTerrible(now)) ==>
            NoneTerrible(info, bucket, now)
    ensures (first.Some? && first.value in ids && first.value in info && info[first.value].IsTerrible(now)
             && forall n :: n in ids && n < first.value ==> n in info && !info[n].IsTerrible(now)) ==>
              IsFirstTerrible(info, bucket, now, first.value)
  {
  }

  // ----- Drawing from a tried bucket

  function Min(a: int, b: int): int {
    if a < b then a else b
  }

  /** Draw i takes one of the entries from place i on. */
  predicate DrawnFrom(n: int, positions: seq<int>) {
    |positions| <= n && forall i :: 0 <= i < |positions| ==> i <= positions[i] < n
  }

  function Exchange(s: seq<int>, i: int, j: int): seq<int>
    requires 0 <= i < |s| && 0 <= j < |s|
  {
    s[j := s[i]][i := s[j]]
  }

  /** The bucket after the draws; draw i exchanges places i and positions[i]. */
  function Shuffled(s: seq<int>, positions: seq<int>): (r: seq<int>)
    requires DrawnFrom(|s|, positions)
    ensures |r| == |s|
  {
    if positions == [] then s
    else
      var last := |positions| - 1;
      Exchange(Shuffled(s, positions[..last]), last, positions[last])
  }

  /** The first of the first k entries that succeeded longest ago. */
  ghost predicate IsFirstOldest(info: map<int, AddrInfo>, s: seq<int>, k: int, oldest: int) {
    && 0 <= oldest < k <= |s| && (forall j :: 0 <= j < k ==> s[j] in info)
    && (forall j :: 0 <= j < k ==> info[s[oldest]].nLastSuccess <= info[s[j]].nLastSuccess)
    && forall j :: 0 <= j < oldest ==> info[s[oldest]].nLastSuccess < info[s[j]].nLastSuccess
  }

  lemma {:induction false} NothingDrawn(info: map<int, AddrInfo>, s: seq<int>)
    ensures DrawnFrom(|s|, []) && Shuffled(s, []) == s
  {
  }

  lemma {:induction false} ShuffleStep(s: seq<int>, positions: seq<int>, p: int)
    requires DrawnFrom(|s|, positions) && |positions| <= p < |s|
    ensures DrawnFrom(|s|, positions + [p])
    ensures Shuffled(s, positions + [p]) == Exchange(Shuffled(s, positions), |positions|, p)
    ensures forall n :: n in Shuffled(s, positions + [p]) ==> n in s
    ensures forall n :: n in Shuffled(s, positions) ==> n in s
  {
    assert (positions + [p])[..|positions|] == positions;
    ShuffledIsPermutation(s, positions);
    ShuffledIsPermutation(s, positions + [p]);
  }

  lemma {:induction false} ShuffledIsPermutation(s: seq<int>, positions: seq<int>)
    requires DrawnFrom(|s|, positions)
    ensures multiset(Shuffled(s, positions)) == multiset(s)
    ensures forall n :: n in Shuffled(s, positions) <==> n in s
  {
    if positions != [] {
      var last := |positions| - 1;
      ShuffledIsPermutation(s, positions[..last]);
      SwapIsPermutation(Shuffled(s, positions[..last]), last, positions[last]);
    }
  }

  /** One more draw: the entry drawn is compared with the oldest so far, which stays where it is. */
  lemma {:induction false} OldestStep(info: map<int, AddrInfo>, start: seq<int>, before: seq<int>, after: seq<int>,
                                      i: int, oldest: int)
    requires 0 <= i < |before| == |after| && (forall n :: n in after ==> n in start) &&
             (forall n :: n in start ==> n in info && n >= 0)
    requires (forall j :: 0 <= j < i ==> after[j] == before[j]) && (i > 0 ==> IsFirstOldest(info, before, i, oldest))
    ensures after[i] in info && after[i] >= 0
    ensures i > 0 ==> after[oldest] == before[oldest] && after[oldest] in info && after[oldest] >= 0
    ensures forall k :: k == i + 1 && (i == 0 || info[after[i]].nLastSuccess < info[after[oldest]].nLastSuccess) ==>
              IsFirstOldest(info, after, k, i)
    ensures forall k :: k == i + 1 && i > 0 && info[after[i]].nLastSuccess >= info[after[oldest]].nLastSuccess ==>
              IsFirstOldest(info, after, k, oldest)
  {
    assert forall j :: 0 <= j < |after| ==> after[j] in after;
    assert after[i] in after;
    forall j | 0 <= j < i ensures info[after[j]].nLastSuccess >= info[after[oldest]].nLastSuccess {
      assert after[j] == before[j];
    }
    forall j | 0 <= j < oldest && i > 0 ensures info[after[j]].nLastSuccess > info[after[oldest]].nLastSuccess {
      assert after[j] == before[j];
    }
  }

  /** Some inspected entry that none of the inspected ones precedes lies at a position. */
  ghost predicate HoldsOldest(info: map<int, AddrInfo>, s: seq<int>, k: int, pos: int) {
    && 0 <= pos < k <= |s| && (forall j :: 0 <= j < k ==> s[j] in info)
    && forall j :: 0 <= j < k ==> info[s[pos]].nLastSuccess <= info[s[j]].nLastSuccess
  }

  /** What a draw brings to its place stays there. */
  lemma {:induction false} DrawStays(s: seq<int>, positions: seq<int>, i: nat)
    requires DrawnFrom(|s|, positions) && i < |positions|
    ensures Shuffled(s, positions)[i] == Shuffled(s, positions[..i])[positions[i]]
    decreases |positions|
  {
    var last := |positions| - 1;
    if i < last {
      DrawStays(s, positions[..last], i);
      assert positions[..last][..i] == positions[..i];
    } else {
      assert positions[..last] == positions[..i];
    }
  }

  /** The position SelectTried returns holds a least recently successful inspected entry if and only if it is one of
      the inspected places and the draw for it brought an entry as old as the oldest. */
  lemma {:induction false} SelectsOldestIff(info: map<int, AddrInfo>, s: seq<int>, positions: seq<int>, oldest: nat)
    requires DrawnFrom(|s|, positions) && IsFirstOldest(info, Shuffled(s, positions), |positions|, oldest)
    ensures HoldsOldest(info, Shuffled(s, positions), |positions|, positions[oldest]) <==>
            && positions[oldest] < |positions|
            && var drawn := Shuffled(s, positions[..positions[oldest]])[positions[positions[oldest]]];
               drawn in info && info[drawn].nLastSuccess == info[Shuffled(s, positions)[oldest]].nLastSuccess
  {
    hide Shuffled;
    if positions[oldest] < |positions| {
      DrawStays(s, positions, positions[oldest]);
    }
  }

  /** In every bucket of more than four entries, so in every full one, four draws of place 4 make SelectTried return
      place 4 itself, where the fourth entry ends up, though it was not among the inspected ones. */
  lemma {:induction false} SomeDrawsMiss(info: map<int, AddrInfo>, s: seq<int>)
      returns (positions: seq<int>, oldest: nat)
    requires |s| > TRIED_ENTRIES_INSPECT_ON_EVICT && forall i :: 0 <= i < |s| ==> s[i] in info
    ensures positions == [4, 4, 4, 4] && DrawnFrom(|s|, positions)
    ensures IsFirstOldest(info, Shuffled(s, positions), |positions|, oldest)
    ensures Shuffled(s, positions)[..4] == [s[4], s[0], s[1], s[2]] && Shuffled(s, positions)[positions[oldest]] == s[3]
    ensures !HoldsOldest(info, Shuffled(s, positions), |positions|, positions[oldest])
  {
    positions := [4, 4, 4, 4];
    ShuffledAtFour(s, positions);
    hide Shuffled;
    oldest := FirstLeast(info, Shuffled(s, positions), 4);
  }

  lemma {:induction false} FirstLeast(info: map<int, AddrInfo>, s: seq<int>, k: nat) returns (m: nat)
    requires 0 < k <= |s| && forall i :: 0 <= i < k ==> s[i] in info
    ensures IsFirstOldest(info, s, k, m)
  {
    if k == 1 {
      m := 0;
    } else {
      m := FirstLeast(info, s, k - 1);
      if info[s[k - 1]].nLastSuccess < info[s[m]].nLastSuccess {
        m := k - 1;
      }
    }
  }

  lemma {:induction false} ShuffledAtFour(s: seq<int>, positions: seq<int>)
    requires |s| > 4 && positions == [4, 4, 4, 4]
    ensures DrawnFrom(|s|, positions)
    ensures var r := Shuffled(s, positions);
            r[0] == s[4] && r[1] == s[0] && r[2] == s[1] && r[3] == s[2] && r[4] == s[3]
  {
    hide Shuffled;
    NothingDrawn(map[], s);
    ShuffleStep(s, [], 4);
    ShuffleStep(s, [4], 4);
    ShuffleStep(s, [4, 4], 4);
    ShuffleStep(s, [4, 4, 4], 4);
    assert [] + [4] == [4] && [4] + [4] == [4, 4] && [4, 4] + [4] == [4, 4, 4] && [4, 4, 4] + [4] == positions;
  }

  // ----- The code

  class AddrMan {
    const hashing: Hashing
    var nIdCount: int
    var mapInfo: map<int, AddrInfo>
    var mapAddr: map<NetAddr, int>
    var vRandom: seq<int>
    var nTried: int
    var vvTried: seq<seq<int>>
    var nNew: int
    var vvNew: seq<set<int>>

    ghost function State(): Tables
      reads this
    {
      Tables(mapInfo, mapAddr, vRandom, vvTried, vvNew, nTried, nNew, nIdCount)
    }

    constructor (hashing: Hashing)
      ensures Valid(State(), hashing) && mapInfo == map[] && this.hashing == hashing
    {
      this.hashing := hashing;
      nIdCount, nTried, nNew := 0, 0, 0;
      mapInfo, mapAddr, vRandom := map[], map[], [];
      vvTried := seq(TRIED_BUCKET_COUNT, _ => []);
      vvNew := seq(NEW_BUCKET_COUNT, _ => {});
      new;
      assert TriedIds(mapInfo) == {} && NewIds(mapInfo) == {};
    }

    method Find(ip: NetAddr) returns (id: Option<int>)
      requires AddrOk(State())
      ensures id == if ip in mapAddr then Some(mapAddr[ip]) else None
      ensures id.Some? ==> id.value in mapInfo && mapInfo[id.value].Ip() == ip
    {
      if ip !in mapAddr { return None; }
      return Some(mapAddr[ip]);
    }

    method Create(address: Address, source: NetAddr) returns (nId: int)
      modifies `nIdCount, `mapInfo, `mapAddr, `vRandom
      ensures nId == old(nIdCount)
      ensures State() == Registered(old(State()), address, source).(nNew := old(nNew))
    {
      nId := nIdCount;
      nIdCount := nIdCount + 1;
      mapInfo := mapInfo[nId := AddrInfo(address, source, 0, 0, 0, 0, false, -1)];
      mapAddr := mapAddr[address.service.ip := nId];
      mapInfo := mapInfo[nId := mapInfo[nId].(nRandomPos := |vRandom|)];
      vRandom := vRandom + [nId];
    }

    method SwapRandom(nRndPos1: int, nRndPos2: int)
      requires 0 <= nRndPos1 < |vRandom| && 0 <= nRndPos2 < |vRandom|
      requires vRandom[nRndPos1] in mapInfo && vRandom[nRndPos2] in mapInfo
      modifies `mapInfo, `vRandom
      ensures State() == Swapped(old(State()), nRndPos1, nRndPos2)
    {
      if nRndPos1 == nRndPos2 { return; }
      var nId1, nId2 := vRandom[nRndPos1], vRandom[nRndPos2];
      mapInfo := mapInfo[nId1 := mapInfo[nId1].(nRandomPos := nRndPos2)];
      mapInfo := mapInfo[nId2 := mapInfo[nId2].(nRandomPos := nRndPos1)];
      vRandom := vRandom[nRndPos1 := nId2];
      vRandom := vRandom[nRndPos2 := nId1];
    }

    /** The body both branches of ShrinkNew share: drop one reference, forget the entry with the last one. */
    method DropReference(nUBucket: int, n: int)
      requires RandomOk(State()) && n in mapInfo && 0 <= nUBucket < |vvNew|
      modifies `mapInfo, `mapAddr, `vRandom, `nNew, `vvNew
      ensures State() == Dropped(old(State()), nUBucket, n)
    {
      hide RandomOk;
      RandomPlaces(State(), n);
      mapInfo := mapInfo[n := mapInfo[n].(nRefCount := mapInfo[n].nRefCount - 1)];
      if mapInfo[n].nRefCount == 0 {
        SwapRandom(mapInfo[n].nRandomPos, |vRandom| - 1);
        vRandom := vRandom[..|vRandom| - 1];
        mapAddr := mapAddr - {mapInfo[n].Ip()};
        mapInfo := mapInfo - {n};
        nNew := nNew - 1;
      }
      vvNew := vvNew[nUBucket := vvNew[nUBucket] - {n}];
    }

    /** Takes one id out of a full new bucket: the first terrible one, else the oldest of a random sample. */
    method ShrinkNew(nUBucket: int, now: int, ghost busy: set<int>)
        returns (r: int, ghost victim: int, ghost drawn: seq<int>)
      requires ValidExcept(State(), hashing, busy) && 0 <= nUBucket < NEW_BUCKET_COUNT
      requires vvNew[nUBucket] != {} && vvNew[nUBucket] !! busy
      modifies `mapInfo, `mapAddr, `vRandom, `nNew, `vvNew
      ensures victim in old(vvNew)[nUBucket] && victim in old(mapInfo)
      ensures State() == Dropped(old(State()), nUBucket, victim)
      ensures ValidExcept(State(), hashing, busy)
      ensures r == 0 ==> IsFirstTerrible(old(mapInfo), old(vvNew)[nUBucket], now, victim)
      ensures r != 0 ==> NoneTerrible(old(mapInfo), old(vvNew)[nUBucket], now)
      ensures r != 0 ==>
              FourDrawn(drawn, |old(vvNew)[nUBucket]|) &&
                  IsOldestDrawn(old(mapInfo), old(vvNew)[nUBucket], drawn, victim)
    {
      hide ValidExcept, RandomOk, IsOldestDrawn, IsFirstTerrible, NoneTerrible, Dropped;
      TablesHaveBuckets(State(), hashing, busy);
      var ids := Ascending(vvNew[nUBucket]);
      BucketIsKnown(State(), hashing, busy, nUBucket, ids);
      drawn := [];
      var first := FirstTerrible(ids, now);
      Terribles(mapInfo, vvNew[nUBucket], ids, now, first);
      if first.Some? {
        victim := first.value;
        DropKeepsValid(State(), hashing, busy, nUBucket, victim);
        DropReference(nUBucket, first.value);
        return 0, victim, drawn;
      }
      var nOldest: int;
      ghost var k;
      nOldest, drawn, k := OldestOfDrawn(ids);
      victim := nOldest;
      DrawnByPlace(mapInfo, vvNew[nUBucket], ids, drawn, k);
      DropKeepsValid(State(), hashing, busy, nUBucket, victim);
      DropReference(nUBucket, nOldest);
      return 1, victim, drawn;
    }

    method FirstTerrible(ids: seq<int>, now: int) returns (r: Option<int>)
      requires forall i :: 0 <= i < |ids| ==> ids[i] in mapInfo
      requires forall i, j :: 0 <= i < j < |ids| ==> ids[i] < ids[j]
      ensures r.None? ==> forall n :: n in ids ==> n in mapInfo && !mapInfo[n].IsTerrible(now)
      ensures r.Some? ==> r.value in ids && r.value in mapInfo && mapInfo[r.value].IsTerrible(now)
      ensures r.Some? ==> forall n :: n in ids && n < r.value ==> n in mapInfo && !mapInfo[n].IsTerrible(now)
    {
      for i := 0 to |ids|
        invariant forall j :: 0 <= j < i ==> !mapInfo[ids[j]].IsTerrible(now)
      {
        if mapInfo[ids[i]].IsTerrible(now) { return Some(ids[i]); }
      }
      return None;
    }

    /** The oldest of the entries at four random places. */
    method OldestOfDrawn(ids: seq<int>) returns (nOldest: int, ghost drawn: seq<int>, ghost k: nat)
      requires ids != [] && forall i :: 0 <= i < |ids| ==> ids[i] in mapInfo && ids[i] >= 0
      ensures nOldest in ids && FourDrawn(drawn, |ids|) && IsOldestAt(mapInfo, ids, drawn, |ids|, k) &&
              nOldest == ids[k]
    {
      var a: int :| 0 <= a < |ids|;
      var b: int :| 0 <= b < |ids|;
      var c: int :| 0 <= c < |ids|;
      var d: int :| 0 <= d < |ids|;
      drawn := [a, b, c, d];
      nOldest := -1;
      k := 0;
      for nI := 0 to |ids|
        invariant nOldest == -1 ==> forall j :: j in drawn ==> j >= nI
        invariant nOldest != -1 ==> IsOldestAt(mapInfo, ids, drawn, nI, k) && nOldest == ids[k]
      {
        if nI == a || nI == b || nI == c || nI == d {
          assert nI in drawn;
          if nOldest == -1 || mapInfo[ids[nI]].address.nTime < mapInfo[nOldest].address.nTime {
            nOldest := ids[nI];
            k := nI;
          }
        }
      }
      assert a in drawn;
    }

    /** Moves up to four randomly drawn entries of a tried bucket to its front and returns the position from which
        the least recently successful of them was drawn, which is not where it is now. */
    method SelectTried(nKBucket: int) returns (nOldestPos: int, ghost positions: seq<int>, ghost oldest: nat)
      requires 0 <= nKBucket < |vvTried| && vvTried[nKBucket] != []
      requires forall n :: n in vvTried[nKBucket] ==> n in mapInfo && n >= 0
      modifies `vvTried
      ensures DrawnFrom(|old(vvTried)[nKBucket]|, positions)
      ensures |positions| == Min(TRIED_ENTRIES_INSPECT_ON_EVICT, |old(vvTried)[nKBucket]|)
      ensures vvTried == old(vvTried)[nKBucket := Shuffled(old(vvTried)[nKBucket], positions)]
      ensures |vvTried[nKBucket]| == |old(vvTried)[nKBucket]|
      ensures IsFirstOldest(mapInfo, vvTried[nKBucket], |positions|, oldest) && nOldestPos == positions[oldest]
    {
      hide Shuffled, IsFirstOldest;
      ghost var start := vvTried[nKBucket];
      var vTried := vvTried[nKBucket];
      var nOldest := -1;
      nOldestPos := -1;
      positions, oldest := [], 0;
      var i := 0;
      NothingDrawn(mapInfo, start);
      while i < TRIED_ENTRIES_INSPECT_ON_EVICT && i < |vTried|
        invariant vvTried == old(vvTried) && |vTried| == |start|
        invariant 0 <= i == |positions| <= Min(TRIED_ENTRIES_INSPECT_ON_EVICT, |start|)
        invariant DrawnFrom(|start|, positions) && vTried == Shuffled(start, positions)
        invariant i == 0 ==> nOldest == -1
        invariant i > 0 ==>
                  IsFirstOldest(mapInfo, vTried, i, oldest) && oldest < i && nOldest == vTried[oldest] &&
                      nOldestPos == positions[oldest]
      {
        var nPos: int :| i <= nPos < |vTried|;
        var nTemp := vTried[nPos];
        ShuffleStep(start, positions, nPos);
        ghost var before := vTried;
        vTried := vTried[nPos := vTried[i]];
        vTried := vTried[i := nTemp];
        OldestStep(mapInfo, start, before, vTried, i, oldest);
        if nOldest == -1 || mapInfo[nTemp].nLastSuccess < mapInfo[nOldest].nLastSuccess {
          nOldest, nOldestPos := nTemp, nPos;
          oldest := i;
        }
        positions := positions + [nPos];
        i := i + 1;
      }
      vvTried := vvTried[nKBucket := vTried];
    }

    /** Removes an id from every new bucket, counting its references down. */
    method RemoveFromNew(nId: int)
      requires nId in mapInfo && mapInfo[nId].nRefCount == |Holders(vvNew, nId)|
      modifies `mapInfo, `vvNew
      ensures State() == Unreferenced(old(State()), nId)
    {
      ghost var news := vvNew;
      HoldersFromStart(news, nId);
      for b := 0 to |vvNew|
        invariant |vvNew| == |news|
        invariant forall c :: 0 <= c < |news| ==> vvNew[c] == if c < b then news[c] - {nId} else news[c]
        invariant mapInfo == old(mapInfo)[nId := old(mapInfo)[nId].(nRefCount := |HoldersFrom(news, nId, b)|)]
      {
        HoldersFromNext(news, nId, b);
        if nId in vvNew[b] {
          vvNew := vvNew[b := vvNew[b] - {nId}];
          mapInfo := mapInfo[nId := mapInfo[nId].(nRefCount := mapInfo[nId].nRefCount - 1)];
        }
      }
      assert HoldersFrom(news, nId, |news|) == {};
    }

    /** Moves an entry from the new tables to its tried bucket, evicting another entry when it is full. */
    method MakeTried(nId: int, nOrigin: int) returns (ghost eviction: Eviction)
      requires Valid(State(), hashing) && nId in mapInfo && !mapInfo[nId].fInTried && mapInfo[nId].nLastSuccess != 0
      requires nOrigin in Holders(vvNew, nId)
      modifies `mapInfo, `vvTried, `vvNew, `nTried, `nNew
      ensures MovedToTried(old(State()), State(), hashing, nId, eviction)
      ensures Valid(State(), hashing)
    {
      hide Valid, ValidExcept, Evicts, Unreferenced, Promoted, Exchanged, Holders;
      ghost var before := State();
      UnreferencedFacts(before, hashing, nId);
      RemoveFromNew(nId);
      nNew := nNew - 1;
      assert mapInfo[nId].nRefCount == 0;
      eviction := Eviction([], 0, 0);
      var nKBucket := hashing.tried(mapInfo[nId].address.service);
      if |vvTried[nKBucket]| < TRIED_BUCKET_SIZE {
        PromotionKeepsValid(before, hashing, nId);
        Append(nId, nKBucket);
      } else {
        eviction := Evict(nId, nOrigin, nKBucket, before);
      }
    }

    /** The branch of MakeTried that finds room; the counter of new entries is already down. */
    method Append(nId: int, nKBucket: int)
      requires nId in mapInfo && |vvTried| == TRIED_BUCKET_COUNT &&
               nKBucket == hashing.tried(mapInfo[nId].address.service)
      modifies `mapInfo, `vvTried, `nTried
      ensures State() == Promoted(old(State()).(nNew := nNew + 1), hashing, nId)
    {
      vvTried := vvTried[nKBucket := vvTried[nKBucket] + [nId]];
      nTried := nTried + 1;
      mapInfo := mapInfo[nId := mapInfo[nId].(fInTried := true)];
    }

    /** The full-bucket branch of MakeTried. */
    method Evict(nId: int, nOrigin: int, nKBucket: int, ghost before: Tables) returns (ghost eviction: Eviction)
      requires Valid(before, hashing) && nId in before.info && !before.info[nId].fInTried &&
               before.info[nId].nLastSuccess != 0
      requires State() == Unreferenced(before, nId).(nNew := before.nNew - 1)
      requires nOrigin in Holders(before.news, nId) && nKBucket == hashing.tried(mapInfo[nId].address.service)
      requires |vvTried[nKBucket]| >= TRIED_BUCKET_SIZE
      modifies `mapInfo, `vvTried, `vvNew, `nNew
      ensures Evicts(before, Unreferenced(before, nId), hashing, nId, eviction)
      ensures State() == Evicted(Unreferenced(before, nId), hashing, nId, eviction)
      ensures Valid(State(), hashing)
    {
      hide Valid, ValidExcept, Unreferenced, Distinct;
      ghost var u := Unreferenced(before, nId);
      UnreferencedFacts(before, hashing, nId);
      TriedIdsAreKnown(before, hashing, nKBucket);
      var nPos;
      ghost var positions, oldest;
      nPos, positions, oldest := SelectTried(nKBucket);
      ShuffledIsPermutation(before.tried[nKBucket], positions);
      PermutationKeepsDistinct(before.tried[nKBucket], vvTried[nKBucket]);
      var out := vvTried[nKBucket][nPos];
      assert out in vvTried[nKBucket] && out in before.tried[nKBucket];
      var nUBucket := hashing.newBucket(mapInfo[out].address.service, mapInfo[out].source);
      var bucket := if |vvNew[nUBucket]| < NEW_BUCKET_SIZE then nUBucket else nOrigin;
      eviction := Eviction(vvTried[nKBucket], nPos, bucket);
      assert Evicts(before, u, hashing, nId, eviction);
      EvictionKeepsValid(before, hashing, nId, eviction);
      Replace(nId, nKBucket, nPos, bucket);
    }

    /** The last assignments of MakeTried: the evicted entry goes to a new bucket, the new one takes its place. */
    method Replace(nId: int, nKBucket: int, nPos: int, bucket: int)
      requires nId in mapInfo && |vvTried| == TRIED_BUCKET_COUNT && 0 <= bucket < |vvNew|
      requires nKBucket == hashing.tried(mapInfo[nId].address.service)
      requires 0 <= nPos < |vvTried[nKBucket]| && vvTried[nKBucket][nPos] in mapInfo && vvTried[nKBucket][nPos] != nId
      modifies `mapInfo, `vvTried, `vvNew, `nNew
      ensures State() == Exchanged(old(State()), hashing, nId, nPos, bucket).(nNew := old(nNew) + 1)
    {
      var out := vvTried[nKBucket][nPos];
      mapInfo := mapInfo[out := mapInfo[out].(fInTried := false, nRefCount := 1)];
      vvNew := vvNew[bucket := vvNew[bucket] + {out}];
      nNew := nNew + 1;
      vvTried := vvTried[nKBucket := vvTried[nKBucket][nPos := nId]];
      mapInfo := mapInfo[nId := mapInfo[nId].(fInTried := true)];
    }

    /** A new bucket that holds the id, searched from a random start. There always is one. */
    method FindNewBucket(nId: int) returns (nUBucket: int)
      requires Valid(State(), hashing) && nId in mapInfo && !mapInfo[nId].fInTried
      ensures nUBucket in Holders(vvNew, nId)
    {
      assert EntryOk(State(), nId);
      var nRnd: int :| 0 <= nRnd < |vvNew|;
      nUBucket := -1;
      var n := 0;
      while n < |vvNew|
        invariant 0 <= n <= |vvNew|
        invariant forall m :: 0 <= m < n ==> nId !in vvNew[Cyclic(m, nRnd, |vvNew|)]
      {
        var nB := Cyclic(n, nRnd, |vvNew|);
        if nId in vvNew[nB] { return nB; }
        n := n + 1;
      }
      ghost var b := AnElement(Holders(vvNew, nId));
      ghost var m := CyclicSearchIsComplete(|vvNew|, nRnd, b);
    }

    /** Writes new statistics into one entry. */
    method UpdateEntry(n: int, e: AddrInfo)
      requires Valid(State(), hashing) && n in mapInfo && Harmless(mapInfo[n], e)
      modifies `mapInfo
      ensures State() == Touched(old(State()), n, e) && Valid(State(), hashing)
    {
      TouchKeepsValid(State(), hashing, n, e);
      mapInfo := mapInfo[n := e];
    }

    method Good(addr: Service, nTime: int) returns (ghost eviction: Eviction)
      requires Valid(State(), hashing) && nTime > 0
      modifies `mapInfo, `vvTried, `vvNew, `nTried, `nNew
      ensures Valid(State(), hashing)
      ensures !Knows(old(State()), addr) ==> State() == old(State())
      ensures Knows(old(State()), addr) ==>
        var n := old(mapAddr)[addr.ip];
        var s := Touched(old(State()), n, Succeeded(old(mapInfo)[n], nTime));
        if old(mapInfo)[n].fInTried then State() == s else MovedToTried(s, State(), hashing, n, eviction)
      ensures Knows(old(State()), addr) ==>
        var n := old(mapAddr)[addr.ip];
        var e := old(mapInfo)[n];
        && n in mapInfo
        && mapInfo[n] == e.(fInTried := true, nRefCount := 0, nLastSuccess := nTime, nLastTry := nTime, nAttempts := 0,
                            address := e.address.(nTime := nTime % TWO_TO_32))
    {
      eviction := Eviction([], 0, 0);
      var id := Find(addr.ip);
      if id.None? { return; }
      var nId := id.value;
      if mapInfo[nId].address.service != addr { return; }
      UpdateEntry(nId, Succeeded(mapInfo[nId], nTime));
      TriedHasNoReference(State(), hashing, nId);
      if mapInfo[nId].fInTried { return; }
      var nUBucket := FindNewBucket(nId);
      ghost var before := State();
      eviction := MakeTried(nId, nUBucket);
      PromotionLosesNobody(before, State(), hashing, nId, eviction);
    }

    /** The reference Add_ gives an entry that is not yet in its bucket. */
    method AddReference(nId: int, nUBucket: int, now: int, ghost busy: set<int>) returns (ghost victim: Option<int>)
      requires ValidExcept(State(), hashing, busy) && busy <= {nId} && nId in mapInfo && !mapInfo[nId].fInTried
      requires 0 <= nUBucket < NEW_BUCKET_COUNT && nId !in vvNew[nUBucket]
      requires mapInfo[nId].nRefCount == |Holders(vvNew, nId)| < NEW_BUCKETS_PER_ADDRESS
      modifies `mapInfo, `mapAddr, `vRandom, `nNew, `vvNew
      ensures Valid(State(), hashing)
      ensures State() == Placed(old(State()), nUBucket, nId, victim)
      ensures victim.Some? <==> |old(vvNew)[nUBucket]| == NEW_BUCKET_SIZE
      ensures victim.Some? ==> victim.value in old(vvNew)[nUBucket]
    {
      hide ValidExcept;
      ghost var before := State();
      CountingKeepsValid(before, hashing, busy, nId);
      mapInfo := mapInfo[nId := mapInfo[nId].(nRefCount := mapInfo[nId].nRefCount + 1)];
      assert State() == WithRefs(before, nId, before.info[nId].nRefCount + 1);
      victim := MakeRoom(nId, nUBucket, now);
      PlacementKeepsValid(before, hashing, busy, nUBucket, nId, victim);
      vvNew := vvNew[nUBucket := vvNew[nUBucket] + {nId}];
    }

    /** Shrinks the bucket if it is full. */
    method MakeRoom(nId: int, nUBucket: int, now: int) returns (ghost victim: Option<int>)
      requires ValidExcept(State(), hashing, {nId}) && 0 <= nUBucket < NEW_BUCKET_COUNT && nId !in vvNew[nUBucket]
      modifies `mapInfo, `mapAddr, `vRandom, `nNew, `vvNew
      ensures State() == AfterDrop(old(State()), nUBucket, victim) && |vvNew| == NEW_BUCKET_COUNT
      ensures victim.Some? <==> |old(vvNew)[nUBucket]| == NEW_BUCKET_SIZE
      ensures victim.Some? ==> victim.value in old(vvNew)[nUBucket]
    {
      victim := None;
      if |vvNew[nUBucket]| == NEW_BUCKET_SIZE {
        ghost var counted := State();
        var r;
        ghost var v, drawn;
        r, v, drawn := ShrinkNew(nUBucket, now, {nId});
        victim := Some(v);
        assert CanDrop(counted, nUBucket, v);
      }
    }

    /** The branch of Add for an address already known. */
    method AddKnown(nId: int, address: Address, source: NetAddr, nTimePenalty: int, now: int)
        returns (ghost victim: Option<int>, ghost placed: bool)
      requires Valid(State(), hashing) && nId in mapInfo
      modifies `mapInfo, `mapAddr, `vRandom, `nNew, `vvNew
      ensures Valid(State(), hashing)
      ensures var e := Refreshed(old(mapInfo)[nId], address, nTimePenalty, now);
              Outcome(Touched(old(State()), nId, e), State(), hashing, nId, source, placed, victim)
              && (placed ==> address.nTime != 0 && (e.address.nTime == 0 || address.nTime > e.address.nTime)
                             && !e.fInTried && e.nRefCount < NEW_BUCKETS_PER_ADDRESS)
    {
      victim, placed := None, false;
      var e := Refreshed(mapInfo[nId], address, nTimePenalty, now);
      EntryFacts(State(), hashing, nId);
      UpdateEntry(nId, e);
      if address.nTime == 0 || (e.address.nTime != 0 && address.nTime <= e.address.nTime) { return; }
      if e.fInTried { return; }
      if e.nRefCount == NEW_BUCKETS_PER_ADDRESS { return; }
      var lucky := StochasticTest(e.nRefCount);
      if !lucky { return; }
      var nUBucket := hashing.newBucket(e.address.service, source);
      if nId !in vvNew[nUBucket] {
        EntryFacts(State(), hashing, nId);
        victim := AddReference(nId, nUBucket, now, {});
        placed := true;
      }
    }

    /** The branch of Add for a new address. */
    method AddUnknown(address: Address, source: NetAddr, nTimePenalty: int, now: int)
        returns (ghost victim: Option<int>)
      requires Valid(State(), hashing) && address.service.ip !in mapAddr
      modifies `nIdCount, `mapInfo, `mapAddr, `vRandom, `nNew, `vvNew
      ensures Valid(State(), hashing)
      ensures Outcome(Registered(old(State()), Penalized(address, nTimePenalty), source), State(), hashing,
                      old(nIdCount), source, true, victim)
    {
      RegisterKeepsValid(State(), hashing, Penalized(address, nTimePenalty), source);
      var nId := Create(address, source);
      mapInfo := mapInfo[nId := mapInfo[nId].(address := Penalized(address, nTimePenalty))];
      nNew := nNew + 1;
      assert State() == Registered(old(State()), Penalized(address, nTimePenalty), source);
      var nUBucket := hashing.newBucket(mapInfo[nId].address.service, source);
      assert nId !in vvNew[nUBucket] by {
        assert nUBucket !in Holders(vvNew, nId);
      }
      victim := AddReference(nId, nUBucket, now, {nId});
    }

    method Add(address: Address, source: NetAddr, nTimePenalty: int, routable: bool, now: int)
        returns (fNew: bool, ghost victim: Option<int>, ghost placed: bool)
      requires Valid(State(), hashing)
      modifies `nIdCount, `mapInfo, `mapAddr, `vRandom, `nNew, `vvNew
      ensures Valid(State(), hashing)
      ensures fNew == (routable && address.service.port != 0 && address.service.ip !in old(mapAddr))
      ensures !routable || address.service.port == 0 ==> State() == old(State())
      ensures routable && address.service.port != 0 ==>
        var s := Noted(old(State()), address, source, nTimePenalty, now);
        var n := NotedId(old(State()), address);
        && Outcome(s, State(), hashing, n, source, placed, victim)
        && (fNew ==> placed)
        && (placed && !fNew ==>
              && address.nTime != 0 && (s.info[n].address.nTime == 0 || address.nTime > s.info[n].address.nTime)
              && !s.info[n].fInTried && s.info[n].nRefCount < NEW_BUCKETS_PER_ADDRESS)
    {
      if !routable { return false, None, false; }
      if address.service.port == 0 { return false, None, false; }
      var id := Find(address.service.ip);
      if id.Some? {
        victim, placed := AddKnown(id.value, address, source, nTimePenalty, now);
        fNew := false;
      } else {
        victim := AddUnknown(address, source, nTimePenalty, now);
        placed, fNew := true, true;
      }
    }

    /** Each reference held makes a further one half as likely. */
    method StochasticTest(nRefCount: int) returns (lucky: bool)
      ensures nRefCount <= 0 ==> lucky
    {
      var nFactor := 1;
      var n := 0;
      while n < nRefCount
        invariant nFactor >= 1 && (nRefCount <= 0 ==> nFactor == 1)
      {
        nFactor := nFactor * 2;
        n := n + 1;
      }
      var r: int :| 0 <= r < nFactor;
      lucky := !(nFactor > 1 && r != 0);
    }

    method Attempt(addr: Service, nTime: int)
      requires Valid(State(), hashing)
      modifies `mapInfo
      ensures Valid(State(), hashing) <==> nTime >= 0 || !Knows(old(State()), addr)
      ensures !Knows(old(State()), addr) ==> State() == old(State())
      ensures Knows(old(State()), addr) ==>
        var n := old(mapAddr)[addr.ip];
        State() == Touched(old(State()), n,
                           old(mapInfo)[n].(nLastTry := nTime, nAttempts := old(mapInfo)[n].nAttempts + 1))
    {
      var id := Find(addr.ip);
      if id.None? { return; }
      if mapInfo[id.value].address.service != addr { return; }
      var e := mapInfo[id.value].(nLastTry := nTime, nAttempts := mapInfo[id.value].nAttempts + 1);
      EntryFacts(State(), hashing, id.value);
      if nTime >= 0 {
        TouchKeepsValid(State(), hashing, id.value, e);
      } else {
        NegativeTryIsInvalid(State(), hashing, id.value, e);
      }
      mapInfo := mapInfo[id.value := e];
    }

    method Connected(addr: Service, nTime: int)
      requires Valid(State(), hashing)
      modifies `mapInfo
      ensures Valid(State(), hashing)
      ensures !Knows(old(State()), addr) ==> State() == old(State())
      ensures Knows(old(State()), addr) ==>
        var n := old(mapAddr)[addr.ip];
        var e := old(mapInfo)[n];
        State() == if nTime - e.address.nTime > 20 * 60
                   then Touched(old(State()), n, e.(address := e.address.(nTime := nTime % TWO_TO_32)))
                   else old(State())
    {
      var id := Find(addr.ip);
      if id.None? { return; }
      if mapInfo[id.value].address.service != addr { return; }
      if nTime - mapInfo[id.value].address.nTime > 20 * 60 {
        var e := mapInfo[id.value];
        assert EntryOk(State(), id.value);
        UpdateEntry(id.value, e.(address := e.address.(nTime := nTime % TWO_TO_32)));
      }
    }

    /** Swaps a random later position into place n. */
    method Draw(n: int) returns (address: Address)
      requires Valid(State(), hashing) && 0 <= n < |vRandom|
      modifies `mapInfo, `vRandom
      ensures Valid(State(), hashing) && SameEntries(old(mapInfo), mapInfo)
      ensures multiset(vRandom) == multiset(old(vRandom)) && |vRandom| == old(|vRandom|)
      ensures forall i :: 0 <= i < n ==> vRandom[i] == old(vRandom)[i]
      ensures State() == old(State()).(info := mapInfo, random := vRandom)
      ensures vRandom[n] in mapInfo && address == mapInfo[vRandom[n]].address
    {
      hide ValidExcept, Swapped, SameEntries;
      RandomIdsAreKnown(State(), hashing);
      var nRndPos: int :| n <= nRndPos < |vRandom|;
      SwapKeepsValid(State(), hashing, {}, n, nRndPos);
      SwapEffect(State(), hashing, n, nRndPos);
      SwapRandom(n, nRndPos);
      address := mapInfo[vRandom[n]].address;
    }

    /** A random selection without repetition. */
    method GetAddr() returns (vAddr: seq<Address>)
      requires Valid(State(), hashing)
      modifies `mapInfo, `vRandom
      ensures Valid(State(), hashing)
      ensures SameEntries(old(mapInfo), mapInfo) && multiset(vRandom) == multiset(old(vRandom))
      ensures State() == old(State()).(info := mapInfo, random := vRandom)
      ensures |vAddr| ==
              (if GETADDR_MAX_PCT * |vRandom| / 100 > GETADDR_MAX then GETADDR_MAX
               else GETADDR_MAX_PCT * |vRandom| / 100)
      ensures |vAddr| <= |vRandom| && Draws(mapInfo, vRandom, vAddr)
      ensures forall i, j :: 0 <= i < j < |vAddr| ==> vAddr[i].service.ip != vAddr[j].service.ip
    {
      hide ValidExcept;
      var nNodes := GETADDR_MAX_PCT * |vRandom| / 100;
      if nNodes > GETADDR_MAX { nNodes := GETADDR_MAX; }
      vAddr := [];
      for n := 0 to nNodes
        invariant Valid(State(), hashing) && |vRandom| == old(|vRandom|) && |vAddr| == n
        invariant SameEntries(old(mapInfo), mapInfo) && multiset(vRandom) == multiset(old(vRandom))
        invariant State() == old(State()).(info := mapInfo, random := vRandom)
        invariant Draws(mapInfo, vRandom, vAddr)
      {
        ghost var info, random := mapInfo, vRandom;
        var address := Draw(n);
        DrawsGrow(info, random, mapInfo, vRandom, vAddr, address);
        vAddr := vAddr + [address];
      }
      DrawsAreDistinct(State(), hashing, vAddr);
    }
  }

  ghost predicate Draws(info: map<int, AddrInfo>, random: seq<int>, vAddr: seq<Address>) {
    && |vAddr| <= |random|
    && forall i :: 0 <= i < |vAddr| ==> random[i] in info && vAddr[i] == info[random[i]].address
  }

  lemma {:induction false} DrawsGrow(info: map<int, AddrInfo>, random: seq<int>, info': map<int, AddrInfo>,
                                     random': seq<int>,
                                     vAddr: seq<Address>, address: Address)
    requires Draws(info, random, vAddr) && SameEntries(info, info') && |random'| == |random| > |vAddr|
    requires forall i :: 0 <= i < |vAddr| ==> random'[i] == random[i]
    requires random'[|vAddr|] in info' && address == info'[random'[|vAddr|]].address
    ensures Draws(info', random', vAddr + [address])
  {
  }

  lemma {:induction false} DrawsAreDistinct(t: Tables, h: Hashing, vAddr: seq<Address>)
    requires Valid(t, h) && Draws(t.info, t.random, vAddr)
    ensures forall i, j :: 0 <= i < j < |vAddr| ==> vAddr[i].service.ip != vAddr[j].service.ip
  {
    forall i, j | 0 <= i < j < |vAddr| ensures vAddr[i].service.ip != vAddr[j].service.ip {
      var n, m := t.random[i], t.random[j];
      assert t.info[n].nRandomPos == i && t.info[m].nRandomPos == j;
      assert t.addr[t.info[n].Ip()] == n && t.addr[t.info[m].Ip()] == m;
    }
  }

  /** The holders at or after a bucket. */
  ghost function HoldersFrom(news: seq<set<int>>, n: int, b: int): set<int> {
    set c | 0 <= c < |news| && b <= c && n in news[c]
  }

  lemma {:induction false} HoldersFromStart(news: seq<set<int>>, n: int)
    ensures HoldersFrom(news, n, 0) == Holders(news, n)
  {
  }

  lemma {:induction false} HoldersFromNext(news: seq<set<int>>, n: int, b: int)
    requires 0 <= b < |news|
    ensures |HoldersFrom(news, n, b)| == |HoldersFrom(news, n, b + 1)| + if n in news[b] then 1 else 0
  {
    var rest := HoldersFrom(news, n, b + 1);
    assert HoldersFrom(news, n, b) == if n in news[b] then rest + {b} else rest;
  }

  lemma {:induction false} UnreferencedFacts(t: Tables, h: Hashing, n: int)
    requires Valid(t, h) && n in t.info
    ensures |t.tried| == TRIED_BUCKET_COUNT && |t.news| == NEW_BUCKET_COUNT &&
            t.info[n].nRefCount == |Holders(t.news, n)|
    ensures var u := Unreferenced(t, n);
            && u == t.(news := u.news, info := t.info[n := t.info[n].(nRefCount := 0)]) && |u.news| == NEW_BUCKET_COUNT
  {
  }

  lemma {:induction false} TriedIdsAreKnown(t: Tables, h: Hashing, k: int)
    requires Valid(t, h) && 0 <= k < TRIED_BUCKET_COUNT
    ensures Distinct(t.tried[k]) && forall n :: n in t.tried[k] ==> n in t.info && n >= 0 && t.info[n].fInTried
  {
    forall n | n in t.tried[k] ensures n in t.info && n >= 0 && t.info[n].fInTried {
    }
  }

  lemma {:induction false} RandomIdsAreKnown(t: Tables, h: Hashing)
    requires Valid(t, h)
    ensures RandomOk(t)
  {
  }

  /** The manager has an entry for exactly this address and port. */
  predicate Knows(t: Tables, addr: Service) {
    addr.ip in t.addr && t.addr[addr.ip] in t.info && t.info[t.addr[addr.ip]].address.service == addr
  }

  function Cyclic(m: int, start: int, size: int): (r: int)
    requires 0 < size
    ensures 0 <= r < size
  {
    (m + start) % size
  }

  lemma {:induction false} CyclicSearchIsComplete(size: int, start: int, b: int) returns (m: int)
    requires 0 <= start < size && 0 <= b < size
    ensures 0 <= m < size && Cyclic(m, start, size) == b
  {
    if b >= start {
      m := b - start;
      SmallRemainder(b, size);
    } else {
      m := b - start + size;
      assert m + start == 1 * size + b;
      RemainderIs(m + start, size, 1, b);
    }
  }

  lemma {:induction false} NegativeTryIsInvalid(t: Tables, h: Hashing, n: int, e: AddrInfo)
    requires n in t.info && e.nLastTry < 0
    ensures !Valid(Touched(t, n, e), h)
  {
    hide RandomOk, AddrOk, TriedOk, BucketsOk, CountsOk;
    assert Touched(t, n, e).info[n] == e;
  }

  lemma {:induction false} RandomPlaces(t: Tables, n: int)
    requires RandomOk(t) && n in t.info
    ensures 0 <= t.info[n].nRandomPos < |t.random| && t.random[t.info[n].nRandomPos] == n &&
            t.random[|t.random| - 1] in t.info
  {
  }

  lemma {:induction false} SwapEffect(t: Tables, h: Hashing, p: int, q: int)
    requires Valid(t, h) && 0 <= p <= q < |t.random|
    ensures t.random[p] in t.info && t.random[q] in t.info
    ensures var s := Swapped(t, p, q);
            && SameEntries(t.info, s.info) && multiset(s.random) == multiset(t.random) && |s.random| == |t.random|
            && (forall i :: 0 <= i < p ==> s.random[i] == t.random[i])
            && s == t.(info := s.info, random := s.random) && s.random[p] in s.info
  {
    hide AddrOk, TriedOk, BucketsOk, EntriesOk, CountsOk, SameEntries;
    SwapKeepsRandom(t, p, q);
    SwapIsPermutation(t.random, p, q);
  }

  lemma {:induction false} SwapIsPermutation(s: seq<int>, i: int, j: int)
    requires 0 <= i < |s| && 0 <= j < |s|
    ensures multiset(s[j := s[i]][i := s[j]]) == multiset(s)
    ensures s[i := s[j]][j := s[i]] == s[j := s[i]][i := s[j]]
    ensures forall n :: n in s[j := s[i]][i := s[j]] <==> n in s
  {
    var r := s[j := s[i]][i := s[j]];
    SameMultisetSameElements(r, s);
  }

  lemma {:induction false} SameMultisetSameElements(r: seq<int>, s: seq<int>)
    ensures multiset(r) == multiset(s) ==> forall n :: n in r <==> n in s
  {
    if multiset(r) == multiset(s) {
      forall n ensures n in r <==> n in s {
        assert n in r <==> n in multiset(r);
        assert n in s <==> n in multiset(s);
      }
    }
  }

  /** Counting the reference before the bucket holds it puts that one id in flux. */
  lemma {:induction false} CountingKeepsValid(t: Tables, h: Hashing, busy: set<int>, n: int)
    requires ValidExcept(t, h, busy) && busy <= {n} && n in t.info && !t.info[n].fInTried
    ensures ValidExcept(WithRefs(t, n, t.info[n].nRefCount + 1), h, {n})
  {
    BusyChange(t, WithRefs(t, n, t.info[n].nRefCount + 1), h, busy, n);
    assert busy + {n} == {n};
  }

  lemma {:induction false} DropMakesRoom(t: Tables, b: int, victim: int, n: int)
    requires RandomOk(t) && AddrOk(t) && 0 <= b < |t.news| && victim in t.news[b] && victim in t.info
    requires n != victim && n in t.info && |t.news[b]| == NEW_BUCKET_SIZE
    ensures CanDrop(t, b, victim)
    ensures var d := Dropped(t, b, victim);
            && n in d.info && SameEntry(t.info[n], d.info[n]) && |d.news| == |t.news|
            && Holders(d.news, n) == Holders(t.news, n) && |d.news[b]| < NEW_BUCKET_SIZE
            && (n !in t.news[b] ==> n !in d.news[b])
  {
  }

  /** Giving a reference keeps the invariant, whether or not a victim had to make room. */
  lemma {:induction false} PlacementKeepsValid(t: Tables, h: Hashing, busy: set<int>, b: int, n: int,
                                               victim: Option<int>)
    requires ValidExcept(t, h, busy) && busy <= {n} && n in t.info && !t.info[n].fInTried
    requires 0 <= b < NEW_BUCKET_COUNT && n !in t.news[b]
    requires t.info[n].nRefCount == |Holders(t.news, n)| < NEW_BUCKETS_PER_ADDRESS
    requires victim.Some? <==> |t.news[b]| == NEW_BUCKET_SIZE
    requires victim.Some? ==> victim.value in t.news[b]
    ensures Valid(Placed(t, b, n, victim), h)
  {
    var counted := WithRefs(t, n, t.info[n].nRefCount + 1);
    CountingKeepsValid(t, h, busy, n);
    if victim.Some? {
      DropKeepsValid(counted, h, {n}, b, victim.value);
      DropMakesRoom(counted, b, victim.value, n);
    }
    var d := AfterDrop(counted, b, victim);
    PlaceKeepsValid(d, h, n, b);
    assert Placed(t, b, n, victim) == With(d, b, n);
  }

  /** Iteration over a std::set: ascending, each element once. */
  method Ascending(s: set<int>) returns (r: seq<int>)
    ensures forall i, j :: 0 <= i < j < |r| ==> r[i] < r[j]
    ensures forall x :: x in r <==> x in s
    ensures |r| == |s|
  {
    r := [];
    var todo := s;
    while todo != {}
      invariant todo <= s && |r| + |todo| == |s|
      invariant forall x :: x in r <==> x in s && x !in todo
      invariant forall i, j :: 0 <= i < j < |r| ==> r[i] < r[j]
      invariant forall i, x :: 0 <= i < |r| && x in todo ==> r[i] < x
      decreases |todo|
    {
      var m := Least(todo);
      r := r + [m];
      todo := todo - {m};
    }
  }

  method Least(s: set<int>) returns (m: int)
    requires s != {}
    ensures m in s && forall x :: x in s ==> m <= x
  {
    ghost var some := AnElement(s);
    m :| m in s;
    var todo := s - {m};
    while todo != {}
      invariant todo <= s && m in s
      invariant forall x :: x in s && x !in todo ==> m <= x
      decreases |todo|
    {
      some := AnElement(todo);
      var x :| x in todo;
      todo := todo - {x};
      if x < m { m := x; }
    }
  }
}
