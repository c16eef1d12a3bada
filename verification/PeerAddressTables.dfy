/**
 * The six mutually redundant structures of CAddrMan as one value, the invariant its Check_ tests, and
 * the elementary changes the code makes to them.
 */
module AddressTables {
  import opened Basics

  const TRIED_BUCKET_COUNT := 64
  const TRIED_BUCKET_SIZE := 64
  const NEW_BUCKET_COUNT := 256
  const NEW_BUCKET_SIZE := 64
  const NEW_BUCKETS_PER_ADDRESS := 4
  const TRIED_ENTRIES_INSPECT_ON_EVICT := 4
  const HORIZON_DAYS := 30
  const RETRIES := 3
  const MAX_FAILURES := 10
  const MIN_FAIL_DAYS := 7
  const GETADDR_MAX_PCT := 23
  const GETADDR_MAX := 2500
  const DAY := 24 * 60 * 60
  const TWO_TO_32 := 0x1_0000_0000

  /** A CNetAddr: the 16 bytes of an address, read as a number. */
  type NetAddr = nat

  datatype Service = Service(ip: NetAddr, port: nat)

  /** CAddress; nServices is the set of its service bits. */
  datatype Address = Address(service: Service, nServices: set<nat>, nTime: int)

  datatype AddrInfo = AddrInfo(
    address: Address, source: NetAddr, nLastSuccess: int, nLastTry: int, nAttempts: int,
    nRefCount: int, fInTried: bool, nRandomPos: int)
  {
    function Ip(): NetAddr { address.service.ip }

    predicate IsTerrible(now: int) {
      if nLastTry != 0 && nLastTry >= now - 60 then false
      else
        || address.nTime > now + 10 * 60
        || address.nTime == 0 || now - address.nTime > HORIZON_DAYS * 86400
        || (nLastSuccess == 0 && nAttempts >= RETRIES)
        || (now - nLastSuccess > MIN_FAIL_DAYS * 86400 && nAttempts >= MAX_FAILURES)
    }
  }

  type TriedBucket = b: int | 0 <= b < TRIED_BUCKET_COUNT
  type NewBucket = b: int | 0 <= b < NEW_BUCKET_COUNT

  /** GetTriedBucket and GetNewBucket under one secret key: arbitrary functions into the buckets. */
  datatype Hashing = Hashing(tried: Service -> TriedBucket, newBucket: (Service, NetAddr) -> NewBucket)

  datatype Tables = Tables(
    info: map<int, AddrInfo>, addr: map<NetAddr, int>, random: seq<int>,
    tried: seq<seq<int>>, news: seq<set<int>>, nTried: int, nNew: int, nIdCount: int)

  // ----- The invariant

  ghost predicate RandomOk(t: Tables) {
    && (forall n :: n in t.info ==> 0 <= t.info[n].nRandomPos < |t.random| && t.random[t.info[n].nRandomPos] == n)
    && (forall i :: 0 <= i < |t.random| ==> t.random[i] in t.info && t.info[t.random[i]].nRandomPos == i)
  }

  ghost predicate AddrOk(t: Tables) {
    && (forall n :: n in t.info ==> t.info[n].Ip() in t.addr && t.addr[t.info[n].Ip()] == n)
    && (forall a :: a in t.addr ==> t.addr[a] in t.info && t.info[t.addr[a]].Ip() == a)
  }

  ghost predicate TriedOk(t: Tables, h: Hashing) {
    && |t.tried| == TRIED_BUCKET_COUNT
    && (forall b :: 0 <= b < TRIED_BUCKET_COUNT ==> |t.tried[b]| <= TRIED_BUCKET_SIZE && Distinct(t.tried[b]))
    && (forall b, n :: 0 <= b < TRIED_BUCKET_COUNT && n in t.tried[b] ==>
          n in t.info && t.info[n].fInTried && h.tried(t.info[n].address.service) == b)
    && (forall n :: n in t.info && t.info[n].fInTried ==> n in t.tried[h.tried(t.info[n].address.service)])
  }

  /** The new buckets that hold an id. */
  ghost function Holders(news: seq<set<int>>, n: int): set<int> {
    set b | 0 <= b < |news| && n in news[b]
  }

  ghost predicate BucketsOk(t: Tables) {
    && |t.news| == NEW_BUCKET_COUNT
    && (forall b :: 0 <= b < NEW_BUCKET_COUNT ==> |t.news[b]| <= NEW_BUCKET_SIZE)
    && (forall b, n :: 0 <= b < NEW_BUCKET_COUNT && n in t.news[b] ==> n in t.info && !t.info[n].fInTried)
  }

  /** What one entry must satisfy; the reference count is the number of new buckets holding it. */
  ghost predicate EntryOk(t: Tables, n: int)
    requires n in t.info
  {
    var e := t.info[n];
    && e.nRefCount == |Holders(t.news, n)|
    && (if e.fInTried then e.nLastSuccess != 0 && e.nRefCount == 0 else 1 <= e.nRefCount <= NEW_BUCKETS_PER_ADDRESS)
  }

  ghost predicate EntriesOk(t: Tables, busy: set<int>) {
    && (forall n :: n in t.info ==> 0 <= n < t.nIdCount && t.info[n].nLastTry >= 0 && t.info[n].nLastSuccess >= 0)
    && (forall n :: n in t.info && n !in busy ==> EntryOk(t, n))
  }

  ghost function TriedIds(info: map<int, AddrInfo>): set<int> {
    set n | n in info && info[n].fInTried
  }

  ghost function NewIds(info: map<int, AddrInfo>): set<int> {
    set n | n in info && !info[n].fInTried
  }

  ghost predicate CountsOk(t: Tables) {
    && t.nTried == |TriedIds(t.info)| && t.nNew == |NewIds(t.info)|
    && |t.random| == t.nTried + t.nNew
    && t.nIdCount >= 0
  }

  /** The invariant, with the ids in `busy` excused from their reference-count condition. */
  ghost predicate ValidExcept(t: Tables, h: Hashing, busy: set<int>) {
    RandomOk(t) && AddrOk(t) && TriedOk(t, h) && BucketsOk(t) && EntriesOk(t, busy) && CountsOk(t)
  }

  /** Everything Check_ tests, and that no bucket exceeds its size. */
  ghost predicate Valid(t: Tables, h: Hashing) {
    ValidExcept(t, h, {})
  }

  // ----- SwapRandom

  function Swapped(t: Tables, p: int, q: int): Tables
    requires 0 <= p < |t.random| && 0 <= q < |t.random| && t.random[p] in t.info && t.random[q] in t.info
  {
    if p == q then t
    else
      var n, m := t.random[p], t.random[q];
      var info := t.info[n := t.info[n].(nRandomPos := q)];
      t.(info := info[m := info[m].(nRandomPos := p)], random := t.random[p := m][q := n])
  }

  /** Two entries that differ at most in their random position. */
  predicate SameEntry(a: AddrInfo, b: AddrInfo) {
    a.(nRandomPos := b.nRandomPos) == b
  }

  predicate SameEntries(a: map<int, AddrInfo>, b: map<int, AddrInfo>) {
    a.Keys == b.Keys && forall n :: n in a ==> SameEntry(a[n], b[n])
  }

  lemma {:induction false} SwapKeepsRandom(t: Tables, p: int, q: int)
    requires RandomOk(t) && 0 <= p < |t.random| && 0 <= q < |t.random|
    ensures RandomOk(Swapped(t, p, q)) && SameEntries(t.info, Swapped(t, p, q).info)
    ensures |Swapped(t, p, q).random| == |t.random|
  {
    if p != q {
      var n, m, s := t.random[p], t.random[q], Swapped(t, p, q);
      assert n != m && s.info == t.info[n := t.info[n].(nRandomPos := q)][m := t.info[m].(nRandomPos := p)];
      forall i | 0 <= i < |s.random| ensures s.random[i] in s.info && s.info[s.random[i]].nRandomPos == i {
        assert t.info[t.random[i]].nRandomPos == i;
      }
    }
  }

  /** Nothing but RandomOk looks at positions. */
  lemma {:induction false} PositionsDoNotMatter(t: Tables, s: Tables, h: Hashing, busy: set<int>)
    requires ValidExcept(t, h, busy) && RandomOk(s) && SameEntries(t.info, s.info)
    requires s == t.(info := s.info, random := s.random) && |s.random| == |t.random|
    ensures ValidExcept(s, h, busy)
  {
    hide RandomOk, AddrOk, TriedOk, BucketsOk, EntriesOk, CountsOk, SameEntries, SameRoles;
    SameEntriesSameRoles(t.info, s.info);
    SameEntriesKeepAddr(t, s);
    SameRolesKeepTried(t, s, h);
    SameRolesKeepBuckets(t, s);
    SameEntriesKeepEntries(t, s, busy);
    SameRolesKeepCounts(t, s);
  }

  /** The same ids with the same services, in the same tables. */
  predicate SameRoles(a: map<int, AddrInfo>, b: map<int, AddrInfo>) {
    a.Keys == b.Keys &&
    forall n :: n in a ==> a[n].fInTried == b[n].fInTried && a[n].address.service == b[n].address.service
  }

  lemma {:induction false} SameEntriesSameRoles(a: map<int, AddrInfo>, b: map<int, AddrInfo>)
    requires SameEntries(a, b)
    ensures SameRoles(a, b)
  {
    forall n | n in a ensures SameEntry(a[n], b[n]) {
    }
  }

  lemma {:induction false} SameRolesKeepTried(t: Tables, s: Tables, h: Hashing)
    requires TriedOk(t, h) && SameRoles(t.info, s.info) && s.tried == t.tried
    ensures TriedOk(s, h)
  {
  }

  lemma {:induction false} SameRolesKeepBuckets(t: Tables, s: Tables)
    requires BucketsOk(t) && SameRoles(t.info, s.info) && s.news == t.news
    ensures BucketsOk(s)
  {
  }

  lemma {:induction false} SameEntriesKeepEntries(t: Tables, s: Tables, busy: set<int>)
    requires EntriesOk(t, busy) && SameEntries(t.info, s.info) && s.news == t.news && s.nIdCount == t.nIdCount
    ensures EntriesOk(s, busy)
  {
    hide Holders;
    forall n | n in s.info && n !in busy ensures EntryOk(s, n) {
      assert EntryOk(t, n);
    }
  }

  lemma {:induction false} SameRolesKeepCounts(t: Tables, s: Tables)
    requires CountsOk(t) && SameRoles(t.info, s.info) && |s.random| == |t.random|
    requires s.nTried == t.nTried && s.nNew == t.nNew && s.nIdCount == t.nIdCount
    ensures CountsOk(s)
  {
    forall n
      ensures (n in TriedIds(s.info) <==> n in TriedIds(t.info)) && (n in NewIds(s.info) <==> n in NewIds(t.info)) {
    }
    assert TriedIds(s.info) == TriedIds(t.info) && NewIds(s.info) == NewIds(t.info);
  }

  lemma {:induction false} SwapKeepsValid(t: Tables, h: Hashing, busy: set<int>, p: int, q: int)
    requires ValidExcept(t, h, busy) && 0 <= p < |t.random| && 0 <= q < |t.random|
    ensures ValidExcept(Swapped(t, p, q), h, busy)
  {
    SwapKeepsRandom(t, p, q);
    PositionsDoNotMatter(t, Swapped(t, p, q), h, busy);
  }

  // ----- Forgetting an entry, and dropping one reference to it

  /** The deletion inside ShrinkNew: swap to the end of vRandom, pop, erase from both maps. */
  function Deleted(t: Tables, n: int): Tables
    requires n in t.info && |t.random| > 0
    requires 0 <= t.info[n].nRandomPos < |t.random|
    requires t.random[t.info[n].nRandomPos] in t.info && t.random[|t.random| - 1] in t.info
  {
    var s := Swapped(t, t.info[n].nRandomPos, |t.random| - 1);
    s.(random := s.random[..|s.random| - 1], addr := s.addr - {t.info[n].Ip()}, info := s.info - {n},
       nNew := s.nNew - 1)
  }

  lemma {:induction false} PopKeepsRandom(s: Tables, d: Tables, n: int)
    requires RandomOk(s) && |s.random| > 0 && s.random[|s.random| - 1] == n
    requires d == s.(random := s.random[..|s.random| - 1], info := s.info - {n}, addr := d.addr, nNew := d.nNew)
    ensures RandomOk(d)
  {
  }

  lemma {:induction false} EraseKeepsAddr(s: Tables, d: Tables, n: int)
    requires AddrOk(s) && n in s.info
    requires d == s.(random := d.random, info := s.info - {n}, addr := s.addr - {s.info[n].Ip()}, nNew := d.nNew)
    ensures AddrOk(d)
  {
  }

  lemma {:induction false} SameEntriesKeepAddr(t: Tables, s: Tables)
    requires AddrOk(t) && SameEntries(t.info, s.info) && s.addr == t.addr
    ensures AddrOk(s)
  {
  }

  lemma {:induction false} DeletionKeepsIndices(t: Tables, n: int)
    requires RandomOk(t) && AddrOk(t) && n in t.info
    ensures var d := Deleted(t, n);
            && RandomOk(d) && AddrOk(d) && d.info.Keys == t.info.Keys - {n} && |d.random| == |t.random| - 1
            && forall m :: m in d.info ==> SameEntry(t.info[m], d.info[m])
  {
    SwappedToEnd(t, n);
    hide RandomOk, AddrOk, Swapped, SameEntry;
    var s := Swapped(t, t.info[n].nRandomPos, |t.random| - 1);
    PopKeepsRandom(s, Deleted(t, n), n);
    EraseKeepsAddr(s, Deleted(t, n), n);
  }

  /** The swap before the pop brings the id to the end of vRandom. */
  lemma {:induction false} SwappedToEnd(t: Tables, n: int)
    requires RandomOk(t) && AddrOk(t) && n in t.info
    ensures 0 <= t.info[n].nRandomPos < |t.random| && t.random[t.info[n].nRandomPos] == n &&
            t.random[|t.random| - 1] in t.info
    ensures var s := Swapped(t, t.info[n].nRandomPos, |t.random| - 1);
            && RandomOk(s) && AddrOk(s) && SameEntries(t.info, s.info) && |s.random| == |t.random|
            && s.random[|s.random| - 1] == n && s.info[n].Ip() == t.info[n].Ip()
  {
    var p, last := t.info[n].nRandomPos, |t.random| - 1;
    SwapKeepsRandom(t, p, last);
    SameEntriesKeepAddr(t, Swapped(t, p, last));
    hide RandomOk, AddrOk;
    assert SameEntry(t.info[n], Swapped(t, p, last).info[n]);
  }

  /** d is t without the new entry n, up to positions. */
  ghost predicate Lacks(t: Tables, d: Tables, n: int) {
    && n in t.info && !t.info[n].fInTried && Holders(t.news, n) == {}
    && d.info.Keys == t.info.Keys - {n} && d.tried == t.tried && d.news == t.news
    && forall m :: m in d.info ==> SameEntry(t.info[m], d.info[m])
  }

  lemma {:induction false} LacksKeepsTried(t: Tables, d: Tables, h: Hashing, n: int)
    requires TriedOk(t, h) && Lacks(t, d, n)
    ensures TriedOk(d, h)
  {
  }

  lemma {:induction false} LacksKeepsBuckets(t: Tables, d: Tables, n: int)
    requires BucketsOk(t) && Lacks(t, d, n)
    ensures BucketsOk(d)
  {
    forall b, m | 0 <= b < NEW_BUCKET_COUNT && m in d.news[b] ensures m in d.info && !d.info[m].fInTried {
      assert m == n ==> b in Holders(t.news, n);
      assert m in t.info;
    }
  }

  lemma {:induction false} LacksCounts(t: Tables, d: Tables, n: int)
    requires Lacks(t, d, n)
    ensures |TriedIds(d.info)| == |TriedIds(t.info)| && |NewIds(d.info)| == |NewIds(t.info)| - 1
  {
    LacksIds(t, d, n);
    assert n in NewIds(t.info);
  }

  lemma {:induction false} LacksIds(t: Tables, d: Tables, n: int)
    requires Lacks(t, d, n)
    ensures TriedIds(d.info) == TriedIds(t.info) && NewIds(d.info) == NewIds(t.info) - {n}
  {
  }

  /** Deleting an unreferenced new entry. */
  lemma {:induction false} DeletionKeepsValid(t: Tables, h: Hashing, busy: set<int>, n: int)
    requires ValidExcept(t, h, busy + {n}) && n !in busy && n in t.info && !t.info[n].fInTried
    requires Holders(t.news, n) == {}
    ensures ValidExcept(Deleted(t, n), h, busy)
  {
    var d := Deleted(t, n);
    DeletionKeepsIndices(t, n);
    LacksKeepsTried(t, d, h, n);
    LacksKeepsBuckets(t, d, n);
    LacksCounts(t, d, n);
    forall m | m in d.info && m !in busy ensures EntryOk(d, m) {
      assert EntryOk(t, m) && SameEntry(t.info[m], d.info[m]);
    }
  }

  function WithRefs(t: Tables, n: int, count: int): Tables
    requires n in t.info
  {
    t.(info := t.info[n := t.info[n].(nRefCount := count)])
  }

  /** Taking an id out of one new bucket, or putting it in. */
  function Without(t: Tables, b: int, n: int): Tables
    requires 0 <= b < |t.news|
  {
    t.(news := t.news[b := t.news[b] - {n}])
  }

  function With(t: Tables, b: int, n: int): Tables
    requires 0 <= b < |t.news|
  {
    t.(news := t.news[b := t.news[b] + {n}])
  }

  lemma {:induction false} HoldersWithout(t: Tables, b: int, n: int)
    requires 0 <= b < |t.news|
    ensures Holders(Without(t, b, n).news, n) == Holders(t.news, n) - {b}
    ensures forall m :: m != n ==> Holders(Without(t, b, n).news, m) == Holders(t.news, m)
  {
  }

  lemma {:induction false} HoldersWith(t: Tables, b: int, n: int)
    requires 0 <= b < |t.news|
    ensures Holders(With(t, b, n).news, n) == Holders(t.news, n) + {b}
    ensures forall m :: m != n ==> Holders(With(t, b, n).news, m) == Holders(t.news, m)
  {
  }

  /** Moving one id in or out of new buckets, and setting its count, disturbs only that id. */
  lemma {:induction false} BusyChange(t: Tables, s: Tables, h: Hashing, busy: set<int>, n: int)
    requires ValidExcept(t, h, busy) && n in t.info && !t.info[n].fInTried
    requires s == t.(info := s.info, news := s.news) && n in s.info
    requires s.info == t.info[n := t.info[n].(nRefCount := s.info[n].nRefCount)]
    requires BucketsOk(s) && forall m :: m != n ==> Holders(s.news, m) == Holders(t.news, m)
    ensures ValidExcept(s, h, busy + {n})
    ensures EntryOk(s, n) && n !in busy ==> ValidExcept(s, h, busy)
  {
    assert TriedIds(s.info) == TriedIds(t.info);
    assert NewIds(s.info) == NewIds(t.info);
    forall m | m in s.info && m !in busy && m != n ensures EntryOk(s, m) {
      assert EntryOk(t, m);
    }
    assert RandomOk(s) && AddrOk(s);
    assert TriedOk(s, h);
  }

  /** ShrinkNew's treatment of its victim. */
  function Dropped(t: Tables, b: int, n: int): Tables
    requires n in t.info && |t.random| > 0 && 0 <= b < |t.news|
    requires 0 <= t.info[n].nRandomPos < |t.random|
    requires t.random[t.info[n].nRandomPos] in t.info && t.random[|t.random| - 1] in t.info
  {
    var s := WithRefs(t, n, t.info[n].nRefCount - 1);
    Without(if s.info[n].nRefCount == 0 then Deleted(s, n) else s, b, n)
  }

  /** The same change with the bucket emptied first. */
  function Released(t: Tables, b: int, n: int): Tables
    requires n in t.info && 0 <= b < |t.news|
  {
    Without(WithRefs(t, n, t.info[n].nRefCount - 1), b, n)
  }

  lemma {:induction false} ReleaseKeepsValid(t: Tables, h: Hashing, busy: set<int>, b: int, n: int)
    requires ValidExcept(t, h, busy) && n !in busy && 0 <= b < NEW_BUCKET_COUNT && n in t.news[b]
    ensures var s := Released(t, b, n);
            && ValidExcept(s, h, busy + {n}) && s.info[n].nRefCount == |Holders(s.news, n)|
            && (s.info[n].nRefCount > 0 ==> ValidExcept(s, h, busy))
  {
    assert EntryOk(t, n);
    var s := Released(t, b, n);
    HoldersWithout(WithRefs(t, n, t.info[n].nRefCount - 1), b, n);
    assert b in Holders(t.news, n);
    forall c | 0 <= c < NEW_BUCKET_COUNT ensures |s.news[c]| <= NEW_BUCKET_SIZE {
      SubsetSize(s.news[c], t.news[c]);
    }
    BusyChange(t, s, h, busy, n);
  }

  lemma {:induction false} DropIsRelease(t: Tables, b: int, n: int)
    requires RandomOk(t) && n in t.info && 0 <= b < |t.news|
    ensures var s := Released(t, b, n);
            Dropped(t, b, n) == if s.info[n].nRefCount == 0 then Deleted(s, n) else s
  {
  }

  lemma {:induction false} DropKeepsValid(t: Tables, h: Hashing, busy: set<int>, b: int, n: int)
    requires ValidExcept(t, h, busy) && n !in busy && 0 <= b < NEW_BUCKET_COUNT && n in t.news[b]
    ensures ValidExcept(Dropped(t, b, n), h, busy)
  {
    ReleaseKeepsValid(t, h, busy, b, n);
    DropIsRelease(t, b, n);
    var s := Released(t, b, n);
    if s.info[n].nRefCount == 0 {
      assert Holders(s.news, n) == {};
      DeletionKeepsValid(s, h, busy, n);
    }
  }

  /** What a drop does: one bucket loses the id, its count falls by one, and it is forgotten when that was the last. */
  lemma {:induction false} DropEffect(t: Tables, b: int, n: int)
    requires RandomOk(t) && AddrOk(t) && n in t.info && 0 <= b < |t.news|
    ensures var d := Dropped(t, b, n);
            && d.news == t.news[b := t.news[b] - {n}] && d.tried == t.tried && d.nIdCount == t.nIdCount
            && (forall m :: m in t.info && m != n ==> m in d.info && SameEntry(t.info[m], d.info[m]))
            && d.info.Keys == (if t.info[n].nRefCount == 1 then t.info.Keys - {n} else t.info.Keys)
            && (n in d.info ==> d.info[n] == t.info[n].(nRefCount := t.info[n].nRefCount - 1))
  {
    DropIsRelease(t, b, n);
    if Released(t, b, n).info[n].nRefCount == 0 {
      ReleaseKeepsIndices(t, b, n);
      hide RandomOk, AddrOk;
      DeletionKeepsIndices(Released(t, b, n), n);
    }
  }

  lemma {:induction false} ReleaseKeepsIndices(t: Tables, b: int, n: int)
    requires RandomOk(t) && AddrOk(t) && n in t.info && 0 <= b < |t.news|
    ensures RandomOk(Released(t, b, n)) && AddrOk(Released(t, b, n))
  {
    hide RandomOk, AddrOk;
    SamePlacesKeepIndices(t, Released(t, b, n));
  }

  /** Entries at the same addresses and random positions. */
  predicate SamePlaces(a: map<int, AddrInfo>, b: map<int, AddrInfo>) {
    a.Keys == b.Keys && forall n :: n in a ==> a[n].Ip() == b[n].Ip() && a[n].nRandomPos == b[n].nRandomPos
  }

  lemma {:induction false} SamePlacesKeepIndices(t: Tables, s: Tables)
    requires RandomOk(t) && AddrOk(t) && SamePlaces(t.info, s.info) && s.random == t.random && s.addr == t.addr
    ensures RandomOk(s) && AddrOk(s)
  {
  }

  // ----- Registering a new address

  /** Create, the time penalty, and the counter. */
  function Registered(t: Tables, address: Address, source: NetAddr): Tables {
    var n := t.nIdCount;
    t.(nIdCount := n + 1, nNew := t.nNew + 1, addr := t.addr[address.service.ip := n], random := t.random + [n],
       info := t.info[n := AddrInfo(address, source, 0, 0, 0, 0, false, |t.random|)])
  }

  lemma {:induction false} RegisterKeepsIndices(t: Tables, address: Address, source: NetAddr)
    requires RandomOk(t) && AddrOk(t) && t.nIdCount !in t.info && address.service.ip !in t.addr
    ensures RandomOk(Registered(t, address, source)) && AddrOk(Registered(t, address, source))
  {
  }

  lemma {:induction false} RegisterCounts(t: Tables, address: Address, source: NetAddr)
    requires t.nIdCount !in t.info
    ensures |TriedIds(Registered(t, address, source).info)| == |TriedIds(t.info)|
    ensures |NewIds(Registered(t, address, source).info)| == |NewIds(t.info)| + 1
  {
    var s := Registered(t, address, source);
    assert TriedIds(s.info) == TriedIds(t.info);
    assert NewIds(s.info) == NewIds(t.info) + {t.nIdCount};
  }

  lemma {:induction false} RegisterKeepsTables(t: Tables, h: Hashing, address: Address, source: NetAddr)
    requires TriedOk(t, h) && BucketsOk(t) && t.nIdCount !in t.info
    ensures var s := Registered(t, address, source);
            TriedOk(s, h) && BucketsOk(s) && Holders(s.news, t.nIdCount) == {}
  {
  }

  lemma {:induction false} RegisterKeepsValid(t: Tables, h: Hashing, address: Address, source: NetAddr)
    requires Valid(t, h) && address.service.ip !in t.addr
    ensures var n := t.nIdCount;
            var s := Registered(t, address, source);
            ValidExcept(s, h, {n}) && n in s.info && Holders(s.news, n) == {}
  {
    var n := t.nIdCount;
    var s := Registered(t, address, source);
    assert n !in t.info;
    RegisterKeepsIndices(t, address, source);
    RegisterCounts(t, address, source);
    RegisterKeepsTables(t, h, address, source);
    forall m | m in s.info && m != n ensures EntryOk(s, m) {
      assert EntryOk(t, m);
    }
  }

  /** The id in flux gets its reference. */
  lemma {:induction false} PlaceKeepsValid(t: Tables, h: Hashing, n: int, b: int)
    requires ValidExcept(t, h, {n}) && n in t.info && !t.info[n].fInTried
    requires 0 <= b < NEW_BUCKET_COUNT && n !in t.news[b] && |t.news[b]| < NEW_BUCKET_SIZE
    requires t.info[n].nRefCount == |Holders(t.news, n)| + 1 && t.info[n].nRefCount <= NEW_BUCKETS_PER_ADDRESS
    ensures Valid(With(t, b, n), h)
  {
    var s := With(t, b, n);
    HoldersWith(t, b, n);
    assert b !in Holders(t.news, n);
    assert s.info == t.info[n := t.info[n].(nRefCount := s.info[n].nRefCount)];
    assert BucketsOk(s);
    BusyChange(t, s, h, {n}, n);
    assert EntryOk(s, n);
    assert {n} + {n} == {n};
    assert Valid(s, h) by {
      forall m | m in s.info ensures EntryOk(s, m) {
      }
    }
  }

  // ----- Moving an entry to the tried tables

  /** The id taken out of every new bucket. */
  function Unreferenced(t: Tables, n: int): Tables
    requires n in t.info
  {
    t.(news := seq(|t.news|, b requires 0 <= b < |t.news| => t.news[b] - {n}),
       info := t.info[n := t.info[n].(nRefCount := 0)])
  }

  lemma {:induction false} UnreferenceKeepsValid(t: Tables, h: Hashing, n: int)
    requires Valid(t, h) && n in t.info && !t.info[n].fInTried
    ensures ValidExcept(Unreferenced(t, n), h, {n}) && Holders(Unreferenced(t, n).news, n) == {}
  {
    var s := Unreferenced(t, n);
    forall m | m != n ensures Holders(s.news, m) == Holders(t.news, m) {
    }
    forall c | 0 <= c < NEW_BUCKET_COUNT ensures |s.news[c]| <= NEW_BUCKET_SIZE {
      SubsetSize(s.news[c], t.news[c]);
    }
    BusyChange(t, s, h, {}, n);
    assert {} + {n} == {n};
  }

  /** Appending the id to its tried bucket. */
  function Promoted(t: Tables, h: Hashing, n: int): Tables
    requires n in t.info && |t.tried| == TRIED_BUCKET_COUNT
  {
    var k := h.tried(t.info[n].address.service);
    t.(tried := t.tried[k := t.tried[k] + [n]], nTried := t.nTried + 1, nNew := t.nNew - 1,
       info := t.info[n := t.info[n].(fInTried := true)])
  }

  lemma {:induction false} PromoteKeepsTried(t: Tables, h: Hashing, n: int)
    requires TriedOk(t, h) && n in t.info && !t.info[n].fInTried
    requires |t.tried[h.tried(t.info[n].address.service)]| < TRIED_BUCKET_SIZE
    ensures TriedOk(Promoted(t, h, n), h)
  {
  }

  lemma {:induction false} PromoteCounts(t: Tables, h: Hashing, n: int)
    requires n in t.info && !t.info[n].fInTried && |t.tried| == TRIED_BUCKET_COUNT
    ensures |TriedIds(Promoted(t, h, n).info)| == |TriedIds(t.info)| + 1
    ensures |NewIds(Promoted(t, h, n).info)| == |NewIds(t.info)| - 1
  {
    var s := Promoted(t, h, n);
    assert TriedIds(s.info) == TriedIds(t.info) + {n};
    assert NewIds(t.info) == NewIds(s.info) + {n};
  }

  lemma {:induction false} PromoteKeepsValid(t: Tables, h: Hashing, n: int)
    requires ValidExcept(t, h, {n}) && n in t.info && !t.info[n].fInTried && Holders(t.news, n) == {}
    requires t.info[n].nRefCount == 0 && t.info[n].nLastSuccess != 0
    requires |t.tried[h.tried(t.info[n].address.service)]| < TRIED_BUCKET_SIZE
    ensures Valid(Promoted(t, h, n), h)
  {
    var s := Promoted(t, h, n);
    PromoteKeepsTried(t, h, n);
    PromoteCounts(t, h, n);
    forall m | m in s.info ensures EntryOk(s, m) {
      assert m != n ==> EntryOk(t, m);
    }
    forall b, m | 0 <= b < NEW_BUCKET_COUNT && m in s.news[b] ensures m in s.info && !s.info[m].fInTried {
      assert m == n ==> b in Holders(t.news, n);
    }
    assert RandomOk(s) && AddrOk(s);
  }

  /** Putting the id in place of the tried entry at `pos`, which goes back to the new bucket `b`. */
  function Exchanged(t: Tables, h: Hashing, n: int, pos: int, b: int): Tables
    requires n in t.info && |t.tried| == TRIED_BUCKET_COUNT && 0 <= b < |t.news|
    requires var k := h.tried(t.info[n].address.service);
             0 <= pos < |t.tried[k]| && t.tried[k][pos] in t.info
  {
    var k := h.tried(t.info[n].address.service);
    var out := t.tried[k][pos];
    t.(tried := t.tried[k := t.tried[k][pos := n]], news := t.news[b := t.news[b] + {out}],
       info := t.info[out := t.info[out].(fInTried := false, nRefCount := 1)][n := t.info[n].(fInTried := true)])
  }

  ghost predicate CanExchange(t: Tables, h: Hashing, n: int, pos: int, b: int) {
    && TriedOk(t, h) && n in t.info && !t.info[n].fInTried && 0 <= b < |t.news|
    && 0 <= pos < |t.tried[h.tried(t.info[n].address.service)]|
  }

  lemma {:induction false} ExchangedOut(t: Tables, h: Hashing, n: int, pos: int, b: int)
    requires CanExchange(t, h, n, pos, b)
    ensures var k := h.tried(t.info[n].address.service);
            var out := t.tried[k][pos];
            out in t.info && t.info[out].fInTried && out != n && h.tried(t.info[out].address.service) == k &&
                n !in t.tried[k]
  {
  }

  lemma {:induction false} ExchangeFindsAll(t: Tables, h: Hashing, n: int, pos: int, b: int, m: int)
    requires CanExchange(t, h, n, pos, b)
    ensures t.tried[h.tried(t.info[n].address.service)][pos] in t.info
    ensures var s := Exchanged(t, h, n, pos, b);
            m in s.info && s.info[m].fInTried ==> m in s.tried[h.tried(s.info[m].address.service)]
  {
    ExchangedOut(t, h, n, pos, b);
    var k := h.tried(t.info[n].address.service);
    var s := Exchanged(t, h, n, pos, b);
    assert s.tried[k][pos] == n;
    if m in s.info && s.info[m].fInTried && m != n {
      var c := h.tried(t.info[m].address.service);
      assert m in t.tried[c];
      if c == k {
        var i :| 0 <= i < |t.tried[k]| && t.tried[k][i] == m;
        assert s.tried[k][i] == m;
      }
    }
  }

  lemma {:induction false} ExchangeHoldsOnly(t: Tables, h: Hashing, n: int, pos: int, b: int, c: int, m: int)
    requires CanExchange(t, h, n, pos, b) && 0 <= c < TRIED_BUCKET_COUNT
    ensures t.tried[h.tried(t.info[n].address.service)][pos] in t.info
    ensures var s := Exchanged(t, h, n, pos, b);
            m in s.tried[c] ==> m in s.info && s.info[m].fInTried && h.tried(s.info[m].address.service) == c
  {
    ExchangedOut(t, h, n, pos, b);
  }

  lemma {:induction false} ExchangeKeepsTried(t: Tables, h: Hashing, n: int, pos: int, b: int)
    requires CanExchange(t, h, n, pos, b)
    ensures var k := h.tried(t.info[n].address.service);
            t.tried[k][pos] in t.info && t.info[t.tried[k][pos]].fInTried && TriedOk(Exchanged(t, h, n, pos, b), h)
  {
    ExchangedOut(t, h, n, pos, b);
    var s := Exchanged(t, h, n, pos, b);
    forall m ensures m in s.info && s.info[m].fInTried ==> m in s.tried[h.tried(s.info[m].address.service)] {
      ExchangeFindsAll(t, h, n, pos, b, m);
    }
    forall c, m | 0 <= c < TRIED_BUCKET_COUNT && m in s.tried[c]
      ensures m in s.info && s.info[m].fInTried && h.tried(s.info[m].address.service) == c
    {
      ExchangeHoldsOnly(t, h, n, pos, b, c, m);
    }
  }

  lemma {:induction false} ExchangeKeepsNew(t: Tables, h: Hashing, n: int, pos: int, b: int)
    requires ValidExcept(t, h, {n}) && n in t.info && !t.info[n].fInTried && Holders(t.news, n) == {}
    requires t.info[n].nRefCount == 0 && t.info[n].nLastSuccess != 0
    requires 0 <= pos < |t.tried[h.tried(t.info[n].address.service)]|
    requires t.tried[h.tried(t.info[n].address.service)][pos] in t.info
    requires t.info[t.tried[h.tried(t.info[n].address.service)][pos]].fInTried
    requires 0 <= b < NEW_BUCKET_COUNT && |t.news[b]| < NEW_BUCKET_SIZE
    ensures BucketsOk(Exchanged(t, h, n, pos, b)) && EntriesOk(Exchanged(t, h, n, pos, b), {})
  {
    hide RandomOk, AddrOk, CountsOk, EntriesOk, EntryOk, Holders;
    ExchangeKeepsBuckets(t, h, n, pos, b);
    ExchangeHolders(t, h, n, pos, b);
    ExchangeKeepsEntries(t, Exchanged(t, h, n, pos, b), n, t.tried[h.tried(t.info[n].address.service)][pos]);
  }

  lemma {:induction false} ExchangeHolders(t: Tables, h: Hashing, n: int, pos: int, b: int)
    requires n in t.info && |t.tried| == TRIED_BUCKET_COUNT && 0 <= b < |t.news|
    requires 0 <= pos < |t.tried[h.tried(t.info[n].address.service)]|
    requires t.tried[h.tried(t.info[n].address.service)][pos] in t.info
    ensures var out := t.tried[h.tried(t.info[n].address.service)][pos];
            var s := Exchanged(t, h, n, pos, b);
            Holders(s.news, out) == Holders(t.news, out) + {b} &&
                forall m :: m != out ==> Holders(s.news, m) == Holders(t.news, m)
  {
    var out := t.tried[h.tried(t.info[n].address.service)][pos];
    assert Exchanged(t, h, n, pos, b).news == With(t, b, out).news;
    HoldersWith(t, b, out);
  }

  lemma {:induction false} ExchangeKeepsEntries(t: Tables, s: Tables, n: int, out: int)
    requires EntriesOk(t, {n}) && n in t.info && out in t.info && n != out && t.info[out].fInTried
    requires t.info[n].nRefCount == 0 && t.info[n].nLastSuccess != 0 && Holders(t.news, n) == {}
    requires s.info == t.info[out := t.info[out].(fInTried := false, nRefCount := 1)][n := t.info[n].(fInTried := true)]
    requires s.nIdCount == t.nIdCount
    requires exists b :: Holders(s.news, out) == Holders(t.news, out) + {b}
    requires forall m :: m != out ==> Holders(s.news, m) == Holders(t.news, m)
    ensures EntriesOk(s, {})
  {
    hide Holders;
    assert EntryOk(t, out);
    forall m | m in s.info ensures EntryOk(s, m) {
      assert m != n && m != out ==> EntryOk(t, m);
    }
  }

  lemma {:induction false} ExchangeKeepsBuckets(t: Tables, h: Hashing, n: int, pos: int, b: int)
    requires ValidExcept(t, h, {n}) && n in t.info && !t.info[n].fInTried && Holders(t.news, n) == {}
    requires t.info[n].nRefCount == 0 && t.info[n].nLastSuccess != 0
    requires 0 <= pos < |t.tried[h.tried(t.info[n].address.service)]|
    requires t.tried[h.tried(t.info[n].address.service)][pos] in t.info
    requires t.info[t.tried[h.tried(t.info[n].address.service)][pos]].fInTried
    requires 0 <= b < NEW_BUCKET_COUNT && |t.news[b]| < NEW_BUCKET_SIZE
    ensures BucketsOk(Exchanged(t, h, n, pos, b))
  {
    hide RandomOk, AddrOk, CountsOk, EntriesOk;
    var s := Exchanged(t, h, n, pos, b);
    forall c, m | 0 <= c < NEW_BUCKET_COUNT && m in s.news[c] ensures m in s.info && !s.info[m].fInTried {
      assert m == n ==> c in Holders(t.news, n);
    }
  }

  lemma {:induction false} ExchangeCounts(t: Tables, h: Hashing, n: int, pos: int, b: int)
    requires n in t.info && |t.tried| == TRIED_BUCKET_COUNT && 0 <= b < |t.news| && !t.info[n].fInTried
    requires 0 <= pos < |t.tried[h.tried(t.info[n].address.service)]|
    requires t.tried[h.tried(t.info[n].address.service)][pos] in t.info
    requires t.info[t.tried[h.tried(t.info[n].address.service)][pos]].fInTried
    ensures |TriedIds(Exchanged(t, h, n, pos, b).info)| == |TriedIds(t.info)|
    ensures |NewIds(Exchanged(t, h, n, pos, b).info)| == |NewIds(t.info)|
  {
    var out := t.tried[h.tried(t.info[n].address.service)][pos];
    var s := Exchanged(t, h, n, pos, b);
    assert TriedIds(s.info) == TriedIds(t.info) - {out} + {n};
    assert NewIds(s.info) == NewIds(t.info) - {n} + {out};
  }

  lemma {:induction false} ExchangeKeepsValid(t: Tables, h: Hashing, n: int, pos: int, b: int)
    requires ValidExcept(t, h, {n}) && n in t.info && !t.info[n].fInTried && Holders(t.news, n) == {}
    requires t.info[n].nRefCount == 0 && t.info[n].nLastSuccess != 0
    requires 0 <= pos < |t.tried[h.tried(t.info[n].address.service)]|
    requires 0 <= b < NEW_BUCKET_COUNT && |t.news[b]| < NEW_BUCKET_SIZE
    ensures t.tried[h.tried(t.info[n].address.service)][pos] in t.info
    ensures Valid(Exchanged(t, h, n, pos, b), h)
  {
    ExchangeKeepsTried(t, h, n, pos, b);
    ExchangeKeepsNew(t, h, n, pos, b);
    ExchangeCounts(t, h, n, pos, b);
    ExchangeKeepsIndices(t, h, n, pos, b);
  }

  lemma {:induction false} ExchangeKeepsIndices(t: Tables, h: Hashing, n: int, pos: int, b: int)
    requires RandomOk(t) && AddrOk(t) && n in t.info && 0 <= b < |t.news|
    requires |t.tried| == TRIED_BUCKET_COUNT && 0 <= pos < |t.tried[h.tried(t.info[n].address.service)]|
    requires t.tried[h.tried(t.info[n].address.service)][pos] in t.info
    ensures RandomOk(Exchanged(t, h, n, pos, b)) && AddrOk(Exchanged(t, h, n, pos, b))
  {
    hide RandomOk, AddrOk;
    SamePlacesKeepIndices(t, Exchanged(t, h, n, pos, b));
  }
}
