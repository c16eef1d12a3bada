/** The self-test of CAddrMan: what Check_ accepts, and how that compares with the invariant. */
module AddressCheck {
  import opened Basics
  import opened AddressTables

  // ----- What the self-test demands

  ghost predicate EntryPasses(t: Tables, n: int)
    requires n in t.info
  {
    var e := t.info[n];
    && (if e.fInTried then e.nLastSuccess != 0 && e.nRefCount == 0 else 1 <= e.nRefCount <= NEW_BUCKETS_PER_ADDRESS)
    && (if e.Ip() in t.addr then t.addr[e.Ip()] else 0) == n
    && 0 <= e.nRandomPos < |t.random| && t.random[e.nRandomPos] == n
    && e.nLastTry >= 0 && e.nLastSuccess >= 0
  }

  function Flatten(buckets: seq<seq<int>>): seq<int> {
    if buckets == [] then [] else Flatten(buckets[..|buckets| - 1]) + buckets[|buckets| - 1]
  }

  /** The tried buckets list every id of the set once, and nothing else. */
  ghost predicate ListsOnce(buckets: seq<seq<int>>, ids: set<int>) {
    Distinct(Flatten(buckets)) && Elements(Flatten(buckets)) == ids
  }

  /** The new buckets hold only counted ids, each in as many buckets as counted. */
  ghost predicate HeldAsCounted(news: seq<set<int>>, refs: map<int, int>) {
    && (forall b, n :: 0 <= b < |news| && n in news[b] ==> n in refs)
    && forall n :: n in refs ==> |Holders(news, n)| == refs[n]
  }

  function RefCounts(info: map<int, AddrInfo>): map<int, int> {
    map n | n in info && !info[n].fInTried :: info[n].nRefCount
  }

  ghost predicate Passes(t: Tables) {
    && |t.random| == t.nTried + t.nNew
    && (forall n :: n in t.info ==> EntryPasses(t, n))
    && |TriedIds(t.info)| == t.nTried && |NewIds(t.info)| == t.nNew
    && ListsOnce(t.tried, TriedIds(t.info))
    && HeldAsCounted(t.news, RefCounts(t.info))
  }

  // ----- The code

  /** Check_. */
  method Check(t: Tables) returns (code: int)
    ensures code == 0 <==> Passes(t)
  {
    hide TriedIds, NewIds, RefCounts, ListsOnce, HeldAsCounted, EntryPasses;
    if |t.random| != t.nTried + t.nNew {
      return -7;
    }
    var setTried, mapNew;
    code, setTried, mapNew := CheckEntries(t);
    if code != 0 {
      return code;
    }
    CountedAreNew(t.info);
    if |setTried| != t.nTried {
      return -9;
    }
    if |mapNew| != t.nNew {
      return -10;
    }
    var triedOk := EraseTried(t.tried, setTried);
    if triedOk == None {
      return -11;
    }
    var newOk := EraseNew(t.news, mapNew);
    if newOk == None {
      return -12;
    }
    if triedOk.value != {} {
      return -13;
    }
    if newOk.value != map[] {
      return -15;
    }
    return 0;
  }

  lemma {:induction false} CountedAreNew(info: map<int, AddrInfo>)
    ensures |RefCounts(info)| == |NewIds(info)|
  {
  }

  /** The loop over mapInfo. */
  method CheckEntries(t: Tables) returns (code: int, setTried: set<int>, mapNew: map<int, int>)
    ensures code == 0 <==> forall n :: n in t.info ==> EntryPasses(t, n)
    ensures code == 0 ==> setTried == TriedIds(t.info) && mapNew == RefCounts(t.info)
    ensures code == 0 ==> forall n :: n in mapNew ==> mapNew[n] >= 1
  {
    setTried, mapNew := {}, map[];
    var todo := t.info.Keys;
    while todo != {}
      invariant todo <= t.info.Keys
      invariant forall n :: n in t.info && n !in todo ==> EntryPasses(t, n)
      invariant forall n :: n in setTried <==> n in t.info && n !in todo && t.info[n].fInTried
      invariant forall n :: n in mapNew <==> n in t.info && n !in todo && !t.info[n].fInTried
      invariant forall n :: n in mapNew ==> mapNew[n] == t.info[n].nRefCount >= 1
      decreases |todo|
    {
      ghost var some := AnElement(todo);
      var n :| n in todo;
      var info := t.info[n];
      code := CheckEntry(t, n);
      if code != 0 {
        return;
      }
      if info.fInTried {
        setTried := setTried + {n};
      } else {
        mapNew := mapNew[n := info.nRefCount];
      }
      todo := todo - {n};
    }
    forall n ensures n in setTried <==> n in TriedIds(t.info) {
    }
    forall n ensures n in mapNew <==> n in RefCounts(t.info) {
    }
    forall n | n in mapNew ensures mapNew[n] == RefCounts(t.info)[n] {
    }
    assert mapNew == RefCounts(t.info);
    code := 0;
  }

  /** One entry; mapAddr[info] is 0 where the address is missing. */
  method CheckEntry(t: Tables, n: int) returns (code: int)
    requires n in t.info
    ensures code == 0 <==> EntryPasses(t, n)
  {
    var info := t.info[n];
    if info.fInTried {
      if info.nLastSuccess == 0 { return -1; }
      if info.nRefCount != 0 { return -2; }
    } else {
      if info.nRefCount < 0 || info.nRefCount > NEW_BUCKETS_PER_ADDRESS { return -3; }
      if info.nRefCount == 0 { return -4; }
    }
    if (if info.Ip() in t.addr then t.addr[info.Ip()] else 0) != n { return -5; }
    if info.nRandomPos < 0 || info.nRandomPos >= |t.random| || t.random[info.nRandomPos] != n { return -14; }
    if info.nLastTry < 0 { return -6; }
    if info.nLastSuccess < 0 { return -8; }
    return 0;
  }

  /** Erases every id of the tried buckets; nothing when one is not there to erase. */
  method EraseTried(tried: seq<seq<int>>, setTried: set<int>) returns (left: Option<set<int>>)
    ensures left == Some({}) <==> ListsOnce(tried, setTried)
  {
    var rest := setTried;
    for b := 0 to |tried|
      invariant Erased(Flatten(tried[..b]), setTried, rest)
    {
      assert tried[..b + 1][..b] == tried[..b];
      ghost var before := Flatten(tried[..b]);
      assert tried[b][..0] == [] && before + [] == before;
      for i := 0 to |tried[b]|
        invariant Erased(before + tried[b][..i], setTried, rest)
      {
        EraseOne(before + tried[b][..i], setTried, rest, tried[b][i]);
        assert before + tried[b][..i + 1] == before + tried[b][..i] + [tried[b][i]];
        if tried[b][i] !in rest {
          BadPrefix(tried, b, i, setTried);
          return None;
        }
        rest := rest - {tried[b][i]};
      }
      assert tried[b][..|tried[b]|] == tried[b];
    }
    assert tried[..|tried|] == tried;
    assert setTried == rest + Elements(Flatten(tried));
    assert Elements(Flatten(tried)) == setTried ==> rest == {};
    return Some(rest);
  }

  ghost predicate Erased(ids: seq<int>, all: set<int>, rest: set<int>) {
    Distinct(ids) && Elements(ids) <= all && rest == all - Elements(ids)
  }

  lemma {:induction false} EraseOne(ids: seq<int>, all: set<int>, rest: set<int>, n: int)
    requires Erased(ids, all, rest)
    ensures n in rest ==> Erased(ids + [n], all, rest - {n})
    ensures n !in rest ==> !(Distinct(ids + [n]) && Elements(ids + [n]) <= all)
  {
    assert Elements(ids + [n]) == Elements(ids) + {n};
    if n in ids {
      var i :| 0 <= i < |ids| && ids[i] == n;
      assert (ids + [n])[i] == (ids + [n])[|ids|];
    }
  }

  lemma {:induction false} FlattenPrefix(buckets: seq<seq<int>>, b: nat)
    requires b <= |buckets|
    ensures |Flatten(buckets[..b])| <= |Flatten(buckets)| &&
            Flatten(buckets)[..|Flatten(buckets[..b])|] == Flatten(buckets[..b])
    decreases |buckets|
  {
    if b < |buckets| {
      var most := buckets[..|buckets| - 1];
      FlattenPrefix(most, b);
      assert most[..b] == buckets[..b];
      var n := |Flatten(buckets[..b])|;
      assert Flatten(buckets)[..n] == Flatten(most)[..n];
    } else {
      assert buckets[..b] == buckets;
      assert Flatten(buckets)[..|Flatten(buckets)|] == Flatten(buckets);
    }
  }

  lemma {:induction false} BadPrefix(tried: seq<seq<int>>, b: nat, i: nat, all: set<int>)
    requires b < |tried| && i < |tried[b]|
    requires var ids := Flatten(tried[..b]) + tried[b][..i] + [tried[b][i]]; !(Distinct(ids) && Elements(ids) <= all)
    ensures !ListsOnce(tried, all)
  {
    var ids := Flatten(tried[..b]) + tried[b][..i] + [tried[b][i]];
    FlattenPrefix(tried, b + 1);
    assert tried[..b + 1][..b] == tried[..b];
    var flat := Flatten(tried);
    var upTo := Flatten(tried[..b + 1]);
    assert upTo == Flatten(tried[..b]) + tried[b];
    assert ids == upTo[..|ids|];
    assert ids == flat[..|ids|];
  }

  // ----- The new buckets

  /** The buckets seen so far: all of those before b, and part of b. */
  ghost function Seen(news: seq<set<int>>, b: nat, part: set<int>): seq<set<int>> {
    seq(|news|, i requires 0 <= i < |news| => if i < b then news[i] else if i == b then part else {})
  }

  /** What is left of the counts once one has been taken off for each holder. */
  ghost predicate CountedDown(refs: map<int, int>, left: map<int, int>, seen: seq<set<int>>) {
    && (forall i, n :: 0 <= i < |seen| && n in seen[i] ==> n in refs)
    && (forall n :: n in left ==> n in refs)
    && forall n :: n in refs ==>
         |Holders(seen, n)| == refs[n] - (if n in left then left[n] else 0) && (n in left ==> left[n] >= 1)
  }

  /** Takes one off the count of an id for each bucket that holds it; nothing when there is none left to take. */
  method EraseNew(news: seq<set<int>>, mapNew: map<int, int>) returns (left: Option<map<int, int>>)
    requires forall n :: n in mapNew ==> mapNew[n] >= 1
    ensures left == Some(map[]) <==> HeldAsCounted(news, mapNew)
  {
    hide HeldAsCounted, CountedDown, Holders, Seen;
    var rest := mapNew;
    NothingSeen(news, mapNew);
    for b := 0 to |news|
      invariant CountedDown(mapNew, rest, Seen(news, b, {}))
    {
      var todo := news[b];
      assert news[b] - todo == {};
      while todo != {}
        invariant todo <= news[b]
        invariant CountedDown(mapNew, rest, Seen(news, b, news[b] - todo))
        decreases |todo|
      {
        ghost var some := AnElement(todo);
        var n :| n in todo;
        CountOne(news, mapNew, rest, b, news[b] - todo, n);
        if n !in rest {
          return None;
        }
        rest := if rest[n] - 1 == 0 then rest - {n} else rest[n := rest[n] - 1];
        assert news[b] - todo + {n} == news[b] - (todo - {n});
        todo := todo - {n};
      }
      assert news[b] - todo == news[b];
      BucketSeen(news, b);
    }
    AllSeen(news, mapNew, rest);
    return Some(rest);
  }

  lemma {:induction false} NothingSeen(news: seq<set<int>>, refs: map<int, int>)
    requires forall n :: n in refs ==> refs[n] >= 1
    ensures CountedDown(refs, refs, Seen(news, 0, {}))
  {
  }

  lemma {:induction false} BucketSeen(news: seq<set<int>>, b: nat)
    requires b < |news|
    ensures Seen(news, b, news[b]) == Seen(news, b + 1, {})
  {
  }

  lemma {:induction false} CountOne(news: seq<set<int>>, refs: map<int, int>, left: map<int, int>, b: nat,
                                    part: set<int>, n: int)
    requires b < |news| && part <= news[b] && n in news[b] && n !in part
    requires CountedDown(refs, left, Seen(news, b, part))
    ensures n in left ==>
              CountedDown(refs, if left[n] - 1 == 0 then left - {n} else left[n := left[n] - 1],
                          Seen(news, b, part + {n}))
    ensures n !in left ==> !HeldAsCounted(news, refs)
  {
    var before, after := Seen(news, b, part), Seen(news, b, part + {n});
    hide Seen;
    MoreHolders(news, b, part, n);
    if n !in left {
      if n in refs {
        SubsetSize(Holders(before, n) + {b}, Holders(news, n));
      }
    }
  }

  lemma {:induction false} MoreHolders(news: seq<set<int>>, b: nat, part: set<int>, n: int)
    requires b < |news| && part <= news[b] && n in news[b] && n !in part
    ensures var before, after := Seen(news, b, part), Seen(news, b, part + {n});
            && b !in Holders(before, n) && Holders(after, n) == Holders(before, n) + {b}
            && (forall m :: m != n ==> Holders(after, m) == Holders(before, m))
            && Holders(before, n) + {b} <= Holders(news, n)
            && (forall i, m :: 0 <= i < |after| && m in after[i] ==> m == n || m in before[i])
            && |after| == |before|
  {
  }

  lemma {:induction false} AllSeen(news: seq<set<int>>, refs: map<int, int>, left: map<int, int>)
    requires CountedDown(refs, left, Seen(news, |news|, {}))
    ensures left == map[] <==> HeldAsCounted(news, refs)
  {
    assert Seen(news, |news|, {}) == news;
    if HeldAsCounted(news, refs) {
      forall n ensures n !in left {
      }
      assert left.Keys == {};
    }
  }

  // ----- Against the invariant

  /** What the invariant demands beyond the self-test: buckets within their sizes, ids below the next one, no
      stale address, and tried entries in the bucket they hash to. */
  ghost predicate BeyondCheck(t: Tables, h: Hashing) {
    && |t.tried| == TRIED_BUCKET_COUNT &&
         (forall b :: 0 <= b < TRIED_BUCKET_COUNT ==> |t.tried[b]| <= TRIED_BUCKET_SIZE)
    && |t.news| == NEW_BUCKET_COUNT && (forall b :: 0 <= b < NEW_BUCKET_COUNT ==> |t.news[b]| <= NEW_BUCKET_SIZE)
    && t.nIdCount >= 0 && (forall n :: n in t.info ==> 0 <= n < t.nIdCount && t.info[n].Ip() in t.addr)
    && (forall a :: a in t.addr ==> t.addr[a] in t.info && t.info[t.addr[a]].Ip() == a)
    && (forall i :: 0 <= i < |t.random| ==> t.random[i] in t.info && t.info[t.random[i]].nRandomPos == i)
    && (forall b, n :: 0 <= b < TRIED_BUCKET_COUNT && n in t.tried[b] ==>
        n in t.info && h.tried(t.info[n].address.service) == b)
  }

  lemma {:induction false} FlattenHolds(buckets: seq<seq<int>>, n: int)
    ensures n in Flatten(buckets) <==> exists b :: 0 <= b < |buckets| && n in buckets[b]
  {
    if buckets != [] {
      var last := |buckets| - 1;
      FlattenHolds(buckets[..last], n);
      if b :| 0 <= b < |buckets| && n in buckets[b] && b < last {
        assert n in buckets[..last][b];
      }
    }
  }

  /** Buckets without repetitions whose contents tell them apart have none between them either. */
  lemma {:induction false} FlattenDistinct(buckets: seq<seq<int>>, home: int -> int)
    requires forall b :: 0 <= b < |buckets| ==> Distinct(buckets[b])
    requires forall b, n :: 0 <= b < |buckets| && n in buckets[b] ==> home(n) == b
    ensures Distinct(Flatten(buckets))
  {
    if buckets != [] {
      var last := |buckets| - 1;
      var most := buckets[..last];
      FlattenDistinct(most, home);
      forall n | n in Flatten(most) ensures n !in buckets[last] {
        FlattenHolds(most, n);
        var b :| 0 <= b < |most| && n in most[b];
        assert n in buckets[b] && home(n) == b;
      }
      var flat := Flatten(buckets);
      forall j, k | 0 <= j < k < |flat| ensures flat[j] != flat[k] {
        if k >= |Flatten(most)| && j < |Flatten(most)| {
          assert Flatten(most)[j] in Flatten(most) && buckets[last][k - |Flatten(most)|] in buckets[last];
        }
      }
    }
  }

  lemma {:induction false} DistinctParts(buckets: seq<seq<int>>, b: nat)
    requires b < |buckets| && Distinct(Flatten(buckets))
    ensures Distinct(buckets[b])
    decreases |buckets|
  {
    var last := |buckets| - 1;
    var most, flat := buckets[..last], Flatten(buckets);
    if b == last {
      forall j, k | 0 <= j < k < |buckets[b]| ensures buckets[b][j] != buckets[b][k] {
        assert flat[|Flatten(most)| + j] != flat[|Flatten(most)| + k];
      }
    } else {
      forall j, k | 0 <= j < k < |Flatten(most)| ensures Flatten(most)[j] != Flatten(most)[k] {
        assert flat[j] != flat[k];
      }
      DistinctParts(most, b);
    }
  }

  /** The invariant is what the self-test accepts together with the conditions it leaves out. */
  lemma {:induction false} ValidIffPasses(t: Tables, h: Hashing)
    ensures Valid(t, h) <==> Passes(t) && BeyondCheck(t, h)
  {
    if Valid(t, h) {
      ValidPasses(t, h);
    }
    if Passes(t) && BeyondCheck(t, h) {
      PassesIsValid(t, h);
    }
  }

  lemma {:induction false} ValidPasses(t: Tables, h: Hashing)
    requires Valid(t, h)
    ensures Passes(t) && BeyondCheck(t, h)
  {
    hide Passes, BeyondCheck, ListsOnce, HeldAsCounted, RandomOk, AddrOk, TriedOk, BucketsOk, EntriesOk, CountsOk;
    ValidLists(t, h);
    ValidHeld(t);
    ValidEntries(t, h);
    ValidGoesBeyond(t, h);
    Assemble(t);
  }

  lemma {:induction false} Assemble(t: Tables)
    requires CountsOk(t) && ListsOnce(t.tried, TriedIds(t.info)) && HeldAsCounted(t.news, RefCounts(t.info))
    requires forall n :: n in t.info ==> EntryPasses(t, n)
    ensures Passes(t)
  {
  }

  lemma {:induction false} ValidEntries(t: Tables, h: Hashing)
    requires RandomOk(t) && AddrOk(t) && EntriesOk(t, {})
    ensures forall n :: n in t.info ==> EntryPasses(t, n)
  {
  }

  lemma {:induction false} ValidHeld(t: Tables)
    requires BucketsOk(t) && EntriesOk(t, {})
    ensures HeldAsCounted(t.news, RefCounts(t.info))
  {
  }

  lemma {:induction false} ValidLists(t: Tables, h: Hashing)
    requires TriedOk(t, h)
    ensures ListsOnce(t.tried, TriedIds(t.info))
  {
    var home := (n: int) => if n in t.info then h.tried(t.info[n].address.service) else 0;
    FlattenDistinct(t.tried, home);
    hide Flatten;
    forall n ensures n in Flatten(t.tried) <==> n in TriedIds(t.info) {
      FlattenHolds(t.tried, n);
    }
  }

  lemma {:induction false} ValidGoesBeyond(t: Tables, h: Hashing)
    requires Valid(t, h)
    ensures BeyondCheck(t, h)
  {
  }

  lemma {:induction false} PassesIsValid(t: Tables, h: Hashing)
    requires Passes(t) && BeyondCheck(t, h)
    ensures Valid(t, h)
  {
    hide ListsOnce, HeldAsCounted, EntryPasses, BeyondCheck, RandomOk, AddrOk, TriedOk, BucketsOk, EntriesOk;
    PassesRandom(t, h);
    PassesTried(t, h);
    PassesNews(t, h);
  }

  lemma {:induction false} PassesRandom(t: Tables, h: Hashing)
    requires BeyondCheck(t, h) && forall n :: n in t.info ==> EntryPasses(t, n)
    ensures RandomOk(t) && AddrOk(t) && t.nIdCount >= 0
  {
  }

  lemma {:induction false} PassesTried(t: Tables, h: Hashing)
    requires BeyondCheck(t, h) && ListsOnce(t.tried, TriedIds(t.info))
    ensures TriedOk(t, h)
  {
    hide Flatten;
    forall b | 0 <= b < TRIED_BUCKET_COUNT ensures Distinct(t.tried[b]) {
      DistinctParts(t.tried, b);
    }
    forall b, n | 0 <= b < TRIED_BUCKET_COUNT && n in t.tried[b]
      ensures n in t.info && t.info[n].fInTried && h.tried(t.info[n].address.service) == b
    {
      FlattenHolds(t.tried, n);
      assert n in TriedIds(t.info);
    }
    forall n | n in t.info && t.info[n].fInTried ensures n in t.tried[h.tried(t.info[n].address.service)] {
      assert n in TriedIds(t.info);
      FlattenHolds(t.tried, n);
    }
  }

  lemma {:induction false} PassesNews(t: Tables, h: Hashing)
    requires BeyondCheck(t, h) && HeldAsCounted(t.news, RefCounts(t.info)) &&
             forall n :: n in t.info ==> EntryPasses(t, n)
    ensures BucketsOk(t) && EntriesOk(t, {})
  {
    forall b, n | 0 <= b < NEW_BUCKET_COUNT && n in t.news[b] ensures n in t.info && !t.info[n].fInTried {
      assert n in RefCounts(t.info);
    }
    forall n | n in t.info ensures EntryOk(t, n) {
      assert EntryPasses(t, n);
      if t.info[n].fInTried {
        assert n !in RefCounts(t.info);
        assert Holders(t.news, n) == {};
      } else {
        assert n in RefCounts(t.info);
      }
    }
  }
}
