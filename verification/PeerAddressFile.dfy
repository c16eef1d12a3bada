/**
 * Saving and loading the address manager. The file is a record of the values the stream carries, in the
 * order of the stream; the byte framing of each value is not modelled.
 */
module AddressFile {
  import opened Basics
  import opened AddressTables
  import opened AddressManager

  /** The serialized part of an entry: reference count, tried flag, position and last try stay in memory. */
  datatype DiskEntry = DiskEntry(address: Address, source: NetAddr, nLastSuccess: int, nAttempts: int)

  datatype Saved = Saved(
    nNew: int, nTried: int, nUBuckets: int,
    newEntries: seq<DiskEntry>, triedEntries: seq<DiskEntry>, buckets: seq<seq<int>>)

  function ToDisk(e: AddrInfo): DiskEntry {
    DiskEntry(e.address, e.source, e.nLastSuccess, e.nAttempts)
  }

  function FromDisk(d: DiskEntry, nRefCount: int, fInTried: bool, nRandomPos: int): AddrInfo {
    AddrInfo(d.address, d.source, d.nLastSuccess, 0, d.nAttempts, nRefCount, fInTried, nRandomPos)
  }

  // ----- What Serialize writes

  ghost predicate Ascends(r: seq<int>) {
    forall i, j :: 0 <= i < j < |r| ==> r[i] < r[j]
  }

  ghost predicate ListsInOrder(r: seq<int>, s: set<int>) {
    Ascends(r) && |r| == |s| && forall x :: x in s <==> x in r
  }

  /** The file of a state: new ids, tried ids, and each new bucket as ascending indices into the new ids. */
  ghost predicate IsFileOf(t: Tables, newIds: seq<int>, triedIds: seq<int>, f: Saved) {
    && ListsInOrder(newIds, NewIds(t.info)) && ListsInOrder(triedIds, TriedIds(t.info))
    && f.nNew == |newIds| && f.nTried == |triedIds| && f.nUBuckets == NEW_BUCKET_COUNT
    && Written(t.info, newIds, f.newEntries) && Written(t.info, triedIds, f.triedEntries)
    && |f.buckets| == NEW_BUCKET_COUNT && |t.news| == NEW_BUCKET_COUNT
    && forall b :: 0 <= b < NEW_BUCKET_COUNT ==> BucketIsFileOf(t.news[b], newIds, f.buckets[b])
  }

  ghost predicate IsFile(t: Tables, f: Saved) {
    exists newIds, triedIds :: IsFileOf(t, newIds, triedIds, f)
  }

  ghost predicate Written(info: map<int, AddrInfo>, ids: seq<int>, entries: seq<DiskEntry>) {
    |entries| == |ids| && forall k :: 0 <= k < |ids| ==> ids[k] in info && entries[k] == ToDisk(info[ids[k]])
  }

  ghost predicate BucketIsFileOf(bucket: set<int>, newIds: seq<int>, indices: seq<int>) {
    && |indices| == |bucket| && Ascends(indices)
    && (forall j :: 0 <= j < |indices| ==> 0 <= indices[j] < |newIds| && newIds[indices[j]] in bucket)
    && (forall k :: 0 <= k < |newIds| && newIds[k] in bucket ==> k in indices)
  }

  /** Serialize. */
  method Serialize(am: AddrMan) returns (f: Saved, ghost newIds: seq<int>, ghost triedIds: seq<int>)
    requires Valid(am.State(), am.hashing)
    ensures IsFileOf(am.State(), newIds, triedIds, f)
    ensures IsFile(am.State(), f)
  {
    hide ValidExcept;
    FileFacts(am.State(), am.hashing);
    var ids := Ascending(am.mapInfo.Keys);
    var newEntries, triedEntries, mapUnkIds;
    newEntries, mapUnkIds, newIds := WriteNew(am, ids);
    triedEntries, triedIds := WriteTried(am, ids);
    var buckets := [];
    for b := 0 to |am.vvNew|
      invariant |buckets| == b
      invariant forall c :: 0 <= c < b ==> BucketIsFileOf(am.vvNew[c], newIds, buckets[c])
    {
      var indices := WriteBucket(am.vvNew[b], mapUnkIds, newIds);
      buckets := buckets + [indices];
    }
    f := Saved(am.nNew, am.nTried, NEW_BUCKET_COUNT, newEntries, triedEntries, buckets);
  }

  method WriteNew(am: AddrMan, ids: seq<int>)
      returns (entries: seq<DiskEntry>, mapUnkIds: map<int, int>, ghost newIds: seq<int>)
    requires Valid(am.State(), am.hashing) && ListsInOrder(ids, am.mapInfo.Keys)
    ensures |entries| == am.nNew
    ensures ListsInOrder(newIds, NewIds(am.mapInfo)) && |newIds| == am.nNew
    ensures Written(am.mapInfo, newIds, entries)
    ensures forall k :: 0 <= k < |newIds| ==> newIds[k] in mapUnkIds && mapUnkIds[newIds[k]] == k
  {
    hide ValidExcept, ListsInOrder, NewIds, Writing;
    Counted(am.State(), am.hashing);
    NothingWritten(am.mapInfo, ids, NewIds(am.mapInfo));
    entries, mapUnkIds, newIds := [], map[], [];
    var nIds := 0;
    var i := 0;
    while i < |ids|
      invariant 0 <= i <= |ids| && nIds == |entries| == |newIds|
      invariant Writing(am.mapInfo, ids, i, NewIds(am.mapInfo), newIds, entries)
      invariant forall k :: 0 <= k < |newIds| ==> newIds[k] in mapUnkIds && mapUnkIds[newIds[k]] == k
      invariant forall x :: x in mapUnkIds ==> x in ids[..i]
    {
      if nIds == am.nNew {
        break;
      }
      var id := ids[i];
      WriteOne(am.mapInfo, ids, i, NewIds(am.mapInfo), newIds, entries);
      NewIffReferenced(am.State(), am.hashing, id);
      mapUnkIds := mapUnkIds[id := nIds];
      if am.mapInfo[id].nRefCount != 0 {
        entries := entries + [ToDisk(am.mapInfo[id])];
        nIds := nIds + 1;
        newIds := newIds + [id];
      }
      i := i + 1;
    }
    AllWritten(am.mapInfo, ids, i, NewIds(am.mapInfo), newIds, entries);
  }

  method WriteTried(am: AddrMan, ids: seq<int>) returns (entries: seq<DiskEntry>, ghost triedIds: seq<int>)
    requires Valid(am.State(), am.hashing) && ListsInOrder(ids, am.mapInfo.Keys)
    ensures |entries| == am.nTried
    ensures ListsInOrder(triedIds, TriedIds(am.mapInfo)) && |triedIds| == am.nTried
    ensures Written(am.mapInfo, triedIds, entries)
  {
    hide ValidExcept, ListsInOrder, TriedIds, Writing;
    Counted(am.State(), am.hashing);
    NothingWritten(am.mapInfo, ids, TriedIds(am.mapInfo));
    entries, triedIds := [], [];
    var nIds := 0;
    var i := 0;
    while i < |ids|
      invariant 0 <= i <= |ids| && nIds == |entries| == |triedIds|
      invariant Writing(am.mapInfo, ids, i, TriedIds(am.mapInfo), triedIds, entries)
    {
      if nIds == am.nTried {
        break;
      }
      var id := ids[i];
      WriteOne(am.mapInfo, ids, i, TriedIds(am.mapInfo), triedIds, entries);
      NewIffReferenced(am.State(), am.hashing, id);
      if am.mapInfo[id].fInTried {
        entries := entries + [ToDisk(am.mapInfo[id])];
        nIds := nIds + 1;
        triedIds := triedIds + [id];
      }
      i := i + 1;
    }
    AllWritten(am.mapInfo, ids, i, TriedIds(am.mapInfo), triedIds, entries);
  }

  method WriteBucket(bucket: set<int>, mapUnkIds: map<int, int>, ghost newIds: seq<int>) returns (indices: seq<int>)
    requires Ascends(newIds) && forall n :: n in bucket ==> n in newIds
    requires forall k :: 0 <= k < |newIds| ==> newIds[k] in mapUnkIds && mapUnkIds[newIds[k]] == k
    ensures BucketIsFileOf(bucket, newIds, indices)
  {
    var ids := Ascending(bucket);
    indices := [];
    for j := 0 to |ids|
      invariant |indices| == j
      invariant forall i :: 0 <= i < j ==> 0 <= indices[i] < |newIds| && newIds[indices[i]] == ids[i]
    {
      assert ids[j] in ids;
      ghost var k :| 0 <= k < |newIds| && newIds[k] == ids[j];
      indices := indices + [mapUnkIds[ids[j]]];
    }
    forall k | 0 <= k < |newIds| && newIds[k] in bucket ensures k in indices {
      assert newIds[k] in ids;
      var j :| 0 <= j < |ids| && ids[j] == newIds[k];
      assert indices[j] == k;
    }
    forall j | 0 <= j < |indices| ensures newIds[indices[j]] in bucket {
      assert ids[j] in ids;
    }
    forall i, j | 0 <= i < j < |indices| ensures indices[i] < indices[j] {
      assert newIds[indices[i]] < newIds[indices[j]];
    }
  }

  lemma {:induction false} FileFacts(t: Tables, h: Hashing)
    requires Valid(t, h)
    ensures |t.news| == NEW_BUCKET_COUNT
    ensures forall b, n :: 0 <= b < NEW_BUCKET_COUNT && n in t.news[b] ==> n in NewIds(t.info)
  {
  }

  lemma {:induction false} AppendAscends(r: seq<int>, x: int)
    requires Ascends(r) && forall y :: y in r ==> y < x
    ensures Ascends(r + [x])
  {
    forall i | 0 <= i < |r| ensures r[i] < x {
      assert r[i] in r;
    }
  }

  lemma {:induction false} IdAtIndex(ids: seq<int>, i: nat)
    requires i < |ids| && Ascends(ids)
    ensures ids[i] in ids && ids[i] !in ids[..i] && ids[..i + 1] == ids[..i] + [ids[i]]
    ensures forall x :: x in ids[..i] ==> x < ids[i]
  {
  }

  lemma {:induction false} AscendingSize(r: seq<int>, s: set<int>)
    requires Ascends(r) && forall x :: x in s <==> x in r
    ensures |r| == |s|
  {
    DistinctSize(r);
    assert Elements(r) == s;
  }

  /** Of the first i ids, those of the target have been listed and written. */
  ghost predicate Writing(info: map<int, AddrInfo>, ids: seq<int>, i: int, target: set<int>, listed: seq<int>,
                          entries: seq<DiskEntry>) {
    && 0 <= i <= |ids| && Ascends(listed) && (forall x :: x in listed <==> x in ids[..i] && x in target)
    && Written(info, listed, entries)
  }

  lemma {:induction false} Counted(t: Tables, h: Hashing)
    requires Valid(t, h)
    ensures t.nNew == |NewIds(t.info)| && t.nTried == |TriedIds(t.info)| && NewIds(t.info) <= t.info.Keys &&
            TriedIds(t.info) <= t.info.Keys
  {
  }

  lemma {:induction false} NewIffReferenced(t: Tables, h: Hashing, n: int)
    requires Valid(t, h) && n in t.info
    ensures t.info[n].nRefCount != 0 <==> n in NewIds(t.info)
    ensures t.info[n].fInTried <==> n in TriedIds(t.info)
  {
    assert EntryOk(t, n);
  }

  lemma {:induction false} NothingWritten(info: map<int, AddrInfo>, ids: seq<int>, target: set<int>)
    ensures Writing(info, ids, 0, target, [], [])
  {
  }

  lemma {:induction false} WriteOne(info: map<int, AddrInfo>, ids: seq<int>, i: int, target: set<int>, listed: seq<int>,
                                    entries: seq<DiskEntry>)
    requires ListsInOrder(ids, info.Keys) && 0 <= i < |ids| && Writing(info, ids, i, target, listed, entries)
    ensures ids[i] in info && ids[i] !in ids[..i] && ids[..i + 1] == ids[..i] + [ids[i]] &&
            forall x :: x in listed ==> x in ids[..i]
    ensures ids[i] in target ==> Writing(info, ids, i + 1, target, listed + [ids[i]], entries + [ToDisk(info[ids[i]])])
    ensures ids[i] !in target ==> Writing(info, ids, i + 1, target, listed, entries)
  {
    IdAtIndex(ids, i);
    AppendAscends(listed, ids[i]);
  }

  /** Writing stops at the end of the ids, or once as many are written as the target has. */
  lemma {:induction false} AllWritten(info: map<int, AddrInfo>, ids: seq<int>, i: int, target: set<int>,
                                      listed: seq<int>, entries: seq<DiskEntry>)
    requires ListsInOrder(ids, info.Keys) && target <= info.Keys && Writing(info, ids, i, target, listed, entries)
    requires i == |ids| || |listed| == |target|
    ensures ListsInOrder(listed, target) && Written(info, listed, entries) && |listed| == |target| == |entries|
  {
    if i == |ids| {
      assert ids[..i] == ids;
      AscendingSize(listed, target);
    }
    ListsByCount(listed, target);
  }

  lemma {:induction false} ListsByCount(r: seq<int>, s: set<int>)
    requires Ascends(r) && |r| == |s| && forall x :: x in r ==> x in s
    ensures ListsInOrder(r, s)
  {
    DistinctSize(r);
    SubsetSize(Elements(r), s);
  }

  // ----- What Unserialize builds

  function EntryAt(f: Saved, k: int): DiskEntry
    requires 0 <= k < |f.newEntries| + |f.triedEntries|
  {
    if k < |f.newEntries| then f.newEntries[k] else f.triedEntries[k - |f.newEntries|]
  }

  function AddrOf(f: Saved, k: nat): map<NetAddr, int>
    requires k <= |f.newEntries| + |f.triedEntries|
  {
    if k == 0 then map[] else AddrOf(f, k - 1)[EntryAt(f, k - 1).address.service.ip := k - 1]
  }

  /** The tried bucket b once the first k tried entries are read. */
  function TriedAt(f: Saved, h: Hashing, b: int, k: nat): seq<int>
    requires k <= |f.triedEntries|
  {
    if k == 0 then []
    else if h.tried(f.triedEntries[k - 1].address.service) == b then TriedAt(f, h, b, k - 1) + [|f.newEntries| + k - 1]
    else TriedAt(f, h, b, k - 1)
  }

  ghost function NewBuckets(f: Saved): seq<set<int>> {
    seq(|f.buckets|, b requires 0 <= b < |f.buckets| => Elements(f.buckets[b]))
  }

  predicate WellFormed(f: Saved) {
    && f.nNew == |f.newEntries| && f.nTried == |f.triedEntries|
    && f.nUBuckets == |f.buckets| == NEW_BUCKET_COUNT
    && forall b, j :: 0 <= b < |f.buckets| && 0 <= j < |f.buckets[b]| ==> 0 <= f.buckets[b][j] < f.nNew
  }

  /** Nothing is dropped: tried buckets do not overflow, no index repeats in a bucket, and none is in too many. */
  ghost predicate Clean(f: Saved, h: Hashing) {
    && WellFormed(f)
    && (forall b :: 0 <= b < TRIED_BUCKET_COUNT ==> |TriedAt(f, h, b, |f.triedEntries|)| <= TRIED_BUCKET_SIZE)
    && (forall b :: 0 <= b < |f.buckets| ==> Distinct(f.buckets[b]))
    && (forall k :: 0 <= k < f.nNew ==> |Holders(NewBuckets(f), k)| <= NEW_BUCKETS_PER_ADDRESS)
  }

  /** The entries 0 .. n-1 as loaded, with the reference counts the buckets imply. */
  ghost function InfoWith(f: Saved, n: int, news: seq<set<int>>): map<int, AddrInfo>
    requires n <= |f.newEntries| + |f.triedEntries|
  {
    map k | 0 <= k < n ::
      if k < |f.newEntries| then FromDisk(f.newEntries[k], |Holders(news, k)|, false, k)
      else FromDisk(f.triedEntries[k - |f.newEntries|], 0, true, k)
  }

  ghost function TriedUpTo(f: Saved, h: Hashing, k: nat): seq<seq<int>>
    requires k <= |f.triedEntries|
  {
    seq(TRIED_BUCKET_COUNT, b => TriedAt(f, h, b, k))
  }

  function Identity(n: nat): seq<int> {
    seq(n, i => i)
  }

  ghost function Loaded(f: Saved, h: Hashing): Tables {
    var n := |f.newEntries| + |f.triedEntries|;
    Tables(InfoWith(f, n, NewBuckets(f)), AddrOf(f, n), Identity(n), TriedUpTo(f, h, |f.triedEntries|), NewBuckets(f),
           f.nTried, f.nNew, n)
  }

  ghost function BucketUpTo(f: Saved, c: int, b: int, j: int): set<int>
    requires 0 <= c < |f.buckets|
  {
    if c < b then Elements(f.buckets[c])
    else if c == b && 0 < j <= |f.buckets[c]| then Elements(f.buckets[c][..j])
    else {}
  }

  /** The new buckets once bucket b has been read up to its j-th index. */
  ghost function BucketsUpTo(f: Saved, b: int, j: int): seq<set<int>> {
    seq(|f.buckets|, c requires 0 <= c < |f.buckets| => BucketUpTo(f, c, b, j))
  }

  /** Unserialize, into a manager that has the key of the file. */
  method Unserialize(am: AddrMan, f: Saved)
    requires WellFormed(f)
    modifies am
    ensures Clean(f, am.hashing) ==> am.State() == Loaded(f, am.hashing)
  {
    hide Clean, InfoWith, AddrOf, Identity, NewBuckets, BucketsUpTo;
    EmptyStart(f, am.hashing);
    am.nNew, am.nTried, am.nIdCount := f.nNew, f.nTried, 0;
    am.mapInfo, am.mapAddr, am.vRandom := map[], map[], [];
    am.vvTried := seq(TRIED_BUCKET_COUNT, _ => []);
    am.vvNew := seq(NEW_BUCKET_COUNT, _ => {});
    StartOfBuckets(f);
    LoadNew(am, f);
    am.nIdCount := am.nNew;
    var nLost := LoadTried(am, f);
    assert Clean(f, am.hashing) ==> TriedLoaded(am, f, f.nTried);
    am.nTried := am.nTried - nLost;
    LoadBuckets(am, f);
    EndOfBuckets(f);
  }

  lemma {:induction false} EmptyStart(f: Saved, h: Hashing)
    ensures TriedUpTo(f, h, 0) == seq(TRIED_BUCKET_COUNT, _ => [])
  {
  }

  lemma {:induction false} StartOfBuckets(f: Saved)
    ensures BucketsUpTo(f, 0, 0) == seq(|f.buckets|, _ => {})
  {
  }

  lemma {:induction false} EndOfBuckets(f: Saved)
    ensures BucketsUpTo(f, |f.buckets|, 0) == NewBuckets(f)
  {
  }

  lemma {:induction false} NextBucket(f: Saved, b: int)
    requires 0 <= b < |f.buckets|
    ensures BucketsUpTo(f, b, |f.buckets[b]|) == BucketsUpTo(f, b + 1, 0)
  {
    assert f.buckets[b][..|f.buckets[b]|] == f.buckets[b];
    assert |f.buckets[b]| == 0 ==> Elements(f.buckets[b]) == {};
    forall c | 0 <= c < |f.buckets| ensures BucketUpTo(f, c, b, |f.buckets[b]|) == BucketUpTo(f, c, b + 1, 0) {
    }
  }

  method LoadNew(am: AddrMan, f: Saved)
    requires WellFormed(f) && am.nNew == f.nNew && am.mapInfo == map[] && am.mapAddr == map[] && am.vRandom == []
    requires am.vvNew == BucketsUpTo(f, 0, 0)
    modifies am`mapInfo, am`mapAddr, am`vRandom
    ensures forall k :: 0 <= k < f.nNew ==> k in am.mapInfo
    ensures am.mapInfo == InfoWith(f, f.nNew, am.vvNew) && am.mapAddr == AddrOf(f, f.nNew) &&
            am.vRandom == Identity(f.nNew)
  {
    hide InfoWith, AddrOf, Identity, BucketsUpTo;
    NoneNew(f);
    for n := 0 to am.nNew
      invariant (forall k :: 0 <= k < n ==> k in am.mapInfo) && |am.vRandom| == n
      invariant am.mapInfo == InfoWith(f, n, am.vvNew) && am.mapAddr == AddrOf(f, n) && am.vRandom == Identity(n)
    {
      NextNew(f, n);
      am.mapInfo := am.mapInfo[n := FromDisk(f.newEntries[n], 0, false, -1)];
      am.mapAddr := am.mapAddr[f.newEntries[n].address.service.ip := n];
      am.mapInfo := am.mapInfo[n := am.mapInfo[n].(nRandomPos := |am.vRandom|)];
      am.vRandom := am.vRandom + [n];
    }
  }

  lemma {:induction false} NoneNew(f: Saved)
    ensures InfoWith(f, 0, BucketsUpTo(f, 0, 0)) == map[] && AddrOf(f, 0) == map[] && Identity(0) == []
  {
  }

  lemma {:induction false} NextNew(f: Saved, n: nat)
    requires n < |f.newEntries|
    ensures var news := BucketsUpTo(f, 0, 0);
            && InfoWith(f, n + 1, news) == InfoWith(f, n, news)[n := FromDisk(f.newEntries[n], 0, false, n)]
            && AddrOf(f, n + 1) == AddrOf(f, n)[f.newEntries[n].address.service.ip := n]
            && Identity(n + 1) == Identity(n) + [n]
  {
  }

  method LoadTried(am: AddrMan, f: Saved) returns (nLost: int)
    requires WellFormed(f) && am.nIdCount == f.nNew && am.nTried == f.nTried
    requires am.mapInfo == InfoWith(f, f.nNew, am.vvNew) && am.mapAddr == AddrOf(f, f.nNew) &&
             am.vRandom == Identity(f.nNew)
    requires am.vvTried == TriedUpTo(f, am.hashing, 0)
    modifies am`mapInfo, am`mapAddr, am`vRandom, am`vvTried, am`nIdCount
    ensures forall k :: 0 <= k < f.nNew ==> k in am.mapInfo
    ensures Clean(f, am.hashing) ==> nLost == 0 && TriedLoaded(am, f, f.nTried)
  {
    hide Clean, InfoWith, AddrOf, TriedUpTo, Identity, TriedAt;
    nLost := 0;
    TriedShape(f, am.hashing, am.vvNew);
    for n := 0 to am.nTried
      invariant |am.vvTried| == TRIED_BUCKET_COUNT && forall k :: 0 <= k < f.nNew ==> k in am.mapInfo
      invariant Clean(f, am.hashing) ==> nLost == 0 && TriedLoaded(am, f, n)
    {
      var entry := f.triedEntries[n];
      var k := am.hashing.tried(entry.address.service);
      NextTried(f, am.hashing, n, am.vvNew);
      if |am.vvTried[k]| < TRIED_BUCKET_SIZE {
        var info := FromDisk(entry, 0, true, |am.vRandom|);
        am.vRandom := am.vRandom + [am.nIdCount];
        am.mapInfo := am.mapInfo[am.nIdCount := info];
        am.mapAddr := am.mapAddr[info.Ip() := am.nIdCount];
        am.vvTried := am.vvTried[k := am.vvTried[k] + [am.nIdCount]];
        am.nIdCount := am.nIdCount + 1;
      } else {
        nLost := nLost + 1;
      }
    }
  }

  /** The manager once n tried entries are loaded. */
  ghost predicate TriedLoaded(am: AddrMan, f: Saved, n: int)
    requires WellFormed(f)
    reads am
  {
    && 0 <= n <= f.nTried && am.nIdCount == f.nNew + n && |am.vRandom| == f.nNew + n
    && am.mapInfo == InfoWith(f, f.nNew + n, am.vvNew) && am.mapAddr == AddrOf(f, f.nNew + n)
    && am.vRandom == Identity(f.nNew + n) && am.vvTried == TriedUpTo(f, am.hashing, n)
  }

  lemma {:induction false} TriedShape(f: Saved, h: Hashing, news: seq<set<int>>)
    requires WellFormed(f)
    ensures |TriedUpTo(f, h, 0)| == TRIED_BUCKET_COUNT && |Identity(f.nNew)| == f.nNew
    ensures forall k :: 0 <= k < f.nNew ==> k in InfoWith(f, f.nNew, news)
  {
  }

  lemma {:induction false} NextTried(f: Saved, h: Hashing, n: nat, news: seq<set<int>>)
    requires WellFormed(f) && n < f.nTried
    ensures var entry := f.triedEntries[n];
            var k := h.tried(entry.address.service);
            var id := f.nNew + n;
            && InfoWith(f, id + 1, news) == InfoWith(f, id, news)[id := FromDisk(entry, 0, true, id)]
            && AddrOf(f, id + 1) == AddrOf(f, id)[entry.address.service.ip := id]
            && Identity(id + 1) == Identity(id) + [id]
            && |TriedUpTo(f, h, n)| == TRIED_BUCKET_COUNT
            && TriedUpTo(f, h, n + 1) == TriedUpTo(f, h, n)[k := TriedUpTo(f, h, n)[k] + [id]]
            && (Clean(f, h) ==> |TriedUpTo(f, h, n)[k]| < TRIED_BUCKET_SIZE)
  {
    var k := h.tried(f.triedEntries[n].address.service);
    TriedGrows(f, h, n, f.nTried, k);
  }

  /** A bucket only grows while the entries are read. */
  lemma {:induction false} TriedGrows(f: Saved, h: Hashing, n: nat, m: nat, b: int)
    requires n < m <= |f.triedEntries|
    ensures h.tried(f.triedEntries[n].address.service) == b ==> |TriedAt(f, h, b, n)| < |TriedAt(f, h, b, m)|
    ensures |TriedAt(f, h, b, n)| <= |TriedAt(f, h, b, m)|
    decreases m
  {
    if n + 1 < m {
      TriedGrows(f, h, n, m - 1, b);
    }
  }

  method LoadBuckets(am: AddrMan, f: Saved)
    requires WellFormed(f) && am.vvNew == BucketsUpTo(f, 0, 0)
    requires forall k :: 0 <= k < f.nNew ==> k in am.mapInfo
    modifies am`mapInfo, am`vvNew
    ensures Clean(f, am.hashing) && old(am.mapInfo) == InfoWith(f, f.nNew + f.nTried, old(am.vvNew)) ==>
      am.vvNew == BucketsUpTo(f, |f.buckets|, 0) && am.mapInfo == InfoWith(f, f.nNew + f.nTried, am.vvNew)
  {
    ghost var good := Clean(f, am.hashing) && am.mapInfo == InfoWith(f, f.nNew + f.nTried, am.vvNew);
    for b := 0 to |f.buckets|
      invariant |am.vvNew| == NEW_BUCKET_COUNT && forall k :: 0 <= k < f.nNew ==> k in am.mapInfo
      invariant good ==> am.vvNew == BucketsUpTo(f, b, 0) && am.mapInfo == InfoWith(f, f.nNew + f.nTried, am.vvNew)
    {
      LoadBucket(am, f, b);
    }
  }

  method LoadBucket(am: AddrMan, f: Saved, b: int)
    requires WellFormed(f) && 0 <= b < |f.buckets| && |am.vvNew| == NEW_BUCKET_COUNT
    requires forall k :: 0 <= k < f.nNew ==> k in am.mapInfo
    modifies am`mapInfo, am`vvNew
    ensures |am.vvNew| == NEW_BUCKET_COUNT && forall k :: 0 <= k < f.nNew ==> k in am.mapInfo
    ensures Clean(f, am.hashing) && old(am.vvNew) == BucketsUpTo(f, b, 0) &&
            old(am.mapInfo) == InfoWith(f, f.nNew + f.nTried, old(am.vvNew)) ==>
      am.vvNew == BucketsUpTo(f, b + 1, 0) && am.mapInfo == InfoWith(f, f.nNew + f.nTried, am.vvNew)
  {
    hide Clean, InfoWith, BucketsUpTo;
    ghost var good := Clean(f, am.hashing) && am.vvNew == BucketsUpTo(f, b, 0) &&
        am.mapInfo == InfoWith(f, f.nNew + f.nTried, am.vvNew);
    for n := 0 to |f.buckets[b]|
      invariant |am.vvNew| == NEW_BUCKET_COUNT && forall k :: 0 <= k < f.nNew ==> k in am.mapInfo
      invariant good ==> am.vvNew == BucketsUpTo(f, b, n) && am.mapInfo == InfoWith(f, f.nNew + f.nTried, am.vvNew)
    {
      var nIndex := f.buckets[b][n];
      if good {
        IndexHasRoom(f, am.hashing, b, n);
        IndexCounted(f, b, n);
      }
      if am.mapInfo[nIndex].nRefCount < NEW_BUCKETS_PER_ADDRESS {
        am.mapInfo := am.mapInfo[nIndex := am.mapInfo[nIndex].(nRefCount := am.mapInfo[nIndex].nRefCount + 1)];
        am.vvNew := am.vvNew[b := am.vvNew[b] + {nIndex}];
      }
    }
    NextBucket(f, b);
  }

  /** The next index is new to its bucket and still has a reference to spare. */
  lemma {:induction false} IndexHasRoom(f: Saved, h: Hashing, b: int, n: int)
    requires Clean(f, h) && 0 <= b < |f.buckets| && 0 <= n < |f.buckets[b]|
    ensures b !in Holders(BucketsUpTo(f, b, n), f.buckets[b][n])
    ensures |Holders(BucketsUpTo(f, b, n), f.buckets[b][n])| < NEW_BUCKETS_PER_ADDRESS
  {
    var i := f.buckets[b][n];
    var now, all := Holders(BucketsUpTo(f, b, n), i), Holders(NewBuckets(f), i);
    assert b in all && b !in now;
    SubsetSize(now + {b}, all);
  }

  lemma {:induction false} InsertCounted(f: Saved, total: int, news: seq<set<int>>, b: int, i: int)
    requires 0 <= i < |f.newEntries| <= total <= |f.newEntries| + |f.triedEntries| && 0 <= b < |news|
    requires b !in Holders(news, i)
    ensures var info := InfoWith(f, total, news);
            InfoWith(f, total, news[b := news[b] + {i}]) == info[i := info[i].(nRefCount := |Holders(news, i)| + 1)]
  {
    var news' := news[b := news[b] + {i}];
    assert Holders(news', i) == Holders(news, i) + {b};
    forall m | m != i ensures Holders(news', m) == Holders(news, m) {
    }
  }

  lemma {:induction false} NextIndex(f: Saved, b: int, n: int)
    requires 0 <= b < |f.buckets| && 0 <= n < |f.buckets[b]|
    ensures var news := BucketsUpTo(f, b, n);
            |news| == |f.buckets| && BucketsUpTo(f, b, n + 1) == news[b := news[b] + {f.buckets[b][n]}]
  {
    assert f.buckets[b][..n + 1] == f.buckets[b][..n] + [f.buckets[b][n]];
    assert n == 0 ==> f.buckets[b][..n] == [];
    assert BucketUpTo(f, b, b, n + 1) == BucketUpTo(f, b, b, n) + {f.buckets[b][n]};
    forall c | 0 <= c < |f.buckets| && c != b ensures BucketUpTo(f, c, b, n + 1) == BucketUpTo(f, c, b, n) {
    }
  }

  lemma {:induction false} IndexCounted(f: Saved, b: int, n: int)
    requires WellFormed(f) && 0 <= b < |f.buckets| && 0 <= n < |f.buckets[b]|
    requires b !in Holders(BucketsUpTo(f, b, n), f.buckets[b][n])
    ensures var i := f.buckets[b][n];
            var news, news' := BucketsUpTo(f, b, n), BucketsUpTo(f, b, n + 1);
            && |news| == |f.buckets| && news' == news[b := news[b] + {i}]
            && i in InfoWith(f, f.nNew + f.nTried, news) &&
                 InfoWith(f, f.nNew + f.nTried, news)[i].nRefCount == |Holders(news, i)|
            && InfoWith(f, f.nNew + f.nTried, news')
               == InfoWith(f, f.nNew + f.nTried, news)[
                    i := InfoWith(f, f.nNew + f.nTried, news)[i].(nRefCount := |Holders(news, i)| + 1)]
  {
    NextIndex(f, b, n);
    InsertCounted(f, f.nNew + f.nTried, BucketsUpTo(f, b, n), b, f.buckets[b][n]);
  }

  // ----- Loading what was saved

  /** The id that loaded entry k had when it was saved. */
  function OldId(newIds: seq<int>, triedIds: seq<int>, k: int): int
    requires 0 <= k < |newIds| + |triedIds|
  {
    if k < |newIds| then newIds[k] else triedIds[k - |newIds|]
  }

  lemma {:induction false} OldIdIsKnown(t: Tables, newIds: seq<int>, triedIds: seq<int>, k: int)
    requires ListsInOrder(newIds, NewIds(t.info)) && ListsInOrder(triedIds, TriedIds(t.info)) &&
             0 <= k < |newIds| + |triedIds|
    ensures OldId(newIds, triedIds, k) in t.info
    ensures t.info[OldId(newIds, triedIds, k)].fInTried <==> k >= |newIds|
  {
    if k < |newIds| {
      assert newIds[k] in newIds;
    } else {
      assert triedIds[k - |newIds|] in triedIds;
    }
  }

  lemma {:induction false} OldIdIsInjective(t: Tables, newIds: seq<int>, triedIds: seq<int>, k: int, j: int)
    requires ListsInOrder(newIds, NewIds(t.info)) && ListsInOrder(triedIds, TriedIds(t.info))
    requires 0 <= k < |newIds| + |triedIds| && 0 <= j < |newIds| + |triedIds|
    requires OldId(newIds, triedIds, k) == OldId(newIds, triedIds, j)
    ensures k == j
  {
    OldIdIsKnown(t, newIds, triedIds, k);
    OldIdIsKnown(t, newIds, triedIds, j);
  }

  lemma {:induction false} FileEntry(t: Tables, newIds: seq<int>, triedIds: seq<int>, f: Saved, k: int)
    requires IsFileOf(t, newIds, triedIds, f) && 0 <= k < |newIds| + |triedIds|
    ensures OldId(newIds, triedIds, k) in t.info && EntryAt(f, k) == ToDisk(t.info[OldId(newIds, triedIds, k)])
  {
  }

  // The new buckets

  lemma {:induction false} BucketRestored(t: Tables, newIds: seq<int>, triedIds: seq<int>, f: Saved, b: int, k: int)
    requires IsFileOf(t, newIds, triedIds, f) && BucketsOk(t)
    requires 0 <= b < NEW_BUCKET_COUNT && 0 <= k < |newIds| + |triedIds|
    ensures k in NewBuckets(f)[b] <==> OldId(newIds, triedIds, k) in t.news[b]
  {
    assert BucketIsFileOf(t.news[b], newIds, f.buckets[b]);
    OldIdIsKnown(t, newIds, triedIds, k);
    if k in f.buckets[b] {
      var j :| 0 <= j < |f.buckets[b]| && f.buckets[b][j] == k;
    }
  }

  lemma {:induction false} HoldersRestored(t: Tables, newIds: seq<int>, triedIds: seq<int>, f: Saved, k: int)
    requires IsFileOf(t, newIds, triedIds, f) && BucketsOk(t) && 0 <= k < |newIds| + |triedIds|
    ensures Holders(NewBuckets(f), k) == Holders(t.news, OldId(newIds, triedIds, k))
  {
    forall b | 0 <= b < NEW_BUCKET_COUNT ensures k in NewBuckets(f)[b] <==> OldId(newIds, triedIds, k) in t.news[b] {
      BucketRestored(t, newIds, triedIds, f, b, k);
    }
  }

  // The tried buckets

  lemma {:induction false} TriedAtMembers(f: Saved, h: Hashing, b: int, k: nat)
    requires k <= |f.triedEntries|
    ensures Ascends(TriedAt(f, h, b, k))
    ensures forall x :: x in TriedAt(f, h, b, k) <==>
      |f.newEntries| <= x < |f.newEntries| + k && h.tried(f.triedEntries[x - |f.newEntries|].address.service) == b
  {
    if k > 0 {
      TriedAtMembers(f, h, b, k - 1);
      var before := TriedAt(f, h, b, k - 1);
      if h.tried(f.triedEntries[k - 1].address.service) == b {
        AppendAscends(before, |f.newEntries| + k - 1);
      }
    }
  }

  lemma {:induction false} TriedRestored(t: Tables, h: Hashing, newIds: seq<int>, triedIds: seq<int>, f: Saved, b: int,
                                         k: int)
    requires IsFileOf(t, newIds, triedIds, f) && TriedOk(t, h)
    requires 0 <= b < TRIED_BUCKET_COUNT && 0 <= k < |newIds| + |triedIds|
    ensures k in TriedAt(f, h, b, |f.triedEntries|) <==> OldId(newIds, triedIds, k) in t.tried[b]
  {
    TriedAtMembers(f, h, b, |f.triedEntries|);
    OldIdIsKnown(t, newIds, triedIds, k);
    FileEntry(t, newIds, triedIds, f, k);
  }

  ghost predicate Within(positions: seq<int>, lo: int, hi: int) {
    forall i :: 0 <= i < |positions| ==> lo <= positions[i] < hi
  }

  ghost function Renamed(positions: seq<int>, offset: int, names: seq<int>): seq<int>
    requires Within(positions, offset, offset + |names|)
  {
    seq(|positions|, i requires 0 <= i < |positions| => names[positions[i] - offset])
  }

  lemma {:induction false} RenamedDistinct(positions: seq<int>, offset: int, names: seq<int>)
    requires Ascends(positions) && Ascends(names) && Within(positions, offset, offset + |names|)
    ensures Distinct(Renamed(positions, offset, names))
  {
  }

  lemma {:induction false} RenamedMember(positions: seq<int>, offset: int, names: seq<int>, j: nat)
    requires Within(positions, offset, offset + |names|) && j < |names| && offset + j in positions
    ensures names[j] in Renamed(positions, offset, names)
  {
    var i :| 0 <= i < |positions| && positions[i] == offset + j;
    assert Renamed(positions, offset, names)[i] == names[j];
  }

  /** Positions renamed one to one to the members of another list are as many. */
  lemma {:induction false} RenamedSize(positions: seq<int>, offset: int, names: seq<int>, target: seq<int>)
    requires Ascends(positions) && Ascends(names) && Distinct(target)
    requires forall x :: x in positions ==> offset <= x < offset + |names|
    requires forall j :: 0 <= j < |names| ==> (offset + j in positions <==> names[j] in target)
    requires forall n :: n in target ==> n in names
    ensures |positions| == |target|
  {
    assert Within(positions, offset, offset + |names|) by {
      forall i | 0 <= i < |positions| ensures offset <= positions[i] < offset + |names| {
        assert positions[i] in positions;
      }
    }
    var back := Renamed(positions, offset, names);
    RenamedDistinct(positions, offset, names);
    DistinctSize(back);
    DistinctSize(target);
    forall n | n in back ensures n in target {
      var i :| 0 <= i < |back| && back[i] == n;
      assert offset + (positions[i] - offset) in positions;
    }
    forall n | n in target ensures n in back {
      var j :| 0 <= j < |names| && names[j] == n;
      RenamedMember(positions, offset, names, j);
    }
    hide Ascends, Distinct, Within, Renamed;
    assert Elements(back) == Elements(target);
  }

  lemma {:induction false} TriedIdsListed(t: Tables, h: Hashing, newIds: seq<int>, triedIds: seq<int>, f: Saved, b: int)
    requires IsFileOf(t, newIds, triedIds, f) && TriedOk(t, h) && 0 <= b < TRIED_BUCKET_COUNT
    ensures Ascends(triedIds) && Distinct(t.tried[b]) && |f.newEntries| == |newIds| && |f.triedEntries| == |triedIds|
    ensures forall n :: n in t.tried[b] ==> n in triedIds
  {
  }

  lemma {:induction false} TriedSizeRestored(t: Tables, h: Hashing, newIds: seq<int>, triedIds: seq<int>, f: Saved,
                                             b: int)
    requires IsFileOf(t, newIds, triedIds, f) && TriedOk(t, h) && 0 <= b < TRIED_BUCKET_COUNT
    ensures |t.tried| == TRIED_BUCKET_COUNT && |TriedAt(f, h, b, |f.triedEntries|)| == |t.tried[b]|
  {
    hide IsFileOf, TriedAt, Ascends, Distinct;
    var loaded := TriedAt(f, h, b, |f.triedEntries|);
    TriedAtMembers(f, h, b, |f.triedEntries|);
    TriedIdsListed(t, h, newIds, triedIds, f, b);
    forall j | 0 <= j < |triedIds| ensures |newIds| + j in loaded <==> triedIds[j] in t.tried[b] {
      TriedRestored(t, h, newIds, triedIds, f, b, |newIds| + j);
    }
    RenamedSize(loaded, |newIds|, triedIds, t.tried[b]);
  }

  // The address index

  lemma {:induction false} AddrOfInverts(f: Saved, k: nat)
    requires k <= |f.newEntries| + |f.triedEntries|
    requires forall i, j :: 0 <= i < j < k ==> EntryAt(f, i).address.service.ip != EntryAt(f, j).address.service.ip
    ensures forall j :: 0 <= j < k ==>
      EntryAt(f, j).address.service.ip in AddrOf(f, k) && AddrOf(f, k)[EntryAt(f, j).address.service.ip] == j
    ensures forall a :: a in AddrOf(f, k) ==>
            0 <= AddrOf(f, k)[a] < k && EntryAt(f, AddrOf(f, k)[a]).address.service.ip == a
  {
    if k > 0 {
      AddrOfInverts(f, k - 1);
    }
  }

  lemma {:induction false} IpsAreDistinct(t: Tables, newIds: seq<int>, triedIds: seq<int>, f: Saved, i: int, j: int)
    requires IsFileOf(t, newIds, triedIds, f) && AddrOk(t) && 0 <= i < j < |newIds| + |triedIds|
    ensures EntryAt(f, i).address.service.ip != EntryAt(f, j).address.service.ip
  {
    FileEntry(t, newIds, triedIds, f, i);
    FileEntry(t, newIds, triedIds, f, j);
    if EntryAt(f, i).address.service.ip == EntryAt(f, j).address.service.ip {
      var n, m := OldId(newIds, triedIds, i), OldId(newIds, triedIds, j);
      assert t.addr[t.info[n].Ip()] == n && t.addr[t.info[m].Ip()] == m;
      OldIdIsInjective(t, newIds, triedIds, i, j);
    }
  }

  // The whole

  lemma {:induction false} FileIsClean(t: Tables, h: Hashing, newIds: seq<int>, triedIds: seq<int>, f: Saved)
    requires Valid(t, h) && IsFileOf(t, newIds, triedIds, f)
    ensures Clean(f, h)
  {
    forall b | 0 <= b < |f.buckets|
      ensures Distinct(f.buckets[b]) && forall j :: 0 <= j < |f.buckets[b]| ==> 0 <= f.buckets[b][j] < f.nNew {
      assert BucketIsFileOf(t.news[b], newIds, f.buckets[b]);
    }
    forall b | 0 <= b < TRIED_BUCKET_COUNT ensures |TriedAt(f, h, b, |f.triedEntries|)| <= TRIED_BUCKET_SIZE {
      TriedSizeRestored(t, h, newIds, triedIds, f, b);
    }
    forall k | 0 <= k < f.nNew ensures |Holders(NewBuckets(f), k)| <= NEW_BUCKETS_PER_ADDRESS {
      HoldersRestored(t, newIds, triedIds, f, k);
      OldIdIsKnown(t, newIds, triedIds, k);
      assert EntryOk(t, newIds[k]);
    }
  }

  /** Everything but the position and the time of the last try comes back. */
  predicate Reloads(a: AddrInfo, e: AddrInfo) {
    e.(nRandomPos := 0, nLastTry := 0) == a.(nRandomPos := 0, nLastTry := 0)
  }

  lemma {:induction false} EntryRestored(t: Tables, h: Hashing, newIds: seq<int>, triedIds: seq<int>, f: Saved, k: int)
    requires Valid(t, h) && IsFileOf(t, newIds, triedIds, f) && 0 <= k < |newIds| + |triedIds|
    ensures k in Loaded(f, h).info && OldId(newIds, triedIds, k) in t.info
    ensures Reloads(t.info[OldId(newIds, triedIds, k)], Loaded(f, h).info[k])
    ensures EntryOk(Loaded(f, h), k) && Loaded(f, h).info[k].nLastTry >= 0 && Loaded(f, h).info[k].nLastSuccess >= 0
  {
    var n := OldId(newIds, triedIds, k);
    FileEntry(t, newIds, triedIds, f, k);
    OldIdIsKnown(t, newIds, triedIds, k);
    HoldersRestored(t, newIds, triedIds, f, k);
    assert EntryOk(t, n);
  }

  /** The loaded state is the saved one with ids renamed to 0, 1, ...: new entries first, then tried. */
  ghost predicate Restores(t: Tables, s: Tables, newIds: seq<int>, triedIds: seq<int>) {
    && ListsInOrder(newIds, NewIds(t.info)) && ListsInOrder(triedIds, TriedIds(t.info))
    && s.nNew == t.nNew && s.nTried == t.nTried
    && RestoresEntries(t, s, newIds, triedIds) && RestoresNew(t, s, newIds, triedIds) &&
         RestoresTried(t, s, newIds, triedIds)
  }

  ghost predicate RestoresEntries(t: Tables, s: Tables, newIds: seq<int>, triedIds: seq<int>) {
    var total := |newIds| + |triedIds|;
    && (forall k :: k in s.info <==> 0 <= k < total)
    && (forall k :: 0 <= k < total ==> var n := OldId(newIds, triedIds, k);
          n in t.info && Reloads(t.info[n], s.info[k]) && t.info[n].Ip() in s.addr && s.addr[t.info[n].Ip()] == k)
    && forall a :: a in s.addr <==> a in t.addr
  }

  ghost predicate RestoresNew(t: Tables, s: Tables, newIds: seq<int>, triedIds: seq<int>) {
    && |t.news| == |s.news|
    && forall b, k :: 0 <= b < |s.news| && 0 <= k < |newIds| + |triedIds| ==>
         (k in s.news[b] <==> OldId(newIds, triedIds, k) in t.news[b])
  }

  ghost predicate RestoresTried(t: Tables, s: Tables, newIds: seq<int>, triedIds: seq<int>) {
    && |t.tried| == |s.tried|
    && (forall b, k :: 0 <= b < |s.tried| && 0 <= k < |newIds| + |triedIds| ==>
          (k in s.tried[b] <==> OldId(newIds, triedIds, k) in t.tried[b]))
    && forall b :: 0 <= b < |s.tried| ==> |s.tried[b]| == |t.tried[b]|
  }

  lemma {:induction false} LoadedAddr(t: Tables, h: Hashing, newIds: seq<int>, triedIds: seq<int>, f: Saved)
    requires Valid(t, h) && IsFileOf(t, newIds, triedIds, f)
    ensures var addr := Loaded(f, h).addr;
            && (forall k :: 0 <= k < |newIds| + |triedIds| ==>
                EntryAt(f, k).address.service.ip in addr && addr[EntryAt(f, k).address.service.ip] == k)
            && (forall a :: a in addr ==>
                0 <= addr[a] < |newIds| + |triedIds| && EntryAt(f, addr[a]).address.service.ip == a)
  {
    var total := |newIds| + |triedIds|;
    forall i, j | 0 <= i < j < total ensures EntryAt(f, i).address.service.ip != EntryAt(f, j).address.service.ip {
      IpsAreDistinct(t, newIds, triedIds, f, i, j);
    }
    AddrOfInverts(f, total);
  }

  lemma {:induction false} LoadedRestoresEntries(t: Tables, h: Hashing, newIds: seq<int>, triedIds: seq<int>, f: Saved)
    requires Valid(t, h) && IsFileOf(t, newIds, triedIds, f)
    ensures RestoresEntries(t, Loaded(f, h), newIds, triedIds)
  {
    hide ValidExcept, IsFileOf, EntryOk, Loaded, NewIds, TriedIds, ListsInOrder, Reloads, OldId, TriedOk, BucketsOk,
         AddrOk;
    FileShape(t, h, newIds, triedIds, f);
    LoadedKeys(f, h);
    var s := Loaded(f, h);
    forall k | 0 <= k < |newIds| + |triedIds|
      ensures k in s.info && OldId(newIds, triedIds, k) in t.info
      ensures var n := OldId(newIds, triedIds, k);
              Reloads(t.info[n], s.info[k]) && t.info[n].Ip() in s.addr && s.addr[t.info[n].Ip()] == k
    {
      EntryRestored(t, h, newIds, triedIds, f, k);
      AddressRestored(t, h, newIds, triedIds, f, k);
    }
    forall a ensures a in s.addr <==> a in t.addr {
      AddressKept(t, h, newIds, triedIds, f, a);
    }
  }

  lemma {:induction false} AddressRestored(t: Tables, h: Hashing, newIds: seq<int>, triedIds: seq<int>, f: Saved,
                                           k: int)
    requires Valid(t, h) && IsFileOf(t, newIds, triedIds, f) && 0 <= k < |newIds| + |triedIds|
    ensures OldId(newIds, triedIds, k) in t.info
    ensures var ip := t.info[OldId(newIds, triedIds, k)].Ip();
            ip in Loaded(f, h).addr && Loaded(f, h).addr[ip] == k
  {
    hide ValidExcept, IsFileOf, EntryOk, Loaded;
    LoadedAddr(t, h, newIds, triedIds, f);
    FileEntry(t, newIds, triedIds, f, k);
  }

  lemma {:induction false} LoadedRestoresNew(t: Tables, h: Hashing, newIds: seq<int>, triedIds: seq<int>, f: Saved)
    requires Valid(t, h) && IsFileOf(t, newIds, triedIds, f)
    ensures RestoresNew(t, Loaded(f, h), newIds, triedIds)
  {
    hide ValidExcept, IsFileOf, Loaded, ListsInOrder, OldId, NewBuckets, TriedOk, BucketsOk, AddrOk;
    FileShape(t, h, newIds, triedIds, f);
    LoadedShape(f, h);
    forall b, k | 0 <= b < NEW_BUCKET_COUNT && 0 <= k < |newIds| + |triedIds|
      ensures k in Loaded(f, h).news[b] <==> OldId(newIds, triedIds, k) in t.news[b]
    {
      BucketRestored(t, newIds, triedIds, f, b, k);
    }
  }

  lemma {:induction false} LoadedRestoresTried(t: Tables, h: Hashing, newIds: seq<int>, triedIds: seq<int>, f: Saved)
    requires Valid(t, h) && IsFileOf(t, newIds, triedIds, f)
    ensures RestoresTried(t, Loaded(f, h), newIds, triedIds)
  {
    hide ValidExcept, IsFileOf, Loaded, ListsInOrder, OldId, TriedAt, TriedOk, BucketsOk, AddrOk;
    FileShape(t, h, newIds, triedIds, f);
    LoadedShape(f, h);
    forall b, k | 0 <= b < TRIED_BUCKET_COUNT && 0 <= k < |newIds| + |triedIds|
      ensures k in Loaded(f, h).tried[b] <==> OldId(newIds, triedIds, k) in t.tried[b]
    {
      TriedRestored(t, h, newIds, triedIds, f, b, k);
    }
    forall b | 0 <= b < TRIED_BUCKET_COUNT ensures |Loaded(f, h).tried[b]| == |t.tried[b]| {
      TriedSizeRestored(t, h, newIds, triedIds, f, b);
    }
  }

  lemma {:induction false} LoadedShape(f: Saved, h: Hashing)
    ensures Loaded(f, h).news == NewBuckets(f) && |Loaded(f, h).news| == |f.buckets| &&
            |Loaded(f, h).tried| == TRIED_BUCKET_COUNT
    ensures forall b :: 0 <= b < TRIED_BUCKET_COUNT ==> Loaded(f, h).tried[b] == TriedAt(f, h, b, |f.triedEntries|)
  {
  }

  lemma {:induction false} LoadedRestores(t: Tables, h: Hashing, newIds: seq<int>, triedIds: seq<int>, f: Saved)
    requires Valid(t, h) && IsFileOf(t, newIds, triedIds, f)
    ensures Restores(t, Loaded(f, h), newIds, triedIds)
  {
    hide RestoresEntries, RestoresNew, RestoresTried, ValidExcept, IsFileOf, InfoWith, AddrOf, TriedAt;
    FileShape(t, h, newIds, triedIds, f);
    LoadedRestoresEntries(t, h, newIds, triedIds, f);
    LoadedRestoresNew(t, h, newIds, triedIds, f);
    LoadedRestoresTried(t, h, newIds, triedIds, f);
  }

  lemma {:induction false} FileShape(t: Tables, h: Hashing, newIds: seq<int>, triedIds: seq<int>, f: Saved)
    requires Valid(t, h) && IsFileOf(t, newIds, triedIds, f)
    ensures ListsInOrder(newIds, NewIds(t.info)) && ListsInOrder(triedIds, TriedIds(t.info))
    ensures |f.newEntries| == |newIds| == t.nNew == f.nNew && |f.triedEntries| == |triedIds| == t.nTried == f.nTried
    ensures |f.buckets| == |t.news| == NEW_BUCKET_COUNT && |t.tried| == TRIED_BUCKET_COUNT
    ensures BucketsOk(t) && TriedOk(t, h) && AddrOk(t)
  {
  }

  lemma {:induction false} AddressKept(t: Tables, h: Hashing, newIds: seq<int>, triedIds: seq<int>, f: Saved,
                                       a: NetAddr)
    requires Valid(t, h) && IsFileOf(t, newIds, triedIds, f)
    ensures a in Loaded(f, h).addr <==> a in t.addr
  {
    hide ValidExcept, EntryOk;
    FileShape(t, h, newIds, triedIds, f);
    LoadedAddr(t, h, newIds, triedIds, f);
    var addr := Loaded(f, h).addr;
    if a in addr {
      FileEntry(t, newIds, triedIds, f, addr[a]);
    }
    if a in t.addr {
      var n := t.addr[a];
      assert n in NewIds(t.info) || n in TriedIds(t.info);
      var k := PositionOf(newIds, triedIds, n);
      FileEntry(t, newIds, triedIds, f, k);
    }
  }

  lemma {:induction false} PositionOf(newIds: seq<int>, triedIds: seq<int>, n: int) returns (k: int)
    requires n in newIds || n in triedIds
    ensures 0 <= k < |newIds| + |triedIds| && OldId(newIds, triedIds, k) == n
  {
    if n in newIds {
      k :| 0 <= k < |newIds| && newIds[k] == n;
    } else {
      k :| 0 <= k < |triedIds| && triedIds[k] == n;
      k := k + |newIds|;
    }
  }

  function Range(lo: int, n: nat): seq<int> {
    seq(n, i => lo + i)
  }

  lemma {:induction false} RangeMembers(lo: int, n: nat, s: set<int>)
    requires forall k :: k in s <==> lo <= k < lo + n
    ensures |s| == n
  {
    var r := Range(lo, n);
    DistinctSize(r);
    forall k ensures k in r <==> k in s {
      if k in s {
        assert r[k - lo] == k;
      }
    }
    assert Elements(r) == s;
  }

  lemma {:induction false} LoadedLookup(f: Saved, h: Hashing, k: int)
    requires 0 <= k < |f.newEntries| + |f.triedEntries|
    ensures var s := Loaded(f, h);
            && k in s.info && s.info[k].address == EntryAt(f, k).address && s.info[k].nRandomPos == k
            && (s.info[k].fInTried <==> k >= |f.newEntries|)
  {
    var info := InfoWith(f, |f.newEntries| + |f.triedEntries|, NewBuckets(f));
    assert k in info;
    assert info[k] == if k < |f.newEntries| then FromDisk(f.newEntries[k], |Holders(NewBuckets(f), k)|, false, k)
                      else FromDisk(f.triedEntries[k - |f.newEntries|], 0, true, k);
  }

  lemma {:induction false} LoadedKeys(f: Saved, h: Hashing)
    ensures forall k :: k in Loaded(f, h).info <==> 0 <= k < |f.newEntries| + |f.triedEntries|
  {
  }

  lemma {:induction false} LoadedCounts(f: Saved, h: Hashing)
    requires f.nNew == |f.newEntries| && f.nTried == |f.triedEntries|
    ensures CountsOk(Loaded(f, h))
  {
    hide InfoWith;
    var s := Loaded(f, h);
    LoadedKeys(f, h);
    forall k | k in s.info ensures s.info[k].fInTried <==> k >= f.nNew {
      LoadedLookup(f, h, k);
    }
    RangeMembers(0, f.nNew, NewIds(s.info));
    RangeMembers(f.nNew, f.nTried, TriedIds(s.info));
  }

  lemma {:induction false} LoadedBuckets(t: Tables, h: Hashing, newIds: seq<int>, triedIds: seq<int>, f: Saved)
    requires Valid(t, h) && IsFileOf(t, newIds, triedIds, f)
    ensures BucketsOk(Loaded(f, h))
  {
    FileIsClean(t, h, newIds, triedIds, f);
    forall b | 0 <= b < NEW_BUCKET_COUNT ensures |NewBuckets(f)[b]| <= NEW_BUCKET_SIZE {
      assert BucketIsFileOf(t.news[b], newIds, f.buckets[b]);
      DistinctSize(f.buckets[b]);
    }
    forall b, k | 0 <= b < NEW_BUCKET_COUNT && k in NewBuckets(f)[b] ensures 0 <= k < f.nNew {
      var j :| 0 <= j < |f.buckets[b]| && f.buckets[b][j] == k;
    }
  }

  lemma {:induction false} LoadedTried(f: Saved, h: Hashing)
    requires Clean(f, h)
    ensures TriedOk(Loaded(f, h), h)
  {
    hide InfoWith, TriedAt;
    var s := Loaded(f, h);
    LoadedKeys(f, h);
    forall b | 0 <= b < TRIED_BUCKET_COUNT ensures |s.tried[b]| <= TRIED_BUCKET_SIZE && Distinct(s.tried[b]) {
      TriedAtMembers(f, h, b, |f.triedEntries|);
    }
    forall b, n | 0 <= b < TRIED_BUCKET_COUNT && n in s.tried[b]
      ensures n in s.info && s.info[n].fInTried && h.tried(s.info[n].address.service) == b
    {
      TriedAtMembers(f, h, b, |f.triedEntries|);
      LoadedLookup(f, h, n);
    }
    forall n | n in s.info && s.info[n].fInTried ensures n in s.tried[h.tried(s.info[n].address.service)] {
      LoadedLookup(f, h, n);
      TriedAtMembers(f, h, h.tried(s.info[n].address.service), |f.triedEntries|);
    }
  }

  /** Loading what was saved loses no entry and yields the saved tables, up to renaming of ids and order
      within tried buckets, with the whole invariant restored. */
  lemma {:induction false} SaveLoadRoundTrip(t: Tables, h: Hashing, newIds: seq<int>, triedIds: seq<int>, f: Saved)
    requires Valid(t, h) && IsFileOf(t, newIds, triedIds, f)
    ensures Clean(f, h) && Valid(Loaded(f, h), h) && Restores(t, Loaded(f, h), newIds, triedIds)
  {
    hide ValidExcept, IsFileOf, Clean, TriedOk, BucketsOk, CountsOk, Restores;
    FileShape(t, h, newIds, triedIds, f);
    FileIsClean(t, h, newIds, triedIds, f);
    LoadedRestores(t, h, newIds, triedIds, f);
    LoadedCounts(f, h);
    LoadedBuckets(t, h, newIds, triedIds, f);
    LoadedTried(f, h);
    LoadedIndices(t, h, newIds, triedIds, f);
    LoadedEntries(t, h, newIds, triedIds, f);
    ValidFromParts(Loaded(f, h), h);
  }

  lemma {:induction false} LoadedIndices(t: Tables, h: Hashing, newIds: seq<int>, triedIds: seq<int>, f: Saved)
    requires Valid(t, h) && IsFileOf(t, newIds, triedIds, f)
    ensures RandomOk(Loaded(f, h)) && AddrOk(Loaded(f, h))
  {
    hide ValidExcept, IsFileOf, Loaded, EntryAt, ListsInOrder, RandomOk, AddrOk, TriedOk, BucketsOk;
    FileShape(t, h, newIds, triedIds, f);
    LoadedPlaces(f, h);
    LoadedAddr(t, h, newIds, triedIds, f);
    PlacesAreIndices(Loaded(f, h), f);
  }

  lemma {:induction false} PlacesAreIndices(s: Tables, f: Saved)
    requires |s.random| == |f.newEntries| + |f.triedEntries| && forall k :: k in s.info <==> 0 <= k < |s.random|
    requires forall k :: 0 <= k < |s.random| ==>
               && s.info[k].Ip() == EntryAt(f, k).address.service.ip && s.info[k].nRandomPos == k && s.random[k] == k
               && EntryAt(f, k).address.service.ip in s.addr && s.addr[EntryAt(f, k).address.service.ip] == k
    requires forall a :: a in s.addr ==> 0 <= s.addr[a] < |s.random| && EntryAt(f, s.addr[a]).address.service.ip == a
    ensures RandomOk(s) && AddrOk(s)
  {
    hide EntryAt;
  }

  lemma {:induction false} LoadedPlaces(f: Saved, h: Hashing)
    ensures var s := Loaded(f, h);
            var total := |f.newEntries| + |f.triedEntries|;
            && |s.random| == total && (forall k :: k in s.info <==> 0 <= k < total)
            && forall k :: 0 <= k < total ==>
                 s.info[k].Ip() == EntryAt(f, k).address.service.ip && s.info[k].nRandomPos == k && s.random[k] == k
  {
    hide InfoWith, AddrOf, EntryAt;
    LoadedKeys(f, h);
    forall k | 0 <= k < |f.newEntries| + |f.triedEntries|
      ensures Loaded(f, h).info[k].Ip() == EntryAt(f, k).address.service.ip && Loaded(f, h).info[k].nRandomPos == k
    {
      LoadedLookup(f, h, k);
    }
  }

  lemma {:induction false} LoadedEntries(t: Tables, h: Hashing, newIds: seq<int>, triedIds: seq<int>, f: Saved)
    requires Valid(t, h) && IsFileOf(t, newIds, triedIds, f)
    ensures EntriesOk(Loaded(f, h), {})
  {
    FileShape(t, h, newIds, triedIds, f);
    LoadedKeys(f, h);
    hide ValidExcept, IsFileOf, EntryOk, InfoWith, AddrOf, TriedUpTo, NewBuckets;
    var s := Loaded(f, h);
    forall k | k in s.info
      ensures EntryOk(s, k) && 0 <= k < s.nIdCount && s.info[k].nLastTry >= 0 && s.info[k].nLastSuccess >= 0 {
      EntryRestored(t, h, newIds, triedIds, f, k);
    }
  }

  lemma {:induction false} ValidFromParts(t: Tables, h: Hashing)
    requires RandomOk(t) && AddrOk(t) && TriedOk(t, h) && BucketsOk(t) && EntriesOk(t, {}) && CountsOk(t)
    ensures Valid(t, h)
  {
  }

  /** The two operations together. */
  method SaveThenLoad(am: AddrMan, other: AddrMan) returns (ghost newIds: seq<int>, ghost triedIds: seq<int>)
    requires Valid(am.State(), am.hashing) && am != other && other.hashing == am.hashing
    modifies other
    ensures Valid(other.State(), other.hashing) && Restores(am.State(), other.State(), newIds, triedIds)
  {
    hide ValidExcept, IsFileOf, Clean, Restores, Loaded;
    var f;
    f, newIds, triedIds := Serialize(am);
    SaveLoadRoundTrip(am.State(), am.hashing, newIds, triedIds, f);
    CleanIsWellFormed(f, am.hashing);
    Unserialize(other, f);
  }

  lemma {:induction false} CleanIsWellFormed(f: Saved, h: Hashing)
    requires Clean(f, h)
    ensures WellFormed(f)
  {
  }
}
