/**
 * CTxMemPool: the pool of transactions and the index from an outpoint to its spender in the pool.
 */
module MemoryPool {
  import opened Basics

  /** A transaction as the pool sees it; `hash` is GetHash(), which identifies it. */
  datatype PooledTx = PooledTx(hash: Hash, vin: seq<OutPoint>, nOutputs: nat)

  /** CInPoint; the pointer into mapTx is the key it points at. */
  datatype InPoint = InPoint(ptx: Hash, n: nat)

  type Pool = map<Hash, PooledTx>
  type SpendIndex = map<OutPoint, InPoint>

  // ----- The invariant

  ghost predicate KeyedByHash(pool: Pool) {
    forall h :: h in pool ==> pool[h].hash == h
  }

  /** The index holds (t, i) at o exactly when input i of the pooled transaction t spends o. In particular
      no outpoint is spent twice in the pool. */
  ghost predicate IndexExact(pool: Pool, next: SpendIndex) {
    && (forall o :: o in next ==>
        next[o].ptx in pool && next[o].n < |pool[next[o].ptx].vin| && pool[next[o].ptx].vin[next[o].n] == o)
    && (forall h, i :: h in pool && 0 <= i < |pool[h].vin| ==>
        pool[h].vin[i] in next && next[pool[h].vin[i]] == InPoint(h, i))
  }

  /** Inputs refer to existing outputs of pooled parents. */
  ghost predicate InRange(pool: Pool) {
    forall h, i :: h in pool && 0 <= i < |pool[h].vin| && pool[h].vin[i].hash in pool ==>
      pool[h].vin[i].n < pool[pool[h].vin[i].hash].nOutputs
  }

  /** A numbering of transactions in which parents come before children: the spending relation has no cycle. */
  ghost predicate Acyclic(pool: Pool, rank: Hash -> nat) {
    forall h, i :: h in pool && 0 <= i < |pool[h].vin| ==> rank(pool[h].vin[i].hash) < rank(h)
  }

  ghost predicate PoolOk(pool: Pool, next: SpendIndex, rank: Hash -> nat) {
    KeyedByHash(pool) && IndexExact(pool, next) && InRange(pool) && Acyclic(pool, rank)
  }

  // ----- Descendants

  ghost predicate SpendsFrom(pool: Pool, parent: Hash, child: Hash) {
    child in pool && exists i :: 0 <= i < |pool[child].vin| && pool[child].vin[i].hash == parent
  }

  ghost predicate Path(pool: Pool, p: seq<Hash>) {
    && p != [] && (forall i :: 0 <= i < |p| ==> p[i] in pool)
    && forall i :: 0 <= i < |p| - 1 ==> SpendsFrom(pool, p[i], p[i + 1])
  }

  ghost predicate Reaches(pool: Pool, a: Hash, b: Hash) {
    exists p :: Path(pool, p) && p[0] == a && p[|p| - 1] == b
  }

  /** A transaction of the pool and all its descendants in the pool. */
  ghost function Descendants(pool: Pool, a: Hash): set<Hash> {
    set b | b in pool && Reaches(pool, a, b)
  }

  ghost function DescendantsOf(pool: Pool, roots: set<Hash>): set<Hash> {
    set b | b in pool && exists a :: a in roots && Reaches(pool, a, b)
  }

  ghost predicate ClosedUnderSpending(pool: Pool, d: set<Hash>) {
    forall x, y :: x in d && SpendsFrom(pool, x, y) ==> y in d
  }

  /** Everything in d except the exempt has a parent in d or among the extra ones. */
  ghost predicate HasParents(pool: Pool, exempt: set<Hash>, extra: set<Hash>, d: set<Hash>) {
    forall y :: y in d && y !in exempt ==> exists x :: x in d + extra && SpendsFrom(pool, x, y)
  }

  /** Everything in d descends, within d, from a root. */
  ghost predicate Rooted(pool: Pool, roots: set<Hash>, d: set<Hash>) {
    HasParents(pool, roots, {}, d)
  }

  ghost predicate IsCone(pool: Pool, a: Hash, d: set<Hash>) {
    d <= pool.Keys && a in d && ClosedUnderSpending(pool, d) && Rooted(pool, {a}, d)
  }

  lemma {:induction false} ClosedHoldsPath(pool: Pool, d: set<Hash>, p: seq<Hash>)
    requires ClosedUnderSpending(pool, d) && Path(pool, p) && p[0] in d
    ensures p[|p| - 1] in d
    decreases |p|
  {
    if |p| > 1 {
      var q := p[..|p| - 1];
      forall i | 0 <= i < |q| - 1 ensures SpendsFrom(pool, q[i], q[i + 1]) {
        assert SpendsFrom(pool, p[i], p[i + 1]);
      }
      ClosedHoldsPath(pool, d, q);
      assert SpendsFrom(pool, p[|p| - 2], p[|p| - 2 + 1]);
    }
  }

  lemma {:induction false} ReachesSelf(pool: Pool, a: Hash)
    requires a in pool
    ensures Reaches(pool, a, a)
  {
    assert Path(pool, [a]);
  }

  lemma {:induction false} ReachesChild(pool: Pool, a: Hash, x: Hash, y: Hash)
    requires Reaches(pool, a, x) && SpendsFrom(pool, x, y)
    ensures Reaches(pool, a, y)
  {
    var p :| Path(pool, p) && p[0] == a && p[|p| - 1] == x;
    var q := p + [y];
    forall i | 0 <= i < |q| - 1 ensures SpendsFrom(pool, q[i], q[i + 1]) {
      if i < |p| - 1 {
        assert SpendsFrom(pool, p[i], p[i + 1]);
      }
    }
    assert Path(pool, q);
  }

  lemma {:induction false} RootedIsReached(pool: Pool, rank: Hash -> nat, roots: set<Hash>, d: set<Hash>, y: Hash)
      returns (a: Hash)
    requires Acyclic(pool, rank) && d <= pool.Keys && Rooted(pool, roots, d) && y in d
    ensures a in roots && a in d && Reaches(pool, a, y)
    decreases rank(y)
  {
    if y in roots {
      a := y;
      ReachesSelf(pool, a);
    } else {
      var x :| x in d + {} && SpendsFrom(pool, x, y);
      a := RootedIsReached(pool, rank, roots, d, x);
      ReachesChild(pool, a, x, y);
    }
  }

  /** The set a removal takes out, closed under spending and rooted at one transaction, is exactly that
      transaction and its descendants. */
  lemma {:induction false} ConeIsDescendants(pool: Pool, next: SpendIndex, rank: Hash -> nat, a: Hash, d: set<Hash>)
    requires PoolOk(pool, next, rank) && IsCone(pool, a, d)
    ensures d == Descendants(pool, a)
  {
    forall b | b in d ensures b in Descendants(pool, a) {
      var r := RootedIsReached(pool, rank, {a}, d, b);
    }
    forall b | b in Descendants(pool, a) ensures b in d {
      var p :| Path(pool, p) && p[0] == a && p[|p| - 1] == b;
      ClosedHoldsPath(pool, d, p);
    }
  }

  lemma {:induction false} ConeIsAbove(pool: Pool, rank: Hash -> nat, a: Hash, d: set<Hash>, y: Hash)
    requires Acyclic(pool, rank) && IsCone(pool, a, d) && y in d
    ensures rank(a) <= rank(y)
    decreases rank(y)
  {
    if y != a {
      var x :| x in d + {} && SpendsFrom(pool, x, y);
      ConeIsAbove(pool, rank, a, d, x);
    }
  }

  // ----- Pools with part of them removed

  lemma {:induction false} SmallerPoolSpends(pool: Pool, r: set<Hash>, x: Hash, y: Hash)
    ensures SpendsFrom(pool - r, x, y) <==> SpendsFrom(pool, x, y) && y !in r
  {
    if SpendsFrom(pool - r, x, y) {
      var i :| 0 <= i < |(pool - r)[y].vin| && (pool - r)[y].vin[i].hash == x;
      assert pool[y].vin[i].hash == x;
    }
    if SpendsFrom(pool, x, y) && y !in r {
      var i :| 0 <= i < |pool[y].vin| && pool[y].vin[i].hash == x;
      assert (pool - r)[y].vin[i].hash == x;
    }
  }

  /** Removing the cone of c from what is left keeps the removed part closed and accounted for. */
  lemma {:induction false} RemovedGrows(pool: Pool, exempt: set<Hash>, extra: set<Hash>, r: set<Hash>, c: Hash,
                                        d: set<Hash>)
    requires r <= pool.Keys && ClosedUnderSpending(pool, r) && IsCone(pool - r, c, d)
    requires HasParents(pool, exempt, extra, r)
    requires c in exempt || exists x :: x in extra && SpendsFrom(pool, x, c)
    ensures r + d <= pool.Keys && r !! d && ClosedUnderSpending(pool, r + d) && (pool - r) - d == pool - (r + d)
    ensures HasParents(pool, exempt, extra, r + d)
  {
    forall x, y | x in r + d && SpendsFrom(pool, x, y) ensures y in r + d {
      SmallerPoolSpends(pool, r, x, y);
    }
    forall y | y in r + d && y !in exempt ensures exists x :: x in r + d + extra && SpendsFrom(pool, x, y) {
      if y in d {
        if y != c {
          var x :| x in d + {} && SpendsFrom(pool - r, x, y);
          SmallerPoolSpends(pool, r, x, y);
        }
      } else {
        var x :| x in r + extra && SpendsFrom(pool, x, y);
      }
    }
  }

  lemma {:induction false} ChildIsAbove(pool: Pool, r: set<Hash>, next: SpendIndex, rank: Hash -> nat, a: Hash,
                                        o: OutPoint)
    requires PoolOk(pool - r, next, rank) && a in pool && o.hash == a && o in next
    ensures var c := next[o].ptx;
            c in pool - r && pool[c].hash == c && SpendsFrom(pool, a, c) && rank(a) < rank(c) &&
                Above(pool - r, rank, c) < Above(pool, rank, a)
  {
    var c := next[o].ptx;
    assert pool[c].vin[next[o].n] == o;
    assert a in Above(pool, rank, a) && a !in Above(pool - r, rank, c);
  }

  lemma {:induction false} ConeMisses(pool: Pool, next: SpendIndex, rank: Hash -> nat, a: Hash, c: Hash, d: set<Hash>)
    requires PoolOk(pool, next, rank) && IsCone(pool, c, d) && rank(a) < rank(c)
    ensures a !in d
  {
    if a in d {
      ConeIsAbove(pool, rank, c, d, a);
    }
  }

  lemma {:induction false} IndexShrinks(pool: Pool, next: SpendIndex, rank: Hash -> nat, d: set<Hash>,
                                        next': SpendIndex)
    requires PoolOk(pool, next, rank) && PoolOk(pool - d, next', rank)
    ensures forall o :: o in next' ==> o in next && next'[o] == next[o]
  {
  }

  /** A removed part of the pool so far, to be extended one cone at a time. */
  ghost predicate Gathered(pool: Pool, exempt: set<Hash>, extra: set<Hash>, r: set<Hash>) {
    r <= pool.Keys && ClosedUnderSpending(pool, r) && HasParents(pool, exempt, extra, r)
  }

  ghost predicate Shrunk(next: SpendIndex, next': SpendIndex) {
    forall o :: o in next' ==> o in next && next'[o] == next[o]
  }

  lemma {:induction false} ChildTaken(pool: Pool, next: SpendIndex, next': SpendIndex, rank: Hash -> nat, a: Hash,
                                      r: set<Hash>, o: OutPoint, d: set<Hash>)
    requires a in pool && a !in r && Gathered(pool, {}, {a}, r) && PoolOk(pool - r, next, rank)
    requires o.hash == a && o in next && IsCone(pool - r, next[o].ptx, d) && PoolOk((pool - r) - d, next', rank)
    ensures Gathered(pool, {}, {a}, r + d) && (pool - r) - d == pool - (r + d) && a !in d && |r + d| == |r| + |d|
    ensures Shrunk(next, next') && o !in next'
  {
    var c := next[o].ptx;
    ChildIsAbove(pool, r, next, rank, a, o);
    hide PoolOk, ClosedUnderSpending, HasParents, SpendsFrom, Above;
    assert a in {a} && SpendsFrom(pool, a, c);
    RemovedGrows(pool, {}, {a}, r, c, d);
    ConeMisses(pool - r, next, rank, a, c, d);
    IndexShrinks(pool - r, next, rank, d, next');
    SpenderIsGone(pool - r, next, rank, d, next', o);
  }

  lemma {:induction false} ConflictTaken(pool: Pool, next: SpendIndex, next': SpendIndex, rank: Hash -> nat,
                                         roots: set<Hash>,
                                         r: set<Hash>, o: OutPoint, d: set<Hash>)
    requires Gathered(pool, roots, {}, r) && PoolOk(pool - r, next, rank)
    requires o in next && next[o].ptx in roots && IsCone(pool - r, next[o].ptx, d) &&
             PoolOk((pool - r) - d, next', rank)
    ensures Gathered(pool, roots, {}, r + d) && (pool - r) - d == pool - (r + d) && |r + d| == |r| + |d|
    ensures Shrunk(next, next') && o !in next'
  {
    hide PoolOk, ClosedUnderSpending, HasParents, SpendsFrom;
    RemovedGrows(pool, roots, {}, r, next[o].ptx, d);
    IndexShrinks(pool - r, next, rank, d, next');
    SpenderIsGone(pool - r, next, rank, d, next', o);
  }

  lemma {:induction false} ChildrenAreGone(pool: Pool, r: set<Hash>, next: SpendIndex, rank: Hash -> nat, a: Hash)
    requires a in pool && a !in r && PoolOk(pool - r, next, rank)
    requires Gathered(pool, {}, {a}, r)
    requires forall n :: 0 <= n < pool[a].nOutputs ==> OutPoint(a, n) !in next
    ensures IsCone(pool, a, r + {a})
  {
    var rest := pool - r;
    forall y: Hash | SpendsFrom(pool, a, y) ensures y in r {
      var i :| 0 <= i < |pool[y].vin| && pool[y].vin[i].hash == a;
      SpenderIsIndexed(rest, next, y, i);
      assert pool[y].vin[i] == OutPoint(a, pool[y].vin[i].n);
    }
    forall y | y in r + {a} && y !in {a} ensures exists x :: x in r + {a} + {} && SpendsFrom(pool, x, y) {
      var x :| x in r + {a} && SpendsFrom(pool, x, y);
    }
  }

  lemma {:induction false} SpenderIsIndexed(pool: Pool, next: SpendIndex, h: Hash, i: int)
    requires IndexExact(pool, next)
    ensures h in pool && 0 <= i < |pool[h].vin| ==> pool[h].vin[i] in next && next[pool[h].vin[i]] == InPoint(h, i)
  {
  }

  lemma {:induction false} NothingRemoved(pool: Pool, exempt: set<Hash>, extra: set<Hash>)
    ensures Gathered(pool, exempt, extra, {}) && pool - {} == pool
  {
  }

  lemma {:induction false} ConflictsAreGone(pool: Pool, r: set<Hash>, next: SpendIndex, rank: Hash -> nat, tx: PooledTx)
    requires PoolOk(pool - r, next, rank) && NoOtherSpender(pool - r, next, tx, |tx.vin|)
    ensures Conflicts(pool, tx) <= r && Conflicts(pool - r, tx) == {}
  {
    forall h | h in Conflicts(pool, tx) ensures h in r {
      var i, j :| 0 <= i < |pool[h].vin| && 0 <= j < |tx.vin| && pool[h].vin[i] == tx.vin[j];
      SpenderIsIndexed(pool - r, next, h, i);
    }
    assert Conflicts(pool - r, tx) <= Conflicts(pool, tx) - r;
  }

  /** The transactions of the pool ranked at or above one of them; a recursive removal works in ever smaller such
      sets. */
  ghost function Above(pool: Pool, rank: Hash -> nat, h: Hash): set<Hash> {
    set x | x in pool && rank(x) >= rank(h)
  }

  function Spent(vin: seq<OutPoint>): set<OutPoint> {
    set o | o in vin
  }

  function WithoutInputs(next: SpendIndex, vin: seq<OutPoint>): SpendIndex {
    next - Spent(vin)
  }

  /** Taking one transaction and its inputs out keeps the invariant. */
  lemma {:induction false} RemoveOneKeepsOk(pool: Pool, next: SpendIndex, rank: Hash -> nat, h: Hash)
    requires PoolOk(pool, next, rank) && h in pool
    ensures PoolOk(pool - {h}, WithoutInputs(next, pool[h].vin), rank)
  {
  }

  // ----- Adding

  function WithInputs(next: SpendIndex, tx: PooledTx, k: nat): SpendIndex
    requires k <= |tx.vin|
  {
    if k == 0 then next else WithInputs(next, tx, k - 1)[tx.vin[k - 1] := InPoint(tx.hash, k - 1)]
  }

  /** What AcceptToMemoryPool has checked: new, distinct unspent inputs in range, and no cycle. */
  ghost predicate CanAdd(pool: Pool, next: SpendIndex, rank: Hash -> nat, tx: PooledTx) {
    && tx.hash !in pool && Distinct(tx.vin)
    && (forall i :: 0 <= i < |tx.vin| ==> tx.vin[i] !in next && rank(tx.vin[i].hash) < rank(tx.hash))
    && (forall i :: 0 <= i < |tx.vin| && tx.vin[i].hash in pool ==> tx.vin[i].n < pool[tx.vin[i].hash].nOutputs)
    && forall h, i :: h in pool && 0 <= i < |pool[h].vin| && pool[h].vin[i].hash == tx.hash ==>
         pool[h].vin[i].n < tx.nOutputs
  }

  lemma {:induction false} WithInputsExact(next: SpendIndex, tx: PooledTx, k: nat)
    requires k <= |tx.vin| && Distinct(tx.vin)
    ensures forall i :: 0 <= i < k ==>
            tx.vin[i] in WithInputs(next, tx, k) && WithInputs(next, tx, k)[tx.vin[i]] == InPoint(tx.hash, i)
    ensures forall o :: o in WithInputs(next, tx, k) <==> o in next || exists i :: 0 <= i < k && tx.vin[i] == o
    ensures forall o :: o in next && (forall i :: 0 <= i < k ==> tx.vin[i] != o) ==>
            WithInputs(next, tx, k)[o] == next[o]
  {
    if k > 0 {
      WithInputsExact(next, tx, k - 1);
    }
  }

  lemma {:induction false} AddKeepsIndex(pool: Pool, next: SpendIndex, tx: PooledTx)
    requires IndexExact(pool, next) && tx.hash !in pool && Distinct(tx.vin)
    requires forall i :: 0 <= i < |tx.vin| ==> tx.vin[i] !in next
    ensures IndexExact(pool[tx.hash := tx], WithInputs(next, tx, |tx.vin|))
  {
    WithInputsExact(next, tx, |tx.vin|);
    var pool', next' := pool[tx.hash := tx], WithInputs(next, tx, |tx.vin|);
    hide WithInputs;
    forall o | o in next'
      ensures next'[o].ptx in pool' && next'[o].n < |pool'[next'[o].ptx].vin| &&
              pool'[next'[o].ptx].vin[next'[o].n] == o
    {
      if i :| 0 <= i < |tx.vin| && tx.vin[i] == o {
        assert next'[o] == InPoint(tx.hash, i);
      } else {
        assert next'[o] == next[o];
      }
    }
    forall h, i | h in pool' && 0 <= i < |pool'[h].vin|
      ensures pool'[h].vin[i] in next' && next'[pool'[h].vin[i]] == InPoint(h, i)
    {
      if h != tx.hash {
        assert pool[h].vin[i] in next;
      }
    }
  }

  lemma {:induction false} AddKeepsOk(pool: Pool, next: SpendIndex, rank: Hash -> nat, tx: PooledTx)
    requires PoolOk(pool, next, rank) && CanAdd(pool, next, rank, tx)
    ensures PoolOk(pool[tx.hash := tx], WithInputs(next, tx, |tx.vin|), rank)
  {
    hide IndexExact, WithInputs;
    AddKeepsIndex(pool, next, tx);
  }

  // ----- The code

  class TxMemPool {
    var mapTx: Pool
    var mapNextTx: SpendIndex
    var nTransactionsUpdated: nat
    ghost const rank: Hash -> nat

    constructor (ghost rank: Hash -> nat)
      ensures PoolOk(mapTx, mapNextTx, this.rank) && mapTx == map[] && this.rank == rank
    {
      mapTx, mapNextTx, nTransactionsUpdated := map[], map[], 0;
      this.rank := rank;
    }

    method AddUnchecked(hash: Hash, tx: PooledTx)
      requires hash == tx.hash
      modifies this
      ensures mapTx == old(mapTx)[hash := tx] && mapNextTx == WithInputs(old(mapNextTx), tx, |tx.vin|)
      ensures nTransactionsUpdated == old(nTransactionsUpdated) + 1
      ensures old(PoolOk(mapTx, mapNextTx, rank) && CanAdd(mapTx, mapNextTx, rank, tx)) ==>
              PoolOk(mapTx, mapNextTx, rank)
    {
      if PoolOk(mapTx, mapNextTx, rank) && CanAdd(mapTx, mapNextTx, rank, tx) {
        AddKeepsOk(mapTx, mapNextTx, rank, tx);
      }
      mapTx := mapTx[hash := tx];
      for i := 0 to |tx.vin|
        invariant mapTx == old(mapTx)[hash := tx] && mapNextTx == WithInputs(old(mapNextTx), tx, i)
        invariant nTransactionsUpdated == old(nTransactionsUpdated)
      {
        mapNextTx := mapNextTx[tx.vin[i] := InPoint(hash, i)];
      }
      nTransactionsUpdated := nTransactionsUpdated + 1;
    }

    /** The tail of remove: erase the inputs, erase the transaction, count the update. */
    method Erase(tx: PooledTx)
      modifies this
      ensures mapTx == old(mapTx) - {tx.hash} && mapNextTx == WithoutInputs(old(mapNextTx), tx.vin)
      ensures nTransactionsUpdated == old(nTransactionsUpdated) + 1
    {
      for i := 0 to |tx.vin|
        invariant mapTx == old(mapTx) && nTransactionsUpdated == old(nTransactionsUpdated)
        invariant mapNextTx == WithoutInputs(old(mapNextTx), tx.vin[..i])
      {
        mapNextTx := mapNextTx - {tx.vin[i]};
      }
      assert tx.vin[..|tx.vin|] == tx.vin;
      mapTx := mapTx - {tx.hash};
      nTransactionsUpdated := nTransactionsUpdated + 1;
    }

    /** Removes a transaction, and with fRecursive everything in the pool that depends on it. */
    method Remove(tx: PooledTx, fRecursive: bool) returns (ghost removed: set<Hash>)
      requires PoolOk(mapTx, mapNextTx, rank)
      requires tx.hash in mapTx ==> mapTx[tx.hash] == tx
      modifies this
      ensures PoolOk(mapTx, mapNextTx, rank)
      ensures mapTx == old(mapTx) - removed && nTransactionsUpdated == old(nTransactionsUpdated) + |removed|
      ensures tx.hash !in old(mapTx) ==> removed == {}
      ensures tx.hash in old(mapTx) && !fRecursive ==> removed == {tx.hash}
      ensures tx.hash in old(mapTx) && fRecursive ==>
                IsCone(old(mapTx), tx.hash, removed) && removed == Descendants(old(mapTx), tx.hash)
      decreases Above(mapTx, rank, tx.hash), if fRecursive then 1 else 0
    {
      hide PoolOk, IsCone, Descendants, WithoutInputs, Above;
      removed := {};
      if tx.hash in mapTx {
        if fRecursive {
          removed := RemoveChildren(tx);
        }
        RemoveOneKeepsOk(mapTx, mapNextTx, rank, tx.hash);
        Erase(tx);
        removed := removed + {tx.hash};
        if fRecursive {
          ConeIsDescendants(old(mapTx), old(mapNextTx), rank, tx.hash, removed);
        }
      }
    }

    /** The recursive part of remove: one output at a time. */
    method RemoveChildren(tx: PooledTx) returns (ghost removed: set<Hash>)
      requires PoolOk(mapTx, mapNextTx, rank) && tx.hash in mapTx && mapTx[tx.hash] == tx
      modifies this
      ensures PoolOk(mapTx, mapNextTx, rank) && tx.hash in mapTx && mapTx[tx.hash] == tx
      ensures tx.hash !in removed && mapTx == old(mapTx) - removed &&
              nTransactionsUpdated == old(nTransactionsUpdated) + |removed|
      ensures IsCone(old(mapTx), tx.hash, removed + {tx.hash})
      decreases Above(mapTx, rank, tx.hash), 0
    {
      hide PoolOk, IsCone, Gathered, SpendsFrom, Above, WithoutInputs;
      ghost var pool := mapTx;
      removed := {};
      NothingRemoved(pool, {}, {tx.hash});
      for i := 0 to tx.nOutputs
        invariant PoolOk(mapTx, mapNextTx, rank)
        invariant tx.hash !in removed && mapTx == pool - removed
        invariant nTransactionsUpdated == old(nTransactionsUpdated) + |removed|
        invariant Gathered(pool, {}, {tx.hash}, removed)
        invariant forall n :: 0 <= n < i ==> OutPoint(tx.hash, n) !in mapNextTx
      {
        var o := OutPoint(tx.hash, i);
        if o in mapNextTx {
          ghost var next := mapNextTx;
          ChildIsAbove(pool, removed, mapNextTx, rank, tx.hash, o);
          var child := mapTx[mapNextTx[o].ptx];
          ghost var d := Remove(child, true);
          ChildTaken(pool, next, mapNextTx, rank, tx.hash, removed, o, d);
          removed := removed + d;
        }
      }
      ChildrenAreGone(pool, removed, mapNextTx, rank, tx.hash);
    }

    method RemoveConflicts(tx: PooledTx) returns (ghost removed: set<Hash>)
      requires PoolOk(mapTx, mapNextTx, rank)
      modifies this
      ensures PoolOk(mapTx, mapNextTx, rank) && mapTx == old(mapTx) - removed
      ensures nTransactionsUpdated == old(nTransactionsUpdated) + |removed|
      ensures NoOtherSpender(mapTx, mapNextTx, tx, |tx.vin|)
      ensures removed == DescendantsOf(old(mapTx), Conflicts(old(mapTx), tx))
      ensures Conflicts(mapTx, tx) == {}
    {
      hide PoolOk, IsCone, Gathered, SpendsFrom, Conflicts, DescendantsOf;
      ghost var pool := mapTx;
      ghost var roots := Conflicts(pool, tx);
      removed := {};
      NothingRemoved(pool, roots, {});
      for i := 0 to |tx.vin|
        invariant PoolOk(mapTx, mapNextTx, rank)
        invariant mapTx == pool - removed && nTransactionsUpdated == old(nTransactionsUpdated) + |removed|
        invariant Gathered(pool, roots, {}, removed)
        invariant NoOtherSpender(mapTx, mapNextTx, tx, i)
      {
        var o := tx.vin[i];
        if o in mapNextTx {
          IsConflict(pool, removed, mapNextTx, rank, tx, i);
          var txConflict := mapTx[mapNextTx[o].ptx];
          if txConflict != tx {
            ghost var next := mapNextTx;
            ghost var d := Remove(txConflict, true);
            ConflictTaken(pool, next, mapNextTx, rank, roots, removed, o, d);
            StillNoOtherSpender(pool - removed, next, mapNextTx, rank, tx, i, d);
            removed := removed + d;
          }
        }
      }
      ConflictsAreGone(pool, removed, mapNextTx, rank, tx);
      ConflictsAndDescendants(pool, old(mapNextTx), rank, roots, removed);
    }

    method Clear()
      modifies this
      ensures mapTx == map[] && mapNextTx == map[] && nTransactionsUpdated == old(nTransactionsUpdated) + 1
      ensures PoolOk(mapTx, mapNextTx, rank)
    {
      mapTx, mapNextTx := map[], map[];
      nTransactionsUpdated := nTransactionsUpdated + 1;
    }
  }

  /** Among the first k inputs of tx, whatever still has a spender in the pool has tx itself. */
  ghost predicate NoOtherSpender(pool: Pool, next: SpendIndex, tx: PooledTx, k: int) {
    forall i :: 0 <= i < k && i < |tx.vin| && tx.vin[i] in next ==>
        next[tx.vin[i]].ptx in pool && pool[next[tx.vin[i]].ptx] == tx
  }

  lemma {:induction false} SpenderIsGone(pool: Pool, next: SpendIndex, rank: Hash -> nat, d: set<Hash>,
                                         next': SpendIndex, o: OutPoint)
    requires PoolOk(pool, next, rank) && PoolOk(pool - d, next', rank) && o in next && next[o].ptx in d
    ensures o !in next'
  {
  }

  lemma {:induction false} StillNoOtherSpender(pool: Pool, next: SpendIndex, next': SpendIndex, rank: Hash -> nat,
                                               tx: PooledTx, i: int, d: set<Hash>)
    requires NoOtherSpender(pool, next, tx, i) && 0 <= i < |tx.vin|
    requires PoolOk(pool - d, next', rank) && Shrunk(next, next') && tx.vin[i] !in next'
    ensures forall k :: k == i + 1 ==> NoOtherSpender(pool - d, next', tx, k)
  {
  }

  /** What removing conflicts takes out: the conflicting transactions and everything that descends from them. */
  lemma {:induction false} ConflictsAndDescendants(pool: Pool, next: SpendIndex, rank: Hash -> nat, roots: set<Hash>,
                                                   d: set<Hash>)
    requires PoolOk(pool, next, rank) && Gathered(pool, roots, {}, d) && roots <= d
    ensures d == DescendantsOf(pool, roots)
  {
    forall b | b in d ensures b in DescendantsOf(pool, roots) {
      var a := RootedIsReached(pool, rank, roots, d, b);
    }
    forall b | b in DescendantsOf(pool, roots) ensures b in d {
      var a :| a in roots && Reaches(pool, a, b);
      var p :| Path(pool, p) && p[0] == a && p[|p| - 1] == b;
      ClosedHoldsPath(pool, d, p);
    }
  }

  lemma {:induction false} IsConflict(pool: Pool, r: set<Hash>, next: SpendIndex, rank: Hash -> nat, tx: PooledTx,
                                      i: int)
    requires PoolOk(pool - r, next, rank) && 0 <= i < |tx.vin| && tx.vin[i] in next
    ensures var h := next[tx.vin[i]].ptx;
            h in pool - r && pool[h].hash == h && (pool[h] != tx ==> h in Conflicts(pool, tx))
  {
  }

  /** The pooled transactions other than tx that spend an input of tx. */
  ghost function Conflicts(pool: Pool, tx: PooledTx): set<Hash> {
    set h | h in pool && pool[h] != tx &&
            exists i, j :: 0 <= i < |pool[h].vin| && 0 <= j < |tx.vin| && pool[h].vin[i] == tx.vin[j]
  }
}
