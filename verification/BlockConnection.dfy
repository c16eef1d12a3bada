/**
 * CBlock: the structural checks on a block, connecting it to the index and disconnecting it again.
 */
module BlockConnection {
  import opened Basics
  import opened Ledger
  import opened Transaction
  import opened BlockLedger
  import opened MoneySupply

  /** What the checks on a block consult besides its transactions and the index. `otherChecks` stands for proof
      of work, merkle root, size, signature, transaction locks and the checks on payments. */
  datatype BlockContext = BlockContext(otherChecks: bool, nSizeOf: Tx -> nat, nMaxSize: nat, nBlockTime: nat,
                                       posOf: Positions, store: Store, rules: Rules, withinSigOps: nat -> bool,
                                       powReward: int -> int, posReward: int -> Option<int>, nSupplyBefore: int)

  predicate IsProofOfStake(vtx: seq<Tx>) {
    |vtx| > 1 && vtx[1].IsCoinStake()
  }

  // ----- CheckBlock

  ghost predicate TransactionsOk(vtx: seq<Tx>, ctx: BlockContext, k: int) {
    forall i :: 0 <= i < k && i < |vtx| ==>
        WellFormed(vtx[i], ctx.nSizeOf(vtx[i]), ctx.nMaxSize) && vtx[i].nTime <= ctx.nBlockTime
  }

  ghost predicate BlockWellFormed(vtx: seq<Tx>, ctx: BlockContext) {
    && vtx != [] && ctx.otherChecks
    && vtx[0].IsCoinBase() && (forall i :: 1 <= i < |vtx| ==> !vtx[i].IsCoinBase())
    && (IsProofOfStake(vtx) ==>
        |vtx[0].vout| == 1 && vtx[0].vout[0].IsEmpty() && forall i :: 2 <= i < |vtx| ==> !vtx[i].IsCoinStake())
    && TransactionsOk(vtx, ctx, |vtx|)
    && UniqueHashes(vtx)
  }

  /** What passes the structural checks: one coinbase, in front; well-formed transactions no younger than the block, no
      two of one hash; and where the second is a coinstake, no other, and a coinbase of one empty output. */
  lemma {:induction false} PassesBlockCheckIff(vtx: seq<Tx>, ctx: BlockContext)
    ensures BlockWellFormed(vtx, ctx) <==>
            && ctx.otherChecks && |vtx| >= 1 && (forall i :: 0 <= i < |vtx| ==> (vtx[i].IsCoinBase() <==> i == 0))
            && (forall i :: 0 <= i < |vtx| ==>
                  vtx[i].nTime <= ctx.nBlockTime && Verdict(vtx[i], ctx.nSizeOf(vtx[i]), ctx.nMaxSize) == Passed)
            && (forall i, j :: 0 <= i < j < |vtx| ==> vtx[i].hash != vtx[j].hash)
            && (|vtx| > 1 && vtx[1].IsCoinStake() ==>
                  && vtx[0].vout == [TxOut(0, [])] && forall i :: 1 < i < |vtx| ==> !vtx[i].IsCoinStake())
  {
    hide WellFormed;
    assert |vtx| > 0 && |vtx[0].vout| == 1 ==> vtx[0].vout == [vtx[0].vout[0]];
  }

  /** A set built from a sequence is smaller exactly when something was repeated. */
  lemma {:induction false} SizeTellsDistinct<T>(s: seq<T>)
    ensures |Elements(s)| <= |s|
    ensures |Elements(s)| == |s| ==> Distinct(s)
  {
    if s == [] {
      assert Elements(s) == {};
    } else {
      var last := |s| - 1;
      SizeTellsDistinct(s[..last]);
      assert Elements(s) == Elements(s[..last]) + {s[last]};
      if s[last] in s[..last] {
        assert Elements(s) == Elements(s[..last]);
      }
    }
  }

  method HashesAreUnique(vtx: seq<Tx>) returns (unique: bool)
    ensures unique <==> UniqueHashes(vtx)
  {
    ghost var hashes := seq(|vtx|, i requires 0 <= i < |vtx| => vtx[i].hash);
    var uniqueTx: set<Hash> := {};
    for i := 0 to |vtx|
      invariant uniqueTx == Elements(hashes[..i])
    {
      assert hashes[..i + 1] == hashes[..i] + [hashes[i]];
      uniqueTx := uniqueTx + {vtx[i].hash};
    }
    assert hashes[..|vtx|] == hashes;
    SizeTellsDistinct(hashes);
    if Distinct(hashes) {
      DistinctSize(hashes);
    }
    assert Distinct(hashes) <==> UniqueHashes(vtx) by {
      if UniqueHashes(vtx) {
        assert Distinct(hashes);
      }
      if Distinct(hashes) {
        forall i, j | 0 <= i < j < |vtx| ensures vtx[i].hash != vtx[j].hash {
          assert hashes[i] != hashes[j];
        }
      }
    }
    return |uniqueTx| == |vtx|;
  }

  /** The loop over CheckTransaction. */
  method CheckTransactions(vtx: seq<Tx>, ctx: BlockContext) returns (ok: bool)
    ensures ok <==> TransactionsOk(vtx, ctx, |vtx|)
  {
    hide WellFormed;
    for i := 0 to |vtx|
      invariant TransactionsOk(vtx, ctx, i)
    {
      var checked := CheckTransaction(vtx[i], ctx.nSizeOf(vtx[i]), ctx.nMaxSize);
      if checked != Passed || ctx.nBlockTime < vtx[i].nTime {
        return false;
      }
    }
    return true;
  }

  method CheckBlock(vtx: seq<Tx>, ctx: BlockContext) returns (ok: bool)
    ensures ok <==> BlockWellFormed(vtx, ctx)
  {
    hide TransactionsOk, UniqueHashes;
    if vtx == [] || !ctx.otherChecks || !vtx[0].IsCoinBase() {
      return false;
    }
    for i := 1 to |vtx|
      invariant forall j :: 1 <= j < i ==> !vtx[j].IsCoinBase()
    {
      if vtx[i].IsCoinBase() {
        return false;
      }
    }
    if IsProofOfStake(vtx) {
      if |vtx[0].vout| != 1 || !vtx[0].vout[0].IsEmpty() {
        return false;
      }
      for i := 2 to |vtx|
        invariant forall j :: 2 <= j < i ==> !vtx[j].IsCoinStake()
      {
        if vtx[i].IsCoinStake() {
          return false;
        }
      }
    }
    ok := CheckTransactions(vtx, ctx);
    if ok {
      ok := HashesAreUnique(vtx);
    }
  }

  // ----- What it takes to connect a block

  /** The previous transactions of tx as the view and the store have them. */
  ghost function InputsOf(view: View, store: Store, tx: Tx): Inputs {
    map h | h in Hashes(Prevouts(tx.vin)) && Found(h, view, map[], true, store).Some? ::
        Found(h, view, map[], true, store).value
  }

  ghost predicate TxConnects(view: View, tx: Tx, i: nat, ctx: BlockContext) {
    && ctx.withinSigOps(i)
    && (tx.IsCoinBase() || Fetchable(tx.vin, view, map[], true, ctx.store))
    && Connectable(tx, InputsOf(view, ctx.store, tx), ctx.rules)
  }

  ghost predicate AllConnect(view: View, vtx: seq<Tx>, ctx: BlockContext) {
    vtx == [] ||
    (AllConnect(view, vtx[..|vtx| - 1], ctx) &&
     TxConnects(ConnectedAll(view, vtx[..|vtx| - 1], ctx.posOf), vtx[|vtx| - 1], |vtx| - 1, ctx))
  }

  ghost function InValue(view: View, tx: Tx, store: Store): int {
    var inputs := InputsOf(view, store, tx);
    if !tx.IsCoinBase() && forall i :: 0 <= i < |tx.vin| ==> InputInRange(inputs, tx.vin[i].prevout)
    then ValueIn(tx.vin, inputs) else 0
  }

  datatype Totals = Totals(nValueIn: int, nValueOut: int, nFees: int, nStakeReward: int)

  function Counted(t: Totals, tx: Tx, nIn: int, nOut: int): Totals {
    if tx.IsCoinBase() then t.(nValueOut := t.nValueOut + nOut)
    else if tx.IsCoinStake() then Totals(t.nValueIn + nIn, t.nValueOut + nOut, t.nFees, nOut - nIn)
    else Totals(t.nValueIn + nIn, t.nValueOut + nOut, t.nFees + nIn - nOut, t.nStakeReward)
  }

  ghost function TotalsOf(view: View, vtx: seq<Tx>, ctx: BlockContext): Totals {
    if vtx == [] then Totals(0, 0, 0, 0)
    else
      var last := |vtx| - 1;
      Counted(TotalsOf(view, vtx[..last], ctx), vtx[last],
              InValue(ConnectedAll(view, vtx[..last], ctx.posOf), vtx[last], ctx.store), Total(vtx[last].vout))
  }

  /** The money supply recorded with a block, from that of the block before. */
  ghost function SupplyAfter(index: View, vtx: seq<Tx>, ctx: BlockContext): int {
    var t := TotalsOf(index, vtx, ctx);
    ctx.nSupplyBefore + t.nValueOut - t.nValueIn
  }

  predicate RewardAllowed(vtx: seq<Tx>, t: Totals, ctx: BlockContext)
    requires vtx != []
  {
    if IsProofOfStake(vtx) then ctx.posReward(t.nFees).Some? && t.nStakeReward <= ctx.posReward(t.nFees).value
    else Total(vtx[0].vout) <= ctx.powReward(t.nFees)
  }

  // ----- The code

  /** CTxDB, as far as the transaction index goes. */
  class TxDb {
    var index: View

    constructor (index: View)
      ensures this.index == index
    {
      this.index := index;
    }

    method ReadTxIndex(h: Hash) returns (entry: Option<TxIndex>)
      ensures entry == if h in index then Some(index[h]) else None
    {
      return if h in index then Some(index[h]) else None;
    }

    method UpdateTxIndex(h: Hash, entry: TxIndex)
      modifies this
      ensures index == old(index)[h := entry]
    {
      index := index[h := entry];
    }

    method EraseTxIndex(h: Hash)
      modifies this
      ensures index == old(index) - {h}
    {
      index := index - {h};
    }
  }

  /** Gives back the slots of a transaction's inputs and removes its own entry. */
  method DisconnectInputs(tx: Tx, txdb: TxDb) returns (ok: bool)
    modifies txdb
    ensures ok <==> Disconnected(old(txdb.index), tx).Some?
    ensures ok ==> Some(txdb.index) == Disconnected(old(txdb.index), tx)
  {
    hide MarkedAll, SameShape;
    ghost var start, outs := txdb.index, Spent(tx);
    NoneMarked(start);
    if !tx.IsCoinBase() {
      for i := 0 to |tx.vin|
        invariant txdb.index == MarkedAll(start, outs[..i], UNSPENT)
        invariant forall j :: 0 <= j < i ==> HasSlot(start, outs[j])
      {
        var prevout := tx.vin[i].prevout;
        MarkedAllSlots(start, outs[..i], UNSPENT);
        SameShapeSameSlots(start, txdb.index, prevout);
        MarkNext(start, outs, i, UNSPENT);
        var txindex := txdb.ReadTxIndex(prevout.hash);
        if txindex == None || prevout.n >= |txindex.value.vSpent| {
          assert outs[i] in outs;
          return false;
        }
        txdb.UpdateTxIndex(prevout.hash, txindex.value.(vSpent := txindex.value.vSpent[prevout.n := UNSPENT]));
      }
      assert outs[..|tx.vin|] == outs;
    }
    txdb.EraseTxIndex(tx.hash);
    return true;
  }

  lemma {:induction false} NoneMarked(view: View)
    ensures MarkedAll(view, [], UNSPENT) == view
  {
  }

  /** Disconnects the transactions of a block, last first. */
  method DisconnectBlock(vtx: seq<Tx>, txdb: TxDb) returns (ok: bool)
    modifies txdb
    ensures ok <==> DisconnectedAll(old(txdb.index), vtx).Some?
    ensures ok ==> Some(txdb.index) == DisconnectedAll(old(txdb.index), vtx)
  {
    hide Disconnected;
    assert vtx[..|vtx|] == vtx;
    for i := |vtx| downto 0
      invariant DisconnectedAll(txdb.index, vtx[..i]) == DisconnectedAll(old(txdb.index), vtx)
    {
      assert vtx[..i + 1][..i] == vtx[..i];
      var disconnected := DisconnectInputs(vtx[i], txdb);
      if !disconnected {
        return false;
      }
    }
    return true;
  }

  /** The sum of the outputs a transaction spends; nothing when it throws. */
  method GetValueMapIn(tx: Tx, inputs: Inputs) returns (value: Option<int>)
    ensures tx.IsCoinBase() ==> value == Some(0)
    ensures !tx.IsCoinBase() && (forall i :: 0 <= i < |tx.vin| ==> InputInRange(inputs, tx.vin[i].prevout)) ==>
              value == Some(ValueIn(tx.vin, inputs))
  {
    if tx.IsCoinBase() {
      return Some(0);
    }
    ghost var allThere := forall i :: 0 <= i < |tx.vin| ==> InputInRange(inputs, tx.vin[i].prevout);
    var nResult := 0;
    for i := 0 to |tx.vin|
      invariant allThere ==> nResult == ValueIn(tx.vin[..i], inputs)
    {
      var prevout := tx.vin[i].prevout;
      assert tx.vin[..i + 1][..i] == tx.vin[..i];
      if prevout.hash !in inputs || prevout.n >= |inputs[prevout.hash].tx.vout| {
        return None;
      }
      nResult := nResult + inputs[prevout.hash].tx.vout[prevout.n].nValue;
    }
    assert tx.vin[..|tx.vin|] == tx.vin;
    return Some(nResult);
  }

  /** What the loop of ConnectBlock does with one transaction: its inputs, its own entry, and the running totals. */
  method ConnectTransaction(tx: Tx, i: nat, index: View, mapQueuedChanges: View, ctx: BlockContext, totals: Totals)
    returns (ok: bool, pending: View, counted: Totals)
    requires OutputsInRange(tx.vout) && Positioned(ctx.posOf)
    ensures ok <==> TxConnects(index + mapQueuedChanges, tx, i, ctx)
    ensures ok ==> Spendable(index + mapQueuedChanges, Spent(tx))
    ensures ok ==> index + pending == Connected(index + mapQueuedChanges, tx, ctx.posOf(i))
    ensures ok ==> counted == Counted(totals, tx, InValue(index + mapQueuedChanges, tx, ctx.store), Total(tx.vout))
  {
    hide Spendable, OutputsInRange, Connectable, Fetchable, FetchedSoFar, InputsOf, MarkedAll, WrittenBack;
    pending, counted := mapQueuedChanges, totals;
    if !ctx.withinSigOps(i) {
      return false, pending, counted;
    }
    var nOut := GetValueOut(tx);
    CoinBaseSpendsNothing(index + mapQueuedChanges, tx, ctx.posOf(i), InputsOf(index + mapQueuedChanges, ctx.store, tx),
                          ctx.rules);
    if tx.IsCoinBase() {
      counted := Counted(totals, tx, 0, nOut.value);
    } else {
      var fetched, inputs, fInvalid := FetchInputs(tx, index, mapQueuedChanges, true, false, ctx.store);
      FetchableInView(tx, index, mapQueuedChanges, ctx.store);
      if !fetched {
        return false, pending, counted;
      }
      FetchedIsInputsOf(tx, index, mapQueuedChanges, ctx.store, inputs);
      FetchedValue(tx, index, mapQueuedChanges, ctx.store, inputs);
      var nIn := GetValueMapIn(tx, inputs);
      counted := Counted(totals, tx, nIn.value, nOut.value);
      var result;
      result, pending := ConnectInputs(tx, inputs, mapQueuedChanges, ctx.posOf(i), ctx.rules, true, false);
      if result != Passed {
        return false, pending, counted;
      }
      ConnectActsOnView(index, mapQueuedChanges, ctx.store, tx, inputs, ctx.posOf(i));
      SpendableInView(tx, index, mapQueuedChanges, ctx.store, inputs, ctx.rules);
    }
    pending := pending[tx.hash := TxIndex(ctx.posOf(i), FreshSlots(|tx.vout|))];
    return true, pending, counted;
  }

  lemma {:induction false} CoinBaseSpendsNothing(view: View, tx: Tx, pos: DiskTxPos, inputs: Inputs, rules: Rules)
    ensures tx.IsCoinBase() ==>
            Spendable(view, Spent(tx)) && MarkedAll(view, Spent(tx), pos) == view && Connectable(tx, inputs, rules)
  {
  }

  lemma {:induction false} FetchableInView(tx: Tx, index: View, pending: View, store: Store)
    ensures Fetchable(tx.vin, index, pending, true, store) <==> Fetchable(tx.vin, index + pending, map[], true, store)
  {
  }

  lemma {:induction false} FetchedIsInputsOf(tx: Tx, index: View, pending: View, store: Store, inputs: Inputs)
    requires FetchedSoFar(tx.vin, |tx.vin|, index, pending, true, store, inputs)
    ensures inputs == InputsOf(index + pending, store, tx)
  {
    hide Found, ValueIn;
    var there := InputsOf(index + pending, store, tx);
    forall h ensures h in inputs <==> h in Hashes(Prevouts(tx.vin)) {
      if h in inputs {
        var j :| 0 <= j < |tx.vin| && tx.vin[j].prevout.hash == h;
        assert Prevouts(tx.vin)[j].hash == h;
      }
      if h in Hashes(Prevouts(tx.vin)) {
        var o :| o in Prevouts(tx.vin) && o.hash == h;
      }
    }
    forall h | h in inputs ensures h in there && there[h] == inputs[h] {
      FoundInView(h, index, pending, store);
    }
  }

  lemma {:induction false} FetchedValue(tx: Tx, index: View, pending: View, store: Store, inputs: Inputs)
    requires inputs == InputsOf(index + pending, store, tx) && !tx.IsCoinBase()
    requires forall i :: 0 <= i < |tx.vin| ==> InputInRange(inputs, tx.vin[i].prevout)
    ensures InValue(index + pending, tx, store) == ValueIn(tx.vin, inputs)
  {
  }

  lemma {:induction false} SpendableInView(tx: Tx, index: View, pending: View, store: Store, inputs: Inputs,
                                           rules: Rules)
    requires FetchedSoFar(tx.vin, |tx.vin|, index, pending, true, store, inputs)
    requires !tx.IsCoinBase() && Connectable(tx, inputs, rules)
    ensures Spendable(index + pending, Spent(tx))
  {
    hide Found;
    var outs := Prevouts(tx.vin);
    forall i | 0 <= i < |outs| ensures HasSlot(index + pending, outs[i]) && Slot(index + pending, outs[i]).IsNull() {
      FoundInView(outs[i].hash, index, pending, store);
      assert HasSlot(Indices(inputs), outs[i]);
    }
  }

  lemma {:induction false} CheckedFacts(vtx: seq<Tx>, ctx: BlockContext)
    requires BlockWellFormed(vtx, ctx)
    ensures vtx != [] && UniqueHashes(vtx) && forall i :: 0 <= i < |vtx| ==> OutputsInRange(vtx[i].vout)
  {
  }

  method ConnectBlock(vtx: seq<Tx>, txdb: TxDb, ctx: BlockContext, fJustCheck: bool)
    returns (ok: bool, nMint: int, nMoneySupply: int)
    requires Positioned(ctx.posOf)
    modifies txdb
    ensures ok <==> BlockWellFormed(vtx, ctx) && AllConnect(old(txdb.index), vtx, ctx) &&
                    RewardAllowed(vtx, TotalsOf(old(txdb.index), vtx, ctx), ctx)
    ensures ok ==> UniqueHashes(vtx) && AllSpendable(old(txdb.index), vtx, ctx.posOf)
    ensures txdb.index == if ok && !fJustCheck then ConnectedAll(old(txdb.index), vtx, ctx.posOf) else old(txdb.index)
    ensures ok ==> var t := TotalsOf(old(txdb.index), vtx, ctx);
                   nMint == t.nValueOut - t.nValueIn + t.nFees && nMoneySupply == SupplyAfter(old(txdb.index), vtx, ctx)
    ensures ok ==> vtx != [] && forall body :: Readable(old(txdb.index), vtx, ctx, body) ==>
                     PaidFor(body, vtx, ctx) && nMint == Minted(body, vtx)
  {
    hide BlockWellFormed, WellFormed, TxConnects, Spendable, Connected, InValue, RewardAllowed, Readable, PaidFor;
    nMint, nMoneySupply := 0, 0;
    ok := CheckBlock(vtx, ctx);
    if !ok {
      return;
    }
    CheckedFacts(vtx, ctx);
    ghost var db := txdb.index;
    var mapQueuedChanges: View := map[];
    var totals := Totals(0, 0, 0, 0);
    for i := 0 to |vtx|
      invariant txdb.index == db && AllConnect(db, vtx[..i], ctx) && AllSpendable(db, vtx[..i], ctx.posOf)
      invariant db + mapQueuedChanges == ConnectedAll(db, vtx[..i], ctx.posOf)
      invariant totals == TotalsOf(db, vtx[..i], ctx)
    {
      assert vtx[..i + 1][..i] == vtx[..i];
      ok, mapQueuedChanges, totals := ConnectTransaction(vtx[i], i, txdb.index, mapQueuedChanges, ctx, totals);
      if !ok {
        PrefixConnects(db, vtx, ctx, i + 1);
        return;
      }
    }
    assert vtx[..|vtx|] == vtx;
    if !RewardAllowed(vtx, totals, ctx) {
      return false, 0, 0;
    }
    nMint := totals.nValueOut - totals.nValueIn + totals.nFees;
    nMoneySupply := ctx.nSupplyBefore + totals.nValueOut - totals.nValueIn;
    forall body | Readable(db, vtx, ctx, body) ensures PaidFor(body, vtx, ctx) && nMint == Minted(body, vtx) {
      RewardsAreForFees(db, body, vtx, ctx);
    }
    if !fJustCheck {
      WriteQueued(txdb, mapQueuedChanges);
    }
    return true, nMint, nMoneySupply;
  }

  /** Writes the queued changes to the index, entry by entry. */
  method WriteQueued(txdb: TxDb, mapQueuedChanges: View)
    modifies txdb
    ensures txdb.index == old(txdb.index) + mapQueuedChanges
  {
    var left := mapQueuedChanges.Keys;
    while left != {}
      invariant left <= mapQueuedChanges.Keys
      invariant txdb.index == old(txdb.index) + (mapQueuedChanges - left)
      decreases |left|
    {
      ghost var some := AnElement(left);
      var h :| h in left;
      txdb.UpdateTxIndex(h, mapQueuedChanges[h]);
      left := left - {h};
    }
    assert mapQueuedChanges - left == mapQueuedChanges;
  }

  lemma {:induction false} PrefixConnects(view: View, vtx: seq<Tx>, ctx: BlockContext, k: nat)
    requires k <= |vtx|
    ensures AllConnect(view, vtx, ctx) ==> AllConnect(view, vtx[..k], ctx)
    decreases |vtx|
  {
    hide TxConnects;
    if k < |vtx| {
      PrefixConnects(view, vtx[..|vtx| - 1], ctx, k);
      assert vtx[..|vtx| - 1][..k] == vtx[..k];
    } else {
      assert vtx[..k] == vtx;
    }
  }

  // ----- The recorded money supply

  /** Reading a transaction of the index finds, if anything, the transaction its hash stands for. */
  ghost predicate StoreHolds(view: View, store: Store, body: Bodies) {
    forall h :: h in view ==> ReadsRight(store, body, h, view[h].pos)
  }

  ghost predicate ReadsRight(store: Store, body: Bodies, h: Hash, pos: DiskTxPos) {
    store.Read(h, pos) == None || store.Read(h, pos) == Some(body(h))
  }

  ghost predicate BlockReadsRight(vtx: seq<Tx>, ctx: BlockContext, body: Bodies) {
    forall i: nat :: i < |vtx| ==> ReadsRight(ctx.store, body, vtx[i].hash, ctx.posOf(i))
  }

  lemma {:induction false} ConnectKeepsStoreHolds(view: View, tx: Tx, pos: DiskTxPos, store: Store, body: Bodies)
    requires StoreHolds(view, store, body) && ReadsRight(store, body, tx.hash, pos)
    ensures StoreHolds(Connected(view, tx, pos), store, body)
  {
    hide ReadsRight, MarkedAll;
    MarkedAllSlots(view, Spent(tx), pos);
  }

  lemma {:induction false} InValueIsValues(view: View, tx: Tx, i: nat, ctx: BlockContext, body: Bodies)
    requires StoreHolds(view, ctx.store, body) && TxConnects(view, tx, i, ctx) && !tx.IsCoinBase()
    ensures InValue(view, tx, ctx.store) == Values(body, Prevouts(tx.vin))
  {
    hide TxConnects, Found, StoreHolds;
    var inputs := InputsOf(view, ctx.store, tx);
    forall j | 0 <= j < |tx.vin|
      ensures InputInRange(inputs, tx.vin[j].prevout)
      ensures PrevOutput(inputs, tx.vin[j].prevout).nValue == Value(body, tx.vin[j].prevout)
    {
      ConnectingInput(view, tx, i, ctx, j);
      FoundIsBody(tx.vin[j].prevout.hash, view, ctx.store, body);
    }
    ValueInIsValues(tx.vin, inputs, body);
  }

  lemma {:induction false} ConnectingInput(view: View, tx: Tx, i: nat, ctx: BlockContext, j: nat)
    requires TxConnects(view, tx, i, ctx) && !tx.IsCoinBase() && j < |tx.vin|
    ensures InputInRange(InputsOf(view, ctx.store, tx), tx.vin[j].prevout)
  {
  }

  lemma {:induction false} FoundIsBody(h: Hash, view: View, store: Store, body: Bodies)
    requires StoreHolds(view, store, body)
    ensures var found := Found(h, view, map[], true, store); found.Some? ==> found.value.tx == body(h)
  {
  }

  lemma {:induction false} ValueInIsValues(vin: seq<TxIn>, inputs: Inputs, body: Bodies)
    requires forall j :: 0 <= j < |vin| ==>
               InputInRange(inputs, vin[j].prevout) &&
                   PrevOutput(inputs, vin[j].prevout).nValue == Value(body, vin[j].prevout)
    ensures ValueIn(vin, inputs) == Values(body, Prevouts(vin))
  {
    if vin != [] {
      var last := |vin| - 1;
      ValueInIsValues(vin[..last], inputs, body);
      assert Prevouts(vin)[..last] == Prevouts(vin[..last]);
    }
  }

  lemma {:induction false} TotalsAreBlockValues(view: View, body: Bodies, vtx: seq<Tx>, ctx: BlockContext)
    requires StoreHolds(view, ctx.store, body) && BlockReadsRight(vtx, ctx, body) && AllConnect(view, vtx, ctx)
    ensures TotalsOf(view, vtx, ctx).nValueIn == BlockIn(body, vtx) &&
            TotalsOf(view, vtx, ctx).nValueOut == BlockOut(vtx)
    ensures StoreHolds(ConnectedAll(view, vtx, ctx.posOf), ctx.store, body)
  {
    hide StoreHolds, Connected, TxConnects, InValue, ReadsRight;
    if vtx != [] {
      var last := |vtx| - 1;
      var before := ConnectedAll(view, vtx[..last], ctx.posOf);
      TotalsAreBlockValues(view, body, vtx[..last], ctx);
      ConnectKeepsStoreHolds(before, vtx[last], ctx.posOf(last), ctx.store, body);
      if !vtx[last].IsCoinBase() {
        InValueIsValues(before, vtx[last], last, ctx, body);
      } else {
        assert Spent(vtx[last]) == [];
      }
    }
  }

  /** The money supply that connecting a block records grows by exactly what the total of the unspent outputs in
      the index grows by. */
  lemma {:induction false} SupplyGrowthIsRecorded(view: View, body: Bodies, vtx: seq<Tx>, ctx: BlockContext, bound: nat)
    requires StoreHolds(view, ctx.store, body) && BlockReadsRight(vtx, ctx, body)
    requires Sized(view, body) && Below(view, bound) && Named(body, vtx, bound) && Positioned(ctx.posOf) &&
             NewToIndex(view, vtx)
    requires UniqueHashes(vtx) && AllConnect(view, vtx, ctx) && AllSpendable(view, vtx, ctx.posOf)
    ensures Sized(ConnectedAll(view, vtx, ctx.posOf), body)
    ensures var t := TotalsOf(view, vtx, ctx);
            Supply(ConnectedAll(view, vtx, ctx.posOf), body, bound) ==
                Supply(view, body, bound) + t.nValueOut - t.nValueIn
  {
    hide StoreHolds, BlockReadsRight, Sized, Below, Named, AllConnect, AllSpendable, Supply, TotalsOf, NewToIndex,
         UniqueHashes;
    BlockSupply(view, body, vtx, ctx.posOf, bound);
    TotalsAreBlockValues(view, body, vtx, ctx);
  }

  // ----- Fees, rewards and what is minted

  /** What the transactions that are neither coinbase nor coinstake leave over. */
  ghost function Fees(body: Bodies, vtx: seq<Tx>): int {
    if vtx == [] then 0
    else
      var tx := vtx[|vtx| - 1];
      Fees(body, vtx[..|vtx| - 1]) +
      if tx.IsCoinBase() || tx.IsCoinStake() then 0 else Values(body, Spent(tx)) - Total(tx.vout)
  }

  /** What a coinstake creates beyond what it spends. */
  ghost function StakeReward(body: Bodies, tx: Tx): int {
    Total(tx.vout) - Values(body, Spent(tx))
  }

  /** What coinbases create and coinstakes create beyond what they spend. */
  ghost function Minted(body: Bodies, vtx: seq<Tx>): int {
    if vtx == [] then 0
    else
      var tx := vtx[|vtx| - 1];
      Minted(body, vtx[..|vtx| - 1]) + if tx.IsCoinBase() || tx.IsCoinStake() then StakeReward(body, tx) else 0
  }

  /** A staked block's coinstake, and any other block's coinbase, takes no more than the reward for the block's fees. */
  ghost predicate PaidFor(body: Bodies, vtx: seq<Tx>, ctx: BlockContext)
    requires vtx != []
  {
    var fees := Fees(body, vtx);
    if |vtx| > 1 && vtx[1].IsCoinStake()
    then ctx.posReward(fees).Some? && StakeReward(body, vtx[1]) <= ctx.posReward(fees).value
    else Total(vtx[0].vout) <= ctx.powReward(fees)
  }

  /** The transactions are read as what their hashes stand for. */
  ghost predicate Readable(view: View, vtx: seq<Tx>, ctx: BlockContext, body: Bodies) {
    StoreHolds(view, ctx.store, body) && BlockReadsRight(vtx, ctx, body)
  }

  /** A transaction that is not a coinbase spends at least what it creates, or is a coinstake. */
  lemma {:induction false} InputsCoverOutputs(view: View, tx: Tx, i: nat, ctx: BlockContext, body: Bodies)
    requires StoreHolds(view, ctx.store, body) && TxConnects(view, tx, i, ctx) && !tx.IsCoinBase() && !tx.IsCoinStake()
    ensures Values(body, Spent(tx)) >= Total(tx.vout)
  {
    InValueIsValues(view, tx, i, ctx, body);
    hide StoreHolds, Found;
    forall j | 0 <= j < |tx.vin| ensures InputInRange(InputsOf(view, ctx.store, tx), tx.vin[j].prevout) {
      ConnectingInput(view, tx, i, ctx, j);
    }
  }

  /** The totals kept while a block is connected: the fees are what its ordinary transactions leave over, never
      negative, and the stake reward is that of the last coinstake. */
  lemma {:induction false} TotalsAreFees(view: View, body: Bodies, vtx: seq<Tx>, ctx: BlockContext)
    requires Readable(view, vtx, ctx, body) && AllConnect(view, vtx, ctx)
    ensures TotalsOf(view, vtx, ctx).nFees == Fees(body, vtx) >= 0
    ensures forall k :: (0 <= k < |vtx| && vtx[k].IsCoinStake() &&
                         forall j :: k < j < |vtx| ==> !vtx[j].IsCoinStake()) ==>
              TotalsOf(view, vtx, ctx).nStakeReward == StakeReward(body, vtx[k])
  {
    hide StoreHolds, Connected, TxConnects, InValue, ReadsRight;
    if vtx != [] {
      var last := |vtx| - 1;
      var tx, before := vtx[last], ConnectedAll(view, vtx[..last], ctx.posOf);
      TotalsAreFees(view, body, vtx[..last], ctx);
      TotalsAreBlockValues(view, body, vtx[..last], ctx);
      if !tx.IsCoinBase() {
        InValueIsValues(before, tx, last, ctx, body);
        if !tx.IsCoinStake() {
          InputsCoverOutputs(before, tx, last, ctx, body);
        }
      }
    }
  }

  lemma {:induction false} MintedIsGrowthPlusFees(body: Bodies, vtx: seq<Tx>)
    ensures BlockOut(vtx) - BlockIn(body, vtx) + Fees(body, vtx) == Minted(body, vtx)
  {
    if vtx != [] {
      MintedIsGrowthPlusFees(body, vtx[..|vtx| - 1]);
    }
  }

  lemma {:induction false} MintedByFirst(body: Bodies, vtx: seq<Tx>, k: nat)
    requires k <= |vtx| && forall i :: k <= i < |vtx| ==> !vtx[i].IsCoinBase() && !vtx[i].IsCoinStake()
    ensures Minted(body, vtx) == Minted(body, vtx[..k])
    decreases |vtx|
  {
    if k < |vtx| {
      MintedByFirst(body, vtx[..|vtx| - 1], k);
      assert vtx[..|vtx| - 1][..k] == vtx[..k];
    } else {
      assert vtx[..k] == vtx;
    }
  }

  lemma {:induction false} MintedByCoinBase(body: Bodies, vtx: seq<Tx>)
    requires vtx != [] && vtx[0].IsCoinBase()
    ensures Minted(body, vtx[..1]) == Total(vtx[0].vout)
  {
    assert vtx[..1][..0] == [] && Spent(vtx[0]) == [];
  }

  /** What a block mints: the coinbase's outputs, and in a staked block the coinstake's reward. */
  lemma {:induction false} MintedIs(body: Bodies, vtx: seq<Tx>)
    requires vtx != [] && vtx[0].IsCoinBase() && forall i :: 1 <= i < |vtx| ==> !vtx[i].IsCoinBase()
    requires |vtx| > 1 && vtx[1].IsCoinStake() ==> forall i :: 2 <= i < |vtx| ==> !vtx[i].IsCoinStake()
    ensures |vtx| > 1 && vtx[1].IsCoinStake() ==> Minted(body, vtx) == StakeReward(body, vtx[1]) + Total(vtx[0].vout)
    ensures (forall i :: 1 <= i < |vtx| ==> !vtx[i].IsCoinStake()) ==> Minted(body, vtx) == Total(vtx[0].vout)
  {
    MintedByCoinBase(body, vtx);
    hide Total, Values, Spent;
    if |vtx| > 1 && vtx[1].IsCoinStake() {
      MintedByFirst(body, vtx, 2);
      assert vtx[..2][..1] == vtx[..1];
    } else if forall i :: 1 <= i < |vtx| ==> !vtx[i].IsCoinStake() {
      MintedByFirst(body, vtx, 1);
    }
  }

  /** The reward check on a block is a check on the fees its transactions leave and on what its coinbase or coinstake
      takes; and what is recorded as minted is what these create. */
  lemma {:induction false} RewardsAreForFees(view: View, body: Bodies, vtx: seq<Tx>, ctx: BlockContext)
    requires BlockWellFormed(vtx, ctx) && Readable(view, vtx, ctx, body) && AllConnect(view, vtx, ctx)
    ensures RewardAllowed(vtx, TotalsOf(view, vtx, ctx), ctx) <==> PaidFor(body, vtx, ctx)
    ensures var t := TotalsOf(view, vtx, ctx); t.nValueOut - t.nValueIn + t.nFees == Minted(body, vtx)
    ensures |vtx| > 1 && vtx[1].IsCoinStake() ==> Minted(body, vtx) == StakeReward(body, vtx[1]) + Total(vtx[0].vout)
    ensures (forall i :: 1 <= i < |vtx| ==> !vtx[i].IsCoinStake()) ==> Minted(body, vtx) == Total(vtx[0].vout)
  {
    hide AllConnect, TotalsOf, TransactionsOk, UniqueHashes, Fees, Minted, StakeReward, StoreHolds, BlockReadsRight;
    TotalsAreFees(view, body, vtx, ctx);
    TotalsAreBlockValues(view, body, vtx, ctx);
    MintedIsGrowthPlusFees(body, vtx);
    MintedIs(body, vtx);
  }
}
