/**
 * CTransaction: fetching the transactions a transaction spends from, connecting and disconnecting its inputs,
 * and the checks that need no context.
 */
module Transaction {
  import opened Basics
  import opened Ledger

  /** How a check ends: it passes, it fails adding to the denial-of-service score, or it throws. */
  datatype Outcome = Passed | Refused(nDoS: nat) | Threw

  // ----- Values

  function Total(vout: seq<TxOut>): int {
    if vout == [] then 0 else Total(vout[..|vout| - 1]) + vout[|vout| - 1].nValue
  }

  ghost predicate OutputsInRange(vout: seq<TxOut>) {
    (forall i :: 0 <= i < |vout| ==> MoneyRange(vout[i].nValue)) && MoneyRange(Total(vout))
  }

  lemma {:induction false} TotalGrows(vout: seq<TxOut>, k: nat)
    requires k <= |vout| && forall i :: 0 <= i < |vout| ==> vout[i].nValue >= 0
    ensures 0 <= Total(vout[..k]) <= Total(vout)
    decreases |vout|
  {
    if k < |vout| {
      var most := vout[..|vout| - 1];
      TotalGrows(most, k);
      assert most[..k] == vout[..k];
    } else {
      assert vout[..k] == vout;
      if k > 0 {
        TotalGrows(vout[..k - 1], k - 1);
        assert vout[..k - 1][..k - 1] == vout[..k - 1];
      }
    }
  }

  /** The sum of the outputs; nothing when it throws. */
  method GetValueOut(tx: Tx) returns (value: Option<int>)
    ensures value == if OutputsInRange(tx.vout) then Some(Total(tx.vout)) else None
  {
    var nValueOut := 0;
    for i := 0 to |tx.vout|
      invariant nValueOut == Total(tx.vout[..i])
      invariant forall j :: 0 <= j < i ==> MoneyRange(tx.vout[j].nValue)
      invariant MoneyRange(nValueOut)
    {
      assert tx.vout[..i + 1][..i] == tx.vout[..i];
      nValueOut := nValueOut + tx.vout[i].nValue;
      if !MoneyRange(tx.vout[i].nValue) || !MoneyRange(nValueOut) {
        if forall j :: 0 <= j < |tx.vout| ==> MoneyRange(tx.vout[j].nValue) {
          TotalGrows(tx.vout, i + 1);
        }
        return None;
      }
    }
    assert tx.vout[..|tx.vout|] == tx.vout;
    return Some(nValueOut);
  }

  // ----- CheckTransaction

  ghost predicate OutputsOk(tx: Tx) {
    && (tx.IsCoinBase() || tx.IsCoinStake() || forall i :: 0 <= i < |tx.vout| ==> !tx.vout[i].IsEmpty())
    && OutputsInRange(tx.vout)
  }

  ghost predicate NoNullInput(tx: Tx) {
    forall i :: 0 <= i < |tx.vin| ==> !IsNullOutPoint(tx.vin[i].prevout)
  }

  ghost predicate WellFormed(tx: Tx, nSize: nat, nMaxSize: nat) {
    && tx.vin != [] && tx.vout != [] && nSize <= nMaxSize && OutputsOk(tx) && Distinct(Prevouts(tx.vin))
    && if tx.IsCoinBase() then 2 <= |tx.vin[0].scriptSig| <= 100 else NoNullInput(tx)
  }

  /** What a transaction that is not well formed is scored: the first rule it breaks decides. */
  ghost function Verdict(tx: Tx, nSize: nat, nMaxSize: nat): (r: Outcome)
    ensures r == Passed <==> WellFormed(tx, nSize, nMaxSize)
  {
    if tx.vin == [] || tx.vout == [] then Refused(10)
    else if nSize > nMaxSize || !OutputsOk(tx) then Refused(100)
    else if !Distinct(Prevouts(tx.vin)) then Refused(0)
    else if tx.IsCoinBase() then if 2 <= |tx.vin[0].scriptSig| <= 100 then Passed else Refused(100)
    else if NoNullInput(tx) then Passed
    else Refused(10)
  }

  /** The search for duplicate inputs in CheckTransaction. */
  method InputsAreDistinct(tx: Tx) returns (distinct: bool)
    ensures distinct <==> Distinct(Prevouts(tx.vin))
  {
    var vInOutPoints: set<OutPoint> := {};
    for i := 0 to |tx.vin|
      invariant forall o :: o in vInOutPoints <==> exists j :: 0 <= j < i && tx.vin[j].prevout == o
      invariant forall j, k :: 0 <= j < k < i ==> tx.vin[j].prevout != tx.vin[k].prevout
    {
      if tx.vin[i].prevout in vInOutPoints {
        ghost var j :| 0 <= j < i && tx.vin[j].prevout == tx.vin[i].prevout;
        assert Prevouts(tx.vin)[j] == Prevouts(tx.vin)[i];
        return false;
      }
      vInOutPoints := vInOutPoints + {tx.vin[i].prevout};
    }
    return true;
  }

  lemma {:induction false} NothingTotalled()
    ensures Total([]) == 0
  {
  }

  lemma {:induction false} TotalNext(vout: seq<TxOut>, i: nat)
    requires i < |vout|
    ensures Total(vout[..i + 1]) == Total(vout[..i]) + vout[i].nValue
  {
    assert vout[..i + 1][..i] == vout[..i];
  }

  /** The loop over the outputs in CheckTransaction; every fault it finds is scored alike. */
  method CheckOutputs(tx: Tx) returns (ok: bool)
    ensures ok <==> OutputsOk(tx)
  {
    hide Total;
    NothingTotalled();
    var nValueOut := 0;
    for i := 0 to |tx.vout|
      invariant nValueOut == Total(tx.vout[..i]) && MoneyRange(nValueOut)
      invariant forall j :: 0 <= j < i ==> MoneyRange(tx.vout[j].nValue)
      invariant forall j :: 0 <= j < i ==> !tx.vout[j].IsEmpty() || tx.IsCoinBase() || tx.IsCoinStake()
    {
      TotalNext(tx.vout, i);
      if tx.vout[i].IsEmpty() && !tx.IsCoinBase() && !tx.IsCoinStake() {
        return false;
      }
      if tx.vout[i].nValue < 0 || tx.vout[i].nValue > MAX_SINGLE_TX {
        return false;
      }
      nValueOut := nValueOut + tx.vout[i].nValue;
      if !MoneyRange(nValueOut) {
        if OutputsInRange(tx.vout) {
          TotalGrows(tx.vout, i + 1);
        }
        return false;
      }
    }
    assert tx.vout[..|tx.vout|] == tx.vout;
    return true;
  }

  method CheckTransaction(tx: Tx, nSize: nat, nMaxSize: nat) returns (result: Outcome)
    ensures result == Verdict(tx, nSize, nMaxSize)
    ensures result == Passed <==> WellFormed(tx, nSize, nMaxSize)
  {
    if tx.vin == [] || tx.vout == [] {
      return Refused(10);
    }
    if nSize > nMaxSize {
      return Refused(100);
    }
    var outputsOk := CheckOutputs(tx);
    if !outputsOk {
      return Refused(100);
    }
    var distinct := InputsAreDistinct(tx);
    if !distinct {
      return Refused(0);
    }
    if tx.IsCoinBase() {
      if |tx.vin[0].scriptSig| < 2 || |tx.vin[0].scriptSig| > 100 {
        return Refused(100);
      }
    } else {
      for i := 0 to |tx.vin|
        invariant forall j :: 0 <= j < i ==> !IsNullOutPoint(tx.vin[j].prevout)
      {
        if IsNullOutPoint(tx.vin[i].prevout) {
          return Refused(10);
        }
      }
    }
    return Passed;
  }

  /** What passes the check, in terms of sizes and amounts. */
  lemma {:induction false} PassesCheckIff(tx: Tx, nSize: nat, nMaxSize: nat)
    ensures Verdict(tx, nSize, nMaxSize) == Passed <==>
            && |tx.vin| >= 1 && |tx.vout| >= 1 && nSize <= nMaxSize
            && (forall i :: 0 <= i < |tx.vout| ==> 0 <= tx.vout[i].nValue <= 1_000_000_000_000_000_000)
            && Total(tx.vout) <= 1_000_000_000_000_000_000
            && (forall i, j :: 0 <= i < j < |tx.vin| ==> tx.vin[i].prevout != tx.vin[j].prevout)
            && var generated := |tx.vin| == 1 && tx.vin[0].prevout == OutPoint(0, 0xFFFF_FFFF);
               var staked := tx.vin[0].prevout != OutPoint(0, 0xFFFF_FFFF) && |tx.vout| >= 2 &&
                             tx.vout[0].nValue == 0 && tx.vout[0].scriptPubKey == [];
               && (generated ==> 2 <= |tx.vin[0].scriptSig| <= 100)
               && (!generated ==> forall i :: 0 <= i < |tx.vin| ==> tx.vin[i].prevout != OutPoint(0, 0xFFFF_FFFF))
               && (!generated && !staked ==>
                     forall i :: 0 <= i < |tx.vout| ==> tx.vout[i].nValue != 0 || tx.vout[i].scriptPubKey != [])
  {
    if forall i :: 0 <= i < |tx.vout| ==> tx.vout[i].nValue >= 0 {
      TotalGrows(tx.vout, |tx.vout|);
      assert tx.vout[..|tx.vout|] == tx.vout;
    }
    DistinctInputs(tx);
  }

  // ----- FetchInputs

  /** An entry of mapPrevTx_t. */
  datatype Previous = Previous(index: TxIndex, tx: Tx)
  type Inputs = map<Hash, Previous>

  /** Where transactions are read from: block files by position, and the memory pool by hash. */
  datatype Store = Store(disk: DiskTxPos -> Option<Tx>, memoryPool: Hash -> Option<Tx>) {
    function Read(h: Hash, pos: DiskTxPos): Option<Tx> {
      if pos == IN_MEMORY_POOL then memoryPool(h) else disk(pos)
    }
  }

  /** The index entry and the transaction itself that input fetching finds for a hash. */
  function Found(h: Hash, db: View, pending: View, fConnecting: bool, store: Store): Option<Previous> {
    var index := if fConnecting && h in pending then Some(pending[h]) else if h in db then Some(db[h]) else None;
    match index
    case Some(entry) =>
      (match store.Read(h, entry.pos)
       case Some(tx) => Some(Previous(entry, tx))
       case None => None)
    case None =>
      if fConnecting then None else
        match store.memoryPool(h)
        case Some(tx) => Some(Previous(TxIndex(UNSPENT, FreshSlots(|tx.vout|)), tx))
        case None => None
  }

  /** Where a previous transaction comes from: its entry is the pending one, else the stored one; the transaction is
      read from its block, or from the memory pool where the entry says so. Without an entry only the memory pool is
      left, and not that while a block is connected. */
  lemma {:induction false} FoundIff(h: Hash, db: View, pending: View, fConnecting: bool, store: Store, p: Previous)
    ensures fConnecting && h in pending ==>
              (Found(h, db, pending, fConnecting, store) == Some(p) <==>
               p.index == pending[h] && ReadFrom(h, p, store))
    ensures h in db && !(fConnecting && h in pending) ==>
              (Found(h, db, pending, fConnecting, store) == Some(p) <==>
               p.index == db[h] && ReadFrom(h, p, store))
    ensures h !in db && !(fConnecting && h in pending) ==>
              (Found(h, db, pending, fConnecting, store) == Some(p) <==>
               !fConnecting && store.memoryPool(h) == Some(p.tx) &&
               p.index.pos == UNSPENT && p.index.vSpent == seq(|p.tx.vout|, _ => UNSPENT))
  {
    assert FreshSlots(|p.tx.vout|) == seq(|p.tx.vout|, _ => UNSPENT);
  }

  ghost predicate ReadFrom(h: Hash, p: Previous, store: Store) {
    Some(p.tx) == if p.index.pos == DiskTxPos(1, 1, 1) then store.memoryPool(h) else store.disk(p.index.pos)
  }

  ghost predicate InputInRange(inputs: Inputs, o: OutPoint) {
    o.hash in inputs && o.n < |inputs[o.hash].tx.vout| && o.n < |inputs[o.hash].index.vSpent|
  }

  ghost predicate FetchedSoFar(vin: seq<TxIn>, k: int, db: View, pending: View, fConnecting: bool, store: Store,
                               inputs: Inputs) {
    && (forall j :: 0 <= j < k && j < |vin| ==> vin[j].prevout.hash in inputs)
    && forall h :: h in inputs ==>
         Found(h, db, pending, fConnecting, store) == Some(inputs[h]) &&
             exists j :: 0 <= j < k && j < |vin| && vin[j].prevout.hash == h
  }

  /** Everything was found, and every input names an output that exists. */
  ghost predicate Fetchable(vin: seq<TxIn>, db: View, pending: View, fConnecting: bool, store: Store) {
    forall j :: 0 <= j < |vin| ==>
      var o := vin[j].prevout;
      var found := Found(o.hash, db, pending, fConnecting, store);
      found.Some? && o.n < |found.value.tx.vout| && o.n < |found.value.index.vSpent|
  }

  /** One previous transaction. */
  method FetchPrevious(h: Hash, db: View, mapTestPool: View, fBlock: bool, fMiner: bool, store: Store)
      returns (found: Option<Previous>)
    ensures found == Found(h, db, mapTestPool, fBlock || fMiner, store)
  {
    var index: Option<TxIndex>;
    if (fBlock || fMiner) && h in mapTestPool {
      index := Some(mapTestPool[h]);
    } else {
      index := if h in db then Some(db[h]) else None;
    }
    if index == None && (fBlock || fMiner) {
      return None;
    }
    if index == None || index.value.pos == IN_MEMORY_POOL {
      var txPrev := store.memoryPool(h);
      if txPrev == None {
        return None;
      }
      var txindex := if index == None then TxIndex(UNSPENT, FreshSlots(|txPrev.value.vout|)) else index.value;
      return Some(Previous(txindex, txPrev.value));
    }
    var txPrev := store.disk(index.value.pos);
    if txPrev == None {
      return None;
    }
    return Some(Previous(index.value, txPrev.value));
  }

  /** The second loop of FetchInputs. */
  method NamesMissingOutput(tx: Tx, inputs: Inputs) returns (missing: bool)
    requires forall j :: 0 <= j < |tx.vin| ==> tx.vin[j].prevout.hash in inputs
    ensures missing <==> exists j :: 0 <= j < |tx.vin| && !InputInRange(inputs, tx.vin[j].prevout)
  {
    for i := 0 to |tx.vin|
      invariant forall j :: 0 <= j < i ==> InputInRange(inputs, tx.vin[j].prevout)
    {
      var prevout := tx.vin[i].prevout;
      if prevout.n >= |inputs[prevout.hash].tx.vout| || prevout.n >= |inputs[prevout.hash].index.vSpent| {
        return true;
      }
    }
    return false;
  }

  method FetchInputs(tx: Tx, db: View, mapTestPool: View, fBlock: bool, fMiner: bool, store: Store)
    returns (ok: bool, inputs: Inputs, fInvalid: bool)
    ensures ok <==> tx.IsCoinBase() || Fetchable(tx.vin, db, mapTestPool, fBlock || fMiner, store)
    ensures ok && tx.IsCoinBase() ==> inputs == map[]
    ensures ok && !tx.IsCoinBase() ==> FetchedSoFar(tx.vin, |tx.vin|, db, mapTestPool, fBlock || fMiner, store, inputs)
    ensures ok && !tx.IsCoinBase() ==> forall j :: 0 <= j < |tx.vin| ==> InputInRange(inputs, tx.vin[j].prevout)
    ensures fInvalid ==> !ok
    ensures !ok && !fInvalid ==>
            exists j :: 0 <= j < |tx.vin| &&
                        Found(tx.vin[j].prevout.hash, db, mapTestPool, fBlock || fMiner, store) == None
  {
    hide Found;
    inputs, fInvalid := map[], false;
    if tx.IsCoinBase() {
      return true, inputs, false;
    }
    for i := 0 to |tx.vin|
      invariant FetchedSoFar(tx.vin, i, db, mapTestPool, fBlock || fMiner, store, inputs)
    {
      var prevout := tx.vin[i].prevout;
      if prevout.hash !in inputs {
        var found := FetchPrevious(prevout.hash, db, mapTestPool, fBlock, fMiner, store);
        if found == None {
          return false, inputs, false;
        }
        inputs := inputs[prevout.hash := found.value];
      }
    }
    fInvalid := NamesMissingOutput(tx, inputs);
    return !fInvalid, inputs, fInvalid;
  }

  // ----- ConnectInputs

  datatype Signature = Good | FailsOptionalRules | Bad

  /** What connecting consults outside the index: maturity of a generated output, and signatures. */
  datatype Rules = Rules(immature: TxIndex -> bool, fVerify: bool, signature: (Tx, Tx, nat) -> Signature)

  function Indices(inputs: Inputs): View {
    map h | h in inputs :: inputs[h].index
  }

  function PrevOutput(inputs: Inputs, o: OutPoint): TxOut
    requires InputInRange(inputs, o)
  {
    inputs[o.hash].tx.vout[o.n]
  }

  /** The inexpensive checks on one input. */
  ghost predicate InputOk(tx: Tx, inputs: Inputs, rules: Rules, o: OutPoint) {
    && InputInRange(inputs, o)
    && var prev := inputs[o.hash];
       && !((prev.tx.IsCoinBase() || prev.tx.IsCoinStake()) && rules.immature(prev.index))
       && prev.tx.nTime <= tx.nTime
       && !prev.tx.vout[o.n].IsEmpty()
       && MoneyRange(prev.tx.vout[o.n].nValue)
  }

  ghost predicate InputsOk(tx: Tx, inputs: Inputs, rules: Rules, k: int) {
    forall i :: 0 <= i < k && i < |tx.vin| ==> InputOk(tx, inputs, rules, tx.vin[i].prevout)
  }

  /** The total of the outputs named by the first inputs. */
  function ValueIn(vin: seq<TxIn>, inputs: Inputs): int
    requires forall i :: 0 <= i < |vin| ==> InputInRange(inputs, vin[i].prevout)
  {
    if vin == [] then 0 else ValueIn(vin[..|vin| - 1], inputs) + PrevOutput(inputs, vin[|vin| - 1].prevout).nValue
  }

  lemma {:induction false} ValueInGrows(vin: seq<TxIn>, inputs: Inputs, k: nat)
    requires k <= |vin|
    requires forall i :: 0 <= i < |vin| ==>
             InputInRange(inputs, vin[i].prevout) && PrevOutput(inputs, vin[i].prevout).nValue >= 0
    ensures ValueIn(vin[..k], inputs) <= ValueIn(vin, inputs)
    decreases |vin|
  {
    if k < |vin| {
      ValueInGrows(vin[..|vin| - 1], inputs, k);
      assert vin[..|vin| - 1][..k] == vin[..k];
    } else {
      assert vin[..k] == vin;
    }
  }

  ghost predicate Affordable(tx: Tx, inputs: Inputs, rules: Rules) {
    InputsOk(tx, inputs, rules, |tx.vin|) && MoneyRange(ValueIn(tx.vin, inputs))
  }

  ghost predicate Signed(tx: Tx, inputs: Inputs, rules: Rules, k: int) {
    rules.fVerify ==> forall i :: 0 <= i < k && i < |tx.vin| && tx.vin[i].prevout.hash in inputs ==>
      rules.signature(inputs[tx.vin[i].prevout.hash].tx, tx, i) == Good
  }

  ghost predicate HasBadSignature(tx: Tx, inputs: Inputs, rules: Rules) {
    exists i :: 0 <= i < |tx.vin| && tx.vin[i].prevout.hash in inputs &&
      rules.signature(inputs[tx.vin[i].prevout.hash].tx, tx, i) == Bad
  }

  /** Everything up to the comparison of values in and out. */
  ghost predicate TakesOver(tx: Tx, inputs: Inputs, rules: Rules) {
    && Affordable(tx, inputs, rules)
    && Spendable(Indices(inputs), Prevouts(tx.vin))
    && Signed(tx, inputs, rules, |tx.vin|)
  }

  ghost predicate Connectable(tx: Tx, inputs: Inputs, rules: Rules) {
    tx.IsCoinBase() || (TakesOver(tx, inputs, rules) &&
                        (tx.IsCoinStake() || (OutputsInRange(tx.vout) && Total(tx.vout) <= ValueIn(tx.vin, inputs))))
  }

  /** What one input needs: an output of some value or script, no younger than the spender, unspent, of a transaction
      that is ripe if it was generated, and a good signature where signatures are checked. */
  ghost predicate Usable(tx: Tx, i: nat, inputs: Inputs, rules: Rules)
    requires i < |tx.vin|
  {
    var o := tx.vin[i].prevout;
    && o.hash in inputs && o.n < |inputs[o.hash].tx.vout| && o.n < |inputs[o.hash].index.vSpent|
    && var previous, spent := inputs[o.hash].tx, inputs[o.hash].index.vSpent[o.n];
       && 0 <= previous.vout[o.n].nValue <= 1_000_000_000_000_000_000
       && (previous.vout[o.n].nValue > 0 || previous.vout[o.n].scriptPubKey != [])
       && previous.nTime <= tx.nTime && spent.nFile == 0xFFFF_FFFF
       && (rules.immature(inputs[o.hash].index) ==> !previous.IsCoinBase() && !previous.IsCoinStake())
       && (rules.fVerify ==> rules.signature(previous, tx, i) == Good)
  }

  /** Whether a transaction that is not a coinbase connects, input by input and in what it creates. */
  lemma {:induction false} ConnectsIff(tx: Tx, inputs: Inputs, rules: Rules)
    requires !tx.IsCoinBase()
    ensures Connectable(tx, inputs, rules) <==>
            && (forall i :: 0 <= i < |tx.vin| ==> Usable(tx, i, inputs, rules))
            && (forall i, j :: 0 <= i < j < |tx.vin| ==> tx.vin[i].prevout != tx.vin[j].prevout)
            && (forall i :: 0 <= i < |tx.vin| ==> InputInRange(inputs, tx.vin[i].prevout))
            && 0 <= ValueIn(tx.vin, inputs) <= 1_000_000_000_000_000_000
            && (!tx.IsCoinStake() ==>
                  && (forall i :: 0 <= i < |tx.vout| ==> 0 <= tx.vout[i].nValue <= 1_000_000_000_000_000_000)
                  && 0 <= Total(tx.vout) <= ValueIn(tx.vin, inputs))
  {
    var outs := Prevouts(tx.vin);
    DistinctInputs(tx);
    if forall i :: 0 <= i < |tx.vin| ==> Usable(tx, i, inputs, rules) {
      forall i | 0 <= i < |tx.vin| ensures InputOk(tx, inputs, rules, tx.vin[i].prevout) {
        assert Usable(tx, i, inputs, rules);
      }
      forall i | 0 <= i < |outs| ensures HasSlot(Indices(inputs), outs[i]) && Slot(Indices(inputs), outs[i]).IsNull() {
        assert Usable(tx, i, inputs, rules);
      }
      forall i | 0 <= i < |tx.vin| && rules.fVerify
        ensures rules.signature(inputs[tx.vin[i].prevout.hash].tx, tx, i) == Good {
        assert Usable(tx, i, inputs, rules);
      }
    }
    if TakesOver(tx, inputs, rules) {
      forall i: nat | i < |tx.vin| ensures Usable(tx, i, inputs, rules) {
        assert InputOk(tx, inputs, rules, tx.vin[i].prevout);
        assert HasSlot(Indices(inputs), outs[i]) && Slot(Indices(inputs), outs[i]).IsNull();
      }
    }
  }

  lemma {:induction false} DistinctInputs(tx: Tx)
    ensures Distinct(Prevouts(tx.vin)) <==>
            forall i, j :: 0 <= i < j < |tx.vin| ==> tx.vin[i].prevout != tx.vin[j].prevout
  {
    if Distinct(Prevouts(tx.vin)) {
      forall i, j | 0 <= i < j < |tx.vin| ensures tx.vin[i].prevout != tx.vin[j].prevout {
        assert Prevouts(tx.vin)[i] != Prevouts(tx.vin)[j];
      }
    }
  }

  ghost function Hashes(outs: seq<OutPoint>): set<Hash> {
    set o | o in outs :: o.hash
  }

  /** Pending changes after the entries of the previous transactions of outs have been written to them. */
  ghost function WrittenBack(pending: View, index: View, outs: seq<OutPoint>): View {
    map h | h in pending.Keys + (index.Keys * Hashes(outs)) ::
      if h in Hashes(outs) && h in index then index[h] else pending[h]
  }

  lemma {:induction false} WriteBackOne(pending: View, index: View, outs: seq<OutPoint>, o: OutPoint, pos: DiskTxPos)
    requires HasSlot(index, o)
    ensures WrittenBack(pending, Marked(index, o, pos), outs + [o]) ==
            WrittenBack(pending, index, outs)[o.hash := Marked(index, o, pos)[o.hash]]
  {
  }

  /** The first loop: the inexpensive checks on every input, and the total value in. */
  method CheckInputs(tx: Tx, inputs: Inputs, rules: Rules) returns (result: Outcome, nValueIn: int)
    requires forall i :: 0 <= i < |tx.vin| ==> tx.vin[i].prevout.hash in inputs
    ensures result != Threw
    ensures result == Passed <==> Affordable(tx, inputs, rules)
    ensures result == Passed ==> nValueIn == ValueIn(tx.vin, inputs)
  {
    nValueIn := 0;
    for i := 0 to |tx.vin|
      invariant InputsOk(tx, inputs, rules, i)
      invariant nValueIn == ValueIn(tx.vin[..i], inputs) && MoneyRange(nValueIn)
    {
      var prevout := tx.vin[i].prevout;
      var prev := inputs[prevout.hash];
      if prevout.n >= |prev.tx.vout| || prevout.n >= |prev.index.vSpent| {
        return Refused(100), nValueIn;
      }
      if prev.tx.IsCoinBase() || prev.tx.IsCoinStake() {
        if rules.immature(prev.index) {
          return Refused(0), nValueIn;
        }
      }
      if prev.tx.nTime > tx.nTime {
        return Refused(100), nValueIn;
      }
      if prev.tx.vout[prevout.n].IsEmpty() {
        return Refused(1), nValueIn;
      }
      assert tx.vin[..i + 1][..i] == tx.vin[..i];
      nValueIn := nValueIn + prev.tx.vout[prevout.n].nValue;
      if !MoneyRange(prev.tx.vout[prevout.n].nValue) || !MoneyRange(nValueIn) {
        TooMuchIn(tx, inputs, rules, i);
        return Refused(100), nValueIn;
      }
    }
    assert tx.vin[..|tx.vin|] == tx.vin;
    return Passed, nValueIn;
  }

  lemma {:induction false} TooMuchIn(tx: Tx, inputs: Inputs, rules: Rules, i: nat)
    requires i < |tx.vin| && forall k :: 0 <= k <= i ==> InputInRange(inputs, tx.vin[k].prevout)
    requires forall k :: k == i + 1 ==>
               !MoneyRange(PrevOutput(inputs, tx.vin[i].prevout).nValue) || !MoneyRange(ValueIn(tx.vin[..k], inputs))
    requires InputsOk(tx, inputs, rules, i) && MoneyRange(ValueIn(tx.vin[..i], inputs))
    ensures !Affordable(tx, inputs, rules)
  {
    if InputsOk(tx, inputs, rules, |tx.vin|) {
      assert InputOk(tx, inputs, rules, tx.vin[i].prevout);
      forall j | 0 <= j < |tx.vin|
        ensures InputInRange(inputs, tx.vin[j].prevout) && PrevOutput(inputs, tx.vin[j].prevout).nValue >= 0 {
        assert InputOk(tx, inputs, rules, tx.vin[j].prevout);
      }
      ValueInGrows(tx.vin, inputs, i + 1);
      assert tx.vin[..i + 1][..i] == tx.vin[..i];
    }
  }

  /** The second loop: no double spend, good signatures, and the named slots taken over one by one. A double spend
      adds nothing to the denial-of-service score. */
  method TakeOver(tx: Tx, inputs: Inputs, mapTestPool: View, posThisTx: DiskTxPos, rules: Rules, fBlock: bool,
                  fMiner: bool)
    returns (result: Outcome, pending: View)
    requires Affordable(tx, inputs, rules) && !posThisTx.IsNull()
    ensures result != Threw
    ensures result == Passed <==> TakesOver(tx, inputs, rules)
    ensures result.Refused? && result.nDoS > 0 ==> rules.fVerify && HasBadSignature(tx, inputs, rules)
    ensures !(fBlock || fMiner) ==> pending == mapTestPool
    ensures result == Passed && (fBlock || fMiner) ==>
              pending == WrittenBack(mapTestPool, MarkedAll(Indices(inputs), Prevouts(tx.vin), posThisTx),
                                     Prevouts(tx.vin))
  {
    hide Affordable, Spendable, MarkedAll, WrittenBack, Signed;
    pending := mapTestPool;
    var index := Indices(inputs);
    ghost var outs := Prevouts(tx.vin);
    NothingTaken(tx, inputs, rules, mapTestPool, posThisTx);
    for i := 0 to |tx.vin|
      invariant index == MarkedAll(Indices(inputs), outs[..i], posThisTx)
      invariant Spendable(Indices(inputs), outs[..i]) && Signed(tx, inputs, rules, i)
      invariant pending == if fBlock || fMiner then WrittenBack(mapTestPool, index, outs[..i]) else mapTestPool
    {
      var prevout := tx.vin[i].prevout;
      NextSlot(tx, inputs, rules, outs, i, posThisTx);
      NextSignature(tx, inputs, rules, i);
      if !index[prevout.hash].vSpent[prevout.n].IsNull() {
        return Refused(0), pending;
      }
      if rules.fVerify && rules.signature(inputs[prevout.hash].tx, tx, i) != Good {
        return Refused(if rules.signature(inputs[prevout.hash].tx, tx, i) == FailsOptionalRules then 0 else 100),
               pending;
      }
      WriteBackOne(mapTestPool, index, outs[..i], prevout, posThisTx);
      index := index[prevout.hash :=
                     index[prevout.hash].(vSpent := index[prevout.hash].vSpent[prevout.n := posThisTx])];
      if fBlock || fMiner {
        pending := pending[prevout.hash := index[prevout.hash]];
      }
    }
    assert outs[..|tx.vin|] == outs;
    return Passed, pending;
  }

  lemma {:induction false} NothingTaken(tx: Tx, inputs: Inputs, rules: Rules, pending: View, pos: DiskTxPos)
    ensures MarkedAll(Indices(inputs), Prevouts(tx.vin)[..0], pos) == Indices(inputs)
    ensures Spendable(Indices(inputs), Prevouts(tx.vin)[..0]) && Signed(tx, inputs, rules, 0)
    ensures WrittenBack(pending, Indices(inputs), Prevouts(tx.vin)[..0]) == pending
  {
  }

  lemma {:induction false} NextSignature(tx: Tx, inputs: Inputs, rules: Rules, i: nat)
    requires i < |tx.vin| && tx.vin[i].prevout.hash in inputs && Signed(tx, inputs, rules, i)
    ensures Signed(tx, inputs, rules, i + 1) <==>
            (rules.fVerify ==> rules.signature(inputs[tx.vin[i].prevout.hash].tx, tx, i) == Good)
    ensures Signed(tx, inputs, rules, |tx.vin|) ==> Signed(tx, inputs, rules, i + 1)
  {
  }

  /** A slot is still free when the loop reaches it exactly when it was free to begin with and was not named before. */
  lemma {:induction false} NextSlot(tx: Tx, inputs: Inputs, rules: Rules, outs: seq<OutPoint>, i: nat, pos: DiskTxPos)
    requires i < |tx.vin| && outs == Prevouts(tx.vin) && Affordable(tx, inputs, rules) && !pos.IsNull()
    requires Spendable(Indices(inputs), outs[..i])
    ensures HasSlot(Indices(inputs), outs[i]) && HasSlot(MarkedAll(Indices(inputs), outs[..i], pos), outs[i])
    ensures Slot(MarkedAll(Indices(inputs), outs[..i], pos), outs[i]).IsNull() <==>
            Spendable(Indices(inputs), outs[..i + 1])
    ensures Spendable(Indices(inputs), outs) ==> Spendable(Indices(inputs), outs[..i + 1])
    ensures outs[..i + 1] == outs[..i] + [outs[i]]
    ensures MarkedAll(Indices(inputs), outs[..i + 1], pos) ==
            Marked(MarkedAll(Indices(inputs), outs[..i], pos), outs[i], pos)
  {
    hide Affordable, Spendable, MarkedAll, Marked, SameShape;
    InputHasSlot(tx, inputs, rules, i);
    SpendableNext(Indices(inputs), outs, i);
    MarkedAllSlots(Indices(inputs), outs[..i], pos);
    MarkNext(Indices(inputs), outs, i, pos);
  }

  lemma {:induction false} InputHasSlot(tx: Tx, inputs: Inputs, rules: Rules, i: nat)
    requires i < |tx.vin| && Affordable(tx, inputs, rules)
    ensures HasSlot(Indices(inputs), tx.vin[i].prevout)
  {
  }

  lemma {:induction false} MarkNext(view: View, outs: seq<OutPoint>, i: nat, pos: DiskTxPos)
    requires i < |outs|
    ensures outs[..i + 1] == outs[..i] + [outs[i]]
    ensures MarkedAll(view, outs[..i + 1], pos) == Marked(MarkedAll(view, outs[..i], pos), outs[i], pos)
  {
  }

  lemma {:induction false} SpendableNext(view: View, outs: seq<OutPoint>, i: nat)
    requires i < |outs| && HasSlot(view, outs[i]) && Spendable(view, outs[..i])
    ensures Spendable(view, outs[..i + 1]) <==> Slot(view, outs[i]).IsNull() && outs[i] !in outs[..i]
    ensures Spendable(view, outs) ==> Spendable(view, outs[..i + 1])
  {
  }

  /**
   * ConnectInputs: succeeds exactly on connectable transactions. In block and miner mode the named slots then
   * hold posThisTx in the pending changes, also where several share one previous transaction.
   */
  method ConnectInputs(tx: Tx, inputs: Inputs, mapTestPool: View, posThisTx: DiskTxPos, rules: Rules, fBlock: bool,
                       fMiner: bool)
    returns (result: Outcome, pending: View)
    requires tx.IsCoinBase() || forall i :: 0 <= i < |tx.vin| ==> tx.vin[i].prevout.hash in inputs
    requires !posThisTx.IsNull()
    ensures result == Passed <==> Connectable(tx, inputs, rules)
    ensures result == Threw <==>
            !tx.IsCoinBase() && TakesOver(tx, inputs, rules) && !tx.IsCoinStake() && !OutputsInRange(tx.vout)
    ensures tx.IsCoinBase() || !(fBlock || fMiner) ==> pending == mapTestPool
    ensures result == Passed && !tx.IsCoinBase() && (fBlock || fMiner) ==>
              pending == WrittenBack(mapTestPool, MarkedAll(Indices(inputs), Prevouts(tx.vin), posThisTx),
                                     Prevouts(tx.vin))
  {
    pending := mapTestPool;
    if tx.IsCoinBase() {
      return Passed, pending;
    }
    var nValueIn;
    result, nValueIn := CheckInputs(tx, inputs, rules);
    if result != Passed {
      return result, pending;
    }
    result, pending := TakeOver(tx, inputs, mapTestPool, posThisTx, rules, fBlock, fMiner);
    if result != Passed {
      return result, pending;
    }
    if !tx.IsCoinStake() {
      var nValueOut := GetValueOut(tx);
      if nValueOut == None {
        return Threw, pending;
      }
      if nValueIn < nValueOut.value {
        return Refused(100), pending;
      }
      assert MoneyRange(nValueIn - nValueOut.value);
    }
    return Passed, pending;
  }

  // ----- The index with pending changes laid over it

  /** In block mode what is found depends only on the combined view. */
  lemma {:induction false} FoundInView(h: Hash, db: View, pending: View, store: Store)
    ensures Found(h, db, pending, true, store) == Found(h, db + pending, map[], true, store)
    ensures var found := Found(h, db, pending, true, store);
            found.Some? ==> h in db + pending && found.value.index == (db + pending)[h]
  {
  }

  /** With inputs fetched in block mode, connecting a transaction and recording its own entry acts on the
      combined view as the specification says. */
  lemma {:induction false} ConnectActsOnView(db: View, pending: View, store: Store, tx: Tx, inputs: Inputs,
                                             pos: DiskTxPos)
    requires FetchedSoFar(tx.vin, |tx.vin|, db, pending, true, store, inputs) && !tx.IsCoinBase()
    ensures db + WrittenBack(pending, MarkedAll(Indices(inputs), Prevouts(tx.vin), pos), Prevouts(tx.vin)) ==
            MarkedAll(db + pending, Prevouts(tx.vin), pos)
  {
    hide Found, WrittenBack, MarkedAll;
    var outs := Prevouts(tx.vin);
    var index := Indices(inputs);
    forall h | h in index ensures h in db + pending && index[h] == (db + pending)[h] && h in Hashes(outs) {
      FoundInView(h, db, pending, store);
      var j :| 0 <= j < |tx.vin| && tx.vin[j].prevout.hash == h;
      assert outs[j].hash == h;
    }
    forall h | h in Hashes(outs) ensures h in index {
      var o :| o in outs && o.hash == h;
    }
    WriteBackActsOnView(db, pending, index, outs, pos);
  }

  lemma {:induction false} WriteBackActsOnView(db: View, pending: View, index: View, outs: seq<OutPoint>,
                                               pos: DiskTxPos)
    requires index.Keys == Hashes(outs) && forall h :: h in index ==> h in db + pending && index[h] == (db + pending)[h]
    ensures db + WrittenBack(pending, MarkedAll(index, outs, pos), outs) == MarkedAll(db + pending, outs, pos)
  {
    hide Hashes, WrittenBack, MarkedAll, HasSlot, Slot;
    var marked, view := MarkedAll(index, outs, pos), db + pending;
    var left, right := db + WrittenBack(pending, marked, outs), MarkedAll(view, outs, pos);
    MarkedAllSlots(index, outs, pos);
    MarkedAllSlots(view, outs, pos);
    WrittenBackEntries(pending, marked, outs);
    assert left.Keys == right.Keys;
    forall h | h in right ensures left[h] == right[h] {
      MarkedAllEntry(index, view, outs, pos, h);
    }
  }

  lemma {:induction false} WrittenBackEntries(pending: View, index: View, outs: seq<OutPoint>)
    requires index.Keys == Hashes(outs)
    ensures var back := WrittenBack(pending, index, outs);
            back.Keys == pending.Keys + index.Keys &&
                forall h :: h in back ==> back[h] == if h in index then index[h] else pending[h]
  {
  }

  /** What marking does to an entry depends on that entry alone. */
  lemma {:induction false} MarkedAllEntry(a: View, b: View, outs: seq<OutPoint>, pos: DiskTxPos, h: Hash)
    ensures h in a && h in b && a[h] == b[h] ==>
              h in MarkedAll(a, outs, pos) && h in MarkedAll(b, outs, pos) &&
                  MarkedAll(a, outs, pos)[h] == MarkedAll(b, outs, pos)[h]
    ensures h in b && h !in Hashes(outs) ==> h in MarkedAll(b, outs, pos) && MarkedAll(b, outs, pos)[h] == b[h]
  {
    if outs != [] {
      MarkedAllEntry(a, b, outs[..|outs| - 1], pos, h);
    }
  }
}
