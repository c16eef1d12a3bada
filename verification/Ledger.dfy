/**
 * Transactions and the index of spent outputs: which slots a transaction takes over when its inputs are
 * connected, and which it gives back when they are disconnected.
 */
module Ledger {
  import opened Basics

  const COIN := 100_000_000
  const MAX_SINGLE_TX := 10_000_000_000 * COIN
  const NULL_FILE := 0xFFFF_FFFF
  const NULL_OUTPUT := 0xFFFF_FFFF

  predicate MoneyRange(value: int) {
    0 <= value <= MAX_SINGLE_TX
  }

  /** CDiskTxPos. */
  datatype DiskTxPos = DiskTxPos(nFile: nat, nBlockPos: nat, nTxPos: nat) {
    predicate IsNull() {
      nFile == NULL_FILE
    }
  }

  /** What SetNull leaves in a slot. */
  const UNSPENT := DiskTxPos(NULL_FILE, 0, 0)
  /** The position that says "look in the memory pool". */
  const IN_MEMORY_POOL := DiskTxPos(1, 1, 1)

  datatype TxOut = TxOut(nValue: int, scriptPubKey: Script) {
    predicate IsEmpty() {
      nValue == 0 && scriptPubKey == []
    }
  }

  predicate IsNullOutPoint(o: OutPoint) {
    o.hash == 0 && o.n == NULL_OUTPUT
  }

  datatype Tx = Tx(hash: Hash, nTime: nat, vin: seq<TxIn>, vout: seq<TxOut>) {
    predicate IsCoinBase() {
      |vin| == 1 && IsNullOutPoint(vin[0].prevout) && |vout| >= 1
    }

    predicate IsCoinStake() {
      |vin| > 0 && !IsNullOutPoint(vin[0].prevout) && |vout| >= 2 && vout[0].IsEmpty()
    }
  }

  /** CTxIndex: where a transaction lies, and for each of its outputs the position of the spender. */
  datatype TxIndex = TxIndex(pos: DiskTxPos, vSpent: seq<DiskTxPos>)

  type View = map<Hash, TxIndex>

  function FreshSlots(n: nat): (s: seq<DiskTxPos>)
    ensures |s| == n && forall i :: 0 <= i < n ==> s[i] == UNSPENT
  {
    seq(n, i => UNSPENT)
  }

  function Prevouts(vin: seq<TxIn>): (s: seq<OutPoint>)
    ensures |s| == |vin| && forall i :: 0 <= i < |vin| ==> s[i] == vin[i].prevout
  {
    seq(|vin|, i requires 0 <= i < |vin| => vin[i].prevout)
  }

  // ----- Slots

  predicate HasSlot(view: View, o: OutPoint) {
    o.hash in view && o.n < |view[o.hash].vSpent|
  }

  function Slot(view: View, o: OutPoint): DiskTxPos
    requires HasSlot(view, o)
  {
    view[o.hash].vSpent[o.n]
  }

  function Marked(view: View, o: OutPoint, pos: DiskTxPos): View {
    if HasSlot(view, o) then view[o.hash := view[o.hash].(vSpent := view[o.hash].vSpent[o.n := pos])] else view
  }

  function MarkedAll(view: View, outs: seq<OutPoint>, pos: DiskTxPos): View {
    if outs == [] then view else Marked(MarkedAll(view, outs[..|outs| - 1], pos), outs[|outs| - 1], pos)
  }

  ghost predicate SameShape(a: View, b: View) {
    a.Keys == b.Keys && forall h :: h in a ==> a[h].pos == b[h].pos && |a[h].vSpent| == |b[h].vSpent|
  }

  lemma {:induction false} SameShapeSameSlots(a: View, b: View, o: OutPoint)
    requires SameShape(a, b)
    ensures HasSlot(a, o) <==> HasSlot(b, o)
  {
  }

  /** A view is its shape and its slots. */
  lemma {:induction false} ViewsEqual(a: View, b: View)
    requires SameShape(a, b)
    requires forall o :: HasSlot(a, o) ==> HasSlot(b, o) && Slot(a, o) == Slot(b, o)
    ensures a == b
  {
    forall h | h in a ensures a[h] == b[h] {
      forall i | 0 <= i < |a[h].vSpent| ensures a[h].vSpent[i] == b[h].vSpent[i] {
        assert HasSlot(a, OutPoint(h, i)) && Slot(a, OutPoint(h, i)) == Slot(b, OutPoint(h, i));
      }
    }
  }

  lemma {:induction false} MarkedSlots(view: View, p: OutPoint, pos: DiskTxPos)
    ensures SameShape(view, Marked(view, p, pos))
    ensures forall o :: HasSlot(view, o) ==>
              HasSlot(Marked(view, p, pos), o) && Slot(Marked(view, p, pos), o) == if o == p then pos else Slot(view, o)
  {
  }

  /** Marking touches the named slots and nothing else, in any order and however many share one transaction. */
  lemma {:induction false} MarkedAllSlots(view: View, outs: seq<OutPoint>, pos: DiskTxPos)
    ensures SameShape(view, MarkedAll(view, outs, pos))
    ensures forall o :: HasSlot(view, o) ==>
              && HasSlot(MarkedAll(view, outs, pos), o)
              && Slot(MarkedAll(view, outs, pos), o) == if o in outs then pos else Slot(view, o)
  {
    if outs != [] {
      var last := |outs| - 1;
      MarkedAllSlots(view, outs[..last], pos);
      MarkedSlots(MarkedAll(view, outs[..last], pos), outs[last], pos);
      assert outs == outs[..last] + [outs[last]];
    }
  }

  /** Null slots hold what SetNull writes. */
  ghost predicate Canonical(view: View) {
    forall o :: HasSlot(view, o) && Slot(view, o).IsNull() ==> Slot(view, o) == UNSPENT
  }

  /** The outputs exist, are unspent and none is named twice. */
  ghost predicate Spendable(view: View, outs: seq<OutPoint>) {
    Distinct(outs) && forall i :: 0 <= i < |outs| ==> HasSlot(view, outs[i]) && Slot(view, outs[i]).IsNull()
  }

  // ----- What connecting and disconnecting do to the index

  function Spent(tx: Tx): seq<OutPoint> {
    if tx.IsCoinBase() then [] else Prevouts(tx.vin)
  }

  function Connected(view: View, tx: Tx, pos: DiskTxPos): View {
    MarkedAll(view, Spent(tx), pos)[tx.hash := TxIndex(pos, FreshSlots(|tx.vout|))]
  }

  function Disconnected(view: View, tx: Tx): Option<View> {
    if forall o :: o in Spent(tx) ==> HasSlot(view, o)
    then Some(MarkedAll(view, Spent(tx), UNSPENT) - {tx.hash}) else None
  }

  /** Disconnecting a transaction right after connecting it restores every slot and removes its own entry. */
  lemma {:induction false} DisconnectUndoesConnect(view: View, tx: Tx, pos: DiskTxPos)
    requires Canonical(view) && Spendable(view, Spent(tx)) && tx.hash !in view
    ensures Disconnected(Connected(view, tx, pos), tx) == Some(view)
  {
    hide MarkedAll;
    var outs := Spent(tx);
    var marked := MarkedAll(view, outs, pos);
    var after := Connected(view, tx, pos);
    MarkedAllSlots(view, outs, pos);
    forall o | o in outs ensures HasSlot(after, o) && Slot(view, o) == UNSPENT {
      var i :| 0 <= i < |outs| && outs[i] == o;
      assert HasSlot(marked, outs[i]);
    }
    MarkedAllSlots(after, outs, UNSPENT);
    var back := MarkedAll(after, outs, UNSPENT) - {tx.hash};
    assert SameShape(view, back);
    forall o | HasSlot(view, o) ensures HasSlot(back, o) && Slot(back, o) == Slot(view, o) {
      assert HasSlot(marked, o) && Slot(marked, o) == if o in outs then pos else Slot(view, o);
      assert HasSlot(after, o) && Slot(after, o) == Slot(marked, o);
    }
    ViewsEqual(view, back);
  }

  lemma {:induction false} ConnectKeepsCanonical(view: View, tx: Tx, pos: DiskTxPos)
    requires Canonical(view) && !pos.IsNull()
    ensures Canonical(Connected(view, tx, pos))
  {
    var marked := MarkedAll(view, Spent(tx), pos);
    var after := Connected(view, tx, pos);
    MarkedAllSlots(view, Spent(tx), pos);
    hide MarkedAll;
    forall o | HasSlot(after, o) && Slot(after, o).IsNull() ensures Slot(after, o) == UNSPENT {
      if o.hash != tx.hash {
        assert HasSlot(marked, o) && HasSlot(view, o);
      }
    }
  }
}
