/**
 * The total value of the unspent outputs in the index, and how connecting transactions changes it.
 */
module MoneySupply {
  import opened Basics
  import opened Ledger
  import opened Transaction
  import opened BlockLedger

  /** Index entries have one slot for each output of the transaction they are for. */
  ghost predicate Sized(view: View, body: Bodies) {
    forall h :: h in view ==> |view[h].vSpent| == |body(h).vout|
  }

  ghost function UnspentValue(slots: seq<DiskTxPos>, vout: seq<TxOut>): int
    requires |slots| == |vout|
  {
    if slots == [] then 0
    else
      var last := |slots| - 1;
      UnspentValue(slots[..last], vout[..last]) + if slots[last].IsNull() then vout[last].nValue else 0
  }

  ghost function EntryValue(view: View, body: Bodies, h: Hash): int
    requires Sized(view, body)
  {
    if h in view then UnspentValue(view[h].vSpent, body(h).vout) else 0
  }

  /** The unspent value over all transactions with hashes below a bound. */
  ghost function Supply(view: View, body: Bodies, bound: nat): int
    requires Sized(view, body)
  {
    if bound == 0 then 0 else Supply(view, body, bound - 1) + EntryValue(view, body, bound - 1)
  }

  lemma {:induction false} SpendSlotValue(slots: seq<DiskTxPos>, vout: seq<TxOut>, n: nat, pos: DiskTxPos)
    requires |slots| == |vout| && n < |slots| && slots[n].IsNull() && !pos.IsNull()
    ensures UnspentValue(slots[n := pos], vout) == UnspentValue(slots, vout) - vout[n].nValue
  {
    var last := |slots| - 1;
    if n < last {
      SpendSlotValue(slots[..last], vout[..last], n, pos);
      assert slots[n := pos][..last] == slots[..last][n := pos];
    } else {
      assert slots[n := pos][..last] == slots[..last];
    }
  }

  lemma {:induction false} FreshValue(slots: seq<DiskTxPos>, vout: seq<TxOut>)
    requires |slots| == |vout| && forall i :: 0 <= i < |slots| ==> slots[i] == UNSPENT
    ensures UnspentValue(slots, vout) == Total(vout)
  {
    if slots != [] {
      FreshValue(slots[..|slots| - 1], vout[..|slots| - 1]);
    }
  }

  /** Two views that differ at one hash differ in supply by the difference of that entry. */
  lemma {:induction false} SupplyDiffers(a: View, b: View, body: Bodies, h: Hash, bound: nat)
    requires Sized(a, body) && Sized(b, body)
    requires forall g :: g != h ==> EntryValue(a, body, g) == EntryValue(b, body, g)
    ensures Supply(b, body, bound) - Supply(a, body, bound) ==
            if h < bound then EntryValue(b, body, h) - EntryValue(a, body, h) else 0
  {
    hide EntryValue;
    if bound > 0 {
      SupplyDiffers(a, b, body, h, bound - 1);
    }
  }

  ghost function Value(body: Bodies, o: OutPoint): int {
    var vout := body(o.hash).vout;
    if o.n < |vout| then vout[o.n].nValue else 0
  }

  ghost function Values(body: Bodies, outs: seq<OutPoint>): int {
    if outs == [] then 0 else Values(body, outs[..|outs| - 1]) + Value(body, outs[|outs| - 1])
  }

  lemma {:induction false} MarkOneSupply(view: View, body: Bodies, o: OutPoint, pos: DiskTxPos, bound: nat)
    requires Sized(view, body) && HasSlot(view, o) && Slot(view, o).IsNull() && !pos.IsNull() && o.hash < bound
    ensures Sized(Marked(view, o, pos), body)
    ensures Supply(Marked(view, o, pos), body, bound) == Supply(view, body, bound) - Value(body, o)
  {
    var after := Marked(view, o, pos);
    SpendSlotValue(view[o.hash].vSpent, body(o.hash).vout, o.n, pos);
    SupplyDiffers(view, after, body, o.hash, bound);
  }

  ghost predicate Below(view: View, bound: nat) {
    forall h :: h in view ==> h < bound
  }

  lemma {:induction false} MarkAllSupply(view: View, body: Bodies, outs: seq<OutPoint>, pos: DiskTxPos, bound: nat)
    requires Sized(view, body) && Spendable(view, outs) && !pos.IsNull() && Below(view, bound)
    ensures Sized(MarkedAll(view, outs, pos), body)
    ensures Supply(MarkedAll(view, outs, pos), body, bound) == Supply(view, body, bound) - Values(body, outs)
  {
    if outs != [] {
      var last := |outs| - 1;
      var o := outs[last];
      MarkAllSupply(view, body, outs[..last], pos, bound);
      MarkedAllSlots(view, outs[..last], pos);
      assert HasSlot(view, o) && o !in outs[..last];
      hide Spendable, Sized, Below, Supply;
      MarkOneSupply(MarkedAll(view, outs[..last], pos), body, o, pos, bound);
    }
  }

  /** Connecting a transaction new to the index moves the value of what it spends to what it creates. */
  lemma {:induction false} ConnectSupply(view: View, body: Bodies, tx: Tx, pos: DiskTxPos, bound: nat)
    requires Sized(view, body) && Spendable(view, Spent(tx)) && !pos.IsNull() && Below(view, bound)
    requires tx.hash !in view && tx.hash < bound && body(tx.hash) == tx
    ensures Sized(Connected(view, tx, pos), body) && Below(Connected(view, tx, pos), bound)
    ensures Supply(Connected(view, tx, pos), body, bound) ==
            Supply(view, body, bound) - Values(body, Spent(tx)) + Total(tx.vout)
  {
    var marked := MarkedAll(view, Spent(tx), pos);
    MarkAllSupply(view, body, Spent(tx), pos, bound);
    MarkedAllSlots(view, Spent(tx), pos);
    FreshValue(FreshSlots(|tx.vout|), tx.vout);
    hide MarkedAll, Spendable, UnspentValue;
    SupplyDiffers(marked, Connected(view, tx, pos), body, tx.hash, bound);
  }

  // ----- Blocks

  ghost function BlockIn(body: Bodies, vtx: seq<Tx>): int {
    if vtx == [] then 0 else BlockIn(body, vtx[..|vtx| - 1]) + Values(body, Spent(vtx[|vtx| - 1]))
  }

  ghost function BlockOut(vtx: seq<Tx>): int {
    if vtx == [] then 0 else BlockOut(vtx[..|vtx| - 1]) + Total(vtx[|vtx| - 1].vout)
  }

  ghost predicate Named(body: Bodies, vtx: seq<Tx>, bound: nat) {
    Known(body, vtx) && HashesBelow(vtx, bound)
  }

  lemma {:induction false} BlockSupply(view: View, body: Bodies, vtx: seq<Tx>, posOf: Positions, bound: nat)
    requires Sized(view, body) && Below(view, bound) && Named(body, vtx, bound)
    requires Positioned(posOf) && UniqueHashes(vtx) && AllSpendable(view, vtx, posOf) && NewToIndex(view, vtx)
    ensures Sized(ConnectedAll(view, vtx, posOf), body) && Below(ConnectedAll(view, vtx, posOf), bound)
    ensures Supply(ConnectedAll(view, vtx, posOf), body, bound) ==
            Supply(view, body, bound) - BlockIn(body, vtx) + BlockOut(vtx)
  {
    hide Connected, Spendable, Sized, Below, Supply, BlockHashes;
    if vtx != [] {
      var last := |vtx| - 1;
      BlockSupply(view, body, vtx[..last], posOf, bound);
      ConnectedAllKeys(view, vtx[..last], posOf);
      MoreHashes(vtx);
      ConnectSupply(ConnectedAll(view, vtx[..last], posOf), body, vtx[last], posOf(last), bound);
    }
  }

  // ----- Chains

  /** The money supply that the index entry of the last block records. */
  ghost function RecordedSupply(body: Bodies, atStart: int, blocks: seq<BlockRecord>): int {
    if blocks == [] then atStart
    else
      var last := |blocks| - 1;
      RecordedSupply(body, atStart, blocks[..last]) + BlockOut(blocks[last].vtx) - BlockIn(body, blocks[last].vtx)
  }

  ghost predicate HashesBelow(vtx: seq<Tx>, bound: nat) {
    forall i :: 0 <= i < |vtx| ==> vtx[i].hash < bound
  }

  lemma {:induction false} ReplaySupply(o: Origin, blocks: seq<BlockRecord>, bound: nat)
    requires OriginOk(o) && Sized(o.index, o.body) && Below(o.index, bound) && Replayable(o, blocks)
    requires forall i :: 0 <= i < |blocks| ==> HashesBelow(blocks[i].vtx, bound)
    ensures Sized(Replay(o.index, blocks), o.body) && Below(Replay(o.index, blocks), bound)
    ensures Supply(Replay(o.index, blocks), o.body, bound) ==
            RecordedSupply(o.body, Supply(o.index, o.body, bound), blocks)
  {
    hide OriginOk, Sized, Below, Supply, AllSpendable, UniqueHashes, NewToIndex, Positioned, ConnectedAll, Known,
         HashesBelow, MadeForHeight;
    if blocks != [] {
      var last := |blocks| - 1;
      ReplaySupply(o, blocks[..last], bound);
      ReplayKeeps(o, blocks);
      BlockSupply(Replay(o.index, blocks[..last]), o.body, blocks[last].vtx, blocks[last].posOf, bound);
    }
  }

  /** After any run of connections and disconnections, the supply recorded at the tip is the value of the
      unspent outputs in the index. */
  lemma {:induction false} SupplyIsUnspentValue(o: Origin, events: seq<Event>, bound: nat)
    requires OriginOk(o) && Sized(o.index, o.body) && Below(o.index, bound) && AllowedRun(o, Chain(o.index, []), events)
    requires forall i :: 0 <= i < |events| && events[i].Extend? ==> HashesBelow(events[i].block.vtx, bound)
    ensures Run(Chain(o.index, []), events).Some?
    ensures var c := Run(Chain(o.index, []), events).value;
            && Sized(c.index, o.body)
            && Supply(c.index, o.body, bound) == RecordedSupply(o.body, Supply(o.index, o.body, bound), c.blocks)
  {
    RunIsFaithful(o, Chain(o.index, []), events);
    RunKeepsBelow(Chain(o.index, []), events, bound);
    var c := Run(Chain(o.index, []), events).value;
    ReplaySupply(o, c.blocks, bound);
  }

  lemma {:induction false} RunKeepsBelow(c: Chain, events: seq<Event>, bound: nat)
    requires Run(c, events).Some?
    requires forall i :: 0 <= i < |c.blocks| ==> HashesBelow(c.blocks[i].vtx, bound)
    requires forall i :: 0 <= i < |events| && events[i].Extend? ==> HashesBelow(events[i].block.vtx, bound)
    ensures var blocks := Run(c, events).value.blocks;
            forall i :: 0 <= i < |blocks| ==> HashesBelow(blocks[i].vtx, bound)
    decreases |events|
  {
    hide HashesBelow;
    if events != [] {
      var e := events[0];
      assert e.Extend? ==> HashesBelow(e.block.vtx, bound);
      assert forall i :: 0 <= i < |events[1..]| ==> events[1..][i] == events[i + 1];
      RunKeepsBelow(Step(c, e).value, events[1..], bound);
    }
  }
}
