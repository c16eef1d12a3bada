/**
 * Connecting and disconnecting whole blocks: the index of spent outputs, and the money supply that each
 * block index entry records.
 */
module BlockLedger {
  import opened Basics
  import opened Ledger
  import opened Transaction
  import opened CoinbaseHeight

  // ----- The index after a block

  /** The positions of the transactions of a block, by their place in it. */
  type Positions = nat -> DiskTxPos

  function ConnectedAll(view: View, vtx: seq<Tx>, posOf: Positions): View {
    if vtx == [] then view
    else Connected(ConnectedAll(view, vtx[..|vtx| - 1], posOf), vtx[|vtx| - 1], posOf(|vtx| - 1))
  }

  function DisconnectedAll(view: View, vtx: seq<Tx>): Option<View>
    decreases |vtx|
  {
    if vtx == [] then Some(view)
    else match Disconnected(view, vtx[|vtx| - 1])
      case Some(rest) => DisconnectedAll(rest, vtx[..|vtx| - 1])
      case None => None
  }

  /** Each transaction in turn spends unspent outputs, each once. */
  ghost predicate AllSpendable(view: View, vtx: seq<Tx>, posOf: Positions) {
    vtx == [] || (AllSpendable(view, vtx[..|vtx| - 1], posOf) &&
                  Spendable(ConnectedAll(view, vtx[..|vtx| - 1], posOf), Spent(vtx[|vtx| - 1])))
  }

  ghost predicate UniqueHashes(vtx: seq<Tx>) {
    forall i, j :: 0 <= i < j < |vtx| ==> vtx[i].hash != vtx[j].hash
  }

  ghost predicate NewToIndex(view: View, vtx: seq<Tx>) {
    forall i :: 0 <= i < |vtx| ==> vtx[i].hash !in view
  }

  ghost predicate Positioned(posOf: Positions) {
    forall i :: !posOf(i).IsNull()
  }

  lemma {:induction false} ConnectedKeys(view: View, tx: Tx, pos: DiskTxPos)
    ensures Connected(view, tx, pos).Keys == view.Keys + {tx.hash}
  {
    MarkedAllSlots(view, Spent(tx), pos);
  }

  ghost function BlockHashes(vtx: seq<Tx>): set<Hash> {
    set i | 0 <= i < |vtx| :: vtx[i].hash
  }

  lemma {:induction false} ConnectedAllKeys(view: View, vtx: seq<Tx>, posOf: Positions)
    ensures ConnectedAll(view, vtx, posOf).Keys == view.Keys + BlockHashes(vtx)
  {
    hide Connected, BlockHashes;
    if vtx == [] {
      NoHashes();
    } else {
      var last := |vtx| - 1;
      ConnectedAllKeys(view, vtx[..last], posOf);
      ConnectedKeys(ConnectedAll(view, vtx[..last], posOf), vtx[last], posOf(last));
      MoreHashes(vtx);
    }
  }

  lemma {:induction false} NoHashes()
    ensures BlockHashes([]) == {}
  {
  }

  lemma {:induction false} MoreHashes(vtx: seq<Tx>)
    requires vtx != []
    ensures BlockHashes(vtx) == BlockHashes(vtx[..|vtx| - 1]) + {vtx[|vtx| - 1].hash}
    ensures UniqueHashes(vtx) ==>
              vtx[|vtx| - 1].hash !in BlockHashes(vtx[..|vtx| - 1]) && UniqueHashes(vtx[..|vtx| - 1])
  {
  }

  lemma {:induction false} BlockKeepsCanonical(view: View, vtx: seq<Tx>, posOf: Positions)
    requires Canonical(view) && Positioned(posOf)
    ensures Canonical(ConnectedAll(view, vtx, posOf))
  {
    if vtx != [] {
      BlockKeepsCanonical(view, vtx[..|vtx| - 1], posOf);
      ConnectKeepsCanonical(ConnectedAll(view, vtx[..|vtx| - 1], posOf), vtx[|vtx| - 1], posOf(|vtx| - 1));
    }
  }

  /** Disconnecting a block right after connecting it gives back the index it started from, also where its
      transactions spend each other, provided the block's transactions were new to the index. */
  lemma {:induction false} NewBlockRoundTrip(view: View, vtx: seq<Tx>, posOf: Positions)
    requires Canonical(view) && Positioned(posOf) && UniqueHashes(vtx) && AllSpendable(view, vtx, posOf)
    requires NewToIndex(view, vtx)
    ensures DisconnectedAll(ConnectedAll(view, vtx, posOf), vtx) == Some(view)
  {
    hide Connected, Disconnected, Spendable, Canonical, BlockHashes;
    if vtx != [] {
      var last := |vtx| - 1;
      var before := ConnectedAll(view, vtx[..last], posOf);
      BlockKeepsCanonical(view, vtx[..last], posOf);
      ConnectedAllKeys(view, vtx[..last], posOf);
      MoreHashes(vtx);
      DisconnectUndoesConnect(before, vtx[last], posOf(last));
      NewBlockRoundTrip(view, vtx[..last], posOf);
    }
  }

  /** A disconnected transaction is no longer in the index. */
  lemma {:induction false} DisconnectErases(view: View, vtx: seq<Tx>, h: Hash)
    ensures var back := DisconnectedAll(view, vtx);
            back.Some? ==> (h !in view || h in BlockHashes(vtx) ==> h !in back.value)
  {
    hide Disconnected, BlockHashes;
    if vtx == [] {
      NoHashes();
    } else {
      var last := |vtx| - 1;
      DisconnectErasesOne(view, vtx[last]);
      MoreHashes(vtx);
      if Disconnected(view, vtx[last]).Some? {
        DisconnectErases(Disconnected(view, vtx[last]).value, vtx[..last], h);
      }
    }
  }

  lemma {:induction false} DisconnectErasesOne(view: View, tx: Tx)
    ensures Disconnected(view, tx).Some? ==> Disconnected(view, tx).value.Keys == view.Keys - {tx.hash}
  {
    MarkedAllSlots(view, Spent(tx), UNSPENT);
  }

  /** The round trip holds exactly for blocks all of whose transactions are new to the index. */
  lemma {:induction false} BlockRoundTripIff(view: View, vtx: seq<Tx>, posOf: Positions)
    requires Canonical(view) && Positioned(posOf) && UniqueHashes(vtx) && AllSpendable(view, vtx, posOf)
    ensures DisconnectedAll(ConnectedAll(view, vtx, posOf), vtx) == Some(view) <==> NewToIndex(view, vtx)
  {
    if NewToIndex(view, vtx) {
      NewBlockRoundTrip(view, vtx, posOf);
    } else {
      var i :| 0 <= i < |vtx| && vtx[i].hash in view;
      DisconnectErases(ConnectedAll(view, vtx, posOf), vtx, vtx[i].hash);
    }
  }

  // ----- Why the transactions of a block are new to the index

  /** The transaction that a hash stands for. */
  type Bodies = Hash -> Tx

  ghost predicate Known(body: Bodies, vtx: seq<Tx>) {
    forall i :: 0 <= i < |vtx| ==> body(vtx[i].hash) == vtx[i]
  }

  ghost predicate SpentIn(view: View, o: OutPoint) {
    HasSlot(view, o) && !Slot(view, o).IsNull()
  }

  /** Whatever a transaction of the index spends is there and marked spent. */
  ghost predicate InputsSpent(view: View, body: Bodies) {
    forall h, o :: h in view && o in Spent(body(h)) ==> SpentIn(view, o)
  }

  ghost predicate NamesHeightUpTo(tx: Tx, height: nat) {
    exists k: nat :: k <= height && NamesHeight(tx, k)
  }

  /** Every transaction of the index that spends nothing is a coinbase made for one of the heights so far. */
  ghost predicate CoinBasesUpTo(view: View, body: Bodies, height: nat) {
    forall h :: h in view && Spent(body(h)) == [] ==> NamesHeightUpTo(body(h), height)
  }

  ghost predicate Grounded(view: View, body: Bodies, height: nat) {
    InputsSpent(view, body) && CoinBasesUpTo(view, body, height)
  }

  /** One coinbase, in front, whose script begins with the height; every other transaction spends something. */
  ghost predicate MadeForHeight(vtx: seq<Tx>, height: nat) {
    forall i :: 0 <= i < |vtx| ==> if i == 0 then NamesHeight(vtx[i], height) else Spent(vtx[i]) != []
  }

  lemma {:induction false} ConnectKeepsInputsSpent(view: View, body: Bodies, tx: Tx, pos: DiskTxPos)
    requires InputsSpent(view, body) && Spendable(view, Spent(tx)) && tx.hash !in view && body(tx.hash) == tx
    requires !pos.IsNull()
    ensures InputsSpent(Connected(view, tx, pos), body)
  {
    hide MarkedAll, Spent;
    MarkedAllSlots(view, Spent(tx), pos);
    var after := Connected(view, tx, pos);
    forall h, o | h in after && o in Spent(body(h)) ensures SpentIn(after, o) {
      if h == tx.hash {
        var i :| 0 <= i < |Spent(tx)| && Spent(tx)[i] == o;
        assert HasSlot(view, Spent(tx)[i]);
      } else {
        assert SpentIn(view, o);
      }
      assert o.hash in view && HasSlot(MarkedAll(view, Spent(tx), pos), o);
    }
  }

  /** A transaction of the index that spends something cannot spend it again. */
  lemma {:induction false} SpenderIsNew(view: View, body: Bodies, tx: Tx)
    requires InputsSpent(view, body) && body(tx.hash) == tx && Spent(tx) != [] && Spendable(view, Spent(tx))
    ensures tx.hash !in view
  {
    hide Spent;
    var o := Spent(tx)[0];
    assert o in Spent(tx) && HasSlot(view, Spent(tx)[0]) && Slot(view, Spent(tx)[0]).IsNull();
    assert tx.hash in view ==> SpentIn(view, o);
  }

  lemma {:induction false} CoinBaseSpends(tx: Tx, height: nat)
    requires NamesHeight(tx, height)
    ensures Spent(tx) == []
  {
  }

  lemma {:induction false} CoinBaseIsNew(view: View, body: Bodies, tx: Tx, height: nat)
    requires CoinBasesUpTo(view, body, height) && body(tx.hash) == tx && NamesHeight(tx, height + 1)
    ensures tx.hash !in view
  {
    hide NamesHeight, Spent;
    CoinBaseSpends(tx, height + 1);
    if tx.hash in view {
      assert NamesHeightUpTo(body(tx.hash), height);
      var k: nat :| k <= height && NamesHeight(tx, k);
      CoinBasesDiffer(tx, k, height + 1);
      assert false;
    }
  }

  lemma {:induction false} ConnectKeepsCoinBases(view: View, body: Bodies, tx: Tx, pos: DiskTxPos, height: nat)
    requires CoinBasesUpTo(view, body, height) && body(tx.hash) == tx && (Spent(tx) != [] || NamesHeight(tx, height))
    ensures CoinBasesUpTo(Connected(view, tx, pos), body, height)
  {
    hide MarkedAll, Spent, NamesHeight;
    MarkedAllSlots(view, Spent(tx), pos);
    assert Connected(view, tx, pos).Keys == view.Keys + {tx.hash};
  }

  lemma {:induction false} HigherCoinBases(view: View, body: Bodies, height: nat)
    requires CoinBasesUpTo(view, body, height)
    ensures CoinBasesUpTo(view, body, height + 1)
  {
    hide NamesHeight, Spent;
    forall h | h in view && Spent(body(h)) == [] ensures NamesHeightUpTo(body(h), height + 1) {
      assert NamesHeightUpTo(body(h), height);
      var k: nat :| k <= height && NamesHeight(body(h), k);
    }
  }

  /** A block made for the next height, spending unspent outputs only, holds no transaction that is in the index:
      a coinbase names another height, and any other transaction would find its inputs spent, by itself. */
  lemma {:induction false} BlockIsNew(view: View, body: Bodies, vtx: seq<Tx>, posOf: Positions, height: nat)
    requires Grounded(view, body, height) && Known(body, vtx) && MadeForHeight(vtx, height + 1)
    requires Positioned(posOf) && UniqueHashes(vtx) && AllSpendable(view, vtx, posOf)
    ensures NewToIndex(view, vtx)
    ensures Grounded(ConnectedAll(view, vtx, posOf), body, height + 1)
  {
    hide InputsSpent, CoinBasesUpTo, NamesHeight, Spendable, Connected, BlockHashes, Spent;
    if vtx == [] {
      HigherCoinBases(view, body, height);
    } else {
      var last := |vtx| - 1;
      var tx, before := vtx[last], ConnectedAll(view, vtx[..last], posOf);
      MoreHashes(vtx);
      BlockIsNew(view, body, vtx[..last], posOf, height);
      ConnectedAllKeys(view, vtx[..last], posOf);
      if last == 0 {
        CoinBaseIsNew(view, body, tx, height);
      } else {
        SpenderIsNew(before, body, tx);
      }
      ConnectKeepsInputsSpent(before, body, tx, posOf(last));
      ConnectKeepsCoinBases(before, body, tx, posOf(last), height + 1);
    }
  }

  /** Without the height rule a coinbase that passes every check on transactions could come twice, and disconnecting
      the second block would erase the entry of the first; the rule refuses the coinbase at every other height. */
  lemma {:induction false} OnlyHeightRuleStopsRepeats(pos: DiskTxPos, nSize: nat, nMaxSize: nat)
      returns (view: View, tx: Tx)
    requires !pos.IsNull() && nSize <= nMaxSize
    ensures WellFormed(tx, nSize, nMaxSize) && tx.IsCoinBase() && NamesHeight(tx, 17)
    ensures forall height :: height != 17 ==> !NamesHeight(tx, height)
    ensures view == map[tx.hash := TxIndex(pos, [UNSPENT])] && Canonical(view)
    ensures AllSpendable(view, [tx], _ => pos) && UniqueHashes([tx])
    ensures DisconnectedAll(ConnectedAll(view, [tx], _ => pos), [tx]) == Some(map[])
  {
    tx := Tx(5, 0, [TxIn(OutPoint(0, NULL_OUTPUT), HeightScript(17), 0)], [TxOut(1, [])]);
    view := map[tx.hash := TxIndex(pos, [UNSPENT])];
    RepeatPasses(tx, nSize, nMaxSize);
    RepeatConnects(tx, view, pos);
    forall height | height != 17 ensures !NamesHeight(tx, height) {
      if NamesHeight(tx, height) {
        CoinBasesDiffer(tx, height, 17);
        assert false;
      }
    }
  }

  lemma {:induction false} RepeatPasses(tx: Tx, nSize: nat, nMaxSize: nat)
    requires tx == Tx(5, 0, [TxIn(OutPoint(0, NULL_OUTPUT), HeightScript(17), 0)], [TxOut(1, [])]) && nSize <= nMaxSize
    ensures WellFormed(tx, nSize, nMaxSize) && NamesHeight(tx, 17)
  {
    assert Digits(17) == [17];
    assert Total(tx.vout) == 1 by {
      assert tx.vout[..0] == [];
    }
  }

  lemma {:induction false} RepeatConnects(tx: Tx, view: View, pos: DiskTxPos)
    requires tx.IsCoinBase() && |tx.vout| == 1 && view == map[tx.hash := TxIndex(pos, [UNSPENT])] && !pos.IsNull()
    ensures Canonical(view) && UniqueHashes([tx]) && AllSpendable(view, [tx], _ => pos)
    ensures DisconnectedAll(ConnectedAll(view, [tx], _ => pos), [tx]) == Some(map[])
  {
    var posOf: Positions := _ => pos;
    assert Spent(tx) == [] && [tx][..0] == [];
    assert AllSpendable(view, [tx][..0], posOf) && ConnectedAll(view, [tx][..0], posOf) == view;
    assert FreshSlots(1) == [UNSPENT];
    assert ConnectedAll(view, [tx], posOf) == view;
    assert Disconnected(view, tx) == Some(map[]);
  }

  // ----- Any run of connections and disconnections

  datatype BlockRecord = BlockRecord(vtx: seq<Tx>, posOf: Positions)

  /** What a run starts from: an index, the height of its last block, and what hashes stand for. */
  datatype Origin = Origin(index: View, height: nat, body: Bodies)

  datatype Chain = Chain(index: View, blocks: seq<BlockRecord>)

  datatype Event = Extend(block: BlockRecord) | Retract

  ghost predicate OriginOk(o: Origin) {
    Canonical(o.index) && Grounded(o.index, o.body, o.height)
  }

  /** What AcceptBlock and ConnectBlock demand of a block at a height. */
  ghost predicate CanConnect(body: Bodies, index: View, height: nat, b: BlockRecord) {
    && MadeForHeight(b.vtx, height) && Known(body, b.vtx)
    && Positioned(b.posOf) && UniqueHashes(b.vtx) && AllSpendable(index, b.vtx, b.posOf)
  }

  ghost predicate Allowed(o: Origin, c: Chain, e: Event) {
    match e
    case Extend(b) => CanConnect(o.body, c.index, o.height + |c.blocks| + 1, b)
    case Retract => c.blocks != []
  }

  ghost function Step(c: Chain, e: Event): Option<Chain> {
    match e
    case Extend(b) => Some(Chain(ConnectedAll(c.index, b.vtx, b.posOf), c.blocks + [b]))
    case Retract =>
      if c.blocks == [] then None
      else
        match DisconnectedAll(c.index, c.blocks[|c.blocks| - 1].vtx)
        case Some(index) => Some(Chain(index, c.blocks[..|c.blocks| - 1]))
        case None => None
  }

  /** The index obtained by connecting the blocks of a chain from a starting index and nothing else. */
  ghost function Replay(start: View, blocks: seq<BlockRecord>): View {
    if blocks == [] then start
    else ConnectedAll(Replay(start, blocks[..|blocks| - 1]), blocks[|blocks| - 1].vtx, blocks[|blocks| - 1].posOf)
  }

  ghost predicate Replayable(o: Origin, blocks: seq<BlockRecord>) {
    blocks == [] || (Replayable(o, blocks[..|blocks| - 1]) &&
                     CanConnect(o.body, Replay(o.index, blocks[..|blocks| - 1]), o.height + |blocks|,
                                blocks[|blocks| - 1]))
  }

  ghost predicate AllowedRun(o: Origin, c: Chain, events: seq<Event>)
    decreases |events|
  {
    events == [] ||
    (Allowed(o, c, events[0]) && (Step(c, events[0]).Some? ==> AllowedRun(o, Step(c, events[0]).value, events[1..])))
  }

  ghost function Run(c: Chain, events: seq<Event>): Option<Chain>
    decreases |events|
  {
    if events == [] then Some(c)
    else match Step(c, events[0])
      case Some(next) => Run(next, events[1..])
      case None => None
  }

  ghost predicate Faithful(o: Origin, c: Chain) {
    c.index == Replay(o.index, c.blocks) && Replayable(o, c.blocks)
  }

  /** Every index that connecting blocks produces holds no null slot but SetNull's, has the inputs of all its
      transactions marked spent, and was extended by blocks whose transactions were new to it. */
  lemma {:induction false} ReplayKeeps(o: Origin, blocks: seq<BlockRecord>)
    requires OriginOk(o) && Replayable(o, blocks)
    ensures Canonical(Replay(o.index, blocks)) && Grounded(Replay(o.index, blocks), o.body, o.height + |blocks|)
    ensures blocks != [] ==> NewToIndex(Replay(o.index, blocks[..|blocks| - 1]), blocks[|blocks| - 1].vtx)
  {
    hide Canonical, Grounded, AllSpendable, UniqueHashes, NewToIndex, Positioned, ConnectedAll, Known, MadeForHeight;
    if blocks != [] {
      var last := |blocks| - 1;
      ReplayKeeps(o, blocks[..last]);
      BlockKeepsCanonical(Replay(o.index, blocks[..last]), blocks[last].vtx, blocks[last].posOf);
      BlockIsNew(Replay(o.index, blocks[..last]), o.body, blocks[last].vtx, blocks[last].posOf, o.height + last);
    }
  }

  lemma {:induction false} StepKeepsFaithful(o: Origin, c: Chain, e: Event)
    requires OriginOk(o) && Faithful(o, c) && Allowed(o, c, e)
    ensures Step(c, e).Some? && Faithful(o, Step(c, e).value)
  {
    match e
    case Extend(b) =>
      ExtendKeepsFaithful(o, c, b);
    case Retract =>
      RetractKeepsFaithful(o, c);
  }

  lemma {:induction false} ExtendKeepsFaithful(o: Origin, c: Chain, b: BlockRecord)
    requires Faithful(o, c) && Allowed(o, c, Extend(b))
    ensures Faithful(o, Step(c, Extend(b)).value)
  {
    hide CanConnect, ConnectedAll;
    assert (c.blocks + [b])[..|c.blocks|] == c.blocks;
  }

  lemma {:induction false} RetractKeepsFaithful(o: Origin, c: Chain)
    requires OriginOk(o) && Faithful(o, c) && c.blocks != []
    ensures Step(c, Retract).Some? && Faithful(o, Step(c, Retract).value)
  {
    hide ConnectedAll, DisconnectedAll, AllSpendable, UniqueHashes, NewToIndex, Positioned, Canonical, Grounded, Known,
         MadeForHeight;
    var last := |c.blocks| - 1;
    ReplayKeeps(o, c.blocks);
    ReplayKeeps(o, c.blocks[..last]);
    NewBlockRoundTrip(Replay(o.index, c.blocks[..last]), c.blocks[last].vtx, c.blocks[last].posOf);
  }

  lemma {:induction false} RunIsFaithful(o: Origin, c: Chain, events: seq<Event>)
    requires OriginOk(o) && Faithful(o, c) && AllowedRun(o, c, events)
    ensures Run(c, events).Some? && Faithful(o, Run(c, events).value)
    decreases |events|
  {
    hide Faithful, Allowed, Step, OriginOk;
    if events != [] {
      StepKeepsFaithful(o, c, events[0]);
      RunIsFaithful(o, Step(c, events[0]).value, events[1..]);
    }
  }

  /** Through any reorganizations, every disconnection succeeds and the index is the one that the blocks now in
      the chain produce: it keeps no trace of blocks that were taken out. */
  lemma {:induction false} IndexIsThatOfTheChain(o: Origin, events: seq<Event>)
    requires OriginOk(o) && AllowedRun(o, Chain(o.index, []), events)
    ensures Run(Chain(o.index, []), events).Some?
    ensures var c := Run(Chain(o.index, []), events).value; c.index == Replay(o.index, c.blocks)
  {
    RunIsFaithful(o, Chain(o.index, []), events);
  }

  /** A node that starts with an empty index, before the first block, meets what a run is to start from. */
  lemma {:induction false} EmptyIndexIsOrigin(body: Bodies)
    ensures OriginOk(Origin(map[], 0, body))
  {
  }
}
