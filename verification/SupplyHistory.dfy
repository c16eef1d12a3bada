/** The money supply field of block index entries, as connecting blocks writes it, over runs with disconnections. */
module SupplyHistory {
  import opened Basics
  import opened Ledger
  import opened Transaction
  import opened CoinbaseHeight
  import opened BlockLedger
  import opened MoneySupply
  import opened BlockConnection

  /** The index a node starts from and the height of its last block, where transactions are read, and what
      hashes stand for. */
  datatype Setting = Setting(start: View, height: nat, atStart: int, store: Store, body: Bodies, bound: nat)

  ghost predicate SettingOk(s: Setting) {
    && Canonical(s.start) && Grounded(s.start, s.body, s.height) && StoreHolds(s.start, s.store, s.body)
    && Sized(s.start, s.body) && Below(s.start, s.bound) && s.atStart == Supply(s.start, s.body, s.bound)
  }

  /** A block in the chain, with what it was connected with and the supply that was recorded. */
  datatype Entry = Entry(vtx: seq<Tx>, ctx: BlockContext, nMoneySupply: int)

  datatype Node = Node(index: View, entries: seq<Entry>)

  datatype Change = Extend(vtx: seq<Tx>, ctx: BlockContext) | Retract

  ghost function TipSupply(s: Setting, entries: seq<Entry>): int {
    if entries == [] then s.atStart else entries[|entries| - 1].nMoneySupply
  }

  /** The coinbase begins with the height of the block, and ConnectBlock succeeds given the supply that the block
      before recorded. */
  ghost predicate CanExtend(s: Setting, index: View, entries: seq<Entry>, vtx: seq<Tx>, ctx: BlockContext) {
    && BlockWellFormed(vtx, ctx) && NamesHeight(vtx[0], s.height + |entries| + 1)
    && AllConnect(index, vtx, ctx) && RewardAllowed(vtx, TotalsOf(index, vtx, ctx), ctx)
    && Positioned(ctx.posOf) && ctx.nSupplyBefore == TipSupply(s, entries)
    && ctx.store == s.store && Named(s.body, vtx, s.bound) && BlockReadsRight(vtx, ctx, s.body)
  }

  ghost predicate CanChange(s: Setting, n: Node, c: Change) {
    match c
    case Extend(vtx, ctx) => CanExtend(s, n.index, n.entries, vtx, ctx)
    case Retract => n.entries != []
  }

  ghost function Changed(n: Node, c: Change): Option<Node> {
    match c
    case Extend(vtx, ctx) =>
      Some(Node(ConnectedAll(n.index, vtx, ctx.posOf), n.entries + [Entry(vtx, ctx, SupplyAfter(n.index, vtx, ctx))]))
    case Retract =>
      if n.entries == [] then None
      else
        match DisconnectedAll(n.index, n.entries[|n.entries| - 1].vtx)
        case Some(index) => Some(Node(index, n.entries[..|n.entries| - 1]))
        case None => None
  }

  // ----- The blocks of the chain, connected one after another

  ghost function IndexOf(s: Setting, entries: seq<Entry>): View {
    if entries == [] then s.start
    else
      var last := |entries| - 1;
      ConnectedAll(IndexOf(s, entries[..last]), entries[last].vtx, entries[last].ctx.posOf)
  }

  ghost predicate IsHistory(s: Setting, entries: seq<Entry>) {
    entries == [] ||
    var last := |entries| - 1;
    var before := IndexOf(s, entries[..last]);
    && IsHistory(s, entries[..last])
    && CanExtend(s, before, entries[..last], entries[last].vtx, entries[last].ctx)
    && entries[last].nMoneySupply == SupplyAfter(before, entries[last].vtx, entries[last].ctx)
  }

  /** A transaction that connects spends unspent outputs, each once. */
  lemma {:induction false} ConnectingSpends(view: View, tx: Tx, i: nat, ctx: BlockContext)
    requires TxConnects(view, tx, i, ctx)
    ensures Spendable(view, Spent(tx))
  {
    if !tx.IsCoinBase() {
      hide Found, ValueIn;
      var outs, inputs := Prevouts(tx.vin), InputsOf(view, ctx.store, tx);
      assert view + map[] == view;
      forall k | 0 <= k < |outs| ensures HasSlot(view, outs[k]) && Slot(view, outs[k]).IsNull() {
        FoundInView(outs[k].hash, view, map[], ctx.store);
        assert HasSlot(Indices(inputs), outs[k]) && Slot(Indices(inputs), outs[k]).IsNull();
      }
    }
  }

  lemma {:induction false} ConnectingBlockSpends(view: View, vtx: seq<Tx>, ctx: BlockContext)
    requires AllConnect(view, vtx, ctx)
    ensures AllSpendable(view, vtx, ctx.posOf)
  {
    hide TxConnects, Spendable, ConnectedAll;
    if vtx != [] {
      var last := |vtx| - 1;
      ConnectingBlockSpends(view, vtx[..last], ctx);
      ConnectingSpends(ConnectedAll(view, vtx[..last], ctx.posOf), vtx[last], last, ctx);
    }
  }

  lemma {:induction false} WellFormedIsMadeForHeight(vtx: seq<Tx>, ctx: BlockContext, height: nat)
    requires BlockWellFormed(vtx, ctx) && NamesHeight(vtx[0], height)
    ensures MadeForHeight(vtx, height) && UniqueHashes(vtx)
  {
    hide NamesHeight, OutputsOk, OutputsInRange;
  }

  /** What holds of the index once the block of a height is connected. */
  ghost predicate Kept(s: Setting, index: View, height: nat, supply: int) {
    && Canonical(index) && Grounded(index, s.body, height) && StoreHolds(index, s.store, s.body) &&
         Sized(index, s.body) && Below(index, s.bound)
    && supply == Supply(index, s.body, s.bound)
  }

  lemma {:induction false} ExtendKeeps(s: Setting, index: View, entries: seq<Entry>, vtx: seq<Tx>, ctx: BlockContext)
    requires Kept(s, index, s.height + |entries|, TipSupply(s, entries)) && CanExtend(s, index, entries, vtx, ctx)
    ensures NewToIndex(index, vtx)
    ensures Kept(s, ConnectedAll(index, vtx, ctx.posOf), s.height + |entries| + 1, SupplyAfter(index, vtx, ctx))
  {
    hide Canonical, Grounded, StoreHolds, Sized, Below, Supply, ConnectedAll, TotalsOf, AllConnect, AllSpendable,
         NewToIndex, Known, HashesBelow, BlockReadsRight, Positioned, RewardAllowed, BlockWellFormed, UniqueHashes,
         NamesHeight, MadeForHeight;
    WellFormedIsMadeForHeight(vtx, ctx, s.height + |entries| + 1);
    ConnectingBlockSpends(index, vtx, ctx);
    BlockKeepsCanonical(index, vtx, ctx.posOf);
    BlockIsNew(index, s.body, vtx, ctx.posOf, s.height + |entries|);
    TotalsAreBlockValues(index, s.body, vtx, ctx);
    SupplyGrowthIsRecorded(index, s.body, vtx, ctx, s.bound);
    BlockSupply(index, s.body, vtx, ctx.posOf, s.bound);
  }

  /** Every block in the chain recorded the value of the outputs that were unspent once it was connected. */
  lemma {:induction false} HistoryKeeps(s: Setting, entries: seq<Entry>)
    requires SettingOk(s) && IsHistory(s, entries)
    ensures Kept(s, IndexOf(s, entries), s.height + |entries|, TipSupply(s, entries))
  {
    if entries != [] {
      var last := |entries| - 1;
      HistoryKeeps(s, entries[..last]);
      hide Kept, CanExtend;
      ExtendKeeps(s, IndexOf(s, entries[..last]), entries[..last], entries[last].vtx, entries[last].ctx);
    }
  }

  // ----- Runs

  ghost predicate Regular(s: Setting, n: Node) {
    IsHistory(s, n.entries) && n.index == IndexOf(s, n.entries)
  }

  lemma {:induction false} ChangeKeepsRegular(s: Setting, n: Node, c: Change)
    requires SettingOk(s) && Regular(s, n) && CanChange(s, n, c)
    ensures Changed(n, c).Some? && Regular(s, Changed(n, c).value)
  {
    hide SettingOk, IsHistory, CanExtend, IndexOf, ConnectedAll, DisconnectedAll;
    match c
    case Extend(vtx, ctx) =>
      ExtendKeepsRegular(s, n, vtx, ctx);
    case Retract =>
      HistoryShrinks(s, n.entries);
      RetractUndoes(s, n.entries);
  }

  lemma {:induction false} ExtendKeepsRegular(s: Setting, n: Node, vtx: seq<Tx>, ctx: BlockContext)
    requires Regular(s, n) && CanExtend(s, n.index, n.entries, vtx, ctx)
    ensures Regular(s, Changed(n, Change.Extend(vtx, ctx)).value)
  {
    hide CanExtend, ConnectedAll, SupplyAfter;
    assert (n.entries + [Entry(vtx, ctx, SupplyAfter(n.index, vtx, ctx))])[..|n.entries|] == n.entries;
  }

  lemma {:induction false} HistoryShrinks(s: Setting, entries: seq<Entry>)
    requires IsHistory(s, entries) && entries != []
    ensures IsHistory(s, entries[..|entries| - 1])
  {
  }

  lemma {:induction false} RetractUndoes(s: Setting, entries: seq<Entry>)
    requires SettingOk(s) && IsHistory(s, entries) && entries != []
    ensures DisconnectedAll(IndexOf(s, entries), entries[|entries| - 1].vtx) ==
            Some(IndexOf(s, entries[..|entries| - 1]))
  {
    var last := |entries| - 1;
    var before := IndexOf(s, entries[..last]);
    hide Canonical, ConnectedAll, DisconnectedAll, AllSpendable, AllConnect, NewToIndex, UniqueHashes, Supply, TotalsOf,
         RewardAllowed, Grounded, NamesHeight, TransactionsOk;
    HistoryKeeps(s, entries[..last]);
    ConnectingBlockSpends(before, entries[last].vtx, entries[last].ctx);
    ExtendKeeps(s, before, entries[..last], entries[last].vtx, entries[last].ctx);
    NewBlockRoundTrip(before, entries[last].vtx, entries[last].ctx.posOf);
  }

  ghost function RunOf(n: Node, changes: seq<Change>): Option<Node> {
    if changes == [] then Some(n)
    else
      match RunOf(n, changes[..|changes| - 1])
      case Some(now) => Changed(now, changes[|changes| - 1])
      case None => None
  }

  ghost predicate CanRun(s: Setting, n: Node, changes: seq<Change>) {
    changes == [] ||
    (CanRun(s, n, changes[..|changes| - 1]) &&
     (RunOf(n, changes[..|changes| - 1]).Some? ==>
      CanChange(s, RunOf(n, changes[..|changes| - 1]).value, changes[|changes| - 1])))
  }

  lemma {:induction false} RunKeepsRegular(s: Setting, changes: seq<Change>)
    requires SettingOk(s) && CanRun(s, Node(s.start, []), changes)
    ensures RunOf(Node(s.start, []), changes).Some? && Regular(s, RunOf(Node(s.start, []), changes).value)
  {
    if changes != [] {
      var last := |changes| - 1;
      RunKeepsRegular(s, changes[..last]);
      hide SettingOk, Regular, CanChange, Changed;
      ChangeKeepsRegular(s, RunOf(Node(s.start, []), changes[..last]).value, changes[last]);
    }
  }

  /** After any run of blocks connected and disconnected, the money supply recorded in the index entry of the tip is
      the value of the unspent outputs. */
  lemma {:induction false} TipRecordsUnspentValue(s: Setting, changes: seq<Change>)
    requires SettingOk(s) && CanRun(s, Node(s.start, []), changes)
    ensures RunOf(Node(s.start, []), changes).Some?
    ensures var n := RunOf(Node(s.start, []), changes).value;
            Sized(n.index, s.body) && TipSupply(s, n.entries) == Supply(n.index, s.body, s.bound)
  {
    RunKeepsRegular(s, changes);
    HistoryKeeps(s, RunOf(Node(s.start, []), changes).value.entries);
  }
}
