/**
 * CMasternodeMan: the masternode list, the chain-derived last-paid cache, the selector and the
 * snapshot the queue simulation starts from.
 */
module MasternodeManager {
  import opened Basics
  import opened VotingConstants
  import opened Rotation
  import opened QueueSimulation

  // ----- Blocks and what they pay

  /** An output of the transaction a block pays with. `destination` is the canonical script of the destination
      ExtractDestination finds in scriptPubKey, if it finds one. */
  datatype PaymentOut = PaymentOut(nValue: int, scriptPubKey: Script, destination: Option<Script>)

  datatype PaymentTx = PaymentTx(vout: seq<PaymentOut>)

  /** `coinStake` says whether the second transaction is a coinstake. */
  datatype Block = Block(coinStake: bool, vtx: seq<PaymentTx>)

  predicate IsProofOfStake(b: Block) {
    |b.vtx| > 1 && b.coinStake
  }

  /** The outputs of the payment-bearing transaction: coinstake or coinbase. */
  function PaymentOutputs(b: Block): seq<PaymentOut> {
    if IsProofOfStake(b) && |b.vtx| >= 2 then b.vtx[1].vout
    else if |b.vtx| >= 1 then b.vtx[0].vout
    else []
  }

  predicate OutputPays(out: PaymentOut, script: Script) {
    out.nValue != 0 && out.destination == Some(script)
  }

  predicate Pays(b: Block, script: Script) {
    exists o :: o in PaymentOutputs(b) && OutputPays(o, script)
  }

  /** The script in the masternode payment slot, as the historical attestation reads it. */
  function SlotPayee(b: Block): Option<Script> {
    var outs := PaymentOutputs(b);
    var slot :=
      if IsProofOfStake(b) then if |outs| == 4 then 2 else if |outs| == 5 then 3 else -1
      else if |outs| >= 2 then 1 else -1;
    if 0 < slot < |outs| && outs[slot].scriptPubKey != [] then Some(outs[slot].scriptPubKey) else None
  }

  datatype Query = PaysTo(script: Script) | SlotIs(script: Script)

  predicate Matches(b: Block, q: Query) {
    match q
    case PaysTo(s) => Pays(b, s)
    case SlotIs(s) => SlotPayee(b) == Some(s)
  }

  // ----- The most recent match in a chain

  ghost predicate IsLatest(chain: seq<Block>, q: Query, h: int) {
    0 <= h < |chain| && Matches(chain[h], q) && forall g :: h < g < |chain| ==> !Matches(chain[g], q)
  }

  /** What a walk over the last `depth` blocks finds, newest first. */
  function Recent(chain: seq<Block>, q: Query, depth: nat): Option<int> {
    if depth == 0 || chain == [] then None
    else if Matches(chain[|chain| - 1], q) then Some(|chain| - 1)
    else Recent(chain[..|chain| - 1], q, depth - 1)
  }

  lemma {:induction false} RecentIsLatest(chain: seq<Block>, q: Query, depth: nat)
    ensures Recent(chain, q, depth).Some? ==> IsLatest(chain, q, Recent(chain, q, depth).value)
    ensures Recent(chain, q, depth).None? <==>
            forall h :: 0 <= h < |chain| && h >= |chain| - depth ==> !Matches(chain[h], q)
    decreases depth
  {
    hide Matches;
    if depth > 0 && chain != [] {
      RecentIsLatest(chain[..|chain| - 1], q, depth - 1);
      forall h | 0 <= h < |chain| - 1 ensures chain[..|chain| - 1][h] == chain[h] {
      }
    }
  }

  lemma {:induction false} LatestIsRecent(chain: seq<Block>, q: Query, depth: nat, h: int)
    requires IsLatest(chain, q, h) && h >= |chain| - depth
    ensures Recent(chain, q, depth) == Some(h)
  {
    RecentIsLatest(chain, q, depth);
    if Recent(chain, q, depth).Some? {
      var g := Recent(chain, q, depth).value;
      assert !(g < h) && !(h < g);
    }
  }

  lemma {:induction false} RecentGrows(chain: seq<Block>, q: Query, k: nat)
    requires k < |chain|
    ensures Recent(chain, q, k + 1)
         == if Recent(chain, q, k).Some? then Recent(chain, q, k)
            else if Matches(chain[|chain| - 1 - k], q) then Some(|chain| - 1 - k) else None
    decreases k
  {
    if k > 0 {
      RecentGrows(chain[..|chain| - 1], q, k - 1);
    }
  }

  // ----- The masternode list

  /** The fields of CMasternode the selector reads. `confirmedHeight` is what GetCollateralConfirmedHeight
      resolves on the chain, `enabled` what IsEnabled answers. */
  datatype Masternode = Masternode(
    vin: TxIn, payeeScript: Script, confirmedHeight: int, enabled: bool, inputAge: int, protocolVersion: int)

  function AsMember(mn: Masternode): Member {
    Member(mn.vin.prevout, mn.payeeScript, mn.confirmedHeight)
  }

  predicate DistinctList(list: seq<Masternode>) {
    forall i, j :: 0 <= i < j < |list| ==> list[i].vin.prevout != list[j].vin.prevout
  }

  /** FindByPayeeAddress: the first listed masternode paid at a script. */
  function FindPayee(list: seq<Masternode>, script: Script): (r: Option<Masternode>)
    ensures r.Some? ==> r.value in list && r.value.payeeScript == script
    ensures r.None? ==> forall m :: m in list ==> m.payeeScript != script
  {
    if list == [] then None
    else if list[0].payeeScript == script then Some(list[0])
    else FindPayee(list[1..], script)
  }

  /** The first output that pays a listed masternode decides. */
  function FirstPaid(list: seq<Masternode>, outs: seq<PaymentOut>): Option<Masternode> {
    if outs == [] then None
    else if outs[0].nValue != 0 && outs[0].destination.Some? && FindPayee(list, outs[0].destination.value).Some? then
      FindPayee(list, outs[0].destination.value)
    else FirstPaid(list, outs[1..])
  }

  // ----- The cache steps

  function AfterConnected(paid: map<OutPoint, int>, list: seq<Masternode>, b: Block, height: int): map<OutPoint, int> {
    var mn := FirstPaid(list, PaymentOutputs(b));
    if mn.Some? then paid[mn.value.vin.prevout := height] else paid
  }

  function Recomputed(paid: map<OutPoint, int>, best: seq<Block>, mn: Masternode): map<OutPoint, int> {
    if best == [] then paid
    else
      var found := Recent(best, PaysTo(mn.payeeScript), MAX_LASTPAID_SCAN_DEPTH);
      if found.Some? then paid[mn.vin.prevout := found.value] else paid - {mn.vin.prevout}
  }

  /** `best` is the chain that ends at pindexBest when the hook runs. */
  function AfterDisconnected(paid: map<OutPoint, int>, list: seq<Masternode>, b: Block, height: int,
                             best: seq<Block>): map<OutPoint, int> {
    var mn := FirstPaid(list, PaymentOutputs(b));
    if mn.Some? && mn.value.vin.prevout in paid && paid[mn.value.vin.prevout] == height
    then Recomputed(paid, best, mn.value)
    else paid
  }

  /** Output i is the first one of value that goes to a listed masternode, which is list[k] and the first one listed
      with its script. */
  ghost predicate FirstPayment(outs: seq<PaymentOut>, list: seq<Masternode>, i: int, k: int) {
    && 0 <= i < |outs| && 0 <= k < |list| && outs[i].nValue != 0 && outs[i].destination == Some(list[k].payeeScript)
    && (forall n :: 0 <= n < k ==> list[n].payeeScript != list[k].payeeScript)
    && forall j, n :: 0 <= j < i && 0 <= n < |list| ==>
         outs[j].nValue == 0 || outs[j].destination != Some(list[n].payeeScript)
  }

  lemma {:induction false} FoundByPayee(list: seq<Masternode>, script: Script, k: nat)
    requires k < |list| && list[k].payeeScript == script && forall n :: 0 <= n < k ==> list[n].payeeScript != script
    ensures FindPayee(list, script) == Some(list[k])
  {
    if k > 0 {
      FoundByPayee(list[1..], script, k - 1);
    }
  }

  lemma {:induction false} FirstPaymentIsFound(outs: seq<PaymentOut>, list: seq<Masternode>, i: int, k: int)
    requires FirstPayment(outs, list, i, k)
    ensures FirstPaid(list, outs) == Some(list[k])
    decreases i
  {
    if i == 0 {
      FoundByPayee(list, list[k].payeeScript, k);
    } else {
      if outs[0].nValue != 0 && outs[0].destination.Some? {
        assert forall m :: m in list ==> m.payeeScript != outs[0].destination.value;
      }
      FirstPaymentIsFound(outs[1..], list, i - 1, k);
    }
  }

  /** What connecting a block records, when the outputs of its payment are these. */
  ghost predicate Records(paid: map<OutPoint, int>, list: seq<Masternode>, outs: seq<PaymentOut>, height: int,
                          after: map<OutPoint, int>) {
    && (forall i, k :: FirstPayment(outs, list, i, k) ==> after == paid[list[k].vin.prevout := height])
    && ((forall i, k :: 0 <= i < |outs| && 0 <= k < |list| ==>
           outs[i].nValue == 0 || outs[i].destination != Some(list[k].payeeScript)) ==> after == paid)
  }

  lemma {:induction false} FirstPaidRecords(paid: map<OutPoint, int>, list: seq<Masternode>, outs: seq<PaymentOut>,
                                            height: int)
    ensures var mn := FirstPaid(list, outs);
            Records(paid, list, outs, height, if mn.Some? then paid[mn.value.vin.prevout := height] else paid)
  {
    forall i, k | FirstPayment(outs, list, i, k) ensures FirstPaid(list, outs) == Some(list[k]) {
      FirstPaymentIsFound(outs, list, i, k);
    }
    FirstPaidIsPaid(list, outs);
    if FirstPaid(list, outs).Some? {
      var mn := FirstPaid(list, outs).value;
      var k :| 0 <= k < |list| && list[k] == mn;
      var o :| o in outs && OutputPays(o, mn.payeeScript);
      var i :| 0 <= i < |outs| && outs[i] == o;
    }
  }

  /** A staked block counts by its coinstake, whatever its coinbase pays: for what connecting it records, for whom it
      pays, and for the payment slot, which is the third of four outputs or the fourth of five. */
  lemma {:induction false} StakedBlockCountsByCoinStake(b: Block)
    requires b.coinStake && |b.vtx| >= 2
    ensures forall paid, list, height ::
              Records(paid, list, b.vtx[1].vout, height, AfterConnected(paid, list, b, height))
    ensures forall script :: Pays(b, script) <==> SomeOutputPays(b.vtx[1].vout, script)
    ensures var outs := b.vtx[1].vout;
            forall script :: SlotPayee(b) == Some(script) <==>
              script != [] && ((|outs| == 4 && outs[2].scriptPubKey == script) ||
                               (|outs| == 5 && outs[3].scriptPubKey == script))
  {
    forall paid, list, height
      ensures Records(paid, list, b.vtx[1].vout, height, AfterConnected(paid, list, b, height)) {
      FirstPaidRecords(paid, list, b.vtx[1].vout, height);
    }
    forall script ensures Pays(b, script) <==> SomeOutputPays(b.vtx[1].vout, script) {
      PayingOutput(b.vtx[1].vout, script);
    }
  }

  /** Any other block counts by its coinbase; its payment slot is the second output. */
  lemma {:induction false} OtherBlockCountsByCoinBase(b: Block)
    requires |b.vtx| == 1 || (|b.vtx| > 1 && !b.coinStake)
    ensures forall paid, list, height ::
              Records(paid, list, b.vtx[0].vout, height, AfterConnected(paid, list, b, height))
    ensures forall script :: Pays(b, script) <==> SomeOutputPays(b.vtx[0].vout, script)
    ensures forall script :: SlotPayee(b) == Some(script) <==>
              script != [] && |b.vtx[0].vout| >= 2 && b.vtx[0].vout[1].scriptPubKey == script
  {
    forall paid, list, height
      ensures Records(paid, list, b.vtx[0].vout, height, AfterConnected(paid, list, b, height)) {
      FirstPaidRecords(paid, list, b.vtx[0].vout, height);
    }
    forall script ensures Pays(b, script) <==> SomeOutputPays(b.vtx[0].vout, script) {
      PayingOutput(b.vtx[0].vout, script);
    }
  }

  ghost predicate SomeOutputPays(outs: seq<PaymentOut>, script: Script) {
    exists i :: 0 <= i < |outs| && outs[i].nValue != 0 && outs[i].destination == Some(script)
  }

  lemma {:induction false} PayingOutput(outs: seq<PaymentOut>, script: Script)
    ensures (exists o :: o in outs && OutputPays(o, script)) <==> SomeOutputPays(outs, script)
  {
    if o :| o in outs && OutputPays(o, script) {
      var i :| 0 <= i < |outs| && outs[i] == o;
    }
    if i :| 0 <= i < |outs| && outs[i].nValue != 0 && outs[i].destination == Some(script) {
      assert outs[i] in outs && OutputPays(outs[i], script);
    }
  }

  function WithoutFirst(list: seq<Masternode>, vin: TxIn): seq<Masternode> {
    if list == [] then [] else if list[0].vin == vin then list[1..] else [list[0]] + WithoutFirst(list[1..], vin)
  }

  predicate Listed(list: seq<Masternode>, prevout: OutPoint) {
    exists m :: m in list && m.vin.prevout == prevout
  }

  // ----- The cache agrees with the chain over every run

  /** The chain, the list and the cache of one node; `deepest` is the greatest chain length so far. */
  datatype World = World(chain: seq<Block>, list: seq<Masternode>, paid: map<OutPoint, int>, deepest: nat)

  datatype Event = Connect(block: Block) | Disconnect | Add(mn: Masternode) | Remove(vin: TxIn)

  function Max(a: nat, b: nat): nat {
    if a < b then b else a
  }

  /** A disconnection has already moved the tip when the cache is told of it. */
  function Step(w: World, e: Event): World {
    match e
    case Connect(b) =>
      World(w.chain + [b], w.list, AfterConnected(w.paid, w.list, b, |w.chain|), Max(w.deepest, |w.chain| + 1))
    case Disconnect =>
      if w.chain == [] then w
      else
        var h := |w.chain| - 1;
        w.(chain := w.chain[..h], paid := AfterDisconnected(w.paid, w.list, w.chain[h], h, w.chain[..h]))
    case Add(mn) =>
      if !mn.enabled || Listed(w.list, mn.vin.prevout) then w
      else w.(list := w.list + [mn], paid := Recomputed(w.paid, w.chain, mn))
    case Remove(vin) => w.(list := WithoutFirst(w.list, vin))
  }

  function Run(w: World, events: seq<Event>): World {
    if events == [] then w else Step(Run(w, events[..|events| - 1]), events[|events| - 1])
  }

  /** The masternodes a run may involve: one payee script per outpoint, no script shared. */
  predicate Injective(registry: map<OutPoint, Script>) {
    forall v, u :: v in registry && u in registry && registry[v] == registry[u] ==> v == u
  }

  ghost predicate OnePayment(b: Block, registry: map<OutPoint, Script>) {
    forall v, u :: v in registry && u in registry && Pays(b, registry[v]) && Pays(b, registry[u]) ==> v == u
  }

  ghost predicate Registered(list: seq<Masternode>, registry: map<OutPoint, Script>) {
    forall m :: m in list ==> m.vin.prevout in registry && registry[m.vin.prevout] == m.payeeScript
  }

  ghost predicate AdmissibleEvent(e: Event, registry: map<OutPoint, Script>) {
    match e
    case Connect(b) => OnePayment(b, registry)
    case Add(mn) => Registered([mn], registry)
    case _ => true
  }

  ghost predicate Consistent(w: World, registry: map<OutPoint, Script>) {
    && Injective(registry) && Registered(w.list, registry) && DistinctList(w.list)
    && |w.chain| <= w.deepest && forall b :: b in w.chain ==> OnePayment(b, registry)
  }

  /** An entry is exactly the latest paying height; no entry means no payment above the scan's reach. */
  ghost predicate EntryExact(w: World, mn: Masternode) {
    var q := PaysTo(mn.payeeScript);
    if mn.vin.prevout in w.paid then IsLatest(w.chain, q, w.paid[mn.vin.prevout])
    else forall h :: 0 <= h < |w.chain| && h >= w.deepest - MAX_LASTPAID_SCAN_DEPTH ==> !Matches(w.chain[h], q)
  }

  ghost predicate CacheExact(w: World) {
    forall mn :: mn in w.list ==> EntryExact(w, mn)
  }

  lemma {:induction false} FirstPaidIsPaid(list: seq<Masternode>, outs: seq<PaymentOut>)
    ensures var r := FirstPaid(list, outs);
            && (r.Some? ==> r.value in list && exists o :: o in outs && OutputPays(o, r.value.payeeScript))
            && (r.None? ==> forall m, o :: m in list && o in outs ==> !OutputPays(o, m.payeeScript))
  {
    if outs != [] {
      FirstPaidIsPaid(list, outs[1..]);
      assert outs == [outs[0]] + outs[1..];
      if FirstPaid(list, outs).Some? {
        var s := FirstPaid(list, outs).value.payeeScript;
        assert OutputPays(outs[0], s) || exists o :: o in outs[1..] && OutputPays(o, s);
      }
    }
  }

  /** Under the assumptions, the first paid masternode is the only listed one the block pays. */
  lemma {:induction false} FirstPaidIsOnlyPaid(list: seq<Masternode>, b: Block, registry: map<OutPoint, Script>,
                                               mn: Masternode)
    requires Injective(registry) && Registered(list, registry) && DistinctList(list) && OnePayment(b, registry) &&
             mn in list
    ensures Pays(b, mn.payeeScript) <==> FirstPaid(list, PaymentOutputs(b)) == Some(mn)
  {
    var r := FirstPaid(list, PaymentOutputs(b));
    FirstPaidIsPaid(list, PaymentOutputs(b));
    if Pays(b, mn.payeeScript) {
      var o :| o in PaymentOutputs(b) && OutputPays(o, mn.payeeScript);
      assert r.Some? && Pays(b, r.value.payeeScript);
      SameOutPointSameMasternode(list, r.value, mn);
    }
  }

  lemma {:induction false} SameOutPointSameMasternode(list: seq<Masternode>, a: Masternode, b: Masternode)
    requires DistinctList(list) && a in list && b in list && a.vin.prevout == b.vin.prevout
    ensures a == b
  {
  }

  lemma {:induction false} ConnectKeepsExact(w: World, b: Block, registry: map<OutPoint, Script>)
    requires Consistent(w, registry) && CacheExact(w) && OnePayment(b, registry)
    ensures Consistent(Step(w, Connect(b)), registry) && CacheExact(Step(w, Connect(b)))
  {
    var w' := Step(w, Connect(b));
    forall mn | mn in w'.list ensures EntryExact(w', mn) {
      FirstPaidIsOnlyPaid(w.list, b, registry, mn);
      FirstPaidIsPaid(w.list, PaymentOutputs(b));
      assert EntryExact(w, mn);
      var r := FirstPaid(w.list, PaymentOutputs(b));
      if r.Some? && r.value.vin.prevout == mn.vin.prevout {
        SameOutPointSameMasternode(w.list, r.value, mn);
      }
      forall h | 0 <= h < |w.chain| ensures w'.chain[h] == w.chain[h] {
      }
    }
  }

  lemma {:induction false} RecomputedIsExact(paid: map<OutPoint, int>, chain: seq<Block>, list: seq<Masternode>,
                                             deepest: nat, mn: Masternode)
    requires |chain| <= deepest && chain != []
    ensures EntryExact(World(chain, list, Recomputed(paid, chain, mn), deepest), mn)
  {
    RecentIsLatest(chain, PaysTo(mn.payeeScript), MAX_LASTPAID_SCAN_DEPTH);
  }

  lemma {:induction false} DisconnectKeepsExact(w: World, registry: map<OutPoint, Script>)
    requires Consistent(w, registry) && CacheExact(w) && w.chain != []
    requires |w.chain| > 1 || forall mn :: mn in w.list ==> !Pays(w.chain[0], mn.payeeScript)
    ensures Consistent(Step(w, Disconnect), registry) && CacheExact(Step(w, Disconnect))
  {
    hide Pays, FirstPaid, Recent;
    var w' := Step(w, Disconnect);
    var n := |w.chain| - 1;
    var b := w.chain[n];
    assert b in w.chain;
    var r := FirstPaid(w.list, PaymentOutputs(b));
    forall mn | mn in w'.list ensures EntryExact(w', mn) {
      FirstPaidIsOnlyPaid(w.list, b, registry, mn);
      assert EntryExact(w, mn);
      forall h | 0 <= h < n ensures w'.chain[h] == w.chain[h] {
      }
      if r == Some(mn) && mn.vin.prevout in w.paid {
        assert Matches(w.chain[n], PaysTo(mn.payeeScript));
        RecomputedIsExact(w.paid, w'.chain, w.list, w.deepest, mn);
      } else {
        FirstPaidIsPaid(w.list, PaymentOutputs(b));
        if r.Some? && r.value.vin.prevout == mn.vin.prevout {
          SameOutPointSameMasternode(w.list, r.value, mn);
        }
      }
    }
  }

  lemma {:induction false} AddKeepsExact(w: World, mn: Masternode, registry: map<OutPoint, Script>)
    requires Consistent(w, registry) && CacheExact(w) && Registered([mn], registry) && w.chain != []
    ensures Consistent(Step(w, Add(mn)), registry) && CacheExact(Step(w, Add(mn)))
  {
    var w' := Step(w, Add(mn));
    assert mn in [mn];
    if mn.enabled && !Listed(w.list, mn.vin.prevout) {
      RecomputedIsExact(w.paid, w.chain, w'.list, w.deepest, mn);
      forall m | m in w'.list ensures EntryExact(w', m) {
        if m in w.list {
          assert EntryExact(w, m);
        }
      }
    }
  }

  lemma {:induction false} WithoutFirstKeeps(list: seq<Masternode>, vin: TxIn)
    requires DistinctList(list)
    ensures DistinctList(WithoutFirst(list, vin)) && forall m :: m in WithoutFirst(list, vin) ==> m in list
  {
    if list != [] && list[0].vin != vin {
      WithoutFirstKeeps(list[1..], vin);
      var rest := WithoutFirst(list[1..], vin);
      forall j | 0 <= j < |rest| ensures rest[j].vin.prevout != list[0].vin.prevout {
        assert rest[j] in list[1..];
      }
    }
  }

  /** A run that never disconnects the genesis block. */
  ghost predicate KeepsGenesis(w: World, events: seq<Event>) {
    events != [] ==>
      && KeepsGenesis(w, events[..|events| - 1])
      && (events[|events| - 1].Disconnect? ==> |Run(w, events[..|events| - 1]).chain| > 1)
  }

  /** Over any run the cache entry of every listed masternode is exactly its latest paying height. */
  lemma {:induction false} RunKeepsExact(w: World, events: seq<Event>, registry: map<OutPoint, Script>)
    requires Consistent(w, registry) && CacheExact(w) && w.chain != []
    requires (forall e :: e in events ==> AdmissibleEvent(e, registry)) && KeepsGenesis(w, events)
    ensures Run(w, events).chain != []
    ensures Consistent(Run(w, events), registry) && CacheExact(Run(w, events))
  {
    if events != [] {
      var n := |events| - 1;
      RunKeepsExact(w, events[..n], registry);
      var before := Run(w, events[..n]);
      assert AdmissibleEvent(events[n], registry);
      match events[n]
      case Connect(b) => ConnectKeepsExact(before, b, registry);
      case Disconnect => DisconnectKeepsExact(before, registry);
      case Add(mn) => AddKeepsExact(before, mn, registry);
      case Remove(vin) =>
        WithoutFirstKeeps(before.list, vin);
        forall mn | mn in Run(w, events).list ensures EntryExact(Run(w, events), mn) {
          assert EntryExact(before, mn);
        }
    }
  }

  /** While no chain longer than the scan depth has been seen, no entry means never paid. */
  lemma {:induction false} ShortChainAbsentIffNeverPaid(w: World, mn: Masternode)
    requires CacheExact(w) && mn in w.list && w.deepest <= MAX_LASTPAID_SCAN_DEPTH
    ensures mn.vin.prevout !in w.paid <==> forall b :: b in w.chain ==> !Pays(b, mn.payeeScript)
  {
  }

  // ----- The hook as the reorganization calls it

  /** Reorganize calls the hook before pindexBest moves. The walk then starts at the old tip and finds
      the very payment that is being undone, so the cache does not change. */
  lemma {:induction false} DisconnectAtOldTipChangesNothing(w: World, registry: map<OutPoint, Script>, h: nat)
    requires Consistent(w, registry) && CacheExact(w)
    requires h < |w.chain| && h >= |w.chain| - MAX_LASTPAID_SCAN_DEPTH
    ensures AfterDisconnected(w.paid, w.list, w.chain[h], h, w.chain) == w.paid
  {
    var r := FirstPaid(w.list, PaymentOutputs(w.chain[h]));
    FirstPaidIsPaid(w.list, PaymentOutputs(w.chain[h]));
    if r.Some? && r.value.vin.prevout in w.paid && w.paid[r.value.vin.prevout] == h {
      assert EntryExact(w, r.value);
      LatestIsRecent(w.chain, PaysTo(r.value.payeeScript), MAX_LASTPAID_SCAN_DEPTH, h);
    }
  }

  /** So after disconnecting the tip block that way, the entry of a listed masternode is still exact
      if and only if that block did not pay it. */
  lemma {:induction false} OldTipEntryExactIff(w: World, registry: map<OutPoint, Script>, mn: Masternode)
    requires Consistent(w, registry) && CacheExact(w) && mn in w.list && w.chain != []
    requires w.deepest - MAX_LASTPAID_SCAN_DEPTH < |w.chain|
    ensures var n := |w.chain| - 1;
            var paid' := AfterDisconnected(w.paid, w.list, w.chain[n], n, w.chain);
            EntryExact(World(w.chain[..n], w.list, paid', w.deepest), mn) <==> !Pays(w.chain[n], mn.payeeScript)
  {
    var n := |w.chain| - 1;
    DisconnectAtOldTipChangesNothing(w, registry, n);
    assert EntryExact(w, mn);
    var q := PaysTo(mn.payeeScript);
    assert Matches(w.chain[n], q) == Pays(w.chain[n], mn.payeeScript);
    forall h | 0 <= h < n ensures w.chain[..n][h] == w.chain[h] {
    }
    if !Pays(w.chain[n], mn.payeeScript) && mn.vin.prevout in w.paid {
      assert w.paid[mn.vin.prevout] != n;
    }
  }

  // ----- The selector

  ghost predicate Passes(mn: Masternode, exclude: seq<TxIn>, minimumAge: int, height: int, chainDerived: bool) {
    && (if chainDerived then VotingEligible(mn.confirmedHeight, height) else mn.enabled)
    && mn.inputAge >= minimumAge
    && forall vin :: vin in exclude ==> vin.prevout != mn.vin.prevout
  }

  ghost function Pool(list: seq<Masternode>, exclude: seq<TxIn>, minimumAge: int, height: int,
                      chainDerived: bool): set<Member> {
    set m | m in list && Passes(m, exclude, minimumAge, height, chainDerived) :: AsMember(m)
  }

  ghost function Members(list: seq<Masternode>): set<Member> {
    set m | m in list :: AsMember(m)
  }

  lemma {:induction false} MembersAreDistinct(list: seq<Masternode>)
    requires DistinctList(list)
    ensures DistinctMembers(Members(list))
  {
  }

  /** The selector finds somebody exactly when a listed masternode passes its tests. */
  lemma {:induction false} SelectorFindsIff(list: seq<Masternode>, exclude: seq<TxIn>, minimumAge: int, height: int,
                                            chainDerived: bool, paid: map<OutPoint, int>)
    requires DistinctList(list)
    ensures Oldest(Pool(list, exclude, minimumAge, height, chainDerived), paid).Some? <==>
            exists m :: m in list && Passes(m, exclude, minimumAge, height, chainDerived)
  {
    var pool := Pool(list, exclude, minimumAge, height, chainDerived);
    MembersAreDistinct(list);
    assert pool <= Members(list);
    OldestExists(pool, paid);
    if m :| m in list && Passes(m, exclude, minimumAge, height, chainDerived) {
      assert AsMember(m) in pool;
    }
  }

  /** Whom the selector finds, in terms of heights, age and exclusions alone. */
  lemma {:induction false} IsSelectedIff(list: seq<Masternode>, exclude: seq<TxIn>, minimumAge: int, height: int,
                                         chainDerived: bool, paid: map<OutPoint, int>, mn: Masternode)
    requires DistinctList(list) && mn in list
    ensures Oldest(Pool(list, exclude, minimumAge, height, chainDerived), paid) == Some(AsMember(mn)) <==>
            && Presentable(mn, exclude, minimumAge, height, chainDerived)
            && forall o :: o in list && o != mn && Presentable(o, exclude, minimumAge, height, chainDerived) ==>
                 var turn, other := LastTurn(mn, paid), LastTurn(o, paid);
                 turn < other || (turn == other && mn.vin.prevout.Less(o.vin.prevout))
  {
    var pool := Pool(list, exclude, minimumAge, height, chainDerived);
    if IsOldest(pool, paid, AsMember(mn)) {
      OldestIsUnique(pool, paid, AsMember(mn));
    }
    forall o | o in list
      ensures AsMember(o) in pool <==> Presentable(o, exclude, minimumAge, height, chainDerived)
      ensures AsMember(o) == AsMember(mn) <==> o == mn
    {
      if AsMember(o) in pool {
        var x :| x in list && Passes(x, exclude, minimumAge, height, chainDerived) && AsMember(x) == AsMember(o);
        SameOutPointSameMasternode(list, x, o);
      }
      if AsMember(o) == AsMember(mn) {
        SameOutPointSameMasternode(list, o, mn);
      }
    }
    assert forall o :: o in list ==> Rank(paid, AsMember(o).vin, AsMember(o).confirmedHeight) == LastTurn(o, paid);
  }

  /** The masternode is old enough for the selector, and not excluded. */
  ghost predicate Presentable(mn: Masternode, exclude: seq<TxIn>, minimumAge: int, height: int, chainDerived: bool) {
    && mn.inputAge >= minimumAge && (forall i :: 0 <= i < |exclude| ==> exclude[i].prevout != mn.vin.prevout)
    && (!chainDerived ==> mn.enabled)
    && (chainDerived ==>
          height > 0 && mn.confirmedHeight >= 0 && height >= mn.confirmedHeight + VOTER_ELIGIBILITY_DEPTH)
  }

  /** The height a masternode was last paid at; failing that, the one its collateral was confirmed at, if any. */
  ghost function LastTurn(mn: Masternode, paid: map<OutPoint, int>): int {
    match Lookup(paid, mn.vin.prevout)
    case Some(height) => height
    case None => if mn.confirmedHeight < 0 then 0 else mn.confirmedHeight
  }

  ghost predicate SameRanks(roster: set<Member>, p: map<OutPoint, int>, q: map<OutPoint, int>) {
    forall m :: m in roster ==> Rank(p, m.vin, m.confirmedHeight) == Rank(q, m.vin, m.confirmedHeight)
  }

  lemma {:induction false} SameRanksSameOldest(pool: set<Member>, p: map<OutPoint, int>, q: map<OutPoint, int>)
    requires SameRanks(pool, p, q)
    ensures Oldest(pool, p) == Oldest(pool, q)
  {
    forall m ensures IsOldest(pool, p, m) <==> IsOldest(pool, q, m) {
      if m in pool {
        forall o | o in pool ensures Older(p, m, o) <==> Older(q, m, o) {
        }
      }
    }
    if Oldest(pool, p).Some? {
      OldestIsUnique(pool, q, Oldest(pool, p).value);
    }
  }

  lemma {:induction false} SameRanksSamePicks(roster: set<Member>, p: map<OutPoint, int>, q: map<OutPoint, int>,
                                              target: int, k: nat)
    requires SameRanks(roster, p, q)
    ensures Picks(roster, p, target, k) == Picks(roster, q, target, k)
    decreases k
  {
    if k > 0 {
      SameRanksSameOldest(EligibleAt(roster, target), p, q);
      var pick := NextPick(roster, p, target);
      SameRanksSamePicks(roster, Pay(p, pick, target), Pay(q, pick, target), target + 1, k - 1);
    }
  }

  /** Each queue position is what the selector would return at that position's reference height, with no
      exclusions and no age filter, once the earlier simulated payments are in the cache. */
  lemma {:induction false} SimulationRefinesSelector(list: seq<Masternode>, paid: map<OutPoint, int>, queueHeight: int,
                                                     p: nat, minimumAge: int)
    requires p < VOTE_QUEUE_LENGTH
    requires forall m :: m in list ==> m.inputAge >= minimumAge
    ensures var target := queueHeight + 1 + p;
            var cache := PaidAfter(Members(list), paid, queueHeight + 1, p);
            QueueAt(Members(list), paid, queueHeight)[p]
              == PayeeOf(Oldest(Pool(list, [], minimumAge, ReferenceHeight(target), true), cache))
  {
    QueueEntry(Members(list), paid, queueHeight, p);
    var target := queueHeight + 1 + p;
    var pool := Pool(list, [], minimumAge, ReferenceHeight(target), true);
    forall m ensures m in pool <==> m in EligibleAt(Members(list), target) {
      if m in EligibleAt(Members(list), target) {
        var x :| x in list && AsMember(x) == m;
        assert Passes(x, [], minimumAge, ReferenceHeight(target), true);
      }
    }
    assert pool == EligibleAt(Members(list), target);
  }

  // ----- The code

  class MasternodeMan {
    var vMasternodes: seq<Masternode>
    var mapLastPaidHeight: map<OutPoint, int>
    var mapHistoricalPayees: map<Script, int>

    constructor ()
      ensures vMasternodes == [] && mapLastPaidHeight == map[] && mapHistoricalPayees == map[]
    {
      vMasternodes, mapLastPaidHeight, mapHistoricalPayees := [], map[], map[];
    }

    method FindByPayeeAddress(script: Script) returns (r: Option<Masternode>)
      ensures r == FindPayee(vMasternodes, script)
    {
      var i := 0;
      while i < |vMasternodes|
        invariant 0 <= i <= |vMasternodes|
        invariant FindPayee(vMasternodes, script) == FindPayee(vMasternodes[i..], script)
      {
        if vMasternodes[i].payeeScript == script { return Some(vMasternodes[i]); }
        i := i + 1;
      }
      return None;
    }

    /** The scan both block hooks share. */
    method FindPaid(outs: seq<PaymentOut>) returns (r: Option<Masternode>)
      ensures r == FirstPaid(vMasternodes, outs)
    {
      var i := 0;
      while i < |outs|
        invariant 0 <= i <= |outs|
        invariant FirstPaid(vMasternodes, outs) == FirstPaid(vMasternodes, outs[i..])
      {
        if outs[i].nValue != 0 && outs[i].destination.Some? {
          var mn := FindByPayeeAddress(outs[i].destination.value);
          if mn.Some? { return mn; }
        }
        i := i + 1;
      }
      return None;
    }

    method OnBlockConnected(block: Block, nBlockHeight: int)
      modifies `mapLastPaidHeight
      ensures mapLastPaidHeight == AfterConnected(old(mapLastPaidHeight), vMasternodes, block, nBlockHeight)
      ensures block.coinStake && |block.vtx| >= 2 ==>
        Records(old(mapLastPaidHeight), vMasternodes, block.vtx[1].vout, nBlockHeight, mapLastPaidHeight)
      ensures |block.vtx| == 1 || (|block.vtx| > 1 && !block.coinStake) ==>
        Records(old(mapLastPaidHeight), vMasternodes, block.vtx[0].vout, nBlockHeight, mapLastPaidHeight)
    {
      FirstPaidRecords(mapLastPaidHeight, vMasternodes, PaymentOutputs(block), nBlockHeight);
      var mn := FindPaid(PaymentOutputs(block));
      if mn.Some? {
        mapLastPaidHeight := mapLastPaidHeight[mn.value.vin.prevout := nBlockHeight];
      }
    }

    method OnBlockDisconnected(block: Block, nBlockHeight: int, best: seq<Block>)
      modifies `mapLastPaidHeight
      ensures mapLastPaidHeight == AfterDisconnected(old(mapLastPaidHeight), vMasternodes, block, nBlockHeight, best)
    {
      var mn := FindPaid(PaymentOutputs(block));
      if mn.Some? {
        var v := mn.value.vin.prevout;
        if v in mapLastPaidHeight && mapLastPaidHeight[v] == nBlockHeight {
          RecomputeLastPaidHeight(mn.value, best);
        }
      }
    }

    method RecomputeLastPaidHeight(mn: Masternode, best: seq<Block>)
      modifies `mapLastPaidHeight
      ensures mapLastPaidHeight == Recomputed(old(mapLastPaidHeight), best, mn)
    {
      if best == [] { return; }
      var q := PaysTo(mn.payeeScript);
      var pindex := |best| - 1;
      var nWalked: nat := 0;
      while pindex >= 0 && nWalked < MAX_LASTPAID_SCAN_DEPTH
        invariant pindex == |best| - 1 - nWalked && pindex >= -1 && nWalked <= MAX_LASTPAID_SCAN_DEPTH
        invariant Recent(best, q, nWalked).None?
        invariant mapLastPaidHeight == old(mapLastPaidHeight)
        decreases pindex
      {
        RecentGrows(best, q, nWalked);
        RecentSettled(best, q, nWalked + 1);
        var outs := PaymentOutputs(best[pindex]);
        for i := 0 to |outs|
          invariant forall j :: 0 <= j < i ==> !OutputPays(outs[j], mn.payeeScript)
          invariant mapLastPaidHeight == old(mapLastPaidHeight)
        {
          if outs[i].nValue != 0 && outs[i].destination.Some? && outs[i].destination.value == mn.payeeScript {
            assert outs[i] in PaymentOutputs(best[pindex]);
            mapLastPaidHeight := mapLastPaidHeight[mn.vin.prevout := pindex];
            return;
          }
        }
        assert !Matches(best[pindex], q);
        pindex := pindex - 1;
        nWalked := nWalked + 1;
      }
      RecentExhausted(best, q, nWalked);
      mapLastPaidHeight := mapLastPaidHeight - {mn.vin.prevout};
    }

    /** The enabled masternodes, as a map from outpoint to payee script. */
    method EnabledMasternodes() returns (needed: map<OutPoint, Script>)
      ensures DistinctList(vMasternodes) ==> needed == Wanted(vMasternodes)
    {
      needed := map[];
      for i := 0 to |vMasternodes|
        invariant DistinctList(vMasternodes) ==> needed == Wanted(vMasternodes[..i])
      {
        WantedGrows(vMasternodes, i);
        if vMasternodes[i].enabled {
          needed := needed[vMasternodes[i].vin.prevout := vMasternodes[i].payeeScript];
        }
      }
      assert vMasternodes[..|vMasternodes|] == vMasternodes;
    }

    /** The attestation of one block's payment slot. */
    method AttestSlot(b: Block, height: int)
      modifies `mapHistoricalPayees
      ensures forall s ::
        Lookup(mapHistoricalPayees, s) ==
        Later(Lookup(old(mapHistoricalPayees), s), if SlotPayee(b) == Some(s) then Some(height) else None)
    {
      var payee := SlotPayee(b);
      if payee.Some? {
        if payee.value !in mapHistoricalPayees {
          mapHistoricalPayees := mapHistoricalPayees[payee.value := height];
        } else if height > mapHistoricalPayees[payee.value] {
          mapHistoricalPayees := mapHistoricalPayees[payee.value := height];
        }
      }
    }

    /** One block of the start-up scan. */
    method ScanBlock(best: seq<Block>, nWalked: nat, stillNeeded: map<OutPoint, Script>,
                     ghost wanted: map<OutPoint, Script>, ghost start: map<OutPoint, int>)
        returns (needed: map<OutPoint, Script>)
      requires nWalked < |best|
      modifies `mapLastPaidHeight
      ensures SeparatePayments(best, wanted) &&
              Progress(wanted, stillNeeded, start, old(mapLastPaidHeight), best, nWalked)
        ==> Progress(wanted, needed, start, mapLastPaidHeight, best, nWalked + 1)
    {
      var pindex := |best| - 1 - nWalked;
      var paidNow := FindNeeded(PaymentOutputs(best[pindex]), stillNeeded);
      if SeparatePayments(best, wanted) && Progress(wanted, stillNeeded, start, mapLastPaidHeight, best, nWalked) {
        ProgressGrows(wanted, stillNeeded, start, mapLastPaidHeight, best, nWalked, paidNow);
      }
      needed := stillNeeded;
      if paidNow.Some? {
        mapLastPaidHeight := mapLastPaidHeight[paidNow.value := pindex];
        needed := needed - {paidNow.value};
      }
    }

    /** The start-up scan. It walks the full depth even after every masternode is found. */
    method PopulateLastPaidHeightCache(best: seq<Block>)
      requires DistinctList(vMasternodes)
      modifies `mapLastPaidHeight, `mapHistoricalPayees
      ensures SeparatePayments(best, Wanted(vMasternodes)) ==>
        forall v :: Lookup(mapLastPaidHeight, v) == Populated(old(mapLastPaidHeight), best, Wanted(vMasternodes), v)
      ensures forall s ::
        Lookup(mapHistoricalPayees, s) ==
        Later(Lookup(old(mapHistoricalPayees), s),
              if Wanted(vMasternodes) == map[] then None else Recent(best, SlotIs(s), MAX_LASTPAID_SCAN_DEPTH))
    {
      if best == [] { return; }
      var stillNeeded := EnabledMasternodes();
      if stillNeeded == map[] { return; }
      ghost var wanted := stillNeeded;
      ghost var start, attestedAtStart := mapLastPaidHeight, mapHistoricalPayees;
      var nWalked: nat := 0;
      while nWalked < |best| && nWalked < MAX_LASTPAID_SCAN_DEPTH
        invariant nWalked <= |best| && nWalked <= MAX_LASTPAID_SCAN_DEPTH
        invariant SeparatePayments(best, wanted) ==>
                  Progress(wanted, stillNeeded, start, mapLastPaidHeight, best, nWalked)
        invariant Attested(attestedAtStart, mapHistoricalPayees, best, nWalked)
      {
        ghost var attested := mapHistoricalPayees;
        AttestSlot(best[|best| - 1 - nWalked], |best| - 1 - nWalked);
        AttestationGrows(attestedAtStart, attested, mapHistoricalPayees, best, nWalked);
        stillNeeded := ScanBlock(best, nWalked, stillNeeded, wanted, start);
        nWalked := nWalked + 1;
      }
      ScanIsComplete(best, nWalked);
      ProgressIsPopulated(wanted, stillNeeded, start, mapLastPaidHeight, best, nWalked);
    }

    method Find(prevout: OutPoint) returns (found: bool)
      ensures found == Listed(vMasternodes, prevout)
    {
      for i := 0 to |vMasternodes|
        invariant forall j :: 0 <= j < i ==> vMasternodes[j].vin.prevout != prevout
      {
        if vMasternodes[i].vin.prevout == prevout { return true; }
      }
      return false;
    }

    method Add(mn: Masternode, best: seq<Block>) returns (added: bool)
      modifies `vMasternodes, `mapLastPaidHeight
      ensures added == (mn.enabled && !Listed(old(vMasternodes), mn.vin.prevout))
      ensures vMasternodes == if added then old(vMasternodes) + [mn] else old(vMasternodes)
      ensures mapLastPaidHeight ==
              if added then Recomputed(old(mapLastPaidHeight), best, mn) else old(mapLastPaidHeight)
      ensures old(DistinctList(vMasternodes)) ==> DistinctList(vMasternodes)
    {
      if !mn.enabled { return false; }
      var found := Find(mn.vin.prevout);
      if found { return false; }
      vMasternodes := vMasternodes + [mn];
      RecomputeLastPaidHeight(mn, best);
      return true;
    }

    method Remove(vin: TxIn)
      modifies `vMasternodes
      ensures vMasternodes == WithoutFirst(old(vMasternodes), vin)
    {
      hide WithoutFirst;
      var i := 0;
      while i < |vMasternodes|
        invariant 0 <= i <= |vMasternodes|
        invariant vMasternodes == old(vMasternodes)
        invariant WithoutFirst(vMasternodes, vin) == vMasternodes[..i] + WithoutFirst(vMasternodes[i..], vin)
        decreases |vMasternodes| - i
      {
        WithoutFirstStep(vMasternodes, vin, i);
        if vMasternodes[i].vin == vin {
          vMasternodes := vMasternodes[..i] + vMasternodes[i + 1..];
          return;
        }
        assert vMasternodes[..i + 1] == vMasternodes[..i] + [vMasternodes[i]];
        i := i + 1;
      }
      NothingToRemove(vMasternodes[i..], vin);
    }

    /** A protocol version of -1 stands for the least version that payments require. */
    method CountVotingEligible(nBlockHeight: int, nProtocolVersion: int, nMinPaymentsProto: int) returns (count: nat)
      ensures var protocolVersion := if nProtocolVersion == -1 then nMinPaymentsProto else nProtocolVersion;
              count == |set i | 0 <= i < |vMasternodes|
                                && vMasternodes[i].protocolVersion >= protocolVersion
                                && nBlockHeight > 0 && vMasternodes[i].confirmedHeight >= 0
                                && nBlockHeight >= vMasternodes[i].confirmedHeight + VOTER_ELIGIBILITY_DEPTH|
    {
      var protocolVersion := if nProtocolVersion == -1 then nMinPaymentsProto else nProtocolVersion;
      count := 0;
      ghost var counted: set<int> := {};
      for i := 0 to |vMasternodes|
        invariant counted == set j | 0 <= j < i && vMasternodes[j].protocolVersion >= protocolVersion
                                       && nBlockHeight > 0 && vMasternodes[j].confirmedHeight >= 0
                                       && nBlockHeight >= vMasternodes[j].confirmedHeight + VOTER_ELIGIBILITY_DEPTH
        invariant count == |counted|
      {
        if vMasternodes[i].protocolVersion < protocolVersion { continue; }
        if !VotingEligible(vMasternodes[i].confirmedHeight, nBlockHeight) { continue; }
        count := count + 1;
        counted := counted + {i};
      }
    }

    method GetQueuePaymentSnapshot() returns (result: seq<SnapshotEntry>)
      ensures |result| == |vMasternodes|
      ensures forall i :: 0 <= i < |result| ==> result[i] == EntryOf(vMasternodes[i], mapLastPaidHeight)
    {
      result := [];
      for i := 0 to |vMasternodes|
        invariant |result| == i
        invariant forall j :: 0 <= j < i ==> result[j] == EntryOf(vMasternodes[j], mapLastPaidHeight)
      {
        var mn := vMasternodes[i];
        var paid := mn.vin.prevout in mapLastPaidHeight;
        result := result + [SnapshotEntry(mn.vin.prevout, mn.payeeScript, mn.confirmedHeight, paid,
                                          if paid then mapLastPaidHeight[mn.vin.prevout] else 0)];
      }
    }

    /** The queue a masternode broadcasts at a queue height. */
    method SimulatedQueue(nQueueHeight: int) returns (queue: seq<Script>)
      requires DistinctList(vMasternodes)
      ensures queue == QueueAt(Members(vMasternodes), mapLastPaidHeight, nQueueHeight)
    {
      var snapshot := GetQueuePaymentSnapshot();
      queue := SimulateQueue(nQueueHeight, snapshot);
      SnapshotIsFaithful(vMasternodes, mapLastPaidHeight, snapshot);
      SameRanksSamePicks(Members(vMasternodes), PaidHeights(snapshot), mapLastPaidHeight, nQueueHeight + 1,
                         VOTE_QUEUE_LENGTH);
    }

    method FindOldestNotInVecChainDerived(vVins: seq<TxIn>, nMinimumAge: int, nReferenceHeight: int,
                                          fChainDerivedEligibility: bool)
        returns (r: Option<Masternode>)
      requires DistinctList(vMasternodes)
      ensures r.Some? ==> r.value in vMasternodes
      ensures (if r.Some? then Some(AsMember(r.value)) else None)
           == Oldest(Pool(vMasternodes, vVins, nMinimumAge, nReferenceHeight, fChainDerivedEligibility),
                     mapLastPaidHeight)
    {
      r := None;
      var nOldestPaidHeight := 0;
      ghost var pool := (n: int) requires 0 <= n <= |vMasternodes| reads this =>
        Pool(vMasternodes[..n], vVins, nMinimumAge, nReferenceHeight, fChainDerivedEligibility);
      for i := 0 to |vMasternodes|
        invariant r.Some? ==> r.value in vMasternodes[..i]
        invariant r.Some? ==> nOldestPaidHeight == Rank(mapLastPaidHeight, r.value.vin.prevout, r.value.confirmedHeight)
        invariant r.Some? ==> IsOldest(pool(i), mapLastPaidHeight, AsMember(r.value))
        invariant r.None? ==> pool(i) == {}
      {
        var mn := vMasternodes[i];
        PoolGrows(vMasternodes, i, vVins, nMinimumAge, nReferenceHeight, fChainDerivedEligibility);
        if fChainDerivedEligibility {
          if !VotingEligible(mn.confirmedHeight, nReferenceHeight) { continue; }
        } else {
          if !mn.enabled { continue; }
        }
        if mn.inputAge < nMinimumAge { continue; }
        var found := exists vin :: vin in vVins && vin.prevout == mn.vin.prevout;
        if found { continue; }
        var paidHeight :=
          if mn.vin.prevout in mapLastPaidHeight then mapLastPaidHeight[mn.vin.prevout]
          else if mn.confirmedHeight >= 0 then mn.confirmedHeight else 0;
        OldestGrows(pool(i), mapLastPaidHeight, AsMember(mn), if r.Some? then Some(AsMember(r.value)) else None);
        if r.None? || paidHeight < nOldestPaidHeight
           || (paidHeight == nOldestPaidHeight && mn.vin.prevout.Less(r.value.vin.prevout)) {
          r, nOldestPaidHeight := Some(mn), paidHeight;
        }
      }
      assert vMasternodes[..|vMasternodes|] == vMasternodes;
      if r.Some? {
        OldestIsUnique(pool(|vMasternodes|), mapLastPaidHeight, AsMember(r.value));
      }
    }
  }

  lemma {:induction false} WithoutFirstStep(list: seq<Masternode>, vin: TxIn, i: nat)
    requires i < |list|
    ensures WithoutFirst(list[i..], vin) ==
            if list[i].vin == vin then list[i + 1..] else [list[i]] + WithoutFirst(list[i + 1..], vin)
  {
    assert list[i..][1..] == list[i + 1..];
  }

  lemma {:induction false} NothingToRemove(list: seq<Masternode>, vin: TxIn)
    requires list == []
    ensures WithoutFirst(list, vin) == []
  {
  }

  // ----- The start-up scan

  function Lookup<K, V>(m: map<K, V>, k: K): Option<V> {
    if k in m then Some(m[k]) else None
  }

  function Later(a: Option<int>, b: Option<int>): (r: Option<int>)
    ensures r == a || r == b
    ensures a.Some? ==> r.Some? && r.value >= a.value
    ensures b.Some? ==> r.Some? && r.value >= b.value
  {
    if a.None? then b else if b.Some? && b.value > a.value then b else a
  }

  ghost function Wanted(list: seq<Masternode>): map<OutPoint, Script> {
    if list == [] then map[]
    else
      var mn := list[|list| - 1];
      var before := Wanted(list[..|list| - 1]);
      if mn.enabled then before[mn.vin.prevout := mn.payeeScript] else before
  }

  lemma {:induction false} WantedGrows(list: seq<Masternode>, i: nat)
    requires i < |list|
    ensures Wanted(list[..i + 1])
         == if list[i].enabled then Wanted(list[..i])[list[i].vin.prevout := list[i].payeeScript] else Wanted(list[..i])
  {
    assert list[..i + 1][..i] == list[..i];
  }

  lemma {:induction false} WantedIsEnabled(list: seq<Masternode>, mn: Masternode)
    requires DistinctList(list) && mn in list && mn.enabled
    ensures mn.vin.prevout in Wanted(list) && Wanted(list)[mn.vin.prevout] == mn.payeeScript
  {
    var n := |list| - 1;
    if mn != list[n] {
      var i :| 0 <= i < |list| && list[i] == mn;
      assert list[i].vin.prevout != list[n].vin.prevout;
      assert list[..n][i] == mn;
      WantedIsEnabled(list[..n], mn);
    }
  }

  /** Distinct payee scripts, and each block pays at most one of the masternodes. */
  ghost predicate SeparatePayments(best: seq<Block>, wanted: map<OutPoint, Script>) {
    Injective(wanted) && forall b :: b in best ==> OnePayment(b, wanted)
  }

  ghost function Populated(paid: map<OutPoint, int>, best: seq<Block>, wanted: map<OutPoint, Script>,
                           v: OutPoint): Option<int> {
    if v in wanted && Recent(best, PaysTo(wanted[v]), MAX_LASTPAID_SCAN_DEPTH).Some? then
      Recent(best, PaysTo(wanted[v]), MAX_LASTPAID_SCAN_DEPTH)
    else Lookup(paid, v)
  }

  /** After k blocks: a masternode is still needed exactly when none of them paid it; otherwise its
      entry is the newest payment. */
  ghost predicate ProgressAt(wanted: map<OutPoint, Script>, needed: map<OutPoint, Script>, start: map<OutPoint, int>,
                             now: map<OutPoint, int>, best: seq<Block>, k: nat, v: OutPoint)
  {
    if v in wanted then
      var found := Recent(best, PaysTo(wanted[v]), k);
      && Lookup(needed, v) == (if found.None? then Some(wanted[v]) else None)
      && Lookup(now, v) == (if found.Some? then found else Lookup(start, v))
    else v !in needed && Lookup(now, v) == Lookup(start, v)
  }

  ghost predicate Progress(wanted: map<OutPoint, Script>, needed: map<OutPoint, Script>, start: map<OutPoint, int>,
                           now: map<OutPoint, int>, best: seq<Block>, k: nat)
  {
    forall v :: ProgressAt(wanted, needed, start, now, best, k, v)
  }

  ghost predicate IsNeeded(outs: seq<PaymentOut>, needed: map<OutPoint, Script>, r: Option<OutPoint>) {
    match r
    case Some(v) => v in needed && exists o :: o in outs && OutputPays(o, needed[v])
    case None => forall v, o :: v in needed && o in outs ==> !OutputPays(o, needed[v])
  }

  /** A masternode still needed is paid by the next block only if it is the match. */
  lemma {:induction false} OnlyMatchIsPaid(wanted: map<OutPoint, Script>, needed: map<OutPoint, Script>, b: Block,
                                           r: Option<OutPoint>, v: OutPoint)
    requires OnePayment(b, wanted) && IsNeeded(PaymentOutputs(b), needed, r) && v in needed
    requires forall u :: u in needed ==> u in wanted && needed[u] == wanted[u]
    ensures Pays(b, wanted[v]) <==> r == Some(v)
  {
  }

  lemma {:induction false} ProgressGrows(wanted: map<OutPoint, Script>, needed: map<OutPoint, Script>,
                                         start: map<OutPoint, int>,
                                         now: map<OutPoint, int>, best: seq<Block>, k: nat, r: Option<OutPoint>)
    requires k < |best| && SeparatePayments(best, wanted) && Progress(wanted, needed, start, now, best, k)
    requires IsNeeded(PaymentOutputs(best[|best| - 1 - k]), needed, r)
    ensures var h := |best| - 1 - k;
            Progress(wanted, if r.Some? then needed - {r.value} else needed, start,
                     if r.Some? then now[r.value := h] else now, best, k + 1)
  {
    var h := |best| - 1 - k;
    var needed' := if r.Some? then needed - {r.value} else needed;
    var now' := if r.Some? then now[r.value := h] else now;
    forall u | u in needed ensures u in wanted && needed[u] == wanted[u] {
      assert ProgressAt(wanted, needed, start, now, best, k, u);
    }
    var k' := k + 1;
    forall v ensures ProgressAt(wanted, needed', start, now', best, k', v) {
      assert ProgressAt(wanted, needed, start, now, best, k, v);
      if v in wanted {
        RecentGrows(best, PaysTo(wanted[v]), k);
        if v in needed {
          assert best[h] in best;
          OnlyMatchIsPaid(wanted, needed, best[h], r, v);
        }
      }
    }
  }

  ghost predicate Attested(start: map<Script, int>, now: map<Script, int>, best: seq<Block>, k: nat) {
    forall s :: Lookup(now, s) == Later(Lookup(start, s), Recent(best, SlotIs(s), k))
  }

  lemma {:induction false} AttestationGrows(start: map<Script, int>, before: map<Script, int>, after: map<Script, int>,
                                            best: seq<Block>, k: nat)
    requires k < |best| && Attested(start, before, best, k)
    requires var h := |best| - 1 - k;
             forall s :: Lookup(after, s) ==
                 Later(Lookup(before, s), if SlotPayee(best[h]) == Some(s) then Some(h) else None)
    ensures Attested(start, after, best, k + 1)
  {
    forall s ensures Lookup(after, s) == Later(Lookup(start, s), Recent(best, SlotIs(s), k + 1)) {
      RecentGrows(best, SlotIs(s), k);
      RecentWithinDepth(best, SlotIs(s), k);
    }
  }

  lemma {:induction false} ScanIsComplete(best: seq<Block>, k: nat)
    requires k <= MAX_LASTPAID_SCAN_DEPTH && (k >= |best| || k == MAX_LASTPAID_SCAN_DEPTH)
    ensures forall q :: Recent(best, q, k) == Recent(best, q, MAX_LASTPAID_SCAN_DEPTH)
  {
    forall q ensures Recent(best, q, k) == Recent(best, q, MAX_LASTPAID_SCAN_DEPTH) {
      RecentSettled(best, q, k);
      if Recent(best, q, k).None? {
        RecentExhausted(best, q, k);
      }
    }
  }

  lemma {:induction false} ProgressIsPopulated(wanted: map<OutPoint, Script>, needed: map<OutPoint, Script>,
                                               start: map<OutPoint, int>,
                                               now: map<OutPoint, int>, best: seq<Block>, k: nat)
    requires forall q :: Recent(best, q, k) == Recent(best, q, MAX_LASTPAID_SCAN_DEPTH)
    ensures Progress(wanted, needed, start, now, best, k) ==>
            forall v :: Lookup(now, v) == Populated(start, best, wanted, v)
  {
    if Progress(wanted, needed, start, now, best, k) {
      forall v ensures Lookup(now, v) == Populated(start, best, wanted, v) {
        assert ProgressAt(wanted, needed, start, now, best, k, v);
      }
    }
  }

  /** The first output that pays a masternode still needed. */
  method FindNeeded(outs: seq<PaymentOut>, needed: map<OutPoint, Script>) returns (r: Option<OutPoint>)
    ensures IsNeeded(outs, needed, r)
  {
    for i := 0 to |outs|
      invariant IsNeeded(outs[..i], needed, None)
    {
      assert outs[..i + 1] == outs[..i] + [outs[i]];
      if outs[i].nValue == 0 { continue; }
      if outs[i].destination.None? { continue; }
      var v := FindScript(needed, outs[i].destination.value);
      if v.Some? {
        assert outs[i] in outs && OutputPays(outs[i], needed[v.value]);
        return v;
      }
    }
    assert outs[..|outs|] == outs;
    return None;
  }

  method FindScript(needed: map<OutPoint, Script>, script: Script) returns (r: Option<OutPoint>)
    ensures r.Some? ==> r.value in needed && needed[r.value] == script
    ensures r.None? ==> forall v :: v in needed ==> needed[v] != script
  {
    var todo := needed.Keys;
    while todo != {}
      invariant todo <= needed.Keys
      invariant forall v :: v in needed && v !in todo ==> needed[v] != script
      decreases |todo|
    {
      var v :| v in todo;
      if needed[v] == script { return Some(v); }
      todo := todo - {v};
    }
    return None;
  }

  /** From an empty cache, the one-pass scan gives each enabled masternode the entry, or the absence,
      that a walk for it alone would give. */
  lemma {:induction false} OnePassEqualsSingleWalks(best: seq<Block>, list: seq<Masternode>, mn: Masternode)
    requires DistinctList(list) && mn in list && mn.enabled
    ensures Populated(map[], best, Wanted(list), mn.vin.prevout) == Lookup(Recomputed(map[], best, mn), mn.vin.prevout)
  {
    WantedIsEnabled(list, mn);
  }

  /** Its entry is exact for the scanned chain exactly when the masternode is enabled or was not paid within reach. */
  lemma {:induction false} PopulatedExactIff(best: seq<Block>, list: seq<Masternode>, paid: map<OutPoint, int>,
                                             mn: Masternode)
    requires DistinctList(list) && mn in list
    requires forall v :: Lookup(paid, v) == Populated(map[], best, Wanted(list), v)
    ensures EntryExact(World(best, list, paid, |best|), mn) <==>
            mn.enabled || Recent(best, PaysTo(mn.payeeScript), MAX_LASTPAID_SCAN_DEPTH) == None
  {
    RecentIsLatest(best, PaysTo(mn.payeeScript), MAX_LASTPAID_SCAN_DEPTH);
    assert Lookup(paid, mn.vin.prevout) == Populated(map[], best, Wanted(list), mn.vin.prevout);
    if mn.enabled {
      WantedIsEnabled(list, mn);
    } else {
      OthersAreNotWanted(list, mn);
    }
  }

  lemma {:induction false} OthersAreNotWanted(list: seq<Masternode>, mn: Masternode)
    requires DistinctList(list) && (mn in list ==> !mn.enabled)
    requires forall m :: m in list && m.vin.prevout == mn.vin.prevout ==> m == mn
    ensures mn.vin.prevout !in Wanted(list)
  {
    if list != [] {
      OthersAreNotWanted(list[..|list| - 1], mn);
    }
  }

  function EntryOf(mn: Masternode, paid: map<OutPoint, int>): SnapshotEntry {
    var v := mn.vin.prevout;
    SnapshotEntry(v, mn.payeeScript, mn.confirmedHeight, v in paid, if v in paid then paid[v] else 0)
  }

  /** The snapshot carries the list and, for listed masternodes, the cache. */
  lemma {:induction false} SnapshotIsFaithful(list: seq<Masternode>, paid: map<OutPoint, int>,
                                              snapshot: seq<SnapshotEntry>)
    requires DistinctList(list) && |snapshot| == |list|
    requires forall i :: 0 <= i < |list| ==> snapshot[i] == EntryOf(list[i], paid)
    ensures DistinctVins(snapshot) && Roster(snapshot) == Members(list)
    ensures SameRanks(Members(list), PaidHeights(snapshot), paid)
  {
    forall m ensures m in Roster(snapshot) <==> m in Members(list) {
      if m in Roster(snapshot) {
        var i :| 0 <= i < |snapshot| && MemberOf(snapshot[i]) == m;
        assert list[i] in list && AsMember(list[i]) == m;
      }
      if m in Members(list) {
        var x :| x in list && AsMember(x) == m;
        var i :| 0 <= i < |list| && list[i] == x;
        assert snapshot[i] in snapshot && MemberOf(snapshot[i]) == m;
      }
    }
    PaidHeightsAreOrderFree(snapshot);
    forall m | m in Members(list)
      ensures Rank(PaidHeights(snapshot), m.vin, m.confirmedHeight) == Rank(paid, m.vin, m.confirmedHeight)
    {
      var x :| x in list && AsMember(x) == m;
      var i :| 0 <= i < |list| && list[i] == x;
      assert snapshot[i] in snapshot;
      if m.vin in PaidHeights(snapshot) {
        var e :| e in snapshot && e.hasPaid && e.vin == m.vin;
        var j :| 0 <= j < |snapshot| && snapshot[j] == e;
        assert i == j;
      }
    }
  }

  lemma {:induction false} RecentSettled(chain: seq<Block>, q: Query, k: nat)
    requires k <= MAX_LASTPAID_SCAN_DEPTH
    ensures Recent(chain, q, k).Some? ==> Recent(chain, q, MAX_LASTPAID_SCAN_DEPTH) == Recent(chain, q, k)
  {
    if Recent(chain, q, k).Some? {
      RecentIsLatest(chain, q, k);
      var h := Recent(chain, q, k).value;
      if h < |chain| - k {
        RecentIsLatest(chain, q, k);
      }
      RecentWithinDepth(chain, q, k);
      LatestIsRecent(chain, q, MAX_LASTPAID_SCAN_DEPTH, h);
    }
  }

  lemma {:induction false} RecentWithinDepth(chain: seq<Block>, q: Query, k: nat)
    ensures Recent(chain, q, k).Some? ==> Recent(chain, q, k).value >= |chain| - k
    decreases k
  {
    if k > 0 && chain != [] {
      RecentWithinDepth(chain[..|chain| - 1], q, k - 1);
    }
  }

  lemma {:induction false} RecentExhausted(chain: seq<Block>, q: Query, k: nat)
    requires Recent(chain, q, k).None? && (k >= |chain| || k == MAX_LASTPAID_SCAN_DEPTH)
    ensures Recent(chain, q, MAX_LASTPAID_SCAN_DEPTH).None?
  {
    RecentIsLatest(chain, q, k);
    RecentIsLatest(chain, q, MAX_LASTPAID_SCAN_DEPTH);
  }

  lemma {:induction false} PoolGrows(list: seq<Masternode>, i: nat, exclude: seq<TxIn>, minimumAge: int, height: int,
                                     chainDerived: bool)
    requires i < |list| && DistinctList(list)
    ensures var before := Pool(list[..i], exclude, minimumAge, height, chainDerived);
            && (forall m :: m in before ==> m.vin != list[i].vin.prevout)
            && Pool(list[..i + 1], exclude, minimumAge, height, chainDerived)
               == if Passes(list[i], exclude, minimumAge, height, chainDerived)
                  then before + {AsMember(list[i])} else before
  {
  }

  lemma {:induction false} OldestGrows(pool: set<Member>, paid: map<OutPoint, int>, m: Member, best: Option<Member>)
    requires if best.Some? then IsOldest(pool, paid, best.value) else pool == {}
    requires forall o :: o in pool ==> o.vin != m.vin
    ensures best.None? || Older(paid, m, best.value) ==> IsOldest(pool + {m}, paid, m)
    ensures best.Some? && !Older(paid, m, best.value) ==> IsOldest(pool + {m}, paid, best.value)
  {
  }
}
