/**
 * The last-paid cache through reorganizations as they are carried out: a whole branch is disconnected and another
 * connected while pindexBest is still the old tip, so the disconnection hook undoes nothing.
 */
module Reorganization {
  import opened Basics
  import opened VotingConstants
  import opened Rotation
  import opened MasternodeManager

  // ----- What the hooks do to the cache

  /** The disconnection hook called for the blocks from - 1 down to fork, with the old tip in place. */
  function AfterDisconnectedDownTo(paid: map<OutPoint, int>, list: seq<Masternode>, best: seq<Block>, from: nat,
                                   fork: nat): map<OutPoint, int>
    requires fork <= from <= |best|
    decreases from
  {
    if from == fork then paid
    else AfterDisconnectedDownTo(AfterDisconnected(paid, list, best[from - 1], from - 1, best), list, best, from - 1,
                                 fork)
  }

  function AfterConnectedAll(paid: map<OutPoint, int>, list: seq<Masternode>, added: seq<Block>,
                             base: nat): map<OutPoint, int> {
    if added == [] then paid
    else
      var last := |added| - 1;
      AfterConnected(AfterConnectedAll(paid, list, added[..last], base), list, added[last], base + last)
  }

  function AfterReorganized(paid: map<OutPoint, int>, list: seq<Masternode>, best: seq<Block>, fork: nat,
                            added: seq<Block>): map<OutPoint, int>
    requires fork <= |best|
  {
    AfterConnectedAll(AfterDisconnectedDownTo(paid, list, best, |best|, fork), list, added, fork)
  }

  // ----- Moves of a node

  /** An ordinary event, with no disconnection; a reorganization that keeps the first blocks and adds others; or one
      that adds some and then fails on the next, so that the old chain stays. */
  datatype Move =
    | Ordinary(event: Event)
    | SwitchBranch(fork: nat, added: seq<Block>)
    | StoppedSwitch(fork: nat, added: seq<Block>)

  ghost function MoveOn(w: World, m: Move): World {
    match m
    case Ordinary(e) => Step(w, e)
    case SwitchBranch(fork, added) =>
      if fork > |w.chain| then w
      else
        World(w.chain[..fork] + added, w.list, AfterReorganized(w.paid, w.list, w.chain, fork, added),
              Max(w.deepest, fork + |added|))
    case StoppedSwitch(fork, added) =>
      if fork > |w.chain| then w else w.(paid := AfterReorganized(w.paid, w.list, w.chain, fork, added))
  }

  /** What a node can do: the fork lies above the genesis block. */
  ghost predicate CanMove(w: World, m: Move, registry: map<OutPoint, Script>) {
    match m
    case Ordinary(e) => AdmissibleEvent(e, registry) && !e.Disconnect?
    case SwitchBranch(fork, added) =>
      0 < fork <= |w.chain| && forall b :: b in added ==> OnePayment(b, registry)
    case StoppedSwitch(fork, added) =>
      0 < fork <= |w.chain| && forall b :: b in added ==> OnePayment(b, registry)
  }

  /** The scan can walk back to the fork. */
  ghost predicate Reaches(w: World, fork: int) {
    fork >= w.deepest - MAX_LASTPAID_SCAN_DEPTH
  }

  /** No reorganization stops part way, and every fork is within the reach of the scan. */
  ghost predicate Completes(w: World, m: Move) {
    !m.StoppedSwitch? && (m.SwitchBranch? ==> Reaches(w, m.fork))
  }

  ghost predicate PaidIn(blocks: seq<Block>, script: Script) {
    exists b :: b in blocks && Pays(b, script)
  }

  // ----- When an entry is stale

  /** The entry lies above every height that pays the masternode. */
  ghost predicate Overtaken(w: World, mn: Masternode) {
    && mn.vin.prevout in w.paid
    && forall h :: 0 <= h < |w.chain| && Matches(w.chain[h], PaysTo(mn.payeeScript)) ==> h < w.paid[mn.vin.prevout]
  }

  /** An entry is exact, or it is left over from a block that was taken out. */
  ghost predicate EntryIs(w: World, mn: Masternode, stale: bool) {
    if stale then Overtaken(w, mn) else EntryExact(w, mn)
  }

  lemma {:induction false} OvertakenIsNotExact(w: World, mn: Masternode)
    requires Overtaken(w, mn)
    ensures !EntryExact(w, mn)
  {
  }

  /** A cache in which every entry is one or the other. */
  ghost predicate Sound(w: World, stale: set<OutPoint>) {
    forall mn :: mn in w.list ==> EntryIs(w, mn, mn.vin.prevout in stale)
  }

  // ----- Disconnecting at the old tip

  lemma {:induction false} HookIsIdle(w: World, registry: map<OutPoint, Script>, stale: set<OutPoint>, h: nat)
    requires Consistent(w, registry) && Sound(w, stale)
    requires h < |w.chain| && h >= |w.chain| - MAX_LASTPAID_SCAN_DEPTH
    ensures AfterDisconnected(w.paid, w.list, w.chain[h], h, w.chain) == w.paid
  {
    var r := FirstPaid(w.list, PaymentOutputs(w.chain[h]));
    FirstPaidIsPaid(w.list, PaymentOutputs(w.chain[h]));
    if r.Some? && r.value.vin.prevout in w.paid && w.paid[r.value.vin.prevout] == h {
      assert Matches(w.chain[h], PaysTo(r.value.payeeScript));
      assert EntryIs(w, r.value, r.value.vin.prevout in stale);
      LatestIsRecent(w.chain, PaysTo(r.value.payeeScript), MAX_LASTPAID_SCAN_DEPTH, h);
    }
  }

  lemma {:induction false} HooksAreIdle(w: World, registry: map<OutPoint, Script>, stale: set<OutPoint>, from: nat,
                                        fork: nat)
    requires Consistent(w, registry) && Sound(w, stale)
    requires fork <= from <= |w.chain| && fork >= |w.chain| - MAX_LASTPAID_SCAN_DEPTH
    ensures AfterDisconnectedDownTo(w.paid, w.list, w.chain, from, fork) == w.paid
    decreases from
  {
    hide Consistent, Sound, AfterDisconnected;
    if from > fork {
      HookIsIdle(w, registry, stale, from - 1);
      HooksAreIdle(w, registry, stale, from - 1, fork);
    }
  }

  ghost function Truncated(w: World, fork: nat): World
    requires fork <= |w.chain|
  {
    w.(chain := w.chain[..fork])
  }

  lemma {:induction false} PaidInSuffix(chain: seq<Block>, fork: nat, script: Script)
    requires fork <= |chain|
    ensures PaidIn(chain[fork..], script) <==> exists h :: fork <= h < |chain| && Matches(chain[h], PaysTo(script))
  {
    if h :| fork <= h < |chain| && Matches(chain[h], PaysTo(script)) {
      assert chain[fork..][h - fork] == chain[h];
    }
    if PaidIn(chain[fork..], script) {
      var b :| b in chain[fork..] && Pays(b, script);
      var i :| 0 <= i < |chain| - fork && chain[fork..][i] == b;
      assert Matches(chain[fork + i], PaysTo(script));
    }
  }

  /** Cutting the chain without touching the cache makes exactly the entries of the blocks cut off stale. */
  lemma {:induction false} CutEntry(w: World, fork: nat, mn: Masternode, stale: bool)
    requires EntryIs(w, mn, stale) && fork <= |w.chain| && fork >= w.deepest - MAX_LASTPAID_SCAN_DEPTH
    ensures EntryIs(Truncated(w, fork), mn, stale || PaidIn(w.chain[fork..], mn.payeeScript))
  {
    PaidInSuffix(w.chain, fork, mn.payeeScript);
    forall h | 0 <= h < fork ensures w.chain[..fork][h] == w.chain[h] {
    }
  }

  // ----- Connecting

  lemma {:induction false} ConnectEntry(w: World, b: Block, registry: map<OutPoint, Script>, mn: Masternode,
                                        stale: bool)
    requires Consistent(w, registry) && OnePayment(b, registry) && mn in w.list && EntryIs(w, mn, stale)
    ensures EntryIs(Step(w, Connect(b)), mn, stale && !Pays(b, mn.payeeScript))
  {
    var w' := Step(w, Connect(b));
    FirstPaidIsOnlyPaid(w.list, b, registry, mn);
    FirstPaidIsPaid(w.list, PaymentOutputs(b));
    var r := FirstPaid(w.list, PaymentOutputs(b));
    if r.Some? && r.value.vin.prevout == mn.vin.prevout {
      SameOutPointSameMasternode(w.list, r.value, mn);
    }
    forall h | 0 <= h < |w.chain| ensures w'.chain[h] == w.chain[h] {
    }
  }

  /** Connecting blocks one after another. */
  ghost function Connected(w: World, added: seq<Block>): World {
    if added == [] then w else Step(Connected(w, added[..|added| - 1]), Connect(added[|added| - 1]))
  }

  lemma {:induction false} ConnectedIs(w: World, added: seq<Block>)
    requires |w.chain| <= w.deepest
    ensures var w' := Connected(w, added);
            && w'.chain == w.chain + added && w'.list == w.list
            && w'.paid == AfterConnectedAll(w.paid, w.list, added, |w.chain|) &&
                 w'.deepest == Max(w.deepest, |w.chain| + |added|)
  {
    if added != [] {
      var last := |added| - 1;
      ConnectedIs(w, added[..last]);
      assert w.chain + added == w.chain + added[..last] + [added[last]];
    }
  }

  lemma {:induction false} ConnectKeepsConsistent(w: World, b: Block, registry: map<OutPoint, Script>)
    requires Consistent(w, registry) && OnePayment(b, registry)
    ensures Consistent(Step(w, Connect(b)), registry)
  {
  }

  lemma {:induction false} ConnectedEntry(w: World, added: seq<Block>, registry: map<OutPoint, Script>, mn: Masternode,
                                          stale: bool)
    requires Consistent(w, registry) && (forall b :: b in added ==> OnePayment(b, registry)) && mn in w.list &&
             EntryIs(w, mn, stale)
    ensures Consistent(Connected(w, added), registry) && Connected(w, added).list == w.list
    ensures EntryIs(Connected(w, added), mn, stale && !PaidIn(added, mn.payeeScript))
  {
    if added != [] {
      var last := |added| - 1;
      ConnectedEntry(w, added[..last], registry, mn, stale);
      var before := Connected(w, added[..last]);
      ConnectKeepsConsistent(before, added[last], registry);
      ConnectEntry(before, added[last], registry, mn, stale && !PaidIn(added[..last], mn.payeeScript));
      assert added == added[..last] + [added[last]];
    }
  }

  // ----- A whole reorganization

  lemma {:induction false} ReorganizedIs(w: World, registry: map<OutPoint, Script>, stale: set<OutPoint>, fork: nat,
                                         added: seq<Block>)
    requires Consistent(w, registry) && Sound(w, stale) && CanMove(w, SwitchBranch(fork, added), registry) &&
             Reaches(w, fork)
    ensures MoveOn(w, SwitchBranch(fork, added)) == Connected(Truncated(w, fork), added)
  {
    HooksAreIdle(w, registry, stale, |w.chain|, fork);
    ConnectedIs(Truncated(w, fork), added);
  }

  lemma {:induction false} ReorganizeEntry(w: World, registry: map<OutPoint, Script>, stale: set<OutPoint>, fork: nat,
                                           added: seq<Block>, mn: Masternode)
    requires Consistent(w, registry) && Sound(w, stale) && CanMove(w, SwitchBranch(fork, added), registry)
    requires Reaches(w, fork) && mn in w.list
    ensures EntryIs(MoveOn(w, SwitchBranch(fork, added)), mn,
                    (mn.vin.prevout in stale || PaidIn(w.chain[fork..], mn.payeeScript)) &&
                        !PaidIn(added, mn.payeeScript))
    ensures Consistent(MoveOn(w, SwitchBranch(fork, added)), registry)
  {
    ReorganizedIs(w, registry, stale, fork, added);
    CutEntry(w, fork, mn, mn.vin.prevout in stale);
    hide EntryIs;
    ConnectedEntry(Truncated(w, fork), added, registry, mn,
                   mn.vin.prevout in stale || PaidIn(w.chain[fork..], mn.payeeScript));
  }

  /** After a reorganization from an exact cache, an entry is exact if and only if an added block pays the
      masternode or no block taken out did. */
  lemma {:induction false} ReorganizedEntryExactIff(w: World, registry: map<OutPoint, Script>, fork: nat,
                                                    added: seq<Block>, mn: Masternode)
    requires Consistent(w, registry) && CacheExact(w) && CanMove(w, SwitchBranch(fork, added), registry)
    requires Reaches(w, fork) && mn in w.list
    ensures EntryExact(MoveOn(w, SwitchBranch(fork, added)), mn) <==>
            PaidIn(added, mn.payeeScript) || !PaidIn(w.chain[fork..], mn.payeeScript)
  {
    ReorganizeEntry(w, registry, {}, fork, added, mn);
    if PaidIn(w.chain[fork..], mn.payeeScript) && !PaidIn(added, mn.payeeScript) {
      OvertakenIsNotExact(MoveOn(w, SwitchBranch(fork, added)), mn);
    }
  }

  // ----- Any run

  ghost function RunOn(w: World, moves: seq<Move>): World {
    if moves == [] then w else MoveOn(RunOn(w, moves[..|moves| - 1]), moves[|moves| - 1])
  }

  ghost predicate CanRun(w: World, moves: seq<Move>, registry: map<OutPoint, Script>) {
    moves == [] ||
    (CanRun(w, moves[..|moves| - 1], registry) && CanMove(RunOn(w, moves[..|moves| - 1]), moves[|moves| - 1], registry))
  }

  ghost predicate AllComplete(w: World, moves: seq<Move>) {
    moves == [] ||
    (AllComplete(w, moves[..|moves| - 1]) && Completes(RunOn(w, moves[..|moves| - 1]), moves[|moves| - 1]))
  }

  /** Whether the last block that paid a masternode was taken out, and since then no block has paid it and it was not
      added anew. */
  ghost predicate Stale(w: World, moves: seq<Move>, prevout: OutPoint, script: Script) {
    moves != [] &&
    StaleAfter(RunOn(w, moves[..|moves| - 1]), moves[|moves| - 1], Stale(w, moves[..|moves| - 1], prevout, script),
               prevout, script)
  }

  ghost predicate StaleAfter(w: World, m: Move, stale: bool, prevout: OutPoint, script: Script) {
    match m
    case Ordinary(Connect(b)) => stale && !Pays(b, script)
    case Ordinary(Add(mn)) => stale && !(mn.enabled && !Listed(w.list, mn.vin.prevout) && mn.vin.prevout == prevout)
    case Ordinary(_) => stale
    case SwitchBranch(fork, added) =>
      fork <= |w.chain| && (stale || PaidIn(w.chain[fork..], script)) && !PaidIn(added, script)
    case StoppedSwitch(_, _) => stale
  }

  /** Every listed masternode's entry is what the history says. */
  ghost predicate Tracked(w: World, registry: map<OutPoint, Script>, stale: (OutPoint, Script) -> bool) {
    && Consistent(w, registry) && w.chain != []
    && forall mn :: mn in w.list ==> EntryIs(w, mn, stale(mn.vin.prevout, mn.payeeScript))
  }

  lemma {:induction false} AddEntry(w: World, registry: map<OutPoint, Script>, added: Masternode, mn: Masternode,
                                    stale: bool)
    requires Consistent(w, registry) && Registered([added], registry) && w.chain != [] && mn in Step(w, Add(added)).list
    requires mn in w.list ==> EntryIs(w, mn, stale)
    ensures Consistent(Step(w, Add(added)), registry)
    ensures EntryIs(Step(w, Add(added)), mn,
                    stale && !(added.enabled && !Listed(w.list, added.vin.prevout) &&
                               added.vin.prevout == mn.vin.prevout))
  {
    assert added in [added];
    if added.enabled && !Listed(w.list, added.vin.prevout) {
      RecomputedIsExact(w.paid, w.chain, Step(w, Add(added)).list, w.deepest, added);
    }
  }

  lemma {:induction false} RemoveEntry(w: World, registry: map<OutPoint, Script>, vin: TxIn, mn: Masternode,
                                       stale: bool)
    requires Consistent(w, registry) && mn in Step(w, Remove(vin)).list
    requires mn in w.list ==> EntryIs(w, mn, stale)
    ensures Consistent(Step(w, Remove(vin)), registry) && EntryIs(Step(w, Remove(vin)), mn, stale)
  {
    WithoutFirstKeeps(w.list, vin);
  }

  ghost function StaleOutPoints(w: World, stale: (OutPoint, Script) -> bool): set<OutPoint> {
    set mn | mn in w.list && stale(mn.vin.prevout, mn.payeeScript) :: mn.vin.prevout
  }

  lemma {:induction false} TrackedIsSound(w: World, registry: map<OutPoint, Script>, stale: (OutPoint, Script) -> bool)
    requires Tracked(w, registry, stale)
    ensures Sound(w, StaleOutPoints(w, stale))
    ensures forall mn :: mn in w.list ==>
            (mn.vin.prevout in StaleOutPoints(w, stale) <==> stale(mn.vin.prevout, mn.payeeScript))
  {
    hide EntryIs;
    forall mn | mn in w.list
      ensures mn.vin.prevout in StaleOutPoints(w, stale) <==> stale(mn.vin.prevout, mn.payeeScript) {
      if mn.vin.prevout in StaleOutPoints(w, stale) {
        var m :| m in w.list && stale(m.vin.prevout, m.payeeScript) && m.vin.prevout == mn.vin.prevout;
        SameOutPointSameMasternode(w.list, m, mn);
      }
    }
  }

  lemma {:induction false} MoveKeepsTracked(w: World, m: Move, registry: map<OutPoint, Script>,
                                            stale: (OutPoint, Script) -> bool,
                                            next: (OutPoint, Script) -> bool)
    requires Tracked(w, registry, stale) && CanMove(w, m, registry) && Completes(w, m)
    requires forall v, s :: next(v, s) == StaleAfter(w, m, stale(v, s), v, s)
    ensures Tracked(MoveOn(w, m), registry, next)
  {
    hide EntryIs, Consistent;
    match m
    case Ordinary(Connect(b)) =>
      ConnectKeepsConsistent(w, b, registry);
      forall mn | mn in w.list ensures EntryIs(MoveOn(w, m), mn, next(mn.vin.prevout, mn.payeeScript)) {
        ConnectEntry(w, b, registry, mn, stale(mn.vin.prevout, mn.payeeScript));
      }
    case Ordinary(Add(added)) =>
      AddKeepsConsistent(w, registry, added);
      forall mn | mn in MoveOn(w, m).list ensures EntryIs(MoveOn(w, m), mn, next(mn.vin.prevout, mn.payeeScript)) {
        AddEntry(w, registry, added, mn, stale(mn.vin.prevout, mn.payeeScript));
      }
    case Ordinary(Remove(vin)) =>
      RemoveKeepsConsistent(w, registry, vin);
      forall mn | mn in MoveOn(w, m).list ensures EntryIs(MoveOn(w, m), mn, next(mn.vin.prevout, mn.payeeScript)) {
        RemoveEntry(w, registry, vin, mn, stale(mn.vin.prevout, mn.payeeScript));
      }
    case SwitchBranch(fork, added) =>
      TrackedIsSound(w, registry, stale);
      ReorganizeKeepsConsistent(w, registry, fork, added);
      forall mn | mn in w.list ensures EntryIs(MoveOn(w, m), mn, next(mn.vin.prevout, mn.payeeScript)) {
        ReorganizeEntry(w, registry, StaleOutPoints(w, stale), fork, added, mn);
      }
  }

  lemma {:induction false} AddKeepsConsistent(w: World, registry: map<OutPoint, Script>, added: Masternode)
    requires Consistent(w, registry) && Registered([added], registry)
    ensures Consistent(Step(w, Add(added)), registry)
  {
    assert added in [added];
  }

  lemma {:induction false} RemoveKeepsConsistent(w: World, registry: map<OutPoint, Script>, vin: TxIn)
    requires Consistent(w, registry)
    ensures Consistent(Step(w, Remove(vin)), registry)
    ensures forall mn :: mn in Step(w, Remove(vin)).list ==> mn in w.list
  {
    WithoutFirstKeeps(w.list, vin);
  }

  lemma {:induction false} ReorganizeKeepsConsistent(w: World, registry: map<OutPoint, Script>, fork: nat,
                                                     added: seq<Block>)
    requires Consistent(w, registry) && CanMove(w, SwitchBranch(fork, added), registry)
    ensures Consistent(MoveOn(w, SwitchBranch(fork, added)), registry)
  {
  }

  lemma {:induction false} RunIsTracked(w: World, moves: seq<Move>, registry: map<OutPoint, Script>)
    requires Consistent(w, registry) && CacheExact(w) && w.chain != [] && CanRun(w, moves, registry) &&
             AllComplete(w, moves)
    ensures Tracked(RunOn(w, moves), registry, (v, s) => Stale(w, moves, v, s))
  {
    if moves != [] {
      var last := |moves| - 1;
      RunIsTracked(w, moves[..last], registry);
      MoveKeepsTracked(RunOn(w, moves[..last]), moves[last], registry, (v, s) => Stale(w, moves[..last], v, s),
                       (v, s) => Stale(w, moves, v, s));
    }
  }

  /** Over any run of connections, completed reorganizations, additions and removals, the entry of a listed masternode
      is exactly its greatest paying height if and only if it is not stale. */
  lemma {:induction false} RunEntryExactIff(w: World, moves: seq<Move>, registry: map<OutPoint, Script>, mn: Masternode)
    requires Consistent(w, registry) && CacheExact(w) && w.chain != [] && CanRun(w, moves, registry)
    requires AllComplete(w, moves) && mn in RunOn(w, moves).list
    ensures EntryExact(RunOn(w, moves), mn) <==> !Stale(w, moves, mn.vin.prevout, mn.payeeScript)
  {
    RunIsTracked(w, moves, registry);
    assert EntryIs(RunOn(w, moves), mn, Stale(w, moves, mn.vin.prevout, mn.payeeScript));
  }

  /** So after any such run, while no chain longer than the scan depth has been seen, a masternode that is not stale
      has no entry if and only if no block of the chain pays it; a stale one always has an entry. */
  lemma {:induction false} RunAbsentIffNeverPaid(w: World, moves: seq<Move>, registry: map<OutPoint, Script>,
                                                 mn: Masternode)
    requires Consistent(w, registry) && CacheExact(w) && w.chain != [] && CanRun(w, moves, registry)
    requires AllComplete(w, moves) && mn in RunOn(w, moves).list && RunOn(w, moves).deepest <= MAX_LASTPAID_SCAN_DEPTH
    ensures var after := RunOn(w, moves);
            mn.vin.prevout !in after.paid <==>
            !Stale(w, moves, mn.vin.prevout, mn.payeeScript) && !PaidIn(after.chain, mn.payeeScript)
  {
    RunIsTracked(w, moves, registry);
    hide Stale, Consistent, CanRun, AllComplete;
    var after := RunOn(w, moves);
    assert EntryIs(after, mn, Stale(w, moves, mn.vin.prevout, mn.payeeScript));
    assert after.chain[0..] == after.chain;
    PaidInSuffix(after.chain, 0, mn.payeeScript);
  }

  // ----- What an entry is after any run, whatever reorganizations did

  /** The height of the last of some blocks that pays a script, where the first of them has height base. */
  ghost function LastPaidIn(added: seq<Block>, base: nat, script: Script): Option<int> {
    match Recent(added, PaysTo(script), |added|)
    case Some(i) => Some(base + i)
    case None => None
  }

  /** An entry names a block that pays a script, among those from the height fork on and below another. */
  ghost predicate NamesPayment(entry: Option<int>, chain: seq<Block>, from: nat, fork: nat, script: Script)
    requires fork <= from <= |chain|
  {
    entry.Some? && fork <= entry.value < from && Pays(chain[entry.value], script)
  }

  /** The disconnection hooks look an entry up anew, from the old tip, if it names a payment taken out. */
  ghost function AfterHooks(entry: Option<int>, chain: seq<Block>, from: nat, fork: nat, script: Script): Option<int>
    requires fork <= from <= |chain|
  {
    if NamesPayment(entry, chain, from, fork, script)
    then Recent(chain, PaysTo(script), MAX_LASTPAID_SCAN_DEPTH) else entry
  }

  ghost function RecordedAfter(entry: Option<int>, w: World, m: Move, mn: Masternode): Option<int> {
    match m
    case Ordinary(Connect(b)) => if Pays(b, mn.payeeScript) then Some(|w.chain|) else entry
    case Ordinary(Add(a)) =>
      if a.enabled && !Listed(w.list, a.vin.prevout) && a.vin.prevout == mn.vin.prevout
      then Recent(w.chain, PaysTo(mn.payeeScript), MAX_LASTPAID_SCAN_DEPTH) else entry
    case Ordinary(_) => entry
    case SwitchBranch(fork, added) => Switched(entry, w.chain, fork, added, mn.payeeScript)
    case StoppedSwitch(fork, added) => Switched(entry, w.chain, fork, added, mn.payeeScript)
  }

  ghost function Switched(entry: Option<int>, chain: seq<Block>, fork: nat, added: seq<Block>,
                          script: Script): Option<int> {
    if fork > |chain| then entry
    else
      var last := LastPaidIn(added, fork, script);
      if last.Some? then last else AfterHooks(entry, chain, |chain|, fork, script)
  }

  /** What a run leaves recorded for a masternode, from the blocks that pay it and nothing else. */
  ghost function Recorded(w: World, moves: seq<Move>, mn: Masternode): Option<int> {
    if moves == [] then Lookup(w.paid, mn.vin.prevout)
    else
      var last := |moves| - 1;
      RecordedAfter(Recorded(w, moves[..last], mn), RunOn(w, moves[..last]), moves[last], mn)
  }

  lemma {:induction false} HookOnEntry(w: World, registry: map<OutPoint, Script>, paid: map<OutPoint, int>,
                                       mn: Masternode, h: nat)
    requires Consistent(w, registry) && mn in w.list && h < |w.chain|
    ensures Lookup(AfterDisconnected(paid, w.list, w.chain[h], h, w.chain), mn.vin.prevout) ==
            AfterHooks(Lookup(paid, mn.vin.prevout), w.chain, h + 1, h, mn.payeeScript)
  {
    hide Pays, Recent, FirstPaid;
    var b := w.chain[h];
    assert b in w.chain;
    var r := FirstPaid(w.list, PaymentOutputs(b));
    FirstPaidIsOnlyPaid(w.list, b, registry, mn);
    FirstPaidIsPaid(w.list, PaymentOutputs(b));
    if r.Some? && r.value.vin.prevout == mn.vin.prevout {
      SameOutPointSameMasternode(w.list, r.value, mn);
    }
  }

  lemma {:induction false} HooksOnEntry(w: World, registry: map<OutPoint, Script>, paid: map<OutPoint, int>,
                                        mn: Masternode,
                                        from: nat, fork: nat)
    requires Consistent(w, registry) && mn in w.list && fork <= from <= |w.chain|
    ensures Lookup(AfterDisconnectedDownTo(paid, w.list, w.chain, from, fork), mn.vin.prevout) ==
            AfterHooks(Lookup(paid, mn.vin.prevout), w.chain, from, fork, mn.payeeScript)
    decreases from
  {
    hide AfterDisconnected, Pays, Recent, Consistent;
    if from > fork {
      var next := AfterDisconnected(paid, w.list, w.chain[from - 1], from - 1, w.chain);
      HookOnEntry(w, registry, paid, mn, from - 1);
      HooksOnEntry(w, registry, next, mn, from - 1, fork);
      HookFindsHigher(w.chain, mn.payeeScript, from - 1);
    }
  }

  /** What the walk from the tip finds is not below a block that pays. */
  lemma {:induction false} HookFindsHigher(chain: seq<Block>, script: Script, h: nat)
    requires h < |chain|
    ensures var found := Recent(chain, PaysTo(script), MAX_LASTPAID_SCAN_DEPTH);
            Pays(chain[h], script) && found.Some? ==> found.value >= h
  {
    RecentIsLatest(chain, PaysTo(script), MAX_LASTPAID_SCAN_DEPTH);
    assert Matches(chain[h], PaysTo(script)) == Pays(chain[h], script);
  }

  lemma {:induction false} ConnectionsOnEntry(list: seq<Masternode>, registry: map<OutPoint, Script>,
                                              paid: map<OutPoint, int>,
                                              mn: Masternode, added: seq<Block>, base: nat)
    requires Injective(registry) && Registered(list, registry) && DistinctList(list) && mn in list
    requires forall b :: b in added ==> OnePayment(b, registry)
    ensures Lookup(AfterConnectedAll(paid, list, added, base), mn.vin.prevout) ==
            if LastPaidIn(added, base, mn.payeeScript).Some? then LastPaidIn(added, base, mn.payeeScript)
            else Lookup(paid, mn.vin.prevout)
  {
    hide Pays, FirstPaid, OnePayment;
    if added != [] {
      var last := |added| - 1;
      ConnectionsOnEntry(list, registry, paid, mn, added[..last], base);
      var b := added[last];
      assert b in added;
      var r := FirstPaid(list, PaymentOutputs(b));
      FirstPaidIsOnlyPaid(list, b, registry, mn);
      FirstPaidIsPaid(list, PaymentOutputs(b));
      if r.Some? && r.value.vin.prevout == mn.vin.prevout {
        SameOutPointSameMasternode(list, r.value, mn);
      }
      assert Matches(b, PaysTo(mn.payeeScript)) == Pays(b, mn.payeeScript);
    }
  }

  lemma {:induction false} SwitchOnEntry(w: World, registry: map<OutPoint, Script>, fork: nat, added: seq<Block>,
                                         mn: Masternode)
    requires Consistent(w, registry) && mn in w.list && fork <= |w.chain| &&
             forall b :: b in added ==> OnePayment(b, registry)
    ensures Lookup(AfterReorganized(w.paid, w.list, w.chain, fork, added), mn.vin.prevout) ==
            Switched(Lookup(w.paid, mn.vin.prevout), w.chain, fork, added, mn.payeeScript)
  {
    hide AfterDisconnectedDownTo, AfterConnectedAll, LastPaidIn, AfterHooks, OnePayment;
    HooksOnEntry(w, registry, w.paid, mn, |w.chain|, fork);
    var undone := AfterDisconnectedDownTo(w.paid, w.list, w.chain, |w.chain|, fork);
    ConnectionsOnEntry(w.list, registry, undone, mn, added, fork);
  }

  lemma {:induction false} AddOnEntry(w: World, registry: map<OutPoint, Script>, a: Masternode, mn: Masternode,
                                      entry: Option<int>)
    requires Consistent(w, registry) && Registered([a], registry) && w.chain != [] && mn in Step(w, Add(a)).list
    requires mn in w.list ==> Lookup(w.paid, mn.vin.prevout) == entry
    ensures Lookup(Step(w, Add(a)).paid, mn.vin.prevout) == RecordedAfter(entry, w, Ordinary(Add(a)), mn)
  {
    assert a in [a];
  }

  lemma {:induction false} ConnectOnEntry(w: World, registry: map<OutPoint, Script>, b: Block, mn: Masternode)
    requires Consistent(w, registry) && OnePayment(b, registry) && mn in w.list
    ensures Lookup(Step(w, Connect(b)).paid, mn.vin.prevout) ==
            RecordedAfter(Lookup(w.paid, mn.vin.prevout), w, Ordinary(Connect(b)), mn)
  {
    hide Pays, FirstPaid, OnePayment;
    FirstPaidIsOnlyPaid(w.list, b, registry, mn);
    FirstPaidIsPaid(w.list, PaymentOutputs(b));
    var r := FirstPaid(w.list, PaymentOutputs(b));
    if r.Some? && r.value.vin.prevout == mn.vin.prevout {
      SameOutPointSameMasternode(w.list, r.value, mn);
    }
  }

  /** One move, for one masternode. */
  lemma {:induction false} MoveOnEntry(w: World, m: Move, registry: map<OutPoint, Script>, mn: Masternode,
                                       entry: Option<int>)
    requires Consistent(w, registry) && w.chain != [] && CanMove(w, m, registry) && mn in MoveOn(w, m).list
    requires mn in w.list ==> Lookup(w.paid, mn.vin.prevout) == entry
    ensures Lookup(MoveOn(w, m).paid, mn.vin.prevout) == RecordedAfter(entry, w, m, mn)
    ensures Consistent(MoveOn(w, m), registry) && MoveOn(w, m).chain != []
  {
    hide Consistent, OnePayment, Switched, AfterReorganized;
    match m
    case Ordinary(Connect(b)) =>
      ConnectKeepsConsistent(w, b, registry);
      ConnectOnEntry(w, registry, b, mn);
    case Ordinary(Add(a)) =>
      AddKeepsConsistent(w, registry, a);
      AddOnEntry(w, registry, a, mn, entry);
    case Ordinary(Remove(vin)) =>
      RemoveKeepsConsistent(w, registry, vin);
    case SwitchBranch(fork, added) =>
      ReorganizeKeepsConsistent(w, registry, fork, added);
      SwitchOnEntry(w, registry, fork, added, mn);
    case StoppedSwitch(fork, added) =>
      StopKeepsConsistent(w, registry, fork, added);
      SwitchOnEntry(w, registry, fork, added, mn);
  }

  lemma {:induction false} StopKeepsConsistent(w: World, registry: map<OutPoint, Script>, fork: nat, added: seq<Block>)
    requires Consistent(w, registry)
    ensures Consistent(MoveOn(w, StoppedSwitch(fork, added)), registry)
  {
  }

  /** After any run, also of reorganizations that stop part way or fork below the reach of the scan, and from whatever
      cache, the entry of a listed masternode is the height recorded for it by the blocks that pay it. */
  lemma {:induction false} RunEntryIsRecorded(w: World, moves: seq<Move>, registry: map<OutPoint, Script>,
                                              mn: Masternode)
    requires Consistent(w, registry) && w.chain != [] && CanRun(w, moves, registry) && mn in RunOn(w, moves).list
    ensures Lookup(RunOn(w, moves).paid, mn.vin.prevout) == Recorded(w, moves, mn)
  {
    RunKeepsConsistent(w, moves, registry);
    if moves != [] {
      var last := |moves| - 1;
      var before := RunOn(w, moves[..last]);
      RunKeepsConsistent(w, moves[..last], registry);
      if mn in before.list {
        RunEntryIsRecorded(w, moves[..last], registry, mn);
      }
      hide Consistent, CanMove, MoveOn, RecordedAfter;
      MoveOnEntry(before, moves[last], registry, mn, Recorded(w, moves[..last], mn));
    }
  }

  lemma {:induction false} RunKeepsConsistent(w: World, moves: seq<Move>, registry: map<OutPoint, Script>)
    requires Consistent(w, registry) && w.chain != [] && CanRun(w, moves, registry)
    ensures Consistent(RunOn(w, moves), registry) && RunOn(w, moves).chain != []
  {
    if moves != [] {
      var last := |moves| - 1;
      RunKeepsConsistent(w, moves[..last], registry);
      hide Consistent;
      MoveKeepsConsistent(RunOn(w, moves[..last]), moves[last], registry);
    }
  }

  lemma {:induction false} MoveKeepsConsistent(w: World, m: Move, registry: map<OutPoint, Script>)
    requires Consistent(w, registry) && w.chain != [] && CanMove(w, m, registry)
    ensures Consistent(MoveOn(w, m), registry) && MoveOn(w, m).chain != []
  {
    hide Consistent, OnePayment, AfterReorganized;
    match m
    case Ordinary(Connect(b)) =>
      ConnectKeepsConsistent(w, b, registry);
    case Ordinary(Add(a)) =>
      AddKeepsConsistent(w, registry, a);
    case Ordinary(Remove(vin)) =>
      RemoveKeepsConsistent(w, registry, vin);
    case SwitchBranch(fork, added) =>
      ReorganizeKeepsConsistent(w, registry, fork, added);
    case StoppedSwitch(fork, added) =>
      StopKeepsConsistent(w, registry, fork, added);
  }

  /** After a reorganization that stopped, an entry is exact if and only if the last block it had added that pays the
      masternode lies at the height of the last payment in the chain that stayed; or it had added no such block, and
      the entry was exact, or named a payment that the disconnection hooks then looked up anew. */
  lemma {:induction false} StoppedEntryExactIff(w: World, registry: map<OutPoint, Script>, fork: nat, added: seq<Block>,
                                                mn: Masternode)
    requires Consistent(w, registry) && CanMove(w, StoppedSwitch(fork, added), registry) && Reaches(w, fork) &&
             mn in w.list
    ensures var last, entry := LastPaidIn(added, fork, mn.payeeScript), Lookup(w.paid, mn.vin.prevout);
            EntryExact(MoveOn(w, StoppedSwitch(fork, added)), mn) <==>
            if last.Some? then IsLatest(w.chain, PaysTo(mn.payeeScript), last.value)
            else EntryExact(w, mn) || NamesPayment(entry, w.chain, |w.chain|, fork, mn.payeeScript)
  {
    hide AfterReorganized, Recent;
    SwitchOnEntry(w, registry, fork, added, mn);
    RecentIsLatest(w.chain, PaysTo(mn.payeeScript), MAX_LASTPAID_SCAN_DEPTH);
  }

  // ----- Honest queues after reorganizations

  /** A masternode was paid within the reach of the scan, or never. */
  ghost predicate WithinReach(w: World, mn: Masternode) {
    var q := PaysTo(mn.payeeScript);
    || (exists h :: 0 <= h < |w.chain| && h >= w.deepest - MAX_LASTPAID_SCAN_DEPTH && Matches(w.chain[h], q))
    || forall h :: 0 <= h < |w.chain| ==> !Matches(w.chain[h], q)
  }

  lemma {:induction false} ExactEntriesAgree(w: World, v: World, mn: Masternode)
    requires w.chain == v.chain && EntryExact(w, mn) && EntryExact(v, mn) && WithinReach(w, mn) && WithinReach(v, mn)
    ensures Lookup(w.paid, mn.vin.prevout) == Lookup(v.paid, mn.vin.prevout)
  {
    if mn.vin.prevout in w.paid && mn.vin.prevout in v.paid {
      var g, h := w.paid[mn.vin.prevout], v.paid[mn.vin.prevout];
      assert !(g < h) && !(h < g);
    }
  }

  /** Two nodes with the same list that ended on the same chain, by whatever reorganizations, compute the same queue
      if no listed masternode is stale at either: an honest voter may then count on the queue of any other. */
  lemma {:induction false} QueuesAgreeUnlessStale(w: World, v: World, movesW: seq<Move>, movesV: seq<Move>,
                                                  registry: map<OutPoint, Script>, queueHeight: int)
    requires Consistent(w, registry) && CacheExact(w) && w.chain != [] && CanRun(w, movesW, registry)
    requires Consistent(v, registry) && CacheExact(v) && v.chain != [] && CanRun(v, movesV, registry)
    requires RunOn(w, movesW).chain == RunOn(v, movesV).chain && RunOn(w, movesW).list == RunOn(v, movesV).list
    requires AllComplete(w, movesW) && AllComplete(v, movesV)
    requires forall mn :: mn in RunOn(w, movesW).list ==>
               && !Stale(w, movesW, mn.vin.prevout, mn.payeeScript) && !Stale(v, movesV, mn.vin.prevout, mn.payeeScript)
               && WithinReach(RunOn(w, movesW), mn) && WithinReach(RunOn(v, movesV), mn)
    ensures var a, b := RunOn(w, movesW), RunOn(v, movesV);
            QueueAt(Members(a.list), a.paid, queueHeight) == QueueAt(Members(b.list), b.paid, queueHeight)
  {
    hide EntryExact, WithinReach, Stale, Consistent, CanRun, RunOn, CacheExact;
    var a, b := RunOn(w, movesW), RunOn(v, movesV);
    forall m | m in Members(a.list)
      ensures Rank(a.paid, m.vin, m.confirmedHeight) == Rank(b.paid, m.vin, m.confirmedHeight) {
      var mn :| mn in a.list && AsMember(mn) == m;
      RunEntryExactIff(w, movesW, registry, mn);
      RunEntryExactIff(v, movesV, registry, mn);
      ExactEntriesAgree(a, b, mn);
    }
    SameRanksSamePicks(Members(a.list), a.paid, b.paid, queueHeight + 1, VOTE_QUEUE_LENGTH);
  }

  /** Whatever their reorganizations did, two nodes with the same list compute the same queue if what they recorded
      agrees: their chains and caches matter in no other way. */
  lemma {:induction false} QueuesAgreeIfRecordsDo(w: World, v: World, movesW: seq<Move>, movesV: seq<Move>,
                                                  registry: map<OutPoint, Script>, queueHeight: int)
    requires Consistent(w, registry) && w.chain != [] && CanRun(w, movesW, registry)
    requires Consistent(v, registry) && v.chain != [] && CanRun(v, movesV, registry)
    requires RunOn(w, movesW).list == RunOn(v, movesV).list
    requires forall mn :: mn in RunOn(w, movesW).list ==> Recorded(w, movesW, mn) == Recorded(v, movesV, mn)
    ensures var a, b := RunOn(w, movesW), RunOn(v, movesV);
            QueueAt(Members(a.list), a.paid, queueHeight) == QueueAt(Members(b.list), b.paid, queueHeight)
  {
    hide Recorded, Consistent, CanRun, RunOn;
    var a, b := RunOn(w, movesW), RunOn(v, movesV);
    forall m | m in Members(a.list)
      ensures Rank(a.paid, m.vin, m.confirmedHeight) == Rank(b.paid, m.vin, m.confirmedHeight) {
      var mn :| mn in a.list && AsMember(mn) == m;
      RunEntryIsRecorded(w, movesW, registry, mn);
      RunEntryIsRecorded(v, movesV, registry, mn);
      assert Recorded(w, movesW, mn) == Recorded(v, movesV, mn);
    }
    SameRanksSamePicks(Members(a.list), a.paid, b.paid, queueHeight + 1, VOTE_QUEUE_LENGTH);
  }

  // ----- The failing calls, concretely

  /** A proof-of-work block of a coinbase that pays one script. */
  function Paying(script: Script): Block {
    Block(false, [PaymentTx([PaymentOut(1, script, Some(script))])])
  }

  /** Some script other than the masternode's. */
  function Else(mn: Masternode): Script {
    mn.payeeScript + [0]
  }

  /** A chain of two blocks whose tip pays the one listed masternode. */
  function PaidTip(mn: Masternode): World {
    World([Paying(Else(mn)), Paying(mn.payeeScript)], [mn], map[mn.vin.prevout := 1], 2)
  }

  lemma {:induction false} PayingPays(script: Script, other: Script)
    ensures Pays(Paying(script), other) <==> other == script
  {
    var out := PaymentOut(1, script, Some(script));
    assert PaymentOutputs(Paying(script)) == [out] && out in PaymentOutputs(Paying(script));
    assert OutputPays(out, other) <==> other == script;
  }

  lemma {:induction false} PaidTipIsExact(mn: Masternode)
    ensures CacheExact(PaidTip(mn)) && Consistent(PaidTip(mn), map[mn.vin.prevout := mn.payeeScript])
    ensures PaidIn(PaidTip(mn).chain[1..], mn.payeeScript)
    ensures IsLatest(PaidTip(mn).chain, PaysTo(mn.payeeScript), 1)
  {
    hide Pays;
    PayingPays(mn.payeeScript, mn.payeeScript);
    var w := PaidTip(mn);
    assert w.list == [mn] && Matches(w.chain[1], PaysTo(mn.payeeScript));
    assert EntryExact(w, mn);
    assert w.chain[1..][0] == w.chain[1];
  }

  /** The tip is exchanged for a block that pays somebody else. The entry was exact, and afterwards names a height that
      does not pay the masternode. */
  lemma {:induction false} ReorganizationLeavesStaleEntry(mn: Masternode)
    ensures CacheExact(PaidTip(mn)) && Consistent(PaidTip(mn), map[mn.vin.prevout := mn.payeeScript])
    ensures var after := MoveOn(PaidTip(mn), SwitchBranch(1, [Paying(Else(mn))]));
            && after.chain == [Paying(Else(mn)), Paying(Else(mn))] && !Pays(after.chain[1], mn.payeeScript)
            && Lookup(after.paid, mn.vin.prevout) == Some(1) && !EntryExact(after, mn)
  {
    hide Pays, CacheExact, Consistent, EntryExact, AfterReorganized;
    var w, added := PaidTip(mn), [Paying(Else(mn))];
    var registry := map[mn.vin.prevout := mn.payeeScript];
    PaidTipIsExact(mn);
    PayingPays(Else(mn), mn.payeeScript);
    OnlyOneRegistered(added[0], mn);
    ReorganizedEntryExactIff(w, registry, 1, added, mn);
    assert !Matches(added[0], PaysTo(mn.payeeScript)) && Matches(w.chain[1], PaysTo(mn.payeeScript));
    assert Recent(added[..0], PaysTo(mn.payeeScript), 0) == None && LastPaidIn(added, 1, mn.payeeScript) == None;
    SwitchOnEntry(w, registry, 1, added, mn);
    LatestIsRecent(w.chain, PaysTo(mn.payeeScript), MAX_LASTPAID_SCAN_DEPTH, 1);
  }

  lemma {:induction false} OnlyOneRegistered(b: Block, mn: Masternode)
    ensures OnePayment(b, map[mn.vin.prevout := mn.payeeScript])
  {
  }

  /** A reorganization connects a block that pays somebody else and one that pays the masternode, and stops. The entry
      then names a height that the chain does not have. */
  lemma {:induction false} StoppedSwitchLeavesForeignEntry(mn: Masternode)
    ensures CacheExact(PaidTip(mn)) && Consistent(PaidTip(mn), map[mn.vin.prevout := mn.payeeScript])
    ensures var after := MoveOn(PaidTip(mn), StoppedSwitch(1, [Paying(Else(mn)), Paying(mn.payeeScript)]));
            && after.chain == PaidTip(mn).chain && Lookup(after.paid, mn.vin.prevout) == Some(2) &&
                 !EntryExact(after, mn)
  {
    hide Pays, CacheExact, Consistent, EntryExact, AfterReorganized;
    var w, added := PaidTip(mn), [Paying(Else(mn)), Paying(mn.payeeScript)];
    var registry := map[mn.vin.prevout := mn.payeeScript];
    PaidTipIsExact(mn);
    PayingPays(mn.payeeScript, mn.payeeScript);
    OnlyOneRegistered(added[0], mn);
    OnlyOneRegistered(added[1], mn);
    assert Matches(added[1], PaysTo(mn.payeeScript));
    StoppedEntryExactIff(w, registry, 1, added, mn);
    SwitchOnEntry(w, registry, 1, added, mn);
  }

  // ----- The code

  /** The calls a reorganization makes on the manager: best is the chain of pindexBest, which moves only afterwards. */
  method Reorganize(mnodeman: MasternodeMan, best: seq<Block>, fork: nat, added: seq<Block>)
    requires fork <= |best|
    modifies mnodeman`mapLastPaidHeight
    ensures mnodeman.mapLastPaidHeight ==
            AfterReorganized(old(mnodeman.mapLastPaidHeight), mnodeman.vMasternodes, best, fork, added)
  {
    hide AfterDisconnected, AfterConnected;
    for h := |best| downto fork
      invariant AfterDisconnectedDownTo(mnodeman.mapLastPaidHeight, mnodeman.vMasternodes, best, h, fork)
             == AfterDisconnectedDownTo(old(mnodeman.mapLastPaidHeight), mnodeman.vMasternodes, best, |best|, fork)
    {
      mnodeman.OnBlockDisconnected(best[h], h, best);
    }
    ghost var undone := mnodeman.mapLastPaidHeight;
    for i := 0 to |added|
      invariant mnodeman.mapLastPaidHeight == AfterConnectedAll(undone, mnodeman.vMasternodes, added[..i], fork)
    {
      assert added[..i + 1][..i] == added[..i];
      mnodeman.OnBlockConnected(added[i], fork + i);
    }
    assert added[..|added|] == added;
  }
}
