/**
 * CMasternodeVoteTracker: storage of the queues received, the newer-wins rule, pruning, and the
 * newest-first supermajority read. `Books` and the functions on it are the specification; the
 * class below is the code.
 */
module VoteTracking {
  import opened Basics
  import opened VotingConstants

  /** CMasternodeVoteQueue. */
  datatype VoteQueue = VoteQueue(
    voterVin: TxIn, nQueueHeight: int, vPayeeQueue: seq<Script>, nTimeSigned: int, vchSig: seq<byte>)

  /** The fields GetHash streams; a hash without collisions identifies exactly these. */
  datatype QueueId = QueueId(voterVin: TxIn, nQueueHeight: int, vPayeeQueue: seq<Script>, nTimeSigned: int)

  function GetHash(q: VoteQueue): QueueId {
    QueueId(q.voterVin, q.nQueueHeight, q.vPayeeQueue, q.nTimeSigned)
  }

  type QueuesAtHeight = map<OutPoint, VoteQueue>
  type QueueMap = map<int, QueuesAtHeight>

  /** mapQueues and mapQueuesByHash. */
  datatype Books = Books(queues: QueueMap, byHash: map<QueueId, VoteQueue>)

  /** What a node knows when a queue arrives. */
  datatype Context = Context(tip: Option<int>, now: int, equivocators: set<OutPoint>)

  function Stored(queues: QueueMap, height: int, voter: OutPoint): Option<VoteQueue> {
    if height in queues && voter in queues[height] then Some(queues[height][voter]) else None
  }

  function StoredId(queues: QueueMap, height: int, voter: OutPoint): Option<QueueId> {
    var s := Stored(queues, height, voter);
    if s.Some? then Some(GetHash(s.value)) else None
  }

  function Put(b: Books, q: VoteQueue): Books {
    var row := if q.nQueueHeight in b.queues then b.queues[q.nQueueHeight] else map[];
    Books(b.queues[q.nQueueHeight := row[q.voterVin.prevout := q]], b.byHash[GetHash(q) := q])
  }

  predicate Admissible(q: VoteQueue, c: Context) {
    && c.tip.Some?
    && c.tip.value - VOTE_PAST_HORIZON <= q.nQueueHeight <= c.tip.value + REORG_DEPTH_BUFFER
    && c.now - VOTE_TIME_WINDOW_SECONDS <= q.nTimeSigned <= c.now + VOTE_TIME_WINDOW_SECONDS
    && |q.vPayeeQueue| == VOTE_QUEUE_LENGTH
    && q.voterVin.prevout !in c.equivocators
  }

  predicate Accepts(b: Books, q: VoteQueue, c: Context) {
    var s := Stored(b.queues, q.nQueueHeight, q.voterVin.prevout);
    Admissible(q, c) && (s.Some? ==> GetHash(s.value) != GetHash(q) && s.value.nTimeSigned < q.nTimeSigned)
  }

  function Process(b: Books, q: VoteQueue, c: Context): Books {
    var s := Stored(b.queues, q.nQueueHeight, q.voterVin.prevout);
    if !Accepts(b, q, c) then b
    else Put(if s.Some? then b.(byHash := b.byHash - {GetHash(s.value)}) else b, q)
  }

  function IdsOf(row: QueuesAtHeight): set<QueueId> {
    set v | v in row :: GetHash(row[v])
  }

  /** Drops every queue height that fails the test, together with its by-hash entries. */
  function Drop(b: Books, gone: set<int>): Books {
    Books(map h | h in b.queues && h !in gone :: b.queues[h],
          b.byHash - set h, v | h in b.queues && h in gone && v in b.queues[h] :: GetHash(b.queues[h][v]))
  }

  function Connected(b: Books, height: int): Books {
    Drop(b, Below(b.queues.Keys, height - VOTE_PAST_HORIZON))
  }

  function Below(heights: set<int>, bound: int): set<int> {
    set h | h in heights && h < bound
  }

  function Disconnected(b: Books, height: int): Books {
    Drop(b, {height})
  }

  // ----- The two indices stay coherent over every run

  ghost predicate Coherent(b: Books) {
    && (forall h, v :: h in b.queues && v in b.queues[h] ==>
         var q := b.queues[h][v];
         && q.nQueueHeight == h && q.voterVin.prevout == v && |q.vPayeeQueue| == VOTE_QUEUE_LENGTH
         && GetHash(q) in b.byHash && b.byHash[GetHash(q)] == q)
    && (forall id :: id in b.byHash ==>
         && GetHash(b.byHash[id]) == id
         && Stored(b.queues, id.nQueueHeight, id.voterVin.prevout) == Some(b.byHash[id]))
  }

  datatype Event =
    | Received(queue: VoteQueue, context: Context)
    | BlockConnected(height: int)
    | BlockDisconnected(height: int)

  function Step(b: Books, e: Event): Books {
    match e
    case Received(q, c) => Process(b, q, c)
    case BlockConnected(h) => Connected(b, h)
    case BlockDisconnected(h) => Disconnected(b, h)
  }

  function Run(b: Books, events: seq<Event>): Books {
    if events == [] then b else Step(Run(b, events[..|events| - 1]), events[|events| - 1])
  }

  lemma {:induction false} ProcessKeepsCoherent(b: Books, q: VoteQueue, c: Context)
    requires Coherent(b)
    ensures Coherent(Process(b, q, c))
  {
    if Accepts(b, q, c) {
      var b' := Process(b, q, c);
      var voter := q.voterVin.prevout;
      forall h, v ensures Stored(b'.queues, h, v)
        == if h == q.nQueueHeight && v == voter then Some(q) else Stored(b.queues, h, v)
      {
        StoredAfterProcess(b, q, c, h, v);
      }
      forall h, v | h in b'.queues && v in b'.queues[h]
        ensures var r := b'.queues[h][v];
                && r.nQueueHeight == h && r.voterVin.prevout == v && |r.vPayeeQueue| == VOTE_QUEUE_LENGTH
                && GetHash(r) in b'.byHash && b'.byHash[GetHash(r)] == r
      {
        assert Stored(b'.queues, h, v) == Some(b'.queues[h][v]);
        if !(h == q.nQueueHeight && v == voter) {
          assert h in b.queues && v in b.queues[h];
        }
      }
      forall id | id in b'.byHash
        ensures GetHash(b'.byHash[id]) == id
        ensures Stored(b'.queues, id.nQueueHeight, id.voterVin.prevout) == Some(b'.byHash[id])
      {
        if id != GetHash(q) {
          assert id in b.byHash;
        }
      }
    }
  }

  lemma {:induction false} DropKeepsCoherent(b: Books, gone: set<int>)
    requires Coherent(b)
    ensures Coherent(Drop(b, gone))
  {
    var b' := Drop(b, gone);
    forall h, v | h in b'.queues && v in b'.queues[h] ensures GetHash(b'.queues[h][v]) in b'.byHash {
      assert h in b.queues && v in b.queues[h];
    }
  }

  lemma {:induction false} StepKeepsCoherent(b: Books, e: Event)
    requires Coherent(b)
    ensures Coherent(Step(b, e))
  {
    match e
    case Received(q, c) => ProcessKeepsCoherent(b, q, c);
    case BlockConnected(h) => DropKeepsCoherent(b, Below(b.queues.Keys, h - VOTE_PAST_HORIZON));
    case BlockDisconnected(h) => DropKeepsCoherent(b, {h});
  }

  /** From empty books, mapQueuesByHash holds exactly the queues of mapQueues keyed by their hash, and
      every queue sits under its own height and voter with the protocol length. */
  lemma {:induction false} RunKeepsCoherent(b: Books, events: seq<Event>)
    requires Coherent(b)
    ensures Coherent(Run(b, events))
  {
    if events != [] {
      RunKeepsCoherent(b, events[..|events| - 1]);
      StepKeepsCoherent(Run(b, events[..|events| - 1]), events[|events| - 1]);
    }
  }

  // ----- What comes to be stored

  /** A queue fits what a node knows: its height, its signing time on both sides, its length and its voter. */
  ghost predicate Fits(q: VoteQueue, c: Context) {
    && c.tip.Some? && q.nQueueHeight - REORG_DEPTH_BUFFER <= c.tip.value <= q.nQueueHeight + VOTE_PAST_HORIZON
    && -VOTE_TIME_WINDOW_SECONDS <= q.nTimeSigned - c.now <= VOTE_TIME_WINDOW_SECONDS
    && |q.vPayeeQueue| == VOTE_QUEUE_LENGTH && q.voterVin.prevout !in c.equivocators
  }

  /** A place holds nothing signed at or after a time. */
  ghost predicate PlaceIsOpen(b: Books, height: int, voter: OutPoint, time: int) {
    var s := Stored(b.queues, height, voter);
    s.Some? ==> s.value.nTimeSigned < time
  }

  /** A queue is stored exactly when it fits and its place holds nothing as recent; nothing else changes. */
  lemma {:induction false} ReceivedIsStoredIff(b: Books, q: VoteQueue, c: Context, height: int, voter: OutPoint)
    ensures var here := height == q.nQueueHeight && voter == q.voterVin.prevout;
            Stored(Process(b, q, c).queues, height, voter) ==
            if here && Fits(q, c) && PlaceIsOpen(b, height, voter, q.nTimeSigned) then Some(q)
            else Stored(b.queues, height, voter)
  {
    StoredAfterProcess(b, q, c, height, voter);
  }

  /** After any run each stored queue was received when it fitted the tip, the clock and the known equivocators. */
  lemma {:induction false} StoredFittedWhenReceived(events: seq<Event>, height: int, voter: OutPoint)
    requires Stored(Run(Books(map[], map[]), events).queues, height, voter).Some?
    ensures var q := Stored(Run(Books(map[], map[]), events).queues, height, voter).value;
            && q.nQueueHeight == height && q.voterVin.prevout == voter
            && exists i :: 0 <= i < |events| && events[i].Received? && events[i].queue == q &&
                           Fits(q, events[i].context)
  {
    var n := |events| - 1;
    var before := Run(Books(map[], map[]), events[..n]);
    var q := Stored(Run(Books(map[], map[]), events).queues, height, voter).value;
    if events[n].Received? {
      ReceivedIsStoredIff(before, events[n].queue, events[n].context, height, voter);
    }
    if Stored(before.queues, height, voter) == Some(q) {
      StoredFittedWhenReceived(events[..n], height, voter);
      var i :| 0 <= i < n && events[..n][i].Received? && events[..n][i].queue == q && Fits(q, events[..n][i].context);
      assert events[i] == events[..n][i];
    }
  }

  // ----- The horizon

  ghost predicate NoneBelow(b: Books, floor: int) {
    forall h, v :: h in b.queues && v in b.queues[h] ==> h >= floor
  }

  /** The lower bound the events guarantee: a connected block raises it, a queue received at a lower
      tip lowers it again. */
  function FloorAfter(floor: int, events: seq<Event>): int {
    if events == [] then floor
    else
      var f := FloorAfter(floor, events[..|events| - 1]);
      match events[|events| - 1]
      case Received(_, c) =>
        if c.tip.Some? && c.tip.value - VOTE_PAST_HORIZON < f then c.tip.value - VOTE_PAST_HORIZON else f
      case BlockConnected(h) => h - VOTE_PAST_HORIZON
      case BlockDisconnected(_) => f
  }

  lemma {:induction false} RunRespectsFloor(b: Books, floor: int, events: seq<Event>)
    requires NoneBelow(b, floor)
    ensures NoneBelow(Run(b, events), FloorAfter(floor, events))
  {
    if events != [] {
      RunRespectsFloor(b, floor, events[..|events| - 1]);
    }
  }

  /** While no queue is received at a tip below the last connected height, nothing lies below that
      height minus the horizon. */
  lemma {:induction false} NoneBelowLastConnected(b: Books, height: int, later: seq<Event>)
    requires forall e :: e in later ==> !e.BlockConnected?
    requires forall e :: e in later && e.Received? && e.context.tip.Some? ==> e.context.tip.value >= height
    ensures NoneBelow(Run(b, [BlockConnected(height)] + later), height - VOTE_PAST_HORIZON)
  {
    var events := [BlockConnected(height)] + later;
    if later == [] {
      assert events[..0] == [];
    } else {
      var n := |later| - 1;
      NoneBelowLastConnected(b, height, later[..n]);
      assert events[..|events| - 1] == [BlockConnected(height)] + later[..n];
    }
  }

  /** Without that proviso the bound fails: a reorganization that connects a block above the tip and then stops leaves
      the tip, and with it the window, below the height last pruned for. */
  lemma {:induction false} FloorFailsAfterPartialReorganization() returns (events: seq<Event>)
    ensures |events| == 4 && events[..3] == [BlockDisconnected(100), BlockConnected(100), BlockConnected(101)]
    ensures events[3].Received? && events[3].context.tip == Some(100)
    ensures !NoneBelow(Run(Books(map[], map[]), events), 101 - VOTE_PAST_HORIZON)
  {
    var q := AnyQueue(OutPoint(1, 0), 90);
    var empty := Books(map[], map[]);
    var hooks := [BlockDisconnected(100), BlockConnected(100), BlockConnected(101)];
    events := hooks + [Received(q, Context(Some(100), 0, {}))];
    HooksOnEmptyBooks(hooks);
    assert events[..3] == hooks;
    assert Run(empty, events) == Process(empty, q, Context(Some(100), 0, {}));
    assert 90 in Run(empty, events).queues && OutPoint(1, 0) in Run(empty, events).queues[90];
  }

  lemma {:induction false} HooksOnEmptyBooks(hooks: seq<Event>)
    requires forall e :: e in hooks ==> !e.Received?
    ensures Run(Books(map[], map[]), hooks) == Books(map[], map[])
  {
    if hooks != [] {
      HooksOnEmptyBooks(hooks[..|hooks| - 1]);
      var e := hooks[|hooks| - 1];
      assert e in hooks;
      var b := Books(map[], map[]);
      assert Step(b, e).queues == b.queues && Step(b, e).byHash == b.byHash;
    }
  }

  function AnyQueue(voter: OutPoint, height: int): (q: VoteQueue)
    ensures |q.vPayeeQueue| == VOTE_QUEUE_LENGTH && forall p :: 0 <= p < VOTE_QUEUE_LENGTH ==> q.vPayeeQueue[p] == []
  {
    VoteQueue(TxIn(voter, [], 0), height, seq(VOTE_QUEUE_LENGTH, _ => []), 0, [])
  }

  /** Receiving queues at a tip keeps a floor, whatever arrives, exactly when the tip minus the
      horizon is not below it. */
  lemma {:induction false} FloorKeptIff(b: Books, floor: int, tip: int)
    requires NoneBelow(b, floor)
    ensures (forall q, now, bad :: NoneBelow(Process(b, q, Context(Some(tip), now, bad)), floor))
       <==> tip - VOTE_PAST_HORIZON >= floor
  {
    var h := tip - VOTE_PAST_HORIZON;
    if h < floor {
      var voter := FreshVoter(if h in b.queues then b.queues[h].Keys else {});
      var q := AnyQueue(voter, h);
      var b' := Process(b, q, Context(Some(tip), 0, {}));
      assert h in b'.queues && voter in b'.queues[h];
      assert !NoneBelow(b', floor);
    }
  }

  // ----- The tip itself, through reorganizations that complete or stop part way

  /** The books and the height of pindexBest. */
  datatype Node = Node(books: Books, tip: int)

  /** A queue arrives; the tip advances, after initial download; the node changes to another branch; or it tries to, and
      stops after the hooks of the blocks above `down` taken out and of those up to `up` put in. */
  datatype NodeStep =
    | Receive(queue: VoteQueue, now: int, equivocators: set<OutPoint>)
    | Advance(to: int)
    | SwitchTo(fork: int, to: int)
    | StopPartWay(down: int, up: int)

  predicate CanTake(n: Node, s: NodeStep) {
    match s
    case Receive(_, _, _) => true
    case Advance(to) => to >= n.tip
    case SwitchTo(fork, to) => fork <= n.tip && fork < to
    case StopPartWay(down, up) => down <= n.tip && down <= up
  }

  function DisconnectedDownTo(b: Books, from: int, fork: int): Books
    decreases from - fork
  {
    if from <= fork then b else DisconnectedDownTo(Disconnected(b, from), from - 1, fork)
  }

  function ConnectedUpTo(b: Books, fork: int, reached: int): Books
    decreases reached - fork
  {
    if reached <= fork then b else Connected(ConnectedUpTo(b, fork, reached - 1), reached)
  }

  /** All hooks of a reorganization come while pindexBest is the old tip; it moves at the end, if all went well. */
  function Take(n: Node, s: NodeStep): Node {
    match s
    case Receive(q, now, equivocators) => n.(books := Process(n.books, q, Context(Some(n.tip), now, equivocators)))
    case Advance(to) => Node(Connected(n.books, to), to)
    case SwitchTo(fork, to) => Node(ConnectedUpTo(DisconnectedDownTo(n.books, n.tip, fork), fork, to), to)
    case StopPartWay(down, up) => n.(books := ConnectedUpTo(DisconnectedDownTo(n.books, n.tip, down), down, up))
  }

  function TakeAll(n: Node, steps: seq<NodeStep>): Node {
    if steps == [] then n else Take(TakeAll(n, steps[..|steps| - 1]), steps[|steps| - 1])
  }

  ghost predicate CanTakeAll(n: Node, steps: seq<NodeStep>) {
    steps == [] ||
    (CanTakeAll(n, steps[..|steps| - 1]) && CanTake(TakeAll(n, steps[..|steps| - 1]), steps[|steps| - 1]))
  }

  lemma {:induction false} DisconnectingKeepsFloor(b: Books, from: int, fork: int, floor: int)
    requires NoneBelow(b, floor)
    ensures NoneBelow(DisconnectedDownTo(b, from, fork), floor)
    decreases from - fork
  {
    if from > fork {
      DisconnectingKeepsFloor(Disconnected(b, from), from - 1, fork, floor);
    }
  }

  lemma {:induction false} ConnectingKeepsFloor(b: Books, fork: int, reached: int, floor: int)
    requires NoneBelow(b, floor)
    ensures NoneBelow(ConnectedUpTo(b, fork, reached), floor)
    decreases reached - fork
  {
    if reached > fork {
      ConnectingKeepsFloor(b, fork, reached - 1, floor);
    }
  }

  lemma {:induction false} ConnectingPrunes(b: Books, fork: int, reached: int)
    requires fork < reached
    ensures NoneBelow(ConnectedUpTo(b, fork, reached), reached - VOTE_PAST_HORIZON)
  {
  }

  /** However the tip moves, also back, and wherever reorganizations stop, no stored queue lies below the tip minus
      the horizon. */
  lemma {:induction false} NoneBelowTip(n: Node, steps: seq<NodeStep>)
    requires NoneBelow(n.books, n.tip - VOTE_PAST_HORIZON) && CanTakeAll(n, steps)
    ensures var after := TakeAll(n, steps); NoneBelow(after.books, after.tip - VOTE_PAST_HORIZON)
  {
    if steps != [] {
      var before, s := TakeAll(n, steps[..|steps| - 1]), steps[|steps| - 1];
      NoneBelowTip(n, steps[..|steps| - 1]);
      StepKeepsTipFloor(before, s);
    }
  }

  lemma {:induction false} StepKeepsTipFloor(n: Node, s: NodeStep)
    requires NoneBelow(n.books, n.tip - VOTE_PAST_HORIZON) && CanTake(n, s)
    ensures NoneBelow(Take(n, s).books, Take(n, s).tip - VOTE_PAST_HORIZON)
  {
    match s
    case Receive(_, _, _) =>
    case Advance(_) =>
    case SwitchTo(fork, to) =>
      ConnectingPrunes(DisconnectedDownTo(n.books, n.tip, fork), fork, to);
    case StopPartWay(down, up) =>
      DisconnectingKeepsFloor(n.books, n.tip, down, n.tip - VOTE_PAST_HORIZON);
      ConnectingKeepsFloor(DisconnectedDownTo(n.books, n.tip, down), down, up, n.tip - VOTE_PAST_HORIZON);
  }

  lemma {:induction false} FreshVoter(taken: set<OutPoint>) returns (o: OutPoint)
    ensures o !in taken
  {
    var bound := HashBound(taken);
    o := OutPoint(bound, 0);
  }

  lemma {:induction false} HashBound(taken: set<OutPoint>) returns (bound: nat)
    ensures forall o :: o in taken ==> o.hash < bound
    decreases |taken|
  {
    bound := 0;
    if taken != {} {
      var o :| o in taken;
      bound := HashBound(taken - {o});
      bound := if o.hash < bound then bound else o.hash + 1;
    }
  }

  // ----- Delivery order does not matter

  function Deliver(b: Books, qs: seq<VoteQueue>, c: Context): Books {
    if qs == [] then b else Process(Deliver(b, qs[..|qs| - 1], c), qs[|qs| - 1], c)
  }

  /** The queues that compete for one place: the one stored at first and the admissible ones delivered. */
  ghost predicate Competes(b: Books, qs: seq<VoteQueue>, c: Context, height: int, voter: OutPoint, q: VoteQueue) {
    || Stored(b.queues, height, voter) == Some(q)
    || (q in qs && Admissible(q, c) && q.nQueueHeight == height && q.voterVin.prevout == voter)
  }

  ghost predicate HoldsLatest(b: Books, qs: seq<VoteQueue>, c: Context, height: int, voter: OutPoint,
                              s: Option<VoteQueue>) {
    match s
    case None => forall q :: !Competes(b, qs, c, height, voter, q)
    case Some(w) =>
      && Competes(b, qs, c, height, voter, w)
      && forall q :: Competes(b, qs, c, height, voter, q) ==> q.nTimeSigned <= w.nTimeSigned
  }

  /** Whatever the order of delivery, each place ends up with a latest-signed competitor. */
  lemma {:induction false} LatestIsStored(b: Books, qs: seq<VoteQueue>, c: Context, height: int, voter: OutPoint)
    requires Coherent(b)
    ensures HoldsLatest(b, qs, c, height, voter, Stored(Deliver(b, qs, c).queues, height, voter))
  {
    if qs != [] {
      var n := |qs| - 1;
      LatestIsStored(b, qs[..n], c, height, voter);
      assert qs == qs[..n] + [qs[n]];
      var before := Deliver(b, qs[..n], c);
      forall q ensures Competes(b, qs, c, height, voter, q) <==>
        (Competes(b, qs[..n], c, height, voter, q)
         || (q == qs[n] && Admissible(q, c) && q.nQueueHeight == height && q.voterVin.prevout == voter))
      {
      }
      StoredAfterProcess(before, qs[n], c, height, voter);
    }
  }

  lemma {:induction false} StoredAfterProcess(b: Books, q: VoteQueue, c: Context, height: int, voter: OutPoint)
    ensures Stored(Process(b, q, c).queues, height, voter)
         == if Accepts(b, q, c) && q.nQueueHeight == height && q.voterVin.prevout == voter then Some(q)
            else Stored(b.queues, height, voter)
  {
  }

  /** Equal signing times of one voter and height mean equal hashes. */
  ghost predicate TimesIdentify(b: Books, qs: seq<VoteQueue>, c: Context) {
    forall h, v, p, q ::
      Competes(b, qs, c, h, v, p) && Competes(b, qs, c, h, v, q) && p.nTimeSigned == q.nTimeSigned ==>
          GetHash(p) == GetHash(q)
  }

  /** Any two orders (and multiplicities) of the same queues leave the same stored queues, up to signature bytes. */
  lemma {:induction false} DeliveryOrderIsIrrelevant(b: Books, qs: seq<VoteQueue>, rs: seq<VoteQueue>, c: Context,
                                                     height: int, voter: OutPoint)
    requires Coherent(b) && (forall q :: q in qs <==> q in rs) && TimesIdentify(b, qs, c)
    ensures StoredId(Deliver(b, qs, c).queues, height, voter) == StoredId(Deliver(b, rs, c).queues, height, voter)
  {
    LatestIsStored(b, qs, c, height, voter);
    LatestIsStored(b, rs, c, height, voter);
    assert forall q :: Competes(b, qs, c, height, voter, q) <==> Competes(b, rs, c, height, voter, q);
  }

  // ----- The supermajority read

  ghost function VotersFor(row: QueuesAtHeight, position: nat, payee: Script): set<OutPoint> {
    set v | v in row && position < |row[v].vPayeeQueue| && row[v].vPayeeQueue[position] == payee
  }

  predicate ClearsThreshold(votes: int, eligible: int) {
    votes * VOTED_CONSENSUS_THRESHOLD_DENOMINATOR >= eligible * VOTED_CONSENSUS_THRESHOLD_NUMERATOR
  }

  ghost predicate ClearsAt(row: QueuesAtHeight, position: nat, eligible: int, payee: Script) {
    VotersFor(row, position, payee) != {} && ClearsThreshold(|VotersFor(row, position, payee)|, eligible)
  }

  ghost predicate SoleClearer(row: QueuesAtHeight, position: nat, eligible: int, payee: Script) {
    ClearsAt(row, position, eligible, payee) && forall o :: ClearsAt(row, position, eligible, o) ==> o == payee
  }

  /** The one payee clearing the threshold at a position, if there is exactly one. */
  ghost function ConsensusAt(row: QueuesAtHeight, position: nat, eligible: int): (r: Option<Script>)
    ensures r.Some? ==> SoleClearer(row, position, eligible, r.value)
    ensures r.None? ==> forall p :: !SoleClearer(row, position, eligible, p)
  {
    if exists p :: SoleClearer(row, position, eligible, p) then
      var p :| SoleClearer(row, position, eligible, p);
      Some(p)
    else None
  }

  /** The walk over queue heights from `height` down to the oldest that covers the target. */
  ghost function WalkFrom(queues: QueueMap, target: int, eligible: int, height: int): Option<Script>
    requires height < target
    decreases height - (target - VOTE_QUEUE_LENGTH) + 1
  {
    if height < target - VOTE_QUEUE_LENGTH then None
    else if height in queues && ConsensusAt(queues[height], target - 1 - height, eligible).Some? then
      ConsensusAt(queues[height], target - 1 - height, eligible)
    else WalkFrom(queues, target, eligible, height - 1)
  }

  ghost function Winner(queues: QueueMap, target: int, tip: Option<int>, eligible: int): Option<Script> {
    if tip.None? || tip.value < target - VOTE_COMMIT_BUFFER || eligible < MIN_ENABLED_FOR_CONSENSUS then None
    else WalkFrom(queues, target, eligible, target - 1)
  }

  lemma {:induction false} WalkWitness(queues: QueueMap, target: int, eligible: int, height: int) returns (from: int)
    requires height < target && WalkFrom(queues, target, eligible, height).Some?
    ensures target - VOTE_QUEUE_LENGTH <= from <= height && from in queues
    ensures SoleClearer(queues[from], target - 1 - from, eligible, WalkFrom(queues, target, eligible, height).value)
    decreases height - (target - VOTE_QUEUE_LENGTH) + 1
  {
    if height in queues && ConsensusAt(queues[height], target - 1 - height, eligible).Some? {
      from := height;
    } else {
      from := WalkWitness(queues, target, eligible, height - 1);
    }
  }

  /** One payee alone clears the threshold among the queues of a height, at the place they give the target. */
  ghost predicate Decides(queues: QueueMap, target: int, eligible: int, height: int, payee: Script) {
    height < target && height in queues && SoleClearer(queues[height], target - 1 - height, eligible, payee)
  }

  ghost predicate NothingDecidesAbove(queues: QueueMap, target: int, eligible: int, height: int) {
    forall h, o :: height < h < target ==> !Decides(queues, target, eligible, h, o)
  }

  /** The newest height at which anybody decides. */
  ghost predicate Newest(queues: QueueMap, target: int, eligible: int, height: int, payee: Script) {
    Decides(queues, target, eligible, height, payee) && NothingDecidesAbove(queues, target, eligible, height)
  }

  lemma {:induction false} WalkIsNewestFirst(queues: QueueMap, target: int, eligible: int, height: int)
    requires height < target && NothingDecidesAbove(queues, target, eligible, height)
    ensures var r := WalkFrom(queues, target, eligible, height);
            if r.Some? then
              exists from :: target - VOTE_QUEUE_LENGTH <= from < target &&
                             Newest(queues, target, eligible, from, r.value)
            else NothingDecidesAbove(queues, target, eligible, target - VOTE_QUEUE_LENGTH - 1)
    decreases height - (target - VOTE_QUEUE_LENGTH) + 1
  {
    hide SoleClearer;
    if height >= target - VOTE_QUEUE_LENGTH {
      if height in queues && ConsensusAt(queues[height], target - 1 - height, eligible).Some? {
        var r := ConsensusAt(queues[height], target - 1 - height, eligible);
        assert Newest(queues, target, eligible, height, r.value);
      } else {
        WalkIsNewestFirst(queues, target, eligible, height - 1);
      }
    }
  }

  /** A payee is read for a target exactly when the tip is near enough to it, enough voters are eligible, and of the
      queue heights that cover it the newest one at which anybody decides decides for that payee. */
  lemma {:induction false} WinnerIff(queues: QueueMap, target: int, tip: Option<int>, eligible: int, payee: Script)
    ensures Winner(queues, target, tip, eligible) == Some(payee) <==>
            && tip.Some? && tip.value >= target - VOTE_COMMIT_BUFFER && eligible >= MIN_ENABLED_FOR_CONSENSUS
            && exists from :: target - VOTE_QUEUE_LENGTH <= from < target &&
                              Newest(queues, target, eligible, from, payee)
    ensures Winner(queues, target, tip, eligible) == None <==>
            || tip.None? || tip.value < target - VOTE_COMMIT_BUFFER || eligible < MIN_ENABLED_FOR_CONSENSUS
            || forall h, o :: target - VOTE_QUEUE_LENGTH <= h < target ==> !Decides(queues, target, eligible, h, o)
  {
    WalkIsNewestFirst(queues, target, eligible, target - 1);
    var r := WalkFrom(queues, target, eligible, target - 1);
    forall f, g, o, p | Newest(queues, target, eligible, f, o) && Newest(queues, target, eligible, g, p)
      ensures o == p {
      assert f == g;
    }
    if f :| Newest(queues, target, eligible, f, payee) && r.Some? {
      var g :| target - VOTE_QUEUE_LENGTH <= g < target && Newest(queues, target, eligible, g, r.value);
    }
  }

  /** The winner depends on which payees each voter named, not on how the books came about. */
  lemma {:induction false} SameIdsSameWalk(p: QueueMap, q: QueueMap, target: int, eligible: int, height: int)
    requires height < target
    requires forall h, v :: StoredId(p, h, v) == StoredId(q, h, v)
    ensures WalkFrom(p, target, eligible, height) == WalkFrom(q, target, eligible, height)
    decreases height - (target - VOTE_QUEUE_LENGTH) + 1
  {
    if height >= target - VOTE_QUEUE_LENGTH {
      SameIdsSameWalk(p, q, target, eligible, height - 1);
      var position := target - 1 - height;
      var rowP := if height in p then p[height] else map[];
      var rowQ := if height in q then q[height] else map[];
      forall payee ensures VotersFor(rowP, position, payee) == VotersFor(rowQ, position, payee) {
        forall v ensures v in VotersFor(rowP, position, payee) <==> v in VotersFor(rowQ, position, payee) {
          assert StoredId(p, height, v) == StoredId(q, height, v);
        }
      }
      SameVotesSameConsensus(rowP, rowQ, position, eligible);
    }
  }

  lemma {:induction false} SameVotesSameConsensus(p: QueuesAtHeight, q: QueuesAtHeight, position: nat, eligible: int)
    requires forall payee :: VotersFor(p, position, payee) == VotersFor(q, position, payee)
    ensures ConsensusAt(p, position, eligible) == ConsensusAt(q, position, eligible)
  {
    forall payee ensures ClearsAt(p, position, eligible, payee) == ClearsAt(q, position, eligible, payee) {
      assert VotersFor(p, position, payee) == VotersFor(q, position, payee);
    }
    forall payee ensures SoleClearer(p, position, eligible, payee) == SoleClearer(q, position, eligible, payee) {
      assert ClearsAt(p, position, eligible, payee) == ClearsAt(q, position, eligible, payee);
    }
    var a, b := ConsensusAt(p, position, eligible), ConsensusAt(q, position, eligible);
    assert a.Some? ==> SoleClearer(q, position, eligible, a.value);
    assert b.Some? ==> SoleClearer(p, position, eligible, b.value);
  }

  /** Two nodes that received the same queues in any order read the same winner. */
  lemma {:induction false} DeliveryOrderKeepsWinner(b: Books, qs: seq<VoteQueue>, rs: seq<VoteQueue>, c: Context,
                                                    target: int, tip: Option<int>, eligible: int)
    requires Coherent(b) && (forall q :: q in qs <==> q in rs) && TimesIdentify(b, qs, c)
    ensures Winner(Deliver(b, qs, c).queues, target, tip, eligible) ==
            Winner(Deliver(b, rs, c).queues, target, tip, eligible)
  {
    forall h, v ensures StoredId(Deliver(b, qs, c).queues, h, v) == StoredId(Deliver(b, rs, c).queues, h, v) {
      DeliveryOrderIsIrrelevant(b, qs, rs, c, h, v);
    }
    SameIdsSameWalk(Deliver(b, qs, c).queues, Deliver(b, rs, c).queues, target, eligible, target - 1);
  }

  // ----- Quorum

  ghost predicate SharedVotersAgree(a: QueuesAtHeight, b: QueuesAtHeight) {
    forall v :: v in a && v in b ==> a[v].vPayeeQueue == b[v].vPayeeQueue
  }

  /** Two payees cannot both clear the threshold, even at two nodes, when the voters they hold together
      number at most the eligible ones and no voter told them different queues. */
  lemma {:induction false} QuorumsIntersect(a: QueuesAtHeight, b: QueuesAtHeight, position: nat, eligible: int,
                                            x: Script, y: Script)
    requires SharedVotersAgree(a, b) && |a.Keys + b.Keys| <= eligible
    requires ClearsAt(a, position, eligible, x) && ClearsAt(b, position, eligible, y)
    ensures x == y
  {
    var vx, vy := VotersFor(a, position, x), VotersFor(b, position, y);
    assert x != y ==> vx !! vy;
    assert x != y ==> |vx + vy| == |vx| + |vy|;
    SubsetSize(vx + vy, a.Keys + b.Keys);
  }

  /** Hence at one node the contested case cannot arise. */
  lemma {:induction false} AtMostOneClears(row: QueuesAtHeight, position: nat, eligible: int, payee: Script)
    requires |row| <= eligible && ClearsAt(row, position, eligible, payee)
    ensures ConsensusAt(row, position, eligible) == Some(payee)
  {
    assert row.Keys + row.Keys == row.Keys && |row.Keys| == |row|;
    forall o | ClearsAt(row, position, eligible, o) ensures o == payee {
      QuorumsIntersect(row, row, position, eligible, o, payee);
    }
    assert SoleClearer(row, position, eligible, payee);
  }

  /** The least number of votes that clears. */
  function Threshold(eligible: nat): (t: nat)
    ensures forall n :: ClearsThreshold(n, eligible) <==> n >= t
    ensures 5 * (t - 1) < 3 * eligible <= 5 * t
  {
    (eligible * VOTED_CONSENSUS_THRESHOLD_NUMERATOR + VOTED_CONSENSUS_THRESHOLD_DENOMINATOR - 1)
      / VOTED_CONSENSUS_THRESHOLD_DENOMINATOR
  }

  /** The voters whose stored queue is not the given one. */
  ghost function Deviants(row: QueuesAtHeight, honest: seq<Script>): set<OutPoint> {
    set v | v in row && row[v].vPayeeQueue != honest
  }

  /** With fewer deviants than the threshold, only the honest queue's payee can clear. */
  lemma {:induction false} OnlyHonestClears(row: QueuesAtHeight, honest: seq<Script>, position: nat, eligible: nat,
                                            payee: Script)
    requires position < |honest| && |Deviants(row, honest)| < Threshold(eligible)
    requires ClearsAt(row, position, eligible, payee)
    ensures payee == honest[position]
  {
    if payee != honest[position] {
      SubsetSize(VotersFor(row, position, payee), Deviants(row, honest));
    }
  }

  /** And with a threshold of honest queues the read does decide there. */
  lemma {:induction false} HonestQuorumDecides(row: QueuesAtHeight, honest: seq<Script>, position: nat, eligible: nat)
    requires position < |honest| && 0 < eligible
    requires |Deviants(row, honest)| < Threshold(eligible) <= |row.Keys - Deviants(row, honest)|
    ensures ConsensusAt(row, position, eligible) == Some(honest[position])
  {
    var voters := VotersFor(row, position, honest[position]);
    SubsetSize(row.Keys - Deviants(row, honest), voters);
    assert ClearsAt(row, position, eligible, honest[position]);
    forall o | ClearsAt(row, position, eligible, o) ensures o == honest[position] {
      OnlyHonestClears(row, honest, position, eligible, o);
    }
    assert SoleClearer(row, position, eligible, honest[position]);
  }

  /** An empty payee wins like any other: three of five voters that found no eligible masternode decide for it. */
  lemma {:induction false} EmptyPayeeCanWin(height: int) returns (row: QueuesAtHeight)
    ensures |row| == 3 && forall v :: v in row ==> row[v] == AnyQueue(v, height)
    ensures Winner(map[height := row], height + 1, Some(height), 5) == Some([])
  {
    var a, b, c := OutPoint(1, 0), OutPoint(2, 0), OutPoint(3, 0);
    row := map[a := AnyQueue(a, height), b := AnyQueue(b, height), c := AnyQueue(c, height)];
    assert row.Keys == {a, b, c} && |row| == |row.Keys|;
    assert VotersFor(row, 0, []) == {a, b, c};
    assert ClearsAt(row, 0, 5, []);
    AtMostOneClears(row, 0, 5, []);
  }

  // ----- The code

  class VoteTracker {
    var mapQueues: QueueMap
    var mapQueuesByHash: map<QueueId, VoteQueue>
    /** The keys of mapEquivocators. */
    var equivocators: set<OutPoint>

    ghost function Contents(): Books
      reads this
    {
      Books(mapQueues, mapQueuesByHash)
    }

    constructor ()
      ensures Contents() == Books(map[], map[]) && equivocators == {} && Coherent(Contents())
    {
      mapQueues, mapQueuesByHash, equivocators := map[], map[], {};
    }

    method ProcessQueue(q: VoteQueue, tip: Option<int>, now: int) returns (added: bool)
      modifies `mapQueues, `mapQueuesByHash
      ensures added == Accepts(old(Contents()), q, Context(tip, now, equivocators))
      ensures Contents() == Process(old(Contents()), q, Context(tip, now, equivocators))
      ensures added <==> Fits(q, Context(tip, now, equivocators)) &&
                         old(PlaceIsOpen(Contents(), q.nQueueHeight, q.voterVin.prevout, q.nTimeSigned))
      ensures old(Coherent(Contents())) ==> Coherent(Contents())
    {
      StepKeepsCoherentIf(Contents(), Received(q, Context(tip, now, equivocators)));
      if tip.None? { return false; }
      var currentTip := tip.value;
      if q.nQueueHeight > currentTip + REORG_DEPTH_BUFFER { return false; }
      if q.nQueueHeight < currentTip - VOTE_PAST_HORIZON { return false; }
      if q.nTimeSigned > now + VOTE_TIME_WINDOW_SECONDS { return false; }
      if q.nTimeSigned < now - VOTE_TIME_WINDOW_SECONDS { return false; }
      if |q.vPayeeQueue| != VOTE_QUEUE_LENGTH { return false; }
      var voter := q.voterVin.prevout;
      if voter in equivocators { return false; }
      var row := map[];
      if q.nQueueHeight in mapQueues {
        row := mapQueues[q.nQueueHeight];
        if voter in row {
          var existing := row[voter];
          if GetHash(existing) == GetHash(q) { return false; }
          if q.nTimeSigned > existing.nTimeSigned {
            mapQueuesByHash := mapQueuesByHash - {GetHash(existing)};
            mapQueues := mapQueues[q.nQueueHeight := row[voter := q]];
            mapQueuesByHash := mapQueuesByHash[GetHash(q) := q];
            return true;
          }
          return false;
        }
      }
      mapQueues := mapQueues[q.nQueueHeight := row[voter := q]];
      mapQueuesByHash := mapQueuesByHash[GetHash(q) := q];
      return true;
    }

    /** Erases the by-hash entries of every queue of one height. */
    method EraseHashes(row: QueuesAtHeight)
      modifies `mapQueuesByHash
      ensures mapQueuesByHash == old(mapQueuesByHash) - IdsOf(row)
    {
      var todo := row.Keys;
      while todo != {}
        invariant todo <= row.Keys
        invariant mapQueuesByHash == old(mapQueuesByHash) - (set v | v in row && v !in todo :: GetHash(row[v]))
        decreases |todo|
      {
        var v :| v in todo;
        mapQueuesByHash := mapQueuesByHash - {GetHash(row[v])};
        todo := todo - {v};
      }
    }

    /** Erases one queue height from both indices. */
    method EraseHeight(h: int)
      requires h in mapQueues
      modifies `mapQueues, `mapQueuesByHash
      ensures Contents() == Drop(old(Contents()), {h})
    {
      DropOne(Contents(), h);
      EraseHashes(mapQueues[h]);
      mapQueues := mapQueues - {h};
    }

    /** The pruning loop. */
    method Prune(pruneBelow: int)
      modifies `mapQueues, `mapQueuesByHash
      ensures Contents() == Drop(old(Contents()), Below(old(mapQueues).Keys, pruneBelow))
    {
      ghost var start := Contents();
      ghost var seen: set<int> := {};
      var todo := mapQueues.Keys;
      DropNothing(start);
      assert Below(seen, pruneBelow) == {};
      while todo != {}
        invariant todo !! seen && todo + seen == start.queues.Keys
        invariant Contents() == Drop(start, Below(seen, pruneBelow))
        decreases |todo|
      {
        ghost var some := AnElement(todo);
        var h :| h in todo;
        BelowGrows(seen, pruneBelow, h);
        if h < pruneBelow {
          DropTwice(start, Below(seen, pruneBelow), h);
          EraseHeight(h);
        }
        todo := todo - {h};
        seen := seen + {h};
      }
      assert seen == start.queues.Keys;
    }

    method OnBlockConnectedQueues(nBlockHeight: int)
      modifies `mapQueues, `mapQueuesByHash
      ensures Contents() == Connected(old(Contents()), nBlockHeight)
      ensures old(Coherent(Contents())) ==> Coherent(Contents())
      ensures forall h, v :: Stored(mapQueues, h, v) ==
                             if h < nBlockHeight - VOTE_PAST_HORIZON then None else Stored(old(mapQueues), h, v)
    {
      StepKeepsCoherentIf(Contents(), BlockConnected(nBlockHeight));
      Prune(nBlockHeight - VOTE_PAST_HORIZON);
    }

    method OnBlockDisconnectedQueues(nBlockHeight: int)
      modifies `mapQueues, `mapQueuesByHash
      ensures Contents() == Disconnected(old(Contents()), nBlockHeight)
      ensures forall h, v :: Stored(mapQueues, h, v) == if h == nBlockHeight then None else Stored(old(mapQueues), h, v)
      ensures old(Coherent(Contents())) ==> Coherent(Contents())
    {
      StepKeepsCoherentIf(Contents(), BlockDisconnected(nBlockHeight));
      if nBlockHeight in mapQueues {
        EraseHeight(nBlockHeight);
      } else {
        DropAbsent(Contents(), nBlockHeight);
      }
    }

    method AlreadyHaveQueue(hash: QueueId) returns (have: bool)
      requires Coherent(Contents())
      ensures have <==> StoredId(mapQueues, hash.nQueueHeight, hash.voterVin.prevout) == Some(hash)
    {
      have := hash in mapQueuesByHash;
    }

    method GetQueueByHash(hash: QueueId) returns (r: Option<VoteQueue>)
      requires Coherent(Contents())
      ensures r == if StoredId(mapQueues, hash.nQueueHeight, hash.voterVin.prevout) == Some(hash)
                   then Stored(mapQueues, hash.nQueueHeight, hash.voterVin.prevout) else None
    {
      if hash !in mapQueuesByHash { return None; }
      return Some(mapQueuesByHash[hash]);
    }

    /** CountVotingEligible(nTargetHeight) arrives as a parameter. */
    method GetCanonicalWinnerFromQueues(nTargetHeight: int, tip: Option<int>, eligibleVoters: int)
        returns (payee: Option<Script>)
      ensures payee == Winner(mapQueues, nTargetHeight, tip, eligibleVoters)
    {
      if tip.None? { return None; }
      if tip.value < nTargetHeight - VOTE_COMMIT_BUFFER { return None; }
      if eligibleVoters < MIN_ENABLED_FOR_CONSENSUS { return None; }
      var qh := nTargetHeight - 1;
      while qh >= nTargetHeight - VOTE_QUEUE_LENGTH
        invariant qh < nTargetHeight
        invariant WalkFrom(mapQueues, nTargetHeight, eligibleVoters, nTargetHeight - 1)
               == WalkFrom(mapQueues, nTargetHeight, eligibleVoters, qh)
        decreases qh - (nTargetHeight - VOTE_QUEUE_LENGTH) + 1
      {
        if qh in mapQueues {
          var position := nTargetHeight - 1 - qh;
          var tally := Tally(mapQueues[qh], position);
          var winner := CountClearers(mapQueues[qh], position, tally, eligibleVoters);
          if winner.Some? { return winner; }
        }
        qh := qh - 1;
      }
      return None;
    }
  }

  lemma {:induction false} StepKeepsCoherentIf(b: Books, e: Event)
    ensures Coherent(b) ==> Coherent(Step(b, e))
  {
    if Coherent(b) {
      StepKeepsCoherent(b, e);
    }
  }

  lemma {:induction false} DropNothing(b: Books)
    ensures Drop(b, {}) == b
  {
  }

  lemma {:induction false} BelowGrows(seen: set<int>, bound: int, h: int)
    requires h !in seen
    ensures h !in Below(seen, bound)
    ensures Below(seen + {h}, bound) == if h < bound then Below(seen, bound) + {h} else Below(seen, bound)
  {
  }

  lemma {:induction false} DropAbsent(b: Books, h: int)
    requires h !in b.queues
    ensures Drop(b, {h}) == b
  {
  }

  lemma {:induction false} DropOne(b: Books, h: int)
    requires h in b.queues
    ensures Drop(b, {h}) == Books(b.queues - {h}, b.byHash - IdsOf(b.queues[h]))
  {
  }

  lemma {:induction false} DropTwice(b: Books, gone: set<int>, h: int)
    requires h in b.queues && h !in gone
    ensures h in Drop(b, gone).queues
    ensures Drop(Drop(b, gone), {h}) == Drop(b, gone + {h})
  {
  }

  ghost predicate IsTally(row: QueuesAtHeight, position: nat, tally: map<Script, set<OutPoint>>) {
    && (forall p :: p in tally ==> tally[p] == VotersFor(row, position, p) && tally[p] != {})
    && (forall p :: VotersFor(row, position, p) != {} ==> p in tally)
  }

  /** The voters of one queue height, grouped by the payee they name at a position. */
  method Tally(row: QueuesAtHeight, position: nat) returns (tally: map<Script, set<OutPoint>>)
    ensures IsTally(row, position, tally)
  {
    hide IsTally, VotersFor;
    NothingTallied(position);
    tally := map[];
    var todo := row.Keys;
    ghost var seen: QueuesAtHeight := map[];
    while todo != {}
      invariant todo <= row.Keys
      invariant seen == map v | v in row && v !in todo :: row[v]
      invariant IsTally(seen, position, tally)
      decreases |todo|
    {
      var v :| v in todo;
      todo := todo - {v};
      ghost var before := seen;
      seen := seen[v := row[v]];
      if position < |row[v].vPayeeQueue| {
        var payee := row[v].vPayeeQueue[position];
        var voters := if payee in tally then tally[payee] else {};
        TallyStep(before, position, v, row[v], tally);
        tally := tally[payee := voters + {v}];
      } else {
        ShortQueueIsNoVote(before, position, v, row[v], tally);
      }
    }
    assert seen == row;
  }

  lemma {:induction false} NothingTallied(position: nat)
    ensures IsTally(map[], position, map[])
  {
  }

  lemma {:induction false} ShortQueueIsNoVote(row: QueuesAtHeight, position: nat, v: OutPoint, q: VoteQueue,
                                              tally: map<Script, set<OutPoint>>)
    requires v !in row && position >= |q.vPayeeQueue| && IsTally(row, position, tally)
    ensures IsTally(row[v := q], position, tally)
  {
    assert forall p :: VotersFor(row[v := q], position, p) == VotersFor(row, position, p);
  }

  lemma {:induction false} TallyStep(row: QueuesAtHeight, position: nat, v: OutPoint, q: VoteQueue,
                                     tally: map<Script, set<OutPoint>>)
    requires v !in row && position < |q.vPayeeQueue| && IsTally(row, position, tally)
    ensures var payee := q.vPayeeQueue[position];
            IsTally(row[v := q], position, tally[payee := (if payee in tally then tally[payee] else {}) + {v}])
  {
    var payee := q.vPayeeQueue[position];
    var row' := row[v := q];
    forall p
      ensures VotersFor(row', position, p) ==
              if p == payee then VotersFor(row, position, p) + {v} else VotersFor(row, position, p) {
    }
    assert VotersFor(row, position, payee) == if payee in tally then tally[payee] else {};
  }

  ghost function Clearers(tally: map<Script, set<OutPoint>>, payees: set<Script>, eligible: int): set<Script> {
    set p | p in payees && p in tally && ClearsThreshold(|tally[p]|, eligible)
  }

  lemma {:induction false} ClearersDecide(row: QueuesAtHeight, position: nat, tally: map<Script, set<OutPoint>>,
                                          eligible: int)
    requires IsTally(row, position, tally)
    ensures var clearers := Clearers(tally, tally.Keys, eligible);
            && (forall p :: clearers == {p} ==> ConsensusAt(row, position, eligible) == Some(p))
            && (|clearers| != 1 ==> ConsensusAt(row, position, eligible) == None)
  {
    var clearers := Clearers(tally, tally.Keys, eligible);
    forall p ensures p in clearers <==> ClearsAt(row, position, eligible, p) {
    }
    forall p ensures clearers == {p} <==> SoleClearer(row, position, eligible, p) {
    }
  }

  lemma {:induction false} NoneClears(tally: map<Script, set<OutPoint>>, eligible: int)
    ensures Clearers(tally, {}, eligible) == {}
  {
  }

  lemma {:induction false} ClearersGrow(tally: map<Script, set<OutPoint>>, payees: set<Script>, eligible: int,
                                        p: Script)
    requires p in tally && p !in payees
    ensures var before := Clearers(tally, payees, eligible);
            && p !in before
            && Clearers(tally, payees + {p}, eligible) ==
                 if ClearsThreshold(|tally[p]|, eligible) then before + {p} else before
  {
  }

  /** The supermajority and uniqueness rule. */
  method CountClearers(row: QueuesAtHeight, position: nat, tally: map<Script, set<OutPoint>>, eligible: int)
      returns (winner: Option<Script>)
    requires IsTally(row, position, tally)
    ensures winner == ConsensusAt(row, position, eligible)
  {
    var count, best := ScanTally(tally, eligible);
    ClearersDecide(row, position, tally, eligible);
    if count == 1 {
      SubsetSize({best}, Clearers(tally, tally.Keys, eligible));
      winner := Some(best);
    } else {
      winner := None;
    }
  }

  method ScanTally(tally: map<Script, set<OutPoint>>, eligible: int) returns (nClearingCount: int, bestPayee: Script)
    ensures nClearingCount == |Clearers(tally, tally.Keys, eligible)|
    ensures nClearingCount > 0 ==> bestPayee in Clearers(tally, tally.Keys, eligible)
  {
    hide Clearers;
    NoneClears(tally, eligible);
    var nBestVotes := -1;
    nClearingCount, bestPayee := 0, [];
    var todo := tally.Keys;
    ghost var seen: set<Script> := {};
    while todo != {}
      invariant todo !! seen && todo + seen == tally.Keys
      invariant nClearingCount == |Clearers(tally, seen, eligible)|
      invariant nClearingCount == 0 ==> nBestVotes == -1
      invariant nClearingCount > 0 ==> bestPayee in Clearers(tally, seen, eligible)
      decreases |todo|
    {
      var p :| p in todo;
      ClearersGrow(tally, seen, eligible, p);
      var voteCount := |tally[p]|;
      if ClearsThreshold(voteCount, eligible) {
        nClearingCount := nClearingCount + 1;
        if voteCount > nBestVotes {
          nBestVotes, bestPayee := voteCount, p;
        }
      }
      todo := todo - {p};
      seen := seen + {p};
    }
    assert seen == tally.Keys;
  }
}
