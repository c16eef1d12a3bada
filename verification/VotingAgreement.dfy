/**
 * The voting protocol as a whole: rotation, cache, stored queues and the supermajority read together
 * name one payee per height.
 */
module Agreement {
  import opened Basics
  import opened VotingConstants
  import opened Rotation
  import opened MasternodeManager
  import opened VoteTracking

  /** A payee script identifies a masternode, and none is empty. */
  ghost predicate DistinctPayees(list: seq<Masternode>) {
    && DistinctList(list)
    && (forall m :: m in list ==> m.payeeScript != [])
    && (forall a, b :: a in list && b in list && a.payeeScript == b.payeeScript ==> a == b)
  }

  ghost predicate PaysOneListed(list: seq<Masternode>, b: Block) {
    forall x, y :: x in list && y in list && Pays(b, x.payeeScript) && Pays(b, y.payeeScript) ==> x == y
  }

  /** The block after height h pays what the queue of height h predicts first, or no masternode when that is empty. */
  ghost predicate PaysPrediction(list: seq<Masternode>, paid: map<OutPoint, int>, h: int, b: Block) {
    var payee := QueueAt(Members(list), paid, h)[0];
    && PaysOneListed(list, b)
    && if payee != [] then Pays(b, payee) else forall m :: m in list ==> !Pays(b, m.payeeScript)
  }

  /** Recording such a block advances the cache exactly as the simulation does. */
  lemma {:induction false} ConnectedIsSimulated(list: seq<Masternode>, paid: map<OutPoint, int>, h: int, b: Block)
    requires DistinctPayees(list) && PaysPrediction(list, paid, h, b)
    ensures AfterConnected(paid, list, b, h + 1) == Pay(paid, NextPick(Members(list), paid, h + 1), h + 1)
  {
    QueueEntry(Members(list), paid, h, 0);
    var pick := NextPick(Members(list), paid, h + 1);
    var outs := PaymentOutputs(b);
    FirstPaidIsPaid(list, outs);
    var first := FirstPaid(list, outs);
    if pick.Some? {
      PickIsMember(Members(list), paid, h + 1);
      var m :| m in list && AsMember(m) == pick.value;
      assert Pays(b, m.payeeScript);
      var o :| o in outs && OutputPays(o, m.payeeScript);
      assert first.Some?;
      assert Pays(b, first.value.payeeScript);
      assert first.value == m;
    } else {
      assert forall m :: m in list && first == Some(m) ==> Pays(b, m.payeeScript);
    }
  }

  /** The cache after connecting the first k blocks on top of height `base`. */
  function CacheAt(list: seq<Masternode>, paid: map<OutPoint, int>, base: int, blocks: seq<Block>,
                   k: nat): map<OutPoint, int>
    requires k <= |blocks|
    decreases k, list
  {
    if k == 0 then paid
    else CacheAt(list, AfterConnected(paid, list, blocks[0], base + 1), base + 1, blocks[1..], k - 1)
  }

  /** Every block pays what the queue of the height before it predicts first. */
  ghost predicate Honoured(list: seq<Masternode>, paid: map<OutPoint, int>, base: int, blocks: seq<Block>)
    decreases |blocks|
  {
    blocks != [] ==>
      && PaysPrediction(list, paid, base, blocks[0])
      && Honoured(list, AfterConnected(paid, list, blocks[0], base + 1), base + 1, blocks[1..])
  }

  lemma {:induction false} CacheIsSimulated(list: seq<Masternode>, paid: map<OutPoint, int>, base: int,
                                            blocks: seq<Block>, k: nat)
    requires DistinctPayees(list) && Honoured(list, paid, base, blocks) && k <= |blocks|
    ensures CacheAt(list, paid, base, blocks, k) == PaidAfter(Members(list), paid, base + 1, k)
    decreases k
  {
    if k > 0 {
      ConnectedIsSimulated(list, paid, base, blocks[0]);
      CacheIsSimulated(list, AfterConnected(paid, list, blocks[0], base + 1), base + 1, blocks[1..], k - 1);
    }
  }

  /** The queue an honest masternode broadcasts once k of the blocks are connected. */
  ghost function HonestQueue(list: seq<Masternode>, paid: map<OutPoint, int>, base: int, blocks: seq<Block>,
                             k: nat): (q: seq<Script>)
    requires k <= |blocks|
    ensures |q| == VOTE_QUEUE_LENGTH
  {
    QueueAt(Members(list), CacheAt(list, paid, base, blocks, k), base + k)
  }

  /** Shift consistency on real caches: any two queue heights covering a target name the same payee. */
  lemma {:induction false} HonestQueuesShift(list: seq<Masternode>, paid: map<OutPoint, int>, base: int,
                                             blocks: seq<Block>, k: nat, p: nat)
    requires DistinctPayees(list) && Honoured(list, paid, base, blocks) && k <= |blocks|
    requires p + k < VOTE_QUEUE_LENGTH
    ensures HonestQueue(list, paid, base, blocks, k)[p] == HonestQueue(list, paid, base, blocks, 0)[p + k]
  {
    CacheIsSimulated(list, paid, base, blocks, k);
    QueuesAgree(Members(list), paid, base, p, k);
  }

  /** Shift consistency over one block. */
  lemma {:induction false} NextQueueShifts(list: seq<Masternode>, paid: map<OutPoint, int>, h: int, b: Block, p: nat)
    requires DistinctPayees(list) && PaysPrediction(list, paid, h, b) && p + 1 < VOTE_QUEUE_LENGTH
    ensures QueueAt(Members(list), AfterConnected(paid, list, b, h + 1), h + 1)[p] ==
            QueueAt(Members(list), paid, h)[p + 1]
  {
    ConnectedIsSimulated(list, paid, h, b);
    QueueShift(Members(list), paid, h, p);
  }

  /** At every queue height covering the target, fewer than a threshold of stored voters deviate. */
  ghost predicate FewDeviants(queues: QueueMap, list: seq<Masternode>, paid: map<OutPoint, int>, blocks: seq<Block>,
                              target: int, eligible: nat)
    requires |blocks| == VOTE_QUEUE_LENGTH - 1
  {
    var base := target - VOTE_QUEUE_LENGTH;
    forall k :: 0 <= k < VOTE_QUEUE_LENGTH && base + k in queues ==>
      |Deviants(queues[base + k], HonestQueue(list, paid, base, blocks, k))| < Threshold(eligible)
  }

  /** The payee the rotation assigns to the target: the last entry of the oldest queue that covers it. */
  ghost function AssignedPayee(list: seq<Masternode>, paid: map<OutPoint, int>, target: int): Script {
    QueueAt(Members(list), paid, target - VOTE_QUEUE_LENGTH)[VOTE_QUEUE_LENGTH - 1]
  }

  /** Validity: whatever queue height decides, the winner is the payee the rotation assigns. */
  lemma {:induction false} WinnerIsAssigned(queues: QueueMap, list: seq<Masternode>, paid: map<OutPoint, int>,
                                            blocks: seq<Block>,
                                            target: int, tip: Option<int>, eligible: nat)
    requires |blocks| == VOTE_QUEUE_LENGTH - 1 && DistinctPayees(list)
    requires Honoured(list, paid, target - VOTE_QUEUE_LENGTH, blocks)
    requires FewDeviants(queues, list, paid, blocks, target, eligible)
    requires Winner(queues, target, tip, eligible).Some?
    ensures Winner(queues, target, tip, eligible) == Some(AssignedPayee(list, paid, target))
  {
    var base := target - VOTE_QUEUE_LENGTH;
    var from := WalkWitness(queues, target, eligible, target - 1);
    var k := from - base;
    assert base + k in queues;
    var payee := Winner(queues, target, tip, eligible).value;
    OnlyHonestClears(queues[from], HonestQueue(list, paid, base, blocks, k), target - 1 - from, eligible, payee);
    HonestQueuesShift(list, paid, base, blocks, k, target - 1 - from);
  }

  /** Agreement: nodes with different stored queues, tips and counts of eligible voters, stopping at different queue
      heights, never return different payees. */
  lemma {:induction false} NodesAgree(a: QueueMap, b: QueueMap, list: seq<Masternode>, paid: map<OutPoint, int>,
                                      blocks: seq<Block>,
                                      target: int, tipA: Option<int>, tipB: Option<int>, eligibleA: nat, eligibleB: nat)
    requires |blocks| == VOTE_QUEUE_LENGTH - 1 && DistinctPayees(list)
    requires Honoured(list, paid, target - VOTE_QUEUE_LENGTH, blocks)
    requires FewDeviants(a, list, paid, blocks, target, eligibleA) &&
             FewDeviants(b, list, paid, blocks, target, eligibleB)
    ensures var x, y := Winner(a, target, tipA, eligibleA), Winner(b, target, tipB, eligibleB);
            x.Some? && y.Some? ==> x == y
  {
    if Winner(a, target, tipA, eligibleA).Some? && Winner(b, target, tipB, eligibleB).Some? {
      WinnerIsAssigned(a, list, paid, blocks, target, tipA, eligibleA);
      WinnerIsAssigned(b, list, paid, blocks, target, tipB, eligibleB);
    }
  }

  /** A threshold of honest queues at one covering height is enough for a winner. */
  lemma {:induction false} HonestQuorumYieldsWinner(queues: QueueMap, honest: seq<Script>, target: int, tip: int,
                                                    eligible: nat, qh: int)
    requires tip >= target - VOTE_COMMIT_BUFFER && eligible >= MIN_ENABLED_FOR_CONSENSUS
    requires |honest| == VOTE_QUEUE_LENGTH && target - VOTE_QUEUE_LENGTH <= qh < target && qh in queues
    requires |Deviants(queues[qh], honest)| < Threshold(eligible) <= |queues[qh].Keys - Deviants(queues[qh], honest)|
    ensures Winner(queues, target, Some(tip), eligible).Some?
  {
    HonestQuorumDecides(queues[qh], honest, target - 1 - qh, eligible);
    WalkReaches(queues, target, eligible, target - 1, qh);
  }

  lemma {:induction false} WalkReaches(queues: QueueMap, target: int, eligible: int, height: int, qh: int)
    requires target - VOTE_QUEUE_LENGTH <= qh <= height < target
    requires qh in queues && ConsensusAt(queues[qh], target - 1 - qh, eligible).Some?
    ensures WalkFrom(queues, target, eligible, height).Some?
    decreases height - qh
  {
    if height > qh && !(height in queues && ConsensusAt(queues[height], target - 1 - height, eligible).Some?) {
      WalkReaches(queues, target, eligible, height - 1, qh);
    }
  }

  // ----- Whole runs, with faulty voters

  /** A queue under the name of an honest voter is the one that voter broadcast at its height; under the name of a
      faulty voter it may say anything, and different things to different nodes. */
  ghost predicate Authentic(q: VoteQueue, faulty: set<OutPoint>, list: seq<Masternode>, paid: map<OutPoint, int>,
                            base: int, blocks: seq<Block>) {
    q.voterVin.prevout in faulty
    || (base <= q.nQueueHeight <= base + |blocks| ==>
        q.vPayeeQueue == HonestQueue(list, paid, base, blocks, q.nQueueHeight - base))
  }

  ghost predicate AuthenticEvents(events: seq<VoteTracking.Event>, faulty: set<OutPoint>, list: seq<Masternode>,
                                  paid: map<OutPoint, int>,
                                  base: int, blocks: seq<Block>) {
    forall e :: e in events && e.Received? ==> Authentic(e.queue, faulty, list, paid, base, blocks)
  }

  ghost predicate StoresAuthentic(queues: QueueMap, faulty: set<OutPoint>, list: seq<Masternode>,
                                  paid: map<OutPoint, int>,
                                  base: int, blocks: seq<Block>) {
    forall h, v :: h in queues && v in queues[h] ==> Authentic(queues[h][v], faulty, list, paid, base, blocks)
  }

  /** The books of a node that started empty. */
  function BooksAfter(events: seq<VoteTracking.Event>): Books {
    VoteTracking.Run(Books(map[], map[]), events)
  }

  lemma {:induction false} RunStoresAuthentic(events: seq<VoteTracking.Event>, faulty: set<OutPoint>,
                                              list: seq<Masternode>, paid: map<OutPoint, int>,
                                              base: int, blocks: seq<Block>)
    requires AuthenticEvents(events, faulty, list, paid, base, blocks)
    ensures StoresAuthentic(BooksAfter(events).queues, faulty, list, paid, base, blocks)
  {
    hide Authentic;
    if events != [] {
      var last := |events| - 1;
      RunStoresAuthentic(events[..last], faulty, list, paid, base, blocks);
      var before, after := BooksAfter(events[..last]), BooksAfter(events);
      forall h, v | h in after.queues && v in after.queues[h]
        ensures Authentic(after.queues[h][v], faulty, list, paid, base, blocks) {
        if events[last].Received? {
          StoredAfterProcess(before, events[last].queue, events[last].context, h, v);
          assert Stored(after.queues, h, v) == Some(after.queues[h][v]);
          assert events[last] in events;
        }
      }
    }
  }

  /** With fewer faulty voters than the threshold, whatever a node receives leaves few deviants. */
  lemma {:induction false} FewFaultyFewDeviants(events: seq<VoteTracking.Event>, faulty: set<OutPoint>,
                                                list: seq<Masternode>, paid: map<OutPoint, int>,
                                                blocks: seq<Block>, target: int, eligible: nat)
    requires |blocks| == VOTE_QUEUE_LENGTH - 1 && |faulty| < Threshold(eligible)
    requires AuthenticEvents(events, faulty, list, paid, target - VOTE_QUEUE_LENGTH, blocks)
    ensures FewDeviants(BooksAfter(events).queues, list, paid, blocks, target, eligible)
  {
    hide HonestQueue, Deviants, AuthenticEvents, BooksAfter, Threshold;
    var base := target - VOTE_QUEUE_LENGTH;
    var queues := BooksAfter(events).queues;
    forall k: nat | k < VOTE_QUEUE_LENGTH && base + k in queues
      ensures |Deviants(queues[base + k], HonestQueue(list, paid, base, blocks, k))| < Threshold(eligible)
    {
      DeviantsAreFaulty(events, faulty, list, paid, base, blocks, k);
      SubsetSize(Deviants(queues[base + k], HonestQueue(list, paid, base, blocks, k)), faulty);
    }
  }

  lemma {:induction false} DeviantsAreFaulty(events: seq<VoteTracking.Event>, faulty: set<OutPoint>,
                                             list: seq<Masternode>, paid: map<OutPoint, int>,
                                             base: int, blocks: seq<Block>, k: nat)
    requires AuthenticEvents(events, faulty, list, paid, base, blocks)
    requires k <= |blocks| && base + k in BooksAfter(events).queues
    ensures Deviants(BooksAfter(events).queues[base + k], HonestQueue(list, paid, base, blocks, k)) <= faulty
  {
    RunStoresAuthentic(events, faulty, list, paid, base, blocks);
    RunKeepsCoherent(Books(map[], map[]), events);
    hide HonestQueue, AuthenticEvents, VoteTracking.Run;
    var row := BooksAfter(events).queues[base + k];
    forall v | v in Deviants(row, HonestQueue(list, paid, base, blocks, k)) ensures v in faulty {
      assert Authentic(row[v], faulty, list, paid, base, blocks);
      assert row[v].nQueueHeight == base + k && row[v].voterVin.prevout == v;
    }
  }

  /** Safety of the protocol over every run: two nodes that receive any authentic queues, in any order, with losses,
      repetitions, connections and disconnections in between, never read different payees for a height, and what
      either reads is the payee the rotation assigns. */
  lemma {:induction false} ProtocolIsSafe(a: seq<VoteTracking.Event>, b: seq<VoteTracking.Event>, faulty: set<OutPoint>,
                                          list: seq<Masternode>,
                                          paid: map<OutPoint, int>, blocks: seq<Block>, target: int, tipA: Option<int>,
                                              tipB: Option<int>,
                                          eligibleA: nat, eligibleB: nat)
    requires |blocks| == VOTE_QUEUE_LENGTH - 1 && DistinctPayees(list)
    requires |faulty| < Threshold(eligibleA) && |faulty| < Threshold(eligibleB)
    requires Honoured(list, paid, target - VOTE_QUEUE_LENGTH, blocks)
    requires AuthenticEvents(a, faulty, list, paid, target - VOTE_QUEUE_LENGTH, blocks)
    requires AuthenticEvents(b, faulty, list, paid, target - VOTE_QUEUE_LENGTH, blocks)
    ensures var x, y := Winner(BooksAfter(a).queues, target, tipA, eligibleA),
            Winner(BooksAfter(b).queues, target, tipB, eligibleB);
            && (x.Some? ==> x == Some(AssignedPayee(list, paid, target)))
            && (x.Some? && y.Some? ==> x == y)
  {
    FewFaultyFewDeviants(a, faulty, list, paid, blocks, target, eligibleA);
    FewFaultyFewDeviants(b, faulty, list, paid, blocks, target, eligibleB);
    NodesAgree(BooksAfter(a).queues, BooksAfter(b).queues, list, paid, blocks, target, tipA, tipB, eligibleA,
               eligibleB);
    if Winner(BooksAfter(a).queues, target, tipA, eligibleA).Some? {
      WinnerIsAssigned(BooksAfter(a).queues, list, paid, blocks, target, tipA, eligibleA);
    }
  }

  /** And a node past the commit point that stores a threshold of honest voters at one covering height does read
      the assigned payee, whatever else it received. */
  lemma {:induction false} ProtocolDecides(events: seq<VoteTracking.Event>, faulty: set<OutPoint>,
                                           list: seq<Masternode>,
                                           paid: map<OutPoint, int>, blocks: seq<Block>, target: int, tip: int,
                                               eligible: nat, k: nat)
    requires |blocks| == VOTE_QUEUE_LENGTH - 1 && DistinctPayees(list) && |faulty| < Threshold(eligible)
    requires Honoured(list, paid, target - VOTE_QUEUE_LENGTH, blocks)
    requires AuthenticEvents(events, faulty, list, paid, target - VOTE_QUEUE_LENGTH, blocks)
    requires tip >= target - VOTE_COMMIT_BUFFER && eligible >= MIN_ENABLED_FOR_CONSENSUS && k < VOTE_QUEUE_LENGTH
    requires target - VOTE_QUEUE_LENGTH + k in BooksAfter(events).queues
    requires |BooksAfter(events).queues[target - VOTE_QUEUE_LENGTH + k].Keys - faulty| >= Threshold(eligible)
    ensures Winner(BooksAfter(events).queues, target, Some(tip), eligible) == Some(AssignedPayee(list, paid, target))
  {
    hide HonestQueue, Deviants, AuthenticEvents, BooksAfter, Threshold, Winner, Honoured, DistinctPayees, FewDeviants,
         AssignedPayee;
    var base := target - VOTE_QUEUE_LENGTH;
    var queues := BooksAfter(events).queues;
    var honest := HonestQueue(list, paid, base, blocks, k);
    var row := queues[base + k];
    FewFaultyFewDeviants(events, faulty, list, paid, blocks, target, eligible);
    DeviantsAreFaulty(events, faulty, list, paid, base, blocks, k);
    SubsetSize(Deviants(row, honest), faulty);
    SubsetSize(row.Keys - faulty, row.Keys - Deviants(row, honest));
    HonestQuorumYieldsWinner(queues, honest, target, tip, eligible, base + k);
    WinnerIsAssigned(queues, list, paid, blocks, target, Some(tip), eligible);
  }
}
