/** CActiveMasternode: the masternode's own part in the voting. */
module ActiveMasternode {
  import opened Basics
  import opened VotingConstants
  import opened Rotation
  import opened MasternodeManager
  import opened VoteTracking

  const MASTERNODE_IS_CAPABLE := 1
  const MASTERNODE_REMOTELY_ENABLED := 9

  class ActiveMasternode {
    var status: int
    var vin: TxIn
    var strMasterNodePrivKey: string

    constructor (status: int, vin: TxIn, key: string)
      ensures this.status == status && this.vin == vin && strMasterNodePrivKey == key
    {
      this.status, this.vin, strMasterNodePrivKey := status, vin, key;
    }

    /**
     * Simulates the queue, signs it, hands it to the masternode's own tracker, and returns what is pushed to the
     * peers. `sign` is the signature over the other fields, if signing succeeds.
     */
    method BroadcastQueue(nQueueHeight: int, mnodeman: MasternodeMan, voteTracker: VoteTracker, tip: Option<int>,
                          now: int,
                          sign: VoteQueue -> Option<seq<byte>>) returns (pushed: Option<VoteQueue>)
      requires DistinctList(mnodeman.vMasternodes)
      modifies voteTracker`mapQueues, voteTracker`mapQueuesByHash
      ensures var honest := QueueAt(Members(mnodeman.vMasternodes), mnodeman.mapLastPaidHeight, nQueueHeight);
              var unsigned := VoteQueue(vin, nQueueHeight, honest, now, []);
              var capable := strMasterNodePrivKey != [] &&
                  (status == MASTERNODE_IS_CAPABLE || status == MASTERNODE_REMOTELY_ENABLED);
              pushed == if capable && tip.Some? && sign(unsigned).Some?
                        then Some(unsigned.(vchSig := sign(unsigned).value)) else None
      ensures voteTracker.Contents()
           == if pushed.Some?
             then Process(old(voteTracker.Contents()), pushed.value, Context(tip, now, voteTracker.equivocators))
              else old(voteTracker.Contents())
      ensures old(Coherent(voteTracker.Contents())) ==> Coherent(voteTracker.Contents())
      ensures pushed.Some? && tip == Some(nQueueHeight) && vin.prevout !in voteTracker.equivocators
              && old(PlaceIsOpen(voteTracker.Contents(), nQueueHeight, vin.prevout, now)) ==>
                Stored(voteTracker.mapQueues, nQueueHeight, vin.prevout) == pushed
    {
      if strMasterNodePrivKey == [] { return None; }
      if status != MASTERNODE_IS_CAPABLE && status != MASTERNODE_REMOTELY_ENABLED { return None; }
      if tip.None? { return None; }
      var queue := mnodeman.SimulatedQueue(nQueueHeight);
      assert |queue| == VOTE_QUEUE_LENGTH;
      var q := VoteQueue(vin, nQueueHeight, queue, now, []);
      var signature := sign(q);
      if signature.None? { return None; }
      q := q.(vchSig := signature.value);
      var added := voteTracker.ProcessQueue(q, tip, now);
      return Some(q);
    }
  }
}
