# DigitalNote core: a verified model

This project models the parts of the DigitalNote node whose correctness rests on several data structures or several
nodes agreeing with each other, and proves what they are for.

* **Masternode voting** (`Rotation`, `RotationOrder`, `QueueSimulation`, `MasternodeManager`, `Reorganization`, `VoteTracking`, `ActiveMasternode`, `Agreement`; files `Voting*.dfy`). Each masternode
  simulates the payment rotation from a snapshot of chain-derived paid heights and broadcasts the next payees as a queue;
  receivers keep one queue per voter and height and read the payee of a height by a newest-first supermajority walk. The
  rotation is specified over the set of masternodes, so that list order cannot matter. The main results are that any winner
  is the payee the rotation assigns, that two nodes never return different payees over any
  run with fewer faulty voters than the threshold, that payments do not come in streaks,
  that delivery order is irrelevant, and when exactly the last-paid cache agrees with the chain.
* **Address manager** (`AddressTables`, `AddressManager`, `AddressCheck`, `AddressFile`; files
  `PeerAddress*.dfy`). Six redundant structures kept in
  step by every operation. The elementary changes are functions on a value that holds all six, each proved to keep the
  invariant; the class does what the code does and is proved against them. The invariant is compared with the program's
  own self-test, and saving followed by loading restores it.
* **Memory pool** (`MemoryPool`). Recursive removal terminates and takes exactly the descendants; the spend index is exact.
* **Spent-output ledger** (`Ledger`, `Transaction`, `CoinbaseHeight`, `BlockLedger`, `MoneySupply`, `BlockConnection`, `SupplyHistory`). Connecting takes over
  exactly the named slots, disconnecting restores them, for single transactions, whole blocks and runs of blocks; the
  recorded money supply is the value of the unspent outputs. That no transaction enters the index twice is proved from
  the rule that a coinbase begins with the height of its block and from what connecting marks as spent.
* **Codecs and locator** (`Base58`, `VarInt`, `ScriptCompressor`, `Locator`). Round trips with their exact conditions, the
  capacity bound of the Base58 buffer, one encoding per number, and how close a block locator comes to a fork.

`Basics` and `Arithmetic` hold shared definitions. Code that updates state in place is a class or a method with loops,
proved against specification functions; the lemmas are about those functions.

## Assumptions made explicit

* Hash functions do not collide: a queue is identified by the fields GetHash streams, a transaction by its hash.
* Randomness and the bucket hashes of the address manager are arbitrary values in range.
* Where scripts identify masternodes, payee scripts are distinct and a block pays at most one listed masternode.
* Spending is acyclic in the memory pool: there is a numbering in which parents come before children.
* Recovering a public key from its short form inverts taking the short form of a valid key.
* Signature checks, maturity, block rewards and coin age enter connecting a block as given functions.

The bodies of the block functions are in `src/cblock.cpp`, which is not UTF-8 throughout, so the table cites their
declarations: `CheckBlock` at lines 1190-2006, `ConnectBlock` at 584-751 with the recorded supply at 730-732, and
`DisconnectBlock` at 551-561 of that file; the height rule is in `AcceptBlock` at 2331-2339, which is the only way to
`ConnectBlock`. Disconnecting a block with a transaction that was in the index already would not bring the old entry back
(`BlockRoundTripIff`); the height rule is what keeps such blocks out (`BlockIsNew`, `OnlyHeightRuleStopsRepeats`).

## Where the code and what is written about it differ

The model follows the code.

* `src/main.cpp:1863-1886` calls the disconnection hook while the best tip is still the old one (it moves at
  `src/cblock.cpp:955`), so the recomputation finds the payment being undone and the cache keeps it. The comments at
  `src/cmasternodeman.cpp:2288-2300` rely on the roll-back. `RunKeepsExact` states the intended reading, with a tip that
  has moved; `ReorganizedEntryExactIff` and `RunEntryExactIff` state exactly when entries are right as the calls are made,
  and `ReorganizationLeavesStaleEntry` gives a failing chain. A reorganization that stops part way leaves the heights of
  blocks it had connected: `StoppedEntryExactIff`, `RunEntryIsRecorded`. A masternode that is stale at one node makes its honest
  queues differ from those of nodes that never saw the abandoned branch (`QueuesAgreeUnlessStale`); in the safety
  theorem such a voter counts among the faulty ones.
* The one-pass scan never ends early although comments at `src/cmasternodeman.cpp:1818-1825` say so; it also attests the
  payment slot of every block it walks.
* The comment at `src/cmasternodevotetracker.cpp:27-29` measures pruning from the current tip, the hook from the block
  connected. No stored queue ever lies below the tip minus the horizon (`NoneBelowTip`), but one can lie below the
  height last connected minus the horizon, after a reorganization that connects a block above the tip and stops:
  `FloorFailsAfterPartialReorganization`, `FloorKeptIff`.
* The comment at `src/cactivemasternode.cpp:1080-1084` says an empty payee cannot win; the tally does not exclude it:
  `EmptyPayeeCanWin`.
* The comment at `src/cmasternodevotetracker.cpp:266-272` says a second queue with another hash is recorded and rejected;
  the code below it lets a newer queue replace an older one and marks nobody. The comment at lines 309-310 speaks of a
  5/7 supermajority; the constants of `src/masternode.h` say 3/5.
* `SelectTried` returns the position where the first least recently successful inspected entry was found, not where the
  swap has put it (`src/caddrman.cpp:86-97`): `SelectsOldestIff`, `SomeDrawsMiss`.
* Decoding Base58 skips the leading '1's at `src/base58.cpp:30-34` and counts them again from the advanced pointer at
  `src/base58.cpp:76-80`, so leading zero bytes are lost, although `src/test/base58_tests.cpp` expects them back:
  `DecodeOfEncode`, `RoundTripIff`, `LeadingZerosAreLost`.

## Model

| member | source | states |
|---|---|---|
| Rotation.PickIsSelection | src/cactivemasternode.cpp:1018-1094 | Entry p of the simulated queue is the choice the selector makes at that entry's reference height once the p earlier picks have been paid. |
| Rotation.OldestExists | src/cactivemasternode.cpp:1079-1087 | A pick exists exactly when the eligible pool is not empty; an empty entry is emitted otherwise. |
| QueueSimulation.LeaderIsNextPick | src/cactivemasternode.cpp:1025-1077 | Whatever order the candidates are scanned in, the scan's leader is the oldest of the eligible set. |
| QueueSimulation.PickForPosition | src/cactivemasternode.cpp:1020-1077 | The candidate loop for one position finds the eligible candidate of lowest rank, ties broken by the smaller outpoint, or nothing. |
| QueueSimulation.CopyPaidHeights | src/cactivemasternode.cpp:1007-1016 | The simulation starts from exactly the paid heights the snapshot carries. |
| QueueSimulation.SimulateQueue | src/cactivemasternode.cpp:1002-1097 | The nested loops always return VOTE_QUEUE_LENGTH entries, namely the rotation over the set of masternodes in the snapshot. |
| QueueSimulation.EntryIsFilledIff | src/cactivemasternode.cpp:1079-1087 | A queue entry names a masternode exactly when some candidate is eligible at its reference height; otherwise it is empty. |
| QueueSimulation.ListOrderIsIrrelevant | src/cactivemasternode.cpp:970-1000 | Two nodes that list the same masternodes in different orders compute the same queue. |
| QueueSimulation.PaidHeightsAreOrderFree | src/cactivemasternode.cpp:1007-1016 | With distinct outpoints the starting paid heights do not depend on the order of the snapshot. |
| RotationOrder.RankAfter | src/cactivemasternode.cpp:1045-1057 | During the simulation a rank is the latest pick's target height, or the snapshot's rank when there was no pick yet. |
| RotationOrder.NoPaymentStreak | src/cactivemasternode.cpp:1089-1093 | Between two picks of one masternode, every other masternode eligible at the second pick is picked. |
| RotationOrder.PicksAreSpaced | src/cactivemasternode.cpp:1089-1093 | With a constant eligible set of size k, two picks of one masternode are at least k positions apart. |
| RotationOrder.RotationIsPeriodic | src/cactivemasternode.cpp:970-985 | With a constant eligible set of size k the rotation has period k. |
| Rotation.QueueShift | src/cactivemasternode.cpp:1018-1094 | Once the first pick is paid at its height, the next queue is this queue shifted by one place. |
| Rotation.QueuesAgree | src/cactivemasternode.cpp:1018-1094 | Any two queue heights that cover a target height name the same payee for it, if the picks in between were paid. |
| Rotation.IsPickedIff | src/cactivemasternode.cpp:1018-1077 | A masternode is picked for a target exactly when its collateral, confirmed at c >= 0, is deep enough (the target is at least c + 37 and above 20) and every other one deep enough was paid later, or confirmed later where never paid, equal heights going by outpoint. |
| Rotation.LoneMemberIsAssignedIff | src/cactivemasternode.cpp:1029-1041 | Alone in the roster, a masternode is assigned to exactly the targets from that height on, and the entry is empty for all others. |
| Rotation.QueueNamesOnlyMature | src/cactivemasternode.cpp:1029-1041 | No queue entry names a masternode before its collateral is deep enough below the target, or without a height. |
| Rotation.YoungCollateralWaits | src/cmasternode.cpp:344-366 | A masternode confirmed at 990 and never paid comes before one paid at 1000 from target 1027 on, and not before. |
| VoteTracking.ProcessKeepsCoherent | src/cmasternodevotetracker.cpp:272-346 | Accepting or refusing a queue keeps the two indices in step: the by-hash map holds exactly the stored queues under their own hashes. |
| VoteTracking.RunKeepsCoherent | src/cmasternodevotetracker.cpp:185-554 | Over every run of received queues, connected and disconnected blocks, the indices agree and every queue lies under its own height and voter with the protocol length. |
| VoteTracking.ReceivedIsStoredIff | src/cmasternodevotetracker.cpp:185-350 | A received queue is stored exactly when its height lies within both bounds of the tip, its signing time within the window on both sides of the clock, its length is right, its voter no known equivocator and its place holds nothing signed as late; nothing else changes. |
| VoteTracking.StoredFittedWhenReceived | src/cmasternodevotetracker.cpp:185-350 | After any run each stored queue was received in some event when it fitted the tip, the clock and the equivocators of that event. |
| VoteTracking.RunRespectsFloor | src/cmasternodevotetracker.cpp:502-528 | No stored queue ever lies below the floor set by the last connection and the tips at which queues arrived since. |
| VoteTracking.NoneBelowLastConnected | src/cmasternodevotetracker.cpp:502-528 | While queues arrive at tips no lower than the last connected height, none is stored below that height minus the horizon. |
| VoteTracking.FloorFailsAfterPartialReorganization | src/main.cpp:1900-1925 | A reorganization from tip 100 that connects 100 and 101 and stops lets a queue for 90 be stored, below the last connected height minus the horizon. |
| VoteTracking.FloorKeptIff | src/cmasternodevotetracker.cpp:190-216 | Receiving whatever queue at a tip keeps a floor if and only if the tip minus the horizon is not below that floor. |
| VoteTracking.NoneBelowTip | src/main.cpp:1863-1925 | However the tip moves, also to lower branches, and wherever reorganizations stop part way, no stored queue lies below the tip minus the horizon. |
| VoteTracking.LatestIsStored | src/cmasternodevotetracker.cpp:305-346 | Whatever the order of delivery, each height and voter ends up with a latest-signed admissible queue, or with none if there was none. |
| VoteTracking.DeliveryOrderIsIrrelevant | src/cmasternodevotetracker.cpp:185-356 | Two deliveries of the same queues in any order and multiplicity leave the same stored queues up to signature bytes, if equal signing times of one voter and height mean equal hashes. |
| VoteTracking.DeliveryOrderKeepsWinner | src/cmasternodevotetracker.cpp:359-500 | Two nodes that received the same queues in any order read the same winner. |
| VoteTracking.QuorumsIntersect | src/cmasternodevotetracker.cpp:423-482 | Two payees cannot both clear the threshold, even at two nodes, when no voter told the nodes different queues and their voters together are at most the eligible ones. |
| VoteTracking.AtMostOneClears | src/cmasternodevotetracker.cpp:440-482 | With at most as many stored voters as eligible ones, a payee that clears is the consensus: the contested case cannot arise. |
| VoteTracking.OnlyHonestClears | src/cmasternodevotetracker.cpp:423-482 | If fewer voters than the threshold store another queue, only the payee of the given queue can clear. |
| VoteTracking.HonestQuorumDecides | src/cmasternodevotetracker.cpp:423-482 | A threshold of voters with one queue, and fewer deviants than the threshold, decide for that queue's payee. |
| VoteTracking.EmptyPayeeCanWin | src/cmasternodevotetracker.cpp:423-482 | Three of five eligible voters whose queues are empty at a position make the empty script the winner. |
| VoteTracking.WinnerIff | src/cmasternodevotetracker.cpp:359-500 | A payee is read exactly when the tip is within the commit buffer, at least five voters are eligible, and the newest covering queue height at which any payee decides decides for it; nothing is read when no covering height decides. |
| VoteTracking.VoteTracker.ProcessQueue | src/cmasternodevotetracker.cpp:185-357 | The method accepts exactly the admissible queues that are newer than what is stored, updates both maps as specified, and keeps them coherent. |
| VoteTracking.VoteTracker.OnBlockConnectedQueues | src/cmasternodevotetracker.cpp:502-528 | Pruning removes exactly the queue heights below the horizon from both maps. |
| VoteTracking.VoteTracker.OnBlockDisconnectedQueues | src/cmasternodevotetracker.cpp:530-554 | Disconnection removes exactly the queues of that height from both maps. |
| VoteTracking.VoteTracker.AlreadyHaveQueue | src/cmasternodevotetracker.cpp:130-135 | On coherent books the by-hash answer is whether a queue of that identity is stored under its height and voter. |
| VoteTracking.VoteTracker.GetQueueByHash | src/cmasternodevotetracker.cpp:137-150 | On coherent books the queue returned is the one stored under the height and voter of the hash. |
| VoteTracking.VoteTracker.GetCanonicalWinnerFromQueues | src/cmasternodevotetracker.cpp:359-500 | The newest-first walk returns the sole payee clearing the threshold at the newest covering queue height where there is exactly one. |
| VoteTracking.Tally | src/cmasternodevotetracker.cpp:423-437 | The tally groups every stored voter under the payee named at the position, and nothing else. |
| VoteTracking.CountClearers | src/cmasternodevotetracker.cpp:440-482 | The counting loop returns the consensus of a row of queues: a payee only when it is the only one that clears. |
| MasternodeManager.RunKeepsExact | src/cmasternodeman.cpp:1681-1802 | As the roll-back is described, with the tip moved before the hook: over any run of connect, disconnect, add and remove every entry of a listed masternode is its greatest paying height. |
| MasternodeManager.ShortChainAbsentIffNeverPaid | src/cmasternodeman.cpp:1804-1924 | While no chain longer than the scan depth was seen, an entry is absent if and only if the masternode was never paid. |
| MasternodeManager.ConnectKeepsExact | src/cmasternodeman.cpp:1681-1737 | Recording a connected block keeps the cache exact. |
| MasternodeManager.DisconnectKeepsExact | src/cmasternodeman.cpp:1739-1802 | Rolling a block back after the tip moved keeps the cache exact. |
| MasternodeManager.AddKeepsExact | src/cmasternodeman.cpp:50-83 | Adding a masternode and recomputing its entry keeps the cache exact. |
| MasternodeManager.DisconnectAtOldTipChangesNothing | src/main.cpp:1863-1886 | Called as the reorganization calls it, before the best tip moves, the disconnection hook finds the payment being undone and changes nothing. |
| MasternodeManager.OldTipEntryExactIff | src/main.cpp:1863-1886 | Called that way for the tip block, within the reach of the scan, an entry is exact for the shortened chain if and only if that block did not pay the masternode. |
| Reorganization.ReorganizedEntryExactIff | src/main.cpp:1863-1925 | After a whole reorganization from an exact cache, with the tip moving last, an entry is exact if and only if a block added pays the masternode or no block taken out did. |
| Reorganization.RunEntryExactIff | src/main.cpp:1863-1925 | Over any run of connections, completed reorganizations, additions and removals, an entry is exact if and only if the masternode is not stale: its last payment taken out and, since then, neither paid nor added anew. |
| Reorganization.RunAbsentIffNeverPaid | src/main.cpp:1863-1925 | After any such run, on chains within the scan depth, a masternode has no entry if and only if it is not stale and no block of the chain pays it. |
| Reorganization.RunEntryIsRecorded | src/main.cpp:1863-1925 | After any run, from whatever cache, also of reorganizations that stop part way or fork below the reach of the scan, an entry is the height recorded by the blocks that pay the masternode and nothing else. |
| Reorganization.StoppedEntryExactIff | src/main.cpp:1900-1925 | After a reorganization that stopped, an entry is exact if and only if the last added payment lies at the height of the last payment in the chain that stayed; or there was none, and the entry was exact or was looked up anew. |
| Reorganization.StoppedSwitchLeavesForeignEntry | src/main.cpp:1900-1925 | A reorganization that connects two blocks and stops leaves an entry at a height the chain does not have. |
| Reorganization.HooksAreIdle | src/main.cpp:1863-1886 | All the disconnection hooks of a reorganization together change nothing, also on a cache with stale entries. |
| Reorganization.ReorganizationLeavesStaleEntry | src/main.cpp:1863-1925 | On a chain of two blocks the tip that paid the one listed masternode is exchanged for one that pays somebody else, and the entry still names that height. |
| Reorganization.QueuesAgreeUnlessStale | src/cactivemasternode.cpp:1131-1135 | Two nodes that came to the same chain by whatever completed reorganizations compute the same queue if no listed masternode is stale at either. |
| Reorganization.QueuesAgreeIfRecordsDo | src/cactivemasternode.cpp:1131-1135 | Two nodes with the same list compute the same queue if the heights recorded for the listed masternodes agree, whatever their reorganizations did. |
| Reorganization.Reorganize | src/main.cpp:1863-1925 | The hooks called for every block taken out and then for every block added leave the specified cache. |
| MasternodeManager.OnePassEqualsSingleWalks | src/cmasternodeman.cpp:1926-2157 | From an empty cache the one-pass scan gives each enabled masternode what a separate walk for it alone gives. |
| MasternodeManager.PopulatedExactIff | src/cmasternodeman.cpp:1926-2157 | The entry the one-pass scan leaves is exact for the chain it scanned if and only if the masternode is enabled or was not paid within reach. |
| MasternodeManager.SimulationRefinesSelector | src/cmasternodeman.cpp:2236-2353 | The queue entry at a position is what FindOldestNotInVecChainDerived chooses with no exclusions and no age filter once the earlier simulated payments are in the cache. |
| MasternodeManager.SelectorFindsIff | src/cmasternodeman.cpp:2236-2353 | The selector finds a masternode exactly when a listed one passes its tests. |
| MasternodeManager.IsSelectedIff | src/cmasternodeman.cpp:2236-2353 | The selector chooses a masternode exactly when it is old enough, not excluded, and mature or enabled, and every other such one had its last payment, or else its confirmation, later, equal heights going by outpoint. |
| MasternodeManager.SnapshotIsFaithful | src/cmasternodeman.cpp:1643-1679 | The snapshot carries the members and the ranks of the list and cache it was taken from. |
| MasternodeManager.RecentIsLatest | src/cmasternodeman.cpp:1850-1920 | A backward walk of bounded depth returns the latest match in reach, and nothing exactly when there is none in reach. |
| MasternodeManager.MasternodeMan.FindByPayeeAddress | src/cmasternodeman.cpp:1427-1448 | Returns the first listed masternode with the payee script, nothing when none has it. |
| MasternodeManager.StakedBlockCountsByCoinStake | src/cmasternodeman.cpp:1688-1735 | For a staked block what connecting it records, whom it pays and its payment slot depend on the outputs of the second transaction alone: the first output of value to a listed masternode decides. |
| MasternodeManager.OtherBlockCountsByCoinBase | src/cmasternodeman.cpp:1692-1735 | For any other block the same holds of the coinbase, whose second output is the payment slot. |
| MasternodeManager.MasternodeMan.OnBlockConnected | src/cmasternodeman.cpp:1681-1737 | The cache becomes the old one with the first paid listed masternode at the block's height. |
| MasternodeManager.MasternodeMan.OnBlockDisconnected | src/cmasternodeman.cpp:1739-1802 | The cache is recomputed for the first paid masternode when its entry is the disconnected height, and is otherwise unchanged. |
| MasternodeManager.MasternodeMan.RecomputeLastPaidHeight | src/cmasternodeman.cpp:1804-1924 | The entry becomes the latest paying height within the scan depth, or is erased. |
| MasternodeManager.MasternodeMan.PopulateLastPaidHeightCache | src/cmasternodeman.cpp:1926-2157 | One backward pass records the latest payment of every enabled masternode and the latest height of every slot payee. |
| MasternodeManager.MasternodeMan.GetQueuePaymentSnapshot | src/cmasternodeman.cpp:1643-1679 | One snapshot entry per masternode in list order, with its cached paid height if it has one. |
| MasternodeManager.MasternodeMan.SimulatedQueue | src/cactivemasternode.cpp:1131-1135 | Simulating from the manager's own snapshot yields the queue of its list and cache. |
| MasternodeManager.MasternodeMan.FindOldestNotInVecChainDerived | src/cmasternodeman.cpp:2159-2354 | Returns the member of the eligible pool paid longest ago, ties broken by the smaller outpoint. |
| MasternodeManager.MasternodeMan.CountVotingEligible | src/cmasternodeman.cpp:247-268 | Counts the listed masternodes recent enough in protocol, where -1 stands for the least version payments require, whose collateral has a height at least 17 below the block height. |
| MasternodeManager.MasternodeMan.Add | src/cmasternodeman.cpp:50-83 | Adds an enabled masternode that is not listed and recomputes its entry; the list stays free of duplicates. |
| MasternodeManager.MasternodeMan.Remove | src/cmasternodeman.cpp:1385-1400 | Removes the first masternode with that input and leaves the rest in order. |
| Agreement.ConnectedIsSimulated | src/cmasternodeman.cpp:1681-1737 | If the next block pays the first predicted payee, recording it advances the cache exactly as the simulation does. |
| Agreement.NextQueueShifts | src/cactivemasternode.cpp:1018-1094 | If block h+1 pays the first entry of queue h, then queue h+1 at p equals queue h at p+1. |
| Agreement.HonestQueuesShift | src/cactivemasternode.cpp:970-985 | On real caches and blocks that honour the predictions, any two queue heights covering a target name the same payee. |
| Agreement.WinnerIsAssigned | src/cmasternodevotetracker.cpp:413-499 | If at every covering queue height fewer than a threshold of stored voters deviate from the honest queue, any winner is the payee the rotation assigns. |
| Agreement.NodesAgree | src/cmasternodevotetracker.cpp:359-500 | Under that condition two nodes with different stored queues, tips, counts of eligible voters and stopping heights never return different payees. |
| Agreement.ProtocolIsSafe | src/cmasternodevotetracker.cpp:359-500 | Over every run of two nodes that receive authentic queues, with fewer faulty voters than the threshold of either saying anything to anybody, neither reads a payee other than the one assigned, so they never differ. |
| Agreement.FewFaultyFewDeviants | src/cmasternodevotetracker.cpp:185-357 | Whatever a node receives in whatever order, only faulty voters are stored with a queue other than the honest one of its height. |
| Agreement.HonestQuorumYieldsWinner | src/cmasternodevotetracker.cpp:385-500 | A threshold of honest queues at one covering height is enough for some winner. |
| Agreement.ProtocolDecides | src/cmasternodevotetracker.cpp:385-500 | A node past the commit point that stores a threshold of honest voters at one covering height reads the assigned payee, whatever else it received. |
| ActiveMasternode.ActiveMasternode.BroadcastQueue | src/cactivemasternode.cpp:1101-1179 | A capable masternode that can sign pushes the honest queue of its list and cache, its own tracker processes the same queue first, and that queue is stored when nothing as recent is. |
| AddressTables.SwapKeepsValid | src/caddrman.cpp:53-73 | Swapping two random positions keeps the invariant. |
| AddressTables.DropKeepsValid | src/caddrman.cpp:104-179 | Dropping one reference, and the entry with the last one, keeps the invariant. |
| AddressTables.RegisterKeepsValid | src/caddrman.cpp:35-51 | Registering a new address keeps the invariant but for the reference that is still to be added. |
| AddressTables.ExchangeKeepsValid | src/caddrman.cpp:215-242 | Exchanging the new tried entry with the evicted one keeps the invariant. |
| AddressManager.PromotionLosesNobody | src/caddrman.cpp:181-243 | A promotion keeps every id; at most one other entry changes, from tried to new with one reference. |
| AddressManager.PlacementLosesOnlyVictim | src/caddrman.cpp:378-388 | Adding a reference loses at most one entry, and that one only when the victim held its last reference. |
| AddressManager.EvictionKeepsValid | src/caddrman.cpp:200-242 | The full-bucket branch keeps the invariant; in particular the bucket the new entry came from has room again. |
| AddressManager.AddrMan.constructor | src/caddrman.cpp:665-677 | A fresh manager satisfies the invariant. |
| AddressManager.AddrMan.Create | src/caddrman.cpp:35-51 | The new entry has the next id and the last random position, and both maps know it. |
| AddressManager.AddrMan.SwapRandom | src/caddrman.cpp:53-73 | Exactly the two positions are exchanged in vRandom and in the two entries. |
| AddressManager.AddrMan.ShrinkNew | src/caddrman.cpp:104-179 | One id of the bucket loses its reference there: the first terrible one in id order, else the oldest at the four drawn places, the smaller id of equally old ones. |
| AddressManager.AddrMan.SelectTried | src/caddrman.cpp:75-102 | Up to four drawn entries come to the front of the bucket, nothing else moves, and the position returned is the one from which the first least recently successful of them was drawn. |
| AddressManager.SelectsOldestIff | src/caddrman.cpp:77-101 | The returned position holds a least recently successful inspected entry if and only if it is one of the inspected places and the draw for it brought an entry as old as the oldest. |
| AddressManager.SomeDrawsMiss | src/caddrman.cpp:77-101 | In every bucket of more than four entries, whatever their times, four draws of place 4 make it return place 4, which then holds the fourth entry, not an inspected one. |
| AddressManager.AddrMan.MakeTried | src/caddrman.cpp:181-243 | The entry leaves every new bucket and joins its tried bucket, exchanged with one entry when that is full; the invariant holds after. |
| AddressManager.AddrMan.FindNewBucket | src/caddrman.cpp:274-297 | A new entry always is in some new bucket, so the branch for not finding one is never taken. |
| AddressManager.AddrMan.Good | src/caddrman.cpp:245-304 | Statistics are reset and an entry not yet tried is promoted; an unknown service changes nothing; the invariant is kept. |
| AddressManager.GoodForAMonth | src/caddrinfo.cpp:75-103 | A peer that answered is not terrible for thirty days, and terrible after, whatever went before. |
| AddressManager.FailuresMakeTerrible | src/caddrinfo.cpp:75-103 | With its time within the month a peer is terrible exactly a minute after three failures if it never answered, or ten if it has not for a week. |
| AddressManager.TerribleStays | src/caddrinfo.cpp:75-103 | A terrible peer stays so while nothing is heard of it, unless its time lay in the future. |
| AddressManager.AddrMan.Add | src/caddrman.cpp:306-391 | A new address is registered with one reference; a known one is refreshed and may gain one; the invariant is kept. |
| AddressManager.SeenAgain | src/caddrman.cpp:322-334 | A known address takes the seen time less the penalty once its own is more than an hour behind that, if seen within the day, or more than a day; it gains the seen services and nothing else changes. |
| AddressManager.FirstSeen | src/caddrman.cpp:368-374 | An unknown address gets the next id, the last random position, its source and fresh statistics. |
| AddressManager.AddrMan.Attempt | src/caddrman.cpp:393-414 | Exactly the last try and the attempt count of a known service change, and the invariant is kept if and only if the time is not negative or the service unknown. |
| AddressManager.AddrMan.Connected | src/caddrman.cpp:639-663 | Exactly the time of a known service changes, and only after twenty minutes. |
| AddressManager.AddrMan.GetAddr | src/caddrman.cpp:617-637 | Returns the prescribed share of the addresses, all different, and disturbs nothing but the random order. |
| AddressCheck.Check | src/caddrman.cpp:494-614 | The self-test returns zero exactly on the states that satisfy its conditions, stated without its loops. |
| AddressCheck.EraseTried | src/caddrman.cpp:570-583 | The erasing loop empties its set exactly when the tried buckets list each tried id once and nothing else. |
| AddressCheck.EraseNew | src/caddrman.cpp:585-601 | The counting loop empties its map exactly when each new id lies in as many new buckets as it counts references. |
| AddressCheck.ValidIffPasses | src/caddrman.cpp:494-614 | The invariant is the self-test together with the bucket sizes, the id bound, no stale address and the placement of tried entries. |
| AddressFile.Serialize | src/caddrman.cpp:957-1049 | The file lists the new and the tried entries in id order and each new bucket as indices into the new entries. |
| AddressFile.Unserialize | src/caddrman.cpp:1052-1172 | A file in which nothing overflows loads into exactly the tables it describes. |
| AddressFile.FileIsClean | src/caddrman.cpp:1119-1171 | The file of a valid state never overflows a bucket, so no entry is lost on loading. |
| AddressFile.SaveLoadRoundTrip | src/caddrman.cpp:957-1172 | Loading what was saved yields the same tables up to renaming of ids and order in tried buckets, and satisfies the whole invariant. |
| AddressFile.SaveThenLoad | src/caddrman.cpp:957-1172 | The two methods in sequence restore a valid manager. |
| MemoryPool.ConeIsDescendants | src/ctxmempool.cpp:56-69 | A removed set closed under spending and rooted at one transaction is that transaction with all its descendants in the pool. |
| MemoryPool.AddKeepsOk | src/ctxmempool.cpp:28-47 | Adding a transaction that was checked keeps the spend index exact and the pool acyclic. |
| MemoryPool.RemoveOneKeepsOk | src/ctxmempool.cpp:71-77 | Erasing a transaction and its inputs keeps the spend index exact. |
| MemoryPool.ConflictsAndDescendants | src/ctxmempool.cpp:85-105 | What the removal of conflicts gathers is the conflicting transactions and everything that descends from them. |
| MemoryPool.TxMemPool.AddUnchecked | src/ctxmempool.cpp:28-47 | The transaction is stored and each of its inputs points back at it. |
| MemoryPool.TxMemPool.Remove | src/ctxmempool.cpp:49-83 | The recursion ends and removes exactly the transaction, or with the flag the transaction and all its descendants, one update counted for each. |
| MemoryPool.TxMemPool.RemoveChildren | src/ctxmempool.cpp:60-70 | The loop over outputs removes everything that descends from the transaction and nothing else. |
| MemoryPool.TxMemPool.RemoveConflicts | src/ctxmempool.cpp:85-105 | Exactly the other spenders of the inputs and their descendants go; none is left that spends an input. |
| MemoryPool.TxMemPool.Clear | src/ctxmempool.cpp:107-115 | Both maps are empty afterwards and one update is counted. |
| Ledger.MarkedAllSlots | src/ctransaction.cpp:523-586 | Marking a list of outputs changes exactly the named slots, also where several share one previous transaction. |
| Ledger.DisconnectUndoesConnect | src/ctransaction.cpp:321-361 | Disconnecting a transaction right after connecting it restores every slot and removes its own entry. |
| Transaction.GetValueOut | src/ctransaction.cpp:159-174 | The sum of the outputs, or a throw exactly when a value or the total is out of range. |
| Transaction.CheckTransaction | src/ctransaction.cpp:615-691 | Passes exactly on well-formed transactions: non-empty, in size and range, without repeated inputs, with the coinbase or null-input rule; otherwise the first rule broken decides the score. |
| Transaction.PassesCheckIff | src/ctransaction.cpp:615-691 | What passes, in sizes and amounts: no output or total beyond 10^18 or below zero, no input twice, a coinbase script of 2 to 100 bytes and no null input elsewhere, no empty output but in generated transactions. |
| Transaction.FetchInputs | src/ctransaction.cpp:363-450 | Succeeds exactly when every previous transaction is found and every named output exists, and then returns them. |
| Transaction.FoundIff | src/ctransaction.cpp:363-450 | A previous transaction is the one of the pending entry, else of the stored entry, read from its block or the memory pool as the entry says; without an entry, from the memory pool only and never while connecting. |
| Transaction.CheckInputs | src/ctransaction.cpp:464-519 | The first loop passes exactly when every input is mature, not newer than its spender, non-empty and in range with the total in range. |
| Transaction.TakeOver | src/ctransaction.cpp:523-586 | The second loop passes exactly when the named slots are free, none is named twice and the signatures hold; it then hands the slots over in the pending changes. |
| Transaction.ConnectInputs | src/ctransaction.cpp:452-613 | Succeeds exactly on connectable transactions, throws exactly when a non-coinstake's outputs are out of range after all else passed, and on success in block or miner mode turns exactly the named slots to the given position. |
| Transaction.ConnectsIff | src/ctransaction.cpp:452-613 | A transaction connects exactly when each input names an unspent, non-empty output in range, no younger than the spender and ripe, with a good signature where checked, none twice, and unless it is a coinstake it creates no more than it spends. |
| Transaction.ConnectActsOnView | src/ctransaction.cpp:578-585 | Written back, the pending changes over the stored index are the combined view with exactly the named slots marked. |
| BlockLedger.NewBlockRoundTrip | src/ctransaction.cpp:321-361 | Disconnecting a block right after connecting it gives back the index, also where its transactions spend each other. |
| BlockLedger.BlockRoundTripIff | src/ctransaction.cpp:354-358 | The round trip holds if and only if none of the block's transactions was in the index before. |
| BlockLedger.BlockIsNew | src/ctransaction.cpp:530-540 | A block made for the next height that spends unspent outputs only holds no transaction of the index, and keeps what this rests on: every input of an indexed transaction is marked spent, every indexed coinbase names a height so far. |
| CoinbaseHeight.OneHeight | src/cscript.cpp:20-34 | No script begins with the serialized forms of two heights. |
| CoinbaseHeight.NumberOfVch | src/cbignum.cpp:408-425 | The bytes a number is pushed as denote it, with the zero byte that keeps them from reading as negative. |
| CoinbaseHeight.SmallHeights | src/cscript.cpp:20-34 | The bytes of every height below 32768: an opcode up to 16, then a push with a zero byte where the last would read as a sign. |
| CoinbaseHeight.BeginsWithHeight | src/cblock.h:132 | Tells whether a coinbase script begins with the serialized height, by sizes and then byte by byte. |
| BlockLedger.OnlyHeightRuleStopsRepeats | src/cblock.h:132 | A coinbase that passes every check on transactions and begins with height 17 could come twice but for the height rule, and disconnecting the repeat would erase its entry; the rule refuses it at every other height. |
| BlockLedger.IndexIsThatOfTheChain | src/main.cpp:1863-1925 | Through any run of accepted blocks connected and disconnected, every disconnection succeeds and the index is the one the blocks now in the chain produce. |
| MoneySupply.ConnectSupply | src/ctransaction.cpp:452-613 | Connecting a new transaction changes the unspent value by what it creates less what it spends. |
| MoneySupply.BlockSupply | src/ctransaction.cpp:452-613 | Connecting a block changes the unspent value by the outputs less the inputs of its transactions. |
| MoneySupply.SupplyIsUnspentValue | src/cblockindex.h:30-31 | After any run of accepted blocks connected and disconnected the sum of outputs less inputs over the blocks now in the chain is the value of the unspent outputs in the index. |
| BlockConnection.CheckBlock | src/cblock.h:125-131 | Passes exactly on blocks with one coinbase in front, the proof-of-stake shape, well-formed and timely transactions and no repeated hash, when the checks taken as given pass. |
| BlockConnection.PassesBlockCheckIff | src/cblock.h:131 | What passes, transaction by transaction: one coinbase in front, checked transactions no younger than the block, no two of one hash, and beside a coinstake an empty coinbase and no other coinstake. |
| BlockConnection.DisconnectInputs | src/ctransaction.cpp:321-361 | Succeeds exactly when every named slot exists, and then leaves the specified index. |
| BlockConnection.DisconnectBlock | src/cblock.h:120 | Disconnects last transaction first, with the specified result. |
| BlockConnection.GetValueMapIn | src/ctransaction.cpp:176-189 | The total of the outputs the inputs name, when they all are there. |
| BlockConnection.ConnectTransaction | src/ctransaction.h:80-109 | One turn of the block loop connects exactly the transactions that fetch and connect on the combined view, marks their slots, adds their own entry and counts the values. |
| BlockConnection.ConnectBlock | src/cblock.h:121 | Succeeds exactly when the block is well formed, every transaction connects in turn and the reward is allowed; then the index, the mint and the money supply are as specified, and otherwise or when only checking the index is unchanged. |
| BlockConnection.SupplyGrowthIsRecorded | src/cblockindex.h:30-31 | The recorded money supply grows by exactly what the unspent outputs in the index grow by. |
| BlockConnection.RewardsAreForFees | src/cblock.h:121 | The reward check compares the coinbase, or in a staked block the reward of the coinstake, with the reward for what the ordinary transactions leave over; what is recorded as minted is the coinbase's outputs plus the coinstake's reward. |
| BlockConnection.TotalsAreFees | src/cblock.h:121 | The fees of a connecting block are the sum of inputs less outputs over its ordinary transactions, and never negative; the stake reward is outputs less inputs of the last coinstake. |
| SupplyHistory.HistoryKeeps | src/cblockindex.h:30-31 | Every block in the chain recorded, as ConnectBlock returns it, the value of the outputs unspent once it was connected. |
| SupplyHistory.TipRecordsUnspentValue | src/cblockindex.h:30-31 | After any run of accepted blocks connected and disconnected the money supply recorded with the tip is the value of the unspent outputs in the index. |
| Base58.RoomIsEnough | src/base58.cpp:101-102 | For every length n, 256^n is at most 58 to the number of digits reserved, so the buffer suffices. |
| Base58.MultiplyAdd | src/base58.cpp:105-120 | One pass multiplies the number in the buffer by 256 and adds a byte, and ends with no carry. |
| Base58.EncodeBase58 | src/base58.cpp:90-142 | The text is a '1' for each leading zero byte and then the base 58 digits of the number the bytes denote. |
| Base58.DecodeBase58 | src/base58.cpp:14-88 | Succeeds exactly on spaces, digits, spaces, and returns the bytes of the number denoted. |
| Base58.DecodeOfEncode | src/base58.cpp:29-88 | Decoding an encoding gives the bytes without their leading zeros and nothing else. |
| Base58.RoundTripIff | src/base58.cpp:29-88 | The original bytes come back if and only if they are empty or begin with a non-zero byte. |
| Base58.LeadingZerosAreLost | src/test/base58_tests.cpp:47-56 | The bytes 0, 0, 1, which are expected back, come back as 1. |
| Base58.EncodeOfDecode | src/base58.cpp:14-142 | Encoding what was decoded gives the same digits without leading ones, and both denote the same number. |
| Base58.DecodeBase58Check | src/base58.cpp:165-187 | Succeeds exactly when the text decodes to some payload followed by its checksum, and that payload is the only one. |
| Base58.CheckRoundTripIff | src/base58.cpp:154-187 | With the checksum the payload comes back if and only if the bytes encoded do not begin with zero. |
| VarInt.EncodingDenotes | src/cvarint.cpp:8-28 | The encoding of a number is well formed and denotes that number by the documented sum. |
| VarInt.EncodingUnique | src/cvarint.cpp:18-23 | Every well-formed byte sequence is the encoding of the number it denotes. |
| VarInt.AccumulatedIsGroupSum | src/cvarint.cpp:76-97 | What the reading loop accumulates is the documented sum. |
| VarInt.GetSizeOfVarInt | src/cvarint.cpp:31-48 | The size is the length of the encoding; one for a negative number. |
| VarInt.WriteVarInt | src/cvarint.cpp:51-73 | Writes the encoding after the stream so far, without overrunning the temporary buffer for numbers of the type. |
| VarInt.ReadVarInt | src/cvarint.cpp:76-97 | Reads the one well-formed prefix and returns its number modulo the type, or fails exactly when every byte continues. |
| VarInt.ReadInvertsWrite | src/cvarint.cpp:51-97 | Reading what was written returns the number modulo the type and leaves what followed, and nothing else. |
| VarInt.ReadsBackIff | src/cvarint.cpp:51-97 | A number of a signed or unsigned type is read back if and only if it lies in the unsigned range read; a negative one comes back as its last seven bits. |
| ScriptCompressor.ScriptCompressor.Compress | src/cscriptcompressor.cpp:74-123 | Finds the compact form of exactly the payment scripts that have one. |
| ScriptCompressor.CompactFormsAre | src/cscriptcompressor.cpp:74-123 | The compact forms byte by byte: a code and the hash or key that each of the standard scripts carries. |
| ScriptCompressor.ScriptCompressor.Decompress | src/cscriptcompressor.cpp:140-203 | Rebuilds the script a code and payload stand for, and leaves the script alone when the key cannot be recovered or the code is no special one. |
| ScriptCompressor.GetSpecialSize | src/cscriptcompressor.cpp:125-138 | The length given for a code is one byte less than that of every compact form with the code, and zero exactly for sizes that are no special code. |
| ScriptCompressor.CompactFormExpands | src/cscriptcompressor.cpp:74-203 | A compact form begins with its code, has that code's length, and expands to the script it came from. |
| ScriptCompressor.ScriptCompressor.GetSerializeSize | src/cscriptcompressor.cpp:210-222 | The size is the length of what Serialize writes, as an unsigned int. |
| ScriptCompressor.ScriptCompressor.Serialize | src/cscriptcompressor.cpp:224-240 | Writes the compact form, or the length with the special codes added and then the script. |
| ScriptCompressor.ScriptCompressor.Unserialize | src/cscriptcompressor.cpp:242-265 | Reads exactly what the size and the bytes after it call for, or fails exactly when the stream is too short, with the script at most resized. |
| ScriptCompressor.UnserializeInvertsSerialize | src/cscriptcompressor.cpp:224-265 | The script comes back with what followed it left over if and only if its length with the special codes added fits an unsigned int. |
| Locator.BlockLocator.Set | src/cblocklocator.cpp:99-122 | Entry i is the ancestor at distance i up to 10 and 9 + 2^(i-10) beyond, for every such distance the branch reaches, and the genesis block comes last. |
| Locator.DistanceGrows | src/cblocklocator.cpp:103-119 | The distances strictly increase, so no block is listed twice by distance. |
| Locator.LengthIsLogarithmic | src/cblocklocator.cpp:99-122 | A list of n entries, for n above 12, takes a branch of more than 2^(n-12) + 9 blocks. |
| Locator.BlockLocator.GetDistanceBack | src/cblocklocator.cpp:124-153 | Retraces the distance of the first entry in the main chain, or that past the last entry. |
| Locator.DistanceIsTrue | src/cblocklocator.cpp:124-153 | When that entry is not the trailing genesis, the retraced distance is how far back the block found lies. |
| Locator.BlockLocator.GetBlockHash | src/cblocklocator.cpp:176-195 | Returns the first entry in the main chain, else the genesis block. |
| Locator.BlockLocator.GetHeight | src/cblocklocator.cpp:197-207 | Returns the height of that block, zero where it is unknown. |
| Locator.FindsForkWithinTwice | src/cblocklocator.cpp:155-174 | The block found lies on both chains at or below the fork, at most twice as far back as the fork, and exactly at it within eleven blocks. |

## Left out

- Message handlers, relay, peer penalties, locks and logging: each handler is one atomic step.
- Signing, verification, hashing and curve operations: abstract.
- Block files, the databases and their transactions: a chain is a sequence of blocks, an index a map; read failures of the cache walks are not modelled, failures to find a transaction are.
- Widths of integers: heights, times, counters and amounts are unbounded except where a wrap decides the result (address times, lengths in the script codec, variable-length integers).
- QueueSimulation.SimulateQueue: the equality with the rotation is stated for snapshots with distinct outpoints, which the list of masternodes guarantees.
- MasternodeManager.MasternodeMan.FindOldestNotInVecChainDerived: the state refresh by Check() before each test is not modelled; whether an entry is enabled is a field.
- MasternodeManager.MasternodeMan.Add: the display field for the last payment and the scanned-to height are not modelled.
- VoteTracking.VoteTracker.ProcessQueue: signature and voter lookup results and peer penalties are not modelled; the set of equivocating voters is a field nothing adds to.
- AddressManager.AddrMan.Add: whether an address is routable is a parameter.
- AddressCheck.Check: which of the error codes is returned is not stated, only whether one is.
- AddressManager.AddrMan.Good: times of zero or below are not modelled; its callers take the default, the adjusted time of the node.
- VoteTracking.NoneBelowTip: blocks connected during the initial download, when the pruning hook is not called, are not modelled.
- Reorganization.RunEntryExactIff: says nothing of forks below the reach of the scan and of reorganizations that stop part way; RunEntryIsRecorded covers both.
- AddressFile.Unserialize: files whose counts or indices do not fit their contents, and files with another number of buckets, are not modelled; nor is the byte framing.
- MemoryPool.TxMemPool.Remove: the update counter does not wrap.
- Transaction.ConnectInputs: the pending changes after a failure are not stated, since callers discard them, and the denial-of-service score of a refusal is stated only for double spends.
- Transaction.FetchInputs: starts from an empty map of inputs, as the block loop does; what the map holds after a failure is not stated.
- BlockConnection.CheckBlock: proof of work, merkle root, sizes, signature, transaction locks and payment checks are one given condition.
- BlockConnection.ConnectBlock: signature-operation limits, rewards and coin age are given functions; the address index and the block index records are not modelled.
- Base58.DecodeBase58: texts are sequences of characters below 128 as far as spaces and digits are concerned.
- Locator.BlockLocator.GetDistanceBack: overflow of the step for very long lists sent by a peer is not modelled.
- CAddrMan::Select_ and GetChance: floating-point random retry loops.
- CAddrMan::GetSerializeSize: repeats the load logic.
- GetCollateralConfirmedHeight: a lookup in the block files; the height it finds is a field.
- Retargeting, staking, mixing, wallet, RPC, configuration and user interface.
- Plain field-by-field serializers and accessors: they would add only easy members.
