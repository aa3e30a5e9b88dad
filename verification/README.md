# A verified model of a proof-of-stake node

This project models the parts of the wallet node that are hard to get right and proves what they
promise.  Databases, the network, hashing, scripts and signatures are parameters: the stated
properties hold for every answer of theirs, or say for which.  `dafny verify dfyconfig.toml` checks everything.

- **Block tree and checkpoints** (`BlockTree`, `MainChain`, `ChainState`): the index of blocks with
  its `pprev` and `pnext` links as a class, its operations from `Reorganize` to
  `ProcessSyncCheckpoint` as methods, and finality of checkpoints over every run.
- **Spending** (`Ledger`, `SpendCheck`, `Money`, `ConnectBlock`, `DisconnectBlock`, `FreshIds`): a plain replay
  of blocks on the transaction index as the reference; the side-branch double-spend check, `ConnectBlock`
  and `DisconnectBlock` are compared with it, no coins appear or vanish, and ids never repeat.
- **The node** (`Archives`, `BranchCheck`, `Node`): block tree, contents on disk and transaction index together.
  Over every run, with reorganisations and failures half-way, the index is the replay of the main chain.
- **Address manager** (`AddrTables`, `AddrMan`, `AddrCheck`, `AddrDisk`): six redundant tables that agree
  after every operation, the program's own consistency check, and the disk format.
- **Merkle trees** (`Merkle`, `PartialMerkle`): the flat tree, branches, and partial trees as in BIP 37,
  sections "Constructing a partial merkle tree object" and "Parsing a partial merkle tree object".
- **Scheduling** (`Miner`, `PopLeaf`): filling a block from the memory pool, and writing a block's
  transactions in order of dependency.
- **Stake modifier** (`StakeModifier`, with `Sorting`): the selection rounds and inheritance.
- **Codecs and small laws** (`VarInt`, `Amount`, `Coins`, `Base58`, `MedianTime`, `Locator`).

Where the code does something other than what its comments or names suggest, the model follows the code:

- The side-branch check never queues a branch coinbase that no branch input names
  (wallet/block.cpp:326-330 skips it before wallet/block.cpp:374-378).  A block that spends one is rejected
  although its inputs are unspent.  And an input that the overlay does not know is looked up in the index of the
  main chain (wallet/block.cpp:452), so that an output the block's own chain does not have is accepted.
  `SpendCheck.VerifyInputsUnspent` says exactly what is accepted, `SpendCheck.CheckVersusReplay` exactly when that
  is not what a replay accepts, and `SpendCheck.RejectsBranchCoinbase` and `SpendCheck.AcceptsForeignInput` give
  blocks.
- `WriteToDisk` stores a block and switches to it in one database transaction (wallet/block.cpp:1486-1512).  If the
  switch fails, the contents are given up but the block stays in `mapBlockIndex`.  As long as the node runs such a
  block is not taken in again, and every block on top of it is refused by the side-branch check, which cannot read
  it (wallet/block.cpp:211-219).  `Node.FullNode.WriteToDisk` says when this happens, `Archives.UnarchivedIsLeaf` and
  `Node.FullNode.Run` what follows, and `Node.RefusesChild` is such a run.
- `SetBestChain` makes the new block best even if connecting a postponed block fails
  (wallet/block.cpp:777-803).  Links are then sound but not complete; `ChainState.Chain.SetBestChain`
  says when, and `ChainState.LosesLinks` is such a run.  While an arriving block is written, what the failing block
  wrote is not taken back either (wallet/block.cpp:713-716) and is committed with the rest:
  `Node.FullNode.TornIff`.
- Disconnecting a block does not bring back a fully spent transaction that connecting it overwrote.
  `DisconnectBlock.UndoneExactly` says when the index is restored and `DisconnectBlock.OverwriteLost` is a block for
  which it is not; the unspent outputs are restored for every single block.  A branch that spends from a transaction
  and then writes it again cannot be disconnected at all (`DisconnectBlock.BranchUndoneIff`,
  `DisconnectBlock.BranchStuck`).  With the height in every coinbase neither happens (`FreshIds.GoesBack`).
- A proof-of-work block may hold coinstakes, whose excess no rule limits (wallet/block.cpp:1162-1172 looks
  only at proof-of-stake blocks).  `ConnectBlock.WorkGrowthIff` says when such a block stays within the subsidy, and
  `ConnectBlock.WorkBlockExceeds` gives blocks that create any amount.
- `CCoins` writes its version and height as variable-length integers; a negative one loses all but seven
  bits (wallet/serialize.h:293-308).  `Coins.WriteAndRead` states the round trip with its exact condition,
  and `Coins.VersionLost` a record that changes.
- `CompressAmount` wraps around for amounts that do not end in a zero and whose ninefold is too large for 64 bits;
  `Amount.AmountBack` states the exact condition and `Amount.AmountLost` shows one.
- `SelectTried` returns the place where the least recently successful entry was found, not the one it was shuffled
  to (wallet/addrman.cpp:139-147), so a more recent one may be evicted: for some draws in every bucket whose entries
  are not all equally old (`AddrMan.SelectsLeastRecentIff`).
- `Check_` takes an address that `mapAddr` does not know for one with id 0 (wallet/addrman.cpp:462);
  `AddrCheck.ConsistentWithoutAddress` gives tables that pass for that reason.

## Model

| member | source | states |
|---|---|---|
| `BlockTree.AncestorsLinear` | wallet/blockindex.h:20-25 | two ancestors of one block lie on one line: walking `pprev` from a block meets every height once |
| `BlockTree.PathAt` | wallet/block.cpp:941-954 | the blocks collected by walking `pprev` from a tip down to a base are exactly those between them, highest first |
| `MainChain.InMainChainIsAncestor` | wallet/blockindex.cpp:100-103 | whatever happened before, a block that `IsInMainChain` answers yes for is an ancestor-or-self of the best block |
| `MainChain.InMainChainIff` | wallet/blockindex.cpp:100-103 | with complete links `IsInMainChain` holds exactly for the ancestors-or-self of the best block |
| `MainChain.LinksUnique` | wallet/blockindex.cpp:100-103 | sound and complete `pnext` links are determined by the best block alone |
| `MainChain.ReorganisedLinks` | wallet/block.cpp:1005-1013 | clearing `pnext` along the old branch and setting it along the new one leaves links that are sound for the new tip, and complete if they were |
| `ChainState.Chain.constructor` | wallet/block.cpp:741-745 | the state with only the genesis block satisfies all invariants |
| `ChainState.Chain.FindFork` | wallet/block.cpp:929-939 | the two-pointer walk of `Reorganize` ends at the greatest common ancestor |
| `ChainState.Chain.CollectPath` | wallet/block.cpp:941-954 | the list of blocks to disconnect or connect is the whole path down to the fork |
| `ChainState.Chain.Reorganize` | wallet/block.cpp:924-1028 | succeeds exactly if the database lets every block of both branches through and commits; success relinks from the greatest common ancestor, failure leaves every `pnext` as it was |
| `ChainState.Chain.Postpone` | wallet/block.cpp:750-762 | the switch goes to the lowest block of the branch that outweighs the best chain; the blocks above it are postponed, in order |
| `ChainState.Chain.ConnectPostponed` | wallet/block.cpp:776-791 | postponed blocks are connected lowest first up to the first failure; links stay sound for the block reached and reach the top exactly if none fails |
| `ChainState.Chain.SetBestChain` | wallet/block.cpp:733-809 | exact condition of success; afterwards the new block is best even if a postponed connect broke off, and the links are complete exactly if none did; failure changes nothing |
| `ChainState.LosesLinks` | wallet/block.cpp:749-803 | a run of four blocks and a signed checkpoint after which the best block is not linked: the checkpoint moves the node to a lighter branch, the next block of that branch is postponed, and connecting it fails |
| `ChainState.GreatestUnique` | wallet/block.cpp:929-939 | the block where two branches part is unique |
| `ChainState.Chain.FindBlockByHeight` | wallet/block.cpp:876-896 | for every height up to the best it returns the ancestor of the tip at that height, whatever block was cached |
| `ChainState.Chain.BranchOf` | wallet/block.cpp:164-196 | the branch of a block up to the main chain, lowest first, and the greatest common ancestor |
| `ChainState.Chain.ValidateSyncCheckpoint` | wallet/checkpoints.cpp:100-143 | accepts exactly the proper descendants of the current checkpoint; a block on another branch is remembered as invalid, an ancestor is not |
| `ChainState.Chain.CheckSync` | wallet/checkpoints.cpp:220-245 | on the main network: at or above the checkpoint height exactly the descendants of the checkpoint pass, at its height exactly the checkpoint, below it exactly known blocks |
| `ChainState.Chain.AdoptCheckpoint` | wallet/checkpoints.cpp:172-192 | exact condition of success; the best block and then the checkpoint move to the checkpoint block or nothing does, and finality is kept |
| `ChainState.Chain.AcceptPendingSyncCheckpoint` | wallet/checkpoints.cpp:162-202 | exact condition of success; the pending checkpoint is dropped exactly when it was adopted or found invalid |
| `ChainState.Chain.ProcessSyncCheckpoint` | wallet/checkpoints.cpp:418-468 | exact condition of success; a signed checkpoint for an unknown block is kept pending |
| `ChainState.Chain.AddToBlockIndex` | wallet/block.cpp:1051-1130 | the block is indexed with its height and trust even if switching to it fails; it becomes best exactly if it outweighs the best chain and the switch succeeds, nothing being begun or committed on the way; links stay complete exactly if every postponed block connects |
| `ChainState.Chain.AcceptBlock` | wallet/block.cpp:1218-1344 | exact conditions for being indexed, for success and, with no checkpoint pending, for becoming best and for complete links; in strict mode on the main network only descendants of the checkpoint are indexed, and finality is kept |
| `ChainState.Chain.Run` | wallet/checkpoints.cpp:100-245 | over every sequence of blocks and checkpoints each checkpoint descends from all earlier ones and the best block never leaves the last one; links stay exact if every postponed connect succeeded |
| `Ledger.ReplayIff` | wallet/transaction.cpp:458-498 | replaying transactions with fresh ids and existing inputs succeeds exactly if every input is unspent beforehand and none is used twice |
| `Ledger.ConnectTxsSpent` | wallet/transaction.cpp:491-497 | after a replay exactly the old spent outputs and the inputs replayed are spent |
| `SpendCheck.Unspend` | wallet/block.cpp:205-320 | the first pass shows no input of the branch as spent by a main-chain block above the common ancestor, and changes nothing else |
| `SpendCheck.Respend` | wallet/block.cpp:322-383 | the second pass turns the overlay into the replay of the branch, for every output an input names |
| `SpendCheck.CheckTxs` | wallet/block.cpp:385-483 | given an overlay that shows what the replayed branch has spent, the last pass accepts exactly if every input can be looked up when its turn comes, none is spent and none comes twice |
| `SpendCheck.VerifyInputsUnspent` | wallet/block.cpp:205-483 | for every block on a branch that replays: accepted exactly if every input names an output in the database, in what the branch left in the overlay or in the block itself, none is spent on the branch and none comes twice |
| `SpendCheck.CheckVersusReplay` | wallet/block.cpp:205-483 | the two ways in which check and replay differ, each with its exact condition: what passes replays exactly if its inputs name outputs of its own chain, and what replays passes exactly if it spends no unqueued branch coinbase |
| `SpendCheck.ReplayIsUnspentCheck` | wallet/block.cpp:385-483 | the replay succeeds exactly if the inputs of the block name outputs of its own past, are unspent there and none is used twice |
| `SpendCheck.UnqueuedAreCoinbases` | wallet/block.cpp:326-330 | the exception in words of the input: coinbases that exist on the branch only and that no branch input names |
| `SpendCheck.NoBranchCoinbase` | wallet/block.cpp:326-330 | a block that replays and spends no coinbase of its own branch passes |
| `SpendCheck.RejectsBranchCoinbase` | wallet/block.cpp:326-378 | for a branch of any length, all blocks well-shaped: a next block that spends the coinbase of the first, which the replay accepts and the check rejects |
| `SpendCheck.AcceptsForeignInput` | wallet/block.cpp:423-475 | a well-shaped block beside the main chain that spends an output of the main chain its own chain does not have: the check accepts it, the replay does not |
| `SpendCheck.SceneFromChain` | wallet/block.cpp:205-301 | the premise about the transaction index holds for every main chain connected block by block from the common ancestor |
| `BranchCheck.SceneOfChain` | wallet/block.cpp:264-301 | on a node the index on disk and that of any block of the main chain meet that premise; every spender is an indexed block of the main chain, so the two lookups that throw cannot |
| `BranchCheck.ReadBranch` | wallet/block.cpp:207-220 | reads the contents of the branch, lowest block first, and fails exactly if one of its blocks is not on disk or cannot be read |
| `BranchCheck.ReadyHere` | wallet/block.cpp:205-383 | a branch of stored blocks that replays, with a block on top that keeps the rules, meets the other premises: a transaction that is repeated has an input that is spent already |
| `BranchCheck.VerdictVersusReplay` | wallet/block.cpp:164-483 | the comparison of check and replay for any such block, without a premise on its ids or inputs |
| `Money.ConnectTotal` | wallet/block.cpp:543-658 | a replay that overwrites no unspent transaction changes the total of unspent outputs by what is created less what is spent |
| `ConnectBlock.CheckShape` | wallet/block.cpp:1151-1202 | accepts exactly the blocks whose first transaction and no other is a coinbase, in which no id occurs twice and, if the second transaction is a coinstake, the coinbase is empty and no later one is a coinstake |
| `ConnectBlock.CheckOverwrite` | wallet/block.cpp:485-507 | the rule of BIP 30, section "Specification": a transaction may be overwritten exactly if it is fully spent |
| `ConnectBlock.FetchInputs` | wallet/transaction.cpp:295-363 | finds the index entry of every input, pending changes first, exactly if every input names an existing output |
| `ConnectBlock.SumInputs` | wallet/transaction.cpp:413-454 | the input total, refused exactly if some value or running total is out of range |
| `ConnectBlock.MarkInputs` | wallet/transaction.cpp:458-498 | marks the inputs spent in the queue exactly if the replay can spend them, with the same resulting index |
| `ConnectBlock.ConnectOne` | wallet/block.cpp:562-629 | one transaction: exact condition of acceptance, the replayed index, the value spent |
| `ConnectBlock.Connect` | wallet/block.cpp:509-704 | the checks pass exactly for the blocks that meet the stated rules; the index is then the replayed one, supply and mint are recorded, and if a write fails exactly the entries written so far are in the index |
| `ConnectBlock.WriteQueue` | wallet/block.cpp:665-670 | the queued entries are written in ascending order up to the first that fails |
| `ConnectBlock.PartlyWrittenIff` | wallet/block.cpp:665-670 | with part of the entries written the index is the old one exactly if none was, and the new one exactly if all were |
| `ConnectBlock.MoneyFlow` | wallet/block.cpp:543-658 | for every list of transactions: created less spent is coinbase output plus stake excess less fees |
| `ConnectBlock.SupplyGrowth` | wallet/main.cpp:649-689 | an accepted proof-of-stake block grows the supply by at most the fee-free stake subsidy, a proof-of-work block without coinstake by at most the fee-free work subsidy |
| `ConnectBlock.WorkGrowthIff` | wallet/block.cpp:633-640 | a proof-of-work block grows the supply by at most the work subsidy exactly if its coinbase and the excess of its coinstakes together are within subsidy and fees |
| `ConnectBlock.WorkBlockExceeds` | wallet/block.cpp:1162-1172 | for every amount and height an accepted proof-of-work block, with a coinstake in third place, that creates that amount |
| `ConnectBlock.AcceptedConserves` | wallet/block.cpp:656-658 | one accepted block keeps the recorded supply equal to the total of unspent outputs |
| `ConnectBlock.ConnectChain` | wallet/block.cpp:509-704 | along every chain connected from the empty index, up to the first block that is not acceptable, the recorded supply is the total of unspent outputs |
| `DisconnectBlock.Disconnect` | wallet/block.cpp:139-160 | disconnects transaction by transaction, last first, failing exactly when an input has no index entry |
| `DisconnectBlock.DisconnectUndoes` | wallet/transaction.cpp:262-293 | disconnecting what was connected removes the block's transactions and restores every other entry |
| `DisconnectBlock.UndoneExactly` | wallet/transaction.cpp:262-293 | the index is restored exactly if connecting overwrote no fully spent transaction |
| `DisconnectBlock.UndoneUnspent` | wallet/transaction.cpp:262-293 | the set of unspent outputs is restored in every case |
| `DisconnectBlock.OverwriteLost` | wallet/transaction.cpp:286-290 | a transaction list and an index for which the index is not restored; no accepted chain holds it, as `FreshIds.NoIdTwice` shows |
| `DisconnectBlock.DisconnectWithout` | wallet/transaction.cpp:262-293 | disconnecting a block while some entries are gone fails exactly if the block spends from one of them, and else removes the block's transactions |
| `DisconnectBlock.BranchUndoneIff` | wallet/block.cpp:962-979 | a connected branch can be disconnected exactly if no block spends from a transaction that a later block writes again; what is left are the entries with other ids |
| `DisconnectBlock.BranchStuck` | wallet/block.cpp:962-979 | two transaction lists that connect one after the other and cannot be disconnected; no accepted chain holds them, as `FreshIds.NoIdTwice` shows |
| `DisconnectBlock.BranchUndone` | wallet/block.cpp:962-979 | disconnecting a whole branch of fresh transactions restores the index at the common ancestor |
| `FreshIds.NoIdTwice` | wallet/block.cpp:1317-1321 | along every chain of well-shaped blocks with their heights in the coinbase that connects from the empty index no transaction id comes twice |
| `FreshIds.FreshAbove` | wallet/block.cpp:1317-1321 | the blocks above any point of such a chain have ids of their own |
| `FreshIds.GoesBack` | wallet/block.cpp:962-979 | so disconnecting the blocks above any point succeeds and gives the index the chain had there |
| `Archives.StepBack` | wallet/block.cpp:962-971 | disconnecting the last block of a connected chain cannot fail and leads to the replay of the chain below it |
| `Archives.SupplyNext` | wallet/block.cpp:656-658 | a block connected to the chain below it has the total of unspent outputs as its recorded supply, and the other records stay right |
| `Archives.UnarchivedIsLeaf` | wallet/block.cpp:1486-1512 | a block whose contents are not on disk has no block on top of it and is on no chain that can be read |
| `Node.FullNode.constructor` | wallet/block.cpp:741-745 | the node with only the genesis block: it alone is indexed, with the trust given, nothing is on disk, the transaction index is empty and its recorded supply is 0 |
| `Node.FullNode.ConnectNext` | wallet/block.cpp:509-704 | succeeds exactly if the block passes the checks on top of the replayed chain below it and all writes are taken; the index is then its replay, and otherwise the old one with what was written before the failure |
| `Node.FullNode.DisconnectLast` | wallet/block.cpp:963-970 | the index moves from the replay of a block to that of its predecessor; it fails only if the block cannot be read or the writes are not taken |
| `Node.FullNode.DisconnectAll` | wallet/block.cpp:962-979 | succeeds exactly if every block down to the common ancestor can be read and written, and then the index is the replay of the common ancestor |
| `Node.FullNode.ConnectAll` | wallet/block.cpp:981-997 | succeeds exactly if every block up to the new tip can be read, passes and is written, and then the index is the replay of the new tip |
| `Node.FullNode.ConnectPostponed` | wallet/block.cpp:776-791 | connects up to the first postponed block that cannot be; in a transaction of its own that block leaves the index at its predecessor, otherwise what it wrote stays |
| `Node.FullNode.Rewrite` | wallet/block.cpp:924-1003 | succeeds exactly if everything between the two tips and their greatest common ancestor can be disconnected and connected, and then the index is the replay of the new tip |
| `Node.FullNode.Extend` | wallet/block.cpp:706-731 | a block on top of the best one becomes best exactly if it passes and is written; the index is then its replay, and on failure in its own transaction as before |
| `Node.FullNode.Switch` | wallet/block.cpp:749-792 | a block elsewhere becomes best exactly if the reorganisation to the lowest block of its branch that outweighs the best chain succeeds; the index is its replay exactly if all postponed blocks join |
| `Node.FullNode.SetBestChain` | wallet/block.cpp:733-809 | the exact condition for a block to become best and, beyond that, for the index to be its replay and the links to be complete, with and without transactions of its own |
| `Node.FullNode.VerifyInputsUnspent` | wallet/block.cpp:164-483 | the side-branch check with the branch it finds itself: a branch that cannot be read or ends in a block without contents is refused; on a branch that replays a block that keeps the rules passes exactly if its inputs can be looked up, are unspent on its chain and none comes twice |
| `Node.FullNode.JudgedByReplay` | wallet/block.cpp:164-483 | on a running node: what passes replays exactly if its inputs name outputs of its own chain, and what replays passes exactly if it spends no unqueued branch coinbase |
| `Node.FullNode.CheckContents` | wallet/block.cpp:1151-1202 | accepts exactly the blocks that keep the rules on their own contents |
| `Node.FullNode.IndexBlock` | wallet/block.cpp:1496-1512 | indexing and storing a block keeps the transaction index, the recorded supplies and every replay |
| `Node.FullNode.WriteToDisk` | wallet/block.cpp:1478-1527 | the block is indexed in any case; its contents stay on disk exactly if it does not outweigh the best chain or becomes best, and if that fails the transaction index is as before |
| `Node.FullNode.AcceptBlock` | wallet/block.cpp:1218-1344 | exactly which blocks are indexed, which of them are on disk and which becomes best, and when a postponed block fails; a block that is not indexed changes nothing |
| `Node.FullNode.TornIff` | wallet/block.cpp:665-670 | if a postponed block fails while an arriving block is written, the index that is committed is the replay of the block below exactly if nothing of it was written, and its own replay exactly if everything was |
| `Node.FullNode.Run` | wallet/block.cpp:733-809 | over every run of blocks and switches, reorganisations and failures included, the index is the plain replay of the main chain and the recorded supply of the best block the total of unspent outputs; if a postponed block fails, the replay of the block below it with what was written of it; a block that has lost its contents never gets them back |
| `Node.RefusesChild` | wallet/block.cpp:1478-1527 | a run in which a heavier block fails to connect and loses its contents, and a good block on top of it is refused although the two replay |
| `AddrMan.Manager.constructor` | wallet/addrman.h:382-390 | the empty tables agree |
| `AddrMan.Manager.Find` | wallet/addrman.cpp:81-92 | finds exactly the known addresses, with the entry that carries the address |
| `AddrMan.Manager.Create` | wallet/addrman.cpp:94-107 | the whole new state: the next id, at the end of the random order |
| `AddrMan.Manager.SwapRandom` | wallet/addrman.cpp:109-127 | the whole new state: two places of the random order exchanged, with their way back |
| `AddrMan.Manager.SelectTried` | wallet/addrman.cpp:129-151 | the bucket with up to four drawn entries shuffled to its front, and the position at which the least recently successful of them was found |
| `AddrMan.Manager.Draw` | wallet/addrman.cpp:139-147 | one round of the shuffle keeps what has been drawn and which of it is least recent |
| `AddrMan.SelectsLeastRecentIff` | wallet/addrman.cpp:133-150 | for every bucket of at least four: whatever is drawn the selected entry is as old as the oldest drawn, exactly if all entries of the bucket are equally old |
| `AddrMan.SelectsAnother` | wallet/addrman.cpp:133-150 | if two entries differ, draws for which a younger entry is selected |
| `AddrMan.FullBucket` | wallet/addrman.cpp:225-235 | a full tried bucket of this kind |
| `AddrMan.Manager.Drop` | wallet/addrman.cpp:193-202 | taking an entry out of a new bucket, and out of all tables with its last bucket, keeps them in agreement |
| `AddrMan.Manager.ShrinkNew` | wallet/addrman.cpp:153-205 | drops the first terrible entry of the bucket or, exactly if none is terrible, the oldest of four drawn at random; agreement is kept |
| `AddrMan.Manager.OldestOfFour` | wallet/addrman.cpp:178-192 | of four entries drawn at random the one with the oldest time |
| `AddrMan.Manager.MakeTried` | wallet/addrman.cpp:207-263 | the whole new state: the entry leaves all new buckets for its tried bucket; from a full bucket one entry goes back to the new table, none is lost |
| `AddrMan.Manager.Evict` | wallet/addrman.cpp:234-262 | evicts the selected entry; its new bucket is that of its source or, exactly if that is full, the one the new entry came from |
| `AddrMan.Manager.Exchange` | wallet/addrman.cpp:237-262 | the whole new state of an exchange: the entry takes the place, the one there goes to its new bucket |
| `AddrMan.Manager.Promote` | wallet/addrman.cpp:225-232 | the whole new state for a tried bucket with room |
| `AddrMan.Manager.FindBucket` | wallet/addrman.cpp:292-308 | the search from a random bucket on always finds a bucket with the entry: the exit for "no bucket" is unreachable |
| `AddrMan.Manager.Good` | wallet/addrman.cpp:265-314 | the whole new state: a known address with the same port is refreshed and ends up tried; no address is lost |
| `AddrMan.Manager.Update` | wallet/addrman.cpp:325-353 | the exact refreshed entry, and when another bucket may be given |
| `AddrMan.Manager.Place` | wallet/addrman.cpp:362-371 | the whole new state: the entry is in the bucket, and exactly if the bucket was full one other entry left it |
| `AddrMan.Manager.Introduce` | wallet/addrman.cpp:354-360 | the whole new state with the entry of an unknown address, in no bucket yet |
| `AddrMan.Manager.Add` | wallet/addrman.cpp:316-372 | the whole new state for unroutable, known and unknown addresses; at most one untried entry is lost, and only for a full bucket |
| `AddrMan.Manager.Attempt` | wallet/addrman.cpp:374-391 | exactly the last try and the attempt count of a known address with the same port change |
| `AddrMan.Manager.Connected` | wallet/addrman.cpp:513-531 | exactly the time of a known address changes, and only after twenty minutes |
| `AddrMan.Manager.GetAddr` | wallet/addrman.cpp:497-511 | the promised number of different addresses, from the front of the shuffled order; entries change their place only |
| `AddrMan.Manager.Run` | wallet/addrman.cpp:94-531 | every run of the operations, with any random draws and bucket functions, keeps all tables in agreement |
| `AddrTables.Capacity` | wallet/addrman.h:103-132 | tables in agreement hold at most 4096 tried and 16384 new addresses, 20480 in all |
| `AddrCheck.Check` | wallet/addrman.cpp:438-494 | returns zero exactly on the consistent tables |
| `AddrCheck.AgreeIsConsistent` | wallet/addrman.cpp:438-494 | tables in agreement are consistent |
| `AddrCheck.ConsistentWithoutAddress` | wallet/addrman.cpp:438-494 | tables that pass the check although `mapAddr` lacks the address of entry 0, everything else being in agreement |
| `AddrCheck.CheckAfterRun` | wallet/addrman.cpp:438-494 | the check returns zero after every run |
| `AddrDisk.Write` | wallet/addrman.h:273-318 | writing tables in agreement gives a file of the documented layout |
| `AddrDisk.RoomLeft` | wallet/addrman.h:341-360 | a tried bucket that is being rebuilt has room for every entry that was in it: no entry is lost |
| `AddrDisk.Read` | wallet/addrman.h:318-378 | reading such a file back gives tables in agreement with the same entries, reference counts and buckets, up to numbering |
| `AddrDisk.SaveAndLoad` | wallet/addrman.h:248-380 | the round trip: nothing but the numbering, the order and the time of the last try changes |
| `Merkle.Block.BuildMerkleTree` | wallet/block.cpp:59-74 | the flat vector is all levels in order, and the result is the merkle root |
| `Merkle.Block.GetMerkleBranch` | wallet/block.cpp:44-57 | the branch is the list of siblings from leaf to root |
| `Merkle.CheckMerkleBranch` | wallet/block.cpp:30-42 | climbs the branch; index -1 gives zero |
| `Merkle.BranchReachesRoot` | wallet/block.cpp:30-74 | for every leaf of every tree, odd levels included, climbing its branch ends at the root |
| `Merkle.ClimbedInjective` | wallet/block.cpp:30-42 | with an injective hash only the leaf climbs its branch to the root |
| `Merkle.Block.ProveInclusion` | wallet/block.cpp:30-74 | the three operations together: the check succeeds for every transaction |
| `PartialMerkle.WidthIsNodes` | wallet/main.h:596 | the shift formula counts the nodes of each level |
| `PartialMerkle.TopIsRoot` | wallet/main.cpp:1375-1391 | the recursive hash of the top node is the root of the flat tree |
| `PartialMerkle.PartialMerkleTree.constructor` | wallet/main.cpp:1446-1461 | builds exactly the specified bits and hashes |
| `PartialMerkle.PartialMerkleTree.TraverseAndBuild` | wallet/main.cpp:1393-1412 | appends exactly the bits and hashes of the subtree |
| `PartialMerkle.PartialMerkleTree.TraverseAndExtract` | wallet/main.cpp:1414-1444 | follows the specified walk, or sets the failure flag exactly when bits or hashes run out |
| `PartialMerkle.PartialMerkleTree.ExtractMatches` | wallet/main.cpp:1465-1500 | the root and the matches exactly if all checks pass, zero otherwise |
| `PartialMerkle.BuiltSizes` | wallet/main.cpp:1476-1481 | a built subtree has at least one bit per hash and at most one hash per leaf |
| `PartialMerkle.FewHashes` | wallet/test/pmt_tests.cpp:65-67 | the number of hashes is at most one plus matches times height |
| `PartialMerkle.ParseBuilt` | wallet/main.cpp:1393-1444 | the walk over what was built below a node recovers its hash and its matches and stops behind it |
| `PartialMerkle.RoundTrip` | wallet/main.cpp:1375-1500 | for every list of 1 to 16666 transactions and every mask the built tree, padded to bytes or not, is accepted and gives the root and exactly the matches in order |
| `PartialMerkle.ParseSound` | wallet/main.cpp:1414-1444 | with an injective hash, any walk that ends in the hash of a node of the block found only leaves of that node, in order |
| `PartialMerkle.Soundness` | wallet/main.cpp:1414-1500 | any accepted contents that give the block's root give only its transactions, in increasing position |
| `PartialMerkle.Tampering` | wallet/test/pmt_tests.cpp:84-91 | with an injective hash no two accepted lists of hashes give the same root with the same bits |
| `PartialMerkle.WriteBits` | wallet/main.h:621-624 | the bytes hold exactly the bits, eight to a byte, lowest first, padded with zeros |
| `PartialMerkle.ReadBits` | wallet/main.h:613-620 | reads every bit of every byte |
| `PartialMerkle.SendAndExtract` | wallet/main.h:611-635 | building, writing, reading and extracting gives the block's root and exactly the matches |
| `PartialMerkle.ExtractTrusted` | wallet/main.cpp:1465-1500 | whatever the contents, a result that is the block's root, other than zero, comes with leaves only |
| `Miner.Inspect` | wallet/miner.cpp:199-239 | the parents a transaction waits for, its priority weight and its input value, or that an input is unknown |
| `Miner.Collect` | wallet/miner.cpp:187-255 | every eligible transaction is ready or waits for exactly its parents in memory, and every parent knows who waits for it |
| `Miner.Pop` | wallet/miner.cpp:89-109 | takes a highest candidate in the order in force |
| `Miner.Decide` | wallet/miner.cpp:278-384 | lets a candidate in exactly if the stated rules admit it; keeps size, signature operations, fees, issued symbols and the replayed index exact |
| `Miner.Release` | wallet/miner.cpp:391-404 | exactly the candidates that waited for this transaction alone become ready, each once |
| `Miner.CreateNewBlock` | wallet/miner.cpp:187-405 | terminates; no transaction twice, parents first, both budgets kept, fees exact; every decision is right and on a highest ready candidate, and what is left out was refused or waits for a parent that is not in |
| `Miner.AllParentsFirst` | wallet/miner.cpp:203-230 | if the memory pool and the disk share no transaction, every parent in the memory pool comes first |
| `Miner.AssembledSpends` | wallet/miner.cpp:370-380 | the block spends nothing twice and nothing spent on disk |
| `PopLeaf.FewerAncestors` | wallet/main.cpp:1179-1189 | without cycles a transaction has strictly more ancestors in the list than any it spends from |
| `PopLeaf.PopLeafTransaction` | wallet/main.cpp:1170-1191 | terminates on every list in which no chain of spending returns to its start; the result and the rest are the list, and the result spends from nothing left |
| `PopLeaf.WriteOrder` | wallet/main.cpp:1223-1235 | on every such list: all transactions, none before one it spends from |
| `PopLeaf.OrderedIsAcyclic` | wallet/main.cpp:1170-1191 | every block whose transactions spend from earlier ones only is acyclic |
| `StakeModifier.GetLastStakeModifier` | wallet/kernel.cpp:42-54 | finds the nearest generating ancestor-or-self |
| `StakeModifier.SelectionInterval` | wallet/kernel.cpp:57-71 | the sum of all sections |
| `StakeModifier.SelectBlock` | wallet/kernel.cpp:76-115 | succeeds exactly if a candidate is unselected; picks the least selection hash up to the stop time, or else the earliest candidate |
| `StakeModifier.SelectBits` | wallet/kernel.cpp:167-186 | all of the min(64, n) rounds succeed, each with a block not chosen before; bit i is the entropy bit of choice i |
| `StakeModifier.Generate` | wallet/kernel.cpp:151-186 | the candidates are the recent blocks sorted by time and hash; a full selection stops exactly at the interval boundary |
| `StakeModifier.ComputeNextStakeModifier` | wallet/kernel.cpp:130-217 | inherits within an interval and generates after it; fails exactly if no ancestor generated |
| `StakeModifier.InheritsNext` | wallet/block.cpp:1081-1086 | indexing a block keeps the invariant below |
| `StakeModifier.StakeIndex.Add` | wallet/block.cpp:1081-1089 | refuses exactly known blocks and those the modifier checkpoints reject; the whole new entry, generated exactly when the interval has passed |
| `StakeModifier.StakeIndex.Run` | wallet/block.cpp:1081-1086 | whatever blocks come in, every indexed block stores the modifier of its nearest generating ancestor-or-self |
| `VarInt.Read` | wallet/serialize.h:310-324 | what is read is the encoding of what is returned; it fails exactly if the input does not begin with an encoding |
| `VarInt.ReadUnsigned` | wallet/serialize.h:310-323 | into an unsigned integer of any width: the bytes read are an encoding, and the value is the number encoded, wrapped around; it is that number exactly if it fits |
| `VarInt.Write` | wallet/serialize.h:293-308 | writes the encoding; of a negative number only the low seven bits |
| `VarInt.Size` | wallet/serialize.h:280-291 | the length of what is written |
| `VarInt.PrefixFree` | wallet/serialize.h:258-278 | every integer has exactly one encoding and none is a prefix of another |
| `VarInt.ReadBack` | wallet/serialize.h:293-324 | writing and reading gives the same number and stops in the right place |
| `Amount.DecompressCompress` | wallet/main.cpp:2934-2977 | every amount comes back, without limits on its size |
| `Amount.CompressDecompress` | wallet/main.cpp:2934-2977 | every number is the compact form of an amount |
| `Amount.CompressAmount` | wallet/main.cpp:2934-2951 | the 64-bit loop computes the compact form modulo 2^64 |
| `Amount.DecompressAmount` | wallet/main.cpp:2953-2977 | the 64-bit loop computes the amount modulo 2^64 |
| `Amount.AmountBack` | wallet/main.cpp:2934-2977 | in 64-bit arithmetic a number comes back exactly if it ends in a zero or its compact form, about its ninefold, is below 2^64: no wrapped form happens to give the same number |
| `Amount.WrappedIsLost` | wallet/main.cpp:2934-2977 | every number whose compact form does not fit becomes another one |
| `Amount.AmountLost` | wallet/main.cpp:2934-2977 | an example: the largest amount of money |
| `Coins.SpecialOk` | wallet/script.cpp:2181-2304 | every special script is rebuilt from its kind and data |
| `Coins.ReadScript` | wallet/script.h:642-675 | reads back every script |
| `Coins.ReadOut` | wallet/main.h:210-233 | reads back every written output, with its amount as 64-bit compression leaves it |
| `Coins.RestoredIff` | wallet/main.h:221-232 | an output survives exactly if the compact form of its amount fits 64 bits |
| `Coins.CalcMaskSize` | wallet/main.h:394-411 | the number of mask bytes up to the last used one, and the number of used ones |
| `Coins.CodeOk` | wallet/main.h:447-449 | the header code holds the coinbase flag, the first two outputs and the number of used mask bytes |
| `Coins.Serialize` | wallet/main.h:440-469 | writes the documented format |
| `Coins.GetSerializeSize` | wallet/main.h:415-438 | is the number of bytes written |
| `Coins.ReadMask` | wallet/main.h:480-494 | the loop ends with the last used mask byte and restores every flag |
| `Coins.Cleanup` | wallet/main.h:377-381 | removes exactly the spent outputs at the end |
| `Coins.Unserialize` | wallet/main.h:471-504 | for every written record: the outputs as they survive, without spent ones at the end, and negative numbers reduced to seven bits |
| `Coins.WriteAndRead` | wallet/main.h:377-504 | a record comes back exactly if its version and height are not negative, the amounts of its unspent outputs have a compact form that fits, and its spent outputs are empty; the size is that of the bytes |
| `Coins.VersionLost` | wallet/serialize.h:293-308 | a record of version -1 comes back with another version |
| `Base58.ConvertBack` | wallet/base58.h:27-119 | changing the base and back gives the same digits, leading zeros included, for any two bases |
| `Base58.EncodeBase58` | wallet/base58.h:27-65 | the text spells the bytes in base 58 with as many leading zeros |
| `Base58.DecodeBase58` | wallet/base58.h:75-119 | accepts exactly letters between spaces; the bytes are the same number with as many leading zeros |
| `Base58.EncodeDecode` | wallet/base58.h:27-119 | every byte string comes back |
| `Base58.DecodeEncode` | wallet/base58.h:27-119 | every text over the alphabet comes back |
| `Base58.EncodeBase58Check` | wallet/base58.h:132-139 | the text of the bytes followed by their checksum |
| `Base58.DecodeBase58Check` | wallet/base58.h:143-160 | accepts exactly what ends in its own checksum, and returns what is before it |
| `Base58.CheckedRoundTrip` | wallet/base58.h:132-160 | every byte string comes back, whatever the checksum function |
| `Base58.CheckedReencoded` | wallet/base58.h:132-160 | an accepted text without spaces is the encoding of what it decodes to |
| `MedianTime.GetMedianTimePast` | wallet/blockindex.h:72-90 | the median of the last eleven times, or of all if there are fewer |
| `MedianTime.MedianStep` | wallet/blockindex.h:72-90 | a time above the median does not lower it, whether the window grows or slides |
| `MedianTime.MedianMonotone` | wallet/block.cpp:1280-1282 | along every chain whose times exceed the median before them the median never decreases |
| `MedianTime.AcceptTimes` | wallet/block.cpp:1280-1282 | of any times offered exactly those above the median that pass the other checks are taken, and the median never decreases |
| `Locator.Set` | wallet/blocklocator.cpp:21-35 | entry i lies i blocks back up to 11 and 9 + 2^(i-10) after that; then the genesis block |
| `Locator.GetDistanceBack` | wallet/blocklocator.cpp:37-54 | the distance of the first known entry, from its position alone |
| `Locator.GetBlockIndex` | wallet/blocklocator.cpp:56-68 | the first known entry, or the genesis block |
| `Locator.Overshoot` | wallet/blocklocator.cpp:21-68 | for a fork f > 0 blocks back the block found is at least f and less than 2f back |
| `Locator.Locate` | wallet/blocklocator.cpp:21-68 | the three together; the distance is exact unless only the appended genesis block was found |

## Left out

- Networking, RPC, wallet, user interface, relaying of checkpoints, the memory pool's own acceptance rules
  and the transactions re-entering it after a reorganisation: plumbing around what is modelled.
- Database calls are answers given from outside; that a transaction, once committed or aborted, is applied whole or
  not at all is taken for granted, and that the commit at the end of `WriteToDisk`, whose result is not looked at,
  succeeds.
- Script execution, signatures, elliptic curves and hash functions: parameters, injective only where a lemma says so.
  `Coins` assumes that a valid public key survives compression.
- Difficulty retargeting and the trust of a single block: a block's work is given.
- The token logic (BFXT): what it answers is a parameter of `Miner.CreateNewBlock`.
- `Select_` and `GetChance` of the address manager: floating-point chances, and a loop that ends only with
  probability one.
- `ResetSyncCheckpoint` and loading the block index: start-up steps outside the runs considered.
- The branch of `SetBestChain` for the genesis block: the model starts with it indexed.
- The fields that only report invalid chains and the best invalid trust.
- Coin values and block trust are unbounded integers; overflow is modelled where the code checks the range of
  money, in 64-bit amounts and in 32-bit times.
- Undo records and `CCoins::Spend`: easy members beside the codec.
- `GetKernelStakeModifier` and the kernel hash: they read the stored modifiers only.
- AddrDisk.Read: a file with another number of new buckets is read as the code does, but nothing is stated about
  the result; with more than 256 buckets the code also forms a reference out of range that it never uses, which is
  not modelled.  A stream that ends early or holds a value of the wrong kind fails, where the code would throw or
  misread bytes.
- Miner.Collect: when a transaction turns out to have an unknown input after one it waits for, the code leaves
  pointers to a destroyed list element behind (wallet/miner.cpp:216-217); the model drops the transaction.
  Priorities are real numbers instead of floating point.
- VarInt.Read: reads without a width, `VarInt.ReadUnsigned` with one; reading into a signed integer a number that does
  not fit is undefined in the code and not modelled.
- StakeModifier.SelectBits: bits are set by addition, which is the same as or-ing while none of them is set.
- ConnectBlock.SupplyGrowth: for a proof-of-work block with coinstakes the bound contains their excess;
  `ConnectBlock.WorkGrowthIff` states the exact condition.
- Node.FullNode.AcceptBlock: the checks that do not concern the block's own contents or the index are one answer from
  outside, together with the start of the transaction and the write of the contents.  Checkpoints appear as switches
  to a block; `ChainState` has their rules.
- Node.FullNode.VerifyInputsUnspent: nothing is stated about a block on top of a branch that does not replay, except
  that it is refused if the branch cannot be read; such a branch can never become the main chain.
- FreshIds.NoIdTwice: that a coinbase script begins with the encoding of at most one height, and that equal ids
  mean equal transactions, is taken for granted.
