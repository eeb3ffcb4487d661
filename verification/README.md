# A verified model of the node's ledger, block tree and supporting structures

This project models the parts of the node (a Bitcoin Core 0.10 descendant) whose correctness rests
on invariants across functions, and proves those invariants and what follows from them. Run
`dafny verify dfyconfig.toml` to check all of it.

| files | what they model |
|---|---|
| `Coins`, `UtxoSet`, `CoinsCache`, `BlockCoins` | the unspent outputs of a transaction; the plain map from txid to them; the stack of write-back caches that refines it; connecting and disconnecting blocks on such a stack |
| `BlockRules`, `Supply`, `ChainState` | the value rules of `CheckTransaction`, `CheckInputs` and `ConnectBlock`; conservation of value, the subsidy schedule and the supply; whole histories of connects and disconnects |
| `Outputs`, `Acceptance`, `Maturity` | the coin set output by output, apart from how it is stored; which blocks are accepted; the coinbase rule over the whole tree |
| `BlockNodes`, `Chain` | the tree of headers with its skip pointers; the active chain, forks and locators |
| `BlockStatus`, `TreeSteps`, `TreeJudgement`, `FirstSeen`, `TreeCheck` | what the node knows of its blocks, the invariant, every single change, the rule that the first chain seen stays, and `CheckBlockIndex` |
| `ChainCoins`, `TipCoins` | which blocks connect and the coins their paths make; the coins of the tip with their undo data |
| `BestChain`, `TreeRuns` | the operations that receive blocks and activate the best chain, on tree and coins together; runs of several of them |
| `CheckQueue` | the script check queue as atomic steps of one master and any number of workers |
| `AddrTables`, `AddrSteps`, `AddrMan`, `AddrGroups` | the address manager's six indexes, its changes on values, the class with its bucket arrays, and how far one group of addresses can spread |
| `AddrCheck`, `AddrSerial`, `AddrStream`, `AddrReadBack` | its consistency check, reading any stream, where its entries go, and reading back what was written |
| `MerkleTree`, `MerkleBlock`, `AuxPow` | the Merkle tree of a block, partial ones, and merged-mining proofs |
| `Positional`, `Base58`, `Compressor`, `CoinsCodec` | Base58 in its estimated buffers, amount and script compression, and the stored form of unspent outputs |
| `BdbPages`, `BdbTree`, `BdbRead`, `BdbBytes`, `BdbShape`, `BdbScan` | the Berkeley DB reader: pages and overflow chains, the tree walk, strict and lenient reading, and all of it in bytes of the file |
| `Options`, `RawBytes`, `Powers`, `Sets`, `Collisions` | the option type, bytes, powers of two and remainders, sizes of finite sets, colliding pairs |

## How to read it

The source changes state in place, so its objects are classes here (`CoinsViewCache`, `CChain`,
`BlockTree`, `CCheckQueue`, `CAddrMan`, `CPartialMerkleTree`). Each method is proved against a
function or predicate on plain values, and the theorems are lemmas about those values. `hide`
at the head of a body keeps definitions out of a proof that does not need them.

A definition that follows the source is not left to speak for itself. What it means is stated once
more in other terms and proved: coins by single outputs (`Outputs`), the order of candidates by work
and number (`FirstSeen`), the quality of an address by its fields (`AddrSteps.TerribleExactly`), the
Berkeley DB reader by bytes (`BdbBytes`, `BdbShape`, `BdbScan`), the Merkle tree by levels
(`MerkleTree`), the subsidy and the compact forms by numbers (`Supply.Schedule`,
`Compressor.CodeOfAmount`).

Hashes are functions given from outside. Every hash of fixed size has collisions, so a theorem that
rests on there being none says what happens or else which pairs, hashed in the case at hand, collide.
A block, though, is named by its hash as in the block index: `ChainCoins.World` gives one header and
one list of transactions for each name, and whether its scripts are valid. Whether `ConnectBlock`
accepts a block is worked out from the transactions on its path. What the disk and the checks
without context answer is a parameter, chosen anew at each call.

## What the proofs found

* `CheckBlockIndex` asks for every good block no worse than the tip among the candidates. That
  holds after every successful activation, and receiving headers and blocks keeps it. A
  `DisconnectTip` always breaks it (`TreeCheck.DisconnectFailsCheck`). After a step of activation,
  finished or cut short, it holds if and only if the tip does not sort below the tip the step
  began with (`TreeCheck.CheckAfterStep`); `TreeRuns.CutShort` is a run in which it fails.
* `ConnectTip` and `DisconnectTip` flush the coins, then write to disk if that is due, and only then
  move the tip. If the disk fails in between, the coins are left one block off the tip; otherwise
  activation leaves them at the tip however it ends (`Coupled` in the contracts of `BestChain`,
  `TreeRuns.FullDisk` is a run). The node is shutting down by then, and could not go on:
  the next assertion on the best block of the view would fail (`BestChain.BlockTree.AdriftStops`).
* The header comment of `initAuxPow` says the structure it builds passes `check`. It does unless
  the chain is chain 0, which the fabricated parent block claims to be, or the hash contains the
  merged-mining magic, or it consists of the push opcode only (`AuxPow.InitPassesExactly` gives
  the exact condition, `AuxPow.InitCanFail` an instance).
* The test of `BuildMerkleTree` for a repeated end is enough for lists of one height
  (`MerkleTree.OneListForRoot`), and needed (`MerkleTree.RepeatedHasTwin`).
* The comment in `getExpectedIndex` is right that 32-bit overflow is harmless, for the heights `check`
  allows (`AuxPow.SlotWithoutOverflow`). The slots of two chains do not depend on luck, though: they
  collide if and only if the chain numbers agree in the lowest bits, for every nonce
  (`AuxPow.SlotsCollideExactly`).
* BIP 30 is tested only against the set before the block. That is enough to exclude two equal
  txids inside one block as well (`UtxoSet.AcceptedTxidsAreDistinct`).
* The design goal that no localized attacker fills the address tables holds in numbers: at most 512
  addresses of one group are tried at a time (`AddrGroups.GroupIsConfined`), and the sources of one
  group change 64 of the 1024 new buckets only (`AddrGroups.SourcesAreConfined`).
* The bail-out of `Good_` for an entry found in no bucket is dead (`AddrSteps.ListedSomewhere`).
* `Check_` misses three things only: an entry whose address is not in `mapAddr` (if its id is 0,
  since reading a missing key yields 0), keys of `mapAddr` that belong to no entry, and ids not
  below `nIdCount` (`AddrCheck.PassingIsConsistent`).
* The guards around reads inside an item are never needed in the Berkeley DB reader: an accepted
  item offset keeps them inside the page, and an accepted page inside the bytes.

## Model

| member | source | states |
|---|---|---|
| `Coins.TrimUnique` | src/coins.h:111-117 | `Trim` is the only prefix of `vout` that ends unspent and behind which all is spent |
| `Coins.Cleanup` | src/coins.h:111-117 | dropping spent outputs from the end one at a time gives exactly that prefix |
| `Coins.ClearUnspendable` | src/coins.h:119-125 | all unspendable outputs are nulled, then the record is trimmed |
| `Coins.FromTxIsLiveOrEmpty` | src/coins.h:88-94 | a record made from a transaction is either empty or trimmed with something unspent, nulls in canonical form; it knows whether that was a coinbase, its height and its version |
| `Coins.Spend` | src/coins.cpp:34-48 | succeeds exactly for an output that is there; nulls it, trims, and records the metadata exactly when nothing is left |
| `Coins.SpendKeepsLive` | src/coins.cpp:34-48 | what is left after a spend is empty or again a live, trimmed record |
| `Coins.RestoreAfterSpend` | src/main.cpp:1651-1668 | restoring an output from its undo record gives back the record it was spent from, trimmed tail and metadata included, and reports clean |
| `UtxoSet.SpendInputKeepsGood` | src/main.cpp:1469-1476 | spending one input keeps every record of the set live and trimmed |
| `UtxoSet.RestoreInputAfterSpend` | src/main.cpp:1651-1668 | for one input: restore after spend is the identity on the whole set, with no mismatch |
| `UtxoSet.RestoreInputsAfterSpends` | src/main.cpp:1643-1670 | for all inputs of a transaction, undone last first |
| `UtxoSet.RemoveOutputsAfterUpdate` | src/main.cpp:1621-1641 | removing a transaction's outputs finds exactly what `UpdateCoins` added |
| `UtxoSet.LastTxidIsNew` | src/main.cpp:1803-1810 | with distinct txids and BIP 30 satisfied the last transaction's id is not in the set it is added to |
| `UtxoSet.DisconnectUndoesConnect` | src/main.cpp:1597-1682 | for every block with distinct txids, BIP 30 and inputs available at each step, in-block spends included: `DisconnectBlock` after the `UpdateCoins` loop is the identity on the set and clean |
| `UtxoSet.SpendsSucceedExactly` | src/main.cpp:1469-1476 | the spends of a transaction all succeed if and only if its inputs are distinct and each is available |
| `Outputs.SpendInputsEntries` | src/main.cpp:1469-1476 | output by output: exactly the inputs are gone, value, script and metadata of every other one stay |
| `Outputs.UndoExactly` | src/coins.cpp:34-48 | what a spend records: the output, and what is known of its transaction exactly if nothing else of that is left |
| `Outputs.UpdateEntries` | src/main.cpp:1464-1483 | output by output: an output of the transaction is there if and only if it does not start with OP_RETURN, with its value and script, the height, the version, and whether the transaction is a coinbase; the inputs are gone; all else is as it was |
| `Outputs.RestoreEntries` | src/main.cpp:1651-1668 | for any undo record, true or not: taken for clean exactly if the output is not there and the record has metadata exactly when nothing of its transaction is there; then that output is there as the record says, and nothing else changes |
| `Outputs.RemoveEntries` | src/main.cpp:1621-1641 | removal is taken for clean exactly if the outputs are there as the transaction makes them, all unspent, negative versions aside; then they are gone and nothing else is |
| `Outputs.SpendableExactly` | src/main.cpp:1507-1535 | an input may be spent exactly if it is there, not negative and, from a coinbase, 100 blocks deep; the inputs together cover the outputs and stay in the money range |
| `Outputs.NoneSpendsUnripe` | src/main.cpp:1517-1523 | no transaction of a block that connects spends a coinbase output less than 100 blocks deep, and it is still there afterwards |
| `Maturity.CoinBaseWaits` | src/main.cpp:1517-1523 | over the whole tree: on every branch that connects, an output of a coinbase is there, unspent, for the next 99 blocks |
| `Maturity.PrematureSpendRefused` | src/main.cpp:1517-1523 | a block that spends an output of a coinbase less than 100 blocks before it does not connect |
| `UtxoSet.ConnectTxsKeepsGood` | src/main.cpp:1850-1905 | connecting a block keeps every record of the set live and trimmed |
| `UtxoSet.SpentStaysSpent` | src/main.cpp:1850-1905 | an output a block has spent is not there again later in the block, if txids identify transactions |
| `UtxoSet.AcceptedTxidsAreDistinct` | src/main.cpp:1794-1810 | the BIP 30 loop, which looks only at the set before the block, is enough: an accepted block has no two transactions with one id |
| `CoinsCache.SetEntry` | src/coins.cpp:153-187 | setting a cache entry that agrees with the layer below changes the meaning of the layer at that txid only |
| `CoinsCache.DropEntry` | src/coins.cpp:169-176 | an entry that the layer below shows nothing for can be erased, and then the layer shows nothing for it |
| `CoinsCache.WriteOne` | src/coins.cpp:153-187 | writing one child entry and then the others gives the same set as writing them all |
| `CoinsCache.CoinsViewDB.BatchWrite` | src/txdb.cpp:46-64 | the database becomes the meaning of the cache written to it; spent records are erased, the best block set if there is one |
| `CoinsCache.CoinsViewCache.FetchCoins` | src/coins.cpp:81-96 | reading changes no layer's meaning and no entry already cached; null exactly when nothing below has a record |
| `CoinsCache.CoinsViewCache.BaseGetCoins` | src/coins.cpp:98-105 | the next layer's answer is its meaning at the txid, and a record that came from a cache is now held there |
| `CoinsCache.CoinsViewCache.AccessCoins` | src/coins.cpp:125-132 | gives the record the layer means, at any depth of the stack |
| `CoinsCache.CoinsViewCache.HaveCoins` | src/coins.cpp:134-141 | true exactly when the layer's meaning has something unspent under the txid |
| `CoinsCache.CoinsViewCache.ModifyCoins` | src/coins.cpp:107-123 | opens the record for writing without changing any meaning; the entry is dirty, and FRESH only if nothing unspent is below |
| `CoinsCache.CoinsViewCache.ReleaseModifier` | src/coins.cpp:249-262 | closing the modifier changes the meaning at one txid, to the trimmed record left in it; erasing a FRESH pruned entry is part of that |
| `CoinsCache.CoinsViewCache.GetBestBlock` | src/coins.cpp:143-147 | the hash of the nearest layer that has one, cached without changing any layer's answer |
| `CoinsCache.CoinsViewCache.SetBestBlock` | src/coins.cpp:149-151 | sets this layer's hash |
| `CoinsCache.CoinsViewCache.BatchWrite` | src/coins.cpp:153-187 | the parent's meaning becomes the child's; entries are consumed and the FRESH assertion holds |
| `CoinsCache.CoinsViewCache.WriteNext` | src/coins.cpp:155-184 | one round of that loop, for an arbitrary dirty or clean entry of the child |
| `CoinsCache.CoinsViewCache.WriteEntry` | src/coins.cpp:157-181 | all four cases of found or not, FRESH or not, pruned or not |
| `CoinsCache.CoinsViewCache.Flush` | src/coins.cpp:189-193 | after a flush the layer below means what this one meant, this one is empty and still means the same |
| `CoinsCache.CoinsViewCache.UtxoProper` | src/coins.cpp:81-193 | at any depth, every record a layer shows is trimmed and not empty |
| `CoinsCache.CoinsViewCache.HaveInput` | src/coins.cpp:218-230 | true exactly when the output is available in the layer's meaning |
| `CoinsCache.CoinsViewCache.HaveInputs` | src/coins.cpp:218-230 | true exactly when all inputs are available; a coinbase needs none |
| `BlockCoins.SpendOne` | src/main.cpp:1469-1476 | one input is spent through a modifier as on the plain map, undo record included |
| `BlockCoins.SpendAll` | src/main.cpp:1469-1476 | the loop over inputs computes `SpendInputs` of the plain map; the assertion on `Spend` never fires for available distinct inputs |
| `BlockCoins.UpdateView` | src/main.cpp:1469-1483 | `UpdateCoins` on a stack of caches is `UpdateCoins` on the plain map |
| `BlockCoins.RemoveTx` | src/main.cpp:1621-1641 | removes a transaction's outputs and says whether they were as the block has them |
| `BlockCoins.RestoreOne` | src/main.cpp:1651-1668 | restores one input, metadata and vector growth included, and says whether anything was overwritten or missing |
| `BlockCoins.RestoreAll` | src/main.cpp:1643-1670 | restores the inputs of a transaction in reverse |
| `BlockCoins.UndoOne` | src/main.cpp:1617-1671 | undoes one transaction of a block |
| `BlockCoins.DisconnectBlock` | src/main.cpp:1597-1682 | computes `DisconnectTxs` of the plain map: same set, same clean flag, same failure on inconsistent undo data |
| `BlockRules.CheckTransaction` | src/main.cpp:850-906 | accepts exactly the transactions with inputs, outputs, values and sums in range, no duplicate inputs, and null inputs only in a coinbase |
| `BlockRules.CheckDuplicateInputs` | src/main.cpp:880-888 | the set-based loop detects duplicates exactly |
| `BlockRules.CheckBlock` | src/main.cpp:2621-2680 | accepts exactly the blocks that are not empty, have one coinbase, first, and pass `CheckTransaction` |
| `BlockRules.BlockInFull` | src/main.cpp:850-900 | what `CheckBlock` and `CheckTransaction` ask, written out in inputs, outputs and numbers |
| `BlockRules.CheckInputs` | src/main.cpp:1493-1546 | accepts exactly when inputs are available and mature, all partial sums are money, value in covers value out and the fee is money |
| `BlockRules.GetValueIn` | src/coins.cpp:206-216 | sums the values of the outputs spent |
| `BlockRules.GetValueOut` | src/primitives/transaction.cpp:90-100 | sums the outputs, which stay in the money range |
| `BlockRules.GetBlockValue` | src/main.cpp:1281-1320 | subsidy plus fees, for both networks and all special heights |
| `BlockRules.ConnectTx` | src/main.cpp:1850-1905 | one round of the `ConnectBlock` loop: checks, fees, spending and undo data |
| `BlockRules.ConnectAll` | src/main.cpp:1850-1905 | the whole loop gives the fold over the plain map |
| `BlockRules.ConnectBlock` | src/main.cpp:1749-1964 | on a cache stack: accepts exactly the blocks `Accepts` describes, and then the view means the connected set with its undo data and best block |
| `BlockRules.NoneOverwritten` | src/main.cpp:1803-1810 | the BIP 30 loop is exact |
| `BlockRules.ConnectCheckedConnects` | src/main.cpp:1850-1905 | a block that passes all checks connects on the plain map, with that undo data |
| `Acceptance.AcceptedExactly` | src/main.cpp:1749-1964 | which blocks those are, transaction by transaction: well-formed, with no output of their txids there if that rule is on, every input there by then and ripe, no transaction making more than it spends, and a coinbase of at most the subsidy and what the others leave |
| `Supply.SpendInputsTotal` | src/main.cpp:1525-1546 | spending takes exactly the value in out of the total |
| `Supply.AddOutputsTotal` | src/main.cpp:1481-1482 | adding outputs adds at most the value out (unspendable outputs are lost) |
| `Supply.BlockConservesValue` | src/main.cpp:1910-1914 | an accepted block raises total unspent value by at most its subsidy |
| `Supply.BlockBalance` | src/main.cpp:1850-1914 | to the last coin: a block changes the total by what its coinbase pays, less the fees, less what OP_RETURN outputs burn |
| `Supply.FeesFitInt64` | src/main.cpp:1877 | while a block that passes `CheckBlock` is connected, accepted in the end or not, to a set worth at most MAX_MONEY: the running fee total and the next value in are between 0 and 2 * MAX_MONEY, so no sum formed on the way leaves 64 bits |
| `Supply.SupplyBelowMaxMoney` | src/amount.h:16-30 | on mainnet the sum of the subsidies up to any 32-bit height is below `MAX_MONEY` |
| `Supply.Schedule` | src/main.cpp:1281-1320 | the subsidy of every mainnet height, as one table |
| `Supply.TestSchedule` | src/main.cpp:1281-1295 | and of every height of the test networks |
| `Supply.IssuedByEra` | src/main.cpp:1281-1320 | the exact number of coins issued by the end of each era, and by every height from then on |
| `ChainState.ConnectTip` | src/main.cpp:2136-2152 | connecting over a fresh layer and flushing it changes the tip's meaning exactly when the block is accepted |
| `ChainState.DisconnectTip` | src/main.cpp:2080-2088 | disconnecting over a fresh layer and flushing it |
| `ChainState.DisconnectStepsBack` | src/main.cpp:2072-2109 | from any reachable state, disconnecting the last block succeeds and gives the state before it |
| `ChainState.HistoryLeavesNoResidue` | src/main.cpp:2072-2183 | after any history of connects and disconnects, the set is that of connecting the remaining blocks alone |
| `ChainState.SameBlocksSameSet` | src/main.cpp:2072-2183 | two histories that end with the same blocks end with the same set |
| `ChainState.StepKeepsReplayed` | src/main.cpp:2072-2183 | what every single connect or disconnect keeps |
| `ChainCoins.ConnectsAllTheWay` | src/main.cpp:2136-2152 | with the answers of `ConnectBlock` worked out from the transactions: a block connects with all its ancestors exactly if the blocks on its path can be replayed onto the empty coin set |
| `ChainCoins.CoinsAreSound` | src/main.cpp:1749-1964 | the coin set at such a block is well-formed and worth at most the subsidies up to its height |
| `ChainCoins.CoinsStepBack` | src/main.cpp:1597-1682 | disconnecting a block with its undo data gives the coin set of its parent |
| `ChainCoins.ActiveChainIsBestValid` | src/main.cpp:2328-2374 | the chain activation ends with can be replayed, its coin set is sound, and no block with all data that can be replayed has more work |
| `TipCoins.CoinsTip.Connect` | src/main.cpp:2136-2152 | `ConnectTip` on the coins, undo data stored: they accept the block exactly if it connects with all its ancestors, and then become what its path makes of the empty set |
| `TipCoins.CoinsTip.Disconnect` | src/main.cpp:2080-2088 | `DisconnectTip` on the coins always works with the stored undo data, and they become those of the parent |
| `BlockNodes.GetAncestor` | src/main.cpp:2904-2926 | with skip pointers: the ancestor that parent steps alone reach, null exactly for heights out of range; terminates |
| `BlockNodes.GetSkipHeight` | src/main.cpp:2894-2902 | the skip height is below the height |
| `BlockNodes.InvertLowestOneIsBitwise` | src/main.cpp:2891 | the recursion on binary digits is `n & (n - 1)` |
| `BlockNodes.InvertLowestOneClearsOneBit` | src/main.cpp:2890-2891 | that is n without its lowest set bit |
| `BlockNodes.SkipHeightIsBitwise` | src/main.cpp:2894-2902 | the skip height in bits: one bit cleared at even heights, the two above the lowest at odd ones |
| `BlockNodes.AncestorOfAncestor` | src/main.cpp:2904-2926 | walking up in two stages is walking up |
| `BlockNodes.PathIsAncestors` | src/main.cpp:2904-2926 | the ancestor at a height is the entry of the path at that index |
| `BlockNodes.AncestorWork` | src/chain.h:116-130 | work strictly grows along a path |
| `BlockNodes.AddNodeKeepsShape` | src/main.cpp:2933-2937 | a new block with the skip pointer `BuildSkip` gives it keeps all heights, works and skip pointers right |
| `Chain.CChain.SetTip` | src/chain.cpp:13-23 | the whole ancestor path, in spite of the early exit at the first entry that is already right |
| `Chain.CChain.FindFork` | src/chain.cpp:53-59 | the highest block of the chain that is an ancestor of the given one; null only if there is none |
| `Chain.CChain.GetLocator` | src/chain.cpp:25-51 | the ancestors at the heights ten single steps and then doubling steps reach, genesis last |
| `Chain.LocatorExactly` | src/chain.cpp:25-51 | which heights those are: k back for the first eleven, 9 + 2^(k - 10) back from then on, down to the first that is 0 |
| `Chain.CChain.StepTo` | src/chain.cpp:39-45 | by height inside the chain and by skip pointer outside it, the same block |
| `Chain.CChain.FindForkInGlobalIndex` | src/main.cpp:532-545 | the first locator entry that is in the chain, or genesis |
| `Chain.LocatorReaches` | src/chain.cpp:25-51 | for any split, the first visited height at or below it is at most twice as far back |
| `Chain.LocatorFindsNearFork` | src/main.cpp:532-545 | a locator resolved against another chain lands on a common block at most twice as far back as the fork |
| `Chain.LocatorResolves` | src/main.cpp:532-545 | some entry always resolves |
| `Chain.CommonUpToFork` | src/chain.cpp:53-59 | an ancestor is in the chain exactly up to the fork |
| `Chain.ForkIsCommon` | src/chain.cpp:53-59 | the fork height plus one is the number of blocks two chains share |
| `BlockStatus.WorseIsTotalOrder` | src/main.cpp:83-104 | the candidate order is a strict total order; less work sorts lower, then the later number, then the higher address |
| `FirstSeen.BestIsFirst` | src/main.cpp:83-104 | no two linked blocks have one number, so the best candidate is the one to which every other has less work, or the same and a later number |
| `BlockStatus.BestExists` | src/main.cpp:2190-2195 | a nonempty candidate set has a best element |
| `BlockStatus.LinkedMeansAllData` | src/main.cpp:3487-3488 | `nChainTx` is nonzero exactly when the block and all its ancestors have data |
| `BlockStatus.LinkedCountsTransactions` | src/main.cpp:2498 | and then it is the number of transactions up to the block |
| `BlockStatus.ConnectingIsClean` | src/main.cpp:1450-1466 | a block that would connect with all its ancestors is never flagged as failed |
| `TreeSteps.AddHeader` | src/main.cpp:2443-2475 | a new header keeps the whole tree invariant |
| `TreeSteps.MarkData` | src/main.cpp:2478-2489 | storing a block's data puts it into the work queue or under its parent in the unlinked map, and keeps everything else |
| `TreeSteps.LinkFirstKeepsCore` | src/main.cpp:2494-2512 | linking the first block of the queue moves the children that waited for it into the queue and keeps the invariant |
| `TreeSteps.LinkingContinues` | src/main.cpp:2494-2512 | linking changes nothing for blocks already linked, so no candidate moves in the ordered set; exactly the new blocks no worse than the tip become candidates |
| `TreeSteps.FewerUnlinked` | src/main.cpp:2494-2512 | each round leaves fewer blocks unlinked, so the queue empties |
| `TreeSteps.KeptByLinking` | src/main.cpp:2832-2878 | receiving a block keeps every linked block and candidate as it was |
| `TreeJudgement.MarkChild` | src/main.cpp:2207-2213 | marking a descendant of a failed block and dropping it keeps the invariant |
| `TreeJudgement.MarkInvalid` | src/main.cpp:1450-1466 | marking a block invalid keeps the invariant, if it has no data or does not connect |
| `TreeJudgement.PruneKeepsCore` | src/main.cpp:2226-2236 | pruning keeps the invariant and never empties the set |
| `TreeJudgement.RaiseKeepsCore` | src/main.cpp:1925-1941 | raising a block's validity after connecting it keeps the invariant |
| `TreeJudgement.ConnectKeepsCore` | src/main.cpp:2154-2164 | a new tip keeps the invariant |
| `TreeJudgement.DisconnectKeepsCore` | src/main.cpp:2097-2103 | so does removing the tip; no candidate becomes worse than the new tip |
| `TreeJudgement.NextConnects` | src/main.cpp:2122-2152 | a block on top of the active chain that connects has only connecting ancestors, so it is not flagged |
| `TreeJudgement.AdvancedTerminates` | src/main.cpp:2328-2364 | a step that marks a new block failed or raises the tip's work decreases a well-founded measure |
| `TreeJudgement.ForkLength` | src/main.cpp:2244-2245 | an active chain that is not empty always has a fork point with any candidate, because there is one genesis |
| `TreeJudgement.BestIsActive` | src/main.cpp:2336-2364 | when the best candidate is the tip, no linked block without failed ancestors sorts above it |
| `TreeJudgement.ActiveIsBest` | src/main.cpp:2328-2374 | no block that would connect, with data for all ancestors, has more work than an active tip, and the tip itself connects |
| `TreeJudgement.SameBlocksSameWork` | src/main.cpp:2328-2374 | two nodes with the same blocks, received in any order, agree on the work of their tips once both are active |
| `TreeCheck.CheckBlockIndexHolds` | src/main.cpp:3430-3572 | for every consistent tree: all assertions on fields, paths and the unlinked map hold for every block, and those on candidates hold for all blocks if and only if no linked block without failed ancestors as good as the tip is missing from the candidates |
| `TreeCheck.FieldsAreChecked` | src/main.cpp:3478-3491 | the assertions on a block and its parent |
| `TreeCheck.PathIsChecked` | src/main.cpp:3486-3499 | the assertions on the path from genesis: missing data, validity levels, failures |
| `TreeCheck.CandidateIsChecked` | src/main.cpp:3500-3506 | the assertion on one block, without its walk to genesis |
| `TreeCheck.PassesExactly` | src/main.cpp:3483-3525 | in any state, consistent or not: what the assertions on one block say, without the walks from genesis |
| `TreeCheck.CheckAfterStep` | src/main.cpp:2241-2318 | a step of activation, finished or cut short, begun where the assertions on candidates hold: they hold afterwards if and only if the tip does not sort below the tip the step began with |
| `TreeCheck.DisconnectFailsCheck` | src/main.cpp:2072-2109 | in every state: right after a `DisconnectTip` the assertion on the new tip fails |
| `TreeRuns.CutShort` | src/main.cpp:2254-2306 | a run in which that is where a step ends: two blocks on genesis, the better one cannot be read from disk after the other was disconnected |
| `TreeRuns.FullDisk` | src/main.cpp:2080-2091 | a run after which the coins are not those of the tip: the disk fails just after the coins of the tip were taken back |
| `TreeCheck.UnlinkedIsChecked` | src/main.cpp:3507-3524 | the assertions on the unlinked map |
| `TreeJudgement.StockedExactly` | src/main.cpp:2241-2318 | after a step no candidate is missing exactly if the tip does not sort below the one before |
| `TreeJudgement.BestTipIsStocked` | src/main.cpp:3500-3506 | no candidate is missing while the best tip there ever was is active |
| `TreeSteps.LinkingStocked` | src/main.cpp:2478-2521 | receiving blocks leaves no candidate out |
| `BestChain.BlockTree.AddToBlockIndex` | src/main.cpp:2443-2475 | a new node with right height, work and skip pointer; the invariant is kept, which says that no header has more work than `pindexBestHeader`; that changes only for more work |
| `BestChain.BlockTree.AcceptBlockHeader` | src/main.cpp:2789-2830 | accepts exactly new headers with a good known parent, and known headers that have not failed; nothing else changes |
| `BestChain.BlockTree.ReceivedBlockTransactions` | src/main.cpp:2478-2521 | keeps the invariant; what was linked does not change, and the candidates added are exactly the newly linked blocks no worse than the tip |
| `BestChain.BlockTree.LinkBlock` | src/main.cpp:2494-2511 | one round of the queue loop |
| `BestChain.BlockTree.LinkQueue` | src/main.cpp:2492-2512 | the queue loop terminates with every block that can be linked linked |
| `BestChain.BlockTree.TakeUnlinked` | src/main.cpp:2505-2511 | takes the range of a parent out of the multimap, in order |
| `BestChain.BlockTree.StoreBlock` | src/main.cpp:2845-2875 | stores good data, marks bad data unless it may just be damaged |
| `BestChain.BlockTree.AcceptBlock` | src/main.cpp:2832-2878 | true exactly if the header is accepted and the data is there already or passes its checks and is stored; keeps the invariant and every linked block, and leaves no candidate out |
| `BestChain.BlockTree.FirstFailed` | src/main.cpp:2199-2217 | finds a failed block between candidate and chain exactly when the candidate has a failed ancestor; its assertions hold |
| `BestChain.BlockTree.MarkFailed` | src/main.cpp:2206-2215 | marks and drops everything from the candidate down to the failed block |
| `BestChain.BlockTree.FindMostWorkChain` | src/main.cpp:2185-2222 | the best candidate left: every other one has less work, or the same and was linked later;, without failed ancestors; only candidates with one are dropped; null only if there are no candidates and no chain; terminates |
| `BestChain.BlockTree.PruneBlockIndexCandidates` | src/main.cpp:2226-2236 | drops exactly the candidates worse than the tip; the final assertion holds |
| `BestChain.BlockTree.TryCoins` | src/main.cpp:2136-2152 | the fixed answer the tree gives for a block is the answer of `ConnectBlock` on the coins of its parent, wherever that is asked |
| `BestChain.BlockTree.ConnectTip` | src/main.cpp:2122-2183 | coins and tree together: the exact outcome from block and disk, the exact new state for success, rejection and system error; the invariant is kept in each, and the coins are those of the tip, except one block off it exactly if the disk failed between flushing the coins and moving the tip |
| `BestChain.BlockTree.DisconnectTip` | src/main.cpp:2072-2109 | the chain without its tip, or no change; the coins follow, except if the disk failed in between |
| `BestChain.BlockTree.DisconnectTo` | src/main.cpp:2265-2269 | disconnects exactly down to the fork point unless a disconnect fails |
| `BestChain.BlockTree.PathDown` | src/main.cpp:2275-2283 | a batch: the ancestors of the target from one height down to another |
| `BestChain.BlockTree.ConnectNext` | src/main.cpp:2287-2307 | connect, prune, compare: the chain follows the path to the target, and stopping means progress |
| `BestChain.BlockTree.ConnectPath` | src/main.cpp:2270-2309 | batches of at most 32 up to the target |
| `BestChain.BlockTree.ActivateBestChainStep` | src/main.cpp:2241-2318 | refuses exactly the too deep reorganisations, unchanged; keeps the common blocks, so from the fork height on nothing buried more than `MAX_REORG_DEPTH` goes; otherwise a new block is marked failed, or the tip gains work, or it is the target; finished or cut short, the coins are those of the tip, unless the disk failed between moving the two |
| `BestChain.BlockTree.TooDeepExactly` | src/main.cpp:2241-2265 | refused is exactly what would undo the block 100 below the tip |
| `BestChain.BlockTree.ActivateBestChain` | src/main.cpp:2328-2374 | terminates; a tip no candidate beats stays; on success nothing linked without failed ancestors sorts above the tip, and no candidate is missing; whatever happens, the coins are those of the tip, unless the disk failed between moving the two, and then it reports failure |
| `FirstSeen.LaterIsNotBetter` | src/main.cpp:83-104 | what comes in later does not beat the tip unless it has more work |
| `TreeRuns.FirstSeenStays` | src/main.cpp:2328-2374 | a run: once activated, the chain stays as it is whatever blocks come in, in any order, good or bad, as long as none that gets linked has more work |
| `BestChain.BlockTree.ActiveCoins` | src/main.cpp:2328-2374 | with an active chain and coins in step, the coin view means the replay of the chain, and no block with all data that can be replayed has more work |
| `BestChain.BlockTree.AdriftStops` | src/main.cpp:1758 | coins off the tip stop the node: the assertion of `ConnectBlock` on the best block of the view fails for every block on the tip, and that of `DisconnectBlock` for the tip |
| `CheckQueue.CCheckQueue.CriticalSection` | src/checkqueue.h:79-121 | one critical section of `Loop`: clean-up and then return, sleep or take a batch |
| `CheckQueue.CCheckQueue.Proceed` | src/checkqueue.h:93-117 | the loop head |
| `CheckQueue.CCheckQueue.Take` | src/checkqueue.h:111-117 | takes the last checks off the queue |
| `CheckQueue.FairShare` | src/checkqueue.h:104-111 | how large a batch is: it leaves as many checks for every other thread, and is the largest that does and keeps to the limit |
| `CheckQueue.CCheckQueue.Execute` | src/checkqueue.h:122-125 | true exactly when it started so and all checks are true |
| `CheckQueue.CCheckQueue.Add` | src/checkqueue.h:146-158 | queue and count grow by the checks; one or all workers are notified |
| `CheckQueue.CCheckQueue.IsIdle` | src/checkqueue.h:164-168 | whether all registered threads sleep, nothing is to do and the result is reset |
| `CheckQueue.IdleExactly` | src/checkqueue.h:164-168 | what that means: no check is left, none has failed and no thread is at work |
| `CheckQueue.AnyThreadCanMove` | src/checkqueue.h:69-127 | the counters never underflow: every thread can always go through its next critical section |
| `CheckQueue.MoveKeepsInv` | src/checkqueue.h:69-127 | every move of every thread, spurious wake-ups included, keeps the invariant |
| `CheckQueue.AddKeepsInv` | src/checkqueue.h:146-158 | so does `Add` |
| `CheckQueue.AddWakes` | src/checkqueue.h:153-157 | `Add` wakes no thread for no check, exactly one sleeping worker (if there is one) for one, all of them for more, and never the master |
| `CheckQueue.MoveKeepsResult` | src/checkqueue.h:79-121 | `fAllOk` and the checks in the queue and in hands together stand for all checks added |
| `CheckQueue.MoveKeepsCounts` | src/checkqueue.h:79-121 | `nTodo` is the queue plus the checks in hands; `nIdle` and `nTotal` count sleeping and registered threads |
| `CheckQueue.RunKeepsInv` | src/checkqueue.h:60-168 | the invariant holds in every state of every interleaving |
| `CheckQueue.WaitIsExact` | src/checkqueue.h:140-143 | in every interleaving `Wait` returns true exactly when all checks added since the last `Wait` are true, and leaves the queue idle |
| `CheckQueue.UnusedIsIdle` | src/checkqueue.h:184-191 | the assertion of the controller's constructor |
| `CheckQueue.SomebodyIsAwake` | src/checkqueue.h:80-104 | no lost wake-up: while the master is inside, some thread is awake and can move |
| `CheckQueue.MoveDecreasesRank` | src/checkqueue.h:69-127 | every move other than a spurious wake-up brings the return of `Wait` nearer |
| `CheckQueue.WaitReturns` | src/checkqueue.h:69-127 | so only boundedly many such moves are possible before the master is out |
| `AddrTables.SwapKeepsRandom` | src/addrman.cpp:101-119 | swapping two entries of `vRandom` keeps positions right and changes nothing else |
| `AddrTables.CreateKeepsOk` | src/addrman.cpp:89-100 | a new entry is consistent everywhere except that it is in no bucket yet |
| `AddrTables.CreatedExactly` | src/addrman.cpp:89-100 | and was never tried; all others stay as they are |
| `AddrTables.DeleteKeepsOk` | src/addrman.cpp:121-133 | an entry without references can be deleted; the assertions hold |
| `AddrTables.PutKeepsOk` | src/addrman.cpp:305-306 | one more reference, counted |
| `AddrTables.TakeKeepsOk` | src/addrman.cpp:135-148 | one reference fewer; the assertion on the count holds |
| `AddrSteps.ClearKeepsOk` | src/addrman.cpp:135-148 | emptying a slot forgets its entry exactly when that was the last reference, and touches no other entry |
| `AddrSteps.MoveBackKeepsOk` | src/addrman.cpp:169-191 | a tried entry goes back to the new table and keeps the invariant |
| `AddrSteps.MoveBackFrame` | src/addrman.cpp:169-191 | it has one reference then, and only the entry in its way can be touched |
| `AddrSteps.PromoteKeepsOk` | src/addrman.cpp:150-196 | moving an entry to the tried table keeps the invariant and puts it into its slot |
| `AddrSteps.PromotedExactly` | src/addrman.cpp:150-196 | what promotion does to the entry, to the one that had its slot, which goes to the bucket of its own address and source, and to the buckets |
| `AddrSteps.TerribleExactly` | src/addrman.cpp:34-52 | in the fields of an entry, the entries that are kept: tried in the last minute, or seen within 30 days and not failed too often |
| `AddrSteps.ListsExactly` | src/addrman.cpp:291-312 | when an address gets its place in a bucket, and what happens if there is no room |
| `AddrSteps.ListKeepsOk` | src/addrman.cpp:291-312 | listing an entry in one more bucket keeps the invariant, whether or not there is room |
| `AddrSteps.ListForgetsAtMostOne` | src/addrman.cpp:291-312 | another address is forgotten if and only if it is in that slot, has no other reference and is terrible |
| `AddrSteps.ListedSomewhere` | src/addrman.cpp:225-240 | an entry that is not tried is always found in some bucket, so the bail-out in `Good_` is dead |
| `AddrMan.CAddrMan.constructor` | src/addrman.h:430-452 | an empty manager is consistent |
| `AddrMan.CAddrMan.CreateEntry` | src/addrman.cpp:89-100 | `Create` on the value |
| `AddrMan.CAddrMan.Swap` | src/addrman.cpp:101-119 | `SwapRandom` on the value; its assertions hold |
| `AddrMan.CAddrMan.DeleteEntry` | src/addrman.cpp:121-133 | `Delete` on the value |
| `AddrMan.CAddrMan.ClearNew` | src/addrman.cpp:135-148 | `Cleared` on the value; keeps the invariant |
| `AddrMan.CAddrMan.RemoveFromNew` | src/addrman.cpp:151-160 | the loop over all buckets removes every reference |
| `AddrMan.CAddrMan.MoveBack` | src/addrman.cpp:169-191 | makes room in the tried table |
| `AddrMan.CAddrMan.MakeTried` | src/addrman.cpp:150-196 | `Promoted` on the value; all assertions hold |
| `AddrMan.CAddrMan.FindBucket` | src/addrman.cpp:225-240 | always finds a bucket |
| `AddrMan.CAddrMan.MarkGood` | src/addrman.cpp:198-245 | `Good_`: exact effect, invariant kept |
| `AddrMan.GoodExactly` | src/addrman.cpp:198-245 | what that does to the entry of the address: it has worked and been tried now, has no failures left, is in its slot of the tried table and in no bucket; if it was tried before nothing else changes |
| `AddrMan.CAddrMan.AddAddress` | src/addrman.cpp:247-313 | `Add_`: exact effect, true exactly for a new routable address, invariant kept |
| `AddrMan.StatsExactly` | src/addrman.cpp:257-265 | how the time an address was last seen moves: only on, and in steps of an hour or a day |
| `AddrMan.OnceInPow2` | src/addrman.cpp:279-284 | the stochastic test: an entry with r references gets another one exactly once in 2^r draws |
| `AddrMan.AddedExactly` | src/addrman.cpp:286-318 | a new address: where its entry goes, with what it says of itself, and exactly when it is turned away |
| `AddrMan.HeardBefore` | src/addrman.cpp:267-277 | a known address of which nothing new is heard, or which is tried or in eight buckets, only has its services and time updated |
| `AddrMan.HeardAnew` | src/addrman.cpp:278-318 | otherwise, if the draw is right, it gets one more reference in the bucket of this source, unless it is there or what is there is worth keeping |
| `AddrMan.CAddrMan.MarkAttempt` | src/addrman.cpp:315-331 | `Attempt_`: exact effect, invariant kept |
| `AddrMan.CAddrMan.MarkConnected` | src/addrman.cpp:481-499 | `Connected_`: exact effect, invariant kept |
| `AddrMan.CAddrMan.SomeAddresses` | src/addrman.cpp:460-479 | `GetAddr_`: within both limits, all different, exactly entries worth keeping, and all of those if there are fewer than the limits allow; only the order of `vRandom` changes |
| `AddrGroups.SlotsExactly` | src/addrman.cpp:14-34 | how many buckets and places there are, and what they depend on |
| `AddrGroups.GroupIsConfined` | src/addrman.h:105-123 | whatever is done, at most 512 addresses of one group are tried at a time, since a group has eight buckets |
| `AddrGroups.SourcesAreConfined` | src/addrman.h:105-116 | whatever addresses the sources of one group tell of, they change the new table in the same 64 of 1024 buckets only |
| `AddrSerial.CountersAreRight` | src/addrman.h:297-306 | the counters are the numbers of entries written, so the assertions of `Serialize` hold |
| `AddrSerial.FlipsBit30` | src/addrman.h:254-262 | the count of buckets is written with bit 30 changed, and read back |
| `AddrSerial.OrderIsComplete` | src/addrman.h:290-311 | the two loops write every entry of a consistent manager exactly once, new ones first |
| `AddrSerial.PruningIsSafe` | src/addrman.h:407-417 | whatever the stream says, every entry the pruning loop may meet can be deleted: the assertions of `Delete` and `SwapRandom` hold |
| `AddrSerial.PruneKeepsOk` | src/addrman.h:407-417 | pruning removes just the entries in no bucket and keeps everything else as it is |
| `AddrSerial.RestoredIsOk` | src/addrman.h:328-423 | any complete stream whose entries have different addresses and valid times gives a consistent manager, whatever its version, bucket count and bucket table say; lost are exactly the entries no bucket took |
| `AddrStream.WrittenForm` | src/addrman.h:282-291 | what is written in front of the entries: version 1, both counters, and 1024 buckets with 2^30 added |
| `AddrStream.UsableExactly` | src/addrman.h:355 | exactly then the stored rows are of use |
| `AddrStream.RowsExpected` | src/addrman.h:343-346 | how many rows follow in each version |
| `AddrStream.NewsAreLoaded` | src/addrman.h:349-365 | new entries get the ids from 0 on; if the rows are of no use, each home slot gets the first entry that wants it |
| `AddrStream.TriedsAreLoaded` | src/addrman.h:368-386 | each tried slot gets the first entry that wants it |
| `AddrStream.StreamExactly` | src/addrman.h:328-423 | where the entries of any complete, sound stream are afterwards: a tried slot has the first that wants it; new ones are where the rows name them or, without usable rows, the first at its home slot; nothing of an entry is lost but the times of attempts |
| `AddrReadBack.TriedSlotIsFree` | src/addrman.h:368-386 | reading back what was written, the slot of the next tried entry is free |
| `AddrReadBack.NextIsTaken` | src/addrman.h:389-404 | reading back what was written, every index finds its slot free and its entry below the reference limit |
| `AddrReadBack.WrittenIsSound` | src/addrman.h:278-325 | what is written is a complete stream with sound entries and a usable bucket table |
| `AddrReadBack.ReadBack` | src/addrman.h:278-423 | reading back what a consistent manager wrote loses nothing: the same entries, renamed, in the same slots of both tables, same counts, same addresses, invariant kept and nothing pruned |
| `AddrReadBack.Serialize` | src/addrman.h:278-325 | writes exactly the specified stream |
| `AddrReadBack.Unserialize` | src/addrman.h:328-423 | reads any complete stream, to exactly the specified tables; consistent if the entries are sound |
| `AddrCheck.ConsistentPasses` | src/addrman.cpp:383-457 | `Check_` finds nothing in any consistent state |
| `AddrCheck.PassingIsConsistent` | src/addrman.cpp:383-457 | a state is consistent if and only if `Check_` passes and the three things it does not look at are right |
| `AddrCheck.MissingKey` | src/addrman.cpp:407-408 | an address missing from `mapAddr` goes unnoticed for the entry with id 0 and for no other |
| `AddrCheck.NothingLeft` | src/addrman.cpp:417-451 | crossing entries off while scanning both tables leaves nothing exactly if every table test and every reference count is right |
| `AddrCheck.Check` | src/addrman.cpp:383-457 | returns 0 if and only if every single test holds; changes nothing in a consistent state |
| `MerkleTree.CBlock.BuildMerkleTree` | src/primitives/block.cpp:60-84 | all levels in one vector, the root, and whether at some level the last two are the same |
| `MerkleTree.CBlock.BuildLevel` | src/primitives/block.cpp:66-78 | the level above, one pair at a time |
| `MerkleTree.CBlock.GetMerkleBranch` | src/primitives/block.cpp:86-100 | the branch, read off that vector |
| `MerkleTree.BranchLeadsToRoot` | src/primitives/block.cpp:102-116 | the branch of every leaf leads to the root, and is as long as the tree is high |
| `MerkleTree.OneListForRoot` | src/primitives/block.cpp:53-58 | two lists of one height that pass the test have the same root only if they are the same, or two pairs hashed in the two trees collide |
| `MerkleTree.RepeatedHasTwin` | src/primitives/block.cpp:25-51 | a list that repeats its end at a level of more than two fails the test and has the same root as its own beginning |
| `MerkleBlock.CPartialMerkleTree.constructor` | src/merkleblock.cpp:105-117 | builds the bits and hashes of the specification |
| `MerkleBlock.CPartialMerkleTree.TraverseAndBuild` | src/merkleblock.cpp:57-73 | appends a node's bits and hashes |
| `MerkleBlock.CPartialMerkleTree.TraverseAndExtract` | src/merkleblock.cpp:75-103 | computes the cursor specification, failures included |
| `MerkleBlock.CPartialMerkleTree.ExtractMatches` | src/merkleblock.cpp:121-152 | all checks, and zero on any failure |
| `MerkleBlock.WidthCounts` | src/merkleblock.h:66-68 | a node exists exactly when there is a leaf below it |
| `MerkleBlock.BuiltSizes` | src/merkleblock.h:36-41 | at most one hash per leaf, at least one bit per hash |
| `MerkleBlock.BuiltIsSmall` | src/merkleblock.h:36-41 | few matches need few hashes, at every node |
| `MerkleBlock.PartialTreeIsSmall` | src/merkleblock.h:36-41 | at most as many hashes as transactions, and at most 1 + matches * height |
| `MerkleBlock.ExtractsBuilt` | src/merkleblock.cpp:75-103 | reading back a node gives its hash and its matched leaves in order |
| `MerkleBlock.PartialTreeRoundTrip` | src/merkleblock.cpp:105-152 | any transactions and mask, packed and unpacked, give exactly the masked ones in order and the full root, using all hashes |
| `MerkleBlock.RootIsBuilt` | src/primitives/block.cpp:60-84 | the root that partial trees are checked against is the one `BuildMerkleTree` computes |
| `MerkleBlock.FoundAreLeaves` | src/merkleblock.cpp:75-103 | whatever the bits and hashes: unless a pair hashed while reading and another pair of the true tree have one hash, a node's right hash means that what was found are leaves below it, in order |
| `MerkleBlock.NoForgedMatches` | src/merkleblock.cpp:121-152 | if the true root of a list of that length comes out, the matches are its elements at strictly increasing positions, or else the pairs hashed while reading collide with those of the true tree |
| `MerkleBlock.Pack` | src/merkleblock.h:99-103 | bits packed lowest first, padding zero |
| `MerkleBlock.Unpack` | src/merkleblock.h:93-98 | and read back |
| `MerkleBlock.ByteValue` | src/merkleblock.h:90-104 | bit i of a byte is worth 2^i |
| `MerkleBlock.FilteredBlock` | src/merkleblock.cpp:12-36 | build, relay and extract together |
| `AuxPow.CheckMerkleBranch` | src/auxpow.cpp:116-129 | the root a branch leads to, for any index |
| `AuxPow.OneLeaf` | src/auxpow.cpp:116-129 | branches of one length and index that lead to one root start from one leaf and are equal, or else two different pairs hashed on the two ways up have one hash |
| `AuxPow.GetExpectedIndex` | src/auxpow.cpp:99-113 | the slot of a chain, in 32-bit arithmetic |
| `AuxPow.SlotWithoutOverflow` | src/auxpow.cpp:99-113 | for heights up to 30 the slot in one formula: the 32-bit overflows make no difference |
| `AuxPow.SlotsCollideExactly` | src/auxpow.cpp:101-103 | two chains have the same slot if and only if their numbers agree in the lowest h bits, whatever the nonce |
| `AuxPow.Search` | src/auxpow.cpp:54-58 | first occurrence of a pattern |
| `AuxPow.CheckPlace` | src/auxpow.cpp:54-78 | where the root is and that it is placed as it must be |
| `AuxPow.Check` | src/auxpow.cpp:31-97 | passes exactly when all conditions hold |
| `AuxPow.CoinbaseCommitsToOneBlock` | src/auxpow.cpp:31-97 | two proofs that pass for one chain with the same coinbase, which carries the magic, are for the same block, or else the pairs hashed in the two of them collide; no assumption on the hash function |
| `AuxPow.InitAuxPow` | src/auxpow.cpp:131-163 | the fabricated structure |
| `AuxPow.InitPassesExactly` | src/auxpow.h:115-122 | it passes `check` if and only if the chain is not 0, the hash does not contain the magic and is not 32 times the byte 40 |
| `AuxPow.PlacedExactly` | src/auxpow.cpp:58-80 | where the root may stand: behind the only magic, or in the first 20 bytes if there is none |
| `AuxPow.MinedPasses` | src/auxpow.cpp:30-96 | merged mining works: the block in the slot of its chain, the root of the chains behind the magic, the branches `GetMerkleBranch` gives; that passes |
| `AuxPow.InitCanFail` | src/auxpow.h:115-122 | for the hash of 32 bytes 40 it passes for no chain |
| `Base58.RoomToEncode` | src/base58.cpp:75-76 | `n*138/100+1` digits always suffice |
| `Base58.RoomToDecode` | src/base58.cpp:31-32 | `n*733/1000+1` bytes always suffice |
| `Base58.MultiplyAdd` | src/base58.cpp:79-85 | the carry loop multiplies and adds in place |
| `Base58.EncodeBase58` | src/base58.cpp:67-100 | computes the canonical encoding; the carry is always zero |
| `Base58.DecodeText` | src/base58.cpp:34-49 | the digit loop; the carry is always zero |
| `Base58.DecodeBase58` | src/base58.cpp:21-65 | decodes exactly the texts of alphabet characters with nothing but spaces around |
| `Base58.EncodeBase58Check` | src/base58.cpp:112-119 | with a checksum |
| `Base58.DecodeBase58Check` | src/base58.cpp:121-136 | with a checksum |
| `Base58.DecodeEncode` | src/base58.cpp:21-100 | decode inverts encode for every byte string |
| `Base58.EncodeDecode` | src/base58.cpp:21-100 | encode inverts decode |
| `Base58.CheckRoundTrip` | src/base58.cpp:112-136 | the same through both functions, spaces and checksum included |
| `Base58.DecodedIsEncoded` | src/base58.cpp:21-136 | whatever decodes is, without its spaces, the encoding of what it decodes to |
| `Base58.AlphabetDistinct` | src/base58.cpp:18-19 | no character stands for two digits |
| `Base58.KnownTexts` | src/test/data/base58_encode_decode.json:2-4 | some byte strings and their texts |
| `Compressor.CompressAmount` | src/compressor.cpp:142-159 | the loop takes off up to nine zeroes; the assertion on the digit holds |
| `Compressor.DecompressAmount` | src/compressor.cpp:161-185 | multiplies them back |
| `Compressor.AmountRoundTrip` | src/compressor.cpp:142-185 | no amount is lost |
| `Compressor.CodeRoundTrip` | src/compressor.cpp:142-185 | no code is wasted: a bijection |
| `Compressor.AmountFits` | src/amount.h:28 | every amount up to `MAX_MONEY` compresses to a number below 2^64 |
| `Compressor.CodeOfAmount` | src/compressor.cpp:133-160 | the code of every amount in one formula |
| `Compressor.KnownCodes` | src/test/compress_tests.cpp:41-46 | the codes the tests list |
| `CoinsCodec.DecompressCompress` | src/compressor.cpp:48-126 | each special script comes back from its compact form |
| `CoinsCodec.ScriptRoundTrip` | src/compressor.h:67-95 | every script comes back, special or not, and reading stops behind it |
| `CoinsCodec.OutRoundTrip` | src/compressor.h:109-121 | so does every output |
| `CoinsCodec.StoredKeyHash` | src/compressor.cpp:48-82 | the stored form of a script to a key hash |
| `CoinsCodec.StoredScriptHash` | src/compressor.cpp:48-82 | of one to a script hash |
| `CoinsCodec.StoredShortKey` | src/compressor.cpp:48-82 | of one to a short key |
| `CoinsCodec.StoredLongKey` | src/compressor.cpp:48-82 | and of one to a long key |
| `CoinsCodec.CalcMaskSize` | src/coins.cpp:16-32 | where the mask ends and how many of its bytes are not zero |
| `CoinsCodec.MaskRoundTrip` | src/coins.h:189-196 | zero bytes inside the mask are read back, and reading stops behind its last byte |
| `CoinsCodec.SomethingLeft` | src/coins.h:183 | the assertion of `Serialize` for records that are not pruned |
| `CoinsCodec.SerializeCoins` | src/coins.h:178-204 | writes the specified tokens |
| `CoinsCodec.UnserializeCoins` | src/coins.h:207-239 | reads them |
| `CoinsCodec.CoinsRoundTrip` | src/coins.h:178-239 | reading a stored record gives it back and consumes exactly its tokens |
| `CoinsCodec.StoredExample` | src/coins.h:38-51 | the first example of the comment |
| `CoinsCodec.MaskByteValue` | src/coins.h:26 | bit i of a mask byte is worth 2^i |
| `BdbPages.WalkIsPrefix` | src/bdbro.cpp:198-220 | every walk along overflow links is the beginning of each chain that ends, so there is at most one such chain |
| `BdbPages.LoopNeverEnds` | src/bdbro.cpp:202-204 | a chain that comes back to a page never ends |
| `BdbPages.ReadOverflow` | src/bdbro.cpp:198-220 | ends on all bytes, reads no page twice, and returns the bytes of the chain exactly if it ends and has the stated length |
| `BdbPages.ReadLeafItem` | src/bdbro.cpp:223-247 | the item, or none exactly if it cannot be read |
| `BdbPages.ReadLeafItems` | src/bdbro.cpp:250-256 | all items, or none exactly if one cannot be read |
| `BdbPages.ReadLeafPairs` | src/bdbro.cpp:303-313 | the pairs without a deleted half, in order |
| `BdbPages.ReadInternalChildren` | src/bdbro.cpp:259-279 | all children, or none exactly if one item is bad or deleted |
| `BdbTree.RestOfPush` | src/bdbro.cpp:401-403 | pushing the children of a page adds exactly the trees below them to what is still to be read |
| `BdbTree.InsertAll` | src/bdbro.cpp:408-411 | inserting succeeds exactly if no key occurs twice, and the map then holds just these records |
| `BdbTree.SeenIsImproper` | src/bdbro.cpp:391-392 | a page met a second time means that the tree has it twice or shares it with the outer database |
| `BdbTree.ReadTree` | src/bdbro.cpp:382-416 | the walk ends on all bytes, reads no page twice, and succeeds exactly if the recursive flattening of the tree does, with no page and no key twice; the result is that flattening |
| `BdbRead.FindMainSubdb` | src/bdbro.cpp:316-332 | the page number stored under "main", or none |
| `BdbRead.ReadAll` | src/bdbro.cpp:349-417 | succeeds exactly for sound files, with exactly the live records of the flattened tree |
| `BdbRead.Salvage` | src/bdbro.cpp:419-492 | the strict result if there is one, otherwise exactly what the scan finds |
| `BdbRead.FirstOneWins` | src/bdbro.h:44-50 | the scan returns no key twice, and what it found first stays |
| `BdbRead.ScanIsSound` | src/bdbro.cpp:456-484 | it returns nothing but readable live records of leaf pages |
| `BdbRead.ScanFinds` | src/bdbro.cpp:456-484 | it finds the key of every such record on any page but the first |
| `BdbRead.ReadableIsRecovered` | src/bdbro.h:44-50 | of every part of the tree that can still be read the scan recovers all keys, however damaged the rest is |
| `BdbBytes.LeafItemBytes` | src/bdbro.cpp:222-249 | in bytes of the file: an item is live with these bytes exactly if its type byte is 1 and they stand behind its head, or it is 3 and they are on the chain it names; deleted items have type bytes 0x81 and 0x83 |
| `BdbBytes.OverflowBytes` | src/bdbro.cpp:198-220 | the chains of overflow pages, in bytes |
| `BdbBytes.PagePairsBytes` | src/bdbro.cpp:449-472 | the scan finds on a page exactly the records its bytes hold, both halves live |
| `BdbBytes.ChildBytes` | src/bdbro.cpp:259-282 | the child an item of an internal page names, in bytes |
| `BdbBytes.HeaderBytes` | src/bdbro.cpp:167-183 | the head of a page, in bytes |
| `BdbBytes.MetaBytes` | src/bdbro.cpp:137-165 | a metadata page, in bytes |
| `BdbBytes.OpensExactly` | src/bdbro.cpp:349-386 | a wallet opens exactly if its first page is such a metadata page, names as many pages as there are, all with their log numbers reset, and says that it has subdatabases, and "main" has a metadata page; what the root and the outer database's pages are then |
| `BdbBytes.PagesCounted` | src/bdbro.cpp:105 | only whole pages count, in 32 bits |
| `BdbBytes.OpenExactly` | src/bdbro.cpp:282-299 | a file opens exactly if bytes 12 to 15 are the magic number in one of the two byte orders, the page size is a power of two from 512 to 65536 and the first page is a metadata page |
| `BdbBytes.MainExactly` | src/bdbro.cpp:316-332 | where "main" starts: a leaf with a single live pair, that name and a page number with its highest byte first |
| `BdbShape.ShapeIsRead` | src/bdbro.cpp:388-411 | a tree of pages that has the right levels, readable items in pairs on its leaves and nothing deleted on its internal pages is read, to its pages and the records on them |
| `BdbShape.ReadHasShape` | src/bdbro.cpp:388-411 | and nothing else is read |
| `BdbShape.KeysExactly` | src/bdbro.cpp:404-410 | no key is found twice exactly if no two places on the pages hold records with one key |
| `BdbShape.StrictReadExactly` | src/bdbro.h:38-43 | in bytes of the file: a strict read of an opened wallet succeeds exactly if its pages form such a tree, no page in it twice and none the outer database's, and no key twice |
| `BdbShape.WalletBytes` | src/bdbro.h:38-43 | it returns exactly the records whose bytes stand on the pages of that tree, both halves live |
| `BdbScan.PairsAdded` | src/bdbro.cpp:475-484 | of the pairs of a page exactly those are added whose key is neither there yet nor earlier on the page |
| `BdbScan.ScanExactly` | src/bdbro.h:45-50 | in bytes of the file: the scan returns a record exactly if it is the first live one of its key, page by page behind the first and place by place, and not the outer database's "main" |
| `BdbBytes.ScanAssumes` | src/bdbro.cpp:443-449 | the byte order and page size the scan assumes when the first page is damaged |

## Left out

- Scripts, signatures, proof of work, signature operation counts, block size, time stamps and checkpoints: their verdicts are parameters.
- CheckTransaction: does not model the size limit and the length of a coinbase script, because transactions are not serialized here.
- CheckBlock: does not model the merkle root, size, time stamp, proof of work and signature operation rules, because they do not touch coins.
- ConnectTx: does not model script checks and signature operation counts, because scripts are one given verdict for the block.
- ConnectAll: does not model script checks and signature operation counts, for the same reason.
- ConnectBlock: does not model signature operation limits and takes the result of all script checks as one parameter.
- Disk and database failures inside the coin views, the block and undo files, and the encoding of undo data; reads and writes that fail appear as chosen parameters where they change the flow.
- Transactions with negative version numbers: undo data in memory keeps them, the stored form does not, and `CoinsCodec.Storable` asks for versions that are not negative.
- 32-bit wrap-around of an output index plus one, of `nChainTx` and of sequence numbers, and of ids in the address manager: they are unbounded here.
- `CBlockIndex` objects on the heap: a block is named by a number, its fixed and its changing fields are two maps of the block tree, and pointer order in the comparator is the order of the numbers.
- `InvalidateBlock` and `ReconsiderBlock`, and blocks whose failure is flagged as possible corruption: they break the equivalence for `nChainTx` or the progress of activation.
- Releasing the main lock between the steps of `ActivateBestChain`: the loop is proved with nothing else happening between its rounds.
- Two headers or two lists of transactions with the same block hash: a block is named by its hash in the tree.
- The coins beside the tree are those of mainnet, from genesis on: starting from coins and a tree read back from disk, the subsidy of the other networks, and the two blocks exempt from BIP 30 are not modelled there.
- After a disk failure between moving the coins and moving the tip nothing more is proved than where the coins are: the node is shutting down.
- Finality over several steps: the depth test measures from the tip a step begins with, so it is stated per step.
- DisconnectTip of the genesis block: `ActivateBestChainStep` never does it, since a fork point always exists.
- Loading the block index from disk, the memory pool, wallet notifications, alerts and the network.
- The memory order of the two condition variables below the level of critical sections; shutting the queue down (`fQuit` is never set in the source).
- `Select_` and `GetChance` of the address manager, which use floating point; `Clear` on a manager that is in use leaves `mapInfo` and `mapAddr` as they were, so `AddrReadBack.Unserialize` reads into a fresh one.
- The stream of the address manager is a record of values, with as many entries and buckets as its counts say; how a value becomes bytes, the size of the key and negative counts are not modelled.
- A uniqueness claim for parent coinbases without the merged-mining magic.
- The bound of 2*N-1 flag bits in a comment of merkleblock.h: three transactions with the third one matched need 4 bits for 2 hashes.
- VARINT and the stream classes: a stream is a sequence of tokens, single bytes and numbers. Decompressing a public key is a parameter assumed to invert compression.
- The Berkeley DB reader is modelled on the bytes of the file (loading the file, error messages and the report of `Salvage` are left out); its file object, which does not change once it is opened, is a value, and the order in which `Salvage` lists the records of a strict read is open.
- `CCoinsStats`, `GetPriority`, bloom filters, and everything that would only add easier members.
