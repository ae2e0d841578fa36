# A ledger engine, modelled and proved

This project models the consensus core of the ledger node: the linear block store and the unspent-output index
kept beside it, block validation and assembly, the messages with which two nodes shake hands and synchronise,
the pool of unconfirmed transactions, coin selection and payment, the Merkle tree, and the codecs that feed all
of them. `dafny verify dfyconfig.toml` checks everything.

How it is laid out:

- A component that changes state is a class with the fields of the original (`ChainStore.Blockchain`,
  `ChainStore.BlockchainIterator`, `UtxoSet.UTXOSet`, `Mempool.Mempool`, `Node.Node`, `Node.PeerState`), and an
  algorithm with a loop is a method with that loop. Each is proved equal to a specification function over
  values: `ChainModel`, `UtxoIndex`, `UtxoUpdate`, `Validation`, `Protocol` and the codec modules hold those, and
  the theorems are about them.
- SHA-256 and RIPEMD-160 are arbitrary functions. Where a statement would need collision freedom, it says
  instead: the conclusion holds, or here are two different inputs with one digest. Checking a signature is an
  arbitrary predicate, the wall clock is a parameter, and so are random bytes.
- `Example`, `LongChain`, `LostSpend` and `PaymentExample` hold concrete chains, keys and runs: they show that the
  hypotheses of the theorems can be met, and that what a theorem says can go wrong does.
- Every lemma is marked `{:induction false}`: an induction that a proof needs is written out in it.

What turned out to hold only under a condition, and is stated as an equivalence:

- A block is stored exactly if it is well formed, worked for, in order throughout, rewarded within bounds, in its
  place and time, and new (`Verdicts.StoredExactly`); its sender is punished exactly for what is listed in
  `Verdicts.PunishedExactly`. Each input of a stored block spends an output that exists, of the transaction its id
  names, 100 blocks deep if that is a coinbase, under a signature that is good for the lock of that output
  (`Spending.BlockSpends`). A transaction that is funded passes exactly if all its signatures are good; else the
  first that is not decides (`Spending.FundedOutcome`).
- A signature covers the outputs spent, the outputs made and the lock (`Spending.DigestBinds`), and the hash of a block
  its predecessor, transactions, time, difficulty and nonce (`ProofOfWork.HeaderBinds`), or a collision is returned.
- A miner takes everything that passes, in the order of the pool, up to the first transaction that breaks a limit
  (`Miner.SelectTakesAll`).
- One incremental update of the index gives what a rebuild gives exactly when every transaction of the block has
  outputs and no spend is lost (`UtxoUpdate.UpdateAgrees`, `UtxoUpdate.RunAgrees`). A spend is lost when the block
  names one earlier transaction by two different indices, because every read of a batch sees the state from
  before it. Every block of live inputs with a transaction that picks two outputs of one other is such a block
  (`UtxoUpdate.PairLoses`), and on chains of every length from 102 to 499, each block of which above the first the
  validator accepts, it accepts such a block too (`LostSpend.LostSpendExample`).
- While a node handles a block that passes and brings new transactions, the index stays in step with the chain
  exactly when the hash of the block was not on the chain (`IndexStep.InStepExactly`, `Node.Node.HandleBlock`). The
  hash is a stored field that nobody recomputes; a block that takes over the hash of the tip is none of the chain's
  blocks (`IndexStep.KnownIsForged`), is not stored, and enters the index all the same (`Example.KnownBreaksIndex`).
- Verification looks previous transactions up in the chain and not in the index, so a transaction that passes goes on
  passing after a block that carries it, as long as no transaction with an id it names is created anew
  (`Replay.PassesAgain`, `Replay.PassesForEver`), although what it spends has left the index for good
  (`Replay.SpentOutputsGo`, `Replay.DeadStaysDead`). `LostSpend.PaymentPassesTwice` and
  `LostSpend.PaymentSpends` show such a payment.
- So the supply has an account rather than a bound: a block that passes changes the value of the index by its
  coinbase less its fees, plus the coins whose spend is lost, plus what its inputs draw that the index does not hold
  (`Supply.Conservation`, for every block of new ids that passes). If the coinbase takes all it may, the index grows
  by no more than the subsidy if and only if nothing is lost and nothing dead is drawn (`Supply.GrowsBySubsidy`).
  Over every run of accepted blocks, whatever their inputs and ids, the index holds at most the subsidies and the sum
  of those excesses, or a collision of the hash function is returned (`SupplyRuns.SupplyAccount`); exactly that, if
  ids are new and coinbases full (`SupplyRuns.SupplyExactly`). Without excess it stays within the cap
  (`SupplyRuns.SupplyBound`, `Example.RepeatedIdIsPossible`); two accepted blocks take it ten raffys over
  (`LostSpend.SupplyIsExceeded`).
- An output that is spent inside the block that creates it stays in both indexes: the scan looks for spends in
  strictly later blocks only (`UtxoIndex.RebuildMeaning`), and a batch does not see its own writes. Such an input
  counts as dead.
- Synchronisation ends with the server's chain exactly when the missing hashes fit one inventory message, that
  is, up to 255 of them. With more, the message cannot be built and the requester waits for ever
  (`Sync.SyncConverges`); `Example.SyncIsPossible` meets its hypotheses with every gap from 1 to 599.
- A mined block is accepted elsewhere exactly when no outpoint repeats in it; the miner itself does not look
  (`BlockAssembly.MinerAndValidatorAgree`), and a pool can hold two transactions that pass and spend one output
  (`PaymentExample.PoolIsPunished`).
- Decoding, then encoding Base58 gives the text back exactly when it has no NUL in it: the search of the alphabet
  finds the NUL that ends it and takes it for a digit (`Base58.EncodeDecode`, `Base58.NulIsAccepted`).
- A walk back from a block put on the tip of a linked chain ends if and only if its hash was not on the chain, and has
  met every block by then if and only if the hash is also not all zeros (`Walks.WalkEnds`, `Walks.NewHashEnds`). With a
  taken hash it goes round the blocks from the namesake on for ever (`Walks.TakenHashStays`,
  `Walks.TakenHashReturns`); with a hash of zeros, which validation accepts, it is over before the first block
  (`Example.ZeroHashBreaksStore`).
- Bytes accepted as a block begin with what that block is written as if and only if its transactions take as many
  bytes as they are written in; bytes added inside the length of a transaction are ignored (`BlockCodec.EncodeDecode`,
  `BlockCodec.LooseReadsAlike`, `Example.TrailingByteIsIgnored`).
- A payment built by the wallet is valid but free, so no other node takes it into its pool
  (`Relay.PaymentNotRelayed`, `PaymentExample.PaymentIsPossible`).
- A ping sent before the sender has received a version is always punished (`Handshake.EarlyPingDooms`,
  `Handshake.DoomedUntilPunished`), and every fresh connection allows it (`Handshake.EarlyPingRun`).
- Median time past never falls along a run, if no block mined on the chain itself is untimely: mining follows the
  difficulty rule but not the rule on time (`ChainModel.MedianAlongRun`, `ChainModel.MiningLowersMedian`).
- Verification asks that each signature go with the key beside it, not that the key hash to what the output is locked
  to (`Payment.SignedInputsPass`, `PaymentExample.AcceptedNotOwned`, `PaymentExample.KeysAreTold`); the wallet itself
  spends only its own (`Payment.PaymentOwned`).
- Lists of transactions under one Merkle root are alike place by place of the full tree if their trees are equally high,
  so that one is the other with its padding written out; if not, each transaction of the lower tree encodes to a pair of
  neighbouring hashes of the other; or a collision is returned (`Merkle.PaddingOnly`, `Merkle.LowerTree`).
- A retarget period of exactly the expected length eases the difficulty by a bit; one second less keeps it
  (`Retarget.OnTimePeriod`).

## Model

| member | source | states |
|---|---|---|
| UtxoIndex.RebuildMeaning | src/blockchain.cpp:283-333 | the scan of the whole chain holds, for each transaction, exactly the outputs no strictly later block spends, with its coinbase flag and height, and has no entry for a transaction with none left |
| UtxoIndex.RebuildStep | src/blockchain.cpp:283-333 | adding a block to the chain removes its spends from the rebuilt index and adds its outputs, although the scan runs newest first |
| UtxoUpdate.AfterBatch | src/utxoSet.cpp:176-231 | the effect of the whole write batch: of the inputs that name one old transaction only the last one counts, and every new transaction is stored in full |
| UtxoUpdate.UpdateAgrees | src/utxoSet.cpp:176-231 | from a rebuilt index, the update for one more block equals the rebuild of the longer chain if and only if every transaction has outputs and no spend is lost |
| UtxoUpdate.RunAgrees | src/utxoSet.cpp:176-231 | along a whole chain, updated and rebuilt index agree after every block if and only if every block was careful in that sense |
| UtxoUpdate.LiveInputs | src/utxoSet.cpp:182-209 | when all inputs of a block are live, no spend is lost if and only if no transaction is named by two different indices |
| UtxoUpdate.PairLoses | src/utxoSet.cpp:188-209 | every block of live inputs with a transaction that spends two outputs of one earlier transaction leaves the updated index different from the rebuilt one |
| LostSpend.LostSpendExample | src/utxoSet.cpp:188-209 | a linked chain and one more block, each block above the first accepted by the validator on top of those before it, all inputs of the last live: the indexes agree up to the last block and differ after it |
| UtxoSet.UTXOSet.Update | src/utxoSet.cpp:176-231 | the database after the call is the old one changed by the batch of the block, at the height of the tip |
| UtxoSet.UTXOSet.Reindex | src/utxoSet.cpp:134-174 | the database after the call is what the chain alone says, whatever it held |
| ChainStore.Blockchain.FindUTXO | src/blockchain.cpp:283-333 | the nested loops with their lists of spent indices compute the rebuilt index |
| UtxoScan.ScanBlock | src/blockchain.cpp:292-329 | the lists of spent indices stand for the set of spent outpoints, block by block |
| Supply.TotalAfter | src/utxoSet.cpp:176-231 | the value of the index after any update: its outputs come in, the coins spent go out except those whose spend is lost |
| Supply.FeesOfBlock | src/node.cpp:744-784 | for whatever inputs, the fees accumulated by validation are what the inputs draw from the index and beside it less what the transactions pay out, and no outpoint repeats |
| Supply.Conservation | src/node.cpp:739-800 | a block of new ids that passes changes the value of the index by exactly its coinbase less its fees, plus the coins whose spend is lost, plus what its inputs are credited with that the index does not hold |
| Supply.GrowsBySubsidy | src/node.cpp:786-800 | if its coinbase takes all it may, the index grows by no more than the subsidy if and only if nothing is lost and nothing dead is drawn |
| Supply.NothingDead | src/node.cpp:744-784 | a block all of whose inputs are live draws nothing beside the index |
| Supply.NothingLost | src/utxoSet.cpp:182-209 | with live inputs and at most one named output per earlier transaction, nothing is lost |
| Replay.PassesAgain | src/blockchain.cpp:412-453 | what passes in one block passes in the next with the same fee, whatever the first one carried, unless that one or the transactions before it in either block create an id it names |
| Replay.PassesForEver | src/blockchain.cpp:412-453 | and after any number of such blocks |
| Replay.SpentOutputsGo | src/blockchain.cpp:283-333 | although the outputs it spends leave the rebuilt index with the first block that carries it |
| Replay.DeadStaysDead | src/blockchain.cpp:283-333 | and stay out of it until a block creates a transaction with that id |
| LostSpend.PaymentPassesTwice | src/blockchain.cpp:412-453 | a payment that passes on a chain, an accepted block that carries it, and the same payment passing after that block |
| LostSpend.PaymentSpends | src/blockchain.cpp:283-333 | although nothing that payment names is left in the index after it |
| LostSpend.SupplyIsExceeded | src/node.cpp:739-806 | a run of accepted blocks that holds exactly the subsidies, and two more accepted blocks after which the index holds five and ten raffys more than them |
| SupplyRuns.SubsidySumIs | include/config.h:18-22 | the subsidies of the first n blocks in closed form, era by era |
| SupplyRuns.TotalAtMost | src/utxoSet.cpp:176-231 | whatever ids a block repeats, the value of the index after an update is at most what is left of the old coins and the outputs that come in |
| SupplyRuns.IncrementalBacked | src/utxoSet.cpp:176-231 | along any chain whatever, each entry of the index holds outputs of a transaction of the chain with its id |
| SupplyRuns.SupplyAccount | include/config.h:18-22 | over every run of accepted blocks, whatever their inputs and ids, the index holds at most the subsidies so far, the coins whose spends were lost, and what was drawn beside it; or a collision is produced |
| SupplyRuns.SupplyExactly | include/config.h:18-22 | exactly that, if ids are new and every coinbase takes all it may: the supply keeps to the schedule if and only if nothing was lost and nothing dead was drawn |
| SupplyRuns.SupplyBound | include/config.h:18-22 | over every run of blocks that pass, spend live outputs and name each earlier transaction by one index, the index never holds more than the subsidies so far, hence never more than 3,780,000; or a collision is produced |
| SupplyRuns.AcceptedExtends | src/node.cpp:707-800 | a block read from bytes and accepted carries a run on, whatever its inputs, and a sound run if they are live and name each earlier transaction by one index; acceptance is judged with unbounded sums |
| SupplyRuns.RunInputsInRange | src/transaction.cpp:198-218 | on top of a sound run no partial sum over live inputs exceeds 3,780,000, or a collision is produced; so a sum of outputs below 2^63 is all that is left to ask for the unchecked sums to be those of the model |
| BlockCodec.DecodedTxs | src/block.cpp:64-124 | every transaction of a block read from bytes has its hash for an id and can be written again |
| Supply.AcceptedPass | src/node.cpp:707-800 | a block the validator accepts meets the conditions on values that the supply theorem asks of each block, and only its first transaction is a coinbase |
| Supply.IncrementalMatches | src/utxoSet.cpp:211-225 | an index kept up to date says of each output what the chain says: value, owner, coinbase flag, height |
| ChainModel.StoreLookup | src/blockchain.cpp:215-239 | in a linked chain every block is found under its hash at its distance from genesis, and names its predecessor |
| Walks.WalkEnds | src/blockchainIterator.cpp:12-38 | the walk back from a block put on a linked chain ends if and only if its hash was not on the chain; after one block more than the chain had, if and only if the hash is also not all zeros; and at once if and only if it is |
| Walks.NewHashEnds | src/blockchainIterator.cpp:12-38 | with a new hash that is not all zeros, the walk meets every block, newest first |
| Walks.TakenHashStays | src/blockchain.cpp:141-172 | with the hash of an earlier block, it never leaves the heights from that block on |
| Walks.TakenHashReturns | src/blockchain.cpp:141-172 | and comes back to where it began after every round of them |
| ChainModel.GrownLinked | src/blockchain.cpp:121-239 | every run of additions and minings from a genesis block gives a linked chain |
| ChainModel.RecentTimesPush | src/blockchain.cpp:487-492 | pushing onto the timestamp cache gives what loading the longer chain would |
| ChainModel.RecentTimesAre | src/blockchain.cpp:475-492 | the cache holds the timestamps of the newest blocks, newest first, at most 11 |
| ChainModel.MedianAlongRun | src/blockchain.cpp:188-193 | median time past never falls from one height of a run to a later one, if every block in between was added, or mined at a time above the median |
| ChainModel.MiningLowersMedian | src/blockchain.cpp:121-172 | a run of mined blocks along which it falls |
| ChainModel.DifficultyAlongRun | src/blockchain.cpp:504-568 | along a run of additions and minings in any order, bits stay in [1, 255] and change only at multiples of 2016, retargeted over the span from the block one interval back to the block before |
| MedianTime.MedianAtLeast | src/blockchain.cpp:494-502 | the median reaches a value if and only if enough of the timestamps do |
| MedianTime.PushKeepsMedian | src/blockchain.cpp:487-502 | a timestamp above the median, pushed onto a growing or a sliding window, never lowers the median |
| MedianTime.MedianCanFall | src/blockchain.cpp:188-193 | timestamps at or below the median can lower it, so the check before the push is what protects it |
| Retarget.TargetBits | src/blockchain.cpp:530-561 | the bit length of the scaled target, exactly, from that of the old target and the clamped timespan |
| Retarget.RetargetMoves | src/blockchain.cpp:530-561 | new bits are old bits moved by +1, 0, -1, -2 or -3 according to the timespan, clamped to [1, 255] |
| Retarget.RetargetTable | src/blockchain.cpp:530-561 | the new difficulty by the seconds a period took, with its five cases and both ends of the range |
| Retarget.RetargetAntitone | src/blockchain.cpp:530-561 | a longer timespan never gives a harder target |
| Retarget.OnTimePeriod | src/blockchain.cpp:530-561 | a period of exactly the expected length eases the difficulty by one bit, one second less keeps it |
| ChainStore.BlockchainIterator.Next | src/blockchainIterator.cpp:12-31 | the block under the current hash is returned and its predecessor's hash becomes the current one; a missing block changes nothing |
| ChainStore.BlockchainIterator.HasNext | src/blockchainIterator.cpp:33-38 | there is more if and only if the current hash is not all zeros |
| ChainStore.Walk | src/blockchainIterator.cpp:12-38 | the walk from the tip meets every block exactly once, newest first, and ends after as many steps as the chain has blocks |
| ChainStore.CreateStore | src/blockchain.cpp:63-119 | a new store holds a genesis block mined over a coinbase with the fixed data that pays the first subsidy to the address; it is linked unless the hash is all zeros; an address that cannot be paid gives none |
| ChainStore.Blockchain.constructor | src/blockchain.cpp:25-61 | opening a store of a linked chain restores tip, height and timestamp cache |
| ChainStore.Blockchain.LoadRecentTimestamps | src/blockchain.cpp:475-485 | the cache is the timestamps of the newest blocks, newest first, at most 11 |
| ChainStore.Blockchain.GetNextWorkRequired | src/blockchain.cpp:504-568 | walking back 2015 blocks from the tip finds the anchor of the retarget rule, or the start of a chain too short for it |
| ChainStore.Blockchain.AddBlock | src/blockchain.cpp:174-239 | which blocks are stored, ignored as known, or refused; that a stored one is later than the median and at most 7200 seconds ahead of the clock; the whole new store; and that tip, height and timestamp cache stay those of the chain unless the stored hash is all zeros |
| ChainModel.OutcomeMeans | src/blockchain.cpp:174-213 | a block is refused unless it extends the tip at the difficulty required, later than the median and at most 7200 seconds ahead of the clock; then it is known exactly if its hash is on the chain |
| ChainModel.AddedInTime | src/blockchain.cpp:188-202 | along every run, a block added at some clock reading is later than the median of the blocks before it and at most 7200 seconds ahead of that reading |
| Node.UntimelyIsDropped | src/blockchain.cpp:188-202 | a block from outside that window is never stored, nor treated as known |
| ChainStore.Blockchain.MineBlock | src/blockchain.cpp:121-172 | succeeds if and only if every transaction passes and there is one; the block extends the tip at the required difficulty, and the store stays sound if and only if its hash is new and not all zeros |
| ChainStore.Blockchain.GetBlock | src/blockchain.cpp:241-255 | a block is found if and only if it is on the chain |
| ChainStore.Blockchain.GetBlockHeight | src/blockchain.cpp:459-473 | the distance of a block from genesis, or -1 off the chain |
| ChainStore.Blockchain.GetBlockHashesAfter | src/blockchain.cpp:257-281 | the hashes after a block, oldest first, or none off the chain |
| ChainModel.HashesAfterIs | src/blockchain.cpp:271-281 | for the first block with the hash asked for, the answer is exactly the suffix after it |
| ChainStore.Blockchain.FindTransactionWithHeight | src/blockchain.cpp:351-367 | the newest transaction with an id, and the height of its block |
| ChainStore.Blockchain.VerifyTransaction | src/blockchain.cpp:381-410 | fee, refusal or exception for a transaction against the chain alone |
| ChainStore.Blockchain.VerifyInBlock | src/blockchain.cpp:412-453 | the same with the transactions before it in a block in reach first, one height further on |
| Validation.GatherLookup | src/blockchain.cpp:425-445 | the previous transaction gathered for each input is the one its own id leads to |
| Validation.FindTxIs | src/blockchain.cpp:351-367 | what is found has the id asked for and stands in the block at the height given |
| Spending.FindTxStands | src/blockchain.cpp:351-367 | an id leads to the first transaction with it in the newest block that has one, and to nothing exactly if no block has one |
| Spending.LookupMeans | src/blockchain.cpp:425-445 | what an input may take: a transaction of the block that is no coinbase, or the one its id names on the chain, if a coinbase 100 blocks deep; and exactly when it is too new or unknown instead |
| Spending.SpentInBlockIsMature | src/blockchain.cpp:412-453 | each input of a transaction that passes in a block spends no coinbase of that block, and a coinbase at height h only if the block is at least 100 above it |
| Spending.SpentOnChainIsMature | src/blockchain.cpp:381-410 | against the chain alone the tip is at least 100 above it |
| Spending.YoungIsRefused | src/blockchain.cpp:393-398 | if every transaction named can be found and one is a coinbase too young, the transaction is refused |
| Spending.FundedOutcome | src/transaction.cpp:98-180 | a transaction with mature transactions to take, existing outputs and enough value passes exactly if every signature is good, with inputs less outputs for its fee; else the first that is not good decides, refused if it is false |
| Spending.PassesMeans | src/blockchain.cpp:381-453 | nothing else passes |
| Spending.UnfundedOutcome | src/blockchain.cpp:381-453 | which of the others are refused and which throw: the first input that may take nothing decides, then a missing output, then too little value, then an empty id |
| Spending.DigestBinds | src/transaction.cpp:34-96 | equal digests mean the same outputs spent, the same outputs made and the same lock signed for; or a collision is produced |
| Spending.BlockSpends | src/node.cpp:741-784 | in a block that passes, each input spends an existing output of the last transaction with that id above it in the block, no coinbase, or of the one its id names on the chain, 100 deep if a coinbase; and its signature is good for the lock of that output |
| Spending.CoinbaseMeans | src/transaction.cpp:26-28 | a coinbase is what spends exactly one outpoint, of no transaction and with index -1 |
| Spending.CoinbaseIsFree | src/blockchain.cpp:381-384 | it passes by itself, without signatures and for no fee |
| Validation.SpendAllIs | src/node.cpp:754-763 | noting outpoints one by one succeeds if and only if none repeats, and leaves exactly those noted |
| Validation.NoRepeatMeans | src/node.cpp:745-763 | the recursive notion of no repeat is pairwise difference |
| TransactionOps.CalculateFee | src/transaction.cpp:198-218 | inputs less outputs against previous transactions, with every way to throw |
| TransactionOps.FeeInRange | src/transaction.cpp:198-218 | if neither sum reaches 2^63, no partial sum and no fee leaves the 64-bit range, so the unchecked arithmetic gives the same |
| TransactionOps.Verify | src/transaction.cpp:98-180 | the first input whose signature is not good decides, though the copy that is hashed is changed and restored on the way |
| BlockCheck.CheckTransactions | src/node.cpp:741-784 | the loop that grows context, spent outpoints and fees computes the specification, early exits included |
| BlockCheck.CheckCoinbase | src/node.cpp:786-800 | the coinbase is within subsidy plus fees, with both overflow checks |
| BlockCheck.CheckBlock | src/node.cpp:715-800 | the verdict before the chain is asked: proof of work, size and shape, transactions, reward |
| Verdicts.RunExactly | src/node.cpp:741-784 | the loop goes through exactly if no transaction repeats an outpoint, fails its check or takes the fees out of range; else the first that does decides, and whether its sender is punished |
| Verdicts.CoinbaseExactly | src/node.cpp:786-800 | the coinbase is accepted exactly if its outputs add up to no more than subsidy and fees, and those stay below 2^63 |
| Verdicts.PrecheckExactly | src/node.cpp:715-800 | the checks before the chain is asked, one by one, with the verdict of each |
| Verdicts.StoredExactly | src/node.cpp:707-829 | the exact conditions under which a block is stored or known: one leading coinbase, 5,000 transactions and 1,000,000 bytes at most, work below the target, transactions in order, reward, place, time; stored exactly if its hash is new |
| Verdicts.PunishedExactly | src/node.cpp:707-829 | the exact conditions under which its sender is punished |
| Node.Node.HandleBlock | src/node.cpp:707-829 | chain, pool, sync state, peer and index after a block message are those its judgement calls for; for a block that passes every check and brings new ids, the index stays in step with the chain if and only if the hash was not on the chain |
| IndexStep.InStepExactly | src/node.cpp:802-806 | the index updated for a block of new transactions is that of the chain afterwards if and only if the hash of the block was new |
| IndexStep.KnownIsForged | src/blockchain.cpp:205-218 | a block that extends the tip under a hash the chain already has is none of the blocks of the chain |
| Example.KnownBreaksIndex | src/node.cpp:802-806 | a block judged as known, not on the chain, whose transactions enter the index |
| Example.ZeroHashBreaksStore | src/blockchain.cpp:205-239 | an accepted block with a hash of zeros, after which a walk from the tip is over before it has met any block |
| Node.Node.HandleTx | src/node.cpp:531-594 | which transactions reach the pool and at what rate, which are passed over, and which cost the peer ten points |
| Relay.OfferedMeans | src/node.cpp:545-580 | a transaction is offered to the pool if and only if it is no coinbase, has inputs and outputs, passes on the chain and pays one raffy per 1000 bytes |
| Relay.PunishedMeans | src/node.cpp:562-574 | a transaction is held against its sender exactly if it is no coinbase, has inputs and outputs, and is refused on the chain |
| Relay.FalseSignatureIsPunished | src/node.cpp:562-574 | of a transaction short of nothing else, a false signature is punished and an unreadable key passed over |
| Relay.UnknownParentIsIgnored | src/node.cpp:562-574 | one whose first input that may take nothing names a transaction nobody has is passed over |
| Relay.PaymentNotRelayed | src/node.cpp:576-580 | a payment built by the wallet is passed over by every node it is sent to |
| Node.Node.HandleVersion | src/node.cpp:266-325 | flags, sync state and the messages sent, in order |
| Node.Node.HandleGetBlocks | src/node.cpp:415-467 | the inventory sent: the hashes after the peer's tip, or nothing if there are none or more than 255 |
| Node.Node.HandleInv | src/node.cpp:375-413 | everything announced is asked for, except transactions already in the pool |
| Node.Node.HandleGetData | src/node.cpp:469-529 | the stored blocks asked for in order, then the pool's transactions asked for in order |
| Node.Node.DispatchMessage | src/node.cpp:831-870 | one message has exactly the effect and the replies of the protocol model, in which the theorems about two nodes are proved |
| Handshake.HandshakeSafety | src/node.cpp:831-846 | in every interleaving of a run without early pings, no message reaches the branch that punishes messages before the handshake |
| Handshake.RunIsSafe | src/node.cpp:266-351 | in both directions, at every moment: first a version, then a verack, then the rest |
| Handshake.StepStaysReady | src/node.cpp:707-829 | no step leaves a node with a tip whose difficulty is out of range |
| Handshake.EarlyPingDooms | src/node.cpp:872-886 | a ping sent before its sender has received a version is ahead of the verack for good |
| Handshake.DoomedUntilPunished | src/node.cpp:842-846 | every step keeps it so until the step in which the ping is punished |
| Handshake.EarlyPingRun | src/node.cpp:842-886 | on every fresh connection, a run with an early ping at the end of which the ping is punished |
| Sync.SyncConverges | src/node.cpp:415-467 | from any fresh connection and in every interleaving, at most 7 + n messages matter; once none is left the requester has the server's chain and has stopped syncing if and only if n <= 255, and otherwise it has gained nothing and still waits |
| Sync.SyncGoesOn | src/node.cpp:1017-1040 | as long as one of them is left and both sides still listen, some node can handle a message |
| Sync.SyncIsPolite | src/node.cpp:842-846 | in such a run a side loses ten points for each invalid transaction it relays and nothing else, and is cut off exactly when that reaches 100 |
| Sync.RequesterHandles | src/node.cpp:266-413 | each message of the server's stream takes the requester one place further and makes it send what comes next |
| Sync.ServerHandles | src/node.cpp:415-529 | each message of the requester's stream takes the server one place further and makes it send what comes next |
| Sync.JudgedLater | src/node.cpp:707-829 | a block that is stored at one time is stored at every later time |
| Example.SyncIsPossible | src/node.cpp:707-829 | two connected nodes and a chain that meet every hypothesis of the sync theorem, for every gap from 1 to 599 blocks, so on both sides of 255 |
| Example.SecondIsAccepted | src/node.cpp:707-829 | a block that meets every hypothesis under which miner and validator agree, and is accepted |
| Example.RepeatedIdIsPossible | src/node.cpp:741-800 | an accepted block that repeats the id of an earlier coinbase, and is within the supply theorem |
| Example.RunIsPossible | src/node.cpp:707-829 | a chain that meets every hypothesis of the supply theorem |
| Protocol.RepliesAreNoHandshake | src/node.cpp:848-869 | outside the handshake no handler sends a version or a verack, nor changes the state of the handshake |
| Protocol.VersionStartsSync | src/node.cpp:266-325 | syncing starts exactly if the peer is higher and none is under way, with a request for what comes after the tip; the version goes out exactly if it had not |
| Protocol.GetBlocksNames | src/node.cpp:415-467 | the inventory names all the blocks after the one asked about, in order, if there are 1 to 255; otherwise nothing is sent |
| Protocol.WantedItems | src/node.cpp:375-413 | every item of an inventory is asked for, in order, but the transactions already in the pool |
| Protocol.InventoryAsks | src/node.cpp:375-413 | one request goes out for them, and none exactly if nothing is wanted |
| Protocol.DataForItem | src/node.cpp:469-529 | for each item asked for, in order, the block or the transaction of that hash is sent, if the node has it |
| Protocol.TxsAsked | src/node.cpp:469-529 | the transactions sent are exactly those of the pool that were asked for |
| Protocol.BlockBringsAbout | src/node.cpp:707-829 | what a block message does to chain, pool, peer and sync state: the pool loses exactly the transactions of a stored or known block, a punished sender is cut off at once, syncing ends exactly at the height the peer synced with had announced |
| Protocol.CutOffAtHundred | src/node.cpp:956-968 | points add up, and a peer is listened to exactly as long as they are fewer than a hundred |
| BlockAssembly.MinerAndValidatorAgree | src/node.cpp:1102-1152 | a mined block is read back unchanged from as many bytes as the miner counted, its coinbase pays exactly subsidy plus fees to the address and carries the data given, and another node with the same tip stores it if and only if no outpoint repeats, else punishes it |
| PaymentExample.PoolIsPunished | src/node.cpp:1102-1152 | a pool of two transactions that each pass, and the block filled and mined from it, punished by a node with the same tip |
| BlockAssembly.SelectTransactions | src/node.cpp:1113-1133 | the loop takes, skips, stops and fails as specified |
| BlockAssembly.FillBlock | src/node.cpp:1102-1137 | succeeds exactly if the address can be paid, selection does not fail and the reward is an amount; the size measured on a placeholder coinbase is that of the real one |
| Miner.SelectIs | src/node.cpp:1113-1133 | what is taken passes on the chain, the fees are its fees, the size its size, and the limits are kept |
| Miner.SelectTakesAll | src/node.cpp:1113-1133 | what is taken is everything that passes on the chain, in order, up to the first transaction that breaks a limit; it fails exactly if one that throws is reached before that |
| Miner.RunChosen | src/node.cpp:741-784 | validation goes through a block of such transactions if and only if no outpoint repeats, with exactly the miner's fees |
| Miner.CheckAgain | src/blockchain.cpp:412-453 | what passes against the chain passes inside a block with the same fee, if the block brings only new ids |
| Miner.CoinbaseSize | src/transaction.cpp:220-246 | the size of a coinbase depends on the lengths of its data and of the owner's hash alone |
| Node.Node.MineBlock | src/node.cpp:1087-1173 | succeeds exactly if the node is not syncing, the block can be filled and the time is within the window; the block is filled from the pool by descending rate and mined on the tip; it extends the chain unless its hash is taken, the store stays sound unless a new hash is zero, and the index stays in step if and only if the hash was new; a failure changes nothing |
| ProofOfWork.Run | src/proofOfWork.cpp:45-74 | the first nonce that meets the target, or the end of the search with none that does |
| ProofOfWork.NewBlock | src/block.cpp:12-23 | a block is mined if and only if its search ended before the last nonce |
| ProofOfWork.HeaderLayout | src/proofOfWork.cpp:20-43 | a header is 88 bytes: predecessor, Merkle root, timestamp, difficulty and nonce, each number most significant byte first |
| ProofOfWork.HeaderBinds | src/proofOfWork.cpp:20-43 | equal proof-of-work hashes mean equal predecessor, Merkle root, timestamp, difficulty and nonce; or a collision is produced |
| ProofOfWork.HashBindsTransactions | src/proofOfWork.cpp:20-43 | and of equally many transactions, the same inputs and outputs; or a collision is produced |
| ProofOfWork.MeetsMeans | src/proofOfWork.cpp:10-18 | a hash meets the target exactly if the number it spells, times 2^bits, is below 2^256 |
| Merkle.Complete | src/merkleTree.cpp:54-90 | the proof generated for any stored leaf verifies, and has one step fewer than the tree has levels |
| Merkle.PathLength | src/merkleTree.cpp:37-52 | that number is the ceiling of the base-2 logarithm of the padded leaf count |
| Merkle.Sound | src/merkleProof.cpp:14-32 | a proof of the right length that folds to the root carries the leaf its direction bits select, or yields a collision |
| Merkle.ProofShowsMember | src/merkleProof.cpp:14-32 | a proof that verifies against the root of a block carries the hash of the transaction its bits select, the last one standing in for the padding, or yields a collision |
| Merkle.RootBinds | src/merkleTree.cpp:37-52 | levels of one size under one root are equal, or yield a collision |
| Merkle.TransactionsBound | src/merkleTree.cpp:18-52 | equally many transactions under one root have the same inputs and outputs, or yield a collision |
| Merkle.PaddingOnly | src/merkleTree.cpp:18-52 | lists of any lengths with trees of one height: under one root, the same inputs and outputs in every place of the full tree, where padding repeats the last; or a collision |
| Merkle.LowerTree | src/merkleTree.cpp:18-52 | lists with trees of different heights: under one root, every transaction of the lower tree encodes to two neighbouring hashes of the other; or a collision |
| Merkle.SlotSelf | src/merkleTree.cpp:37-52 | every stored node stands in its own place of the full tree, so that equal places mean equal prefixes |
| Merkle.RepeatedLast | src/merkleTree.cpp:28-31 | repeating the last transaction of an odd list leaves the root as it is |
| Layouts.SmallRoots | src/merkleTree.cpp:18-52 | the Merkle root over one, two and three transactions, written out |
| Merkle.BuildTree | src/merkleTree.cpp:18-52 | the reduction loop stores level 0 padded and the others unpadded, as specified |
| Merkle.Prove | src/merkleTree.cpp:54-90 | the loop that halves the index collects the specified path, or throws |
| Merkle.LevelsShaped | src/merkleTree.cpp:37-52 | the levels of a tree have the shape that generating a proof relies on |
| Merkle.ProveMember | src/node.cpp:161-168 | a tree over the transactions of a block gives a proof for exactly its stored leaves, and the proof verifies against the root |
| Merkle.VerifyMerkleProof | src/merkleProof.cpp:14-32 | the loop accepts if and only if the fold along the path gives the root |
| Base58.DecodeEncode | src/base58.cpp:19-101 | decoding gives back every byte sequence encoded, leading zeros included |
| Base58.EncodeDecode | src/base58.cpp:19-101 | encoding gives back a text that decodes if and only if it has no NUL |
| Base58.AlphabetAccepted | src/base58.cpp:58-101 | every text over the alphabet decodes |
| Base58.NulIsAccepted | src/base58.cpp:79-88 | a text with a NUL decodes, to bytes that encode to another text |
| Base58.Base58Encode | src/base58.cpp:19-56 | the division loop computes the specified text |
| Base58.Base58Decode | src/base58.cpp:58-101 | the multiplication loop computes the specified bytes, or throws on a foreign character |
| Base58.SymbolsAscend | src/base58.cpp:12 | the symbols stand in the order of their character codes |
| Base58.SymbolsAre | src/base58.cpp:12 | and are the digits and letters without 0, O, I and l |
| Wallet.AddressRoundTrip | src/wallet.cpp:76-122 | every address handed out is valid, and an output sent to it is locked to exactly the key's hash |
| Wallet.AddressSpells | src/wallet.cpp:76-135 | an address spells a version byte of 0, the hash of the key and four bytes of the double hash of both |
| Wallet.ValidateAddress | src/wallet.cpp:95-122 | the step-by-step check accepts exactly the texts that decode to a payload with its checksum |
| Wallet.ValidMeans | src/wallet.cpp:95-135 | the valid texts are those that spell some bytes and behind them four bytes of their double hash |
| Wallet.AddressIdentifies | src/wallet.cpp:76-88 | two keys share an address if and only if they share a hash |
| Wallet.ValidCanBePaid | src/transactionOutput.cpp:17-21 | an output can be made for every valid address |
| TransactionCodec.DecodeEncode | src/transaction.cpp:295-360 | a transaction with its hash for an id is read back from its bytes, whatever follows them |
| TransactionCodec.EncodeDecode | src/transaction.cpp:323-360 | bytes accepted as a transaction begin with the bytes of the transaction read, whose id is its hash |
| TransactionCodec.EncodeInjective | src/transaction.cpp:295-321 | equal bytes mean equal inputs and outputs |
| TransactionCodec.IdsIdentify | src/transaction.cpp:30-32 | two transactions with one id are equal, or yield a collision |
| TransactionCodec.DeserializeInput | src/transactionInput.cpp:45-90 | the offset parser reads the specified fields and counts its bytes |
| BlockCodec.DecodeEncode | src/block.cpp:25-124 | a block within the transaction cap is read back from its bytes, whatever follows them, an absent predecessor as 32 zeros |
| BlockCodec.EncodeDecode | src/block.cpp:64-124 | the transactions read take no fewer bytes than they are written in, and accepted bytes begin with the block read, written again, if and only if they take just as many |
| BlockCodec.LooseReadsAlike | src/block.cpp:88-108 | bytes added inside the length of a transaction change the payload and not the block read |
| Example.TrailingByteIsIgnored | src/block.cpp:88-108 | a payload with one byte too many inside a transaction's length, read as a block it does not begin with |
| BlockCodec.EncodedSize | src/block.cpp:25-62 | a block takes 84 bytes and, for each transaction, 4 more than its own |
| Layouts.BlockLayout | src/block.cpp:25-62 | where each field of a block stands in its bytes |
| Layouts.SizedTransactionLayout | src/block.cpp:25-62 | of a transaction inside a block, behind its length |
| Layouts.TransactionLayout | src/transaction.cpp:295-321 | the same of a transaction |
| Layouts.InputLayout | src/transactionInput.cpp:18-43 | of an input |
| Layouts.OutputLayout | src/transactionOutput.cpp:27-45 | of an output |
| Layouts.EntryLayout | src/transactionOutput.cpp:78-108 | of an entry of the index |
| Layouts.IndexedOutputLayout | src/transactionOutput.cpp:78-108 | of an output in such an entry, behind its index |
| Layouts.EntryRead | src/transactionOutput.cpp:110-138 | of bytes read as such an entry, only a flag of 1 marks a coinbase |
| Layouts.InventoryLayout | src/messageInv.cpp:65-78 | of an inventory |
| Layouts.InventoryItemLayout | src/messageInv.cpp:8-21 | of an item of an inventory |
| Layouts.LittleEnd | src/serialization.cpp:54-87 | numbers stand with the least significant byte first |
| BlockCodec.CheckSize | src/block.cpp:131-156 | accepted if and only if the first transaction and no other is a coinbase, and both limits are kept |
| OutputsCodec.DecodeEncode | src/transactionOutput.cpp:78-138 | the outputs kept for a transaction are read back with their original indices, flag and height |
| InvCodec.DecodeEncode | src/messageInv.cpp:65-102 | an inventory of at most 255 items is read back, whatever follows it |
| InvCodec.EncodeDecode | src/messageInv.cpp:80-102 | bytes accepted as an inventory begin with its serialised form, and it has at most 255 items |
| Wire.HexInjective | src/serialization.cpp:9-30 | hexadecimal map keys are equal if and only if the bytes are |
| Wire.ByteArrayToHexString | src/serialization.cpp:9-15 | the loop writes the two digits of each byte in order |
| Wire.HexDigits | src/serialization.cpp:9-15 | hexadecimal digits are those from 0 to 9 and a to f, in lower case |
| Wire.ReadUint64 | src/serialization.cpp:77-87 | the shifting loop reads the little-endian value or throws at the end of the data |
| UtxoSet.UTXOSet.FindSpendableOutputs | src/utxoSet.cpp:35-80 | picks are distinct, mature and locked to the key, and worth what is returned; either the amount is reached and the last pick was needed, or everything mature that is locked to the key is picked |
| UtxoSet.UTXOSet.FindUTXO | src/utxoSet.cpp:82-116 | the mature outputs locked to the key, each exactly once |
| CoinSelection.CollectedWorth | src/utxoSet.cpp:82-116 | the values of that list add up to the whole balance, which is what a failed selection returns |
| CoinSelection.SelectStep | src/utxoSet.cpp:62-72 | looking at one more output keeps a selection sound, picked or not |
| CoinSelection.NotOneTooMany | src/utxoSet.cpp:62-72 | a selection that reaches a positive amount has an output without which it would not |
| Payment.NewUTXOTransaction | src/transaction.cpp:248-293 | succeeds if and only if the balance covers the amount and the address can be paid; pays the payee in full and the rest back; and passes the check of every node with a fee of 0 |
| Payment.PaymentFee | src/transaction.cpp:198-293 | against the chain, what a payment draws is exactly what it pays out |
| Payment.SpendableExactly | src/utxoSet.cpp:35-116 | what the wallet may spend is what of the index is locked to the key and, if a coinbase's, 100 blocks below the tip: just what verification lets it take |
| Payment.PaymentDelivers | src/transaction.cpp:248-293 | the payee gets the amount, the payer the rest of what the inputs are worth, and nobody else anything |
| Payment.PaymentAccepted | src/transaction.cpp:248-293 | a signed payment passes verification on the chain with a fee of exactly 0 |
| PaymentExample.PaymentIsPossible | src/transaction.cpp:248-293 | an index, a chain and a signed payment that meet every hypothesis under which payments are accepted and not relayed |
| Payment.SignedInputsPass | src/transaction.cpp:98-180 | inputs that reach mature outputs of the chain and are signed by the keys they carry pass with inputs less outputs for a fee, whatever the outputs are locked to |
| Payment.PaymentOwned | src/transaction.cpp:248-293 | every input of a payment carries the key its output is locked to |
| PaymentExample.AcceptedNotOwned | src/transaction.cpp:98-180 | a payment that passes although the key beside each input is not the one its output is locked to |
| PaymentExample.KeysAreTold | src/transaction.cpp:98-180 | under a check of signatures that tells the two keys apart |
| Payment.SignedVerifies | src/transaction.cpp:34-96 | signatures made one after the other, into the transaction itself, are those that verification asks for |
| Mempool.Mempool.AddTransaction | src/mempool.cpp:25-60 | what is evicted has a lower rate than the newcomer, no higher one than any entry that stays, and was needed, even if the newcomer is then rejected; it is rejected only from a full pool without a lower rate |
| Mempool.Mempool.EvictLowestFeeRate | src/mempool.cpp:8-23 | an entry of the lowest rate goes, and the byte total stays exact |
| Mempool.Mempool.RemoveBlockTransactions | src/mempool.cpp:62-74 | exactly the transactions of the block go, and the byte total stays exact |
| Mempool.Mempool.GetTransactionsSortedByFeeRate | src/mempool.cpp:76-95 | every transaction once, by descending rate |
| Mempool.SortedMeans | src/mempool.cpp:76-95 | every entry is in the sorted list, behind none with a lower rate |
| Mempool.EvictedMore | src/mempool.cpp:37-50 | evicting the lowest entry of a full pool keeps all that is promised about what was evicted |
| Mempool.WithinBytes | src/mempool.cpp:36-53 | the pool holds at most 50,000,000 bytes if and only if no single entry exceeds that |
| Mempool.EvictsOnlyWhenFull | src/mempool.cpp:36-50 | a pool with room loses nothing |
| Mempool.RoomMeans | src/mempool.cpp:36-38 | there is room up to and including 50,000,000 bytes and 10,000 entries, the newcomer counted |
| Mempool.RoomIsTaken | src/mempool.cpp:25-60 | a newcomer for whom there is room enters, and everybody stays |
| Mempool.NoBetterIsRejected | src/mempool.cpp:36-50 | one who pays no more than anybody in a full pool is turned away, and everybody stays |
| Mempool.RejectedAfterEviction | src/mempool.cpp:36-50 | a newcomer can evict an entry and still be turned away |

## Left out

- SupplyRuns.SupplyBound: asks for live inputs, and one index per earlier transaction and block; without either, `SupplyRuns.SupplyAccount` says what the supply gains.
- SupplyRuns.AcceptedExtends: acceptance is judged with unbounded sums; outputs of one transaction that add up to 2^63 or more, which the original adds unchecked, are refused here (`SupplyRuns.RunInputsInRange` has the input side).
- TransactionOps.CalculateFee: sums are unbounded integers (`TransactionOps.FeeInRange` says when that makes no difference), as are the miner's fee total and the amounts of coin selection; the original adds without overflow checks, which is undefined past 64 bits. The checks that do exist, in block validation, are modelled.
- ChainStore.Blockchain.AddBlock: the store maps hashes to blocks rather than to their bytes (the block codec is proved separately), heights are unbounded, and database errors are not modelled.
- UtxoSet.UTXOSet.FindSpendableOutputs: the database is walked in an arbitrary order, not in that of its keys.
- Mempool.Mempool.EvictLowestFeeRate: fee rates are real numbers, and which of several lowest entries goes is left open.
- Sync.SyncConverges: the per-second message limit is not modelled, and neither node mines or hears from others meanwhile.
- Handshake.HandshakeSafety: every handler is one atomic step, and a connection loses nothing and keeps its order.
- Node.Node.DispatchMessage: address books, pong bookkeeping and relaying to third peers are not modelled; a message carries its parsed contents, except for blocks, which arrive as bytes.
- Node.Node.MineBlock: announcing the block to peers, and a tip that moves during the search, are not modelled.
- UtxoSet.UTXOSet.Update: asks that no transaction has more than 2^31 outputs, the range of the index's keys; a block that validation lets through never has (`Node.DecodedFits`).
- Sockets, threads, timers, RPC, JSON, the command line, logging, address and ban management: plumbing around the core.
- Key generation, ECDSA, PBKDF2 and AES: opaque, or not part of this model.
