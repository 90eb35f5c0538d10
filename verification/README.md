# HenryCoin node: a verified model

HenryCoin is a proof-of-work coin node: it keeps a chain of blocks in memory and in a file, derives
balances from the chain, queues payments, mines blocks, and exchanges chains with its peers. This project
models that logic in Dafny and proves what holds of it on every input, after every step and over every run.

| Part | Modules |
|---|---|
| Values and hashing | `Wrappers`, `Transactions`, `Blocks`, `History`, `Numerals`, `Identifiers` |
| Ledger accounting | `Unspent`, `UnspentLaws`, `Ledger`, `LedgerEntries`, `Agreement`, `DoubleSpends`, `Payments` |
| Mining and block assembly | `Chains`, `Retarget`, `Mining`, `BlockEffect`, `MiningRun`, `Settlement`, `Overspends`, `Start` |
| The chain file | `ChainFile`, `FileLayout`, `Truncation`, `ChainDatabase` |
| Synchronisation | `Node`, `MinerApp`, `Network`, `Queues`, `CatchUp`, `Convergence` |
| Base 58 | `Base58` |
| Concrete inputs | `Examples` |

`Blockchain`, `Miner`, `ChainDatabase`, the file streams and `MinerApp` update their fields, so they are
classes. Each method is proved equal to a function of the old state, and the lemmas are about those
functions. Blocks and transactions are values, because the program copies them in and out of vectors; the
setters of a block are functional updates, and the block that `mineBlock` fills in is passed in and returned.

## Main results

* **Two views of ownership.** The set of unspent outputs and the push-and-pop ledger are two independent
  computations. `Agreement.BalancesAgree` shows that they agree on every chain in which every output is
  unspent when it is used, transactions have one owner, and payees are distinct. Nothing in the program
  rejects a double spend. With no hypothesis on spending, nor on the sign of amounts,
  `DoubleSpends.AgreementExactly` and `DoubleSpends.BalancesAgreeIff` show that the unspent outputs exceed the
  ledger by exactly what the inputs of the address are worth that the search at
  `src/Blockchain.cpp:115-123` does not find. As long as none of those is negative, the ledger never says more
  than the unspent outputs, and one miss is enough for good (`DoubleSpends.LedgerNeverSaysMore`,
  `DoubleSpends.DoubleSpendDisagrees`). `Agreement.LedgerExists` says exactly when `ledger.back()` would be
  read from an empty ledger, and `LedgerEntries` what the entries of a ledger are.
* **Supply and payments.** Over any run of payments, templates, mining and aborts, no payment is lost or
  doubled, whether or not payments spend the same outputs (`MiningRun.PaymentsConserved`). From the first
  block on the supply is the reward for each block plus what the inputs are worth that were not found
  (`Overspends.SupplyOfAnyRun`), every ledger exists, and the two views differ by what the address missed
  (`Overspends.ViewsOfAnyRun`). As long as payments do not spend what waiting ones spend, the supply is the
  reward for each block and nothing else (`MiningRun.SupplyOverRun`, `MiningRun.SupplyFromStart`).
  `MiningRun.PaymentsSettle` and `Settlement.PayAndMine` follow a payment from the order to every balance.
* **The network.** `Network.NetworkIsSafe` covers any number of nodes and any interleaving of their steps,
  with answers that may be late, repeated or lost. `CatchUp.CatchesUpIffLonger` and `CatchUp.DialogueMeets`
  say when and in how many answers a node that hears of more work catches up, and
  `Convergence.LongerIsReached` that the dialogue is a run of that network. `Queues.EveryPaymentAccounted` says
  what becomes of the payments of a node in any run: they wait, are in flight, were mined, or were lost in one
  of three ways.
* **The file.** Reading undoes writing, from a single number to a whole chain (`ChainFile.ReadsChain`), and
  file and memory agree after every step. Appending and writing a mined block are two steps without a lock;
  `Node.LateWrite` says exactly which updates, taken over between them, make file and memory differ: those
  that replace blocks, and those that add to the new block.
* **Mining.** `Mining.SearchFindsFirst` says exactly which nonce is found; `Mining.MinedIsAccepted` that the
  mined block is taken; `Retarget.DifficultyBound` and `Start.DifficultyFromStart` how far the difficulty can
  drift.
* **History.** `History.TipFixesHistory`: the hash of the last block fixes everything before it, or two
  different texts that the program cannot tell apart can be read off the two chains.

## What is assumed

* Amounts are exact reals.
* SHA-256, the JSON text of a list of transactions, the text a stream makes of an amount, and the eight bytes
  of a double are parameters (`Crypto`, `DoubleCodec`). Injectivity is never assumed: a result
  that depends on it ends in "or a collision is at hand", and the collision is a pair of blocks of the chains
  in question. `HexDigests` says that digests have 64 characters, and is asked for only where needed.
* The set of unspent outputs, ordered by a hash in `src/Blockchain.cpp:73-79`, is a map keyed by outpoint, so
  the hash is taken to be injective on the outpoints of a chain; the order of the result is left open, and
  results hold for every order.
* Clock, stop flag and the callback of the miner are arbitrary functions (`World`), of which only this is
  known: the flag is not set again during a search. A search need not end; results about one that ends name
  a nonce (`limit`) at which it is over, by a hit, a refusal or the cleared flag.
* `Network` assumes that no two blocks of different heights share a hash (`Env.height`), because
  `addNewBlock` looks at the previous hash and not at the index. `History.HashTellsHeight` says why:
  otherwise the hash of a first block came up again, or a collision is at hand.
* That a node that catches up ends with the peer's work, and not only with its hashes, depends on blocks with
  equal hashes at equal heights claiming equal difficulties: the hashed text is a concatenation without
  separators, so the hash alone does not decide where the difficulty ends. Without that, and as long as totals
  stay below 2^64, the node gains work exactly if the peer's part has more than the part it replaces
  (`CatchUp.SpliceGains`).

Where code and expectations differ, the model follows the code:

* Block 0 is never checked: not its hash, and not by `isValidChain`. Its data are set after its hash.
* `cumDifficulty()` leaves out the last block.
* A node that hears of more work on a chain that is *not longer* asks for a block that does not exist, and
  never catches up. The condition in `CatchUp.CatchesUpIffLonger` is the exact one;
  `Examples.StaysBehindExample` shows two such chains.
* The two views of ownership differ after a double spend: `Examples.DoubleSpendExample` is a chain of two blocks.
* Any amount is accepted (`src/MinerApp.cpp:330-352`), so outputs can be negative. `Examples.NegativeExample` is
  a chain on which the ledger says *more* than the unspent outputs; its payments are what the program makes
  (`Examples.DebtsAreOutcomes`). With a negative output the order of the listing decides whether a payment
  goes through (`Examples.OrderMatters`).
* A replacement of the whole chain is not decided by work, and loses the local queue.
* `addNewBlock` and the write to the file after mining are outside any lock (`Node.LateWrite`);
  `Examples.LateWriteExample` shows both kinds of update after which file and memory differ.
* The debug assertion `tempStartIdx > 0` in `src/MinerApp.cpp:1037` would stop the program when an update
  starts at block 1. The model is of the build without assertions; those at
  `src/Miner.h:48-49` are not asked for either.

## Model

| member | source | states |
|---|---|---|
| Unspent.GetUnspentTxOuts | src/Blockchain.cpp:71-135 | the result lists, once each and in some order, exactly the outputs the chain leaves unspent, with owner and value |
| Unspent.InsertOutputs | src/Blockchain.cpp:90-104 | an output already in the set stays as it is, every other output of the address goes in |
| Unspent.EraseInputs | src/Blockchain.cpp:106-127 | for a coinbase nothing, otherwise every referenced output that is there is erased and nothing else |
| Unspent.ListOutputs | src/Blockchain.cpp:131-134 | the list holds each entry of the set exactly once |
| UnspentLaws.UnspentMeaning | src/Blockchain.cpp:71-135 | an output is unspent iff a transaction created it and no non-coinbase transaction from that one on refers to it |
| UnspentLaws.UnspentOrigin | src/Blockchain.cpp:98-103 | owner and value of an unspent output are those that its transaction gave it |
| UnspentLaws.PerAddressOf | src/Blockchain.cpp:93-96 | asking for one address gives the whole-chain result filtered by owner, when block indices are distinct |
| UnspentLaws.AddressIsGiven | src/Blockchain.cpp:93-96 | with an address exactly the outputs it owns are given; whatever is given is so without an address too |
| UnspentLaws.EveryOutputIsCreated | src/Blockchain.cpp:90-104 | without an address every output of a transaction goes in, under its place and number |
| Transactions.CoinbaseIff | src/Transactions.h:263-271 | a coinbase has an unsigned first input that names output 0 of transaction 0 of some block, whichever |
| UnspentLaws.FreshOutputs | src/Blockchain.cpp:98-103 | when places differ, no transaction creates an output that is already there |
| UnspentLaws.ListedValue | src/Blockchain.cpp:131-134 | however the set is listed, the list is worth what the set is worth |
| UnspentLaws.ValueStep | src/Blockchain.cpp:83-128 | one transaction with live inputs changes an address's unspent value by what it pays the address less what it spends of it |
| UnspentLaws.SupplyAccounts | src/Blockchain.cpp:71-135 | double spends or not: unspent value and value actually erased make up all value created, for every address |
| Ledger.GetBlockDetails | src/Blockchain.cpp:275-303 | a copy of the block in which every input carries owner and value of the output it refers to, and nothing else differs |
| Ledger.GetAddressLedger | src/Blockchain.cpp:137-184 | the nested loops produce the ledger that posting the transactions one by one defines, blocks being looked up again by their index |
| Ledger.PostTransaction | src/Blockchain.cpp:146-180 | the first payment to the address is pushed; a debit replaces the last entry, also when that is an unrelated older one |
| LedgerEntries.FirstCounts | src/Blockchain.cpp:149-158 | the output that counts is the first of the address, however many it has |
| LedgerEntries.OneIsDebited | src/Blockchain.cpp:165-166 | a payment is a debit of exactly one address, the owner of its first input, a coinbase of none |
| LedgerEntries.StepIs | src/Blockchain.cpp:146-180 | a payment is one entry more; a debit with change is one entry worth change minus inputs; a debit without change adds none and takes the inputs off the last, which then names it |
| LedgerEntries.LedgerLength | src/Blockchain.cpp:137-184 | there are as many entries as transactions that pay the address |
| LedgerEntries.LedgerIsNets | src/Blockchain.cpp:137-184 | with change whenever it spends, the ledger lists for each transaction that pays the address what it gets less what it spends there |
| LedgerEntries.LedgerHolds | src/Blockchain.cpp:137-184 | every entry carries block index, identifier and time of a transaction of the chain that pays or debits the address |
| Ledger.GetAddressBalance | src/Blockchain.cpp:186-195 | the balance is the sum of the ledger |
| Agreement.LedgerExists | src/Blockchain.cpp:165-178 | the last entry of an empty ledger is read iff the address spends before it was ever paid |
| Agreement.LedgerStepSum | src/Blockchain.cpp:149-179 | a debit lowers the sum by the value of the inputs, whichever entry it replaced |
| Agreement.CreditIsFirst | src/Blockchain.cpp:149-158 | with distinct payees, stopping at the first payment to an address misses nothing |
| Agreement.AgreeOnEvents | src/Blockchain.cpp:71-184 | after any list of transactions whose inputs are live, the ledger exists and sums to the unspent value |
| Agreement.BalancesAgree | src/Blockchain.cpp:71-195 | the balance of every address is the value of its unspent outputs, asked for alone or filtered from all |
| DoubleSpends.LedgerSumIs | src/Blockchain.cpp:137-195 | with no hypothesis on spending, the ledger sums to what was created for the address less what it was debited |
| DoubleSpends.ErasedAndDebited | src/Blockchain.cpp:113-127 | what one transaction debits is what it erases of the address and what the address's inputs are worth that are not found among the outputs that the inputs before them have left; one owner, distinct payees |
| DoubleSpends.AgreementExactly | src/Blockchain.cpp:113-127 | with no hypothesis on spending or signs, unspent value less ledger sum is what the inputs of the address are worth that are searched for and not found; one owner, distinct payees |
| DoubleSpends.LedgerNeverSaysMore | src/Blockchain.cpp:113-127 | as long as no missed input is negative, the ledger sums to at most the unspent value, and to all of it iff every input of the address that is worth something is found |
| DoubleSpends.BalancesAgreeIff | src/Blockchain.cpp:71-195 | the same for the balance and the unspent outputs that the program computes from a chain: they differ by what was missed, and agree iff that is nothing |
| DoubleSpends.DoubleSpendDisagrees | src/Blockchain.cpp:113-127 | as long as no missed input is negative, one that is worth something makes the ledger say less, whatever comes before and after |
| Agreement.CompareBalances | src/Blockchain.cpp:71-195 | the two programs side by side: the balance is the total of the listed unspent outputs |
| Payments.CreateTransaction | src/Blockchain.cpp:197-254 | the result and the transaction are what some listing of the sender's unspent outputs leads to |
| Payments.ChooseOutputs | src/Blockchain.cpp:214-229 | the loop takes the outputs up to the first with which the total covers the amount, or all; total and leftover fit |
| Payments.TakenIsLeast | src/Blockchain.cpp:218-229 | what is taken covers the amount unless everything was taken, and no shorter beginning covers it |
| Payments.PaymentResult | src/Blockchain.cpp:202-234 | whatever the values: for each of the results, exactly when it is returned; success iff some beginning of the list, of at least one output, covers the amount |
| Payments.PaymentSucceedsIff | src/Blockchain.cpp:202-234 | with no negative output: success iff there are unspent outputs and their total covers the amount, whatever their order |
| Payments.NoopIff | src/Blockchain.cpp:202-205 | a payment is no payment iff the addresses have the same length and differ in nothing but the case of letters, 32 code points apart |
| Payments.PaymentHolds | src/Blockchain.cpp:236-253 | the inputs are the first outputs of the listing, signed and unresolved; the receiver is the first payee; the sender is the second iff something is left, and gets that; without success the transaction is empty |
| Payments.PaymentIsFrugal | src/Blockchain.cpp:218-233 | without the last output chosen a successful payment would not be covered |
| Payments.SuccessPays | src/Blockchain.cpp:236-253 | a successful payment spends different unspent outputs of the sender, pays the receiver, and returns exactly the rest |
| Payments.PaymentEffect | src/Blockchain.cpp:236-253 | inputs and outputs are worth the same; sender loses and receiver gains the amount, nobody else is affected |
| Payments.OutcomeIsNoCoinbase | src/Blockchain.cpp:236-253 | no payment that the program makes is shaped like a coinbase |
| Chains.Blockchain.AddNewBlock | src/Blockchain.cpp:317-332 | the block is appended iff it passes the hash check and follows on the last hash; otherwise nothing changes |
| Chains.Blockchain.IsValidChain | src/Blockchain.cpp:349-365 | true iff every pair of neighbours is linked by index and hash and the hash is that of the block, from block 1 on |
| Chains.Blockchain.CumulativeDifficulty | src/Blockchain.cpp:372-384 | the sum of two to the difficulty over the first blocks, modulo 2^64 |
| Chains.DifficultyDoubles | src/Blockchain.cpp:377-381 | a block of difficulty zero counts one, and one difficulty more counts twice as much |
| Chains.Blockchain.ReQueueTransactions | src/Blockchain.cpp:386-398 | the payments of the block go to the end of the queue in their order, coinbase-shaped ones do not; the count is theirs |
| Chains.Blockchain.GetAdjustedDifficulty | src/Blockchain.cpp:400-426 | the difficulty that follows from the chain, 64-bit wrap-around included |
| Chains.Blockchain.CreateUnminedBlock | src/Blockchain.cpp:438-454 | one coinbase, then the queue in order with new identifiers; the queue is empty afterwards |
| Chains.TemplateHolds | src/Blockchain.cpp:442-451 | each payment keeps inputs and outputs and gets the identifier of its content at the new height, whatever it had; so does the reward |
| Identifiers.GetTransactionId | src/Transactions.cpp:158-184 | the two loops build the text that is hashed |
| Identifiers.IdIgnoresTheRest | src/Transactions.cpp:158-184 | an identifier depends on outpoints, outputs and height only |
| Identifiers.RewardTextsDiffer | src/Transactions.cpp:186-193 | rewards of one wallet at different heights have different texts, so equal identifiers would be a collision |
| Chains.Blockchain.QueueTransaction | src/Blockchain.cpp:433-436 | the payment goes to the end of the queue |
| Blocks.StartsWithZeros | src/Block.cpp:51-58 | comparing with a run of zeros holds iff the hash is long enough and begins with that many |
| Blocks.HeaderIs | src/Block.cpp:123-129 | blocks count as equal iff they differ in nothing but difficulty, previous hash, transactions, hash and miner |
| Numerals.DecimalInjective | src/Block.cpp:82-88 | different numbers are written differently |
| Numerals.OneFieldTells | src/Block.cpp:72-106 | blocks that differ in exactly one of index, nonce, difficulty, data, time and previous hash have different texts |
| Numerals.OneFieldCollides | src/Block.cpp:72-106 | two such blocks with the same hash are a collision |
| Numerals.HeaderIsWritten | src/Block.cpp:82-88 | the text of two headers, written out |
| BlockEffect.StillThere | src/Blockchain.cpp:81-129 | the outputs that a transaction waiting in a block refers to are untouched by the transactions before it |
| BlockEffect.TurnComes | src/Blockchain.cpp:81-129 | when its turn comes, each transaction of a new block is as good, and has the same effect, as on the old chain |
| BlockEffect.ExtendedAccounted | src/Blockchain.cpp:312-332 | appending a mintable block keeps every output spent at most once, and all inputs resolvable |
| BlockEffect.AppendEffect | src/Blockchain.cpp:312-332 | one more block moves every balance by the reward and the net of its transfers |
| BlockEffect.SupplyGrowsByReward | src/Transactions.cpp:186-193 | the supply grows by the reward and nothing else |
| BlockEffect.TransferOutlivesBlock | src/Blockchain.cpp:433-436 | a waiting payment that shares no input with a mined block can still be mined |
| MiningRun.NextKeeps | src/MinerApp.cpp:691-756 | every step whose payment shares no input with a waiting one keeps the chain accounted for and all pending payments mintable; it adds the reward iff it adds a block |
| MiningRun.SupplyOverRun | src/MinerApp.cpp:691-756 | over any run of such steps the supply has grown by exactly the reward for each appended block |
| MiningRun.SupplyFromStart | src/MinerApp.cpp:638-656 | from the first block on, the supply is exactly the reward times the length of the chain |
| MiningRun.BalancesAgreeOverRun | src/Blockchain.cpp:71-195 | over any run of such steps the two views of every address agree |
| MiningRun.HeldStep | src/MinerApp.cpp:349-352 | each step adds to the payments waiting, in flight and mined exactly the one it accepts, if any, whatever outputs it spends |
| MiningRun.PaymentsConserved | src/MinerApp.cpp:702-755 | over any run, double spends included, the payments waiting, in flight and mined are, with multiplicity, those there at first and those accepted |
| MiningRun.AbortPutsBack | src/MinerApp.cpp:721-732 | giving a template up puts back exactly the payments it took, in their order |
| MiningRun.AllPutBackIff | src/Blockchain.cpp:386-398 | putting back loses nothing iff no transaction is shaped like a coinbase |
| MiningRun.PaymentsSettle | src/Blockchain.cpp:186-254 | any number of disjoint payments, queued, mined and appended, move each balance by exactly what they say, plus the miner's reward |
| Overspends.OpenStep | src/MinerApp.cpp:691-756 | every step, whatever its payment spends, keeps all payments funded by the chain: one payer, distinct payees, inputs in range, as much paid out as the inputs are worth |
| Overspends.BlockSupply | src/Blockchain.cpp:113-127 | one more block raises the supply by the reward and by what its inputs are worth that are not found |
| Overspends.SupplyOfAnyRun | src/MinerApp.cpp:638-756 | from the first block on, over any run, the supply is the reward times the length of the chain plus what the inputs are worth that were not found |
| Overspends.FundedIsPaid | src/Blockchain.cpp:165-178 | nobody spends before being paid, double spends or not, so the last entry of an empty ledger is never read |
| Overspends.ViewsOfAnyRun | src/Blockchain.cpp:71-195 | from the first block on, over any run, every ledger exists and differs from the unspent outputs by what the address missed |
| Settlement.PayAndMine | tests/test_blockchain.cpp:177-213 | pay, queue, mine, append: on success the three balances move by amount and reward and no other; without success chain and balance stay |
| Settlement.MineNext | tests/test_blockchain.cpp:193-207 | a queued payment is the second transaction of the next block, and a found block is appended |
| Retarget.LookBackInRange | src/Blockchain.cpp:405-410 | when indices are positions, the first block of the window is always there |
| Retarget.DifficultyStep | src/Blockchain.cpp:400-426 | inside a window the difficulty is constant; at its end it changes by at most one, wrap-around notwithstanding |
| Retarget.DifficultyMoves | src/Blockchain.cpp:410-425 | at the end of a window the difficulty rises iff the window took less than half its target, falls iff it took more than twice that, in whole seconds; from zero it never falls |
| Retarget.AdjustedIs | src/Blockchain.cpp:400-426 | the same for the next block of any chain with enough blocks, wrap-around from and to zero included |
| Retarget.SecondsMirror | src/Blockchain.cpp:412-414 | seconds are cut off toward zero on both sides |
| Retarget.DifficultyBound | src/Blockchain.cpp:400-426 | in a mined chain the difficulty at index i is within i / interval of that of block 0 |
| Start.GenesisStarts | src/MinerApp.cpp:638-656 | the first block of a node starts every run: outputs accounted for, hashes in order, difficulty one, one reward in circulation |
| Start.GenesisHash | src/MinerApp.cpp:641-653 | the first block has a hash of 64 characters, of what it was before its data were set; with data it is not its own hash, or there is a collision |
| Start.DifficultyFromStart | src/MinerApp.cpp:691-756 | a chain grown from the first block by any number of turns of mining is good, and its difficulty at height i is within i / interval of one |
| Start.RoundIsRun | src/MinerApp.cpp:702-746 | a turn of mining is a template and a mined block, as steps of the node, or nothing |
| Start.BothBuilds | src/Blockchain.h:16-22 | with the constants of the release build that is i / 25, of the debug build i / 10 |
| Start.ReleaseTargets | src/Blockchain.h:16-18 | in the release build a window of 25 blocks raises the difficulty iff it took less than five minutes, lowers it iff more than twenty |
| Start.DebugTargets | src/Blockchain.h:19-22 | in the debug build ten blocks, half a minute and two minutes |
| Retarget.MetDifficulty | src/Block.cpp:43-59 | a difficulty above the length of a hash cannot be met, so a difficulty that wrapped is never in a chain |
| Mining.Miner.MineBlock | src/Miner.h:45-99 | the loop returns what the search defines: success with the block filled in, or abort with the block as it was |
| Mining.StrideIs | src/Miner.h:71-83 | clock and callback are consulted after the first nonce and then after each 262144 more |
| Mining.SearchFindsFirst | src/Miner.h:68-98 | nonce n is found iff it is the first hit, the callback never refused before it, and the flag was still set afterwards |
| Mining.FoundIsValid | src/Block.cpp:43-59 | the filled-in block passes the hash check iff its nonce is a hit |
| Mining.MiningFillsIn | src/Miner.h:95 | mining fills in nonce, difficulty, time and hash and leaves the rest of the block alone |
| Mining.MinedIsAccepted | src/MinerApp.cpp:709-743 | whatever clock, flag and callback do: a block mined from a template is appended to the chain it was made for, which stays valid |
| Mining.MiningKeepsMinedChain | src/MinerApp.cpp:709-743 | mining at the adjusted difficulty keeps the chain one to which the difficulty bound applies |
| History.HashFixesBlock | src/Block.cpp:72-106 | equal hashes mean equal previous hashes and transactions, because the two form a suffix of fixed length, or a collision |
| History.HashFixesHistory | src/Block.cpp:72-106 | chains that meet at one height agree at every height up to it, whatever their lengths, or hold a collision |
| History.TipFixesHistory | src/Blockchain.cpp:334-365 | equal tips of valid chains of equal length mean equal previous hashes and transactions from block 1 on, or a collision |
| History.HashTellsHeight | src/Blockchain.cpp:317-332 | a hash shared by two heights means that a first block's hash came up again, or a collision |
| ChainFile.ReadsNumber | src/ChainDatabase.h:25-30 | reading a little-endian number gives it back and leaves the rest |
| ChainFile.ReadsString | src/ChainDatabase.h:37-63 | reading a length-prefixed string gives it back and leaves the rest |
| ChainFile.ReadsTransaction | src/ChainDatabase.cpp:27-50 | reading a transaction gives it back and leaves the rest, if its inputs carry no resolved owner or value |
| ChainFile.ReadsBlock | src/ChainDatabase.cpp:52-151 | reading a block consumes exactly its own bytes and gives it back, whatever follows |
| ChainFile.ReadsChain | src/ChainDatabase.cpp:188-194 | reading to the end of the file recovers any list of blocks written back to back |
| ChainFile.BlockConsumes | src/ChainDatabase.cpp:125-151 | a block that was read took at least one byte, so the loading loop ends |
| FileLayout.ByteOfNumber | src/ChainDatabase.h:25-30 | byte i of a number is its digit i in base 256 |
| FileLayout.BlockLayout | src/ChainDatabase.cpp:52-75 | where each field of a block stands in its bytes, and how many transactions follow |
| FileLayout.TransactionLayout | src/ChainDatabase.cpp:27-50 | where identifier, counts, inputs and outputs of a transaction stand |
| FileLayout.InputLayout | src/ChainDatabase.cpp:8-19 | where the three numbers and the signature of an input stand |
| FileLayout.OutputLayout | src/ChainDatabase.cpp:21-25 | where payee and amount of an output stand |
| FileLayout.LongStringIsCut | src/ChainDatabase.h:37-42 | of a string of 2^32 characters or more only its length modulo 2^32 is written |
| Truncation.TruncatedBlock | src/ChainDatabase.cpp:125-151 | no proper beginning of a block reads as one |
| Truncation.TruncatedFile | src/ChainDatabase.cpp:188-194 | whole blocks followed by a part of one do not read as a chain |
| ChainDatabase.OutStream.WriteBlock | src/ChainDatabase.cpp:52-75 | exactly the encoding of the block is added to the stream |
| ChainDatabase.OutStream.WriteTransaction | src/ChainDatabase.cpp:27-50 | exactly the encoding of the transaction is added to the stream |
| ChainDatabase.OutStream.WriteString | src/ChainDatabase.h:37-42 | exactly the encoding of the string is added, its length truncated to 32 bits |
| ChainDatabase.InStream.ReadBlock | src/ChainDatabase.cpp:125-151 | delivers what the parser finds; fails, for good, iff the bytes run out |
| ChainDatabase.InStream.ReadTransaction | src/ChainDatabase.cpp:96-123 | delivers what the parser finds; fails, for good, iff the bytes run out |
| ChainDatabase.InStream.ReadString | src/ChainDatabase.h:56-63 | delivers what the parser finds; fails, for good, iff the bytes run out |
| ChainDatabase.ChainDatabase.Write | src/ChainDatabase.cpp:213-217 | the block's encoding is added to the end of the file, which is created if need be |
| ChainDatabase.ChainDatabase.WriteChain | src/ChainDatabase.cpp:219-227 | the encodings of all blocks are added to the end of the file |
| ChainDatabase.ChainDatabase.Reset | src/ChainDatabase.cpp:229-237 | the file is gone |
| ChainDatabase.ChainDatabase.Load | src/ChainDatabase.cpp:188-194 | the blocks of a file that can be read are added to the chain in order |
| ChainDatabase.ChainDatabase.Initialize | src/ChainDatabase.cpp:171-199 | a missing file is begun with the first block; the chain is what the file holds; "invalid chain" is thrown iff it is not valid |
| Node.SyncIsExact | src/MinerApp.cpp:788-816 | an update that attaches at f gives exactly the first f local blocks followed by it iff all its blocks pass the hash check |
| Node.AddedIsLinked | src/MinerApp.cpp:792-800 | whatever was cached, what an update adds is linked to the local blocks that stay, and passes |
| Node.SyncLeaves | src/MinerApp.cpp:774-828 | an update leaves the block in flight alone, and the queue unless the whole chain is replaced; it is used up; one that is not used changes nothing |
| Node.OnlyValidIsCached | src/MinerApp.cpp:989-1046 | whatever comes, only a valid chain is cached and nothing else changes; what is not valid is not answered |
| Node.WholeChainIsTaken | src/MinerApp.cpp:780-787 | asking for everything and taking it over gives the peer's chain in memory and in the file, and no queue |
| Node.SummaryAsks | src/MinerApp.cpp:957-985 | the whole chain is asked for iff the first block is another one and that is allowed; a range iff it is the same and there is strictly more work, beginning right after what is known |
| Node.NothingToAsk | src/MinerApp.cpp:971-985 | a node with the same first block and no less work asks for nothing |
| Node.TemplateCarries | src/MinerApp.cpp:709-714 | the block to be mined follows on the last, carries miner and data as given, and holds the reward and the queue, which is then empty |
| Node.SyncKeepsDisk | src/MinerApp.cpp:774-828 | every branch of an update keeps the file the encoding of the chain in memory |
| Node.AppendKeepsDisk | src/MinerApp.cpp:737-746 | so does a mined block that is appended and written, or refused |
| Node.RestartFindsChain | src/ChainDatabase.cpp:186-199 | a restart reloads the chain that was in memory, and "invalid chain" is not thrown |
| Node.RestartIsClean | src/ChainDatabase.cpp:186-199 | whatever the file holds, a node starts again only with a valid chain, nothing cached, queued or in flight, and the file as it was |
| Node.LateWrite | src/MinerApp.cpp:734-746 | an update taken over between appending and writing a block makes file and memory differ iff it starts at or before that block, or right behind it with a block that is accepted |
| MinerApp.MinerApp.Startup | src/MinerApp.cpp:638-658 | a new file gives the node's own first block alone; otherwise the chain is that of the file, accepted iff valid |
| MinerApp.MinerApp.SyncBlockchain | src/MinerApp.cpp:774-828 | the program takes the branch and reaches the state the specification of an update defines; the result says whether it was used |
| MinerApp.MinerApp.HandleChainResponse | src/MinerApp.cpp:1010-1056 | a reply is cached iff it is a whole chain or attaches; otherwise the gap, or one block more, is asked for |
| MinerApp.MinerApp.HandleResponse | src/MinerApp.cpp:987-1008 | an invalid reply is dropped, a valid one handled, and an update taken over at once while nobody mines |
| MinerApp.MinerApp.HandleSummary | src/MinerApp.cpp:935-1007 | what is asked for after a summary: the whole chain, the blocks after the known ones, or nothing; an update that waits is taken over while nobody mines |
| MinerApp.MinerApp.ServeChain | src/MinerApp.cpp:842-880 | the answer holds the blocks from the first with index id1 on, up to the first beyond id2 |
| MinerApp.MinerApp.TakeAndMine | src/MinerApp.cpp:706-722 | the template takes the queue and the adjusted difficulty, and what is found is what the search defines |
| MinerApp.MinerApp.AppendAndWrite | src/MinerApp.cpp:737-746 | the block is appended and written iff the chain accepts it, otherwise neither |
| MinerApp.MinerApp.MineRound | src/MinerApp.cpp:702-755 | an undisturbed turn of the mining loop: a found block is always appended and written, otherwise all is put back; the chain has grown as `Mining.AfterRound` says; a waiting update follows |
| MinerApp.AddAll | src/MinerApp.cpp:792-800 | refused blocks are skipped, and each later one is judged against what was added |
| MinerApp.AddedOneMore | src/MinerApp.cpp:792-800 | whatever became of the blocks before it, the next is judged against the chain as it then is |
| MinerApp.AddAndWriteAll | src/MinerApp.cpp:808-814 | the same, and exactly the blocks that were added are written |
| Network.AnswerIsFragment | src/MinerApp.cpp:842-879 | every answer is a non-empty run of consecutive good blocks |
| Network.CachedCanSync | src/MinerApp.cpp:806-822 | a cached update always fits: resizing never goes upward and the branch "too far ahead" is not reached |
| Network.SyncResult | src/MinerApp.cpp:780-816 | an update gives exactly the local blocks before it and then it, a whole good chain |
| Network.AppendKeeps | src/MinerApp.cpp:734-746 | a block mined for an older chain is taken only where its index fits, and a cached update still fits afterwards |
| Network.StepKeeps | src/MinerApp.cpp:691-1056 | every step of any node keeps what is true of all nodes and of all answers ever sent |
| Network.NetworkIsSafe | src/MinerApp.cpp:691-1056 | over any run every chain is non-empty, indexed by position, linked and hash-checked, the file holds it, a restart finds it, and any cached update fits |
| Queues.EveryPaymentAccounted | src/MinerApp.cpp:702-828 | over any run, for every node: payments waiting, in flight, mined and lost are those it had and accepted; it loses some only when a mined block comes too late, its whole chain is replaced, or it starts again |
| Queues.TakeOverHolds | src/MinerApp.cpp:774-828 | an update of a part of the chain loses no payment, a replacement of the whole those that wait |
| CatchUp.AnswersRange | src/MinerApp.cpp:856-879 | a request is answered with exactly the blocks from the first to the last asked for, as far as there are any, and not at all if that is none |
| CatchUp.AnswersRest | src/MinerApp.cpp:856-879 | a request up to the last block is answered with all blocks from the first asked for, or not at all if that does not exist |
| CatchUp.DialogueMeets | src/MinerApp.cpp:1020-1055 | from any request the dialogue ends, with the update from the last place where the chains meet, after one answer for a gap and one for each block walked back |
| CatchUp.MeetingHistory | src/MinerApp.cpp:1039-1046 | below the place where they meet the chains have the same hashes, or hold a collision |
| CatchUp.UpdateSplices | src/MinerApp.cpp:788-816 | taking that update over puts the peer's blocks after the local ones |
| CatchUp.SpliceGains | src/Blockchain.cpp:367-384 | a splice gains work iff the part that comes in has more than the part that goes, as long as neither total reaches 2^64 |
| CatchUp.CatchesUpIffLonger | src/MinerApp.cpp:947-1056 | a quiet node that hears of more work: if the peer's chain is longer it ends with the peer's hashes, with the peer's work if equal hashes claim equal difficulties, and otherwise with more work iff the peer's part has more; if not longer, it is unchanged |
| CatchUp.CaughtUpAsksNothing | src/MinerApp.cpp:947-986 | hearing the same summary again after having caught up, a node asks for nothing |
| Convergence.DialogueIsRun | src/MinerApp.cpp:842-1056 | the dialogue of any two nodes is a run of the network in which one answers and the other receives, and nothing else changes |
| Convergence.LongerIsReached | src/MinerApp.cpp:774-1056 | in any network that is in order, any quiet node and any other with more work and a longer chain have a run after which the first has the second's hashes |
| Examples.DoubleSpendExample | src/Blockchain.cpp:71-195 | a chain on which the ledger of an address says less than its unspent outputs, by one reward |
| Examples.NegativeExample | src/Blockchain.cpp:71-195 | a chain on which the ledger of an address says five more than its unspent outputs |
| Examples.DebtsAreOutcomes | src/Blockchain.cpp:214-253 | the payments of negative amounts in that chain are results of the program |
| Examples.OrderMatters | src/Blockchain.cpp:218-234 | two orders of the same unspent outputs, one negative: one leads to success, the other to insufficient funds |
| Examples.StaysBehindExample | src/MinerApp.cpp:971-980 | a node that hears of more work on a chain of the same length, and stays as it is |
| Examples.LateWriteExample | src/MinerApp.cpp:734-746 | a node and two updates, each of which makes file and memory differ |
| Examples.DataExample | src/MinerApp.cpp:714 | the data of the thirteenth block, written out |
| Base58.Base58Encode | src/CryptoUtils.cpp:64-77 | the digits decode to the number, and begin with '1' only for zero, written "1" |
| Base58.EncodedIsCanonical | src/CryptoUtils.cpp:64-77 | the encoding is the canonical one for every number |
| Base58.DistinctNumbersDiffer | src/CryptoUtils.cpp:64-77 | distinct numbers have distinct encodings |

## Left out

- Rounding: amounts are exact reals, so nothing is said about sums of IEEE doubles; a double in the file is whatever eight bytes `DoubleCodec` gives it, and a block is storable only if these decode to the amount.
- Chains.Blockchain.CumulativeDifficulty: for a difficulty of 64 or more the conversion of the power to 64 bits is undefined in the program; the model wraps it like the sum.
- Chains.Blockchain.AddNewBlock: on an empty chain the program reads `back()` of an empty vector once the hash has passed; the model asks for a non-empty chain in that case.
- Ledger.GetAddressLedger: asks that the ledger exists, that is, that the last entry of an empty ledger is never read; `Agreement.LedgerExists` says exactly when that is so. The other conditions are those the program asserts.
- Payments.CreateTransaction: takes the sender's address instead of the private key; deriving one from the other is foreign code, and signatures are a fixed text in the program. Case folding is that of ASCII letters.
- Payments.PaymentSucceedsIff: asks for outputs that are not negative; the program does not check. `Payments.PaymentResult` is exact for all outputs, and `Examples.OrderMatters` shows why it must speak of the order.
- MiningRun.SupplyOverRun: asks that a payment does not spend what a waiting payment spends, because the program does not check it; `Overspends.SupplyOfAnyRun` needs no such condition.
- DoubleSpends.AgreementExactly: asks that the inputs of a transaction have one owner, that no payee occurs twice in it, and that the ledger exists. `Overspends.ViewsOfAnyRun` shows that all of this holds on every chain that the node grows by mining.
- DoubleSpends.LedgerNeverSaysMore: asks that no missed input is negative; `Examples.NegativeExample` shows that this is needed.
- MiningRun.PaymentsConserved: is about runs without chain replacement; `Queues.EveryPaymentAccounted` is about all runs, and names what is lost. Payments in blocks that an update replaces stay counted as mined.
- ChainDatabase.ChainDatabase.Initialize: a file that ends in the middle of a block leaves the last block undetermined, as the program does; nothing is claimed about such a file except which chains are rejected.
- Network.NetworkIsSafe: treats each locked region, and appending together with writing, as one step; `Node.LateWrite` shows what happens when the latter two are separated. Data races on unlocked reads are not modelled. Each node starts with one block; `Network.StepKeeps` covers any other start that meets the invariant.
- CatchUp.CatchesUpIffLonger: the peer and its chain stay the same during the dialogue, and the genesis blocks agree.
- The `newblock` announcement and the broadcast: all a node does on one is to ask for a summary, or not.
- Message formats: JSON on the wire carries chains, blocks and requests unchanged; malformed messages are dropped by the program and do not occur. An answer without blocks, for which the program's parser throws, counts as no answer.
- HTTP and REST handlers, pages, peers and websockets, threads and timers, settings, logging, the LevelDB index, which is opened and not used, and the command line.
- Keys, signatures and addresses beyond `Base58Encode`, whose negative arguments would read outside the alphabet.
- `FindTransaction`, `ValidNewBlock` and the JSON conversions: easy on their own.
