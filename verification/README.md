# tiny-coin in Dafny

A model of tiny-coin, a small Bitcoin node written in C++, and proofs about it. The C++ sources are
cited by path and line; nothing of them is executed here.

`dafny verify dfyconfig.toml` checks everything.

## What is modelled

| file | what |
|---|---|
| `Types`, `Arithmetic`, `Bytes` | fixed-width integers, ids, transactions, blocks, parameters; powers and quotients; little- and big-endian numbers |
| `CoinSelection`, `Wallet` | branch-and-bound coin selection, its fallback, and the transaction built from it; the miner's wallet and why what it builds is valid |
| `Difficulty`, `Mining`, `Sha256` | retargeting and work in 256 bits; the mining threads as interleaved steps; SHA-256 around its compression function |
| `Merkle` | the Merkle root and what it binds |
| `MedianTime`, `TxRules` | median time past; basic checks, time locks, inputs, fees of a transaction |
| `Ledger` | the UTXO map as a fold over blocks, and its undo |
| `ChainSpec`, `Validation` | what a valid chain is, and block validation |
| `Branches`, `Chain`, `Roots`, `ReorgLaws` | side branches and reorganisation as functions; the node: connect, disconnect, reorganise, orphans, save; how a pass ends and when branches stay rooted; what a failed reorganisation leaves |
| `BlockLaws`, `SpendLaws` | laws of validated chains in the terms of headers and transactions: work, difficulty, time, form, subsidy; what the UTXO map is, and what every input satisfies |
| `ChainLaws`, `Supply`, `Conservation` | laws of validated chains: median time, lasting locks, what the header commits to, conservation of money and exactly when it fails |
| `PoolVerdicts`, `SiblingMoney` | blocks that spend their own transactions: exactly when the verdict depends on the mempool, and when money is conserved |
| `Wire`, `Serialization`, `Persistence` | the wire format, the serializers over a growing buffer, and loading the chain file |
| `SpendGraph`, `ChainLimits`, `PoolRules`, `PoolMoney`, `Mempool`, `Assembly` | the mempool's graph worklists, limits, where its fees come from, admission, replacement, eviction, expiry and block assembly |

Code that updates state in place is a class (`Chain.Node`, `Mempool.TxPool`, `Assembly.Assembler`,
`Wire.BinaryBuffer`) or a method with loops, proved against specification functions and predicates;
the laws are lemmas about those. Threads appear only where the repository has them racing, as
schedules of atomic steps over shared variables.

Ids are an abstract type with equality. What the node asks of the outside world is a parameter:
signature checks, hashes, sizes (`TxRules.Rules`), id texts and the double hash (`Wire.Codec`), the
compression function, the clock, and whether a file can be opened.

## Hypotheses

The code relies on these without establishing them; each is a named predicate in a `requires`.

- `ChainSpec.World`, over the set of all blocks a node may ever see: ids identify blocks and
  transactions; only one block has no predecessor; the initial chain is one coinbase at most; along
  every linked chain of well-shaped blocks coinbases have different ids, no transaction spends an
  output of its own block, and total work stays below 2^256. That no other transaction is ever mined
  twice is proved, for every chain that validation accepts (`ChainSpec.ValidatedIsUnique`).
  The condition on same-block spends is there for two reasons. Disconnecting a block restores the map
  if and only if no transaction spends an output of an earlier one in it (`Ledger.UndoIsExactIff`).
  And validation sums the fees with the mempool in view: an input that spends a sibling counts only if
  the sibling is in the mempool, so two nodes with the same chain can disagree about a block, even one
  that would be undone exactly (`PoolVerdicts.SiblingFeeSplits`). `PoolVerdicts.VerdictsDifferIff` says
  exactly when they do; a block that spends nothing of its own is safe (`ChainSpec.PoolIsIrrelevant`).
  A second block without a predecessor would be appended to the tip and break the chain's links
  (`Roots.RootlessIsAppended`).
- `Supply.OrderedSpends`: no output is spent twice in a block, and parents precede children. It is what
  the bound on the money supply needs. `Conservation.TotalExactly` is the law without it,
  `Conservation.ConservesIff` and, for blocks that spend siblings, `SiblingMoney.ConservesIffInTurn` are
  the exact conditions, and `Conservation.DoubleSpendCreatesMoney` and
  `Conservation.ChildFirstCreatesMoney` are blocks that pass validation and break the bound.
- `Mempool.Reasonable`: a submitted transaction does not spend itself, none of its outputs are mined,
  and it spends nothing that it would evict. Admission works without it, and keeps entries apart, the
  size total and the cap; the pool then need not stay coherent. `Mempool.CannibalIsAdmitted` is such a transaction: it is admitted, and left with an input
  that nothing provides. `Mempool.StaysResolvedIff` shows that the last demand is exact.
- `Assembly.EnvOk`: the pool is acyclic and sizes do not wrap.
- `Wallet.Opens`: the wallet's key belongs to its address, so that what it signs is accepted; and
  `Wallet.Keyed`: entries of the UTXO map are stored under their own outpoint, as
  `Wallet.FoldIsKeyed` shows of every chain with unique transaction ids.
- `Merkle.Injective` and `Merkle.AllLeaves`: node hashes do not collide, and ids are not node hashes.

What is false of the code, each with an input and the exact condition:

- disconnecting is not exact for a block that spends its own outputs (`Ledger.PhantomStays`,
  `Ledger.UndoIsExactIff`);
- the verdict on a block can depend on the mempool (`PoolVerdicts.SiblingFeeSplits`,
  `PoolVerdicts.VerdictsDifferIff`);
- a block that passes validation can create money (`Conservation.DoubleSpendCreatesMoney`,
  `Conservation.ChildFirstCreatesMoney`); it does not if and only if no output of any value is spent
  twice in it or in front of the transaction that creates it (`SiblingMoney.ConservesIffInTurn`);
- a block without a predecessor is accepted behind any tip (`Roots.RootlessIsAppended`); accepted blocks
  keep the chain linked if and only if they name one (`Roots.StaysLinkedIff`);
- the 256-bit retarget product can wrap for 17 bits and fewer (`Difficulty.OverflowAtSeventeen`), and
  the new bits are those of the step function if and only if it does not (`Difficulty.RetargetIsStepIff`);
- padding with the last node makes different lists share a Merkle root (`Merkle.DuplicateLastCollides`),
  exactly those with the same padded leaves (`Merkle.SameRootIff`); the duplicate-id check rules it out;
- block assembly need not end (`Assembly.OversizeEntryLoops`): with every input found, it does if and
  only if the whole pool fits into the block (`Assembly.LoopEndsIff`), and for any pool if and only if
  no run comes to a best entry that adds nothing (`Assembly.LoopEndsIffNeverStuck`);
- a failed reorganisation is not always invisible. The active chain, the index and the UTXO map come
  back exactly, but a new side branch is left if and only if the first block of the branch that does
  not join fits the chain further down (`ReorgLaws.StrayIff`, `ReorgLaws.StrayExample`), and the
  mempool comes back with the branch's transactions in it (`ReorgLaws.PoolOfFailure`);
- side branches do not stay rooted on the active chain, and a pass that does not switch reads outside a
  vector exactly if some branch is unrooted (`Chain.Node.ReorgIfNecessary`). Only a pass unroots one
  (`Roots.PlacedKeepsRoots`). A swap does so (`ReorgLaws.SwapUnroots`) unless there is an old tail and
  every other branch starts from a block that is kept or comes back (`Roots.SwapRootsIff`,
  `Roots.SwitchRootsIff`); a failed attempt does so (`ReorgLaws.StrayExample`) unless every stray it
  leaves starts from the active chain (`Roots.FailureRootsIff`).

## Model

| member | source | states |
|---|---|---|
| CoinSelection.SortDescending | tiny-lib/wallet/wallet.cpp:519-524 | the sort keeps the coins and orders them by falling value |
| CoinSelection.SuffixSums | tiny-lib/wallet/wallet.cpp:526-528 | entry i is what the coins from i on are worth together |
| CoinSelection.SubsetIsPicked | tiny-lib/wallet/wallet.cpp:530-533 | every sub-multiset of the coins is reached by some inclusion vector of the same value and count, so searching vectors searches all subsets |
| CoinSelection.ExtensionBounds | tiny-lib/wallet/wallet.cpp:567-568 | a partial choice bounds every completion from below by its value and from above by its value plus the suffix sum: the two prunings are safe |
| CoinSelection.StepsOfMeasure | tiny-lib/wallet/wallet.cpp:540-616 | the number of unvisited nodes of the search tree falls with each way the search can move |
| CoinSelection.Include | tiny-lib/wallet/wallet.cpp:549-577 | taking the coin at the current depth records a better selection, or shows that nothing below is one |
| CoinSelection.Climb | tiny-lib/wallet/wallet.cpp:595-611 | backtracking reaches the next open node with everything skipped settled, or the root with the whole tree settled, in fewer remaining nodes |
| CoinSelection.Search | tiny-lib/wallet/wallet.cpp:530-616 | the best vector found has the recorded waste; if the try limit was not hit, no vector reaching the target has less |
| CoinSelection.BranchAndBoundSelect | tiny-lib/wallet/wallet.cpp:516-632 | a non-empty result is a sub-multiset of the coins within the window; short of the try limit it has the least waste of all subsets reaching the target, and an empty one means that no subset lies in the window; with n coins there are fewer than 2^n tries |
| CoinSelection.LargestAreWorthMost | tiny-lib/wallet/wallet.cpp:650-655 | no choice of so many coins is worth more than the first so many of the sorted ones |
| CoinSelection.LargestFirst | tiny-lib/wallet/wallet.cpp:648-671 | the fallback succeeds exactly if all coins exceed the target, and no fewer coins would do |
| CoinSelection.BuildTx | tiny-lib/wallet/wallet.cpp:634-699 | each input has the outpoint of a selected coin, the signature over it and all outputs, the public key and the replaceable sequence number; inputs equal outputs plus a fee between 300 and 334 times the rate; with change the fee is exactly 300 times it and the inputs are as few as possible; it fails only when the coins do not suffice |
| Wallet.FindCoins | tiny-lib/wallet/wallet.cpp:729-747 | the loop finds exactly the coins of the address that the next block may spend, each once, worth no more than the whole map |
| Wallet.FoldIsKeyed | tiny-lib/core/unspent_tx_out.cpp:55-66 | the entries of a chain with unique transaction ids stand under their own outpoints |
| Wallet.SignedInputsPass | tiny-lib/core/tx.cpp:207-249 | inputs signed with the key of the address for mature coins in the map all pass validation, and are worth what the coins are |
| Wallet.BuiltIsValid | tiny-lib/core/tx.cpp:197-263 | a transaction with such inputs for distinct coins, outputs within their value and a passed lock time is valid, with any siblings and mempool |
| Wallet.BuildTxMiner | tiny-lib/wallet/wallet.cpp:701-713 | whatever the miner's wallet builds from its own map is lawful on the same chain and pays between 300 and 334 times the fee rate; nothing is built only if the usable coins do not suffice |
| Difficulty.OverflowCondition | tiny-lib/mining/pow.cpp:61-62 | the retarget product fits in 256 bits if and only if the clamped time is below 2^(bits+1) |
| Difficulty.NoOverflowFrom18 | tiny-lib/mining/pow.cpp:61-62 | it always fits from 18 bits on |
| Difficulty.OverflowAtSeventeen | tiny-lib/mining/pow.cpp:61-65 | at 17 bits and the longest time the product wraps and the new bits are 18 instead of 15 |
| Difficulty.QuotientBand | tiny-lib/mining/pow.cpp:62-65 | the highest bit of the new target lies exactly one step function away from the old one |
| Difficulty.NewTargetBits | tiny-lib/mining/pow.cpp:55-65 | as long as the product fits, the quotient is zero exactly if the step leaves the range, and otherwise has the expected highest bit, for every byte |
| Difficulty.RetargetIsStep | tiny-lib/mining/pow.cpp:41-68 | whenever the product fits, so always from 18 bits on, the new bits differ by +2, +1, 0, -1, -2 exactly as the elapsed time, negative included, lies below T/2, T, 2T, 4T or not, and there are none exactly if that leaves the byte range |
| Difficulty.RetargetIsStepIff | tiny-lib/mining/pow.cpp:41-68 | for every byte the retarget is the step function if and only if the product fits: a wrapped target always falls short of the band of the step |
| Difficulty.NextBits | tiny-lib/mining/pow.cpp:53-67 | the clamping, shifting and highest-bit code computes that retarget for every 8-bit value |
| Difficulty.WorkIsQuotient | tiny-lib/mining/pow.cpp:70-75 | the code's formula equals floor(2^256 / (target+1)) for every target, without wrapping |
| Difficulty.WorkIncreases | tiny-lib/mining/pow.cpp:70-75 | more bits mean strictly more work |
| Merkle.Chunk | tiny-lib/mining/merkle_tree.cpp:40-67 | the loop cuts the list into chunks and pads the last one with its last element |
| Merkle.ChunksArePairs | tiny-lib/mining/merkle_tree.cpp:40-67 | for size two, chunk i is nodes 2i and 2i+1, the last node doubled if the count is odd |
| Merkle.FindRoot | tiny-lib/mining/merkle_tree.cpp:69-95 | the recursion terminates with the root of the values, and returns nothing exactly for no nodes |
| Merkle.GetRootOfTxs | tiny-lib/mining/merkle_tree.cpp:29-38 | the same for a transaction list |
| Merkle.SmallRoots | tiny-test/src/merkle_tree_tests.cpp:34-103 | the roots of one to five leaves written out: left before right, the odd node paired with itself |
| Merkle.HeightIsUnique | tiny-lib/mining/merkle_tree.cpp:69-95 | a value cannot stand at two heights of hash trees |
| Merkle.RootHeight | tiny-lib/mining/merkle_tree.cpp:69-95 | the root stands as high above the leaves as the list length can be halved rounding up |
| Merkle.CollisionsRepeat | tiny-lib/mining/merkle_tree.cpp:40-95 | of two lists with one root the longer extends the shorter, and its first extra element is one the shorter has already |
| Merkle.SameRootIff | tiny-lib/mining/merkle_tree.cpp:40-95 | two lists have the same root if and only if they have the same leaves once every repetition is written out |
| Merkle.RootBinds | tiny-lib/core/chain.cpp:105-150 | two duplicate-free lists have the same root if and only if they are the same list |
| Merkle.DuplicateLastCollides | tiny-lib/mining/merkle_tree.cpp:58-64 | without the duplicate check binding fails: a, b, c and a, b, c, c share their root |
| ChainLaws.SameMerkleSameTxs | tiny-lib/core/chain.cpp:102-150 | two well-shaped blocks with the same Merkle root have the same transaction ids in the same order, hence the same transactions if ids identify them |
| MedianTime.MedianByCount | tiny-lib/core/chain.cpp:68-74 | the median reaches a value exactly if enough of the window does |
| MedianTime.SlidingMedian | tiny-lib/core/chain.cpp:66-74 | replacing the oldest time by one not below the median cannot lower the median |
| MedianTime.NextBlockRaises | tiny-lib/core/chain.cpp:152-153 | the timestamp check makes every new block keep or raise median time past, also when the window first fills |
| MedianTime.NeverDecreases | tiny-lib/core/chain.cpp:59-75 | along any extension median time past never decreases |
| MedianTime.InnerMedianIsStable | tiny-lib/core/chain.cpp:77-94 | the median at an inner height does not change as the chain grows |
| MedianTime.GetMedianTimePast | tiny-lib/core/chain.cpp:59-75 | the loop and sort compute the median of the last blocks, zero if there are too few |
| MedianTime.GetMedianTimePastAtHeight | tiny-lib/core/chain.cpp:77-94 | the same for the window ending at a height, shortened near the start |
| MedianTime.TimeReachedIff | tiny-lib/core/chain.cpp:59-75 | median time past has reached a time if and only if six of the last eleven blocks have |
| TxRules.EncodedLocksReadBack | tiny-lib/core/tx_in.hpp:39-49 | a relative lock written for blocks or for time is read back as that kind and value |
| TxRules.LockTimeOkIff | tiny-lib/core/tx.cpp:118-148 | the absolute lock check passes if and only if there is no lock, all inputs are final, the chain has that many blocks, or six of its last eleven blocks have that time |
| TxRules.InputLockOkIff | tiny-lib/core/tx.cpp:150-195 | the relative lock check of an input passes if and only if the sequence number is negative, or so many blocks have followed the one with the output, or the median time has moved on by so many units of 512 seconds since before that block |
| TxRules.LocksPersist | tiny-lib/core/tx.cpp:118-195 | a transaction passing both lock checks at a tip passes them at every later tip at which its inputs are unspent |
| TxRules.CheckSequenceLocks | tiny-lib/core/tx.cpp:150-195 | accepts exactly if every input's relative lock is satisfied |
| TxRules.HasDuplicateInput | tiny-lib/core/tx.cpp:90-102 | finds a duplicate exactly if two inputs spend the same output |
| TxRules.SumOutputs | tiny-lib/core/tx.cpp:104-112 | the wrap-around test fires exactly if the true sum exceeds 64 bits |
| TxRules.ValidateBasics | tiny-lib/core/tx.cpp:82-116 | accepts exactly non-empty, small enough transactions with distinct inputs whose true output sum is within the money supply |
| TxRules.ResolveIff | tiny-lib/core/unspent_tx_out.cpp:76-106 | an input resolves to an output if and only if that is the map's, or else the first sibling's with the id, or else the mempool's |
| TxRules.InputOkIff | tiny-lib/core/tx.cpp:207-246 | an input passes if and only if it names an output that is there, signs for it, and a coinbase output lies two blocks back |
| TxRules.ValidIff | tiny-lib/core/tx.cpp:197-263 | a transaction is valid if and only if it has inputs and outputs, is within the limits, spends nothing twice, every input is rightly spent, both locks have passed, and it sends no more than it spends |
| TxRules.SumInputs | tiny-lib/core/tx.cpp:207-249 | succeeds exactly if every input names an output that is there, signs for it and waits for maturity, and the true sum fits in 64 bits |
| TxRules.Validate | tiny-lib/core/tx.cpp:197-263 | accepts exactly the lawful transactions: basics, passed locks, every input rightly spent and signed, outputs not above inputs |
| TxRules.CalculateFees | tiny-lib/mining/pow.cpp:256-286 | the loops compute the 64-bit fee, zero when outputs exceed what was found |
| Ledger.FoldAgreesWithChain | tiny-lib/core/chain.cpp:322-351 | with unique ids every entry of the map is what a search of the chain finds: output, coinbase flag, height of its block plus one |
| Ledger.FindTxOutForTxIn | tiny-lib/core/chain.cpp:620-644 | the nested loops find the first transaction with the id, and nothing if the index is out of range |
| Ledger.ConnectTx | tiny-lib/core/chain.cpp:339-349 | removing the inputs and adding the outputs one by one is one step of the fold |
| Ledger.ConnectTxs | tiny-lib/core/chain.cpp:329-350 | the same for all transactions of a block |
| Ledger.DisconnectTxs | tiny-lib/core/chain.cpp:416-445 | the forward loop of disconnect computes the undo of all transactions, and meets a lost input exactly where the chain does not hold its output |
| Ledger.ApplyClosedForm | tiny-lib/core/chain.cpp:329-350 | without same-block parents connecting removes all inputs and adds all outputs |
| Ledger.UndoClosedForm | tiny-lib/core/chain.cpp:416-445 | without same-block parents disconnecting restores all inputs and removes all outputs |
| Ledger.UndoRestores | tiny-lib/core/chain.cpp:403-458 | then disconnecting the tip gives back the map from before it was connected |
| Ledger.PhantomStays | tiny-lib/core/chain.cpp:432-444 | an input restored after its creator's outputs were removed stays in the map |
| Ledger.UndoIsExactIff | tiny-lib/core/chain.cpp:403-458 | disconnecting the tip is exact if and only if no transaction of the block spends an output of an earlier one |
| ChainSpec.PoolIsIrrelevant | tiny-lib/core/chain.cpp:181-221 | for a block that spends nothing of its own, the verdict does not depend on the mempool, although fees look into it |
| PoolVerdicts.OnlyOwnEntriesMatter | tiny-lib/mining/pow.cpp:256-286 | of a mempool the verdict on a block sees nothing but which of the block's own transactions it holds |
| PoolVerdicts.VerdictsDifferIff | tiny-lib/core/chain.cpp:186-221 | two mempools can lead to different verdicts if and only if the coinbase claims more than subsidy and the fees found without a mempool, but no more than subsidy and the fees really paid |
| PoolVerdicts.SiblingFeeSplits | tiny-lib/core/chain.cpp:186-221 | a child in front of its parent, with its fee claimed: the block passes with the parent in the mempool and fails without, although nothing in it spends an earlier transaction |
| ChainSpec.TipUndo | tiny-lib/core/chain.cpp:403-458 | in a validated chain under the hypotheses, undoing the tip is exact |
| ChainSpec.ValidatedIsUnique | tiny-lib/core/chain.cpp:181-207 | along a validated chain every transaction id is unique: a block that repeats a mined transaction is refused, because its inputs are spent |
| ChainSpec.SpentForGood | tiny-lib/core/chain.cpp:337-350 | an output that a block spends is not unspent at any later height |
| ChainSpec.IndexFinds | tiny-lib/core/chain.cpp:586-597 | the index finds exactly the blocks of the chain, at their heights |
| ChainSpec.IndexUndo | tiny-lib/core/chain.cpp:450-451 | removing the tip from the index gives the index of the shorter chain |
| Validation.CheckShape | tiny-lib/core/chain.cpp:102-150 | accepts exactly the blocks in order by themselves: ids, target, coinbase, basics, Merkle root |
| BlockLaws.ShapeIff | tiny-lib/core/chain.cpp:101-150 | the checks on a block alone ask for its proof of work, well-formed transactions and the Merkle root of their ids, and for nothing else |
| ChainSpec.RequiredBitsFollow | tiny-lib/mining/pow.cpp:41-68 | the same of the specification, in the times and bits of the chain's blocks |
| ChainSpec.LaterTipNeverRaises | tiny-lib/mining/pow.cpp:53-67 | a later timestamp of the last block never raises the bits demanded of the next |
| Validation.GetNextWorkRequired | tiny-lib/mining/pow.cpp:41-68 | the bits demanded are the initial ones for a block without a predecessor; else the tip's within a period; and at its end the tip's plus 2, 1, 0, -1 or -2 as the last 144 blocks, first to last, took less than half, one, two or four times a day or longer, whenever the product fits, so always from 18 bits on |
| Validation.CheckTransactions | tiny-lib/core/chain.cpp:181-207 | accepts exactly if every other transaction is valid against the map from before the block and its siblings, and sums the fees |
| Validation.CheckContext | tiny-lib/core/chain.cpp:175-221 | accepts exactly if bits, transactions and coinbase value are in order |
| Chain.Node.constructor | tiny-lib/core/chain.cpp:38-50 | the initial node holds the first block with an empty UTXO map, and the invariant |
| Chain.Node.LocateInAllChains | tiny-lib/core/chain.cpp:599-618 | finds a block on the active chain by the index, else on the first side branch that has it |
| Chain.Node.ValidateBlock | tiny-lib/core/chain.cpp:96-224 | the verdict: an orphan exactly if the other checks pass and the predecessor is on no chain; else refused, or the number of the chain the block goes to |
| Branches.VerdictIff | tiny-lib/core/chain.cpp:155-223 | an orphan exactly if the predecessor is on no chain; for the active chain exactly behind the tip and in context; else onto a new branch if the predecessor is on the active chain, and onto the first branch that holds it if not |
| Branches.OrphanIff | tiny-lib/core/chain.cpp:161-165 | the blocks reported as orphans are exactly those that are new, pass the checks that need no predecessor and name one found nowhere |
| Branches.ResultIff | tiny-lib/core/chain.cpp:226-375 | the result is 0 exactly for a new block that joins the tip, and the number of a branch exactly for a new block that follows a known one elsewhere: a new branch, or the first one that holds it |
| Branches.ZeroVerdict | tiny-lib/core/chain.cpp:155-223 | a block is accepted for the active chain if and only if it joins it: follows the tip and passes every check, whatever the mempool holds |
| BlockLaws.EveryBlockHasWork | tiny-lib/core/chain.cpp:122-124 | every block behind the initial chain has a hash below 2^(255 - bits) |
| BlockLaws.BitsAreScheduled | tiny-lib/core/chain.cpp:175-176 | every block of a validated chain has the bits that the times of the blocks before it demand |
| BlockLaws.PeriodHasOneDifficulty | tiny-lib/mining/pow.cpp:46-48 | all blocks of one period of 144 have the same bits |
| BlockLaws.TimesGoOn | tiny-lib/core/chain.cpp:152-153 | at most five of the eleven blocks before a block have reached its time |
| BlockLaws.EveryBlockIsWellFormed | tiny-lib/core/chain.cpp:101-150 | a coinbase first, then transactions with inputs, all with outputs, within size and money limits, no input twice in one of them, no id twice in the block |
| BlockLaws.SubsidyIs | tiny-lib/core/chain.cpp:209-211 | the subsidy is 50 coins over two to the number of halvings, rounded down once |
| SpendLaws.UnspentIff | tiny-lib/core/chain.cpp:322-351 | the UTXO map of a validated chain holds exactly the outputs its blocks made and none of them has spent |
| SpendLaws.EntryIs | tiny-lib/core/chain.cpp:344-348 | the entry is that output, marked as a coinbase output exactly if it is the first transaction's, with the height of its block |
| SpendLaws.EveryInputIsLawful | tiny-lib/core/tx.cpp:118-249 | every input along a validated chain spends an output that an earlier block made and none has spent, signs for it, leaves two blocks behind a coinbase, and both its locks have passed |
| Chain.Node.Append | tiny-lib/core/chain.cpp:313-351 | the block is on its chain, and index and UTXO map still are the caches of the active chain |
| Chain.Node.ConnectDuringReorg | tiny-lib/core/chain.cpp:226-375 | with the flag set, the block is appended to the active chain exactly if it joins it, and opens a new side branch exactly if it follows some earlier block of that chain, passes the checks and is new |
| Chain.Node.DisconnectTip | tiny-lib/core/chain.cpp:403-458 | the tip is gone and index and UTXO map are those of the shorter chain; none of its inputs is lost; its transactions but the coinbase are back in the pool, each under its id; the saved height is zero |
| Branches.ReAddedIs | tiny-lib/core/chain.cpp:418-430 | putting a block's transactions back gives each id its own transaction, leaves out the coinbase and changes nothing else |
| Chain.Node.DisconnectBlock | tiny-lib/core/chain.cpp:403-458 | anything but the tip is refused and nothing changes |
| Chain.Node.DisconnectToFork | tiny-lib/core/chain.cpp:460-475 | the chain is cut behind the fork, what was cut off is returned in order, and the pool has its transactions back |
| Branches.Rejoins | tiny-lib/core/chain.cpp:559-564 | every block of a validated chain joins again where it was |
| Chain.Node.RollbackReorg | tiny-lib/core/chain.cpp:550-565 | the old chain comes back block by block, the assertion in the loop never fails, the side branches do not change, and the pool is what disconnecting and connecting make of it |
| Chain.Node.ConnectBranch | tiny-lib/core/chain.cpp:532-540 | the blocks of the branch that join in turn are connected, and a stray side branch is opened exactly as the first that does not join says |
| Chain.Node.TryReorg | tiny-lib/core/chain.cpp:522-548 | succeeds exactly if every block of the branch connects; chains, side branches and pool are then and otherwise exactly those of the attempt: swapped, or the same with the stray, if any, appended |
| Branches.SwapKeepsLocated | tiny-lib/core/chain.cpp:542-543 | the swap loses no block |
| Chain.Node.FindFork | tiny-lib/core/chain.cpp:498 | the fork is the active block a branch starts from |
| Chain.Node.Weigh | tiny-lib/core/chain.cpp:498-505 | the fork of a branch, and whether the chain through it outweighs the active one |
| Chain.Node.ReorgIfNecessary | tiny-lib/core/chain.cpp:486-520 | the pass computes chains, side branches and pool of the function that tries the branches in turn; it reads outside a vector exactly if it does not switch and some branch is unrooted; a switch gains work |
| Branches.ReorganiseIs | tiny-lib/core/chain.cpp:486-520 | no branch tried before the one the pass ends at outweighs the active chain and connects; that one took over from its fork on, or is unrooted; the strays of the failed ones, and nothing else, are appended in order |
| ReorgLaws.StrayIff | tiny-lib/core/chain.cpp:226-375 | a failed attempt leaves a stray side branch if and only if, at the first block of the branch that does not join, that block is new, passes the checks before the UTXO map and follows some earlier block |
| ReorgLaws.InvisibleIff | tiny-lib/core/chain.cpp:486-565 | a pass that does not switch leaves the active chain as it was; the side branches are as they were if and only if no branch up to the first unrooted one leaves a stray, and the bounds flag is up if and only if it was or there is an unrooted one |
| ReorgLaws.PoolOfFailure | tiny-lib/core/chain.cpp:522-565 | after a failed attempt the pool holds what it held, minus the connected branch blocks and the old tail, plus what disconnecting the former puts back |
| ReorgLaws.StrayExample | tiny-lib/core/chain.cpp:226-375 | a block behind the first of a side branch of two makes that branch heavier, fails to connect and is left as a side branch of its own, rooted nowhere; if it is heavy by itself the next pass leaves the bounds at it |
| ReorgLaws.SwapUnroots | tiny-lib/core/chain.cpp:494-505 | a swap takes the root from another side branch, and the next pass leaves the bounds at it |
| Roots.EndsAtIff | tiny-lib/core/chain.cpp:486-520 | a pass ends at a branch exactly if none before it is unrooted or better, and it is unrooted, or better from that block on |
| Roots.SwapRootsIff | tiny-lib/core/chain.cpp:542-543 | from branches that are all rooted, a swap keeps them so if and only if there is an old tail and every other branch starts from a block that is kept or is in the branch that comes in |
| Roots.SwitchRootsIff | tiny-lib/core/chain.cpp:486-548 | the same for a whole pass, with the strays it left on the way starting from the new active chain |
| Roots.FailureRootsIff | tiny-lib/core/chain.cpp:486-520 | a pass over rooted branches that does not switch stays within bounds, and all branches are rooted afterwards if and only if every stray it left starts from the active chain |
| Roots.PlacedKeepsRoots | tiny-lib/core/chain.cpp:313-351 | putting a block on its chain never unroots a branch |
| Roots.RootlessIsAppended | tiny-lib/core/chain.cpp:155-159 | a block without a predecessor goes behind the tip of any chain exactly if it is new and passes the checks, among them the initial bits; the chain is then not linked |
| Roots.StaysLinkedIff | tiny-lib/core/chain.cpp:155-174 | a block accepted for the active chain leaves it linked if and only if the block names a predecessor or the chain was empty |
| Chain.Node.DropExpired | tiny-lib/core/chain.cpp:265-276 | exactly the orphans past their time are dropped |
| Chain.Node.EvictOldest | tiny-lib/core/chain.cpp:278-288 | a full pool loses one of its oldest orphans, and is then below 50 |
| Chain.Node.AddOrphan | tiny-lib/core/chain.cpp:264-307 | the block is in the pool, once under its parent; of the others only expired ones go, or an oldest one if the pool was full |
| Chain.Node.TakeOrphans | tiny-lib/core/chain.cpp:381-389 | splits off exactly the orphans of a parent |
| Chain.Node.TryConnectOrphans | tiny-lib/core/chain.cpp:377-401 | terminates; the chains, side branches and pool are what handling the orphans one after the other makes of them, in an order that takes out exactly what was waiting; every orphan of the parent was handled and none keyed by it is left; work does not fall |
| Chain.Node.ConnectBlock | tiny-lib/core/chain.cpp:226-375 | terminates; where the block goes is said of the chains alone; a block that lacks its predecessor is kept among the orphans, and for any other block the orphan pool only shrinks; an accepted block has its proof of work and hands on every orphan of its own; chains, side branches and pool are exactly what handling these blocks in turn makes of them; work never falls, and grows for a block on the active chain |
| Chain.ChildBeforeParent | tiny-lib/net/block_info_msg.cpp:10-18 | a block received before its predecessor is handled once the predecessor is accepted, which is decided as if it had come alone |
| Chain.AppendedIsFull | tiny-lib/core/chain.cpp:664-678 | overwriting the count and appending the new blocks gives the bytes of a full rewrite |
| Chain.Node.SaveToDisk | tiny-lib/core/chain.cpp:652-711 | whichever way was taken, a successful save leaves exactly a full rewrite of the active chain |
| Chain.Node.ConnectLoaded | tiny-lib/core/chain.cpp:738-755 | on a fresh node the loop succeeds exactly if the blocks join one after the other, else the node is back at its initial chain |
| Persistence.SavedChainReloads | tiny-lib/core/chain.cpp:713-762 | the bytes saved for a chain parse to its blocks, and these join one after the other on a fresh node |
| Persistence.LoadFromDisk | tiny-lib/core/chain.cpp:713-771 | succeeds exactly if the file is readable, parses and its blocks join; then they are the active chain |
| ChainLaws.MedianNeverFalls | tiny-lib/core/chain.cpp:152-153 | along any run of validated blocks median time past never decreases |
| ChainLaws.UnspentIsTheSame | tiny-lib/core/chain.cpp:322-351 | an output unspent at two tips of one chain has the same entry at both |
| ChainLaws.LocksSurvive | tiny-lib/core/tx.cpp:118-195 | lock checks once passed on a validated chain are passed at every extension in which the inputs remain unspent |
| ChainLaws.ValidatedSupply | tiny-lib/core/chain.cpp:181-221 | in every state of the node whose blocks spend no output twice, the money is at most what its heights could issue, which is at most MAX_MONEY |
| Supply.TxConserves | tiny-lib/core/chain.cpp:339-349 | one transaction changes the total by its outputs minus its inputs |
| Supply.InputInTurn | tiny-lib/core/unspent_tx_out.cpp:76-106 | what validation resolves an input to, in the map or among the siblings, is what the input is worth when its turn comes |
| Supply.FeeIsTrue | tiny-lib/mining/pow.cpp:256-286 | the fee sums do not wrap, and the fee never exceeds true inputs minus outputs |
| Supply.FeesComeFromInputs | tiny-lib/core/chain.cpp:186-207 | all fees of a block come out of the money its transactions take from the map |
| Supply.BlockConserves | tiny-lib/core/chain.cpp:181-221 | a valid block adds at most the subsidy, and subsidy plus fees fit in 64 bits |
| Supply.SubsidiesAreCapped | tiny-lib/core/net_params.hpp:12-23 | all subsidies up to any height stay within MAX_MONEY |
| Supply.SupplyIsBounded | tiny-lib/core/chain.cpp:181-221 | on every run of valid connects the total is at most the sum of the subsidies |
| Conservation.TotalExactly | tiny-lib/core/chain.cpp:322-351 | for any list of transactions with new ids, whatever they spend, the total grows by the outputs created and shrinks by what is really taken out |
| Conservation.BlockLaw | tiny-lib/core/chain.cpp:181-221 | a valid block that spends what is in the map adds what its coinbase takes, less the fees, plus the value of whatever it spends a second time |
| Conservation.ConservesIff | tiny-lib/core/chain.cpp:181-221 | a block whose coinbase claims in full adds at most the subsidy if and only if no output of any value is spent twice in it |
| Conservation.ValidatedConservesIff | tiny-lib/core/chain.cpp:181-221 | the same for every block of every validated chain |
| SiblingMoney.ConservesIffInTurn | tiny-lib/core/chain.cpp:181-221 | a block that passes, may spend siblings and claims all fees really paid adds at most the subsidy if and only if no output of any value is spent twice in it or in front of the transaction that creates it |
| SiblingMoney.InTurnConserves | tiny-lib/core/chain.cpp:181-221 | whatever it claims, a block that passes with some mempool adds at most the subsidy if it spends in that order |
| SiblingMoney.TakenOfBlock | tiny-lib/core/chain.cpp:329-350 | the map gives up at most what validation counted as inputs, and all of it exactly if every input of any value is there when its turn comes |
| Conservation.DoubleSpendCreatesMoney | tiny-lib/core/chain.cpp:181-207 | a block of a coinbase and two spends of one output passes validation and adds the output's value beyond the subsidy |
| Conservation.ChildFirstCreatesMoney | tiny-lib/core/unspent_tx_out.cpp:76-106 | so does a block whose child stands in front of its parent: the child finds the parent among its siblings, and both outputs stay |
| Bytes.LittleEndianReadsBack | tiny-lib/util/binary_buffer.hpp:57-71 | a number written in so many bytes is read back |
| Bytes.LittleEndianAt | tiny-lib/util/binary_buffer.hpp:57-71 | byte i of a written number is its digit i in base 256, least significant first |
| Wire.TxInLayout | tiny-lib/core/tx_in.cpp:23-36 | the first byte of an input is 1 exactly if an outpoint follows and else 0, and the sequence number comes last |
| Wire.TxLayout | tiny-lib/core/tx.cpp:265-280 | an output begins with its value, an outpoint ends with its index, a transaction with its lock time |
| Wire.HeaderLayout | tiny-lib/core/block.cpp:56-79 | a header begins with the version and ends with time, bits and nonce |
| Wire.BinaryBuffer.Write | tiny-lib/util/binary_buffer.hpp:97-117 | the bytes stand at the write offset, what was before and behind them stays, the buffer grows just enough |
| Wire.BinaryBuffer.Read | tiny-lib/util/binary_buffer.hpp:125-147 | reading succeeds exactly within bounds and moves the offset only then |
| Wire.BinaryBuffer.ReadText | tiny-lib/util/binary_buffer.cpp:39-56 | reads a length and as many bytes, or fails |
| Wire.TxInRoundTrip | tiny-lib/core/tx_in.cpp:23-70 | parsing an encoded input, with or without an outpoint, gives it back and stops at its end |
| Wire.TxOutRoundTrip | tiny-lib/core/tx_out.cpp:7-31 | the same for outputs |
| Wire.OutPointRoundTrip | tiny-lib/core/tx_out_point.cpp:7-31 | the same for outpoints, negative indices included |
| Wire.TxRoundTrip | tiny-lib/core/tx.cpp:265-322 | the same for transactions |
| Wire.HeaderRoundTrip | tiny-lib/core/block.cpp:56-126 | the same for block headers |
| Wire.BlockRoundTrip | tiny-lib/core/block.cpp:91-152 | the same for blocks |
| Wire.BlocksAreSelfDelimiting | tiny-lib/core/block.cpp:91-152 | between any prefix and suffix, parsing returns the block and stops exactly at the suffix, as long as the block itself ends within the 32-bit offset |
| Wire.BlocksArePrefixFree | tiny-lib/core/block.cpp:91-100 | no encoding is a prefix of another: equal streams begin with equal blocks |
| Wire.TxsArePrefixFree | tiny-lib/core/tx.cpp:265-280 | the same for transactions |
| Serialization.SerializeTx | tiny-lib/core/tx.cpp:265-280 | the loops leave the encoding in the buffer |
| Serialization.DeserializeTx | tiny-lib/core/tx.cpp:282-322 | the loops read what the parser reads and fail where it fails |
| Serialization.SerializeTxIn | tiny-lib/core/tx_in.cpp:23-36 | as for transactions |
| Serialization.DeserializeTxIn | tiny-lib/core/tx_in.cpp:38-70 | as for transactions |
| Serialization.SerializeTxOut | tiny-lib/core/tx_out.cpp:7-15 | as for transactions |
| Serialization.DeserializeTxOut | tiny-lib/core/tx_out.cpp:17-31 | as for transactions |
| Serialization.SerializeOutPoint | tiny-lib/core/tx_out_point.cpp:7-15 | as for transactions |
| Serialization.DeserializeOutPoint | tiny-lib/core/tx_out_point.cpp:17-31 | as for transactions |
| Serialization.SerializeHeader | tiny-lib/core/block.cpp:56-79 | as for transactions |
| Serialization.SerializeBlock | tiny-lib/core/block.cpp:91-100 | as for transactions |
| Serialization.DeserializeBlock | tiny-lib/core/block.cpp:102-152 | as for transactions |
| Sha256.PadIsPadding | tiny-lib/mining/cuda/mining_kernel.cu:152-188 | the padded bytes, taken as bits, are the message padded as section 5.1.1 of FIPS 180-4 says |
| Sha256.NumberOfBits | tiny-lib/mining/cuda/mining_kernel.cu:163-171 | bits and bytes of a big-endian number agree |
| Sha256.FillLastBlocks | tiny-lib/mining/cuda/mining_kernel.cu:149-188 | the one or two tail blocks written in place are exactly the rest of the padded message |
| Sha256.WordsOfBlock | tiny-lib/mining/cuda/mining_kernel.cu:136-145 | the shifts assemble the sixteen words of a block |
| Sha256.Sha256Hash | tiny-lib/mining/cuda/mining_kernel.cu:129-205 | for every message below 2^32 bytes the bytes written are the digest of the compression iterated over the padded message, block by block, as in section 6.2.2 of FIPS 180-4 |
| Sha256.DigestIsDigest | tiny-lib/mining/cuda/mining_kernel.cu:198-204 | the unpacked bytes, taken as bits, are the words of the hash value one after the other |
| Sha256.Unpack | tiny-lib/mining/cuda/mining_kernel.cu:198-204 | the shifts write the words of the state as 32 bytes |
| Sha256.DoubleSha256 | tiny-lib/mining/cuda/mining_kernel.cu:207-212 | the hash of the hash |
| Mining.RangesAreDisjoint | tiny-lib/mining/cpu_mining_backend.cpp:25-38 | no nonce belongs to two workers and none wraps |
| Mining.InvAlways | tiny-lib/mining/cpu_mining_backend.cpp:48-107 | after every schedule of worker steps and interrupts the invariant holds |
| Mining.SearchIsCorrect | tiny-lib/mining/cpu_mining_backend.cpp:18-46 | after the join: a found nonce works, whoever stored it last; not found and never interrupted means that none works; the count is exactly the failed trials |
| Mining.EveryStepCounts | tiny-lib/mining/cpu_mining_backend.cpp:59-106 | every step of a running worker brings the search nearer to its end |
| Mining.StepsLeftIsBounded | tiny-lib/mining/cpu_mining_backend.cpp:59-106 | and that distance never is negative, so every fair schedule joins |
| Mining.HashBelow | tiny-lib/mining/cpu_mining_backend.cpp:73-83 | the byte-wise comparison is the numeric one |
| Mining.TargetToBytes | tiny-lib/mining/pow.cpp:32-39 | 32 big-endian bytes of the target |
| Mining.TryNonce | tiny-lib/mining/cpu_mining_backend.cpp:61-83 | one trial succeeds exactly if the hash of prefix and nonce is below the target |
| Mining.TrialIsValidation | tiny-lib/crypto/hash_checker.cpp:5-8 | a trial agrees with the validator's check of the header with that nonce |
| Mining.MinedBlockPasses | tiny-lib/mining/pow.cpp:116-160 | in every interleaving a mined block is the given one with a nonce that passes the validator; nothing is mined only if the flag is up after the join or nothing was found, and without an interrupt the latter means that no nonce in range passes; no interrupt is left over |
| SpendGraph.FindDescendantTxIds | tiny-lib/core/mempool.cpp:280-320 | the worklist terminates with exactly the transitive spenders, each once |
| SpendGraph.FindAncestorTxIds | tiny-lib/core/mempool.cpp:380-421 | the worklist terminates with exactly the entries transitively spent, each once |
| ChainLimits.ViolatesChainLimits | tiny-lib/core/mempool.cpp:450-492 | refuses exactly if some parent has 24 or more ancestors or some entry above has 24 or more descendants |
| ChainLimits.NewDescendant | tiny-lib/core/mempool.cpp:473-489 | a new childless entry becomes a descendant of exactly the entries above it, and no other relation changes |
| ChainLimits.AddKeepsLimits | tiny-lib/core/mempool.cpp:450-492 | admission keeps every entry at 24 descendants or fewer |
| ChainLimits.RemoveKeepsLimits | tiny-lib/core/mempool.cpp:539-551 | so does removal |
| PoolRules.ClosedKeepsCoherent | tiny-lib/core/mempool.cpp:523-535 | removing a set closed under descendants keeps the pool coherent: no survivor spends what went |
| PoolRules.InsertKeepsCoherent | tiny-lib/core/mempool.cpp:147-155 | so does inserting an entry that resolves, conflicts with nothing and crowds nobody |
| PoolRules.DescendantsSurvive | tiny-lib/core/mempool.cpp:568-576 | after a closed removal an entry that is left has the descendants it always had |
| PoolRules.NextFamily | tiny-lib/core/mempool.cpp:568-576 | removing families one after the other, each found in what is left, removes their union |
| PoolRules.FindConflictingTxs | tiny-lib/core/mempool.cpp:243-278 | every entry that spends one of the outputs the transaction spends, once |
| PoolRules.ConflictFeesCover | tiny-lib/core/mempool.cpp:178-196 | counting shared descendants more than once only overstates the fees lost |
| PoolMoney.FeesComeOutOfUtxos | tiny-lib/core/mempool.cpp:88-162 | in a pool whose entries arrived one after the other, resolve and conflict nowhere, all fees together and what would stay unspent are exactly the unspent outputs of the chain |
| PoolMoney.ValidIsBacked | tiny-lib/core/mempool.cpp:107-155 | a transaction that passed validation pays exactly the fee computed for it: no sum wrapped |
| PoolMoney.InsertKeepsFunded | tiny-lib/core/mempool.cpp:214-227 | inserting it after the evictions keeps every fee of the pool paid for |
| PoolMoney.ConflictFeesAreWithin | tiny-lib/core/mempool.cpp:178-196 | the sum of conflicting fees is at most as many times the unspent outputs as the transaction has inputs |
| PoolMoney.FewInputsNoWrap | tiny-lib/core/mempool.cpp:178-196 | in a solvent pool, with at most 8784 inputs, the 64-bit sum of conflicting fees and the size of a transaction cannot wrap |
| PoolMoney.FewInputsFit | tiny-lib/core/tx_in.cpp:23-36 | in the node's encoding a transaction that fits into a block has at most 8196 inputs |
| Mempool.TallyConflicts | tiny-lib/core/mempool.cpp:178-196 | the loops compute the 64-bit sum and exactly the conflicts with their descendants |
| Mempool.InsertedIsCoherent | tiny-lib/core/mempool.cpp:214-227 | after a replacement the pool is coherent: no double spend, all inputs resolved, limits kept |
| Mempool.SpendingWhatItEvicts | tiny-lib/core/mempool.cpp:214-227 | a replacement that spends what it evicts is left with an input that nothing provides |
| Mempool.CannibalIsAdmitted | tiny-lib/core/mempool.cpp:88-241 | and such a replacement passes every check of admission |
| Mempool.StaysResolvedIff | tiny-lib/core/mempool.cpp:214-227 | a valid transaction leaves every input of a sane pool provided for if and only if it spends nothing that it evicts |
| Mempool.ReplacementGains | tiny-lib/core/mempool.cpp:198-212 | a replacement that pays, whatever it spends, raises the fees of the pool by at least its size, if the sum of conflicting fees and size does not wrap, or in a solvent pool with at most 8784 inputs |
| Mempool.EveryReplacementGains | tiny-lib/core/mempool.cpp:198-212 | in the node's encoding every accepted replacement does so in a solvent pool, those that spend what they evict included |
| Mempool.InsertedIsApart | tiny-lib/core/mempool.cpp:214-227 | whatever a transaction spends, with its conflicts gone no two entries spend one output |
| Mempool.SomethingToEvict | tiny-lib/core/mempool.cpp:512-525 | with two bytes an entry, a 64-bit fee cannot give the largest fee rate, so a pool that is not empty has an entry to evict |
| Mempool.EncodingTakesRoom | tiny-lib/core/tx.cpp:265-280 | in the node's encoding every transaction takes two bytes and more |
| Mempool.InsertedIsSolvent | tiny-lib/core/mempool.cpp:214-227 | after an admission all fees of the pool still come out of the unspent outputs |
| Mempool.AdmittedIff | tiny-lib/core/mempool.cpp:88-162 | the checks of admission ask for a transaction that is new, lawful, free of dust, in conflict with no final entry, below parents with at most 23 ancestors and entries with at most 23 descendants, and that pays for its conflicts; and for nothing else |
| Mempool.FinalStays | tiny-lib/core/mempool.cpp:170-176 | an entry whose inputs are all final is never replaced |
| Mempool.SurvivorsPayMore | tiny-lib/core/mempool.cpp:508-537 | whatever the cap drove out paid no more a byte than anything left, or depended on an entry of which that is true |
| Mempool.TxPool.RemoveEntry | tiny-lib/core/mempool.cpp:539-551 | the size total stays the sum of sizes; the saturating branch is dead |
| Mempool.TxPool.PickWorst | tiny-lib/core/mempool.cpp:512-522 | an entry of least fee rate, none exactly if every entry has the largest rate there is |
| Mempool.TxPool.EnforceSizeCap | tiny-lib/core/mempool.cpp:508-537 | terminates after evicting, one by one while over the cap, the families of entries of least fee rate, and is then within the cap for any fees, as every transaction takes two bytes |
| Mempool.TxPool.ExpireOldTransactions | tiny-lib/core/mempool.cpp:553-577 | removes exactly the entries past their time and their descendants: nothing that is left is past its time or spends one of them; entries stay apart and within the cap |
| Mempool.TxPool.TryReplaceByFee | tiny-lib/core/mempool.cpp:164-241 | for any transaction that passed validation: accepts exactly if all conflicts are replaceable and the fee covers theirs and the size, so never against an entry whose inputs are all final; then the transaction takes their place before the cap is enforced, else nothing changes; no two entries ever spend one output; a reasonable one keeps the whole invariant |
| Mempool.TxPool.AddTxToMempool | tiny-lib/core/mempool.cpp:88-162 | for any transaction: accepts exactly what is new, free of dust, valid, within the limits and paying for its conflicts; what gets in is lawful with the chain and the entries to spend from, conflicts with no entry whose inputs are all final, and stands below at most 23 ancestors; the pool is exactly that with it before the cap is enforced, its entry what was computed for it; no two entries ever spend one output and the total is the sum of sizes within the cap, whatever was submitted; a reasonable one keeps the whole invariant: inputs resolved, fees paid out of the UTXO map, at most 24 descendants |
| Assembly.AddGrows | tiny-lib/core/mempool.cpp:327-378 | an insertion appends only entries the requested one needs, none twice, keeps the size the serialized size and every append below the limit |
| Assembly.EverythingIffItFits | tiny-lib/core/mempool.cpp:327-378 | the entry and all it needs get in if and only if they fit together, and then parents come first |
| Assembly.AddSucceedsIff | tiny-lib/core/mempool.cpp:341-364 | an insertion fails if and only if something needed has an input found nowhere |
| Assembly.OversizeParentIsSkipped | tiny-lib/core/mempool.cpp:366-368 | an oversize parent changes nothing when asked for, and its child gets in without it |
| Assembly.AllInFits | tiny-lib/core/mempool.cpp:44-86 | once every entry is in, the pool fits into the block |
| Assembly.NeverEnds | tiny-lib/core/mempool.cpp:52-84 | for a pool that resolves and does not fit: whatever was picked so far, a best entry is left, its insertion succeeds, and the loop goes on |
| Assembly.LoopEndsIff | tiny-lib/core/mempool.cpp:52-84 | for a pool that resolves, the number of rounds is bounded if and only if the whole pool fits into the block |
| Assembly.LoopEndsIffNeverStuck | tiny-lib/core/mempool.cpp:52-84 | for any pool, inputs found or not, the number of rounds is bounded if and only if no run comes to a best entry whose insertion succeeds and adds nothing, and then by the number of entries |
| Assembly.FundedResolves | tiny-lib/core/mempool.cpp:341-351 | in a pool that admission kept sane every input is found, so that block assembly does not fail |
| Assembly.OversizeEntryLoops | tiny-lib/core/mempool.cpp:52-84 | a single entry that does not fit is the best one in every round, changes nothing, and is picked for ever |
| Assembly.BlockGrows | tiny-lib/core/block.cpp:91-100 | appending a transaction adds exactly its size to the serialized block |
| Assembly.Assembler.TryAddToBlock | tiny-lib/core/mempool.cpp:327-378 | the recursion terminates with the state the insertion function gives, block and running size in step |
| Assembly.ComputeAncestorPackageFeeRate | tiny-lib/core/mempool.cpp:423-448 | the rate r of an entry with its ancestors not yet added satisfies r * size <= fee < (r + 1) * size for their 64-bit sums; it is zero for an empty size or an id without an entry |
| Assembly.EffectiveRateIff | tiny-lib/core/mempool.cpp:63-64 | the rate compared is the least one that bounds both the entry's own rate and the fees of its package |
| Assembly.IsBestIff | tiny-lib/core/mempool.cpp:66-70 | an entry is best, every rate that bounds what it pays bounding what any other pays, if and only if no other has a greater effective rate |
| Assembly.EntryHasOwnRate | tiny-lib/core/mempool.cpp:147-152 | the rate kept in an entry is its fee over its size, rounded down |
| Assembly.AloneByOwnRate | tiny-lib/core/mempool.cpp:63-64 | an entry whose ancestors are all added is compared by its own fee rate |
| Assembly.ByPackage | tiny-lib/core/mempool.cpp:423-448 | one whose package pays more than its own rate is compared by its package |
| Assembly.BestPaysMost | tiny-lib/core/mempool.cpp:58-76 | of two entries with nothing left above them, the one with the lower fee rate is never the best |
| Assembly.PickBest | tiny-lib/core/mempool.cpp:58-76 | an entry not yet added such that no other, alone or as a package, pays more; of two with nothing left above them never the one with the lower fee rate; none exactly if all are added |
| Assembly.NoneBehindPaidMore | tiny-test/src/cpfp_tests.cpp:49-87 | in the order of a greedy block, no entry behind one on its own paid more than it, neither alone nor with what it still needed: a high-paying child takes its parents along |
| Assembly.LonersAreSorted | tiny-test/src/cpfp_tests.cpp:89-115 | entries on their own come in the order of their fee rates |
| Assembly.Assembler.SelectFromMempool | tiny-lib/core/mempool.cpp:44-86 | for any pool and any number of rounds: still running after greedy picks only; or ended with every entry exactly once, parents first, in the order of greedy picks, which then fit; or with the given block if some input is found nowhere; and ended within one round more than there are entries if the pool fits |

## Left out

- Networking, connection bookkeeping, logging, command line and benchmarks: sending a message does nothing here.
- ECDSA, RIPEMD-160, HMAC and the hash functions themselves: parameters, injective where a result says so.
- HD wallet and key derivation, the signature cache, the fee estimator and the Metal backend.
- Mutexes: a step of the node is atomic, as it holds one lock; only CPU mining is interleaved.
- Wall-clock polling, retries and the assume-valid switch, whose hash is empty: signatures are always checked.
- Chain::reset, and the reload of the wallet and peers at start-up.
- The list of orphaned transactions that add_tx_to_mempool keeps: a transaction with an unresolved input is only refused.
- Chain.Node.ValidateBlock: where the source would dereference a null outpoint of a non-coinbase input, or take the highest bit of a zero target, the block is refused.
- Chain.Node.ReorgIfNecessary: where the source would read outside a vector, for an empty branch or a heavier one rooted nowhere on the active chain, the flag `outOfRange` is raised and the pass ends.
- Chain.Node.ConnectBlock: connect_block's flag is split into ConnectDuringReorg and ConnectBlock; the node's pool holds only ids and transactions, so fees of entries put back by a disconnect are not claimed; the first block is never disconnected.
- Chain.Node.TryConnectOrphans: the order among orphans of one parent is that of a sequence, not of a hash table.
- Iteration over hash maps is in arbitrary order; std::sort is an insertion sort with the same result.
- Vector capacity and failed allocation; a byte other than 0 and 1 read as a bool counts as true.
- CoinSelection.BranchAndBoundSelect: optimality is claimed for a positive target and sums that fit in 64 bits; when the try limit is hit only soundness is.
- The wallet's fee bump, and coins found over the network: Wallet.BuildTxMiner is the wallet that reads its own map.
- CoinSelection.BuildTx: signing and hashing are parameters; the variant for the HD wallet is the same code and is not repeated.
- Mempool.ReplacementGains: in a pool that is not solvent, or with more than 8784 inputs, it asks that the 64-bit sum of conflicting fees and size does not wrap; Mempool.EveryReplacementGains asks for ids of 64 digits and keys of at least 33 bytes instead.
- Mempool.TxPool.AddTxToMempool: the UTXO map and chain are fixed; what a mined block removes from the pool is modelled in Chain.Node only by ids.
- Assembly.Assembler.SelectFromMempool: the endless loop is cut after a number of rounds that the caller gives.
- Mining.SearchIsCorrect: each access to a shared atomic is one step, in sequentially consistent order.
- Sha256.Sha256Hash: the compression function is a parameter.
- Ledger.DisconnectTxs: an input that the chain does not hold is reported; the source would store a null output for it under index -1. Chain.Node.DisconnectTip shows that this never happens to the node.
- PoolVerdicts.VerdictsDifferIff: for subsidy and fees that together fit in 64 bits; PoolVerdicts.OnlyOwnEntriesMatter holds for any.
