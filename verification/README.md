# A verified model of the bt ledger

This project models, in Dafny, the node of the bt repository (a small Bitcoin-like blockchain written in Go) and
proves what its ledger, its mining and its block exchange guarantee.

The heart is an odd data structure. `UTXOSet.AddUTXO` keeps a transaction's *own* `Outputs` slice, and
`UTXOSet.RemoveUTXO` splices that slice in place. So every spend moves the later outputs of a transaction down by one,
and rewrites the transaction recorded in the chain. The model keeps both facts: output lists are heap arrays shared
between the UTXO map and the transaction objects (`UTXOSets`, `Transactions`, `Blocks`, `Blockchains`), and their content
is followed by a ledger of plain lists, one "live" and one "recorded" list per transaction (`Ledgers`). Every method
that changes the heap is proved against that ledger, and the theorems about money, identity, acceptance and reloading
are proved about the ledger over whole runs.

## How the modules fit together

- `Prelude`, `ByteStrings`, `Crypto`: results, byte strings and numbers, the cryptographic primitives as fields of a
  parameter `Env`. Nothing is assumed of an `Env` except where a theorem says so: addresses decode (`AddressesDecode`),
  a wallet's signatures are accepted (`SignerSound`), and no two of the *named* preimages collide (`NoTxCollision`,
  `NoHeaderCollision`, `NoCollision`, `NoZeroHash`). Global injectivity of a hash is never assumed.
- `Header`, `ProofOfWork`, `Merkle`: the 84-byte header, the nonce search, byte order and number order, both Merkle loops.
- `Transactions`: signing and verification, as functions on values and as the methods of the object.
- `Ledgers`, `Compaction`, `Removals`, `CoinSelection`, `Spending`, `MultiSpending`, `DoubleSpending`, `Creation`: the
  compacting output lists, what they stand for, the removal loop on any inputs, coin selection under every map iteration
  order, what a spend takes out, spends of several outputs of one transaction, the same transaction applied twice, and
  CreateTransaction on any ledger.
- `UTXOSets`, `Blocks`, `Storages`, `Links`, `Blockchains`, `Startup`, `Loading`, `Networks`: the objects and their methods.
- `Chains`, `Difficulty`, `Nodes`, `Executions`, `Sync`, `Reload`: block validation, reachable chains, retargeting, one
  node's operations on values, runs of any AddBlock calls, chain adoption, and the database.
- `HonestRuns`, `Payments`, `Runs`: the run invariant, what one honest step does, and the theorems about whole runs.
- `Clients`, `Restarts`: the calls of the node program, proved to be steps of such a run, also across restarts.
- `ToyWorld`, `Witness`, `Counterexamples`, `SelfPayments`: a concrete world in which all assumptions of these theorems
  hold, a run in it whose payment is mined, and runs in it that show where the code falls short.

The functions the contracts name are themselves pinned by statements that do not name them: what is accepted and refused
(`Transactions.VerifiedMeans`, `Nodes.AttemptedMeans`, `Chains.FaultIsFirst`, `Chains.ChainRefused`), what is built, field by
field (`Header.FieldsReadBack`, `Nodes.AddedBlockIs`, `Creation.CreatedOutputs`, `Creation.CreatedInputs`), what is picked
(`CoinSelection.SelectsInOrder`), what is on disk and read back (`Reload.StoreRecords`, `Reload.LoadedMeans`).

The methods have two layers of contracts. One holds of every object, whoever shares its arrays: the entries and the
content of every array move as the functions on `UTXOSets.Held` say, and lookups see what the block objects hold now
(`Blockchains.Blockchain.Looks`). The other holds while the object is *linked*, that is, while every UTXO entry is a
prefix of the output array of the one transaction on the chain with its ID: then the plain ledger moves as `Ledgers` says.

An *honest run* starts from a successfully mined genesis block. Each step mines an empty block, or creates a payment
with a positive amount from the wallet's own address to an address with another key hash, and mines it at once. Steps may
fail. `bodies` is the set of transaction bodies hashed in the run; the only assumption on hashing is that no two of
these collide. Heights up to 1,844,674,407 keep every sum below 2^63.

Where the code does not do what its comments or its README say, the model follows the code:

- `internal/pow/pow.go:18` says lower bits mean a harder target; the code makes higher bits harder
  (`ProofOfWork.ValidHashIffLeadingZeros`, `ProofOfWork.HarderImpliesEasier`).
- README.md:22 promises double-spend prevention as part of validation. Verification looks only at signatures, against the
  lock that the named index holds now; a second spend is stopped by the removal from the UTXO set, and only if no other
  output of the same transaction has moved up to that index. `DoubleSpending.SecondSpend` says exactly when the same signed
  transaction is applied once more, whatever its inputs, and `DoubleSpending.SecondVerified` when it is verified once more.
  `DoubleSpending.TwiceTakesBoth` is an input on which both happen, and `SelfPayments.SameTransactionTwice` a run from the
  genesis in which two blocks with it are added. Where the lock is another one, the signature would have to be good for
  another digest (`DoubleSpending.OtherLockOtherDigest`); that is what a repeated payment meets in every honest run
  (`DoubleSpending.RepeatNeedsOtherDigest`). What always holds is that no spent output ever comes back
  (`Compaction.SpentStaysSpent`, `Runs.NothingComesBack`).
- The retargeting comments speak of ten blocks of ten seconds; the code measures from the first of the ten blocks to the
  last, which is nine gaps (`Difficulty.SteadyPace`).

Properties that fail are stated with the exact condition under which they hold, and with an input on which they fail:

- A payment made of the outputs CreateTransaction picks can always be applied: with entries of at most two outputs, which
  is all that coinbases and created payments make, true if and only if no two picks are of one transaction (`MultiSpending.PaymentAppliesIffOnePerTx`; what removing several outputs of one transaction does in
  general is `MultiSpending.PaymentApplies`). It fails after a payment to oneself (`SelfPayments.SelfPaymentBreaks`).
- A transaction takes the outputs its inputs name: true if and only if, transaction by transaction, the inputs name live
  outputs and later inputs name earlier outputs (`MultiSpending.SpendIsAsNamed`). Coin selection names them in ascending
  order, so there it is true if and only if it names at most one of each (`MultiSpending.SpendIsAsNamedIffSingle`); in the
  same run the second removal meets an index that has moved away.
- A transaction can not be applied twice: it can if and only if, of every transaction it spends from, what is left can
  take the same indices again (`DoubleSpending.SecondSpend`; `DoubleSpending.TwiceTakesBoth`).
- Reloading gives back the node: true if and only if the kept difficulty is that of the tip and the ledger is what replaying
  the chain gives (`Reload.ReloadTheorem`). The difficulty is that of the tip unless an AddBlock that failed since the tip
  was added has adjusted it (`Reload.ReloadAfterExecution`, for all runs; `Counterexamples.ReloadDiffers`). The ledger is the
  replayed one unless some AddBlock has failed half way through its update (`Executions.RunAccounted`,
  `Executions.HalfWayUnaccounted`). In honest runs it always is (`Runs.RunInv`, `Reload.ReloadAfterRun`); after a payment to
  oneself it need not be (`SelfPayments.ReloadUndoesSpend`).
- A payment moves money from the payer only: the theorems ask for a positive amount, because with a negative one
  CreateTransaction takes money from the recipient, without any signature (`Creation.NegativeAmountTakes`).
- The verifier cuts a signature where the signer joined it: `Crypto.SplitRecovers`, and not for (256, 1)
  (`Crypto.SplitFails`).
- Adjusting again at the same height changes nothing more: `Difficulty.RetryMovesAgain`, and not for ten blocks at one
  instant (`Difficulty.RetryMovesTwice`).
- The block of an honest step is added: `Payments.BlockAccepted`, and not where the search is exhausted
  (`Counterexamples.SearchExhausted`).
- A longer chain is adopted: `Sync.DownloadExact`, and not when it is dated too far ahead (`Counterexamples.UntimelyDownload`).

## Model

| member | source | states |
|---|---|---|
| Crypto.SplitRecovers | internal/crypto/wallet.go:134-178 | cutting the concatenation of r and s in the middle gives back the positive pair if and only if s has as many minimal bytes as r, or one more |
| Crypto.SplitFails | internal/crypto/wallet.go:134-178 | the cut of the signature (256, 1) gives (1, 1) |
| Crypto.SignatureVerifies | internal/crypto/wallet.go:134-178 | a wallet's signature verifies under its key when it has at least 32 bytes and splits cleanly |
| Header.Serialize | pkg/types/types.go:20-42 | the buffer filled field by field is the fixed layout, 84 bytes long for 32-byte hashes |
| Header.SerializedInjective | pkg/types/types.go:20-42 | equal serialised headers if and only if equal fields, timestamps to the second |
| Header.FieldsReadBack | pkg/types/types.go:20-42 | decoded by position, with the low byte first, the 84 bytes hold version, previous hash, Merkle root, the seconds of the timestamp modulo 2^64, difficulty and nonce |
| Header.SecondsTellApart | pkg/types/types.go:33-33 | headers whose times lie in different seconds, less than 2^64 apart, have different bytes |
| ProofOfWork.MineFromLeast | internal/pow/pow.go:46-73 | the search returns the least nonce that meets the target, or MAX_NONCE with the hash of the last one tried |
| ProofOfWork.MinedIffNotExhausted | internal/pow/pow.go:46-73 | the search stops below MAX_NONCE if and only if some nonce there meets the target |
| ProofOfWork.SearchSpace | internal/pow/pow.go:46-73 | the search succeeds if and only if one of the nonces below 4,294,967,295 meets the target |
| ProofOfWork.ExhaustedBlockRejected | internal/blockchain/blockchain.go:301-311 | a block from an exhausted search fails one of the two hash checks, without any assumption on the hash |
| ProofOfWork.CompareIsNumeric | internal/pow/pow.go:96-99 | byte-wise comparison of equally long hashes is comparison of the numbers |
| ProofOfWork.TargetIsLeadingZeros | internal/pow/pow.go:76-83 | the big-endian value is below 2^(8n-d) if and only if the first d bits are zero |
| ProofOfWork.ValidHashIffLeadingZeros | internal/pow/pow.go:86-94 | a 32-byte hash is valid at d <= 256 bits if and only if it starts with d zero bits |
| ProofOfWork.HarderImpliesEasier | internal/pow/pow.go:86-94 | validity at d+1 bits implies validity at d |
| Merkle.NextLevel | internal/merkle/merkle.go:20-33 | one round pairs neighbours, the last with itself if the level is odd |
| Merkle.BuildMerkleRoot | internal/merkle/merkle.go:9-37 | the bottom-up loop computes the root that the recursion splitting at a power of two computes |
| Merkle.BuildMerkleTree | internal/merkle/merkle.go:40-67 | all levels, nothing for an empty list |
| Merkle.TopDownIsRoot | internal/merkle/merkle.go:19-36 | bottom-up equals top-down for every non-empty list |
| Merkle.LevelsCount | internal/merkle/merkle.go:45-66 | there are ceil(log2 n)+1 levels and the last is the root alone |
| Merkle.LevelSize | internal/merkle/merkle.go:50-64 | level k has ceil(n/2^k) nodes |
| Merkle.DuplicateLastKeepsRoot | internal/merkle/merkle.go:21-23 | repeating the last element of an odd list of length at least 3 leaves the root unchanged |
| Merkle.Binding | internal/merkle/merkle.go:19-36 | at equal height and without collision at corresponding nodes, equal roots mean equal padded lists |
| Merkle.RootBinds | internal/merkle/merkle.go:9-37 | the same for the loop's root; equally long lists with equal roots are equal |
| Merkle.PathLeadsToRoot | internal/merkle/merkle.go:40-67 | for every leaf the siblings read from the levels fold to the root |
| Transactions.DigestCommits | internal/tx/transaction.go:143-147 | a signed digest commits to all outputs, all outpoints spent and the lock, or two bodies collide |
| Transactions.SignFromSpec | internal/tx/transaction.go:140-160 | signing changes the signatures of the inputs from i on and nothing else, and panics exactly on an index out of range |
| Transactions.SigningKeepsBody | internal/tx/transaction.go:84-95 | the ID stays the hash of the transaction without signatures |
| Transactions.SignVerifyRoundTrip | internal/tx/transaction.go:125-200 | Sign then Verify succeeds for any number of inputs with the wallet's key whose signatures split |
| Transactions.VerifyFromSound | internal/tx/transaction.go:181-199 | Verify says yes if and only if every signature checks out against the lock of the output it names |
| Transactions.VerifiedMeans | internal/tx/transaction.go:166-200 | verification accepts exactly what mints, and what ECDSA accepts at every input: a signature of at least 32 bytes, cut in the middle, for the input's key, over the SHA-256 of the hash of outputs, outpoints and the lock of the live output named |
| Transactions.VerifiedOtherwise | internal/tx/transaction.go:171-199 | otherwise a missing previous transaction refuses it; if there is none, the first input not accepted decides: a panic on an index out of range, a refusal on a bad signature |
| Transactions.SignedOtherwise | internal/tx/transaction.go:125-160 | signing fails exactly on a missing previous transaction and panics exactly on an index out of range |
| Transactions.VerifiedAgrees | internal/tx/transaction.go:171-186 | only the previous transactions named by the inputs matter |
| Transactions.Transaction.TrimmedCopy | internal/tx/transaction.go:203-228 | a new object with new arrays, without signatures and keys |
| Transactions.Transaction.HashWithLock | internal/tx/transaction.go:143-159 | the digest with one input's key replaced by a lock; the copy is as before afterwards |
| Transactions.Transaction.SignInput | internal/tx/transaction.go:141-160 | one round of signing writes one signature over the specified digest |
| Transactions.Transaction.Sign | internal/tx/transaction.go:125-163 | the object ends with the inputs the specification gives; errors and panics included |
| Transactions.Transaction.VerifyInput | internal/tx/transaction.go:182-197 | one round of verification |
| Transactions.Transaction.Verify | internal/tx/transaction.go:166-200 | the answer is that of the specification, on the outputs as they are now |
| Transactions.NewTransaction | internal/tx/transaction.go:33-41 | the ID is the hash of inputs and outputs; the output array is shared with the caller |
| Transactions.NewCoinbaseTx | internal/tx/transaction.go:44-76 | one input with the data as key, one output; fails if and only if the address does not decode |
| Ledgers.ReplayIsUpdateAll | internal/blockchain/blockchain.go:115-122 | replaying a block on loading does what adding it did, when nothing failed |
| Ledgers.UpdateKeepsAliased | internal/utxo/utxo.go:124-139 | every entry stays a prefix of the recorded outputs, for any transaction and also when the update fails |
| Ledgers.TotalRemove | internal/utxo/utxo.go:30-52 | a removal takes exactly the worth of one output out of the total |
| Ledgers.TotalBounds | internal/utxo/utxo.go:104-121 | with non-negative values nobody owns more than there is |
| Compaction.RemoveRefines | internal/utxo/utxo.go:30-52 | removing (T, k) takes the k-th surviving original output of T out of the set of unspent outpoints and keeps the order of the rest |
| Compaction.AddRefines | internal/utxo/utxo.go:25-27 | adding a transaction adds exactly its outpoints |
| Compaction.ReplayRefines | internal/utxo/utxo.go:124-139 | after any history with distinct IDs, failures included, entries are the surviving original outputs in order |
| Compaction.SpentStaysSpent | internal/utxo/utxo.go:124-139 | an original output that has been spent is never unspent again |
| Compaction.IndexUnshifted | internal/utxo/utxo.go:43-43 | the current index is the original one if and only if no earlier output of the transaction has been spent |
| Removals.InputsSpend | internal/utxo/utxo.go:126-133 | any inputs are all removed if and only if, for every transaction named, each of its indices is still in range when its turn comes; and what is left of every entry then |
| Removals.InputsSplice | internal/utxo/utxo.go:43-43 | every recorded array is then spliced as often as inputs name it, and no other is touched |
| Removals.SpliceAllShows | internal/utxo/utxo.go:43-43 | after any splices of a shared array a cell shows the element left at its place, or the stale copy of what was last when the list still reached it |
| CoinSelection.SelectionCorrect | internal/utxo/utxo.go:70-101 | under every map order: fails if and only if the balance is short; picks are owned, in range, ascending, distinct, add up, and fall short without the last |
| CoinSelection.NonPositiveSelectsNothing | internal/utxo/utxo.go:81-93 | an amount of zero or less selects no outputs |
| CoinSelection.SelectsInOrder | internal/utxo/utxo.go:79-94 | no output of the owner's is passed over: the picks are a prefix of all of them in traversal order, and all of them if the sum falls short |
| Spending.SpendPicks | internal/utxo/utxo.go:124-133 | spending one output each of several transactions succeeds in any order and takes exactly the picked worth from the owner |
| MultiSpending.OneTxSpends | internal/utxo/utxo.go:124-133 | removing several indices of one transaction, in order, succeeds if and only if each is still in range when its turn comes, which lags by one for every removal before it |
| MultiSpending.PaymentApplies | internal/utxo/utxo.go:124-139 | a payment built from any picks, in any map order, is applied if and only if every transaction's group of picks is still in range throughout |
| MultiSpending.PaymentAppliesIffOnePerTx | internal/blockchain/blockchain.go:533-545 | where entries hold at most two outputs, a payment made of the selected outputs is applied if and only if no two of them are of one transaction |
| MultiSpending.ReplayAtMostTwo | internal/blockchain/blockchain.go:547-569 | entries hold at most two outputs after any history of coinbases and created payments, failures included |
| MultiSpending.SpendIsAsNamed | internal/utxo/utxo.go:126-133 | any inputs, in any order, take out exactly the original outputs they name if and only if, transaction by transaction, they name live outputs and each later input an earlier output |
| MultiSpending.SpendIsAsNamedIffSingle | internal/utxo/utxo.go:126-133 | live indices of one transaction in ascending order are taken as named if and only if there is at most one |
| DoubleSpending.DistinctInputs | internal/utxo/utxo.go:126-133 | inputs of different transactions are all removed if and only if each is live at the start, and each takes one output |
| DoubleSpending.SecondSpend | internal/utxo/utxo.go:124-139 | a transaction with any inputs that has just been applied is applied once more if and only if, of every transaction it names, what is left can take the same indices again |
| DoubleSpending.SecondVerified | internal/blockchain/blockchain.go:192-197 | it verifies once more if and only if each signature is good for the lock its input meets then, be it of an output that moved up or of a stale copy |
| DoubleSpending.SecondSpendDistinct | internal/utxo/utxo.go:124-139 | where its inputs name different transactions: if and only if each entry has an output behind the one spent, whose lock is then the one met |
| DoubleSpending.HasNextIsNotEnough | internal/utxo/utxo.go:124-139 | three equal outputs, two of them spent in descending order: behind each there is another one, and still the spend does not go through again |
| DoubleSpending.SameLocksVerifyAgain | internal/tx/transaction.go:166-200 | so it verifies again whenever every input meets the lock it met before |
| DoubleSpending.OtherLockOtherDigest | internal/tx/transaction.go:143-147 | under another lock the digest is another, or two bodies collide |
| DoubleSpending.TwiceTakesBoth | internal/utxo/utxo.go:43-49 | two outputs of one owner: the transaction that spends the first is verified and applied twice and takes both |
| DoubleSpending.RepeatNeedsOtherDigest | internal/blockchain/blockchain.go:192-197 | in an honest run a block that repeats the inputs of a payment on the chain is added only if its signature is good under a lock its key does not open |
| UTXOSets.SpliceIsRemove | internal/utxo/utxo.go:43-49 | splicing one shared slice in place changes the ledger at that transaction only |
| UTXOSets.SliceIsAdd | internal/utxo/utxo.go:25-27 | storing the transaction's own slice is adding its outputs to the ledger |
| UTXOSets.Splice | internal/utxo/utxo.go:43-43 | the in-place append on the shared array, with the stale last cell it leaves |
| UTXOSets.UTXOSet.AddUTXO | internal/utxo/utxo.go:25-27 | the entry becomes the whole given array |
| UTXOSets.UTXOSet.RemoveUTXO | internal/utxo/utxo.go:30-52 | succeeds if and only if the index is live; shortens one entry, rewrites one array, keeps everything else |
| UTXOSets.UTXOSet.LinkedIsAliased | internal/utxo/utxo.go:25-67 | in a linked set the entries are prefixes of the recorded arrays |
| UTXOSets.UTXOSet.FindUTXO | internal/utxo/utxo.go:55-67 | the live output at the index, or nothing |
| UTXOSets.SumEntry | internal/utxo/utxo.go:113-117 | the inner balance loop adds the owner's outputs of one entry, modulo 2^64 |
| UTXOSets.UTXOSet.GetBalance | internal/utxo/utxo.go:104-121 | the wrapped sum over all entries, whatever order the map is traversed in |
| UTXOSets.ScanSlice | internal/utxo/utxo.go:80-89 | the inner selection loop on one entry |
| UTXOSets.UTXOSet.SelectOutputs | internal/utxo/utxo.go:79-94 | both selection loops compute the specified selection for the order the map was traversed in |
| UTXOSets.UTXOSet.FindSpendableOutputs | internal/utxo/utxo.go:70-101 | error, or accumulated sum and grouped picks |
| UTXOSets.UTXOSet.Update | internal/utxo/utxo.go:124-139 | the exact entries and array contents afterwards, whoever shares the arrays: inputs are removed up to the first failure, then the outputs are added; on a linked set with a new array the ledger moves as specified and it stays linked |
| UTXOSets.UTXOSet.UpdateBlock | internal/blockchain/blockchain.go:235-239 | a block's transactions in order up to the first failure: entries and array contents for any set, the ledger for a linked one |
| UTXOSets.UTXOSet.UpdateEach | internal/p2p/network.go:457-461 | a received block's transactions with failures ignored: entries and array contents for any set, the replayed ledger for a linked one; touches no other arrays |
| Chains.ValidationMeans | internal/blockchain/blockchain.go:300-358 | the checks pass if and only if the block meets its target, carries its hash and root, follows the tip, has exactly one coinbase, first, and is not dated over two hours ahead |
| Chains.FaultIsFirst | internal/blockchain/blockchain.go:300-358 | the fault reported is that of the first of the eight checks that fails, in the order the code makes them, and there is none if all pass |
| Chains.RunsOnlyAppend | internal/p2p/network.go:438-473 | over any interleaving of steps of many nodes every chain stays valid and only grows by appending |
| Chains.ReachableChainsValidate | internal/blockchain/blockchain.go:361-395 | ValidateChain succeeds on every reachable chain, and each later block has exactly one coinbase, at position 0 |
| Chains.ChainRefused | internal/blockchain/blockchain.go:361-395 | ValidateChain refuses a chain if and only if some block behind the genesis misses its target, does not name the hash of the block before, or carries another Merkle root than that of its IDs |
| Chains.TamperedHash | internal/blockchain/blockchain.go:372-375 | another hash in a block makes a chain that passed fail, unless it is the last block, whose hash is not looked at |
| Chains.TamperedIds | internal/blockchain/blockchain.go:383-391 | other transaction IDs in a block behind the genesis, at equal length and without a collision, make it fail |
| Chains.TamperedLink | internal/blockchain/blockchain.go:372-375 | another previous hash in a block behind the genesis makes it fail |
| Chains.TipCommits | internal/blockchain/blockchain.go:300-358 | valid chains with equal tip hashes are equally long with equal headers, if no headers of theirs collide |
| Chains.EqualTipsInRun | internal/p2p/network.go:438-473 | the same for any two nodes in any state of any run |
| Chains.TipCommitsToTransactions | internal/blockchain/blockchain.go:319-327 | ... and with equal transaction ID lists, up to Merkle padding, where the trees are equally high |
| Chains.HashesDistinct | internal/blockchain/blockchain.go:329-335 | no hash occurs twice in a valid chain |
| Difficulty.AdjustedMeans | internal/blockchain/blockchain.go:398-432 | at every tenth block, ten blocks in less than 50 seconds add a bit, up to 32, ten in more than 200 take one away, down to 8; otherwise nothing changes |
| Difficulty.BoundsAreLeft | internal/blockchain/blockchain.go:419-431 | fast blocks lift 8 to 9 and slow ones lower 32 to 31 |
| Difficulty.AppendKeepsHistory | internal/blockchain/blockchain.go:398-432 | the incrementally kept difficulty agrees with a recomputation from the timestamps of all earlier blocks |
| Difficulty.DifficultyInRange | internal/blockchain/blockchain.go:419-431 | it stays within 8 and 32 bits |
| Difficulty.DifficultyMovesAtIntervals | internal/blockchain/blockchain.go:401-409 | it moves by at most one, and only at multiples of ten |
| Difficulty.DifficultyDrift | internal/blockchain/blockchain.go:398-432 | two blocks differ by at most the number of interval boundaries between them |
| Difficulty.FasterIsHarder | internal/blockchain/blockchain.go:411-431 | a shorter interval never gives a lower difficulty |
| Difficulty.SteadyPace | internal/blockchain/blockchain.go:411-431 | at a steady pace the exact gaps at which difficulty rises and falls; ten blocks are measured over nine gaps |
| Difficulty.RetryMovesAgain | internal/blockchain/blockchain.go:199-200 | adjusting again at the same height, as after a failed AddBlock, changes nothing more if and only if it did not move or is at a bound |
| Difficulty.RetryMovesTwice | internal/blockchain/blockchain.go:411-431 | ten blocks at one instant: each adjustment adds a bit |
| Difficulty.NeverMovesBack | internal/blockchain/blockchain.go:411-431 | adjusting several times at one height never returns to where it started unless the first adjustment changed nothing |
| Nodes.BlockDataInjective | internal/blockchain/blockchain.go:184-184 | coinbase data differ between heights and from the genesis data |
| ByteStrings.DecimalReadsBack | internal/blockchain/blockchain.go:184-184 | the height is written in digits that denote it, without a leading zero |
| Nodes.AddBlockIsStep | internal/blockchain/blockchain.go:180-249 | what AddBlock appends passed validation and came from a successful search; otherwise the chain stays |
| Nodes.AttemptedMeans | internal/blockchain/blockchain.go:184-197 | AddBlock gets as far as mining exactly when the miner's address decodes and every transaction mints or is accepted by ECDSA at every input |
| Nodes.AddedIsAuthorised | internal/blockchain/blockchain.go:192-197 | so was every transaction of a block that is added, however many there are |
| Nodes.ForgedIsNeverAdded | internal/blockchain/blockchain.go:192-197 | an input whose key ECDSA accepts no signature for keeps its block off the chain, and nothing changes |
| Nodes.AddBlockPanics | internal/blockchain/blockchain.go:192-197 | AddBlock panics exactly when the address decodes and verifying the first transaction that is not accepted does |
| Nodes.AddedBlockIs | internal/blockchain/blockchain.go:180-217 | an added block field by field: version 1, the tip's hash, the Merkle root, the time, the adjusted difficulty, the least nonce that meets it; a coinbase of 5,000,000,000 to the miner with the height in its data, then the transactions submitted |
| Nodes.GenesisIs | internal/blockchain/blockchain.go:136-177 | the genesis node field by field |
| Nodes.MinedBlockAccepted | internal/blockchain/blockchain.go:202-232 | a well-formed mined block validates if and only if the search was not exhausted |
| Nodes.AddBlockKeepsHistory | internal/blockchain/blockchain.go:199-217 | AddBlock keeps the difficulty history |
| Nodes.NewOutputsStay | internal/blockchain/blockchain.go:192-239 | transactions with known inputs cannot spend outputs of their own block |
| Nodes.AddedBlockIntact | internal/blockchain/blockchain.go:241-246 | so what is saved is the block with its original outputs |
| Executions.RunBits | internal/blockchain/blockchain.go:419-431 | in every state of every run of AddBlock calls, with any transactions, miners and clocks, failed calls included, the difficulty and that of every block are within 8 and 32 bits |
| Executions.RunFollows | internal/blockchain/blockchain.go:199-200 | in every such state the kept difficulty is the tip's, unless a call that failed since has adjusted it; then it is where further adjusting has moved it |
| Executions.RunAccounted | internal/blockchain/blockchain.go:234-241 | as long as no call fails half way through its update, the ledger is what replaying the chain gives |
| Executions.HalfWayUnaccounted | internal/blockchain/blockchain.go:234-239 | a call that fails half way with a new coinbase leaves a ledger that the chain does not account for |
| Executions.LedgerMoved | internal/blockchain/blockchain.go:180-249 | only a call that fails half way changes the ledger without adding a block |
| HonestRuns.CoinbaseIsFresh | internal/blockchain/blockchain.go:184-184 | a coinbase never reuses an ID |
| HonestRuns.PaymentIsFresh | internal/blockchain/blockchain.go:534-588 | a payment never reuses an ID, though compaction makes payments reuse (TxID, OutIndex) |
| HonestRuns.CoinbaseKeepsInv | internal/blockchain/blockchain.go:184-190 | applying a coinbase keeps the run invariant |
| HonestRuns.PaymentKeepsInv | internal/utxo/utxo.go:124-139 | applying a payment succeeds and keeps it; in particular no entry holds two outputs of one owner |
| HonestRuns.PaymentMoves | internal/utxo/utxo.go:124-139 | a payment takes the picks out of its owner's total and puts the new outputs in |
| Payments.BalanceExact | internal/utxo/utxo.go:104-121 | in honest states the int64 sum is exact |
| Creation.CreatedSpec | internal/blockchain/blockchain.go:527-589 | on every ledger whose entries are prefixes of the recorded outputs, for every amount, recipient and wallet: CreateTransaction never panics, and succeeds if and only if both addresses decode and the selection reaches the amount |
| Creation.CreatedOutputs | internal/blockchain/blockchain.go:547-589 | output 0 is the amount to the recipient; there is an output 1, the difference to the payer, if and only if the selection exceeds the amount; the ID is the hash without signatures |
| Creation.CreatedInputs | internal/blockchain/blockchain.go:533-545 | the inputs that name a transaction carry exactly the indices picked of it, in that order, and all carry the wallet's key |
| Creation.NegativeAmountTakes | internal/blockchain/blockchain.go:527-589 | for a negative amount it returns a transaction without inputs, which verifies, applies, and moves money from the recipient to the payer |
| Payments.OrderSpec | internal/blockchain/blockchain.go:527-589 | in honest states it fails if and only if the balance is short or the recipient does not decode, and spends the picks |
| Payments.PayInputsInRange | internal/blockchain/blockchain.go:534-588 | no input of a payment created points outside its previous transaction, and every lock found there is the payer's |
| Payments.OrderVerifies | internal/blockchain/blockchain.go:192-197 | what it returns passes the signature check of the next AddBlock, if its signatures split |
| Payments.BlockAccepted | internal/blockchain/blockchain.go:180-249 | the block of an honest step is added if and only if the nonce search succeeds |
| Payments.ExecDifficulty | internal/blockchain/blockchain.go:199-217 | a step adjusts the difficulty exactly when it gets as far as mining, and an added block carries the adjusted difficulty and the time of the step |
| Payments.StepIsFresh | internal/blockchain/blockchain.go:180-190 | the IDs of a step's transactions are new, so no entry is overwritten |
| Payments.FailedStepKeepsLedger | internal/blockchain/blockchain.go:180-249 | an honest step that fails leaves chain and ledger alone |
| Payments.StepKeepsInv | internal/blockchain/blockchain.go:180-249 | every honest step keeps the run invariant |
| Payments.PaymentTheorem | internal/blockchain/blockchain.go:180-249 | a payment that is added changes GetBalance by exactly -amount, +amount and +5,000,000,000 for payer, recipient and miner, adding up where roles coincide, and by nothing for anybody else |
| Runs.RunInv | cmd/node/main.go:74-111 | the invariant holds in every state of every honest run |
| Runs.SupplyConserved | internal/blockchain/blockchain.go:184-239 | live outputs add up to 5,000,000,000 times the height, and balances are exact |
| Runs.IdsDistinct | internal/tx/transaction.go:33-41 | all transaction IDs on the chain are pairwise distinct, and every entry belongs to one |
| Runs.EntriesAreSurvivors | internal/utxo/utxo.go:124-139 | in every state every entry is the list of surviving original outputs |
| Runs.NothingComesBack | internal/utxo/utxo.go:124-139 | what is unspent later was unspent before: no double spending |
| Runs.LookupsAgree | internal/blockchain/blockchain.go:509-524 | FindUTXO(T, k) is FindTransaction(T).Outputs[k] for every live k |
| Runs.RunDifficulty | internal/blockchain/blockchain.go:398-432 | in runs without failed steps the difficulty of every block is the recomputed one |
| SelfPayments.SelfPaymentBreaks | internal/blockchain/blockchain.go:533-545 | from a genesis: a payment to oneself is mined; the next payment picks both its outputs, verifies, and fails half way with one output destroyed and a reward left that no block carries: three rewards less one unit at a height of two |
| SelfPayments.ReloadUndoesSpend | internal/blockchain/blockchain.go:114-122 | reloading then gives back the node before that payment, not the node after it |
| SelfPayments.SameTransactionTwice | internal/blockchain/blockchain.go:180-249 | from a genesis: after a payment to oneself the same signed transaction is mined in two blocks, and the second time takes the change |
| Reload.WalkSettles | internal/blockchain/blockchain.go:97-112 | more steps do not change a walk that has ended |
| Reload.WalkYields | internal/blockchain/blockchain.go:97-112 | the walk returns exactly the blocks that lead, one after the other, from one without a predecessor to the tip |
| Reload.LoadedMeans | internal/blockchain/blockchain.go:75-133 | loading gives a node exactly when all three records are there, its blocks lead to the tip, its difficulty is the one recorded and its ledger the replayed one |
| Reload.AddBlockSaves | internal/blockchain/blockchain.go:252-275 | saving an added block extends what saving the whole chain leaves on disk |
| Reload.StoreHolds | internal/storage/storage.go:45-59 | no block overwrites another on disk |
| Reload.StoreRecords | internal/blockchain/blockchain.go:252-275 | on disk are the chain's blocks and no others, the tip's hash, the height and the tip's difficulty |
| Reload.WalkFindsChain | internal/blockchain/blockchain.go:97-112 | the walk back never cycles, ends at the genesis, and yields the chain |
| Reload.ReloadTheorem | internal/blockchain/blockchain.go:75-133 | for any valid chain loading ends within as many steps as there are blocks and gives the blocks, the replayed entries and arrays, and the tip's difficulty; the node itself if and only if its difficulty is the tip's and its ledger is the replayed one |
| Reload.ReloadAfterExecution | internal/blockchain/blockchain.go:75-133 | after any run of AddBlock calls of which none failed half way: exactly the node if and only if no call that failed since the tip has adjusted the difficulty, or adjusting leaves it |
| Reload.ReloadUndoes | internal/blockchain/blockchain.go:114-122 | a failed call that has changed the ledger all the same is undone by reloading |
| Reload.ReloadAfterRun | internal/blockchain/blockchain.go:75-133 | after any honest run, failed steps included, loading gives the node with the tip's difficulty; exactly the node under the same condition |
| Reload.ReloadOffBoundary | internal/blockchain/blockchain.go:401-409 | so it does after a step that added its block, and at every height that is not a multiple of ten |
| Reload.WalkEndsOrCircles | internal/blockchain/blockchain.go:97-112 | the walk back on any database ends within one step more than it has blocks, or never |
| Counterexamples.ReloadDiffers | internal/blockchain/blockchain.go:199-232 | nine empty blocks, then an AddBlock that fails at height ten: the kept difficulty is 17 bits, the reloaded one 16 |
| Counterexamples.SearchExhausted | internal/pow/pow.go:46-73 | a genesis, and an AddBlock that fails because no nonce meets the target |
| Counterexamples.UntimelyDownload | internal/p2p/network.go:391-435 | a valid chain that extends ours and is not adopted, because by our clock it is dated too far ahead |
| Chains.FaultIgnoresOutputs | internal/blockchain/blockchain.go:300-358 | validation does not depend on outputs, so compaction does not affect it |
| Blocks.MakeBlock | internal/blockchain/blockchain.go:202-226 | the block built and mined from the transactions' IDs |
| Blocks.Miner.Mine | internal/pow/pow.go:46-73 | the loop returns what the specification says and leaves the last nonce tried in the header |
| Blocks.Miner.Validate | internal/pow/pow.go:76-83 | whether the header's hash meets the target |
| Storages.Storage.SaveBlock | internal/storage/storage.go:45-59 | the snapshot is stored under the hash, everything else stays |
| Storages.Storage.GetBlock | internal/storage/storage.go:62-75 | new objects with the stored content, each transaction with an array of its own |
| Links.RecordedAppend | internal/blockchain/blockchain.go:235-241 | appending an applied block keeps the link between every transaction on the chain and its recorded array |
| Blockchains.Blockchain.FindTransaction | internal/blockchain/blockchain.go:509-524 | the first transaction on the chain with the ID, or none |
| Blockchains.Blockchain.FoundIsShown | internal/blockchain/blockchain.go:509-524 | a transaction is found if and only if it is on the chain, with the outputs it has now |
| Blockchains.Blockchain.SomethingShown | internal/blockchain/blockchain.go:509-524 | every object, linked or not, has a table of what its lookups see |
| Blockchains.Blockchain.LinkedSees | internal/blockchain/blockchain.go:509-524 | while it is linked, that table is the ledger's |
| Blockchains.Blockchain.PreviousTxs | internal/blockchain/blockchain.go:495-503 | succeeds if and only if every input names a transaction on the chain, with the outputs held now |
| Blockchains.Blockchain.VerifyTransaction | internal/blockchain/blockchain.go:490-506 | on every object, linked or not: exactly the verification against the outputs the transactions on the chain hold now |
| Blockchains.Blockchain.VerifyAll | internal/blockchain/blockchain.go:192-197 | the transactions in order up to the first that is refused, on every object |
| Blockchains.Blockchain.BuildInputs | internal/blockchain/blockchain.go:533-545 | the inputs in the order the map is traversed |
| Blockchains.Blockchain.BuildOutputs | internal/blockchain/blockchain.go:547-569 | the recipient's output first, then change if there is any, or failure if the recipient does not decode |
| Blockchains.Blockchain.CreateTransaction | internal/blockchain/blockchain.go:527-589 | on every object: new objects with the value the specification gives for the entries and outputs held now and the orders the maps were traversed in |
| Blockchains.Blockchain.AdjustDifficulty | internal/blockchain/blockchain.go:398-432 | the new difficulty is the specified one |
| Blockchains.Blockchain.ValidateBlock | internal/blockchain/blockchain.go:300-358 | the first check that fails, in the order the code makes them |
| Blockchains.CoinbaseFault | internal/blockchain/blockchain.go:342-355 | the coinbase checks |
| Blockchains.Blockchain.ValidateChain | internal/blockchain/blockchain.go:361-395 | on every object the answer of `Chains.ChainValid`, of which `Chains.ChainRefused` says what it refuses |
| Blockchains.Blockchain.GetBlockByHash | internal/blockchain/blockchain.go:448-455 | found if and only if the hash is on the chain |
| Blockchains.Blockchain.SaveBlockToDB | internal/blockchain/blockchain.go:252-275 | block, tip, height and difficulty are written |
| Blockchains.Blockchain.ConnectLinked | internal/blockchain/blockchain.go:234-241 | the transactions are applied in order and the block is appended: entries and array contents for any object, the ledger and the link for a linked one |
| Blockchains.Blockchain.AddBlock | internal/blockchain/blockchain.go:180-249 | on every object the exact chain, entries, array contents, difficulty, disk and outcome: nothing changes before mining, and the proposed block is added, and its snapshot saved, if and only if it validates and applies; while linked, with new transactions, the whole state moves as `Nodes.AddBlock` and stays linked |
| Clients.PayAndMine | cmd/node/main.go:74-86 | on a linked object, for payments with new IDs: CreateTransaction followed by AddBlock is one step of the specification, keeps objects and disk in step, and stays linked if the block is added or the ledger is as it was |
| Clients.HonestPayment | cmd/node/main.go:74-86 | on an object of an honest run it is an honest step, whose results the payment theorems give |
| Clients.HonestMining | internal/blockchain/blockchain.go:180-249 | the same for an empty block |
| Clients.HonestIsFresh | cmd/node/main.go:74-86 | under every map order the payment created has a new ID |
| Clients.PaidIsHonest | cmd/node/main.go:74-86 | the step made is one of the honest run |
| Clients.BalanceIs | internal/utxo/utxo.go:104-121 | GetBalance on the object is the balance of the state |
| Witness.AssumptionsCanBeMet | cmd/node/main.go:74-86 | there is a world that meets every assumption of the run, tip and reload theorems, and an honest run in it whose payment is added |
| Startup.NewChain | internal/blockchain/blockchain.go:51-72 | a new chain stands for the genesis state, and a bad address is a panic |
| Startup.StartChain | internal/blockchain/blockchain.go:136-177 | the genesis block around its coinbase, mined but not validated, linked and saved |
| Loading.ReadChain | internal/blockchain/blockchain.go:86-112 | the walk from the tip rebuilds the chain as objects with separate arrays, or fails on a missing block |
| Loading.RebuildUTXO | internal/blockchain/blockchain.go:114-122 | replaying all transactions, failures ignored, gives the replayed ledger in the transactions' own arrays |
| Loading.LoadBlockchain | internal/blockchain/blockchain.go:75-133 | fails if and only if a record is missing; otherwise an object for the loaded state, linked if IDs are distinct and all recorded |
| Loading.NewBlockchain | internal/blockchain/blockchain.go:37-72 | loads if there is a tip, starts a new chain otherwise and saves its genesis block; either way an object of its own on this environment and storage, linked where IDs are distinct and recorded |
| Loading.Restart | internal/blockchain/blockchain.go:75-133 | after an honest run the loaded object, linked and with arrays of its own, stands for the node with the tip's difficulty; for exactly the node if and only if that is its difficulty |
| Restarts.Resume | cmd/node/main.go:74-86 | loading and then paying is an honest step of the node loaded, and leaves on disk what the next load needs |
| Restarts.FirstPayment | cmd/node/main.go:74-86 | starting a chain on an empty disk, paying, stopping and loading gives an object for the node of an honest run of one step |
| Sync.ReceivedIsStep | internal/p2p/network.go:438-455 | receiving a block keeps the chain or appends a validated block |
| Sync.DownloadExact | internal/p2p/network.go:391-435 | a download adopts everything up to the first block dated too far ahead if the peer's block at our height is our tip, and nothing otherwise |
| Sync.NothingFromLower | internal/p2p/network.go:382-387 | nothing is asked of a peer that is not higher |
| Sync.ExtendingPeerIsAdopted | internal/p2p/network.go:335-388 | from a peer whose chain extends ours we get the peer's chain if and only if its blocks are timely |
| Sync.ChainOkIgnoresOutputs | internal/p2p/network.go:289-309 | the chain a peer sends, with compacted outputs, is as valid as the chain it has |
| Sync.ResponseOutcome | internal/p2p/network.go:391-435 | the outcome of a download for what is actually sent |
| Networks.Network.ProcessReceivedBlock | internal/p2p/network.go:438-473 | a new, validated block is appended, applied with failures ignored, and its snapshot stored, other records staying; anything else changes nothing; chain, entries, array contents and disk for any object, the whole node while linked |
| Networks.Network.DownloadBlocks | internal/p2p/network.go:422-434 | all received blocks in order: chain, whole node while linked; every adopted block is stored under its hash with its header, IDs and inputs, and no other record changes |
| Networks.Network.GetBlocks | internal/p2p/network.go:289-309 | exactly the snapshots of the blocks from an index on |
| Networks.Network.SyncWithPeer | internal/p2p/network.go:335-388 | downloads only from a higher peer and only if no synchronisation is under way; chain, node and storage move as a download says; the flag is released |

## Left out

- Loading.ReadChain: the Go loop does not end on a database whose hashes form a circle; the method asks for a number of steps after which the walk has ended. `Reload.WalkEndsOrCircles` says that one more than the number of blocks is enough if any is, and `Reload.WalkFindsChain` that it ends on every database an honest run leaves.
- Loading.LoadBlockchain: the same.
- Loading.NewBlockchain: the same.
- Blockchains.Blockchain.SaveBlockToDB: the UTXO records it also writes are left out; they are never deleted, and loading ignores them.
- Networks.Network.ProcessReceivedBlock: is about typed blocks. README.md:33 promises automatic synchronisation, but a block decoded from JSON loses the type of its transactions and is refused at the cast; the synchronisation theorems are about what the code does with typed blocks.
- Networks.Network.SyncWithPeer: locks, streams and messages are not modelled; the peer's height and blocks are arguments, so the peer may move between the two requests.
- Networks.Network.DownloadBlocks: where the UTXO set is not linked it states chain and storage after several blocks; the entries, and the outputs in the stored blocks, are stated block by block by ProcessReceivedBlock.
- Clients.PayAndMine: is about linked objects and new IDs; on other objects CreateTransaction and AddBlock are stated one by one.
- Transactions.Transaction.Sign: a failing random source is not modelled; a signer may be randomised through its tape argument.
- SHA-256, RIPEMD-160, ECDSA and Base58 internals: fields of `Env`.
- Gob encoding and LevelDB: the database is a map from hashes to block values and three records; encoding and I/O failures are left out.
- Monotonic clock readings and floating-point seconds in the difficulty adjustment: timestamps are integer nanoseconds.
- Appending into spare capacity of ID slices in the Merkle loops: IDs are 32-byte slices without spare capacity.
- Ownership and value-balance checks of arbitrary transactions: the code makes none, so the money theorems are about honest runs.
- PendingTxs, wallet files, peer lists, the ping protocol, the gRPC server, the web server and the command-line programs: transport, display and lists without invariants.
