# Miner web application: transaction intake and proof-of-work mining

This project models the core of the miner in a small C# blockchain
application. A client posts coin transfers (sender account, receiver account,
amount) to the miner's REST endpoint `PostingTransaction`. The first post asks
the blockchain server to create the reserved bank block at the start of the
chain and starts a background mining thread. Every post appends the transfer
to a static FIFO queue.

The mining thread takes one transfer at a time from the queue. It drops the
transfer unless the amount is positive and the sender's current coin balance
covers it. Otherwise it builds a new block on top of the last block of the
chain: the block id is one more than the tip's id, and the previous-hash field
is the tip's hash. It then searches for a proof of work. Offsets 5, 10, 15, …
are tried in turn. Each try hashes the decimal text of the block's fields, the
offset and the previous hash, until the hash text starts with `12345`. The
sealed block is then submitted to the server.

The Dafny modules follow the program's structure:

- `Models`: the transfer and block records, and the mutable `BlockModel`
  object that the thread fills in field by field.
- `Decimal`: `uint.ToString()`, the decimal text used when a block is
  serialized, with its inverse and injectivity.
- `ProofOfWork`: the nonce search `newHashGenerator`.
  - As a specification: `FirstSolution` and `Solve` are pure functions over
    the search space.
  - As the source's loop: `NewHashGenerator` is a method with a `while`
    loop that completes the `BlockModel` in place. It is proved equal to
    `Solve`.
- `LedgerClient`: the blockchain server as the miner's REST client
  (`DataModel`) sees it.
  - The remote chain and balance table are the fields of a `Ledger` class.
  - Each client call is a method on that class.
- `Miner`: one iteration of the mining thread and its loop.
  - `Iteration` and `Drain` are pure specifications; the lemmas state the
    pipeline's properties about them.
  - The static state of `MinerController` (the start flag and the queue) is
    a class, with a flag `searching` recording that the worker is still inside
    a nonce search. Its methods `PostingTransaction` and `MiningIteration` mirror
    the source statement by statement. `PostingTransaction`'s contract states
    the intake outright; `MiningIteration` is proved against `Iteration`.

Hashing and number formatting come from library code. They are parameters of
the model: `Primitives.digest` stands for the SHA-256 of the UTF-8 bytes,
followed by `BitConverter.ToUInt64` and decimal text. `Primitives.amountText`
stands for `float.ToString()`. How the server settles an accepted block into
balances is not visible to the miner, so it is the ledger's `settle` function.
The reserved bank block is the ledger's `genesis`.

The nonce search in the source never gives up. The model bounds it by `fuel`,
a number of hashes: an `Unsolved` outcome means "still searching after `fuel`
hashes". `SolveFuelMonotone` shows that a search which succeeds within some
fuel gives the same block with any larger fuel.

Where the code and its own doc comments disagree, the model follows the code:

- The doc comment at `MinerController.cs:37` says the thread runs until the
  queue is empty. But every catch block in `MinerController.cs:129-173`
  throws a new `HttpResponseException` out of the `while (true)` loop, so the
  first error ends the mining thread. The model stops the thread on a failed
  tip lookup (`NoTip`, and `Halts` in `Drain`).
- The doc comments say the hash must also end with `54321`. The loop tests
  only the prefix `12345` (`SuffixNotRequired`).

Notes on the code:

- The validation also checks "sender >= 0 and receiver >= 0". On `uint`
  fields these checks always hold. The model has only the amount check and the
  balance check.

## Model

| member | source | states |
|---|---|---|
| Models.BlockModel.constructor | MinerWebApp/Controllers/MinerController.cs:114 | A new block object has every field at its default: numbers 0 and both hash strings empty (see "Left out" on null strings). |
| Decimal.Show | MinerWebApp/Controllers/MinerController.cs:198 | The decimal text of an unsigned number is non-empty, all digits, and has a leading zero only for 0 itself. |
| Decimal.ValueOfShow | MinerWebApp/Controllers/MinerController.cs:198 | Reading back the decimal text of a number gives the number: the text is a faithful encoding of each field on its own. |
| Decimal.ShowInjective | MinerWebApp/Controllers/MinerController.cs:198 | Different numbers have different decimal texts. |
| ProofOfWork.Serialize | MinerWebApp/Controllers/MinerController.cs:198 | Definition, no contract: the text that is hashed, the decimal id, sender and receiver, the amount's text, the offset and the previous hash, concatenated without separators. |
| ProofOfWork.HasDifficultyPrefix | MinerWebApp/Controllers/MinerController.cs:192 | Definition, no contract: a hash text passes when it starts with 12345. |
| ProofOfWork.SerializationAmbiguous | MinerWebApp/Controllers/MinerController.cs:198 | The field concatenation has no separators, so two different blocks (ids 1 and 12, senders 23 and 3) serialize to the same text for every offset and therefore share every hash. |
| ProofOfWork.SolvesIgnoresStamp | MinerWebApp/Controllers/MinerController.cs:198 | The hashed text leaves out the block's own offset and hash fields, so two blocks that agree on the other five fields are solved by exactly the same offsets. |
| ProofOfWork.FirstSolution | MinerWebApp/Controllers/MinerController.cs:187-203 | Searching attempts after `done` for at most `fuel` more returns the first attempt whose hash starts with 12345, none before it in that range, or reports that no attempt in the range succeeds. |
| ProofOfWork.NoAttemptMeansNoSolution | MinerWebApp/Controllers/MinerController.cs:192-195 | Attempts step the offset by exactly 5 from 0, so when none of the first n − 1 attempts succeeds, no positive multiple of 5 below 5n has a valid hash. |
| ProofOfWork.Solve | MinerWebApp/Controllers/MinerController.cs:184-207 | A found block is sealed: its offset is a positive multiple of 5, its hash is the hash at that offset, and it starts with 12345. Its other fields are the draft's. It is the smallest solving offset, within 5·fuel. The search fails exactly when no candidate up to 5·fuel solves the draft. |
| ProofOfWork.FirstSolutionFuelMonotone | MinerWebApp/Controllers/MinerController.cs:192-203 | A successful bounded search gives the same attempt under any larger bound. |
| ProofOfWork.SolveFuelMonotone | MinerWebApp/Controllers/MinerController.cs:192-207 | The mined block does not depend on the fuel bound once the bound suffices. The bound only cuts off an unbounded loop and does not change its result. |
| ProofOfWork.SuffixNotRequired | MinerWebApp/Controllers/MinerController.cs:177-192 | With a digest that always yields "12345", the search accepts a block at offset 5 whose hash does not end with 54321: the documented suffix is not enforced. |
| ProofOfWork.NewHashGenerator | MinerWebApp/Controllers/MinerController.cs:184-215 | The in-place loop succeeds exactly when `Solve` does. It then writes `Solve`'s offset and hash into the block object, and otherwise leaves the object as it was. |
| LedgerClient.Ledger.constructor | MinerWebApp/Models/DataModel.cs:22-28 | A fresh ledger has an empty chain, the given balances, and no bootstrap request yet. |
| LedgerClient.Ledger.ReservedBankAcct | MinerWebApp/Models/DataModel.cs:34-53 | Requesting the reserved bank account puts the reserved block at the start of an empty chain. It leaves a non-empty chain and the balances as they were. |
| LedgerClient.Ledger.SubmitNewBlock | MinerWebApp/Models/DataModel.cs:59-80 | A submitted block is appended at the end of the chain, and the balances become the server's settlement of that block. |
| LedgerClient.Ledger.GetTransactedCurrCoinBalance | MinerWebApp/Models/DataModel.cs:86-110 | Returns the sender's balance, 0 when the ledger has no entry, and changes nothing. |
| LedgerClient.Ledger.GetBlockList | MinerWebApp/Models/DataModel.cs:116-140 | Returns the whole chain, oldest block first, and changes nothing. |
| Miner.Accepts | MinerWebApp/Controllers/MinerController.cs:95-103 | Definition, no contract: a transfer is accepted when its amount is positive and the sender's balance covers it. |
| Miner.Draft | MinerWebApp/Controllers/MinerController.cs:114-119 | Definition, no contract: the candidate block has the tip's id plus one, the tip's hash as previous hash, and the transfer's sender, receiver and amount. |
| Miner.Iteration | MinerWebApp/Controllers/MinerController.cs:86-127 | An empty queue changes nothing. Otherwise the oldest transfer leaves the queue and is handled: it is rejected exactly when its amount is not positive or exceeds the sender's balance, and it is stuck exactly when it is accepted on an empty chain. Only a submitted block changes the chain (appended) and the balances (settled), and it is submitted only for an accepted transfer on a non-empty chain. |
| Miner.IterationMinesOnTip | MinerWebApp/Controllers/MinerController.cs:109-122 | A submitted block extends the tip: id one more, previous hash = tip's hash. It carries the transfer's sender, receiver and amount, is sealed, and has the smallest solving offset. An unsolved search found no solving offset within the fuel. |
| Miner.ValidChainAppend | MinerWebApp/Controllers/MinerController.cs:109-124 | Appending a sealed block that extends the tip keeps every link of the chain valid. |
| Miner.IterationKeepsChainValid | MinerWebApp/Controllers/MinerController.cs:109-124 | If every block after the first is sealed and links to its predecessor, this still holds after an iteration. |
| Miner.Drain | MinerWebApp/Controllers/MinerController.cs:82-127 | Running the loop handles transfers first-in first-out, each exactly once: the i-th outcome is about the i-th queued transfer, and exactly the handled transfers have left the queue. |
| Miner.DrainStopsOnlyWhenWorkerStops | MinerWebApp/Controllers/MinerController.cs:82-175 | No outcome before the last one stops the worker. A run that leaves transfers in the queue ended with a stopped worker. |
| Miner.DrainKeepsTip | MinerWebApp/Controllers/MinerController.cs:109-111 | Once the chain is non-empty, the tip lookup never fails in any later iteration. |
| Miner.DrainAppendsSubmissions | MinerWebApp/Controllers/MinerController.cs:82-127 | The chain grows by exactly the blocks that were submitted, in submission order. |
| Miner.DrainKeepsChainValid | MinerWebApp/Controllers/MinerController.cs:82-127 | A valid chain stays valid however many iterations run. |
| Miner.SecondSpendRejected | MinerWebApp/Controllers/MinerController.cs:95-124 | The balance is read afresh in each iteration. When settling the first mined block debits its sender by its amount (as any debit-and-credit ledger does for a transfer between different accounts), the second of two transfers that are affordable apart but not together is rejected once the first has been mined. |
| Miner.MinerController.constructor | MinerWebApp/Controllers/MinerController.cs:27-28 | The controller starts not started and not searching, with an empty queue, whatever the ledger already holds. |
| Miner.MinerController.PostingTransaction | MinerWebApp/Controllers/MinerController.cs:41-68 | Each post appends the transfer to the end of the queue. Only the first post requests the reserved account, exactly once. Afterwards the worker is started and the chain is non-empty. Later posts leave the ledger unchanged. A post does not change whether the worker is searching. |
| Miner.MinerController.MiningIteration | MinerWebApp/Controllers/MinerController.cs:82-127 | One pass of the thread's loop has exactly the outcome and the new queue, chain and balances of `Iteration`. Once started, the tip lookup never fails, and the reserved account is never requested again. An `Unsolved` outcome leaves the worker searching, and no further iteration may run: the source thread is still inside `newHashGenerator`. |

## Left out

- HTTP routing and the parsing of the URL segments (`uint.Parse`, `float.Parse`, `MinerController.cs:62-64`) are not modelled. The model receives the parsed values, and parse failures are not modelled.
- Threads are not modelled. That covers the creation of the mining thread (`MinerController.cs:52-54`) and its concurrency with later posts on the shared static queue. It also covers the endless `while (true)` that polls an empty queue. The loop is modelled one iteration at a time (`Iteration`, `MiningIteration`), and up to an empty queue or a stopped worker (`Drain`).
- Logging through `LogHelper` has no effect on the state and is not modelled.
- Exceptions other than the one on an empty chain are not modelled. The thread ends on a null block list from a failed `GetBlockList`, on a JSON error, and on the other caught exceptions. The model assumes the ledger answers each request.
- The REST client is reduced to the calls' effects. A failed `ReservedBankAcct` or `SubmitNewBlock` request, which the source only logs, and a failed balance lookup, which returns 0, are treated as successful calls.
- The server's own checks on a submitted block and its bookkeeping are not part of this model. The ledger appends every submitted block and settles it with the given `settle` function.
- SHA-256, `BitConverter.ToUInt64` with its decimal text, and `float.ToString()` are library code. They are the two functions in `Primitives`, and their properties are not modelled.
- `float` arithmetic is not modelled. Amounts and balances are exact reals, so rounding in comparisons such as `coinBal >= amount` is not captured.
- `ProofOfWork.NewHashGenerator`: stops after `fuel` hashes, where the source loops until it finds a hash. `SolveFuelMonotone` relates the two.
- `ProofOfWork.NewHashGenerator`: the 32-bit wrap-around of the `uint` offset is not modelled, and offsets are unbounded. 4294967295 is a multiple of 5, so after 858,993,459 failed attempts the source's offset would wrap to 4, which is not a multiple of 5.
- `Miner.MinerController.MiningIteration`: the `uint` wrap-around of `blockId + 1` is not modelled, and block ids are unbounded.
- `Miner.MinerController.MiningIteration`: returns an `Outcome` recording what the iteration did. The source's thread returns nothing, and its block object is replaced by the one `newHashGenerator` returns. That is the same object, which the model updates in place.
- `TransactionGeneratorWpfApp` (the desktop client and its input checks) is not part of this model.
- `ModelStructure/Blocks.cs`, a static block list that the miner does not use, is not part of this model.
- `Models.BlockModel.constructor`: the C# string fields of a new `BlockModel` may be null rather than empty. They are modelled as "". The hashed text is the same either way, because string concatenation reads null as "".
- `LedgerClient.Ledger.ReservedBankAcct`: the server's handling of the request is not part of this model. The model assumes the server adds the reserved block only to an empty chain and does not change any balance.
- `TransactionModel` and `BlockModel`'s class files are not part of this model. Their fields are modelled from their uses in `MinerController.cs`.
