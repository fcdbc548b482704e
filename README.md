# Token-purchase poller: a Dafny model

This project models the core of a cron service. The service polls a Polygon
contract for `TokensBought` events and records each purchase once in a
project-token transaction registry. Its progress is kept in a checkpoint
file that holds the last block it scanned.

Two entry points are modelled:

- **The live polling cycle** (`newPollAndStoreMpTokensBoughtEvents`). It
  reads the checkpoint and picks a start block no more than 240 blocks
  behind the chain tip. It queries `[fromBlock, currentBlock]` in batches of
  at most 30 blocks. In each batch it skips events with no decoded
  arguments, with a hash that already has a row, or with an unknown project,
  and inserts one row for every other event. The checkpoint is rewritten
  after every batch, and any exception ends the cycle.
  - Module `Poll` holds the cycle as pure functions (`HandleEvent`,
    `HandleEvents`, `RunBatch`, `RunBatches`, `Cycle`, `Cycles`), plus the
    class `Poller`.
  - `Poller`'s methods run the same loops in place. Their postconditions tie
    the new state to `Cycle` of the old state.
  - Module `Checkpoint` covers the checkpoint text, read as JavaScript's
    `trim` and `parseInt(…, 10)` read it and written as `Number.toString`
    writes it.
  - Module `BlockRange` covers the start block and the batches.
- **The older registration path** (`findNonRegisteredHashes`,
  `registerBuyMpTransactionInDb`, `syncLocalEventsToDb`). It is in module
  `Registration`: pure functions `FindNonRegisteredHashes`, `Register`,
  `RegisterAll` and `Sync`, and the class `Registrar`, whose methods update
  the registry and the error file in place.

How the state is represented:

- **Registry table.** A sequence of rows, shared through module `Registry`.
  `Unique` means at most one row per transaction hash.
- **`Extends(before, after)`.** `after` is `before` plus rows that were each
  inserted while their hash had no row. Both paths are proved to only ever
  extend the registry this way. So a registry with unique hashes stays
  unique, across any number of cycles and overlapping rescans.
- **Chain.** The datatype `Chain` stands in for the chain. Its oracles are
  the height (absent when setup fails), the logs in a block range (absent
  when the request throws), and whether fetching a block throws.
- **Project table.** A read-only map from token address to project id.
- **Number conversions.** `parseFloat` and the clock in the registration
  path are parameters (`Env`).

Three behaviours of the code worth knowing:

- The live cycle never writes to an error sink. An event whose project is
  unknown is simply skipped, because the `logErrorToFile` call is commented
  out and `logErrorToFile` has an empty body. Only the older path writes the
  error file.
- A batch with no events writes its checkpoint and goes straight to the next
  batch. It skips the pause, so a cycle pauses at most once fewer than it
  queries, not exactly that many times.
- If the checkpoint is ahead of the chain height, the "nothing to scan"
  branch writes the lower height. The checkpoint then moves backwards, and
  the dedup check covers the rescan that follows.

## Model

| member | source | states |
|---|---|---|
| Types.ReceiptLink | src/cron/polling-mp-tokens-bought/new-polling-mp-tokens-bought-test.ts:165 | the receipt link is the polygonscan prefix followed by the hash, and the hash can be read back from it |
| Registry.Hashes | src/cron/polling-mp-tokens-bought/new-polling-mp-tokens-bought-test.ts:124-128 | the lookup by transaction hash finds a row exactly when some row carries that hash |
| Registry.ExtendsInsert | src/cron/polling-mp-tokens-bought/new-polling-mp-tokens-bought-test.ts:128-154 | inserting a row whose hash has no row keeps the registry an extension of where it started |
| Registry.ExtendsKeepsUnique | src/cron/polling-mp-tokens-bought/new-polling-mp-tokens-bought-test.ts:124-131 | if each inserted row's hash had no row when it was inserted, a registry with at most one row per hash keeps that property |
| Registry.ExtendsKeepsRegistered | src/cron/polling-mp-tokens-bought/new-polling-mp-tokens-bought-test.ts:124-131 | a hash that has a row keeps one under every extension, so a lookup by hash that once succeeds keeps succeeding |
| Checkpoint.LeadingDigits | src/cron/polling-mp-tokens-bought/new-polling-mp-tokens-bought-test.ts:42 | `parseInt` reads the longest run of digits: that run is a prefix, all digits, and is followed by a non-digit or the end of the text |
| Checkpoint.NatDigits | src/cron/polling-mp-tokens-bought/new-polling-mp-tokens-bought-test.ts:59 | the decimal text written for a block number is a non-empty run of digits with no leading zero, and its value is the number |
| Checkpoint.ReadCheckpoint | src/cron/polling-mp-tokens-bought/new-polling-mp-tokens-bought-test.ts:37-51 | a missing or unreadable file and blank content read as no checkpoint |
| Checkpoint.WriteThenRead | src/cron/polling-mp-tokens-bought/new-polling-mp-tokens-bought-test.ts:37-63 | saving block n and reading the file back gives n, negative numbers included |
| Checkpoint.NonNumericReadsNone | src/cron/polling-mp-tokens-bought/new-polling-mp-tokens-bought-test.ts:41-43 | non-blank text with no digit after the leading white space and an optional sign reads as no checkpoint |
| Checkpoint.ParseIntSkipsSpace | src/cron/polling-mp-tokens-bought/new-polling-mp-tokens-bought-test.ts:42 | `parseInt` ignores leading white space |
| Checkpoint.ParseSignedDigits | src/cron/polling-mp-tokens-bought/new-polling-mp-tokens-bought-test.ts:42 | an unsigned run of digits followed by text that is not a digit parses as the value of the digits |
| Checkpoint.TrailingTextIgnored | src/cron/polling-mp-tokens-bought/new-polling-mp-tokens-bought-test.ts:40-44 | for any white space, any non-empty run of digits and any text that does not start with a digit, the file reads as the value of the digits |
| Checkpoint.TrailingTextExample | src/cron/polling-mp-tokens-bought/new-polling-mp-tokens-bought-test.ts:40-44 | " 42abc" reads as 42 |
| Checkpoint.WordReadsNone | src/cron/polling-mp-tokens-bought/new-polling-mp-tokens-bought-test.ts:43 | "abc" reads as no checkpoint |
| BlockRange.StartBlock | src/cron/polling-mp-tokens-bought/new-polling-mp-tokens-bought-test.ts:85-90 | the start block is never more than 240 blocks behind the height; it is height − 240 with no checkpoint or a gap over 240, and the block after the checkpoint otherwise |
| BlockRange.StartWithoutCheckpoint | src/cron/polling-mp-tokens-bought/new-polling-mp-tokens-bought-test.ts:85-87 | with no checkpoint at height 10000 the scan starts at 9760 |
| BlockRange.BatchesPartition | src/cron/polling-mp-tokens-bought/new-polling-mp-tokens-bought-test.ts:100-101 | the batches of [from, current] number (current − from) / 30 + 1; the k-th starts at from + 30k and holds 1 to 30 blocks; each starts right after the previous one ends; the last ends at current, and only the last one does |
| BlockRange.BatchesCover | src/cron/polling-mp-tokens-bought/new-polling-mp-tokens-bought-test.ts:100-101 | every block of [from, current] lies in batch (b − from) / 30 and in no other batch |
| BlockRange.BatchesWithin | src/cron/polling-mp-tokens-bought/new-polling-mp-tokens-bought-test.ts:100-101 | no batch reaches outside [from, current] |
| BlockRange.BatchesExample | src/cron/polling-mp-tokens-bought/new-polling-mp-tokens-bought-test.ts:100-101 | checkpoint 100 at height 205 gives the batches 101–130, 131–160, 161–190, 191–205 |
| Poll.FromUnits | src/cron/polling-mp-tokens-bought/new-polling-mp-tokens-bought-test.ts:148-150 | a fixed-point value with 6 decimals is decoded to the real number that, scaled back by 10^6, gives the integer |
| Poll.DecodeExample | src/cron/polling-mp-tokens-bought/new-polling-mp-tokens-bought-test.ts:148 | 1500000 with 6 decimals decodes to 1.5 |
| Poll.SkippedEventChangesNothing | src/cron/polling-mp-tokens-bought/new-polling-mp-tokens-bought-test.ts:119-145 | an event with no arguments, with a registered hash or with an unknown project leaves the registry unchanged and does not throw |
| Poll.InsertedRecord | src/cron/polling-mp-tokens-bought/new-polling-mp-tokens-bought-test.ts:154-173 | any other event appends exactly one row: APPROVED, BUY_PROJECT_TOKEN, PRIMARY, the receipt link for its hash, the project's id, its buyer and decoded cost; the event throws exactly when its block lookup fails |
| Poll.HandleEventsExtends | src/cron/polling-mp-tokens-bought/new-polling-mp-tokens-bought-test.ts:118-185 | within one batch a row is added only for a hash with no row yet, including a hash repeated in the batch |
| Poll.HandleEventRegisters | src/cron/polling-mp-tokens-bought/new-polling-mp-tokens-bought-test.ts:119-173 | an event with arguments and a known project has a row after it is handled, whether or not fetching its block throws, and handling it only extends the registry |
| Poll.HandleEventsRegisters | src/cron/polling-mp-tokens-bought/new-polling-mp-tokens-bought-test.ts:118-185 | after a batch that did not throw, every event with arguments and a known project has a row: inserted now, or already there |
| Poll.RunBatchFacts | src/cron/polling-mp-tokens-bought/new-polling-mp-tokens-bought-test.ts:100-191 | one batch issues exactly its own request; it pauses at most once, and only when blocks remain; it writes the checkpoint to its last block unless it threw, and otherwise leaves the checkpoint alone; it only extends the registry |
| Poll.RunBatchPauses | src/cron/polling-mp-tokens-bought/new-polling-mp-tokens-bought-test.ts:110-191 | a batch pauses once exactly when its answer was not empty, nothing threw and blocks remain, and otherwise not at all |
| Poll.RunBatchesExtends | src/cron/polling-mp-tokens-bought/new-polling-mp-tokens-bought-test.ts:100-192 | the batch loop only extends the registry |
| Poll.RunBatchesQueries | src/cron/polling-mp-tokens-bought/new-polling-mp-tokens-bought-test.ts:100-108 | the batch loop requests the first n batches in order; all of them when it finishes; the failing batch last when it throws |
| Poll.RunBatchesPauses | src/cron/polling-mp-tokens-bought/new-polling-mp-tokens-bought-test.ts:189-191 | the batch loop pauses at most once fewer than it sends requests |
| Poll.RunBatchesFinish | src/cron/polling-mp-tokens-bought/new-polling-mp-tokens-bought-test.ts:187 | a batch loop that finishes leaves the checkpoint text of the height |
| Poll.RunBatchesAbort | src/cron/polling-mp-tokens-bought/new-polling-mp-tokens-bought-test.ts:187-202 | a loop that throws in batch n leaves the checkpoint written for batch n − 1, or the one it started with when n is 1 |
| Poll.RunBatchRegisters | src/cron/polling-mp-tokens-bought/new-polling-mp-tokens-bought-test.ts:104-185 | a batch that did not throw leaves a row for every event of its answer that has arguments and a known project |
| Poll.RunBatchesRegisters | src/cron/polling-mp-tokens-bought/new-polling-mp-tokens-bought-test.ts:100-192 | a batch loop that finishes leaves a row for every event with arguments and a known project in every batch of its range |
| Poll.CycleExtends | src/cron/polling-mp-tokens-bought/new-polling-mp-tokens-bought-test.ts:75-203 | a cycle, whatever its outcome, only extends the registry |
| Poll.CyclesKeepUnique | src/cron/polling-mp-tokens-bought/new-polling-mp-tokens-bought-test.ts:124-131 | over any sequence of cycles, overlapping rescans included, the registry is only extended, and it keeps at most one row per hash if it started that way |
| Poll.CycleEndsAtCurrent | src/cron/polling-mp-tokens-bought/new-polling-mp-tokens-bought-test.ts:92-192 | a cycle that completes, or finds nothing to scan, leaves a checkpoint that reads back as the height |
| Poll.CycleSetupFailed | src/cron/polling-mp-tokens-bought/new-polling-mp-tokens-bought-test.ts:76-81 | a cycle ends in setup failure exactly when no height could be read, and then leaves checkpoint, registry, requests and pauses unchanged |
| Poll.CycleNothingToScan | src/cron/polling-mp-tokens-bought/new-polling-mp-tokens-bought-test.ts:92-96 | a cycle finds nothing to scan exactly when the start block is past the height; it then queries nothing, adds no row and only writes the height to the checkpoint |
| Poll.CycleScansAllBatches | src/cron/polling-mp-tokens-bought/new-polling-mp-tokens-bought-test.ts:98-192 | a completed cycle requested exactly the batches of [from, current], in order, and paused at most once fewer |
| Poll.CycleRegistersAll | src/cron/polling-mp-tokens-bought/new-polling-mp-tokens-bought-test.ts:98-192 | a completed cycle leaves a row for every event with arguments and a known project in every batch of [from, current] |
| Poll.CycleAbortKeepsCheckpoint | src/cron/polling-mp-tokens-bought/new-polling-mp-tokens-bought-test.ts:194-202 | a cycle that threw requested a prefix of its batches ending with the failing one, and keeps the checkpoints written before it |
| Poll.CycleRepeatChangesNothing | src/cron/polling-mp-tokens-bought/new-polling-mp-tokens-bought-test.ts:82-96 | after a cycle has caught up with a height, a second cycle at the same height scans nothing and changes nothing |
| Poll.CycleSummary | src/cron/polling-mp-tokens-bought/new-polling-mp-tokens-bought-test.ts:75-203 | every cycle only extends the registry and keeps hashes unique, and a cycle that was not cut short ends at the height |
| Poll.Poller.ReadLastPolledBlock | src/cron/polling-mp-tokens-bought/new-polling-mp-tokens-bought-test.ts:37-51 | returns what the checkpoint file's content reads as, and no checkpoint when the file is missing |
| Poll.Poller.SaveLastPolledBlock | src/cron/polling-mp-tokens-bought/new-polling-mp-tokens-bought-test.ts:53-63 | writes only the checkpoint file, with the block's decimal text (which `Checkpoint.WriteThenRead` shows reads back as the block) |
| Poll.Poller.HandleBatchEvents | src/cron/polling-mp-tokens-bought/new-polling-mp-tokens-bought-test.ts:118-185 | the event loop changes only the registry, to what `HandleEvents` gives, and only extends it |
| Poll.Poller.ScanBatch | src/cron/polling-mp-tokens-bought/new-polling-mp-tokens-bought-test.ts:101-191 | one iteration of the batch loop records the query and changes the state exactly as `RunBatch` does |
| Poll.Poller.StoreBatchEvents | src/cron/polling-mp-tokens-bought/new-polling-mp-tokens-bought-test.ts:110-191 | a batch that got an answer writes the checkpoint at once when it is empty, and otherwise handles its events and then writes the checkpoint and pauses, exactly as `StoreBatch` does |
| Poll.Poller.FinishBatchEvents | src/cron/polling-mp-tokens-bought/new-polling-mp-tokens-bought-test.ts:187-191 | after the events: the checkpoint becomes the window's end and a pause is counted unless the window ends at the height |
| Poll.Poller.ScanBatches | src/cron/polling-mp-tokens-bought/new-polling-mp-tokens-bought-test.ts:100-192 | the `for` loop over the batches ends in the state and with the failing window that `RunBatches` gives |
| Poll.Poller.RunCycle | src/cron/polling-mp-tokens-bought/new-polling-mp-tokens-bought-test.ts:75-203 | the body of a cycle: setup, start block, the nothing-to-scan case and the batch loop, exactly as `Cycle` |
| Poll.Poller.PollAndStoreTokensBoughtEvents | src/cron/polling-mp-tokens-bought/new-polling-mp-tokens-bought-test.ts:75-203 | the whole cycle changes the state and reports its outcome exactly as `Cycle` does; it only extends the registry, keeps hashes unique, and leaves the height as checkpoint unless cut short |
| Registration.FindNonRegisteredHashes | src/cron/polling-mp-tokens-bought/dataHandlingServices.ts:56-60 | an empty list of hashes gives an empty list, whatever the registry holds |
| Registration.FindNonRegisteredIsFilter | src/cron/polling-mp-tokens-bought/dataHandlingServices.ts:62-74 | asking the registry only about the given hashes filters exactly as checking each hash against the whole registry would |
| Registration.FindNonRegisteredCount | src/cron/polling-mp-tokens-bought/dataHandlingServices.ts:73-74 | a hash is returned exactly when it was given and has no row; it is returned as many times as it was given, and a registered one never |
| Registration.FindNonRegisteredKeepsOrder | src/cron/polling-mp-tokens-bought/dataHandlingServices.ts:74 | filtering a concatenation gives the concatenation of the filtered parts, so input order is kept |
| Registration.RegisterInvalidNumber | src/cron/polling-mp-tokens-bought/dataHandlingServices.ts:92-98 | when the amount or the price is not a number, registration throws and changes neither the registry nor the error file |
| Registration.RegisterAlreadyRegistered | src/cron/polling-mp-tokens-bought/dataHandlingServices.ts:100-106 | a hash that has a row gives null and changes nothing |
| Registration.RegisterProjectNotFound | src/cron/polling-mp-tokens-bought/dataHandlingServices.ts:108-129 | an unknown project adds no row; the error file becomes the earlier list plus one entry (a list of one entry when the file was missing or unreadable) and null is returned; it throws, changing nothing, when the file held something other than a list |
| Registration.RegisterSuccess | src/cron/polling-mp-tokens-bought/dataHandlingServices.ts:131-154 | otherwise exactly one row is appended and returned: APPROVED, BUY_PROJECT_TOKEN, PRIMARY, the receipt link, the project's id, the parsed amount and price, their product, the fee as given and null secondary-market fields; the error file is untouched |
| Registration.RegisterExtends | src/cron/polling-mp-tokens-bought/dataHandlingServices.ts:100-154 | registration only extends the registry |
| Registration.RegisterRegistry | src/cron/polling-mp-tokens-bought/dataHandlingServices.ts:92-154 | registration appends the row built from its parameters exactly when amount and price parse, the hash has no row and the project is known, and otherwise leaves the registry as it was; a registration that throws changes nothing |
| Registration.IndexByHashKeys | src/cron/polling-mp-tokens-bought/dataHandlingServices.ts:180-184 | the map from hash to entry holds exactly the hashes of the local file, so every hash to register is found |
| Registration.IndexByHashPicksLast | src/cron/polling-mp-tokens-bought/dataHandlingServices.ts:180 | a hash maps to the last local entry that carries it |
| Registration.IndexByHashHash | src/cron/polling-mp-tokens-bought/dataHandlingServices.ts:180 | every entry of the map from hash to entry carries the hash it is filed under |
| Registration.RegisterAllExtends | src/cron/polling-mp-tokens-bought/dataHandlingServices.ts:182-194 | the registration loop only extends the registry, also when it stops at a throw |
| Registration.RegisterAllStopsAtThrow | src/cron/polling-mp-tokens-bought/dataHandlingServices.ts:182-194 | a loop that throws does so at some hash k: the hashes before it were registered without a throw, registration k threw and changed nothing, and the later hashes were not tried |
| Registration.RegisterAllStores | src/cron/polling-mp-tokens-bought/dataHandlingServices.ts:182-194 | a loop that does not throw leaves, for every hash that had no row and whose entry parses and names a known project, the row built from that entry |
| Registration.SyncKeepsUnique | src/cron/polling-mp-tokens-bought/dataHandlingServices.ts:162-200 | a sync only extends the registry; duplicate hashes in the local file still give at most one row per hash |
| Registration.SyncStopsAtThrow | src/cron/polling-mp-tokens-bought/dataHandlingServices.ts:182-199 | a failed sync stopped at one hash to register: the rows for the hashes before it stay, its own registration threw and changed nothing, and the hashes after it were not tried |
| Registration.SyncStoresAll | src/cron/polling-mp-tokens-bought/dataHandlingServices.ts:171-194 | a finished sync leaves, for every local hash that had no row and whose last entry in the file parses and names a known project, the row built from that last entry |
| Registration.SyncNothingNew | src/cron/polling-mp-tokens-bought/dataHandlingServices.ts:165-177 | with no local events, or all of them registered, a sync changes nothing |
| Registration.Registrar.RegisterBuyMpTransactionInDb | src/cron/polling-mp-tokens-bought/dataHandlingServices.ts:81-160 | changes the registry and error file and returns exactly as `Register` does, and only extends the registry |
| Registration.Registrar.RegisterHashes | src/cron/polling-mp-tokens-bought/dataHandlingServices.ts:182-194 | the loop over the hashes to register changes the state and reports a throw exactly as `RegisterAll` does |
| Registration.Registrar.SyncLocalEventsToDb | src/cron/polling-mp-tokens-bought/dataHandlingServices.ts:162-200 | changes the state exactly as `Sync` does (a throw stops the loop and is reported, not propagated), only extends the registry and keeps hashes unique |

## Left out

- Scheduler guard (src/services/cronJobMpTokensBought-service.ts): its only job is to stop node-cron callbacks from overlapping. That is about concurrency, which the model does not cover.
- Chain access: the provider, the contract and the ABI file become the oracles of `Chain`. Any failure in setup or in `getBlockNumber` is one "no height" answer. Only whether `getBlock` throws is kept, because its timestamp goes to an empty stub.
- Database client: `findFirst`, `findMany` and `create` become a lookup in, and an append to, a sequence of rows. Database exceptions are not modelled. The project table is a map, so several projects with the same token address are not modelled.
- Floating point: `parseFloat` in the registration path is a parameter, and `Float` has no infinities, so in that path `parseFloat` can never give ±Infinity (the NaN that `Infinity * 0` yields, and the throw it causes, are not modelled). The poll path decodes `formatUnits(v, 6)` to an exact real, so rounding to double precision and the infinities are not modelled there either.
- Files:
  - Writes to the checkpoint file and the error file always succeed. The failure branch of `saveLastPolledBlock`, which only logs, is not modelled.
  - A checkpoint file that cannot be read counts the same as a missing one.
  - Reading and parsing the local events file (`getEventsFromLocalJson`) is not modelled: the sync takes its entries as a sequence.
- `parseInt` above 2^53 and `toString` in exponent form (from 10^21) are not modelled.
- Time: one `now` time stamp in `Env` serves every error entry of a sync. `Date.now()` and the fallback block timestamp are not modelled. `sleep(REQUEST_DELAY_MS)` is modelled as a count of pauses, not as time.
- Empty stubs: `appendEventToJson` and `logErrorToFile` have empty bodies, so they change nothing in the model. Console logging is left out.
- Poll.RunBatchesPauses: states only an upper bound (one fewer pause than requests). The exact count depends on which batches came back empty, because empty batches skip the pause; `Poll.RunBatchPauses` states the exact condition for one batch.
- Plumbing: the Express server and its routes, CORS, environment validation, configuration constants and the pm2 configuration.
