# Private-transaction reader, modelled in Dafny

This project models the block reader of the private-identity API (`src/reader.js`). The reader polls a
permissioned ledger node for its chain height. It then walks every block from its cursor up to that height,
and each block's transactions in order. A transaction counts as private when its signature recovery value
`v` is 37 or 38. For each private transaction the reader resolves the contract it concerns: its `to`
address, or the `contractAddress` of its receipt. It reads an identity from that contract in one of two
ways:
- the `FlightPass` schema calls `getName` and `getVectors`;
- any other schema calls `get()` and parses the result as JSON.

The reader stamps the identity with `createdAt` and upserts it into an in-memory identity collection keyed
by contract address, whose records expire after a time-to-live. It upserts the transaction, annotated with
the contract address, into a transaction collection keyed by hash. Any failure along the way skips that one
transaction.

Modules, leaves first:
- `Options`, `JsonValues`: optional values, and the values `JSON.parse` yields with JavaScript truthiness.
  `JSON.parse` itself is an oracle: a map from every text that parses to its value.
- `Ledger`: the node's answers as data. These are the height, blocks, transactions, receipts, and the
  results of the three contract methods at each address.
- `Decode`: the private-marker test, address resolution, the two decoding strategies and their dispatch,
  and the identity schema.
- `Store`: identity and transaction records, upsert, and the time-to-live filter behind find and count.
- `Pipeline`: specification functions.
  - `ProcessTx` gives the outcome of one transaction.
  - `BlockEffect` applies a block's outcomes in index order.
  - `Drain` moves the cursor up to the height.
  - `Cycle` is one polling cycle.
  - Lemmas cover last-write-wins per key, untouched keys, and the time-to-live.
- `Reader`: the class `Reader`. Its fields are the cursor `actualBlock` and the two collections. Its methods
  `ParseBlock` and `ProcessTransactions` are `while` loops proved equal to `BlockEffect` and `Drain`.
- `Scenarios`: concrete cycles over small chains.

Behaviour as the code has it, which a reader might not expect:
- The walk over a block stops at the first index that holds no hash: past the end, or an empty string
  (`if (txTarget)`, `src/reader.js:45`). This is `Pipeline.BlockEnd`.
- The schema check never skips a transaction. `SCHEMA.validate` returns a result object, which is always
  truthy, so `if (!isValid)` never fires. `Decode.SchemaValid` states the schema, `Decode.TwoCallSchema`
  says when a two-call identity meets it, and `Scenarios.SchemaDoesNotGate` shows an identity that fails the
  schema and is stored all the same.
- A contract-creation transaction whose receipt is null throws rather than skips; see Findings. The
  pipeline uses the corrected behaviour (skip).
- Transaction records are upserted but carry no time-to-live. Identities do: the code passes
  `IDENTITY_TIMEOUT` (in seconds, default 172800) to the store as `expireAfterSeconds` on `createdAt`
  (`src/reader.js:278`). Times in the model are in milliseconds.

## Model

| member | source | states |
|---|---|---|
| `Decode.StrategyFor` | src/reader.js:105 | the two-call strategy is chosen exactly when the configured schema name is `FlightPass`; every other name gives the single-call strategy |
| `Decode.IsPrivate` | src/reader.js:56 | a transaction is private exactly when its `v` is present and is 37 or 38; a missing `v` or any other value is public |
| `Decode.ResolveAddress` | src/reader.js:65-90 | the contract is `tx.to` when it is truthy; otherwise the receipt's contractAddress; a receipt fetch that throws, or a null receipt, skips the transaction |
| `Decode.ResolveAddressAsWritten` | src/reader.js:78-85 | as written, resolution throws exactly for a contract creation whose receipt is null |
| `Decode.NullReceiptThrowsAsWritten` | src/reader.js:78-85 | for a contract creation whose receipt is null (absent or explicitly null), the code as written throws where the corrected resolution skips |
| `Decode.AsWrittenAgreesOtherwise` | src/reader.js:66-90 | outside the null-receipt case, the code as written and the corrected resolution give the same address or the same skip |
| `Decode.DecodeTwoCall` | src/reader.js:105-163 | a getName failure or empty name skips; a getVectors failure skips; an empty vectors result gives `biometrics = []`; an unparseable one skips; success gives exactly the fields name, biometrics and version "1" |
| `Decode.DecodeSingleCall` | src/reader.js:165-195 | a get() failure skips; an unparseable result skips; otherwise the payload is the parsed value |
| `Decode.DecodeIdentity` | src/reader.js:105-195 | decoding uses the two-call strategy for `TwoCall` and the single-call strategy otherwise |
| `Decode.SchemaValid` | src/reader.js:30-35 | a candidate meets the schema only if it is an object with no key outside name, biometrics, version and createdAt, with a non-empty string name and a non-empty string version, and with biometrics an array when present |
| `Decode.TwoCallSchema` | src/reader.js:30-35 | a two-call identity meets the schema (no unknown key, non-empty version and name, array biometrics) exactly when its biometrics are an array |
| `Store.Upsert` | src/reader.js:217-227 | an upsert leaves the record under its key and every other key as it was; the key set gains at most that key |
| `Store.VisibleIdentities` | src/reader.js:275-282 | a find returns exactly the stored identities still inside their time-to-live, unchanged |
| `Store.VisibleOnlyShrinks` | src/reader.js:278-282 | without writes, a later find sees a subset of what an earlier one saw, and the count does not grow |
| `Store.CountBoundedByStore` | src/reader.js:299-305 | the identity count never exceeds the number of stored identities |
| `Pipeline.Stamp` | src/reader.js:202-214 | the stored identity has createdAt = now and _id = the contract address; the other fields of an object payload are kept as decoded |
| `Pipeline.ProcessTx` | src/reader.js:43-214 | a transaction yields records if and only if it is fetched, private, resolved, decoded and its payload is truthy; a fetch failure or a `v` other than 37/38 skips; the stored identity is exactly the decoded payload stamped with the resolved address and the stamp time; the record carries the fetched transaction and the same address |
| `Pipeline.Apply` | src/reader.js:214-237 | a skipped transaction changes nothing; an ingested one puts the identity under its address if the identity update is accepted, and independently puts the record under its hash if the transaction update is accepted; no other key changes and none is removed |
| `Pipeline.ApplyAll` | src/reader.js:214-237 | applying outcomes in order keeps every record under its own key and never removes a key |
| `Pipeline.LastIdentityWriteWins` | src/reader.js:214-224 | after a run of outcomes, an address holds exactly the identity of the last outcome that wrote it |
| `Pipeline.UnwrittenIdentityUnchanged` | src/reader.js:217 | an address no outcome wrote keeps its identity, or stays absent |
| `Pipeline.LastTxWriteWins` | src/reader.js:226-236 | after a run of outcomes, a hash holds exactly the record of the last outcome that wrote it |
| `Pipeline.UnwrittenTxUnchanged` | src/reader.js:227 | a hash no outcome wrote keeps its record, or stays absent |
| `Pipeline.RefusedIdentityKeepsTxWrite` | src/reader.js:217-237 | a failed identity update leaves the identities as they were, and the transaction update still happens |
| `Pipeline.IngestRestartsTimeToLive` | src/reader.js:202 | a re-ingested identity is visible for the full time-to-live from its new createdAt, whatever record it replaced |
| `Pipeline.BlockEnd` | src/reader.js:44-45 | the walk over a block stops at the first index past the end or holding an empty hash; every earlier index holds a hash |
| `Pipeline.Outcomes` | src/reader.js:43-53 | a block's walk yields exactly one outcome per index 0..end-1, the one at position j being the processing of index j |
| `Pipeline.BlockEffect` | src/reader.js:43-243 | walking a block whose first hash is empty changes nothing; a walk keeps every record under its own key and never removes a key |
| `Pipeline.BlockIdentityIsLastWrite` | src/reader.js:43-237 | within a block, an address holds the identity of the last index that wrote it, stamped at that index's time |
| `Pipeline.BlockTxIsLastWrite` | src/reader.js:226-236 | within a block, a hash holds the record of the last index that wrote it |
| `Pipeline.BlockLeavesOtherIdentities` | src/reader.js:214-224 | a block that writes no identity under an address leaves that address as it was |
| `Pipeline.BlockLeavesOtherTxs` | src/reader.js:226-236 | a block that writes no record under a hash leaves that hash as it was |
| `Pipeline.ScanEffect` | src/reader.js:245-257 | a block that cannot be fetched, or whose walk is empty, changes nothing; a scan keeps every record under its own key and never removes a key |
| `Pipeline.Drain` | src/reader.js:260-270 | draining from cursor A to height H ends with cursor H+1 when A <= H, changes nothing when A > H, and keeps records under their keys without removing any |
| `Pipeline.ApplyAllConcat` | src/reader.js:260-270 | applying one run of outcomes after another is the same as applying their concatenation |
| `Pipeline.DrainAppliesAllOutcomes` | src/reader.js:245-270 | a drain leaves the collections equal to applying, in order, the outcomes of every fetched block from the cursor to the height |
| `Pipeline.DrainIdentityIsLastWrite` | src/reader.js:214-224 | after a drain over several blocks, an address holds the identity of the last transaction, in block and index order, that wrote it |
| `Pipeline.DrainLeavesOtherIdentities` | src/reader.js:214-224 | after a drain, an address that no transaction wrote keeps its identity, or stays absent |
| `Pipeline.DrainTxIsLastWrite` | src/reader.js:226-236 | after a drain over several blocks, a hash holds the record of the last transaction that wrote it |
| `Pipeline.DrainLeavesOtherTxs` | src/reader.js:226-236 | after a drain, a hash that no transaction wrote keeps its record, or stays absent |
| `Pipeline.Cycle` | src/reader.js:307-319 | a failed height fetch, or a cursor past the height, changes nothing; otherwise the cursor ends at height+1 |
| `Reader.Reader.constructor` | src/reader.js:19-38 | a new reader has the strategy its schema name selects, the configured cursor and time-to-live, and empty collections |
| `Reader.Reader.ParseBlock` | src/reader.js:43-243 | the loop over a block's indices leaves the collections equal to `BlockEffect` of the old ones, and does not move the cursor |
| `Reader.Reader.StoreOutcome` | src/reader.js:214-237 | the two upserts leave the collections equal to `Apply` of the old ones: the identity under its address if accepted, the transaction under its hash if accepted, independently |
| `Reader.Reader.ScanBlock` | src/reader.js:245-257 | a block that cannot be fetched changes nothing; a fetched one is walked |
| `Reader.Reader.ProcessTransactions` | src/reader.js:260-270 | the loop over blocks leaves cursor and collections equal to `Drain` of the old state, and the collections equal to applying every fetched block's outcomes in order; the cursor ends at height+1 when it started at or below the height |
| `Reader.Reader.Start` | src/reader.js:307-319 | one cycle leaves the state equal to `Cycle` of the old state |
| `Reader.Reader.FindIdentities` | src/routes/identity.js:16-25 | a find returns exactly the stored identities with `now < createdAt + timeout * 1000` |
| `Reader.Reader.CountIdentities` | src/reader.js:299-305 | the count is the number of visible identities, at most the number stored |
| `Scenarios.OneCycleStoresAlice` | src/reader.js:43-270 | one cycle over a block with one private two-call transaction stores that identity and transaction, and moves the cursor past the block |
| `Scenarios.SchemaDoesNotGate` | src/reader.js:204-212 | a payload that fails the schema is stored all the same |

## Findings

| source | as written | input that shows it | evidently intended | confidence | as-written member | corrected member |
|---|---|---|---|---|---|---|
| src/reader.js:78-85 | the null-receipt branch passes `err` to its log call, but `err` is bound only inside the preceding catch clause, so evaluating it throws a ReferenceError; `parseBlock` rejects, the completion callback never runs, and the cursor stays at that block | a private contract-creation transaction (no `to`) whose `getTransactionReceipt` resolves to null | log and skip to the next transaction, as the `return parseBlock(i, b, cb)` after the log call does | high; not executed | `Decode.ResolveAddressAsWritten` (shown by `Decode.NullReceiptThrowsAsWritten`) | `Decode.ResolveAddress` (used by `Pipeline.ProcessTx`; null receipt gives `Skipped(NoReceipt)`) |

## Left out

- Null blocks and transactions: when `getBlock` or `getTransaction` resolves to null, the source dereferences null. The model requires that the node knows every block up to the height and every transaction those blocks list (`Pipeline.Serves`, `Pipeline.BlockServed`).
- The ledger client, ABI loading, contract construction and the caller address for private calls are replaced by the data in `Ledger.Chain`.
- `JSON.parse` and Joi are not modelled internally. `JSON.parse` is a map oracle. The Joi schema is restated as `Decode.SchemaValid`, without Joi's type conversions or its date validation (createdAt is always a fresh date).
- Timestamps come from `Pipeline.Env.clock`, indexed by block number and transaction index.
- Failed store updates come from the `acceptsIdentity` and `acceptsTx` oracles; why the store refuses a document is not modelled.
- `Store.VisibleIdentities`: a record counts as expired from the instant `now == createdAt + ttl * 1000`. The store library drops it only once `now > createdAt + ttl * 1000`, so at that one millisecond the library still returns a record the model hides. The store library's expiry code is not part of this model.
- `Reader.Reader.FindIdentities`: at `now == createdAt + ttl * 1000` it leaves out a record the store library would still return; see the `Store.VisibleIdentities` line above.
- `Reader.Reader.CountIdentities`: at `now == createdAt + ttl * 1000` it does not count a record the store library would still count; see the `Store.VisibleIdentities` line above.
- `Pipeline.IngestRestartsTimeToLive`: the visibility it proves ends one millisecond before the store library's, at `now == createdAt + ttl * 1000`; see the `Store.VisibleIdentities` line above.
- `Pipeline.LastTxWriteWins`: the model keys transaction records by hash. At `src/reader.js:227` the update document is the transaction itself, which has no `_id` field. When the query `{_id: tx.hash}` matches nothing, the store library inserts that document under a generated `_id`, so the query never matches a stored transaction. A second ingestion of the same hash then adds a second document instead of replacing the first. This needs a repeated hash or a block scanned twice: after the null-receipt throw (see Findings), or when cycles overlap. Identities are not affected, because `_id` is set at `src/reader.js:214` before their update. The store library is not part of this model.
- `Pipeline.BlockTxIsLastWrite`: keys transaction records by hash; see the line above.
- `Pipeline.DrainTxIsLastWrite`: keys transaction records by hash; see the `Pipeline.LastTxWriteWins` line above.
- `Pipeline.Stamp`: stamps every payload with `createdAt` and `_id`, including a truthy primitive such as the `get()` result `"42"` or `"true"`. JavaScript ignores property assignment on a primitive (a number, a non-empty string, `true`), so for one the source sets neither. An array does get both properties, since it is an object. How the store library stores a primitive or an array is not modelled.
- `Pipeline.ProcessTx`: for a truthy payload that is not an object, the identity it yields carries the stamped `createdAt` and the address, where the source's document has neither; see the `Pipeline.Stamp` line above.
- Only the `hash`, `from`, `to`, `input` and `v` fields of a transaction are modelled. A receipt whose `contractAddress` is null is not modelled.
- JSON numbers are reals; floating-point rounding is not modelled.
- Logging, and the reading of environment variables (including `parseInt` yielding NaN), are not modelled.
- The identity count logged at the start of each cycle is modelled only as `Reader.Reader.CountIdentities`.
- Loading of the face-recognition models is a foreign library with floating-point numerics.
- Timer rescheduling in `start` is not modelled. Nor are cycles that overlap because `processTransactions` is not awaited; the model runs one cycle at a time.
- The HTTP routes (`src/routes/identity.js`, `src/routes/cors.js`) and the server bootstrap (`server.js`) are not modelled, except that find and count on the identity collection are `FindIdentities` and `CountIdentities`.
- The biometrics route's `find({biometrics})` is a plain equality filter of the store library. It is not modelled.
- No nearest-neighbour matcher and no cascading deletion exist in these source files, so neither is modelled.
