# AppSync data-access layer, modelled in Dafny

This project models the `AppSync` helper class of a small serverless API
(`model/appSync.js`). The class is the only part of the service with real
logic. It has three sequential algorithms that talk to a managed backend:

- **scan** runs one GraphQL list query again and again. Each call sends the
  caller's variables plus `limit` (default `SCAN_LIMIT_COUNT` = 1000) and the
  previous page's `nextToken`. It stops after the first page whose token is
  `null`. It returns that last response with the root field's `items`
  replaced by the items of every page, in order.
- **batchWrite** builds the physical table name
  `tableName-<GRAPHQL_API_ENDPOINT>-<ENV>`. It cuts the items into consecutive
  groups of at most 25 `PutRequest`s and issues one write per group, in order.
- **batchGet** builds the same table name. It uses a copy of the key list as a
  first-in first-out queue. Each round sends up to 100 keys from the front,
  appends the resolved records, and puts the keys the store reports as
  unprocessed at the back. It returns when the queue is empty.

Both batch operations raise a configuration error before any backend call
when `GRAPHQL_API_ENDPOINT` is unset.

## How the backend is modelled

The backend is not called. It is a finite **trace of replies**: call `i` is
answered by `replies[i]`. A reply is a page or response, or a rejected call
(`Fault`, `WriteFault`, `GetFault`). Each loop is a recursive function that
consumes one reply per call. It returns `Run(calls, outcome)`:

- `calls` lists the answered calls, in the order they were issued;
- `Done(v)` means the loop finished with result `v`;
- `Failed(e)` means an error stopped it: a rejected call (propagated
  unchanged, with no later call), a response with no root field, or missing
  configuration;
- `Pending` means the loop still wanted another reply when the trace ran out.

Neither the scan loop nor the batch-get loop is guaranteed to end in the
source. The trace makes both total. Termination of batch-get is then proved
under an explicit assumption: every round reports fewer unprocessed keys than
it was sent (`Reads.BatchGetFinishes`). For scan, `Pagination.ScanStopsAtFirstNullToken`
proves it finishes exactly at the first page with a null token.

Modules: `Common` (shared types), `Config` (environment and table name),
`Chunking` (groups of bounded size), `Pagination` (scan), `Writes`
(batchWrite), `Reads` (batchGet).

## Model

| member | source | states |
|---|---|---|
| `Config.PhysicalTableName` | model/appSync.js:77-80 | Fails with a configuration error exactly when the endpoint is unset or empty. Otherwise the name starts with the logical table name, and stripping the "-endpoint-ENV" suffix gives that name back. |
| `Config.PhysicalTableNameInjective` | model/appSync.js:80 | Under one configuration, two logical tables never map to the same physical table. |
| `Chunking.Chunks` | model/appSync.js:83-96 | Every group is non-empty and holds at most n items. Every group but the last holds exactly n. There are no groups exactly when the input is empty. |
| `Chunking.FlattenChunks` | model/appSync.js:89-96 | The groups concatenate back to the input, in order. |
| `Chunking.ChunksCount` | model/appSync.js:83-98 | There are ceil(len / n) groups. |
| `Pagination.CallVariables` | model/appSync.js:45-49 | A call's variables are the caller's keys plus `limit` and `nextToken`. Those two carry the given values, overriding caller entries of the same name. Every other caller variable is passed unchanged. |
| `Pagination.WithItems` | model/appSync.js:53-61 | Only the first root field's `items` change. Its name, its `nextToken`, its other fields, the other root fields and the response's other fields stay as they were. |
| `Pagination.ScanLoop` | model/appSync.js:41-58 | Makes at most one call per reply, and at least one when any reply exists. Every reply before the last answered one carries a token. The loop is Done exactly when the last answered reply has a null token. It Failed exactly when that reply is a fault or has no root field, and carries the matching error. It is Pending exactly when every reply was used and the last one carried a token. |
| `Pagination.LoopCalls` | model/appSync.js:43-56 | The first call sends the starting token. Every later call sends the token of the reply just before it. |
| `Pagination.Scan` | model/appSync.js:35-50 | Every call sends the query document and the caller's variables unchanged, apart from `limit` and `nextToken`. `limit` is 1000 when no page limit is given and the given value otherwise. The first call sends `nextToken = null`. Call i sends the token of reply i-1. At least one call is made. |
| `Pagination.ScanReturnsAllItems` | model/appSync.js:53-63 | A finished scan returns the last response with the root items replaced by every page's items, concatenated in page order. The last page's null token is kept. |
| `Pagination.ScanStopsAtFirstNullToken` | model/appSync.js:41-58 | If reply k is the first page with a null token and all earlier replies carry tokens, the scan is Done after exactly k+1 calls. |
| `Pagination.ScanIgnoresLaterReplies` | model/appSync.js:58 | Once a scan has finished or failed, more replies do not change its calls or its result. |
| `Pagination.ScanTwoPages` | model/appSync.js:35-63 | Pages of 3 items with token "T1" and 2 items with a null token, page limit 3: two calls, the second sends "T1" and limit 3, and 5 items are returned. |
| `Writes.Wrap` | model/appSync.js:91-95 | Item i of the input becomes the item of put-request i, unchanged. |
| `Writes.UnwrapWrap` | model/appSync.js:91-95 | Taking the items back out of the put-requests gives the original items. |
| `Writes.WriteLoop` | model/appSync.js:83-98 | Every call goes to the given table and holds 1 to 25 put-requests. Calls stop at the first rejected reply, which fails the write with that reply's reason. An empty list makes no call and finishes. |
| `Writes.BatchWrite` | model/appSync.js:72-98 | Without an endpoint the write fails with a configuration error and makes no call. With one, every call targets `tableName-endpoint-ENV` and holds at most 25 put-requests. An empty list makes no call. |
| `Writes.WriteLoopFollowsChunks` | model/appSync.js:83-96 | Call i carries exactly the i-th group of 25 items of the input. A finished write made one call per group. |
| `Writes.BatchWriteWritesEveryItem` | model/appSync.js:83-98 | A finished write has sent every item in exactly one put-request, in the original order, using ceil(n/25) calls. Whether the store stored them is not modelled (see Left out). |
| `Writes.BatchWriteCompletes` | model/appSync.js:83-98 | With an endpoint set and every call accepted, ceil(n/25) replies are enough to finish. |
| `Writes.BatchWriteThirtyItems` | model/appSync.js:83-98 | Thirty items are written in two calls, of 25 and then 5 put-requests. |
| `Reads.GetLoop` | model/appSync.js:120-136 | Every call goes to the given table and holds 1 to 100 keys. Calls stop at the first rejected reply, which fails the read with its reason. Pending only with a non-empty queue. An empty queue makes no call and returns what was already gathered. |
| `Reads.BatchGet` | model/appSync.js:107-137 | Without an endpoint the read fails with a configuration error and makes no call. With one, an empty key list makes no call and returns `[]`. Every call targets `tableName-endpoint-ENV` with at most 100 keys. The first call sends the first min(100, n) keys. |
| `Reads.GetLoopTakesFromFront` | model/appSync.js:120-135 | Round i sends the front min(100, len) keys of the queue as it stands after rounds 0..i-1, where each round's unprocessed keys are appended at the back. That queue is never empty when a round starts. A finished read has emptied it. |
| `Reads.GetLoopCollectsInOrder` | model/appSync.js:132-137 | A finished read returns the resolved records of every reply, in call order. |
| `Reads.GetLoopSendsQueuedKeys` | model/appSync.js:117-136 | Before a read finishes, every key of the queue is sent in some round. |
| `Reads.GetLoopResubmits` | model/appSync.js:133-135 | Before a read finishes, every key a reply reports unprocessed is sent again in a later round. |
| `Reads.RequeueConserves` | model/appSync.js:121-135 | One round loses and reorders nothing: the queue followed by the reported unprocessed keys is exactly the batch sent followed by the new queue. |
| `Reads.GetLoopKeepsEveryKey` | model/appSync.js:117-137 | Keys leave the queue in the order they entered it. The batches a finished read sent, concatenated in call order, are exactly the starting queue followed by every reply's unprocessed keys, in reply order. |
| `Reads.BatchGetKeepsEveryKey` | model/appSync.js:107-137 | Counted with multiplicity, a finished batch get sent exactly the keys of the list plus every key a reply reported unprocessed. No key is dropped and none is invented. |
| `Reads.GetLoopBounded` | model/appSync.js:120-135 | If every round reports fewer unprocessed keys than it was sent, a queue of n keys takes at most n rounds. Pending implies fewer than n rounds. |
| `Reads.BatchGetFinishes` | model/appSync.js:120 | With an endpoint set, no rejected call, and every round reporting fewer unprocessed keys than it was sent, n keys need at most n rounds. So n replies are enough to finish. |
| `Reads.BatchGetRequeuesUnprocessed` | model/appSync.js:117-137 | 120 keys; round 1 resolves 100, round 2 reports 10 of its 20 keys unprocessed, round 3 resolves them. That is three calls (keys 0-99, 100-119, 110-119), returning all three replies' records (120). |

`model/appSync.js:132` concatenates every reply's `Responses`, so the three
replies of this last scenario return 100 + 10 + 10 = 120 records.

## Left out

- The Express app (`app.js`): routing, CORS, the OpenAPI document, the changelog page, token verification and the error-name to HTTP-status table. They are framework glue with no algorithm.
- `controller/sample.js`: a request handler that copies fields into a JSON response. It calls a `GetUser` method that `model/sample.js` does not define.
- `model/sample.js`: the `Sample` facade. Its list, batch-get and batch-write methods only delegate to `scan` (with variables `{filter}`) and to `batchGet`/`batchWrite` (with the table name `"Sample"`). Its get/create/update/delete methods pass GraphQL documents straight to the external client.
- Construction of `AWSAppSyncClient` and `DynamoDB.DocumentClient`, IAM credentials and region setup. These are foreign library calls, replaced by the reply trace.
- async/await and promises: the model's calls are sequential. The scan's in-place update of the response object is modelled as a new response equal to the last one with its items replaced.
- Entity fields (floats, dates, JSON). Records and keys are opaque values.
- Absent (`undefined`) scan tokens. Only `null` ends the loop in the source; tokens are `Option<string>`, and `None` is `null`.
- A scan page whose root payload is `null` or has no `items` makes the source throw a `TypeError`. Only a response with no root field at all is modelled, as `MalformedResponse`.
- A batch-get reply with no `Responses` entry for the table would make the source append `undefined` to the results. The model assumes the entry is present. An absent `UnprocessedKeys` entry is modelled as an empty key list.
- `pageLimit` is modelled as an optional integer. The source passes any non-null value through as `limit`, and the model does the same for every integer, including 0 and negative ones.
- A call that was issued but whose reply lies beyond the end of the trace is not listed in `calls`.
- The unprocessed items of a batch-write reply. `model/appSync.js:97` awaits the write and discards its reply, so items the store hands back as unprocessed are never retried, unlike in `batchGet`. `WriteReply` only says whether the call was accepted. So `Writes.BatchWriteWritesEveryItem` promises that every item was sent, not that it was stored.
- Bounding the retry loop in `batchGet` is not modelled: the source has no cap. The trace bounds every run, and `Reads.BatchGetFinishes` states the progress assumption under which the loop ends.
