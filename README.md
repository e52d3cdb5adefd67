# redis-lib in Dafny

A model of the adapter layer of NaturalCycles' `redis-lib`. The project's
TypeScript classes let code written against db-lib's `CommonKeyValueDB` and
`CommonDB` interfaces store its tables in Redis:

- `RedisClient` (module `Client`) wraps an ioredis client.
  - The ioredis client is created lazily, with default options merged under the caller's.
  - It tracks a `connected` flag.
  - It builds the HEXPIREAT command line.
  - It counts scanned keys for `scanCount`, `hScanCount`, `dropTable` and `clearAll`.
- `RedisKeyValueDB` (module `KeyValueDB`) stores row `id` of table `table` under the Redis key `table:id`.
- `RedisHashKeyValueDB` (module `HashKeyValueDB`) stores a table as one Redis hash whose fields are the ids.
  - It splits HSCAN's flat `[field, value, ...]` batches with `i += 2` loops.
- `RedisKeyValueDB2` (module `KeyValueDB2`) uses the same hash layout.
  - Its `getByIds`, `deleteByIds`, `saveBatch` and `createTable` are the same code as the hash DB's, so `HashKeyValueDB` models those.
  - It splits batches with an `index % 2` test and with `_chunk(list, 2)`.
  - `KeyValueDB2` proves that these agree with the hash DB's loops.
- `RedisDB` (module `RedisDB`) is the older `CommonDB` adapter.
  - It stores the JSON text of each entity under `table_id`.
  - It emulates queries by scanning `table_*` and filtering in memory.

The Redis server is not modelled. An operation is a value recording the calls
it makes and what it returns, given the server's replies as parameters:

- `ClientCall`: a call from an adapter to a `RedisClient`.
- `RedisCall`: a call to ioredis.
- `Effect` / `DbEffect`: one operation's calls together with its result.

`RedisClient` is a class. Its methods update `connected`, the lazily created
connection, the log of calls sent and the log of lines written to the logger.
Scans are finite sequences of batches:

- `flatMap` is `Concat`.
- `take(limit || Infinity)` is `TakeLimit`, where an absent limit and a limit of 0 both mean "everything".

Shared modules:

- `Seqs`: options, results, concatenation, limits, the order-preserving filtered zip.
- `Records`: JavaScript objects built by `Object.fromEntries`.
  - Keys keep the order they were first given in.
  - The last value given for a key wins.
- `Strings`: `join`, `split` and the decimal rendering of integers.
- `Interleave`: the even and odd positions of a flat list, and flattening pairs.

The key-value adapters build keys as `table:id`, but `RedisDB` joins table
and id with `_`, and its query scan matches `table_*`. As a result, table `a`
also scans the rows of table `a_b` (`RedisDB.TablesOverlap`). The id round
trip is stated only for keys built for the same table, and no lemma claims
that tables are disjoint.

## Model

| member | source | states |
|---|---|---|
| Seqs.TakeLimit | src/redisKeyValueDB.ts:75-77 | the result is a prefix of the stream; an absent or zero limit keeps everything; a positive limit keeps `min(limit, length)` elements |
| Seqs.PresentIndicesSpec | src/redisKeyValueDB.ts:36 | the kept positions are increasing, in range, and are exactly the positions whose value is not null |
| Seqs.FilteredZipSpec | src/redisKeyValueDB.ts:36 | the j-th result pairs `ids[p]` with the value at `p`, for the j-th kept position `p`, so input order is preserved |
| Seqs.FilteredZipKeepsAll | src/redisKeyValueDB.ts:36 | the result is as long as `ids` exactly when no value is null |
| Seqs.FilteredZipValues | src/redisKeyValueDB.ts:36 | the values of the result are the non-null values, in order |
| Seqs.PresentConcat | src/redisKeyValueDB.ts:87-95 | dropping falsy values batch by batch and then flattening is the same as flattening and then dropping |
| Seqs.Concat | src/redisKeyValueDB.ts:73 | `flatMap` of the batches: the flattened stream holds as many elements as all batches together |
| Seqs.FilteredZip | src/redisKeyValueDB.ts:36 | the filtered zip of ids and replies has at most one pair per id |
| Seqs.Present | src/redisKeyValueDB.ts:89 | `filter(_isTruthy)` keeps at most as many values as it is given |
| Seqs.PresentSpec | src/redis.db.ts:118 | a truthy-filtered list holds the value at each kept position, in order |
| Seqs.Zip | src/redisKeyValueDB.ts:107 | `_zip(a, b)`: its first column is `a` and its second is `b` |
| Records.FromEntries | src/redisHashKeyValueDB.ts:58 | `Object.fromEntries` gives an object with distinct keys, matching its key list |
| Records.FromEntriesKeys | src/redisHashKeyValueDB.ts:58 | the object has a key exactly when some entry names it |
| Records.FromEntriesLastWins | src/redisHashKeyValueDB.ts:58 | the value under a key is the one from the last entry that names it |
| Records.FromEntriesBound | src/redisHashKeyValueDB.ts:58 | `Object.fromEntries` holds at most one key per entry |
| Records.FromEntriesEmpty | src/redisHashKeyValueDB.ts:56-58 | the object has no keys exactly when there are no entries |
| Strings.Join | src/redisClient.ts:175 | `join` of no words is the empty string; otherwise the line starts with the first word |
| Strings.JoinCons | src/redisClient.ts:175 | a word joined in front of at least one more is followed by exactly one separator |
| Strings.JoinSeparators | src/redisClient.ts:175-176 | when no field name holds a space, the key list holds one space between each two names |
| Strings.Split | src/redisClient.ts:177 | `split(' ')` yields at least one piece, and none contains the separator |
| Strings.SplitJoin | src/redisClient.ts:175-177 | splitting the space-join of space-free words gives the words back |
| Strings.Decimal | src/redisClient.ts:176 | a rendered integer is non-empty and holds no space |
| Interleave.InterleaveAt | src/redis.db.ts:98 | `_flatten` of pairs has length 2n, with the first of pair i at 2i and the second at 2i+1 |
| Interleave.InterleaveSplits | src/redis.db.ts:98 | the even and odd positions of the flattened list are the two columns again |
| Interleave.EvensOddsInterleave | src/redisHashKeyValueDB.ts:72-105 | a list of even length is the flattening of its fields and its values |
| Interleave.EntriesAt | src/redisHashKeyValueDB.ts:101-105 | the k-th field/value entry of an even list is `(L[2k], L[2k+1])`, and there are `|L|/2` entries |
| Client.MergeCfg | src/redisClient.ts:42-52 | the logger is the caller's if given and the console otherwise; the options are the caller's plus every default the caller does not override |
| Client.HgetallResult | src/redisClient.ts:131-133 | null exactly when the hash has no fields, otherwise the fetched record unchanged |
| Client.HExpireAtCall | src/redisClient.ts:173-177 | whatever the key and the field names hold, the first word of the command line, which is sent as the command, is HEXPIREAT |
| Client.HExpireAtArgs | src/redisClient.ts:173-179 | with no spaces in the key or field names, the command is HEXPIREAT with `[key, expireAt, "FIELDS", n, f1..fn]`; with no fields, one trailing empty argument |
| Client.CountKeys | src/redisClient.ts:246-252 | the `count += keys.length` loop yields the total number of scanned keys |
| Client.HalfCount | src/redisClient.ts:260-268 | the `count += list.length / 2` loop yields half the total scanned length |
| Client.EvenBatchesSum | src/redisClient.ts:264-266 | on field/value batches that half-total is a whole number |
| Client.QueueDeletes | src/redisClient.ts:199-207 | one DEL per scan batch in batch order, and the count of all keys they name |
| Client.RedisClient.constructor | src/redisClient.ts:42-56 | the configuration is the merged one; not connected, no connection, nothing sent or logged |
| Client.RedisClient.Redis | src/redisClient.ts:60-81 | the first call creates the connection from the merged options, sets `connected` and logs the creation; later calls return the same connection and change nothing; at most one creation ever |
| Client.RedisClient.Connect | src/redisClient.ts:83-88 | sends CONNECT only when not connected; afterwards connected |
| Client.RedisClient.Disconnect | src/redisClient.ts:90-94 | logs, sends QUIT, logs the reply; afterwards not connected |
| Client.RedisClient.Hgetall | src/redisClient.ts:128-134 | sends HGETALL and answers null exactly for an empty hash; the connection stays the one created from the merged options, created once |
| Client.RedisClient.Hincr | src/redisClient.ts:156-158 | sends HINCRBY with the increment, 1 by default, and answers the server's reply; the connection stays the one created from the merged options, created once |
| Client.RedisClient.Incr | src/redisClient.ts:190-192 | sends INCRBY with the amount, 1 by default, and answers the server's reply; the connection stays the one created from the merged options, created once |
| Client.RedisClient.HsetWithTTL | src/redisClient.ts:168-180 | sends HSET of the record, then the HEXPIREAT call built from its keys, in that order; the connection stays the one created from the merged options, created once |
| Client.RedisClient.ScanCount | src/redisClient.ts:244-253 | sends one SCAN and returns the total number of scanned keys; the connection stays the one created from the merged options, created once |
| Client.RedisClient.HScanCount | src/redisClient.ts:259-269 | sends one HSCAN and returns half the total scanned length; the connection stays the one created from the merged options, created once |
| Client.RedisClient.DropTable | src/redisClient.ts:198-211 | scans `table:*`, sends one pipeline of one DEL per batch, and logs the total key count; the connection stays the one created from the merged options, created once |
| Client.RedisClient.ClearAll | src/redisClient.ts:213-227 | scans `*`, sends one pipeline of one DEL per batch, and logs the total key count; the connection stays the one created from the merged options, created once |
| KeyValueDB.KeyToId | src/redisKeyValueDB.ts:152-154 | a key of the table is rebuilt from its id |
| KeyValueDB.IdToKey | src/redisKeyValueDB.ts:144-146 | the key starts with `table:`, and KeyToId gives the id back |
| KeyValueDB.IdToKeyInjective | src/redisKeyValueDB.ts:144-146 | for one table, distinct ids have distinct keys |
| KeyValueDB.KeysToIds | src/redisKeyValueDB.ts:148-150 | one id per key, each rebuilding its key when the key belongs to the table |
| KeyValueDB.IdsToKeys | src/redisKeyValueDB.ts:140-142 | every key belongs to the table, and KeysToIds gives the ids back |
| KeyValueDB.GetByIds | src/redisKeyValueDB.ts:32-37 | no call and `[]` for no ids; otherwise one MGETBUFFER of the table keys, and the filtered zip of ids and replies |
| KeyValueDB.DeleteByIds | src/redisKeyValueDB.ts:39-42 | no call for no ids; otherwise one DEL of the table keys |
| KeyValueDB.KeyedRecord | src/redisKeyValueDB.ts:60-62 | the MSET record has distinct keys, each holding a value, and at most one key per entry |
| KeyValueDB.KeyedRecordSpec | src/redisKeyValueDB.ts:60-62 | the MSET record holds only table keys of mentioned ids, and maps `table:id` to the last value given for `id` |
| KeyValueDB.SaveBatch | src/redisKeyValueDB.ts:44-65 | no call for no entries; with a truthy `expireAt`, one pipeline of `SET table:id v EXAT expireAt` per entry in entry order; otherwise one MSETBUFFER of the keyed record |
| KeyValueDB.StreamIds | src/redisKeyValueDB.ts:67-80 | the streamed ids are a prefix of the ids of the whole scan: all of them without a truthy limit, `min(limit, scanned)` with one |
| KeyValueDB.StreamIdsSpec | src/redisKeyValueDB.ts:67-80 | the streamed ids are KeyToId over the concatenated scan, cut only by a truthy limit |
| KeyValueDB.StreamValues | src/redisKeyValueDB.ts:82-96 | the streamed values are a prefix of the present values of all replies, and all of them without a truthy limit |
| KeyValueDB.StreamValuesSpec | src/redisKeyValueDB.ts:82-96 | the streamed values are the non-null replies of all batches in order, cut to `limit \|\| Infinity` |
| KeyValueDB.BatchEntries | src/redisKeyValueDB.ts:104-107 | one entry per scanned key of the batch; the first column is the ids of the keys and the second is the MGETBUFFER reply, position by position |
| KeyValueDB.StreamEntries | src/redisKeyValueDB.ts:98-114 | one entry per scanned key without a truthy limit, `min(limit, scanned)` with one; a missing value stays in its entry |
| KeyValueDB.StreamEntriesValues | src/redisKeyValueDB.ts:98-114 | the values of the streamed entries are the MGETBUFFER replies of all batches, in order and missing ones included, under the same limit |
| KeyValueDB.StreamEntriesIds | src/redisKeyValueDB.ts:98-114 | the ids of the streamed entries are the streamed ids under the same limit |
| KeyValueDB.Count | src/redisKeyValueDB.ts:116-121 | one SCANCOUNT of `table:*`, answering the number of ids `streamIds` yields |
| KeyValueDB.IncrementBatch | src/redisKeyValueDB.ts:123-132 | sends the increments under table keys; a reply tuple for `table:id` is reported under `id` with the same number |
| KeyValueDB.CreateTable | src/redisKeyValueDB.ts:134-138 | drops the table when `dropIfExists` is set, otherwise no call |
| HashKeyValueDB.GetByIds | src/redisHashKeyValueDB.ts:39-44 | no call and `[]` for no ids; otherwise one HMGETBUFFER on the table's hash, and the filtered zip of ids and replies; src/redisKeyValueDB2.ts:36-41 is the same code |
| HashKeyValueDB.DeleteByIds | src/redisHashKeyValueDB.ts:46-49 | no call for no ids; otherwise one HDEL of the ids; src/redisKeyValueDB2.ts:43-46 is the same code |
| HashKeyValueDB.SaveBatch | src/redisHashKeyValueDB.ts:51-65 | no call for no entries; otherwise one HSETWITHTTL (truthy `expireAt`) or HSET of `Object.fromEntries(entries)`; src/redisKeyValueDB2.ts:48-62 is the same code |
| HashKeyValueDB.BatchIds | src/redisHashKeyValueDB.ts:71-75 | the `i += 2` loop collects exactly the elements at even positions |
| HashKeyValueDB.BatchValues | src/redisHashKeyValueDB.ts:86-91 | fails exactly on a list of odd length (`Buffer.from(undefined)`); otherwise the elements at odd positions as Buffers |
| HashKeyValueDB.BatchEntries | src/redisHashKeyValueDB.ts:100-106 | fails exactly on a list of odd length; otherwise the zip of even-position fields and odd-position values |
| HashKeyValueDB.StreamIds | src/redisHashKeyValueDB.ts:67-80 | on field/value batches, twice the streamed id count is the scanned length without a truthy limit, and the count is `min(limit, half)` with one |
| HashKeyValueDB.StreamValues | src/redisHashKeyValueDB.ts:82-94 | on field/value batches, half the scanned length without a truthy limit, and `min(limit, half)` with one |
| HashKeyValueDB.StreamEntries | src/redisHashKeyValueDB.ts:96-109 | on field/value batches, one entry per pair without a truthy limit, and `min(limit, pairs)` with one |
| HashKeyValueDB.StreamEntriesColumns | src/redisHashKeyValueDB.ts:67-109 | the streamed entries are the streamed ids paired with the streamed values, under the same limit |
| HashKeyValueDB.StreamIdsCount | src/redisClient.ts:259-269 | on field/value batches, the number `hScanCount` answers (half the scanned length, as a JavaScript number) equals the number of ids `streamIds` yields without a limit |
| HashKeyValueDB.CreateTable | src/redisHashKeyValueDB.ts:119-123 | deletes the single key `table` when `dropIfExists` is set, otherwise no call; src/redisKeyValueDB2.ts:114-118 is the same code |
| KeyValueDB2.KeepParityHalves | src/redisKeyValueDB2.ts:69-72 | the index-parity filter keeps the even positions for parity 0 and the odd positions for parity 1 |
| KeyValueDB2.ParityIds | src/redisKeyValueDB2.ts:67-73 | the `forEach` loop keeps exactly the even-position elements, `ceil(\|L\|/2)` of them |
| KeyValueDB2.ParityValues | src/redisKeyValueDB2.ts:83-89 | the `forEach` loop keeps exactly the odd-position elements, `floor(\|L\|/2)` of them, as Buffers |
| KeyValueDB2.Chunk2 | src/redisKeyValueDB2.ts:98 | `_chunk(L, 2)` has `ceil(\|L\|/2)` chunks; chunk k is `L[2k..min(2k+2, \|L\|)]` |
| KeyValueDB2.Chunk2Concat | src/redisKeyValueDB2.ts:98 | the chunks put back together are the list |
| KeyValueDB2.BatchEntries | src/redisKeyValueDB2.ts:98-101 | one entry per chunk |
| KeyValueDB2.ChunkEntriesEven | src/redisKeyValueDB2.ts:98-101 | on an even list, the chunked entries are `(L[2k], L[2k+1])` and equal the hash DB's loop entries |
| KeyValueDB2.ChunkEntriesOdd | src/redisKeyValueDB2.ts:98-101 | on an odd list, every field but the last gets its value, and the last gets `Buffer.from("undefined")` |
| KeyValueDB2.StreamIds | src/redisKeyValueDB2.ts:64-78 | on field/value batches, twice the streamed id count is the scanned length without a truthy limit, and the count is `min(limit, half)` with one |
| KeyValueDB2.StreamValues | src/redisKeyValueDB2.ts:80-92 | on field/value batches, half the scanned length without a truthy limit, and `min(limit, half)` with one; an odd batch does not fail |
| KeyValueDB2.StreamEntries | src/redisKeyValueDB2.ts:94-104 | on field/value batches, one entry per pair without a truthy limit, and `min(limit, pairs)` with one |
| KeyValueDB2.StreamIdsAgree | src/redisKeyValueDB2.ts:64-78 | the streamed ids equal the hash DB's on every scan |
| KeyValueDB2.StreamValuesAgree | src/redisKeyValueDB2.ts:80-92 | on field/value batches the streamed values equal the hash DB's |
| KeyValueDB2.StreamEntriesAgree | src/redisKeyValueDB2.ts:94-104 | on field/value batches the streamed entries equal the hash DB's |
| RedisDB.ParseKey | src/redis.db.ts:72-77 | returns the given table unchanged; a key with `_` after the table's length is rebuilt from its id |
| RedisDB.Key | src/redis.db.ts:68-70 | ParseKey of the key gives back the table and the id; the key is the table, `_`, the id |
| RedisDB.KeyInjective | src/redis.db.ts:68-70 | for one table, distinct ids have distinct keys |
| RedisDB.TablesOverlap | src/redis.db.ts:69 | table `a_b` with id `c` and table `a` with id `b_c` share a key, so tables are not disjoint |
| RedisDB.SaveBatch | src/redis.db.ts:92-99 | no call for no entities; otherwise one MSET of a 2n list, with key i at 2i and JSON i at 2i+1 |
| RedisDB.SaveBatchSplits | src/redis.db.ts:98 | the MSET list splits back into the keys and the JSON texts |
| RedisDB.TruthyText | src/redis.db.ts:108 | a reply is kept exactly when it is a non-empty string, and is then unchanged |
| RedisDB.GetByIds | src/redis.db.ts:101-109 | no call and `[]` for no ids; otherwise one MGET of the keys, and at most one entity per id |
| RedisDB.GetByIdsSpec | src/redis.db.ts:107-108 | the result is the parsed reply at exactly the positions holding a non-empty string, in increasing order |
| RedisDB.GetByIdsNone | src/redis.db.ts:105-109 | when no reply is a non-empty string, `getByIds` returns no entities |
| RedisDB.Deleted | src/redis.db.ts:113-116 | an id is reported exactly when its DEL answered 1 and it is not empty, and then under itself |
| RedisDB.DeleteByIds | src/redis.db.ts:111-119 | one `DEL table_id` per id; nothing for no ids; at most as many results as ids |
| RedisDB.DeleteByIdsSpec | src/redis.db.ts:113-118 | the result lists, in input order, exactly the non-empty ids whose DEL answered 1 |
| RedisDB.DeleteByIdsAll | src/redis.db.ts:113-118 | when every DEL answers 1 and no id is empty, the result is all ids |
| RedisDB.StreamQuery | src/redis.db.ts:121-136 | nothing unless `runQueries` is set |
| RedisDB.QueryBatch | src/redis.db.ts:129-133 | for a non-empty batch of the table's keys, the refetch is one MGET of exactly the scanned keys; a batch whose replies are all null or empty gives the query over no entities |
| RedisDB.ScannedKeyRefetched | src/redis.db.ts:125-131 | a scanned key of the table maps to the id whose key is that same scanned key |
| RedisDB.ScannedKeysRefetched | src/redis.db.ts:130-131 | scanned keys of the table, turned into ids and back into keys, are the same keys in the same order |
| RedisDB.RunQuery | src/redis.db.ts:138-146 | with `runQueries` unset, the result is the query over no entities |
| RedisDB.RunQueryCount | src/redis.db.ts:148-154 | the count is the length of the `runQuery` result |
| RedisDB.DeleteByQuery | src/redis.db.ts:156-162 | one DEL per entity `runQuery` returned, under its own id, in that order; at most that many ids reported |

## Left out

- The Redis server: storage, MGET/MSET atomicity and expiry. Its replies (MGET and HMGET values, DEL counts, scan batches, the QUIT reply) are parameters.
- ioredis plumbing in `redis()` and in RedisDB's `create`: loading the library, event listeners, SIGINT/SIGTERM handlers and the error logger. RedisDB's `quit` and `resetCache` are also left out. These are I/O.
- `ping`, `[Symbol.asyncDispose]` and the RedisClient methods that forward one ioredis call (`del`, `get`, `mget`, `hset`, `hdel`, `hmgetBuffer`, `setWithTTL`, `msetBuffer`, `ttl`, `scanStream`, `hscanStream`, `withPipeline`, ...). The adapters' use of them is recorded as `ClientCall` values.
- Concurrency: `flatMap` with `concurrency: 16`, `pMap` and rxjs `mergeMap` are modelled in sequence. RedisDB's DELs appear in id order.
- The calls a stream issues. Streams are modelled by what they yield; `take` stops pulling batches early, which is not modelled.
- `JSON.stringify`, `JSON.parse` with its try/catch, `Buffer.from`, `String()` of a string, and the external `queryInMemory` together with `by`. These are function parameters.
- `incrBatch`, `hincrBatch` and lowercase `hscanCount` are not defined in src/redisClient.ts. The hash DBs' `count` and `incrementBatch` are therefore not modelled. KeyValueDB.IncrementBatch models only the key mapping around `incrBatch`, with its reply as a parameter.
- Negative limits: `limit` is a natural number or absent.
- `Object.keys` order for integer-like keys, which JavaScript lists first. Records keep insertion order.
- A caller config whose `logger` is explicitly `undefined`, which the spread would keep. The model treats it as absent.
- HashKeyValueDB.StreamValues and HashKeyValueDB.StreamEntries require every HSCAN batch to have even length. On an odd batch the source stream fails, and BatchValues and BatchEntries model that failure.
- RedisDB.StreamQuery states only the `runQueries` gate. The batch-by-batch result is defined, but the per-batch MGET calls are not modelled.
- `RedisDB.deleteByIds` keeps ids with `filter(Boolean)`, so a deleted row whose id is the empty string is not reported. The model follows the code.
- Rejected ioredis calls: every call on the underlying client succeeds in the model. In the source, a rejected `quit()` leaves `connected` true (src/redisClient.ts:92-93). A rejected `connect()` likewise leaves no trace, and `connected` is already true once `redis()` has created the client, before `connect()` resolves (src/redisClient.ts:77, 85).
- JavaScript numbers: `expireAt`, increments, DEL counts and limits are modelled as `int`, `nat` and, for `hScanCount`, `real`, with no floating-point rounding. A non-integer `limit` is not modelled; `take` accepts one and yields `ceil(limit)` elements.
- UTF-16 lengths: `table.length`, `slice` and `substr` (src/redisKeyValueDB.ts:153, src/redis.db.ts:75) count UTF-16 code units, while the model counts characters. Both agree on keys built for the table. They can differ on other keys when the table name holds characters outside the Basic Multilingual Plane.
- Client.RedisClient.Disconnect: the logger receives `'redis: quit'` and the QUIT reply as two arguments; the model records them as one line joined by a space.
