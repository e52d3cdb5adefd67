/**
 * RedisHashKeyValueDB (src/redisHashKeyValueDB.ts): a key-value table is one
 * Redis hash whose key is the table name and whose fields are the ids. Scans
 * go through HSCAN, whose batches are flat `[field, value, field, value, ...]`
 * lists that the adapter splits with index loops.
 */
module HashKeyValueDB {
  import opened Seqs
  import opened Records
  import opened Interleave
  import opened Client

  /** HMGETBUFFER of the ids, the found values paired with their ids; no call for no ids. */
  function GetByIds(table: string, ids: seq<string>, bufs: seq<Option<Bytes>>): (r: Effect<seq<(string, Bytes)>>)
    requires |bufs| == |ids|
    ensures |ids| == 0 ==> r.calls == [] && r.result == []
    ensures |ids| > 0 ==> r.calls == [HMGetBuffer(table, ids)]
    ensures r.result == FilteredZip(ids, bufs)
  {
    if |ids| == 0 then Effect([], []) else Effect([HMGetBuffer(table, ids)], FilteredZip(ids, bufs))
  }

  /** One HDEL of the ids from the table's hash; nothing for no ids. */
  function DeleteByIds(table: string, ids: seq<string>): (calls: seq<ClientCall>)
    ensures |ids| == 0 ==> calls == []
    ensures |ids| > 0 ==> calls == [HDel(table, ids)]
  {
    if |ids| == 0 then [] else [HDel(table, ids)]
  }

  /**
   * One HSET of `Object.fromEntries(entries)` (HSETWITHTTL when `expireAt` is
   * truthy); nothing for no entries.
   */
  function SaveBatch(table: string, entries: seq<(string, Bytes)>, expireAt: Option<int>): (calls: seq<ClientCall>)
    ensures |entries| == 0 ==> calls == []
    ensures |entries| > 0 && Truthy(expireAt) ==> calls == [HSetWithTTL(table, FromEntries(entries), expireAt.value)]
    ensures |entries| > 0 && !Truthy(expireAt) ==> calls == [HSet(table, FromEntries(entries))]
  {
    if |entries| == 0 then []
    else if Truthy(expireAt) then [HSetWithTTL(table, FromEntries(entries), expireAt.value)]
    else [HSet(table, FromEntries(entries))]
  }

  /** The ids of one HSCAN batch, by a loop that steps over the list two places at a time. */
  method BatchIds(list: seq<string>) returns (keys: seq<string>)
    ensures keys == Evens(list)
  {
    keys := [];
    var i := 0;
    while i < |list|
      invariant 0 <= i <= |list| + 1 && i % 2 == 0
      invariant |keys| == i / 2
      invariant forall k :: 0 <= k < |keys| ==> keys[k] == list[2 * k]
    {
      keys := keys + [list[i]];
      i := i + 2;
    }
  }

  /**
   * The values of one HSCAN batch, as Buffers, by the same two-place loop,
   * which reads the element after each field: on a list of odd length the
   * last step reads past the end and `Buffer.from(undefined)` throws.
   */
  method BatchValues(list: seq<string>, bufferFrom: string -> Bytes) returns (r: Result<seq<Bytes>>)
    ensures r.Failure? <==> |list| % 2 == 1
    ensures r.Success? ==> r.value == MapSeq(bufferFrom, Odds(list))
  {
    var values: seq<Bytes> := [];
    var i := 0;
    while i < |list|
      invariant 0 <= i <= |list| && i % 2 == 0
      invariant |values| == i / 2
      invariant forall k :: 0 <= k < |values| ==> values[k] == bufferFrom(list[2 * k + 1])
    {
      if i + 1 >= |list| {
        return Failure("ERR_INVALID_ARG_TYPE");
      }
      values := values + [bufferFrom(list[i + 1])];
      i := i + 2;
    }
    return Success(values);
  }

  /** The same loop pushing `[list[i], Buffer.from(list[i + 1])]`. */
  method BatchEntries(list: seq<string>, bufferFrom: string -> Bytes) returns (r: Result<seq<(string, Bytes)>>)
    ensures r.Failure? <==> |list| % 2 == 1
    ensures r.Success? ==> |Evens(list)| == |Odds(list)| && r.value == Zip(Evens(list), MapSeq(bufferFrom, Odds(list)))
  {
    var entries: seq<(string, Bytes)> := [];
    var i := 0;
    while i < |list|
      invariant 0 <= i <= |list| && i % 2 == 0
      invariant |entries| == i / 2
      invariant forall k :: 0 <= k < |entries| ==> entries[k] == (list[2 * k], bufferFrom(list[2 * k + 1]))
    {
      if i + 1 >= |list| {
        return Failure("ERR_INVALID_ARG_TYPE");
      }
      entries := entries + [(list[i], bufferFrom(list[i + 1]))];
      i := i + 2;
    }
    return Success(entries);
  }

  /** Every HSCAN batch is a flat field/value list, of even length. */
  ghost predicate FieldValueBatches(batches: seq<seq<string>>)
  {
    forall i :: 0 <= i < |batches| ==> |batches[i]| % 2 == 0
  }

  /** The values of one batch, as Buffers. */
  function BatchValueList(list: seq<string>, bufferFrom: string -> Bytes): (values: seq<Bytes>)
    ensures |values| == |list| / 2
  {
    MapSeq(bufferFrom, Odds(list))
  }

  /** The `(field, value)` entries of one batch of even length. */
  function BatchEntryList(list: seq<string>, bufferFrom: string -> Bytes): (entries: seq<(string, Bytes)>)
    requires |list| % 2 == 0
    ensures |entries| == |list| / 2
  {
    Zip(Evens(list), BatchValueList(list, bufferFrom))
  }

  /**
   * `streamIds`: the fields of every batch, in order, cut to `limit || Infinity`.
   * On field/value batches that is half the scanned length without a truthy
   * limit, and `min(limit, half)` with one.
   */
  function StreamIds(batches: seq<seq<string>>, limit: Option<nat>): (ids: seq<string>)
    ensures FieldValueBatches(batches) && (limit == None || limit == Some(0)) ==> 2 * |ids| == SumLengths(batches)
    ensures FieldValueBatches(batches) && limit.Some? && limit.value > 0 ==>
              |ids| == Min(limit.value, SumLengths(batches) / 2)
  {
    SumLengthsDouble(batches, MapSeq(Evens, batches));
    TakeLimit(Concat(MapSeq(Evens, batches)), limit)
  }

  /**
   * `streamValues`: the values of every batch, in order, cut to `limit || Infinity`
   * (a batch of odd length makes the stream fail, see BatchValues): half the
   * scanned length without a truthy limit, and `min(limit, half)` with one.
   */
  function StreamValues(batches: seq<seq<string>>, bufferFrom: string -> Bytes, limit: Option<nat>): (values: seq<Bytes>)
    requires FieldValueBatches(batches)
    ensures limit == None || limit == Some(0) ==> 2 * |values| == SumLengths(batches)
    ensures limit.Some? && limit.value > 0 ==> |values| == Min(limit.value, SumLengths(batches) / 2)
  {
    SumLengthsDouble(batches, MapSeq(list => BatchValueList(list, bufferFrom), batches));
    TakeLimit(Concat(MapSeq(list => BatchValueList(list, bufferFrom), batches)), limit)
  }

  /**
   * `streamEntries`: the entries of every batch, in order, cut to `limit || Infinity`:
   * one per field/value pair without a truthy limit, and `min(limit, pairs)` with one.
   */
  function StreamEntries(batches: seq<seq<string>>, bufferFrom: string -> Bytes, limit: Option<nat>)
    : (entries: seq<(string, Bytes)>)
    requires FieldValueBatches(batches)
    ensures limit == None || limit == Some(0) ==> 2 * |entries| == SumLengths(batches)
    ensures limit.Some? && limit.value > 0 ==> |entries| == Min(limit.value, SumLengths(batches) / 2)
  {
    SumLengthsDouble(batches, seq(|batches|, i requires 0 <= i < |batches| => BatchEntryList(batches[i], bufferFrom)));
    TakeLimit(Concat(seq(|batches|, i requires 0 <= i < |batches| => BatchEntryList(batches[i], bufferFrom))), limit)
  }

  /**
   * Under the same limit, the streamed entries are the streamed ids paired
   * with the streamed values.
   */
  lemma StreamEntriesColumns(batches: seq<seq<string>>, bufferFrom: string -> Bytes, limit: Option<nat>)
    requires FieldValueBatches(batches)
    ensures MapSeq(Fst, StreamEntries(batches, bufferFrom, limit)) == StreamIds(batches, limit)
    ensures MapSeq(Snd, StreamEntries(batches, bufferFrom, limit)) == StreamValues(batches, bufferFrom, limit)
  {
    var perBatch := seq(|batches|, i requires 0 <= i < |batches| => BatchEntryList(batches[i], bufferFrom));
    ConcatMap(Fst, perBatch);
    ConcatMap(Snd, perBatch);
    TakeLimitMap(Fst, Concat(perBatch), limit);
    TakeLimitMap(Snd, Concat(perBatch), limit);
    assert MapSeq(s => MapSeq(Fst, s), perBatch) == MapSeq(Evens, batches);
    assert MapSeq(s => MapSeq(Snd, s), perBatch) == MapSeq(list => BatchValueList(list, bufferFrom), batches);
  }

  /**
   * On field/value batches, what `hScanCount` answers (half the scanned
   * length, summed in JavaScript numbers) is the number of ids `streamIds`
   * yields without a limit.
   */
  lemma StreamIdsCount(batches: seq<seq<string>>, count: real)
    requires FieldValueBatches(batches)
    requires count == (SumLengths(batches) as real) / 2.0
    ensures count == |StreamIds(batches, None)| as real
  {
  }

  /** `createTable`: deletes the table's one hash key only when asked to. */
  function CreateTable(table: string, dropIfExists: bool): (calls: seq<ClientCall>)
    ensures dropIfExists ==> calls == [Del([table])]
    ensures !dropIfExists ==> calls == []
  {
    if dropIfExists then [Del([table])] else []
  }
}
