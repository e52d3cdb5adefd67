/**
 * RedisKeyValueDB (src/redisKeyValueDB.ts): a key-value table is the set of
 * Redis keys `table:id`. Each operation is modelled by the calls it makes on
 * the RedisClient and the value it returns, given the server's replies.
 */
module KeyValueDB {
  import opened Seqs
  import opened Records
  import opened Client

  /** The key starts with `table:`, as every key a SCAN of `table:*` returns does. */
  predicate IsTableKey(table: string, key: string)
  {
    |key| > |table| && key[..|table| + 1] == table + ":"
  }

  /** `key.slice(table.length + 1)`, the empty string when the key is shorter. */
  function KeyToId(table: string, key: string): (id: string)
    ensures IsTableKey(table, key) ==> table + ":" + id == key
  {
    if |table| + 1 <= |key| then key[|table| + 1..] else ""
  }

  /** `${table}:${id}`, which KeyToId takes back to `id`. */
  function IdToKey(table: string, id: string): (key: string)
    ensures IsTableKey(table, key)
    ensures KeyToId(table, key) == id
  {
    table + ":" + id
  }

  /** For one table, distinct ids give distinct keys. */
  lemma IdToKeyInjective(table: string, a: string, b: string)
    ensures IdToKey(table, a) == IdToKey(table, b) ==> a == b
  {
    assert KeyToId(table, IdToKey(table, a)) == a;
  }

  function KeysToIds(table: string, keys: seq<string>): (ids: seq<string>)
    ensures |ids| == |keys|
    ensures forall i :: 0 <= i < |keys| && IsTableKey(table, keys[i]) ==> IdToKey(table, ids[i]) == keys[i]
  {
    MapSeq(key => KeyToId(table, key), keys)
  }

  function IdsToKeys(table: string, ids: seq<string>): (keys: seq<string>)
    ensures |keys| == |ids|
    ensures forall i :: 0 <= i < |keys| ==> IsTableKey(table, keys[i])
    ensures KeysToIds(table, keys) == ids
  {
    MapSeq(id => IdToKey(table, id), ids)
  }

  /** MGETBUFFER of the keys, the found values paired with their ids; no call for no ids. */
  function GetByIds(table: string, ids: seq<string>, bufs: seq<Option<Bytes>>): (r: Effect<seq<(string, Bytes)>>)
    requires |bufs| == |ids|
    ensures |ids| == 0 ==> r.calls == [] && r.result == []
    ensures |ids| > 0 ==> r.calls == [MGetBuffer(IdsToKeys(table, ids))]
    ensures r.result == FilteredZip(ids, bufs)
  {
    if |ids| == 0 then Effect([], [])
    else Effect([MGetBuffer(IdsToKeys(table, ids))], FilteredZip(ids, bufs))
  }

  /** One DEL of all the keys; nothing for no ids. */
  function DeleteByIds(table: string, ids: seq<string>): (calls: seq<ClientCall>)
    ensures |ids| == 0 ==> calls == []
    ensures |ids| > 0 ==> calls == [Del(IdsToKeys(table, ids))]
  {
    if |ids| == 0 then [] else [Del(IdsToKeys(table, ids))]
  }

  /**
   * The MSET record: each entry put under the key of its id, in entry order,
   * with distinct keys, at most one per entry.
   */
  function KeyedRecord(table: string, entries: seq<(string, Bytes)>): (record: Record<Bytes>)
    ensures WellFormed(record)
    ensures |record.keys| <= |entries|
  {
    FromEntriesBound(MapSeq((e: (string, Bytes)) => (IdToKey(table, e.0), e.1), entries));
    FromEntries(MapSeq((e: (string, Bytes)) => (IdToKey(table, e.0), e.1), entries))
  }

  /**
   * The MSET record maps `table:id` to the last value given for `id`, and
   * holds no other keys.
   */
  lemma KeyedRecordSpec(table: string, entries: seq<(string, Bytes)>)
    ensures forall k :: k in KeyedRecord(table, entries).values ==>
              IsTableKey(table, k) && Mentions(entries, KeyToId(table, k))
    ensures forall i :: 0 <= i < |entries| && LastFor(entries, i) ==>
              IdToKey(table, entries[i].0) in KeyedRecord(table, entries).values
              && KeyedRecord(table, entries).values[IdToKey(table, entries[i].0)] == entries[i].1
  {
    var keyed := MapSeq((e: (string, Bytes)) => (IdToKey(table, e.0), e.1), entries);
    FromEntriesKeys(keyed);
    forall k | k in KeyedRecord(table, entries).values
      ensures IsTableKey(table, k) && Mentions(entries, KeyToId(table, k))
    {
      var i :| 0 <= i < |keyed| && keyed[i].0 == k;
      assert entries[i].0 == KeyToId(table, k);
    }
    forall i | 0 <= i < |entries| && LastFor(entries, i)
      ensures IdToKey(table, entries[i].0) in KeyedRecord(table, entries).values
              && KeyedRecord(table, entries).values[IdToKey(table, entries[i].0)] == entries[i].1
    {
      assert LastFor(keyed, i) by {
        forall j | i < j < |keyed| ensures keyed[j].0 != keyed[i].0 {
          IdToKeyInjective(table, entries[j].0, entries[i].0);
        }
      }
      FromEntriesLastWins(keyed, i);
    }
  }

  /**
   * With a truthy `expireAt`, one pipeline holding `SET table:id v EXAT expireAt`
   * per entry in entry order; otherwise one MSETBUFFER of the keyed record;
   * nothing for no entries.
   */
  method SaveBatch(table: string, entries: seq<(string, Bytes)>, expireAt: Option<int>)
    returns (calls: seq<ClientCall>)
    ensures |entries| == 0 ==> calls == []
    ensures |entries| > 0 && Truthy(expireAt) ==>
              |calls| == 1 && calls[0].WithPipeline? && |calls[0].queued| == |entries|
              && forall i :: 0 <= i < |entries| ==>
                   calls[0].queued[i] == SetExAtCmd(IdToKey(table, entries[i].0), entries[i].1, expireAt.value)
    ensures |entries| > 0 && !Truthy(expireAt) ==> calls == [MSetBuffer(KeyedRecord(table, entries))]
  {
    if |entries| == 0 {
      return [];
    }
    if Truthy(expireAt) {
      var queued: seq<RedisCall> := [];
      for i := 0 to |entries|
        invariant |queued| == i
        invariant forall j :: 0 <= j < i ==>
                    queued[j] == SetExAtCmd(IdToKey(table, entries[j].0), entries[j].1, expireAt.value)
      {
        var (id, value) := entries[i];
        queued := queued + [SetExAtCmd(IdToKey(table, id), value, expireAt.value)];
      }
      calls := [WithPipeline(queued)];
    } else {
      calls := [MSetBuffer(KeyedRecord(table, entries))];
    }
  }

  /** The scan pattern of a table. */
  function Pattern(table: string): (pattern: string)
  {
    table + ":*"
  }

  /** Taking the ids batch by batch and flattening is taking the ids of the flattened scan. */
  lemma KeysToIdsConcat(table: string, batches: seq<seq<string>>)
    ensures Concat(MapSeq(keys => KeysToIds(table, keys), batches)) == KeysToIds(table, Concat(batches))
  {
    var f := (key: string) => KeyToId(table, key);
    var g := (keys: seq<string>) => MapSeq(f, keys);
    ConcatMap(f, batches);
    assert MapSeq(keys => KeysToIds(table, keys), batches) == MapSeq(g, batches);
    assert KeysToIds(table, Concat(batches)) == MapSeq(f, Concat(batches));
  }

  /**
   * `streamIds`: the ids of the scanned keys, batch after batch, cut to
   * `limit` when it is truthy: a prefix of the ids of the whole scan, all of
   * them without a truthy limit, and `min(limit, scanned)` of them with one.
   */
  function StreamIds(table: string, batches: seq<seq<string>>, limit: Option<nat>): (ids: seq<string>)
    ensures ids <= KeysToIds(table, Concat(batches))
    ensures limit == None || limit == Some(0) ==> |ids| == SumLengths(batches)
    ensures limit.Some? && limit.value > 0 ==> |ids| == Min(limit.value, SumLengths(batches))
  {
    KeysToIdsConcat(table, batches);
    TakeLimit(Concat(MapSeq(keys => KeysToIds(table, keys), batches)), limit)
  }

  /** The streamed ids are KeyToId of the concatenated scan, cut to the limit. */
  lemma StreamIdsSpec(table: string, batches: seq<seq<string>>, limit: Option<nat>)
    ensures StreamIds(table, batches, limit) == TakeLimit(KeysToIds(table, Concat(batches)), limit)
  {
    KeysToIdsConcat(table, batches);
  }

  /**
   * `streamValues`: the values MGETBUFFER returns for each scan batch, with
   * the missing ones dropped, cut to `limit || Infinity`. `replies[i]` is the
   * reply to the i-th batch. The result is a prefix of the present values of
   * all replies, and all of them without a truthy limit.
   */
  function StreamValues(replies: seq<seq<Option<Bytes>>>, limit: Option<nat>): (values: seq<Bytes>)
    ensures values <= Present(Concat(replies))
    ensures limit == None || limit == Some(0) ==> values == Present(Concat(replies))
  {
    PresentConcat(replies);
    TakeLimit(Concat(MapSeq(Present, replies)), limit)
  }

  /** The streamed values are the present ones of all replies, in order. */
  lemma StreamValuesSpec(replies: seq<seq<Option<Bytes>>>, limit: Option<nat>)
    ensures StreamValues(replies, limit) == TakeLimit(Present(Concat(replies)), limit)
  {
    PresentConcat(replies);
  }

  /** The entries of one scan batch: its ids zipped with the MGETBUFFER reply. */
  function BatchEntries(table: string, keys: seq<string>, bufs: seq<Option<Bytes>>): (entries: seq<(string, Option<Bytes>)>)
    requires |bufs| == |keys|
    ensures |entries| == |keys|
    ensures MapSeq(Fst, entries) == KeysToIds(table, keys)
    ensures MapSeq(Snd, entries) == bufs
  {
    Zip(KeysToIds(table, keys), bufs)
  }

  /**
   * `streamEntries`: every batch's entries, in order, cut to `limit || Infinity`:
   * one entry per scanned key without a truthy limit, `min(limit, scanned)`
   * with one. A missing value stays in the entry.
   */
  function StreamEntries(table: string, batches: seq<seq<string>>, replies: seq<seq<Option<Bytes>>>,
                         limit: Option<nat>): (entries: seq<(string, Option<Bytes>)>)
    requires |replies| == |batches|
    requires forall i :: 0 <= i < |batches| ==> |replies[i]| == |batches[i]|
    ensures limit == None || limit == Some(0) ==> |entries| == SumLengths(batches)
    ensures limit.Some? && limit.value > 0 ==> |entries| == Min(limit.value, SumLengths(batches))
  {
    SumLengthsSame(seq(|batches|, i requires 0 <= i < |batches| => BatchEntries(table, batches[i], replies[i])), batches);
    TakeLimit(Concat(seq(|batches|, i requires 0 <= i < |batches| => BatchEntries(table, batches[i], replies[i]))), limit)
  }

  /**
   * The values of the streamed entries are the MGETBUFFER replies of all
   * batches, in order and missing ones included, under the same limit.
   */
  lemma StreamEntriesValues(table: string, batches: seq<seq<string>>, replies: seq<seq<Option<Bytes>>>,
                            limit: Option<nat>)
    requires |replies| == |batches|
    requires forall i :: 0 <= i < |batches| ==> |replies[i]| == |batches[i]|
    ensures MapSeq(Snd, StreamEntries(table, batches, replies, limit)) == TakeLimit(Concat(replies), limit)
  {
    var perBatch := seq(|batches|, i requires 0 <= i < |batches| => BatchEntries(table, batches[i], replies[i]));
    ConcatMap(Snd, perBatch);
    TakeLimitMap(Snd, Concat(perBatch), limit);
    assert MapSeq(s => MapSeq(Snd, s), perBatch) == replies;
  }

  /** The ids of the streamed entries are the streamed ids, under the same limit. */
  lemma StreamEntriesIds(table: string, batches: seq<seq<string>>, replies: seq<seq<Option<Bytes>>>,
                         limit: Option<nat>)
    requires |replies| == |batches|
    requires forall i :: 0 <= i < |batches| ==> |replies[i]| == |batches[i]|
    ensures MapSeq(Fst, StreamEntries(table, batches, replies, limit)) == StreamIds(table, batches, limit)
  {
    var perBatch := seq(|batches|, i requires 0 <= i < |batches| => BatchEntries(table, batches[i], replies[i]));
    var g := (s: seq<(string, Option<Bytes>)>) => MapSeq(Fst, s);
    ConcatMap(Fst, perBatch);
    TakeLimitMap(Fst, Concat(perBatch), limit);
    assert MapSeq(g, perBatch) == MapSeq(keys => KeysToIds(table, keys), batches);
  }

  /** `count`: SCANCOUNT of the table pattern, which counts every scanned key. */
  function Count(table: string, batches: seq<seq<string>>): (r: Effect<nat>)
    ensures r.calls == [ScanCountCall(Pattern(table))]
    ensures r.result == |StreamIds(table, batches, None)|
  {
    StreamIdsSpec(table, batches, None);
    Effect([ScanCountCall(Pattern(table))], SumLengths(batches))
  }

  /**
   * `incrementBatch`: INCRBATCH of the keyed increments; each reply tuple is
   * reported under the id of its key, with the same number.
   */
  function IncrementBatch(table: string, increments: seq<(string, int)>, reply: seq<(string, int)>)
    : (r: Effect<seq<(string, int)>>)
    ensures r.calls == [IncrBatch(MapSeq((e: (string, int)) => (IdToKey(table, e.0), e.1), increments))]
    ensures |r.result| == |reply|
    ensures forall i, id :: 0 <= i < |reply| && reply[i].0 == IdToKey(table, id) ==> r.result[i] == (id, reply[i].1)
  {
    Effect([IncrBatch(MapSeq((e: (string, int)) => (IdToKey(table, e.0), e.1), increments))],
           MapSeq((e: (string, int)) => (KeyToId(table, e.0), e.1), reply))
  }

  /** `createTable`: drops the table only when asked to. */
  function CreateTable(table: string, dropIfExists: bool): (calls: seq<ClientCall>)
    ensures dropIfExists ==> calls == [DropTableCall(table)]
    ensures !dropIfExists ==> calls == []
  {
    if dropIfExists then [DropTableCall(table)] else []
  }
}
