/**
 * RedisKeyValueDB2 (src/redisKeyValueDB2.ts): the same hash-per-table layout
 * as RedisHashKeyValueDB, whose `getByIds`, `deleteByIds`, `saveBatch` and
 * `createTable` it repeats line for line (HashKeyValueDB models those). It
 * splits an HSCAN batch differently: `forEach` with an `index % 2` test for
 * ids and values, `_chunk(list, 2)` for entries.
 */
module KeyValueDB2 {
  import opened Seqs
  import opened Interleave
  import HashKeyValueDB

  /** The elements whose index has the given parity, in order. */
  function KeepParity<T>(l: seq<T>, parity: nat): (kept: seq<T>)
    requires parity < 2
  {
    if |l| == 0 then []
    else KeepParity(l[..|l| - 1], parity) + (if (|l| - 1) % 2 == parity then [l[|l| - 1]] else [])
  }

  /** Keeping index parity 0 gives the even positions, parity 1 the odd ones. */
  lemma {:induction false} KeepParityHalves<T>(l: seq<T>)
    ensures KeepParity(l, 0) == Evens(l)
    ensures KeepParity(l, 1) == Odds(l)
  {
    if |l| > 0 {
      var n := |l| - 1;
      KeepParityHalves(l[..n]);
      if n % 2 == 0 {
        assert Evens(l) == Evens(l[..n]) + [l[n]];
        assert Odds(l) == Odds(l[..n]);
      } else {
        assert Evens(l) == Evens(l[..n]);
        assert Odds(l) == Odds(l[..n]) + [l[n]];
      }
    }
  }

  /** The ids of one HSCAN batch: a pass over every index that keeps the elements at even indices. */
  method ParityIds(list: seq<string>) returns (keys: seq<string>)
    ensures keys == Evens(list)
    ensures |keys| == (|list| + 1) / 2
  {
    keys := [];
    for index := 0 to |list|
      invariant keys == KeepParity(list[..index], 0)
    {
      assert list[..index + 1][..index] == list[..index];
      if index % 2 == 0 {
        keys := keys + [list[index]];
      }
    }
    assert list[..|list|] == list;
    KeepParityHalves(list);
  }

  /** The values of one HSCAN batch: a pass that keeps the elements at odd indices, then each as a Buffer. */
  method ParityValues(list: seq<string>, bufferFrom: string -> Bytes) returns (values: seq<Bytes>)
    ensures values == MapSeq(bufferFrom, Odds(list))
    ensures |values| == |list| / 2
  {
    var strings: seq<string> := [];
    for index := 0 to |list|
      invariant strings == KeepParity(list[..index], 1)
    {
      assert list[..index + 1][..index] == list[..index];
      if index % 2 == 1 {
        strings := strings + [list[index]];
      }
    }
    assert list[..|list|] == list;
    KeepParityHalves(list);
    values := MapSeq(bufferFrom, strings);
  }

  /** `_chunk(l, 2)`: consecutive pieces of two, the last one shorter when `l` has odd length. */
  function Chunk2<T>(l: seq<T>): (chunks: seq<seq<T>>)
    ensures |chunks| == (|l| + 1) / 2
    ensures forall k :: 0 <= k < |chunks| ==> chunks[k] == l[2 * k..Min(2 * k + 2, |l|)]
    decreases |l|
  {
    if |l| == 0 then []
    else if |l| <= 2 then [l]
    else [l[..2]] + Chunk2(l[2..])
  }

  /** Concatenating a leading batch in front. */
  lemma {:induction false} ConcatCons<T>(x: seq<T>, rest: seq<seq<T>>)
    ensures Concat([x] + rest) == x + Concat(rest)
  {
    var c := [x] + rest;
    if |rest| == 0 {
      assert c[..|c| - 1] == [];
    } else {
      var n := |rest| - 1;
      var init := rest[..n];
      ConcatCons(x, init);
      assert c[..|c| - 1] == [x] + init;
      assert c[|c| - 1] == rest[n];
      assert Concat(c) == Concat([x] + init) + rest[n];
      assert Concat(rest) == Concat(init) + rest[n];
    }
  }

  /** The chunks put back together are the list. */
  lemma {:induction false} Chunk2Concat<T>(l: seq<T>)
    ensures Concat(Chunk2(l)) == l
    decreases |l|
  {
    if 0 < |l| <= 2 {
      var c := Chunk2(l);
      assert c == [l];
      assert c[..|c| - 1] == [];
    } else if |l| > 2 {
      var rest := Chunk2(l[2..]);
      assert Chunk2(l) == [l[..2]] + rest;
      Chunk2Concat(l[2..]);
      ConcatCons(l[..2], rest);
      assert l[..2] + l[2..] == l;
    }
  }

  /** `[k, Buffer.from(String(v))]` for a chunk `[k, v]`; a lone `k` has `v` undefined. */
  function ChunkEntry(chunk: seq<string>, bufferFrom: string -> Bytes): (entry: (string, Bytes))
    requires |chunk| >= 1
  {
    (chunk[0], bufferFrom(if |chunk| >= 2 then chunk[1] else "undefined"))
  }

  /** The entries of one HSCAN batch. */
  function BatchEntries(list: seq<string>, bufferFrom: string -> Bytes): (entries: seq<(string, Bytes)>)
    ensures |entries| == (|list| + 1) / 2
  {
    var chunks := Chunk2(list);
    seq(|chunks|, k requires 0 <= k < |chunks| => ChunkEntry(chunks[k], bufferFrom))
  }

  /** A full chunk `[k, v]` gives the entry `(k, Buffer.from(v))`. */
  lemma PairEntry(list: seq<string>, bufferFrom: string -> Bytes, k: nat)
    requires 2 * k + 2 <= |list|
    ensures BatchEntries(list, bufferFrom)[k] == (list[2 * k], bufferFrom(list[2 * k + 1]))
  {
    var c := Chunk2(list)[k];
    assert Min(2 * k + 2, |list|) == 2 * k + 2;
    assert c == list[2 * k..2 * k + 2];
    assert |c| == 2 && c[0] == list[2 * k] && c[1] == list[2 * k + 1];
  }

  /** On a list of even length the chunked entries are the zip of fields and values. */
  lemma ChunkEntriesEven(list: seq<string>, bufferFrom: string -> Bytes)
    requires |list| % 2 == 0
    ensures BatchEntries(list, bufferFrom) == HashKeyValueDB.BatchEntryList(list, bufferFrom)
    ensures forall k :: 0 <= k < |list| / 2 ==> BatchEntries(list, bufferFrom)[k] == (list[2 * k], bufferFrom(list[2 * k + 1]))
  {
    forall k | 0 <= k < |list| / 2
      ensures BatchEntries(list, bufferFrom)[k] == (list[2 * k], bufferFrom(list[2 * k + 1]))
    {
      PairEntry(list, bufferFrom, k);
    }
  }

  /**
   * On a list of odd length every field but the last gets its value, and the
   * last field gets `Buffer.from("undefined")`.
   */
  lemma ChunkEntriesOdd(list: seq<string>, bufferFrom: string -> Bytes)
    requires |list| % 2 == 1
    ensures forall k :: 0 <= k < |list| / 2 ==> BatchEntries(list, bufferFrom)[k] == (list[2 * k], bufferFrom(list[2 * k + 1]))
    ensures BatchEntries(list, bufferFrom)[|list| / 2] == (list[|list| - 1], bufferFrom("undefined"))
  {
    forall k | 0 <= k < |list| / 2
      ensures BatchEntries(list, bufferFrom)[k] == (list[2 * k], bufferFrom(list[2 * k + 1]))
    {
      PairEntry(list, bufferFrom, k);
    }
    var m := |list| / 2;
    var c := Chunk2(list)[m];
    assert Min(2 * m + 2, |list|) == |list| == 2 * m + 1;
    assert c == list[2 * m..2 * m + 1];
    assert |c| == 1 && c[0] == list[|list| - 1];
  }

  /** Keeping the even indices of each batch is taking its fields. */
  lemma KeepEvensBatches(batches: seq<seq<string>>)
    ensures MapSeq(list => KeepParity(list, 0), batches) == MapSeq(Evens, batches)
  {
    forall i | 0 <= i < |batches| ensures KeepParity(batches[i], 0) == Evens(batches[i]) {
      KeepParityHalves(batches[i]);
    }
  }

  /** Keeping the odd indices of each batch, as Buffers, is taking its values. */
  lemma KeepOddsBatches(batches: seq<seq<string>>, bufferFrom: string -> Bytes)
    ensures MapSeq(list => MapSeq(bufferFrom, KeepParity(list, 1)), batches)
            == MapSeq(list => HashKeyValueDB.BatchValueList(list, bufferFrom), batches)
  {
    forall i | 0 <= i < |batches|
      ensures MapSeq(bufferFrom, KeepParity(batches[i], 1)) == HashKeyValueDB.BatchValueList(batches[i], bufferFrom)
    {
      KeepParityHalves(batches[i]);
    }
  }

  /**
   * `streamIds`: the even-index elements of every batch, cut to `limit || Infinity`.
   * On field/value batches that is half the scanned length without a truthy
   * limit, and `min(limit, half)` with one.
   */
  function StreamIds(batches: seq<seq<string>>, limit: Option<nat>): (ids: seq<string>)
    ensures HashKeyValueDB.FieldValueBatches(batches) && (limit == None || limit == Some(0)) ==>
              2 * |ids| == SumLengths(batches)
    ensures HashKeyValueDB.FieldValueBatches(batches) && limit.Some? && limit.value > 0 ==>
              |ids| == Min(limit.value, SumLengths(batches) / 2)
  {
    KeepEvensBatches(batches);
    SumLengthsDouble(batches, MapSeq(Evens, batches));
    TakeLimit(Concat(MapSeq(list => KeepParity(list, 0), batches)), limit)
  }

  /**
   * `streamValues`: the odd-index elements of every batch as Buffers, cut to
   * `limit || Infinity`. A batch of odd length does not fail here. On
   * field/value batches the count is as for the ids.
   */
  function StreamValues(batches: seq<seq<string>>, bufferFrom: string -> Bytes, limit: Option<nat>): (values: seq<Bytes>)
    ensures HashKeyValueDB.FieldValueBatches(batches) && (limit == None || limit == Some(0)) ==>
              2 * |values| == SumLengths(batches)
    ensures HashKeyValueDB.FieldValueBatches(batches) && limit.Some? && limit.value > 0 ==>
              |values| == Min(limit.value, SumLengths(batches) / 2)
  {
    KeepOddsBatches(batches, bufferFrom);
    SumLengthsDouble(batches, MapSeq(list => HashKeyValueDB.BatchValueList(list, bufferFrom), batches));
    TakeLimit(Concat(MapSeq(list => MapSeq(bufferFrom, KeepParity(list, 1)), batches)), limit)
  }

  /**
   * `streamEntries`: the chunked entries of every batch, cut to `limit || Infinity`.
   * On field/value batches that is one entry per pair without a truthy
   * limit, and `min(limit, pairs)` with one.
   */
  function StreamEntries(batches: seq<seq<string>>, bufferFrom: string -> Bytes, limit: Option<nat>)
    : (entries: seq<(string, Bytes)>)
    ensures HashKeyValueDB.FieldValueBatches(batches) && (limit == None || limit == Some(0)) ==>
              2 * |entries| == SumLengths(batches)
    ensures HashKeyValueDB.FieldValueBatches(batches) && limit.Some? && limit.value > 0 ==>
              |entries| == Min(limit.value, SumLengths(batches) / 2)
  {
    SumLengthsDouble(batches, MapSeq(list => BatchEntries(list, bufferFrom), batches));
    TakeLimit(Concat(MapSeq(list => BatchEntries(list, bufferFrom), batches)), limit)
  }

  /** The ids streamed by the two hash adapters agree on every scan, even or odd. */
  lemma StreamIdsAgree(batches: seq<seq<string>>, limit: Option<nat>)
    ensures StreamIds(batches, limit) == HashKeyValueDB.StreamIds(batches, limit)
  {
    KeepEvensBatches(batches);
  }

  /** On field/value batches the values streamed by the two hash adapters agree. */
  lemma StreamValuesAgree(batches: seq<seq<string>>, bufferFrom: string -> Bytes, limit: Option<nat>)
    requires HashKeyValueDB.FieldValueBatches(batches)
    ensures StreamValues(batches, bufferFrom, limit) == HashKeyValueDB.StreamValues(batches, bufferFrom, limit)
  {
    KeepOddsBatches(batches, bufferFrom);
  }

  /** On field/value batches the entries streamed by the two hash adapters agree. */
  lemma StreamEntriesAgree(batches: seq<seq<string>>, bufferFrom: string -> Bytes, limit: Option<nat>)
    requires HashKeyValueDB.FieldValueBatches(batches)
    ensures StreamEntries(batches, bufferFrom, limit) == HashKeyValueDB.StreamEntries(batches, bufferFrom, limit)
  {
    forall i | 0 <= i < |batches|
      ensures BatchEntries(batches[i], bufferFrom) == HashKeyValueDB.BatchEntryList(batches[i], bufferFrom)
    {
      ChunkEntriesEven(batches[i], bufferFrom);
    }
    assert MapSeq(list => BatchEntries(list, bufferFrom), batches)
        == seq(|batches|, i requires 0 <= i < |batches| => HashKeyValueDB.BatchEntryList(batches[i], bufferFrom));
  }
}
