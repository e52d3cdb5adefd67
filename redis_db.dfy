/**
 * RedisDB (src/redis.db.ts): a CommonDB whose table rows are the Redis keys
 * `table_id`, each holding the JSON text of one entity. It talks to ioredis
 * directly, so each operation is modelled by the RedisCalls it issues and the
 * value it returns, given the server's replies. JSON.stringify, JSON.parse
 * and db-lib's `queryInMemory` are parameters.
 */
module RedisDB {
  import opened Seqs
  import opened Strings
  import opened Interleave
  import opened Client

  /** What one operation sends to ioredis and what it returns. */
  datatype DbEffect<T> = DbEffect(calls: seq<RedisCall>, result: T)

  /** `parseKey`'s result. */
  datatype ParsedKey = ParsedKey(table: string, id: string)

  /** The id is what follows the table name and one separator; the table is passed through unchanged. */
  function ParseKey(table: string, key: string): (r: ParsedKey)
    ensures r.table == table
    ensures |key| > |table| && key[|table|] == '_' ==> Join([key[..|table|], r.id], '_') == key
  {
    ParsedKey(table, if |table| + 1 <= |key| then key[|table| + 1..] else "")
  }

  /** The table and the id joined by `_`, which ParseKey takes back to `id`. */
  function Key(table: string, id: string): (key: string)
    ensures ParseKey(table, key) == ParsedKey(table, id)
    ensures |key| == |table| + 1 + |id| && key[..|table|] == table && key[|table|] == '_'
  {
    assert [table, id][1..] == [id];
    assert Join([id], '_') == id;
    var key := Join([table, id], '_');
    assert key == table + "_" + id;
    assert key[..|table|] == table;
    key
  }

  /** For one table, distinct ids give distinct keys. */
  lemma KeyInjective(table: string, a: string, b: string)
    ensures Key(table, a) == Key(table, b) ==> a == b
  {
    assert ParseKey(table, Key(table, a)).id == a;
  }

  /**
   * The separator also occurs inside names: table `a_b` with id `c` and
   * table `a` with id `b_c` share one key, so a scan of `a_*` also finds
   * the rows of `a_b`.
   */
  lemma TablesOverlap()
    ensures Key("a_b", "c") == Key("a", "b_c")
    ensures ParseKey("a", Key("a_b", "c")).id == "b_c"
  {
    assert Key("a_b", "c") == "a_b_c";
    assert Key("a", "b_c") == "a_b_c";
  }

  /**
   * `saveBatch`: one MSET of the flat list `[key(table, id0), json0, key(table, id1), json1, ...]`;
   * nothing for no entities.
   */
  function SaveBatch<T>(table: string, dbms: seq<T>, idOf: T -> string, serialize: T -> string)
    : (calls: seq<RedisCall>)
    ensures |dbms| == 0 ==> calls == []
    ensures |dbms| > 0 ==> |calls| == 1 && calls[0].MSetCmd? && |calls[0].args| == 2 * |dbms|
    ensures |dbms| > 0 ==> forall i :: 0 <= i < |dbms| ==>
              calls[0].args[2 * i] == Key(table, idOf(dbms[i])) && calls[0].args[2 * i + 1] == serialize(dbms[i])
  {
    if |dbms| == 0 then []
    else
      var keys := MapSeq((d: T) => Key(table, idOf(d)), dbms);
      var texts := MapSeq(serialize, dbms);
      InterleaveAt(keys, texts);
      [MSetCmd(Interleave.Interleave(keys, texts))]
  }

  /** The MSET list splits back into the keys and the JSON texts. */
  lemma SaveBatchSplits<T>(table: string, dbms: seq<T>, idOf: T -> string, serialize: T -> string)
    requires |dbms| > 0
    ensures Evens(SaveBatch(table, dbms, idOf, serialize)[0].args) == MapSeq((d: T) => Key(table, idOf(d)), dbms)
    ensures Odds(SaveBatch(table, dbms, idOf, serialize)[0].args) == MapSeq(serialize, dbms)
  {
    InterleaveSplits(MapSeq((d: T) => Key(table, idOf(d)), dbms), MapSeq(serialize, dbms));
  }

  /** An MGET reply used as a condition: null and the empty string are falsy. */
  function TruthyText(reply: Option<string>): (kept: Option<string>)
    ensures kept.Some? <==> reply.Some? && reply.value != ""
    ensures kept.Some? ==> kept == reply
  {
    if reply.Some? && reply.value != "" then reply else None
  }

  /**
   * `getByIds`: one MGET of the keys; the truthy replies, in order, each
   * deserialized; nothing is sent for no ids.
   */
  function GetByIds<T>(table: string, ids: seq<string>, replies: seq<Option<string>>, parse: string -> T)
    : (r: DbEffect<seq<T>>)
    requires |replies| == |ids|
    ensures |ids| == 0 ==> r.calls == [] && r.result == []
    ensures |ids| > 0 ==> r.calls == [MGetCmd(MapSeq(id => Key(table, id), ids))]
    ensures |r.result| <= |ids|
  {
    if |ids| == 0 then DbEffect([], [])
    else DbEffect([MGetCmd(MapSeq(id => Key(table, id), ids))], MapSeq(parse, Present(MapSeq(TruthyText, replies))))
  }

  /**
   * The result of `getByIds` is the deserialized reply at each position that
   * holds a non-empty string, in increasing position order, and at no other.
   */
  lemma GetByIdsSpec<T>(table: string, ids: seq<string>, replies: seq<Option<string>>, parse: string -> T)
    requires |replies| == |ids|
    ensures var p, r := PresentIndices(MapSeq(TruthyText, replies)), GetByIds(table, ids, replies, parse).result;
            |r| == |p|
            && (forall j :: 0 <= j < |p| ==>
                  p[j] < |ids| && replies[p[j]].Some? && replies[p[j]].value != ""
                  && r[j] == parse(replies[p[j]].value))
            && (forall j, k :: 0 <= j < k < |p| ==> p[j] < p[k])
            && (forall i :: 0 <= i < |ids| ==> (replies[i].Some? && replies[i].value != "" <==> i in p))
  {
    var truthy := MapSeq(TruthyText, replies);
    PresentSpec(truthy);
    PresentIndicesSpec(truthy);
  }

  /** When no reply is a non-empty string, `getByIds` finds nothing. */
  lemma GetByIdsNone<T>(table: string, ids: seq<string>, replies: seq<Option<string>>, parse: string -> T)
    requires |replies| == |ids|
    ensures (forall i :: 0 <= i < |replies| ==> replies[i].None? || replies[i].value == "") ==>
              GetByIds(table, ids, replies, parse).result == []
  {
    GetByIdsSpec(table, ids, replies, parse);
    var p := PresentIndices(MapSeq(TruthyText, replies));
    if |p| > 0 {
      assert p[0] < |ids|;
    }
  }

  /** DEL count 1 under a truthy id: the id goes into the result. */
  function Deleted(ids: seq<string>, counts: seq<int>): (reported: seq<Option<string>>)
    requires |counts| == |ids|
    ensures |reported| == |ids|
    ensures forall i :: 0 <= i < |ids| ==> (reported[i].Some? <==> counts[i] == 1 && ids[i] != "")
    ensures forall i :: 0 <= i < |ids| && reported[i].Some? ==> reported[i].value == ids[i]
  {
    seq(|ids|, i requires 0 <= i < |ids| => if counts[i] == 1 && ids[i] != "" then Some(ids[i]) else None)
  }

  /**
   * `deleteByIds`: one `DEL key(table, id)` per id, and the ids whose DEL
   * answered 1, after `filter(Boolean)`; nothing for no ids. `counts[i]` is
   * the reply to the i-th DEL.
   */
  function DeleteByIds(table: string, ids: seq<string>, counts: seq<int>): (r: DbEffect<seq<string>>)
    requires |counts| == |ids|
    ensures |r.calls| == |ids|
    ensures forall i :: 0 <= i < |ids| ==> r.calls[i] == DelCmd([Key(table, ids[i])])
    ensures |r.result| <= |ids|
  {
    if |ids| == 0 then DbEffect([], [])
    else DbEffect(MapSeq(id => DelCmd([Key(table, id)]), ids), Present(Deleted(ids, counts)))
  }

  /**
   * The result of `deleteByIds` lists, in input order, exactly the ids whose
   * DEL count is 1 (and which are not the empty string, which
   * `filter(Boolean)` also drops).
   */
  lemma DeleteByIdsSpec(table: string, ids: seq<string>, counts: seq<int>)
    requires |counts| == |ids|
    ensures var p, r := PresentIndices(Deleted(ids, counts)), DeleteByIds(table, ids, counts).result;
            |r| == |p|
            && (forall j :: 0 <= j < |p| ==> p[j] < |ids| && counts[p[j]] == 1 && r[j] == ids[p[j]])
            && (forall j, k :: 0 <= j < k < |p| ==> p[j] < p[k])
            && (forall i :: 0 <= i < |ids| ==> (counts[i] == 1 && ids[i] != "" <==> i in p))
  {
    var d := Deleted(ids, counts);
    PresentSpec(d);
    PresentIndicesSpec(d);
    if |ids| == 0 {
      assert PresentIndices(d) == [];
    }
  }

  /** When every DEL answers 1 and no id is empty, every id is reported deleted. */
  lemma {:induction false} DeleteByIdsAll(table: string, ids: seq<string>, counts: seq<int>)
    requires |counts| == |ids|
    requires forall i :: 0 <= i < |ids| ==> counts[i] == 1 && ids[i] != ""
    ensures DeleteByIds(table, ids, counts).result == ids
  {
    if |ids| > 0 {
      var n := |ids| - 1;
      assert Deleted(ids, counts)[..n] == Deleted(ids[..n], counts[..n]);
      DeleteByIdsAll(table, ids[..n], counts[..n]);
      if n == 0 {
        assert Present(Deleted(ids[..n], counts[..n])) == [];
      }
      assert ids == ids[..n] + [ids[n]];
    }
  }

  /** The scan pattern of a table. */
  function Pattern(table: string): (pattern: string)
  {
    table + "_*"
  }

  /** Every MGET reply has one entry per scanned key. */
  predicate RepliesFit<A, B>(batches: seq<seq<A>>, replies: seq<seq<B>>)
  {
    |replies| == |batches| && forall i :: 0 <= i < |batches| ==> |replies[i]| == |batches[i]|
  }

  /**
   * One scan batch: its ids, their entities, then queryInMemory over them.
   * The refetch reads back exactly the scanned keys of the table, and a
   * batch whose keys all came back empty gives just what the query makes of
   * nothing.
   */
  function QueryBatch<T>(table: string, keys: seq<string>, replies: seq<Option<string>>, parse: string -> T,
                         query: seq<T> -> seq<T>): (found: seq<T>)
    requires |replies| == |keys|
    ensures |keys| > 0 && (forall i :: 0 <= i < |keys| ==> |keys[i]| > |table| && keys[i][..|table| + 1] == table + "_") ==>
              GetByIds(table, MapSeq(k => ParseKey(table, k).id, keys), replies, parse).calls == [MGetCmd(keys)]
    ensures (forall i :: 0 <= i < |replies| ==> replies[i].None? || replies[i].value == "") ==> found == query([])
  {
    var ids := MapSeq(k => ParseKey(table, k).id, keys);
    ScannedKeysRefetched(table, keys);
    GetByIdsNone(table, ids, replies, parse);
    query(GetByIds(table, ids, replies, parse).result)
  }

  /**
   * `streamQuery`: nothing unless `runQueries` is set; otherwise the query
   * applied to each SCAN batch of `table_*`, batch after batch.
   */
  function StreamQuery<T>(runQueries: bool, table: string, batches: seq<seq<string>>,
                          replies: seq<seq<Option<string>>>, parse: string -> T, query: seq<T> -> seq<T>)
    : (r: seq<T>)
    requires RepliesFit(batches, replies)
    ensures !runQueries ==> r == []
  {
    if !runQueries then []
    else Concat(seq(|batches|, i requires 0 <= i < |batches| => QueryBatch(table, batches[i], replies[i], parse, query)))
  }

  /** A scanned key of the table is fetched back under itself. */
  lemma ScannedKeyRefetched(table: string, key: string)
    requires |key| > |table| && key[..|table| + 1] == table + "_"
    ensures Key(table, ParseKey(table, key).id) == key
  {
    assert key[|table|] == (table + "_")[|table|];
    assert key[..|table|] == key[..|table| + 1][..|table|];
  }

  /** Scanned keys of the table, turned into ids and back into keys, are the same keys. */
  lemma ScannedKeysRefetched(table: string, keys: seq<string>)
    ensures (forall i :: 0 <= i < |keys| ==> |keys[i]| > |table| && keys[i][..|table| + 1] == table + "_") ==>
              MapSeq(id => Key(table, id), MapSeq(k => ParseKey(table, k).id, keys)) == keys
  {
    if forall i :: 0 <= i < |keys| ==> |keys[i]| > |table| && keys[i][..|table| + 1] == table + "_" {
      forall i | 0 <= i < |keys| ensures Key(table, ParseKey(table, keys[i]).id) == keys[i] {
        ScannedKeyRefetched(table, keys[i]);
      }
    }
  }

  /** `runQuery`: the query applied once more to everything the stream gave. */
  function RunQuery<T>(runQueries: bool, table: string, batches: seq<seq<string>>,
                       replies: seq<seq<Option<string>>>, parse: string -> T, query: seq<T> -> seq<T>)
    : (r: seq<T>)
    requires RepliesFit(batches, replies)
    ensures !runQueries ==> r == query([])
  {
    query(StreamQuery(runQueries, table, batches, replies, parse, query))
  }

  /** `runQueryCount`: the number of entities `runQuery` returns. */
  function RunQueryCount<T>(runQueries: bool, table: string, batches: seq<seq<string>>,
                            replies: seq<seq<Option<string>>>, parse: string -> T, query: seq<T> -> seq<T>)
    : (n: nat)
    requires RepliesFit(batches, replies)
    ensures n == |RunQuery(runQueries, table, batches, replies, parse, query)|
    ensures !runQueries ==> n == |query([])|
  {
    |RunQuery(runQueries, table, batches, replies, parse, query)|
  }

  /**
   * `deleteByQuery`: one DEL per entity `runQuery` returned, under its own
   * id, and the ids that answered 1.
   */
  function DeleteByQuery<T>(runQueries: bool, table: string, batches: seq<seq<string>>,
                            replies: seq<seq<Option<string>>>, parse: string -> T, query: seq<T> -> seq<T>,
                            idOf: T -> string, counts: seq<int>)
    : (r: DbEffect<seq<string>>)
    requires RepliesFit(batches, replies)
    requires |counts| == |RunQuery(runQueries, table, batches, replies, parse, query)|
    ensures var found := RunQuery(runQueries, table, batches, replies, parse, query);
            |r.calls| == |found|
            && (forall i :: 0 <= i < |found| ==> r.calls[i] == DelCmd([Key(table, idOf(found[i]))]))
            && |r.result| <= |found|
  {
    DeleteByIds(table, MapSeq(idOf, RunQuery(runQueries, table, batches, replies, parse, query)), counts)
  }
}
