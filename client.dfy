/**
 * RedisClient (src/redisClient.ts): a wrapper around an ioredis client that
 * is created lazily on first use, with default options merged under the
 * caller's. The model records what the wrapper sends to the underlying
 * client (`sent`) and what it writes to its logger (`logged`); the server's
 * replies are parameters.
 */
module Client {
  import opened Seqs
  import opened Records
  import opened Strings

  /** A value in an ioredis options object. */
  datatype OptionValue = Flag(flag: bool) | Text(text: string) | Number(number: int)

  type RedisOptions = map<string, OptionValue>

  datatype Logger = Console | Custom(name: string)

  /** RedisClientCfg as the caller passes it: both parts may be absent. */
  datatype ClientCfg = ClientCfg(redisOptions: Option<RedisOptions>, logger: Option<Logger>)

  /** The configuration after the constructor has filled in the defaults. */
  datatype ResolvedCfg = ResolvedCfg(redisOptions: RedisOptions, logger: Logger)

  const DefaultRedisOptions: RedisOptions :=
    map["showFriendlyErrorStack" := Flag(true), "lazyConnect" := Flag(true)]

  /**
   * The constructor's configuration: the caller's logger if given, else the
   * console; every option the caller gives, and each default the caller does
   * not override.
   */
  function MergeCfg(cfg: ClientCfg): (r: ResolvedCfg)
    ensures r.logger == (if cfg.logger.Some? then cfg.logger.value else Console)
    ensures forall k :: k in r.redisOptions <==>
              k in DefaultRedisOptions || (cfg.redisOptions.Some? && k in cfg.redisOptions.value)
    ensures cfg.redisOptions.Some? ==>
              forall k :: k in cfg.redisOptions.value ==> r.redisOptions[k] == cfg.redisOptions.value[k]
    ensures forall k :: k in DefaultRedisOptions && (cfg.redisOptions.None? || k !in cfg.redisOptions.value) ==>
              r.redisOptions[k] == DefaultRedisOptions[k]
  {
    var given := if cfg.redisOptions.Some? then cfg.redisOptions.value else map[];
    ResolvedCfg(DefaultRedisOptions + given, if cfg.logger.Some? then cfg.logger.value else Console)
  }

  /** The underlying ioredis client, known by the options it was created with. */
  datatype Connection = Connection(options: RedisOptions)

  /** A call on the underlying ioredis client (or on one of its pipelines). */
  datatype RedisCall =
    | ConnectCmd
    | QuitCmd
    | HGetAllCmd(key: string)
    | HSetCmd(key: string, record: Record<Bytes>)
    | CallCmd(command: string, args: seq<string>)
    | HIncrByCmd(key: string, field: string, increment: int)
    | IncrByCmd(key: string, amount: int)
    | ScanCmd(pattern: string)
    | HScanCmd(key: string, pattern: string)
    | DelCmd(keys: seq<string>)
    | SetExAtCmd(key: string, value: Bytes, expireAt: int)
    | MSetCmd(args: seq<string>)
    | MGetCmd(keys: seq<string>)
    | PipelineCmd(queued: seq<RedisCall>)

  /** A call an adapter makes on a RedisClient. */
  datatype ClientCall =
    | MGetBuffer(keys: seq<string>)
    | Del(keys: seq<string>)
    | MSetBuffer(record: Record<Bytes>)
    | WithPipeline(queued: seq<RedisCall>)
    | HMGetBuffer(key: string, fields: seq<string>)
    | HDel(key: string, fields: seq<string>)
    | HSet(key: string, record: Record<Bytes>)
    | HSetWithTTL(key: string, record: Record<Bytes>, expireAt: int)
    | DropTableCall(table: string)
    | IncrBatch(increments: seq<(string, int)>)
    | ScanCountCall(pattern: string)

  /** What an adapter operation does: the calls it makes on the client, and what it returns. */
  datatype Effect<T> = Effect(calls: seq<ClientCall>, result: T)

  /** What `hgetall` answers: null for a hash with no fields, otherwise the fetched record. */
  function HgetallResult(fetched: map<string, string>): (r: Option<map<string, string>>)
    ensures r == None <==> |fetched| == 0
    ensures r.Some? ==> r.value == fetched
  {
    if |fetched| == 0 then None else Some(fetched)
  }

  /** The command line `HEXPIREAT key expireAt FIELDS n f1 ... fn`. */
  function HExpireAtLine(key: string, fields: seq<string>, expireAt: int): (line: string)
  {
    "HEXPIREAT" + " " + key + " " + Decimal(expireAt) + " " + "FIELDS" + " " + Decimal(|fields|) + " " + Join(fields, ' ')
  }

  /**
   * The command line cut at every space: its first word is the command and
   * the remaining words are its arguments. Whatever the key and the field
   * names hold, the command is HEXPIREAT.
   */
  function HExpireAtCall(key: string, fields: seq<string>, expireAt: int): (call: RedisCall)
    ensures call.CallCmd? && call.command == "HEXPIREAT"
  {
    var rest := key + " " + Decimal(expireAt) + " " + "FIELDS" + " " + Decimal(|fields|) + " " + Join(fields, ' ');
    assert HExpireAtLine(key, fields, expireAt) == "HEXPIREAT" + [' '] + rest;
    SplitAtSeparator("HEXPIREAT", rest, ' ');
    var words := Split(HExpireAtLine(key, fields, expireAt), ' ');
    CallCmd(words[0], words[1..])
  }

  /**
   * When neither the key nor a field name holds a space, the expire call is
   * HEXPIREAT with `[key, expireAt, "FIELDS", n, f1, ..., fn]`; with no
   * fields at all the split leaves one empty trailing argument.
   */
  lemma HExpireAtArgs(key: string, fields: seq<string>, expireAt: int)
    requires ' ' !in key
    requires forall i :: 0 <= i < |fields| ==> ' ' !in fields[i]
    ensures HExpireAtCall(key, fields, expireAt)
            == CallCmd("HEXPIREAT", [key, Decimal(expireAt), "FIELDS", Decimal(|fields|)]
                                    + (if |fields| == 0 then [""] else fields))
  {
    var t, n, list := Decimal(expireAt), Decimal(|fields|), Join(fields, ' ');
    var w := ["HEXPIREAT", key, t, "FIELDS", n];
    var last := if |fields| == 0 then [""] else fields;
    assert Split(list, ' ') == last by {
      if |fields| > 0 {
        SplitJoin(fields, ' ');
      }
    }
    var words := Split(HExpireAtLine(key, fields, expireAt), ' ');
    assert words == w + last by {
      JoinFiveWords("HEXPIREAT", key, t, "FIELDS", n, list);
      assert ' ' !in "HEXPIREAT" && ' ' !in "FIELDS";
      SplitLeadingWords(w, list);
    }
    assert (w + last)[1..] == [key, t, "FIELDS", n] + last;
  }

  /** Five words joined by spaces, then a space and one more piece. */
  lemma JoinFiveWords(a: string, b: string, c: string, d: string, e: string, list: string)
    ensures a + " " + b + " " + c + " " + d + " " + e + " " + list == Join([a, b, c, d, e], ' ') + " " + list
  {
    assert " " == [' '];
    JoinCons(d, [e], ' ');
    assert [d] + [e] == [d, e];
    JoinCons(c, [d, e], ' ');
    assert [c] + [d, e] == [c, d, e];
    JoinCons(b, [c, d, e], ' ');
    assert [b] + [c, d, e] == [b, c, d, e];
    JoinCons(a, [b, c, d, e], ' ');
    assert [a] + [b, c, d, e] == [a, b, c, d, e];
  }

  /** Words free of spaces, joined and followed by one more piece, split back into themselves. */
  lemma {:induction false} SplitLeadingWords(words: seq<string>, rest: string)
    requires |words| >= 1
    requires forall i :: 0 <= i < |words| ==> ' ' !in words[i]
    ensures Split(Join(words, ' ') + " " + rest, ' ') == words + Split(rest, ' ')
  {
    if |words| == 1 {
      SplitAtSeparator(words[0], rest, ' ');
    } else {
      var later := words[1..];
      var tail := Join(later, ' ') + " " + rest;
      calc {
        Split(Join(words, ' ') + " " + rest, ' ');
        { assert Join(words, ' ') + " " + rest == words[0] + [' '] + tail; }
        Split(words[0] + [' '] + tail, ' ');
        { SplitAtSeparator(words[0], tail, ' '); }
        [words[0]] + Split(tail, ' ');
        { assert forall i :: 0 <= i < |later| ==> later[i] == words[i + 1];
          SplitLeadingWords(later, rest); }
        [words[0]] + (later + Split(rest, ' '));
        { assert [words[0]] + later == words; }
        words + Split(rest, ' ');
      }
    }
  }

  /** What the first creation of the underlying client writes to the log. */
  function CreationLog(redis: Option<Connection>): (lines: seq<string>)
  {
    if redis.None? then ["redis: created"] else []
  }

  function DroppedTableLine(table: string, count: nat): (line: string)
  {
    "redis: dropped table " + table + " (" + Decimal(count) + " keys)"
  }

  function ClearedLine(count: nat): (line: string)
  {
    "redis: clearAll removed " + Decimal(count) + " keys"
  }

  /** `count += keys.length` over the scan batches. */
  method CountKeys(batches: seq<seq<string>>) returns (count: nat)
    ensures count == SumLengths(batches)
  {
    count := 0;
    for i := 0 to |batches|
      invariant count == SumLengths(batches[..i])
    {
      assert batches[..i + 1][..i] == batches[..i];
      count := count + |batches[i]|;
    }
    assert batches[..|batches|] == batches;
  }

  /** `count += keyValueList.length / 2` over the HSCAN batches, in JavaScript numbers. */
  method HalfCount(batches: seq<seq<string>>) returns (count: real)
    ensures count == (SumLengths(batches) as real) / 2.0
  {
    count := 0.0;
    for i := 0 to |batches|
      invariant count == (SumLengths(batches[..i]) as real) / 2.0
    {
      assert batches[..i + 1][..i] == batches[..i];
      count := count + (|batches[i]| as real) / 2.0;
    }
    assert batches[..|batches|] == batches;
  }

  /** On HSCAN batches of even length the half-count is a whole number. */
  lemma {:induction false} EvenBatchesSum(batches: seq<seq<string>>)
    requires forall i :: 0 <= i < |batches| ==> |batches[i]| % 2 == 0
    ensures SumLengths(batches) % 2 == 0
  {
    if |batches| > 0 {
      EvenBatchesSum(batches[..|batches| - 1]);
    }
  }

  /** One pipelined DEL per scan batch, and the number of keys they name. */
  method QueueDeletes(batches: seq<seq<string>>) returns (queued: seq<RedisCall>, count: nat)
    ensures |queued| == |batches|
    ensures forall i :: 0 <= i < |batches| ==> queued[i] == DelCmd(batches[i])
    ensures count == SumLengths(batches)
  {
    queued, count := [], 0;
    for i := 0 to |batches|
      invariant |queued| == i
      invariant forall j :: 0 <= j < i ==> queued[j] == DelCmd(batches[j])
      invariant count == SumLengths(batches[..i])
    {
      assert batches[..i + 1][..i] == batches[..i];
      queued := queued + [DelCmd(batches[i])];
      count := count + |batches[i]|;
    }
    assert batches[..|batches|] == batches;
  }

  class RedisClient {
    const cfg: ResolvedCfg
    var connected: bool
    /** `_redis`, the lazily created ioredis client. */
    var redis: Option<Connection>
    /** Everything sent to the underlying client, in order. */
    var sent: seq<RedisCall>
    /** Everything written through `cfg.logger.log`, in order. */
    var logged: seq<string>
    /** How many times the underlying client has been created. */
    ghost var creations: nat

    ghost predicate Valid()
      reads this
    {
      && creations <= 1
      && (redis.Some? <==> creations == 1)
      && (redis.Some? ==> redis.value == Connection(cfg.redisOptions))
      && (connected ==> redis.Some?)
    }

    constructor (input: ClientCfg)
      ensures Valid()
      ensures cfg == MergeCfg(input)
      ensures !connected && redis == None && sent == [] && logged == []
    {
      cfg := MergeCfg(input);
      connected := false;
      redis := None;
      sent := [];
      logged := [];
      creations := 0;
    }

    /**
     * `redis()`: the first call creates the underlying client from the merged
     * options and sets `connected`; every later call returns that same client
     * and changes nothing.
     */
    method Redis() returns (conn: Connection)
      requires Valid()
      modifies this
      ensures Valid() && redis == Some(conn) && conn == Connection(cfg.redisOptions)
      ensures old(redis).Some? ==> conn == old(redis).value && creations == old(creations)
      ensures connected == (old(connected) || old(redis).None?)
      ensures logged == old(logged) + CreationLog(old(redis))
      ensures sent == old(sent)
    {
      if redis.Some? {
        return redis.value;
      }
      conn := Connection(cfg.redisOptions);
      connected := true;
      redis := Some(conn);
      creations := creations + 1;
      logged := logged + ["redis: created"];
    }

    /** Connects only when not yet connected; afterwards the client is connected. */
    method Connect()
      requires Valid()
      modifies this
      ensures Valid() && connected
      ensures old(connected) ==> redis == old(redis) && sent == old(sent) && logged == old(logged)
      ensures !old(connected) ==> sent == old(sent) + [ConnectCmd] && logged == old(logged) + CreationLog(old(redis))
    {
      if !connected {
        var conn := Redis();
        sent := sent + [ConnectCmd];
        connected := true;
      }
    }

    /** Sends QUIT (creating the client first if need be) and leaves it disconnected. */
    method Disconnect(reply: string)
      requires Valid()
      modifies this
      ensures Valid() && !connected && redis.Some?
      ensures sent == old(sent) + [QuitCmd]
      ensures logged == old(logged) + ["redis: quit..."] + CreationLog(old(redis)) + ["redis: quit " + reply]
    {
      logged := logged + ["redis: quit..."];
      var conn := Redis();
      sent := sent + [QuitCmd];
      logged := logged + ["redis: quit " + reply];
      connected := false;
    }

    /** HGETALL, answering null for a hash with no fields. */
    method Hgetall(key: string, fetched: map<string, string>) returns (r: Option<map<string, string>>)
      requires Valid()
      modifies this
      ensures Valid() && connected == (old(connected) || old(redis).None?)
      ensures redis == Some(Connection(cfg.redisOptions)) && creations == 1
      ensures sent == old(sent) + [HGetAllCmd(key)] && logged == old(logged) + CreationLog(old(redis))
      ensures r == HgetallResult(fetched)
    {
      var conn := Redis();
      sent := sent + [HGetAllCmd(key)];
      r := HgetallResult(fetched);
    }

    /** HINCRBY by the given increment, 1 when none is given; answers the server's new value `reply`. */
    method Hincr(key: string, field: string, reply: int, increment: int := 1) returns (r: int)
      requires Valid()
      modifies this
      ensures Valid() && connected == (old(connected) || old(redis).None?)
      ensures redis == Some(Connection(cfg.redisOptions)) && creations == 1
      ensures sent == old(sent) + [HIncrByCmd(key, field, increment)]
      ensures logged == old(logged) + CreationLog(old(redis))
      ensures r == reply
    {
      var conn := Redis();
      sent := sent + [HIncrByCmd(key, field, increment)];
      r := reply;
    }

    /** INCRBY by the given amount, 1 when none is given; answers the server's new value `reply`. */
    method Incr(key: string, reply: int, amount: int := 1) returns (r: int)
      requires Valid()
      modifies this
      ensures Valid() && connected == (old(connected) || old(redis).None?)
      ensures redis == Some(Connection(cfg.redisOptions)) && creations == 1
      ensures sent == old(sent) + [IncrByCmd(key, amount)]
      ensures logged == old(logged) + CreationLog(old(redis))
      ensures r == reply
    {
      var conn := Redis();
      sent := sent + [IncrByCmd(key, amount)];
      r := reply;
    }

    /** HSET of the record, then HEXPIREAT on its fields. */
    method HsetWithTTL(key: string, value: Record<Bytes>, expireAt: int)
      requires Valid()
      modifies this
      ensures Valid() && connected == (old(connected) || old(redis).None?)
      ensures redis == Some(Connection(cfg.redisOptions)) && creations == 1
      ensures sent == old(sent) + [HSetCmd(key, value), HExpireAtCall(key, value.keys, expireAt)]
      ensures logged == old(logged) + CreationLog(old(redis))
    {
      var expire := HExpireAtCall(key, value.keys, expireAt);
      var conn := Redis();
      sent := sent + [HSetCmd(key, value)];
      conn := Redis();
      sent := sent + [expire];
    }

    /** The number of keys the scan returns, over all its batches. */
    method ScanCount(pattern: string, batches: seq<seq<string>>) returns (count: nat)
      requires Valid()
      modifies this
      ensures Valid() && connected == (old(connected) || old(redis).None?)
      ensures redis == Some(Connection(cfg.redisOptions)) && creations == 1
      ensures sent == old(sent) + [ScanCmd(pattern)] && logged == old(logged) + CreationLog(old(redis))
      ensures count == SumLengths(batches)
    {
      var conn := Redis();
      sent := sent + [ScanCmd(pattern)];
      count := CountKeys(batches);
    }

    /** Half the length of every HSCAN batch, summed: the number of fields. */
    method HScanCount(key: string, pattern: string, batches: seq<seq<string>>) returns (count: real)
      requires Valid()
      modifies this
      ensures Valid() && connected == (old(connected) || old(redis).None?)
      ensures redis == Some(Connection(cfg.redisOptions)) && creations == 1
      ensures sent == old(sent) + [HScanCmd(key, pattern)] && logged == old(logged) + CreationLog(old(redis))
      ensures count == (SumLengths(batches) as real) / 2.0
    {
      var conn := Redis();
      sent := sent + [HScanCmd(key, pattern)];
      count := HalfCount(batches);
    }

    /** Deletes, in one pipeline, every batch the scan of `table:*` returns, and logs the key count. */
    method DropTable(table: string, batches: seq<seq<string>>)
      requires Valid()
      modifies this
      ensures Valid() && connected == (old(connected) || old(redis).None?)
      ensures redis == Some(Connection(cfg.redisOptions)) && creations == 1
      ensures |sent| == |old(sent)| + 2 && sent[..|old(sent)|] == old(sent)
      ensures sent[|old(sent)|] == ScanCmd(table + ":*")
      ensures sent[|old(sent)| + 1].PipelineCmd? && |sent[|old(sent)| + 1].queued| == |batches|
      ensures forall i :: 0 <= i < |batches| ==> sent[|old(sent)| + 1].queued[i] == DelCmd(batches[i])
      ensures logged == old(logged) + CreationLog(old(redis)) + [DroppedTableLine(table, SumLengths(batches))]
    {
      var conn := Redis();
      conn := Redis();
      sent := sent + [ScanCmd(table + ":*")];
      var queued, count := QueueDeletes(batches);
      sent := sent + [PipelineCmd(queued)];
      logged := logged + [DroppedTableLine(table, count)];
    }

    /** Deletes, in one pipeline, every batch the scan of `*` returns, and logs the key count. */
    method ClearAll(batches: seq<seq<string>>)
      requires Valid()
      modifies this
      ensures Valid() && connected == (old(connected) || old(redis).None?)
      ensures redis == Some(Connection(cfg.redisOptions)) && creations == 1
      ensures |sent| == |old(sent)| + 2 && sent[..|old(sent)|] == old(sent)
      ensures sent[|old(sent)|] == ScanCmd("*")
      ensures sent[|old(sent)| + 1].PipelineCmd? && |sent[|old(sent)| + 1].queued| == |batches|
      ensures forall i :: 0 <= i < |batches| ==> sent[|old(sent)| + 1].queued[i] == DelCmd(batches[i])
      ensures logged == old(logged) + ["redis: clearAll..."] + CreationLog(old(redis)) + [ClearedLine(SumLengths(batches))]
    {
      logged := logged + ["redis: clearAll..."];
      var conn := Redis();
      conn := Redis();
      sent := sent + [ScanCmd("*")];
      var queued, count := QueueDeletes(batches);
      sent := sent + [PipelineCmd(queued)];
      logged := logged + [ClearedLine(count)];
    }
  }
}
