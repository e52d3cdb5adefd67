/**
 * A JavaScript object used as a string-keyed record: its keys in insertion
 * order (what `Object.keys` returns) and the value stored under each key.
 * `Object.fromEntries` builds one from a list of `[key, value]` pairs; a key
 * given twice keeps its first position and its last value.
 */
module Records {

  datatype Record<V> = Record(keys: seq<string>, values: map<string, V>)

  /** Keys are distinct and are exactly the keys that hold a value. */
  ghost predicate WellFormed<V>(r: Record<V>)
  {
    && (forall i, j :: 0 <= i < j < |r.keys| ==> r.keys[i] != r.keys[j])
    && (forall k :: k in r.values <==> k in r.keys)
  }

  /** `obj[k] = v` */
  function Put<V>(r: Record<V>, k: string, v: V): (updated: Record<V>)
  {
    Record(if k in r.values then r.keys else r.keys + [k], r.values[k := v])
  }

  function Empty<V>(): (r: Record<V>)
    ensures WellFormed(r) && r.keys == []
  {
    Record([], map[])
  }

  /** `Object.fromEntries(entries)` */
  function FromEntries<V>(entries: seq<(string, V)>): (r: Record<V>)
    ensures WellFormed(r)
  {
    if |entries| == 0 then Empty()
    else
      var n := |entries| - 1;
      Put(FromEntries(entries[..n]), entries[n].0, entries[n].1)
  }

  /** The record holds at most one key per entry. */
  lemma {:induction false} FromEntriesBound<V>(entries: seq<(string, V)>)
    ensures |FromEntries(entries).keys| <= |entries|
  {
    if |entries| > 0 {
      FromEntriesBound(entries[..|entries| - 1]);
    }
  }

  /** The entry at `i` is the last one given for its key. */
  ghost predicate LastFor<V>(entries: seq<(string, V)>, i: int)
    requires 0 <= i < |entries|
  {
    forall j :: i < j < |entries| ==> entries[j].0 != entries[i].0
  }

  /** Some entry is given for key `k`. */
  ghost predicate Mentions<V>(entries: seq<(string, V)>, k: string)
  {
    exists i :: 0 <= i < |entries| && entries[i].0 == k
  }

  /** The record holds exactly the keys the entries mention. */
  lemma {:induction false} FromEntriesKeys<V>(entries: seq<(string, V)>)
    ensures forall k :: k in FromEntries(entries).values <==> Mentions(entries, k)
  {
    if |entries| > 0 {
      var n := |entries| - 1;
      var prefix := entries[..n];
      FromEntriesKeys(prefix);
      forall k
        ensures k in FromEntries(entries).values <==> Mentions(entries, k)
      {
        if k != entries[n].0 {
          if Mentions(entries, k) {
            var i :| 0 <= i < |entries| && entries[i].0 == k;
            assert prefix[i].0 == k;
          }
          if Mentions(prefix, k) {
            var i :| 0 <= i < |prefix| && prefix[i].0 == k;
            assert entries[i].0 == k;
          }
        }
      }
    }
  }

  /** Under each key the record holds the value of the last entry given for it. */
  lemma {:induction false} FromEntriesLastWins<V>(entries: seq<(string, V)>, i: int)
    requires 0 <= i < |entries| && LastFor(entries, i)
    ensures entries[i].0 in FromEntries(entries).values
    ensures FromEntries(entries).values[entries[i].0] == entries[i].1
  {
    var n := |entries| - 1;
    if i < n {
      var prefix := entries[..n];
      assert LastFor(prefix, i) by {
        forall j | i < j < |prefix| ensures prefix[j].0 != prefix[i].0 {
          assert entries[j].0 != entries[i].0;
        }
      }
      FromEntriesLastWins(prefix, i);
    }
  }

  /** An empty list of entries gives an empty record, and only it does. */
  lemma FromEntriesEmpty<V>(entries: seq<(string, V)>)
    ensures FromEntries(entries).keys == [] <==> entries == []
  {
    if entries != [] {
      FromEntriesKeys(entries);
      assert Mentions(entries, entries[0].0);
    }
  }
}
