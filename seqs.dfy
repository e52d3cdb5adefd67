/**
 * Sequence vocabulary shared by the adapters: optional values, the error
 * outcome of a thrown exception, and the list shapes the adapters build
 * (flattening of scan batches, `take(limit || Infinity)`, the filtered zip
 * of `getByIds`).
 */
module Seqs {

  /** A value that may be JavaScript `null` / `undefined`. */
  datatype Option<T> = None | Some(value: T)

  /** The outcome of code that may throw. */
  datatype Result<T> = Success(value: T) | Failure(error: string)

  /** The contents of a Node.js `Buffer`. */
  type Bytes = seq<bv8>

  function Min(a: int, b: int): (m: int)
    ensures m <= a && m <= b && (m == a || m == b)
  {
    if a <= b then a else b
  }

  /** `s.map(f)` */
  function MapSeq<A, B>(f: A -> B, s: seq<A>): (r: seq<B>)
    ensures |r| == |s|
    ensures forall i :: 0 <= i < |s| ==> r[i] == f(s[i])
  {
    seq(|s|, i requires 0 <= i < |s| => f(s[i]))
  }

  function Fst<A, B>(p: (A, B)): (a: A) { p.0 }

  function Snd<A, B>(p: (A, B)): (b: B) { p.1 }

  /** Total number of elements over all batches: the `count += keys.length` loops. */
  function SumLengths<T>(batches: seq<seq<T>>): (total: nat)
  {
    if |batches| == 0 then 0
    else SumLengths(batches[..|batches| - 1]) + |batches[|batches| - 1]|
  }

  /** Batches of pairwise equal lengths hold as many elements in all. */
  lemma {:induction false} SumLengthsSame<A, B>(a: seq<seq<A>>, b: seq<seq<B>>)
    requires |a| == |b|
    requires forall i :: 0 <= i < |a| ==> |a[i]| == |b[i]|
    ensures SumLengths(a) == SumLengths(b)
  {
    if |a| > 0 {
      var n := |a| - 1;
      SumLengthsSame(a[..n], b[..n]);
    }
  }

  /** Batches each twice as long as their counterparts hold twice as many elements in all. */
  lemma {:induction false} SumLengthsDouble<A, B>(a: seq<seq<A>>, b: seq<seq<B>>)
    requires |a| == |b|
    ensures (forall i :: 0 <= i < |a| ==> |a[i]| == 2 * |b[i]|) ==> SumLengths(a) == 2 * SumLengths(b)
  {
    if |a| > 0 && forall i :: 0 <= i < |a| ==> |a[i]| == 2 * |b[i]| {
      var n := |a| - 1;
      SumLengthsDouble(a[..n], b[..n]);
    }
  }

  /** Flattening a stream of batches: `flatMap(keys => keys)` and `_flatten`. */
  function Concat<T>(batches: seq<seq<T>>): (r: seq<T>)
    ensures |r| == SumLengths(batches)
  {
    if |batches| == 0 then []
    else Concat(batches[..|batches| - 1]) + batches[|batches| - 1]
  }

  /** Mapping the flattened stream is flattening the mapped batches. */
  lemma {:induction false} ConcatMap<A, B>(f: A -> B, batches: seq<seq<A>>)
    ensures Concat(MapSeq(s => MapSeq(f, s), batches)) == MapSeq(f, Concat(batches))
  {
    if |batches| > 0 {
      var n := |batches| - 1;
      var g := (s: seq<A>) => MapSeq(f, s);
      assert MapSeq(g, batches)[..n] == MapSeq(g, batches[..n]);
      ConcatMap(f, batches[..n]);
    }
  }

  /**
   * `take(limit || Infinity)`, and equally `if (limit) stream.take(limit)`:
   * an absent limit and a limit of 0 both mean "everything".
   */
  function TakeLimit<T>(s: seq<T>, limit: Option<nat>): (r: seq<T>)
    ensures r <= s
    ensures limit == None || limit == Some(0) ==> r == s
    ensures limit.Some? && limit.value > 0 ==> |r| == Min(limit.value, |s|)
  {
    match limit
    case None => s
    case Some(n) => if n == 0 || |s| <= n then s else s[..n]
  }

  lemma TakeLimitMap<A, B>(f: A -> B, s: seq<A>, limit: Option<nat>)
    ensures MapSeq(f, TakeLimit(s, limit)) == TakeLimit(MapSeq(f, s), limit)
  {
  }

  /**
   * Pair each id with the value fetched for it, position by position, and
   * drop the pairs whose value is missing.
   */
  function FilteredZip<V>(ids: seq<string>, values: seq<Option<V>>): (r: seq<(string, V)>)
    requires |ids| == |values|
    ensures |r| <= |ids|
  {
    if |ids| == 0 then []
    else
      var n := |ids| - 1;
      FilteredZip(ids[..n], values[..n])
        + (if values[n].Some? then [(ids[n], values[n].value)] else [])
  }

  /** The positions, in increasing order, at which a value is present. */
  function PresentIndices<V>(values: seq<Option<V>>): (positions: seq<nat>)
  {
    if |values| == 0 then []
    else
      var n := |values| - 1;
      PresentIndices(values[..n]) + (if values[n].Some? then [n] else [])
  }

  /** PresentIndices lists, in increasing order, exactly the positions holding a value. */
  lemma {:induction false} PresentIndicesSpec<V>(values: seq<Option<V>>)
    ensures forall j :: 0 <= j < |PresentIndices(values)| ==>
              PresentIndices(values)[j] < |values| && values[PresentIndices(values)[j]].Some?
    ensures forall j, k :: 0 <= j < k < |PresentIndices(values)| ==>
              PresentIndices(values)[j] < PresentIndices(values)[k]
    ensures forall i :: 0 <= i < |values| ==> (values[i].Some? <==> i in PresentIndices(values))
  {
    if |values| > 0 {
      var n := |values| - 1;
      PresentIndicesSpec(values[..n]);
      var p := PresentIndices(values[..n]);
      assert forall j :: 0 <= j < |p| ==> values[..n][p[j]] == values[p[j]];
      forall i | 0 <= i < n
        ensures values[i].Some? <==> i in PresentIndices(values)
      {
        assert values[..n][i] == values[i];
      }
    }
  }

  /**
   * The filtered zip is the order-preserving pairing of `ids[i]` with the
   * value at `i`, taken exactly at the positions PresentIndices lists.
   */
  lemma {:induction false} FilteredZipSpec<V>(ids: seq<string>, values: seq<Option<V>>)
    requires |ids| == |values|
    ensures |PresentIndices(values)| == |FilteredZip(ids, values)|
    ensures forall j :: 0 <= j < |PresentIndices(values)| ==>
              PresentIndices(values)[j] < |values|
              && ids[PresentIndices(values)[j]] == FilteredZip(ids, values)[j].0
              && values[PresentIndices(values)[j]] == Some(FilteredZip(ids, values)[j].1)
  {
    if |ids| > 0 {
      var n := |ids| - 1;
      FilteredZipSpec(ids[..n], values[..n]);
      var p, z := PresentIndices(values[..n]), FilteredZip(ids[..n], values[..n]);
      forall j | 0 <= j < |p|
        ensures p[j] < n && ids[p[j]] == z[j].0 && values[p[j]] == Some(z[j].1)
      {
        assert values[..n][p[j]] == values[p[j]] && ids[..n][p[j]] == ids[p[j]];
      }
    }
  }

  /** The filtered zip keeps every entry exactly when no value is missing. */
  lemma {:induction false} FilteredZipKeepsAll<V>(ids: seq<string>, values: seq<Option<V>>)
    requires |ids| == |values|
    ensures |FilteredZip(ids, values)| == |ids| <==> forall i :: 0 <= i < |values| ==> values[i].Some?
  {
    if |ids| > 0 {
      var n := |ids| - 1;
      FilteredZipKeepsAll(ids[..n], values[..n]);
      if forall i :: 0 <= i < |values| ==> values[i].Some? {
        assert forall i :: 0 <= i < n ==> values[..n][i].Some? by {
          forall i | 0 <= i < n ensures values[..n][i].Some? { assert values[..n][i] == values[i]; }
        }
      } else if values[n].Some? {
        var i :| 0 <= i < |values| && !values[i].Some?;
        assert values[..n][i] == values[i];
      }
    }
  }

  /** `values.filter(_isTruthy)` on fetched buffers: a Buffer object is always truthy. */
  function Present<V>(values: seq<Option<V>>): (r: seq<V>)
    ensures |r| <= |values|
  {
    if |values| == 0 then []
    else
      var n := |values| - 1;
      Present(values[..n]) + (if values[n].Some? then [values[n].value] else [])
  }

  /** Dropping the missing values commutes with flattening. */
  lemma {:induction false} PresentConcat<V>(batches: seq<seq<Option<V>>>)
    ensures Concat(MapSeq(Present, batches)) == Present(Concat(batches))
  {
    if |batches| > 0 {
      var n := |batches| - 1;
      assert MapSeq(Present, batches)[..n] == MapSeq(Present, batches[..n]);
      PresentConcat(batches[..n]);
      PresentAppend(Concat(batches[..n]), batches[n]);
    }
  }

  /** Present of a list with one more value at the end. */
  lemma PresentSnoc<V>(s: seq<Option<V>>, x: Option<V>)
    ensures Present(s + [x]) == Present(s) + (if x.Some? then [x.value] else [])
  {
    assert (s + [x])[..|s|] == s;
  }

  lemma {:induction false} PresentAppend<V>(a: seq<Option<V>>, b: seq<Option<V>>)
    ensures Present(a + b) == Present(a) + Present(b)
    decreases |b|
  {
    if |b| == 0 {
      assert a + b == a;
    } else {
      var n := |b| - 1;
      assert a + b == (a + b[..n]) + [b[n]];
      assert b == b[..n] + [b[n]];
      PresentSnoc(a + b[..n], b[n]);
      PresentSnoc(b[..n], b[n]);
      PresentAppend(a, b[..n]);
    }
  }

  /** A JavaScript number used as a condition: absent and 0 are falsy. */
  predicate Truthy(n: Option<int>)
  {
    n.Some? && n.value != 0
  }

  /** The values column of a filtered zip is the list of present values. */
  lemma {:induction false} FilteredZipValues<V>(ids: seq<string>, values: seq<Option<V>>)
    requires |ids| == |values|
    ensures MapSeq(Snd, FilteredZip(ids, values)) == Present(values)
  {
    if |ids| > 0 {
      var n := |ids| - 1;
      FilteredZipValues(ids[..n], values[..n]);
    }
  }

  /** Present lists, in order, the values at exactly the positions PresentIndices names. */
  lemma PresentSpec<V>(values: seq<Option<V>>)
    ensures |Present(values)| == |PresentIndices(values)|
    ensures forall j :: 0 <= j < |PresentIndices(values)| ==>
              PresentIndices(values)[j] < |values| && values[PresentIndices(values)[j]] == Some(Present(values)[j])
  {
    var ids := seq(|values|, i => "");
    FilteredZipSpec(ids, values);
    FilteredZipValues(ids, values);
  }

  /** `_zip(a, b)` on lists of equal length. */
  function Zip<A, B>(a: seq<A>, b: seq<B>): (r: seq<(A, B)>)
    requires |a| == |b|
    ensures MapSeq(Fst, r) == a && MapSeq(Snd, r) == b
  {
    seq(|a|, i requires 0 <= i < |a| => (a[i], b[i]))
  }
}
