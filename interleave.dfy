/**
 * Flat field/value lists. HSCAN replies `[f0, v0, f1, v1, ...]` and MSET takes
 * `[k0, v0, k1, v1, ...]`; the adapters split such a list into the elements at
 * even positions (fields, keys) and at odd positions (values), or build one
 * by flattening `[key, value]` pairs.
 */
module Interleave {
  import opened Seqs

  /** The elements at positions 0, 2, 4, ... */
  function Evens<T>(l: seq<T>): (evens: seq<T>)
  {
    seq((|l| + 1) / 2, k requires 0 <= k < (|l| + 1) / 2 => l[2 * k])
  }

  /** The elements at positions 1, 3, 5, ... */
  function Odds<T>(l: seq<T>): (odds: seq<T>)
  {
    seq(|l| / 2, k requires 0 <= k < |l| / 2 => l[2 * k + 1])
  }

  /** `_flatten(pairs.map(([k, v]) => [k, v]))`: the flat list of the pairs. */
  function Interleave<T>(firsts: seq<T>, seconds: seq<T>): (flat: seq<T>)
    requires |firsts| == |seconds|
  {
    Concat(seq(|firsts|, i requires 0 <= i < |firsts| => [firsts[i], seconds[i]]))
  }

  /** Position `2i` of the flat list holds `firsts[i]` and position `2i+1` holds `seconds[i]`. */
  lemma {:induction false} InterleaveAt<T>(firsts: seq<T>, seconds: seq<T>)
    requires |firsts| == |seconds|
    ensures |Interleave(firsts, seconds)| == 2 * |firsts|
    ensures forall i :: 0 <= i < |firsts| ==>
              Interleave(firsts, seconds)[2 * i] == firsts[i]
              && Interleave(firsts, seconds)[2 * i + 1] == seconds[i]
  {
    if |firsts| > 0 {
      var n := |firsts| - 1;
      var pairs := seq(|firsts|, i requires 0 <= i < |firsts| => [firsts[i], seconds[i]]);
      var shorter := seq(n, i requires 0 <= i < n => [firsts[..n][i], seconds[..n][i]]);
      assert pairs[..n] == shorter;
      InterleaveAt(firsts[..n], seconds[..n]);
      assert Interleave(firsts, seconds) == Interleave(firsts[..n], seconds[..n]) + [firsts[n], seconds[n]];
    }
  }

  /** Splitting a flat list undoes the flattening. */
  lemma InterleaveSplits<T>(firsts: seq<T>, seconds: seq<T>)
    requires |firsts| == |seconds|
    ensures Evens(Interleave(firsts, seconds)) == firsts
    ensures Odds(Interleave(firsts, seconds)) == seconds
  {
    InterleaveAt(firsts, seconds);
  }

  /** Flattening the two halves of a list of even length gives the list back. */
  lemma EvensOddsInterleave<T>(l: seq<T>)
    requires |l| % 2 == 0
    ensures |Evens(l)| == |Odds(l)|
    ensures Interleave(Evens(l), Odds(l)) == l
  {
    InterleaveAt(Evens(l), Odds(l));
    var r := Interleave(Evens(l), Odds(l));
    forall p | 0 <= p < |l| ensures r[p] == l[p] {
      var k := p / 2;
      if p % 2 == 0 {
        assert p == 2 * k && k < |Evens(l)| && Evens(l)[k] == l[p];
      } else {
        assert p == 2 * k + 1 && k < |Odds(l)| && Odds(l)[k] == l[p];
      }
    }
  }

  /** The `(field, value)` entries of a list of even length: `(l[2k], l[2k+1])` for each `k`. */
  lemma EntriesAt<T>(l: seq<T>)
    requires |l| % 2 == 0
    ensures |Evens(l)| == |Odds(l)| == |l| / 2
    ensures forall k :: 0 <= k < |l| / 2 ==> Zip(Evens(l), Odds(l))[k] == (l[2 * k], l[2 * k + 1])
  {
  }
}
