/** Concatenation of a list of lists, used both for the request list
    queryMetric builds monitor by monitor and for the records queryMetricData
    collects request by request. */
module Sequences {

  /** The concatenation of `parts`, in order. */
  function Concat<T>(parts: seq<seq<T>>): seq<T>
    decreases |parts|
  {
    if parts == [] then [] else Concat(parts[..|parts| - 1]) + parts[|parts| - 1]
  }

  /** One more part goes at the end. */
  lemma ConcatSnoc<T>(parts: seq<seq<T>>, part: seq<T>)
    ensures Concat(parts + [part]) == Concat(parts) + part
  {
    assert (parts + [part])[..|parts|] == parts;
  }

  /** Concatenating two lists of parts gives the two concatenations one after
      the other. */
  lemma {:induction false} ConcatAppend<T>(ps1: seq<seq<T>>, ps2: seq<seq<T>>)
    ensures Concat(ps1 + ps2) == Concat(ps1) + Concat(ps2)
    decreases |ps2|
  {
    if ps2 == [] {
      assert ps1 + ps2 == ps1;
    } else {
      var n := |ps2|;
      ConcatAppend(ps1, ps2[..n - 1]);
      assert (ps1 + ps2)[..|ps1 + ps2| - 1] == ps1 + ps2[..n - 1];
      assert Concat(ps1) + Concat(ps2[..n - 1]) + ps2[n - 1] == Concat(ps1) + (Concat(ps2[..n - 1]) + ps2[n - 1]);
    }
  }

  /** Every element of a concatenation comes from one of its parts. */
  lemma {:induction false} ConcatMember<T>(parts: seq<seq<T>>, x: T)
    requires x in Concat(parts)
    ensures exists i :: 0 <= i < |parts| && x in parts[i]
    decreases |parts|
  {
    var n := |parts|;
    if x !in parts[n - 1] {
      ConcatMember(parts[..n - 1], x);
      var i :| 0 <= i < n - 1 && x in parts[..n - 1][i];
      assert parts[..n - 1][i] == parts[i];
    }
  }

  /** The concatenation is as long as its parts together; with parts of equal
      length `k` that is `|parts| * k`. */
  lemma {:induction false} ConcatUniformLength<T>(parts: seq<seq<T>>, k: nat)
    requires forall i :: 0 <= i < |parts| ==> |parts[i]| == k
    ensures |Concat(parts)| == |parts| * k
    decreases |parts|
  {
    if parts != [] {
      var n := |parts|;
      ConcatUniformLength(parts[..n - 1], k);
      assert (n - 1) * k + k == n * k;
    }
  }
}
