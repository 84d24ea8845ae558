/** One-dimensional vectors as sequences, and their horizontal stacking.

    On a non-empty list of 1-D arrays, `Flatten(parts)` is what `np.hstack`
    does: it concatenates them in list order, without padding or truncation.
    `np.hstack` rejects an empty list, where `Flatten` gives the empty vector;
    the aggregator never stacks an empty list.
 */
module Vectors {

  /** The concatenation of `parts`, first part first. */
  function Flatten<T>(parts: seq<seq<T>>): seq<T>
  {
    if parts == [] then [] else parts[0] + Flatten(parts[1..])
  }

  /** The sum of the lengths of `parts`. */
  function TotalLength<T>(parts: seq<seq<T>>): nat
  {
    if parts == [] then 0 else |parts[0]| + TotalLength(parts[1..])
  }

  /** Stacking neither drops nor adds elements. */
  lemma {:induction false} FlattenLength<T>(parts: seq<seq<T>>)
    ensures |Flatten(parts)| == TotalLength(parts)
  {
    if parts != [] {
      FlattenLength(parts[1..]);
    }
  }

  /** Stacking distributes over concatenation of the list of parts. */
  lemma {:induction false} FlattenConcat<T>(a: seq<seq<T>>, b: seq<seq<T>>)
    ensures Flatten(a + b) == Flatten(a) + Flatten(b)
  {
    if a == [] {
      assert a + b == b;
    } else {
      assert (a + b)[1..] == a[1..] + b;
      FlattenConcat(a[1..], b);
    }
  }

  /** Parts no longer than `width` total at most `|parts| * width`. */
  lemma {:induction false} TotalLengthAtMost<T>(parts: seq<seq<T>>, width: nat)
    requires forall i :: 0 <= i < |parts| ==> |parts[i]| <= width
    ensures TotalLength(parts) <= |parts| * width
  {
    if parts != [] {
      TotalLengthAtMost(parts[1..], width);
      assert |parts| * width == width + (|parts| - 1) * width;
    }
  }

  /** If, moreover, part `k` is shorter than `width`, the total is below
      `|parts| * width`. */
  lemma {:induction false} TotalLengthBelow<T>(parts: seq<seq<T>>, width: nat, k: nat)
    requires forall i :: 0 <= i < |parts| ==> |parts[i]| <= width
    requires k < |parts| && |parts[k]| < width
    ensures TotalLength(parts) < |parts| * width
  {
    if k == 0 {
      TotalLengthAtMost(parts[1..], width);
    } else {
      assert parts[1..][k - 1] == parts[k];
      TotalLengthBelow(parts[1..], width, k - 1);
    }
    assert |parts| * width == width + (|parts| - 1) * width;
  }

  /** Part `k` sits in the stacked vector right after the parts before it,
      at offset `TotalLength(parts[..k])`. */
  lemma PartAtOffset<T>(parts: seq<seq<T>>, k: nat)
    requires k < |parts|
    ensures TotalLength(parts[..k]) + |parts[k]| <= |Flatten(parts)|
    ensures Flatten(parts)[TotalLength(parts[..k]) .. TotalLength(parts[..k]) + |parts[k]|] == parts[k]
  {
    var before, after := parts[..k], parts[k + 1..];
    assert parts == before + [parts[k]] + after;
    FlattenConcat(before + [parts[k]], after);
    FlattenConcat(before, [parts[k]]);
    assert Flatten([parts[k]]) == parts[k] + Flatten([]);
    FlattenLength(before);
    FlattenLength(parts);
  }

  /** When every part has length `width`, the stacked vector has
      `|parts| * width` elements. */
  lemma {:induction false} UniformLength<T>(parts: seq<seq<T>>, width: nat)
    requires forall i :: 0 <= i < |parts| ==> |parts[i]| == width
    ensures TotalLength(parts) == |parts| * width
    ensures |Flatten(parts)| == |parts| * width
  {
    if parts != [] {
      UniformLength(parts[1..], width);
      assert TotalLength(parts) == width + (|parts| - 1) * width;
    }
    FlattenLength(parts);
  }

  /** When every part has length `width`, part `k` is the `k`-th block of
      `width` elements of the stacked vector. */
  lemma UniformBlock<T>(parts: seq<seq<T>>, width: nat, k: nat)
    requires forall i :: 0 <= i < |parts| ==> |parts[i]| == width
    requires k < |parts|
    ensures (k + 1) * width <= |Flatten(parts)|
    ensures Flatten(parts)[k * width .. (k + 1) * width] == parts[k]
  {
    PartAtOffset(parts, k);
    UniformLength(parts[..k], width);
    UniformLength(parts, width);
    assert (k + 1) * width == k * width + width;
    assert (k + 1) * width <= |parts| * width by {
      assert |parts| * width == (k + 1) * width + (|parts| - k - 1) * width;
    }
  }
}
