/**
 * Aggregate byte size of a selection of files.  A selected file is seen
 * only through its size in bytes, so a selection is a `seq<nat>` in the
 * order the browser lists the files.
 */
module Sizes {

  /** Sum of the sizes, folded from the first file to the last, as the
      widget accumulates `totalSize` file by file. */
  function Sum(sizes: seq<nat>): nat
  {
    if sizes == [] then 0 else Sum(sizes[..|sizes| - 1]) + sizes[|sizes| - 1]
  }

  /** One step of the accumulation: the sum of a longer prefix adds the
      next size to the sum of the shorter one. */
  lemma SumStep(sizes: seq<nat>, i: nat)
    requires i < |sizes|
    ensures Sum(sizes[..i + 1]) == Sum(sizes[..i]) + sizes[i]
  {
    assert sizes[..i + 1][..i] == sizes[..i];
  }

  /** A single file sums to its own size. */
  lemma SumSingle(size: nat)
    ensures Sum([size]) == size
  {
    assert [size][..0] == [];
  }

  /** Two files sum to the sum of their sizes. */
  lemma SumPair(a: nat, b: nat)
    ensures Sum([a, b]) == a + b
  {
    assert [a, b][..1] == [a];
    SumSingle(a);
  }

  /** Summing two selections one after the other gives the sum of their
      concatenation. */
  lemma {:induction false} SumAppend(a: seq<nat>, b: seq<nat>)
    ensures Sum(a + b) == Sum(a) + Sum(b)
  {
    if b != [] {
      var b' := b[..|b| - 1];
      assert (a + b)[..|a + b| - 1] == a + b';
      SumAppend(a, b');
    } else {
      assert a + b == a;
    }
  }

  /** The files before position `i`, the file at `i` and the files after it
      make up the whole selection. */
  lemma SumSplit(sizes: seq<nat>, i: nat)
    requires i < |sizes|
    ensures Sum(sizes) == Sum(sizes[..i]) + sizes[i] + Sum(sizes[i + 1..])
  {
    assert sizes == sizes[..i] + [sizes[i]] + sizes[i + 1..];
    SumAppend(sizes[..i] + [sizes[i]], sizes[i + 1..]);
    SumAppend(sizes[..i], [sizes[i]]);
    assert Sum([sizes[i]]) == Sum([sizes[i]][..0]) + sizes[i];
  }

  /** Bytes of the files already finished plus bytes of the file in flight
      never exceed the total of the selection. */
  lemma SumPriorAndCurrent(sizes: seq<nat>, i: nat, inFlight: nat)
    requires i < |sizes|
    requires inFlight <= sizes[i]
    ensures Sum(sizes[..i]) + inFlight <= Sum(sizes)
  {
    SumSplit(sizes, i);
  }

  /** A selection sums to zero exactly when every file in it is empty
      (in particular when nothing is selected); only then is the overall
      percentage of a run undefined. */
  lemma {:induction false} SumZero(sizes: seq<nat>)
    ensures Sum(sizes) == 0 <==> forall i :: 0 <= i < |sizes| ==> sizes[i] == 0
  {
    if sizes != [] {
      var init := sizes[..|sizes| - 1];
      SumZero(init);
      assert forall i :: 0 <= i < |init| ==> init[i] == sizes[i];
    }
  }
}
