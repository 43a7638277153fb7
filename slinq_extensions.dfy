/**
 * SlinqExtensions of Smooth.Extensions.Collections. A `Slinq<T, C>` is a
 * one-pass enumeration; here it is the finite sequence of the elements it
 * hands out, in order. Pools hand out fresh empty containers.
 */
module SlinqExtensions {
  import opened Algebraics
  import opened Containers
  import opened EnumerableExtensions

  // ---------------------------------------------------------- ToArray and With

  /** `ToArray`: the elements added to a borrowed list in enumeration order, copied to a new array. */
  method ToArray<T>(slinq: seq<T>) returns (a: array<T>)
    ensures fresh(a) && a[..] == slinq
  {
    var list := new List<T>();
    var i := 0;
    while i < |slinq|
      invariant 0 <= i <= |slinq| && list.items == slinq[..i]
    {
      list.Add(slinq[i]);
      i := i + 1;
    }
    a := new T[|list.items|](k requires 0 <= k < |list.items| reads list => list.items[k]);
  }

  /** `item1.With(item2)`: the two items, in order. */
  function With<T>(item1: T, item2: T): (r: seq<T>)
    ensures |r| == 2 && r[0] == item1 && r[1] == item2
  {
    [item1] + [item2]
  }

  /** `slinq.With(item2)`: the slinq's elements followed by the item. */
  function WithItem<T>(slinq: seq<T>, item2: T): (r: seq<T>)
    ensures |r| == |slinq| + 1 && r[..|slinq|] == slinq && r[|slinq|] == item2
  {
    slinq + [item2]
  }

  /** Pairing two items is appending the second to a slinq of the first, and `With` chains. */
  lemma WithLaws<T>(x: T, y: T, z: T, s: seq<T>)
    ensures With(x, y) == WithItem([x], y)
    ensures WithItem(With(x, y), z) == [x, y, z]
    ensures WithItem(WithItem(s, y), z) == s + [y, z]
  {
  }

  // ---------------------------------------------------------- ToBatches

  const BatchSizeMessage := "Can't be negative o zero."

  /** The elements of a list of lists, one list after the other. */
  function Concat<T>(batches: seq<seq<T>>): seq<T>
  {
    if |batches| == 0 then [] else Concat(batches[..|batches| - 1]) + batches[|batches| - 1]
  }

  /**
   * The aggregate `ToBatches` folds over the slinq: it starts from one empty batch; a value goes
   * into a new batch when the current one holds `batchSize` values, and into the current one
   * otherwise.
   */
  function BatchesOf<T>(s: seq<T>, batchSize: int): (r: seq<seq<T>>)
    requires batchSize > 0
    ensures |r| >= 1
    ensures |s| == 0 ==> r == [[]]
    decreases |s|
  {
    if |s| == 0 then [[]]
    else
      var batches := BatchesOf(s[..|s| - 1], batchSize);
      var current := batches[|batches| - 1];
      if |current| == batchSize then batches + [[s[|s| - 1]]]
      else batches[..|batches| - 1] + [current + [s[|s| - 1]]]
  }

  /**
   * What a split into batches of `batchSize` must satisfy: read in order the batches give back the
   * input; no batch holds more than `batchSize`; every batch but the last is full; an empty input
   * is one empty batch and a non-empty input has no empty batch.
   */
  ghost predicate IsBatching<T>(batches: seq<seq<T>>, s: seq<T>, batchSize: int)
  {
    |batches| >= 1 && Concat(batches) == s &&
    (forall j :: 0 <= j < |batches| ==> |batches[j]| <= batchSize) &&
    (forall j :: 0 <= j < |batches| - 1 ==> |batches[j]| == batchSize) &&
    (|s| == 0 ==> batches == [[]]) &&
    (|s| > 0 ==> forall j :: 0 <= j < |batches| ==> |batches[j]| > 0)
  }

  /** Concat of a list of batches whose last batch grew by one value. */
  lemma ConcatGrowLast<T>(batches: seq<seq<T>>, x: T)
    requires |batches| >= 1
    ensures Concat(batches[..|batches| - 1] + [batches[|batches| - 1] + [x]]) == Concat(batches) + [x]
  {
    var grown := batches[..|batches| - 1] + [batches[|batches| - 1] + [x]];
    assert grown[..|grown| - 1] == batches[..|batches| - 1];
  }

  /** Concat of a list of batches with one more batch of a single value. */
  lemma ConcatNewBatch<T>(batches: seq<seq<T>>, x: T)
    ensures Concat(batches + [[x]]) == Concat(batches) + [x]
  {
    assert (batches + [[x]])[..|batches|] == batches;
  }

  /** The fold satisfies every promise of a split into batches. */
  lemma {:induction false} BatchesOfIsBatching<T>(s: seq<T>, batchSize: int)
    requires batchSize > 0
    ensures IsBatching(BatchesOf(s, batchSize), s, batchSize)
    decreases |s|
  {
    if |s| > 0 {
      var init, x := s[..|s| - 1], s[|s| - 1];
      assert init + [x] == s;
      BatchesOfIsBatching(init, batchSize);
      var batches := BatchesOf(init, batchSize);
      var current := batches[|batches| - 1];
      if |current| == batchSize {
        ConcatNewBatch(batches, x);
      } else {
        ConcatGrowLast(batches, x);
      }
    }
  }

  /** Concat splits off the last batch. */
  lemma ConcatSplitLast<T>(front: seq<seq<T>>, last: seq<T>)
    ensures Concat(front + [last]) == Concat(front) + last
  {
    assert (front + [last])[..|front|] == front;
  }

  /** Dropping a last batch of one value leaves a split of the input without its last value. */
  lemma BatchingDropLastBatch<T>(batches: seq<seq<T>>, s: seq<T>, batchSize: int)
    requires batchSize > 0 && IsBatching(batches, s, batchSize) && |s| > 0
    requires |batches| > 1 && |batches[|batches| - 1]| == 1
    ensures IsBatching(batches[..|batches| - 1], s[..|s| - 1], batchSize)
    ensures batches[|batches| - 1] == [s[|s| - 1]]
    ensures |batches[|batches| - 2]| == batchSize
  {
    var front, last := batches[..|batches| - 1], batches[|batches| - 1];
    assert batches == front + [last];
    ConcatSplitLast(front, last);
    assert s == Concat(front) + last;
    assert s[..|s| - 1] == Concat(front);
  }

  /** Taking the last value off a last batch of several leaves a split of the shorter input. */
  lemma BatchingShrinkLastBatch<T>(batches: seq<seq<T>>, s: seq<T>, batchSize: int)
    requires batchSize > 0 && IsBatching(batches, s, batchSize) && |s| > 0
    requires |batches[|batches| - 1]| > 1
    ensures var last := batches[|batches| - 1];
            IsBatching(batches[..|batches| - 1] + [last[..|last| - 1]], s[..|s| - 1], batchSize) &&
            last == last[..|last| - 1] + [s[|s| - 1]]
  {
    var front, last := batches[..|batches| - 1], batches[|batches| - 1];
    var shorter := front + [last[..|last| - 1]];
    assert batches == front + [last];
    ConcatSplitLast(front, last);
    ConcatSplitLast(front, last[..|last| - 1]);
    assert last == last[..|last| - 1] + [last[|last| - 1]];
    assert s == (Concat(front) + last[..|last| - 1]) + [last[|last| - 1]];
    assert forall j :: 0 <= j < |shorter| - 1 ==> shorter[j] == batches[j];
  }

  /** The fold of one more value onto a fold whose last batch is full starts a new batch. */
  lemma BatchesOfNewBatch<T>(s: seq<T>, batchSize: int, batches: seq<seq<T>>)
    requires batchSize > 0 && |s| > 0 && |batches| > 1
    requires batches[..|batches| - 1] == BatchesOf(s[..|s| - 1], batchSize)
    requires batches[|batches| - 1] == [s[|s| - 1]] && |batches[|batches| - 2]| == batchSize
    ensures batches == BatchesOf(s, batchSize)
  {
    assert batches == batches[..|batches| - 1] + [batches[|batches| - 1]];
  }

  /** The fold of one more value onto a fold whose last batch is not full grows that batch. */
  lemma BatchesOfGrowBatch<T>(s: seq<T>, batchSize: int, batches: seq<seq<T>>)
    requires batchSize > 0 && |s| > 0 && |batches| >= 1
    requires var last := batches[|batches| - 1];
             |last| > 1 && last == last[..|last| - 1] + [s[|s| - 1]] && |last[..|last| - 1]| < batchSize &&
             batches[..|batches| - 1] + [last[..|last| - 1]] == BatchesOf(s[..|s| - 1], batchSize)
    ensures batches == BatchesOf(s, batchSize)
  {
    var last := batches[|batches| - 1];
    var shorter := batches[..|batches| - 1] + [last[..|last| - 1]];
    assert shorter[..|shorter| - 1] == batches[..|batches| - 1];
    assert batches == batches[..|batches| - 1] + [last];
  }

  /** A split of one value is the single batch of that value. */
  lemma BatchingOfOne<T>(batches: seq<seq<T>>, s: seq<T>, batchSize: int)
    requires batchSize > 0 && |batches| == 1 && Concat(batches) == s && |batches[0]| == 1
    ensures batches == BatchesOf(s, batchSize)
  {
    assert batches == [] + [batches[0]];
    ConcatSplitLast([], batches[0]);
    var x := batches[0][0];
    assert batches[0] == [x];
    assert s == [x] && s[..0] == [];
    assert BatchesOf(s, batchSize) == [[x]];
  }

  /** A split into batches is unique: anything with those properties is what the fold builds. */
  lemma {:induction false} BatchingIsUnique<T>(batches: seq<seq<T>>, s: seq<T>, batchSize: int)
    requires batchSize > 0 && IsBatching(batches, s, batchSize)
    ensures batches == BatchesOf(s, batchSize)
    decreases |s|
  {
    if |s| > 0 {
      var n := |batches|;
      var last := batches[n - 1];
      if |last| == 1 && n == 1 {
        BatchingOfOne(batches, s, batchSize);
      } else if |last| == 1 {
        BatchingDropLastBatch(batches, s, batchSize);
        BatchingIsUnique(batches[..n - 1], s[..|s| - 1], batchSize);
        BatchesOfNewBatch(s, batchSize, batches);
      } else {
        BatchingShrinkLastBatch(batches, s, batchSize);
        BatchingIsUnique(batches[..n - 1] + [last[..|last| - 1]], s[..|s| - 1], batchSize);
        BatchesOfGrowBatch(s, batchSize, batches);
      }
    }
  }

  /**
   * `ToBatches`: a non-positive batch size throws ArgumentOutOfRangeException; otherwise the
   * aggregation list, whose last element is the batch being filled, is built value by value.
   */
  method ToBatches<T>(slinq: seq<T>, batchSize: int) returns (r: Outcome<seq<seq<T>>>)
    ensures batchSize <= 0 ==> r == Threw(Exception(ArgumentOutOfRange, BatchSizeMessage))
    ensures batchSize > 0 ==> r.Returned? && IsBatching(r.value, slinq, batchSize)
  {
    if batchSize <= 0 {
      return Threw(Exception(ArgumentOutOfRange, BatchSizeMessage));
    }
    var aggregation: seq<seq<T>> := [[]];
    var i := 0;
    while i < |slinq|
      invariant 0 <= i <= |slinq| && aggregation == BatchesOf(slinq[..i], batchSize)
    {
      var value := slinq[i];
      var currentList := aggregation[|aggregation| - 1];
      assert slinq[..i + 1][..i] == slinq[..i];
      if |currentList| == batchSize {
        aggregation := aggregation + [[value]];
      } else {
        aggregation := aggregation[..|aggregation| - 1] + [currentList + [value]];
      }
      i := i + 1;
    }
    assert slinq[..i] == slinq;
    BatchesOfIsBatching(slinq, batchSize);
    r := Returned(aggregation);
  }

  // ---------------------------------------------------------- ToDictionary

  /**
   * `ToDictionary(keyFunc, valueFunc)`: every element is added to a borrowed dictionary as
   * `keyFunc(item) -> valueFunc(item)` with `Add`, so a repeated key throws ArgumentException.
   * Without a repeated key the dictionary maps each element's key to that element's value.
   */
  method ToDictionary<T, K(==), V>(slinq: seq<T>, keyFunc: T -> K, valueFunc: T -> V) returns (r: Outcome<Dictionary<K, V>>)
    ensures r.Threw? <==> !NoDuplicates(KeysOf(slinq, keyFunc))
    ensures r.Threw? ==> r.exception == Exception(Argument, DuplicateKeyMessage)
    ensures r.Returned? ==>
              fresh(r.value) &&
              r.value.entries.Keys == (set i | 0 <= i < |slinq| :: keyFunc(slinq[i])) &&
              forall i :: 0 <= i < |slinq| ==> r.value.entries[keyFunc(slinq[i])] == valueFunc(slinq[i])
  {
    var dictionary := new Dictionary<K, V>();
    var i := 0;
    while i < |slinq|
      invariant 0 <= i <= |slinq|
      invariant NoDuplicates(KeysOf(slinq[..i], keyFunc))
      invariant dictionary.entries.Keys == (set p | 0 <= p < i :: keyFunc(slinq[p]))
      invariant forall p :: 0 <= p < i ==> dictionary.entries[keyFunc(slinq[p])] == valueFunc(slinq[p])
    {
      var item := slinq[i];
      var added := dictionary.Add(keyFunc(item), valueFunc(item));
      if added.Threw? {
        var p :| 0 <= p < i && keyFunc(slinq[p]) == keyFunc(item);
        assert KeysOf(slinq, keyFunc)[p] == KeysOf(slinq, keyFunc)[i];
        return Threw(added.exception);
      }
      assert (set q | 0 <= q < i + 1 :: keyFunc(slinq[q])) == (set q | 0 <= q < i :: keyFunc(slinq[q])) + {keyFunc(item)};
      i := i + 1;
    }
    assert slinq[..i] == slinq;
    r := Returned(dictionary);
  }

  /** `ToDictionary()` on a slinq of pairs: the first component is the key, the second the value. */
  method ToDictionaryOfPairs<K(==), V>(slinq: seq<(K, V)>) returns (r: Outcome<Dictionary<K, V>>)
    ensures r.Threw? <==> !NoDuplicates(KeysOf(slinq, (p: (K, V)) => p.0))
    ensures r.Returned? ==>
              fresh(r.value) &&
              r.value.entries.Keys == (set i | 0 <= i < |slinq| :: slinq[i].0) &&
              forall i :: 0 <= i < |slinq| ==> r.value.entries[slinq[i].0] == slinq[i].1
  {
    r := ToDictionary(slinq, (p: (K, V)) => p.0, (p: (K, V)) => p.1);
  }
}
