/**
 * `Slice<T>` of Smooth.Collections: a read-only window on a list, or a
 * one-element slice over a single item, plus its struct enumerator.
 *
 * The window is kept exactly as the constructors store it (backing, offset,
 * length); nothing is checked at construction, so an out-of-range window only
 * shows when an element is read. A list is modelled by its contents; it is
 * read through the `IList<T>` indexer, which throws ArgumentOutOfRange out of
 * range for a `List<T>` and for an array alike.
 */
module Slices {
  import opened Algebraics

  /** What the slice reads from: a null list (only `Empty` has one), a list, or a single item. */
  datatype Backing<T> = NullList | List(items: seq<T>) | Item(item: T)

  datatype Slice<T> = Slice(backing: Backing<T>, offset: int, Length: int)
  {
    /** `slice[index]`: the element at `offset + index` of the backing. */
    function At(index: int): (r: Outcome<T>)
      ensures backing.NullList? ==> r == Threw(Exception(NullReference, ""))
      ensures backing.List? && 0 <= offset + index < |backing.items| ==> r == Returned(backing.items[offset + index])
      ensures backing.List? && !(0 <= offset + index < |backing.items|) ==> r.Threw? && r.exception.kind == ArgumentOutOfRange
      ensures backing.Item? ==> (r.Returned? <==> offset + index == 0)
      ensures backing.Item? && r.Returned? ==> r.value == backing.item
      ensures backing.Item? && r.Threw? ==> r.exception.kind == IndexOutOfRange
    {
      var realIndex := offset + index;
      match backing
      case NullList => Threw(Exception(NullReference, ""))
      case List(items) =>
        if 0 <= realIndex < |items| then Returned(items[realIndex])
        else Threw(Exception(ArgumentOutOfRange, ""))
      case Item(item) =>
        if realIndex == 0 then Returned(item) else Threw(Exception(IndexOutOfRange, ""))
    }

    /** The window lies inside its backing, so every index below Length can be read. */
    predicate InBounds()
    {
      0 <= Length &&
      match backing
      case NullList => Length == 0
      case List(items) => 0 <= offset && offset + Length <= |items|
      case Item(_) => offset == 0 && Length <= 1
    }

    /** The elements the slice shows, in order. */
    function Elements(): (s: seq<T>)
      requires InBounds()
      ensures |s| == Length
      ensures forall i :: 0 <= i < Length ==> At(i) == Returned(s[i])
    {
      match backing
      case NullList => []
      case List(items) => items[offset..offset + Length]
      case Item(item) => if Length == 0 then [] else [item]
    }
  }

  /** `Slice<T>.Empty`: no list and no elements. */
  function Empty<T>(): (s: Slice<T>)
    ensures s.Length == 0 && s.InBounds() && s.Elements() == []
  {
    Slice(NullList, 0, 0)
  }

  /** `new Slice(list, start, length)`: the third argument is used as an end index, `Length = length - start`. */
  function FromRange<T>(list: seq<T>, start: int, length: int): (s: Slice<T>)
    ensures s.Length == length - start
    ensures forall i :: 0 <= start + i < |list| ==> s.At(i) == Returned(list[start + i])
    ensures 0 <= start <= length <= |list| ==> s.InBounds() && s.Elements() == list[start..length]
  {
    Slice(List(list), start, length - start)
  }

  /** `new Slice(list, start)`: from `start` to the end of the list, as the other constructor with the list's end. */
  function FromStart<T>(list: seq<T>, start: int): (s: Slice<T>)
    ensures s.Length == |list| - start
    ensures 0 <= start <= |list| ==> s.InBounds() && s.Elements() == list[start..]
    ensures s == FromRange(list, start, |list|)
  {
    Slice(List(list), start, |list| - start)
  }

  /** `new Slice(item)`: one element, read at index 0 only. */
  function FromItem<T>(item: T): (s: Slice<T>)
    ensures s.Length == 1 && s.InBounds() && s.Elements() == [item]
    ensures forall i :: s.At(i).Returned? <==> i == 0
  {
    Slice(Item(item), 0, 1)
  }

  /**
   * `Slice<T>.Enumerator`: a position that starts before the first element. After Dispose the
   * enumerator holds `default(Slice<T>)`, which has length 0 and is modelled as `Empty`.
   */
  class Enumerator<T> {
    var slice: Slice<T>
    var position: int

    constructor(slice: Slice<T>)
      ensures this.slice == slice && position == -1
    {
      this.slice := slice;
      position := -1;
    }

    /**
     * `Current`: the element at the position, read through the slice's indexer. Inside an
     * in-bounds slice that is the element at that position; elsewhere it is whatever the indexer
     * does, which need not be an exception when the offset leaves room before the window.
     */
    function Current(): (r: Outcome<T>)
      reads this
      ensures slice.InBounds() && 0 <= position < slice.Length ==> r == Returned(slice.Elements()[position])
      ensures slice.backing.NullList? ==> r.Threw?
      ensures slice.backing.Item? ==> (r.Returned? <==> slice.offset + position == 0)
    {
      slice.At(position)
    }

    /** MoveNext always advances the position and reports whether it is still inside the slice. */
    method MoveNext() returns (moved: bool)
      modifies this
      ensures position == old(position) + 1 && slice == old(slice)
      ensures moved <==> position < slice.Length
    {
      position := position + 1;
      moved := position < slice.Length;
    }

    method Reset()
      modifies this
      ensures position == -1 && slice == old(slice)
    {
      position := -1;
    }

    method Dispose()
      modifies this
      ensures position == -1 && slice == Empty()
    {
      slice := Empty();
      position := -1;
    }
  }

  /**
   * What `foreach (var x in slice)` does with the enumerator: MoveNext until it is false, reading
   * Current after every successful MoveNext, then Dispose. The first exception from Current ends
   * the loop (the enumerator is still disposed and the exception propagates), so the trace holds
   * the indexer's outcomes up to and including the first `Threw`. On a slice inside its backing it
   * yields exactly the Length elements, in order, and never throws.
   */
  method ForEachElement<T>(slice: Slice<T>) returns (visited: seq<Outcome<T>>)
    ensures slice.InBounds() ==> |visited| == slice.Length && forall i :: 0 <= i < |visited| ==> visited[i] == Returned(slice.Elements()[i])
    ensures |visited| <= if slice.Length < 0 then 0 else slice.Length
    ensures forall i :: 0 <= i < |visited| ==> visited[i] == slice.At(i)
    ensures forall i :: 0 <= i < |visited| - 1 ==> visited[i].Returned?
    ensures |visited| < (if slice.Length < 0 then 0 else slice.Length) ==> |visited| > 0 && visited[|visited| - 1].Threw?
  {
    var e := new Enumerator(slice);
    visited := [];
    var moved := e.MoveNext();
    while moved
      invariant e.slice == slice
      invariant e.position == |visited|
      invariant moved <==> e.position < slice.Length
      invariant |visited| <= if slice.Length < 0 then 0 else slice.Length
      invariant forall i :: 0 <= i < |visited| ==> visited[i] == slice.At(i) && visited[i].Returned?
      decreases slice.Length - e.position
    {
      var current := e.Current();
      visited := visited + [current];
      if current.Threw? {
        break;
      }
      moved := e.MoveNext();
    }
    e.Dispose();
  }
}
