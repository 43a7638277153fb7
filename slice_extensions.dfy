/**
 * SliceExtensions: making a slice of a whole enumerable, or of one item. A
 * list is wrapped as it is; any other enumerable is first copied into a list
 * in enumeration order, so both come down to the same element sequence here.
 */
module SliceExtensions {
  import opened Algebraics
  import opened Slices

  /** `items.ToSlice()`: a slice over the whole list, with `Length = Count`. */
  function ToSlice<T>(items: seq<T>): (s: Slice<T>)
    ensures s.Length == |items| && s.InBounds()
    ensures s.Elements() == items
    ensures forall i :: 0 <= i < |items| ==> s.At(i) == Returned(items[i])
  {
    FromStart(items, 0)
  }

  /** `item.ToSlice()`: the one-element slice of `item`. */
  function ToSliceOfItem<T>(item: T): (s: Slice<T>)
    ensures s.Length == 1 && s.At(0) == Returned(item)
    ensures s.InBounds() && s.Elements() == [item]
  {
    FromItem(item)
  }

  /** A one-element list and the item itself give slices with the same elements. */
  lemma ToSliceOfSingletonAgrees<T>(item: T)
    ensures ToSlice([item]).Elements() == ToSliceOfItem(item).Elements()
    ensures forall i :: ToSlice([item]).At(i).Returned? <==> ToSliceOfItem(item).At(i).Returned?
  {
  }
}
