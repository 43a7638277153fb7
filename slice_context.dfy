/**
 * `SliceContext<T>`: the Slinq context over a slice. It remembers the slice,
 * its length at creation and the index of the last element handed out; the
 * `ref` context and `out` result of the mutators become the object's fields
 * and the method's result. An element read that throws propagates.
 */
module SliceContexts {
  import opened Algebraics
  import opened Slices

  class SliceContext<T> {
    const slice: Slice<T>
    const size: int
    var index: int

    /** The context that `SliceContext<T>.Slinq(slice)` and `SlinqWithIndex(slice)` start from. */
    constructor(slice: Slice<T>)
      ensures this.slice == slice && size == slice.Length && index == -1
    {
      this.slice := slice;
      size := slice.Length;
      index := -1;
    }

    /**
     * `Skip`: the element after the last one handed out, if it is inside the size. The index only
     * moves when an element was produced; out of range it stays put and the result is None.
     */
    method Skip() returns (next: Outcome<Option<T>>)
      modifies this
      ensures var i := old(index) + 1;
              if 0 <= i < size then
                (slice.At(i).Returned? ==> next == Returned(Some(slice.At(i).value)) && index == i) &&
                (slice.At(i).Threw? ==> next == Threw(slice.At(i).exception) && index == old(index))
              else next == Returned(None) && index == old(index)
    {
      var i := index + 1;
      if 0 <= i && i < size {
        var element := slice.At(i);
        match element
        case Returned(v) =>
          next := Returned(Some(v));
          index := i;
        case Threw(e) =>
          next := Threw(e);
      } else {
        next := Returned(None);
      }
    }

    /** `SkipWithIndex`: as Skip, with the element paired with its index. */
    method SkipWithIndex() returns (next: Outcome<Option<(T, int)>>)
      modifies this
      ensures var i := old(index) + 1;
              if 0 <= i < size then
                (slice.At(i).Returned? ==> next == Returned(Some((slice.At(i).value, i))) && index == i) &&
                (slice.At(i).Threw? ==> next == Threw(slice.At(i).exception) && index == old(index))
              else next == Returned(None) && index == old(index)
    {
      var i := index + 1;
      if 0 <= i && i < size {
        var element := slice.At(i);
        match element
        case Returned(v) =>
          next := Returned(Some((v, i)));
          index := i;
        case Threw(e) =>
          next := Threw(e);
      } else {
        next := Returned(None);
      }
    }

    /** Removing through a slice is not supported: it always throws and changes nothing. */
    method Remove() returns (next: Outcome<Option<T>>)
      ensures next == Threw(Exception(NotSupported, ""))
    {
      next := Threw(Exception(NotSupported, ""));
    }

    method RemoveWithIndex() returns (next: Outcome<Option<(T, int)>>)
      ensures next == Threw(Exception(NotSupported, ""))
    {
      next := Threw(Exception(NotSupported, ""));
    }

    /** Disposing hands out nothing and changes nothing. */
    method Dispose() returns (next: Option<T>)
      ensures next == None
    {
      next := None;
    }

    method DisposeWithIndex() returns (next: Option<(T, int)>)
      ensures next == None
    {
      next := None;
    }
  }

  /**
   * Skip called until it gives None, the way a Slinq consumer drains the context. On a slice inside
   * its backing it hands out every element exactly once, in order, and afterwards Skip keeps giving
   * None without moving.
   */
  method Drain<T>(context: SliceContext<T>) returns (items: seq<T>, last: Outcome<Option<T>>)
    requires context.index == -1 && context.size == context.slice.Length && context.slice.InBounds()
    modifies context
    ensures items == context.slice.Elements()
    ensures last == Returned(None) && context.index == context.size - 1
  {
    items := [];
    last := context.Skip();
    while last != Returned(None)
      invariant context.size == context.slice.Length
      invariant 0 <= |items| <= context.size
      invariant last == Returned(None) || (|items| < context.size && last == Returned(Some(context.slice.Elements()[|items|])))
      invariant last == Returned(None) ==> |items| == context.size
      invariant context.index == |items| - (if last == Returned(None) then 1 else 0)
      invariant items == context.slice.Elements()[..|items|]
      decreases context.size - |items|
    {
      items := items + [last.value.value];
      last := context.Skip();
    }
  }
}
