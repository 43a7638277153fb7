/** ListExtensions: bounds-checked reading and inserting into a list. */
module ListExtensions {
  import opened Algebraics
  import opened Containers

  /** `list.GetByIndex(index)`: None outside `[0, Count)`, the element otherwise. */
  function GetByIndex<T>(list: seq<T>, index: int): (r: Option<T>)
    ensures r.None? <==> index < 0 || index >= |list|
    ensures r.Some? ==> r.value == list[index]
  {
    if index >= |list| || index < 0 then None else Some(list[index])
  }

  /**
   * `list.InsertOrAdd(index, element)`: inserts at an in-range index and appends otherwise. Either
   * way the list grows by one and the old elements keep their relative order.
   */
  method InsertOrAdd<T>(list: List<T>, index: int, element: T)
    modifies list
    ensures 0 <= index < |old(list.items)| ==> list.items == old(list.items)[..index] + [element] + old(list.items)[index..]
    ensures !(0 <= index < |old(list.items)|) ==> list.items == old(list.items) + [element]
    ensures |list.items| == |old(list.items)| + 1
    ensures exists k :: 0 <= k < |list.items| && list.items[k] == element && list.items[..k] + list.items[k + 1..] == old(list.items)
  {
    ghost var before := list.items;
    if index < 0 || index >= list.Count() {
      list.Add(element);
      assert list.items[..|before|] + list.items[|before| + 1..] == before;
    } else {
      list.Insert(index, element);
      assert list.items[..index] + list.items[index + 1..] == before;
    }
  }

  /** GetByIndex finds the element InsertOrAdd placed, and everything before it is where it was. */
  lemma GetByIndexAfterInsert<T>(list: seq<T>, index: int, element: T)
    requires 0 <= index < |list|
    ensures GetByIndex(list[..index] + [element] + list[index..], index) == Some(element)
    ensures forall i :: 0 <= i < index ==> GetByIndex(list[..index] + [element] + list[index..], i) == GetByIndex(list, i)
    ensures forall i :: index < i <= |list| ==> GetByIndex(list[..index] + [element] + list[index..], i) == GetByIndex(list, i - 1)
  {
  }
}
