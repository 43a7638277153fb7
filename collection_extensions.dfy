/**
 * CollectionExtensions: adding one item to a collection in place, returning
 * either the collection or the item. The collection is a list, where Add
 * appends at the end.
 */
module CollectionExtensions {
  import opened Containers

  /** `collection.WithItem(item)`: adds the item and returns the same collection. */
  method WithItem<T>(collection: List<T>, item: T) returns (r: List<T>)
    modifies collection
    ensures r == collection
    ensures collection.items == old(collection.items) + [item]
  {
    collection.Add(item);
    r := collection;
  }

  /** `item.AddTo(collection)`: adds the item and returns the item. */
  method AddTo<T>(item: T, collection: List<T>) returns (r: T)
    modifies collection
    ensures r == item
    ensures collection.items == old(collection.items) + [item]
  {
    collection.Add(item);
    r := item;
  }

  /** WithItem and AddTo have the same effect: two lists with the same contents stay equal. */
  method WithItemAndAddToAgree<T>(a: List<T>, b: List<T>, item: T)
    requires a != b && a.items == b.items
    modifies a, b
    ensures a.items == b.items == old(a.items) + [item]
  {
    var _ := WithItem(a, item);
    var _ := AddTo(item, b);
  }
}
