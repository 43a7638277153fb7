/**
 * The two mutable .NET containers the extension methods work on, reduced to
 * the operations they call: `List<T>` (contents as a sequence) and
 * `Dictionary<K, V>` (contents as a map). A pool's `Borrow` is a fresh empty
 * container.
 */
module Containers {
  import opened Algebraics

  class List<T> {
    var items: seq<T>

    /** `new List<T>()`, or a list borrowed from a pool. */
    constructor()
      ensures items == []
    {
      items := [];
    }

    function Count(): (n: int)
      reads this
      ensures n == |items|
    {
      |items|
    }

    /** `Add`: appends at the end. */
    method Add(item: T)
      modifies this
      ensures items == old(items) + [item]
    {
      items := items + [item];
    }

    /** `Insert(index, item)` for `0 <= index <= Count`: the later elements move one place right. */
    method Insert(index: int, item: T)
      requires 0 <= index <= |items|
      modifies this
      ensures items == old(items)[..index] + [item] + old(items)[index..]
    {
      items := items[..index] + [item] + items[index..];
    }
  }

  /** The .NET Framework text of a duplicate-key ArgumentException; newer runtimes append " Key: {key}". */
  const DuplicateKeyMessage := "An item with the same key has already been added."

  class Dictionary<K(==), V> {
    var entries: map<K, V>

    /** `new Dictionary<K, V>()`, or a dictionary borrowed from a pool. */
    constructor()
      ensures entries == map[]
    {
      entries := map[];
    }

    /** `new Dictionary<K, V>(other)`: a copy of the entries. */
    constructor Copy(other: map<K, V>)
      ensures entries == other
    {
      entries := other;
    }

    /** `dictionary[key] = value`: inserts or overwrites. */
    method Set(key: K, value: V)
      modifies this
      ensures entries == old(entries)[key := value]
    {
      entries := entries[key := value];
    }

    /** `Add(key, value)`: inserts a new key; a present key throws ArgumentException and changes nothing. */
    method Add(key: K, value: V) returns (r: Outcome<()>)
      modifies this
      ensures key in old(entries) ==> r == Threw(Exception(Argument, DuplicateKeyMessage)) && entries == old(entries)
      ensures key !in old(entries) ==> r == Returned(()) && entries == old(entries)[key := value]
    {
      if key in entries {
        r := Threw(Exception(Argument, DuplicateKeyMessage));
      } else {
        entries := entries[key := value];
        r := Returned(());
      }
    }
  }
}
