/**
 * `SingleValueCollection<T>` of Smooth.Collections: a read-only list of
 * exactly one value, and its three-state enumerator. `zero` stands for
 * `default(T)`, which `Current` yields outside the value.
 */
module SingleValueCollections {
  import opened Algebraics

  const IndexOutOfRangeMessage := "Index was out of range. Must be non-negative and less than the size of the collection."

  datatype SingleValueCollection<T> = FromValue(value: T)
  {
    function Count(): (n: int)
      ensures n == 1
    {
      1
    }

    /** `collection[index]`: the value at index 0, an IndexOutOfRangeException anywhere else. */
    function At(index: int): (r: Outcome<T>)
      ensures r.Returned? <==> 0 <= index < Count()
      ensures r.Returned? ==> r.value == value
      ensures r.Threw? ==> r.exception == Exception(IndexOutOfRange, IndexOutOfRangeMessage)
    {
      if index == 0 then Returned(value) else Threw(Exception(IndexOutOfRange, IndexOutOfRangeMessage))
    }
  }

  datatype MoveStatus = NotMoved | OnValue | OutOfValue

  /** `SingleEnumerator`: NotMoved, then OnValue after the first MoveNext, then OutOfValue for good. */
  class SingleEnumerator<T> {
    var moveStatus: MoveStatus
    const value: T

    constructor(value: T)
      ensures this.value == value && moveStatus == NotMoved
    {
      this.value := value;
      moveStatus := NotMoved;
    }

    method Dispose()
      modifies this
      ensures moveStatus == OutOfValue
    {
      moveStatus := OutOfValue;
    }

    /** Only the first MoveNext after construction or Reset reports a value; OutOfValue is absorbing. */
    method MoveNext() returns (moved: bool)
      modifies this
      ensures moveStatus == (if old(moveStatus) == NotMoved then OnValue else OutOfValue)
      ensures moved <==> old(moveStatus) == NotMoved
    {
      moveStatus := if moveStatus == NotMoved then OnValue else OutOfValue;
      moved := moveStatus == OnValue;
    }

    method Reset()
      modifies this
      ensures moveStatus == NotMoved
    {
      moveStatus := NotMoved;
    }

    /** `Current`: the value on it, `default(T)` before and after. */
    function Current(zero: T): (r: T)
      reads this
      ensures moveStatus == OnValue ==> r == value
      ensures moveStatus != OnValue ==> r == zero
    {
      if moveStatus == OnValue then value else zero
    }
  }

  /** `collection.GetEnumerator()`: a fresh enumerator over the value. */
  method GetEnumerator<T>(collection: SingleValueCollection<T>) returns (e: SingleEnumerator<T>)
    ensures fresh(e) && e.value == collection.value && e.moveStatus == NotMoved
  {
    e := new SingleEnumerator(collection.value);
  }

  /**
   * What `foreach` does with the enumerator: MoveNext until it is false, reading Current after each
   * success, then Dispose. It yields exactly the one value; after a Reset the same enumerator yields
   * it once more.
   */
  method ForEachElement<T>(e: SingleEnumerator<T>, zero: T) returns (visited: seq<T>)
    requires e.moveStatus == NotMoved
    modifies e
    ensures visited == [e.value]
    ensures e.moveStatus == OutOfValue
  {
    visited := [];
    var moved := e.MoveNext();
    while moved
      invariant moved ==> e.moveStatus == OnValue && visited == []
      invariant !moved ==> e.moveStatus == OutOfValue && visited == [e.value]
      decreases if moved then 1 else 0
    {
      visited := visited + [e.Current(zero)];
      moved := e.MoveNext();
    }
    e.Dispose();
  }

  /** Reset makes the enumerator yield the value again, however far it had gone. */
  method ResetAndEnumerate<T>(e: SingleEnumerator<T>, zero: T) returns (first: seq<T>, second: seq<T>)
    requires e.moveStatus == NotMoved
    modifies e
    ensures first == [e.value] && second == [e.value]
  {
    first := ForEachElement(e, zero);
    e.Reset();
    second := ForEachElement(e, zero);
  }
}
