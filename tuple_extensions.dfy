/**
 * TupleExtensions of Smooth.Algebraics.Extensions: component-wise equality of
 * value tuples with the default equality of each component type, modelled as
 * Dafny equality. The eight-element tuple syntax stands for a seven-element
 * value tuple whose `Rest` is a one-element `ValueTuple<TRest>`, which is why
 * the widest overload ends in the one-element overload.
 */
module TupleExtensions {

  /** `ValueTuple<T1>`: the one-element value tuple. */
  datatype ValueTuple1<T1> = ValueTuple1(Item1: T1)

  function ItemsEquals1<T1(==)>(left: ValueTuple1<T1>, right: ValueTuple1<T1>): (r: bool)
    ensures r <==> left == right
  {
    left.Item1 == right.Item1
  }

  function ItemsEquals2<T1(==), T2(==)>(left: (T1, T2), right: (T1, T2)): (r: bool)
    ensures r <==> left == right
  {
    left.0 == right.0 && left.1 == right.1
  }

  function ItemsEquals3<T1(==), T2(==), T3(==)>(left: (T1, T2, T3), right: (T1, T2, T3)): (r: bool)
    ensures r <==> left == right
  {
    left.0 == right.0 && left.1 == right.1 && left.2 == right.2
  }

  function ItemsEquals4<T1(==), T2(==), T3(==), T4(==)>(left: (T1, T2, T3, T4), right: (T1, T2, T3, T4)): (r: bool)
    ensures r <==> left == right
  {
    left.0 == right.0 && left.1 == right.1 && left.2 == right.2 && left.3 == right.3
  }

  function ItemsEquals5<T1(==), T2(==), T3(==), T4(==), T5(==)>(left: (T1, T2, T3, T4, T5), right: (T1, T2, T3, T4, T5)): (r: bool)
    ensures r <==> left == right
  {
    left.0 == right.0 && left.1 == right.1 && left.2 == right.2 && left.3 == right.3 && left.4 == right.4
  }

  function ItemsEquals6<T1(==), T2(==), T3(==), T4(==), T5(==), T6(==)>(left: (T1, T2, T3, T4, T5, T6),
                                                                      right: (T1, T2, T3, T4, T5, T6)): (r: bool)
    ensures r <==> left == right
  {
    left.0 == right.0 && left.1 == right.1 && left.2 == right.2 && left.3 == right.3 && left.4 == right.4
    && left.5 == right.5
  }

  function ItemsEquals7<T1(==), T2(==), T3(==), T4(==), T5(==), T6(==), T7(==)>(left: (T1, T2, T3, T4, T5, T6, T7),
                                                                              right: (T1, T2, T3, T4, T5, T6, T7)): (r: bool)
    ensures r <==> left == right
  {
    left.0 == right.0 && left.1 == right.1 && left.2 == right.2 && left.3 == right.3 && left.4 == right.4
    && left.5 == right.5 && left.6 == right.6
  }

  /** The widest overload: seven components, then the one-element overload on `Rest`. */
  function ItemsEquals8<T1(==), T2(==), T3(==), T4(==), T5(==), T6(==), T7(==), TRest(==)>(
    left: (T1, T2, T3, T4, T5, T6, T7, ValueTuple1<TRest>),
    right: (T1, T2, T3, T4, T5, T6, T7, ValueTuple1<TRest>)): (r: bool)
    ensures r <==> left == right
    ensures r ==> ItemsEquals7((left.0, left.1, left.2, left.3, left.4, left.5, left.6),
                               (right.0, right.1, right.2, right.3, right.4, right.5, right.6))
  {
    left.0 == right.0 && left.1 == right.1 && left.2 == right.2 && left.3 == right.3 && left.4 == right.4
    && left.5 == right.5 && left.6 == right.6 && ItemsEquals1(left.7, right.7)
  }

  /** Each overload is an equivalence; the pair overload is the one-element overload on each side. */
  lemma ItemsEqualsLaws<T1, T2, T3>(a: (T1, T2, T3), b: (T1, T2, T3), c: (T1, T2, T3))
    requires ItemsEquals3(a, b) && ItemsEquals3(b, c)
    ensures ItemsEquals3(a, c) && ItemsEquals3(b, a)
    ensures ItemsEquals2((a.0, a.1), (b.0, b.1))
    ensures ItemsEquals1(ValueTuple1(a.2), ValueTuple1(c.2))
  {
  }
}
