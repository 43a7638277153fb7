/**
 * ValueTupleExtensions: acting on the components of a value tuple in
 * positional order, converting components, requiring that every optional
 * component is present (Strict), and flattening nested pairs.
 */
module ValueTupleExtensions {
  import opened Algebraics

  /** `tuple.PipeAndReturn(action)`: the tuple itself, and the one call of `action` on its components. */
  function PipeAndReturn<T1, T2>(tuple: (T1, T2)): (out: ((T1, T2), seq<(T1, T2)>))
    ensures out.0 == tuple
    ensures out.1 == [(tuple.0, tuple.1)]
  {
    (tuple, [(tuple.0, tuple.1)])
  }

  /** `tuple.Convert(func1, func2)`: each component through its own function. */
  function Convert<T1, T2, T3, T4>(tuple: (T3, T4), func1: T3 -> T1, func2: T4 -> T2): (r: (T1, T2))
    ensures r.0 == func1(tuple.0) && r.1 == func2(tuple.1)
  {
    (func1(tuple.0), func2(tuple.1))
  }

  /** Convert maps both components: the identities leave the tuple unchanged and two Converts compose. */
  lemma ConvertFunctorLaws<A, B, C, D, E, F>(t: (A, B), f1: A -> C, f2: B -> D, g1: C -> E, g2: D -> F)
    ensures Convert(t, x => x, y => y) == t
    ensures Convert(Convert(t, f1, f2), g1, g2) == Convert(t, x => g1(f1(x)), y => g2(f2(y)))
  {
  }

  function Strict2<T1, T2>(tuple: (Option<T1>, Option<T2>)): (r: Option<(T1, T2)>)
    ensures r.Some? <==> tuple.0.Some? && tuple.1.Some?
    ensures r.Some? ==> r.value == (tuple.0.value, tuple.1.value)
  {
    if tuple.0.IsSome() && tuple.1.IsSome() then Some((tuple.0.value, tuple.1.value)) else None
  }

  function Strict3<T1, T2, T3>(tuple: (Option<T1>, Option<T2>, Option<T3>)): (r: Option<(T1, T2, T3)>)
    ensures r.Some? <==> tuple.0.Some? && tuple.1.Some? && tuple.2.Some?
    ensures r.Some? ==> r.value == (tuple.0.value, tuple.1.value, tuple.2.value)
  {
    if tuple.0.IsSome() && tuple.1.IsSome() && tuple.2.IsSome()
    then Some((tuple.0.value, tuple.1.value, tuple.2.value))
    else None
  }

  function Strict4<T1, T2, T3, T4>(tuple: (Option<T1>, Option<T2>, Option<T3>, Option<T4>)): (r: Option<(T1, T2, T3, T4)>)
    ensures r.Some? <==> tuple.0.Some? && tuple.1.Some? && tuple.2.Some? && tuple.3.Some?
    ensures r.Some? ==> r.value == (tuple.0.value, tuple.1.value, tuple.2.value, tuple.3.value)
  {
    if tuple.0.IsSome() && tuple.1.IsSome() && tuple.2.IsSome() && tuple.3.IsSome()
    then Some((tuple.0.value, tuple.1.value, tuple.2.value, tuple.3.value))
    else None
  }

  /** `((a, b), c).Flatten()`: the three components in order; nesting them again gives the input back. */
  function Flatten3<T1, T2, T3>(tuple: ((T1, T2), T3)): (r: (T1, T2, T3))
    ensures ((r.0, r.1), r.2) == tuple
  {
    (tuple.0.0, tuple.0.1, tuple.1)
  }

  function Flatten4<T1, T2, T3, T4>(tuple: ((T1, T2), (T3, T4))): (r: (T1, T2, T3, T4))
    ensures ((r.0, r.1), (r.2, r.3)) == tuple
  {
    (tuple.0.0, tuple.0.1, tuple.1.0, tuple.1.1)
  }

  /** Flatten only regroups: it is undone by nesting the components again. */
  lemma FlattenRegroups<T1, T2, T3, T4>(n3: ((T1, T2), T3), n4: ((T1, T2), (T3, T4)))
    ensures var f := Flatten3(n3); ((f.0, f.1), f.2) == n3
    ensures var f := Flatten4(n4); ((f.0, f.1), (f.2, f.3)) == n4
  {
  }

  /** The wider Strict overloads are Strict of pairs, nested and then flattened. */
  lemma StrictIsNestedStrict<T1, T2, T3, T4>(a: Option<T1>, b: Option<T2>, c: Option<T3>, d: Option<T4>)
    ensures Strict3((a, b, c)) == Strict2((Strict2((a, b)), c)).Select(Flatten3)
    ensures Strict4((a, b, c, d)) == Strict2((Strict2((a, b)), Strict2((c, d)))).Select(Flatten4)
  {
  }

  /** `tuple.Select(func)`: the function applied to the components in positional order. */
  function Select2<T1, T2, R>(tuple: (T1, T2), func: (T1, T2) -> R): (r: R)
    ensures r == func(tuple.0, tuple.1)
  {
    func(tuple.0, tuple.1)
  }

  function Select3<T1, T2, T3, R>(tuple: (T1, T2, T3), func: (T1, T2, T3) -> R): (r: R)
    ensures r == func(tuple.0, tuple.1, tuple.2)
  {
    func(tuple.0, tuple.1, tuple.2)
  }

  function Select4<T1, T2, T3, T4, R>(tuple: (T1, T2, T3, T4), func: (T1, T2, T3, T4) -> R): (r: R)
    ensures r == func(tuple.0, tuple.1, tuple.2, tuple.3)
  {
    func(tuple.0, tuple.1, tuple.2, tuple.3)
  }

  function Select5<T1, T2, T3, T4, T5, R>(tuple: (T1, T2, T3, T4, T5), func: (T1, T2, T3, T4, T5) -> R): (r: R)
    ensures r == func(tuple.0, tuple.1, tuple.2, tuple.3, tuple.4)
  {
    func(tuple.0, tuple.1, tuple.2, tuple.3, tuple.4)
  }

  /** The parameter overloads are the plain ones with the parameter fixed as the last argument. */
  function Select2Param<T1, T2, P, R>(tuple: (T1, T2), func: (T1, T2, P) -> R, param: P): (r: R)
    ensures r == Select2(tuple, (a: T1, b: T2) => func(a, b, param))
  {
    func(tuple.0, tuple.1, param)
  }

  function Select3Param<T1, T2, T3, P, R>(tuple: (T1, T2, T3), func: (T1, T2, T3, P) -> R, param: P): (r: R)
    ensures r == Select3(tuple, (a: T1, b: T2, c: T3) => func(a, b, c, param))
  {
    func(tuple.0, tuple.1, tuple.2, param)
  }

  function Select4Param<T1, T2, T3, T4, P, R>(tuple: (T1, T2, T3, T4), func: (T1, T2, T3, T4, P) -> R, param: P): (r: R)
    ensures r == Select4(tuple, (a: T1, b: T2, c: T3, d: T4) => func(a, b, c, d, param))
  {
    func(tuple.0, tuple.1, tuple.2, tuple.3, param)
  }

  /**
   * Select passes the components in positional order: the parameter overloads are the plain ones
   * with the parameter fixed, and a Select over a flattened pair sees the nested components in order.
   */
  lemma SelectLaws<T1, T2, T3, T4, P, R>(t2: (T1, T2), t3: (T1, T2, T3), t4: (T1, T2, T3, T4), p: P,
                                         f2: (T1, T2, P) -> R, f3: (T1, T2, T3, P) -> R, f4: (T1, T2, T3, T4, P) -> R,
                                         n3: ((T1, T2), T3), g3: (T1, T2, T3) -> R)
    ensures Select2Param(t2, f2, p) == Select2(t2, (a, b) => f2(a, b, p))
    ensures Select3Param(t3, f3, p) == Select3(t3, (a, b, c) => f3(a, b, c, p))
    ensures Select4Param(t4, f4, p) == Select4(t4, (a, b, c, d) => f4(a, b, c, d, p))
    ensures Select3(Flatten3(n3), g3) == Select2(n3, (ab: (T1, T2), c) => g3(ab.0, ab.1, c))
    ensures Select2(t2, (a, b) => (a, b)) == t2
    ensures Select5(((t4.0, t4.1, t4.2, t4.3, p)), (a, b, c, d, e) => f4(a, b, c, d, e)) == Select4Param(t4, f4, p)
  {
  }
}
