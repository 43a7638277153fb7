/** EitherExtensions: mapping both sides of an Either. */
module EitherExtensions {
  import opened Algebraics

  /** `either.Select(firstSelector, secondSelector)`: the side is kept and only its selector runs. */
  function Select<T1, T2, T3, T4>(either: Either<T1, T2>, firstSelector: T1 -> T3, secondSelector: T2 -> T4): (r: Either<T3, T4>)
    ensures r.IsLeft() <==> either.IsLeft()
    ensures either.Left? ==> r.leftValue == firstSelector(either.leftValue)
    ensures either.Right? ==> r.rightValue == secondSelector(either.rightValue)
  {
    if either.IsLeft() then Left(firstSelector(either.leftValue)) else Right(secondSelector(either.rightValue))
  }

  /** Select is a bifunctor map: identities give the input back and two Selects compose. */
  lemma SelectFunctorLaws<T1, T2, T3, T4, T5, T6>(e: Either<T1, T2>, f: T1 -> T3, g: T2 -> T4, h: T3 -> T5, k: T4 -> T6)
    ensures Select(e, x => x, y => y) == e
    ensures Select(Select(e, f, g), h, k) == Select(e, x => h(f(x)), y => k(g(y)))
  {
  }
}
