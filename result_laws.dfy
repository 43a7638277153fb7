/**
 * Properties of the three result kinds: the accessor guards, short-circuiting
 * of Then / ThenTry on an error, the success path, the monad laws of Then,
 * the conversions between kinds and the behaviour of Equals.
 */
module ResultLaws {
  import opened Algebraics
  import opened Results

  // ----- accessors (ResultHelpers) -----

  /** Exactly one of the two guards throws, and each getter returns exactly when its guard passes. */
  lemma ResultAccessors<T>(r: Result<T>)
    ensures r.ThrowIfError().Threw? <==> r.IsError()
    ensures r.ThrowIfNotError().Threw? <==> !r.IsError()
    ensures r.ThrowIfError().Threw? != r.ThrowIfNotError().Threw?
    ensures r.Value().Returned? ==> r == Result.FromValue(r.Value().value)
    ensures r.Value().Threw? ==> r.Value().exception == Exception(ResultHasNoValue, NoValueMessage("Result`1"))
    ensures r.Error().Returned? ==> r == Result.FromError(r.Error().value)
    ensures r.Error().Threw? ==> r.Error().exception == Exception(ResultHasNoError, NoErrorMessage("Result`1"))
  {
  }

  lemma ResultExAccessors<T>(r: ResultEx<T>)
    ensures r.ThrowIfError().Threw? <==> r.IsError()
    ensures r.ThrowIfNotError().Threw? <==> !r.IsError()
    ensures r.ThrowIfError().Threw? != r.ThrowIfNotError().Threw?
    ensures r.Value().Returned? ==> r == ResultEx.FromValue(r.Value().value)
    ensures r.Value().Threw? ==> r.Value().exception == Exception(ResultHasNoValue, NoValueMessage("Result`1"))
    ensures r.Error().Returned? ==> r == ResultEx.FromError(r.Error().value)
    ensures r.Error().Threw? ==> r.Error().exception == Exception(ResultHasNoError, NoErrorMessage("Result`1"))
    ensures r.StoredError().Null? <==> !r.IsError()
  {
  }

  lemma ResultGenericAccessors<T, E>(r: ResultGeneric<T, E>)
    ensures r.ThrowIfError().Threw? <==> r.IsError()
    ensures r.ThrowIfNotError().Threw? <==> !r.IsError()
    ensures r.ThrowIfError().Threw? != r.ThrowIfNotError().Threw?
    ensures r.Value().Returned? ==> r == ResultGeneric.FromValue(r.Value().value)
    ensures r.Value().Threw? ==> r.Value().exception == Exception(ResultHasNoValue, NoValueMessage("ResultGeneric`2"))
    ensures r.Error().Returned? ==> r == ResultGeneric.FromError(r.Error().value)
    ensures r.Error().Threw? ==> r.Error().exception == Exception(ResultHasNoError, NoErrorMessage("ResultGeneric`2"))
  {
  }

  // ----- Then: an error short-circuits, whatever the function -----

  /** On an error every Then overload returns the same error and its result does not depend on the function. */
  lemma ResultThenOnError<T, U, A>(r: Result<T>, arg: A,
                                   f0: () -> Result<U>, g0: () -> Result<U>,
                                   f1: A -> Result<U>, g1: A -> Result<U>,
                                   f2: Result<T> -> Result<U>, g2: Result<T> -> Result<U>,
                                   f3: (Result<T>, A) -> Result<U>, g3: (Result<T>, A) -> Result<U>,
                                   f4: T -> Result<U>, g4: T -> Result<U>,
                                   f5: (T, A) -> Result<U>, g5: (T, A) -> Result<U>)
    requires r.IsError()
    ensures r.ThenNoArg(f0) == r.ThenNoArg(g0) == Result.FromError(r.error)
    ensures r.ThenArg(f1, arg) == r.ThenArg(g1, arg) == Result.FromError(r.error)
    ensures r.ThenSelf(f2) == r.ThenSelf(g2) == Result.FromError(r.error)
    ensures r.ThenSelfArg(f3, arg) == r.ThenSelfArg(g3, arg) == Result.FromError(r.error)
    ensures r.Then(f4) == r.Then(g4) == Result.FromError(r.error)
    ensures r.ThenValueArg(f5, arg) == r.ThenValueArg(g5, arg) == Result.FromError(r.error)
  {
  }

  /** On a success every Then overload is exactly the function applied to its argument. */
  lemma ResultThenOnValue<T, U, A>(v: T, arg: A,
                                   f0: () -> Result<U>, f1: A -> Result<U>,
                                   f2: Result<T> -> Result<U>, f3: (Result<T>, A) -> Result<U>,
                                   f4: T -> Result<U>, f5: (T, A) -> Result<U>)
    ensures Result.FromValue(v).ThenNoArg(f0) == f0()
    ensures Result.FromValue(v).ThenArg(f1, arg) == f1(arg)
    ensures Result.FromValue(v).ThenSelf(f2) == f2(Result.FromValue(v))
    ensures Result.FromValue(v).ThenSelfArg(f3, arg) == f3(Result.FromValue(v), arg)
    ensures Result.FromValue(v).Then(f4) == f4(v)
    ensures Result.FromValue(v).ThenValueArg(f5, arg) == f5(v, arg)
  {
  }

  lemma ResultExThenOnError<T, U, A>(r: ResultEx<T>, arg: A,
                                     f0: () -> ResultEx<U>, g0: () -> ResultEx<U>,
                                     f1: A -> ResultEx<U>, g1: A -> ResultEx<U>,
                                     f2: ResultEx<T> -> ResultEx<U>, g2: ResultEx<T> -> ResultEx<U>,
                                     f3: (ResultEx<T>, A) -> ResultEx<U>, g3: (ResultEx<T>, A) -> ResultEx<U>,
                                     f4: T -> ResultEx<U>, g4: T -> ResultEx<U>,
                                     f5: (T, A) -> ResultEx<U>, g5: (T, A) -> ResultEx<U>)
    requires r.IsError()
    ensures r.ThenNoArg(f0) == r.ThenNoArg(g0) == ResultEx.FromError(r.error)
    ensures r.ThenArg(f1, arg) == r.ThenArg(g1, arg) == ResultEx.FromError(r.error)
    ensures r.ThenSelf(f2) == r.ThenSelf(g2) == ResultEx.FromError(r.error)
    ensures r.ThenSelfArg(f3, arg) == r.ThenSelfArg(g3, arg) == ResultEx.FromError(r.error)
    ensures r.Then(f4) == r.Then(g4) == ResultEx.FromError(r.error)
    ensures r.ThenValueArg(f5, arg) == r.ThenValueArg(g5, arg) == ResultEx.FromError(r.error)
  {
  }

  lemma ResultExThenOnValue<T, U, A>(v: T, arg: A,
                                     f0: () -> ResultEx<U>, f1: A -> ResultEx<U>,
                                     f2: ResultEx<T> -> ResultEx<U>, f3: (ResultEx<T>, A) -> ResultEx<U>,
                                     f4: T -> ResultEx<U>, f5: (T, A) -> ResultEx<U>)
    ensures ResultEx.FromValue(v).ThenNoArg(f0) == f0()
    ensures ResultEx.FromValue(v).ThenArg(f1, arg) == f1(arg)
    ensures ResultEx.FromValue(v).ThenSelf(f2) == f2(ResultEx.FromValue(v))
    ensures ResultEx.FromValue(v).ThenSelfArg(f3, arg) == f3(ResultEx.FromValue(v), arg)
    ensures ResultEx.FromValue(v).Then(f4) == f4(v)
    ensures ResultEx.FromValue(v).ThenValueArg(f5, arg) == f5(v, arg)
  {
  }

  lemma ResultGenericThenOnError<T, E, U, A>(r: ResultGeneric<T, E>, arg: A,
                                             f0: () -> ResultGeneric<U, E>, g0: () -> ResultGeneric<U, E>,
                                             f1: A -> ResultGeneric<U, E>, g1: A -> ResultGeneric<U, E>,
                                             f2: ResultGeneric<T, E> -> ResultGeneric<U, E>,
                                             g2: ResultGeneric<T, E> -> ResultGeneric<U, E>,
                                             f3: (ResultGeneric<T, E>, A) -> ResultGeneric<U, E>,
                                             g3: (ResultGeneric<T, E>, A) -> ResultGeneric<U, E>,
                                             f4: T -> ResultGeneric<U, E>, g4: T -> ResultGeneric<U, E>,
                                             f5: (T, A) -> ResultGeneric<U, E>, g5: (T, A) -> ResultGeneric<U, E>)
    requires r.IsError()
    ensures r.ThenNoArg(f0) == r.ThenNoArg(g0) == ResultGeneric.FromError(r.error)
    ensures r.ThenArg(f1, arg) == r.ThenArg(g1, arg) == ResultGeneric.FromError(r.error)
    ensures r.ThenSelf(f2) == r.ThenSelf(g2) == ResultGeneric.FromError(r.error)
    ensures r.ThenSelfArg(f3, arg) == r.ThenSelfArg(g3, arg) == ResultGeneric.FromError(r.error)
    ensures r.Then(f4) == r.Then(g4) == ResultGeneric.FromError(r.error)
    ensures r.ThenValueArg(f5, arg) == r.ThenValueArg(g5, arg) == ResultGeneric.FromError(r.error)
  {
  }

  lemma ResultGenericThenOnValue<T, E, U, A>(v: T, arg: A,
                                             f0: () -> ResultGeneric<U, E>, f1: A -> ResultGeneric<U, E>,
                                             f2: ResultGeneric<T, E> -> ResultGeneric<U, E>,
                                             f3: (ResultGeneric<T, E>, A) -> ResultGeneric<U, E>,
                                             f4: T -> ResultGeneric<U, E>, f5: (T, A) -> ResultGeneric<U, E>)
    ensures ResultGeneric<T, E>.FromValue(v).ThenNoArg(f0) == f0()
    ensures ResultGeneric<T, E>.FromValue(v).ThenArg(f1, arg) == f1(arg)
    ensures ResultGeneric<T, E>.FromValue(v).ThenSelf(f2) == f2(ResultGeneric.FromValue(v))
    ensures ResultGeneric<T, E>.FromValue(v).ThenSelfArg(f3, arg) == f3(ResultGeneric.FromValue(v), arg)
    ensures ResultGeneric<T, E>.FromValue(v).Then(f4) == f4(v)
    ensures ResultGeneric<T, E>.FromValue(v).ThenValueArg(f5, arg) == f5(v, arg)
  {
  }

  // ----- Then is a monadic bind -----

  lemma ResultThenMonadLaws<T, U, W>(r: Result<T>, f: T -> Result<U>, g: U -> Result<W>)
    ensures r.Then(x => Result.FromValue(x)) == r
    ensures r.Then(f).Then(g) == r.Then(x => f(x).Then(g))
  {
  }

  lemma ResultExThenMonadLaws<T, U, W>(r: ResultEx<T>, f: T -> ResultEx<U>, g: U -> ResultEx<W>)
    ensures r.Then(x => ResultEx.FromValue(x)) == r
    ensures r.Then(f).Then(g) == r.Then(x => f(x).Then(g))
  {
  }

  lemma ResultGenericThenMonadLaws<T, E, U, W>(r: ResultGeneric<T, E>, f: T -> ResultGeneric<U, E>, g: U -> ResultGeneric<W, E>)
    ensures r.Then(x => ResultGeneric.FromValue(x)) == r
    ensures r.Then(f).Then(g) == r.Then(x => f(x).Then(g))
  {
  }

  // ----- ThenTry -----

  /**
   * Result.ThenTry: an error keeps its text (as the message of a ResultErrorException) and the
   * function is not consulted; on a success a thrown exception becomes the error. ThenTry behaves
   * like converting to ResultEx first, and the catching overload with `e => e.Message` is the
   * non-catching one converted back.
   */
  lemma ResultThenTry<T, U, A>(r: Result<T>, f: T -> Outcome<U>, g: T -> Outcome<U>,
                               h: (T, A) -> Outcome<U>, arg: A, c: Exception -> string, c2: (Exception, A) -> string)
    ensures r.IsError() ==> r.ThenTry(f) == r.ThenTry(g)
    ensures r.IsError() ==> r.ThenTry(f).ToResult() == Result.FromError(r.error)
    ensures r.IsError() ==> r.ThenTryCatch(f, c) == Result.FromError(r.error)
    ensures !r.IsError() && f(r.value).Threw? ==> r.ThenTry(f) == ResultEx.FromError(f(r.value).exception)
    ensures !r.IsError() && f(r.value).Threw? ==> r.ThenTryCatch(f, c) == Result.FromError(c(f(r.value).exception))
    ensures !r.IsError() && f(r.value).Returned? ==> r.ThenTryCatch(f, c) == Result.FromValue(f(r.value).value)
    ensures r.ThenTry(f) == r.ToResultEx().ThenTry(f)
    ensures r.ThenTryArg(h, arg) == r.ThenTry(x => h(x, arg))
    ensures r.ThenTryCatch(f, (e: Exception) => e.message) == r.ThenTry(f).ToResult()
    ensures r.ThenTryCatchArg(h, arg, c2) == r.ThenTryCatch(x => h(x, arg), e => c2(e, arg))
  {
  }

  /** ResultEx.ThenTry keeps the exception of an error; on a success it catches what the function throws. */
  lemma ResultExThenTry<T, U, A>(r: ResultEx<T>, f: T -> Outcome<U>, h: (T, A) -> Outcome<U>, arg: A)
    ensures r.IsError() ==> r.ThenTry(f) == ResultEx.FromError(r.error)
    ensures !r.IsError() && f(r.value).Threw? ==> r.ThenTry(f) == ResultEx.FromError(f(r.value).exception)
    ensures !r.IsError() && f(r.value).Returned? ==> r.ThenTry(f) == ResultEx.FromValue(f(r.value).value)
    ensures r.ThenTryArg(h, arg) == r.ThenTry(x => h(x, arg))
  {
  }

  /**
   * ResultGeneric.ThenTry wraps an error through its text and is ThenTry after ToResultEx; on a
   * success both ThenTry overloads catch what the function throws, and the catching ones turn it
   * into an error of the result's own error type.
   */
  lemma ResultGenericThenTry<T, E, U, A>(r: ResultGeneric<T, E>, f: T -> Outcome<U>, show: E -> string,
                                         h: (T, A) -> Outcome<U>, arg: A, c: Exception -> E, c2: (Exception, A) -> E)
    ensures r.IsError() ==> r.ThenTry(f, show).ToResult() == Result.FromError("Result has error value '" + show(r.error) + "'")
    ensures r.IsError() ==> r.ThenTryCatch(f, c) == ResultGeneric.FromError(r.error)
    ensures !r.IsError() && f(r.value).Threw? ==> r.ThenTryCatch(f, c) == ResultGeneric.FromError(c(f(r.value).exception))
    ensures !r.IsError() && f(r.value).Returned? ==> r.ThenTryCatch(f, c) == ResultGeneric.FromValue(f(r.value).value)
    ensures !r.IsError() && f(r.value).Threw? ==> r.ThenTry(f, show) == ResultEx.FromError(f(r.value).exception)
    ensures !r.IsError() && f(r.value).Returned? ==> r.ThenTry(f, show) == ResultEx.FromValue(f(r.value).value)
    ensures r.ThenTry(f, show) == r.ToResultEx(show).ThenTry(f)
    ensures r.ThenTryArg(h, arg, show) == r.ThenTry(x => h(x, arg), show)
    ensures r.ThenTryCatchArg(h, arg, c2) == r.ThenTryCatch(x => h(x, arg), e => c2(e, arg))
  {
  }

  // ----- conversions -----

  /** Result -> ResultEx -> Result and Result -> ResultGeneric -> Result are identities. */
  lemma ResultConversionsRoundTrip<T>(r: Result<T>)
    ensures r.ToResultEx().ToResult() == r
    ensures r.ToResultGeneric().ToResult(s => s) == r
    ensures r.ToResultEx().IsError() == r.IsError() == r.ToResultGeneric().IsError()
    ensures r.IsError() ==> r.ToResultEx().error.kind == ResultError
  {
  }

  /** ResultEx conversions keep the success value and the exception (as object or as Message). */
  lemma ResultExConversions<T>(r: ResultEx<T>)
    ensures r.ToResultGeneric().ToResult((e: Exception) => e.message) == r.ToResult()
    ensures r.ToResult().IsError() == r.IsError()
    ensures !r.IsError() ==> r.ToResult() == Result.FromValue(r.value) && r.ToResultGeneric() == ResultGeneric.FromValue(r.value)
    ensures r.IsError() ==> r.ToResultGeneric() == ResultGeneric.FromError(r.error)
  {
  }

  /** ResultGeneric.ToResultEx followed by ToResult renders the error the way ResultErrorException.FromError does. */
  lemma ResultGenericConversions<T, E>(r: ResultGeneric<T, E>, show: E -> string, conv: E -> string)
    ensures r.ToResultEx(show).ToResult() == r.ToResult(e => "Result has error value '" + show(e) + "'")
    ensures r.IsError() ==> r.ToResult(conv) == Result.FromError(conv(r.error))
    ensures !r.IsError() ==> r.ToResult(conv) == Result.FromValue(r.value)
  {
  }

  // ----- equality -----

  /** As written, a success holding `default` equals every error, while no error equals a success. */
  lemma ResultEqualsAsymmetric()
    ensures ResultEquals(Result.FromValue(0), Result.FromError("failed"), 0)
    ensures !ResultEquals(Result.FromError("failed"), Result.FromValue(0), 0)
    ensures ResultOpEquality(Result.FromValue(0), Result.FromError("failed"), 0)
  {
  }

  lemma ResultExEqualsAsymmetric()
    ensures ResultExEquals(ResultEx.FromValue(0), ResultEx.FromError(Exception(Unspecified, "failed")), 0)
    ensures !ResultExEquals(ResultEx.FromError(Exception(Unspecified, "failed")), ResultEx.FromValue(0), 0)
  {
  }

  lemma ResultGenericEqualsAsymmetric()
    ensures ResultGenericEquals(ResultGeneric<int, int>.FromValue(0), ResultGeneric.FromError(7), 0)
    ensures !ResultGenericEquals(ResultGeneric<int, int>.FromError(7), ResultGeneric.FromValue(0), 0)
  {
  }

  /**
   * Outside the success-versus-error case the source's Equals agrees with the intended one; in that
   * case it answers whether the success holds `default`. `!=` is always the negation of `==`.
   */
  lemma ResultEqualsVersusIntended<T>(a: Result<T>, b: Result<T>, zero: T)
    ensures !(!a.IsError() && b.IsError()) ==> ResultEquals(a, b, zero) == ResultEqualsIntended(a, b)
    ensures !a.IsError() && b.IsError() ==> (ResultEquals(a, b, zero) <==> a.value == zero)
    ensures ResultOpInequality(a, b, zero) == !ResultEquals(a, b, zero)
  {
  }

  lemma ResultExEqualsVersusIntended<T>(a: ResultEx<T>, b: ResultEx<T>, zero: T)
    ensures !(!a.IsError() && b.IsError()) ==> ResultExEquals(a, b, zero) == ResultExEqualsIntended(a, b)
    ensures !a.IsError() && b.IsError() ==> (ResultExEquals(a, b, zero) <==> a.value == zero)
  {
  }

  lemma ResultGenericEqualsVersusIntended<T, E>(a: ResultGeneric<T, E>, b: ResultGeneric<T, E>, zero: T)
    ensures !(!a.IsError() && b.IsError()) ==> ResultGenericEquals(a, b, zero) == ResultGenericEqualsIntended(a, b)
    ensures !a.IsError() && b.IsError() ==> (ResultGenericEquals(a, b, zero) <==> a.value == zero)
  {
  }

  /** The intended equality is value equality: reflexive, symmetric, and a success never equals an error. */
  lemma ResultEqualsIntendedIsEquality<T>(a: Result<T>, b: Result<T>)
    ensures ResultEqualsIntended(a, b) <==> a == b
    ensures ResultEqualsIntended(a, b) == ResultEqualsIntended(b, a)
  {
  }

  lemma ResultExEqualsIntendedIsEquality<T>(a: ResultEx<T>, b: ResultEx<T>)
    ensures ResultExEqualsIntended(a, b) <==> a == b
    ensures ResultExEqualsIntended(a, b) == ResultExEqualsIntended(b, a)
  {
  }

  lemma ResultGenericEqualsIntendedIsEquality<T, E>(a: ResultGeneric<T, E>, b: ResultGeneric<T, E>)
    ensures ResultGenericEqualsIntended(a, b) <==> a == b
    ensures ResultGenericEqualsIntended(a, b) == ResultGenericEqualsIntended(b, a)
  {
  }
}
