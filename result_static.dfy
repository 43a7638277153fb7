/**
 * The static entry points `Result`, `ResultEx` and `ResultGeneric`
 * (ResultStatic.cs) and the error marker structs they return (Errors.cs),
 * which carry an error until the target result type is known.
 */
module ResultStatic {
  import opened Algebraics
  import opened Results

  datatype Error = Error(errorValue: string)
  datatype ErrorEx = ErrorEx(errorValue: Exception)
  datatype ErrorGeneric<E> = ErrorGeneric(errorValue: E)

  /** `Result.FromValue(value)`: a success holding `value`. */
  function ResultFromValue<T>(value: T): (r: Result<T>)
    ensures !r.IsError() && r.Value() == Returned(value)
  {
    Result<T>.FromValue(value)
  }

  /** `Result.FromError(error)`: the marker, which keeps the text unchanged. */
  function ResultFromError(error: string): (m: Error)
    ensures m.errorValue == error
  {
    Error(error)
  }

  function ResultExFromValue<T>(value: T): (r: ResultEx<T>)
    ensures !r.IsError() && r.Value() == Returned(value)
  {
    ResultEx<T>.FromValue(value)
  }

  function ResultExFromError(error: Exception): (m: ErrorEx)
    ensures m.errorValue == error
  {
    ErrorEx(error)
  }

  function ResultGenericFromError<E>(error: E): (m: ErrorGeneric<E>)
    ensures m.errorValue == error
  {
    ErrorGeneric(error)
  }

  /**
   * `ResultEx.Try(func)`: runs `func`; the value it returns becomes a success,
   * the exception it throws becomes the error.
   */
  function Try<U>(func: () -> Outcome<U>): (r: ResultEx<U>)
    ensures r.IsError() <==> func().Threw?
    ensures func().Returned? ==> r.value == func().value
    ensures func().Threw? ==> r.error == func().exception
  {
    match func()
    case Returned(u) => ResultEx<U>.FromValue(u)
    case Threw(e) => ResultEx<U>.FromError(e)
  }

  function TryWithArg<U, A>(func: A -> Outcome<U>, arg: A): (r: ResultEx<U>)
    ensures r.IsError() <==> func(arg).Threw?
    ensures func(arg).Returned? ==> r.value == func(arg).value
    ensures func(arg).Threw? ==> r.error == func(arg).exception
  {
    match func(arg)
    case Returned(u) => ResultEx<U>.FromValue(u)
    case Threw(e) => ResultEx<U>.FromError(e)
  }

  /** A success's ThenTry is `Try` of the function applied to the value; the argument overload is Try with the argument. */
  lemma TryAgreesWithThenTry<T, U, A>(v: T, f: T -> Outcome<U>, g: A -> Outcome<U>, arg: A)
    ensures ResultEx<T>.FromValue(v).ThenTry(f) == Try(() => f(v))
    ensures Result<T>.FromValue(v).ThenTry(f) == Try(() => f(v))
    ensures TryWithArg(g, arg) == Try(() => g(arg))
  {
  }
}
