/**
 * OptionExtensions (without the number parsers): turning an option into a
 * deferred action, a nullable struct into an option, and swapping an
 * optional result into a result of an option.
 */
module OptionExtensions {
  import opened Algebraics
  import opened Results

  /**
   * `option.SelectDelegate(action)`: None for a missing value, otherwise a delegate that,
   * when invoked, runs `action` on the value. Building the delegate runs nothing; the
   * action's effect is the value of type E it produces.
   */
  function SelectDelegate<T, E>(option: Option<T>, action: T -> E): (r: Option<() -> E>)
    ensures r.Some? <==> option.Some?
    ensures r.Some? ==> r.value() == action(option.value)
  {
    if option.None? then None
    else
      var v := option.value;
      Some(() => action(v))
  }

  /** `value.ToOption()` for a nullable struct: null becomes None. */
  function ToOption<T>(value: Nullable<T>): (o: Option<T>)
    ensures o.Some? <==> value.NonNull?
    ensures o.Some? ==> o.value == value.value
  {
    match value
    case NonNull(v) => Some(v)
    case Null => None
  }

  /**
   * `option.SwapWithResult()`: a missing result is the success None; a present one keeps its error
   * or has its value wrapped in Some.
   */
  function SwapWithResult<T>(option: Option<Result<T>>): (r: Result<Option<T>>)
    ensures option.None? ==> r == Result.FromValue(None)
    ensures option.Some? && option.value.IsError() ==> r == Result.FromError(option.value.error)
    ensures option.Some? && !option.value.IsError() ==> r == Result.FromValue(Some(option.value.value))
  {
    if option.None? then Result.FromValue(None)
    else option.value.Then((o: T) => Result.FromValue(Some(o)))
  }

  /** The swap loses nothing: it can be undone, so distinct inputs give distinct results. */
  function SwapBack<T>(r: Result<Option<T>>): Option<Result<T>>
  {
    if r.IsError() then Some(Result.FromError(r.error))
    else match r.value
      case None => None
      case Some(v) => Some(Result.FromValue(v))
  }

  lemma SwapWithResultRoundTrip<T>(option: Option<Result<T>>, r: Result<Option<T>>)
    ensures SwapBack(SwapWithResult(option)) == option
    ensures SwapWithResult(SwapBack(r)) == r
  {
  }
}
