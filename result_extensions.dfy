/**
 * ResultExtensions: building a Result from an Option or a plain value,
 * filtering with Where, running an action on a success, and collecting a
 * sequence of results with All.
 */
module ResultExtensions {
  import opened Algebraics
  import opened Results

  const ValueMissingMessage: string := "Value was missing"
  const GenericErrorMessage: string := "Generic error"
  const ConditionPrefix: string := "Value didn't satisfy condition: "
  const AllErrorMessage: string := "One of items has an error"

  /** `o.ToResult()`: a present value becomes a success, a missing one the error "Value was missing". */
  function ToResult<T>(o: Option<T>): (r: Result<T>)
    ensures r.IsError() <==> o.None?
    ensures o.Some? ==> r.value == o.value
    ensures o.None? ==> r.error == ValueMissingMessage
  {
    if o.IsSome() then Result.FromValue(o.value) else Result.FromError(ValueMissingMessage)
  }

  function ToResultWithMessage<T>(o: Option<T>, errorMessage: string): (r: Result<T>)
    ensures r.IsError() <==> o.None?
    ensures o.Some? ==> r.value == o.value
    ensures o.None? ==> r.error == errorMessage
  {
    if o.IsSome() then Result.FromValue(o.value) else Result.FromError(errorMessage)
  }

  /** `o.ToResult(errorFunc)`: the error text is produced only for a missing value. */
  function ToResultWithFunc<T>(o: Option<T>, errorFunc: () -> string): (r: Result<T>)
    ensures r.IsError() <==> o.None?
    ensures o.Some? ==> r.value == o.value
    ensures o.None? ==> r.error == errorFunc()
  {
    match o
    case Some(v) => Result.FromValue(v)
    case None => Result.FromError(errorFunc())
  }

  function ToResultWithFuncParam<T, P>(o: Option<T>, errorFunc: P -> string, errorParam: P): (r: Result<T>)
    ensures r.IsError() <==> o.None?
    ensures o.Some? ==> r.value == o.value
    ensures o.None? ==> r.error == errorFunc(errorParam)
  {
    match o
    case Some(v) => Result.FromValue(v)
    case None => Result.FromError(errorFunc(errorParam))
  }

  /** The four Option conversions agree once they are given the same error text. */
  lemma ToResultOverloadsAgree<T>(o: Option<T>, msg: string)
    ensures ToResult(o) == ToResultWithMessage(o, ValueMissingMessage)
    ensures ToResultWithMessage(o, msg) == ToResultWithFunc(o, () => msg)
    ensures ToResultWithMessage(o, msg) == ToResultWithFuncParam(o, (p: string) => p, msg)
  {
  }

  /** `v.ToValue()`. */
  function ToValue<T>(v: T): (r: Result<T>)
    ensures !r.IsError() && r.value == v
  {
    Result.FromValue(v)
  }

  /** `_.ToError(error)`: a null or empty text is replaced by "Generic error", so the error is never empty. */
  function ToError<T>(ignored: T, error: Nullable<string>): (r: Result<T>)
    ensures r.IsError() && r.error != ""
    ensures error.NonNull? && error.value != "" ==> r.error == error.value
    ensures error.Null? || error.value == "" ==> r.error == GenericErrorMessage
  {
    if error.Null? || error.value == "" then Result.FromError(GenericErrorMessage) else Result.FromError(error.value)
  }

  /** `Where(predicate, errorMessage)`: a success is kept exactly when it satisfies the predicate. */
  function Where<T>(result: Result<T>, pred: T -> bool, errorMessage: string): (r: Result<T>)
    ensures !r.IsError() <==> !result.IsError() && pred(result.value)
    ensures result.IsError() || pred(result.value) ==> r == result
    ensures !result.IsError() && !pred(result.value) ==> r.error == ConditionPrefix + errorMessage
  {
    if result.IsError() then result
    else if pred(result.value) then Result.FromValue(result.value)
    else Result.FromError(ConditionPrefix + errorMessage)
  }

  function WhereWithParam<T, P>(result: Result<T>, pred: (T, P) -> bool, param: P, errorMessage: string): (r: Result<T>)
    ensures !r.IsError() <==> !result.IsError() && pred(result.value, param)
    ensures result.IsError() || pred(result.value, param) ==> r == result
    ensures !result.IsError() && !pred(result.value, param) ==> r.error == ConditionPrefix + errorMessage
  {
    if result.IsError() then Result.FromError(result.error)
    else if pred(result.value, param) then Result.FromValue(result.value)
    else Result.FromError(ConditionPrefix + errorMessage)
  }

  /** `Where(predicate, errorMessageFunc)`: the rejected value's error text comes from the function, without a prefix. */
  function WhereWithMessageFunc<T>(result: Result<T>, pred: T -> bool, errorMessageFunc: T -> string): (r: Result<T>)
    ensures !r.IsError() <==> !result.IsError() && pred(result.value)
    ensures result.IsError() || pred(result.value) ==> r == result
    ensures !result.IsError() && !pred(result.value) ==> r.error == errorMessageFunc(result.value)
  {
    if result.IsError() || pred(result.value) then result
    else Result.FromError(errorMessageFunc(result.value))
  }

  /** Where is idempotent, and the overloads coincide when given the same predicate and message. */
  lemma WhereLaws<T>(result: Result<T>, pred: T -> bool, msg: string)
    ensures Where(Where(result, pred, msg), pred, msg) == Where(result, pred, msg)
    ensures WhereWithParam(result, (x: T, _: ()) => pred(x), (), msg) == Where(result, pred, msg)
    ensures WhereWithMessageFunc(result, pred, _ => ConditionPrefix + msg) == Where(result, pred, msg)
  {
  }

  /** `ForEach(action)`: the arguments `action` is invoked with: the value once on a success, nothing on an error. */
  function ForEach<T>(result: Result<T>): (calls: seq<T>)
    ensures |calls| <= 1
    ensures calls == [] <==> result.IsError()
    ensures !result.IsError() ==> calls == [result.value]
  {
    if !result.IsError() then [result.value] else []
  }

  function ForEachWithParam<T, P>(result: Result<T>, param: P): (calls: seq<(T, P)>)
    ensures calls == [] <==> result.IsError()
    ensures !result.IsError() ==> calls == [(result.value, param)]
  {
    if !result.IsError() then [(result.value, param)] else []
  }

  /** `SpecifyError(error)`: replaces the text of an error and leaves a success untouched. */
  function SpecifyError<T>(result: Result<T>, error: string): (r: Result<T>)
    ensures r.IsError() == result.IsError()
    ensures !result.IsError() ==> r == result
    ensures result.IsError() ==> r.error == error
  {
    if result.IsError() then Result.FromError(error) else result
  }

  /**
   * `All(results)`: AggregateWhile over the results, starting from an empty list.
   * While the accumulator is a success, each item is passed through Then, which
   * appends its value to the (shared) list; the first erroneous item turns the
   * accumulator into the error "One of items has an error", and the next step
   * stops the aggregation.
   */
  method All<T>(results: seq<Result<T>>) returns (r: Result<seq<T>>)
    ensures !r.IsError() <==> forall i :: 0 <= i < |results| ==> !results[i].IsError()
    ensures !r.IsError() ==> |r.value| == |results| && forall i :: 0 <= i < |results| ==> r.value[i] == results[i].value
    ensures r.IsError() ==> r.error == AllErrorMessage
  {
    var acc: Result<seq<T>> := Result.FromValue([]);
    var i := 0;
    while i < |results|
      invariant 0 <= i <= |results|
      invariant !acc.IsError() <==> forall j :: 0 <= j < i ==> !results[j].IsError()
      invariant !acc.IsError() ==> |acc.value| == i && forall j :: 0 <= j < i ==> acc.value[j] == results[j].value
      invariant acc.IsError() ==> acc.error == AllErrorMessage
    {
      // The selector of AggregateWhile; None ends the aggregation.
      var next: Option<Result<seq<T>>> :=
        if !acc.IsError()
        then Some(SpecifyError(results[i].ThenValueArg((v: T, l: Result<seq<T>>) => Result.FromValue(l.StoredValue([]) + [v]), acc),
                               AllErrorMessage))
        else None;
      if next.None? {
        break;
      }
      acc := next.value;
      i := i + 1;
    }
    r := acc;
  }
}
