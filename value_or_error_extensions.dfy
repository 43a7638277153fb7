/**
 * ValueOrErrorExtensions (synchronous members): fall-backs (Or, ValueOr),
 * conversions from and to Option, error callbacks (IfError), chaining with
 * a prefixed error text (ContinueWith), filtering (Where), actions on a
 * success (ForEach) and combining several values (All).
 */
module ValueOrErrorExtensions {
  import opened Algebraics
  import opened ValueOrErrors

  const ValueNullMessage: string := "Value was null"
  const ValueMissingMessage: string := "Value was missing"
  const GenericErrorMessage: string := "Generic error"
  const ConditionPrefix: string := "Value didn't satisfy condition: "

  // ----- fall-backs -----

  /** `voe1.Or(voe2)`: the first success, asking `voe2` only when `voe1` is an error. */
  function Or<T>(voe1: ValueOrError<T>, voe2: () -> ValueOrError<T>): (r: ValueOrError<T>)
    ensures !voe1.IsError() ==> r == voe1
    ensures voe1.IsError() ==> r == voe2()
  {
    if voe1.IsError() then voe2() else voe1
  }

  function ValueOr<T>(voe: ValueOrError<T>, elseValue: T): (r: T)
    ensures !voe.IsError() ==> r == voe.value
    ensures voe.IsError() ==> r == elseValue
  {
    if voe.IsError() then elseValue else voe.value
  }

  function ValueOrFunc<T>(voe: ValueOrError<T>, elseValue: () -> T): (r: T)
    ensures !voe.IsError() ==> r == voe.value
    ensures voe.IsError() ==> r == elseValue()
  {
    if voe.IsError() then elseValue() else voe.value
  }

  function ValueOrFuncParam<T, P>(voe: ValueOrError<T>, elseValue: P -> T, param: P): (r: T)
    ensures !voe.IsError() ==> r == voe.value
    ensures voe.IsError() ==> r == elseValue(param)
  {
    if voe.IsError() then elseValue(param) else voe.value
  }

  /** Or is associative and has the error-ignoring identity; ValueOr is the option's ValueOr. */
  lemma OrLaws<T>(a: ValueOrError<T>, f: () -> ValueOrError<T>, g: () -> ValueOrError<T>, x: T, p: () -> T)
    ensures Or(Or(a, f), g) == Or(a, () => Or(f(), g))
    ensures Or(a, () => a) == a
    ensures ValueOr(a, x) == ToOption(a).ValueOr(x)
    ensures ValueOrFunc(a, p) == ValueOrFuncParam(a, (_: ()) => p(), ())
  {
  }

  // ----- conversions -----

  function ToOption<T>(voe: ValueOrError<T>): (o: Option<T>)
    ensures o.Some? <==> !voe.IsError()
    ensures o.Some? ==> o.value == voe.value
  {
    if !voe.IsError() then Some(voe.value) else None
  }

  /** `o.ToValueOrError()` on a possibly null reference. */
  function ToValueOrErrorNullable<T>(o: Nullable<T>): (r: ValueOrError<T>)
    ensures r.IsError() <==> o.Null?
    ensures o.NonNull? ==> r.value == o.value
    ensures o.Null? ==> r.error == ValueNullMessage
  {
    if o.NonNull? then FromValue(o.value) else FromError(ValueNullMessage)
  }

  function ToValueOrError<T>(o: Option<T>): (r: ValueOrError<T>)
    ensures r.IsError() <==> o.None?
    ensures o.Some? ==> r.value == o.value
    ensures o.None? ==> r.error == ValueMissingMessage
  {
    if o.IsSome() then FromValue(o.value) else FromError(ValueMissingMessage)
  }

  function ToValueOrErrorWithMessage<T>(o: Option<T>, errorMessage: string): (r: ValueOrError<T>)
    ensures r.IsError() <==> o.None?
    ensures o.Some? ==> r.value == o.value
    ensures o.None? ==> r.error == errorMessage
  {
    if o.IsSome() then FromValue(o.value) else FromError(errorMessage)
  }

  function ToValueOrErrorWithFunc<T>(o: Option<T>, errorFunc: () -> string): (r: ValueOrError<T>)
    ensures r.IsError() <==> o.None?
    ensures o.Some? ==> r.value == o.value
    ensures o.None? ==> r.error == errorFunc()
  {
    match o
    case Some(v) => FromValue(v)
    case None => FromError(errorFunc())
  }

  function ToValueOrErrorWithFuncParam<T, P>(o: Option<T>, errorFunc: P -> string, errorParam: P): (r: ValueOrError<T>)
    ensures r.IsError() <==> o.None?
    ensures o.Some? ==> r.value == o.value
    ensures o.None? ==> r.error == errorFunc(errorParam)
  {
    match o
    case Some(v) => FromValue(v)
    case None => FromError(errorFunc(errorParam))
  }

  /** Option -> ValueOrError -> Option is the identity; the other way round only the error text is lost. */
  lemma OptionRoundTrip<T>(o: Option<T>, voe: ValueOrError<T>, msg: string)
    ensures ToOption(ToValueOrError(o)) == o
    ensures ToOption(ToValueOrErrorWithMessage(o, msg)) == o
    ensures !voe.IsError() ==> ToValueOrError(ToOption(voe)) == voe
    ensures voe.IsError() ==> ToValueOrErrorWithMessage(ToOption(voe), voe.error) == voe
    ensures ToValueOrErrorWithMessage(o, msg) == ToValueOrErrorWithFunc(o, () => msg)
      == ToValueOrErrorWithFuncParam(o, (m: string) => m, msg)
  {
  }

  function ToValue<T>(v: T): (r: ValueOrError<T>)
    ensures !r.IsError() && r.value == v
  {
    FromValue(v)
  }

  /** `_.ToError(error)`: a null or empty text becomes "Generic error", so the error is never empty. */
  function ToError<T>(ignored: T, error: Nullable<string>): (r: ValueOrError<T>)
    ensures r.IsError() && r.error != ""
    ensures error.NonNull? && error.value != "" ==> r.error == error.value
    ensures error.Null? || error.value == "" ==> r.error == GenericErrorMessage
  {
    if error.Null? || error.value == "" then FromError(GenericErrorMessage) else FromError(error.value)
  }

  // ----- IfError -----

  /**
   * `voe.IfError(func)`: the result, and the arguments `func` was invoked with. On an error
   * `func` is called once with the error text; if it throws, the result is an error carrying
   * the exception's Message. A success is returned untouched and `func` is not called.
   */
  function IfError<T>(voe: ValueOrError<T>, func: string -> Outcome<()>): (out: (ValueOrError<T>, seq<string>))
    ensures !voe.IsError() ==> out == (voe, [])
    ensures voe.IsError() ==> out.1 == [voe.error]
    ensures voe.IsError() && func(voe.error).Returned? ==> out.0 == voe
    ensures voe.IsError() && func(voe.error).Threw? ==> out.0 == FromError(func(voe.error).exception.message)
    ensures out.0.IsError() == voe.IsError()
  {
    if !voe.IsError() then (voe, [])
    else match func(voe.error)
      case Threw(e) => (FromError(e.message), [voe.error])
      case Returned(_) => (voe, [voe.error])
  }

  function IfErrorWithParam<T, P>(voe: ValueOrError<T>, func: (string, P) -> Outcome<()>, param: P): (out: (ValueOrError<T>, seq<(string, P)>))
    ensures !voe.IsError() ==> out == (voe, [])
    ensures voe.IsError() ==> out.1 == [(voe.error, param)]
    ensures voe.IsError() && func(voe.error, param).Returned? ==> out.0 == voe
    ensures voe.IsError() && func(voe.error, param).Threw? ==> out.0 == FromError(func(voe.error, param).exception.message)
    ensures out.0.IsError() == voe.IsError()
  {
    if !voe.IsError() then (voe, [])
    else match func(voe.error, param)
      case Threw(e) => (FromError(e.message), [(voe.error, param)])
      case Returned(_) => (voe, [(voe.error, param)])
  }

  // ----- ContinueWith -----

  /** The `"{errorMessage}: "` prefix, empty when no message is given. */
  function MessagePrefix(errorMessage: Nullable<string>): string
  {
    if errorMessage.Null? then "" else errorMessage.value + ": "
  }

  /** Text of an error for an exception thrown inside ContinueWith; `stackTrace` is the exception's StackTrace. */
  function ExceptionText(errorMessage: Nullable<string>, e: Exception, stackTrace: string): string
  {
    MessagePrefix(errorMessage) + "Exception: " + e.message + "; StackTrace:\n" + stackTrace + "\n"
  }

  /**
   * `ContinueWith(func, arg, errorMessage)` where `func` returns a ValueOrError: an input error is
   * kept, prefixed by the message if given; on a success, `func`'s result, or its exception as text.
   */
  function ContinueWith<T, P, U>(voe: ValueOrError<T>, func: (T, P) -> Outcome<ValueOrError<U>>, arg: P,
                                 errorMessage: Nullable<string>, stackTrace: Exception -> string): (r: ValueOrError<U>)
    ensures voe.IsError() ==> r == FromError(MessagePrefix(errorMessage) + voe.error)
    ensures !voe.IsError() && func(voe.value, arg).Returned? ==> r == func(voe.value, arg).value
    ensures !voe.IsError() && func(voe.value, arg).Threw? ==>
              r == FromError(ExceptionText(errorMessage, func(voe.value, arg).exception, stackTrace(func(voe.value, arg).exception)))
  {
    if voe.IsError() then
      FromError(if errorMessage.Null? then voe.error else errorMessage.value + ": " + voe.error)
    else match func(voe.value, arg)
      case Returned(res) => res
      case Threw(e) =>
        var additionalMessage := if errorMessage.Null? then "" else errorMessage.value + ": ";
        FromError(additionalMessage + "Exception: " + e.message + "; StackTrace:\n" + stackTrace(e) + "\n")
  }

  /** `ContinueWith(func, arg, errorMessage)` where `func` returns a plain value, which becomes a success. */
  function ContinueWithValue<T, P, U>(voe: ValueOrError<T>, func: (T, P) -> Outcome<U>, arg: P,
                                      errorMessage: Nullable<string>, stackTrace: Exception -> string): (r: ValueOrError<U>)
    ensures voe.IsError() ==> r == FromError(MessagePrefix(errorMessage) + voe.error)
    ensures !voe.IsError() && func(voe.value, arg).Returned? ==> r == FromValue(func(voe.value, arg).value)
    ensures !voe.IsError() && func(voe.value, arg).Threw? ==>
              r == FromError(ExceptionText(errorMessage, func(voe.value, arg).exception, stackTrace(func(voe.value, arg).exception)))
  {
    if voe.IsError() then
      FromError(if errorMessage.Null? then voe.error else errorMessage.value + ": " + voe.error)
    else match func(voe.value, arg)
      case Returned(res) => FromValue(res)
      case Threw(e) =>
        var additionalMessage := if errorMessage.Null? then "" else errorMessage.value + ": ";
        FromError(additionalMessage + "Exception: " + e.message + "; StackTrace:\n" + stackTrace(e) + "\n")
  }

  /**
   * Every error produced by ContinueWith starts with the prefix; without a message an input error is
   * passed through unchanged; and the value overload is the other one with its result wrapped.
   */
  lemma ContinueWithLaws<T, P, U>(voe: ValueOrError<T>, func: (T, P) -> Outcome<U>, arg: P,
                                  errorMessage: Nullable<string>, stackTrace: Exception -> string)
    ensures var r := ContinueWithValue(voe, func, arg, errorMessage, stackTrace);
            r.IsError() ==> MessagePrefix(errorMessage) <= r.error
    ensures voe.IsError() ==> ContinueWithValue(voe, func, arg, Null, stackTrace) == FromError(voe.error)
    ensures ContinueWithValue(voe, func, arg, errorMessage, stackTrace)
         == ContinueWith(voe, (v: T, a: P) => match func(v, a) case Returned(u) => Returned(FromValue(u)) case Threw(e) => Threw(e),
                         arg, errorMessage, stackTrace)
  {
    var r := ContinueWithValue(voe, func, arg, errorMessage, stackTrace);
    if r.IsError() {
      var pre := MessagePrefix(errorMessage);
      if voe.IsError() {
        assert r.error == pre + voe.error;
      } else {
        var e := func(voe.value, arg).exception;
        assert r.error == pre + ("Exception: " + e.message + "; StackTrace:\n" + stackTrace(e) + "\n");
      }
    }
  }

  // ----- Where -----

  function Where<T>(voe: ValueOrError<T>, pred: T -> bool, errorMessage: string): (r: ValueOrError<T>)
    ensures !r.IsError() <==> !voe.IsError() && pred(voe.value)
    ensures voe.IsError() || pred(voe.value) ==> r == voe
    ensures !voe.IsError() && !pred(voe.value) ==> r.error == ConditionPrefix + errorMessage
  {
    if voe.IsError() then voe
    else if pred(voe.value) then FromValue(voe.value)
    else FromError(ConditionPrefix + errorMessage)
  }

  function WhereWithParam<T, P>(voe: ValueOrError<T>, pred: (T, P) -> bool, param: P, errorMessage: string): (r: ValueOrError<T>)
    ensures !r.IsError() <==> !voe.IsError() && pred(voe.value, param)
    ensures voe.IsError() || pred(voe.value, param) ==> r == voe
    ensures !voe.IsError() && !pred(voe.value, param) ==> r.error == ConditionPrefix + errorMessage
  {
    if voe.IsError() then FromError(voe.error)
    else if pred(voe.value, param) then FromValue(voe.value)
    else FromError(ConditionPrefix + errorMessage)
  }

  function WhereWithMessageFunc<T>(voe: ValueOrError<T>, pred: T -> bool, errorMessageFunc: T -> string): (r: ValueOrError<T>)
    ensures !r.IsError() <==> !voe.IsError() && pred(voe.value)
    ensures voe.IsError() || pred(voe.value) ==> r == voe
    ensures !voe.IsError() && !pred(voe.value) ==> r.error == errorMessageFunc(voe.value)
  {
    if voe.IsError() || pred(voe.value) then voe
    else FromError(errorMessageFunc(voe.value))
  }

  /** Where is idempotent and agrees with filtering the corresponding option. */
  lemma WhereLaws<T>(voe: ValueOrError<T>, pred: T -> bool, msg: string)
    ensures Where(Where(voe, pred, msg), pred, msg) == Where(voe, pred, msg)
    ensures ToOption(Where(voe, pred, msg)) == if ToOption(voe).Some? && pred(voe.value) then ToOption(voe) else None
    ensures WhereWithParam(voe, (x: T, _: ()) => pred(x), (), msg) == Where(voe, pred, msg)
  {
  }

  // ----- ForEach -----

  /** `ForEach(action)`: the arguments `action` is invoked with. */
  function ForEach<T>(voe: ValueOrError<T>): (calls: seq<T>)
    ensures calls == [] <==> voe.IsError()
    ensures !voe.IsError() ==> calls == [voe.value]
  {
    if !voe.IsError() then [voe.value] else []
  }

  function ForEachWithParam<T, P>(voe: ValueOrError<T>, param: P): (calls: seq<(T, P)>)
    ensures calls == [] <==> voe.IsError()
    ensures !voe.IsError() ==> calls == [(voe.value, param)]
  {
    if !voe.IsError() then [(voe.value, param)] else []
  }

  // ----- All -----

  /** Index of the first erroneous element (`First(v => v.IsError)`), or |vs| when there is none. */
  function FirstErrorIndex<T>(vs: seq<ValueOrError<T>>): (k: nat)
    ensures k <= |vs|
    ensures forall j :: 0 <= j < k ==> !vs[j].IsError()
    ensures k < |vs| ==> vs[k].IsError()
  {
    if |vs| == 0 then 0
    else if vs[0].IsError() then 0
    else 1 + FirstErrorIndex(vs[1..])
  }

  /** `vs.Select(v => v.Value)`, defined when no element is an error. */
  function Values<T>(vs: seq<ValueOrError<T>>): (r: seq<T>)
    requires forall j :: 0 <= j < |vs| ==> vs[j].FromValue?
    ensures |r| == |vs| && forall j :: 0 <= j < |vs| ==> r[j] == vs[j].value
  {
    seq(|vs|, j requires 0 <= j < |vs| => vs[j].value)
  }

  /**
   * `All(vs, func)`: the error of the first erroneous element, or `func` applied to all values
   * in order when there is none.
   */
  function All<T, U>(vs: seq<ValueOrError<T>>, func: seq<T> -> U): (r: ValueOrError<U>)
    ensures r.IsError() <==> exists j :: 0 <= j < |vs| && vs[j].IsError()
    ensures r.IsError() ==> exists k :: 0 <= k < |vs| && vs[k].IsError() && r.error == vs[k].error
                                      && forall j :: 0 <= j < k ==> !vs[j].IsError()
    ensures !r.IsError() ==> (forall j :: 0 <= j < |vs| ==> !vs[j].IsError()) && r.value == func(Values(vs))
  {
    var k := FirstErrorIndex(vs);
    if k < |vs| then FromError(vs[k].error)
    else
      var vals := Values(vs);
      FromValue(func(vals))
  }
}
