/**
 * The three result structs of Smooth.Algebraics.Results:
 *   Result<TValue>                 success value or string error,
 *   ResultEx<TValue>               success value or exception,
 *   ResultGeneric<TValue, TError>  success value or error of any type,
 * with their throwing accessors (ResultHelpers), the Then / ThenTry
 * combinators, the conversions between the three kinds and equality.
 *
 * A C# struct keeps both slots and an IsError flag; the inactive slot holds
 * `default`. The datatypes below keep only the active slot; where the source
 * reads the inactive slot (Equals on a success), the datatype's `StoredValue`
 * supplies the `default` that the caller passes as `zero`.
 */
module Results {
  import opened Algebraics

  /** Message of ResultHasNoValueException for a result whose runtime type name is `typeName`. */
  function NoValueMessage(typeName: string): string
  {
    "Can't get value for result of type '" + typeName + "', it has no value."
  }

  /** Message of ResultHasNoErrorException for a result whose runtime type name is `typeName`. */
  function NoErrorMessage(typeName: string): string
  {
    "Can't get error for result of type '" + typeName + "', it has no error."
  }

  /** `typeof(Result<TValue>).Name`, which both Result and ResultEx report in their messages. */
  const ResultTypeName: string := "Result`1"
  /** `typeof(ResultGeneric<TValue, TError>).Name`. */
  const ResultGenericTypeName: string := "ResultGeneric`2"

  /** `new ResultErrorException(message)`. */
  function ResultErrorException(message: string): (e: Exception)
    ensures e.kind == ResultError && e.message == message
  {
    Exception(ResultError, message)
  }

  /** `ResultErrorException.FromError(error)`: the error is rendered through its `ToString`, here `show`. */
  function ResultErrorExceptionFromError<E>(error: E, show: E -> string): (e: Exception)
    ensures e.kind == ResultError
    ensures e.message == "Result has error value '" + show(error) + "'"
  {
    Exception(ResultError, "Result has error value '" + show(error) + "'")
  }

  // ---------------------------------------------------------------------
  // Result<TValue>
  // ---------------------------------------------------------------------

  datatype Result<T> = FromValue(value: T) | FromError(error: string)
  {
    predicate IsError() { FromError? }

    /** The value slot as the struct stores it: `default` (`zero`) on an error. */
    function StoredValue(zero: T): T
    {
      if FromValue? then value else zero
    }

    /** ResultHelpers.ThrowIfError. */
    function ThrowIfError(): (r: Outcome<()>)
      ensures r.Returned? <==> !IsError()
      ensures r.Threw? ==> r.exception == Exception(ResultHasNoValue, NoValueMessage(ResultTypeName))
    {
      if IsError() then Threw(Exception(ResultHasNoValue, NoValueMessage(ResultTypeName))) else Returned(())
    }

    /** ResultHelpers.ThrowIfNotError. */
    function ThrowIfNotError(): (r: Outcome<()>)
      ensures r.Returned? <==> IsError()
      ensures r.Threw? ==> r.exception == Exception(ResultHasNoError, NoErrorMessage(ResultTypeName))
    {
      if !IsError() then Threw(Exception(ResultHasNoError, NoErrorMessage(ResultTypeName))) else Returned(())
    }

    /** The `Value` getter: the guard, then the stored value. */
    function Value(): (r: Outcome<T>)
      ensures r.Returned? <==> !IsError()
      ensures r.Returned? ==> r.value == this.value
      ensures r.Threw? ==> r.exception == ThrowIfError().exception
    {
      match ThrowIfError()
      case Threw(e) => Threw(e)
      case Returned(_) => Returned(this.value)
    }

    /** The `Error` getter: the guard, then the stored error. */
    function Error(): (r: Outcome<string>)
      ensures r.Returned? <==> IsError()
      ensures r.Returned? ==> r.value == this.error
      ensures r.Threw? ==> r.exception == ThrowIfNotError().exception
    {
      match ThrowIfNotError()
      case Threw(e) => Threw(e)
      case Returned(_) => Returned(this.error)
    }

    function ThenNoArg<U>(func: () -> Result<U>): (r: Result<U>)
      ensures r == Then((x: T) => func())
    {
      if IsError() then Result<U>.FromError(error) else func()
    }

    function ThenArg<U, A>(func: A -> Result<U>, arg: A): (r: Result<U>)
      ensures r == Then((x: T) => func(arg))
    {
      if IsError() then Result<U>.FromError(error) else func(arg)
    }

    function ThenSelf<U>(func: Result<T> -> Result<U>): (r: Result<U>)
      ensures r == Then((x: T) => func(this))
    {
      if IsError() then Result<U>.FromError(error) else func(this)
    }

    function ThenSelfArg<U, A>(func: (Result<T>, A) -> Result<U>, arg: A): (r: Result<U>)
      ensures r == Then((x: T) => func(this, arg))
    {
      if IsError() then Result<U>.FromError(error) else func(this, arg)
    }

    function Then<U>(func: T -> Result<U>): (r: Result<U>)
      ensures IsError() ==> r.IsError() && r.error == error
      ensures !IsError() ==> r == func(value)
    {
      if IsError() then Result<U>.FromError(error) else func(value)
    }

    function ThenValueArg<U, A>(func: (T, A) -> Result<U>, arg: A): (r: Result<U>)
      ensures r == Then((x: T) => func(x, arg))
    {
      if IsError() then Result<U>.FromError(error) else func(value, arg)
    }

    /** `ThenTry(func)`: an error becomes a ResultErrorException carrying the error text. */
    function ThenTry<U>(func: T -> Outcome<U>): (r: ResultEx<U>)
      ensures IsError() ==> r == ResultEx<U>.FromError(ResultErrorException(error))
      ensures !IsError() ==> (r.IsError() <==> func(value).Threw?)
      ensures !IsError() && func(value).Threw? ==> r.error == func(value).exception
      ensures !IsError() && func(value).Returned? ==> r.value == func(value).value
      ensures r == ToResultEx().ThenTry(func)
    {
      if IsError() then ResultEx<U>.FromError(ResultErrorException(error))
      else match func(value)
        case Returned(u) => ResultEx<U>.FromValue(u)
        case Threw(e) => ResultEx<U>.FromError(e)
    }

    function ThenTryArg<U, A>(func: (T, A) -> Outcome<U>, arg: A): (r: ResultEx<U>)
      ensures r == ThenTry((x: T) => func(x, arg))
    {
      if IsError() then ResultEx<U>.FromError(ResultErrorException(error))
      else match func(value, arg)
        case Returned(u) => ResultEx<U>.FromValue(u)
        case Threw(e) => ResultEx<U>.FromError(e)
    }

    /** `ThenTry(func, catchFunc)`: an exception thrown by `func` is turned into an error string. */
    function ThenTryCatch<U>(func: T -> Outcome<U>, catchFunc: Exception -> string): (r: Result<U>)
      ensures IsError() ==> r.IsError() && r.error == error
      ensures !IsError() ==> (r.IsError() <==> func(value).Threw?)
      ensures !IsError() && func(value).Threw? ==> r.error == catchFunc(func(value).exception)
      ensures !IsError() && func(value).Returned? ==> r.value == func(value).value
    {
      if IsError() then Result<U>.FromError(error)
      else match func(value)
        case Returned(u) => Result<U>.FromValue(u)
        case Threw(e) => Result<U>.FromError(catchFunc(e))
    }

    function ThenTryCatchArg<U, A>(func: (T, A) -> Outcome<U>, arg: A, catchFunc: (Exception, A) -> string): (r: Result<U>)
      ensures r == ThenTryCatch((x: T) => func(x, arg), (e: Exception) => catchFunc(e, arg))
    {
      if IsError() then Result<U>.FromError(error)
      else match func(value, arg)
        case Returned(u) => Result<U>.FromValue(u)
        case Threw(e) => Result<U>.FromError(catchFunc(e, arg))
    }

    function ToResultEx(): (r: ResultEx<T>)
      ensures r.IsError() == IsError()
      ensures IsError() ==> r.error == ResultErrorException(error)
      ensures !IsError() ==> r.value == value
      ensures r.ToResult() == this
    {
      if IsError() then ResultEx<T>.FromError(ResultErrorException(error)) else ResultEx<T>.FromValue(value)
    }

    function ToResultGeneric(): (r: ResultGeneric<T, string>)
      ensures r.IsError() == IsError()
      ensures IsError() ==> r.error == error
      ensures !IsError() ==> r.value == value
      ensures r.ToResult((s: string) => s) == this
    {
      if IsError() then ResultGeneric<T, string>.FromError(error) else ResultGeneric<T, string>.FromValue(value)
    }
  }

  // ---------------------------------------------------------------------
  // ResultEx<TValue>
  // ---------------------------------------------------------------------

  datatype ResultEx<T> = FromValue(value: T) | FromError(error: Exception)
  {
    predicate IsError() { FromError? }

    function StoredValue(zero: T): T
    {
      if FromValue? then value else zero
    }

    /** The exception slot as the struct stores it: `null` on a success. */
    function StoredError(): (r: Nullable<Exception>)
      ensures r.Null? <==> !IsError()
      ensures r.NonNull? ==> r.value == error
    {
      if FromError? then NonNull(error) else Null
    }

    /** ResultHelpers.ThrowIfError; the message names `Result`1`, as the source's factory does. */
    function ThrowIfError(): (r: Outcome<()>)
      ensures r.Returned? <==> !IsError()
      ensures r.Threw? ==> r.exception == Exception(ResultHasNoValue, NoValueMessage(ResultTypeName))
    {
      if IsError() then Threw(Exception(ResultHasNoValue, NoValueMessage(ResultTypeName))) else Returned(())
    }

    function ThrowIfNotError(): (r: Outcome<()>)
      ensures r.Returned? <==> IsError()
      ensures r.Threw? ==> r.exception == Exception(ResultHasNoError, NoErrorMessage(ResultTypeName))
    {
      if !IsError() then Threw(Exception(ResultHasNoError, NoErrorMessage(ResultTypeName))) else Returned(())
    }

    function Value(): (r: Outcome<T>)
      ensures r.Returned? <==> !IsError()
      ensures r.Returned? ==> r.value == this.value
      ensures r.Threw? ==> r.exception == ThrowIfError().exception
    {
      match ThrowIfError()
      case Threw(e) => Threw(e)
      case Returned(_) => Returned(this.value)
    }

    function Error(): (r: Outcome<Exception>)
      ensures r.Returned? <==> IsError()
      ensures r.Returned? ==> r.value == this.error
      ensures r.Threw? ==> r.exception == ThrowIfNotError().exception
    {
      match ThrowIfNotError()
      case Threw(e) => Threw(e)
      case Returned(_) => Returned(this.error)
    }

    function ThenNoArg<U>(func: () -> ResultEx<U>): (r: ResultEx<U>)
      ensures r == Then((x: T) => func())
    {
      if IsError() then ResultEx<U>.FromError(error) else func()
    }

    function ThenArg<U, A>(func: A -> ResultEx<U>, arg: A): (r: ResultEx<U>)
      ensures r == Then((x: T) => func(arg))
    {
      if IsError() then ResultEx<U>.FromError(error) else func(arg)
    }

    function ThenSelf<U>(func: ResultEx<T> -> ResultEx<U>): (r: ResultEx<U>)
      ensures r == Then((x: T) => func(this))
    {
      if IsError() then ResultEx<U>.FromError(error) else func(this)
    }

    function ThenSelfArg<U, A>(func: (ResultEx<T>, A) -> ResultEx<U>, arg: A): (r: ResultEx<U>)
      ensures r == Then((x: T) => func(this, arg))
    {
      if IsError() then ResultEx<U>.FromError(error) else func(this, arg)
    }

    function Then<U>(func: T -> ResultEx<U>): (r: ResultEx<U>)
      ensures IsError() ==> r.IsError() && r.error == error
      ensures !IsError() ==> r == func(value)
    {
      if IsError() then ResultEx<U>.FromError(error) else func(value)
    }

    function ThenValueArg<U, A>(func: (T, A) -> ResultEx<U>, arg: A): (r: ResultEx<U>)
      ensures r == Then((x: T) => func(x, arg))
    {
      if IsError() then ResultEx<U>.FromError(error) else func(value, arg)
    }

    /** `ThenTry(func)`: an error is propagated as the same exception. */
    function ThenTry<U>(func: T -> Outcome<U>): (r: ResultEx<U>)
      ensures IsError() ==> r == ResultEx<U>.FromError(error)
      ensures !IsError() ==> (r.IsError() <==> func(value).Threw?)
      ensures !IsError() && func(value).Threw? ==> r.error == func(value).exception
      ensures !IsError() && func(value).Returned? ==> r.value == func(value).value
    {
      if IsError() then ResultEx<U>.FromError(error)
      else match func(value)
        case Returned(u) => ResultEx<U>.FromValue(u)
        case Threw(e) => ResultEx<U>.FromError(e)
    }

    function ThenTryArg<U, A>(func: (T, A) -> Outcome<U>, arg: A): (r: ResultEx<U>)
      ensures r == ThenTry((x: T) => func(x, arg))
    {
      if IsError() then ResultEx<U>.FromError(error)
      else match func(value, arg)
        case Returned(u) => ResultEx<U>.FromValue(u)
        case Threw(e) => ResultEx<U>.FromError(e)
    }

    /** `ToResult()`: an exception becomes its `Message`. */
    function ToResult(): (r: Result<T>)
      ensures r.IsError() == IsError()
      ensures IsError() ==> r.error == error.message
      ensures !IsError() ==> r.value == value
    {
      if IsError() then Result<T>.FromError(error.message) else Result<T>.FromValue(value)
    }

    function ToResultGeneric(): (r: ResultGeneric<T, Exception>)
      ensures r.IsError() == IsError()
      ensures IsError() ==> r.error == error
      ensures !IsError() ==> r.value == value
      ensures r.ToResult((e: Exception) => e.message) == ToResult()
    {
      if IsError() then ResultGeneric<T, Exception>.FromError(error) else ResultGeneric<T, Exception>.FromValue(value)
    }
  }

  // ---------------------------------------------------------------------
  // ResultGeneric<TValue, TError>
  // ---------------------------------------------------------------------

  datatype ResultGeneric<T, E> = FromValue(value: T) | FromError(error: E)
  {
    predicate IsError() { FromError? }

    function StoredValue(zero: T): T
    {
      if FromValue? then value else zero
    }

    function ThrowIfError(): (r: Outcome<()>)
      ensures r.Returned? <==> !IsError()
      ensures r.Threw? ==> r.exception == Exception(ResultHasNoValue, NoValueMessage(ResultGenericTypeName))
    {
      if IsError() then Threw(Exception(ResultHasNoValue, NoValueMessage(ResultGenericTypeName))) else Returned(())
    }

    function ThrowIfNotError(): (r: Outcome<()>)
      ensures r.Returned? <==> IsError()
      ensures r.Threw? ==> r.exception == Exception(ResultHasNoError, NoErrorMessage(ResultGenericTypeName))
    {
      if !IsError() then Threw(Exception(ResultHasNoError, NoErrorMessage(ResultGenericTypeName))) else Returned(())
    }

    function Value(): (r: Outcome<T>)
      ensures r.Returned? <==> !IsError()
      ensures r.Returned? ==> r.value == this.value
      ensures r.Threw? ==> r.exception == ThrowIfError().exception
    {
      match ThrowIfError()
      case Threw(e) => Threw(e)
      case Returned(_) => Returned(this.value)
    }

    function Error(): (r: Outcome<E>)
      ensures r.Returned? <==> IsError()
      ensures r.Returned? ==> r.value == this.error
      ensures r.Threw? ==> r.exception == ThrowIfNotError().exception
    {
      match ThrowIfNotError()
      case Threw(e) => Threw(e)
      case Returned(_) => Returned(this.error)
    }

    function ThenNoArg<U>(func: () -> ResultGeneric<U, E>): (r: ResultGeneric<U, E>)
      ensures r == Then((x: T) => func())
    {
      if IsError() then ResultGeneric<U, E>.FromError(error) else func()
    }

    function ThenArg<U, A>(func: A -> ResultGeneric<U, E>, arg: A): (r: ResultGeneric<U, E>)
      ensures r == Then((x: T) => func(arg))
    {
      if IsError() then ResultGeneric<U, E>.FromError(error) else func(arg)
    }

    function ThenSelf<U>(func: ResultGeneric<T, E> -> ResultGeneric<U, E>): (r: ResultGeneric<U, E>)
      ensures r == Then((x: T) => func(this))
    {
      if IsError() then ResultGeneric<U, E>.FromError(error) else func(this)
    }

    function ThenSelfArg<U, A>(func: (ResultGeneric<T, E>, A) -> ResultGeneric<U, E>, arg: A): (r: ResultGeneric<U, E>)
      ensures r == Then((x: T) => func(this, arg))
    {
      if IsError() then ResultGeneric<U, E>.FromError(error) else func(this, arg)
    }

    function Then<U>(func: T -> ResultGeneric<U, E>): (r: ResultGeneric<U, E>)
      ensures IsError() ==> r.IsError() && r.error == error
      ensures !IsError() ==> r == func(value)
    {
      if IsError() then ResultGeneric<U, E>.FromError(error) else func(value)
    }

    function ThenValueArg<U, A>(func: (T, A) -> ResultGeneric<U, E>, arg: A): (r: ResultGeneric<U, E>)
      ensures r == Then((x: T) => func(x, arg))
    {
      if IsError() then ResultGeneric<U, E>.FromError(error) else func(value, arg)
    }

    /** `ThenTry(func)`: an error becomes `ResultErrorException.FromError(error)`; `show` is the error's `ToString`. */
    function ThenTry<U>(func: T -> Outcome<U>, show: E -> string): (r: ResultEx<U>)
      ensures IsError() ==> r == ResultEx<U>.FromError(ResultErrorExceptionFromError(error, show))
      ensures !IsError() ==> (r.IsError() <==> func(value).Threw?)
      ensures !IsError() && func(value).Threw? ==> r.error == func(value).exception
      ensures !IsError() && func(value).Returned? ==> r.value == func(value).value
      ensures r == ToResultEx(show).ThenTry(func)
    {
      if IsError() then ResultEx<U>.FromError(ResultErrorExceptionFromError(error, show))
      else match func(value)
        case Returned(u) => ResultEx<U>.FromValue(u)
        case Threw(e) => ResultEx<U>.FromError(e)
    }

    function ThenTryArg<U, A>(func: (T, A) -> Outcome<U>, arg: A, show: E -> string): (r: ResultEx<U>)
      ensures r == ThenTry((x: T) => func(x, arg), show)
    {
      if IsError() then ResultEx<U>.FromError(ResultErrorExceptionFromError(error, show))
      else match func(value, arg)
        case Returned(u) => ResultEx<U>.FromValue(u)
        case Threw(e) => ResultEx<U>.FromError(e)
    }

    function ThenTryCatch<U>(func: T -> Outcome<U>, catchFunc: Exception -> E): (r: ResultGeneric<U, E>)
      ensures IsError() ==> r.IsError() && r.error == error
      ensures !IsError() ==> (r.IsError() <==> func(value).Threw?)
      ensures !IsError() && func(value).Threw? ==> r.error == catchFunc(func(value).exception)
      ensures !IsError() && func(value).Returned? ==> r.value == func(value).value
    {
      if IsError() then ResultGeneric<U, E>.FromError(error)
      else match func(value)
        case Returned(u) => ResultGeneric<U, E>.FromValue(u)
        case Threw(e) => ResultGeneric<U, E>.FromError(catchFunc(e))
    }

    function ThenTryCatchArg<U, A>(func: (T, A) -> Outcome<U>, arg: A, catchFunc: (Exception, A) -> E): (r: ResultGeneric<U, E>)
      ensures r == ThenTryCatch((x: T) => func(x, arg), (e: Exception) => catchFunc(e, arg))
    {
      if IsError() then ResultGeneric<U, E>.FromError(error)
      else match func(value, arg)
        case Returned(u) => ResultGeneric<U, E>.FromValue(u)
        case Threw(e) => ResultGeneric<U, E>.FromError(catchFunc(e, arg))
    }

    function ToResult(errorConvertFunc: E -> string): (r: Result<T>)
      ensures r.IsError() == IsError()
      ensures IsError() ==> r.error == errorConvertFunc(error)
      ensures !IsError() ==> r.value == value
    {
      if IsError() then Result<T>.FromError(errorConvertFunc(error)) else Result<T>.FromValue(value)
    }

    function ToResultEx(show: E -> string): (r: ResultEx<T>)
      ensures r.IsError() == IsError()
      ensures IsError() ==> r.error == ResultErrorExceptionFromError(error, show)
      ensures !IsError() ==> r.value == value
      ensures r.ToResult() == ToResult((e: E) => "Result has error value '" + show(e) + "'")
    {
      if IsError() then ResultEx<T>.FromError(ResultErrorExceptionFromError(error, show)) else ResultEx<T>.FromValue(value)
    }
  }

  // ---------------------------------------------------------------------
  // Equality, as written: a success compares the stored value slots only,
  // so it never looks at whether `other` is an error.
  // ---------------------------------------------------------------------

  function ResultEquals<T(==)>(self: Result<T>, other: Result<T>, zero: T): (r: bool)
    ensures self.IsError() ==> (r <==> other == self)
    ensures !self.IsError() && !other.IsError() ==> (r <==> other == self)
    ensures !self.IsError() && other.IsError() ==> (r <==> self.value == zero)
  {
    if self.IsError() then other.IsError() && other.error == self.error
    else self.value == other.StoredValue(zero)
  }

  /** `==` and `!=` delegate to Equals. */
  function ResultOpEquality<T(==)>(lhs: Result<T>, rhs: Result<T>, zero: T): (r: bool)
    ensures r == ResultEquals(lhs, rhs, zero)
    ensures r <==> lhs == rhs || (!lhs.IsError() && rhs.IsError() && lhs.value == zero)
  {
    ResultEquals(lhs, rhs, zero)
  }

  function ResultOpInequality<T(==)>(lhs: Result<T>, rhs: Result<T>, zero: T): (r: bool)
    ensures r == !ResultEquals(lhs, rhs, zero)
    ensures r <==> lhs != rhs && !(!lhs.IsError() && rhs.IsError() && lhs.value == zero)
  {
    !ResultOpEquality(lhs, rhs, zero)
  }

  /** ResultEx.Equals; exceptions are compared as values (the source compares references). */
  function ResultExEquals<T(==)>(self: ResultEx<T>, other: ResultEx<T>, zero: T): (r: bool)
    ensures self.IsError() ==> (r <==> other == self)
    ensures !self.IsError() && !other.IsError() ==> (r <==> other == self)
    ensures !self.IsError() && other.IsError() ==> (r <==> self.value == zero)
  {
    if self.IsError() then other.IsError() && other.error == self.error
    else self.value == other.StoredValue(zero)
  }

  function ResultGenericEquals<T(==), E(==)>(self: ResultGeneric<T, E>, other: ResultGeneric<T, E>, zero: T): (r: bool)
    ensures self.IsError() ==> (r <==> other == self)
    ensures !self.IsError() && !other.IsError() ==> (r <==> other == self)
    ensures !self.IsError() && other.IsError() ==> (r <==> self.value == zero)
  {
    if self.IsError() then other.IsError() && self.error == other.error
    else self.value == other.StoredValue(zero)
  }

  function ResultExOpEquality<T(==)>(lhs: ResultEx<T>, rhs: ResultEx<T>, zero: T): (r: bool)
    ensures r == ResultExEquals(lhs, rhs, zero)
    ensures r <==> lhs == rhs || (!lhs.IsError() && rhs.IsError() && lhs.value == zero)
  {
    ResultExEquals(lhs, rhs, zero)
  }

  function ResultExOpInequality<T(==)>(lhs: ResultEx<T>, rhs: ResultEx<T>, zero: T): (r: bool)
    ensures r == !ResultExEquals(lhs, rhs, zero)
    ensures r <==> lhs != rhs && !(!lhs.IsError() && rhs.IsError() && lhs.value == zero)
  {
    !ResultExOpEquality(lhs, rhs, zero)
  }

  function ResultGenericOpEquality<T(==), E(==)>(lhs: ResultGeneric<T, E>, rhs: ResultGeneric<T, E>, zero: T): (r: bool)
    ensures r == ResultGenericEquals(lhs, rhs, zero)
    ensures r <==> lhs == rhs || (!lhs.IsError() && rhs.IsError() && lhs.value == zero)
  {
    ResultGenericEquals(lhs, rhs, zero)
  }

  function ResultGenericOpInequality<T(==), E(==)>(lhs: ResultGeneric<T, E>, rhs: ResultGeneric<T, E>, zero: T): (r: bool)
    ensures r == !ResultGenericEquals(lhs, rhs, zero)
    ensures r <==> lhs != rhs && !(!lhs.IsError() && rhs.IsError() && lhs.value == zero)
  {
    !ResultGenericOpEquality(lhs, rhs, zero)
  }

  // Equality as evidently intended: a success and an error are never equal.

  function ResultEqualsIntended<T(==)>(self: Result<T>, other: Result<T>): bool
  {
    if self.IsError() then other.IsError() && other.error == self.error
    else !other.IsError() && self.value == other.value
  }

  function ResultExEqualsIntended<T(==)>(self: ResultEx<T>, other: ResultEx<T>): bool
  {
    if self.IsError() then other.IsError() && other.error == self.error
    else !other.IsError() && self.value == other.value
  }

  function ResultGenericEqualsIntended<T(==), E(==)>(self: ResultGeneric<T, E>, other: ResultGeneric<T, E>): bool
  {
    if self.IsError() then other.IsError() && self.error == other.error
    else !other.IsError() && self.value == other.value
  }
}
