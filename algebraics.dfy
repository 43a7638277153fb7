/**
 * The small algebraic vocabulary the extension methods are written against:
 * Option, Either, nullable references, exceptions and the outcome of calling
 * code that may throw.
 */
module Algebraics {

  /** Smooth's `Option<T>`: a value that is present (`Some`) or missing (`None`). */
  datatype Option<T> = None | Some(value: T)
  {
    predicate IsSome() { Some? }

    /** The value, or `other` when the option is empty. */
    function ValueOr(other: T): T
    {
      match this
      case Some(v) => v
      case None => other
    }

    /** Maps the value of a present option; an empty option stays empty. */
    function Select<U>(f: T -> U): Option<U>
    {
      match this
      case Some(v) => Some(f(v))
      case None => None
    }
  }

  /** Collapses a nested option into a single layer. */
  function Flatten<T>(o: Option<Option<T>>): Option<T>
  {
    match o
    case Some(inner) => inner
    case None => None
  }

  /** Smooth's `Either<TLeft, TRight>`: exactly one of two values. */
  datatype Either<L, R> = Left(leftValue: L) | Right(rightValue: R)
  {
    predicate IsLeft() { Left? }
  }

  /** A reference that may be `null` in the source (C# `T?` or a class reference). */
  datatype Nullable<T> = Null | NonNull(value: T)

  /** The .NET exception types this library throws or catches. */
  datatype ExceptionKind =
    | ResultHasNoValue
    | ResultHasNoError
    | ResultError
    | IndexOutOfRange
    | ArgumentOutOfRange
    | Argument
    | NotSupported
    | NullReference
    | Unspecified

  /** An exception object: its type and its `Message`. */
  datatype Exception = Exception(kind: ExceptionKind, message: string)

  /** What calling code that may throw produced: a value, or the exception it threw. */
  datatype Outcome<T> = Returned(value: T) | Threw(exception: Exception)
}
