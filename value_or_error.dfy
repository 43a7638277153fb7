/**
 * `ValueOrError<T>` of Smooth.Foundations.Algebraics: a success value or a
 * string error. Only what the extension methods and matchers use is modelled:
 * the two factories, IsError and the two slots.
 */
module ValueOrErrors {

  datatype ValueOrError<T> = FromValue(value: T) | FromError(error: string)
  {
    predicate IsError() { FromError? }
  }
}
