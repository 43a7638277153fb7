# Smooth.Foundations in Dafny

A Dafny model of the functional core of Smooth.Foundations, a C# utility library for Unity. The model covers:

- **Result types.** These are `Result<T>` (the error is a string), `ResultEx<T>` (the error is an exception) and `ResultGeneric<T, E>` (the error is any `E`). The model has their getters, their `Then` / `ThenTry` chaining, conversions, equality, and the static factories and `Try`.
- **Union.** `Union<T1, T2, T3>` is a three-case union with slot accessors, options, `Cata` / `ForEach`, equality and hashing.
- **Extension methods on algebraic types.** These are the extensions on Option, Result, ValueOrError, Either, value tuples and tuple item equality.
- **Collections.** These are `Slice<T>` with its enumerator and its Slinq context, `SingleValueCollection<T>` with its enumerator, and the List, Dictionary, enumerable and Slinq extensions: ToArray, ToDictionary, ToBatches, With, OuterJoin and FirstOr.
- **Pattern-matching builders.** These are the builders behind matching on options and on value-or-error values.
- **ComparerRegister.** This is the 32-bit packing of Unity's `Color32`.

Conventions used throughout:

- **Values and classes.** Value types (`struct`s and immutable classes) are datatypes. Objects whose fields the source updates are classes with `modifies` clauses. Examples are the enumerators, the Slinq slice context, the rule list of `FuncSelectorForOption`, and `List` / `Dictionary` as the extension methods mutate them.
- **Exceptions.** An exception is `Exception(kind, message)`. A call that may throw returns `Outcome<T> = Returned(value) | Threw(exception)`.
- **Null and default values.** `null` is the `Null` case of `Nullable<T>`. `default(T)` is an explicit `zero: T` parameter wherever the source reads a default slot.
- **Non-null arguments.** Delegate and enumerable arguments are non-null: a function type, or a `seq`. The exceptions are the places where the source itself checks for null, such as `Zip`, and the values the source stores as possibly null. The model therefore does not capture what a null argument does elsewhere. For example, `null.ToSlice()` throws ArgumentNullException from `ToList`. Dictionary keys are non-null too: the model's key types have no null, so the ArgumentNullException that `Dictionary` throws for a null key in `GetOr*`, `TryGet`, `ToDictionary` and `OuterJoin` is not modelled.
- **Callbacks.** A callback with side effects is modelled by the sequence of arguments it is invoked with. Examples are `ForEach`, `IfError` and `PipeAndReturn`.
- **Files outside the model.** `ValueOrError.cs`, `Option.cs`, `Either.cs` and the Slinq engine are not part of this model. The model defines only the parts the modelled code uses: the factories, `IsError` / `isSome`, and the value slots. A Slinq query is the sequence of elements it yields.

All paths below are relative to the repository root.

## Model

| member | source | states |
|---|---|---|
| Results.ResultErrorException | Smooth/Foundations/Algebraics/Results/Exceptions/ResultErrorException.cs:5-7 | the exception is of the ResultError kind and carries exactly the given message |
| Results.ResultErrorExceptionFromError | Smooth/Foundations/Algebraics/Results/Exceptions/ResultErrorException.cs:9-10 | the message is `Result has error value '<error>'`, with the error rendered by its `ToString` |
| Results.Result.ThrowIfError | Smooth/Foundations/Algebraics/Results/ResultHelpers.cs:7-11 | passes exactly on a success; on an error throws ResultHasNoValueException naming `Result`1` |
| Results.Result.ThrowIfNotError | Smooth/Foundations/Algebraics/Results/ResultHelpers.cs:25-29 | passes exactly on an error; on a success throws ResultHasNoErrorException naming `Result`1` |
| Results.Result.Value | Smooth/Foundations/Algebraics/Results/Result.cs:8-15 | returns exactly on a success, and then the success value; otherwise throws the guard's exception |
| Results.Result.Error | Smooth/Foundations/Algebraics/Results/Result.cs:19-26 | returns exactly on an error, and then the stored string; otherwise throws the guard's exception |
| Results.Result.ThenNoArg | Smooth/Foundations/Algebraics/Results/Result.cs:49-54 | `Then` with a function that ignores the value and calls `func()` |
| Results.Result.ThenArg | Smooth/Foundations/Algebraics/Results/Result.cs:56-61 | `Then` with a function that ignores the value and calls `func(arg)` |
| Results.Result.ThenSelf | Smooth/Foundations/Algebraics/Results/Result.cs:63-68 | `Then` with a function that passes the whole result to `func` |
| Results.Result.ThenSelfArg | Smooth/Foundations/Algebraics/Results/Result.cs:70-75 | `Then` with a function that passes the whole result and `arg` to `func` |
| Results.Result.Then | Smooth/Foundations/Algebraics/Results/Result.cs:77-82 | an error is carried over unchanged; on a success the result is what the function returns for the value |
| Results.Result.ThenValueArg | Smooth/Foundations/Algebraics/Results/Result.cs:84-89 | `Then` with `arg` bound as the function's second argument |
| Results.Result.ThenTry | Smooth/Foundations/Algebraics/Results/Result.cs:91-104 | an error becomes a ResultErrorException with the error text, without calling the function; on a success a returned value is kept and a thrown exception becomes the error; the same as after `ToResultEx` |
| Results.Result.ThenTryArg | Smooth/Foundations/Algebraics/Results/Result.cs:106-119 | `ThenTry` with `arg` bound as the function's second argument |
| Results.Result.ThenTryCatch | Smooth/Foundations/Algebraics/Results/Result.cs:121-134 | an error is carried over unchanged; on a success a returned value is kept and a thrown exception becomes the catch function's text |
| Results.Result.ThenTryCatchArg | Smooth/Foundations/Algebraics/Results/Result.cs:136-149 | the catching `ThenTry` with `arg` bound into both the function and the catch function |
| Results.Result.ToResultEx | Smooth/Foundations/Algebraics/Results/Result.cs:151-154 | keeps success or error; an error becomes a ResultErrorException carrying its text; converting back with `ToResult` gives the original |
| Results.Result.ToResultGeneric | Smooth/Foundations/Algebraics/Results/Result.cs:156-159 | keeps success or error and the value or text; converting back with the identity gives the original |
| Results.ResultEx.ThrowIfError | Smooth/Foundations/Algebraics/Results/ResultHelpers.cs:13-17 | passes exactly on a success; on an error throws ResultHasNoValueException naming `Result`1` |
| Results.ResultEx.ThrowIfNotError | Smooth/Foundations/Algebraics/Results/ResultHelpers.cs:31-35 | passes exactly on an error; on a success throws ResultHasNoErrorException naming `Result`1` |
| Results.ResultEx.Value | Smooth/Foundations/Algebraics/Results/ResultEx.cs:7-14 | returns exactly on a success, and then the success value; otherwise throws the guard's exception |
| Results.ResultEx.Error | Smooth/Foundations/Algebraics/Results/ResultEx.cs:18-25 | returns exactly on an error, and then the stored exception; otherwise throws the guard's exception |
| Results.ResultEx.ThenNoArg | Smooth/Foundations/Algebraics/Results/ResultEx.cs:47-52 | `Then` with a function that ignores the value and calls `func()` |
| Results.ResultEx.ThenArg | Smooth/Foundations/Algebraics/Results/ResultEx.cs:54-59 | `Then` with a function that ignores the value and calls `func(arg)` |
| Results.ResultEx.ThenSelf | Smooth/Foundations/Algebraics/Results/ResultEx.cs:61-66 | `Then` with a function that passes the whole result to `func` |
| Results.ResultEx.ThenSelfArg | Smooth/Foundations/Algebraics/Results/ResultEx.cs:68-73 | `Then` with a function that passes the whole result and `arg` to `func` |
| Results.ResultEx.Then | Smooth/Foundations/Algebraics/Results/ResultEx.cs:75-80 | an error is carried over unchanged; on a success the result is what the function returns for the value |
| Results.ResultEx.ThenValueArg | Smooth/Foundations/Algebraics/Results/ResultEx.cs:82-87 | `Then` with `arg` bound as the function's second argument |
| Results.ResultEx.StoredError | Smooth/Foundations/Algebraics/Results/ResultEx.cs:37-45 | the exception slot is null exactly on a success, and holds the error otherwise |
| Results.ResultEx.ThenTry | Smooth/Foundations/Algebraics/Results/ResultEx.cs:89-102 | an error keeps its exception, without calling the function; on a success a returned value is kept and a thrown exception becomes the error |
| Results.ResultEx.ThenTryArg | Smooth/Foundations/Algebraics/Results/ResultEx.cs:104-117 | `ThenTry` with `arg` bound as the function's second argument |
| Results.ResultEx.ToResult | Smooth/Foundations/Algebraics/Results/ResultEx.cs:119-122 | keeps success or error; an error becomes the exception's `Message` |
| Results.ResultEx.ToResultGeneric | Smooth/Foundations/Algebraics/Results/ResultEx.cs:124-127 | keeps success or error and the value or exception; converting on with `e => e.Message` is the same as `ToResult` |
| Results.ResultGeneric.ThrowIfError | Smooth/Foundations/Algebraics/Results/ResultHelpers.cs:19-23 | passes exactly on a success; on an error throws ResultHasNoValueException naming `ResultGeneric`2` |
| Results.ResultGeneric.ThrowIfNotError | Smooth/Foundations/Algebraics/Results/ResultHelpers.cs:37-41 | passes exactly on an error; on a success throws ResultHasNoErrorException naming `ResultGeneric`2` |
| Results.ResultGeneric.Value | Smooth/Foundations/Algebraics/Results/ResultGeneric.cs:8-15 | returns exactly on a success, and then the success value; otherwise throws the guard's exception |
| Results.ResultGeneric.Error | Smooth/Foundations/Algebraics/Results/ResultGeneric.cs:19-26 | returns exactly on an error, and then the stored error; otherwise throws the guard's exception |
| Results.ResultGeneric.ThenNoArg | Smooth/Foundations/Algebraics/Results/ResultGeneric.cs:48-53 | `Then` with a function that ignores the value and calls `func()` |
| Results.ResultGeneric.ThenArg | Smooth/Foundations/Algebraics/Results/ResultGeneric.cs:55-60 | `Then` with a function that ignores the value and calls `func(arg)` |
| Results.ResultGeneric.ThenSelf | Smooth/Foundations/Algebraics/Results/ResultGeneric.cs:62-67 | `Then` with a function that passes the whole result to `func` |
| Results.ResultGeneric.ThenSelfArg | Smooth/Foundations/Algebraics/Results/ResultGeneric.cs:69-75 | `Then` with a function that passes the whole result and `arg` to `func` |
| Results.ResultGeneric.Then | Smooth/Foundations/Algebraics/Results/ResultGeneric.cs:77-82 | an error is carried over unchanged; on a success the result is what the function returns for the value |
| Results.ResultGeneric.ThenValueArg | Smooth/Foundations/Algebraics/Results/ResultGeneric.cs:84-89 | `Then` with `arg` bound as the function's second argument |
| Results.ResultGeneric.ThenTry | Smooth/Foundations/Algebraics/Results/ResultGeneric.cs:91-104 | an error becomes `ResultErrorException.FromError(error)`, without calling the function; on a success a returned value is kept and a thrown exception becomes the error; the same as after `ToResultEx` |
| Results.ResultGeneric.ThenTryArg | Smooth/Foundations/Algebraics/Results/ResultGeneric.cs:106-119 | `ThenTry` with `arg` bound as the function's second argument |
| Results.ResultGeneric.ThenTryCatch | Smooth/Foundations/Algebraics/Results/ResultGeneric.cs:121-134 | an error is carried over unchanged; on a success a returned value is kept and a thrown exception becomes the catch function's error value |
| Results.ResultGeneric.ThenTryCatchArg | Smooth/Foundations/Algebraics/Results/ResultGeneric.cs:136-150 | the catching `ThenTry` with `arg` bound into both the function and the catch function |
| Results.ResultGeneric.ToResult | Smooth/Foundations/Algebraics/Results/ResultGeneric.cs:152-155 | keeps success or error; an error becomes the converter's text |
| Results.ResultGeneric.ToResultEx | Smooth/Foundations/Algebraics/Results/ResultGeneric.cs:157-160 | keeps success or error; an error becomes `ResultErrorException.FromError`; converting on with `ToResult` renders the error as `Result has error value '<error>'` |
| Results.ResultEquals | Smooth/Foundations/Algebraics/Results/Result.cs:161-169 | an error equals exactly the same error, two successes are equal exactly when their values are, and a success equals an error exactly when its value is `default` |
| Results.ResultExEquals | Smooth/Foundations/Algebraics/Results/ResultEx.cs:129-137 | an error equals exactly the same error, two successes are equal exactly when their values are, and a success equals an error exactly when its value is `default` |
| Results.ResultGenericEquals | Smooth/Foundations/Algebraics/Results/ResultGeneric.cs:162-170 | an error equals exactly the same error, two successes are equal exactly when their values are, and a success equals an error exactly when its value is `default` |
| Results.ResultOpEquality | Smooth/Foundations/Algebraics/Results/Result.cs:184-187 | the answer of Equals: equal values, or a success holding `default` against an error |
| Results.ResultOpInequality | Smooth/Foundations/Algebraics/Results/Result.cs:189-192 | the negation of Equals |
| Results.ResultExOpEquality | Smooth/Foundations/Algebraics/Results/ResultEx.cs:152-155 | the answer of Equals: equal values, or a success holding `default` against an error |
| Results.ResultExOpInequality | Smooth/Foundations/Algebraics/Results/ResultEx.cs:157-160 | the negation of Equals |
| Results.ResultGenericOpEquality | Smooth/Foundations/Algebraics/Results/ResultGeneric.cs:185-188 | the answer of Equals: equal values, or a success holding `default` against an error |
| Results.ResultGenericOpInequality | Smooth/Foundations/Algebraics/Results/ResultGeneric.cs:190-193 | the negation of Equals |
| ResultLaws.ResultAccessors | Smooth/Foundations/Algebraics/Results/Result.cs:8-26 | `ThrowIfError` throws exactly on an error and `ThrowIfNotError` exactly on a success; a `Value` that returns comes from a success holding it, one that throws throws the has-no-value exception naming `Result`1`; likewise `Error` and the has-no-error exception |
| ResultLaws.ResultExAccessors | Smooth/Foundations/Algebraics/Results/ResultEx.cs:7-26 | the same getter and guard laws for ResultEx, whose messages also name `Result`1`; the stored error is null exactly on a success |
| ResultLaws.ResultGenericAccessors | Smooth/Foundations/Algebraics/Results/ResultGeneric.cs:8-27 | the same getter and guard laws for ResultGeneric, with messages naming `ResultGeneric`2` |
| ResultLaws.ResultThenOnError | Smooth/Foundations/Algebraics/Results/Result.cs:49-89 | on an error all six `Then` overloads return that same error and ignore the function |
| ResultLaws.ResultThenOnValue | Smooth/Foundations/Algebraics/Results/Result.cs:49-89 | on a success each `Then` overload is its function applied to its argument: nothing, the arg, the result itself, or the value |
| ResultLaws.ResultExThenOnError | Smooth/Foundations/Algebraics/Results/ResultEx.cs:47-87 | ResultEx `Then` keeps an error and ignores the function |
| ResultLaws.ResultExThenOnValue | Smooth/Foundations/Algebraics/Results/ResultEx.cs:47-87 | on a ResultEx success, `Then` is the function applied |
| ResultLaws.ResultGenericThenOnError | Smooth/Foundations/Algebraics/Results/ResultGeneric.cs:48-89 | ResultGeneric `Then` keeps an error and ignores the function |
| ResultLaws.ResultGenericThenOnValue | Smooth/Foundations/Algebraics/Results/ResultGeneric.cs:48-89 | on a ResultGeneric success, `Then` is the function applied |
| ResultLaws.ResultThenMonadLaws | Smooth/Foundations/Algebraics/Results/Result.cs:77-82 | `Then` with `FromValue` is the identity, and chaining `Then`s is associative |
| ResultLaws.ResultExThenMonadLaws | Smooth/Foundations/Algebraics/Results/ResultEx.cs:75-80 | the identity and associativity laws for ResultEx `Then` |
| ResultLaws.ResultGenericThenMonadLaws | Smooth/Foundations/Algebraics/Results/ResultGeneric.cs:77-82 | the identity and associativity laws for ResultGeneric `Then` |
| ResultLaws.ResultThenTry | Smooth/Foundations/Algebraics/Results/Result.cs:91-149 | on an error, `ThenTry` gives the error without running the function; on a success it catches a thrown exception (as a ResultEx error, or through the catch function); `ThenTry` is ThenTry after `ToResultEx`; both argument overloads, the plain and the catching one, equal the plain overloads with the argument bound |
| ResultLaws.ResultExThenTry | Smooth/Foundations/Algebraics/Results/ResultEx.cs:89-117 | an error keeps its exception; on a success a throw becomes the error and a return becomes the value |
| ResultLaws.ResultGenericThenTry | Smooth/Foundations/Algebraics/Results/ResultGeneric.cs:91-150 | on an error, `ThenTry` wraps the error in a ResultErrorException whose message renders it, and the catch overloads keep the error; on a success both kinds keep a returned value, and a thrown exception becomes a ResultEx error or the catch function's error; `ThenTry` equals `ToResultEx().ThenTry`; both argument overloads equal the plain ones with the argument bound |
| ResultLaws.ResultConversionsRoundTrip | Smooth/Foundations/Algebraics/Results/Result.cs:151-159 | Result → ResultEx → Result and Result → ResultGeneric → Result are identities, and preserve `IsError` |
| ResultLaws.ResultExConversions | Smooth/Foundations/Algebraics/Results/ResultEx.cs:119-127 | ResultEx → Result keeps the value and the exception's message; → ResultGeneric keeps the exception itself |
| ResultLaws.ResultGenericConversions | Smooth/Foundations/Algebraics/Results/ResultGeneric.cs:152-160 | `ToResult(convert)` converts only the error; `ToResultEx().ToResult()` renders the error as ResultErrorException.FromError does |
| ResultLaws.ResultEqualsAsymmetric | Smooth/Foundations/Algebraics/Results/Result.cs:161-169 | as written, a success holding `default` equals an error, but not the other way round (and `==` agrees) |
| ResultLaws.ResultExEqualsAsymmetric | Smooth/Foundations/Algebraics/Results/ResultEx.cs:129-137 | the same asymmetry for ResultEx |
| ResultLaws.ResultGenericEqualsAsymmetric | Smooth/Foundations/Algebraics/Results/ResultGeneric.cs:162-170 | the same asymmetry for ResultGeneric |
| ResultLaws.ResultEqualsVersusIntended | Smooth/Foundations/Algebraics/Results/Result.cs:161-192 | Equals as written agrees with value equality except when a success is compared with an error, where it answers whether the value is `default`; `!=` is the negation of Equals |
| ResultLaws.ResultExEqualsVersusIntended | Smooth/Foundations/Algebraics/Results/ResultEx.cs:129-160 | the same characterisation for ResultEx |
| ResultLaws.ResultGenericEqualsVersusIntended | Smooth/Foundations/Algebraics/Results/ResultGeneric.cs:162-193 | the same characterisation for ResultGeneric |
| ResultLaws.ResultEqualsIntendedIsEquality | Smooth/Foundations/Algebraics/Results/Result.cs:161-169 | the corrected Equals is exactly value equality, and so symmetric |
| ResultLaws.ResultExEqualsIntendedIsEquality | Smooth/Foundations/Algebraics/Results/ResultEx.cs:129-137 | the corrected ResultEx Equals is value equality |
| ResultLaws.ResultGenericEqualsIntendedIsEquality | Smooth/Foundations/Algebraics/Results/ResultGeneric.cs:162-170 | the corrected ResultGeneric Equals is value equality |
| ResultStatic.ResultFromValue | Smooth/Foundations/Algebraics/Results/ResultStatic.cs:7-10 | `Result.FromValue(v)` is a success whose `Value` returns `v` |
| ResultStatic.ResultFromError | Smooth/Foundations/Algebraics/Results/ResultStatic.cs:12 | the `Error` marker keeps the text unchanged |
| ResultStatic.ResultExFromValue | Smooth/Foundations/Algebraics/Results/ResultStatic.cs:17-20 | `ResultEx.FromValue(v)` is a success whose `Value` returns `v` |
| ResultStatic.ResultExFromError | Smooth/Foundations/Algebraics/Results/ResultStatic.cs:46 | the `ErrorEx` marker keeps the exception |
| ResultStatic.ResultGenericFromError | Smooth/Foundations/Algebraics/Results/ResultStatic.cs:51 | the `ErrorGeneric` marker keeps the error |
| ResultStatic.Try | Smooth/Foundations/Algebraics/Results/ResultStatic.cs:22-32 | an error exactly when the function throws, and then the thrown exception is the error; otherwise it holds the returned value |
| ResultStatic.TryWithArg | Smooth/Foundations/Algebraics/Results/ResultStatic.cs:34-44 | the same, for the function applied to the argument |
| ResultStatic.TryAgreesWithThenTry | Smooth/Foundations/Algebraics/Results/ResultStatic.cs:22-44 | a success's `ThenTry(f)` is `Try(() => f(value))`, for Result and ResultEx; `Try(f, arg)` is `Try(() => f(arg))` |
| Unions.Union.Case1 | Smooth/Foundations/Algebraics/Union.cs:9-19 | returns the first slot; logs "Wrong case for union" exactly when another case is active |
| Unions.Union.Case2 | Smooth/Foundations/Algebraics/Union.cs:21-31 | the same for the second slot |
| Unions.Union.Case3 | Smooth/Foundations/Algebraics/Union.cs:33-43 | the same for the third slot |
| Unions.Union.FirstOption | Smooth/Foundations/Algebraics/Union.cs:45 | Some exactly when the first case is active, holding that slot |
| Unions.Union.SecondOption | Smooth/Foundations/Algebraics/Union.cs:46 | Some exactly when the second case is active |
| Unions.Union.ThirdOption | Smooth/Foundations/Algebraics/Union.cs:47 | Some exactly when the third case is active |
| Unions.Union.Cata | Smooth/Foundations/Algebraics/Union.cs:70-83 | the function of the active case applied to that case's value |
| Unions.Union.Cata1 | Smooth/Foundations/Algebraics/Union.cs:85-98 | plain Cata with each parameter bound into its own branch's function (first) |
| Unions.Union.Cata2 | Smooth/Foundations/Algebraics/Union.cs:100-113 | plain Cata with each parameter bound into its own branch's function (second) |
| Unions.Union.Cata3 | Smooth/Foundations/Algebraics/Union.cs:115-128 | plain Cata with each parameter bound into its own branch's function (third) |
| Unions.Union.Cata12 | Smooth/Foundations/Algebraics/Union.cs:130-143 | plain Cata with each parameter bound into its own branch's function (first and second) |
| Unions.Union.Cata23 | Smooth/Foundations/Algebraics/Union.cs:145-158 | plain Cata with each parameter bound into its own branch's function (second and third) |
| Unions.Union.Cata13 | Smooth/Foundations/Algebraics/Union.cs:160-173 | plain Cata with each parameter bound into its own branch's function (first and third) |
| Unions.Union.Cata123 | Smooth/Foundations/Algebraics/Union.cs:175-188 | plain Cata with each parameter bound into its own branch's function (first, second and third) |
| Unions.Union.ForEach | Smooth/Foundations/Algebraics/Union.cs:190-206 | exactly one action runs: the one Cata would select |
| Unions.Union.ForEach1 | Smooth/Foundations/Algebraics/Union.cs:208-224 | plain ForEach with each parameter bound into its own branch's action (first): exactly one action runs |
| Unions.Union.ForEach2 | Smooth/Foundations/Algebraics/Union.cs:226-242 | plain ForEach with each parameter bound into its own branch's action (second): exactly one action runs |
| Unions.Union.ForEach3 | Smooth/Foundations/Algebraics/Union.cs:244-260 | plain ForEach with each parameter bound into its own branch's action (third): exactly one action runs |
| Unions.Union.ForEach12 | Smooth/Foundations/Algebraics/Union.cs:262-278 | plain ForEach with each parameter bound into its own branch's action (first and second): exactly one action runs |
| Unions.Union.ForEach23 | Smooth/Foundations/Algebraics/Union.cs:280-296 | plain ForEach with each parameter bound into its own branch's action (second and third): exactly one action runs |
| Unions.Union.ForEach13 | Smooth/Foundations/Algebraics/Union.cs:298-314 | plain ForEach with each parameter bound into its own branch's action (first and third): exactly one action runs |
| Unions.Union.ForEach123 | Smooth/Foundations/Algebraics/Union.cs:316-332 | plain ForEach with each parameter bound into its own branch's action (first, second and third): exactly one action runs |
| Unions.CreateFirst | Smooth/Foundations/Algebraics/Union.cs:55-56 | only the first option is present, holding the value; the other accessors log and give `default` |
| Unions.CreateSecond | Smooth/Foundations/Algebraics/Union.cs:57-58 | the same, for the second case |
| Unions.CreateThird | Smooth/Foundations/Algebraics/Union.cs:59-60 | the same, for the third case |
| Unions.Equals | Smooth/Foundations/Algebraics/Union.cs:334-349 | unions with different cases are never equal; otherwise Equals compares the active values (all three options agree) |
| Unions.OpEquality | Smooth/Foundations/Algebraics/Union.cs:387-390 | the answer of Equals: the cases agree and so do the active values |
| Unions.OpInequality | Smooth/Foundations/Algebraics/Union.cs:392-395 | the negation of Equals: the cases or the active values differ |
| Unions.GetHashCode | Smooth/Foundations/Algebraics/Union.cs:357-370 | the hash of the active case's value, by that case's hash function |
| Unions.WrongCaseReturnsDefault | Smooth/Foundations/Algebraics/Union.cs:9-43 | on a union built by a factory, a wrong-case accessor logs once and returns `default` |
| Unions.ExactlyOneOption | Smooth/Foundations/Algebraics/Union.cs:45-47 | exactly one of the three options is Some |
| Unions.CataOverloads | Smooth/Foundations/Algebraics/Union.cs:85-188 | each parameterised Cata overload is plain Cata with the parameter bound in |
| Unions.ForEachOverloads | Smooth/Foundations/Algebraics/Union.cs:208-332 | each parameterised ForEach overload is plain ForEach with the parameter bound in |
| Unions.EqualsLaws | Smooth/Foundations/Algebraics/Union.cs:334-395 | Equals is reflexive, symmetric and transitive, and `==` / `!=` agree with it; on factory-built unions it is value equality |
| Unions.EqualsImpliesSameHash | Smooth/Foundations/Algebraics/Union.cs:357-370 | equal unions have equal hash codes |
| TupleExtensions.ItemsEquals1 | Smooth/Foundations/Algebraics/Extensions/TupleExtensions.cs:7-8 | true exactly when the items are equal |
| TupleExtensions.ItemsEquals2 | Smooth/Foundations/Algebraics/Extensions/TupleExtensions.cs:10-12 | true exactly when every component is equal |
| TupleExtensions.ItemsEquals3 | Smooth/Foundations/Algebraics/Extensions/TupleExtensions.cs:14-17 | true exactly when every component is equal |
| TupleExtensions.ItemsEquals4 | Smooth/Foundations/Algebraics/Extensions/TupleExtensions.cs:19-23 | true exactly when every component is equal |
| TupleExtensions.ItemsEquals5 | Smooth/Foundations/Algebraics/Extensions/TupleExtensions.cs:25-30 | true exactly when every component is equal |
| TupleExtensions.ItemsEquals6 | Smooth/Foundations/Algebraics/Extensions/TupleExtensions.cs:32-38 | true exactly when every component is equal |
| TupleExtensions.ItemsEquals7 | Smooth/Foundations/Algebraics/Extensions/TupleExtensions.cs:40-48 | true exactly when every component is equal |
| TupleExtensions.ItemsEquals8 | Smooth/Foundations/Algebraics/Extensions/TupleExtensions.cs:50-59 | true exactly when the tuples are equal; then the first seven components are item-equal |
| TupleExtensions.ItemsEqualsLaws | Smooth/Foundations/Algebraics/Extensions/TupleExtensions.cs:7-17 | item equality of triples is symmetric and transitive, and item-equal triples have item-equal sub-tuples |
| ResultExtensions.ToResult | Smooth/Smooth.Foundations.Extensions/Algebraic/ResultExtensions.cs:12-17 | an error exactly for None, with the text "Value was missing"; otherwise a success holding the value |
| ResultExtensions.ToResultWithMessage | Smooth/Smooth.Foundations.Extensions/Algebraic/ResultExtensions.cs:19-24 | the same, with the given text |
| ResultExtensions.ToResultWithFunc | Smooth/Smooth.Foundations.Extensions/Algebraic/ResultExtensions.cs:26-29 | the same, with the text the function produces |
| ResultExtensions.ToResultWithFuncParam | Smooth/Smooth.Foundations.Extensions/Algebraic/ResultExtensions.cs:31-35 | the same, with the function applied to its parameter |
| ResultExtensions.ToResultOverloadsAgree | Smooth/Smooth.Foundations.Extensions/Algebraic/ResultExtensions.cs:12-35 | the four conversions agree when given the same text |
| ResultExtensions.ToValue | Smooth/Smooth.Foundations.Extensions/Algebraic/ResultExtensions.cs:37-40 | a success holding the value |
| ResultExtensions.ToError | Smooth/Smooth.Foundations.Extensions/Algebraic/ResultExtensions.cs:42-47 | always an error with a non-empty text: the given one, or "Generic error" for a null or empty text |
| ResultExtensions.Where | Smooth/Smooth.Foundations.Extensions/Algebraic/ResultExtensions.cs:49-56 | a success exactly when the input is a success satisfying the predicate; a success that fails it becomes "Value didn't satisfy condition: " + message; otherwise the input passes through |
| ResultExtensions.WhereWithParam | Smooth/Smooth.Foundations.Extensions/Algebraic/ResultExtensions.cs:58-66 | the same, with the predicate taking a parameter |
| ResultExtensions.WhereWithMessageFunc | Smooth/Smooth.Foundations.Extensions/Algebraic/ResultExtensions.cs:68-74 | the same, with the rejection text computed from the value and no prefix |
| ResultExtensions.WhereLaws | Smooth/Smooth.Foundations.Extensions/Algebraic/ResultExtensions.cs:49-74 | Where is idempotent, and the three overloads coincide on equal predicate and text |
| ResultExtensions.ForEach | Smooth/Smooth.Foundations.Extensions/Algebraic/ResultExtensions.cs:76-80 | the action runs once, with the value, on a success, and never on an error |
| ResultExtensions.ForEachWithParam | Smooth/Smooth.Foundations.Extensions/Algebraic/ResultExtensions.cs:82-86 | the same, with the parameter |
| ResultExtensions.SpecifyError | Smooth/Smooth.Foundations.Extensions/Algebraic/ResultExtensions.cs:93 | a success is unchanged; an error gets the new text |
| ResultExtensions.All | Smooth/Smooth.Foundations.Extensions/Algebraic/ResultExtensions.cs:88-96 | a success exactly when every result is a success, and then it lists all their values in order; otherwise the error "One of items has an error" |
| ValueOrErrorExtensions.Or | Smooth/Smooth.Foundations.Extensions/Algebraic/ValueOrErrorExtensions.cs:14-15 | the first value when it is a success, else what the fall-back gives |
| ValueOrErrorExtensions.ValueOr | Smooth/Smooth.Foundations.Extensions/Algebraic/ValueOrErrorExtensions.cs:29-32 | the value of a success, else the fall-back |
| ValueOrErrorExtensions.ValueOrFunc | Smooth/Smooth.Foundations.Extensions/Algebraic/ValueOrErrorExtensions.cs:34-37 | the value of a success, else the fall-back function's result |
| ValueOrErrorExtensions.ValueOrFuncParam | Smooth/Smooth.Foundations.Extensions/Algebraic/ValueOrErrorExtensions.cs:39-42 | the same, with the parameter |
| ValueOrErrorExtensions.OrLaws | Smooth/Smooth.Foundations.Extensions/Algebraic/ValueOrErrorExtensions.cs:14-42 | Or is associative and idempotent; ValueOr is the ValueOr of the corresponding option |
| ValueOrErrorExtensions.ToOption | Smooth/Smooth.Foundations.Extensions/Algebraic/ValueOrErrorExtensions.cs:92-95 | Some exactly on a success, holding its value |
| ValueOrErrorExtensions.ToValueOrErrorNullable | Smooth/Smooth.Foundations.Extensions/Algebraic/ValueOrErrorExtensions.cs:97-100 | an error "Value was null" exactly for null, otherwise a success holding the value |
| ValueOrErrorExtensions.ToValueOrError | Smooth/Smooth.Foundations.Extensions/Algebraic/ValueOrErrorExtensions.cs:102-107 | an error "Value was missing" exactly for None |
| ValueOrErrorExtensions.ToValueOrErrorWithMessage | Smooth/Smooth.Foundations.Extensions/Algebraic/ValueOrErrorExtensions.cs:109-114 | the same, with the given text |
| ValueOrErrorExtensions.ToValueOrErrorWithFunc | Smooth/Smooth.Foundations.Extensions/Algebraic/ValueOrErrorExtensions.cs:116-119 | the same, with the function's text |
| ValueOrErrorExtensions.ToValueOrErrorWithFuncParam | Smooth/Smooth.Foundations.Extensions/Algebraic/ValueOrErrorExtensions.cs:121-125 | the same, with the function applied to its parameter |
| ValueOrErrorExtensions.OptionRoundTrip | Smooth/Smooth.Foundations.Extensions/Algebraic/ValueOrErrorExtensions.cs:92-125 | Option → ValueOrError → Option is the identity; the other way round only the error text is lost |
| ValueOrErrorExtensions.ToValue | Smooth/Smooth.Foundations.Extensions/Algebraic/ValueOrErrorExtensions.cs:143-146 | a success holding the value |
| ValueOrErrorExtensions.ToError | Smooth/Smooth.Foundations.Extensions/Algebraic/ValueOrErrorExtensions.cs:148-153 | always an error with a non-empty text, "Generic error" replacing a null or empty one |
| ValueOrErrorExtensions.IfError | Smooth/Smooth.Foundations.Extensions/Algebraic/ValueOrErrorExtensions.cs:155-169 | a success passes through without calling the function; an error calls it once with the error text, and becomes the thrown exception's message if it throws |
| ValueOrErrorExtensions.IfErrorWithParam | Smooth/Smooth.Foundations.Extensions/Algebraic/ValueOrErrorExtensions.cs:189-202 | the same, with the parameter |
| ValueOrErrorExtensions.ContinueWith | Smooth/Smooth.Foundations.Extensions/Algebraic/ValueOrErrorExtensions.cs:318-335 | an input error is forwarded with the optional `"message: "` prefix; a success gives the function's result, or, if it throws, an error with the prefix, "Exception: ", the message and the stack trace |
| ValueOrErrorExtensions.ContinueWithValue | Smooth/Smooth.Foundations.Extensions/Algebraic/ValueOrErrorExtensions.cs:337-351 | the same, with a returned plain value wrapped as a success |
| ValueOrErrorExtensions.ContinueWithLaws | Smooth/Smooth.Foundations.Extensions/Algebraic/ValueOrErrorExtensions.cs:318-351 | the plain-value overload is the other applied to a function that wraps the value; without a message an error passes through unchanged |
| ValueOrErrorExtensions.Where | Smooth/Smooth.Foundations.Extensions/Algebraic/ValueOrErrorExtensions.cs:359-369 | a success exactly when the input is a success satisfying the predicate; rejected values become "Value didn't satisfy condition: " + message |
| ValueOrErrorExtensions.WhereWithParam | Smooth/Smooth.Foundations.Extensions/Algebraic/ValueOrErrorExtensions.cs:371-382 | the same, with the parameter |
| ValueOrErrorExtensions.WhereWithMessageFunc | Smooth/Smooth.Foundations.Extensions/Algebraic/ValueOrErrorExtensions.cs:384-390 | the same, with the rejection text computed from the value |
| ValueOrErrorExtensions.WhereLaws | Smooth/Smooth.Foundations.Extensions/Algebraic/ValueOrErrorExtensions.cs:359-390 | Where is idempotent, it filters the corresponding option, and the overloads coincide |
| ValueOrErrorExtensions.ForEach | Smooth/Smooth.Foundations.Extensions/Algebraic/ValueOrErrorExtensions.cs:443-447 | the action runs once with the value on a success, never on an error |
| ValueOrErrorExtensions.ForEachWithParam | Smooth/Smooth.Foundations.Extensions/Algebraic/ValueOrErrorExtensions.cs:449-453 | the same, with the parameter |
| ValueOrErrorExtensions.FirstErrorIndex | Smooth/Smooth.Foundations.Extensions/Algebraic/ValueOrErrorExtensions.cs:504 | the index of the first error: everything before it is a success |
| ValueOrErrorExtensions.Values | Smooth/Smooth.Foundations.Extensions/Algebraic/ValueOrErrorExtensions.cs:507 | the values of all-success inputs, in order |
| ValueOrErrorExtensions.All | Smooth/Smooth.Foundations.Extensions/Algebraic/ValueOrErrorExtensions.cs:499-508 | an error exactly when some input is an error, carrying an erroneous input's text; otherwise the function applied to all values |
| OptionExtensions.SelectDelegate | Smooth/Smooth.Foundations.Extensions/Algebraic/OptionExtensions.cs:30-37 | None for None; otherwise a delegate whose invocation is the action on the value |
| OptionExtensions.ToOption | Smooth/Smooth.Foundations.Extensions/Algebraic/OptionExtensions.cs:39-42 | Some exactly for a non-null value, holding it |
| OptionExtensions.SwapWithResult | Smooth/Smooth.Foundations.Extensions/Algebraic/OptionExtensions.cs:65-68 | None becomes the success None; Some(error) becomes that error; Some(success v) becomes the success Some(v) |
| OptionExtensions.SwapWithResultRoundTrip | Smooth/Smooth.Foundations.Extensions/Algebraic/OptionExtensions.cs:65-68 | the swap has a two-sided inverse, so it loses nothing |
| EitherExtensions.Select | Smooth/Smooth.Foundations.Extensions/Algebraic/EitherExtensions.cs:9-14 | the side is kept and only the selector of that side is applied to its value |
| EitherExtensions.SelectFunctorLaws | Smooth/Smooth.Foundations.Extensions/Algebraic/EitherExtensions.cs:9-14 | Select with identities is the identity, and two Selects compose |
| ValueTupleExtensions.PipeAndReturn | Smooth/Smooth.Foundations.Extensions/Algebraic/ValueTupleExtensions.cs:8-12 | the tuple comes back unchanged after one call of the action on its components |
| ValueTupleExtensions.Convert | Smooth/Smooth.Foundations.Extensions/Algebraic/ValueTupleExtensions.cs:14-18 | each component through its own function, in place |
| ValueTupleExtensions.ConvertFunctorLaws | Smooth/Smooth.Foundations.Extensions/Algebraic/ValueTupleExtensions.cs:14-18 | Convert with identities is the identity, and two Converts compose |
| ValueTupleExtensions.Strict2 | Smooth/Smooth.Foundations.Extensions/Algebraic/ValueTupleExtensions.cs:20-27 | Some exactly when both options are present, holding both values |
| ValueTupleExtensions.Strict3 | Smooth/Smooth.Foundations.Extensions/Algebraic/ValueTupleExtensions.cs:29-36 | Some exactly when all three are present |
| ValueTupleExtensions.Strict4 | Smooth/Smooth.Foundations.Extensions/Algebraic/ValueTupleExtensions.cs:38-45 | Some exactly when all four are present |
| ValueTupleExtensions.Flatten3 | Smooth/Smooth.Foundations.Extensions/Algebraic/ValueTupleExtensions.cs:119-122 | the three components in order; nesting them again gives the input back |
| ValueTupleExtensions.Flatten4 | Smooth/Smooth.Foundations.Extensions/Algebraic/ValueTupleExtensions.cs:124-127 | the four components in order; nesting them again gives the input back |
| ValueTupleExtensions.FlattenRegroups | Smooth/Smooth.Foundations.Extensions/Algebraic/ValueTupleExtensions.cs:119-127 | Flatten only regroups: nesting its result again gives the input |
| ValueTupleExtensions.StrictIsNestedStrict | Smooth/Smooth.Foundations.Extensions/Algebraic/ValueTupleExtensions.cs:20-45 | the wider Strict overloads are the pair overload, nested and then flattened |
| ValueTupleExtensions.Select2 | Smooth/Smooth.Foundations.Extensions/Algebraic/ValueTupleExtensions.cs:65-69 | the function applied to the two components in positional order |
| ValueTupleExtensions.Select3 | Smooth/Smooth.Foundations.Extensions/Algebraic/ValueTupleExtensions.cs:71-75 | the function applied to the three components in positional order |
| ValueTupleExtensions.Select4 | Smooth/Smooth.Foundations.Extensions/Algebraic/ValueTupleExtensions.cs:77-81 | the function applied to the four components in positional order |
| ValueTupleExtensions.Select5 | Smooth/Smooth.Foundations.Extensions/Algebraic/ValueTupleExtensions.cs:83-87 | the function applied to the five components in positional order |
| ValueTupleExtensions.Select2Param | Smooth/Smooth.Foundations.Extensions/Algebraic/ValueTupleExtensions.cs:47-51 | `Select2` with the parameter fixed as the last argument |
| ValueTupleExtensions.Select3Param | Smooth/Smooth.Foundations.Extensions/Algebraic/ValueTupleExtensions.cs:53-57 | `Select3` with the parameter fixed as the last argument |
| ValueTupleExtensions.Select4Param | Smooth/Smooth.Foundations.Extensions/Algebraic/ValueTupleExtensions.cs:59-63 | `Select4` with the parameter fixed as the last argument |
| ValueTupleExtensions.SelectLaws | Smooth/Smooth.Foundations.Extensions/Algebraic/ValueTupleExtensions.cs:47-87 | the parameter overloads bind the parameter; Select of a flattened tuple is Select of the nested one; Select with the tuple constructor is the identity |
| Slices.Slice.At | Smooth/Foundations/Collections/Slice.cs:39-50 | reads `offset + index` of the list through the `IList<T>` indexer and throws ArgumentOutOfRange outside it; a single-item slice answers only index 0 and throws IndexOutOfRange elsewhere; the null list of Empty throws NullReference |
| Slices.Slice.Elements | Smooth/Foundations/Collections/Slice.cs:39-50 | for an in-bounds slice, the `Length` elements the indexer returns, in order |
| Slices.Empty | Smooth/Foundations/Collections/Slice.cs:11 | no elements |
| Slices.FromRange | Smooth/Foundations/Collections/Slice.cs:18-23 | `Length` is `length - start`, the third argument being used as an end index; element i is list element `start + i`; in bounds, the elements are `list[start..length]` |
| Slices.FromStart | Smooth/Foundations/Collections/Slice.cs:25-30 | the elements from `start` to the end of the list; the same slice as `FromRange` with the list's end |
| Slices.FromItem | Smooth/Foundations/Collections/Slice.cs:32-37 | exactly one element, readable at index 0 only |
| Slices.Enumerator.Current | Smooth/Foundations/Collections/Slice.cs:88 | inside an in-bounds slice, the element at the position; on the null list an exception; on a single item, a value only where the item's index is reached |
| Slices.Enumerator.constructor | Smooth/Foundations/Collections/Slice.cs:82-86 | starts before the first element (position -1) |
| Slices.Enumerator.MoveNext | Smooth/Foundations/Collections/Slice.cs:98-101 | advances by one and reports whether the position is still inside the slice |
| Slices.Enumerator.Reset | Smooth/Foundations/Collections/Slice.cs:103-106 | back to position -1 |
| Slices.Enumerator.Dispose | Smooth/Foundations/Collections/Slice.cs:92-96 | replaces the slice with Empty and resets the position |
| Slices.ForEachElement | Smooth/Foundations/Collections/Slice.cs:77-107 | a foreach loop records the indexer's outcome at each position in turn and stops at the first exception: every entry but the last is a value, and it is shorter than the slice only when its last entry is an exception; on a slice inside its list it is exactly the slice's elements, in order |
| SliceContexts.SliceContext.constructor | Smooth/Smooth.Foundations.Extensions/Collections/SliceContext.cs:34-39 | the slice, its length and index -1 |
| SliceContexts.SliceContext.Skip | Smooth/Smooth.Foundations.Extensions/Collections/SliceContext.cs:49-62 | advances the index; yields the element there while the index is inside the size, then None |
| SliceContexts.SliceContext.SkipWithIndex | Smooth/Smooth.Foundations.Extensions/Collections/SliceContext.cs:74-87 | the same, with each element paired with its index |
| SliceContexts.SliceContext.Remove | Smooth/Smooth.Foundations.Extensions/Collections/SliceContext.cs:64-67 | always throws NotSupported |
| SliceContexts.SliceContext.RemoveWithIndex | Smooth/Smooth.Foundations.Extensions/Collections/SliceContext.cs:89-92 | always throws NotSupported |
| SliceContexts.SliceContext.Dispose | Smooth/Smooth.Foundations.Extensions/Collections/SliceContext.cs:69-72 | yields None and changes nothing |
| SliceContexts.SliceContext.DisposeWithIndex | Smooth/Smooth.Foundations.Extensions/Collections/SliceContext.cs:94-97 | yields None and changes nothing |
| SliceContexts.Drain | Smooth/Smooth.Foundations.Extensions/Collections/SliceContext.cs:49-62 | skipping until None yields exactly the slice's elements, in order |
| SliceExtensions.ToSlice | Smooth/Smooth.Foundations.Extensions/Collections/SliceExtensions.cs:9-13 | a slice over the whole list, with its elements |
| SliceExtensions.ToSliceOfItem | Smooth/Smooth.Foundations.Extensions/Collections/SliceExtensions.cs:23-26 | the one-element slice of the item |
| SliceExtensions.ToSliceOfSingletonAgrees | Smooth/Smooth.Foundations.Extensions/Collections/SliceExtensions.cs:9-26 | a one-element list and the item itself give slices with the same elements and the same readable indices |
| SingleValueCollections.SingleValueCollection.Count | Smooth/Foundations/Collections/SingleValueCollection.cs:16 | the count is 1 |
| SingleValueCollections.SingleValueCollection.At | Smooth/Foundations/Collections/SingleValueCollection.cs:18-20 | the value at index 0; IndexOutOfRange with the .NET message everywhere else |
| SingleValueCollections.SingleEnumerator.constructor | Smooth/Foundations/Collections/SingleValueCollection.cs:43-47 | not yet moved |
| SingleValueCollections.SingleEnumerator.Dispose | Smooth/Foundations/Collections/SingleValueCollection.cs:49-52 | past the value |
| SingleValueCollections.SingleEnumerator.MoveNext | Smooth/Foundations/Collections/SingleValueCollection.cs:54-58 | only the first move after construction or Reset lands on the value; every later move is past it |
| SingleValueCollections.SingleEnumerator.Reset | Smooth/Foundations/Collections/SingleValueCollection.cs:60-63 | back to not moved |
| SingleValueCollections.SingleEnumerator.Current | Smooth/Foundations/Collections/SingleValueCollection.cs:65 | the value when on it, `default` otherwise |
| SingleValueCollections.GetEnumerator | Smooth/Foundations/Collections/SingleValueCollection.cs:33-36 | a fresh enumerator over the value, not yet moved |
| SingleValueCollections.ForEachElement | Smooth/Foundations/Collections/SingleValueCollection.cs:38-68 | a foreach loop visits the value exactly once |
| SingleValueCollections.ResetAndEnumerate | Smooth/Foundations/Collections/SingleValueCollection.cs:60-63 | enumerating, resetting and enumerating again visits the value once each time |
| ListExtensions.GetByIndex | Smooth/Smooth.Foundations.Extensions/Collections/ListExtensions.cs:8-13 | None exactly outside `[0, Count)`, otherwise the element |
| ListExtensions.InsertOrAdd | Smooth/Smooth.Foundations.Extensions/Collections/ListExtensions.cs:15-21 | inserts at the index when it is inside the list, otherwise appends; the list grows by one, and removing the new element gives the old list |
| ListExtensions.GetByIndexAfterInsert | Smooth/Smooth.Foundations.Extensions/Collections/ListExtensions.cs:8-21 | after an insertion, GetByIndex finds the element at its index, earlier indices are unchanged and later ones moved by one |
| CollectionExtensions.WithItem | Smooth/Smooth.Foundations.Extensions/Collections/CollectionExtensions.cs:7-12 | adds the item and returns the same collection |
| CollectionExtensions.AddTo | Smooth/Smooth.Foundations.Extensions/Collections/CollectionExtensions.cs:14-19 | adds the item and returns the item |
| CollectionExtensions.WithItemAndAddToAgree | Smooth/Smooth.Foundations.Extensions/Collections/CollectionExtensions.cs:7-19 | both leave equal lists equal |
| DictionaryExtensions.GetOrDefault | Smooth/Smooth.Foundations.Extensions/Collections/DictionaryExtensions.cs:15-18 | the stored value, or `default` for a missing key |
| DictionaryExtensions.GetOr | Smooth/Smooth.Foundations.Extensions/Collections/DictionaryExtensions.cs:20-23 | the stored value, or the fall-back |
| DictionaryExtensions.GetOrWithFunc | Smooth/Smooth.Foundations.Extensions/Collections/DictionaryExtensions.cs:26-29 | the same; the function is called exactly for a missing key |
| DictionaryExtensions.GetOrAdd | Smooth/Smooth.Foundations.Extensions/Collections/DictionaryExtensions.cs:31-35 | a present key leaves the dictionary unchanged and gives its value; a missing key stores the fall-back and gives it |
| DictionaryExtensions.GetOrAddWithFunc | Smooth/Smooth.Foundations.Extensions/Collections/DictionaryExtensions.cs:38-44 | the same; the function runs exactly for a missing key |
| DictionaryExtensions.GetOrAddWithFuncParam | Smooth/Smooth.Foundations.Extensions/Collections/DictionaryExtensions.cs:46-53 | the same, with the parameter |
| DictionaryExtensions.TryGet | Smooth/Smooth.Foundations.Extensions/Collections/DictionaryExtensions.cs:60-63 | Some exactly for a present key, holding its value |
| DictionaryExtensions.TryGetOptionKey | Smooth/Smooth.Foundations.Extensions/Collections/DictionaryExtensions.cs:65-69 | None for a missing key option; otherwise TryGet of the key |
| DictionaryExtensions.LookupsAgree | Smooth/Smooth.Foundations.Extensions/Collections/DictionaryExtensions.cs:15-69 | GetOr is TryGet with a fall-back, GetOrDefault is GetOr with `default`, and the option-key TryGet agrees with TryGet |
| DictionaryExtensions.LeftMerge | Smooth/Smooth.Foundations.Extensions/Collections/DictionaryExtensions.cs:71-79 | every key of either side; the left value wins on a clash |
| DictionaryExtensions.LeftMergeLaws | Smooth/Smooth.Foundations.Extensions/Collections/DictionaryExtensions.cs:71-79 | the merge is idempotent, has the empty dictionary as identity on both sides, is associative, and merging the right side a second time changes nothing |
| DictionaryExtensions.LeftMergedWith | Smooth/Smooth.Foundations.Extensions/Collections/DictionaryExtensions.cs:71-79 | a fresh dictionary whose entries are the left merge of the two |
| DictionaryExtensions.GetValueOrError | Smooth/Smooth.Foundations.Extensions/Collections/DictionaryExtensions.cs:97-102 | a success exactly for a present key, holding its value; otherwise an error quoting the key |
| DictionaryExtensions.GetValueOrErrorAgreesWithTryGet | Smooth/Smooth.Foundations.Extensions/Collections/DictionaryExtensions.cs:60-102 | the Result and Option lookups carry the same information |
| DictionaryExtensions.SetKeyAndValue | Smooth/Smooth.Foundations.Extensions/Collections/DictionaryExtensions.cs:104-108 | stores or overwrites the key and returns the same dictionary |
| EnumerableExtensions.One | Smooth/Smooth.Foundations.Extensions/Collections/EnumerableExtensions.cs:13-16 | a one-element sequence of the object |
| EnumerableExtensions.ZipArgumentCheckAsWritten | Smooth/Smooth.Foundations.Extensions/Collections/EnumerableExtensions.cs:21-23 | passes exactly when all three arguments are non-null; a null first or second throws NullReferenceException with that argument's name |
| EnumerableExtensions.ZipNullSelectorNamesSecond | Smooth/Smooth.Foundations.Extensions/Collections/EnumerableExtensions.cs:23 | as written, a null result selector is reported as "second", indistinguishable from a null second sequence |
| EnumerableExtensions.ZipArgumentCheck | Smooth/Smooth.Foundations.Extensions/Collections/EnumerableExtensions.cs:21-23 | each null argument is reported under its own name |
| EnumerableExtensions.ZipArgumentCheckIdentifiesArgument | Smooth/Smooth.Foundations.Extensions/Collections/EnumerableExtensions.cs:21-23 | the corrected check's exception determines which argument was null |
| EnumerableExtensions.Zip | Smooth/Smooth.Foundations.Extensions/Collections/EnumerableExtensions.cs:18-29 | throws the exception of the argument check as written (a null selector is reported as "second"); returns exactly when all three arguments are non-null, and then the selector applied pairwise, as long as the shorter sequence |
| EnumerableExtensions.FirstMatch | Smooth/Smooth.Foundations.Extensions/Collections/EnumerableExtensions.cs:38 | the first index satisfying the predicate, or None when none does |
| EnumerableExtensions.FirstOrAsWritten | Smooth/Smooth.Foundations.Extensions/Collections/EnumerableExtensions.cs:36-42 | as written: the first match, unless it equals `default`, in which case the generator's value, as when nothing matches |
| EnumerableExtensions.FirstOrDropsDefaultMatch | Smooth/Smooth.Foundations.Extensions/Collections/EnumerableExtensions.cs:38-41 | on `[0, 5]` with predicate `x == 0`, the code as written returns the generator's 7 although 0 matched |
| EnumerableExtensions.FirstOr | Smooth/Smooth.Foundations.Extensions/Collections/EnumerableExtensions.cs:36-42 | corrected: the first match, or the generator's value when nothing matches; a match exists ==> the result satisfies the predicate |
| EnumerableExtensions.FirstOrAsWrittenVersusIntended | Smooth/Smooth.Foundations.Extensions/Collections/EnumerableExtensions.cs:36-42 | the two agree whenever the first match is not `default`, in particular when no element is `default` |
| EnumerableExtensions.KeysOf | Smooth/Smooth.Foundations.Extensions/Collections/EnumerableExtensions.cs:62-65 | the key of each element, in order |
| EnumerableExtensions.Distinct | Smooth/Smooth.Foundations.Extensions/Collections/EnumerableExtensions.cs:75-79 | the keys in first-seen order: the same set, without duplicates |
| EnumerableExtensions.DistinctOfDistinct | Smooth/Smooth.Foundations.Extensions/Collections/EnumerableExtensions.cs:75-79 | a duplicate-free sequence is its own Distinct |
| EnumerableExtensions.LastWith | Smooth/Smooth.Foundations.Extensions/Collections/EnumerableExtensions.cs:67-73 | an element with the key, present exactly when some element has that key (the last one, by `LastWithSnoc`) |
| EnumerableExtensions.LastWithSnoc | Smooth/Smooth.Foundations.Extensions/Collections/EnumerableExtensions.cs:67-73 | a later element with the key replaces the earlier one, as the indexer assignment in the right loop does |
| EnumerableExtensions.DistinctSnoc | Smooth/Smooth.Foundations.Extensions/Collections/EnumerableExtensions.cs:62-79 | a new key goes to the end of the insertion order, and a key already seen leaves it unchanged |
| EnumerableExtensions.DistinctPrefix | Smooth/Smooth.Foundations.Extensions/Collections/EnumerableExtensions.cs:62-79 | the insertion order of the left keys is a prefix of the order after the right keys are added |
| EnumerableExtensions.SelectOuterJoinValue | Smooth/Smooth.Foundations.Extensions/Collections/EnumerableExtensions.cs:86-95 | both sides join; one side alone goes through its selector; with neither, as written, the right selector of `default` |
| EnumerableExtensions.AddLeftEntries | Smooth/Smooth.Foundations.Extensions/Collections/EnumerableExtensions.cs:62-65 | throws the duplicate-key ArgumentException exactly when two left elements share a key; otherwise one (left, none) entry per left key, in order |
| EnumerableExtensions.StoreRightEntries | Smooth/Smooth.Foundations.Extensions/Collections/EnumerableExtensions.cs:67-73 | a right element fills in the right side of its key's entry, adding a new entry for a key the left lacks; a later right element overwrites |
| EnumerableExtensions.OuterJoin | Smooth/Smooth.Foundations.Extensions/Collections/EnumerableExtensions.cs:55-84 | throws exactly on duplicate left keys; otherwise one result per distinct key of left then right, in first-seen order, each from that key's last left and last right element |
| EnumerableExtensions.OuterJoinSameType | Smooth/Smooth.Foundations.Extensions/Collections/EnumerableExtensions.cs:49-53 | the same-type overload is OuterJoin with one key selector |
| EnumerableExtensions.OuterJoinKeys | Smooth/Smooth.Foundations.Extensions/Collections/EnumerableExtensions.cs:55-84 | a key appears in the output order exactly when it is a key of either side |
| EnumerableExtensions.OuterJoinOrderStartsWithLeft | Smooth/Smooth.Foundations.Extensions/Collections/EnumerableExtensions.cs:62-79 | with distinct left keys, the output starts with the left keys in left order |
| SlinqExtensions.ToArray | Smooth/Smooth.Foundations.Extensions/Collections/SlinqExtensions.cs:26-33 | a fresh array holding the elements, in order |
| SlinqExtensions.With | Smooth/Smooth.Foundations.Extensions/Collections/SlinqExtensions.cs:74-77 | the two items, in order |
| SlinqExtensions.WithItem | Smooth/Smooth.Foundations.Extensions/Collections/SlinqExtensions.cs:79-82 | the elements followed by the item |
| SlinqExtensions.WithLaws | Smooth/Smooth.Foundations.Extensions/Collections/SlinqExtensions.cs:74-82 | the two overloads agree, and chaining appends |
| SlinqExtensions.BatchesOf | Smooth/Smooth.Foundations.Extensions/Collections/SlinqExtensions.cs:53-71 | the aggregate gives at least one batch; with no elements, the single empty batch |
| SlinqExtensions.BatchesOfIsBatching | Smooth/Smooth.Foundations.Extensions/Collections/SlinqExtensions.cs:53-71 | the batches concatenate to the input; each holds at most `batchSize` items and every batch but the last exactly `batchSize`; none is empty unless the input is |
| SlinqExtensions.BatchingIsUnique | Smooth/Smooth.Foundations.Extensions/Collections/SlinqExtensions.cs:53-71 | those properties determine the batches: any batching is the one the aggregate builds |
| SlinqExtensions.ToBatches | Smooth/Smooth.Foundations.Extensions/Collections/SlinqExtensions.cs:48-72 | a non-positive size throws ArgumentOutOfRange with the message text given to its constructor (the parameter name is not kept); otherwise the batching of the elements |
| SlinqExtensions.ToDictionary | Smooth/Smooth.Foundations.Extensions/Collections/SlinqExtensions.cs:35-41 | throws the duplicate-key ArgumentException exactly when two elements share a key; otherwise a fresh dictionary mapping each element's key to its value |
| SlinqExtensions.ToDictionaryOfPairs | Smooth/Smooth.Foundations.Extensions/Collections/SlinqExtensions.cs:43-46 | the same, for (key, value) pairs |
| OptionPatternMatching.MatchedResult | Smooth/Foundations/PatternMatching/Options/FuncSelectorForOption.cs:55-66 | a result exactly when some guard holds, and then the first such rule's result: its option function, its value function on the value, or its constant |
| OptionPatternMatching.MatchedAfterAppend | Smooth/Foundations/PatternMatching/Options/FuncSelectorForOption.cs:22-66 | a rule added later answers only when no earlier rule matches |
| OptionPatternMatching.FuncSelectorForOption.constructor | Smooth/Foundations/PatternMatching/Options/FuncSelectorForOption.cs:17-20 | the default function and no rules |
| OptionPatternMatching.FuncSelectorForOption.AddPredicateAndOptionFunc | Smooth/Foundations/PatternMatching/Options/FuncSelectorForOption.cs:22-26 | appends one rule with an option function |
| OptionPatternMatching.FuncSelectorForOption.AddPredicateAndValueFunc | Smooth/Foundations/PatternMatching/Options/FuncSelectorForOption.cs:28-32 | appends one rule with a value function |
| OptionPatternMatching.FuncSelectorForOption.AddPredicateAndResult | Smooth/Foundations/PatternMatching/Options/FuncSelectorForOption.cs:34-38 | appends one rule with a constant |
| OptionPatternMatching.FuncSelectorForOption.GetMatchedOrProvidedResult | Smooth/Foundations/PatternMatching/Options/FuncSelectorForOption.cs:45-48 | the matched result, or the fall-back function of the item when no guard holds |
| OptionPatternMatching.FuncSelectorForOption.GetMatchedOrProvidedValue | Smooth/Foundations/PatternMatching/Options/FuncSelectorForOption.cs:50-53 | the matched result, or the given value |
| OptionPatternMatching.FuncSelectorForOption.GetMatchedOrDefaultResult | Smooth/Foundations/PatternMatching/Options/FuncSelectorForOption.cs:40-43 | the matched result, or the construction's default function |
| OptionPatternMatching.WhereForOptionResult.constructor | Smooth/Foundations/PatternMatching/Options/WhereForOptionResult.cs:12-19 | keeps the predicate, the rule list and the matcher |
| OptionPatternMatching.WhereForOptionResult.ReturnResult | Smooth/Foundations/PatternMatching/Options/WhereForOptionResult.cs:27-31 | appends one rule "Some and predicate" with the constant, returns the matcher |
| OptionPatternMatching.WhereForOptionResult.ReturnFunc | Smooth/Foundations/PatternMatching/Options/WhereForOptionResult.cs:33-37 | the same with a value function |
| OptionPatternMatching.WhereForOptionResult.DoResult | Smooth/Foundations/PatternMatching/Options/WhereForOptionResult.cs:22 | Do of a result is Return of it |
| OptionPatternMatching.WhereForOptionResult.DoFunc | Smooth/Foundations/PatternMatching/Options/WhereForOptionResult.cs:25 | Do of a function is Return of it |
| OptionPatternMatching.SomeMatcherResult.constructor | Smooth/Smooth.Foundations.PatternMatching/Options/SomeMatcherResult.cs:10-15 | keeps the matcher and the rule list |
| OptionPatternMatching.SomeMatcherResult.Where | Smooth/Smooth.Foundations.PatternMatching/Options/SomeMatcherResult.cs:19-20 | a fresh builder wired to the same rule list and matcher |
| OptionPatternMatching.SomeMatcherResult.DoFunc | Smooth/Smooth.Foundations.PatternMatching/Options/SomeMatcherResult.cs:22-26 | appends one rule "is Some" with the value function |
| OptionPatternMatching.SomeMatcherResult.DoResult | Smooth/Smooth.Foundations.PatternMatching/Options/SomeMatcherResult.cs:28-32 | appends one rule "is Some" with the constant |
| OptionPatternMatching.WhereRuleMatching | Smooth/Foundations/PatternMatching/Options/WhereForOptionResult.cs:27-37 | a Where rule never matches None; for a Some it answers exactly when the predicate holds (if no earlier rule matched) |
| OptionPatternMatching.SomeRuleMatching | Smooth/Smooth.Foundations.PatternMatching/Options/SomeMatcherResult.cs:22-32 | a Some rule answers every Some no earlier rule matched, and never None |
| ValueOrErrorPatternMatching.ActionRecorder.AddPredicateAndAction | Smooth/Foundations/PatternMatching/ValueOrError/Action/ValueMatcher.cs:12-21 | appends one (predicate, action) pair and leaves the other lists |
| ValueOrErrorPatternMatching.ActionRecorder.AddDefaultValueAction | Smooth/Foundations/PatternMatching/ValueOrError/Action/ValueMatcher.cs:12-21 | appends one default value action |
| ValueOrErrorPatternMatching.ActionRecorder.AddErrorAction | Smooth/Foundations/PatternMatching/ValueOrError/Action/ErrorMatcher.cs:9-15 | appends one error action |
| ValueOrErrorPatternMatching.ForwardAgrees | Smooth/Smooth.Foundations.PatternMatching/ValueOrError/Action/WhereForValue.cs:32 | the recorded closure answers as the predicate it forwards to |
| ValueOrErrorPatternMatching.WhereForValue.constructor | Smooth/Smooth.Foundations.PatternMatching/ValueOrError/Action/WhereForValue.cs:17-25 | keeps the predicate, the recorder, the matcher and the useless flag |
| ValueOrErrorPatternMatching.WhereForValue.Useless | Smooth/Smooth.Foundations.PatternMatching/ValueOrError/Action/WhereForValue.cs:12-15 | a useless builder with no predicate and no recorder |
| ValueOrErrorPatternMatching.WhereForValue.Do | Smooth/Smooth.Foundations.PatternMatching/ValueOrError/Action/WhereForValue.cs:27-35 | a useless builder records nothing; otherwise exactly one pair whose predicate agrees with the construction one; returns the matcher |
| ValueOrErrorPatternMatching.ValueMatcher.Where | Smooth/Foundations/PatternMatching/ValueOrError/Action/ValueMatcher.cs:23-26 | on an error, a useless builder; otherwise one wired to the recorder with the predicate |
| ValueOrErrorPatternMatching.ValueMatcher.With | Smooth/Foundations/PatternMatching/ValueOrError/Action/ValueMatcher.cs:28-29 | the handler is told "is a value" exactly when the matched one is not an error |
| ValueOrErrorPatternMatching.ValueMatcher.Do | Smooth/Foundations/PatternMatching/ValueOrError/Action/ValueMatcher.cs:31-35 | records the default value action once, error or not |
| ValueOrErrorPatternMatching.ErrorMatcher.Do | Smooth/Foundations/PatternMatching/ValueOrError/Action/ErrorMatcher.cs:17-24 | records the action once exactly when the matched one is an error; otherwise nothing changes |
| ValueOrErrorPatternMatching.FunctionRecorder.Record | Smooth/Smooth.Foundations.PatternMatching/ValueOrError/Function/WhereForValueOrError.cs:11-17 | appends one (condition, function) pair |
| ValueOrErrorPatternMatching.WhereForValueOrError.ReturnFunc | Smooth/Smooth.Foundations.PatternMatching/ValueOrError/Function/WhereForValueOrError.cs:19-23 | records the expression with the function once and returns the matcher |
| ValueOrErrorPatternMatching.WhereForValueOrError.ReturnValue | Smooth/Smooth.Foundations.PatternMatching/ValueOrError/Function/WhereForValueOrError.cs:25-29 | records the expression with a function that gives the value on every input |
| ComparerRegister.Color32ToWord | Smooth/Smooth.Foundations.Unity/ComparerRegister.cs:53-55 | red in bits 31-24, green in 23-16, blue in 15-8, alpha in 7-0 |
| ComparerRegister.PackThenUnpack | Smooth/Smooth.Foundations.Unity/ComparerRegister.cs:50-55 | packing loses no information: the bytes of the word are the colour |
| ComparerRegister.UnpackThenPack | Smooth/Smooth.Foundations.Unity/ComparerRegister.cs:50-55 | every 32-bit word is the packing of the colour its bytes spell |
| ComparerRegister.Color32ToInt | Smooth/Smooth.Foundations.Unity/ComparerRegister.cs:53-55 | the packed integer is negative exactly when red is at least 0x80 |
| ComparerRegister.Color32ToIntInjective | Smooth/Smooth.Foundations.Unity/ComparerRegister.cs:50-55 | distinct colours give distinct integers |
| ComparerRegister.Color32Equals | Smooth/Smooth.Foundations.Unity/ComparerRegister.cs:16 | the registered equality holds exactly when all four channels agree |
| ComparerRegister.Color32Hash | Smooth/Smooth.Foundations.Unity/ComparerRegister.cs:16 | the registered hash determines the colour |
| ComparerRegister.Color32ComparerLaws | Smooth/Smooth.Foundations.Unity/ComparerRegister.cs:16 | the registered equality is colour equality, and equal hashes hold exactly for equal colours |

## Left out

- Asynchronous overloads (`…Async`, the `Task<…>` versions of `Where`, `WhereKeepError`, `ForEach` and `ForEachOr`): these are awaits around the synchronous versions the model has, and the model has no tasks.
- `OptionExtensions.TryParseInt` / `TryParseHex` / `TryParseFloat` / `TryParseDouble`: these are .NET number parsing with cultures and floating point.
- Text rendering: `EnumerableExtensions.AsString`, `DictionaryExtensions.AsStringDictionary` / `AsString`, the `ToString` overrides, and the `ToString` of an error in `ResultErrorException.FromError`. The last is a parameter `show`.
- `EnumerableExtensions.ToHashSet`: the model has no hash sets.
- `DictionaryExtensions.TryGet` on `Disposable<Dictionary>`: the disposal wrapper is not part of this model. The plain `TryGet` is modelled.
- `SlinqExtensions.SlinqWithIndex` (both overloads): they build Slinq pipelines over pooled lists, and the Slinq engine is not part of this model.
- `SomeMatcherResult.Of`: `OfMatcherResult` is not part of this model.
- `ValueTupleExtensions.Call` (all six overloads, lines 89-117): this is an action invoked once with the components, as `PipeAndReturn` is, without a result.
- Concrete hash numbers: `GetHashCode` of Result, ResultEx and ResultGeneric is not modelled. The Union hash is a function of the element hashes, which are given as parameters.
- A stack trace is an input of `ContinueWith`, because .NET produces it.
- Logging: a wrong-case Union accessor returns the message it would log, and nothing else is logged. ComparerRegister's logger registration and the registration of the other Unity structs are left out.
- Delegates: the matchers' registration delegates are recorder objects, and the matcher types themselves (`ValueOrErrorMatcher`, `ResultOptionMatcher`, `TMatcher`) are an opaque type `M`.
- `FuncSelectorForOption` stores each rule's result as a `Union` of three kinds. The model stores only the active case.
- Pooled lists and dictionaries (`ListPool`, `DictionaryPool`) are fresh objects.
- Slinq's `AddTo` into a dictionary is `Dictionary.Add`, which throws on a duplicate key.
- ToBatches: the batches are values. The shared mutable `currentList` and the aliasing between the batch list and its batches are not modelled.
- Slice: the list behind a slice is a value, so changes made to the list after the slice is taken are not seen. A `default(Slice<T>)` with no list is not distinguished from `Empty`. `Either.cs` is not part of this model, so its default is unknown. If `default(Either)` is not a left, `Current` after `Dispose` reads index -1 of an item backing and throws IndexOutOfRange, where the model's `Empty` throws NullReference.
- Dictionary enumeration order is insertion order. It is used by OuterJoin, whose dictionary never loses a key.
- The .NET exception messages are modelled only where the source or the runtime fixes them (the duplicate key, the index out of range). The duplicate-key text is the .NET Framework one, "An item with the same key has already been added."; .NET Core, .NET 5+ and Mono builds on the corefx Dictionary append " Key: {key}", which is not modelled. Exceptions thrown by .NET `List` indexers are a kind without a message.
- `Then` callbacks are total functions. An exception thrown inside `Then` (not `ThenTry`) propagates in the source and is not modelled.
- Results.ResultExEquals: compares exceptions as values; the source compares them by reference.
- ValueOrErrorPatternMatching.WhereForValue.Do: requires a non-null recorder and predicate on a builder that is not useless. In the model, `ValueMatcher.Where` takes a non-null predicate (see the conventions), so every builder it makes meets this. The source accepts a null predicate there; `Do` then records `o => predicate(o)`, which throws NullReferenceException only when the rule is evaluated, and that case is not modelled.
- ResultExtensions.SpecifyError: `SpecifyError` is not among the modelled files. The model takes it to replace the text of an error.
- ComparerRegister.Color32ToInt: gives the 32 bits of the C# `int`, not its signed value. The sign is stated through bit 31.
- EnumerableExtensions.Zip: the argument checks happen at the call. In the source `Zip` is an iterator, so they run only on the first `MoveNext` of the result, and a result that is never enumerated never throws.
- SlinqExtensions.ToBatches: the exception carries the kind and the message text `"Can't be negative o zero."`. The .NET `ParamName` `batchSize` is dropped, and so is the " (Parameter 'batchSize')" suffix that .NET adds to `Message`.
- CollectionExtensions.WithItem, CollectionExtensions.AddTo, ListExtensions.InsertOrAdd: the source accepts any `ICollection<T>` or `IList<T>`; the model takes only a `List<T>`, where Add appends and Insert shifts. An array's NotSupportedException from `Add` / `Insert`, a `HashSet`'s set semantics and other collections are not modelled.
- Slices.ForEachElement: the exception that ends the loop is the last entry of the trace rather than propagating out of the method.
- Slices.Slice.At: every list backing is read through the `IList<T>` interface indexer. For a `List<T>` or an array, that indexer throws ArgumentOutOfRangeException out of range. Other `IList<T>` implementations, which may throw anything, are not modelled.
- EnumerableExtensions.SelectOuterJoinValue: the case with neither side present cannot arise from OuterJoin. It uses an explicit `zeroRight` for `default(TRight)`.

## Findings

| source | as written | input that shows it | evidently intended | confidence | as-written member | corrected member |
|---|---|---|---|---|---|---|
| Smooth/Foundations/Algebraics/Results/Result.cs:161-169 | when `this` is a success and `other` is an error, Equals compares the success value with `other`'s empty value slot, `default(TValue)` | `FromValue(0).Equals(FromError("failed"))` is true, while the reverse is false | a success never equals an error, and Equals is symmetric | not executed | ResultLaws.ResultEqualsAsymmetric | ResultLaws.ResultEqualsIntendedIsEquality |
| Smooth/Foundations/Algebraics/Results/ResultEx.cs:129-137 | the same comparison of a success value with an error's default slot | `FromValue(0)` against `FromError(exception)` is true, and the reverse is false | value equality | not executed | ResultLaws.ResultExEqualsAsymmetric | ResultLaws.ResultExEqualsIntendedIsEquality |
| Smooth/Foundations/Algebraics/Results/ResultGeneric.cs:162-170 | the same comparison of a success value with an error's default slot | `FromValue(0)` against `FromError(7)` is true, and the reverse is false | value equality | not executed | ResultLaws.ResultGenericEqualsAsymmetric | ResultLaws.ResultGenericEqualsIntendedIsEquality |
| Smooth/Smooth.Foundations.Extensions/Collections/EnumerableExtensions.cs:23 | a null `resultSelector` throws NullReferenceException with the message "second" | `Zip(a, b, null)` reports the same argument as `Zip(a, null, f)` | the message is "resultSelector" | not executed | EnumerableExtensions.ZipNullSelectorNamesSecond | EnumerableExtensions.ZipArgumentCheckIdentifiesArgument |
| Smooth/Smooth.Foundations.Extensions/Collections/EnumerableExtensions.cs:38-41 | `FirstOrDefault(predicate)` is compared with `default` to decide whether anything matched | `[0, 5].FirstOr(x => x == 0, () => 7)` returns 7 although 0 matched | a match is returned even when it equals `default`; `FirstOrAsWrittenVersusIntended` shows that the two agree whenever the first match is not `default` | not executed | EnumerableExtensions.FirstOrDropsDefaultMatch | EnumerableExtensions.FirstOr |
