/**
 * The registration builders of Smooth.Foundations.PatternMatching.ValueOrError.
 * The matcher hands each builder delegates that append to its rule lists; in
 * the model those delegates are one shared recorder object whose list fields
 * they extend. An `Action<T>` or `Action<string>` handed to a builder is only
 * stored, never run, so it is an opaque value of type `A` or `E`. The matcher
 * itself (`ValueOrErrorMatcher`, or the function matcher `TMatcher`) is not
 * part of this model: it is carried through as an opaque value of type `M`.
 */
module ValueOrErrorPatternMatching {
  import opened Algebraics

  /** The lists that the action matcher's registration delegates append to. */
  class ActionRecorder<!T, A, E> {
    var predicateActions: seq<(T -> bool, A)>
    var defaultValueActions: seq<A>
    var errorActions: seq<E>

    constructor()
      ensures predicateActions == [] && defaultValueActions == [] && errorActions == []
    {
      predicateActions := [];
      defaultValueActions := [];
      errorActions := [];
    }

    /** `addPredicateAndAction(predicate, action)`. */
    method AddPredicateAndAction(pred: T -> bool, action: A)
      modifies this
      ensures predicateActions == old(predicateActions) + [(pred, action)]
      ensures defaultValueActions == old(defaultValueActions) && errorActions == old(errorActions)
    {
      predicateActions := predicateActions + [(pred, action)];
    }

    /** `addDefaultValueAction(action)`. */
    method AddDefaultValueAction(action: A)
      modifies this
      ensures defaultValueActions == old(defaultValueActions) + [action]
      ensures predicateActions == old(predicateActions) && errorActions == old(errorActions)
    {
      defaultValueActions := defaultValueActions + [action];
    }

    /** `addAction(action)` of the error branch. */
    method AddErrorAction(action: E)
      modifies this
      ensures errorActions == old(errorActions) + [action]
      ensures predicateActions == old(predicateActions) && defaultValueActions == old(defaultValueActions)
    {
      errorActions := errorActions + [action];
    }
  }

  /** The closure `o => predicate(o)` that `WhereForValue.Do` records in place of the predicate. */
  function Forward<T>(pred: T -> bool): T -> bool
  {
    (o: T) => pred(o)
  }

  /** The recorded closure asks the construction predicate and answers what it answers. */
  lemma ForwardAgrees<T>(pred: T -> bool, x: T)
    ensures Forward(pred)(x) == pred(x)
  {
  }

  /**
   * `WhereForValue`: the builder after `Value().Where(predicate)`. A `Useless` builder, made for a
   * matcher on an error, has neither predicate nor recorder and records nothing.
   */
  class WhereForValue<!T, A, E, M> {
    const pred: Nullable<T -> bool>
    const recorder: ActionRecorder?<T, A, E>
    const matcher: M
    const isUseless: bool

    constructor(pred: Nullable<T -> bool>, recorder: ActionRecorder?<T, A, E>, matcher: M, isUseless: bool)
      ensures this.pred == pred && this.recorder == recorder && this.matcher == matcher && this.isUseless == isUseless
    {
      this.pred := pred;
      this.recorder := recorder;
      this.matcher := matcher;
      this.isUseless := isUseless;
    }

    /** `Useless(matcher)`: null predicate, null recorder, useless. */
    static method Useless(matcher: M) returns (w: WhereForValue<T, A, E, M>)
      ensures fresh(w) && w.isUseless && w.pred == Null && w.recorder == null && w.matcher == matcher
    {
      w := new WhereForValue(Null, null, matcher, true);
    }

    /**
     * `Do(action)`: a builder that is not useless records one (predicate, action) pair whose
     * predicate answers as the construction predicate on every input; a useless one records nothing.
     * Either way the matcher comes back.
     */
    method Do(action: A) returns (m: M)
      requires !isUseless ==> recorder != null && pred.NonNull?
      modifies recorder
      ensures m == matcher
      ensures isUseless && recorder != null ==> unchanged(recorder)
      ensures !isUseless ==>
                |recorder.predicateActions| == |old(recorder.predicateActions)| + 1 &&
                recorder.predicateActions[..|old(recorder.predicateActions)|] == old(recorder.predicateActions) &&
                recorder.predicateActions[|old(recorder.predicateActions)|].1 == action &&
                (forall x :: recorder.predicateActions[|old(recorder.predicateActions)|].0(x) == pred.value(x)) &&
                recorder.defaultValueActions == old(recorder.defaultValueActions) &&
                recorder.errorActions == old(recorder.errorActions)
    {
      if !isUseless {
        var p := pred.value;
        recorder.AddPredicateAndAction(Forward(p), action);
      }
      m := matcher;
    }
  }

  /** What `ValueMatcher.With(value)` builds: the value, the recorder, the matcher and whether the matched one is a value. */
  datatype WithForValueActionHandler<!T, A, E, M> =
    WithForValueActionHandler(value: T, recorder: ActionRecorder<T, A, E>, matcher: M, isValue: bool)

  /** `ValueMatcher`: the builder after `Value()` on a matcher that holds a value or an error. */
  class ValueMatcher<!T, A, E, M> {
    const matcher: M
    const recorder: ActionRecorder<T, A, E>
    const isError: bool

    constructor(matcher: M, recorder: ActionRecorder<T, A, E>, isError: bool)
      ensures this.matcher == matcher && this.recorder == recorder && this.isError == isError
    {
      this.matcher := matcher;
      this.recorder := recorder;
      this.isError := isError;
    }

    /** `Where`: on an error a `Useless` builder; otherwise one wired to the recorder with the predicate. */
    method Where(pred: T -> bool) returns (w: WhereForValue<T, A, E, M>)
      ensures fresh(w) && w.matcher == matcher
      ensures isError ==> w.isUseless && w.recorder == null && w.pred == Null
      ensures !isError ==> !w.isUseless && w.recorder == recorder && w.pred == NonNull(pred)
    {
      if isError {
        w := WhereForValue.Useless(matcher);
      } else {
        w := new WhereForValue(NonNull(pred), recorder, matcher, false);
      }
    }

    /** `With(value)`: the handler is told the matched one is a value exactly when it is not an error. */
    function With(value: T): (h: WithForValueActionHandler<T, A, E, M>)
      ensures h.isValue <==> !isError
      ensures h.value == value && h.recorder == recorder && h.matcher == matcher
    {
      WithForValueActionHandler(value, recorder, matcher, !isError)
    }

    /** `Do(action)`: records the default value action once, whether or not the matched one is an error. */
    method Do(action: A) returns (m: M)
      modifies recorder
      ensures m == matcher
      ensures recorder.defaultValueActions == old(recorder.defaultValueActions) + [action]
      ensures recorder.predicateActions == old(recorder.predicateActions) && recorder.errorActions == old(recorder.errorActions)
    {
      recorder.AddDefaultValueAction(action);
      m := matcher;
    }
  }

  /** `ErrorMatcher`: the builder after `Error()`. */
  class ErrorMatcher<!T, A, E, M> {
    const recorder: ActionRecorder<T, A, E>
    const matcher: M
    const isError: bool

    constructor(matcher: M, recorder: ActionRecorder<T, A, E>, isError: bool)
      ensures this.matcher == matcher && this.recorder == recorder && this.isError == isError
    {
      this.matcher := matcher;
      this.recorder := recorder;
      this.isError := isError;
    }

    /** `Do(action)`: records the action once when the matched one is an error, and does nothing otherwise. */
    method Do(action: E) returns (m: M)
      modifies recorder
      ensures m == matcher
      ensures isError ==> recorder.errorActions == old(recorder.errorActions) + [action] &&
                          recorder.predicateActions == old(recorder.predicateActions) &&
                          recorder.defaultValueActions == old(recorder.defaultValueActions)
      ensures !isError ==> unchanged(recorder)
    {
      if isError {
        recorder.AddErrorAction(action);
      }
      m := matcher;
    }
  }

  /** The list the function matcher's recorder delegate appends (condition, result function) pairs to. */
  class FunctionRecorder<!T1, TResult> {
    var rules: seq<(T1 -> bool, T1 -> TResult)>

    constructor()
      ensures rules == []
    {
      rules := [];
    }

    method Record(expression: T1 -> bool, func: T1 -> TResult)
      modifies this
      ensures rules == old(rules) + [(expression, func)]
    {
      rules := rules + [(expression, func)];
    }
  }

  /** The function that ignores its argument and gives `value`, as `x => value`. */
  function ConstantFunc<T1, TResult>(value: TResult): T1 -> TResult
  {
    (x: T1) => value
  }

  /** `WhereForValueOrError`: the builder after `Where(expression)` on a function matcher. */
  class WhereForValueOrError<M, !T1, TResult> {
    const expression: T1 -> bool
    const recorder: FunctionRecorder<T1, TResult>
    const matcher: M

    constructor(expression: T1 -> bool, recorder: FunctionRecorder<T1, TResult>, matcher: M)
      ensures this.expression == expression && this.recorder == recorder && this.matcher == matcher
    {
      this.expression := expression;
      this.recorder := recorder;
      this.matcher := matcher;
    }

    /** `Return(func)`: records the construction expression with the function, once. */
    method ReturnFunc(func: T1 -> TResult) returns (m: M)
      modifies recorder
      ensures m == matcher
      ensures recorder.rules == old(recorder.rules) + [(expression, func)]
    {
      recorder.Record(expression, func);
      m := matcher;
    }

    /** `Return(value)`: records the construction expression with a function that always gives `value`. */
    method ReturnValue(value: TResult) returns (m: M)
      modifies recorder
      ensures m == matcher
      ensures |recorder.rules| == |old(recorder.rules)| + 1
      ensures recorder.rules[..|old(recorder.rules)|] == old(recorder.rules)
      ensures recorder.rules[|old(recorder.rules)|].0 == expression
      ensures forall x :: recorder.rules[|old(recorder.rules)|].1(x) == value
    {
      recorder.Record(expression, ConstantFunc(value));
      m := matcher;
    }
  }
}
