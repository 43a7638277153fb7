/**
 * The function-matching rule table of Smooth.Foundations.PatternMatching.Options.
 * `FuncSelectorForOption` keeps the registered (guard, result provider) pairs
 * in order and answers with the first pair whose guard holds for the matched
 * option. The builders `SomeMatcherResult` and `WhereForOptionResult` register
 * pairs on the selector they share with the matcher and hand the matcher back.
 * The matcher (`ResultOptionMatcher`) is not part of this model: it is carried
 * through as an opaque value of type `M`.
 */
module OptionPatternMatching {
  import opened Algebraics
  import opened EnumerableExtensions

  /**
   * The union a pair stores as its result: a function of the option's value, a function of the
   * option, or a constant. It is always created in one case and read in that case.
   */
  datatype ResultProvider<!T, TResult> =
    | ValueFunc(valueFunc: T -> TResult)
    | OptionFunc(optionFunc: Option<T> -> TResult)
    | Constant(result: TResult)

  datatype Rule<!T, TResult> = Rule(guard: Option<T> -> bool, provider: ResultProvider<T, TResult>)

  /**
   * The result a provider gives for the matched option. A value function reads the option's
   * `value` slot, which holds `zero` (`default(T)`) when the option is None.
   */
  function Provide<T, TResult>(provider: ResultProvider<T, TResult>, item: Option<T>, zero: T): TResult
  {
    match provider
    case ValueFunc(f) => f(item.ValueOr(zero))
    case OptionFunc(g) => g(item)
    case Constant(r) => r
  }

  /** `GetMatchedResult`: the provider of the first rule whose guard holds, applied to the option. */
  function MatchedResult<T, TResult>(rules: seq<Rule<T, TResult>>, item: Option<T>, zero: T): (r: Option<TResult>)
    ensures r.Some? <==> exists i :: 0 <= i < |rules| && rules[i].guard(item)
    ensures r.Some? ==> exists i :: 0 <= i < |rules| && rules[i].guard(item) &&
                                    (forall j :: 0 <= j < i ==> !rules[j].guard(item)) &&
                                    r.value == Provide(rules[i].provider, item, zero)
  {
    match FirstMatch(rules, (rule: Rule<T, TResult>) => rule.guard(item))
    case Some(k) => Some(Provide(rules[k].provider, item, zero))
    case None => None
  }

  /**
   * Registration order decides: a rule added later only answers for options that no earlier rule
   * accepts.
   */
  lemma MatchedAfterAppend<T, TResult>(rules: seq<Rule<T, TResult>>, rule: Rule<T, TResult>, item: Option<T>, zero: T)
    ensures MatchedResult(rules + [rule], item, zero) ==
              if MatchedResult(rules, item, zero).Some? then MatchedResult(rules, item, zero)
              else if rule.guard(item) then Some(Provide(rule.provider, item, zero))
              else None
  {
    var all := rules + [rule];
    var accepts := (r: Rule<T, TResult>) => r.guard(item);
    assert forall j :: 0 <= j < |rules| ==> all[j] == rules[j];
    match FirstMatch(rules, accepts)
    case Some(k) =>
      var k' := FirstMatch(all, accepts);
      assert k'.Some?;
      assert !(k'.value < k) && !(k < k'.value);
    case None =>
      if rule.guard(item) {
        assert all[|rules|] == rule;
        var k' := FirstMatch(all, accepts);
        assert k'.Some? && !(k'.value < |rules|);
      }
  }

  /** The guard of a `Where(pred)` rule: the option is Some and its value satisfies the predicate. */
  function WhereGuard<T>(pred: T -> bool): Option<T> -> bool
  {
    (o: Option<T>) => o.Some? && pred(o.value)
  }

  /** The guard of a plain `Some` rule. */
  function SomeGuard<T>(): Option<T> -> bool
  {
    (o: Option<T>) => o.Some?
  }

  class FuncSelectorForOption<T, TResult> {
    const defaultFunc: Option<T> -> TResult
    var rules: seq<Rule<T, TResult>>

    constructor(defaultFunc: Option<T> -> TResult)
      ensures this.defaultFunc == defaultFunc && rules == []
    {
      this.defaultFunc := defaultFunc;
      rules := [];
    }

    /** Each registration appends one rule at the end and leaves the earlier ones as they were. */
    method AddPredicateAndOptionFunc(pred: Option<T> -> bool, func: Option<T> -> TResult)
      modifies this
      ensures rules == old(rules) + [Rule(pred, OptionFunc(func))]
    {
      rules := rules + [Rule(pred, OptionFunc(func))];
    }

    method AddPredicateAndValueFunc(pred: Option<T> -> bool, func: T -> TResult)
      modifies this
      ensures rules == old(rules) + [Rule(pred, ValueFunc(func))]
    {
      rules := rules + [Rule(pred, ValueFunc(func))];
    }

    method AddPredicateAndResult(pred: Option<T> -> bool, result: TResult)
      modifies this
      ensures rules == old(rules) + [Rule(pred, Constant(result))]
    {
      rules := rules + [Rule(pred, Constant(result))];
    }

    /** `GetMatchedOrProvidedResult(item, elseFunc)`: the matched result, else `elseFunc(item)`. */
    function GetMatchedOrProvidedResult(item: Option<T>, elseFunc: Option<T> -> TResult, zero: T): (r: TResult)
      reads this
      ensures (forall i :: 0 <= i < |rules| ==> !rules[i].guard(item)) ==> r == elseFunc(item)
      ensures MatchedResult(rules, item, zero).Some? ==> r == MatchedResult(rules, item, zero).value
    {
      MatchedResult(rules, item, zero).ValueOr(elseFunc(item))
    }

    /** `GetMatchedOrProvidedResult(item, result)`: the matched result, else the given result. */
    function GetMatchedOrProvidedValue(item: Option<T>, result: TResult, zero: T): (r: TResult)
      reads this
      ensures (forall i :: 0 <= i < |rules| ==> !rules[i].guard(item)) ==> r == result
      ensures MatchedResult(rules, item, zero).Some? ==> r == MatchedResult(rules, item, zero).value
    {
      MatchedResult(rules, item, zero).ValueOr(result)
    }

    /** `GetMatchedOrDefaultResult`: the matched result, else the default function of the selector. */
    function GetMatchedOrDefaultResult(item: Option<T>, zero: T): (r: TResult)
      reads this
      ensures (forall i :: 0 <= i < |rules| ==> !rules[i].guard(item)) ==> r == defaultFunc(item)
      ensures r == GetMatchedOrProvidedResult(item, defaultFunc, zero)
    {
      GetMatchedOrProvidedResult(item, defaultFunc, zero)
    }
  }

  /** The builder after `Some().Where(pred)`: its `Return` registers a guarded rule. */
  class WhereForOptionResult<T, TResult, M> {
    const pred: T -> bool
    const manager: FuncSelectorForOption<T, TResult>
    const matcher: M

    constructor(pred: T -> bool, manager: FuncSelectorForOption<T, TResult>, matcher: M)
      ensures this.pred == pred && this.manager == manager && this.matcher == matcher
    {
      this.pred := pred;
      this.manager := manager;
      this.matcher := matcher;
    }

    /** `Return(result)`: the constant answers for a Some whose value satisfies the predicate. */
    method ReturnResult(result: TResult) returns (m: M)
      modifies manager
      ensures m == matcher
      ensures manager.rules == old(manager.rules) + [Rule(WhereGuard(pred), Constant(result))]
    {
      manager.AddPredicateAndResult(WhereGuard(pred), result);
      m := matcher;
    }

    /** `Return(func)`: the value function answers for a Some whose value satisfies the predicate. */
    method ReturnFunc(func: T -> TResult) returns (m: M)
      modifies manager
      ensures m == matcher
      ensures manager.rules == old(manager.rules) + [Rule(WhereGuard(pred), ValueFunc(func))]
    {
      manager.AddPredicateAndValueFunc(WhereGuard(pred), func);
      m := matcher;
    }

    /** The obsolete `Do(result)` is `Return(result)`. */
    method DoResult(result: TResult) returns (m: M)
      modifies manager
      ensures m == matcher
      ensures manager.rules == old(manager.rules) + [Rule(WhereGuard(pred), Constant(result))]
    {
      m := ReturnResult(result);
    }

    /** The obsolete `Do(func)` is `Return(func)`. */
    method DoFunc(func: T -> TResult) returns (m: M)
      modifies manager
      ensures m == matcher
      ensures manager.rules == old(manager.rules) + [Rule(WhereGuard(pred), ValueFunc(func))]
    {
      m := ReturnFunc(func);
    }
  }

  /** The builder after `Some()`: `Do` registers a rule for every Some, `Where` narrows it first. */
  class SomeMatcherResult<T, TResult, M> {
    const matcher: M
    const manager: FuncSelectorForOption<T, TResult>

    constructor(matcher: M, manager: FuncSelectorForOption<T, TResult>)
      ensures this.matcher == matcher && this.manager == manager
    {
      this.matcher := matcher;
      this.manager := manager;
    }

    /** `Where` registers nothing: it builds a `WhereForOptionResult` on the same selector and matcher. */
    method Where(pred: T -> bool) returns (w: WhereForOptionResult<T, TResult, M>)
      ensures fresh(w) && w.pred == pred && w.manager == manager && w.matcher == matcher
    {
      w := new WhereForOptionResult(pred, manager, matcher);
    }

    method DoFunc(func: T -> TResult) returns (m: M)
      modifies manager
      ensures m == matcher
      ensures manager.rules == old(manager.rules) + [Rule(SomeGuard(), ValueFunc(func))]
    {
      manager.AddPredicateAndValueFunc(SomeGuard(), func);
      m := matcher;
    }

    method DoResult(result: TResult) returns (m: M)
      modifies manager
      ensures m == matcher
      ensures manager.rules == old(manager.rules) + [Rule(SomeGuard(), Constant(result))]
    {
      manager.AddPredicateAndResult(SomeGuard(), result);
      m := matcher;
    }
  }

  /**
   * What a registered `Where(pred).Return(...)` rule means for matching: it never accepts None
   * (so the predicate is never asked about a missing value), and on `Some(v)` it answers exactly
   * when no earlier rule does and `pred(v)` holds, with the constant or with `func(v)`.
   */
  lemma WhereRuleMatching<T, TResult>(rules: seq<Rule<T, TResult>>, pred: T -> bool, func: T -> TResult,
                                      result: TResult, v: T, zero: T)
    ensures !WhereGuard(pred)(None)
    ensures MatchedResult(rules + [Rule(WhereGuard(pred), Constant(result))], None, zero) == MatchedResult(rules, None, zero)
    ensures MatchedResult(rules, Some(v), zero).None? ==>
              MatchedResult(rules + [Rule(WhereGuard(pred), Constant(result))], Some(v), zero) ==
                (if pred(v) then Some(result) else None)
    ensures MatchedResult(rules, Some(v), zero).None? ==>
              MatchedResult(rules + [Rule(WhereGuard(pred), ValueFunc(func))], Some(v), zero) ==
                (if pred(v) then Some(func(v)) else None)
  {
    MatchedAfterAppend(rules, Rule(WhereGuard(pred), Constant(result)), None, zero);
    MatchedAfterAppend(rules, Rule(WhereGuard(pred), Constant(result)), Some(v), zero);
    MatchedAfterAppend(rules, Rule(WhereGuard(pred), ValueFunc(func)), Some(v), zero);
  }

  /**
   * A registered `Some().Do(...)` rule answers for every Some that no earlier rule takes, and
   * never for None.
   */
  lemma SomeRuleMatching<T, TResult>(rules: seq<Rule<T, TResult>>, func: T -> TResult, result: TResult, v: T, zero: T)
    ensures MatchedResult(rules, Some(v), zero).None? ==>
              MatchedResult(rules + [Rule(SomeGuard(), ValueFunc(func))], Some(v), zero) == Some(func(v)) &&
              MatchedResult(rules + [Rule(SomeGuard(), Constant(result))], Some(v), zero) == Some(result)
    ensures MatchedResult(rules + [Rule(SomeGuard(), Constant(result))], None, zero) == MatchedResult(rules, None, zero)
  {
    MatchedAfterAppend(rules, Rule(SomeGuard(), ValueFunc(func)), Some(v), zero);
    MatchedAfterAppend(rules, Rule(SomeGuard(), Constant(result)), Some(v), zero);
    MatchedAfterAppend(rules, Rule(SomeGuard(), Constant(result)), None, zero);
  }
}
