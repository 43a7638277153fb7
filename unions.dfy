/**
 * `Union<T1, T2, T3>` of Smooth.Algebraics: a struct holding a case tag and
 * three slots. The factories fill the slot of their case and put the default
 * value of its type into the other two, so the struct is modelled with all
 * three slots; `default(T)` of a slot is passed in as `zero1`/`zero2`/`zero3`.
 * The logger call of the wrong-case accessors is returned as a log.
 */
module Unions {
  import opened Algebraics

  datatype Variant = First | Second | Third

  const WrongCaseMessage := "Wrong case for union"

  datatype Union<T1, T2, T3> = Union(Case: Variant, value1: T1, value2: T2, value3: T3)
  {
    /** What the factories leave behind: every slot but the active one holds its type's default. */
    ghost predicate WellFormed(zero1: T1, zero2: T2, zero3: T3)
    {
      (Case != First ==> value1 == zero1) &&
      (Case != Second ==> value2 == zero2) &&
      (Case != Third ==> value3 == zero3)
    }

    /** The slot accessors never throw: on the wrong case they log an error and return the slot anyway. */
    function Case1(): (r: (T1, seq<string>))
      ensures r.0 == value1
      ensures r.1 == (if Case == First then [] else [WrongCaseMessage])
    {
      (value1, if Case != First then [WrongCaseMessage] else [])
    }

    function Case2(): (r: (T2, seq<string>))
      ensures r.0 == value2
      ensures r.1 == (if Case == Second then [] else [WrongCaseMessage])
    {
      (value2, if Case != Second then [WrongCaseMessage] else [])
    }

    function Case3(): (r: (T3, seq<string>))
      ensures r.0 == value3
      ensures r.1 == (if Case == Third then [] else [WrongCaseMessage])
    {
      (value3, if Case != Third then [WrongCaseMessage] else [])
    }

    function FirstOption(): (o: Option<T1>)
      ensures o.Some? <==> Case == First
      ensures o.Some? ==> o.value == Case1().0
    {
      if Case == First then Some(value1) else None
    }

    function SecondOption(): (o: Option<T2>)
      ensures o.Some? <==> Case == Second
      ensures o.Some? ==> o.value == Case2().0
    {
      if Case == Second then Some(value2) else None
    }

    function ThirdOption(): (o: Option<T3>)
      ensures o.Some? <==> Case == Third
      ensures o.Some? ==> o.value == Case3().0
    {
      if Case == Third then Some(value3) else None
    }

    /** `Cata(first, second, third)`: the function of the active case, applied to its slot. */
    function Cata<R>(first: T1 -> R, second: T2 -> R, third: T3 -> R): (r: R)
      ensures FirstOption().Some? ==> r == first(FirstOption().value)
      ensures SecondOption().Some? ==> r == second(SecondOption().value)
      ensures ThirdOption().Some? ==> r == third(ThirdOption().value)
    {
      match Case
      case First => first(value1)
      case Second => second(value2)
      case Third => third(value3)
    }

    function Cata1<R, P1>(first: (T1, P1) -> R, param1: P1, second: T2 -> R, third: T3 -> R): (r: R)
      ensures r == Cata((x: T1) => first(x, param1), second, third)
    {
      match Case
      case First => first(value1, param1)
      case Second => second(value2)
      case Third => third(value3)
    }

    function Cata2<R, P2>(first: T1 -> R, second: (T2, P2) -> R, param2: P2, third: T3 -> R): (r: R)
      ensures r == Cata(first, (x: T2) => second(x, param2), third)
    {
      match Case
      case First => first(value1)
      case Second => second(value2, param2)
      case Third => third(value3)
    }

    function Cata3<R, P3>(first: T1 -> R, second: T2 -> R, third: (T3, P3) -> R, param3: P3): (r: R)
      ensures r == Cata(first, second, (x: T3) => third(x, param3))
    {
      match Case
      case First => first(value1)
      case Second => second(value2)
      case Third => third(value3, param3)
    }

    function Cata12<R, P1, P2>(first: (T1, P1) -> R, param1: P1, second: (T2, P2) -> R, param2: P2, third: T3 -> R): (r: R)
      ensures r == Cata((x: T1) => first(x, param1), (x: T2) => second(x, param2), third)
    {
      match Case
      case First => first(value1, param1)
      case Second => second(value2, param2)
      case Third => third(value3)
    }

    function Cata23<R, P2, P3>(first: T1 -> R, second: (T2, P2) -> R, param2: P2, third: (T3, P3) -> R, param3: P3): (r: R)
      ensures r == Cata(first, (x: T2) => second(x, param2), (x: T3) => third(x, param3))
    {
      match Case
      case First => first(value1)
      case Second => second(value2, param2)
      case Third => third(value3, param3)
    }

    function Cata13<R, P1, P3>(first: (T1, P1) -> R, param1: P1, second: T2 -> R, third: (T3, P3) -> R, param3: P3): (r: R)
      ensures r == Cata((x: T1) => first(x, param1), second, (x: T3) => third(x, param3))
    {
      match Case
      case First => first(value1, param1)
      case Second => second(value2)
      case Third => third(value3, param3)
    }

    function Cata123<R, P1, P2, P3>(first: (T1, P1) -> R, param1: P1, second: (T2, P2) -> R, param2: P2,
                                    third: (T3, P3) -> R, param3: P3): (r: R)
      ensures r == Cata((x: T1) => first(x, param1), (x: T2) => second(x, param2), (x: T3) => third(x, param3))
    {
      match Case
      case First => first(value1, param1)
      case Second => second(value2, param2)
      case Third => third(value3, param3)
    }

    /**
     * `ForEach(first, second, third)`: exactly one action runs, the one of the active case; the
     * result is the trace of effects, one per action call.
     */
    function ForEach<E>(first: T1 -> E, second: T2 -> E, third: T3 -> E): (calls: seq<E>)
      ensures |calls| == 1
      ensures calls[0] == Cata(first, second, third)
    {
      match Case
      case First => [first(value1)]
      case Second => [second(value2)]
      case Third => [third(value3)]
    }

    function ForEach1<E, P1>(first: (T1, P1) -> E, param1: P1, second: T2 -> E, third: T3 -> E): (calls: seq<E>)
      ensures calls == ForEach((x: T1) => first(x, param1), second, third)
    {
      [Cata1(first, param1, second, third)]
    }

    function ForEach2<E, P2>(first: T1 -> E, second: (T2, P2) -> E, param2: P2, third: T3 -> E): (calls: seq<E>)
      ensures calls == ForEach(first, (x: T2) => second(x, param2), third)
    {
      [Cata2(first, second, param2, third)]
    }

    function ForEach3<E, P3>(first: T1 -> E, second: T2 -> E, third: (T3, P3) -> E, param3: P3): (calls: seq<E>)
      ensures calls == ForEach(first, second, (x: T3) => third(x, param3))
    {
      [Cata3(first, second, third, param3)]
    }

    function ForEach12<E, P1, P2>(first: (T1, P1) -> E, param1: P1, second: (T2, P2) -> E, param2: P2, third: T3 -> E): (calls: seq<E>)
      ensures calls == ForEach((x: T1) => first(x, param1), (x: T2) => second(x, param2), third)
    {
      [Cata12(first, param1, second, param2, third)]
    }

    function ForEach23<E, P2, P3>(first: T1 -> E, second: (T2, P2) -> E, param2: P2, third: (T3, P3) -> E, param3: P3): (calls: seq<E>)
      ensures calls == ForEach(first, (x: T2) => second(x, param2), (x: T3) => third(x, param3))
    {
      [Cata23(first, second, param2, third, param3)]
    }

    function ForEach13<E, P1, P3>(first: (T1, P1) -> E, param1: P1, second: T2 -> E, third: (T3, P3) -> E, param3: P3): (calls: seq<E>)
      ensures calls == ForEach((x: T1) => first(x, param1), second, (x: T3) => third(x, param3))
    {
      [Cata13(first, param1, second, third, param3)]
    }

    function ForEach123<E, P1, P2, P3>(first: (T1, P1) -> E, param1: P1, second: (T2, P2) -> E, param2: P2,
                                       third: (T3, P3) -> E, param3: P3): (calls: seq<E>)
      ensures calls == ForEach((x: T1) => first(x, param1), (x: T2) => second(x, param2), (x: T3) => third(x, param3))
    {
      [Cata123(first, param1, second, param2, third, param3)]
    }
  }

  function CreateFirst<T1, T2, T3>(value: T1, zero2: T2, zero3: T3): (u: Union<T1, T2, T3>)
    ensures u.FirstOption() == Some(value)
    ensures u.Case2() == (zero2, [WrongCaseMessage]) && u.Case3() == (zero3, [WrongCaseMessage])
  {
    Union(First, value, zero2, zero3)
  }

  function CreateSecond<T1, T2, T3>(value: T2, zero1: T1, zero3: T3): (u: Union<T1, T2, T3>)
    ensures u.SecondOption() == Some(value)
    ensures u.Case1() == (zero1, [WrongCaseMessage]) && u.Case3() == (zero3, [WrongCaseMessage])
  {
    Union(Second, zero1, value, zero3)
  }

  function CreateThird<T1, T2, T3>(value: T3, zero1: T1, zero2: T2): (u: Union<T1, T2, T3>)
    ensures u.ThirdOption() == Some(value)
    ensures u.Case1() == (zero1, [WrongCaseMessage]) && u.Case2() == (zero2, [WrongCaseMessage])
  {
    Union(Third, zero1, zero2, value)
  }

  /**
   * `a.Equals(b)`: different cases are never equal; with the same case only the active slots are
   * compared (with the default equality of their type).
   */
  function Equals<T1(==), T2(==), T3(==)>(a: Union<T1, T2, T3>, b: Union<T1, T2, T3>): (r: bool)
    ensures a.Case != b.Case ==> !r
    ensures r <==> a.FirstOption() == b.FirstOption() && a.SecondOption() == b.SecondOption()
                   && a.ThirdOption() == b.ThirdOption()
  {
    if a.Case != b.Case then false
    else match a.Case
      case First => a.value1 == b.Case1().0
      case Second => a.value2 == b.Case2().0
      case Third => a.value3 == b.Case3().0
  }

  /** `==` and `!=` delegate to Equals: they compare the case and the active slot. */
  function OpEquality<T1(==), T2(==), T3(==)>(lhs: Union<T1, T2, T3>, rhs: Union<T1, T2, T3>): (r: bool)
    ensures r == Equals(lhs, rhs)
    ensures r <==> lhs.FirstOption() == rhs.FirstOption() && lhs.SecondOption() == rhs.SecondOption()
                   && lhs.ThirdOption() == rhs.ThirdOption()
  {
    Equals(lhs, rhs)
  }

  function OpInequality<T1(==), T2(==), T3(==)>(lhs: Union<T1, T2, T3>, rhs: Union<T1, T2, T3>): (r: bool)
    ensures r == !Equals(lhs, rhs)
    ensures r <==> lhs.FirstOption() != rhs.FirstOption() || lhs.SecondOption() != rhs.SecondOption()
                   || lhs.ThirdOption() != rhs.ThirdOption()
  {
    !OpEquality(lhs, rhs)
  }

  /**
   * `GetHashCode()`: the hash of the active slot. The element hash functions of the three types are
   * parameters; only their consistency with equality matters here.
   */
  function GetHashCode<T1, T2, T3>(u: Union<T1, T2, T3>, hash1: T1 -> int, hash2: T2 -> int, hash3: T3 -> int): (h: int)
    ensures u.FirstOption().Some? ==> h == hash1(u.FirstOption().value)
    ensures u.SecondOption().Some? ==> h == hash2(u.SecondOption().value)
    ensures u.ThirdOption().Some? ==> h == hash3(u.ThirdOption().value)
  {
    match u.Case
    case First => hash1(u.value1)
    case Second => hash2(u.value2)
    case Third => hash3(u.value3)
  }

  /** A wrong-case accessor on a union built by a factory logs and returns the default value. */
  lemma WrongCaseReturnsDefault<T1, T2, T3>(u: Union<T1, T2, T3>, zero1: T1, zero2: T2, zero3: T3)
    requires u.WellFormed(zero1, zero2, zero3)
    ensures u.Case != First ==> u.Case1() == (zero1, [WrongCaseMessage])
    ensures u.Case != Second ==> u.Case2() == (zero2, [WrongCaseMessage])
    ensures u.Case != Third ==> u.Case3() == (zero3, [WrongCaseMessage])
    ensures u.Case == First ==> u.Case1().1 == []
  {
  }

  /** Exactly one of the three option projections is Some. */
  lemma ExactlyOneOption<T1, T2, T3>(u: Union<T1, T2, T3>)
    ensures (if u.FirstOption().Some? then 1 else 0) + (if u.SecondOption().Some? then 1 else 0)
            + (if u.ThirdOption().Some? then 1 else 0) == 1
  {
  }

  /**
   * In every parameter overload of Cata, a parameter reaches only its own branch: each overload is
   * the plain Cata with the parameter bound into its own function.
   */
  lemma CataOverloads<T1, T2, T3, R, P1, P2, P3>(u: Union<T1, T2, T3>,
                                                 f1: T1 -> R, g1: (T1, P1) -> R, p1: P1,
                                                 f2: T2 -> R, g2: (T2, P2) -> R, p2: P2,
                                                 f3: T3 -> R, g3: (T3, P3) -> R, p3: P3)
    ensures u.Cata1(g1, p1, f2, f3) == u.Cata(x => g1(x, p1), f2, f3)
    ensures u.Cata2(f1, g2, p2, f3) == u.Cata(f1, x => g2(x, p2), f3)
    ensures u.Cata3(f1, f2, g3, p3) == u.Cata(f1, f2, x => g3(x, p3))
    ensures u.Cata12(g1, p1, g2, p2, f3) == u.Cata(x => g1(x, p1), x => g2(x, p2), f3)
    ensures u.Cata23(f1, g2, p2, g3, p3) == u.Cata(f1, x => g2(x, p2), x => g3(x, p3))
    ensures u.Cata13(g1, p1, f2, g3, p3) == u.Cata(x => g1(x, p1), f2, x => g3(x, p3))
    ensures u.Cata123(g1, p1, g2, p2, g3, p3) == u.Cata(x => g1(x, p1), x => g2(x, p2), x => g3(x, p3))
  {
  }

  /** Every ForEach overload runs exactly one action: the one the matching Cata overload selects. */
  lemma ForEachOverloads<T1, T2, T3, E, P1, P2, P3>(u: Union<T1, T2, T3>,
                                                    f1: T1 -> E, g1: (T1, P1) -> E, p1: P1,
                                                    f2: T2 -> E, g2: (T2, P2) -> E, p2: P2,
                                                    f3: T3 -> E, g3: (T3, P3) -> E, p3: P3)
    ensures u.ForEach1(g1, p1, f2, f3) == u.ForEach(x => g1(x, p1), f2, f3)
    ensures u.ForEach2(f1, g2, p2, f3) == u.ForEach(f1, x => g2(x, p2), f3)
    ensures u.ForEach3(f1, f2, g3, p3) == u.ForEach(f1, f2, x => g3(x, p3))
    ensures u.ForEach12(g1, p1, g2, p2, f3) == u.ForEach(x => g1(x, p1), x => g2(x, p2), f3)
    ensures u.ForEach23(f1, g2, p2, g3, p3) == u.ForEach(f1, x => g2(x, p2), x => g3(x, p3))
    ensures u.ForEach13(g1, p1, f2, g3, p3) == u.ForEach(x => g1(x, p1), f2, x => g3(x, p3))
    ensures u.ForEach123(g1, p1, g2, p2, g3, p3) == u.ForEach(x => g1(x, p1), x => g2(x, p2), x => g3(x, p3))
  {
  }

  /**
   * Equals is an equivalence, `==` agrees with it and `!=` negates it; on unions built by the
   * factories (same defaults) it is exactly structural equality.
   */
  lemma EqualsLaws<T1, T2, T3>(a: Union<T1, T2, T3>, b: Union<T1, T2, T3>, c: Union<T1, T2, T3>,
                                           zero1: T1, zero2: T2, zero3: T3)
    ensures Equals(a, a)
    ensures Equals(a, b) == Equals(b, a)
    ensures Equals(a, b) && Equals(b, c) ==> Equals(a, c)
    ensures OpEquality(a, b) == Equals(a, b) && OpInequality(a, b) == !Equals(a, b)
    ensures a.WellFormed(zero1, zero2, zero3) && b.WellFormed(zero1, zero2, zero3) ==> (Equals(a, b) <==> a == b)
  {
  }

  /** Equal unions hash equally, whatever the element hashes are. */
  lemma EqualsImpliesSameHash<T1, T2, T3>(a: Union<T1, T2, T3>, b: Union<T1, T2, T3>,
                                                      hash1: T1 -> int, hash2: T2 -> int, hash3: T3 -> int)
    requires Equals(a, b)
    ensures GetHashCode(a, hash1, hash2, hash3) == GetHashCode(b, hash1, hash2, hash3)
  {
  }
}
