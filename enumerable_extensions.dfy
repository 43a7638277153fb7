/**
 * EnumerableExtensions: a one-element sequence, zipping, a first match with a
 * generated fall-back, and a full outer join by key. Enumerables are finite
 * sequences; a possibly-null argument is a `Nullable`. `zero` stands for
 * `default(T)`.
 */
module EnumerableExtensions {
  import opened Algebraics
  import opened ValueTupleExtensions
  import Containers

  /** `obj.One()`: the sequence holding just `obj`. */
  function One<T>(obj: T): (s: seq<T>)
    ensures |s| == 1 && s[0] == obj
  {
    [obj]
  }

  // ---------------------------------------------------------------- Zip

  /**
   * The argument check of `Zip` as written: a null argument throws a NullReferenceException whose
   * message is the argument's name, but a null `resultSelector` reports the name "second".
   */
  function ZipArgumentCheckAsWritten<T1, T2, R>(first: Nullable<seq<T1>>, second: Nullable<seq<T2>>,
                                               resultSelector: Nullable<(T1, T2) -> R>): (r: Option<Exception>)
    ensures r.None? <==> first.NonNull? && second.NonNull? && resultSelector.NonNull?
    ensures first.Null? ==> r == Some(Exception(NullReference, "first"))
    ensures first.NonNull? && second.Null? ==> r == Some(Exception(NullReference, "second"))
  {
    if first.Null? then Some(Exception(NullReference, "first"))
    else if second.Null? then Some(Exception(NullReference, "second"))
    else if resultSelector.Null? then Some(Exception(NullReference, "second"))
    else None
  }

  /** A null selector and a null second sequence cannot be told apart by the exception. */
  lemma ZipNullSelectorNamesSecond(a: seq<int>, b: seq<int>, f: (int, int) -> int)
    ensures ZipArgumentCheckAsWritten<int, int, int>(NonNull(a), NonNull(b), Null) == ZipArgumentCheckAsWritten(NonNull(a), Null, NonNull(f))
    ensures ZipArgumentCheckAsWritten<int, int, int>(NonNull(a), NonNull(b), Null) == Some(Exception(NullReference, "second"))
  {
  }

  /** The argument check as intended: the exception names the first null argument. */
  function ZipArgumentCheck<T1, T2, R>(first: Nullable<seq<T1>>, second: Nullable<seq<T2>>,
                                      resultSelector: Nullable<(T1, T2) -> R>): (r: Option<Exception>)
    ensures r.None? <==> first.NonNull? && second.NonNull? && resultSelector.NonNull?
    ensures first.Null? ==> r == Some(Exception(NullReference, "first"))
    ensures first.NonNull? && second.Null? ==> r == Some(Exception(NullReference, "second"))
    ensures first.NonNull? && second.NonNull? && resultSelector.Null? ==> r == Some(Exception(NullReference, "resultSelector"))
  {
    if first.Null? then Some(Exception(NullReference, "first"))
    else if second.Null? then Some(Exception(NullReference, "second"))
    else if resultSelector.Null? then Some(Exception(NullReference, "resultSelector"))
    else None
  }

  /** With the intended check, the message tells which argument was null. */
  lemma ZipArgumentCheckIdentifiesArgument<T1, T2, R>(a1: Nullable<seq<T1>>, b1: Nullable<seq<T2>>, f1: Nullable<(T1, T2) -> R>,
                                                      a2: Nullable<seq<T1>>, b2: Nullable<seq<T2>>, f2: Nullable<(T1, T2) -> R>)
    requires ZipArgumentCheck(a1, b1, f1).Some? && ZipArgumentCheck(a1, b1, f1) == ZipArgumentCheck(a2, b2, f2)
    ensures a1.Null? <==> a2.Null?
    ensures a1.NonNull? ==> (b1.Null? <==> b2.Null?)
    ensures a1.NonNull? && b1.NonNull? ==> f1.Null? && f2.Null?
  {
  }

  /**
   * `first.Zip(second, resultSelector)`: after the argument check as written, both sequences are
   * walked together while both have an element; the result has one element per common position.
   */
  method Zip<T1, T2, R>(first: Nullable<seq<T1>>, second: Nullable<seq<T2>>, resultSelector: Nullable<(T1, T2) -> R>)
    returns (r: Outcome<seq<R>>)
    ensures ZipArgumentCheckAsWritten(first, second, resultSelector).Some? ==> r == Threw(ZipArgumentCheckAsWritten(first, second, resultSelector).value)
    ensures first.NonNull? && second.NonNull? && resultSelector.Null? ==> r == Threw(Exception(NullReference, "second"))
    ensures r.Returned? <==> first.NonNull? && second.NonNull? && resultSelector.NonNull?
    ensures r.Returned? ==> |r.value| == (if |first.value| < |second.value| then |first.value| else |second.value|)
    ensures r.Returned? ==> forall i :: 0 <= i < |r.value| ==> r.value[i] == resultSelector.value(first.value[i], second.value[i])
  {
    var check := ZipArgumentCheckAsWritten(first, second, resultSelector);
    if check.Some? {
      return Threw(check.value);
    }
    var a, b, f := first.value, second.value, resultSelector.value;
    var zipped: seq<R> := [];
    var i := 0;
    while i < |a| && i < |b|
      invariant 0 <= i <= |a| && i <= |b|
      invariant |zipped| == i
      invariant forall j :: 0 <= j < i ==> zipped[j] == f(a[j], b[j])
    {
      zipped := zipped + [f(a[i], b[i])];
      i := i + 1;
    }
    r := Returned(zipped);
  }

  // ------------------------------------------------------------ FirstOr

  /** The earliest element satisfying the predicate, if any. */
  function FirstMatch<T>(s: seq<T>, pred: T -> bool): (r: Option<nat>)
    ensures r.Some? ==> r.value < |s| && pred(s[r.value]) && forall j :: 0 <= j < r.value ==> !pred(s[j])
    ensures r.None? ==> forall j :: 0 <= j < |s| ==> !pred(s[j])
    decreases |s|
  {
    if |s| == 0 then None
    else if pred(s[0]) then Some(0)
    else match FirstMatch(s[1..], pred)
      case None => None
      case Some(k) => Some(k + 1)
  }

  /** Slinq's `FirstOrDefault(predicate)`: the first match, or `default(T)`. */
  function FirstOrDefault<T>(s: seq<T>, pred: T -> bool, zero: T): T
  {
    match FirstMatch(s, pred)
    case Some(k) => s[k]
    case None => zero
  }

  /**
   * `FirstOr(predicate, generator)` as written: the first match, unless it equals `default(T)`, in
   * which case (as when nothing matches) the generator's value is returned.
   */
  function FirstOrAsWritten<T(==)>(s: seq<T>, pred: T -> bool, generator: () -> T, zero: T): (r: T)
    ensures FirstMatch(s, pred).Some? && s[FirstMatch(s, pred).value] != zero ==> r == s[FirstMatch(s, pred).value]
    ensures FirstMatch(s, pred).None? ==> r == generator()
    ensures FirstMatch(s, pred).Some? && s[FirstMatch(s, pred).value] == zero ==> r == generator()
  {
    var firstOrDefault := FirstOrDefault(s, pred, zero);
    if firstOrDefault == zero then generator() else firstOrDefault
  }

  /** A match that happens to be the default value is replaced by the generator's value. */
  lemma FirstOrDropsDefaultMatch()
    ensures FirstOrAsWritten([0, 5], x => x == 0, () => 7, 0) == 7
    ensures FirstOr([0, 5], x => x == 0, () => 7) == 0
  {
  }

  /** `FirstOr(predicate, generator)` as intended: the first match, or the generator's value when none. */
  function FirstOr<T>(s: seq<T>, pred: T -> bool, generator: () -> T): (r: T)
    ensures FirstMatch(s, pred).Some? ==> r == s[FirstMatch(s, pred).value]
    ensures FirstMatch(s, pred).None? ==> r == generator()
    ensures (exists j :: 0 <= j < |s| && pred(s[j])) ==> pred(r)
  {
    match FirstMatch(s, pred)
    case Some(k) => s[k]
    case None => generator()
  }

  /** The two agree everywhere except on a first match equal to the default value. */
  lemma FirstOrAsWrittenVersusIntended<T>(s: seq<T>, pred: T -> bool, generator: () -> T, zero: T)
    ensures FirstOrDefault(s, pred, zero) != zero ==> FirstOrAsWritten(s, pred, generator, zero) == FirstOr(s, pred, generator)
    ensures (forall j :: 0 <= j < |s| ==> s[j] != zero) ==> FirstOrAsWritten(s, pred, generator, zero) == FirstOr(s, pred, generator)
  {
  }

  // ---------------------------------------------------------- OuterJoin

  /** The key of every element, in order. */
  function KeysOf<T, K>(s: seq<T>, key: T -> K): (ks: seq<K>)
    ensures |ks| == |s| && forall i :: 0 <= i < |s| ==> ks[i] == key(s[i])
  {
    seq(|s|, i requires 0 <= i < |s| => key(s[i]))
  }

  ghost predicate NoDuplicates<K>(ks: seq<K>)
  {
    forall p, q :: 0 <= p < q < |ks| ==> ks[p] != ks[q]
  }

  /** The keys in order of first occurrence, each once. */
  function Distinct<K(==)>(ks: seq<K>): (d: seq<K>)
    ensures forall i :: 0 <= i < |d| ==> d[i] in ks
    ensures forall i :: 0 <= i < |ks| ==> ks[i] in d
    ensures NoDuplicates(d)
    decreases |ks|
  {
    if |ks| == 0 then []
    else
      var rest := Distinct(ks[..|ks| - 1]);
      var last := ks[|ks| - 1];
      if last in rest then rest else rest + [last]
  }

  /** Distinct leaves a list of distinct keys as it is. */
  lemma {:induction false} DistinctOfDistinct<K>(ks: seq<K>)
    requires NoDuplicates(ks)
    ensures Distinct(ks) == ks
    decreases |ks|
  {
    if |ks| > 0 {
      var init := ks[..|ks| - 1];
      assert NoDuplicates(init);
      DistinctOfDistinct(init);
      assert ks[|ks| - 1] !in init;
      assert init + [ks[|ks| - 1]] == ks;
    }
  }

  /** The last element with the given key, if any. */
  function LastWith<T, K(==)>(s: seq<T>, key: T -> K, k: K): (r: Option<T>)
    ensures r.Some? <==> k in KeysOf(s, key)
    ensures r.Some? ==> key(r.value) == k
    decreases |s|
  {
    if |s| == 0 then None
    else if key(s[|s| - 1]) == k then Some(s[|s| - 1])
    else
      assert KeysOf(s, key) == KeysOf(s[..|s| - 1], key) + [key(s[|s| - 1])];
      LastWith(s[..|s| - 1], key, k)
  }

  /** Distinct of a sequence grown by one key. */
  lemma DistinctSnoc<K>(ks: seq<K>, x: K)
    ensures Distinct(ks + [x]) == if x in Distinct(ks) then Distinct(ks) else Distinct(ks) + [x]
  {
    assert (ks + [x])[..|ks|] == ks;
  }

  /** LastWith of a sequence grown by one element. */
  lemma LastWithSnoc<T, K>(s: seq<T>, key: T -> K, x: T, k: K)
    ensures LastWith(s + [x], key, k) == if key(x) == k then Some(x) else LastWith(s, key, k)
  {
    assert (s + [x])[..|s|] == s;
  }

  /** The value an outer-join entry stands for; None only for an entry that has neither side. */
  function Joined<L, R, TResult>(joinSelector: (L, R) -> TResult, leftSelector: L -> TResult, rightSelector: R -> TResult,
                                 left: Option<L>, right: Option<R>): Option<TResult>
  {
    if left.Some? && right.Some? then Some(joinSelector(left.value, right.value))
    else if left.Some? then Some(leftSelector(left.value))
    else if right.Some? then Some(rightSelector(right.value))
    else None
  }

  /** The `value` slot of an option, which holds `default(T)` when it is None. */
  function ValueOrDefault<T>(o: Option<T>, zero: T): T
  {
    if o.Some? then o.value else zero
  }

  /**
   * `SelectOuterJoinValue`: the join selector when both sides are there, otherwise the left
   * selector when the left is there, otherwise the right selector on the right's value slot.
   */
  function SelectOuterJoinValue<L, R, TResult>(joinSelector: (L, R) -> TResult, leftSelector: L -> TResult,
                                               rightSelector: R -> TResult, leftAndRight: (Option<L>, Option<R>),
                                               zeroRight: R): (r: TResult)
    ensures leftAndRight.0.Some? || leftAndRight.1.Some? ==>
              Some(r) == Joined(joinSelector, leftSelector, rightSelector, leftAndRight.0, leftAndRight.1)
    ensures leftAndRight.0.None? && leftAndRight.1.None? ==> r == rightSelector(zeroRight)
  {
    var both := Strict2(leftAndRight).Select((lAndR: (L, R)) => joinSelector(lAndR.0, lAndR.1));
    if both.Some? then both.value
    else if leftAndRight.0.Some? then leftSelector(leftAndRight.0.value)
    else rightSelector(ValueOrDefault(leftAndRight.1, zeroRight))
  }

  /** An outer-join dictionary: its keys in enumeration order, and the entry of each key. */
  type JoinTable<K(==), L, R> = (seq<K>, map<K, (Option<L>, Option<R>)>)

  /** The dictionary after the first `i` left elements were added without a clash. */
  ghost predicate LeftState<L, R, K(!new)>(ls: seq<L>, leftKey: L -> K, i: nat, t: JoinTable<K, L, R>)
  {
    i <= |ls| &&
    t.0 == Distinct(KeysOf(ls[..i], leftKey)) && NoDuplicates(KeysOf(ls[..i], leftKey)) &&
    (forall k :: k in t.1 <==> k in t.0) &&
    (forall k :: k in t.1 ==> t.1[k] == (LastWith(ls[..i], leftKey, k), None))
  }

  /** The dictionary after all left elements and the first `j` right elements were stored. */
  ghost predicate RightState<L, R, K(!new)>(ls: seq<L>, leftKey: L -> K, rs: seq<R>, rightKey: R -> K, j: nat,
                                               t: JoinTable<K, L, R>)
  {
    j <= |rs| &&
    t.0 == Distinct(KeysOf(ls, leftKey) + KeysOf(rs[..j], rightKey)) &&
    (forall k :: k in t.1 <==> k in t.0) &&
    (forall k :: k in t.1 ==> t.1[k] == (LastWith(ls, leftKey, k), LastWith(rs[..j], rightKey, k)))
  }

  lemma LeftStepAdds<L, R, K(!new)>(ls: seq<L>, leftKey: L -> K, i: nat, t: JoinTable<K, L, R>)
    requires LeftState(ls, leftKey, i, t) && i < |ls| && leftKey(ls[i]) !in t.1
    ensures LeftState(ls, leftKey, i + 1, (t.0 + [leftKey(ls[i])], t.1[leftKey(ls[i]) := (Some(ls[i]), None)]))
  {
    var key := leftKey(ls[i]);
    assert key !in t.0;
    KeysOfStep(ls, leftKey, i);
    OrderStep(KeysOf(ls[..i], leftKey), t.0, key);
    LeftEntriesStep(ls, leftKey, i, t.1, t.1[key := (Some(ls[i]), None)]);
  }

  /** The keys of a prefix grown by one element. */
  lemma KeysOfStep<T, K>(s: seq<T>, key: T -> K, i: nat)
    requires i < |s|
    ensures KeysOf(s[..i + 1], key) == KeysOf(s[..i], key) + [key(s[i])]
  {
  }

  /** Appending a key not seen before keeps the order the distinct keys of the longer list. */
  lemma OrderStep<K>(ks: seq<K>, order: seq<K>, x: K)
    requires order == Distinct(ks) && NoDuplicates(ks) && x !in order
    ensures order + [x] == Distinct(ks + [x]) && NoDuplicates(ks + [x])
  {
    DistinctSnoc(ks, x);
    assert x !in ks;
  }

  lemma LeftEntriesStep<L, R, K(!new)>(ls: seq<L>, leftKey: L -> K, i: nat, table: map<K, (Option<L>, Option<R>)>,
                                       table': map<K, (Option<L>, Option<R>)>)
    requires i < |ls| && forall k :: k in table ==> table[k] == (LastWith(ls[..i], leftKey, k), None)
    requires table' == table[leftKey(ls[i]) := (Some(ls[i]), None)]
    ensures forall k :: k in table' ==> table'[k] == (LastWith(ls[..i + 1], leftKey, k), None)
  {
    var key := leftKey(ls[i]);
    assert ls[..i + 1] == ls[..i] + [ls[i]];
    forall k | k in table'
      ensures LastWith(ls[..i + 1], leftKey, k) == if k == key then Some(ls[i]) else LastWith(ls[..i], leftKey, k)
    {
      LastWithSnoc(ls[..i], leftKey, ls[i], k);
    }
  }

  lemma LeftStepClashes<L, R, K(!new)>(ls: seq<L>, leftKey: L -> K, i: nat, t: JoinTable<K, L, R>)
    requires LeftState(ls, leftKey, i, t) && i < |ls| && leftKey(ls[i]) in t.1
    ensures !NoDuplicates(KeysOf(ls, leftKey))
  {
    var lk := KeysOf(ls[..i], leftKey);
    var j :| 0 <= j < |lk| && lk[j] == leftKey(ls[i]);
    assert KeysOf(ls, leftKey)[j] == KeysOf(ls, leftKey)[i];
  }

  /** A right element whose key already has an entry overwrites the right side of that entry. */
  lemma RightStepUpdates<L, R, K(!new)>(ls: seq<L>, leftKey: L -> K, rs: seq<R>, rightKey: R -> K, j: nat,
                                        t: JoinTable<K, L, R>)
    requires RightState(ls, leftKey, rs, rightKey, j, t) && j < |rs| && rightKey(rs[j]) in t.1
    ensures RightState(ls, leftKey, rs, rightKey, j + 1,
                       (t.0, t.1[rightKey(rs[j]) := (t.1[rightKey(rs[j])].0, Some(rs[j]))]))
  {
    var key := rightKey(rs[j]);
    RightOrderStep(ls, leftKey, rs, rightKey, j, t.0);
    RightEntriesStep(ls, leftKey, rs, rightKey, j, t.1, t.1[key := (t.1[key].0, Some(rs[j]))]);
  }

  /** A right element with a new key adds an entry with no left side at the end of the order. */
  lemma RightStepAdds<L, R, K(!new)>(ls: seq<L>, leftKey: L -> K, rs: seq<R>, rightKey: R -> K, j: nat,
                                     t: JoinTable<K, L, R>)
    requires RightState(ls, leftKey, rs, rightKey, j, t) && j < |rs| && rightKey(rs[j]) !in t.1
    ensures RightState(ls, leftKey, rs, rightKey, j + 1, (t.0 + [rightKey(rs[j])], t.1[rightKey(rs[j]) := (None, Some(rs[j]))]))
  {
    var key := rightKey(rs[j]);
    assert key !in t.0;
    RightOrderStep(ls, leftKey, rs, rightKey, j, t.0);
    NewRightKeyHasNoLeft(ls, leftKey, KeysOf(ls, leftKey) + KeysOf(rs[..j], rightKey), t.0, key);
    RightEntriesStep(ls, leftKey, rs, rightKey, j, t.1, t.1[key := (None, Some(rs[j]))]);
  }

  /** The order after one more right element: unchanged for a known key, extended for a new one. */
  lemma RightOrderStep<L, R, K>(ls: seq<L>, leftKey: L -> K, rs: seq<R>, rightKey: R -> K, j: nat, order: seq<K>)
    requires j < |rs| && order == Distinct(KeysOf(ls, leftKey) + KeysOf(rs[..j], rightKey))
    ensures var key := rightKey(rs[j]);
            Distinct(KeysOf(ls, leftKey) + KeysOf(rs[..j + 1], rightKey)) ==
              if key in order then order else order + [key]
  {
    var before := KeysOf(ls, leftKey) + KeysOf(rs[..j], rightKey);
    KeysOfStep(rs, rightKey, j);
    assert KeysOf(ls, leftKey) + KeysOf(rs[..j + 1], rightKey) == before + [rightKey(rs[j])];
    DistinctSnoc(before, rightKey(rs[j]));
  }

  /** A key that is not among the distinct keys so far is in particular no left key. */
  lemma NewRightKeyHasNoLeft<L, K>(ls: seq<L>, leftKey: L -> K, before: seq<K>, order: seq<K>, x: K)
    requires order == Distinct(before) && |KeysOf(ls, leftKey)| <= |before|
    requires before[..|KeysOf(ls, leftKey)|] == KeysOf(ls, leftKey)
    ensures x !in order ==> LastWith(ls, leftKey, x).None?
  {
    var lk := KeysOf(ls, leftKey);
    assert forall p :: 0 <= p < |lk| ==> before[p] == lk[p];
  }

  lemma RightEntriesStep<L, R, K(!new)>(ls: seq<L>, leftKey: L -> K, rs: seq<R>, rightKey: R -> K, j: nat,
                                        table: map<K, (Option<L>, Option<R>)>, table': map<K, (Option<L>, Option<R>)>)
    requires j < |rs|
    requires forall k :: k in table ==> table[k] == (LastWith(ls, leftKey, k), LastWith(rs[..j], rightKey, k))
    requires rightKey(rs[j]) !in table ==> LastWith(ls, leftKey, rightKey(rs[j])).None?
    requires table' == if rightKey(rs[j]) in table then table[rightKey(rs[j]) := (table[rightKey(rs[j])].0, Some(rs[j]))]
                       else table[rightKey(rs[j]) := (None, Some(rs[j]))]
    ensures forall k :: k in table' ==> table'[k] == (LastWith(ls, leftKey, k), LastWith(rs[..j + 1], rightKey, k))
  {
    var key := rightKey(rs[j]);
    assert rs[..j + 1] == rs[..j] + [rs[j]];
    forall k | k in table'
      ensures LastWith(rs[..j + 1], rightKey, k) == if k == key then Some(rs[j]) else LastWith(rs[..j], rightKey, k)
    {
      LastWithSnoc(rs[..j], rightKey, rs[j], k);
    }
  }

  /**
   * The first `foreach` of `OuterJoin`: `Add` every left element under its key, with no right side
   * yet. A repeated key throws ArgumentException.
   */
  method AddLeftEntries<L, R, K(==,!new)>(leftCollection: seq<L>, leftKeySelector: L -> K) returns (r: Outcome<JoinTable<K, L, R>>)
    ensures r.Threw? <==> !NoDuplicates(KeysOf(leftCollection, leftKeySelector))
    ensures r.Threw? ==> r.exception == Exception(Argument, Containers.DuplicateKeyMessage)
    ensures r.Returned? ==> LeftState(leftCollection, leftKeySelector, |leftCollection|, r.value)
  {
    var t: JoinTable<K, L, R> := ([], map[]);
    var i := 0;
    assert KeysOf(leftCollection[..0], leftKeySelector) == [];
    while i < |leftCollection|
      invariant LeftState(leftCollection, leftKeySelector, i, t)
    {
      var left := leftCollection[i];
      var key := leftKeySelector(left);
      if key in t.1 {
        LeftStepClashes(leftCollection, leftKeySelector, i, t);
        return Threw(Exception(Argument, Containers.DuplicateKeyMessage));
      }
      LeftStepAdds(leftCollection, leftKeySelector, i, t);
      t := (t.0 + [key], t.1[key := (Some(left), None)]);
      i := i + 1;
    }
    assert leftCollection[..i] == leftCollection;
    r := Returned(t);
  }

  /**
   * The second `foreach` of `OuterJoin`: every right element overwrites its key's entry, keeping
   * the left side that is there; a new key goes to the end of the order.
   */
  method StoreRightEntries<L, R, K(==,!new)>(t: JoinTable<K, L, R>, leftCollection: seq<L>, leftKeySelector: L -> K,
                                             rightCollection: seq<R>, rightKeySelector: R -> K)
    returns (u: JoinTable<K, L, R>)
    requires LeftState(leftCollection, leftKeySelector, |leftCollection|, t)
    ensures RightState(leftCollection, leftKeySelector, rightCollection, rightKeySelector, |rightCollection|, u)
  {
    u := t;
    var j := 0;
    assert leftCollection[..|leftCollection|] == leftCollection;
    assert KeysOf(leftCollection, leftKeySelector) + KeysOf(rightCollection[..0], rightKeySelector) == KeysOf(leftCollection, leftKeySelector);
    while j < |rightCollection|
      invariant RightState(leftCollection, leftKeySelector, rightCollection, rightKeySelector, j, u)
    {
      var right := rightCollection[j];
      var key := rightKeySelector(right);
      if key in u.1 {
        RightStepUpdates(leftCollection, leftKeySelector, rightCollection, rightKeySelector, j, u);
        u := (u.0, u.1[key := (u.1[key].0, Some(right))]);
      } else {
        RightStepAdds(leftCollection, leftKeySelector, rightCollection, rightKeySelector, j, u);
        u := (u.0 + [key], u.1[key := (None, Some(right))]);
      }
      j := j + 1;
    }
  }

  /**
   * The full `OuterJoin`. Every left element is added under its key (a repeated left key throws
   * ArgumentException, as `Dictionary.Add` does); every right element then stores itself into its
   * key's entry, so the last right element of a key wins. The result holds one value per distinct
   * key, in the dictionary's order: first the left keys, then each new right key where it first
   * appears. `zeroRight` is `default(TRight)`, which no entry reaches.
   */
  method OuterJoin<L, R, K(==,!new), TResult>(leftCollection: seq<L>, rightCollection: seq<R>,
                                              leftKeySelector: L -> K, rightKeySelector: R -> K,
                                              joinSelector: (L, R) -> TResult, leftSelector: L -> TResult,
                                              rightSelector: R -> TResult, zeroRight: R)
    returns (result: Outcome<seq<TResult>>)
    ensures result.Threw? <==> !NoDuplicates(KeysOf(leftCollection, leftKeySelector))
    ensures result.Threw? ==> result.exception == Exception(Argument, Containers.DuplicateKeyMessage)
    ensures result.Returned? ==>
              var order := Distinct(KeysOf(leftCollection, leftKeySelector) + KeysOf(rightCollection, rightKeySelector));
              |result.value| == |order| &&
              forall i :: 0 <= i < |order| ==>
                Some(result.value[i]) == Joined(joinSelector, leftSelector, rightSelector,
                                                LastWith(leftCollection, leftKeySelector, order[i]),
                                                LastWith(rightCollection, rightKeySelector, order[i]))
  {
    var lefts := AddLeftEntries<L, R, K>(leftCollection, leftKeySelector);
    if lefts.Threw? {
      return Threw(lefts.exception);
    }
    var t := StoreRightEntries(lefts.value, leftCollection, leftKeySelector, rightCollection, rightKeySelector);
    assert rightCollection[..|rightCollection|] == rightCollection;
    var order, table := t.0, t.1;
    var values := seq(|order|, n requires 0 <= n < |order| =>
                        SelectOuterJoinValue(joinSelector, leftSelector, rightSelector, table[order[n]], zeroRight));
    forall i | 0 <= i < |order|
      ensures Some(values[i]) == Joined(joinSelector, leftSelector, rightSelector,
                                        LastWith(leftCollection, leftKeySelector, order[i]),
                                        LastWith(rightCollection, rightKeySelector, order[i]))
    {
      OuterJoinKeys(leftCollection, rightCollection, leftKeySelector, rightKeySelector, order[i]);
    }
    result := Returned(values);
  }

  /**
   * The four-argument `OuterJoin`: both sides are of one element type with one key selector; an
   * element on one side only is kept as it is.
   */
  method OuterJoinSameType<T, K(==,!new)>(leftCollection: seq<T>, rightCollection: seq<T>, keySelector: T -> K,
                                     joinSelector: (T, T) -> T, zero: T)
    returns (result: Outcome<seq<T>>)
    ensures result.Threw? <==> !NoDuplicates(KeysOf(leftCollection, keySelector))
    ensures result.Returned? ==>
              var order := Distinct(KeysOf(leftCollection, keySelector) + KeysOf(rightCollection, keySelector));
              |result.value| == |order| &&
              forall i :: 0 <= i < |order| ==>
                Some(result.value[i]) == Joined(joinSelector, x => x, x => x,
                                                LastWith(leftCollection, keySelector, order[i]),
                                                LastWith(rightCollection, keySelector, order[i]))
  {
    result := OuterJoin(leftCollection, rightCollection, keySelector, keySelector, joinSelector, x => x, x => x, zero);
  }

  /**
   * Every key of either side has exactly one entry: the join's order lists each key once, and a
   * key's entry has at least one side.
   */
  lemma OuterJoinKeys<L, R, K>(ls: seq<L>, rs: seq<R>, leftKey: L -> K, rightKey: R -> K, k: K)
    ensures var order := Distinct(KeysOf(ls, leftKey) + KeysOf(rs, rightKey));
            (k in order <==> k in KeysOf(ls, leftKey) || k in KeysOf(rs, rightKey)) &&
            NoDuplicates(order) &&
            (k in order ==> LastWith(ls, leftKey, k).Some? || LastWith(rs, rightKey, k).Some?)
  {
    var all := KeysOf(ls, leftKey) + KeysOf(rs, rightKey);
    var order := Distinct(all);
    if k in all {
      var i :| 0 <= i < |all| && all[i] == k;
    }
    if k in order {
      var i :| 0 <= i < |order| && order[i] == k;
    }
  }

  /** With distinct left keys the order starts with the left keys, as they came. */
  lemma OuterJoinOrderStartsWithLeft<L, R, K>(ls: seq<L>, rs: seq<R>, leftKey: L -> K, rightKey: R -> K)
    requires NoDuplicates(KeysOf(ls, leftKey))
    ensures |ls| <= |Distinct(KeysOf(ls, leftKey) + KeysOf(rs, rightKey))|
    ensures Distinct(KeysOf(ls, leftKey) + KeysOf(rs, rightKey))[..|ls|] == KeysOf(ls, leftKey)
  {
    DistinctOfDistinct(KeysOf(ls, leftKey));
    DistinctPrefix(KeysOf(ls, leftKey), KeysOf(rs, rightKey));
  }

  /** Distinct of a concatenation begins with Distinct of its first part. */
  lemma {:induction false} DistinctPrefix<K>(a: seq<K>, b: seq<K>)
    ensures |Distinct(a)| <= |Distinct(a + b)| && Distinct(a + b)[..|Distinct(a)|] == Distinct(a)
    decreases |b|
  {
    if |b| == 0 {
      assert a + b == a;
    } else {
      var b' := b[..|b| - 1];
      DistinctPrefix(a, b');
      assert (a + b)[..|a + b| - 1] == a + b';
    }
  }
}
