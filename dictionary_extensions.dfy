/**
 * DictionaryExtensions: lookups with a fall-back, insert-if-missing, a left
 * merge and a lookup into a Result. The pure lookups read the dictionary's
 * entries; the writers change a `Containers.Dictionary` in place. `zero`
 * stands for `default(TValue)`; `show` is how a key is rendered into text.
 */
module DictionaryExtensions {
  import opened Algebraics
  import opened Results
  import opened Containers

  function GetOrDefault<K, V>(dictionary: map<K, V>, key: K, zero: V): (r: V)
    ensures key in dictionary ==> r == dictionary[key]
    ensures key !in dictionary ==> r == zero
  {
    GetOr(dictionary, key, zero)
  }

  function GetOr<K, V>(dictionary: map<K, V>, key: K, other: V): (r: V)
    ensures key in dictionary ==> r == dictionary[key]
    ensures key !in dictionary ==> r == other
  {
    if key in dictionary then dictionary[key] else other
  }

  /** `GetOr(key, Func)`: the value, and whether the fall-back function was called. */
  function GetOrWithFunc<K, V>(dictionary: map<K, V>, key: K, other: () -> V): (r: (V, bool))
    ensures r.1 <==> key !in dictionary
    ensures r.0 == GetOr(dictionary, key, other())
  {
    if key in dictionary then (dictionary[key], false) else (other(), true)
  }

  /** `GetOrAdd(key, other)`: the present value with nothing changed, or `other` stored under the key. */
  method GetOrAdd<K, V>(dictionary: Dictionary<K, V>, key: K, other: V) returns (value: V)
    modifies dictionary
    ensures key in old(dictionary.entries) ==> value == old(dictionary.entries)[key] && dictionary.entries == old(dictionary.entries)
    ensures key !in old(dictionary.entries) ==> value == other && dictionary.entries == old(dictionary.entries)[key := other]
    ensures value == GetOr(old(dictionary.entries), key, other) && key in dictionary.entries && dictionary.entries[key] == value
  {
    if key in dictionary.entries {
      return dictionary.entries[key];
    }
    dictionary.Set(key, other);
    value := other;
  }

  /** `GetOrAdd(key, Func)`: as above; `called` tells whether `other` ran, which is only for a missing key. */
  method GetOrAddWithFunc<K, V>(dictionary: Dictionary<K, V>, key: K, other: () -> V) returns (value: V, called: bool)
    modifies dictionary
    ensures called <==> key !in old(dictionary.entries)
    ensures key in old(dictionary.entries) ==> value == old(dictionary.entries)[key] && dictionary.entries == old(dictionary.entries)
    ensures key !in old(dictionary.entries) ==> value == other() && dictionary.entries == old(dictionary.entries)[key := other()]
  {
    if key in dictionary.entries {
      return dictionary.entries[key], false;
    }
    value := other();
    called := true;
    dictionary.Set(key, value);
  }

  method GetOrAddWithFuncParam<K, V, P>(dictionary: Dictionary<K, V>, key: K, other: P -> V, param: P) returns (value: V, called: bool)
    modifies dictionary
    ensures called <==> key !in old(dictionary.entries)
    ensures key in old(dictionary.entries) ==> value == old(dictionary.entries)[key] && dictionary.entries == old(dictionary.entries)
    ensures key !in old(dictionary.entries) ==> value == other(param) && dictionary.entries == old(dictionary.entries)[key := other(param)]
  {
    if key in dictionary.entries {
      return dictionary.entries[key], false;
    }
    value := other(param);
    called := true;
    dictionary.Set(key, value);
  }

  function TryGet<K, V>(dictionary: map<K, V>, key: K): (r: Option<V>)
    ensures r.Some? <==> key in dictionary
    ensures r.Some? ==> r.value == dictionary[key]
  {
    if key in dictionary then Some(dictionary[key]) else None
  }

  /** `TryGet` with an optional key: None for a missing key, otherwise TryGet of the key. */
  function TryGetOptionKey<K, V>(dictionary: map<K, V>, key: Option<K>): (r: Option<V>)
    ensures key.None? ==> r.None?
    ensures key.Some? ==> r == TryGet(dictionary, key.value)
  {
    Flatten(key.Select((k: K) => TryGet(dictionary, k)))
  }

  /** The lookups agree: each fall-back is TryGet's value, or the fall-back when it is None. */
  lemma LookupsAgree<K, V>(dictionary: map<K, V>, key: K, other: V, zero: V)
    ensures GetOr(dictionary, key, other) == TryGet(dictionary, key).ValueOr(other)
    ensures GetOrDefault(dictionary, key, zero) == GetOr(dictionary, key, zero)
    ensures TryGetOptionKey(dictionary, Some(key)) == TryGet(dictionary, key)
  {
  }

  /** The left merge of two dictionaries: every key of either, with the left value on a clash. */
  function LeftMerge<K, V>(left: map<K, V>, right: map<K, V>): (m: map<K, V>)
    ensures m.Keys == left.Keys + right.Keys
    ensures forall k :: k in left ==> m[k] == left[k]
    ensures forall k :: k in right && k !in left ==> m[k] == right[k]
  {
    map k | k in left.Keys + right.Keys :: if k in left then left[k] else right[k]
  }

  /** Merging is idempotent, keeps the left side when the right adds nothing, and is associative. */
  lemma LeftMergeLaws<K, V>(a: map<K, V>, b: map<K, V>, c: map<K, V>)
    ensures LeftMerge(a, a) == a
    ensures LeftMerge(a, map[]) == a && LeftMerge(map[], a) == a
    ensures LeftMerge(LeftMerge(a, b), c) == LeftMerge(a, LeftMerge(b, c))
    ensures LeftMerge(LeftMerge(a, b), b) == LeftMerge(a, b)
  {
  }

  /**
   * `left.LeftMergedWith(right)`: a new dictionary copied from `left`, to which every pair of
   * `right` whose key is not yet there is added. Neither input changes.
   */
  method LeftMergedWith<K, V>(left: Dictionary<K, V>, right: Dictionary<K, V>) returns (merged: Dictionary<K, V>)
    ensures fresh(merged)
    ensures merged.entries == LeftMerge(left.entries, right.entries)
  {
    merged := new Dictionary.Copy(left.entries);
    var remaining := right.entries.Keys;
    while remaining != {}
      invariant remaining <= right.entries.Keys
      invariant merged.entries == LeftMerge(left.entries, map k | k in right.entries.Keys - remaining :: right.entries[k])
      decreases remaining
    {
      var key :| key in remaining;
      if key !in merged.entries {
        var added := merged.Add(key, right.entries[key]);
      }
      remaining := remaining - {key};
    }
  }

  /** `GetValueOrError(key)`: the value, or an error naming the key. */
  function GetValueOrError<K, V>(dictionary: map<K, V>, key: K, show: K -> string): (r: Result<V>)
    ensures !r.IsError() <==> key in dictionary
    ensures !r.IsError() ==> r.value == dictionary[key]
    ensures r.IsError() ==> r.error == "Can't find value in dictionary with key \"" + show(key) + "\""
  {
    if key in dictionary then Result.FromValue(dictionary[key])
    else Result.FromError("Can't find value in dictionary with key \"" + show(key) + "\"")
  }

  /** The Result lookup and the Option lookup hold the same information. */
  lemma GetValueOrErrorAgreesWithTryGet<K, V>(dictionary: map<K, V>, key: K, show: K -> string)
    ensures GetValueOrError(dictionary, key, show).IsError() <==> TryGet(dictionary, key).None?
    ensures TryGet(dictionary, key).Some? ==> GetValueOrError(dictionary, key, show).value == TryGet(dictionary, key).value
  {
  }

  /** `dict.SetKeyAndValue(key, value)`: stores or overwrites the key and returns the same dictionary. */
  method SetKeyAndValue<K, V>(dict: Dictionary<K, V>, key: K, value: V) returns (r: Dictionary<K, V>)
    modifies dict
    ensures r == dict && dict.entries == old(dict.entries)[key := value]
  {
    dict.Set(key, value);
    r := dict;
  }
}
