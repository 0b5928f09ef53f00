/** Failure-carrying results: the marketplace core raises Python exceptions
    (unbound local, KeyError, ValueError, unreadable file); here they are values. */
module Wrappers {

  datatype Option<+T> = None | Some(value: T)

  datatype Result<+T, +E> = Ok(value: T) | Err(error: E)
}

/** Order-preserving selection, shared by the two filtering loops of the core
    (plugins of one category, search hits among page ids). */
module Seqs {

  /** `a` is obtained from `b` by deleting elements, keeping the order of the rest. */
  predicate IsSubsequence<T(==)>(a: seq<T>, b: seq<T>)
    decreases |b|
  {
    if a == [] then true
    else if b == [] then false
    else (a[|a| - 1] == b[|b| - 1] && IsSubsequence(a[..|a| - 1], b[..|b| - 1]))
         || IsSubsequence(a, b[..|b| - 1])
  }

  /** Growing a prefix by one element. */
  lemma PrefixStep<T>(s: seq<T>, i: nat)
    requires i < |s|
    ensures s[..i + 1] == s[..i] + [s[i]]
  {
  }
}

/** Association lists: the attributes of an lxml element and the
    `[Categories]` section of the configuration are both ordered
    (key, value) pairs looked up by key. */
module Pairs {
  import opened Wrappers

  /** The value of the first pair whose key is `key`: `e.get(key)` for an
      element's attributes, `cate_dict[key]` for the category table. */
  function Lookup(pairs: seq<(string, string)>, key: string): (r: Option<string>)
    ensures r.None? <==> forall i :: 0 <= i < |pairs| ==> pairs[i].0 != key
    ensures r.Some? ==> exists i :: 0 <= i < |pairs| && pairs[i] == (key, r.value)
  {
    if pairs == [] then None
    else if pairs[0].0 == key then Some(pairs[0].1)
    else
      var r := Lookup(pairs[1..], key);
      assert forall i :: 0 < i < |pairs| ==> pairs[i] == pairs[1..][i - 1];
      r
  }

  /** No key occurs twice: lxml keeps one value per attribute name, and the
      configuration parser refuses a section with a repeated key. */
  predicate DistinctKeys(pairs: seq<(string, string)>)
  {
    forall i, j :: 0 <= i < j < |pairs| ==> pairs[i].0 != pairs[j].0
  }

  /** With distinct keys, each pair is found by its own key. */
  lemma LookupAt(pairs: seq<(string, string)>, i: nat)
    requires DistinctKeys(pairs) && i < |pairs|
    ensures Lookup(pairs, pairs[i].0) == Some(pairs[i].1)
  {
  }
}
