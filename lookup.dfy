/**
 * First-match search over a list, as written in the domain objects:
 * `key(x).equals(target)` is tested element by element, in list order, and the
 * first element that satisfies it is returned. A null key dereferenced on the
 * way throws a NullPointerException; a null target matches nothing.
 */
module Lookup {
  import opened Nullable

  /** `key(x).equals(target)` is true. */
  predicate Hits<T, K(==)>(x: T, key: T -> Option<K>, target: Option<K>) {
    key(x).Some? && key(x) == target
  }

  /** `key(x).equals(target)` is evaluated without throwing and is false. */
  predicate Misses<T, K(==)>(x: T, key: T -> Option<K>, target: Option<K>) {
    key(x).Some? && key(x) != target
  }

  /** The search passes over every element before index k. */
  ghost predicate MissesBefore<T, K>(s: seq<T>, key: T -> Option<K>, target: Option<K>, k: int)
    requires 0 <= k <= |s|
  {
    forall j | 0 <= j < k :: Misses(s[j], key, target)
  }

  /** `stream().filter(x -> key(x).equals(target)).findFirst()`: the element at the
      smallest index that hits, null when every element misses, and a
      NullPointerException when a null key is reached first. */
  function FindFirst<T, K(==)>(s: seq<T>, key: T -> Option<K>, target: Option<K>): (r: Outcome<Option<T>>)
    ensures MissesBefore(s, key, target, |s|) ==> r == Normal(None)
    ensures forall k | 0 <= k < |s| && MissesBefore(s, key, target, k) ::
              (Hits(s[k], key, target) ==> r == Normal(Some(s[k]))) &&
              (key(s[k]).None? ==> r == NullPointerException)
  {
    if s == [] then Normal(None)
    else if key(s[0]).None? then NullPointerException
    else if key(s[0]) == target then Normal(Some(s[0]))
    else
      var r := FindFirst(s[1..], key, target);
      assert forall k | 1 <= k <= |s| && MissesBefore(s, key, target, k) ::
               MissesBefore(s[1..], key, target, k - 1);
      r
  }

  /** The search answers null only when it passed over every element, and what it
      returns is always an element that hits. */
  lemma {:induction false} FindFirstSound<T, K>(s: seq<T>, key: T -> Option<K>, target: Option<K>)
    ensures FindFirst(s, key, target) == Normal(None) ==> MissesBefore(s, key, target, |s|)
    ensures FindFirst(s, key, target).Normal? && FindFirst(s, key, target).value.Some? ==>
              var x := FindFirst(s, key, target).value.value;
              x in s && Hits(x, key, target)
  {
    if s != [] && key(s[0]).Some? && key(s[0]) != target {
      FindFirstSound(s[1..], key, target);
    }
  }

  /** A null target is never matched: the search returns null or throws. */
  lemma NullTargetNeverFound<T, K>(s: seq<T>, key: T -> Option<K>)
    ensures FindFirst(s, key, None) == Normal(None) || FindFirst(s, key, None).NullPointerException?
  {
    FindFirstSound(s, key, None);
  }
}
