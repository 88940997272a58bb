/** The in-place cascades of normalize(): `list.forEach(T::normalize)` and
    `if (x != null) x.normalize()`, on values. */
module Lists {
  import opened Nullable

  /** `list.forEach(T::normalize)`: every element replaced by `f` of itself, in
      the same positions. */
  function ForEach<T>(f: T -> T, s: seq<T>): (r: seq<T>)
    ensures |r| == |s|
    ensures forall i | 0 <= i < |s| :: r[i] == f(s[i])
  {
    if s == [] then [] else [f(s[0])] + ForEach(f, s[1..])
  }

  /** `if (x != null) x.normalize()`. */
  function IfPresent<T>(f: T -> T, x: Option<T>): (r: Option<T>)
    ensures r.None? <==> x.None?
    ensures r.Some? ==> r.value == f(x.value)
  {
    match x
    case None => None
    case Some(v) => Some(f(v))
  }

  ghost predicate Idempotent<T(!new)>(f: T -> T) {
    forall x :: f(f(x)) == f(x)
  }

  /** With an idempotent step, running forEach a second time changes nothing. */
  lemma {:induction false} ForEachIdempotent<T(!new)>(f: T -> T, s: seq<T>)
    ensures Idempotent(f) ==> ForEach(f, ForEach(f, s)) == ForEach(f, s)
  {
  }

  lemma IfPresentIdempotent<T(!new)>(f: T -> T, x: Option<T>)
    ensures Idempotent(f) ==> IfPresent(f, IfPresent(f, x)) == IfPresent(f, x)
  {
  }

  /** Every element is already fixed by `f`. */
  ghost predicate AllFixed<T>(f: T -> T, s: seq<T>) {
    forall i | 0 <= i < |s| :: f(s[i]) == s[i]
  }

  /** Null, or fixed by `f`. */
  ghost predicate FixedOrNull<T>(f: T -> T, x: Option<T>) {
    x.Some? ==> f(x.value) == x.value
  }

  /** forEach changes nothing exactly when every element is already fixed. */
  lemma ForEachFixedPoint<T>(f: T -> T, s: seq<T>)
    ensures ForEach(f, s) == s <==> AllFixed(f, s)
  {
    if AllFixed(f, s) {
      assert forall i | 0 <= i < |s| :: ForEach(f, s)[i] == s[i];
    }
  }

  /** The null check changes nothing exactly when the value is null or fixed. */
  lemma IfPresentFixedPoint<T>(f: T -> T, x: Option<T>)
    ensures IfPresent(f, x) == x <==> FixedOrNull(f, x)
  {
  }
}
