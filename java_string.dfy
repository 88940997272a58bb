/** Java's String.compareTo, the natural order of UserAction names. */
module JavaString {

  /** The difference of the first pair of characters that differ, or else the
      difference of the lengths. */
  function CompareTo(a: string, b: string): (r: int)
    ensures r == 0 <==> a == b
  {
    if a == [] || b == [] then |a| - |b|
    else if a[0] != b[0] then a[0] as int - b[0] as int
    else CompareTo(a[1..], b[1..])
  }

  /** Swapping the operands negates the result, so the signs are opposite. */
  lemma {:induction false} CompareToAntisymmetric(a: string, b: string)
    ensures CompareTo(a, b) == -CompareTo(b, a)
  {
    if a != [] && b != [] && a[0] == b[0] {
      CompareToAntisymmetric(a[1..], b[1..]);
    }
  }

  /** "compares at most" is transitive, so CompareTo is a total order on strings. */
  lemma {:induction false} CompareToTransitive(a: string, b: string, c: string)
    requires CompareTo(a, b) <= 0 && CompareTo(b, c) <= 0
    ensures CompareTo(a, c) <= 0
  {
    if a != [] && b != [] && c != [] && a[0] == b[0] && b[0] == c[0] {
      CompareToTransitive(a[1..], b[1..], c[1..]);
    }
  }

  /** A proper prefix compares below its extension. */
  lemma {:induction false} CompareToProperPrefix(a: string, b: string)
    requires |a| < |b| && a == b[..|a|]
    ensures CompareTo(a, b) < 0
  {
    if a != [] {
      assert a[1..] == b[1..][..|a| - 1];
      CompareToProperPrefix(a[1..], b[1..]);
    }
  }

  /** Past a common prefix of length k, the first differing characters decide:
      the result is their difference. */
  lemma {:induction false} CompareToFirstDifference(a: string, b: string, k: nat)
    requires k < |a| && k < |b| && a[..k] == b[..k] && a[k] != b[k]
    ensures CompareTo(a, b) == a[k] as int - b[k] as int
  {
    if k > 0 {
      assert a[0] == a[..k][0] == b[..k][0] == b[0];
      assert a[1..][..k - 1] == a[..k][1..] == b[..k][1..] == b[1..][..k - 1];
      CompareToFirstDifference(a[1..], b[1..], k - 1);
    }
  }
}
