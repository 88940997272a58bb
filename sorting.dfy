/**
 * Collections.sort on a list whose element type has a natural order: a stable
 * sort. The natural order is given as `le` ("compareTo(...) <= 0"), which the
 * Comparable contract requires to be a total preorder.
 */
module Sorting {

  ghost predicate TotalPreorder<T(!new)>(le: (T, T) -> bool) {
    && (forall x, y :: le(x, y) || le(y, x))
    && (forall x, y, z :: le(x, y) && le(y, z) ==> le(x, z))
  }

  ghost predicate Sorted<T>(s: seq<T>, le: (T, T) -> bool) {
    forall i, j | 0 <= i < j < |s| :: le(s[i], s[j])
  }

  /** `compareTo` answers 0 for the pair. */
  predicate Equivalent<T>(x: T, y: T, le: (T, T) -> bool) {
    le(x, y) && le(y, x)
  }

  /** The subsequence of the elements of `s` that compare equal to `v`. */
  function EquivalentsOf<T>(s: seq<T>, v: T, le: (T, T) -> bool): (r: seq<T>)
    ensures |r| <= |s|
    ensures forall x | x in r :: x in s && Equivalent(x, v, le)
  {
    if s == [] then []
    else if Equivalent(s[0], v, le) then [s[0]] + EquivalentsOf(s[1..], v, le)
    else EquivalentsOf(s[1..], v, le)
  }

  /** Puts `x` in front of the first element it is not strictly greater than. */
  function Insert<T>(x: T, s: seq<T>, le: (T, T) -> bool): (r: seq<T>)
    ensures multiset(r) == multiset(s) + multiset{x}
  {
    if s == [] || le(x, s[0]) then [x] + s
    else
      assert s == [s[0]] + s[1..];
      [s[0]] + Insert(x, s[1..], le)
  }

  /** The stable sort: elements are inserted back to front, each one ahead of the
      elements equivalent to it that came later. */
  function Sort<T>(s: seq<T>, le: (T, T) -> bool): (r: seq<T>)
    ensures multiset(r) == multiset(s)
  {
    if s == [] then []
    else
      assert s == [s[0]] + s[1..];
      Insert(s[0], Sort(s[1..], le), le)
  }

  lemma {:induction false} InsertSorted<T(!new)>(x: T, s: seq<T>, le: (T, T) -> bool)
    requires TotalPreorder(le) && Sorted(s, le)
    ensures Sorted(Insert(x, s, le), le)
  {
    if s != [] && !le(x, s[0]) {
      var t := Insert(x, s[1..], le);
      InsertSorted(x, s[1..], le);
      assert le(s[0], x);
      forall e | e in t ensures le(s[0], e) {
        assert e in multiset(t);
        if e != x {
          assert e in multiset(s[1..]);
          var j :| 0 <= j < |s[1..]| && s[1..][j] == e;
          assert s[1 + j] == e;
        }
      }
      forall i, j | 0 <= i < j < |[s[0]] + t| ensures le(([s[0]] + t)[i], ([s[0]] + t)[j]) {
        if i == 0 {
          assert ([s[0]] + t)[j] == t[j - 1];
          assert t[j - 1] in t;
        }
      }
    }
  }

  /** Inserting `x` adds it at the front of its own equivalence class and leaves
      every other class as it was. */
  lemma {:induction false} InsertEquivalents<T(!new)>(x: T, s: seq<T>, v: T, le: (T, T) -> bool)
    requires TotalPreorder(le)
    ensures EquivalentsOf(Insert(x, s, le), v, le) ==
              if Equivalent(x, v, le) then [x] + EquivalentsOf(s, v, le) else EquivalentsOf(s, v, le)
  {
    if s != [] && !le(x, s[0]) {
      InsertEquivalents(x, s[1..], v, le);
      var t := Insert(x, s[1..], le);
      assert Insert(x, s, le) == [s[0]] + t;
      assert ([s[0]] + t)[1..] == t;
      if Equivalent(x, v, le) {
        assert !Equivalent(s[0], v, le);
      }
    } else if s != [] {
      assert ([x] + s)[1..] == s;
    } else {
      assert ([x] + s)[1..] == s;
    }
  }

  /** Sort yields a sorted permutation of its input. */
  lemma {:induction false} SortSorted<T(!new)>(s: seq<T>, le: (T, T) -> bool)
    requires TotalPreorder(le)
    ensures Sorted(Sort(s, le), le)
    ensures multiset(Sort(s, le)) == multiset(s)
  {
    if s != [] {
      SortSorted(s[1..], le);
      InsertSorted(s[0], Sort(s[1..], le), le);
    }
  }

  /** Sort is stable: the elements of each equivalence class keep their relative order. */
  lemma {:induction false} SortStable<T(!new)>(s: seq<T>, v: T, le: (T, T) -> bool)
    requires TotalPreorder(le)
    ensures EquivalentsOf(Sort(s, le), v, le) == EquivalentsOf(s, v, le)
  {
    if s != [] {
      SortStable(s[1..], v, le);
      InsertEquivalents(s[0], Sort(s[1..], le), v, le);
    }
  }

  /** Under a total preorder every element is equivalent to itself, so the class
      of a non-empty sequence's head starts with that head. */
  lemma HeadInOwnClass<T(!new)>(s: seq<T>, le: (T, T) -> bool)
    ensures TotalPreorder(le) && s != [] ==> EquivalentsOf(s, s[0], le) == [s[0]] + EquivalentsOf(s[1..], s[0], le)
  {
  }

  /** Two sorted sequences that list the members of every equivalence class in
      the same order are the same sequence. */
  lemma {:induction false} SortedUnique<T(!new)>(t: seq<T>, u: seq<T>, le: (T, T) -> bool)
    requires TotalPreorder(le)
    requires Sorted(t, le) && Sorted(u, le)
    requires forall v :: EquivalentsOf(t, v, le) == EquivalentsOf(u, v, le)
    ensures t == u
    decreases |t| + |u|
  {
    if t == [] && u == [] {
    } else if t == [] {
      HeadInOwnClass(u, le);
      assert false;
    } else if u == [] {
      HeadInOwnClass(t, le);
      assert false;
    } else {
      assert t[0] in EquivalentsOf(u, t[0], le) by {
        assert EquivalentsOf(t, t[0], le)[0] == t[0];
      }
      assert u[0] in EquivalentsOf(t, u[0], le) by {
        assert EquivalentsOf(u, u[0], le)[0] == u[0];
      }
      assert Equivalent(t[0], u[0], le) by {
        var k :| 0 <= k < |u| && u[k] == t[0];
        var m :| 0 <= m < |t| && t[m] == u[0];
        assert k == 0 || le(u[0], u[k]);
        assert m == 0 || le(t[0], t[m]);
      }
      assert t[0] == u[0] by {
        assert EquivalentsOf(t, t[0], le)[0] == t[0];
        assert EquivalentsOf(u, t[0], le)[0] == u[0];
      }
      forall v ensures EquivalentsOf(t[1..], v, le) == EquivalentsOf(u[1..], v, le) {
        var a, b := EquivalentsOf(t[1..], v, le), EquivalentsOf(u[1..], v, le);
        assert EquivalentsOf(t, v, le) == EquivalentsOf(u, v, le);
        if Equivalent(t[0], v, le) {
          assert [t[0]] + a == [u[0]] + b;
          assert a == ([t[0]] + a)[1..] && b == ([u[0]] + b)[1..];
        } else {
          assert a == EquivalentsOf(t, v, le) == EquivalentsOf(u, v, le) == b;
        }
      }
      SortedUnique(t[1..], u[1..], le);
      assert t == [t[0]] + t[1..] && u == [u[0]] + u[1..];
    }
  }

  /** Any sorted reordering that keeps the elements of each equivalence class in
      their original order is exactly Sort's result: every stable sort, whatever
      its algorithm, agrees with this one. */
  lemma StableSortUnique<T(!new)>(s: seq<T>, t: seq<T>, le: (T, T) -> bool)
    requires TotalPreorder(le)
    requires Sorted(t, le)
    requires forall v :: EquivalentsOf(t, v, le) == EquivalentsOf(s, v, le)
    ensures t == Sort(s, le)
  {
    SortSorted(s, le);
    forall v ensures EquivalentsOf(t, v, le) == EquivalentsOf(Sort(s, le), v, le) {
      SortStable(s, v, le);
    }
    SortedUnique(t, Sort(s, le), le);
  }
}
