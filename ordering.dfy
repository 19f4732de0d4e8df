/**
 * Orderings used by the store's `orderBy` clauses: the lexicographic order on strings (`name asc`,
 * `id asc`) and sorting a finite set into a strictly increasing sequence.
 */
module Ordering {

  /** Lexicographic "strictly less than" on strings, character by character. */
  predicate StrLess(a: string, b: string)
    decreases |a|
  {
    if |a| == 0 then |b| > 0
    else if |b| == 0 then false
    else if a[0] != b[0] then a[0] < b[0]
    else StrLess(a[1..], b[1..])
  }

  lemma {:induction false} StrLessIrreflexive(a: string)
    ensures !StrLess(a, a)
    decreases |a|
  {
    if |a| > 0 { StrLessIrreflexive(a[1..]); }
  }

  lemma {:induction false} StrLessTransitive(a: string, b: string, c: string)
    requires StrLess(a, b) && StrLess(b, c)
    ensures StrLess(a, c)
    decreases |a|
  {
    if |a| > 0 && |b| > 0 && |c| > 0 && a[0] == b[0] && b[0] == c[0] {
      StrLessTransitive(a[1..], b[1..], c[1..]);
    }
  }

  lemma {:induction false} StrLessTotal(a: string, b: string)
    requires a != b
    ensures StrLess(a, b) || StrLess(b, a)
    decreases |a|
  {
    if |a| > 0 && |b| > 0 && a[0] == b[0] {
      assert a == [a[0]] + a[1..] && b == [b[0]] + b[1..];
      StrLessTotal(a[1..], b[1..]);
    }
  }

  /** `less` is a strict total order on all of `T`. */
  ghost predicate StrictTotal<T(!new)>(less: (T, T) -> bool)
  {
    && (forall a :: !less(a, a))
    && (forall a, b, c :: less(a, b) && less(b, c) ==> less(a, c))
    && (forall a, b :: a != b ==> less(a, b) || less(b, a))
  }

  lemma StrLessIsStrictTotal()
    ensures StrictTotal(StrLess)
  {
    forall a: string ensures !StrLess(a, a) { StrLessIrreflexive(a); }
    forall a: string, b: string, c: string | StrLess(a, b) && StrLess(b, c)
      ensures StrLess(a, c)
    {
      StrLessTransitive(a, b, c);
    }
    forall a: string, b: string | a != b ensures StrLess(a, b) || StrLess(b, a) {
      StrLessTotal(a, b);
    }
  }

  /** `m` is below every other element of `s`. */
  predicate IsLeast<T(==)>(less: (T, T) -> bool, m: T, s: set<T>)
  {
    m in s && forall x | x in s && x != m :: less(m, x)
  }

  lemma {:induction false} LeastExists<T(!new)>(s: set<T>, less: (T, T) -> bool)
    requires s != {} && StrictTotal(less)
    ensures exists m :: IsLeast(less, m, s)
    decreases |s|
  {
    var y :| y in s;
    if s == {y} {
      assert IsLeast(less, y, s);
    } else {
      LeastExists(s - {y}, less);
      var m :| IsLeast(less, m, s - {y});
      if less(y, m) {
        forall x | x in s && x != y ensures less(y, x) {
          if x != m { assert less(m, x); }
        }
        assert IsLeast(less, y, s);
      } else {
        assert IsLeast(less, m, s);
      }
    }
  }

  /** The least element of a non-empty finite set. */
  function Least<T(==,!new)>(s: set<T>, less: (T, T) -> bool): (m: T)
    requires s != {} && StrictTotal(less)
    ensures IsLeast(less, m, s)
  {
    LeastExists(s, less);
    var m :| IsLeast(less, m, s);
    m
  }

  /** `s` is strictly increasing under `less`. */
  ghost predicate Increasing<T>(less: (T, T) -> bool, s: seq<T>)
  {
    forall i, j | 0 <= i < j < |s| :: less(s[i], s[j])
  }

  /** The elements of `s` in increasing order, each exactly once. */
  function SortSet<T(==,!new)>(s: set<T>, less: (T, T) -> bool): (r: seq<T>)
    requires StrictTotal(less)
    ensures |r| == |s|
    ensures forall x :: x in r <==> x in s
    ensures Increasing(less, r)
    decreases |s|
  {
    if s == {} then []
    else
      var m := Least(s, less);
      var rest := SortSet(s - {m}, less);
      assert forall i | 0 < i < |[m] + rest| :: ([m] + rest)[i] == rest[i - 1];
      [m] + rest
  }

  /** A strictly increasing sequence has no repeated elements. */
  lemma IncreasingDistinct<T(!new)>(less: (T, T) -> bool, s: seq<T>, i: int, j: int)
    requires StrictTotal(less) && Increasing(less, s)
    requires 0 <= i < |s| && 0 <= j < |s| && i != j
    ensures s[i] != s[j]
  {
    if i < j { assert less(s[i], s[j]); } else { assert less(s[j], s[i]); }
  }
}
