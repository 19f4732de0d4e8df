/**
 * `tags.all`: the tag-name suggestions. At most five tag names in ascending name order,
 * restricted to the names containing the query when a non-empty query is given.
 */
module Tags {
  import opened Wrappers
  import opened Ordering

  /** `take: 5`. */
  const MaxResults := 5

  /** `q` occurs in `name` starting at position `i`. */
  predicate OccursAt(name: string, q: string, i: int)
  {
    0 <= i && i + |q| <= |name| && name[i..i + |q|] == q
  }

  /** `name: { contains: q }`: `q` occurs in `name` as a run of consecutive characters. */
  predicate Contains(name: string, q: string)
  {
    exists i | 0 <= i <= |name| :: OccursAt(name, q, i)
  }

  /** The `where` clause, present only when the query is truthy (given and non-empty). */
  function Matching(names: set<string>, q: Option<string>): set<string>
  {
    if q.Some? && q.value != "" then set n | n in names && Contains(n, q.value) else names
  }

  /**
   * The names the endpoint returns for the tag table (name to id) and a query: the first five
   * matching names in ascending order. Every returned name is a tag that contains the query;
   * fewer than five come back only when fewer match; and a matching name left out means five
   * came back, all sorting before it.
   */
  function Search(table: map<string, nat>, q: Option<string>): (r: seq<string>)
    ensures |r| == Min(MaxResults, |Matching(table.Keys, q)|)
    ensures Increasing(StrLess, r)
    ensures forall n | n in r :: n in table && (q.Some? ==> Contains(n, q.value))
    ensures forall n | n in table && (q.Some? ==> Contains(n, q.value)) && n !in r ::
              |r| == MaxResults && forall m | m in r :: StrLess(m, n)
  {
    StrLessIsStrictTotal();
    var sorted := SortSet(Matching(table.Keys, q), StrLess);
    EmptyQueryMatchesAll(table.Keys, q);
    TakeLeast(sorted, MaxResults);
    Take(sorted, MaxResults)
  }

  /** The empty query occurs in every name, so leaving the clause out for it changes nothing. */
  lemma EmptyQueryMatchesAll(names: set<string>, q: Option<string>)
    ensures forall n | n in names :: n in Matching(names, q) <==> (q.Some? ==> Contains(n, q.value))
  {
    if q.Some? && q.value == "" {
      forall n | n in names ensures Contains(n, q.value) {
        assert OccursAt(n, q.value, 0);
      }
    }
  }

  /**
   * The first `k` of an increasing sequence are increasing and come from it, and whatever is left
   * out comes after them, with exactly `k` taken.
   */
  lemma TakeLeast(sorted: seq<string>, k: nat)
    requires StrictTotal(StrLess) && Increasing(StrLess, sorted)
    ensures Increasing(StrLess, Take(sorted, k))
    ensures forall n | n in Take(sorted, k) :: n in sorted
    ensures forall n | n in sorted && n !in Take(sorted, k) ::
              |Take(sorted, k)| == k && forall m | m in Take(sorted, k) :: StrLess(m, n)
  {
    var r := Take(sorted, k);
    forall n | n in r ensures n in sorted {
      var i :| 0 <= i < |r| && r[i] == n;
      assert sorted[i] == n;
    }
    forall n | n in sorted && n !in r ensures |r| == k && forall m | m in r :: StrLess(m, n) {
      forall m | m in r ensures StrLess(m, n) {
        var i :| 0 <= i < |r| && r[i] == m;
        assert sorted[i] == m;
      }
    }
  }
}
