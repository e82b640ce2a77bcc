/** Integer-valued dictionaries as `collections.defaultdict(int)` uses them. */
module Maps {

  /** `d[k]` on a `defaultdict(int)`: a missing key reads as 0. */
  function Get<K>(m: map<K, int>, k: K): int {
    if k in m then m[k] else 0
  }

  /** `d[k] += 1`. */
  function Inc<K(!new)>(m: map<K, int>, k: K): (r: map<K, int>)
    ensures r.Keys == m.Keys + {k}
    ensures Get(r, k) == Get(m, k) + 1
    ensures forall j :: j != k ==> Get(r, j) == Get(m, j)
  {
    m[k := Get(m, k) + 1]
  }

  /** `d[k] += n`. */
  function AddTo<K>(m: map<K, int>, k: K, n: int): map<K, int> {
    m[k := Get(m, k) + n]
  }

  /** `d[k] += 1` for every `k` of a set. */
  function IncAll<K(!new)>(m: map<K, int>, keys: set<K>): map<K, int> {
    map k | k in m.Keys + keys :: (if k in m then m[k] else 0) + (if k in keys then 1 else 0)
  }

  /** Every key of the set goes up by exactly one, and no other key changes. */
  lemma IncAllGet<K(!new)>(m: map<K, int>, keys: set<K>)
    ensures IncAll(m, keys).Keys == m.Keys + keys
    ensures forall k :: Get(IncAll(m, keys), k) == Get(m, k) + (if k in keys then 1 else 0)
  {
  }

  lemma IncAllEmpty<K(!new)>(m: map<K, int>)
    ensures IncAll(m, {}) == m
  {
    IncAllGet(m, {});
    MapsEqual(IncAll(m, {}), m);
  }

  /** Before a loop over a set no key is counted. */
  lemma IncAllNone<K(!new)>(m: map<K, int>, all: set<K>)
    ensures IncAll(m, all - all) == m
  {
    assert all - all == {};
    IncAllEmpty(m);
  }

  /** Counting one more key of a set, one key at a time. */
  lemma IncAllAdd<K(!new)>(m: map<K, int>, done: set<K>, k: K, cur: map<K, int>)
    requires k !in done
    requires cur == IncAll(m, done)
    ensures Inc(cur, k) == IncAll(m, done + {k})
  {
    IncAllGet(m, done);
    IncAllGet(m, done + {k});
    MapsEqual(Inc(cur, k), IncAll(m, done + {k}));
  }

  /** The same step, for a loop that removes each key from the set still to visit. */
  lemma IncAllStep<K(!new)>(m: map<K, int>, all: set<K>, rest: set<K>, k: K, cur: map<K, int>)
    requires k in rest && rest <= all
    requires cur == IncAll(m, all - rest)
    ensures Inc(cur, k) == IncAll(m, all - (rest - {k}))
  {
    assert all - (rest - {k}) == (all - rest) + {k};
    IncAllAdd(m, all - rest, k, cur);
  }

  /** Per-key addition of two counters. */
  function MergeMaps<K(!new)>(a: map<K, int>, b: map<K, int>): (r: map<K, int>)
    ensures r.Keys == a.Keys + b.Keys
    ensures forall k :: Get(r, k) == Get(a, k) + Get(b, k)
  {
    map k | k in a.Keys + b.Keys :: Get(a, k) + Get(b, k)
  }

  lemma MapsEqual<K(!new)>(a: map<K, int>, b: map<K, int>)
    requires a.Keys == b.Keys
    requires forall k :: Get(a, k) == Get(b, k)
    ensures a == b
  {
    forall k | k in a
      ensures a[k] == b[k]
    {
      assert Get(a, k) == Get(b, k);
    }
  }

  /** `sum(xs)` over a list of counts. */
  function Sum(xs: seq<int>): int
    decreases |xs|
  {
    if xs == [] then 0 else Sum(xs[..|xs| - 1]) + xs[|xs| - 1]
  }

  /** The sum of all values of a counter. */
  ghost function SumValues<K>(m: map<K, int>): int
    decreases |m|
  {
    if m == map[] then 0
    else
      var k :| k in m;
      assert |(m - {k}).Keys| < |m.Keys| by {
        assert (m - {k}).Keys == m.Keys - {k};
      }
      m[k] + SumValues(m - {k})
  }

  /** The sum does not depend on which key is taken out first. */
  lemma {:induction false} SumValuesRemove<K>(m: map<K, int>, k: K)
    requires k in m
    ensures SumValues(m) == m[k] + SumValues(m - {k})
    decreases |m|
  {
    var j :| j in m && SumValues(m) == m[j] + SumValues(m - {j});
    if j != k {
      assert |(m - {j}).Keys| < |m.Keys| by {
        assert (m - {j}).Keys == m.Keys - {j};
      }
      assert |(m - {k}).Keys| < |m.Keys| by {
        assert (m - {k}).Keys == m.Keys - {k};
      }
      SumValuesRemove(m - {j}, k);
      SumValuesRemove(m - {k}, j);
      assert m - {j} - {k} == m - {k} - {j};
    }
  }

  /** Incrementing one key raises the sum by exactly one. */
  lemma SumValuesInc<K(!new)>(m: map<K, int>, k: K)
    ensures SumValues(Inc(m, k)) == SumValues(m) + 1
  {
    var r := Inc(m, k);
    SumValuesRemove(r, k);
    assert r - {k} == m - {k};
    if k in m {
      SumValuesRemove(m, k);
    } else {
      assert m - {k} == m;
    }
  }

  lemma IncMerge<K(!new)>(a: map<K, int>, b: map<K, int>, k: K)
    ensures Inc(MergeMaps(a, b), k) == MergeMaps(a, Inc(b, k))
  {
    MapsEqual(Inc(MergeMaps(a, b), k), MergeMaps(a, Inc(b, k)));
  }

  lemma IncAllMerge<K(!new)>(a: map<K, int>, b: map<K, int>, keys: set<K>)
    ensures IncAll(MergeMaps(a, b), keys) == MergeMaps(a, IncAll(b, keys))
  {
    IncAllGet(MergeMaps(a, b), keys);
    IncAllGet(b, keys);
    MapsEqual(IncAll(MergeMaps(a, b), keys), MergeMaps(a, IncAll(b, keys)));
  }

  lemma AddToMerge<K(!new)>(a: map<K, int>, b: map<K, int>, k: K, n: int)
    ensures AddTo(MergeMaps(a, b), k, n) == MergeMaps(a, AddTo(b, k, n))
  {
    MapsEqual(AddTo(MergeMaps(a, b), k, n), MergeMaps(a, AddTo(b, k, n)));
  }

  /** Adding twice to a key adds the sum. */
  lemma AddToTwice<K>(m: map<K, int>, k: K, x: int, y: int)
    ensures AddTo(AddTo(m, k, x), k, y) == AddTo(m, k, x + y)
  {
  }

  lemma MergeMapsComm<K(!new)>(a: map<K, int>, b: map<K, int>)
    ensures MergeMaps(a, b) == MergeMaps(b, a)
  {
    MapsEqual(MergeMaps(a, b), MergeMaps(b, a));
  }

  lemma MergeMapsAssoc<K(!new)>(a: map<K, int>, b: map<K, int>, c: map<K, int>)
    ensures MergeMaps(MergeMaps(a, b), c) == MergeMaps(a, MergeMaps(b, c))
  {
    MapsEqual(MergeMaps(MergeMaps(a, b), c), MergeMaps(a, MergeMaps(b, c)));
  }
}
