/**
 * Python's ordering of `str` values, `sorted` over a set of strings, and the
 * filters by key that describe stable sorts.
 */
module Order {

  /** `a < b` on Python strings: lexicographic by code point. */
  predicate Less(a: string, b: string)
    decreases |a|
  {
    if a == [] then b != []
    else if b == [] then false
    else a[0] < b[0] || (a[0] == b[0] && Less(a[1..], b[1..]))
  }

  lemma {:induction false} LessIrreflexive(a: string)
    ensures !Less(a, a)
    decreases |a|
  {
    if a != [] {
      LessIrreflexive(a[1..]);
    }
  }

  lemma {:induction false} LessTransitive(a: string, b: string, c: string)
    requires Less(a, b) && Less(b, c)
    ensures Less(a, c)
    decreases |a|
  {
    if a != [] && a[0] == b[0] == c[0] {
      LessTransitive(a[1..], b[1..], c[1..]);
    }
  }

  lemma {:induction false} LessAsymmetric(a: string, b: string)
    ensures Less(a, b) ==> !Less(b, a)
    decreases |a|
  {
    if a != [] && b != [] && a[0] == b[0] {
      LessAsymmetric(a[1..], b[1..]);
    }
  }

  lemma {:induction false} LessTotal(a: string, b: string)
    ensures a == b || Less(a, b) || Less(b, a)
    decreases |a|
  {
    if a != [] && b != [] && a[0] == b[0] {
      LessTotal(a[1..], b[1..]);
      if a[1..] == b[1..] {
        assert a == [a[0]] + a[1..] && b == [b[0]] + b[1..];
      }
    }
  }

  lemma LessAsymmetricAll()
    ensures forall a, b :: Less(a, b) ==> !Less(b, a)
  {
    forall a, b ensures Less(a, b) ==> !Less(b, a) {
      LessAsymmetric(a, b);
    }
  }

  predicate IsMin(m: string, s: set<string>) {
    m in s && forall x :: x in s && x != m ==> Less(m, x)
  }

  lemma {:induction false} MinExists(s: set<string>)
    requires s != {}
    ensures exists m :: IsMin(m, s)
    decreases |s|
  {
    var y :| y in s;
    if s == {y} {
      assert IsMin(y, s);
    } else {
      MinExists(s - {y});
      var m :| IsMin(m, s - {y});
      LessTotal(m, y);
      if Less(y, m) {
        forall x | x in s && x != y
          ensures Less(y, x)
        {
          if x != m {
            LessTransitive(y, m, x);
          }
        }
        assert IsMin(y, s);
      } else {
        assert IsMin(m, s);
      }
    }
  }

  /** The least string of a non-empty set. */
  function SetMin(s: set<string>): (m: string)
    requires s != {}
    ensures IsMin(m, s)
  {
    MinExists(s);
    LessAsymmetricAll();
    var m :| IsMin(m, s);
    m
  }

  predicate StrictlySorted(xs: seq<string>) {
    forall i, j :: 0 <= i < j < |xs| ==> Less(xs[i], xs[j])
  }

  /** `sorted(s)` for a set of strings: ascending, each element once. */
  function SortedSet(s: set<string>): (r: seq<string>)
    ensures StrictlySorted(r)
    ensures forall x :: x in r <==> x in s
    ensures |r| == |s|
    decreases |s|
  {
    if s == {} then []
    else
      var m := SetMin(s);
      var rest := SortedSet(s - {m});
      assert forall j :: 0 <= j < |rest| ==> Less(m, rest[j]) by {
        forall j | 0 <= j < |rest| ensures Less(m, rest[j]) {
          assert rest[j] in s - {m};
        }
      }
      var r := [m] + rest;
      assert forall i, j :: 0 <= i < j < |r| ==> Less(r[i], r[j]) by {
        forall i, j | 0 <= i < j < |r| ensures Less(r[i], r[j]) {
          assert r[j] == rest[j - 1];
          if i > 0 {
            assert r[i] == rest[i - 1];
          }
        }
      }
      r
  }

  /** A strictly ascending sequence holds no element twice. */
  lemma StrictlySortedDistinct(xs: seq<string>)
    requires StrictlySorted(xs)
    ensures forall i, j :: 0 <= i < j < |xs| ==> xs[i] != xs[j]
  {
    forall i, j | 0 <= i < j < |xs|
      ensures xs[i] != xs[j]
    {
      LessIrreflexive(xs[i]);
    }
  }

  // ---------------------------------------------------------------------
  // Filters by key: the tie classes of a stable sort

  /** The elements whose key is `v`, in order. */
  function Ties<T, K(==)>(xs: seq<T>, key: T -> K, v: K): (r: seq<T>)
    ensures forall i :: 0 <= i < |r| ==> key(r[i]) == v
    ensures |r| <= |xs|
    decreases |xs|
  {
    if xs == [] then []
    else if key(xs[0]) == v then [xs[0]] + Ties(xs[1..], key, v)
    else Ties(xs[1..], key, v)
  }

  /** The elements whose key is not `v`, in order; shorter when some key is `v`. */
  function Others<T, K(==)>(xs: seq<T>, key: T -> K, v: K): (r: seq<T>)
    ensures forall i :: 0 <= i < |r| ==> key(r[i]) != v
    ensures |r| <= |xs|
    ensures (exists i :: 0 <= i < |xs| && key(xs[i]) == v) ==> |r| < |xs|
    decreases |xs|
  {
    if xs == [] then []
    else if key(xs[0]) == v then Others(xs[1..], key, v)
    else
      var r := Others(xs[1..], key, v);
      assert (exists i :: 0 <= i < |xs| && key(xs[i]) == v) ==> (exists i :: 0 <= i < |xs[1..]| && key(xs[1..][i]) == v) by {
        if exists i :: 0 <= i < |xs| && key(xs[i]) == v {
          var i :| 0 <= i < |xs| && key(xs[i]) == v;
          assert i > 0 && key(xs[1..][i - 1]) == v;
        }
      }
      [xs[0]] + r
  }

  lemma {:induction false} TiesOthersMultiset<T, K>(xs: seq<T>, key: T -> K, v: K)
    ensures multiset(Ties(xs, key, v)) + multiset(Others(xs, key, v)) == multiset(xs)
    decreases |xs|
  {
    if xs != [] {
      TiesOthersMultiset(xs[1..], key, v);
      assert xs == [xs[0]] + xs[1..];
    }
  }

  lemma {:induction false} TiesConcat<T, K>(a: seq<T>, b: seq<T>, key: T -> K, v: K)
    ensures Ties(a + b, key, v) == Ties(a, key, v) + Ties(b, key, v)
    decreases |a|
  {
    if a == [] {
      assert a + b == b;
    } else {
      TiesConcat(a[1..], b, key, v);
      assert (a + b)[0] == a[0] && (a + b)[1..] == a[1..] + b;
    }
  }

  /** The tie class of a prefix is a prefix of the tie class. */
  lemma {:induction false} TiesPrefix<T, K>(xs: seq<T>, k: nat, key: T -> K, v: K)
    requires k <= |xs|
    ensures Ties(xs[..k], key, v) <= Ties(xs, key, v)
  {
    TiesConcat(xs[..k], xs[k..], key, v);
    assert xs[..k] + xs[k..] == xs;
  }

  lemma {:induction false} TiesOfUniform<T, K>(xs: seq<T>, key: T -> K, v: K, w: K)
    requires forall i :: 0 <= i < |xs| ==> key(xs[i]) == v
    ensures Ties(xs, key, w) == if v == w then xs else []
    decreases |xs|
  {
    if xs != [] {
      TiesOfUniform(xs[1..], key, v, w);
      assert xs == [xs[0]] + xs[1..];
    }
  }

  lemma {:induction false} TiesOfOthers<T, K>(xs: seq<T>, key: T -> K, v: K, w: K)
    ensures Ties(Others(xs, key, v), key, w) == if v == w then [] else Ties(xs, key, w)
    decreases |xs|
  {
    if xs != [] {
      TiesOfOthers(xs[1..], key, v, w);
    }
  }

  // ---------------------------------------------------------------------
  // Stable sort by name, ascending

  function Name(e: (string, string)): string { e.0 }

  /** The least name in a non-empty sequence of named entries. */
  function MinName(es: seq<(string, string)>): (m: string)
    requires es != []
    ensures exists i :: 0 <= i < |es| && es[i].0 == m
    ensures forall i :: 0 <= i < |es| ==> !Less(es[i].0, m)
    decreases |es|
  {
    if |es| == 1 then
      LessIrreflexive(es[0].0);
      es[0].0
    else
      var m := MinName(es[1..]);
      assert forall i :: 1 <= i < |es| ==> es[i] == es[1..][i - 1];
      if Less(es[0].0, m) then
        LessIrreflexive(es[0].0);
        assert forall i :: 1 <= i < |es| ==> !Less(es[i].0, es[0].0) by {
          forall i | 1 <= i < |es|
            ensures !Less(es[i].0, es[0].0)
          {
            if Less(es[i].0, es[0].0) {
              LessTransitive(es[i].0, es[0].0, m);
            }
          }
        }
        es[0].0
      else
        m
  }

  /**
   * `sorted(es, key=lambda x: x[0])`: Python's sort is stable, so entries
   * with the same name keep their relative order. Modelled as: the entries
   * with the least name, in input order, then the rest sorted the same way.
   */
  function SortByName(es: seq<(string, string)>): (r: seq<(string, string)>)
    decreases |es|
  {
    if es == [] then []
    else
      var m := MinName(es);
      Ties(es, Name, m) + SortByName(Others(es, Name, m))
  }

  /**
   * The sorted entries are a permutation of the input, ascending by name,
   * and the entries of each name keep their input order.
   */
  lemma {:induction false} SortByNameCorrect(es: seq<(string, string)>)
    ensures multiset(SortByName(es)) == multiset(es)
    ensures forall i, j :: 0 <= i < j < |SortByName(es)| ==> !Less(SortByName(es)[j].0, SortByName(es)[i].0)
    ensures forall n :: Ties(SortByName(es), Name, n) == Ties(es, Name, n)
    decreases |es|
  {
    if es != [] {
      var m := MinName(es);
      var head, rest := Ties(es, Name, m), Others(es, Name, m);
      SortByNameCorrect(rest);
      var tail := SortByName(rest);
      var r := head + tail;
      assert r == SortByName(es);
      TiesOthersMultiset(es, Name, m);
      forall i, j | 0 <= i < j < |r|
        ensures !Less(r[j].0, r[i].0)
      {
        LessIrreflexive(m);
        if j >= |head| {
          assert r[j] == tail[j - |head|];
          assert r[j] in multiset(rest);
          var k :| 0 <= k < |rest| && rest[k] == r[j];
          assert r[j].0 != m;
          assert r[j] in es by {
            assert r[j] in multiset(es);
          }
          var e :| 0 <= e < |es| && es[e] == r[j];
          assert !Less(r[j].0, m);
          if i < |head| {
            assert r[i].0 == m;
          } else {
            assert r[i] == tail[i - |head|];
          }
        }
      }
      forall n
        ensures Ties(r, Name, n) == Ties(es, Name, n)
      {
        TiesConcat(head, tail, Name, n);
        TiesOfUniform(head, Name, m, n);
        TiesOfOthers(es, Name, m, n);
        if n == m {
          TiesOfOthers(es, Name, m, m);
          assert Ties(head, Name, m) == head;
        }
      }
    }
  }
  // ---------------------------------------------------------------------
  // Sorting entries whose names are all different

  function Names(es: seq<(string, string)>): (r: seq<string>)
    ensures |r| == |es|
    ensures forall i :: 0 <= i < |es| ==> r[i] == es[i].0
  {
    seq(|es|, i requires 0 <= i < |es| => es[i].0)
  }

  function NameSet(es: seq<(string, string)>): set<string> {
    set i | 0 <= i < |es| :: es[i].0
  }

  predicate DistinctNames(es: seq<(string, string)>) {
    forall i, j :: 0 <= i < j < |es| ==> es[i].0 != es[j].0
  }

  lemma NamesCons(e: (string, string), es: seq<(string, string)>)
    ensures Names([e] + es) == [e.0] + Names(es)
  {
  }

  lemma {:induction false} TiesAbsent(es: seq<(string, string)>, v: string)
    requires forall i :: 0 <= i < |es| ==> es[i].0 != v
    ensures Ties(es, Name, v) == []
    decreases |es|
  {
    if es != [] {
      TiesAbsent(es[1..], v);
    }
  }

  /** With distinct names, the tie class of a name holds the one entry of that name. */
  lemma {:induction false} TiesOfDistinct(es: seq<(string, string)>, k: nat)
    requires DistinctNames(es) && k < |es|
    ensures Ties(es, Name, es[k].0) == [es[k]]
    decreases |es|
  {
    if k == 0 {
      TiesAbsent(es[1..], es[0].0);
    } else {
      assert es[1..][k - 1] == es[k];
      TiesOfDistinct(es[1..], k - 1);
    }
  }

  lemma NameSetCons(e: (string, string), es: seq<(string, string)>)
    ensures NameSet([e] + es) == {e.0} + NameSet(es)
  {
    var r := [e] + es;
    assert r[0].0 == e.0;
    forall n | n in NameSet(r) ensures n in {e.0} + NameSet(es) {
      var i :| 0 <= i < |r| && r[i].0 == n;
      if i > 0 {
        assert es[i - 1].0 == n;
      }
    }
    forall n | n in NameSet(es) ensures n in NameSet(r) {
      var i :| 0 <= i < |es| && es[i].0 == n;
      assert r[i + 1].0 == n;
    }
  }

  lemma DistinctCons(e: (string, string), es: seq<(string, string)>)
    ensures DistinctNames([e] + es) <==> DistinctNames(es) && e.0 !in NameSet(es)
  {
    var r := [e] + es;
    if DistinctNames(r) {
      forall i, j | 0 <= i < j < |es| ensures es[i].0 != es[j].0 {
        assert r[i + 1] == es[i] && r[j + 1] == es[j];
      }
      forall i | 0 <= i < |es| ensures es[i].0 != e.0 {
        assert r[0] == e && r[i + 1] == es[i];
        assert r[0].0 != r[i + 1].0;
      }
    }
    if DistinctNames(es) && e.0 !in NameSet(es) {
      forall i, j | 0 <= i < j < |r| ensures r[i].0 != r[j].0 {
        assert r[j] == es[j - 1];
        if i > 0 {
          assert r[i] == es[i - 1];
        }
      }
    }
  }

  /** Removing one name's entries keeps the names distinct and removes that name. */
  lemma {:induction false} OthersOfDistinct(es: seq<(string, string)>, v: string)
    requires DistinctNames(es)
    ensures DistinctNames(Others(es, Name, v))
    ensures NameSet(Others(es, Name, v)) == NameSet(es) - {v}
    decreases |es|
  {
    if es != [] {
      var tail := es[1..];
      assert es == [es[0]] + tail;
      NameSetCons(es[0], tail);
      DistinctCons(es[0], tail);
      OthersOfDistinct(tail, v);
      var rest := Others(tail, Name, v);
      if es[0].0 != v {
        assert Others(es, Name, v) == [es[0]] + rest;
        NameSetCons(es[0], rest);
        DistinctCons(es[0], rest);
      }
    }
  }

  /**
   * Sorting entries with distinct names by name lists the names in
   * ascending order, each once: the order `sorted` gives the set of names.
   */
  lemma {:induction false} SortByNameDistinct(es: seq<(string, string)>)
    requires DistinctNames(es)
    ensures Names(SortByName(es)) == SortedSet(NameSet(es))
    decreases |es|
  {
    if es == [] {
      assert NameSet(es) == {};
    } else {
      var m := MinName(es);
      var k :| 0 <= k < |es| && es[k].0 == m;
      var rest := Others(es, Name, m);
      TiesOfDistinct(es, k);
      OthersOfDistinct(es, m);
      SortByNameDistinct(rest);
      assert m in NameSet(es);
      var least := SetMin(NameSet(es));
      assert least == m by {
        var i :| 0 <= i < |es| && es[i].0 == least;
        assert !Less(least, m);
      }
      assert SortedSet(NameSet(es)) == [m] + SortedSet(NameSet(es) - {m});
      assert SortByName(es) == [es[k]] + SortByName(rest);
      NamesCons(es[k], SortByName(rest));
    }
  }

  // ---------------------------------------------------------------------
  // Rearrangements

  /** Taking the last element of `a` and an equal element of `b` out of two permutations leaves permutations. */
  lemma RemoveOne<T>(a: seq<T>, b: seq<T>, j: nat)
    requires multiset(a) == multiset(b)
    requires a != [] && j < |b| && b[j] == a[|a| - 1]
    ensures multiset(a[..|a| - 1]) == multiset(b[..j] + b[j + 1..])
  {
    var x, front := a[|a| - 1], a[..|a| - 1];
    var l, r := b[..j], b[j + 1..];
    assert a == front + [x];
    assert b == l + [x] + r;
    assert multiset(a) == multiset(front) + multiset{x};
    assert multiset(b) == multiset(l) + multiset{x} + multiset(r);
    assert multiset(l + r) == multiset(l) + multiset(r);
    forall e
      ensures multiset(front)[e] == multiset(l + r)[e]
    {
      assert multiset(a)[e] == multiset(b)[e];
    }
  }
}
