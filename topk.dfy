/**
 * `heapq.nlargest(n, items, key=lambda x: x[1])`, which Python documents as
 * `sorted(items, key=key, reverse=True)[:n]`: a stable sort by descending
 * score, cut to its first `n` entries. Entries with equal scores keep their
 * input order.
 */
module TopK {
  import opened Order

  type Entry = (string, real)

  function Value(e: Entry): real { e.1 }

  function MaxValue(xs: seq<Entry>): (m: real)
    requires xs != []
    ensures exists i :: 0 <= i < |xs| && xs[i].1 == m
    ensures forall i :: 0 <= i < |xs| ==> xs[i].1 <= m
    decreases |xs|
  {
    if |xs| == 1 then xs[0].1
    else
      var m := MaxValue(xs[1..]);
      assert forall i :: 1 <= i < |xs| ==> xs[i] == xs[1..][i - 1];
      if xs[0].1 > m then xs[0].1 else m
  }

  /**
   * The stable descending sort: the entries of the highest score in input
   * order, then the others sorted the same way. It is a permutation.
   */
  function SortDesc(xs: seq<Entry>): (r: seq<Entry>)
    ensures multiset(r) == multiset(xs)
    decreases |xs|
  {
    if xs == [] then []
    else
      var m := MaxValue(xs);
      TiesOthersMultiset(xs, Value, m);
      Ties(xs, Value, m) + SortDesc(Others(xs, Value, m))
  }

  function Min(x: nat, y: nat): nat { if x < y then x else y }

  /** The first `n` entries of the sorted list: at most `n` entries, fewer only when there are fewer. */
  function NLargest(n: nat, xs: seq<Entry>): (r: seq<Entry>)
    ensures |r| == Min(n, |xs|)
  {
    var s := SortDesc(xs);
    assert |s| == |multiset(s)| == |xs|;
    s[..Min(n, |xs|)]
  }

  /** The entries `NLargest` leaves out. */
  function Dropped(n: nat, xs: seq<Entry>): (r: seq<Entry>)
    ensures multiset(NLargest(n, xs)) + multiset(r) == multiset(xs)
  {
    var s := SortDesc(xs);
    assert |s| == |multiset(s)| == |xs|;
    assert s[..Min(n, |xs|)] + s[Min(n, |xs|)..] == s;
    s[Min(n, |xs|)..]
  }

  predicate NonIncreasing(xs: seq<Entry>) {
    forall i, j :: 0 <= i < j < |xs| ==> xs[j].1 <= xs[i].1
  }

  lemma MultisetMember(x: Entry, a: seq<Entry>, b: seq<Entry>)
    requires multiset(a) == multiset(b)
    requires x in a
    ensures x in b
  {
    assert x in multiset(a);
  }

  /** Everything after the top score's entries scores below it. */
  lemma OthersBelowMax(xs: seq<Entry>, tail: seq<Entry>)
    requires xs != []
    requires multiset(tail) == multiset(Others(xs, Value, MaxValue(xs)))
    ensures forall k :: 0 <= k < |tail| ==> tail[k].1 < MaxValue(xs)
  {
    var m := MaxValue(xs);
    var rest := Others(xs, Value, m);
    TiesOthersMultiset(xs, Value, m);
    forall k | 0 <= k < |tail|
      ensures tail[k].1 < m
    {
      MultisetMember(tail[k], tail, rest);
      assert tail[k] in multiset(xs);
    }
  }

  /** The sort is descending. */
  lemma {:induction false} SortDescOrdered(xs: seq<Entry>)
    ensures NonIncreasing(SortDesc(xs))
    decreases |xs|
  {
    if xs != [] {
      var m := MaxValue(xs);
      var head, rest := Ties(xs, Value, m), Others(xs, Value, m);
      SortDescOrdered(rest);
      var tail := SortDesc(rest);
      OthersBelowMax(xs, tail);
      var r := head + tail;
      assert r == SortDesc(xs);
      forall i, j | 0 <= i < j < |r|
        ensures r[j].1 <= r[i].1
      {
        if j < |head| {
          assert r[i] == head[i] && r[j] == head[j];
        } else if i < |head| {
          assert r[i] == head[i] && r[j] == tail[j - |head|];
        } else {
          assert r[i] == tail[i - |head|] && r[j] == tail[j - |head|];
        }
      }
    }
  }

  /** Each score's entries appear in the sorted output in their input order. */
  lemma {:induction false} SortDescStable(xs: seq<Entry>)
    ensures forall v :: Ties(SortDesc(xs), Value, v) == Ties(xs, Value, v)
    decreases |xs|
  {
    if xs != [] {
      var m := MaxValue(xs);
      var head, rest := Ties(xs, Value, m), Others(xs, Value, m);
      SortDescStable(rest);
      var tail := SortDesc(rest);
      assert head + tail == SortDesc(xs);
      forall v
        ensures Ties(head + tail, Value, v) == Ties(xs, Value, v)
      {
        TiesConcat(head, tail, Value, v);
        TiesOfUniform(head, Value, m, v);
        TiesOfOthers(xs, Value, m, v);
      }
    }
  }

  /**
   * What `nlargest` promises: the kept entries come from the input, are in
   * non-increasing score order, none scores below a dropped entry, and of
   * each score the kept entries are the earliest ones of the input.
   */
  lemma NLargestCorrect(n: nat, xs: seq<Entry>)
    ensures multiset(NLargest(n, xs)) <= multiset(xs)
    ensures NonIncreasing(NLargest(n, xs))
    ensures forall i, j :: 0 <= i < |NLargest(n, xs)| && 0 <= j < |Dropped(n, xs)| ==>
              Dropped(n, xs)[j].1 <= NLargest(n, xs)[i].1
    ensures forall v :: Ties(NLargest(n, xs), Value, v) <= Ties(xs, Value, v)
  {
    var s := SortDesc(xs);
    var k := Min(n, |xs|);
    assert |s| == |multiset(s)| == |xs|;
    SortDescOrdered(xs);
    SortDescStable(xs);
    assert NLargest(n, xs) == s[..k] && Dropped(n, xs) == s[k..];
    CutSorted(s, k);
    forall v
      ensures Ties(s[..k], Value, v) <= Ties(xs, Value, v)
    {
      TiesPrefix(s, k, Value, v);
    }
  }

  /** Cutting a descending list leaves a descending head that scores no lower than the rest. */
  lemma CutSorted(s: seq<Entry>, k: nat)
    requires k <= |s|
    requires NonIncreasing(s)
    ensures NonIncreasing(s[..k])
    ensures forall i, j :: 0 <= i < k && 0 <= j < |s| - k ==> s[k..][j].1 <= s[..k][i].1
  {
    forall i, j | 0 <= i < j < k
      ensures s[..k][j].1 <= s[..k][i].1
    {
      assert s[..k][i] == s[i] && s[..k][j] == s[j];
    }
    forall i, j | 0 <= i < k && 0 <= j < |s| - k
      ensures s[k..][j].1 <= s[..k][i].1
    {
      assert s[..k][i] == s[i] && s[k..][j] == s[k + j];
    }
  }
}
