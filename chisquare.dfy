/**
 * The 2x2 contingency table of a (term, category) pair and its chi-square
 * statistic, as the three variants compute it. The statistic is an exact
 * real here; the rounding of Python's float division is not modelled.
 */
module ChiSquare {
  import opened Maps
  import opened Counting
  import Text

  /**
   * A: documents of the category with the term; B: with the term, outside
   * the category; C: in the category, without the term; D: neither.
   */
  datatype Table = Table(a: int, b: int, c: int, d: int)

  function Size(t: Table): int { t.a + t.b + t.c + t.d }

  /** The product of the four marginals. */
  function Denominator(t: Table): int {
    (t.a + t.b) * (t.a + t.c) * (t.b + t.d) * (t.c + t.d)
  }

  predicate NonNegative(t: Table) {
    t.a >= 0 && t.b >= 0 && t.c >= 0 && t.d >= 0
  }

  /**
   * The table of term `t` and category `c` read off the counts: A is the
   * pair count, A+B the term's documents, A+C the category's documents and
   * D whatever is left of the total.
   */
  function TableOf(cnt: Counts, t: string, c: string): (r: Table)
    ensures r.a == Get(cnt.termCategoryDocs, (t, c))
    ensures r.a + r.b == Get(cnt.termDocs, t)
    ensures r.a + r.c == Get(cnt.categoryDocs, c)
    ensures Size(r) == cnt.totalDocs
  {
    var a := Get(cnt.termCategoryDocs, (t, c));
    var b := Get(cnt.termDocs, t) - a;
    var c := Get(cnt.categoryDocs, c) - a;
    Table(a, b, c, cnt.totalDocs - a - b - c)
  }

  /**
   * The statistic of the sequential and single-job variants: zero when the
   * product of the marginals is zero, N (AD - BC)^2 over that product
   * otherwise. It is zero exactly when the denominator is zero, the table is
   * empty, or AD = BC.
   */
  function Score(t: Table): (r: real)
    ensures r == 0.0 <==> Denominator(t) == 0 || Size(t) == 0 || t.a * t.d == t.b * t.c
  {
    var num := Size(t) * ((t.a * t.d - t.b * t.c) * (t.a * t.d - t.b * t.c));
    if Denominator(t) == 0 then 0.0
    else
      QuotientZero(num, Denominator(t));
      ProductZero(Size(t), t.a * t.d - t.b * t.c);
      num as real / Denominator(t) as real
  }

  /**
   * The statistic of the four-job variant: zero when N or any marginal is
   * zero, the same quotient otherwise.
   */
  function CalculatorScore(t: Table): (r: real)
    ensures r == Score(t)
  {
    var n := Size(t);
    if n == 0 || t.a + t.b == 0 || t.a + t.c == 0 || t.b + t.d == 0 || t.c + t.d == 0 then
      MarginalsZero(t);
      0.0
    else
      MarginalsZero(t);
      var num := n * ((t.a * t.d - t.b * t.c) * (t.a * t.d - t.b * t.c));
      num as real / Denominator(t) as real
  }

  /**
   * The statistic as the source writes it out, with the document total `n`
   * in place of A+B+C+D.
   */
  lemma ScoreFormula(n: int, t: Table)
    requires n == Size(t)
    ensures Denominator(t) == 0 ==> Score(t) == 0.0
    ensures Denominator(t) != 0 ==>
              Score(t) == (n * ((t.a * t.d - t.b * t.c) * (t.a * t.d - t.b * t.c))) as real / Denominator(t) as real
  {
  }

  /**
   * The statistic computed step by step as the sequential and single-job
   * variants write it, from the document total `n` and the four cells.
   */
  method ComputeScore(n: int, a: int, b: int, c: int, d: int) returns (chi: real)
    requires n == a + b + c + d
    ensures chi == Score(Table(a, b, c, d))
  {
    var denominator := (a + b) * (a + c) * (b + d) * (c + d);
    ScoreFormula(n, Table(a, b, c, d));
    if denominator == 0 {
      chi := 0.0;
    } else {
      chi := (n * ((a * d - b * c) * (a * d - b * c))) as real / denominator as real;
    }
  }

  // ---------------------------------------------------------------------
  // Arithmetic facts

  lemma ProductZero(x: int, y: int)
    ensures x * (y * y) == 0 <==> x == 0 || y == 0
  {
    if x != 0 && y != 0 {
      assert y * y > 0;
      if x > 0 {
        assert x * (y * y) > 0;
      } else {
        assert x * (y * y) < 0;
      }
    }
  }

  lemma QuotientZero(x: int, y: int)
    requires y != 0
    ensures x as real / y as real == 0.0 <==> x == 0
  {
    if x as real / y as real == 0.0 {
      assert x as real == (x as real / y as real) * y as real;
    }
  }

  lemma ProductOfFourZero(p: int, q: int, r: int, s: int)
    ensures p * q * r * s == 0 <==> p == 0 || q == 0 || r == 0 || s == 0
  {
    if p != 0 && q != 0 && r != 0 && s != 0 {
      NonZeroProduct(p, q);
      NonZeroProduct(p * q, r);
      NonZeroProduct(p * q * r, s);
    }
  }

  lemma NonZeroProduct(x: int, y: int)
    requires x != 0 && y != 0
    ensures x * y != 0
  {
    if x > 0 && y > 0 {
      assert x * y > 0;
    } else if x > 0 {
      assert x * y < 0;
    } else if y > 0 {
      assert x * y < 0;
    } else {
      assert x * y > 0;
    }
  }

  /** A zero product of marginals means some marginal is zero, and an empty table has a zero product. */
  lemma MarginalsZero(t: Table)
    ensures Denominator(t) == 0 <==> t.a + t.b == 0 || t.a + t.c == 0 || t.b + t.d == 0 || t.c + t.d == 0
    ensures Size(t) == 0 && Denominator(t) != 0 ==> Score(t) == 0.0
  {
    ProductOfFourZero(t.a + t.b, t.a + t.c, t.b + t.d, t.c + t.d);
  }

  // ---------------------------------------------------------------------
  // Properties

  /** Counting yields tables whose four cells are never negative. */
  lemma TableNonNegative(cnt: Counts, t: string, c: string)
    requires Consistent(cnt)
    ensures NonNegative(TableOf(cnt, t, c))
  {
    assert Get(cnt.termCategoryDocs, (t, c)) >= 0 by {
      if (t, c) in cnt.termCategoryDocs {
        assert cnt.termCategoryDocs[(t, c)] > 0;
      }
    }
    assert Get(cnt.termCategoryDocs, (t, c)) <= Get(cnt.termDocs, t);
    assert Get(cnt.termCategoryDocs, (t, c)) <= Get(cnt.categoryDocs, c);
    assert Get(cnt.termDocs, t) + Get(cnt.categoryDocs, c) - Get(cnt.termCategoryDocs, (t, c)) <= cnt.totalDocs;
  }

  lemma NonNegativeDenominator(t: Table)
    requires NonNegative(t)
    ensures Denominator(t) >= 0
  {
    var p, q := (t.a + t.b) * (t.a + t.c), (t.b + t.d) * (t.c + t.d);
    assert p >= 0 && q >= 0;
    assert Denominator(t) == p * q;
  }

  /** On a table with no negative cell the statistic is never negative. */
  lemma ScoreNonNegative(t: Table)
    requires NonNegative(t)
    ensures Score(t) >= 0.0
  {
    NonNegativeDenominator(t);
    if Denominator(t) != 0 {
      var e := t.a * t.d - t.b * t.c;
      assert e * e >= 0;
      assert Size(t) * (e * e) >= 0;
      QuotientNonNegative(Size(t) * (e * e), Denominator(t));
    }
  }

  lemma QuotientNonNegative(x: int, y: int)
    requires x >= 0 && y > 0
    ensures x as real / y as real >= 0.0
  {
  }

  /**
   * The four-job zero test (N or a marginal is zero) holds on a table with
   * no negative cell exactly when the product of the marginals is zero,
   * which is the test of the other two variants.
   */
  lemma CalculatorZeroTest(t: Table)
    requires NonNegative(t)
    ensures (Size(t) == 0 || t.a + t.b == 0 || t.a + t.c == 0 || t.b + t.d == 0 || t.c + t.d == 0)
            <==> Denominator(t) == 0
  {
    MarginalsZero(t);
  }

  /** Every counted pair scores a non-negative statistic. */
  lemma CountedScoreNonNegative(cnt: Counts, t: string, c: string)
    requires Consistent(cnt)
    ensures Score(TableOf(cnt, t, c)) >= 0.0
  {
    TableNonNegative(cnt, t, c);
    ScoreNonNegative(TableOf(cnt, t, c));
  }

  // ---------------------------------------------------------------------
  // Per-category score lists

  /**
   * `chi_square_values[category][term] = score` for every (term, category)
   * of `order`, taken in order: each category's terms in the order their
   * pairs first appear.
   */
  function ScoreLists(cnt: Counts, order: seq<(string, string)>): (m: map<string, seq<(string, real)>>)
    ensures forall c :: c in m <==> exists i :: 0 <= i < |order| && order[i].1 == c
    ensures forall c :: c in m ==> m[c] != []
    decreases |order|
  {
    if order == [] then map[]
    else
      var m := ScoreLists(cnt, order[..|order| - 1]);
      var (t, c) := order[|order| - 1];
      var r := m[c := (if c in m then m[c] else []) + [(t, Score(TableOf(cnt, t, c)))]];
      assert forall i :: 0 <= i < |order| - 1 ==> order[..|order| - 1][i] == order[i];
      r
  }

  /**
   * A category's list holds exactly the terms paired with it in `order`,
   * each with the statistic of its own table.
   */
  lemma {:induction false} ScoreListsEntries(cnt: Counts, order: seq<(string, string)>, c: string)
    requires c in ScoreLists(cnt, order)
    ensures forall t, s :: (t, s) in ScoreLists(cnt, order)[c] <==> (t, c) in order && s == Score(TableOf(cnt, t, c))
    decreases |order|
  {
    var init := order[..|order| - 1];
    var (t0, c0) := order[|order| - 1];
    assert order == init + [(t0, c0)];
    var m := ScoreLists(cnt, init);
    if c in m {
      ScoreListsEntries(cnt, init, c);
    }
    if c != c0 {
      assert c in m;
    }
  }

  /** When every pair appears once in `order`, no category lists a term twice. */
  lemma {:induction false} ScoreListsDistinct(cnt: Counts, order: seq<(string, string)>, c: string)
    requires Text.Distinct(order)
    requires c in ScoreLists(cnt, order)
    ensures Text.Distinct(TermsOf(ScoreLists(cnt, order)[c]))
    decreases |order|
  {
    var init := order[..|order| - 1];
    var (t0, c0) := order[|order| - 1];
    var m := ScoreLists(cnt, init);
    var old_ := if c in m then m[c] else [];
    var r := ScoreLists(cnt, order)[c];
    assert forall i :: 0 <= i < |init| ==> init[i] == order[i];
    if c in m {
      assert Text.Distinct(init);
      ScoreListsDistinct(cnt, init, c);
      ScoreListsEntries(cnt, init, c);
    }
    if c == c0 {
      assert r == old_ + [(t0, Score(TableOf(cnt, t0, c0)))];
      assert (t0, c0) !in init by {
        forall i | 0 <= i < |init| ensures init[i] != (t0, c0) {
          assert init[i] == order[i];
        }
      }
      forall i | 0 <= i < |old_| ensures old_[i].0 != t0 {
        var (t, s) := old_[i];
        assert (t, s) in m[c];
        assert (t, c) in init;
      }
      TermsOfSnoc(old_, (t0, Score(TableOf(cnt, t0, c0))));
    } else {
      assert r == m[c];
    }
  }

  /** Scoring one more pair appends it to its category's list. */
  lemma ScoreListsSnoc(cnt: Counts, order: seq<(string, string)>, i: nat)
    requires i < |order|
    ensures ScoreLists(cnt, order[..i + 1])
            == ScoreLists(cnt, order[..i])[order[i].1 := (if order[i].1 in ScoreLists(cnt, order[..i]) then ScoreLists(cnt, order[..i])[order[i].1] else [])
                                                         + [(order[i].0, Score(TableOf(cnt, order[i].0, order[i].1)))]]
  {
    assert order[..i + 1][..i] == order[..i];
  }

  function TermsOf(xs: seq<(string, real)>): (r: seq<string>)
    ensures |r| == |xs| && forall i :: 0 <= i < |xs| ==> r[i] == xs[i].0
  {
    seq(|xs|, i requires 0 <= i < |xs| => xs[i].0)
  }

  lemma TermsOfSnoc(xs: seq<(string, real)>, e: (string, real))
    requires Text.Distinct(TermsOf(xs))
    requires forall i :: 0 <= i < |xs| ==> xs[i].0 != e.0
    ensures Text.Distinct(TermsOf(xs + [e]))
  {
    var r := TermsOf(xs + [e]);
    forall i, j | 0 <= i < j < |r| ensures r[i] != r[j] {
      if j < |xs| {
        assert r[i] == TermsOf(xs)[i] && r[j] == TermsOf(xs)[j];
      }
    }
  }

  /**
   * The scoring loop shared by the sequential pipeline and the single job:
   * the per-category score lists, visiting the pairs in the insertion order
   * of the pair counter.
   */
  method CalculateChiSquare(cnt: Counts, order: seq<(string, string)>) returns (chi: map<string, seq<(string, real)>>)
    requires Text.Distinct(order)
    requires forall p :: p in order <==> p in cnt.termCategoryDocs
    ensures chi == ScoreLists(cnt, order)
  {
    chi := map[];
    var i := 0;
    while i < |order|
      invariant 0 <= i <= |order|
      invariant chi == ScoreLists(cnt, order[..i])
    {
      chi := ScorePair(cnt, order, i, chi);
      i := i + 1;
    }
    assert order[..|order|] == order;
  }

  /** The body of the loop: the contingency table of one pair, its statistic, and the append to its category's list. */
  method ScorePair(cnt: Counts, order: seq<(string, string)>, i: nat, chi: map<string, seq<(string, real)>>)
    returns (chi': map<string, seq<(string, real)>>)
    requires i < |order|
    requires chi == ScoreLists(cnt, order[..i])
    ensures chi' == ScoreLists(cnt, order[..i + 1])
  {
    var (term, category) := order[i];
    var a := Get(cnt.termCategoryDocs, (term, category));
    var b := Get(cnt.termDocs, term) - a;
    var c := Get(cnt.categoryDocs, category) - a;
    var d := cnt.totalDocs - a - b - c;
    var chiSquare := ComputeScore(cnt.totalDocs, a, b, c, d);
    assert Table(a, b, c, d) == TableOf(cnt, term, category);
    ScoreListsSnoc(cnt, order, i);
    chi' := chi[category := (if category in chi then chi[category] else []) + [(term, chiSquare)]];
  }
}
