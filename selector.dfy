/**
 * The selection job of the four-job pipeline (top_terms_selector.py). Its
 * first step re-keys each statistic by (category, -score) so that the
 * shuffle sorts the terms of a category by descending score, and keeps the
 * first 75 terms a reducer call receives; its second step gathers the kept
 * terms of each category and the sorted union of all kept terms.
 */
module Selector {
  import opened Wrappers
  import opened Text
  import opened Order
  import opened TopK
  import Calculator

  const TOP_N: nat := 75

  const ALL_TERMS: string := "ALL_TERMS"

  /** A value of the first step's output: a scored term for its category, or a term for the union. */
  datatype Selected = Scored(term: string, score: real) | Term(term: string)

  // ---------------------------------------------------------------------
  // First step

  /**
   * `mapper_reformat_for_sorting`: `c|t` with exactly two `|`-fields (else
   * ValueError) becomes the composite key (c, -score) with the term as value.
   */
  function MapperReformat(key: string, score: real): (r: Result<((string, real), string)>)
    ensures r.Success? <==> |SplitOn(key, '|')| == 2
    ensures r.Success? ==> r.value.0.1 == -score
    ensures r.Success? ==> key == r.value.0.0 + "|" + r.value.1
  {
    var parts := SplitOn(key, '|');
    if |parts| != 2 then Failure(Unpack(|parts|))
    else
      JoinSplitOn(key, '|');
      assert Join('|', parts) == parts[0] + "|" + parts[1];
      Success(((parts[0], -score), parts[1]))
  }

  /** The scoring job's output key reads back as its category and term. */
  lemma MapperReformatScoreKey(c: string, t: string, score: real)
    requires '|' !in t && '|' !in c
    ensures MapperReformat(Calculator.ScoreKey(c, t), score) == Success(((c, -score), t))
  {
    Calculator.ScoreKeyFields(c, t);
  }

  /** What the first step's reducer emits for kept entries, entry by entry. */
  function EmitsOf(category: string, es: seq<Entry>): (r: seq<(string, Selected)>)
    ensures |r| == 2 * |es|
    decreases |es|
  {
    if es == [] then []
    else
      var e := es[|es| - 1];
      EmitsOf(category, es[..|es| - 1]) + [(category, Scored(e.0, e.1)), (ALL_TERMS, Term(e.0))]
  }

  /** The terms of one reducer call, each with the call's score. */
  function Group(terms: seq<string>, score: real): (r: seq<Entry>)
    ensures |r| == |terms|
    ensures forall i :: 0 <= i < |terms| ==> r[i] == (terms[i], score)
  {
    seq(|terms|, i requires 0 <= i < |terms| => (terms[i], score))
  }

  /**
   * The counting loop shared by the reducer as written and the corrected
   * one: emit the entries in arrival order while fewer than 75 have been
   * emitted, then stop.
   */
  method TakeTop(category: string, es: seq<Entry>) returns (out: seq<(string, Selected)>)
    ensures out == EmitsOf(category, es[..Min(TOP_N, |es|)])
  {
    out := [];
    var count := 0;
    var i := 0;
    while i < |es|
      invariant 0 <= i <= |es| && count == i <= TOP_N
      invariant out == EmitsOf(category, es[..i])
    {
      if count < TOP_N {
        assert es[..i + 1][..i] == es[..i];
        out := out + [(category, Scored(es[i].0, es[i].1)), (ALL_TERMS, Term(es[i].0))];
      } else {
        break;
      }
      count := count + 1;
      i := i + 1;
    }
  }

  /**
   * `reducer_collect_top_terms` as written: the reducer of one composite
   * key (category, -score) emits the first 75 of the terms it receives,
   * each with the score the key carries.
   */
  method CollectTopTerms(category: string, negScore: real, terms: seq<string>) returns (out: seq<(string, Selected)>)
    ensures out == EmitsOf(category, Group(terms, -negScore)[..Min(TOP_N, |terms|)])
  {
    out := TakeTop(category, Group(terms, -negScore));
  }

  /**
   * The corrected reducer: one call per category receives all of the
   * category's scored terms and emits the 75 best, in non-increasing score
   * order, ties in arrival order.
   */
  method CollectCategoryTop(category: string, entries: seq<Entry>) returns (out: seq<(string, Selected)>)
    ensures out == EmitsOf(category, NLargest(TOP_N, entries))
  {
    var sorted := SortDesc(entries);
    assert |sorted| == |multiset(sorted)| == |entries|;
    out := TakeTop(category, sorted);
  }

  /** The number of scored terms emitted for a category. */
  function ScoredCount(out: seq<(string, Selected)>, category: string): nat
    decreases |out|
  {
    if out == [] then 0
    else ScoredCount(out[..|out| - 1], category) + (if out[|out| - 1].0 == category && out[|out| - 1].1.Scored? then 1 else 0)
  }

  lemma {:induction false} ScoredCountConcat(a: seq<(string, Selected)>, b: seq<(string, Selected)>, category: string)
    ensures ScoredCount(a + b, category) == ScoredCount(a, category) + ScoredCount(b, category)
    decreases |b|
  {
    if b == [] {
      assert a + b == a;
    } else {
      ScoredCountConcat(a, b[..|b| - 1], category);
      assert (a + b)[..|a + b| - 1] == a + b[..|b| - 1];
    }
  }

  /**
   * Each kept entry is emitted twice: scored under its category and as a
   * plain term under ALL_TERMS; so a category receives one scored term per
   * kept entry.
   */
  lemma {:induction false} EmitsOfShape(category: string, es: seq<Entry>)
    requires category != ALL_TERMS
    ensures forall i :: 0 <= i < |es| ==>
              EmitsOf(category, es)[2 * i] == (category, Scored(es[i].0, es[i].1))
              && EmitsOf(category, es)[2 * i + 1] == (ALL_TERMS, Term(es[i].0))
    ensures ScoredCount(EmitsOf(category, es), category) == |es|
    decreases |es|
  {
    if es != [] {
      var init := es[..|es| - 1];
      var e := es[|es| - 1];
      EmitsOfShape(category, init);
      ScoredCountConcat(EmitsOf(category, init), [(category, Scored(e.0, e.1)), (ALL_TERMS, Term(e.0))], category);
      ScoredCountPair(category, e);
    }
  }

  lemma ScoredCountPair(category: string, e: Entry)
    requires category != ALL_TERMS
    ensures ScoredCount([(category, Scored(e.0, e.1)), (ALL_TERMS, Term(e.0))], category) == 1
  {
    var pair := [(category, Scored(e.0, e.1)), (ALL_TERMS, Term(e.0))];
    assert pair[..1] == [(category, Scored(e.0, e.1))];
    var none: seq<(string, Selected)> := [];
    assert pair[..1][..0] == none;
    assert ScoredCount(pair[..1], category) == ScoredCount(none, category) + 1;
    assert ScoredCount(pair, category) == ScoredCount(pair[..1], category);
  }

  /**
   * One call of the reducer as written emits min(75, n) of its n terms, in
   * arrival order, each with the score its key carries and each also as a
   * plain term under ALL_TERMS.
   */
  lemma CollectTopTermsCount(category: string, negScore: real, terms: seq<string>)
    requires category != ALL_TERMS
    ensures var out := EmitsOf(category, Group(terms, -negScore)[..Min(TOP_N, |terms|)]);
            && ScoredCount(out, category) == Min(TOP_N, |terms|) <= TOP_N
            && forall i :: 0 <= i < Min(TOP_N, |terms|) ==>
                 out[2 * i] == (category, Scored(terms[i], -negScore)) && out[2 * i + 1] == (ALL_TERMS, Term(terms[i]))
  {
    var kept := Group(terms, -negScore)[..Min(TOP_N, |terms|)];
    EmitsOfShape(category, kept);
  }

  /** The corrected reducer keeps at most 75 terms of a category, the best ones. */
  lemma CollectCategoryTopBound(category: string, entries: seq<Entry>)
    requires category != ALL_TERMS
    ensures ScoredCount(EmitsOf(category, NLargest(TOP_N, entries)), category) == Min(TOP_N, |entries|) <= TOP_N
    ensures NonIncreasing(NLargest(TOP_N, entries))
    ensures forall i, j :: 0 <= i < |NLargest(TOP_N, entries)| && 0 <= j < |Dropped(TOP_N, entries)| ==>
              Dropped(TOP_N, entries)[j].1 <= NLargest(TOP_N, entries)[i].1
  {
    EmitsOfShape(category, NLargest(TOP_N, entries));
    NLargestCorrect(TOP_N, entries);
  }

  // ---------------------------------------------------------------------
  // The 75 limit as written

  /**
   * What the first step's reducers emit together, one call per composite
   * key (category, -score) with the terms that share that score.
   */
  function AsWrittenSelection(groups: seq<((string, real), seq<string>)>): seq<(string, Selected)>
    decreases |groups|
  {
    if groups == [] then []
    else
      var g := groups[|groups| - 1];
      AsWrittenSelection(groups[..|groups| - 1]) + EmitsOf(g.0.0, Group(g.1, -g.0.1)[..Min(TOP_N, |g.1|)])
  }

  /**
   * When every score of a category is held by a single term, every term is
   * kept, however many there are: the count restarts with each score.
   */
  lemma {:induction false} AsWrittenKeepsAll(groups: seq<((string, real), seq<string>)>, category: string)
    requires category != ALL_TERMS
    requires forall i :: 0 <= i < |groups| ==> groups[i].0.0 == category && |groups[i].1| == 1
    ensures ScoredCount(AsWrittenSelection(groups), category) == |groups|
    decreases |groups|
  {
    if groups != [] {
      var g := groups[|groups| - 1];
      AsWrittenKeepsAll(groups[..|groups| - 1], category);
      var kept := Group(g.1, -g.0.1)[..Min(TOP_N, |g.1|)];
      EmitsOfShape(category, kept);
      ScoredCountConcat(AsWrittenSelection(groups[..|groups| - 1]), EmitsOf(category, kept), category);
    }
  }

  /**
   * A category with 76 terms of 76 different scores: the first step as
   * written keeps all 76 of them, one more than the limit.
   */
  lemma AsWrittenOverLimit()
    ensures var groups := seq(76, i requires 0 <= i < 76 => (("c", -(i as real)), [seq(i + 2, _ => 'a')]));
            ScoredCount(AsWrittenSelection(groups), "c") == 76 > TOP_N
  {
    var groups := seq(76, i requires 0 <= i < 76 => (("c", -(i as real)), [seq(i + 2, _ => 'a')]));
    AsWrittenKeepsAll(groups, "c");
  }

  // ---------------------------------------------------------------------
  // Second step

  /**
   * `mapper_prepare_output` emits each pair unchanged, so the second step
   * sees the first step's output as it is.
   */
  function PrepareOutput(key: string, value: Selected): seq<(string, Selected)> {
    [(key, value)]
  }

  function PrepareAll(kvs: seq<(string, Selected)>): seq<(string, Selected)>
    decreases |kvs|
  {
    if kvs == [] then [] else PrepareAll(kvs[..|kvs| - 1]) + PrepareOutput(kvs[|kvs| - 1].0, kvs[|kvs| - 1].1)
  }

  lemma {:induction false} PrepareAllIdentity(kvs: seq<(string, Selected)>)
    ensures PrepareAll(kvs) == kvs
    decreases |kvs|
  {
    if kvs != [] {
      PrepareAllIdentity(kvs[..|kvs| - 1]);
      assert kvs == kvs[..|kvs| - 1] + [kvs[|kvs| - 1]];
    }
  }

  /** The second step's output values: the union of all kept terms, or one category's kept entries. */
  datatype Formatted = TermList(terms: seq<string>) | EntryList(entries: seq<Entry>)

  function TermsIn(values: seq<Selected>): (r: set<string>)
    ensures forall t :: t in r <==> exists i :: 0 <= i < |values| && values[i].term == t
  {
    set i | 0 <= i < |values| :: values[i].term
  }

  function EntriesOf(values: seq<Selected>): (r: seq<Entry>)
    requires forall i :: 0 <= i < |values| ==> values[i].Scored?
    ensures |r| == |values|
    ensures forall i :: 0 <= i < |values| ==> r[i] == (values[i].term, values[i].score)
  {
    seq(|values|, i requires 0 <= i < |values| => (values[i].term, values[i].score))
  }

  /**
   * `reducer_format_output`: the ALL_TERMS values become the sorted,
   * duplicate-free list of their terms under MERGED_DICT (a scored value
   * among them, from a category named ALL_TERMS, reaches `set` as a list
   * and raises TypeError); any other key's values are passed on in arrival
   * order as one list.
   */
  function ReduceFormat(key: string, values: seq<Selected>): (r: Result<(string, Formatted)>)
    requires key != ALL_TERMS ==> forall i :: 0 <= i < |values| ==> values[i].Scored?
    ensures key == ALL_TERMS ==> (r.Success? <==> forall i :: 0 <= i < |values| ==> values[i].Term?)
    ensures key == ALL_TERMS && r.Success? ==>
              && r.value.0 == "MERGED_DICT" && r.value.1.TermList?
              && StrictlySorted(r.value.1.terms)
              && (forall t :: t in r.value.1.terms <==> exists i :: 0 <= i < |values| && values[i].term == t)
    ensures key != ALL_TERMS ==>
              && r.Success? && r.value.0 == key && r.value.1.EntryList?
              && |r.value.1.entries| == |values|
              && (forall i :: 0 <= i < |values| ==> r.value.1.entries[i] == (values[i].term, values[i].score))
  {
    if key == ALL_TERMS then
      if forall i :: 0 <= i < |values| ==> values[i].Term? then
        Success(("MERGED_DICT", TermList(SortedSet(TermsIn(values)))))
      else
        Failure(Unhashable)
    else
      Success((key, EntryList(EntriesOf(values))))
  }
}
