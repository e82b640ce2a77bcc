/**
 * Document-frequency counting, the aggregate every variant computes: total
 * documents, documents per category, documents per term and documents per
 * (term, category) pair.
 */
module Counting {
  import opened Maps

  /** A document after tokenising: its category and its set of distinct terms. */
  datatype NormDoc = NormDoc(category: string, terms: set<string>)

  datatype Counts = Counts(
    totalDocs: int,
    categoryDocs: map<string, int>,
    termDocs: map<string, int>,
    termCategoryDocs: map<(string, string), int>)

  const EMPTY := Counts(0, map[], map[], map[])

  function PairsOf(terms: set<string>, category: string): (r: set<(string, string)>)
    ensures forall t, c :: (t, c) in r <==> t in terms && c == category
  {
    var r := set t | t in terms :: (t, category);
    assert forall t :: t in terms ==> (t, category) in r;
    r
  }

  lemma PairsOfStep(terms: set<string>, rest: set<string>, t: string, category: string)
    requires t in rest && rest <= terms
    ensures PairsOf(terms - (rest - {t}), category) == PairsOf(terms - rest, category) + {(t, category)}
  {
  }

  /** Before the loop no pair is counted. */
  lemma PairsOfNone(m: map<(string, string), int>, terms: set<string>, category: string)
    ensures IncAll(m, PairsOf(terms - terms, category)) == m
  {
    assert PairsOf(terms - terms, category) == {};
    IncAllEmpty(m);
  }

  /** Counting the pair of one more term of a document. */
  lemma PairCountStep(m: map<(string, string), int>, terms: set<string>, rest: set<string>, t: string,
                      category: string, cur: map<(string, string), int>)
    requires t in rest && rest <= terms
    requires cur == IncAll(m, PairsOf(terms - rest, category))
    ensures Inc(cur, (t, category)) == IncAll(m, PairsOf(terms - (rest - {t}), category))
  {
    PairsOfStep(terms, rest, t, category);
    IncAllAdd(m, PairsOf(terms - rest, category), (t, category), cur);
  }

  /** Counting one document. */
  function AddDoc(cnt: Counts, d: NormDoc): Counts {
    Counts(
      cnt.totalDocs + 1,
      Inc(cnt.categoryDocs, d.category),
      IncAll(cnt.termDocs, d.terms),
      IncAll(cnt.termCategoryDocs, PairsOf(d.terms, d.category)))
  }

  /**
   * Counting one document raises the total and its category by one, and
   * each distinct term, alone and paired with the category, by exactly one,
   * however often the term occurs in the text.
   */
  lemma AddDocCounts(cnt: Counts, d: NormDoc)
    ensures AddDoc(cnt, d).totalDocs == cnt.totalDocs + 1
    ensures forall c :: Get(AddDoc(cnt, d).categoryDocs, c) == Get(cnt.categoryDocs, c) + (if c == d.category then 1 else 0)
    ensures forall t :: Get(AddDoc(cnt, d).termDocs, t) == Get(cnt.termDocs, t) + (if t in d.terms then 1 else 0)
    ensures forall t, c :: Get(AddDoc(cnt, d).termCategoryDocs, (t, c))
                           == Get(cnt.termCategoryDocs, (t, c)) + (if t in d.terms && c == d.category then 1 else 0)
    ensures AddDoc(cnt, d).categoryDocs.Keys == cnt.categoryDocs.Keys + {d.category}
    ensures AddDoc(cnt, d).termCategoryDocs.Keys == cnt.termCategoryDocs.Keys + PairsOf(d.terms, d.category)
  {
    IncAllGet(cnt.termDocs, d.terms);
    IncAllGet(cnt.termCategoryDocs, PairsOf(d.terms, d.category));
  }

  /** The counts of a sequence of documents, taken in order. */
  function Aggregate(ds: seq<NormDoc>): Counts
    decreases |ds|
  {
    if ds == [] then EMPTY else AddDoc(Aggregate(ds[..|ds| - 1]), ds[|ds| - 1])
  }

  /**
   * What counting guarantees: every stored count is positive, a pair never
   * counts more documents than its term or its category, and the documents
   * having the term or the category never outnumber all documents.
   */
  ghost predicate Consistent(cnt: Counts) {
    Positive(cnt) && Bounded(cnt)
  }

  ghost predicate Positive(cnt: Counts) {
    && cnt.totalDocs >= 0
    && (forall c :: c in cnt.categoryDocs ==> cnt.categoryDocs[c] > 0)
    && (forall t :: t in cnt.termDocs ==> cnt.termDocs[t] > 0)
    && (forall p :: p in cnt.termCategoryDocs ==> cnt.termCategoryDocs[p] > 0)
  }

  ghost predicate Bounded(cnt: Counts) {
    && (forall t, c :: Get(cnt.termCategoryDocs, (t, c)) <= Get(cnt.termDocs, t))
    && (forall t, c :: Get(cnt.termCategoryDocs, (t, c)) <= Get(cnt.categoryDocs, c))
    && (forall t, c :: Get(cnt.termDocs, t) + Get(cnt.categoryDocs, c) - Get(cnt.termCategoryDocs, (t, c)) <= cnt.totalDocs)
  }

  lemma AddDocConsistent(cnt: Counts, d: NormDoc)
    requires Consistent(cnt)
    ensures Consistent(AddDoc(cnt, d))
  {
    AddDocPositive(cnt, d);
    AddDocBounded(cnt, d);
  }

  lemma AddDocPositive(cnt: Counts, d: NormDoc)
    requires Positive(cnt)
    ensures Positive(AddDoc(cnt, d))
  {
    var r := AddDoc(cnt, d);
    AddDocCounts(cnt, d);
    forall c | c in r.categoryDocs
      ensures r.categoryDocs[c] > 0
    {
      assert Get(r.categoryDocs, c) == r.categoryDocs[c];
    }
    forall t | t in r.termDocs
      ensures r.termDocs[t] > 0
    {
      assert Get(r.termDocs, t) == r.termDocs[t];
    }
    forall p | p in r.termCategoryDocs
      ensures r.termCategoryDocs[p] > 0
    {
      assert Get(r.termCategoryDocs, (p.0, p.1)) == r.termCategoryDocs[p];
    }
  }

  lemma AddDocBounded(cnt: Counts, d: NormDoc)
    requires Positive(cnt) && Bounded(cnt)
    ensures Bounded(AddDoc(cnt, d))
  {
    var r := AddDoc(cnt, d);
    AddDocCounts(cnt, d);
    forall t, c
      ensures Get(r.termCategoryDocs, (t, c)) <= Get(r.termDocs, t)
      ensures Get(r.termCategoryDocs, (t, c)) <= Get(r.categoryDocs, c)
      ensures Get(r.termDocs, t) + Get(r.categoryDocs, c) - Get(r.termCategoryDocs, (t, c)) <= r.totalDocs
    {
      assert Get(cnt.termCategoryDocs, (t, c)) <= Get(cnt.termDocs, t);
      assert Get(cnt.termCategoryDocs, (t, c)) <= Get(cnt.categoryDocs, c);
      assert Get(cnt.termDocs, t) + Get(cnt.categoryDocs, c) - Get(cnt.termCategoryDocs, (t, c)) <= cnt.totalDocs;
    }
  }

  /** Counting any sequence of documents yields consistent counts. */
  lemma {:induction false} AggregateConsistent(ds: seq<NormDoc>)
    ensures Consistent(Aggregate(ds))
    decreases |ds|
  {
    if ds != [] {
      AggregateConsistent(ds[..|ds| - 1]);
      AddDocConsistent(Aggregate(ds[..|ds| - 1]), ds[|ds| - 1]);
    }
  }

  /** The documents per category add up to the total number of documents. */
  lemma {:induction false} AggregateCategorySum(ds: seq<NormDoc>)
    ensures SumValues(Aggregate(ds).categoryDocs) == Aggregate(ds).totalDocs
    decreases |ds|
  {
    if ds != [] {
      AggregateCategorySum(ds[..|ds| - 1]);
      SumValuesInc(Aggregate(ds[..|ds| - 1]).categoryDocs, ds[|ds| - 1].category);
    }
  }

  /** Per-key addition of two partial aggregates. */
  function Merge(x: Counts, y: Counts): Counts {
    Counts(
      x.totalDocs + y.totalDocs,
      MergeMaps(x.categoryDocs, y.categoryDocs),
      MergeMaps(x.termDocs, y.termDocs),
      MergeMaps(x.termCategoryDocs, y.termCategoryDocs))
  }

  lemma MergeEmpty(x: Counts)
    ensures Merge(x, EMPTY) == x
  {
    MapsEqual(MergeMaps(x.categoryDocs, map[]), x.categoryDocs);
    MapsEqual(MergeMaps(x.termDocs, map[]), x.termDocs);
    MapsEqual(MergeMaps(x.termCategoryDocs, map[]), x.termCategoryDocs);
  }

  /** Partial aggregates can be added in any order and grouping. */
  lemma MergeComm(x: Counts, y: Counts)
    ensures Merge(x, y) == Merge(y, x)
  {
    MergeMapsComm(x.categoryDocs, y.categoryDocs);
    MergeMapsComm(x.termDocs, y.termDocs);
    MergeMapsComm(x.termCategoryDocs, y.termCategoryDocs);
  }

  lemma MergeAssoc(x: Counts, y: Counts, z: Counts)
    ensures Merge(Merge(x, y), z) == Merge(x, Merge(y, z))
  {
    MergeMapsAssoc(x.categoryDocs, y.categoryDocs, z.categoryDocs);
    MergeMapsAssoc(x.termDocs, y.termDocs, z.termDocs);
    MergeMapsAssoc(x.termCategoryDocs, y.termCategoryDocs, z.termCategoryDocs);
  }

  lemma AddDocMerge(x: Counts, y: Counts, d: NormDoc)
    ensures AddDoc(Merge(x, y), d) == Merge(x, AddDoc(y, d))
  {
    IncMerge(x.categoryDocs, y.categoryDocs, d.category);
    IncAllMerge(x.termDocs, y.termDocs, d.terms);
    IncAllMerge(x.termCategoryDocs, y.termCategoryDocs, PairsOf(d.terms, d.category));
  }

  lemma AggregateUnfold(ds: seq<NormDoc>)
    requires ds != []
    ensures Aggregate(ds) == AddDoc(Aggregate(ds[..|ds| - 1]), ds[|ds| - 1])
  {
  }

  lemma AggregateLast(ds1: seq<NormDoc>, ds2: seq<NormDoc>)
    requires ds2 != []
    ensures Aggregate(ds1 + ds2) == AddDoc(Aggregate(ds1 + ds2[..|ds2| - 1]), ds2[|ds2| - 1])
  {
    var s := ds1 + ds2;
    assert s[..|s| - 1] == ds1 + ds2[..|ds2| - 1];
    assert s[|s| - 1] == ds2[|ds2| - 1];
    AggregateUnfold(s);
  }

  lemma AggregateSplitStep(ds1: seq<NormDoc>, ds2: seq<NormDoc>)
    requires ds2 != []
    requires Aggregate(ds1 + ds2[..|ds2| - 1]) == Merge(Aggregate(ds1), Aggregate(ds2[..|ds2| - 1]))
    ensures Aggregate(ds1 + ds2) == Merge(Aggregate(ds1), Aggregate(ds2))
  {
    AggregateLast(ds1, ds2);
    AddDocMerge(Aggregate(ds1), Aggregate(ds2[..|ds2| - 1]), ds2[|ds2| - 1]);
  }

  /**
   * Counting two shards of documents separately and adding the partial
   * counts per key gives the counts of the whole stream.
   */
  lemma {:induction false} AggregateSplit(ds1: seq<NormDoc>, ds2: seq<NormDoc>)
    ensures Aggregate(ds1 + ds2) == Merge(Aggregate(ds1), Aggregate(ds2))
    decreases |ds2|
  {
    if ds2 == [] {
      assert ds1 + ds2 == ds1;
      MergeEmpty(Aggregate(ds1));
    } else {
      AggregateSplit(ds1, ds2[..|ds2| - 1]);
      AggregateSplitStep(ds1, ds2);
    }
  }
}
