/**
 * The single map/reduce job of chi_square.py. The mapper emits a count of
 * one per (term, category) and one `(None, category)` marker per document,
 * the combiner sums the counts of a key, and one reducer rebuilds the four
 * counters, scores every pair, keeps the 75 best terms per category and
 * yields the report.
 */
module SingleJob {
  import opened Wrappers
  import opened Text
  import opened Maps
  import opened Counting
  import opened ChiSquare
  import opened TopK
  import opened Order
  import opened Output
  import opened Reviews

  const TOP_N: nat := 75

  /** The mapper's key `(term, category)`; `None` is the document marker. */
  type Key = (Option<string>, string)

  // ---------------------------------------------------------------------
  // Mapper

  /** `[t.lower() for t in ts]`. */
  function LowerAll(ts: seq<string>): (r: seq<string>)
    ensures |r| == |ts|
    ensures forall i :: 0 <= i < |ts| ==> r[i] == Lower(ts[i])
  {
    seq(|ts|, i requires 0 <= i < |ts| => Lower(ts[i]))
  }

  /**
   * The terms of a review as the mapper finds them: the set of raw tokens
   * minus the stopwords, then lowercased and kept when longer than one
   * character. The set is iterated in first-occurrence order.
   */
  function MapperTerms(text: string, stopwords: set<string>): seq<string> {
    LowerAll(Keep(Dedup(Split(text, SingleJobDelimiter)), stopwords))
  }

  /** A count of one per term, in order. */
  function TermYields(terms: seq<string>, category: string): (r: seq<(Key, int)>)
    ensures |r| == |terms|
  {
    seq(|terms|, i requires 0 <= i < |terms| => ((Some(terms[i]), category), 1))
  }

  /** The yields of one document: a count of one per term, then the marker. */
  function Emit(terms: seq<string>, category: string): (r: seq<(Key, int)>)
    ensures |r| == |terms| + 1
  {
    TermYields(terms, category) + [((None, category), 1)]
  }

  /** A line the mapper can read: a JSON object with both fields it looks up. */
  predicate Decodable(line: Line) {
    line.Record? && "reviewText" in line.fields && "category" in line.fields
  }

  /**
   * `json.loads(line)`, then `["reviewText"]` and `["category"]`: a line
   * that is not JSON raises first, then a missing review text, then a
   * missing category.
   */
  function ReviewFields(line: Line): (r: Result<(string, string)>)
    ensures r.Success? <==> Decodable(line)
    ensures r.Success? ==> r.value == (line.fields["reviewText"], line.fields["category"])
    ensures line.Malformed? ==> r == Failure(DecodeError)
    ensures line.Record? && "reviewText" !in line.fields ==> r == Failure(MissingKey("reviewText"))
    ensures line.Record? && "reviewText" in line.fields && "category" !in line.fields ==> r == Failure(MissingKey("category"))
  {
    match line
    case Malformed => Failure(DecodeError)
    case Record(fields) =>
      match Lookup(fields, "reviewText")
      case Failure(e) => Failure(e)
      case Success(text) =>
        match Lookup(fields, "category")
        case Failure(e) => Failure(e)
        case Success(category) => Success((text, category))
  }

  /**
   * `mapper` as written: a line it cannot read raises; any other line
   * yields its terms and the marker. Lowercasing after the set is taken
   * can yield one term twice (see `CaseCollision`).
   */
  function Mapper(line: Line, stopwords: set<string>): (r: Result<seq<(Key, int)>>)
    ensures r.Success? <==> Decodable(line)
    ensures r.Failure? ==> r.error == ReviewFields(line).error
  {
    match ReviewFields(line)
    case Failure(e) => Failure(e)
    case Success((text, category)) => Success(Emit(MapperTerms(text, stopwords), category))
  }

  /**
   * `mapper` as intended: each lowercase term of a review counted once, the
   * first occurrences kept in order.
   */
  function MapperFixed(line: Line, stopwords: set<string>): (r: Result<seq<(Key, int)>>)
    ensures r.Success? <==> Decodable(line)
    ensures r.Failure? ==> r.error == ReviewFields(line).error
  {
    match ReviewFields(line)
    case Failure(e) => Failure(e)
    case Success((text, category)) => Success(Emit(Dedup(MapperTerms(text, stopwords)), category))
  }

  /** Every term the mapper finds is the lowercase form of a raw token that passes the filter. */
  lemma MapperTermsSound(text: string, stopwords: set<string>, t: string)
    requires t in MapperTerms(text, stopwords)
    ensures exists u :: u in Split(text, SingleJobDelimiter) && u !in stopwords && |u| > 1 && t == Lower(u)
  {
    var raw := Split(text, SingleJobDelimiter);
    var kept := Keep(Dedup(raw), stopwords);
    DedupSpec(raw);
    KeepSpec(Dedup(raw), stopwords);
    var terms := MapperTerms(text, stopwords);
    var i :| 0 <= i < |terms| && terms[i] == t;
    var u := kept[i];
    assert u in kept;
    assert u in Split(text, SingleJobDelimiter) && t == Lower(u);
  }

  /** Every raw token that passes the filter is found, lowercased. */
  lemma MapperTermsComplete(text: string, stopwords: set<string>, u: string)
    requires u in Split(text, SingleJobDelimiter) && u !in stopwords && |u| > 1
    ensures Lower(u) in MapperTerms(text, stopwords)
  {
    var raw := Split(text, SingleJobDelimiter);
    var kept := Keep(Dedup(raw), stopwords);
    DedupSpec(raw);
    KeepSpec(Dedup(raw), stopwords);
    assert u in Dedup(raw);
    assert u in kept;
    var i :| 0 <= i < |kept| && kept[i] == u;
    assert MapperTerms(text, stopwords)[i] == Lower(u);
  }

  /** The yields of a document: the marker last, and before it a count of one for each term, in order. */
  lemma EmitShape(terms: seq<string>, category: string)
    ensures Emit(terms, category)[|terms|] == ((None, category), 1)
    ensures forall i :: 0 <= i < |terms| ==> Emit(terms, category)[i] == ((Some(terms[i]), category), 1)
  {
  }

  /** A term is counted in a document's yields exactly when it is one of its terms. */
  lemma EmitMember(terms: seq<string>, category: string, t: string)
    ensures ((Some(t), category), 1) in Emit(terms, category) <==> t in terms
  {
    var ys := Emit(terms, category);
    EmitShape(terms, category);
    if ((Some(t), category), 1) in ys {
      var i :| 0 <= i < |ys| && ys[i] == ((Some(t), category), 1);
      assert i < |terms| && terms[i] == t;
    }
    if t in terms {
      var i :| 0 <= i < |terms| && terms[i] == t;
      assert ys[i] == ((Some(t), category), 1);
    }
  }

  /**
   * What a decoded review yields: exactly one marker, last, and before it
   * counts of one under the review's category.
   */
  lemma MapperYields(fields: map<string, string>, stopwords: set<string>)
    requires "reviewText" in fields && "category" in fields
    ensures Mapper(Record(fields), stopwords).Success?
    ensures var ys := Mapper(Record(fields), stopwords).value;
            && ys[|ys| - 1] == ((None, fields["category"]), 1)
            && (forall i :: 0 <= i < |ys| - 1 ==> ys[i].0.0.Some? && ys[i].0.1 == fields["category"] && ys[i].1 == 1)
  {
    EmitShape(MapperTerms(fields["reviewText"], stopwords), fields["category"]);
  }

  /** Every term the mapper counts is the lowercase form of a raw token that is no stopword and longer than one character. */
  lemma MapperYieldsSound(fields: map<string, string>, stopwords: set<string>, t: string)
    requires "reviewText" in fields && "category" in fields
    requires ((Some(t), fields["category"]), 1) in Mapper(Record(fields), stopwords).value
    ensures exists u :: u in Split(fields["reviewText"], SingleJobDelimiter) && u !in stopwords && |u| > 1 && t == Lower(u)
  {
    EmitMember(MapperTerms(fields["reviewText"], stopwords), fields["category"], t);
    MapperTermsSound(fields["reviewText"], stopwords, t);
  }

  /** Every raw token that is no stopword and longer than one character is counted, lowercased. */
  lemma MapperYieldsComplete(fields: map<string, string>, stopwords: set<string>, u: string)
    requires "reviewText" in fields && "category" in fields
    requires u in Split(fields["reviewText"], SingleJobDelimiter) && u !in stopwords && |u| > 1
    ensures ((Some(Lower(u)), fields["category"]), 1) in Mapper(Record(fields), stopwords).value
  {
    MapperTermsComplete(fields["reviewText"], stopwords, u);
    EmitMember(MapperTerms(fields["reviewText"], stopwords), fields["category"], Lower(u));
  }

  /**
   * Stopwords are taken out before lowercasing: a capitalised token whose
   * lowercase form is a stopword is still counted.
   */
  lemma StopwordsBeforeLowercase(fields: map<string, string>, stopwords: set<string>, u: string)
    requires "reviewText" in fields && "category" in fields
    requires u in Split(fields["reviewText"], SingleJobDelimiter) && |u| > 1
    requires u !in stopwords && Lower(u) in stopwords
    ensures var ys := Mapper(Record(fields), stopwords).value;
            ((Some(Lower(u)), fields["category"]), 1) in ys && Lower(u) in stopwords
  {
    MapperYieldsComplete(fields, stopwords, u);
  }

  /** `combiner`: the sum of the counts of one key, re-keyed under `None`. */
  function Combiner(key: Key, counts: seq<int>): (r: (Key, int))
    ensures r.0 == key
    ensures counts == [] ==> r.1 == 0
  {
    (key, Sum(counts))
  }

  /** The pairs that reach the combiner for one key. */
  function Ungrouped(key: Key, counts: seq<int>): (r: seq<(Key, int)>)
    ensures |r| == |counts|
  {
    seq(|counts|, i requires 0 <= i < |counts| => (key, counts[i]))
  }

  // ---------------------------------------------------------------------
  // Reducer, first loop: the four counters

  /**
   * One `(key, count)` pair read by the reducer: a marker adds its count to
   * `N` and to its category, a term's count is added to the term and to the
   * (term, category) pair. Every counter adds, as the evident intent is.
   */
  function TallyStep(cnt: Counts, kc: (Key, int)): Counts {
    var (key, n) := kc;
    match key.0
    case None => Counts(cnt.totalDocs + n, AddTo(cnt.categoryDocs, key.1, n), cnt.termDocs, cnt.termCategoryDocs)
    case Some(t) => Counts(cnt.totalDocs, cnt.categoryDocs, AddTo(cnt.termDocs, t, n), AddTo(cnt.termCategoryDocs, (t, key.1), n))
  }

  /** The counters after reading `kcs` in order. */
  function Tally(kcs: seq<(Key, int)>): Counts
    decreases |kcs|
  {
    if kcs == [] then EMPTY else TallyStep(Tally(kcs[..|kcs| - 1]), kcs[|kcs| - 1])
  }

  /**
   * The loop as written: `N` and the term counter add, but the category
   * counter and the pair counter are assigned, so of several partial counts
   * of one key only the last read survives.
   */
  function TallyStepAsWritten(cnt: Counts, kc: (Key, int)): Counts {
    var (key, n) := kc;
    match key.0
    case None => Counts(cnt.totalDocs + n, cnt.categoryDocs[key.1 := n], cnt.termDocs, cnt.termCategoryDocs)
    case Some(t) => Counts(cnt.totalDocs, cnt.categoryDocs, AddTo(cnt.termDocs, t, n), cnt.termCategoryDocs[(t, key.1) := n])
  }

  function TallyAsWritten(kcs: seq<(Key, int)>): Counts
    decreases |kcs|
  {
    if kcs == [] then EMPTY else TallyStepAsWritten(TallyAsWritten(kcs[..|kcs| - 1]), kcs[|kcs| - 1])
  }

  /**
   * Two combiners (two map tasks) each saw documents of category `c`: the
   * loop as written keeps only the second partial count of the category,
   * below the total it also computes; adding keeps both.
   */
  lemma TallyAsWrittenLosesCounts()
    ensures var kcs := [((None, "c"), 2), ((None, "c"), 3)];
            && TallyAsWritten(kcs).totalDocs == 5
            && TallyAsWritten(kcs).categoryDocs["c"] == 3
            && Tally(kcs).totalDocs == 5
            && Tally(kcs).categoryDocs["c"] == 5
  {
    var kcs: seq<(Key, int)> := [((None, "c"), 2), ((None, "c"), 3)];
    assert kcs[..1] == [((None, "c"), 2)] && kcs[..1][..0] == [];
  }

  /**
   * With one value per key, which is what a single map task's combiner
   * hands on, the assigning loop as written computes the same counters as
   * the adding one.
   */
  lemma {:induction false} AsWrittenAgrees(kcs: seq<(Key, int)>)
    requires forall i, j :: 0 <= i < j < |kcs| ==> kcs[i].0 != kcs[j].0
    ensures TallyAsWritten(kcs) == Tally(kcs)
    decreases |kcs|
  {
    if kcs != [] {
      var front, x := kcs[..|kcs| - 1], kcs[|kcs| - 1];
      assert forall i :: 0 <= i < |front| ==> front[i] == kcs[i];
      AsWrittenAgrees(front);
      TallyKeys(front);
      var cnt := Tally(front);
      assert x.0.0.None? ==> x.0.1 !in cnt.categoryDocs;
      assert x.0.0.Some? ==> (x.0.0.value, x.0.1) !in cnt.termCategoryDocs;
      StepAgrees(cnt, x);
      assert kcs[..|kcs| - 1] == front;
    }
  }

  /** Assigning and adding agree on a key not counted before. */
  lemma StepAgrees(cnt: Counts, kc: (Key, int))
    requires kc.0.0.None? ==> kc.0.1 !in cnt.categoryDocs
    requires kc.0.0.Some? ==> (kc.0.0.value, kc.0.1) !in cnt.termCategoryDocs
    ensures TallyStepAsWritten(cnt, kc) == TallyStep(cnt, kc)
  {
  }

  /** A category or a pair is counted only when some pair read names it. */
  lemma {:induction false} TallyKeys(kcs: seq<(Key, int)>)
    ensures forall c :: c in Tally(kcs).categoryDocs ==> exists i :: 0 <= i < |kcs| && kcs[i].0 == (None, c)
    ensures forall p :: p in Tally(kcs).termCategoryDocs ==> exists i :: 0 <= i < |kcs| && kcs[i].0 == (Some(p.0), p.1)
    decreases |kcs|
  {
    if kcs != [] {
      var front := kcs[..|kcs| - 1];
      TallyKeys(front);
      assert forall i :: 0 <= i < |front| ==> front[i] == kcs[i];
    }
  }

  /** Reading one more pair commutes with adding a partial aggregate in front. */
  lemma TallyStepMerge(x: Counts, y: Counts, kc: (Key, int))
    ensures TallyStep(Merge(x, y), kc) == Merge(x, TallyStep(y, kc))
  {
    var (key, n) := kc;
    match key.0
    case None =>
      AddToMerge(x.categoryDocs, y.categoryDocs, key.1, n);
    case Some(t) =>
      AddToMerge(x.termDocs, y.termDocs, t, n);
      AddToMerge(x.termCategoryDocs, y.termCategoryDocs, (t, key.1), n);
  }

  /** The counters of two runs of input add up. */
  lemma {:induction false} TallyConcat(xs: seq<(Key, int)>, ys: seq<(Key, int)>)
    ensures Tally(xs + ys) == Merge(Tally(xs), Tally(ys))
    decreases |ys|
  {
    if ys == [] {
      assert xs + ys == xs;
      MergeEmpty(Tally(xs));
    } else {
      var ys' := ys[..|ys| - 1];
      assert (xs + ys)[..|xs + ys| - 1] == xs + ys';
      TallyConcat(xs, ys');
      TallyStepMerge(Tally(xs), Tally(ys'), ys[|ys| - 1]);
    }
  }

  /** The counters do not depend on the order in which the pairs arrive. */
  lemma {:induction false} TallyPermutation(xs: seq<(Key, int)>, ys: seq<(Key, int)>)
    requires multiset(xs) == multiset(ys)
    ensures Tally(xs) == Tally(ys)
    decreases |xs|
  {
    if xs == [] {
      assert |ys| == |multiset(ys)| == 0;
    } else {
      var x := xs[|xs| - 1];
      var front := xs[..|xs| - 1];
      assert xs == front + [x];
      assert x in multiset(ys);
      var j :| 0 <= j < |ys| && ys[j] == x;
      var a, b := ys[..j], ys[j + 1..];
      assert ys == a + [x] + b;
      RemoveOne(xs, ys, j);
      TallyPermutation(front, a + b);
      TallyConcat(front, [x]);
      TallyMoveLast(a, x, b);
    }
  }

  /** Reading one pair in the middle of a run counts as reading it last. */
  lemma TallyMoveLast(a: seq<(Key, int)>, x: (Key, int), b: seq<(Key, int)>)
    ensures Tally(a + [x] + b) == Merge(Tally(a + b), Tally([x]))
  {
    TallyConcat(a, b);
    TallyConcat(a + [x], b);
    TallyConcat(a, [x]);
    MergeAssoc(Tally(a), Tally([x]), Tally(b));
    MergeComm(Tally([x]), Tally(b));
    MergeAssoc(Tally(a), Tally(b), Tally([x]));
  }

  /** Running the combiner on a key's counts leaves the counters unchanged. */
  lemma {:induction false} CombinerTransparent(key: Key, counts: seq<int>)
    requires counts != []
    ensures Tally(Ungrouped(key, counts)) == Tally([Combiner(key, counts)])
    decreases |counts|
  {
    var n := |counts|;
    if n > 1 {
      var front := counts[..n - 1];
      CombinerTransparent(key, front);
      assert Ungrouped(key, counts)[..n - 1] == Ungrouped(key, front);
      assert [Combiner(key, front)][..0] == [] && [Combiner(key, counts)][..0] == [];
      match key.0
      case None =>
        AddToTwice(map[], key.1, Combiner(key, front).1, counts[n - 1]);
      case Some(t) =>
        AddToTwice(map[], t, Combiner(key, front).1, counts[n - 1]);
        AddToTwice(map[], (t, key.1), Combiner(key, front).1, counts[n - 1]);
    } else {
      assert Ungrouped(key, counts) == [(key, counts[0])];
      assert counts[..0] == [];
      assert Sum(counts) == Sum(counts[..0]) + counts[0];
    }
  }

  // ---------------------------------------------------------------------
  // From the mapper to the counters

  /** The counters of one document's yields, when its terms are distinct, are those of counting the document once. */
  lemma {:induction false} TermYieldsTally(terms: seq<string>, category: string)
    requires Distinct(terms)
    ensures Tally(TermYields(terms, category))
            == Counts(0, map[], IncAll(map[], TermSet(terms)), IncAll(map[], PairsOf(TermSet(terms), category)))
    decreases |terms|
  {
    var s := TermSet(terms);
    if terms == [] {
      assert s == {};
      assert PairsOf(s, category) == {};
      var noTerms: map<string, int> := map[];
      var noPairs: map<(string, string), int> := map[];
      IncAllEmpty(noTerms);
      IncAllEmpty(noPairs);
    } else {
      var n := |terms|;
      var front, t := terms[..n - 1], terms[n - 1];
      var s' := TermSet(front);
      assert Distinct(front);
      assert t !in s';
      assert s == s' + {t} by {
        assert terms == front + [t];
      }
      assert TermYields(terms, category)[..n - 1] == TermYields(front, category);
      TermYieldsTally(front, category);
      IncAllAdd(map[], s', t, IncAll(map[], s'));
      assert PairsOf(s', category) + {(t, category)} == PairsOf(s, category);
      IncAllAdd(map[], PairsOf(s', category), (t, category), IncAll(map[], PairsOf(s', category)));
    }
  }

  /** A document whose terms are distinct is counted exactly as `AddDoc` counts it. */
  lemma DocTally(terms: seq<string>, category: string)
    requires Distinct(terms)
    ensures Tally(Emit(terms, category)) == AddDoc(EMPTY, NormDoc(category, TermSet(terms)))
  {
    assert Emit(terms, category)[..|terms|] == TermYields(terms, category);
    TermYieldsTally(terms, category);
  }

  lemma SplitBAb()
    ensures Split("b ab", SingleJobDelimiter) == ["b", "ab"]
  {
    var d := SingleJobDelimiter;
    assert !d('a') && !d('b') && d(' ');
    assert Split("", d) == [""];
    assert "b" == ['b'] + "";
    SplitCons('b', "", d);
    assert "ab" == ['a'] + "b";
    SplitCons('a', "b", d);
    assert " ab" == [' '] + "ab";
    SplitDelimiter(' ', "ab", d);
    assert "b ab" == ['b'] + " ab";
    SplitCons('b', " ab", d);
    assert Split("b ab", d) == ["b", "ab"];
  }

  /** `re.split` of "Ab ab" gives the tokens "Ab" and "ab". */
  lemma SplitAbAb()
    ensures Split("Ab ab", SingleJobDelimiter) == ["Ab", "ab"]
  {
    SplitBAb();
    assert !SingleJobDelimiter('A');
    assert "Ab ab" == ['A'] + "b ab";
    assert "Ab" == ['A'] + "b";
    SplitCons('A', "b ab", SingleJobDelimiter);
  }

  /**
   * "Ab ab" holds the tokens "Ab" and "ab"; both survive the set and
   * lowercase to "ab".
   */
  lemma CaseCollisionTerms()
    ensures MapperTerms("Ab ab", {}) == ["ab", "ab"]
  {
    SplitAbAb();
    FilterAbAb();
    LowerAb();
  }

  lemma FilterAbAb()
    ensures Keep(Dedup(["Ab", "ab"]), {}) == ["Ab", "ab"]
  {
    var raw: seq<string> := ["Ab", "ab"];
    assert raw[..1] == ["Ab"] && raw[..1][..0] == [];
    assert "ab" != "Ab" by {
      assert "ab"[0] != "Ab"[0];
    }
    assert Dedup(raw) == raw;
    assert raw[1..] == ["ab"] && raw[1..][1..] == [];
    assert Keep(["ab"], {}) == ["ab"];
  }

  lemma LowerAb()
    ensures Lower("Ab") == "ab" && Lower("ab") == "ab"
  {
    var x, y := Lower("Ab"), Lower("ab");
    assert |x| == 2 && x[0] == 'a' && x[1] == 'b';
    assert |y| == 2 && y[0] == 'a' && y[1] == 'b';
  }

  /** The yields of a document that counts "ab" twice. */
  lemma CaseCollisionTally()
    ensures var cnt := Tally(Emit(["ab", "ab"], "c"));
            && ("ab", "c") in cnt.termCategoryDocs && cnt.termCategoryDocs[("ab", "c")] == 2
            && "c" in cnt.categoryDocs && cnt.categoryDocs["c"] == 1
  {
    var kcs := Emit(["ab", "ab"], "c");
    assert kcs == [((Some("ab"), "c"), 1), ((Some("ab"), "c"), 1), ((None, "c"), 1)];
    assert kcs[..2] == [((Some("ab"), "c"), 1), ((Some("ab"), "c"), 1)];
    assert kcs[..2][..1] == [((Some("ab"), "c"), 1)] && kcs[..2][..1][..0] == [];
    var k1, k2 := kcs[..2][..1], kcs[..2];
    assert Tally(k1) == TallyStep(Tally(k1[..0]), k1[0]);
    var c1 := Tally(k1);
    assert c1 == TallyStep(EMPTY, kcs[0]);
    assert Tally(k2) == TallyStep(Tally(k2[..1]), k2[1]);
    var c2 := Tally(k2);
    assert c2 == TallyStep(c1, kcs[1]);
    assert c2.termCategoryDocs[("ab", "c")] == 2 && c2.categoryDocs == map[];
    assert Tally(kcs) == TallyStep(c2, kcs[2]);
  }

  /**
   * The mapper as written counts "ab" twice for one review "Ab ab" of
   * category "c": more documents with the pair than documents of the
   * category, so the counters are not consistent.
   */
  lemma CaseCollision()
    ensures var line := Record(map["reviewText" := "Ab ab", "category" := "c"]);
            && Mapper(line, {}) == Success(Emit(["ab", "ab"], "c"))
            && !Consistent(Tally(Emit(["ab", "ab"], "c")))
  {
    CaseCollisionMapper();
    CaseCollisionTally();
    var cnt := Tally(Emit(["ab", "ab"], "c"));
    assert Get(cnt.termCategoryDocs, ("ab", "c")) > Get(cnt.categoryDocs, "c");
  }

  /** The mapper as written turns the review "Ab ab" into two counts of "ab". */
  lemma CaseCollisionMapper()
    ensures Mapper(Record(map["reviewText" := "Ab ab", "category" := "c"]), {}) == Success(Emit(["ab", "ab"], "c"))
  {
    var line := Record(map["reviewText" := "Ab ab", "category" := "c"]);
    assert ReviewFields(line) == Success(("Ab ab", "c"));
    CaseCollisionTerms();
  }

  /** The terms the corrected mapper counts for a review. */
  function DocOf(text: string, category: string, stopwords: set<string>): NormDoc {
    NormDoc(category, TermSet(MapperTerms(text, stopwords)))
  }

  /** The corrected mapper counts a review exactly once, as `AddDoc` counts it. */
  lemma MapperFixedTally(line: Line, stopwords: set<string>)
    requires Decodable(line)
    ensures Tally(MapperFixed(line, stopwords).value)
            == AddDoc(EMPTY, DocOf(line.fields["reviewText"], line.fields["category"], stopwords))
  {
    var terms := MapperTerms(line.fields["reviewText"], stopwords);
    DedupSpec(terms);
    assert TermSet(Dedup(terms)) == TermSet(terms);
    DocTally(Dedup(terms), line.fields["category"]);
  }

  /** The yields of several map calls, concatenated in order; the first failing call stops the job. */
  function Flatten(rs: seq<Result<seq<(Key, int)>>>): Result<seq<(Key, int)>>
    decreases |rs|
  {
    if rs == [] then Success([])
    else
      match Flatten(rs[..|rs| - 1])
      case Failure(e) => Failure(e)
      case Success(ys) =>
        match rs[|rs| - 1]
        case Failure(e) => Failure(e)
        case Success(zs) => Success(ys + zs)
  }

  /** All map calls' yields, in input order, with the corrected mapper. */
  function MapAll(lines: seq<Line>, stopwords: set<string>): Result<seq<(Key, int)>> {
    Flatten(seq(|lines|, i requires 0 <= i < |lines| => MapperFixed(lines[i], stopwords)))
  }

  /** The concatenation succeeds exactly when every call does. */
  lemma {:induction false} FlattenSucceeds(rs: seq<Result<seq<(Key, int)>>>)
    ensures Flatten(rs).Success? <==> forall i :: 0 <= i < |rs| ==> rs[i].Success?
    decreases |rs|
  {
    if rs != [] {
      var front := rs[..|rs| - 1];
      FlattenSucceeds(front);
      assert rs == front + [rs[|rs| - 1]];
    }
  }

  /** The job gets past the map phase exactly when the mapper can read every line. */
  lemma MapAllSucceeds(lines: seq<Line>, stopwords: set<string>)
    ensures MapAll(lines, stopwords).Success? <==> forall i :: 0 <= i < |lines| ==> Decodable(lines[i])
  {
    var rs := seq(|lines|, i requires 0 <= i < |lines| => MapperFixed(lines[i], stopwords));
    FlattenSucceeds(rs);
    assert forall i :: 0 <= i < |lines| ==> (rs[i].Success? <==> Decodable(lines[i]));
  }

  /** When each call's yields count one document, all yields count all documents. */
  lemma {:induction false} FlattenTally(rs: seq<Result<seq<(Key, int)>>>, ds: seq<NormDoc>)
    requires |rs| == |ds|
    requires forall i :: 0 <= i < |rs| ==> rs[i].Success? && Tally(rs[i].value) == AddDoc(EMPTY, ds[i])
    ensures Flatten(rs).Success?
    ensures Tally(Flatten(rs).value) == Aggregate(ds)
    decreases |rs|
  {
    if rs != [] {
      var n := |rs|;
      var front := rs[..n - 1];
      FlattenTally(front, ds[..n - 1]);
      var ys, zs := Flatten(front).value, rs[n - 1].value;
      assert Flatten(rs).value == ys + zs;
      TallyConcat(ys, zs);
      AddDocMerge(Aggregate(ds[..n - 1]), EMPTY, ds[n - 1]);
      MergeEmpty(Aggregate(ds[..n - 1]));
    }
  }

  /** The documents of the input. */
  function Docs(lines: seq<Line>, stopwords: set<string>): (ds: seq<NormDoc>)
    requires forall i :: 0 <= i < |lines| ==> Decodable(lines[i])
    ensures |ds| == |lines|
  {
    seq(|lines|, i requires 0 <= i < |lines| && Decodable(lines[i]) =>
      DocOf(lines[i].fields["reviewText"], lines[i].fields["category"], stopwords))
  }

  /** The counters of all yields in input order are the aggregate of the documents. */
  lemma MapAllTally(lines: seq<Line>, stopwords: set<string>)
    requires forall i :: 0 <= i < |lines| ==> Decodable(lines[i])
    ensures MapAll(lines, stopwords).Success?
    ensures Tally(MapAll(lines, stopwords).value) == Aggregate(Docs(lines, stopwords))
  {
    var rs := seq(|lines|, i requires 0 <= i < |lines| => MapperFixed(lines[i], stopwords));
    var ds := Docs(lines, stopwords);
    forall i | 0 <= i < |rs|
      ensures rs[i].Success? && Tally(rs[i].value) == AddDoc(EMPTY, ds[i])
    {
      MapperFixedTally(lines[i], stopwords);
    }
    FlattenTally(rs, ds);
  }

  /**
   * Whatever order the shuffle delivers the yields in, the reducer's
   * counters are the aggregate of the documents, and so consistent.
   */
  lemma ReducerCounts(lines: seq<Line>, stopwords: set<string>, kcs: seq<(Key, int)>)
    requires forall i :: 0 <= i < |lines| ==> Decodable(lines[i])
    requires MapAll(lines, stopwords).Success?
    requires multiset(kcs) == multiset(MapAll(lines, stopwords).value)
    ensures Tally(kcs) == Aggregate(Docs(lines, stopwords))
    ensures Consistent(Tally(kcs))
  {
    TallyPermutation(kcs, MapAll(lines, stopwords).value);
    MapAllTally(lines, stopwords);
    AggregateConsistent(Docs(lines, stopwords));
  }

  // ---------------------------------------------------------------------
  // Reducer, first loop, as a method

  /**
   * The order in which `term_cat_count` first receives each pair: the
   * dictionary's iteration order.
   */
  function PairOrder(kcs: seq<(Key, int)>): seq<(string, string)>
    decreases |kcs|
  {
    if kcs == [] then []
    else
      var order := PairOrder(kcs[..|kcs| - 1]);
      var (key, _) := kcs[|kcs| - 1];
      match key.0
      case None => order
      case Some(t) => if (t, key.1) in order then order else order + [(t, key.1)]
  }

  /** The pair order lists every counted pair exactly once. */
  lemma {:induction false} PairOrderKeys(kcs: seq<(Key, int)>)
    ensures Distinct(PairOrder(kcs))
    ensures forall p :: p in PairOrder(kcs) <==> p in Tally(kcs).termCategoryDocs
    decreases |kcs|
  {
    if kcs != [] {
      var front := kcs[..|kcs| - 1];
      PairOrderKeys(front);
      var order := PairOrder(front);
      var (key, _) := kcs[|kcs| - 1];
      match key.0
      case None =>
      case Some(t) =>
        if (t, key.1) !in order {
          var order' := order + [(t, key.1)];
          forall i, j | 0 <= i < j < |order'|
            ensures order'[i] != order'[j]
          {
            if j < |order| {
              assert order'[i] == order[i] && order'[j] == order[j];
            } else {
              assert order'[i] == order[i];
            }
          }
        }
    }
  }

  /**
   * The reducer's first loop: reading every pair in order into `N`,
   * `cat_count`, `term_count` and `term_cat_count`, the last remembering
   * the order of its keys.
   */
  method CountKeys(kcs: seq<(Key, int)>) returns (cnt: Counts, order: seq<(string, string)>)
    ensures cnt == Tally(kcs)
    ensures order == PairOrder(kcs)
  {
    cnt, order := EMPTY, [];
    var i := 0;
    while i < |kcs|
      invariant 0 <= i <= |kcs|
      invariant cnt == Tally(kcs[..i])
      invariant order == PairOrder(kcs[..i])
    {
      cnt, order := ReadKey(kcs, i, cnt, order);
      i := i + 1;
    }
    assert kcs[..i] == kcs;
  }

  /** The body of the first loop: one more pair read. */
  method ReadKey(kcs: seq<(Key, int)>, i: nat, cnt: Counts, order: seq<(string, string)>)
    returns (cnt': Counts, order': seq<(string, string)>)
    requires i < |kcs|
    requires cnt == Tally(kcs[..i])
    requires order == PairOrder(kcs[..i])
    ensures cnt' == Tally(kcs[..i + 1])
    ensures order' == PairOrder(kcs[..i + 1])
  {
    assert kcs[..i + 1][..i] == kcs[..i];
    PairOrderKeys(kcs[..i]);
    var (key, count) := kcs[i];
    var (term, category) := key;
    match term
    case None =>
      cnt' := cnt.(totalDocs := cnt.totalDocs + count, categoryDocs := AddTo(cnt.categoryDocs, category, count));
      order' := order;
    case Some(t) =>
      order' := if (t, category) in cnt.termCategoryDocs then order else order + [(t, category)];
      cnt' := cnt.(termDocs := AddTo(cnt.termDocs, t, count),
                   termCategoryDocs := AddTo(cnt.termCategoryDocs, (t, category), count));
  }

  // ---------------------------------------------------------------------
  // Reducer, steps 2 to 5

  /** Every category's list cut to its `TOP_N` best entries. */
  function TopAll(chi: map<string, seq<Entry>>): (top: map<string, seq<Entry>>)
    ensures top.Keys == chi.Keys
    ensures forall c :: c in top ==> |top[c]| == Min(TOP_N, |chi[c]|)
  {
    map c | c in chi :: NLargest(TOP_N, chi[c])
  }

  /** The dictionary after step 3 has treated the categories `done`. */
  function TopSoFar(chi: map<string, seq<Entry>>, done: seq<string>): map<string, seq<Entry>> {
    map c | c in chi :: if c in done then NLargest(TOP_N, chi[c]) else chi[c]
  }

  lemma TopSoFarStep(chi: map<string, seq<Entry>>, done: seq<string>, c: string)
    requires c in chi
    ensures TopSoFar(chi, done)[c := NLargest(TOP_N, chi[c])] == TopSoFar(chi, done + [c])
  {
  }

  lemma TopSoFarNone(chi: map<string, seq<Entry>>, categories: seq<string>)
    ensures TopSoFar(chi, categories[..0]) == chi
  {
    assert categories[..0] == [];
  }

  lemma TopSoFarAll(chi: map<string, seq<Entry>>, done: seq<string>)
    requires forall c :: c in chi ==> c in done
    ensures TopSoFar(chi, done) == TopAll(chi)
  {
  }

  /**
   * Step 3: in ascending category order each list is replaced by its
   * `TOP_N` best entries; a list left empty is deleted, which makes the
   * dictionary's iteration raise. No other change is made.
   */
  method KeepTop(chi: map<string, seq<Entry>>) returns (r: Result<map<string, seq<Entry>>>)
    ensures r.Success? <==> forall c :: c in chi ==> chi[c] != []
    ensures r.Success? ==> r.value == TopAll(chi)
    ensures r.Failure? ==> r.error == ChangedSize
  {
    r := KeepInOrder(chi, SortedSet(chi.Keys));
  }

  /** Step 3's loop over the categories in the given order. */
  method KeepInOrder(chi: map<string, seq<Entry>>, categories: seq<string>) returns (r: Result<map<string, seq<Entry>>>)
    requires forall j :: 0 <= j < |categories| ==> categories[j] in chi
    requires forall c :: c in chi ==> c in categories
    ensures r.Success? <==> forall c :: c in chi ==> chi[c] != []
    ensures r.Success? ==> r.value == TopAll(chi)
    ensures r.Failure? ==> r.error == ChangedSize
  {
    var top := chi;
    TopSoFarNone(chi, categories);
    var i := 0;
    while i < |categories|
      invariant 0 <= i <= |categories|
      invariant top == TopSoFar(chi, categories[..i])
      invariant forall j :: 0 <= j < i ==> chi[categories[j]] != []
    {
      var emptied;
      top, emptied := KeepCategory(chi, categories, i, top);
      if emptied {
        EmptiedOne(chi, categories[i]);
        return Failure(ChangedSize);
      }
      i := i + 1;
    }
    KeptAll(chi, categories, top);
    return Success(top);
  }

  /** A category whose list is empty makes step 3 raise. */
  lemma EmptiedOne(chi: map<string, seq<Entry>>, c: string)
    requires c in chi && chi[c] == []
    ensures !(forall c' :: c' in chi ==> chi[c'] != [])
  {
  }

  /** After step 3's loop has treated every category without deleting one. */
  lemma KeptAll(chi: map<string, seq<Entry>>, categories: seq<string>, top: map<string, seq<Entry>>)
    requires forall j :: 0 <= j < |categories| ==> categories[j] in chi
    requires forall c :: c in chi ==> c in categories
    requires top == TopSoFar(chi, categories[..|categories|])
    requires forall j :: 0 <= j < |categories| ==> chi[categories[j]] != []
    ensures forall c :: c in chi ==> chi[c] != []
    ensures top == TopAll(chi)
  {
    forall c | c in chi
      ensures chi[c] != []
    {
      var j :| 0 <= j < |categories| && categories[j] == c;
    }
    assert categories[..|categories|] == categories;
    TopSoFarAll(chi, categories);
  }

  /** The body of step 3's loop: the next category keeps its best entries. */
  method KeepCategory(chi: map<string, seq<Entry>>, categories: seq<string>, i: nat, top: map<string, seq<Entry>>)
    returns (top': map<string, seq<Entry>>, emptied: bool)
    requires i < |categories|
    requires forall j :: 0 <= j < |categories| ==> categories[j] in chi
    requires top == TopSoFar(chi, categories[..i])
    requires forall j :: 0 <= j < i ==> chi[categories[j]] != []
    ensures top' == TopSoFar(chi, categories[..i + 1])
    ensures emptied <==> chi[categories[i]] == []
    ensures !emptied ==> forall j :: 0 <= j < i + 1 ==> chi[categories[j]] != []
  {
    var category := categories[i];
    TopSoFarStep(chi, categories[..i], category);
    assert categories[..i + 1] == categories[..i] + [category];
    top' := top[category := NLargest(TOP_N, chi[category])];
    emptied := top'[category] == [];
  }

  /**
   * Steps 4 and 5: a line per category in ascending order, then the sorted
   * set of all kept terms on one line.
   */
  method EmitLines(top: map<string, seq<Entry>>, render: real -> string) returns (lines: seq<string>)
    ensures lines == Report(render, top, SortedSet(KeptTerms(top)))
  {
    var categories := SortedSet(top.Keys);
    var allTerms := CollectTerms(top, categories);
    var categoryLines := CategoryLinesOf(top, render, categories);
    lines := categoryLines + [Join(' ', SortedSet(allTerms))];
    assert forall k :: 0 <= k < |categoryLines| ==> lines[k] == categoryLines[k];
    ReportOf(render, top, SortedSet(allTerms), lines);
  }

  /** Step 4's loop: the line of each listed category, in the listed order. */
  method CategoryLinesOf(top: map<string, seq<Entry>>, render: real -> string, categories: seq<string>)
    returns (lines: seq<string>)
    requires forall k :: 0 <= k < |categories| ==> categories[k] in top
    ensures |lines| == |categories|
    ensures forall k :: 0 <= k < |categories| ==> lines[k] == CategoryLine(render, categories[k], top[categories[k]])
  {
    lines := [];
    var i := 0;
    while i < |categories|
      invariant 0 <= i <= |categories|
      invariant |lines| == i
      invariant forall k :: 0 <= k < i ==> lines[k] == CategoryLine(render, categories[k], top[categories[k]])
    {
      var category := categories[i];
      lines := lines + [CategoryLine(render, category, top[category])];
      i := i + 1;
    }
  }

  /** The part of `top` whose categories are listed in `done`. */
  function Seen(top: map<string, seq<Entry>>, done: seq<string>): map<string, seq<Entry>> {
    map c | c in top && c in done :: top[c]
  }

  lemma SeenStep(top: map<string, seq<Entry>>, done: seq<string>, c: string)
    requires c in top && c !in done
    ensures c !in Seen(top, done)
    ensures Seen(top, done + [c]) == Seen(top, done)[c := top[c]]
  {
  }

  /** Step 5's loop: the union of the kept terms of every category. */
  method CollectTerms(top: map<string, seq<Entry>>, categories: seq<string>) returns (allTerms: set<string>)
    requires categories == SortedSet(top.Keys)
    ensures allTerms == KeptTerms(top)
  {
    StrictlySortedDistinct(categories);
    allTerms := {};
    assert Seen(top, categories[..0]) == map[];
    var i := 0;
    while i < |categories|
      invariant 0 <= i <= |categories|
      invariant allTerms == KeptTerms(Seen(top, categories[..i]))
    {
      assert categories[i] !in categories[..i];
      allTerms := CollectCategory(top, categories, i, allTerms);
      i := i + 1;
    }
    assert categories[..i] == categories;
    assert Seen(top, categories) == top;
  }

  /** The body of step 5's loop: the next category's terms join the set. */
  method CollectCategory(top: map<string, seq<Entry>>, categories: seq<string>, i: nat, allTerms: set<string>)
    returns (allTerms': set<string>)
    requires i < |categories| && categories[i] in top && categories[i] !in categories[..i]
    requires allTerms == KeptTerms(Seen(top, categories[..i]))
    ensures allTerms' == KeptTerms(Seen(top, categories[..i + 1]))
  {
    var category := categories[i];
    var terms := top[category];
    SeenStep(top, categories[..i], category);
    KeptTermsInsert(Seen(top, categories[..i]), category, terms);
    assert categories[..i + 1] == categories[..i] + [category];
    allTerms' := allTerms + set j | 0 <= j < |terms| :: terms[j].0;
  }

  /** What the reducer yields for the pairs `kcs`. */
  function ReducerLines(kcs: seq<(Key, int)>, render: real -> string): seq<string> {
    var top := TopAll(ScoreLists(Tally(kcs), PairOrder(kcs)));
    Report(render, top, SortedSet(KeptTerms(top)))
  }

  /**
   * `reducer`: count, score every pair, sort the categories, keep the best
   * `TOP_N` terms of each and yield the lines. The deletion in step 3 never
   * happens, since every category was scored for at least one term.
   */
  method Reducer(kcs: seq<(Key, int)>, render: real -> string) returns (lines: seq<string>)
    ensures lines == ReducerLines(kcs, render)
  {
    var cnt, order := CountKeys(kcs);
    PairOrderKeys(kcs);
    var chi := CalculateChiSquare(cnt, order);
    var kept := KeepTop(chi);
    assert kept.Success?;
    lines := EmitLines(kept.value, render);
  }

  /**
   * The reducer keeps a list for exactly the categories that have a counted
   * term, each with between one and `TOP_N` entries.
   */
  lemma ReducerCategories(kcs: seq<(Key, int)>)
    ensures var top := TopAll(ScoreLists(Tally(kcs), PairOrder(kcs)));
            && (forall c :: c in top <==> exists t :: (t, c) in Tally(kcs).termCategoryDocs)
            && (forall c :: c in top ==> 0 < |top[c]| <= TOP_N)
  {
    PairOrderKeys(kcs);
    ScoreListsCategories(Tally(kcs).termCategoryDocs.Keys, Tally(kcs), PairOrder(kcs));
  }

  /** A score list exists for exactly the categories of the pairs in the order. */
  lemma ScoreListsCategories(pairs: set<(string, string)>, cnt: Counts, order: seq<(string, string)>)
    requires forall p :: p in order <==> p in pairs
    ensures forall c :: c in ScoreLists(cnt, order) <==> exists t :: (t, c) in pairs
  {
    var chi := ScoreLists(cnt, order);
    forall c
      ensures c in chi <==> exists t :: (t, c) in pairs
    {
      if c in chi {
        var i :| 0 <= i < |order| && order[i].1 == c;
        assert order[i] in order;
      }
      if exists t :: (t, c) in pairs {
        var t :| (t, c) in pairs;
        assert (t, c) in order;
        var i :| 0 <= i < |order| && order[i] == (t, c);
      }
    }
  }

  /**
   * The reducer's lines: one per kept category, in ascending order, then
   * the line of all kept terms.
   */
  lemma ReducerLayout(kcs: seq<(Key, int)>, render: real -> string)
    ensures var top := TopAll(ScoreLists(Tally(kcs), PairOrder(kcs)));
            var lines := ReducerLines(kcs, render);
            && |lines| == |top| + 1
            && StrictlySorted(SortedSet(top.Keys))
            && (forall i :: 0 <= i < |top| ==>
                  lines[i] == CategoryLine(render, SortedSet(top.Keys)[i], top[SortedSet(top.Keys)[i]]))
            && lines[|top|] == Join(' ', SortedSet(KeptTerms(top)))
  {
    var top := TopAll(ScoreLists(Tally(kcs), PairOrder(kcs)));
    assert ReducerLines(kcs, render) == Report(render, top, SortedSet(KeptTerms(top)));
    ReportLayout(render, top, SortedSet(KeptTerms(top)));
  }

  /**
   * Every entry the reducer keeps for a category is a counted pair scored
   * from the counters, and the kept entries are `nlargest` of the
   * category's scores.
   */
  lemma ReducerScores(kcs: seq<(Key, int)>, c: string)
    requires c in ScoreLists(Tally(kcs), PairOrder(kcs))
    ensures var cnt := Tally(kcs);
            var top := TopAll(ScoreLists(cnt, PairOrder(kcs)));
            forall i :: 0 <= i < |top[c]| ==>
              (top[c][i].0, c) in cnt.termCategoryDocs && top[c][i].1 == Score(TableOf(cnt, top[c][i].0, c))
    ensures var chi := ScoreLists(Tally(kcs), PairOrder(kcs));
            var top := TopAll(chi);
            && NonIncreasing(top[c])
            && forall i, j :: 0 <= i < |top[c]| && 0 <= j < |Dropped(TOP_N, chi[c])| ==>
                 Dropped(TOP_N, chi[c])[j].1 <= top[c][i].1
  {
    var cnt, order := Tally(kcs), PairOrder(kcs);
    PairOrderKeys(kcs);
    var chi := ScoreLists(cnt, order);
    var kept := NLargest(TOP_N, chi[c]);
    NLargestCorrect(TOP_N, chi[c]);
    ScoreListsEntries(cnt, order, c);
    forall i | 0 <= i < |kept|
      ensures (kept[i].0, c) in cnt.termCategoryDocs && kept[i].1 == Score(TableOf(cnt, kept[i].0, c))
    {
      assert kept[i] in multiset(kept);
      assert kept[i] in chi[c];
    }
  }
}
