/**
 * The single-process pipeline of multi_jobs_hdfs.py: count the reviews,
 * score every (term, category) pair, keep the 75 best terms per category,
 * and format the report.
 */
module Sequential {
  import opened Wrappers
  import opened Text
  import opened Maps
  import opened Counting
  import opened ChiSquare
  import opened TopK
  import opened Order
  import opened Output
  import opened Reviews

  /**
   * The tokens of a review text: the lowercased text split on runs of
   * delimiters, keeping the tokens that are longer than one character and
   * not stopwords.
   */
  function Tokens(text: string, stopwords: set<string>): seq<string> {
    Keep(Split(Lower(text), SequentialDelimiter), stopwords)
  }

  /** No kept token holds a delimiter, and no field that passes the filter is lost. */
  lemma TokensSpec(text: string, stopwords: set<string>)
    ensures forall t :: t in Tokens(text, stopwords) ==> |t| > 1 && t !in stopwords && NoCharIn(t, SequentialDelimiter)
    ensures forall t :: t in Split(Lower(text), SequentialDelimiter) && |t| > 1 && t !in stopwords ==> t in Tokens(text, stopwords)
  {
    var fields := Split(Lower(text), SequentialDelimiter);
    KeepSpec(fields, stopwords);
    SplitFields(Lower(text), SequentialDelimiter);
    forall t | t in Tokens(text, stopwords)
      ensures NoCharIn(t, SequentialDelimiter)
    {
      var i :| 0 <= i < |fields| && fields[i] == t;
    }
  }

  /**
   * The skip rule: a line that is not JSON, or whose category or review
   * text is missing or empty, is no document; any other line is the
   * document of its category and the set of its tokens.
   */
  function Accept(line: Line, stopwords: set<string>): (r: Option<NormDoc>)
    ensures r.None? <==> line.Malformed? || GetOrEmpty(line.fields, "category") == ""
                         || GetOrEmpty(line.fields, "reviewText") == ""
    ensures r.Some? ==> r.value.category == line.fields["category"]
  {
    match line
    case Malformed => None
    case Record(fields) =>
      var category := GetOrEmpty(fields, "category");
      var text := GetOrEmpty(fields, "reviewText");
      if category == "" || text == "" then None
      else Some(NormDoc(category, set t | t in Tokens(text, stopwords)))
  }

  /** An accepted review's terms are the distinct tokens of its text. */
  lemma AcceptTerms(line: Line, stopwords: set<string>)
    requires Accept(line, stopwords).Some?
    ensures forall t :: t in Accept(line, stopwords).value.terms <==> t in Tokens(line.fields["reviewText"], stopwords)
  {
  }

  /** The documents of the accepted lines, in input order. */
  function Accepted(lines: seq<Line>, stopwords: set<string>): (ds: seq<NormDoc>)
    ensures |ds| <= |lines|
    decreases |lines|
  {
    if lines == [] then []
    else
      var init := Accepted(lines[..|lines| - 1], stopwords);
      match Accept(lines[|lines| - 1], stopwords)
      case None => init
      case Some(d) => init + [d]
  }

  /** A skipped line changes no counter. */
  lemma SkippedLine(lines: seq<Line>, line: Line, stopwords: set<string>)
    requires Accept(line, stopwords).None?
    ensures Aggregate(Accepted(lines + [line], stopwords)) == Aggregate(Accepted(lines, stopwords))
  {
    assert (lines + [line])[..|lines|] == lines;
  }

  /** An accepted line is counted as one more document. */
  lemma AcceptedLine(lines: seq<Line>, line: Line, stopwords: set<string>)
    requires Accept(line, stopwords).Some?
    ensures Aggregate(Accepted(lines + [line], stopwords))
            == AddDoc(Aggregate(Accepted(lines, stopwords)), Accept(line, stopwords).value)
  {
    assert (lines + [line])[..|lines|] == lines;
    var ds := Accepted(lines, stopwords);
    var d := Accept(line, stopwords).value;
    assert Accepted(lines + [line], stopwords) == ds + [d];
    assert (ds + [d])[..|ds|] == ds;
  }

  /**
   * `process_reviews`: the four counters are those of the accepted
   * documents, and `order` lists the (term, category) keys once each, in the
   * order the dictionary first received them.
   */
  method ProcessReviews(lines: seq<Line>, stopwords: set<string>) returns (cnt: Counts, order: seq<(string, string)>)
    ensures cnt == Aggregate(Accepted(lines, stopwords))
    ensures Distinct(order)
    ensures forall p :: p in order <==> p in cnt.termCategoryDocs
  {
    cnt := EMPTY;
    order := [];
    var i := 0;
    while i < |lines|
      invariant 0 <= i <= |lines|
      invariant cnt == Aggregate(Accepted(lines[..i], stopwords))
      invariant Distinct(order)
      invariant forall p :: p in order <==> p in cnt.termCategoryDocs
    {
      cnt, order := ProcessLine(lines, i, stopwords, cnt, order);
      i := i + 1;
    }
    assert lines[..|lines|] == lines;
  }

  /** The body of the loop: a skipped line changes nothing, an accepted one is counted. */
  method ProcessLine(lines: seq<Line>, i: nat, stopwords: set<string>, cnt: Counts, order: seq<(string, string)>)
    returns (cnt': Counts, order': seq<(string, string)>)
    requires i < |lines|
    requires cnt == Aggregate(Accepted(lines[..i], stopwords))
    requires Distinct(order)
    requires forall p :: p in order <==> p in cnt.termCategoryDocs
    ensures cnt' == Aggregate(Accepted(lines[..i + 1], stopwords))
    ensures Distinct(order')
    ensures forall p :: p in order' <==> p in cnt'.termCategoryDocs
  {
    ProcessStep(lines, i, stopwords);
    match Accept(lines[i], stopwords) {
      case None =>
        cnt', order' := cnt, order;
      case Some(doc) =>
        cnt', order' := CountDocument(cnt, order, doc);
    }
  }

  /** An accepted review: every counter takes in the document. */
  method CountDocument(cnt: Counts, order: seq<(string, string)>, doc: NormDoc)
    returns (cnt': Counts, order': seq<(string, string)>)
    requires Distinct(order)
    requires forall p :: p in order <==> p in cnt.termCategoryDocs
    ensures cnt' == AddDoc(cnt, doc)
    ensures Distinct(order')
    ensures forall p :: p in order' <==> p in cnt'.termCategoryDocs
  {
    var totalDocs := cnt.totalDocs + 1;
    var categoryDocs := Inc(cnt.categoryDocs, doc.category);
    var termCounts, termCatCounts;
    termCounts, termCatCounts, order' := CountTerms(cnt.termDocs, cnt.termCategoryDocs, order, doc);
    cnt' := Counts(totalDocs, categoryDocs, termCounts, termCatCounts);
  }

  /** One more line of input: skipped, or counted as one more document. */
  lemma ProcessStep(lines: seq<Line>, i: nat, stopwords: set<string>)
    requires i < |lines|
    ensures Aggregate(Accepted(lines[..i + 1], stopwords)) ==
            match Accept(lines[i], stopwords)
            case None => Aggregate(Accepted(lines[..i], stopwords))
            case Some(d) => AddDoc(Aggregate(Accepted(lines[..i], stopwords)), d)
  {
    assert lines[..i + 1] == lines[..i] + [lines[i]];
    match Accept(lines[i], stopwords)
    case None => SkippedLine(lines[..i], lines[i], stopwords);
    case Some(d) => AcceptedLine(lines[..i], lines[i], stopwords);
  }

  /**
   * The loop over a document's set of distinct terms: each term and its
   * pair with the category go up by exactly one, and pairs seen for the
   * first time join the end of `order`.
   */
  method CountTerms(termCounts: map<string, int>, termCatCounts: map<(string, string), int>,
                    order: seq<(string, string)>, doc: NormDoc)
    returns (termCounts': map<string, int>, termCatCounts': map<(string, string), int>, order': seq<(string, string)>)
    requires Distinct(order)
    requires forall p :: p in order <==> p in termCatCounts
    ensures termCounts' == IncAll(termCounts, doc.terms)
    ensures termCatCounts' == IncAll(termCatCounts, PairsOf(doc.terms, doc.category))
    ensures Distinct(order')
    ensures forall p :: p in order' <==> p in termCatCounts'
  {
    termCounts', termCatCounts', order' := termCounts, termCatCounts, order;
    var unique := doc.terms;
    IncAllNone(termCounts, doc.terms);
    PairsOfNone(termCatCounts, doc.terms, doc.category);
    while unique != {}
      invariant unique <= doc.terms
      invariant termCounts' == IncAll(termCounts, doc.terms - unique)
      invariant termCatCounts' == IncAll(termCatCounts, PairsOf(doc.terms - unique, doc.category))
      invariant Distinct(order')
      invariant forall p :: p in order' <==> p in termCatCounts'
      decreases |unique|
    {
      var term :| term in unique;
      var pair := (term, doc.category);
      IncAllStep(termCounts, doc.terms, unique, term, termCounts');
      PairCountStep(termCatCounts, doc.terms, unique, term, doc.category, termCatCounts');
      FirstSeenStep(order', termCatCounts', pair);
      termCounts' := Inc(termCounts', term);
      if pair !in termCatCounts' {
        order' := order' + [pair];
      }
      termCatCounts' := Inc(termCatCounts', pair);
      unique := unique - {term};
    }
    assert doc.terms - unique == doc.terms;
  }

  /**
   * Writing a key of a dictionary keeps `order` the list of its keys in
   * order of insertion: a new key joins the end, an old one stays in place.
   */
  lemma FirstSeenStep<K(!new)>(order: seq<K>, m: map<K, int>, k: K)
    requires Distinct(order)
    requires forall p :: p in order <==> p in m
    ensures var order' := if k in m then order else order + [k];
            Distinct(order') && forall p :: p in order' <==> p in Inc(m, k)
  {
  }

  /** What counting guarantees of `process_reviews`' result. */
  lemma ProcessedCountsConsistent(lines: seq<Line>, stopwords: set<string>)
    ensures Consistent(Aggregate(Accepted(lines, stopwords)))
    ensures SumValues(Aggregate(Accepted(lines, stopwords)).categoryDocs) == Aggregate(Accepted(lines, stopwords)).totalDocs
  {
    AggregateConsistent(Accepted(lines, stopwords));
    AggregateCategorySum(Accepted(lines, stopwords));
  }

  /**
   * `select_top_terms`: each category keeps `nlargest(top_n)` of its list,
   * and the merged dictionary is the sorted set of all kept terms.
   */
  method SelectTopTerms(chi: map<string, seq<Entry>>, topN: nat) returns (top: map<string, seq<Entry>>, merged: seq<string>)
    ensures top.Keys == chi.Keys
    ensures forall c :: c in chi ==> top[c] == NLargest(topN, chi[c])
    ensures merged == SortedSet(KeptTerms(top))
  {
    top := map[];
    var mergedDict: set<string> := {};
    var remaining := chi.Keys;
    while remaining != {}
      invariant remaining <= chi.Keys
      invariant top.Keys == chi.Keys - remaining
      invariant forall c :: c in top ==> top[c] == NLargest(topN, chi[c])
      invariant mergedDict == KeptTerms(top)
      decreases |remaining|
    {
      top, mergedDict, remaining := SelectCategory(chi, topN, top, mergedDict, remaining);
    }
    assert top.Keys == chi.Keys;
    merged := SortedSet(mergedDict);
  }

  /** The body of the loop: one more category keeps its best terms, which join the merged set. */
  method SelectCategory(chi: map<string, seq<Entry>>, topN: nat, top: map<string, seq<Entry>>,
                        mergedDict: set<string>, remaining: set<string>)
    returns (top': map<string, seq<Entry>>, mergedDict': set<string>, remaining': set<string>)
    requires remaining != {} && remaining <= chi.Keys
    requires top.Keys == chi.Keys - remaining
    requires forall c :: c in top ==> top[c] == NLargest(topN, chi[c])
    requires mergedDict == KeptTerms(top)
    ensures remaining' <= remaining && |remaining'| == |remaining| - 1
    ensures top'.Keys == chi.Keys - remaining'
    ensures forall c :: c in top' ==> top'[c] == NLargest(topN, chi[c])
    ensures mergedDict' == KeptTerms(top')
  {
    var category :| category in remaining;
    var categoryTop := NLargest(topN, chi[category]);
    KeptTermsInsert(top, category, categoryTop);
    top' := top[category := categoryTop];
    mergedDict' := mergedDict + set i | 0 <= i < |categoryTop| :: categoryTop[i].0;
    remaining' := remaining - {category};
  }

  /**
   * `format_output`: one line per category in ascending category order,
   * then the merged dictionary line.
   */
  method FormatOutput(top: map<string, seq<Entry>>, merged: seq<string>, render: real -> string) returns (outputLines: seq<string>)
    ensures outputLines == Report(render, top, merged)
  {
    outputLines := [];
    var categories := SortedSet(top.Keys);
    ghost var report := Report(render, top, merged);
    var i := 0;
    while i < |categories|
      invariant 0 <= i <= |categories|
      invariant outputLines == report[..i]
    {
      var terms := top[categories[i]];
      var formatted := categories[i] + " " + Join(' ', Items(render, terms));
      assert report[..i + 1] == report[..i] + [report[i]];
      outputLines := outputLines + [formatted];
      i := i + 1;
    }
    assert report == report[..i] + [report[i]];
    outputLines := outputLines + [Join(' ', merged)];
  }
}
