/**
 * The counting job of the four-job pipeline (document_term_counter.py).
 * Each review emits one `TOTAL_DOCS`, one `CAT_DOCS|category`, and for
 * each distinct token one `TERM|token|category` and one `TERM_TOTAL|token`,
 * all with the value 1; the combiner and the reducer sum the values of a
 * key. The keys are strings, as in the source.
 */
module TermCounter {
  import opened Wrappers
  import opened Text
  import opened Maps
  import opened Counting
  import opened Reviews
  import Order

  // ---------------------------------------------------------------------
  // Stopwords

  /** The normal form of a stopword line: stripped, then lowercased. */
  function Normalise(line: string): string {
    Lower(Strip(line))
  }

  /** The stopword set of a file's lines. */
  function StopwordSet(lines: seq<string>): set<string> {
    set i | 0 <= i < |lines| :: Normalise(lines[i])
  }

  /** The job object; `mapper_init` fills its stopword set. */
  class CounterJob {
    var stopwords: set<string>

    constructor ()
      ensures stopwords == {}
    {
      stopwords := {};
    }

    /** `mapper_init`: one stopword per line of the file, stripped and lowercased. */
    method MapperInit(lines: seq<string>)
      modifies this
      ensures stopwords == StopwordSet(lines)
    {
      stopwords := {};
      var i := 0;
      while i < |lines|
        invariant 0 <= i <= |lines|
        invariant stopwords == StopwordSet(lines[..i])
      {
        StopwordSetSnoc(lines, i);
        stopwords := stopwords + {Normalise(lines[i])};
        i := i + 1;
      }
      assert lines[..|lines|] == lines;
    }
  }

  lemma StopwordSetSnoc(lines: seq<string>, i: nat)
    requires i < |lines|
    ensures StopwordSet(lines[..i + 1]) == StopwordSet(lines[..i]) + {Normalise(lines[i])}
  {
    var a, b := lines[..i], lines[..i + 1];
    forall w | w in StopwordSet(b)
      ensures w in StopwordSet(a) + {Normalise(lines[i])}
    {
      var j :| 0 <= j < |b| && w == Normalise(b[j]);
      if j < i {
        assert a[j] == b[j];
      }
    }
    forall w | w in StopwordSet(a)
      ensures w in StopwordSet(b)
    {
      var j :| 0 <= j < |a| && w == Normalise(a[j]);
      assert b[j] == a[j];
    }
    assert b[i] == lines[i];
  }

  /**
   * Every stopword is lowercase, has no whitespace at either end, and is
   * its own normal form; every line of the file contributes its normal form.
   */
  lemma StopwordsNormalised(lines: seq<string>)
    ensures forall w :: w in StopwordSet(lines) ==>
              IsLower(w) && (w == [] || (!IsSpace(w[0]) && !IsSpace(w[|w| - 1]))) && Normalise(w) == w
    ensures forall i :: 0 <= i < |lines| ==> Normalise(lines[i]) in StopwordSet(lines)
  {
    forall w | w in StopwordSet(lines)
      ensures IsLower(w) && (w == [] || (!IsSpace(w[0]) && !IsSpace(w[|w| - 1]))) && Normalise(w) == w
    {
      var i :| 0 <= i < |lines| && w == Normalise(lines[i]);
      NormaliseIdempotent(lines[i]);
    }
  }

  lemma NormaliseIdempotent(line: string)
    ensures var w := Normalise(line);
            IsLower(w) && (w == [] || (!IsSpace(w[0]) && !IsSpace(w[|w| - 1]))) && Normalise(w) == w
  {
    var s := Strip(line);
    var w := Lower(s);
    LowerIsLower(s);
    if w != [] {
      assert w[0] == LowerChar(s[0]) && w[|w| - 1] == LowerChar(s[|s| - 1]);
      assert StripLeft(w) == w;
      assert StripRight(w) == w;
    }
  }

  // ---------------------------------------------------------------------
  // Keys

  const TOTAL_DOCS: string := "TOTAL_DOCS"

  function CatDocsKey(c: string): string { "CAT_DOCS|" + c }

  function TermKey(t: string, c: string): string { "TERM|" + t + "|" + c }

  function TermTotalKey(t: string): string { "TERM_TOTAL|" + t }

  /** The four key forms never collide with one another. */
  lemma KeyFormsDiffer(t: string, c: string, u: string, e: string)
    ensures TOTAL_DOCS != CatDocsKey(c) && TOTAL_DOCS != TermKey(t, c) && TOTAL_DOCS != TermTotalKey(t)
    ensures CatDocsKey(e) != TermKey(t, c) && CatDocsKey(e) != TermTotalKey(t)
    ensures TermKey(t, c) != TermTotalKey(u)
  {
    assert TOTAL_DOCS[1] == 'O';
    assert CatDocsKey(c)[0] == 'C' && CatDocsKey(c)[1] == 'A' && CatDocsKey(e)[0] == 'C';
    assert TermKey(t, c)[0] == 'T' && TermKey(t, c)[1] == 'E' && TermKey(t, c)[4] == '|';
    assert TermTotalKey(t)[1] == 'E' && TermTotalKey(u)[4] == '_';
  }

  lemma CatDocsKeyInjective(c: string, e: string)
    ensures CatDocsKey(c) == CatDocsKey(e) ==> c == e
  {
    if CatDocsKey(c) == CatDocsKey(e) {
      assert c == CatDocsKey(c)[9..] && e == CatDocsKey(e)[9..];
    }
  }

  lemma TermTotalKeyInjective(t: string, u: string)
    ensures TermTotalKey(t) == TermTotalKey(u) ==> t == u
  {
    if TermTotalKey(t) == TermTotalKey(u) {
      assert t == TermTotalKey(t)[11..] && u == TermTotalKey(u)[11..];
    }
  }

  /**
   * A pair key names its term and category unambiguously when neither term
   * holds a `|`; within one category it does so for any terms.
   */
  lemma TermKeyInjective(t: string, c: string, u: string, e: string)
    requires ('|' !in t && '|' !in u) || c == e
    ensures TermKey(t, c) == TermKey(u, e) ==> t == u && c == e
  {
    var k, l := TermKey(t, c), TermKey(u, e);
    if k == l {
      if c != e && |t| != |u| {
        TermKeyLayout(t, c);
        TermKeyLayout(u, e);
        assert false;
      }
      assert |t| == |u|;
      assert t == k[5..5 + |t|] && u == l[5..5 + |u|];
      assert c == k[6 + |t|..] && e == l[6 + |u|..];
    }
  }

  /** The term of a pair key starts at index 5 and ends at a `|`. */
  lemma TermKeyLayout(t: string, c: string)
    ensures |TermKey(t, c)| == 6 + |t| + |c| && TermKey(t, c)[5 + |t|] == '|'
    ensures forall j :: 5 <= j < 5 + |t| ==> TermKey(t, c)[j] == t[j - 5]
  {
  }

  // ---------------------------------------------------------------------
  // Mapper

  /**
   * The tokens of a review: review text and summary joined by a space,
   * lowercased, split on runs of delimiters, and kept when longer than one
   * character and not a stopword.
   */
  function Tokens(reviewText: string, summary: string, stopwords: set<string>): seq<string> {
    Keep(Split(Lower(reviewText + " " + summary), CounterDelimiter), stopwords)
  }

  /** The pair and term-total keys of the distinct tokens, token by token. */
  function TermEmits(terms: seq<string>, c: string): (r: seq<(string, int)>)
    ensures |r| == 2 * |terms|
    decreases |terms|
  {
    if terms == [] then []
    else
      var t := terms[|terms| - 1];
      TermEmits(terms[..|terms| - 1], c) + [(TermKey(t, c), 1), (TermTotalKey(t), 1)]
  }

  /** Everything one review emits, in emission order. */
  function Emits(c: string, terms: seq<string>): seq<(string, int)> {
    [(TOTAL_DOCS, 1), (CatDocsKey(c), 1)] + TermEmits(terms, c)
  }

  /**
   * `mapper`: a line that is not JSON emits nothing; a record lacking
   * `category`, `reviewText` or `summary` raises KeyError for the first one
   * looked up; any other record emits its keys. The iteration order of the
   * token set is modelled as first-occurrence order.
   */
  function Mapper(line: Line, stopwords: set<string>): (r: Result<seq<(string, int)>>)
    ensures line.Malformed? ==> r == Success([])
    ensures r.Failure? <==> line.Record? && !("category" in line.fields && "reviewText" in line.fields && "summary" in line.fields)
    ensures r.Failure? && "category" !in line.fields ==> r.error == MissingKey("category")
    ensures r.Failure? && "category" in line.fields && "reviewText" !in line.fields ==> r.error == MissingKey("reviewText")
    ensures r.Failure? && "category" in line.fields && "reviewText" in line.fields ==> r.error == MissingKey("summary")
  {
    match line
    case Malformed => Success([])
    case Record(fields) =>
      match Lookup(fields, "category")
      case Failure(e) => Failure(e)
      case Success(category) =>
        match Lookup(fields, "reviewText")
        case Failure(e) => Failure(e)
        case Success(text) =>
          match Lookup(fields, "summary")
          case Failure(e) => Failure(e)
          case Success(summary) =>
            Success(Emits(category, Dedup(Tokens(text, summary, stopwords))))
  }

  lemma KeepConcat(a: seq<string>, b: seq<string>, stopwords: set<string>)
    ensures Keep(a + b, stopwords) == Keep(a, stopwords) + Keep(b, stopwords)
    decreases |a|
  {
    if a != [] {
      assert (a + b)[0] == a[0] && (a + b)[1..] == a[1..] + b;
      KeepConcat(a[1..], b, stopwords);
    } else {
      assert a + b == b;
    }
  }

  lemma {:induction false} KeepNonEmpty(xs: seq<string>, stopwords: set<string>)
    ensures Keep(NonEmpty(xs), stopwords) == Keep(xs, stopwords)
    decreases |xs|
  {
    if xs != [] {
      KeepNonEmpty(xs[1..], stopwords);
      if xs[0] != "" {
        assert NonEmpty(xs) == [xs[0]] + NonEmpty(xs[1..]);
        assert ([xs[0]] + NonEmpty(xs[1..]))[1..] == NonEmpty(xs[1..]);
      }
    }
  }

  /**
   * Joining by a space, a delimiter, adds nothing: the tokens are those of
   * the review text followed by those of the summary.
   */
  lemma TokensOfBoth(reviewText: string, summary: string, stopwords: set<string>)
    ensures Tokens(reviewText, summary, stopwords)
            == Keep(Split(Lower(reviewText), CounterDelimiter), stopwords) + Keep(Split(Lower(summary), CounterDelimiter), stopwords)
  {
    var a, b := Lower(reviewText), Lower(summary);
    LowerConcat(reviewText + " ", summary);
    LowerConcat(reviewText, " ");
    assert Lower(" ") == [' '];
    assert Lower(reviewText + " " + summary) == a + [' '] + b;
    TokensConcat(a, ' ', b, CounterDelimiter);
    KeepNonEmpty(Split(a + [' '] + b, CounterDelimiter), stopwords);
    KeepNonEmpty(Split(a, CounterDelimiter), stopwords);
    KeepNonEmpty(Split(b, CounterDelimiter), stopwords);
    KeepConcat(NonEmpty(Split(a, CounterDelimiter)), NonEmpty(Split(b, CounterDelimiter)), stopwords);
  }

  /**
   * The kept tokens are non-empty, longer than one character, not
   * stopwords and free of delimiters; no field passing the filter is lost.
   */
  lemma TokensFiltered(reviewText: string, summary: string, stopwords: set<string>)
    ensures forall t :: t in Tokens(reviewText, summary, stopwords) ==>
              t != "" && |t| > 1 && t !in stopwords && NoCharIn(t, CounterDelimiter)
    ensures forall t :: t in Split(Lower(reviewText + " " + summary), CounterDelimiter) && |t| > 1 && t !in stopwords ==>
              t in Tokens(reviewText, summary, stopwords)
  {
    var fields := Split(Lower(reviewText + " " + summary), CounterDelimiter);
    KeepSpec(fields, stopwords);
    SplitFields(Lower(reviewText + " " + summary), CounterDelimiter);
    forall t | t in Tokens(reviewText, summary, stopwords)
      ensures NoCharIn(t, CounterDelimiter)
    {
      var i :| 0 <= i < |fields| && fields[i] == t;
    }
  }

  // ---------------------------------------------------------------------
  // Combiner and reducer

  /** `combiner` and `reducer`: the key with the sum of its values. */
  function Reducer(key: string, values: seq<int>): (r: (string, int))
    ensures r.0 == key
    ensures (forall i :: 0 <= i < |values| ==> values[i] == 1) ==> r.1 == |values|
    ensures (forall i :: 0 <= i < |values| ==> values[i] >= 0) ==> r.1 >= 0
  {
    SumBounds(values);
    (key, Sum(values))
  }

  lemma {:induction false} SumBounds(xs: seq<int>)
    ensures (forall i :: 0 <= i < |xs| ==> xs[i] == 1) ==> Sum(xs) == |xs|
    ensures (forall i :: 0 <= i < |xs| ==> xs[i] >= 0) ==> Sum(xs) >= 0
    decreases |xs|
  {
    if xs != [] {
      SumBounds(xs[..|xs| - 1]);
    }
  }

  lemma {:induction false} SumConcat(a: seq<int>, b: seq<int>)
    ensures Sum(a + b) == Sum(a) + Sum(b)
    decreases |b|
  {
    if b == [] {
      assert a + b == a;
    } else {
      SumConcat(a, b[..|b| - 1]);
      assert (a + b)[..|a + b| - 1] == a + b[..|b| - 1];
    }
  }

  /** The sum does not depend on the order in which the values arrive. */
  lemma {:induction false} SumPermutation(a: seq<int>, b: seq<int>)
    requires multiset(a) == multiset(b)
    ensures Sum(a) == Sum(b)
    decreases |a|
  {
    if a == [] {
      assert |b| == |multiset(b)| == 0;
    } else {
      var x := a[|a| - 1];
      var front := a[..|a| - 1];
      assert a == front + [x];
      assert x in multiset(b);
      var j :| 0 <= j < |b| && b[j] == x;
      var l, r := b[..j], b[j + 1..];
      assert b == l + [x] + r;
      Order.RemoveOne(a, b, j);
      SumPermutation(front, l + r);
      SumConcat(front, [x]);
      SumConcat(l, r);
      SumConcat(l + [x], r);
      SumConcat(l, [x]);
    }
  }

  function Concat(groups: seq<seq<int>>): seq<int>
    decreases |groups|
  {
    if groups == [] then [] else Concat(groups[..|groups| - 1]) + groups[|groups| - 1]
  }

  /**
   * Summing each mapper's values in a combiner first and then summing the
   * partial sums gives the sum of all values, however they were split.
   */
  lemma {:induction false} CombinerTransparent(key: string, groups: seq<seq<int>>)
    ensures Reducer(key, seq(|groups|, i requires 0 <= i < |groups| => Reducer(key, groups[i]).1)) == Reducer(key, Concat(groups))
    decreases |groups|
  {
    if groups != [] {
      var n := |groups| - 1;
      var init := groups[..n];
      CombinerTransparent(key, init);
      var partial := seq(|groups|, i requires 0 <= i < |groups| => Reducer(key, groups[i]).1);
      assert partial[..n] == seq(|init|, i requires 0 <= i < |init| => Reducer(key, init[i]).1);
      SumConcat(Concat(init), groups[n]);
    }
  }

  // ---------------------------------------------------------------------
  // The job's totals

  /** The values the reducer of `key` receives, in emission order. */
  function ValuesOf(kvs: seq<(string, int)>, key: string): seq<int>
    decreases |kvs|
  {
    if kvs == [] then []
    else
      var init := ValuesOf(kvs[..|kvs| - 1], key);
      if kvs[|kvs| - 1].0 == key then init + [kvs[|kvs| - 1].1] else init
  }

  /** What the reducer emits for `key`: the sum of the values emitted under it. */
  function Total(kvs: seq<(string, int)>, key: string): int {
    Sum(ValuesOf(kvs, key))
  }

  lemma {:induction false} TotalConcat(a: seq<(string, int)>, b: seq<(string, int)>, key: string)
    ensures Total(a + b, key) == Total(a, key) + Total(b, key)
    decreases |b|
  {
    if b == [] {
      assert a + b == a;
    } else {
      var b' := b[..|b| - 1];
      TotalConcat(a, b', key);
      assert (a + b)[..|a + b| - 1] == a + b';
      if b[|b| - 1].0 == key {
        SumConcat(ValuesOf(a + b', key), [b[|b| - 1].1]);
        SumConcat(ValuesOf(b', key), [b[|b| - 1].1]);
      }
    }
  }

  /** The totals of the two keys a token adds. */
  lemma TotalOfPair(k1: string, k2: string, key: string)
    ensures Total([(k1, 1), (k2, 1)], key) == (if k1 == key then 1 else 0) + (if k2 == key then 1 else 0)
  {
    var kvs: seq<(string, int)> := [(k1, 1), (k2, 1)];
    var none: seq<(string, int)> := [];
    var one := kvs[..1];
    assert one == [(k1, 1)] && one[..0] == none;
    assert ValuesOf(one, key) == if k1 == key then [1] else [];
    var vs := ValuesOf(kvs, key);
    assert vs == ValuesOf(one, key) + (if k2 == key then [1] else []);
    SumBounds(vs);
  }

  /** The token keys add nothing to the document keys. */
  lemma {:induction false} TermEmitsDocKeys(terms: seq<string>, c: string, e: string)
    ensures Total(TermEmits(terms, c), TOTAL_DOCS) == 0
    ensures Total(TermEmits(terms, c), CatDocsKey(e)) == 0
    decreases |terms|
  {
    if terms != [] {
      var n := |terms| - 1;
      var u := terms[n];
      TermEmitsDocKeys(terms[..n], c, e);
      KeyFormsDiffer(u, c, u, e);
      TotalConcat(TermEmits(terms[..n], c), [(TermKey(u, c), 1), (TermTotalKey(u), 1)], TOTAL_DOCS);
      TotalConcat(TermEmits(terms[..n], c), [(TermKey(u, c), 1), (TermTotalKey(u), 1)], CatDocsKey(e));
      TotalOfPair(TermKey(u, c), TermTotalKey(u), TOTAL_DOCS);
      TotalOfPair(TermKey(u, c), TermTotalKey(u), CatDocsKey(e));
    }
  }

  /** Each distinct token is counted once towards its documents. */
  lemma {:induction false} TermEmitsTermTotal(terms: seq<string>, c: string, t: string)
    requires Distinct(terms)
    ensures Total(TermEmits(terms, c), TermTotalKey(t)) == if t in terms then 1 else 0
    decreases |terms|
  {
    if terms != [] {
      var n := |terms| - 1;
      var u := terms[n];
      var init := terms[..n];
      assert terms == init + [u];
      assert u !in init;
      TermEmitsTermTotal(init, c, t);
      KeyFormsDiffer(u, c, t, c);
      TermTotalKeyInjective(t, u);
      TotalConcat(TermEmits(init, c), [(TermKey(u, c), 1), (TermTotalKey(u), 1)], TermTotalKey(t));
      TotalOfPair(TermKey(u, c), TermTotalKey(u), TermTotalKey(t));
    }
  }

  /**
   * Each distinct token is counted once with the review's category, and
   * never with another category, unless a `|` inside the terms lets two
   * pair keys coincide.
   */
  lemma {:induction false} TermEmitsPair(terms: seq<string>, c: string, t: string, e: string)
    requires Distinct(terms)
    requires c == e || ('|' !in t && forall i :: 0 <= i < |terms| ==> '|' !in terms[i])
    ensures Total(TermEmits(terms, c), TermKey(t, e)) == if t in terms && e == c then 1 else 0
    decreases |terms|
  {
    if terms != [] {
      var n := |terms| - 1;
      var u := terms[n];
      var init := terms[..n];
      assert terms == init + [u];
      assert u !in init;
      assert forall i :: 0 <= i < |init| ==> init[i] == terms[i];
      TermEmitsPair(init, c, t, e);
      KeyFormsDiffer(t, e, u, e);
      TermKeyInjective(t, e, u, c);
      TotalConcat(TermEmits(init, c), [(TermKey(u, c), 1), (TermTotalKey(u), 1)], TermKey(t, e));
      TotalOfPair(TermKey(u, c), TermTotalKey(u), TermKey(t, e));
    }
  }

  // ---------------------------------------------------------------------
  // Whole input

  predicate AllMapped(lines: seq<Line>, stopwords: set<string>) {
    forall i :: 0 <= i < |lines| ==> Mapper(lines[i], stopwords).Success?
  }

  /** The document a mapped line counts for: none for a line that is not JSON. */
  function DocOf(line: Line, stopwords: set<string>): Option<NormDoc>
    requires Mapper(line, stopwords).Success?
  {
    match line
    case Malformed => None
    case Record(fields) =>
      Some(NormDoc(fields["category"], TermSet(Tokens(fields["reviewText"], fields["summary"], stopwords))))
  }

  /** The documents of the input, in order. */
  function Docs(lines: seq<Line>, stopwords: set<string>): seq<NormDoc>
    requires AllMapped(lines, stopwords)
    decreases |lines|
  {
    if lines == [] then []
    else
      var init := Docs(lines[..|lines| - 1], stopwords);
      match DocOf(lines[|lines| - 1], stopwords)
      case None => init
      case Some(d) => init + [d]
  }

  /** Everything the mappers emit, in input order. */
  function AllEmits(lines: seq<Line>, stopwords: set<string>): seq<(string, int)>
    requires AllMapped(lines, stopwords)
    decreases |lines|
  {
    if lines == [] then []
    else AllEmits(lines[..|lines| - 1], stopwords) + Mapper(lines[|lines| - 1], stopwords).value
  }

  /** No term of any document holds a `|`. */
  ghost predicate PipeFree(ds: seq<NormDoc>) {
    forall i, t :: 0 <= i < |ds| && t in ds[i].terms ==> '|' !in t
  }

  /** What one line adds to the reducers' totals: exactly what its document adds to the counts. */
  lemma LineTotals(line: Line, stopwords: set<string>, t: string, c: string)
    requires Mapper(line, stopwords).Success?
    requires DocOf(line, stopwords).Some? ==> forall u :: u in DocOf(line, stopwords).value.terms ==> '|' !in u
    requires '|' !in t
    ensures var kvs, d := Mapper(line, stopwords).value, DocOf(line, stopwords);
            && Total(kvs, TOTAL_DOCS) == (if d.Some? then 1 else 0)
            && Total(kvs, CatDocsKey(c)) == (if d.Some? && d.value.category == c then 1 else 0)
            && Total(kvs, TermTotalKey(t)) == (if d.Some? && t in d.value.terms then 1 else 0)
            && Total(kvs, TermKey(t, c)) == (if d.Some? && t in d.value.terms && d.value.category == c then 1 else 0)
  {
    if line.Record? {
      var fields := line.fields;
      var cat := fields["category"];
      var tokens := Tokens(fields["reviewText"], fields["summary"], stopwords);
      var terms := Dedup(tokens);
      DedupSpec(tokens);
      var head: seq<(string, int)> := [(TOTAL_DOCS, 1), (CatDocsKey(cat), 1)];
      assert Mapper(line, stopwords).value == head + TermEmits(terms, cat);
      forall key | key in {TOTAL_DOCS, CatDocsKey(c), TermTotalKey(t), TermKey(t, c)}
        ensures Total(head + TermEmits(terms, cat), key) == Total(head, key) + Total(TermEmits(terms, cat), key)
      {
        TotalConcat(head, TermEmits(terms, cat), key);
      }
      TotalOfPair(TOTAL_DOCS, CatDocsKey(cat), TOTAL_DOCS);
      TotalOfPair(TOTAL_DOCS, CatDocsKey(cat), CatDocsKey(c));
      TotalOfPair(TOTAL_DOCS, CatDocsKey(cat), TermTotalKey(t));
      TotalOfPair(TOTAL_DOCS, CatDocsKey(cat), TermKey(t, c));
      KeyFormsDiffer(t, c, t, cat);
      KeyFormsDiffer(t, cat, t, cat);
      CatDocsKeyInjective(c, cat);
      TermEmitsDocKeys(terms, cat, c);
      TermEmitsTermTotal(terms, cat, t);
      TermEmitsPair(terms, cat, t, c);
    } else {
      assert Mapper(line, stopwords).value == [];
    }
  }

  /** The input less its last line: still mapped, and its documents are those before the last line's. */
  lemma DocsSnoc(lines: seq<Line>, stopwords: set<string>)
    requires AllMapped(lines, stopwords) && lines != []
    ensures var init, last := lines[..|lines| - 1], lines[|lines| - 1];
            && AllMapped(init, stopwords)
            && (PipeFree(Docs(lines, stopwords)) ==> PipeFree(Docs(init, stopwords)))
            && (PipeFree(Docs(lines, stopwords)) && DocOf(last, stopwords).Some? ==>
                  forall u :: u in DocOf(last, stopwords).value.terms ==> '|' !in u)
            && Aggregate(Docs(lines, stopwords))
               == match DocOf(last, stopwords)
                  case None => Aggregate(Docs(init, stopwords))
                  case Some(d) => AddDoc(Aggregate(Docs(init, stopwords)), d)
  {
    var n := |lines| - 1;
    var init := lines[..n];
    assert AllMapped(init, stopwords) by {
      forall i | 0 <= i < |init| ensures Mapper(init[i], stopwords).Success? {
        assert init[i] == lines[i];
      }
    }
    var ds := Docs(init, stopwords);
    var all := Docs(lines, stopwords);
    assert forall i :: 0 <= i < |ds| ==> all[i] == ds[i];
    var d := DocOf(lines[n], stopwords);
    if d.Some? {
      assert all == ds + [d.value];
      assert all[|ds|] == d.value;
      assert (ds + [d.value])[..|ds|] == ds;
    }
  }

  /**
   * The reducers' totals are the document counts of the input: TOTAL_DOCS
   * the documents, CAT_DOCS|c those of category c, TERM_TOTAL|t those
   * holding term t and TERM|t|c those of category c holding t, provided
   * no term holds a `|` (which would let two pair keys coincide).
   */
  lemma {:induction false} CounterTotals(lines: seq<Line>, stopwords: set<string>, t: string, c: string)
    requires AllMapped(lines, stopwords)
    requires PipeFree(Docs(lines, stopwords)) && '|' !in t
    ensures var kvs, cnt := AllEmits(lines, stopwords), Aggregate(Docs(lines, stopwords));
            && Total(kvs, TOTAL_DOCS) == cnt.totalDocs
            && Total(kvs, CatDocsKey(c)) == Get(cnt.categoryDocs, c)
            && Total(kvs, TermTotalKey(t)) == Get(cnt.termDocs, t)
            && Total(kvs, TermKey(t, c)) == Get(cnt.termCategoryDocs, (t, c))
    decreases |lines|
  {
    if lines != [] {
      var n := |lines| - 1;
      var init := lines[..n];
      DocsSnoc(lines, stopwords);
      CounterTotals(init, stopwords, t, c);
      var d := DocOf(lines[n], stopwords);
      if d.Some? {
        AddDocCounts(Aggregate(Docs(init, stopwords)), d.value);
      }
      LineTotals(lines[n], stopwords, t, c);
      var prev, last := AllEmits(init, stopwords), Mapper(lines[n], stopwords).value;
      TotalConcat(prev, last, TOTAL_DOCS);
      TotalConcat(prev, last, CatDocsKey(c));
      TotalConcat(prev, last, TermTotalKey(t));
      TotalConcat(prev, last, TermKey(t, c));
    }
  }

  /**
   * Hence a pair never counts more than its term or its category, and the
   * category totals add up to TOTAL_DOCS.
   */
  lemma CounterBounds(lines: seq<Line>, stopwords: set<string>, t: string, c: string)
    requires AllMapped(lines, stopwords)
    requires PipeFree(Docs(lines, stopwords)) && '|' !in t
    ensures var kvs := AllEmits(lines, stopwords);
            && 0 <= Total(kvs, TermKey(t, c)) <= Total(kvs, TermTotalKey(t)) <= Total(kvs, TOTAL_DOCS)
            && Total(kvs, TermKey(t, c)) <= Total(kvs, CatDocsKey(c)) <= Total(kvs, TOTAL_DOCS)
    ensures SumValues(Aggregate(Docs(lines, stopwords)).categoryDocs) == Total(AllEmits(lines, stopwords), TOTAL_DOCS)
  {
    var ds := Docs(lines, stopwords);
    CounterTotals(lines, stopwords, t, c);
    AggregateConsistent(ds);
    AggregateCategorySum(ds);
    var cnt := Aggregate(ds);
    assert Get(cnt.termCategoryDocs, (t, c)) >= 0;
    assert Get(cnt.termDocs, t) + Get(cnt.categoryDocs, c) - Get(cnt.termCategoryDocs, (t, c)) <= cnt.totalDocs;
  }
}
