/**
 * Text handling shared by the three variants: the delimiter classes of the
 * tokenisers, `re.split` on a repeated character class, `str.split` and
 * `str.join` on one separator, ASCII case folding, `str.strip`, and the
 * token filter.
 */
module Text {

  predicate IsDigit(c: char) { '0' <= c <= '9' }

  /** ASCII whitespace as Python's `str.isspace` and regex `\s` see it. */
  predicate IsSpace(c: char) { c == ' ' || '\t' <= c <= '\r' || '\U{1C}' <= c <= '\U{1F}' }

  /** Delimiter class of the sequential tokeniser (multi_jobs_hdfs.py). */
  predicate SequentialDelimiter(c: char) {
    c == ' ' || c == '\t' || IsDigit(c) || c in {'(', ')', '[', ']', '{', '}', '.', '!', '?', ',', ';', ':', '+', '=', '-', '_', '\"', '\'', '`', '~', '#', '@', '&', '*', '%', '\U{20AC}', '$', '\U{A7}', '/'}
  }

  /** Delimiter class of the single-job tokeniser (chi_square.py): no backtick. */
  predicate SingleJobDelimiter(c: char) {
    c == ' ' || c == '\t' || IsDigit(c) || c in {'(', ')', '[', ']', '{', '}', '.', '!', '?', ',', ';', ':', '+', '=', '-', '_', '\"', '\'', '~', '#', '@', '&', '*', '%', '\U{20AC}', '$', '\U{A7}', '/'}
  }

  /** Delimiter class of the counting job (document_term_counter.py): all whitespace and a backslash. */
  predicate CounterDelimiter(c: char) {
    IsSpace(c) || IsDigit(c) || c in {'(', ')', '[', ']', '{', '}', '.', '!', '?', ',', ';', ':', '+', '=', '-', '_', '\"', '\'', '`', '~', '#', '@', '&', '*', '%', '\U{20AC}', '$', '\U{A7}', '\\', '/'}
  }

  predicate NoCharIn(s: string, d: char -> bool) {
    forall j :: 0 <= j < |s| ==> !d(s[j])
  }

  /**
   * `re.split('[D]+', s)`: the fields left between maximal runs of
   * delimiters; a leading or trailing run yields an empty first or last field.
   */
  function Split(s: string, d: char -> bool): (r: seq<string>)
    ensures |r| >= 1
    decreases |s|
  {
    if s == [] then [""]
    else
      var rest := Split(s[1..], d);
      if d(s[0]) then
        if |s| > 1 && d(s[1]) then rest else [""] + rest
      else
        [[s[0]] + rest[0]] + rest[1..]
  }

  /** `s.split(sep)` generalised to a class: every delimiter ends a field. */
  function SplitEach(s: string, d: char -> bool): (r: seq<string>)
    ensures |r| >= 1
    decreases |s|
  {
    if s == [] then [""]
    else
      var rest := SplitEach(s[1..], d);
      if d(s[0]) then [""] + rest else [[s[0]] + rest[0]] + rest[1..]
  }

  /** `s.split(sep)` for a single separator character. */
  function SplitOn(s: string, sep: char): seq<string> {
    SplitEach(s, c => c == sep)
  }

  /** `sep.join(xs)`. */
  function Join(sep: char, xs: seq<string>): string
    decreases |xs|
  {
    if xs == [] then ""
    else if |xs| == 1 then xs[0]
    else xs[0] + [sep] + Join(sep, xs[1..])
  }

  /** The non-empty fields, in order. */
  function NonEmpty(xs: seq<string>): (r: seq<string>)
    ensures forall x :: x in r <==> x in xs && x != ""
    decreases |xs|
  {
    if xs == [] then []
    else if xs[0] == "" then NonEmpty(xs[1..])
    else [xs[0]] + NonEmpty(xs[1..])
  }

  function LowerChar(c: char): char {
    if 'A' <= c <= 'Z' then (c as int + 32) as char else c
  }

  /** `str.lower`, on ASCII letters. */
  function Lower(s: string): (r: string)
    ensures |r| == |s|
  {
    seq(|s|, i requires 0 <= i < |s| => LowerChar(s[i]))
  }

  predicate IsLower(s: string) {
    forall j :: 0 <= j < |s| ==> !('A' <= s[j] <= 'Z')
  }

  function StripLeft(s: string): (r: string)
    ensures r == [] || !IsSpace(r[0])
    decreases |s|
  {
    if s != [] && IsSpace(s[0]) then StripLeft(s[1..]) else s
  }

  function StripRight(s: string): (r: string)
    ensures r == [] || !IsSpace(r[|r| - 1])
    ensures |r| <= |s| && r == s[..|r|]
    decreases |s|
  {
    if s != [] && IsSpace(s[|s| - 1]) then StripRight(s[..|s| - 1]) else s
  }

  /** `str.strip()`: no whitespace is left at either end. */
  function Strip(s: string): (r: string)
    ensures r == [] || (!IsSpace(r[0]) && !IsSpace(r[|r| - 1]))
  {
    StripRight(StripLeft(s))
  }

  /** `set(tokens)`: the distinct tokens of a list. */
  function TermSet(ts: seq<string>): (r: set<string>)
    ensures forall t :: t in r <==> t in ts
  {
    set t | t in ts
  }

  /** `strip()` leaves a string without surrounding whitespace unchanged. */
  lemma StripNoSpace(s: string)
    requires s != [] && !IsSpace(s[0]) && !IsSpace(s[|s| - 1])
    ensures Strip(s) == s
  {
    assert StripLeft(s) == s;
  }

  predicate StartsWith(s: string, prefix: string) {
    |prefix| <= |s| && s[..|prefix|] == prefix
  }

  predicate Distinct<T(==)>(xs: seq<T>) {
    forall i, j :: 0 <= i < j < |xs| ==> xs[i] != xs[j]
  }

  /**
   * The elements of `xs` once each, in order of first occurrence: the order
   * this model gives to the iteration of a Python `set` built from `xs`.
   */
  function Dedup<T(==,!new)>(xs: seq<T>): seq<T>
    decreases |xs|
  {
    if xs == [] then []
    else
      var r := Dedup(xs[..|xs| - 1]);
      if xs[|xs| - 1] in r then r else r + [xs[|xs| - 1]]
  }

  /** `[t for t in ts if t and t not in stopwords and len(t) > 1]`. */
  function Keep(ts: seq<string>, stopwords: set<string>): seq<string>
    decreases |ts|
  {
    if ts == [] then []
    else if ts[0] != "" && ts[0] !in stopwords && |ts[0]| > 1 then [ts[0]] + Keep(ts[1..], stopwords)
    else Keep(ts[1..], stopwords)
  }

  // ---------------------------------------------------------------------
  // Lemmas

  /** No field of a split holds a delimiter. */
  lemma {:induction false} SplitFields(s: string, d: char -> bool)
    ensures forall i :: 0 <= i < |Split(s, d)| ==> NoCharIn(Split(s, d)[i], d)
    decreases |s|
  {
    if s != [] {
      SplitFields(s[1..], d);
    }
  }

  /** A character that is no delimiter joins the first field. */
  lemma SplitCons(x: char, s: string, d: char -> bool)
    requires !d(x)
    ensures Split([x] + s, d) == [[x] + Split(s, d)[0]] + Split(s, d)[1..]
  {
    assert ([x] + s)[1..] == s;
  }

  /** A delimiter followed by no other delimiter starts a new field. */
  lemma SplitDelimiter(x: char, s: string, d: char -> bool)
    requires d(x) && (s == [] || !d(s[0]))
    ensures Split([x] + s, d) == [""] + Split(s, d)
  {
    assert ([x] + s)[1..] == s;
  }

  /** `Dedup` keeps each element once and loses none. */
  lemma {:induction false} DedupSpec<T(!new)>(xs: seq<T>)
    ensures Distinct(Dedup(xs))
    ensures forall x :: x in Dedup(xs) <==> x in xs
    decreases |xs|
  {
    if xs != [] {
      var front := xs[..|xs| - 1];
      DedupSpec(front);
      assert xs == front + [xs[|xs| - 1]];
    }
  }

  /** `Keep` keeps exactly the tokens that pass the filter. */
  lemma {:induction false} KeepSpec(ts: seq<string>, stopwords: set<string>)
    ensures forall t :: t in Keep(ts, stopwords) <==> t in ts && t != "" && t !in stopwords && |t| > 1
    decreases |ts|
  {
    if ts != [] {
      KeepSpec(ts[1..], stopwords);
      assert ts == [ts[0]] + ts[1..];
    }
  }

  /** `re.split` and the field-per-delimiter split agree on their non-empty fields. */
  lemma {:induction false} SplitAgreesWithSplitEach(s: string, d: char -> bool)
    ensures NonEmpty(Split(s, d)) == NonEmpty(SplitEach(s, d))
    ensures Split(s, d)[0] == SplitEach(s, d)[0]
    decreases |s|
  {
    if s != [] {
      SplitAgreesWithSplitEach(s[1..], d);
      var r, e := Split(s[1..], d), SplitEach(s[1..], d);
      if d(s[0]) {
        if |s| > 1 && d(s[1]) {
          assert e[0] == "";
        }
        assert NonEmpty([""] + r) == NonEmpty(r);
        assert NonEmpty([""] + e) == NonEmpty(e);
      } else {
        NonEmptyCons(r);
        NonEmptyCons(e);
        var p := if r[0] == "" then [] else [r[0]];
        assert NonEmpty(r[1..]) == NonEmpty(e[1..]) by {
          assert NonEmpty(r) == p + NonEmpty(r[1..]);
          assert NonEmpty(e) == p + NonEmpty(e[1..]);
          assert (p + NonEmpty(r[1..]))[|p|..] == NonEmpty(r[1..]);
          assert (p + NonEmpty(e[1..]))[|p|..] == NonEmpty(e[1..]);
        }
        var sr, se := [[s[0]] + r[0]] + r[1..], [[s[0]] + e[0]] + e[1..];
        NonEmptyCons(sr);
        NonEmptyCons(se);
        assert sr[1..] == r[1..] && se[1..] == e[1..];
        assert sr[0] == se[0] != "";
      }
    }
  }

  lemma NonEmptyCons(xs: seq<string>)
    requires |xs| >= 1
    ensures NonEmpty(xs) == (if xs[0] == "" then [] else [xs[0]]) + NonEmpty(xs[1..])
  {
  }

  lemma {:induction false} NonEmptyConcat(a: seq<string>, b: seq<string>)
    ensures NonEmpty(a + b) == NonEmpty(a) + NonEmpty(b)
    decreases |a|
  {
    if a == [] {
      assert a + b == b;
    } else {
      NonEmptyConcat(a[1..], b);
      assert (a + b)[0] == a[0] && (a + b)[1..] == a[1..] + b;
      NonEmptyCons(a + b);
      NonEmptyCons(a);
      var p := if a[0] == "" then [] else [a[0]];
      assert NonEmpty(a + b) == p + (NonEmpty(a[1..]) + NonEmpty(b));
      assert NonEmpty(a) == p + NonEmpty(a[1..]);
    }
  }

  /** A delimiter character separates the fields of what precedes it from those of what follows. */
  lemma {:induction false} SplitEachConcat(a: string, c: char, b: string, d: char -> bool)
    requires d(c)
    ensures SplitEach(a + [c] + b, d) == SplitEach(a, d) + SplitEach(b, d)
    decreases |a|
  {
    var s := a + [c] + b;
    if a == [] {
      assert s == [c] + b && s[0] == c && s[1..] == b;
    } else {
      SplitEachConcat(a[1..], c, b, d);
      assert s[0] == a[0] && s[1..] == a[1..] + [c] + b;
      var left, right := SplitEach(a[1..], d), SplitEach(b, d);
      assert SplitEach(s[1..], d) == left + right;
      if d(a[0]) {
        assert SplitEach(s, d) == [""] + (left + right);
        assert SplitEach(a, d) == [""] + left;
      } else {
        assert SplitEach(s, d) == [[a[0]] + (left + right)[0]] + (left + right)[1..];
        PrependToFirst(a[0], left, right);
      }
    }
  }

  /** A character joined to the first field of `left + right` joins the first field of `left`. */
  lemma PrependToFirst(x: char, left: seq<string>, right: seq<string>)
    requires |left| >= 1
    ensures [[x] + (left + right)[0]] + (left + right)[1..] == ([[x] + left[0]] + left[1..]) + right
  {
    assert (left + right)[0] == left[0];
    assert (left + right)[1..] == left[1..] + right;
  }

  /** The tokens of `a + c + b` for a delimiter `c` are those of `a` followed by those of `b`. */
  lemma TokensConcat(a: string, c: char, b: string, d: char -> bool)
    requires d(c)
    ensures NonEmpty(Split(a + [c] + b, d)) == NonEmpty(Split(a, d)) + NonEmpty(Split(b, d))
  {
    SplitAgreesWithSplitEach(a + [c] + b, d);
    SplitAgreesWithSplitEach(a, d);
    SplitAgreesWithSplitEach(b, d);
    SplitEachConcat(a, c, b, d);
    NonEmptyConcat(SplitEach(a, d), SplitEach(b, d));
  }

  lemma {:induction false} SplitEachNoDelimiter(x: string, d: char -> bool)
    requires NoCharIn(x, d)
    ensures SplitEach(x, d) == [x]
    decreases |x|
  {
    if x != [] {
      assert !d(x[0]);
      assert NoCharIn(x[1..], d) by {
        forall j | 0 <= j < |x[1..]| ensures !d(x[1..][j]) {
          assert x[1..][j] == x[j + 1];
        }
      }
      SplitEachNoDelimiter(x[1..], d);
      assert [x[0]] + x[1..] == x;
    }
  }

  /** Splitting a joined line on its separator gives back the joined fields. */
  lemma {:induction false} SplitJoin(sep: char, xs: seq<string>)
    requires forall i :: 0 <= i < |xs| ==> sep !in xs[i]
    ensures SplitOn(Join(sep, xs), sep) == if xs == [] then [""] else xs
    decreases |xs|
  {
    var d := (c: char) => c == sep;
    if xs == [] {
    } else if |xs| == 1 {
      SplitEachNoDelimiter(xs[0], d);
    } else {
      SplitJoin(sep, xs[1..]);
      SplitEachNoDelimiter(xs[0], d);
      SplitEachConcat(xs[0], sep, Join(sep, xs[1..]), d);
    }
  }

  lemma LowerConcat(a: string, b: string)
    ensures Lower(a + b) == Lower(a) + Lower(b)
  {
  }

  /** Lowercased text has no upper-case letter and lowercasing it again changes nothing. */
  lemma LowerIsLower(s: string)
    ensures IsLower(Lower(s)) && Lower(Lower(s)) == Lower(s)
  {
  }

  /** Joining the fields of a split on the same separator gives back the text. */
  lemma {:induction false} JoinSplitOn(s: string, sep: char)
    ensures Join(sep, SplitOn(s, sep)) == s
    decreases |s|
  {
    if s != [] {
      JoinSplitOn(s[1..], sep);
      var rest := SplitOn(s[1..], sep);
      if s[0] == sep {
        assert SplitOn(s, sep) == [""] + rest;
        assert ([""] + rest)[1..] == rest;
      } else {
        var r := [[s[0]] + rest[0]] + rest[1..];
        assert SplitOn(s, sep) == r;
        if |rest| > 1 {
          assert rest == [rest[0]] + rest[1..];
          assert Join(sep, rest) == rest[0] + [sep] + Join(sep, rest[1..]);
          assert r[1..] == rest[1..];
        }
        assert s == [s[0]] + s[1..];
      }
    }
  }

  /**
   * A text that starts with a prefix ending in its only separator splits
   * into the prefix's field and the fields of the rest.
   */
  lemma SplitOnAfterPrefix(s: string, prefix: string, sep: char)
    requires StartsWith(s, prefix) && prefix != [] && prefix[|prefix| - 1] == sep
    requires sep !in prefix[..|prefix| - 1]
    ensures |SplitOn(s, sep)| >= 2
    ensures SplitOn(s, sep)[0] == prefix[..|prefix| - 1]
    ensures SplitOn(s, sep)[1..] == SplitOn(s[|prefix|..], sep)
  {
    var a, b := prefix[..|prefix| - 1], s[|prefix|..];
    var d := (c: char) => c == sep;
    assert s == a + [sep] + b by {
      assert s[..|prefix|] == prefix == a + [sep];
    }
    SplitEachConcat(a, sep, b, d);
    SplitEachNoDelimiter(a, d);
  }
}
