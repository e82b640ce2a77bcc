/**
 * The scoring job of the four-job pipeline (chisquare_calculator.py). Its
 * `mapper_init` loads the counting job's output lines into three fields;
 * its mapper turns each `TERM|t|c` count into the chi-square statistic of
 * (t, c), keyed `c|t`; its reducer sums the statistics of a key.
 */
module Calculator {
  import opened Wrappers
  import opened Text
  import opened Maps
  import opened Counting
  import opened ChiSquare

  // ---------------------------------------------------------------------
  // Integers as text

  predicate IsDigits(s: string) {
    forall j :: 0 <= j < |s| ==> IsDigit(s[j])
  }

  function DigitChar(d: nat): char
    requires d < 10
  {
    ('0' as int + d) as char
  }

  function DigitsValue(s: string): nat
    requires IsDigits(s)
    decreases |s|
  {
    if s == [] then 0 else DigitsValue(s[..|s| - 1]) * 10 + (s[|s| - 1] as int - '0' as int)
  }

  /** `str(n)` for a natural number: its decimal digits, most significant first. */
  function NatToString(n: nat): string
    decreases n
  {
    if n < 10 then [DigitChar(n)] else NatToString(n / 10) + [DigitChar(n % 10)]
  }

  /** `str(n)`: a minus sign before the digits of a negative number. */
  function IntToString(n: int): string {
    if n < 0 then "-" + NatToString(-n) else NatToString(n)
  }

  /**
   * `int(s)`: surrounding whitespace, an optional sign, then at least one
   * decimal digit; anything else raises ValueError.
   */
  function ParseInt(s: string): (r: Result<int>)
    ensures r.Failure? ==> r.error == NotAnInteger(s)
  {
    var body := Strip(s);
    if body == [] then Failure(NotAnInteger(s))
    else
      var digits := if body[0] == '-' || body[0] == '+' then body[1..] else body;
      if digits == [] || !IsDigits(digits) then Failure(NotAnInteger(s))
      else if body[0] == '-' then
        var v: int := -(DigitsValue(digits) as int);
        Success(v)
      else Success(DigitsValue(digits))
  }

  lemma {:induction false} NatToStringDigits(n: nat)
    ensures NatToString(n) != [] && IsDigits(NatToString(n))
    ensures DigitsValue(NatToString(n)) == n
    decreases n
  {
    if n >= 10 {
      NatToStringDigits(n / 10);
      var s := NatToString(n);
      assert s[..|s| - 1] == NatToString(n / 10);
    }
  }

  /** Printing an integer and reading it back gives the integer. */
  lemma ParseIntToString(n: int)
    ensures ParseInt(IntToString(n)) == Success(n)
  {
    var s := IntToString(n);
    var m := if n < 0 then -n else n;
    NatToStringDigits(m);
    var digits := NatToString(m);
    assert s[|s| - 1] == digits[|digits| - 1];
    StripNoSpace(s);
    if n < 0 {
      assert s[1..] == digits;
    }
  }

  /** The printed form of an integer holds no whitespace, tab or `|`. */
  lemma IntToStringChars(n: int)
    ensures forall j :: 0 <= j < |IntToString(n)| ==> IntToString(n)[j] == '-' || IsDigit(IntToString(n)[j])
  {
    NatToStringDigits(if n < 0 then -n else n);
  }

  // ---------------------------------------------------------------------
  // mapper_init

  /** The three fields `mapper_init` sets. */
  datatype Loaded = Loaded(totalDocs: int, categoryDocs: map<string, int>, termTotals: map<string, int>)

  const INITIAL := Loaded(0, map[], map[])

  /**
   * The fields after a line with key `key` and count `v`: `TOTAL_DOCS` sets
   * the total, `CAT_DOCS|c` and `TERM_TOTAL|t` set the entry named by the
   * key's second `|`-field, other keys change nothing.
   */
  function Apply(st: Loaded, key: string, v: int): Loaded {
    if key == "TOTAL_DOCS" then st.(totalDocs := v)
    else if StartsWith(key, "CAT_DOCS|") then
      SplitOnAfterPrefix(key, "CAT_DOCS|", '|');
      st.(categoryDocs := st.categoryDocs[SplitOn(key, '|')[1] := v])
    else if StartsWith(key, "TERM_TOTAL|") then
      SplitOnAfterPrefix(key, "TERM_TOTAL|", '|');
      st.(termTotals := st.termTotals[SplitOn(key, '|')[1] := v])
    else st
  }

  /**
   * One line of the counts file: stripped, split at its tab into key and
   * value (anything but two fields raises ValueError), and the value read
   * as an integer.
   */
  function LoadLine(st: Loaded, line: string): (r: Result<Loaded>)
    ensures r.Failure? ==> r.error == Unpack(|SplitOn(Strip(line), '\t')|) || r.error.NotAnInteger?
  {
    var parts := SplitOn(Strip(line), '\t');
    if |parts| != 2 then Failure(Unpack(|parts|))
    else
      match ParseInt(parts[1])
      case Failure(e) => Failure(e)
      case Success(v) => Success(Apply(st, parts[0], v))
  }

  /** The fields after the lines, read in order; the first bad line stops the job. */
  function Load(lines: seq<string>): Result<Loaded>
    decreases |lines|
  {
    if lines == [] then Success(INITIAL)
    else
      match Load(lines[..|lines| - 1])
      case Failure(e) => Failure(e)
      case Success(st) => LoadLine(st, lines[|lines| - 1])
  }

  /** A line that stops the job stops it whatever follows. */
  lemma {:induction false} LoadFailureSticks(lines: seq<string>, i: nat)
    requires i <= |lines| && Load(lines[..i]).Failure?
    ensures Load(lines) == Load(lines[..i])
    decreases |lines| - i
  {
    if i < |lines| {
      assert lines[..i + 1][..i] == lines[..i];
      LoadFailureSticks(lines, i + 1);
    } else {
      assert lines[..i] == lines;
    }
  }

  lemma LoadStep(lines: seq<string>, i: nat, st: Loaded)
    requires i < |lines| && Load(lines[..i]) == Success(st)
    ensures Load(lines[..i + 1]) == LoadLine(st, lines[i])
  {
    assert lines[..i + 1][..i] == lines[..i];
  }

  /** The job object and the three fields `mapper_init` sets. */
  class CalculatorJob {
    var totalDocs: int
    var categoryDocs: map<string, int>
    var termTotals: map<string, int>

    function State(): Loaded
      reads this
    {
      Loaded(totalDocs, categoryDocs, termTotals)
    }

    constructor ()
      ensures State() == INITIAL
    {
      totalDocs, categoryDocs, termTotals := 0, map[], map[];
    }

    /**
     * `mapper_init`: the fields hold what the lines set, later lines
     * overwriting earlier ones, or the job stops at the first bad line.
     */
    method MapperInit(lines: seq<string>) returns (error: Option<Error>)
      modifies this
      ensures error.None? <==> Load(lines).Success?
      ensures error.None? ==> State() == Load(lines).value
      ensures error.Some? ==> Load(lines) == Failure(error.value)
    {
      totalDocs, categoryDocs, termTotals := 0, map[], map[];
      error := None;
      var i := 0;
      while i < |lines|
        invariant 0 <= i <= |lines|
        invariant Load(lines[..i]) == Success(State())
        invariant error.None?
      {
        LoadStep(lines, i, State());
        error := ReadLine(lines[i]);
        if error.Some? {
          LoadFailureSticks(lines, i + 1);
          return;
        }
        i := i + 1;
      }
      assert lines[..|lines|] == lines;
    }

    /** The body of the loop: one line of the counts file. */
    method ReadLine(line: string) returns (error: Option<Error>)
      modifies this
      ensures error.None? ==> LoadLine(old(State()), line) == Success(State())
      ensures error.Some? ==> LoadLine(old(State()), line) == Failure(error.value)
    {
      var parts := SplitOn(Strip(line), '\t');
      if |parts| != 2 {
        return Some(Unpack(|parts|));
      }
      var key := parts[0];
      var value := ParseInt(parts[1]);
      if value.Failure? {
        return Some(value.error);
      }
      Store(key, value.value);
      return None;
    }

    /** The branches on the key: the total, a category's or a term's count. */
    method Store(key: string, v: int)
      modifies this
      ensures State() == Apply(old(State()), key, v)
    {
      if key == "TOTAL_DOCS" {
        totalDocs := v;
      } else if StartsWith(key, "CAT_DOCS|") {
        SplitOnAfterPrefix(key, "CAT_DOCS|", '|');
        var category := SplitOn(key, '|')[1];
        categoryDocs := categoryDocs[category := v];
      } else if StartsWith(key, "TERM_TOTAL|") {
        SplitOnAfterPrefix(key, "TERM_TOTAL|", '|');
        var term := SplitOn(key, '|')[1];
        termTotals := termTotals[term := v];
      }
    }
  }

  // ---------------------------------------------------------------------
  // Loading the counting job's output

  /**
   * A line of the counts file as the model takes it to be written: the raw
   * key, a tab, the count. The output protocol that would quote the key is
   * not modelled.
   */
  function CountLine(key: string, n: int): string {
    key + "\t" + IntToString(n)
  }

  /** The key of a line is stored under the name between its first and second `|`. */
  function KeyName(key: string, prefix: string): string
    requires StartsWith(key, prefix)
  {
    SplitOn(key[|prefix|..], '|')[0]
  }

  /** A key the loader reads back intact: no tab, and no whitespace at its start. */
  predicate Readable(key: string) {
    key != [] && !IsSpace(key[0]) && '\t' !in key
  }

  /** A count line reads back as its key and its count. */
  lemma LoadCountLine(st: Loaded, key: string, n: int)
    requires Readable(key)
    ensures LoadLine(st, CountLine(key, n)) == Success(Apply(st, key, n))
  {
    CountLineFields(key, n);
    ParseIntToString(n);
  }

  /**
   * What a read-back count line does: the total, a category's or a term's
   * entry is set to the count, and any other key leaves the fields unchanged.
   */
  lemma ApplyKey(st: Loaded, key: string, n: int)
    ensures Apply(st, key, n) ==
            if key == "TOTAL_DOCS" then st.(totalDocs := n)
            else if StartsWith(key, "CAT_DOCS|") then st.(categoryDocs := st.categoryDocs[KeyName(key, "CAT_DOCS|") := n])
            else if StartsWith(key, "TERM_TOTAL|") then st.(termTotals := st.termTotals[KeyName(key, "TERM_TOTAL|") := n])
            else st
  {
    if StartsWith(key, "CAT_DOCS|") {
      SplitOnAfterPrefix(key, "CAT_DOCS|", '|');
    } else if StartsWith(key, "TERM_TOTAL|") {
      SplitOnAfterPrefix(key, "TERM_TOTAL|", '|');
    }
  }

  /** A count line strips to itself and splits at its tab into key and count. */
  lemma CountLineFields(key: string, n: int)
    requires Readable(key)
    ensures SplitOn(Strip(CountLine(key, n)), '\t') == [key, IntToString(n)]
  {
    var line := CountLine(key, n);
    var num := IntToString(n);
    NatToStringDigits(if n < 0 then -n else n);
    IntToStringChars(n);
    assert line[|line| - 1] == num[|num| - 1];
    assert StripLeft(line) == line;
    assert StripRight(line) == line;
    var d := (c: char) => c == '\t';
    assert line == key + ['\t'] + num;
    SplitEachConcat(key, '\t', num, d);
    SplitEachNoDelimiter(key, d);
    assert NoCharIn(num, d) by {
      forall j | 0 <= j < |num| ensures !d(num[j]) {
        assert num[j] == '-' || IsDigit(num[j]);
      }
    }
    SplitEachNoDelimiter(num, d);
  }

  // ---------------------------------------------------------------------
  // Mapper and the statistic

  /** `calculate_chi_square`: N is the sum of the four cells. */
  function CalculateChiSquare(a: int, b: int, c: int, d: int): (r: real)
    ensures r == Score(Table(a, b, c, d))
    ensures a >= 0 && b >= 0 && c >= 0 && d >= 0 ==> r >= 0.0
  {
    var t := Table(a, b, c, d);
    if NonNegative(t) then
      ScoreNonNegative(t);
      CalculatorScore(t)
    else
      CalculatorScore(t)
  }

  /** The output key: category first, then term. */
  function ScoreKey(c: string, t: string): string {
    c + "|" + t
  }

  /**
   * `mapper`: a `TERM|t|c` key (exactly three `|`-fields, else ValueError)
   * whose count reads as an integer, and whose term and category both have
   * loaded totals, yields the statistic of the table derived from the
   * counts under `c|t`; any other key yields nothing.
   */
  function Mapper(st: Loaded, key: string, value: string): (r: Result<seq<(string, real)>>)
    ensures !StartsWith(key, "TERM|") ==> r == Success([])
    ensures StartsWith(key, "TERM|") && |SplitOn(key, '|')| != 3 ==> r == Failure(Unpack(|SplitOn(key, '|')|))
    ensures r.Success? && r.value != [] ==>
              var parts := SplitOn(key, '|');
              && |parts| == 3 && parts[1] in st.termTotals && parts[2] in st.categoryDocs
              && |r.value| == 1 && r.value[0].0 == ScoreKey(parts[2], parts[1])
  {
    if !StartsWith(key, "TERM|") then Success([])
    else
      var parts := SplitOn(key, '|');
      if |parts| != 3 then Failure(Unpack(|parts|))
      else
        var term, category := parts[1], parts[2];
        match ParseInt(value)
        case Failure(e) => Failure(e)
        case Success(count) =>
          if term in st.termTotals && category in st.categoryDocs then
            var a := count;
            var b := st.termTotals[term] - a;
            var c := st.categoryDocs[category] - a;
            var d := st.totalDocs - a - b - c;
            Success([(ScoreKey(category, term), CalculateChiSquare(a, b, c, d))])
          else Success([])
  }

  /** The table the mapper derives has the count as A, the loaded term and
      category totals as its marginals, and the loaded total as its size. */
  lemma MapperTable(st: Loaded, count: int, t: string, c: string)
    requires t in st.termTotals && c in st.categoryDocs
    ensures var a := count;
            var b := st.termTotals[t] - a;
            var cc := st.categoryDocs[c] - a;
            var tb := Table(a, b, cc, st.totalDocs - a - b - cc);
            && tb.a == count
            && tb.a + tb.b == st.termTotals[t]
            && tb.a + tb.c == st.categoryDocs[c]
            && Size(tb) == st.totalDocs
  {
  }

  /** A pair key splits into its three fields when neither name holds a `|`. */
  lemma TermKeyFields(t: string, c: string)
    requires '|' !in t && '|' !in c
    ensures SplitOn("TERM|" + t + "|" + c, '|') == ["TERM", t, c]
  {
    var xs := ["TERM", t, c];
    assert Join('|', xs[2..]) == c;
    assert Join('|', xs[1..]) == t + "|" + c;
    assert Join('|', xs) == "TERM|" + t + "|" + c;
    SplitJoin('|', xs);
  }

  /** The output key splits back into category and term. */
  lemma ScoreKeyFields(c: string, t: string)
    requires '|' !in t && '|' !in c
    ensures SplitOn(ScoreKey(c, t), '|') == [c, t]
  {
    var xs := [c, t];
    assert Join('|', xs[1..]) == t;
    SplitJoin('|', xs);
  }

  /**
   * Fed the counts of a set of documents, the mapper scores a counted pair
   * exactly as the sequential variant does, under the key `c|t`.
   */
  lemma MapperAgrees(cnt: Counts, t: string, c: string)
    requires '|' !in t && '|' !in c
    requires t in cnt.termDocs && c in cnt.categoryDocs
    ensures Mapper(Loaded(cnt.totalDocs, cnt.categoryDocs, cnt.termDocs), "TERM|" + t + "|" + c,
                   IntToString(Get(cnt.termCategoryDocs, (t, c))))
            == Success([(ScoreKey(c, t), Score(TableOf(cnt, t, c)))])
  {
    var key := "TERM|" + t + "|" + c;
    assert key[..5] == "TERM|";
    assert StartsWith(key, "TERM|");
    TermKeyFields(t, c);
    ParseIntToString(Get(cnt.termCategoryDocs, (t, c)));
  }

  // ---------------------------------------------------------------------
  // Reducer

  function SumReal(xs: seq<real>): real
    decreases |xs|
  {
    if xs == [] then 0.0 else SumReal(xs[..|xs| - 1]) + xs[|xs| - 1]
  }

  /**
   * `reducer`: a key of exactly two `|`-fields (else ValueError) is emitted
   * again, rebuilt from its fields, with the sum of its values.
   */
  function Reducer(key: string, values: seq<real>): (r: Result<(string, real)>)
    ensures r.Success? <==> |SplitOn(key, '|')| == 2
    ensures r.Success? ==> r.value.0 == key && r.value.1 == SumReal(values)
  {
    var parts := SplitOn(key, '|');
    if |parts| != 2 then Failure(Unpack(|parts|))
    else
      JoinSplitOn(key, '|');
      assert Join('|', parts) == parts[0] + "|" + parts[1];
      Success((parts[0] + "|" + parts[1], SumReal(values)))
  }

  /** For the one value each key receives, the reducer passes the mapper's output through. */
  lemma ReducerSingle(c: string, t: string, x: real)
    requires '|' !in t && '|' !in c
    ensures Reducer(ScoreKey(c, t), [x]) == Success((ScoreKey(c, t), x))
  {
    ScoreKeyFields(c, t);
    var none: seq<real> := [];
    assert [x][..0] == none;
    assert SumReal([x]) == x;
  }
}
