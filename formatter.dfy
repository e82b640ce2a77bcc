/**
 * The formatting job of the four-job pipeline (output_formatter.py). Its
 * mapper renders each category's kept terms as one report line and passes
 * the merged term list through; its reducer prints the category lines in
 * ascending category order and the union of the merged lists as one
 * sorted, space-separated line.
 */
module Formatter {
  import opened Wrappers
  import opened Text
  import opened Order
  import opened TopK
  import opened Output
  import opened Selector

  const MERGED_DICT: string := "MERGED_DICT"

  const CATEGORIES: string := "CATEGORIES"

  /** A shuffled value: a merged term list, or a category with its rendered line. */
  datatype Shuffled = Merged(value: Formatted) | Named(category: string, line: string)

  /**
   * `mapper`: the MERGED_DICT record goes through unchanged; any other key
   * is a category, whose entries become `category term:score ...` under
   * the single key CATEGORIES.
   */
  function Mapper(render: real -> string, key: string, value: Formatted): (r: (string, Shuffled))
    requires key != MERGED_DICT ==> value.EntryList?
    ensures r.0 == MERGED_DICT || r.0 == CATEGORIES
    ensures r.0 == MERGED_DICT <==> key == MERGED_DICT
    ensures r.0 == MERGED_DICT ==> r.1 == Merged(value)
    ensures r.0 == CATEGORIES ==>
              && r.1.Named? && r.1.category == key
              && StartsWith(r.1.line, key + " ")
              && r.1.line == CategoryLine(render, key, value.entries)
  {
    if key == MERGED_DICT then (MERGED_DICT, Merged(value))
    else
      var line := CategoryLine(render, key, value.entries);
      assert line[..|key + " "|] == key + " ";
      (CATEGORIES, Named(key, line))
  }

  // ---------------------------------------------------------------------
  // The merged dictionary

  /** `set.update` accepts a list of terms, and an empty list of anything. */
  predicate Hashable(v: Formatted) {
    v.TermList? || v.entries == []
  }

  /** The terms `set.update` adds for one value. */
  function UpdateTerms(v: Formatted): (r: set<string>)
    ensures forall t :: t in r <==> v.TermList? && exists j :: 0 <= j < |v.terms| && v.terms[j] == t
  {
    if v.TermList? then set j | 0 <= j < |v.terms| :: v.terms[j] else {}
  }

  /** The terms of all merged lists. */
  function UnionOf(values: seq<Formatted>): set<string>
    decreases |values|
  {
    if values == [] then {} else UnionOf(values[..|values| - 1]) + UpdateTerms(values[|values| - 1])
  }

  /** A term is in the union exactly when some merged list holds it. */
  lemma {:induction false} UnionOfMembers(values: seq<Formatted>, t: string)
    ensures t in UnionOf(values) <==> exists i :: 0 <= i < |values| && t in UpdateTerms(values[i])
    decreases |values|
  {
    if values != [] {
      var init := values[..|values| - 1];
      UnionOfMembers(init, t);
      if exists i :: 0 <= i < |values| && t in UpdateTerms(values[i]) {
        var i :| 0 <= i < |values| && t in UpdateTerms(values[i]);
        if i < |values| - 1 {
          assert init[i] == values[i];
        }
      }
      if exists i :: 0 <= i < |init| && t in UpdateTerms(init[i]) {
        var i :| 0 <= i < |init| && t in UpdateTerms(init[i]);
        assert values[i] == init[i];
      }
    }
  }

  /** The one merged list the selection job emits comes back as the same set of terms. */
  lemma UnionOfSingle(terms: set<string>)
    ensures UnionOf([TermList(SortedSet(terms))]) == terms
  {
    var values := [TermList(SortedSet(terms))];
    assert values[..0] == [];
  }

  /** The reducer's MERGED_DICT line: the union, sorted and joined with spaces. */
  function MergedLine(values: seq<Formatted>): string {
    Join(' ', SortedSet(UnionOf(values)))
  }

  /**
   * The MERGED_DICT branch of `reducer`: gather the terms of every merged
   * list into one set, then emit it sorted and space-joined under
   * `~MERGED_DICT`. A non-empty list of entries (from a category named
   * MERGED_DICT) makes `update` raise TypeError.
   */
  method MergeTerms(values: seq<Formatted>) returns (r: Result<(string, string)>)
    ensures r.Success? <==> forall i :: 0 <= i < |values| ==> Hashable(values[i])
    ensures r.Success? ==> r.value == ("~MERGED_DICT", MergedLine(values))
  {
    var unique: set<string> := {};
    var i := 0;
    while i < |values|
      invariant 0 <= i <= |values|
      invariant forall k :: 0 <= k < i ==> Hashable(values[k])
      invariant unique == UnionOf(values[..i])
    {
      if !Hashable(values[i]) {
        return Failure(Unhashable);
      }
      assert values[..i + 1][..i] == values[..i];
      unique := unique + UpdateTerms(values[i]);
      i := i + 1;
    }
    assert values[..i] == values;
    r := Success(("~MERGED_DICT", Join(' ', SortedSet(unique))));
  }

  /**
   * The merged line lists each term of the merged lists once, in ascending
   * order: split on spaces it gives back the sorted union when no term
   * holds a space.
   */
  lemma MergedLineSplit(values: seq<Formatted>)
    requires UnionOf(values) != {}
    requires forall t :: t in UnionOf(values) ==> ' ' !in t
    ensures SplitOn(MergedLine(values), ' ') == SortedSet(UnionOf(values))
    ensures StrictlySorted(SortedSet(UnionOf(values)))
    ensures forall t :: t in SortedSet(UnionOf(values)) <==> exists i :: 0 <= i < |values| && t in UpdateTerms(values[i])
  {
    var sorted := SortedSet(UnionOf(values));
    Output.MergedLineFields(sorted);
    forall t ensures t in sorted <==> exists i :: 0 <= i < |values| && t in UpdateTerms(values[i]) {
      UnionOfMembers(values, t);
    }
  }

  // ---------------------------------------------------------------------
  // The category lines

  /** The line of each (category, line) pair, in order. */
  function Lines(named: seq<(string, string)>): (r: seq<string>)
    ensures |r| == |named|
    ensures forall i :: 0 <= i < |named| ==> r[i] == named[i].1
  {
    seq(|named|, i requires 0 <= i < |named| => named[i].1)
  }

  /** The CATEGORIES branch of `reducer`: the lines, stably sorted by category name. */
  function CategoryLines(named: seq<(string, string)>): (r: seq<string>)
    ensures |r| == |named|
  {
    var sorted := SortByName(named);
    SortByNameCorrect(named);
    assert |sorted| == |multiset(sorted)| == |named|;
    Lines(sorted)
  }

  /**
   * The lines are a rearrangement of the input lines, in ascending order of
   * their categories, and lines of the same category keep their input order.
   */
  lemma CategoryLinesOrder(named: seq<(string, string)>)
    ensures multiset(CategoryLines(named)) == multiset(Lines(named))
    ensures forall i, j :: 0 <= i < j < |named| ==> !Less(SortByName(named)[j].0, SortByName(named)[i].0)
    ensures forall i :: 0 <= i < |named| ==> CategoryLines(named)[i] == SortByName(named)[i].1
    ensures forall n :: Ties(SortByName(named), Name, n) == Ties(named, Name, n)
  {
    SortByNameCorrect(named);
    LinesPermutation(SortByName(named), named);
  }

  /** The lines of two rearranged sequences of pairs are rearranged too. */
  lemma {:induction false} LinesPermutation(a: seq<(string, string)>, b: seq<(string, string)>)
    requires multiset(a) == multiset(b)
    ensures multiset(Lines(a)) == multiset(Lines(b))
    decreases |a|
  {
    if a == [] {
      assert |b| == |multiset(b)| == 0;
    } else {
      var x := a[|a| - 1];
      var front := a[..|a| - 1];
      assert a == front + [x];
      assert x in multiset(b);
      var j :| 0 <= j < |b| && b[j] == x;
      var l, r := b[..j], b[j + 1..];
      assert b == l + [x] + r;
      RemoveOne(a, b, j);
      LinesPermutation(front, l + r);
      LinesConcat(front, [x]);
      LinesConcat(l + [x], r);
      LinesConcat(l, [x]);
      LinesConcat(l, r);
      assert Lines([x]) == [x.1];
      assert multiset(Lines(a)) == multiset(Lines(front)) + multiset{x.1};
      assert multiset(Lines(b)) == multiset(Lines(l)) + multiset{x.1} + multiset(Lines(r));
    }
  }

  lemma LinesConcat(a: seq<(string, string)>, b: seq<(string, string)>)
    ensures Lines(a + b) == Lines(a) + Lines(b)
  {
  }

  /**
   * `reducer`: MERGED_DICT gives the merged line under `~MERGED_DICT`; the
   * CATEGORIES key gives the category lines with no key.
   */
  method Reducer(key: string, values: seq<Shuffled>) returns (r: Result<seq<(Option<string>, string)>>)
    requires key == MERGED_DICT ==> forall i :: 0 <= i < |values| ==> values[i].Merged?
    requires key != MERGED_DICT ==> forall i :: 0 <= i < |values| ==> values[i].Named?
    ensures key == MERGED_DICT ==>
              var merged := seq(|values|, i requires 0 <= i < |values| => values[i].value);
              && (r.Success? <==> forall i :: 0 <= i < |merged| ==> Hashable(merged[i]))
              && (r.Success? ==> r.value == [(Some("~MERGED_DICT"), MergedLine(merged))])
    ensures key != MERGED_DICT ==>
              var named := seq(|values|, i requires 0 <= i < |values| => (values[i].category, values[i].line));
              && r.Success?
              && |r.value| == |values|
              && forall i :: 0 <= i < |values| ==> r.value[i] == (None, CategoryLines(named)[i])
  {
    if key == MERGED_DICT {
      var merged := seq(|values|, i requires 0 <= i < |values| => values[i].value);
      var m := MergeTerms(merged);
      if m.Failure? {
        return Failure(m.error);
      }
      r := Success([(Some(m.value.0), m.value.1)]);
    } else {
      var named := seq(|values|, i requires 0 <= i < |values| => (values[i].category, values[i].line));
      var lines := CategoryLines(named);
      r := Success(seq(|lines|, i requires 0 <= i < |lines| => (None, lines[i])));
    }
  }

  // ---------------------------------------------------------------------
  // Agreement with the single-job report

  /**
   * When the categories handed to the reducer are the categories of `top`,
   * each once with its rendered line, the category lines are the report's
   * category lines.
   */
  lemma CategoryLinesMatchReport(render: real -> string, top: map<string, seq<Entry>>, named: seq<(string, string)>, merged: seq<string>)
    requires DistinctNames(named) && NameSet(named) == top.Keys
    requires forall i :: 0 <= i < |named| ==> named[i].0 in top && named[i].1 == CategoryLine(render, named[i].0, top[named[i].0])
    ensures CategoryLines(named) == Report(render, top, merged)[..|top|]
  {
    var sorted := SortByName(named);
    var cats := SortedSet(top.Keys);
    SortByNamePermutation(named);
    SortByNameDistinct(named);
    var report := Report(render, top, merged);
    assert |cats| == |top|;
    forall i | 0 <= i < |top|
      ensures CategoryLines(named)[i] == report[i]
    {
      RenderedAt(render, top, named, sorted, i);
      assert Names(sorted)[i] == cats[i];
    }
  }

  lemma SortByNamePermutation(named: seq<(string, string)>)
    ensures multiset(SortByName(named)) == multiset(named)
    ensures CategoryLines(named) == Lines(SortByName(named))
  {
    SortByNameCorrect(named);
  }

  /** An entry of a rearrangement of the reducer's input is one of its rendered categories. */
  lemma RenderedAt(render: real -> string, top: map<string, seq<Entry>>, named: seq<(string, string)>, sorted: seq<(string, string)>, i: nat)
    requires forall k :: 0 <= k < |named| ==> named[k].0 in top && named[k].1 == CategoryLine(render, named[k].0, top[named[k].0])
    requires multiset(sorted) == multiset(named) && i < |sorted|
    ensures sorted[i].0 in top && sorted[i].1 == CategoryLine(render, sorted[i].0, top[sorted[i].0])
  {
    assert sorted[i] in multiset(named);
    var k :| 0 <= k < |named| && named[k] == sorted[i];
  }

  /**
   * With the selection job's one merged list, the reducer's output is the
   * single-job report: the category lines in ascending category order,
   * then the kept terms.
   */
  lemma ReducerMatchesReport(render: real -> string, top: map<string, seq<Entry>>, named: seq<(string, string)>, kept: set<string>)
    requires DistinctNames(named) && NameSet(named) == top.Keys
    requires forall i :: 0 <= i < |named| ==> named[i].0 in top && named[i].1 == CategoryLine(render, named[i].0, top[named[i].0])
    ensures CategoryLines(named) + [MergedLine([TermList(SortedSet(kept))])] == Report(render, top, SortedSet(kept))
  {
    var report := Report(render, top, SortedSet(kept));
    CategoryLinesMatchReport(render, top, named, SortedSet(kept));
    UnionOfSingle(kept);
    assert report == report[..|top|] + [report[|top|]];
  }
}
