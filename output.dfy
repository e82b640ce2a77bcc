/**
 * The report every variant prints: one line per category, in ascending
 * category order, of the form `category term:score term:score ...`, then
 * one line with the kept terms of all categories. Scores are rendered by a
 * `render` parameter standing for Python's float-to-string conversion.
 */
module Output {
  import opened Text
  import opened Order
  import opened TopK

  /** `f"{term}:{score}"`. */
  function Item(render: real -> string, e: Entry): string {
    e.0 + ":" + render(e.1)
  }

  function Items(render: real -> string, es: seq<Entry>): (r: seq<string>)
    ensures |r| == |es|
    ensures forall i :: 0 <= i < |es| ==> r[i] == Item(render, es[i])
  {
    seq(|es|, i requires 0 <= i < |es| => Item(render, es[i]))
  }

  /** `f"{category} " + " ".join(items)`. */
  function CategoryLine(render: real -> string, c: string, es: seq<Entry>): string {
    c + " " + Join(' ', Items(render, es))
  }

  /** The category lines in ascending category order, then the merged line. */
  function Report(render: real -> string, top: map<string, seq<Entry>>, merged: seq<string>): (lines: seq<string>)
    ensures |lines| == |top| + 1
  {
    var cats := SortedSet(top.Keys);
    seq(|cats|, i requires 0 <= i < |cats| => CategoryLine(render, cats[i], top[cats[i]])) + [Join(' ', merged)]
  }

  /**
   * Line `i` of the report starts with the `i`-th category in ascending
   * order, the categories are strictly ascending, and the last line is the
   * merged dictionary.
   */
  lemma ReportLayout(render: real -> string, top: map<string, seq<Entry>>, merged: seq<string>)
    ensures StrictlySorted(SortedSet(top.Keys))
    ensures forall i :: 0 <= i < |top| ==>
              StartsWith(Report(render, top, merged)[i], SortedSet(top.Keys)[i] + " ")
    ensures forall i :: 0 <= i < |top| ==>
              Report(render, top, merged)[i] == CategoryLine(render, SortedSet(top.Keys)[i], top[SortedSet(top.Keys)[i]])
    ensures Report(render, top, merged)[|top|] == Join(' ', merged)
  {
    var cats := SortedSet(top.Keys);
    var lines := Report(render, top, merged);
    forall i | 0 <= i < |top|
      ensures StartsWith(lines[i], cats[i] + " ")
      ensures lines[i] == CategoryLine(render, cats[i], top[cats[i]])
    {
      ReportAt(render, top, merged, i);
      var rest := Join(' ', Items(render, top[cats[i]]));
      assert lines[i] == cats[i] + " " + rest;
      assert (cats[i] + " " + rest)[..|cats[i] + " "|] == cats[i] + " ";
    }
    ReportAt(render, top, merged, |top|);
  }

  /** Line `i` of the report: a category line, or the merged line last. */
  lemma ReportAt(render: real -> string, top: map<string, seq<Entry>>, merged: seq<string>, i: nat)
    requires i <= |top|
    ensures i < |top| ==> SortedSet(top.Keys)[i] in top
    ensures i < |top| ==>
              Report(render, top, merged)[i] == CategoryLine(render, SortedSet(top.Keys)[i], top[SortedSet(top.Keys)[i]])
    ensures i == |top| ==> Report(render, top, merged)[i] == Join(' ', merged)
  {
    var cats := SortedSet(top.Keys);
    assert |cats| == |top|;
    if i < |top| {
      assert cats[i] in top;
    }
  }

  /** Lines laid out as `ReportLayout` describes are the report. */
  lemma ReportOf(render: real -> string, top: map<string, seq<Entry>>, merged: seq<string>, lines: seq<string>)
    requires |lines| == |top| + 1
    requires forall i :: 0 <= i < |top| ==>
               SortedSet(top.Keys)[i] in top &&
               lines[i] == CategoryLine(render, SortedSet(top.Keys)[i], top[SortedSet(top.Keys)[i]])
    requires lines[|top|] == Join(' ', merged)
    ensures lines == Report(render, top, merged)
  {
    ReportLayout(render, top, merged);
  }

  /** A `term:score` item splits back on its colon. */
  lemma ItemFields(render: real -> string, e: Entry)
    requires ':' !in e.0 && ':' !in render(e.1)
    ensures SplitOn(Item(render, e), ':') == [e.0, render(e.1)]
  {
    var xs := [e.0, render(e.1)];
    assert Join(':', xs) == e.0 + [':'] + Join(':', xs[1..]);
    assert Item(render, e) == Join(':', xs);
    SplitJoin(':', xs);
  }

  /**
   * After the category and its space, a category line splits back on spaces
   * into exactly its items, when neither the terms nor the rendered scores
   * hold a space.
   */
  lemma CategoryLineFields(render: real -> string, c: string, es: seq<Entry>)
    requires es != []
    requires forall i :: 0 <= i < |es| ==> ' ' !in es[i].0 && ' ' !in render(es[i].1)
    ensures StartsWith(CategoryLine(render, c, es), c + " ")
    ensures SplitOn(CategoryLine(render, c, es)[|c| + 1..], ' ') == Items(render, es)
  {
    var items := Items(render, es);
    var line := CategoryLine(render, c, es);
    assert line == (c + " ") + Join(' ', items);
    assert line[..|c| + 1] == c + " ";
    assert line[|c| + 1..] == Join(' ', items);
    forall i | 0 <= i < |items|
      ensures ' ' !in items[i]
    {
      assert items[i] == es[i].0 + ":" + render(es[i].1);
    }
    SplitJoin(' ', items);
  }

  /** The merged line splits back into the merged terms. */
  lemma MergedLineFields(merged: seq<string>)
    requires merged != []
    requires forall i :: 0 <= i < |merged| ==> ' ' !in merged[i]
    ensures SplitOn(Join(' ', merged), ' ') == merged
  {
    SplitJoin(' ', merged);
  }

  /** The terms kept for any category. */
  function KeptTerms(top: map<string, seq<Entry>>): (r: set<string>)
    ensures forall t :: t in r <==> exists c, i :: c in top && 0 <= i < |top[c]| && top[c][i].0 == t
  {
    set c, i | c in top && 0 <= i < |top[c]| :: top[c][i].0
  }

  lemma KeptTermsInsert(top: map<string, seq<Entry>>, c: string, es: seq<Entry>)
    requires c !in top
    ensures KeptTerms(top[c := es]) == KeptTerms(top) + set i | 0 <= i < |es| :: es[i].0
  {
    var r := top[c := es];
    forall t | t in KeptTerms(r)
      ensures t in KeptTerms(top) + set i | 0 <= i < |es| :: es[i].0
    {
      var c', i :| c' in r && 0 <= i < |r[c']| && r[c'][i].0 == t;
      if c' != c {
        assert top[c'][i].0 == t;
      }
    }
    forall t | t in KeptTerms(top)
      ensures t in KeptTerms(r)
    {
      var c', i :| c' in top && 0 <= i < |top[c']| && top[c'][i].0 == t;
      assert r[c'][i].0 == t;
    }
    forall t | t in set i | 0 <= i < |es| :: es[i].0
      ensures t in KeptTerms(r)
    {
      var i :| 0 <= i < |es| && es[i].0 == t;
      assert r[c][i].0 == t;
    }
  }
}
