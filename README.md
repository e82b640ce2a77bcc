# MapReduce-ChiSquare in Dafny

MapReduce-ChiSquare selects the terms that best characterise each category of
a corpus of labelled product reviews. It reads one JSON review per line and
splits its text into terms at a fixed set of delimiter characters. It drops
stopwords and one-character tokens and counts document frequencies: all
documents, documents per category, documents per term and documents per
(term, category) pair. From these counts it builds, for every pair, the 2×2
contingency table A (term in category), B (term elsewhere), C (category
without the term) and D (neither) and scores it with the chi-square
statistic N·(AD−BC)² / ((A+B)(A+C)(B+D)(C+D)), taken as 0 when the
denominator is 0. It keeps the 75 best-scoring terms of each category. It
prints one line per category, in ascending category order, of the form
`category term:score term:score …`, then one line holding the sorted union
of all kept terms.

The repository implements this pipeline three times, and the model follows
each implementation file by file:

- `multi_jobs_hdfs.py`, the sequential variant, is module `Sequential`. It
  has an imperative counting loop over the reviews, a scoring loop, a top-75
  loop and a formatting loop, each proved against a specification function.
- `chi_square.py`, a single map/reduce job, is module `SingleJob`. It has a
  pure mapper and combiner and an imperative reducer of five steps.
- The four jobs `document_term_counter.py`, `chisquare_calculator.py`,
  `top_terms_selector.py` and `output_formatter.py` are modules
  `TermCounter`, `Calculator`, `Selector` and `Formatter`. The classes
  `TermCounter.CounterJob` and `Calculator.CalculatorJob` hold the fields
  that `mapper_init` fills.

The three variants share these modules:

- `Text`: the delimiter classes, `re.split`, `str.split`, `join`, `lower`,
  `strip`, and the first-occurrence order that stands for a Python set.
- `Order`: Python's string order, `sorted` of a set, and a stable sort by
  name.
- `Maps`: `defaultdict(int)` updates and the per-key sums of partial counts.
- `Counting`: the four document-frequency counters and what every counting
  run guarantees.
- `ChiSquare`: the contingency table, the statistic, the zero test of the
  four-job variant, and the per-category score lists.
- `TopK`: `heapq.nlargest` as a stable sort by descending score cut to n.
- `Output`: the report lines.
- `Reviews`: a decoded review line.
- `Wrappers`: Option, Result and the Python exceptions a job can stop with.

Each map and reduce call becomes a function or method over the sequence of
key/value pairs that the framework hands it. Grouping by key is taken as
given: a reducer receives all values of its key as a sequence, and where
the order of arrival matters the lemmas hold for every order.

Three places in the source behave other than evidently intended. They are
listed under "## Findings". Each has a member modelling the code as written
with a concrete input that shows the difference, and a corrected member
whose intended property is proved. The rest of the model uses the
corrected member.

## Model

| member | source | states |
|---|---|---|
| Text.Split | multi_jobs_hdfs.py:74 | `re.split` at runs of delimiter characters always yields at least one field |
| Text.SplitFields | multi_jobs_hdfs.py:74 | no field produced by the split contains a delimiter character |
| Text.SplitEach | document_term_counter.py:29-30 | splitting at every delimiter character always yields at least one field |
| Text.SplitAgreesWithSplitEach | multi_jobs_hdfs.py:74 | splitting at runs of delimiters (the `+` of the pattern) leaves the same non-empty fields, and the same first field, as splitting at every delimiter |
| Text.TokensConcat | document_term_counter.py:26-30 | the non-empty fields of `a + delimiter + b` are those of `a` followed by those of `b` |
| Text.SplitEachConcat | document_term_counter.py:26-30 | splitting at every delimiter distributes over a concatenation joined by a delimiter |
| Text.SplitEachNoDelimiter | document_term_counter.py:30 | a string without delimiters splits into itself alone |
| Text.NonEmpty | multi_jobs_hdfs.py:75 | the `if t` filter keeps exactly the non-empty fields |
| Text.NonEmptyConcat | multi_jobs_hdfs.py:75 | the `if t` filter distributes over concatenation |
| Text.NonEmptyCons | multi_jobs_hdfs.py:75 | the `if t` filter keeps the first field exactly when it is non-empty |
| Text.SplitCons | chi_square.py:36 | a leading non-delimiter character joins the first field |
| Text.SplitDelimiter | chi_square.py:36 | a leading delimiter before a non-delimiter starts with an empty field |
| Text.DedupSpec | chi_square.py:37 | the set of tokens, in first-occurrence order, holds each token once and exactly the tokens of the input |
| Text.KeepSpec | multi_jobs_hdfs.py:75 | the token filter keeps exactly the tokens that are non-empty, no stopword and longer than one character |
| Text.Lower | document_term_counter.py:26 | lowercasing keeps the length |
| Text.LowerConcat | document_term_counter.py:26 | lowercasing distributes over concatenation |
| Text.LowerIsLower | document_term_counter.py:17 | a lowercased string is lowercase and lowercasing it again changes nothing |
| Text.Strip | document_term_counter.py:17 | `strip()` leaves no whitespace at either end |
| Text.StripLeft | document_term_counter.py:17 | the left strip leaves no whitespace at the front |
| Text.StripRight | document_term_counter.py:17 | the right strip is a prefix with no whitespace at the end |
| Text.TermSet | document_term_counter.py:36 | `set(filtered_tokens)`: a token is in the set exactly when it occurs in the list |
| Text.StripNoSpace | chisquare_calculator.py:21 | `strip()` leaves a string that neither starts nor ends with whitespace unchanged |
| Text.SplitJoin | output_formatter.py:15 | splitting a join by its separator gives the parts back when no part holds the separator |
| Text.JoinSplitOn | chisquare_calculator.py:73-75 | joining the `|`-fields of a key with `|` gives the key back |
| Text.SplitOnAfterPrefix | chisquare_calculator.py:25-29 | for a key starting with `CAT_DOCS\|` or `TERM_TOTAL\|`, field 1 of `key.split("\|")` is the text after the prefix up to the next `\|` |
| Text.PrependToFirst | chi_square.py:36 | prepending a character to the first field of a concatenation of field lists |
| Reviews.Lookup | document_term_counter.py:23 | `review[key]` gives the field when present and raises KeyError otherwise |
| Reviews.GetOrEmpty | multi_jobs_hdfs.py:67-68 | `review.get(key, '')` gives the field when present and the empty string otherwise |
| Order.LessIrreflexive | output_formatter.py:34 | no string sorts before itself |
| Order.LessTransitive | output_formatter.py:34 | string order is transitive |
| Order.LessAsymmetric | output_formatter.py:34 | string order is asymmetric |
| Order.LessTotal | output_formatter.py:34 | any two different strings are ordered one way |
| Order.LessAsymmetricAll | output_formatter.py:34 | string order is asymmetric for all pairs at once |
| Order.MinExists | multi_jobs_hdfs.py:163 | every non-empty set of strings has a least element |
| Order.SetMin | multi_jobs_hdfs.py:163 | the chosen element is the least of the set |
| Order.SortedSet | multi_jobs_hdfs.py:163 | `sorted(set)` is strictly ascending, holds exactly the set's elements and has the set's size |
| Order.StrictlySortedDistinct | multi_jobs_hdfs.py:163 | a strictly ascending list holds no element twice |
| Order.Ties | output_formatter.py:34 | the entries with a given key, in order |
| Order.Others | output_formatter.py:34 | the entries without a given key, in order; strictly shorter when some entry has it |
| Order.TiesOthersMultiset | output_formatter.py:34 | the two filters split the input without loss |
| Order.TiesConcat | output_formatter.py:34 | the tie class of a concatenation is the concatenation of the tie classes |
| Order.TiesPrefix | output_formatter.py:34 | the tie class of a prefix is a prefix of the tie class |
| Order.TiesOfUniform | output_formatter.py:34 | the tie class of entries all of one key |
| Order.TiesOfOthers | output_formatter.py:34 | removing one key's entries leaves the other tie classes unchanged |
| Order.MinName | output_formatter.py:34 | the least name of a non-empty list is one of its names |
| Order.SortByNameCorrect | output_formatter.py:34 | `sorted(values, key=lambda x: x[0])` is a permutation, ascending by name, and entries of one name keep their input order |
| Order.Names | output_formatter.py:34 | the names of the entries, in order |
| Order.NamesCons | output_formatter.py:34 | the names of a list with one more entry in front |
| Order.TiesAbsent | output_formatter.py:34 | the tie class of an absent name is empty |
| Order.TiesOfDistinct | output_formatter.py:34 | with distinct names, each name's tie class is its single entry |
| Order.NameSetCons | output_formatter.py:34 | the names of a list with one more entry in front |
| Order.DistinctCons | output_formatter.py:34 | one more entry keeps the names distinct exactly when its name is new |
| Order.OthersOfDistinct | output_formatter.py:34 | removing one name's entries keeps names distinct and removes that name |
| Order.SortByNameDistinct | output_formatter.py:34 | for entries with distinct names the sort lists the names in `sorted(set of names)` order |
| Order.RemoveOne | document_term_counter.py:54-61 | removing matching elements from two permutations leaves permutations |
| Maps.Inc | multi_jobs_hdfs.py:82 | `d[k] += 1` on a defaultdict adds the key, raises its count by one and leaves every other count |
| Maps.IncAllGet | multi_jobs_hdfs.py:84-86 | incrementing a set of keys raises each of them by exactly one |
| Maps.IncAllEmpty | multi_jobs_hdfs.py:84 | incrementing no key changes nothing |
| Maps.IncAllNone | multi_jobs_hdfs.py:84 | before the loop no key is incremented |
| Maps.IncAllAdd | multi_jobs_hdfs.py:84-86 | one more key of the set incremented |
| Maps.IncAllStep | multi_jobs_hdfs.py:84-86 | one more loop iteration of the increments |
| Maps.MergeMaps | chi_square.py:46-47 | per-key addition of two partial counters has the keys of both and adds their counts |
| Maps.MapsEqual | chi_square.py:46-47 | two counters with the same keys and counts are equal |
| Maps.SumValuesRemove | multi_jobs_hdfs.py:82 | the sum of a counter is one entry plus the rest |
| Maps.SumValuesInc | multi_jobs_hdfs.py:82 | incrementing one key raises the sum of all counts by one |
| Maps.IncMerge | chi_square.py:46-47 | incrementing commutes with adding a partial counter in front |
| Maps.IncAllMerge | chi_square.py:46-47 | incrementing a set of keys commutes with adding a partial counter in front |
| Maps.AddToMerge | chi_square.py:46-47 | adding to one key commutes with adding a partial counter in front |
| Maps.AddToTwice | chi_square.py:46-47 | adding two partial counts to one key is adding their sum |
| Maps.MergeMapsComm | chi_square.py:46-47 | partial counters add in any order |
| Maps.MergeMapsAssoc | chi_square.py:46-47 | partial counters add in any grouping |
| Counting.PairsOf | multi_jobs_hdfs.py:84-86 | the (term, category) keys of a document are exactly its terms paired with its category |
| Counting.PairsOfStep | multi_jobs_hdfs.py:84-86 | one more term's pair counted |
| Counting.PairsOfNone | multi_jobs_hdfs.py:84-86 | before the loop no pair is counted |
| Counting.PairCountStep | multi_jobs_hdfs.py:84-86 | one more pair increment of the loop |
| Counting.AddDocCounts | multi_jobs_hdfs.py:78-86 | an accepted document raises the total and its category by exactly one, and each distinct term alone and paired with the category by exactly one, however often the term repeats |
| Counting.AddDocConsistent | multi_jobs_hdfs.py:78-86 | counting a document keeps the counters consistent: positive counts, a pair never above its term or its category, and term plus category minus pair never above the total |
| Counting.AddDocPositive | multi_jobs_hdfs.py:81-86 | counting a document keeps every stored count positive |
| Counting.AddDocBounded | multi_jobs_hdfs.py:81-86 | counting a document keeps the bounds between the counters |
| Counting.AggregateConsistent | multi_jobs_hdfs.py:78-86 | counting any sequence of documents gives consistent counters |
| Counting.AggregateCategorySum | multi_jobs_hdfs.py:81-82 | the documents per category add up to the total |
| Counting.MergeEmpty | chi_square.py:46-47 | adding an empty partial aggregate changes nothing |
| Counting.MergeComm | chi_square.py:46-47 | partial aggregates add in any order |
| Counting.MergeAssoc | chi_square.py:46-47 | partial aggregates add in any grouping |
| Counting.AddDocMerge | chi_square.py:46-47 | counting a document commutes with adding a partial aggregate in front |
| Counting.AggregateUnfold | multi_jobs_hdfs.py:64-86 | the counters of a non-empty run are those of its front plus the last document |
| Counting.AggregateLast | multi_jobs_hdfs.py:64-86 | the counters of a concatenation, last document peeled off |
| Counting.AggregateSplitStep | chi_square.py:46-47 | one step of splitting an aggregate at a boundary |
| Counting.AggregateSplit | chi_square.py:46-47 | the counters of two runs of documents are the sum of their counters |
| ChiSquare.TableOf | multi_jobs_hdfs.py:112-123 | A is the pair count, A+B the term's count, A+C the category's count, and A+B+C+D the total |
| ChiSquare.Score | multi_jobs_hdfs.py:126-130 | the statistic is 0 exactly when the denominator is 0, the table is empty or AD = BC |
| ChiSquare.CalculatorScore | chisquare_calculator.py:58-68 | the four-job statistic, with its own zero test on N and the four marginals, equals the statistic of the other variants |
| ChiSquare.ScoreFormula | chi_square.py:74-78 | the statistic is 0 on a zero denominator and N·(AD−BC)²/denominator otherwise, with N the table's total |
| ChiSquare.ComputeScore | multi_jobs_hdfs.py:126-130 | the step-by-step computation with N = A+B+C+D gives the statistic |
| ChiSquare.ProductZero | multi_jobs_hdfs.py:130 | N·(AD−BC)² is zero exactly when N or AD−BC is |
| ChiSquare.QuotientZero | multi_jobs_hdfs.py:130 | a quotient is zero exactly when its numerator is |
| ChiSquare.ProductOfFourZero | multi_jobs_hdfs.py:126 | the product of the marginals is zero exactly when one of them is |
| ChiSquare.NonZeroProduct | multi_jobs_hdfs.py:126 | a product of non-zero integers is non-zero |
| ChiSquare.MarginalsZero | chisquare_calculator.py:62-66 | the denominator is zero exactly when a marginal is; an empty table with non-zero denominator scores 0 |
| ChiSquare.TableNonNegative | multi_jobs_hdfs.py:112-123 | on consistent counters all four cells are non-negative |
| ChiSquare.NonNegativeDenominator | multi_jobs_hdfs.py:126 | a table without negative cells has a non-negative denominator |
| ChiSquare.ScoreNonNegative | multi_jobs_hdfs.py:126-130 | a table without negative cells scores at least 0 |
| ChiSquare.QuotientNonNegative | multi_jobs_hdfs.py:130 | a non-negative number over a positive one is non-negative |
| ChiSquare.CalculatorZeroTest | chisquare_calculator.py:62-66 | on a table without negative cells, the four-job zero test holds exactly when the denominator is zero |
| ChiSquare.CountedScoreNonNegative | multi_jobs_hdfs.py:112-130 | every pair scored from counting scores at least 0 |
| ChiSquare.ScoreLists | multi_jobs_hdfs.py:112-132 | a score list exists for exactly the categories that have a counted pair, and none is empty |
| ChiSquare.ScoreListsEntries | multi_jobs_hdfs.py:112-132 | a category's list holds exactly its counted terms, each with the statistic of its own table |
| ChiSquare.ScoreListsDistinct | multi_jobs_hdfs.py:132 | no category lists a term twice |
| ChiSquare.ScoreListsSnoc | multi_jobs_hdfs.py:132 | scoring one more pair appends it to its category's list |
| ChiSquare.TermsOf | multi_jobs_hdfs.py:132 | the terms of a score list, in order |
| ChiSquare.TermsOfSnoc | multi_jobs_hdfs.py:132 | appending a new term keeps the terms distinct |
| ChiSquare.CalculateChiSquare | multi_jobs_hdfs.py:101-140 | the scoring loop over the pair counter, in its insertion order, builds exactly the per-category score lists |
| ChiSquare.ScorePair | multi_jobs_hdfs.py:112-132 | one iteration: the table of one pair, its statistic, the append to its category |
| TopK.MaxValue | multi_jobs_hdfs.py:154 | the largest score of a non-empty list is one of its scores |
| TopK.SortDesc | multi_jobs_hdfs.py:154 | the stable descending sort is a permutation |
| TopK.NLargest | multi_jobs_hdfs.py:154 | `nlargest(n, …)` has min(n, length) entries |
| TopK.Dropped | multi_jobs_hdfs.py:154 | the kept and the dropped entries together are the input |
| TopK.MultisetMember | multi_jobs_hdfs.py:154 | permutations have the same elements |
| TopK.OthersBelowMax | multi_jobs_hdfs.py:154 | entries not of the largest score are below it |
| TopK.SortDescOrdered | multi_jobs_hdfs.py:154 | the sort is non-increasing in score |
| TopK.SortDescStable | multi_jobs_hdfs.py:154 | entries of equal score keep their input order |
| TopK.NLargestCorrect | multi_jobs_hdfs.py:154 | the kept entries come from the input, are non-increasing, none is below a dropped one, and ties keep input order |
| TopK.CutSorted | multi_jobs_hdfs.py:154 | cutting a non-increasing list keeps it non-increasing and the cut-off part below the kept part |
| Output.Items | multi_jobs_hdfs.py:177 | one `term:score` item per kept entry, in order |
| Output.Report | multi_jobs_hdfs.py:165-183 | the report has one line per category plus one |
| Output.ReportLayout | multi_jobs_hdfs.py:175-181 | line i starts with the i-th category in strictly ascending order and is that category's line; the last line is the merged dictionary |
| Output.ReportAt | multi_jobs_hdfs.py:175-181 | line i of the report is the line of the i-th category in ascending order, and the line after the last category is the merged dictionary |
| Output.ReportOf | multi_jobs_hdfs.py:175-181 | lines that hold each category's line in ascending order and then the merged line are exactly the report |
| Output.ItemFields | output_formatter.py:15 | an item splits at `:` into its term and rendered score when neither holds a `:` |
| Output.CategoryLineFields | output_formatter.py:15 | a category line starts with the category and a space, and the rest splits at spaces into its items |
| Output.MergedLineFields | multi_jobs_hdfs.py:181 | the merged line splits at spaces back into the merged terms |
| Output.KeptTerms | multi_jobs_hdfs.py:158 | a term is in the merged dictionary exactly when some category kept it |
| Output.KeptTermsInsert | multi_jobs_hdfs.py:158 | one more category's terms join the merged dictionary |
| Sequential.TokensSpec | multi_jobs_hdfs.py:74-75 | surviving tokens are longer than one character, no stopword and hold no delimiter; no field that passes the filter is lost |
| Sequential.Accept | multi_jobs_hdfs.py:65-71 | a line that is not JSON, or whose category or review text is missing or empty, is skipped; any other is a document of its category |
| Sequential.AcceptTerms | multi_jobs_hdfs.py:74-78 | an accepted review's terms are the distinct tokens of its text |
| Sequential.Accepted | multi_jobs_hdfs.py:64-94 | at most one document per line |
| Sequential.SkippedLine | multi_jobs_hdfs.py:70-71 | a skipped line changes no counter |
| Sequential.AcceptedLine | multi_jobs_hdfs.py:80-86 | an accepted line is counted as one more document |
| Sequential.ProcessReviews | multi_jobs_hdfs.py:39-99 | the counters after the loop are the aggregate of the accepted documents, and the pair counter's insertion order lists each counted pair once |
| Sequential.ProcessLine | multi_jobs_hdfs.py:64-94 | one iteration keeps the loop invariant |
| Sequential.ProcessStep | multi_jobs_hdfs.py:64-94 | one more line is either skipped or counted as one more document |
| Sequential.CountDocument | multi_jobs_hdfs.py:80-86 | an accepted document updates the four counters as counting one document does |
| Sequential.CountTerms | multi_jobs_hdfs.py:84-86 | each distinct term raises its count and its pair's count by exactly one; new pairs join the end of the insertion order |
| Sequential.FirstSeenStep | multi_jobs_hdfs.py:86 | writing a dictionary key keeps the insertion order: a new key joins the end, an old one stays |
| Sequential.ProcessedCountsConsistent | multi_jobs_hdfs.py:81-86 | the counters are consistent and the documents per category add up to the total |
| Sequential.SelectTopTerms | multi_jobs_hdfs.py:142-163 | every category keeps `nlargest(top_n)` of its list and the merged dictionary is the sorted set of all kept terms |
| Sequential.SelectCategory | multi_jobs_hdfs.py:152-158 | one iteration keeps the loop invariant |
| Sequential.FormatOutput | multi_jobs_hdfs.py:165-183 | the output lines are the report: one line per category in ascending order, then the merged line |
| SingleJob.LowerAll | chi_square.py:38 | `t.lower()` applied to each term in order |
| SingleJob.TermYields | chi_square.py:40-41 | one pair per term |
| SingleJob.Emit | chi_square.py:40-44 | the yields of one document are one per term plus the marker |
| SingleJob.ReviewFields | chi_square.py:31-33 | a line that is not JSON raises JSONDecodeError, then a missing `reviewText` raises KeyError, then a missing `category` |
| SingleJob.Mapper | chi_square.py:30-44 | the mapper succeeds exactly on a readable line and fails with the error of the first failing lookup |
| SingleJob.MapperFixed | chi_square.py:30-44 | the corrected mapper succeeds and fails on the same lines |
| SingleJob.MapperTermsSound | chi_square.py:36-38 | every term found is the lowercase form of a raw token that is no stopword and longer than one character |
| SingleJob.MapperTermsComplete | chi_square.py:36-38 | every raw token that is no stopword and longer than one character is found, lowercased |
| SingleJob.EmitShape | chi_square.py:40-44 | the marker comes last, preceded by a count of one for each term in order |
| SingleJob.EmitMember | chi_square.py:40-41 | a term is counted in a document's yields exactly when it is one of its terms |
| SingleJob.MapperYields | chi_square.py:40-44 | a readable review yields exactly one marker, last, and before it counts of one under its category |
| SingleJob.MapperYieldsSound | chi_square.py:36-41 | every counted term comes from a raw token that passes the filter |
| SingleJob.MapperYieldsComplete | chi_square.py:36-41 | every raw token that passes the filter is counted, lowercased |
| SingleJob.StopwordsBeforeLowercase | chi_square.py:37-38 | a capitalised token whose lowercase form is a stopword is still counted |
| SingleJob.Combiner | chi_square.py:46-47 | the combiner keeps the key and sums the counts, 0 for none |
| SingleJob.Ungrouped | chi_square.py:46 | one pair per count of a key |
| SingleJob.TallyAsWrittenLosesCounts | chi_square.py:55-62 | with two partial counts of one category, the assigning loop keeps 3 of 5 documents while `N` is 5; adding keeps 5 |
| SingleJob.AsWrittenAgrees | chi_square.py:55-62 | when no key arrives twice, as with one map task whose combiner sums each key, the assigning loop as written computes the same four counters as the adding one |
| SingleJob.TallyKeys | chi_square.py:55-62 | a category or a (term, category) pair is counted only when some pair read names it |
| SingleJob.StepAgrees | chi_square.py:59-62 | assigning and adding give the same counters for a key not counted before |
| SingleJob.TallyStepMerge | chi_square.py:55-62 | reading one more pair commutes with adding a partial aggregate in front |
| SingleJob.TallyConcat | chi_square.py:55-62 | the counters of two runs of pairs add up |
| SingleJob.TallyPermutation | chi_square.py:55-62 | the counters do not depend on the order in which the pairs arrive |
| SingleJob.TallyMoveLast | chi_square.py:55-62 | reading one pair in the middle of a run gives the same counters as reading it last |
| SingleJob.CombinerTransparent | chi_square.py:46-62 | combining a key's counts into one sum leaves the reducer's counters unchanged |
| SingleJob.TermYieldsTally | chi_square.py:40-62 | distinct terms' yields raise each term and pair by one |
| SingleJob.DocTally | chi_square.py:40-62 | a document with distinct terms is counted exactly as one document |
| SingleJob.SplitBAb | chi_square.py:36 | `re.split` of "b ab" gives "b" and "ab" |
| SingleJob.SplitAbAb | chi_square.py:36 | `re.split` of "Ab ab" gives "Ab" and "ab" |
| SingleJob.CaseCollisionTerms | chi_square.py:36-38 | the review "Ab ab" gives the terms "ab", "ab" |
| SingleJob.FilterAbAb | chi_square.py:37 | both tokens survive the set |
| SingleJob.LowerAb | chi_square.py:38 | both tokens lowercase to "ab" |
| SingleJob.CaseCollisionTally | chi_square.py:40-62 | those yields count the pair twice and the category once |
| SingleJob.CaseCollisionMapper | chi_square.py:30-44 | the mapper turns the review "Ab ab" of category "c" into two counts of ("ab", "c") and one marker |
| SingleJob.CaseCollision | chi_square.py:36-44 | the mapper as written counts ("ab", "c") twice for one review, so the counters are not consistent |
| SingleJob.MapperFixedTally | chi_square.py:36-44 | the corrected mapper's yields count the review exactly once |
| SingleJob.FlattenSucceeds | chi_square.py:30-33 | the map phase gets through exactly when every call does |
| SingleJob.MapAllSucceeds | chi_square.py:30-33 | the job gets past the map phase exactly when every line is a readable review |
| SingleJob.FlattenTally | chi_square.py:55-62 | when each call's yields count one document, all yields count all documents |
| SingleJob.Docs | chi_square.py:30-44 | one document per line |
| SingleJob.MapAllTally | chi_square.py:30-62 | the counters of all yields are the aggregate of the documents |
| SingleJob.ReducerCounts | chi_square.py:46-62 | in any order of arrival the reducer's counters are the aggregate of the documents, hence consistent (corrected: every counter adds) |
| SingleJob.PairOrderKeys | chi_square.py:62-67 | the pair counter's iteration order lists each counted pair once |
| SingleJob.CountKeys | chi_square.py:55-62 | the reducer's first loop computes the counters and the pair counter's key order (corrected: every counter adds) |
| SingleJob.ReadKey | chi_square.py:56-62 | one iteration of the first loop (corrected: every counter adds) |
| SingleJob.TopAll | chi_square.py:88-89 | every category kept, with min(75, length) entries |
| SingleJob.TopSoFarStep | chi_square.py:89 | one more category cut |
| SingleJob.TopSoFarNone | chi_square.py:88 | before the loop the dictionary is the score lists themselves |
| SingleJob.TopSoFarAll | chi_square.py:88-89 | with every category cut, the dictionary is the top of every list |
| SingleJob.KeepTop | chi_square.py:85-91 | step 3 gives every category its `nlargest(75)`, and raises only when some list is empty |
| SingleJob.KeepInOrder | chi_square.py:88-91 | the same, for the categories in any listed order |
| SingleJob.EmptiedOne | chi_square.py:90-91 | a category whose list is empty means not every list is non-empty, so step 3 raises |
| SingleJob.KeptAll | chi_square.py:88-91 | once every category is treated and none was emptied, every list was non-empty and the dictionary is the top of every list |
| SingleJob.KeepCategory | chi_square.py:89-91 | one iteration: the next category cut, and the emptiness test |
| SingleJob.EmitLines | chi_square.py:93-103 | the reducer's lines are the report of the kept lists with the sorted set of all kept terms |
| SingleJob.CategoryLinesOf | chi_square.py:95-96 | one `category term:score …` line per listed category, in the listed order |
| SingleJob.SeenStep | chi_square.py:100-101 | one more category visited |
| SingleJob.CollectTerms | chi_square.py:99-101 | the union loop collects exactly the kept terms |
| SingleJob.CollectCategory | chi_square.py:100-101 | one iteration of the union loop |
| SingleJob.Reducer | chi_square.py:49-103 | the reducer yields the report of the top-75 score lists of its counters (corrected: every counter adds) |
| SingleJob.ReducerCategories | chi_square.py:80-91 | a list is kept for exactly the categories with a counted term, each with between 1 and 75 entries, so the deletion never fires (corrected: every counter adds) |
| SingleJob.ScoreListsCategories | chi_square.py:80-82 | a score list exists for exactly the categories of the counted pairs |
| SingleJob.ReducerLayout | chi_square.py:85-103 | one line per kept category in strictly ascending order, then the sorted kept terms (corrected: every counter adds) |
| SingleJob.ReducerScores | chi_square.py:67-89 | each kept entry is a counted pair with its own statistic; the kept list is non-increasing and no dropped score exceeds a kept one (corrected: every counter adds) |
| TermCounter.CounterJob.constructor | document_term_counter.py:14 | the stopword set starts empty |
| TermCounter.CounterJob.MapperInit | document_term_counter.py:12-17 | after the loop the stopword set holds the stripped, lowercased form of every line |
| TermCounter.StopwordSetSnoc | document_term_counter.py:16-17 | one more line adds its normal form |
| TermCounter.StopwordsNormalised | document_term_counter.py:17 | every stopword is lowercase with no surrounding whitespace and is its own normal form, and every line contributes its normal form |
| TermCounter.NormaliseIdempotent | document_term_counter.py:17 | normalising a normal form changes nothing |
| TermCounter.KeyFormsDiffer | document_term_counter.py:39-48 | the four key forms never coincide |
| TermCounter.CatDocsKeyInjective | document_term_counter.py:42 | different categories give different `CAT_DOCS` keys |
| TermCounter.TermTotalKeyInjective | document_term_counter.py:48 | different terms give different `TERM_TOTAL` keys |
| TermCounter.TermKeyInjective | document_term_counter.py:46 | different pairs give different `TERM` keys when the terms hold no `\|` |
| TermCounter.TermKeyLayout | document_term_counter.py:46 | where the term and the separator sit in a `TERM` key |
| TermCounter.TermEmits | document_term_counter.py:45-48 | two keys per distinct token |
| TermCounter.Mapper | document_term_counter.py:19-52 | a line that is not JSON emits nothing; a missing category, review text or summary raises KeyError for the first missing one |
| TermCounter.KeepConcat | document_term_counter.py:33 | the token filter distributes over concatenation |
| TermCounter.KeepNonEmpty | document_term_counter.py:33 | the `if token` test is subsumed by the length test |
| TermCounter.TokensOfBoth | document_term_counter.py:26-33 | the tokens of `reviewText + ' ' + summary` are those of the review text followed by those of the summary |
| TermCounter.TokensFiltered | document_term_counter.py:33 | surviving tokens are longer than one character, no stopword and hold no delimiter; none that passes is lost |
| TermCounter.Reducer | document_term_counter.py:58-61 | the reducer keeps the key; n ones sum to n and non-negative counts to a non-negative total |
| TermCounter.SumBounds | document_term_counter.py:60 | n ones sum to n; non-negative values sum to a non-negative total |
| TermCounter.SumConcat | document_term_counter.py:60 | the sum of a concatenation is the sum of the sums |
| TermCounter.SumPermutation | document_term_counter.py:60 | the sum does not depend on the order of the values |
| TermCounter.CombinerTransparent | document_term_counter.py:54-61 | summing per combiner, then summing the partial sums, gives the sum of all values |
| TermCounter.TotalConcat | document_term_counter.py:58-61 | the total of a key over two runs of pairs adds up |
| TermCounter.TotalOfPair | document_term_counter.py:45-48 | the total of a key over two emitted pairs |
| TermCounter.TermEmitsDocKeys | document_term_counter.py:45-48 | the per-token keys never count toward `TOTAL_DOCS` or a `CAT_DOCS` key |
| TermCounter.TermEmitsTermTotal | document_term_counter.py:48 | each distinct token counts once toward its `TERM_TOTAL` key |
| TermCounter.TermEmitsPair | document_term_counter.py:46 | each distinct token counts once toward its `TERM` key with the document's category |
| TermCounter.LineTotals | document_term_counter.py:36-48 | one line's emissions count one document, its category once, and each distinct token once and paired once |
| TermCounter.DocsSnoc | document_term_counter.py:19-52 | one more line adds its document, if any |
| TermCounter.CounterTotals | document_term_counter.py:39-61 | the final counts of `TOTAL_DOCS`, `CAT_DOCS\|c`, `TERM_TOTAL\|t` and `TERM\|t\|c` are the aggregate's total, category, term and pair counts |
| TermCounter.CounterBounds | document_term_counter.py:39-61 | the pair count is at most the term's and the category's count, those are at most the total, and the category counts add up to the total |
| Calculator.ParseInt | chisquare_calculator.py:21 | a value that is not an optionally signed decimal integer raises ValueError |
| Calculator.NatToStringDigits | chisquare_calculator.py:21 | decimal digits read back as their number |
| Calculator.ParseIntToString | chisquare_calculator.py:21 | every integer written in decimal parses back to itself |
| Calculator.IntToStringChars | chisquare_calculator.py:20 | an integer's text holds only digits and a sign |
| Calculator.LoadLine | chisquare_calculator.py:20-30 | a line that is not two tab-separated fields raises ValueError from unpacking, a value that is no integer raises from `int` |
| Calculator.LoadFailureSticks | chisquare_calculator.py:18-21 | once a line raises, the lines after it are never read |
| Calculator.LoadStep | chisquare_calculator.py:19-30 | loading one more line |
| Calculator.CalculatorJob.constructor | chisquare_calculator.py:14-16 | the fields start at 0 and empty |
| Calculator.CalculatorJob.MapperInit | chisquare_calculator.py:12-30 | the loop succeeds exactly when the whole file loads, and then the fields are the loaded counts; otherwise it stops with the first line's error |
| Calculator.CalculatorJob.ReadLine | chisquare_calculator.py:20-30 | one line: the fields are updated as that line's branch says, or the line's error is returned |
| Calculator.CalculatorJob.Store | chisquare_calculator.py:23-30 | `TOTAL_DOCS` sets the total, `CAT_DOCS\|c` and `TERM_TOTAL\|t` set the named entry, any other key changes no field |
| Calculator.LoadCountLine | chisquare_calculator.py:20-30 | a line written by the counting job loads as its key and count |
| Calculator.ApplyKey | chisquare_calculator.py:23-30 | `TOTAL_DOCS` sets the total, `CAT_DOCS\|c` and `TERM_TOTAL\|t` set (overwrite) the named entry, other keys change nothing |
| Calculator.CountLineFields | chisquare_calculator.py:20 | a count line splits at its tab into the key and the count's text |
| Calculator.CalculateChiSquare | chisquare_calculator.py:58-68 | the statistic of the table, at least 0 when no cell is negative |
| Calculator.Mapper | chisquare_calculator.py:32-56 | keys not starting with `TERM\|` emit nothing; a `TERM` key without exactly three fields raises ValueError; a result names a loaded term and category, keyed `c\|t` |
| Calculator.MapperTable | chisquare_calculator.py:41-50 | the table the mapper derives adds up to the loaded total and has the loaded marginals |
| Calculator.TermKeyFields | chisquare_calculator.py:35 | a `TERM\|t\|c` key splits into its three fields |
| Calculator.ScoreKeyFields | chisquare_calculator.py:56 | the output key `c\|t` splits into category and term |
| Calculator.MapperAgrees | chisquare_calculator.py:32-56 | with the counts loaded, the mapper emits the pair's statistic under `c\|t`, the same as the other variants compute |
| Calculator.Reducer | chisquare_calculator.py:70-75 | a key with exactly two `\|`-fields is emitted unchanged with the sum of its values; any other raises ValueError |
| Calculator.ReducerSingle | chisquare_calculator.py:73-75 | on one value the reducer is the identity |
| Selector.MapperReformat | top_terms_selector.py:17-25 | a key with exactly two `\|`-fields becomes ((category, −score), term), and category \| term is the key again; any other key raises ValueError |
| Selector.MapperReformatScoreKey | top_terms_selector.py:19 | the scoring job's `c\|t` reads back as category c and term t |
| Selector.EmitsOf | top_terms_selector.py:39-41 | two yields per kept entry |
| Selector.Group | top_terms_selector.py:28-29 | each term of one call carries the call's score |
| Selector.TakeTop | top_terms_selector.py:31-45 | the counting loop with `break` emits exactly the first min(75, n) entries in arrival order |
| Selector.CollectTopTerms | top_terms_selector.py:27-45 | one reducer call emits its first min(75, n) terms with the score its key carries |
| Selector.CollectTopTermsCount | top_terms_selector.py:29-45 | one call emits min(75, n) scored terms, each also under `ALL_TERMS`, with the original score |
| Selector.CollectCategoryTop | top_terms_selector.py:27-45 | the corrected reducer, one call per category, emits the category's `nlargest(75)` |
| Selector.ScoredCountConcat | top_terms_selector.py:39 | scored yields of two runs add up |
| Selector.EmitsOfShape | top_terms_selector.py:39-41 | kept entry i yields (category, (term, score)) then ("ALL_TERMS", term); a category receives one scored term per kept entry |
| Selector.ScoredCountPair | top_terms_selector.py:39-41 | one kept entry yields one scored term |
| Selector.CollectCategoryTopBound | top_terms_selector.py:27-45 | the corrected reducer keeps min(75, n) terms of a category, non-increasing, none below a dropped one |
| Selector.AsWrittenKeepsAll | top_terms_selector.py:27-45 | as written, when every score of a category is held by one term, every term is kept however many there are |
| Selector.AsWrittenOverLimit | top_terms_selector.py:27-45 | 76 terms of 76 different scores in one category are all kept, one over the limit |
| Selector.PrepareAllIdentity | top_terms_selector.py:47-49 | the pass-through mapper leaves the stream as it is |
| Selector.TermsIn | top_terms_selector.py:54 | `set(values)`: a term is in it exactly when some value holds it |
| Selector.EntriesOf | top_terms_selector.py:59-60 | `list(values)` in arrival order |
| Selector.ReduceFormat | top_terms_selector.py:51-61 | `ALL_TERMS` gives `MERGED_DICT` with the sorted, duplicate-free terms (and raises TypeError on a scored value); any other key gives its entries in arrival order |
| Formatter.Mapper | output_formatter.py:5-18 | `MERGED_DICT` passes through unchanged; a category becomes `category term:score …` under `CATEGORIES` |
| Formatter.UpdateTerms | output_formatter.py:25 | the terms `update` adds for one value |
| Formatter.UnionOfMembers | output_formatter.py:21-25 | a term is in the union exactly when some merged list holds it |
| Formatter.UnionOfSingle | output_formatter.py:23-25 | the selection job's one merged list gives back its set of terms |
| Formatter.MergeTerms | output_formatter.py:21-31 | the update loop succeeds exactly when every value is hashable, and emits the sorted, space-joined union under `~MERGED_DICT` |
| Formatter.MergedLineSplit | output_formatter.py:28 | the merged line splits at spaces into the strictly ascending union of the merged lists |
| Formatter.Lines | output_formatter.py:37-38 | the formatted line of each value, in order |
| Formatter.CategoryLines | output_formatter.py:33-38 | one line per value |
| Formatter.CategoryLinesOrder | output_formatter.py:33-38 | the lines are a rearrangement of the input lines, ascending by category, equal categories in input order |
| Formatter.LinesPermutation | output_formatter.py:37-38 | rearranged values give rearranged lines |
| Formatter.LinesConcat | output_formatter.py:37-38 | the lines of a concatenation |
| Formatter.Reducer | output_formatter.py:20-38 | `MERGED_DICT` gives the one merged line; `CATEGORIES` gives one unkeyed line per value in category order |
| Formatter.CategoryLinesMatchReport | output_formatter.py:33-38 | when each category arrives once with its rendered line, the lines are the report's category lines |
| Formatter.SortByNamePermutation | output_formatter.py:34 | the sort is a permutation |
| Formatter.RenderedAt | output_formatter.py:34 | a sorted value is one of the rendered categories |
| Formatter.ReducerMatchesReport | output_formatter.py:20-38 | under one shared `render`, the four-job output is the report of the sequential variant: category lines in ascending order, then the merged line (zero-denominator scores print differently, see ChiSquare.Score under Left out) |

## Left out

- File and HDFS access are parameters of the model, not operations. This covers `load_stopwords`, `read_hdfs_file`, the `open` calls in `mapper_init`, the output files, `main.py` and the `hdfs dfs -getmerge` step. Stopwords arrive as a set or as the file's lines; counts arrive as the file's lines.
- Logging, timers, progress counters and command-line options are not modelled: they change no result.
- The mrjob framework is not modelled. This covers `steps`, the shuffle and sort between mapper and reducer, partitioning into map tasks, and the protocols that encode keys and values. Each reducer receives its key's values as a sequence, and the counting lemmas hold for every order of arrival. Each mapper receives its key and value as the previous job wrote them. The counts file that `mapper_init` reads is taken to hold the raw key, a tab and the count on each line; under mrjob's default JSON output protocol the key would be quoted, and that encoding is not modelled.
- `json.loads` is not modelled: a review line is either malformed or an already-decoded map of string fields.
- Python's Unicode `str.lower`, `str.strip` whitespace and `\s` classes are modelled on ASCII letters and the ASCII whitespace and separator characters. The regex class `\d` (multi_jobs_hdfs.py:74, chi_square.py:36, document_term_counter.py:29) matches every Unicode decimal digit in Python, while Text.IsDigit accepts only `0` to `9`, so non-ASCII digits are separators in the source but stay inside tokens in the model.
- ChiSquare.Score, Output.Report and Formatter.ReducerMatchesReport: a zero denominator gives the int `0` in the source (multi_jobs_hdfs.py:128, chi_square.py:76), printed `0` by the sequential and single-job variants, while AD = BC gives the float `0.0`. The four-job variant applies `float()` (top_terms_selector.py:20), so it prints `0.0` in both cases. The model's scores are one real type rendered by one `render`, so it does not tell the two zeros apart, and the four-job output equals the sequential report only up to this difference.
- Floating point is not modelled: scores are exact reals, and the division's rounding and `float(value)` are not captured. Rendering a score with `str` or an f-string is a `render` parameter.
- Python set iteration order is not modelled. Loops over a set take its elements in any order. A pure function that must emit a list takes them in first-occurrence order, and every counting lemma is independent of that order.
- Calculator.ParseInt: does not accept the underscores (`1_000`) or the non-ASCII digits that Python's `int` also accepts, because the counting job never writes them.
- Calculator.CalculatorJob.MapperInit: on a failing line it reports the error but does not state the partially loaded fields, because the job stops there and nothing reads them.
- TermCounter.CounterTotals: requires that no term contains `|` (categories may). With a `|` inside, two different (term, category) pairs can share one `TERM` key, and the later jobs cannot split such keys.
- TermCounter.CounterBounds: requires that no term contains `|`, for the same reason.
- Selector.ReduceFormat: requires that the values of keys other than `ALL_TERMS` are scored entries, which holds for everything the first step emits.
- Formatter.Mapper: requires that values of keys other than `MERGED_DICT` are entry lists, which holds for everything the selection job emits.
- Formatter.Reducer: requires that `MERGED_DICT` carries merged lists and `CATEGORIES` carries rendered lines, which holds for everything the mapper emits.

## Findings

| source | as written | input that shows it | evidently intended | confidence | as-written member | corrected member |
|---|---|---|---|---|---|---|
| chi_square.py:59-62 | `cat_count[cat] = count` and `term_cat_count[(term, cat)] = count` assign, while `N` and `term_count` add | two map tasks whose combiners emit the partial counts ((None, "c"), 2) and ((None, "c"), 3): `N` is 5 but `cat_count["c"]` is 3 | every counter adds the partial counts of its key | not executed | SingleJob.TallyAsWrittenLosesCounts | SingleJob.TallyPermutation |
| chi_square.py:37-38 | the set of raw tokens is taken before lowercasing | the review "Ab ab" of category "c" counts the pair ("ab", "c") twice against one category document, so A exceeds the category count | each lowercase term counted once per document | not executed | SingleJob.CaseCollision | SingleJob.MapperFixedTally |
| top_terms_selector.py:27-45 | the 75-term counter is local to one reducer call, and each call handles one (category, −score) key | one category with 76 terms of 76 different scores keeps all 76 | at most 75 terms per category, the best ones | not executed | Selector.AsWrittenOverLimit | Selector.CollectCategoryTopBound |
