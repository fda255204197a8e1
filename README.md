# GZoltar report builder, modelled in Dafny

This project models the part of the GZoltar GitHub action that turns fault-localisation results
into the Markdown body of a commit or pull-request comment (`src/githubActionsHelper.ts`). Each
analysed source line has a suspiciousness value per algorithm, and tests record which lines they
covered. The builder works in these steps:

- It selects the lines that some algorithm of the ranking scores at or above that algorithm's
  threshold. A line whose line number was already taken is dropped.
- It sorts the selected lines by the order algorithm's value.
- It emits one of two bodies. With no selected line, the body is a "no bug" banner. Otherwise it
  is a warning banner followed by two collapsed tables:
  - a flat table with one row per line. Each row holds the line's location, a sub-table of the
    tests that cover it (failing first), each with its stack trace printed whole (see
    "## Findings"), and one score cell per algorithm;
  - a block table with one row per group of nearby lines of one method. Its cells list every line
    of the group and a `---` placeholder for each line number skipped inside the group.

Both table renderers first normalise the ranking in place so that the order algorithm comes first.

Modules, one file each:

- `Types`: the entities and the string helpers they share.
  - The entities are files, methods, lines, metrics, coverage entries and test cases.
  - The string helpers are `join`, decimal rendering, and prefix and suffix tests.
- `Sorting`: the in-place insertion sort that stands for three of the `Array.prototype.sort`
  calls: the line sort (line 36), the per-method sort by line number (line 121) and the group
  sort (line 143). It sorts descending by a key, and a missing key compares equal. The ranking
  sorts of lines 99 and 258 are `Ranking.NormalizeRanking` (with `Ranking.RotateToFront`), and the
  test sort of line 294 is `FlatTable.CoveringTests`.
- `Selection`: line selection.
- `Ranking`: ranking normalisation.
- `Grouping`: grouping the lines into blocks, and sorting the blocks.
- `Stacktrace`: the stack-trace splitter.
- `Table`: the header, the separator and row scaffolding, and the value cells.
- `FlatTable` and `BlockTable`: the two renderers.
- `Report`: the body assembly.

Code that changes state step by step is written as methods with loops and in-place array updates:
the nested selection loops, the sorts, the run accumulator and the `+=` loops that build the
tables. Most methods are proved equal to a specification function, and the properties are proved
as lemmas about those functions. A few methods are specified by properties instead:
`Sorting.SortDescending`, `Grouping.SortGroups`, `Grouping.RunsOfOneMethod`,
`Grouping.BuildGroups`, `BlockTable.RenderBlockTable` and `Report.BuildBody`. Their contracts
state a permutation, an order, and the covering and separation of the groups, for two reasons:

- the line sort's comparator (line 36) returns 0 whenever either line lacks the order metric, so
  it is inconsistent and the order it yields is not pinned down;
- the model does not fix the order of groups with equal maxima, which in the program follows
  from the stable group sort (line 143) applied to groups listed method by method, in the order
  the methods are first met (lines 114-139).

Decisions about the host environment:

- JavaScript object identity (`line.method === method`, `coverage.line === line`) is modelled by
  the explicit ids of `Method` and `Line`.
- The repository owner, repository name and commit SHA are fields of a `Context` value, passed as
  parameters.
- `toFixed(2)` is the field `fixed2` of the same value, an arbitrary `real -> string` function.
- Suspiciousness values are `real`.

Four facts about the code that the model keeps:

- Duplicates are dropped by line number (line 30), not by object identity.
- A threshold list shorter than the ranking selects nothing for the algorithms past its end:
  `sflThreshold[index]` is `undefined` there, and the comparison with it is false (line 26).
- Stack traces are not shortened in the comment. The splitter returns its input (line 410); see
  "## Findings".
- "The file has a path" means two different things in the two tables:
  - the flat table tests `!= undefined`, so an empty path still gives a link;
  - the block table tests truthiness, so an empty path gives `file$method`.

## Model

| member | source | states |
|---|---|---|
| Types.FindMetric | src/githubActionsHelper.ts:325-327 | `find` over a list of metrics: the value of the first metric naming the algorithm, or nothing; the same search serves lines 37-43, 146-148 and 202-204 |
| Types.MetricOf | src/githubActionsHelper.ts:325-327 | `find` by algorithm on a line's metrics, the search being `Types.FindMetric` |
| Types.FindMetricFirst | src/githubActionsHelper.ts:325-327 | the search finds nothing exactly when no metric has that algorithm, and otherwise the value of the first metric that has it |
| Types.NatToString | src/githubActionsHelper.ts:193-194 | a line number as a template literal prints it: its decimal digits, most significant first, with no sign and no leading zero (also at lines 212-213, 220-222 and 285-286); it is never empty |
| Types.NatToStringDigits | src/githubActionsHelper.ts:193-195 | a line number prints as decimal digits only, with more than one digit exactly from 10 on |
| Types.Join | src/githubActionsHelper.ts:229-238 | `Array.prototype.join`: the parts with the separator between each two, and the empty string for no parts (also at lines 178, 243, 273 and 335-337) |
| Types.JoinStep | src/githubActionsHelper.ts:229-238 | joining one more part appends the separator and the part, with no separator before the first part |
| Types.ConcatAppend | src/githubActionsHelper.ts:378-406 | concatenating the pieces of two lists is concatenating the two results |
| Selection.ThresholdAt | src/githubActionsHelper.ts:26 | the algorithm's threshold at its index in the ranking, and none past the end of the threshold list |
| Selection.Meets | src/githubActionsHelper.ts:23-27 | some metric of the line names the algorithm and reaches the threshold; never when there is no threshold |
| Selection.Keep | src/githubActionsHelper.ts:30-32 | a line is appended unless a kept line has its line number |
| Selection.Pass | src/githubActionsHelper.ts:21-33 | one algorithm's pass keeps, in parsed order, each line that meets the threshold |
| Selection.PassExtends | src/githubActionsHelper.ts:21-33 | one algorithm's pass only appends to what was kept before, and appends only parsed lines that meet that algorithm's threshold |
| Selection.PassComplete | src/githubActionsHelper.ts:21-33 | after a pass, every parsed line that meets the threshold has its line number among the kept lines |
| Selection.PassDistinct | src/githubActionsHelper.ts:30-32 | a pass keeps line numbers distinct |
| Selection.Qualifies | src/githubActionsHelper.ts:20-28 | some algorithm of the ranking has a metric on the line at or above the threshold at that algorithm's index |
| Selection.OrderKey | src/githubActionsHelper.ts:36-53 | the line sort's key: the order algorithm's value, missing when the line has none; the sort puts larger keys first and treats a missing key as equal to anything, as the comparator returns `b - a` or 0 |
| Selection.SelectedUpTo | src/githubActionsHelper.ts:20-34 | the lines kept after the passes of the first `i` algorithms of the ranking, each pass starting from what the earlier ones kept |
| Selection.Selected | src/githubActionsHelper.ts:19-34 | the lines kept after the passes of every algorithm of the ranking, in ranking order |
| Selection.SelectedSound | src/githubActionsHelper.ts:20-34 | every selected line is a parsed line that some algorithm of the ranking scores at or above its own threshold |
| Selection.SelectedComplete | src/githubActionsHelper.ts:20-34 | every parsed line that some algorithm flags has its line number among the selected lines; it is missing only when an earlier-kept line has its line number |
| Selection.SelectedDistinct | src/githubActionsHelper.ts:30-32 | no two selected lines share a line number |
| Selection.SelectLines | src/githubActionsHelper.ts:19-34 | the nested loops compute the selection, which is sound, complete up to line number, and has distinct line numbers |
| Sorting.SortDescending | src/githubActionsHelper.ts:36-53 | the in-place sort permutes the array; when every key is present the array ends non-increasing in the key |
| Sorting.Insert | src/githubActionsHelper.ts:36-53 | one insertion permutes the array and extends the sorted prefix by one element |
| Sorting.SwapKeeps | src/githubActionsHelper.ts:45-52 | swapping the moving element with a neighbour it outranks keeps the insertion invariant, one place to the left |
| Sorting.Inserted | src/githubActionsHelper.ts:45-52 | when the moving element does not outrank its left neighbour, the prefix is sorted |
| Sorting.InMultiset | src/githubActionsHelper.ts:36-53 | a permutation of keyed elements is keyed |
| Ranking.OrderNames | src/githubActionsHelper.ts:258-266 | the entries of the ranking equal to the order algorithm, which the comparator of lines 99 and 258 puts first |
| Ranking.OtherNames | src/githubActionsHelper.ts:258-266 | the other entries, in their original order, which that comparator calls equal to each other |
| Ranking.Normalized | src/githubActionsHelper.ts:258-266 | the ranking after the sort: the entries equal to the order algorithm, then the others in their order |
| Ranking.NamesSplit | src/githubActionsHelper.ts:258-266 | the normalised ranking's front holds only the order algorithm and its rest holds only other names; together they are the ranking as a multiset |
| Ranking.NamesAppend | src/githubActionsHelper.ts:258-266 | the two parts of a concatenation are the concatenations of the parts |
| Ranking.NormalizedPermutes | src/githubActionsHelper.ts:258-266 | normalising permutes the ranking, puts the order algorithm at index 0 when it is present, and changes nothing when it is absent |
| Ranking.NormalizedIdempotent | src/githubActionsHelper.ts:99-107 | normalising a normalised ranking again (the second renderer's sort of the same array) changes nothing |
| Ranking.NormalizedMovesToFront | src/githubActionsHelper.ts:258-266 | with distinct names, the result is the ranking with the order algorithm moved from its position to the front and the others in their order |
| Ranking.NamesAround | src/githubActionsHelper.ts:99-107 | one occurrence of the order algorithm among other names forms the front alone, and the rest keeps the others' order |
| Ranking.NamesStep | src/githubActionsHelper.ts:258-266 | one more entry extends exactly one of the two parts: the front when it is the order algorithm, the rest otherwise |
| Ranking.RotateToFront | src/githubActionsHelper.ts:258-266 | moving an entry to position `w` shifts the entries between `w` and its old place one to the right and leaves everything else alone |
| Ranking.NormalizeRanking | src/githubActionsHelper.ts:258-266 | the in-place sort leaves the array equal to the stable partition: the order algorithm first, then the other names in their order |
| Grouping.UniqueMethods | src/githubActionsHelper.ts:114 | the method list holds each method of the lines exactly once, and nothing else |
| Grouping.LinesOfMethod | src/githubActionsHelper.ts:116 | the filter keeps exactly the lines of the method |
| Grouping.Runs | src/githubActionsHelper.ts:122-139 | the runs are non-empty, and there are runs exactly when there are lines |
| Grouping.Extend | src/githubActionsHelper.ts:124-135 | one step of the accumulator leaves a non-empty list of non-empty runs |
| Grouping.FlattenAppend | src/githubActionsHelper.ts:133-138 | flattening a concatenation concatenates the flattened parts |
| Grouping.FlattenExtend | src/githubActionsHelper.ts:124-135 | one step of the accumulator appends the line to the flattened runs |
| Grouping.RunsFlatten | src/githubActionsHelper.ts:122-139 | the runs, concatenated, are the method's sorted lines, in order |
| Grouping.RunsClose | src/githubActionsHelper.ts:124-131 | consecutive lines of a run are at most 5 apart |
| Grouping.RunsSeparated | src/githubActionsHelper.ts:132-135 | the last line of a run and the first line of the next run are more than 5 apart |
| Grouping.RunsAscending | src/githubActionsHelper.ts:121-136 | runs cut from ascending lines are ascending |
| Grouping.RunsSameMethod | src/githubActionsHelper.ts:116-136 | runs cut from one method's lines hold lines of that method only |
| Grouping.RunsStep | src/githubActionsHelper.ts:123-136 | a line joins the current run when it is at most 5 after the run's last line, and otherwise closes the run and starts the next one |
| Grouping.SplitRuns | src/githubActionsHelper.ts:122-139 | the accumulator loop computes the runs |
| Grouping.RunsOfMethod | src/githubActionsHelper.ts:120-139 | the runs of one method's sorted lines are non-empty, ascending, close, of that method, separated, and concatenate to the sorted lines |
| Grouping.RunsOfOneMethod | src/githubActionsHelper.ts:120-140 | for one method: groups well formed and separated, all of that method, concatenating to that method's lines in ascending order, and present when the method has lines |
| Grouping.GroupsOfAppend | src/githubActionsHelper.ts:115-140 | a method's groups in a concatenation are its groups in each part |
| Grouping.GroupsOfUniform | src/githubActionsHelper.ts:115-140 | groups that all belong to one method are that method's groups and no other method's |
| Grouping.SeparatedAppend | src/githubActionsHelper.ts:120-140 | appending the runs of a new method keeps all groups well formed and separated |
| Grouping.GroupsOfStep | src/githubActionsHelper.ts:115-140 | appending one method's runs adds them to that method's groups and to no other's |
| Grouping.CoversStep | src/githubActionsHelper.ts:115-140 | after each method's turn, the methods done so far are covered and no group belongs to any other method |
| Grouping.CoversNew | src/githubActionsHelper.ts:115-140 | a method's runs, appended when it has no groups yet, cover that method |
| Grouping.CoversAll | src/githubActionsHelper.ts:114-140 | when every method with lines is covered, every method is: a method with no lines has no group |
| Grouping.NoLinesOfMethod | src/githubActionsHelper.ts:116 | a method none of the lines belongs to has no lines |
| Grouping.BuildGroups | src/githubActionsHelper.ts:109-140 | every group is non-empty, of one method, ascending and close; each method's groups, taken in order, are more than 5 apart and concatenate to its lines sorted ascending, so they are exactly the runs of those lines |
| Grouping.RunsAppendGroup | src/githubActionsHelper.ts:122-139 | a close group starting more than 5 after the lines before it is one more run of their concatenation |
| Grouping.SeparatedRuns | src/githubActionsHelper.ts:122-139 | close groups of one method, each more than 5 after the one before, are the runs of their concatenation |
| Grouping.GroupsOfMembers | src/githubActionsHelper.ts:115-140 | a method's groups are non-empty groups of the list that start with a line of that method |
| Grouping.GroupsAreRuns | src/githubActionsHelper.ts:115-140 | when the groups cover a method, its groups are exactly the runs of its sorted lines |
| Grouping.LineNumberKey | src/githubActionsHelper.ts:121 | the per-method sort's key: minus the line number, so sorting descending by the key sorts ascending by line number, as `a.lineNumber - b.lineNumber` does |
| Grouping.SortedByLineNumber | src/githubActionsHelper.ts:121 | the descending sort by negated line number leaves the lines ascending |
| Grouping.ValueOr0 | src/githubActionsHelper.ts:146-154 | a line's value for the order algorithm, 0 when the line has no such metric |
| Grouping.GroupMax | src/githubActionsHelper.ts:144-156 | the `reduce` with `Math.max` over the group's values |
| Grouping.GroupMaxBounds | src/githubActionsHelper.ts:144-156 | the group maximum is at least every line's value, counting a missing value as 0 |
| Grouping.GroupMaxAttained | src/githubActionsHelper.ts:144-156 | the group maximum is the value of one of the lines |
| Grouping.GroupKey | src/githubActionsHelper.ts:143-171 | the group sort's key: the group maximum, so sorting descending by the key orders the groups as `maxB - maxA` does; it is present for every non-empty group |
| Grouping.SortGroups | src/githubActionsHelper.ts:143-171 | the group sort permutes the groups and leaves them non-increasing in the group maximum |
| Stacktrace.LastSpace | src/githubActionsHelper.ts:376 | `lastIndexOf(' ')`: -1 or the index of a space, with no space after it |
| Stacktrace.CutAt | src/githubActionsHelper.ts:376-384 | the cut falls at the last space among the first `maxLength` characters when that space is not the first character, and at `maxLength` otherwise; it is 0 exactly when `maxLength` is 0 |
| Stacktrace.Pieces | src/githubActionsHelper.ts:375-406 | a trace is cut into at least one piece |
| Stacktrace.Wrapped | src/githubActionsHelper.ts:375-408 | the text the splitter evidently meant to return: for a long trace, the text it builds, a code span with the first piece, the summary tag, one entry per further piece and the closing tag; a trace that fits is left as it is |
| Stacktrace.Tail | src/githubActionsHelper.ts:388-406 | the entries of the pieces after the first, in order |
| Stacktrace.Entry | src/githubActionsHelper.ts:393-396 | a further piece as `<br> ` and the piece in a code span |
| Stacktrace.PiecesBounded | src/githubActionsHelper.ts:388-406 | every piece is at most `maxLength` long |
| Stacktrace.PiecesNonEmpty | src/githubActionsHelper.ts:388-406 | no piece of a non-empty trace is empty |
| Stacktrace.PiecesConcat | src/githubActionsHelper.ts:378-406 | the pieces, concatenated in order, reproduce the trace exactly |
| Stacktrace.PiecesCutAtSpaces | src/githubActionsHelper.ts:392-398 | a piece that follows a piece shorter than `maxLength` starts with the space it was cut at |
| Stacktrace.TailCovers | src/githubActionsHelper.ts:388-406 | the text built for the remainder is longer than the remainder |
| Stacktrace.WrappedDiffers | src/githubActionsHelper.ts:375-410 | for a trace longer than `maxLength`, the built text always differs from the trace |
| Stacktrace.CutStallsAtZero | src/githubActionsHelper.ts:388-403 | with `maxLength` 0 the cut is empty and the remainder stays the same, so the loop cannot end |
| Stacktrace.TailStep | src/githubActionsHelper.ts:388-404 | one turn of the loop appends the next piece and keeps the text still to come |
| Stacktrace.WrappedStart | src/githubActionsHelper.ts:375-386 | before the loop, the built text is the first piece in a code span followed by the summary |
| Stacktrace.TailLast | src/githubActionsHelper.ts:406-408 | after the loop, the last piece and the closing tag complete the text |
| Stacktrace.WrapStacktrace | src/githubActionsHelper.ts:373-409 | the loop builds the wrapped text: a trace that fits unchanged, otherwise the first piece and then each further piece, as above |
| Stacktrace.SubstringStacktraceOnlyOnSpaces | src/githubActionsHelper.ts:369-411 | the function as written returns its input, and for a trace longer than `maxLength` that is not the text it built |
| Table.Separator | src/githubActionsHelper.ts:181-184 | the location column's separator followed by one centred column separator per algorithm, as the `for` loop appends them |
| Table.SeparatorShape | src/githubActionsHelper.ts:181-184 | the separator row is the location column's separator followed by exactly one centred column separator per algorithm |
| Table.SeparatorRow | src/githubActionsHelper.ts:181-184 | the `for` loop builds that separator row |
| Table.HeaderText | src/githubActionsHelper.ts:175-185 | the title, the row of algorithm names and the separator row |
| Table.Header | src/githubActionsHelper.ts:175-185 | the title line, the row of algorithm names after `Line` and the arrow, and the separator row |
| Table.Row | src/githubActionsHelper.ts:243 | a row: the location between pipes, then the cells joined by a pipe between spaces, and a closing pipe |
| Table.BlobUrl | src/githubActionsHelper.ts:191 | the file's address on GitHub at the analysed commit |
| Table.ValueText | src/githubActionsHelper.ts:202-204 | a missing metric reads `---`; otherwise the cell reads `toFixed(2)` of the value of the line's first metric of that algorithm |
| FlatTable.FlatLocation | src/githubActionsHelper.ts:283-286 | with a path (even empty), the file's address followed by `#L<n> `; without one, exactly the file name, `$`, the method name and `#L<n>` |
| FlatTable.Covers | src/githubActionsHelper.ts:290-292 | the test has a coverage entry for the line marked covered |
| FlatTable.CoveringOf | src/githubActionsHelper.ts:288-292 | the filter keeps exactly the tests with a coverage entry for that line's id marked covered |
| FlatTable.WithResult | src/githubActionsHelper.ts:294-302 | the tests with the given result, and only those |
| FlatTable.WithResultSplit | src/githubActionsHelper.ts:294-302 | the failing and the passing tests together are the covering tests, each as often as before |
| FlatTable.CoveringTests | src/githubActionsHelper.ts:288-302 | the covering tests, failing ones first, each part in the tests' order |
| FlatTable.CoveringTestsSpec | src/githubActionsHelper.ts:288-302 | the sorted list holds exactly the tests that executed the line, each as often as the filter gave it, and every failing test precedes every passing one |
| FlatTable.StacktraceCell | src/githubActionsHelper.ts:316-318 | a missing or empty trace reads `---`; a non-empty one is printed as it is, which for a trace over 50 characters is not the text the splitter builds |
| FlatTable.TestRow | src/githubActionsHelper.ts:313-319 | a test's row: its name, a check mark or a cross by its result, and its trace cell |
| FlatTable.TestRowText | src/githubActionsHelper.ts:313-319 | the row built with the splitter as written is that row |
| FlatTable.TestsText | src/githubActionsHelper.ts:306-322 | the sub-table is empty exactly when no test covers the line |
| FlatTable.TestRows | src/githubActionsHelper.ts:312-320 | one test row per covering test, in the sorted order |
| FlatTable.TestRowsStep | src/githubActionsHelper.ts:312-320 | one more test appends one row |
| FlatTable.CoveringTestsText | src/githubActionsHelper.ts:304-322 | the `forEach` builds the sub-table of the covering tests in their sorted order |
| FlatTable.FlatCells | src/githubActionsHelper.ts:324-333 | one cell per algorithm of the ranking, in ranking order, each the value text of that algorithm |
| FlatTable.FlatCellsSpec | src/githubActionsHelper.ts:324-333 | a cell reads `---` when the line has no metric of that algorithm, and otherwise `toFixed(2)` of the value of the line's first metric of that algorithm |
| FlatTable.FlatRow | src/githubActionsHelper.ts:283-337 | a line's row: its location followed by its covering-tests sub-table, then its value cells |
| FlatTable.FlatRows | src/githubActionsHelper.ts:282-338 | one row per line, in the lines' order |
| FlatTable.FlatRowsStep | src/githubActionsHelper.ts:282-338 | one more line appends one row |
| FlatTable.FlatBody | src/githubActionsHelper.ts:268-340 | the flat table is empty exactly when there are no lines |
| FlatTable.FlatRowText | src/githubActionsHelper.ts:283-337 | a line's row: location and covering tests, then the algorithm cells |
| FlatTable.FlatTableText | src/githubActionsHelper.ts:268-339 | the header and one row per line, in the lines' order; nothing without lines |
| FlatTable.RenderFlatTable | src/githubActionsHelper.ts:250-341 | the ranking ends normalised, and the body is the flat table over the normalised ranking |
| BlockTable.Label | src/githubActionsHelper.ts:220-222 | the bold `L<n>` label that starts an entry |
| BlockTable.LineEntry | src/githubActionsHelper.ts:219-223 | a line's label followed by its value text |
| BlockTable.Placeholder | src/githubActionsHelper.ts:212-214 | a skipped line number's label followed by `---<br>` |
| BlockTable.Gap | src/githubActionsHelper.ts:210-216 | the placeholders the `while` loop appends between two line numbers |
| BlockTable.Placeholders | src/githubActionsHelper.ts:210-216 | between numbers `a` and `b` there are `b - a - 1` placeholders, the one at `i` labelled `a + 1 + i` |
| BlockTable.PlaceholdersSnoc | src/githubActionsHelper.ts:211-215 | one more skipped number appends its placeholder |
| BlockTable.GapSpec | src/githubActionsHelper.ts:210-216 | the `while` loop emits exactly the placeholders for the skipped numbers, in increasing order |
| BlockTable.GapText | src/githubActionsHelper.ts:210-216 | the `while` loop builds that text |
| BlockTable.CellPart | src/githubActionsHelper.ts:200-224 | one line's part: the gap after the previous line when it is more than one below, then the line's entry |
| BlockTable.CellPartSpec | src/githubActionsHelper.ts:200-224 | before a line `b` that follows `a` with `b > a + 1` come exactly `b - a - 1` placeholders, then `b`'s entry; any other line gets its entry alone |
| BlockTable.CellPartText | src/githubActionsHelper.ts:200-224 | one line's part: its placeholders, then its entry |
| BlockTable.CellParts | src/githubActionsHelper.ts:200-225 | one part per line of the group, in order |
| BlockTable.BlockCellText | src/githubActionsHelper.ts:227-239 | the `forEach` joins the parts with `<br>` |
| BlockTable.BlockCell | src/githubActionsHelper.ts:227-239 | one algorithm's cell: the group's parts joined with `<br>` |
| BlockTable.BlockCells | src/githubActionsHelper.ts:198-240 | one cell per algorithm of the ranking, in ranking order |
| BlockTable.BlockCellsText | src/githubActionsHelper.ts:198-240 | the cells are built in ranking order |
| BlockTable.BlockLocation | src/githubActionsHelper.ts:189-195 | the location ends in `#L<first>` exactly when the group has one line, and in `#L<first>-L<last>` when it has more; it starts with the link when the path is non-empty, and with `file$method` otherwise |
| BlockTable.Anchor | src/githubActionsHelper.ts:193-195 | `#L` and the first line number, then `-L` and the last one when the group has more than one line |
| BlockTable.AnchorFacts | src/githubActionsHelper.ts:193-195 | the anchor follows the base, and its suffix is as stated for the location |
| BlockTable.AnchorsDiffer | src/githubActionsHelper.ts:193-195 | text ending in `#L<first>-L<last>` never ends in `#L<first>` |
| BlockTable.BlockRow | src/githubActionsHelper.ts:243 | a group's row: its location, then its cells |
| BlockTable.BlockRows | src/githubActionsHelper.ts:188-244 | one row per group, in the groups' order |
| BlockTable.BlockBody | src/githubActionsHelper.ts:173-247 | the header and the rows; it is empty exactly when there are no groups |
| BlockTable.BlockRowsStep | src/githubActionsHelper.ts:188-244 | one more group appends one row |
| BlockTable.BlockTableText | src/githubActionsHelper.ts:173-245 | the header and one row per group, in the groups' order; nothing without groups |
| BlockTable.RenderBlockTable | src/githubActionsHelper.ts:92-248 | the ranking ends normalised; the groups built are well formed, separated and cover every method, each method's groups being the runs of its lines; the rows follow a permutation of them, non-increasing in the group maximum |
| Report.NoBugBody | src/githubActionsHelper.ts:55-80 | the no-bug banner followed by the trailing blank lines |
| Report.FoundBody | src/githubActionsHelper.ts:57-80 | the warning banner, the flat table and the block table each in its collapsed section, and the trailing blank lines |
| Report.NothingSelectedIff | src/githubActionsHelper.ts:20-55 | nothing is selected exactly when no parsed line reaches the threshold of any algorithm of the ranking |
| Report.BuildBody | src/githubActionsHelper.ts:18-80 | the lines are a permutation of the selection, descending when all have the order metric; with none the body is the no-bug banner, the ranking is untouched and there are no groups; otherwise the ranking ends normalised, the groups built are well formed, separated and cover every method, the block table's groups are a permutation of them non-increasing in the group maximum, and the body is the banner with the two tables |

## Left out

- `createCommitPRComment` and `getOctokit` (lines 82, 343-367 and 413-415) are network calls. The model ends with the body string.
- `uploadArtifacts` calls the artifact service and is not part of this model.
- `src/fs-helper.ts` is filesystem access and is not part of this model.
- The error wrapping of lines 83-88 and the `async`/`await` wrapper are not modelled: no modelled step throws.
- `toFixed(2)` is an arbitrary function supplied in `Context`. Rounding and number formatting are not modelled.
- Suspiciousness values are `real`, so NaN, infinities and double rounding are not modelled.
- The `stateHelper` values are parameters; reading the global state is not modelled.
- Sorting.SortDescending: the line sort's comparator returns 0 when either value is missing, which makes it inconsistent. The exact order JavaScript's sort gives then is implementation-defined. The model proves only a permutation, plus the order when every line has the order metric.
- Ranking.NormalizeRanking: when the ranking names the order algorithm twice, JavaScript's order of the duplicates is not pinned down. The model keeps all copies, at the front, in their original order.
- BlockTable.BlockCellText: the `=== undefined` test of lines 233-234 is dead code, because every part is a string. It is not modelled.
- Stacktrace.WrapStacktrace: a negative or fractional `maxLength` is not modelled. `maxLength` is a `nat`, and a trace longer than `maxLength` needs `maxLength` at least 1; `Stacktrace.CutStallsAtZero` shows why.
- Stacktrace.CutAt: JavaScript's `length`, `substring` and `lastIndexOf` count UTF-16 code units, while the model counts characters. Cut positions therefore differ for traces with characters outside the Basic Multilingual Plane.
- Grouping.SortGroups: the order of groups with equal maxima is not pinned down. The program keeps the order in which they were built (a stable sort), but the model proves only a permutation that is non-increasing in the group maximum.
- Selection.SelectLines: a non-finite threshold is not modelled; thresholds are `real`.

## Findings

| source | as written | input that shows it | evidently intended | confidence | as-written member | corrected member |
|---|---|---|---|---|---|---|
| src/githubActionsHelper.ts:410 | `substringStacktraceOnlyOnSpaces` builds the wrapped trace and then returns `stacktrace`, its input, so the flat table prints every stack trace in full | a trace of 51 characters with width 50 comes back unchanged, while the built text starts with a code span and differs from it | return the built text for a long trace, and the trace itself when it fits | not executed | Stacktrace.SubstringStacktraceOnlyOnSpaces | Stacktrace.WrapStacktrace |

The model follows the program as written: the flat table's stack-trace cell
(`FlatTable.StacktraceCell`, built by `FlatTable.TestRowText`) is what
`Stacktrace.SubstringStacktraceOnlyOnSpaces` returns, the trace itself. The corrected member,
`Stacktrace.WrapStacktrace`, returns the built text `Stacktrace.Wrapped` instead. For that text the
model proves four things:

- the pieces are at most `maxLength` long (`Stacktrace.PiecesBounded`);
- concatenated, they reproduce the trace (`Stacktrace.PiecesConcat`);
- every cut not made blind falls at a space (`Stacktrace.PiecesCutAtSpaces`);
- for a long trace, the text differs from the trace (`Stacktrace.WrappedDiffers`).
