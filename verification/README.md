# A verified model of columnar-db

This project models a columnar SQL engine written in Go and proves that it answers queries
correctly. It follows the engine's own structure: a lexer and parser for one SELECT statement, a
planner that builds a tree of pull operators, the vectorized operators themselves with their
reused batches, vectors and selections, the null bitmap, the value codecs, and the on-disk file
format.

Code that works by changing objects is modelled by classes and methods with loops; each of them is
proved against a function that says what it must compute, and laws about those functions are
stated as lemmas.

## How the parts fit

* **Rows.** `Types` and `Relation` give the value model: a row is a sequence of cells, a cell is
  NULL or a typed scalar. Int64 wraps around at 64 bits; a Float64 is its 64-bit pattern, and
  floating-point arithmetic is a parameter `Arith` about which nothing is assumed.
* **Meaning.** `Semantics.Meaning` says what a statement means by column names and whole rows:
  WHERE, then grouping in first-seen order with aggregates as left folds, then the SELECT list,
  then a stable ORDER BY with NULLs last, then LIMIT. `Semantics.WellFormed` says which statements
  the planner takes, and `Semantics.Supported` for which of them the answer is described: an Int64
  column first in the scan where a star stands under SUM, MIN, MAX or AVG, at most 2^31 groups, and
  under ORDER BY no Bool value in the rows and no NaN among the keys. Outside it the code leaves the
  order open, panics, or never comes to the point where it would; "Left out" tells these apart.
* **Operators.** `Exec` holds Scan, Filter, Project, Limit, Aggregate, GroupBy and OrderBy as
  classes behind one `Op` type. `Op.At(pool, pos)` says that a tree is ready with `pos` rows
  emitted; `pool` is the set of Selection objects of the tree's top segment, so the pointer swap in
  Filter is an exchange inside a fixed set of distinct objects. `Op.All()` is what a full drain
  emits. Next and Reset keep all of this at every point of every run.
  `Runs` drains whole trees after any script of calls; `KeyModes` runs the two hash tables side by
  side, `AggregatorRuns` any interleaving of calls on one aggregator, and `ProjectedFilters` a
  tree whose aliasing goes wrong.
* **Planner.** `Planner.Plan` proves that a tree results exactly for well-formed statements and
  that its `All()` is the statement's meaning. `Pushdown` and `SelectLists` carry the row-level
  laws behind scanning few columns, filtering before projecting, and putting keys and aggregates
  into SELECT order.
* **Laws.** `QueryLaws` and `AggregateLaws` say what the clauses and aggregates mean for a reader of
  the result, `Answers` what each row and cell of an answer is, and `Acceptance` which statements are
  accepted, by column types; `Floats` reads bit patterns as the numbers they denote. `Deviations` says
  where the result is not what SQL asks for.
* **Text.** `Lexer.Reads` says when a text is a token list laid out with white space, and the lexer
  is proved to decide it. `Grammar` has the derivation trees of the statement; parsing is shown
  sound, complete and unambiguous. `Printer` closes the circle from a statement to its text and back.
  `QueryTexts` writes the query language out on its own, by character codes and word lists, and
  `QueryForms` proves that the lexer and the parser accept exactly those texts.
* **Storage.** `Bitmap` and `BitSets` treat the null bitmap as a set of rows; `Plain`, `Rle`,
  `Delta` and `Dictionary` are the codecs; `FileWriters` and `FileReaders` are the two ends of the
  file format, with the file as a byte sequence. `Images`, `CodecForms`, `Formats` and `FormatReads`
  write the formats out on their own, byte by byte: what the writers produce, what the readers take
  from any bytes, and which bytes they refuse.

`Sql.Query` is the top: a query text over a table, any script of Next and Reset calls, and a drain
give exactly the meaning of the statement.

## Where the code and the natural specification part

* GROUP BY without an aggregate in the SELECT list is ignored by the planner. The model keeps that;
  `Deviations.GroupByWithoutAggregate` gives the condition on the table under which the answer is
  still one row a key, and `Deviations.GroupByRepeatsKeys` a table and a statement where it is not.
* COUNT(col) counts rows. `Deviations.CountStatement` and `Deviations.CountGroup` say exactly when this
  is the number of non-null values, and `Deviations.CountCountsNulls` gives a table where it is not.
* SUM, MIN, MAX and AVG take a star, and read the column scanned first, as if it were Int64.
  `Deviations.StarsReadFirst` says which statement such a query answers.
* The recorded minimum of a Bool chunk is the negation of the true one; its source comment reads
  otherwise. `ChunkStats.BoolBoundsHold` says when the recorded bounds still enclose the values, and
  `ChunkStats.FalseOutside` gives a chunk where they do not. The file round trip carries the recorded
  value.
* The recorded null count counts padding bits too; `ChunkStats.NullCountExact` says when it is the
  number of NULL rows, and `ChunkStats.PaddingCounted` gives a chunk where it is not.
* The comment on the projection allows a filter above it. There the filter's swap leaves the scan's
  selection as its scratch, both become one object, and every batch after the first is lost:
  `ProjectedFilters.FilterAboveProject` gives the rows that survive, and
  `ProjectedFilters.FirstBatchSuffices` the tables on which none is missing. The planner never builds
  this tree, and `Exec.FilterOp` stands above children that hand over their own batches.
* A literal compared with an Int64 column is parsed from its text whatever kind of token it is, so
  `id = '7'` is accepted.
* ORDER BY looks the column up among the SELECT items, so with `SELECT *` it is always refused.
* A lexical error such as a lone `!` or a missing digit fails the whole query, as in the code;
  error texts are not modelled, only where a failure occurs.

## Model

| member | source | states |
|---|---|---|
| `Sql.Execute` | sql/sql.go:21-37 | An operator tree results exactly when the text lexes, parses and can be planned; a full drain of it emits the meaning of the statement the text says |
| `Sql.Query` | sql/sql.go:21-37 | Whatever script of Next and Reset calls comes first, a reset and a drain of the query's tree answer with the statement's meaning, and nothing else fails |
| `Sql.PrintedMeaning` | sql/sql.go:21-37 | Querying the printed text of any statement is accepted, supported and answered exactly as the statement itself |
| `Sql.WrittenMeaning` | sql/sql.go:21-37 | A statement written out in any style, keywords in any letter case and any white space between the words, is accepted exactly when the types of its columns allow it, and then has that statement's meaning |
| `Sql.MeaningIgnoresPositions` | sql/planner.go:368-403 | Acceptance and meaning of a statement do not depend on where its literal stood in the text |
| `Lexer.Tokenize` | sql/lexer.go:88-199 | Returns the one token list the text reads as (each token at its recorded position, only white space between, longest match, end marker last) and fails exactly when the text reads as none |
| `Lexer.LexIffReads` | sql/lexer.go:88-199 | The recursive lexer yields a token list if and only if the text is that list laid out with white space: nothing is lost and nothing is invented |
| `Lexer.ReadsOnce` | sql/lexer.go:88-199 | A text reads as at most one token list |
| `Lexer.ScanSound` | sql/lexer.go:102-188 | A scanned token is spelled by the characters at its position, has a spelling its kind allows and cannot be extended |
| `Lexer.ScanComplete` | sql/lexer.go:102-188 | Any well-spelled token that stands at a position and cannot be extended is the one scanned there |
| `Lexer.KeywordUpToCase` | sql/lexer.go:9-63 | A word is a given keyword exactly when the two agree up to letter case |
| `Lexer.LookupKeyword` | sql/lexer.go:9-63 | Trying only the keywords of the word's length finds the word's kind |
| `Lexer.AsciiEqFold` | sql/lexer.go:68-78 | Comparing bytes with bit 5 set against a lower-case word is equality of the lower-cased word |
| `Lexer.NextToken` | sql/lexer.go:102-193 | The switch of the lexer's loop returns the scanned token and its end, or fails with the scanner |
| `QueryTexts.CharClasses` | sql/lexer.go:95-112 | White space is the codes 9, 10, 13 and 32, digits are 48 to 57, letters are the two ranges of ASCII letters and the underscore, and a string ends at code 39 |
| `QueryTexts.WordKindIs` | sql/lexer.go:9-63 | A word is a keyword exactly when it is one of the fifteen listed words with some letters in upper case, and has that keyword's kind |
| `QueryForms.OnlyWhiteSkipped` | sql/lexer.go:88-199 | Every character of an accepted text belongs to a token's word or is a tab, a line feed, a carriage return or a blank |
| `QueryForms.LaidOutLexes` | sql/lexer.go:88-199 | Words laid out with any of the four white-space characters between them, at least one where two could run together, are lexed to tokens of their kinds and values |
| `QueryForms.TokensIff` | sql/lexer.go:88-199 | The lexer accepts a text if and only if it is such a layout of names, keywords, numerals, quoted strings and symbols |
| `Grammar.ReadIffDerives` | sql/parser.go:17-239 | The reader recovers a derivation tree from a token list exactly when the SELECT grammar derives the list, up to its end or first end marker, from that tree |
| `Grammar.Unambiguous` | sql/parser.go:17-239 | No token list has two derivations |
| `Grammar.ReadSound` | sql/parser.go:38-106 | A tree that is read derives exactly the symbols read, clause by clause |
| `Grammar.ReadComplete` | sql/parser.go:38-106 | Every sentence of the grammar is read back as the tree it was derived from, whichever optional clauses it has |
| `Grammar.ItemsSound` | sql/parser.go:111-131 | The list loop reads items separated by commas and stops where no comma follows |
| `Grammar.ItemsComplete` | sql/parser.go:111-131 | A comma-separated list that no comma follows is read as a whole |
| `Parser.Parse` | sql/parser.go:17-31 | Succeeds exactly when the grammar derives the tokens, and returns the statement of every derivation they have |
| `Parser.ParseIffDerives` | sql/parser.go:17-31 | Acceptance is derivability and the statement is the one of the only derivation |
| `Parser.Parser.ParseSelect` | sql/parser.go:38-106 | The cursor version of each clause in turn: the statement of the tree read, the cursor behind it, failure exactly where the reader fails |
| `Parser.Parser.ParseSelectList` | sql/parser.go:111-131 | The loop over items agrees with the recursive list reader and terminates because the cursor advances |
| `Parser.Parser.ParseSelectItem` | sql/parser.go:137-170 | A column or an aggregate call with one argument; anything else fails |
| `Parser.Parser.ParsePredicate` | sql/parser.go:173-195 | Column, comparator and literal after WHERE, or failure |
| `Parser.Parser.ParseGroupBy` | sql/parser.go:220-239 | The loop over column names agrees with the recursive name-list reader |
| `Parser.Parser.ParseOrderBy` | sql/parser.go:199-217 | BY, a column and an optional direction, ascending unless DESC is said |
| `Parser.Parser.ParseLimit` | sql/parser.go:89-103 | The number must be an integer token that fits 64 bits and is not negative |
| `Printer.RoundTrip` | sql/parser.go:17-239 | Printing any statement with non-keyword names, well-spelled literals and an in-range limit, then tokenizing and parsing, gives the statement back up to the literal's position |
| `QueryForms.TextIff` | sql/parser.go:17-239 | A text is lexed and parsed to a statement, up to the place of its literal, if and only if it is that statement's words written out: the clauses in order, keywords in any letter case, white space between |
| `QueryTexts.TextSays` | sql/parser.go:17-239 | Every such text is accepted and parsed to the statement it writes out |
| `QueryForms.SaidByText` | sql/parser.go:17-239 | Every accepted text writes out the statement it is parsed to, in some style |
| `QueryForms.Comparisons` | sql/parser.go:173-195 | Each of the six operators, named one by one, may compare any name with any well-spelled literal: the sentence is derived and parsed to that comparison, and is written with the operator's own characters |
| `QueryTexts.NumeralIs` | sql/planner.go:374-378 | A numeral with or without a sign denotes the number its digits have by their places, and is refused exactly when that needs more than 64 bits |
| `Printer.SentenceRoundTrip` | sql/parser.go:38-106 | The same for every sentence of the grammar, whatever directions, semicolon and spelling of the limit it uses |
| `Printer.ParseIgnoresPositions` | sql/parser.go:17-31 | Token lists that differ in positions only are accepted alike and parse to the same statement up to position |
| `Printer.PrintReads` | sql/lexer.go:88-199 | Symbols printed with single spaces read as exactly those tokens at the places they were printed |
| `Planner.Plan` | sql/planner.go:15-38 | A tree results exactly for the well-formed statements, and draining it yields WHERE, grouping, aggregates, SELECT order, stable ORDER BY and LIMIT as the reference meaning says |
| `Planner.PlanSimpleSelect` | sql/planner.go:41-75 | Without aggregates the tree delivers the filtered rows with the SELECT columns in order; a column scanned only for WHERE is dropped again |
| `Planner.PlanAggregation` | sql/planner.go:79-226 | With aggregates the tree delivers one row, or one row a distinct key in first-seen order, in SELECT-list order |
| `Planner.ApplyOrderByAndLimit` | sql/planner.go:303-315 | Sorting and limiting on top of a body delivers the whole statement's meaning; ORDER BY fails exactly when it names no plain SELECT item |
| `Planner.ExpandWhereColumn` | sql/planner.go:336-350 | The WHERE column is scanned once more only when the list lacks it, and its index is right either way |
| `Planner.ApplyFilter` | sql/planner.go:353-366 | A filter is added exactly when the column's type admits the predicate, and filters before projection mean filtering the whole table |
| `Planner.ResolvePlainScanColumns` | sql/planner.go:407-426 | A lone star is every column; otherwise every item must be a known column |
| `Planner.CollectScanCols` | sql/planner.go:108-133 | Each needed column is scanned once, and at least one column is scanned even when only COUNT(*) asks |
| `Planner.BuildSpecs` | sql/planner.go:151-174 | One blank aggregator per aggregate item, over its scan column, or over the first one for a star; it fails exactly on a type the function does not take |
| `Planner.BuildOutputProjection` | sql/planner.go:230-242 | Each SELECT item is mapped to its key's first position or to its aggregate's position behind the keys |
| `Planner.Reorder` | sql/planner.go:207-225 | Group output, projected or passed through, is the SELECT list in order |
| `Planner.IdentityOutput` | sql/planner.go:210-225 | Projection is skipped only when group output and SELECT list have the same arity |
| `Planner.ColumnByName` | storage/rowgroup.go:67-74 | The first chunk of that name, or none |
| `SelectLists.GroupedOutput` | sql/planner.go:184-225 | Grouping the scanned columns and projecting gives what grouping the whole table by name gives |
| `SelectLists.ScalarRow` | sql/planner.go:151-182 | The scalar aggregates over scanned columns are the SELECT list over whole rows |
| `SelectLists.ReadResolved` | sql/planner.go:155-165 | With the column its stars read named, a SELECT list is accepted as before and builds the same aggregators |
| `SelectLists.IdentityArity` | sql/planner.go:210-225 | An identity projection map implies that the SELECT list is as long as keys and aggregates together |
| `Pushdown.ScanColumns` | exec/scan.go:46-71 | Scanning some columns is projecting the whole table onto them |
| `Pushdown.FilterProject` | sql/planner.go:353-366 | Filtering projected rows is projecting filtered rows |
| `Pushdown.OrderProject` | sql/planner.go:303-326 | Sorting projected rows by an output column is projecting the rows sorted by the table's column |
| `Pushdown.KeysProject` | sql/planner.go:185-190 | The groups of projected rows are the groups of the whole rows |
| `Pushdown.BucketProject` | sql/planner.go:155-174 | So are the members of each group |
| `QueryLaws.OrderBySorts` | exec/orderby.go:175-210 | ORDER BY permutes whole rows into key order, NULLs last in both directions, ties in input order |
| `QueryLaws.IntsSorted` | exec/orderby.go:192-197 | On an Int64 column the sorted values rise, or fall with DESC, with NULLs behind them |
| `QueryLaws.TextsSorted` | exec/orderby.go:203-207 | On a String column any two sorted texts are equal or part at a first byte, where with ASC the earlier one ends or has the smaller byte and with DESC the later one, with NULLs behind |
| `QueryLaws.FloatsSorted` | exec/orderby.go:198-202 | On a Float64 column without NaN the numbers the bit patterns denote rise, or fall with DESC, with NULLs behind |
| `Floats.LessIsSmaller` | exec/orderby.go:198-202 | One bit pattern is taken for less than another exactly when the number it denotes by sign, exponent and fraction is smaller |
| `QueryLaws.TextOrder` | exec/orderby.go:203-207 | String keys compare byte by byte from the front, a proper prefix first |
| `QueryLaws.OrderByIdempotent` | exec/orderby.go:175-210 | Rows already in order come out unchanged |
| `QueryLaws.FilterKeeps` | exec/filter.go:63-94 | WHERE keeps exactly the rows satisfying the predicate, in table order |
| `QueryLaws.WhereKeeps` | sql/planner.go:353-403 | An accepted WHERE clause keeps exactly the table's rows whose cell compares as written with the number the literal's text spells, or equals a String literal; NULL never passes |
| `QueryLaws.LimitKeepsFirst` | sql/planner.go:303-315 | ORDER BY with LIMIT n answers with the first n rows of the whole order, and no row left out comes before one that is kept |
| `QueryLaws.GroupsFromTable` | sql/planner.go:139-182 | The groups aggregates run over are made of rows of the table, whatever the WHERE clause and the key |
| `QueryLaws.CountItem` | sql/planner.go:249-260 | COUNT of a column of any type shows the size of the group, which is the number of its non-null values exactly when the group has no NULL there |
| `QueryLaws.IntSums` | sql/planner.go:261-298 | On an Int64 column of a table SUM shows the wrapped sum of the non-null values, AVG that sum over their number, and both NULL without any |
| `QueryLaws.IntExtremes` | sql/planner.go:268-287 | On an Int64 column of a table MIN and MAX show members of the group that bound all its non-null values, and NULL without any |
| `QueryLaws.FloatItems` | exec/aggregators.go:494-655 | On any Float64 column MIN and MAX show values of the group: the first one when that is NaN, and else members that are no NaN and between whose numbers those of all values but NaN lie; NULL exactly without values |
| `QueryLaws.FloatSums` | exec/aggregators.go:440-717 | On any Float64 column SUM shows the floating-point total of the bit patterns of the non-null cells, added from the left to 0 in their order, AVG that total divided by their number; NULL without any |
| `QueryLaws.GroupsInFirstSeenOrder` | exec/groupby.go:434-540 | The groups are the distinct key tuples in the order of their first rows, and every row has its group |
| `QueryLaws.GroupRowsAre` | exec/groupby.go:434-540 | A group is made of exactly the rows with its key, in their order |
| `Answers.PlainAnswers` | sql/planner.go:41-75 | Without aggregates there is one row for each row let through and one cell for each item: that of the table's first column of the item's name |
| `Answers.StarAnswers` | sql/planner.go:405-411 | SELECT * answers with all columns of each row that passes WHERE, cut by the LIMIT; with repeated names a cell is that of the first column of its name, without them the rows are whole |
| `Answers.AllRows` | exec/scan.go:76-101 | Without WHERE every row of the table stays, each cell NULL when its null bit is set and else the chunk's value |
| `Answers.ScalarAnswers` | sql/planner.go:79-137 | Aggregates without GROUP BY answer with one row, each item shown for all rows that pass WHERE |
| `Answers.GroupAnswers` | sql/planner.go:79-137 | With GROUP BY there is one row a key in first-seen order, each item shown for the rows with that key: its aggregate, their number, or the key column's cell |
| `Answers.OrderedAnswers` | sql/planner.go:303-335 | ORDER BY rearranges the rows, grouped or not, by the first item that is the named column, and LIMIT keeps the beginning of that |
| `Answers.SupportedIff` | exec/orderby.go:124-213 | The answer to an accepted statement is described exactly with at most 2^31 keys, an Int64 column where a star is summed, compared or averaged, and under ORDER BY no Bool value in the rows and no NaN in the column sorted by |
| `Acceptance.AcceptedIff` | sql/planner.go:36-411 | The planner accepts a statement if and only if: WHERE compares an Int64 column by one of six operators with a 64-bit numeral or a String column by = with a string; plain lists name columns; aggregates are COUNT of any column or of Int64 or Float64 ones; keys are Int64 or String; ORDER BY names a plain item |
| `Acceptance.NumeralIff` | sql/planner.go:374-378 | A literal's text stands for a number exactly when it is an optional sign and digits that denote it by their places, within 64 bits |
| `Deviations.GroupByWithoutAggregate` | sql/planner.go:18-33 | GROUP BY without an aggregate is not carried out. A SELECT list of grouping columns is answered as GROUP BY asks if no two rows that pass WHERE share a key, and without a LIMIT only then; a list of all grouping columns exactly when no two of the rows that WHERE, ORDER BY and LIMIT let through share a key |
| `Answers.MeaningLetThrough` | sql/planner.go:41-75 | A statement without aggregates shows the SELECT columns of the table's rows that pass WHERE, sorted by the table's own column and cut by LIMIT |
| `Deviations.GroupsDistinct` | exec/groupby.go:434-540 | Where every grouping column is shown, the groups are the shown rows, each once |
| `DistinctRows.DistinctOrder` | exec/orderby.go:175-210 | Sorting and dropping repeated rows commute |
| `DistinctRows.TakeDistinct` | exec/limit.go:18-39 | The first n rows are the first n distinct ones exactly when none of them repeats |
| `Deviations.GroupByRepeatsKeys` | sql/planner.go:18-33 | SELECT k FROM t GROUP BY k over k = 7, 7 is accepted and answers 7 twice |
| `Deviations.CountStatement` | sql/planner.go:255-259 | COUNT(col) of an accepted statement without GROUP BY, for a column of any type, is the number of its non-null values exactly when the rows that pass WHERE have no NULL in it |
| `Deviations.CountGroup` | sql/planner.go:255-259 | The same for every group of an accepted statement with GROUP BY |
| `Deviations.CountCountsNulls` | sql/planner.go:255-259 | SELECT COUNT(c) FROM t over c = NULL is accepted and answers 1 |
| `Deviations.StarsReadFirst` | sql/planner.go:155-165 | SUM, MIN, MAX and AVG of a star are accepted and answered as if they named the first grouping column, else the first column an aggregate names, else the first of the table, in every statement where that column is Int64 |
| `Runs.Replay` | exec/operator.go:17-20 | Reset is replay: after any script of calls, a reset and a drain give what a fresh tree gives |
| `Runs.Drain` | exec/operator.go:17-20 | Calling Next to the end yields exactly the rows not emitted yet, however they are cut into batches |
| `Runs.RunStack` | exec/filter.go:63-100 | Any run of filters stacked on a scan drains to exactly the rows that are non-null and true for every predicate, in table order |
| `Runs.StackKeepsSelections` | exec/filter.go:86-87 | At every point of every run, the k+1 selections of a segment with k filters are distinct objects with full capacity and strictly increasing in-range positions, the scratch ones included |
| `ProjectedFilters.FilterAboveProject` | exec/project.go:90-95 | A filter above a projection of a scan, which the comment at exec/project.go:9-10 allows, keeps the matching rows of the first batch of 1024 only, and after a Reset none |
| `ProjectedFilters.FirstBatchSuffices` | exec/project.go:9-10 | So its answer is right exactly when no row behind the first batch matches |
| `ProjectedFilters.RowLost` | exec/project.go:9-10 | A table of 1025 equal rows loses its last one |
| `ProjectedFilters.ViewFilter.Next` | exec/filter.go:63-94 | Only a first call with a selection of its own hands over rows; then scratch and live selection are one object |
| `Runs.FilterSurvivors` | exec/filter.go:63-94 | One more filter keeps exactly the survivors of one more predicate |
| `Runs.ReadBatch` | exec/batch.go:29-37 | Iterating the live rows of a batch reads the rows it shows |
| `Exec.Op.Pull` | exec/operator.go:17-20 | Every operator hands over the next rows owed, never an empty batch, and null exactly at the end; all invariants and the segment's selections are kept |
| `Exec.Op.Restart` | exec/operator.go:17-20 | Reset puts any tree back to its first row with every invariant intact |
| `Exec.ScanOp.Next` | exec/scan.go:76-99 | The next window of at most 1024 rows, every column's values and nulls row for row, all rows live |
| `Exec.ScanOp.Reset` | exec/scan.go:103-106 | Back to row 0 |
| `Exec.FilterOp.Next` | exec/filter.go:63-94 | The next rows that satisfy the predicate; batches that lose all rows are skipped |
| `Exec.FilterOp.Swap` | exec/filter.go:86-87 | Exchanging the batch's selection with the scratch one leaves the same set of distinct selections and narrows the batch to the kept rows |
| `Exec.FilterOp.Evaluate` | exec/predicate.go:63-229 | Evaluating into the scratch selection leaves the batch as it is and makes the scratch select exactly the rows that pass |
| `Exec.FilterOp.Reset` | exec/filter.go:97-100 | Back to the first row whatever selections have been swapped |
| `Exec.Rebind` | exec/filter.go:86-87 | Replacing the live selection of a segment by an outside one keeps its bookkeeping exact |
| `Exec.ProjectOp.Next` | exec/project.go:76-95 | The child's rows with the chosen columns, by aliasing its vectors and selection |
| `Exec.ProjectOp.Reset` | exec/project.go:98-100 | Back to the first row |
| `Exec.LimitOp.Next` | exec/limit.go:18-39 | The child's rows up to the limit; the last batch is narrowed in place over its own backing array |
| `Exec.LimitOp.Rewrite` | exec/limit.go:31-36 | Resetting a selection and appending the first m of its own entries keeps those entries |
| `Exec.LimitOp.Reset` | exec/limit.go:41-44 | Back to the first row |
| `Exec.AggregateOp.Next` | exec/aggregate.go:199-224 | One row holding each aggregate's fold over all of the child's rows, then the end |
| `Exec.AggregateOp.Reset` | exec/aggregate.go:231-238 | Back to the first row with every aggregator cleared |
| `Exec.GroupByOp.Next` | exec/groupby.go:377-429 | One row a distinct key in first-seen order with the folds over that group's rows, in windows of 1024 |
| `Exec.GroupByOp.IngestBatch` | exec/groupby.go:434-540 | After each batch, keys and aggregator slots are those of all rows consumed so far |
| `Exec.GroupByOp.Reset` | exec/groupby.go:746-782 | Back to no groups, with tables, key lists and over-long aggregator arrays reused |
| `Exec.OrderByOp.Next` | exec/orderby.go:56-110 | The child's rows in the order of the stable sort permutation, in windows of 1024 |
| `Exec.OrderByOp.Reset` | exec/orderby.go:112-122 | Back to an empty table |
| `Exec.ScanOp.constructor` | exec/scan.go:46-71 | A fresh scan owes all rows of the chosen chunks and owns its one selection |
| `Exec.FilterOp.constructor` | exec/filter.go:36-52 | Over any child that hands over its own batches, a fresh filter owes the child's rows that pass and adds one scratch selection to the segment |
| `Exec.ProjectOp.constructor` | exec/project.go:46-68 | A fresh projection owes the projected rows of its child |
| `Exec.LimitOp.constructor` | exec/limit.go:14-16 | A fresh limit owes the first rows of its child |
| `Exec.AggregateOp.constructor` | exec/aggregate.go:150-167 | A fresh scalar aggregation owes one row of folds |
| `Exec.GroupByOp.constructor` | exec/groupby.go:278-355 | A fresh grouping owes one row a distinct key |
| `Exec.OrderByOp.constructor` | exec/orderby.go:48-54 | A fresh sort owes its child's rows in sorted order |
| `Batches.Selection.ResetFull` | exec/selection.go:100-108 | The selection becomes rows 0 to n-1 inside the same backing array |
| `Batches.Selection.AppendUnchecked` | exec/selection.go:81-83 | One more live row behind the others, inside the backing array |
| `Batches.Selection.Add` | exec/selection.go:56-61 | One more live row of a batch |
| `Batches.Selection.Reset` | exec/selection.go:94-94 | No live rows, the backing array untouched |
| `Batches.Vector.CopyFromChunk` | exec/vector.go:197-241 | A type or range mismatch is refused; otherwise exactly the chunk's cells of that range are copied, nulls included, although bits are copied only when the range has one |
| `Batches.Vector.Append` | exec/vector.go:136-185 | One more cell, refused exactly on a full vector or another type; values and null bits stay aligned |
| `Batches.Vector.AppendNull` | exec/vector.go:247-266 | One more NULL with a placeholder value, refused exactly on a full vector |
| `Batches.Vector.Reset` | exec/vector.go:94-109 | An empty vector with a clear bitmap, ready to be filled again |
| `Batches.Batch.Reset` | exec/batch.go:48-55 | All vectors and the selection emptied together |
| `Batches.ProjectLive` | exec/project.go:76-95 | Aliasing vectors under one selection shows the projected rows |
| `Predicates.Eval` | exec/predicate.go:63-229 | The output selection holds exactly the input's positions whose cell is non-null and true, in order; sharing one buffer for both would lose every row |
| `Predicates.EvalNulls` | exec/predicate.go:75-79 | The null-aware loop agrees with the null-free one on what is kept |
| `Predicates.EvalNoNulls` | exec/predicate.go:67-74 | The null-free loop keeps exactly the true cells |
| `Aggregators.Aggregator.Update` | exec/aggregators.go:87-412 | Each slot advances by its function over the cells routed to it, in order; all scalar, grouped, null-free and null-aware loops agree |
| `Aggregators.Aggregator.UpdateNoNulls` | exec/aggregators.go:129-148 | The null-free loop equals stepping over every cell |
| `Aggregators.Aggregator.UpdateNulls` | exec/aggregators.go:149-167 | The null-aware loop equals stepping over every cell |
| `Aggregators.Aggregator.UpdateSumScalar` | exec/aggregators.go:130-141 | The scalar SUM loop with a local accumulator equals stepping over every cell |
| `Aggregators.Aggregator.UpdateAvgScalar` | exec/aggregators.go:371-377 | The scalar AVG loop that adds the batch's count at once equals stepping over every cell |
| `Aggregators.Aggregator.UpdateCountScalar` | exec/aggregators.go:87-95 | COUNT adds the number of live rows at once |
| `Aggregators.Aggregator.Grow` | exec/aggregators.go:40-63 | Growing keeps every slot and adds zero slots only |
| `Aggregators.Aggregator.Init` | exec/aggregators.go:111-114 | Zero slots for the given number of groups |
| `Aggregators.Aggregator.Reset` | exec/aggregators.go:119-122 | All slots back to zero, the arrays keeping their length |
| `Aggregators.Aggregator.Finalize` | exec/aggregators.go:171-177 | Appends the slot's result, NULL where nothing was aggregated |
| `Aggregators.UpdateGroups` | exec/groupby.go:535-538 | After growing and updating, every slot of every aggregator is the fold over its group's rows so far |
| `Aggregators.UpdateScalar` | exec/aggregate.go:208-211 | The same for the one group of a scalar aggregation |
| `Aggregators.ScatterSum` | exec/aggregators.go:130-141 | Summing a batch into a local and storing once equals stepping slot 0 cell by cell |
| `Aggregation.ScatterFolds` | exec/groupby.go:535-538 | Routing a batch by its rows' keys turns folds over the rows so far into folds over the rows with the batch |
| `Aggregation.FoldedGrow` | exec/aggregators.go:40-63 | New zero slots are the folds of groups without rows |
| `Aggregation.KeysDistinct` | exec/groupby.go:434-540 | No key is listed twice |
| `Aggregation.KeysExtend` | exec/groupby.go:434-540 | Later batches only append keys, so ordinals never change |
| `Aggregation.EmptyBucket` | exec/groupby.go:434-540 | A key is listed exactly when it has a row |
| `AggregatorRuns.RunFolds` | exec/aggregators.go:40-177 | Over any interleaving of Grow, Update and Reset and any in-range routing, each slot is the left fold of the cells routed to its group since the last Reset |
| `AggregatorRuns.ScatterFold` | exec/aggregators.go:124-168 | One Update extends the fold of every slot by exactly the cells routed to it, in order |
| `AggregatorRuns.RunCalls` | exec/aggregators.go:87-717 | Running any such script of calls on an aggregator object leaves the slots the folds say |
| `AggregateLaws.GroupsPartition` | exec/groupby.go:434-540 | Whatever is weighed, the groups add up to the table |
| `AggregateLaws.GroupCountsAddUp` | exec/groupby.go:434-540 | Group sizes add up to the live rows |
| `AggregateLaws.GroupSumsAddUp` | exec/aggregators.go:124-168 | Group SUMs add up to the table's SUM modulo 2^64 |
| `AggregateLaws.SumFold` | exec/aggregators.go:124-177 | SUM over Int64 is the exact sum of the non-null values wrapped to 64 bits, and NULL exactly without values |
| `AggregateLaws.ExtremeFold` | exec/aggregators.go:202-340 | MIN and MAX over Int64 are members that bound all non-null values |
| `AggregateLaws.AvgResult` | exec/aggregators.go:365-412 | AVG over Int64 divides the wrapped sum by the number of non-null values, and is NULL without any |
| `AggregateLaws.CountColumn` | sql/planner.go:255-259 | COUNT(col) is the number of non-null values exactly when there is no NULL |
| `AggregateLaws.OrdinalsUnique` | exec/groupby.go:603-706 | Routing rows to listed keys leaves no choice of ordinals |
| `KeyModes.AssignBoth` | exec/groupby.go:434-706 | The typed and the composite table over one column, fed the same batches, assign the same ordinals, one ordinal exactly for one key, and list the same keys |
| `KeyModes.GroupBothWays` | exec/groupby.go:213-355 | Grouping any table by one column answers alike through both tables, whatever calls of Next and Reset come before the drains |
| `AggregateLaws.KeysAreRows` | sql/planner.go:18-33 | Listing each row's key lists the distinct keys exactly when no key repeats |
| `GroupKeys.KeyBytesInjective` | exec/groupby.go:641-698 | Key tuples of fixed column types have equal encodings only if they are equal: NULL differs from 0 and from the empty string, and no tuple runs into another |
| `GroupKeys.CellPrefix` | exec/groupby.go:641-698 | No encoded cell is a proper prefix of another one of its type |
| `GroupKeys.SingleTable.Route` | exec/groupby.go:472-492 | A key is found or appended; NULL has one group of its own |
| `GroupKeys.SingleTable.Assign` | exec/groupby.go:452-533 | Every live row gets the ordinal of its key, and the listed keys are those of all rows so far |
| `GroupKeys.SingleTable.EmitKeys` | exec/groupby.go:553-590 | A window of listed keys, NULL emitted at its ordinal's place |
| `GroupKeys.TupleTable.Probe` | exec/groupby.go:641-700 | A tuple is found by its bytes or appended, so equal bytes mean an equal tuple |
| `GroupKeys.TupleTable.Assign` | exec/groupby.go:603-706 | Every live row gets the ordinal of its tuple, and the listed tuples are those of all rows so far |
| `GroupKeys.TupleTable.EmitColumn` | exec/groupby.go:714-739 | One key column of a window of listed tuples, nulls included |
| `GroupTables.Ingest` | exec/groupby.go:434-540 | Keys and aggregates of the rows so far become those of the rows with the batch |
| `GroupTables.EmitGroups` | exec/groupby.go:398-428 | A window of finished groups is a window of the reference result, all columns aligned |
| `GroupTables.ResetGroups` | exec/groupby.go:746-782 | No group is left and every slot is zero, however long the arrays had grown |
| `Sorting.SliceStable` | exec/orderby.go:178-210 | Insertion from the back computes the stable sort permutation for any comparison |
| `Sorting.SortPermIsStable` | exec/orderby.go:178-210 | For a strict weak order it lists every row once, ordered by key and by input position among equals |
| `Sorting.StableSortUnique` | exec/orderby.go:178-210 | There is only one such permutation, so any stable sort computes it |
| `Sorting.LessOfIsWeakOrder` | exec/orderby.go:180-209 | The comparison is a strict weak order on Int64, String and non-NaN Float64 keys with NULLs last |
| `Sorting.OrderRowsPermutes` | exec/orderby.go:56-110 | Sorting keeps every row and its multiplicity |
| `RowStores.RowStore.Collect` | exec/orderby.go:128-168 | The collected columns hold the live rows of every batch so far, whole and in order |
| `RowStores.RowStore.Sort` | exec/orderby.go:172-210 | The permutation is the stable one for the sort column |
| `RowStores.RowStore.EmitWindow` | exec/orderby.go:66-109 | A window of the permuted rows |
| `RowStores.RowStore.Reset` | exec/orderby.go:112-122 | No rows, no columns, no permutation |
| `Bitmap.HasNullsInRange` | storage/bitmap.go:104-147 | True exactly when some row of the range is null, for every in-bounds range, with masked edge bytes |
| `Bitmap.MaskedByte` | storage/bitmap.go:121-146 | The masked byte is non-zero exactly when one of its bits inside the range is set |
| `Bitmap.HasNulls` | storage/bitmap.go:85-92 | True exactly when some bit is set |
| `Bitmap.IsNull` | storage/bitmap.go:56-60 | Bit i of the bitmap |
| `Bitmap.NullBitmap.SetNull` | storage/bitmap.go:33-37 | Sets bit i and no other |
| `Bitmap.NullBitmap.ClearNull` | storage/bitmap.go:49-53 | Clears bit i and no other |
| `Bitmap.NullBitmap.Reset` | storage/bitmap.go:42-46 | Clears every bit |
| `Bitmap.ShiftTables` | storage/bitmap.go:33-60 | The mask tables are the shifted bytes the code computes |
| `Bitmap.BitIsShift` | storage/bitmap.go:3-19 | Row i is null exactly when bit i mod 8, counted from the lowest, of byte i / 8 is set |
| `BitSets.RunUpdates` | storage/bitmap.go:24-53 | Over any run of in-range updates the bitmap is the set of null rows those updates build, and padding bits stay zero |
| `BitSets.NullCount` | storage/bitmap.go:66-72 | The number of nulls is the size of that set |
| `BitSets.Popcount` | storage/bitmap.go:151-158 | Dropping the lowest set bit until none is left counts the set bits |
| `BitSets.CountIsCardinality` | storage/bitmap.go:66-72 | Counting bits is counting members |
| `BitSets.EncodeBool` | encoding/plain.go:147-158 | One bit a value, least significant first, padding zero |
| `BitSets.DecodeBool` | encoding/plain.go:161-173 | The first count bits, or an error exactly when bytes are missing |
| `BitSets.PackedOnce` | encoding/plain.go:147-158 | The packed bytes of a list of booleans are unique |
| `BitSets.UpdatedPacks` | storage/bitmap.go:24-53 | After any run of in-range updates on a new bitmap its bytes are the very bytes encodeBool writes for its null flags |
| `BitSets.BitmapPacks` | storage/bitmap.go:80-82 | A bitmap with clear padding is the packed form of its own null flags |
| `BitSets.BoolRoundTrip` | encoding/plain.go:147-173 | Decoding any prefix count returns that prefix |
| `Codecs.ReadAllBack` | encoding/plain.go:62-143 | Values written one after the other, wherever they stand, are read back and the reader stops right behind them |
| `Codecs.ReadFewer` | encoding/plain.go:71-143 | Reading fewer values yields a prefix of reading more |
| `Images.ValueBytesAre` | encoding/plain.go:10-18 | A value's bytes are its 8 little-endian bytes in two's complement or IEEE bits, its length in 4 bytes and its characters, or one byte 0 or 1 |
| `Images.ReadAllIff` | encoding/plain.go:70-145 | On any bytes, n values are read exactly when they stand there one behind the other by these forms, and the read fails exactly when none do |
| `Plain.EncodePlain` | encoding/plain.go:62-122 | Fixed-width values and length-prefixed strings, one after the other |
| `Plain.DecodeFixed` | encoding/plain.go:71-103 | Fails exactly when fewer than 8 bytes a value are there |
| `Plain.DecodeString` | encoding/plain.go:125-143 | Reads length-prefixed strings, failing where a length or a text is cut off |
| `Plain.PlainRoundTrip` | encoding/plain.go:62-143 | Decoding the first k of any encoded list returns them |
| `Rle.EncodeRle` | encoding/rle.go:57-283 | The bytes of the list's maximal runs |
| `Rle.RunsSpell` | encoding/rle.go:57-86 | The runs spell the data, so their lengths sum to n |
| `Rle.RunsMaximal` | encoding/rle.go:57-86 | Runs are positive, and neighbours differ |
| `Rle.DecodeRle` | encoding/rle.go:89-306 | On any bytes, terminates with an error or exactly count values, also over runs of length zero |
| `Rle.RleRoundTrip` | encoding/rle.go:57-306 | Decoding the first k of any encoded list returns them |
| `CodecForms.RunsAre` | encoding/rle.go:14-18 | Each run is written as its value's bytes and its length in 4 little-endian bytes |
| `CodecForms.RleIff` | encoding/rle.go:89-306 | On any bytes, n values are decoded exactly when runs that stand in the bytes, empty ones among them, cover n places with these values; else the bytes are refused |
| `Delta.EncodeDelta` | encoding/delta.go:58-85 | The first value, a count and wrapped differences |
| `Delta.DecodeDelta` | encoding/delta.go:88-122 | Sums the differences with wrap-around, or fails when bytes are missing |
| `Delta.DeltaRoundTrip` | encoding/delta.go:58-122 | Decoding the first k of any encoded list returns them |
| `CodecForms.DeltaIs` | encoding/delta.go:18-26 | Encoded values are the base in 8 bytes, the count in 4, and the differences of neighbours modulo 2^64 in 8 each |
| `CodecForms.DeltaIff` | encoding/delta.go:88-122 | On any bytes, the values decoded are the base and its running sums modulo 2^64, and the bytes are refused exactly for a short header, a stored count below the one asked for, or missing differences |
| `CodecForms.Wraps` | encoding/delta.go:58-122 | Wrap-around leaves a 64-bit number the same modulo 2^64 |
| `Dictionary.EncodeDictionary` | encoding/dictionary.go:63-311 | The distinct values in first-seen order, then each value's index |
| `Dictionary.FirstSeenDistinct` | encoding/dictionary.go:63-85 | Dictionary entries are pairwise distinct and are exactly the values of the data |
| `Dictionary.FirstSeenOrder` | encoding/dictionary.go:63-85 | The entries stand in the order in which their values first occur |
| `Dictionary.IndicesUnique` | encoding/dictionary.go:63-85 | The indices are determined by the data |
| `Dictionary.DecodeDictionary` | encoding/dictionary.go:113-462 | On any bytes, an error or exactly count values; every entry, the stored count and every index is checked |
| `Dictionary.DictionaryRoundTrip` | encoding/dictionary.go:63-364 | Decoding an encoded list returns it |
| `CodecForms.DictionaryIs` | encoding/dictionary.go:16-25 | Encoded values are the number of entries, the entries, the number of values and an index in 4 bytes for each |
| `CodecForms.DictionaryIff` | encoding/dictionary.go:113-462 | On any bytes, the values decoded are those that the stored indices name among the stored entries, and the bytes are refused exactly when no entries, equal count and indices within them stand there |
| `StringTables.EncodeStrings` | storage/writer.go:220-256 | The offset table and the texts |
| `StringTables.DecodeStrings` | storage/reader.go:430-466 | Cuts the texts by the offset table, failing on a wrong count, missing bytes or offsets out of order |
| `StringTables.StringsRoundTrip` | storage/writer.go:220-256 | Strings written as a table are read back |
| `ChunkStats.ComputeStats` | storage/chunk.go:82-201 | Null count and first-to-last widened bounds of the non-null values |
| `ChunkStats.BoundsHold` | storage/chunk.go:104-180 | For Int64, String and Float64 without NaN the bounds are non-null values of the chunk with every non-null value between, and exist exactly when there is one |
| `ChunkStats.FloatBoundsHold` | storage/chunk.go:130-154 | For Float64 with NaN the recorded bounds are the first value when that is NaN, and else are no NaN and enclose the numbers of all values but NaN |
| `ChunkStats.BoolBoundsHold` | storage/chunk.go:182-201 | For Bool the recorded minimum is the negation of the least non-null value, so the bounds enclose the values exactly when none of them is false |
| `ChunkStats.FalseOutside` | storage/chunk.go:182-201 | The chunk of false alone records true as its minimum, and its value lies outside the bounds |
| `ChunkStats.NullCountExact` | storage/chunk.go:82-101 | The recorded null count is the number of NULL rows exactly when the bitmap's padding bits are clear, and never less |
| `ChunkStats.PaddingCounted` | storage/bitmap.go:66-72 | A chunk of one value with a padding bit set records a positive null count although no row is NULL |
| `Footers.FooterRoundTrip` | storage/reader.go:182-266 | Every footer within the field widths is parsed back: schema, row counts, extents, null counts and bounds |
| `Footers.ChunkMetaBack` | storage/reader.go:270-322 | One chunk's metadata is parsed back and the cursor ends behind it |
| `Footers.StatBack` | storage/reader.go:326-363 | A bound of each type is parsed back |
| `Footers.FieldsBack` | storage/reader.go:204-230 | The schema section is parsed back |
| `FileLayout.ChunksTileFile` | storage/writer.go:84-114 | The recorded extents of all chunks tile the file from byte 6 to the footer with no gap and no overlap |
| `FileLayout.GroupsTile` | storage/writer.go:84-114 | The same for any list of row groups at any start |
| `FileWriters.FileWriter.constructor` | storage/writer.go:32-57 | A new file holds the magic and the version, and the offset counts them |
| `FileWriters.FileWriter.WriteBytes` | storage/writer.go:406-410 | Appends and keeps the offset equal to the file's length |
| `FileWriters.FileWriter.WriteRowGroup` | storage/writer.go:66-114 | Appends the group's chunks and its metadata, or refuses another schema before writing anything |
| `FileWriters.FileWriter.Close` | storage/writer.go:120-151 | The file becomes header, groups, footer, footer length and magic |
| `FileWriters.FileWriter.WriteChunk` | storage/writer.go:84-109 | A chunk's bytes and the extent and stats that locate it |
| `FileWriters.EncodeFooter` | storage/writer.go:264-376 | The footer section of schema and row-group index |
| `FileReaders.OpenFile` | storage/reader.go:33-61 | Opens exactly the files whose magic, version, trailer and footer are sound, with the metadata the footer says |
| `FileReaders.FooterExtent` | storage/reader.go:152-177 | The footer's extent computed backwards from the trailer lies between header and trailer |
| `FileReaders.FileReader.ReadRowGroup` | storage/reader.go:75-119 | An index out of range or a damaged chunk is an error; otherwise the decoded group |
| `FileReaders.DecodeValues` | storage/reader.go:370-466 | Decoding by column type, failing when bytes are missing |
| `FileReaders.ReadFooter` | storage/reader.go:182-266 | The cursor loops over schema and index agree with the recursive parser, errors included |
| `FileRoundTrip.WriteThenRead` | storage/writer.go:66-151 | Writing any list of row groups of one schema and reading the file returns the same groups, schema, null bits, null counts and bounds |
| `FileRoundTrip.WriteFile` | storage/writer.go:66-151 | WriteRowGroup on each group and then Close produce exactly the file layout |
| `FileRoundTrip.OpenBack` | storage/reader.go:33-61 | Opening a written file yields the writer's metadata |
| `FileRoundTrip.GroupReadBack` | storage/reader.go:75-119 | Reading any row group of a written file returns it |
| `FileRoundTrip.ExtentsLocateChunks` | storage/writer.go:84-109 | The extent recorded for each chunk holds exactly that chunk's bytes |
| `FileRoundTrip.FileFraming` | storage/format.go:7-22 | Magic and version first; groups, footer, footer length and magic last |
| `Formats.FileIs` | storage/format.go:5-50 | Every file of row groups is the documented image byte for byte: CLDB, version 1, the chunks' values and bitmaps, the schema with type bytes 0 to 3, the index of offsets, sizes, null counts and bounds, the footer's length, CLDB |
| `Formats.FieldIs` | storage/types.go:17-20 | A column's schema entry is its name behind a 2-byte length and then the byte 0 for Int64, 1 for Float64, 2 for String or 3 for Bool |
| `Formats.ChunkIs` | storage/format.go:27-37 | A chunk's bytes are its values in 8 bytes or 1 byte each, or offsets and texts, and then its null bitmap |
| `Formats.MetaIs` | storage/format.go:46-54 | A chunk's index entry is its place, size, number of nulls, and a 0 or a 1 with the two bounds |
| `FormatReads.OpensIff` | storage/reader.go:33-61 | A file opens exactly when it begins with CLDB and version 1, ends with CLDB, the length before that leaves room for the header, and the bytes it covers are a footer; another version is refused |
| `FormatReads.FooterIff` | storage/reader.go:182-322 | On any bytes, a footer is parsed exactly to the schema, row counts, places, sizes, null counts and bounds that stand in it by their little-endian bytes, and refused when none do |
| `FormatReads.GroupReadIff` | storage/reader.go:75-150 | On any file, a row group is read exactly when its number exists, the file has columns, and every chunk stands at its recorded place, with the type its stored byte 0, 1, 2 or 3 says; any other type byte is refused |
| `FormatReads.ValuesIff` | storage/reader.go:370-472 | On any bytes, a chunk's values are decoded exactly when they stand there: fixed-width values with no byte more or less, strings between offsets that rise and stay inside |
| `FileRoundTrip.TrailerBack` | storage/reader.go:152-197 | The reader's trailer arithmetic recovers exactly the writer's footer |
| `Numerals.ParseSigned` | sql/planner.go:370-374 | A signed numeral is parsed exactly when it fits 64 bits |
| `Numerals.ParseDecimal` | sql/parser.go:98-101 | A decimal text below 2^63 is parsed to its number |

## Left out

- REPL, demo data and benchmarks (cmd/): user interface only.
- LZ4 compression and the pipeline wrapper (encoding/lz4.go, encoding/pipeline.go): the compressor is a foreign library, and the untyped Decode entry points always return an error.
- Files, partial writes and I/O errors: the file is a byte sequence, a read is a slice of it, and every write succeeds.
- IEEE 754 arithmetic: `Arith` is an open parameter, so nothing is said about rounding. The order of Float64 values is that of the numbers their bit patterns denote, with NaN below and above nothing.
- The token kind for no token at all (TokInvalid): the lexer never produces it, and the parser is modelled on the other kinds.
- Error texts and which of two errors is reported first: a failure is `None` or `false`.
- Constructor checks that no caller in the engine can violate (nil arguments, negative limits, key columns out of range): the constructors take them as preconditions, and the planner is proved to meet them.
- Dispatch over Go's concrete column and predicate types: one Vector class holds scalars of one type, and the seven predicates are one `Pred` type with two loops instead of fourteen; the nine aggregators are one class over its function and type, with the scalar loops of SUM, AVG and COUNT kept apart.
- Capacity of Go slices: a buffer that the code allocates with fixed size is a sequence of at most that length; a Selection keeps its 1024 entries explicitly because the swap and the in-place narrowing depend on it.
- Go maps and sort.SliceStable: Dafny maps, and an insertion sort with the stable-sort contract, which has exactly one solution (`Sorting.StableSortUnique`).
- The grouping state and the sorting state are objects of their own (`GroupTables.KeyTable`, `RowStores.RowStore`) instead of fields of GroupByOp and OrderByOp; OrderByOp and GroupByOp get their output buffers at construction, and GroupByOp's error field is dropped because the planner passes the schema's own types.
- Vector.IsNull hoisting of HasNulls out of row loops: a cell is read through `Vector.Get`, which asks the bitmap once a cell.
- Size bounds: row counts, chunk sizes, the footer and every encoded length stay below 2^32, column counts and names below 2^16, file offsets below 2^63, and groups within 2^31, stated as preconditions where they matter.
- Sql.Execute: requires `Supported` of the statement. Not described are a star under SUM, MIN, MAX or AVG over a first scanned column that is not Int64 (the code panics on the first row that passes WHERE, and answers with NULL or no group when none passes), non-null Bool values in the rows of ORDER BY (the code keeps no values for them and panics when it emits one, which under LIMIT 0 it never does), and NaN sort keys (the comparison is then no order, and Go leaves the result open).
- Sql.Query: requires `Supported` as `Sql.Execute` does, for the same reasons.
- Planner.Plan: requires `Supported`; not described are the statements named under Sql.Execute, and ORDER BY with an empty name, which a statement built by hand can hold: the code finds it at the first item without a column name, where the model refuses it. No text parses to it.
- Planner.PlanAggregation: requires `Countable`; more than 2^31 groups are not described, nor a star under SUM, MIN, MAX or AVG over a first column that is not Int64, on which the code panics unless no row passes WHERE.
- Planner.BuildSpecs: a star under SUM, MIN, MAX or AVG over a first column that is not Int64 is not described; the code builds an Int64 aggregator, which panics on its first row.
- Planner.ApplyOrderByAndLimit: non-null Bool values in the rows to be sorted are not described; the code panics when it emits one, which under LIMIT 0 it never does. ORDER BY with an empty name is refused here and accepted by the code, as under Planner.Plan.
- Exec.OrderByOp.constructor: non-null Bool values in the child's rows are not described; the code takes such a child and panics when it emits one. NULLs of Bool columns are described.
- Exec.FilterOp.constructor: the child is any tree but a projection or a limit over one. Over a projection of a scan the code loses rows, which `ProjectedFilters` describes; projections of other trees are not described.
- Deviations.GroupByWithoutAggregate: for a SELECT list that leaves out a grouping column, under a LIMIT, it is only stated that distinct keys suffice; rows of different groups then look alike, and whether the answers agree is up to the shown values. NaN sort keys are left out as under Sql.Execute.
- Rle.DecodeRle: bit-packed and one-byte booleans share the generic value codec; the four typed copies of each codec are one method over the value type.
- Automatic choice of encodings, OR predicates, joins and distribution: described in the documentation, with no code behind them.
