# Part history checker — a Dafny model

The part history checker reads a list of part numbers and queries an M2M
manufacturing database about them. Every query cuts the list into chunks of
1000 part numbers. It writes each chunk as a quoted, comma-separated
`IN (...)` list, runs one SQL query per chunk and concatenates the results.
This model covers:

- the manufacturing history query: jobs of the last five years by release date, CLOSED or RELEASED, with their actual costs and unit cost;
- the sales history query: orders of the last five years, with every line item and release, and the unit price;
- the average cost query: for each inventory-master revision of a part, the mean unit cost of the part's ten most recent closed jobs, ranked by unit cost, keeping ranks 2 to 9;
- the part-data query: each inventory row with the part's latest sales-order line;
- the de-duplication of the part numbers read from the input file;
- the text summary for a single part.

The database is a value (`Tables.Database`): lists of rows for JOMAST,
JOPACT, SOMAST, SOITEM, SORELS and INMAST. Each SQL query is a function of
the database, the chunk and the cutoff date. `ORDER BY` is an insertion sort
under the query's order. SQL leaves the order of ties open, so the lemmas
about each query state only "sorted, and a permutation of the matching
rows". The insertion sort still picks one order among ties, and the
contracts of the query methods and of the summary, which are stated through
the query functions, inherit that choice (see "## Left out"). The
chunking loop and the summary's `+=` loop are methods with loop invariants.
Each is proved against the function that specifies it.

Modules, one per file:

- `Sequences`: map, filter, flatten, the SQL `IN` filter (`FilterIn`), sums.
- `Sorting`: sorting under a total preorder.
- `Text`: string order, join and split, integer text.
- `Tables`: the database's rows.
- `Batching`: chunking, the `IN` list and the batched query loop.
- `Manufacturing`, `Sales`, `CostRollup`: the three queries of the checker script.
- `PartData`: the part-data query of the database module.
- `PartNumbers`: the de-duplication.
- `Summary`: the part summary.

Points where the code does something a reader might not expect; the model follows the code:

- The cost query's comment says it excludes the lowest and highest cost jobs (Scripts/part_history_checker.py:351). Ranks 2 to 9 drop the dearest job only in a full sample of ten. A sample of two to nine jobs keeps its dearest job; a sample of two keeps exactly that one. See `CostRollup.TrimRanks`.
- The sales query joins every SORELS release of a line item, so an item with several releases gives several rows (`Sales.JoinedMember`, `Sales.QueryCount`).
- The part-data query has no `ORDER BY`. The model returns its rows in INMAST order.
- The manufacturing query compares the release date with `>=` the cutoff, the cost query with `>`. A date is a point in time, so the two differ only for a job released at the cutoff instant itself.

## Model

| member | source | states |
|---|---|---|
| Text.IntText | Scripts/part_history_checker.py:416-422 | `str` of an int, as the f-strings print `ordered_qty`, `job_count` and `sales_count`: no tab or line break, digits for a non-negative int and `-` then digits for a negative one, with no leading zero except for 0 itself |
| Text.IntTextValue | Scripts/part_history_checker.py:416-422 | that text reads back as the int: its digits denote the int's absolute value |
| Text.Truncate | Scripts/part_history_checker.py:412 | `int(x)` truncates toward zero: the largest int at most x when x ≥ 0, the smallest int at least x when x < 0 |
| Batching.Chunk | Scripts/part_history_checker.py:133-148 | the loop yields exactly the slices `s[i:i+size]` for i = 0, size, 2·size, … (the function `Chunks`) |
| Batching.ChunksFlatten | src/database.py:37-48 | concatenating the chunks gives back the list: nothing is lost, duplicated or reordered |
| Batching.ChunksCount | Scripts/part_history_checker.py:147-148 | there are no chunks exactly when the list is empty; otherwise ceil(n / size) chunks |
| Batching.ChunksSizes | Scripts/part_history_checker.py:147-148 | every chunk is non-empty and holds at most `size` part numbers; all but the last hold exactly `size` |
| Batching.ChunksSlice | Scripts/part_history_checker.py:147-148 | chunk k is the slice from k·size to k·size + size, clamped at the end of the list |
| Batching.ChunkAt | Scripts/part_history_checker.py:148 | the same for a single chunk index k |
| Batching.ChunksSingle | Scripts/part_history_checker.py:147-148 | a one-element list is one chunk |
| Batching.InListRoundTrip | Scripts/part_history_checker.py:175 | for a chunk with no single quote in any part number, the database reads back exactly those part numbers, in order |
| Batching.ParsedQuotes | src/database.py:68 | an `IN` list that SQL Server reads as n part numbers holding q quotes in all holds 2q + 2n quotes: a quote inside a literal is written doubled (`''`), and every literal has its two delimiters |
| Batching.InListQuotes | src/database.py:68 | the text the code builds holds each part number's quotes once, undoubled, plus two delimiters per part number |
| Batching.UnescapedQuote | src/database.py:68 | when any part number of a chunk holds a quote (`O'B`), the database does not read back the chunk's part numbers |
| Batching.DoubledQuote | src/database.py:68 | SQL Server reads the literal `'O''B'` as the part number `O'B`; the code would have to write that doubled quote and does not |
| Batching.QuoteBreaksQuery | src/database.py:68 | the part number `O'B` gives the list `'O'B'`, which SQL Server cannot read, so the chunk's query fails |
| Batching.QuoteSelectsOthers | Scripts/part_history_checker.py:175 | the part number `a','b` gives the list `'a','b'`, which SQL Server reads as the two other part numbers `a` and `b` |
| Batching.BatchedQuery | Scripts/part_history_checker.py:167-214 | an empty list issues no query and returns no rows; otherwise there is one query per chunk with that chunk's `IN` list, and the results are concatenated in chunk order |
| Batching.BatchedSingle | Scripts/part_history_checker.py:387 | a one-part list runs one query, on that part alone |
| Batching.BatchedMember | src/database.py:67-115 | for a query that keeps the rows whose part is in the chunk, the batched rows are exactly those of one query over the whole list |
| Batching.BatchedMultiset | src/database.py:67-115 | for a duplicate-free list, each such row occurs as often as in one query |
| Manufacturing.UnitCost | Scripts/part_history_checker.py:195-199 | UnitCost is NULL exactly when the quantity is 0 or the job has no cost row; otherwise UnitCost × quantity = the sum of the six costs |
| Manufacturing.UnitCostRule | Scripts/part_history_checker.py:193-201 | a row's TotalCost and UnitCost from its JOPACT row, or NULL without one |
| Manufacturing.RowBeforeTotal | Scripts/part_history_checker.py:205 | `ORDER BY fpartno, fact_rel DESC` is a total preorder |
| Manufacturing.QuerySpec | Scripts/part_history_checker.py:178-205 | the rows are exactly the jobs of the chunk's parts released on or after the cutoff and CLOSED or RELEASED, one per job, sorted by part and then by newest release |
| Manufacturing.QueryCount | Scripts/part_history_checker.py:200-204 | the chunk's query returns one row per JOMAST row of a requested part released on or after the cutoff and CLOSED or RELEASED |
| Manufacturing.BatchedMember | Scripts/part_history_checker.py:173-214 | the batched rows are the rows of one query over the whole list |
| Manufacturing.BatchedMultiset | Scripts/part_history_checker.py:173-214 | for a duplicate-free list, each row occurs as often |
| Manufacturing.QueryManufacturingHistory | Scripts/part_history_checker.py:150-217 | no rows for an empty list; otherwise the concatenated chunk results, with the same rows as one query (with multiplicity when the list is duplicate-free) |
| Sales.UnitPrice | Scripts/part_history_checker.py:255 | UnitPrice is 0 for quantity 0 and NULL for a NULL quantity; otherwise UnitPrice × quantity = the net price |
| Sales.ZeroQuantityPrice | Scripts/part_history_checker.py:255 | a line item of quantity 0 is priced 0 |
| Sales.ReleaseRowsMember | Scripts/part_history_checker.py:260 | the rows of one order and line item are exactly the releases that match both on FSONO and the item on FENUMBER |
| Sales.ItemRowsMember | Scripts/part_history_checker.py:259-260 | the rows of one order are exactly its joined (item, release) pairs |
| Sales.JoinedOrders | Scripts/part_history_checker.py:258-260 | a joined row comes from some order's rows |
| Sales.ReleaseCount | Scripts/part_history_checker.py:260 | after any row filter, one item's rows number the releases that match it and pass the filter |
| Sales.ItemCount | Scripts/part_history_checker.py:259-260 | after any row filter, one order's rows number its matching (item, release) pairs that pass the filter |
| Sales.JoinedCount | Scripts/part_history_checker.py:258-260 | after any row filter, the join's rows number the matching (order, item, release) triples that pass the filter |
| Sales.JoinedSize | Scripts/part_history_checker.py:258-260 | the join has one row per (order, item, release) triple that the ON conditions pair up |
| Sales.JoinedMember | Scripts/part_history_checker.py:258-260 | the two inner joins yield exactly the rows of the (order, item, release) triples the ON conditions pair up, one row per triple |
| Sales.QueryCount | Scripts/part_history_checker.py:258-262 | the query returns one row per matching (order, item, release) triple whose item is of a requested part and whose order is dated on or after the cutoff; these rows are what `len(sales_df)` counts (line 396) |
| Sales.RowBeforeTotal | Scripts/part_history_checker.py:263 | `ORDER BY FPARTNO, FORDERDATE DESC` is a total preorder |
| Sales.QuerySpec | Scripts/part_history_checker.py:247-263 | the rows are exactly the joined triples of the chunk's parts dated on or after the cutoff, sorted by part and then by newest order; each row has an order date and an order number |
| Sales.BatchedMember | Scripts/part_history_checker.py:242-272 | the batched rows are the rows of one query over the whole list |
| Sales.BatchedMultiset | Scripts/part_history_checker.py:242-272 | for a duplicate-free list, each row occurs as often |
| Sales.QuerySalesHistory | Scripts/part_history_checker.py:219-275 | no rows for an empty list; otherwise the rows of one query, as for the manufacturing history |
| CostRollup.SamplesMember | Scripts/part_history_checker.py:334-347 | the costed jobs are exactly those CLOSED with nonzero quantity, released after the cutoff and having a JOPACT row, each with unit cost = total cost / quantity |
| CostRollup.RecentSpec | Scripts/part_history_checker.py:338-349 | the recent sample holds min(10, n) jobs of the part, and no job left out was released later than a job kept |
| CostRollup.RankedSpec | Scripts/part_history_checker.py:328-333 | the recent jobs ranked by unit cost: the same jobs, sorted cheapest first |
| CostRollup.TrimRanks | Scripts/part_history_checker.py:351 | ranks 2 to 9 drop the cheapest job and, in a full sample of 10, the dearest; a sample of 0 or 1 keeps nothing, and one of 2 to 9 jobs keeps its dearest |
| CostRollup.MeanSpec | Scripts/part_history_checker.py:318 | AVG lies between the smallest and the largest unit cost of its group, and AVG × count = the sum |
| CostRollup.RollupSpec | Scripts/part_history_checker.py:317-352 | a (part, revision) has an average exactly when some kept job has that revision; the average is the mean of those jobs, and JobCount is their number, from 1 to 8 |
| CostRollup.SingleJobNoAverage | Scripts/part_history_checker.py:349-351 | a part with at most one costed job has no average for any revision |
| CostRollup.RowBeforeTotal | Scripts/part_history_checker.py:356 | `ORDER BY m.fpartno` is a total preorder |
| CostRollup.QuerySpec | Scripts/part_history_checker.py:307-356 | one row per INMAST row of the chunk's parts, sorted by part; Average_Cost and JobCount are NULL together; JobCount lies between 1 and 8 |
| CostRollup.QueryCount | Scripts/part_history_checker.py:352-355 | the chunk's query returns one row per INMAST row of a requested part |
| CostRollup.BatchedMember | Scripts/part_history_checker.py:301-365 | the batched rows are the rows of one query over the whole list |
| CostRollup.BatchedMultiset | Scripts/part_history_checker.py:301-365 | for a duplicate-free list, each row occurs as often |
| CostRollup.QueryAverageCost | Scripts/part_history_checker.py:277-368 | no rows for an empty list; otherwise the rows of one query |
| PartData.LatestSoSpec | src/database.py:73-83 | a part has a latest sales-order line exactly when it has SOITEM rows; that line is one of them, and no line of the part has a greater FSONO |
| PartData.LatestSoChunk | src/database.py:80-82 | restricting SOITEM to the chunk's parts does not change any requested part's latest line |
| PartData.QueryRestricts | src/database.py:72-101 | the chunk's query is the whole-table join restricted to the chunk's parts |
| PartData.QueryRestrictsFrom | src/database.py:99-101 | the same, for any inventory and item lists |
| PartData.QuerySpec | src/database.py:84-101 | one row per INMAST row of a requested part, carrying the part's latest line; the line is NULL exactly when the part was never ordered |
| PartData.RunRestricts | src/database.py:67-106 | every chunk query returns the whole-table rows of its parts |
| PartData.BatchedMember | src/database.py:67-112 | the batched rows are the rows of one query over the whole list |
| PartData.BatchedMultiset | src/database.py:67-112 | for a duplicate-free list, each row occurs as often |
| PartData.QueryPartData | src/database.py:50-122 | no rows for an empty list; otherwise the rows of one query |
| PartNumbers.UniqueMember | Scripts/part_history_checker.py:129 | a part number is listed exactly when some non-empty cell holds it |
| PartNumbers.UniqueDistinct | Scripts/part_history_checker.py:129 | no part number is listed twice |
| PartNumbers.UniqueFirstAppearance | Scripts/part_history_checker.py:129 | part numbers are listed in the order of their first appearance |
| Summary.NewerOrSameTotal | Scripts/part_history_checker.py:402 | the sort by OrderDate, newest first, is a total preorder |
| Summary.RecentSalesSpec | Scripts/part_history_checker.py:400-404 | the recent sales are min(5, n) of the sales, newest first, and no sale left out is newer than one shown |
| Summary.JoinClean | Scripts/part_history_checker.py:416 | joining columns without line breaks gives one line |
| Summary.JoinColumns | Scripts/part_history_checker.py:416 | the f-string's runs of tabs separate seven columns, three of them empty |
| Summary.SalesLineShape | Scripts/part_history_checker.py:416 | a sales line is its seven columns joined by tabs, plus a line break |
| Summary.SalesLineFields | Scripts/part_history_checker.py:410-416 | a sales line is one line whose tab-separated columns are date, quantity, empty, order, empty, empty, price, with `N/A` or `0` for a missing value |
| Summary.BodyColumns | Scripts/part_history_checker.py:411-416 | a line's text has no line break and splits into its sale's columns |
| Summary.BodiesColumns | Scripts/part_history_checker.py:410-416 | every line's text splits into its sale's columns |
| Summary.LinesSplit | Scripts/part_history_checker.py:410-416 | the lines split at line breaks into the line texts, then an empty piece |
| Summary.HeaderLine | Scripts/part_history_checker.py:407 | the header is one line |
| Summary.TableSplit | Scripts/part_history_checker.py:407-416 | a one-line header over the lines gives rows + 2 pieces: the header, one per row, and a final empty one |
| Summary.SalesTableSpec | Scripts/part_history_checker.py:399-416 | the table is empty exactly when there are no sales; otherwise it is the header line and min(5, n) lines, each holding its sale's columns |
| Summary.BuildSalesHistory | Scripts/part_history_checker.py:399-416 | the `+=` loop builds exactly that table |
| Summary.AverageCostSource | Scripts/part_history_checker.py:390-392 | whatever order the cost rows come in: avg cost is 0 when none of the part's revisions has a trimmed average; a nonzero avg cost is one revision's trimmed average |
| Summary.GeneratePartSummary | Scripts/part_history_checker.py:370-425 | the summary reports the part, the number of manufacturing rows, the avg cost and the number of sales rows of the one-part queries, then the sales table |

## Left out

- Connecting to the database, `pd.read_sql`, the progress bar and logging are left out. The database is a value, and each query is a function of it.
- Reading the CSV is left out. The part-number column is given as a list of cells, with None for an empty cell (pandas NaN). The missing-file and missing-column errors are not modelled.
- The `main` script, its arguments, and how results are merged and written to files are not part of this model.
- The cutoff date is a parameter. It stands for `DATEADD(YEAR, -5, GETDATE())`, since there is no clock in the model.
- The text of dates, prices and the two-decimal cost comes from formatter parameters (`Summary.Formats`). They stand for `strftime`, Python's float `str` and `:.2f`. The lemmas about the table's lines require that their output holds no tab or line break. They also require that no sales-order number holds a tab or line break (`Summary.CleanOrder`).
- Numbers are exact reals. SQL decimal and float rounding is not modelled.
- `Manufacturing.QuerySpec`, `Sales.QuerySpec`, `CostRollup.QuerySpec`: the order among tied rows is not fixed. The contract states only sorted plus permutation, because the database and pandas do not guarantee one.
- `Manufacturing.QueryManufacturingHistory`, `Sales.QuerySalesHistory`, `CostRollup.QueryAverageCost`, `PartData.QueryPartData`: the contract fixes one order among tied rows, the one the model's insertion sort (or INMAST order, for the part data) gives. The database may return tied rows in any order. Only the membership and multiplicity clauses hold for every order.
- `Summary.GeneratePartSummary`: the contract fixes two outcomes the source leaves open. The avg cost is the average of the part's first INMAST revision, since the cost query sorts only by part number (line 356) and `iloc[0]` takes whichever revision comes first (line 392). Sales with the same order date appear in the query's order, though `sort_values` is not stable (line 402). `Summary.AverageCostSource` is stated for the cost rows in every order.
- `Summary.GeneratePartSummary`: the three queries share one cutoff instant. The source evaluates `GETDATE()` in each query, moments apart.
- `CostRollup.RankedSpec`: `ROW_NUMBER()` among jobs of equal release date or equal unit cost is not fixed either. Any order the sort gives is allowed.
- `PartData.LatestSo`: among SOITEM rows with equal FSONO, the model takes the first in table order. The database may pick any of them.
- The part-data query's row order is left out. It has no `ORDER BY`, so the model keeps INMAST order.
- Collation is left out. SQL Server compares strings under the column collation, which ignores trailing spaces and may ignore case; the model compares by exact equality and character codes. This applies to part numbers (the `IN` tests and the joins on part number), to the FSONO order that picks the latest sales order (`PartData.LatestSo`, through `Text.StrLt`), and to the FSONO and FENUMBER equality joins of the sales query (`Sales.Joins`). The status filter `fstatus='closed'` is taken case-insensitively (the `Closed` status).
- Data assumptions are not modelled. `Status.OtherStatus` is taken to name a status other than CLOSED or RELEASED, in any case. `fact_rel`, `FNETPRICE`, JOMAST `fquantity` and the six JOPACT cost components are never NULL. With a NULL `fquantity`, the cost query's `m.fquantity<>0` (line 346) would be unknown and drop the job, and the manufacturing UnitCost (lines 196-198) would be NULL; `Tables.Job.quantity` is a `real`. JOMAST job numbers are unique: with a repeated job number, the cost query's `tmp_filtered.fjobno=m.fjobno` join (line 348) would multiply rows, and `CostRollup.Samples` does not.
- JOPACT is a map with at most one cost row per job. Several cost rows per job would duplicate manufacturing rows.
- The code does not escape quotes in part numbers, so the text of a part number becomes SQL. `Batching.ParseInList` reads a text as a plain list of literals, with T-SQL's literal syntax, doubled quotes included; `None` means only that the text is not such a list, not that SQL Server rejects it. A part number holding a `'` is not read back (`Batching.UnescapedQuote`). The query may then fail (`Batching.QuoteBreaksQuery`), select other part numbers (`Batching.QuoteSelectsOthers`), or run the rest of the part number as more SQL: `x') OR ('1'='1` turns the `IN` test into one that every row in the window passes, and other text can reach past the date or status filter. None of that is modelled. The query functions (`*.Query`) take the chunk itself rather than what SQL Server makes of the text, so they do not show this. Their lemmas hold for quote-free part numbers, which `Batching.InListRoundTrip` reads back unchanged.
- `chunk` with size 0 is left out. Python raises on a zero range step, and every caller uses 1000, so `Chunks` requires `size > 0`.
- pandas type coercion is left out: integer quantities read as floats, and NaN is modelled as None.
- Revenue, margin and risk reporting are not part of this model. No modelled file computes them.
