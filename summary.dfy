/**
  `generate_part_summary`: the text block for one part, built from the three
  batched queries run on that part alone: how many jobs were built, the
  trimmed average cost, and a tab-separated table of the five most recent
  sales. Rendering a date, a price and a two-decimal cost is left to the
  formatters in `Formats`.
*/
module Summary {
  import opened Sequences
  import opened Sorting
  import opened Text
  import opened Tables
  import opened Batching
  import Manufacturing
  import Sales
  import CostRollup

  /** `sales_df.head(5)` */
  const RECENT_SALES: nat := 5

  /** The column names of the sales table. */
  const HEADER_LINE: string := "OrderDate" + "\t" + "OrderedQty" + "\t" + "SalesOrderNumber" + "\t" + "UnitPrice"

  /** The sales table's first line. */
  const HEADER: string := HEADER_LINE + "\n"

  /**
    How values become text: `strftime('%m/%d/%Y')` for a date, Python's `str`
    of a unit price, and `:.2f` for the average cost.
  */
  datatype Formats = Formats(date: Date -> string, price: real -> string, cost: real -> string)

  /** No tab and no line break. */
  predicate Clean(t: string) {
    '\t' !in t && '\n' !in t
  }

  /** Formatters whose output never holds a tab or a line break. */
  ghost predicate CleanFormats(fmt: Formats) {
    && (forall d :: Clean(fmt.date(d)))
    && (forall x :: Clean(fmt.price(x)))
    && (forall x :: Clean(fmt.cost(x)))
  }

  /**
    `avg_cost`: the first cost row's Average_Cost, or 0 when there are no cost
    rows or every Average_Cost is NULL. None stands for a NULL first value
    while a later row has one (pandas NaN).
  */
  function AverageCostOf(costs: seq<CostRollup.CostRow>): Option<real> {
    if costs == [] || forall k :: 0 <= k < |costs| ==> costs[k].averageCost.None? then Some(0.0)
    else costs[0].averageCost
  }

  /** `f"{avg_cost:.2f}"`; NaN prints as `nan`. */
  function AverageCostText(avg: Option<real>, fmt: Formats): string {
    match avg
    case None => "nan"
    case Some(v) => fmt.cost(v)
  }

  /** `sort_values('OrderDate', ascending=False)`: newest first, missing dates last. */
  predicate NewerOrSame(a: Sales.SalesRow, b: Sales.SalesRow) {
    Sales.LaterOrSame(a.orderDate, b.orderDate)
  }

  function ByOrderDate(sales: seq<Sales.SalesRow>): seq<Sales.SalesRow> {
    SortBy(sales, NewerOrSame)
  }

  /** `recent_sales = sales_df.sort_values(...).head(5)` */
  function RecentSales(sales: seq<Sales.SalesRow>): seq<Sales.SalesRow> {
    var byDate := ByOrderDate(sales);
    byDate[..Min(RECENT_SALES, |byDate|)]
  }

  /** The sales after the first five. */
  function OlderSales(sales: seq<Sales.SalesRow>): seq<Sales.SalesRow> {
    var byDate := ByOrderDate(sales);
    byDate[Min(RECENT_SALES, |byDate|)..]
  }

  function DateText(d: Option<Date>, fmt: Formats): string {
    match d
    case None => "N/A"
    case Some(x) => fmt.date(x)
  }

  /** `int(row['OrderedQty'])`, truncating toward zero, or 0. */
  function QuantityText(q: Option<real>): string {
    match q
    case None => "0"
    case Some(x) => IntText(Truncate(x))
  }

  function OrderText(so: Option<string>): string {
    match so
    case None => "N/A"
    case Some(s) => s
  }

  function PriceText(p: Option<real>, fmt: Formats): string {
    match p
    case None => "0"
    case Some(x) => fmt.price(x)
  }

  /** `f"{order_date}\t{ordered_qty}\t\t{sales_order}\t\t\t{unit_price}\n"` */
  function SalesLine(row: Sales.SalesRow, fmt: Formats): string {
    DateText(row.orderDate, fmt) + "\t" + QuantityText(row.orderedQty) + "\t\t" + OrderText(row.soNumber)
      + "\t\t\t" + PriceText(row.unitPrice, fmt) + "\n"
  }

  /** The tab-separated columns of a sales line: date, quantity, sales order and price, with empty columns between. */
  function LineFields(row: Sales.SalesRow, fmt: Formats): seq<string> {
    [DateText(row.orderDate, fmt), QuantityText(row.orderedQty), "", OrderText(row.soNumber), "", "", PriceText(row.unitPrice, fmt)]
  }

  function Lines(rows: seq<Sales.SalesRow>, fmt: Formats): string {
    if rows == [] then "" else SalesLine(rows[0], fmt) + Lines(rows[1..], fmt)
  }

  /** `sales_history`: empty without sales, otherwise the header and one line per recent sale. */
  function SalesTable(sales: seq<Sales.SalesRow>, fmt: Formats): string {
    if sales == [] then "" else HEADER + Lines(RecentSales(sales), fmt)
  }

  /** The imperative `sales_history +=` loop over the recent sales. */
  method BuildSalesHistory(sales: seq<Sales.SalesRow>, fmt: Formats) returns (history: string)
    ensures history == SalesTable(sales, fmt)
  {
    history := "";
    if sales != [] {
      var recent := RecentSales(sales);
      ghost var table := HEADER + Lines(recent, fmt);
      history := HEADER;
      var k := 0;
      assert recent[0..] == recent;
      while k < |recent|
        invariant 0 <= k <= |recent|
        invariant history + Lines(recent[k..], fmt) == table
      {
        var line := SalesLine(recent[k], fmt);
        LinesFrom(recent, k, fmt);
        AppendAssoc(history, line, Lines(recent[k + 1..], fmt));
        history := history + line;
        k := k + 1;
      }
      assert recent[k..] == [];
    }
  }

  lemma AppendAssoc(a: string, b: string, c: string)
    ensures (a + b) + c == a + (b + c)
  {
  }

  lemma LinesFrom(rows: seq<Sales.SalesRow>, k: nat, fmt: Formats)
    requires k < |rows|
    ensures Lines(rows[k..], fmt) == SalesLine(rows[k], fmt) + Lines(rows[k + 1..], fmt)
  {
    assert rows[k..][1..] == rows[k + 1..];
  }

  /** The summary text of `generate_part_summary`. */
  function SummaryText(
    p: string, jobCount: nat, avg: Option<real>, salesCount: nat, history: string, fmt: Formats): string
  {
    "\nPart # " + p
      + "\nAthena has built this part " + IntText(jobCount) + " times in the past 5 years for an avg cost of $"
      + AverageCostText(avg, fmt)
      + "\nthe previous 5 sales orders (out of " + IntText(salesCount) + " total SOs) were:\n"
      + history + "\n"
  }

  lemma NewerOrSameTotal()
    ensures TotalPreorder(NewerOrSame)
  {
  }

  /**
    The recent sales are at most five of the sales, newest first, and no
    sale left out is newer than one shown.
  */
  lemma RecentSalesSpec(sales: seq<Sales.SalesRow>)
    ensures |RecentSales(sales)| == Min(RECENT_SALES, |sales|)
    ensures Sorted(RecentSales(sales), NewerOrSame)
    ensures multiset(RecentSales(sales)) + multiset(OlderSales(sales)) == multiset(sales)
    ensures forall x, y :: x in RecentSales(sales) && y in OlderSales(sales) ==>
      Sales.LaterOrSame(x.orderDate, y.orderDate)
  {
    var byDate := ByOrderDate(sales);
    NewerOrSameTotal();
    SortBySpec(sales, NewerOrSame);
    SortedSplit(byDate, NewerOrSame, Min(RECENT_SALES, |byDate|));
  }

  lemma {:induction false} JoinClean(fields: seq<string>, sep: char)
    requires sep != '\n'
    requires forall k :: 0 <= k < |fields| ==> '\n' !in fields[k]
    ensures '\n' !in Join(fields, sep)
  {
    if |fields| > 1 {
      JoinClean(fields[1..], sep);
    }
  }

  lemma SalesLineShape(row: Sales.SalesRow, fmt: Formats)
    ensures SalesLine(row, fmt) == Join(LineFields(row, fmt), '\t') + "\n"
  {
    JoinColumns(DateText(row.orderDate, fmt), QuantityText(row.orderedQty), OrderText(row.soNumber),
      PriceText(row.unitPrice, fmt));
  }

  /** The f-string's tab runs are the column separators of seven columns, three of them empty. */
  lemma JoinColumns(date: string, qty: string, so: string, price: string)
    ensures Join([date, qty, "", so, "", "", price], '\t') == date + "\t" + qty + "\t\t" + so + "\t\t\t" + price
  {
    var f := [date, qty, "", so, "", "", price];
    assert f[5..][1..] == f[6..];
    assert f[4..][1..] == f[5..];
    assert f[3..][1..] == f[4..];
    assert f[2..][1..] == f[3..];
    assert f[1..][1..] == f[2..];
    assert Join(f[5..], '\t') == "\t" + price;
    assert Join(f[4..], '\t') == "\t\t" + price;
    assert Join(f[3..], '\t') == so + "\t\t\t" + price;
    assert Join(f[2..], '\t') == "\t" + so + "\t\t\t" + price;
    assert Join(f[1..], '\t') == qty + "\t\t" + so + "\t\t\t" + price;
  }

  /** A sales order number that keeps a line intact. */
  predicate CleanOrder(row: Sales.SalesRow) {
    row.soNumber.Some? ==> Clean(row.soNumber.value)
  }

  /**
    A sales line is one line of seven tab-separated columns: date, quantity,
    an empty column, the sales order, two empty columns and the price, with
    `N/A` or `0` where a value is missing.
  */
  lemma SalesLineFields(row: Sales.SalesRow, fmt: Formats)
    requires CleanFormats(fmt) && CleanOrder(row)
    ensures var line := SalesLine(row, fmt);
      && line[|line| - 1] == '\n'
      && '\n' !in line[..|line| - 1]
      && Split(line[..|line| - 1], '\t') ==
         [DateText(row.orderDate, fmt), QuantityText(row.orderedQty), "", OrderText(row.soNumber), "", "",
          PriceText(row.unitPrice, fmt)]
  {
    SalesLineShape(row, fmt);
    BodyColumns(row, fmt);
    var body := Join(LineFields(row, fmt), '\t');
    assert SalesLine(row, fmt)[..|SalesLine(row, fmt)| - 1] == body;
  }

  /** The text of each sales line without its line break. */
  function Bodies(rows: seq<Sales.SalesRow>, fmt: Formats): (r: seq<string>)
    ensures |r| == |rows|
  {
    if rows == [] then [] else [Join(LineFields(rows[0], fmt), '\t')] + Bodies(rows[1..], fmt)
  }

  /** A line's text splits at its tabs into the row's columns. */
  lemma BodyColumns(row: Sales.SalesRow, fmt: Formats)
    requires CleanFormats(fmt) && CleanOrder(row)
    ensures '\n' !in Join(LineFields(row, fmt), '\t')
    ensures Split(Join(LineFields(row, fmt), '\t'), '\t') == LineFields(row, fmt)
  {
    var f := LineFields(row, fmt);
    forall k | 0 <= k < |f| ensures '\t' !in f[k] && '\n' !in f[k] {
    }
    JoinClean(f, '\t');
    SplitJoin(f, '\t');
  }

  /** Every line's text splits into its row's columns. */
  lemma {:induction false} BodiesColumns(rows: seq<Sales.SalesRow>, fmt: Formats)
    requires CleanFormats(fmt)
    requires forall k :: 0 <= k < |rows| ==> CleanOrder(rows[k])
    ensures forall k :: 0 <= k < |rows| ==> Split(Bodies(rows, fmt)[k], '\t') == LineFields(rows[k], fmt)
  {
    if rows != [] {
      BodiesColumns(rows[1..], fmt);
      BodyColumns(rows[0], fmt);
      forall k | 1 <= k < |rows| ensures Split(Bodies(rows, fmt)[k], '\t') == LineFields(rows[k], fmt) {
        assert rows[k] == rows[1..][k - 1];
        assert Bodies(rows, fmt)[k] == Bodies(rows[1..], fmt)[k - 1];
      }
    }
  }

  /** The lines of a run of sales lines are the line texts, then an empty piece after the last break. */
  lemma {:induction false} LinesSplit(rows: seq<Sales.SalesRow>, fmt: Formats)
    requires CleanFormats(fmt)
    requires forall k :: 0 <= k < |rows| ==> CleanOrder(rows[k])
    ensures Split(Lines(rows, fmt), '\n') == Bodies(rows, fmt) + [""]
  {
    if rows == [] {
      SplitNoSep("", '\n');
    } else {
      var body := Join(LineFields(rows[0], fmt), '\t');
      var rest := Lines(rows[1..], fmt);
      LinesSplit(rows[1..], fmt);
      BodyColumns(rows[0], fmt);
      SalesLineShape(rows[0], fmt);
      SplitAfterField(body, rest, '\n');
      assert Lines(rows, fmt) == body + ['\n'] + rest;
    }
  }

  lemma HeaderLine()
    ensures '\n' !in HEADER_LINE
  {
    assert '\n' !in "OrderDate" && '\n' !in "OrderedQty";
    assert '\n' !in "SalesOrderNumber" && '\n' !in "UnitPrice";
  }

  /** A one-line header and the lines under it, for any rows. */
  lemma TableSplit(head: string, rows: seq<Sales.SalesRow>, fmt: Formats)
    requires '\n' !in head
    requires CleanFormats(fmt)
    requires forall k :: 0 <= k < |rows| ==> CleanOrder(rows[k])
    ensures var table := Split(head + "\n" + Lines(rows, fmt), '\n');
      && |table| == |rows| + 2
      && table[0] == head
      && table[|table| - 1] == ""
      && forall k :: 0 <= k < |rows| ==> Split(table[k + 1], '\t') == LineFields(rows[k], fmt)
  {
    var lines := Lines(rows, fmt);
    var bodies := Bodies(rows, fmt);
    LinesSplit(rows, fmt);
    BodiesColumns(rows, fmt);
    SplitAfterField(head, lines, '\n');
    assert head + "\n" + lines == head + ['\n'] + lines;
    var table := [head] + (bodies + [""]);
    assert Split(head + "\n" + lines, '\n') == table;
    forall k | 0 <= k < |rows| ensures Split(table[k + 1], '\t') == LineFields(rows[k], fmt) {
      assert table[k + 1] == bodies[k];
    }
  }

  /**
    The sales table is empty exactly when there are no sales; otherwise it is
    the header line and one line per recent sale (at most five, newest
    first), each with that sale's columns.
  */
  lemma SalesTableSpec(sales: seq<Sales.SalesRow>, fmt: Formats)
    requires CleanFormats(fmt)
    requires forall k :: 0 <= k < |sales| ==> CleanOrder(sales[k])
    ensures SalesTable(sales, fmt) == "" <==> sales == []
    ensures |RecentSales(sales)| == Min(RECENT_SALES, |sales|)
    ensures sales != [] ==>
      var table := Split(SalesTable(sales, fmt), '\n');
      && |table| == Min(RECENT_SALES, |sales|) + 2
      && table[0] == HEADER_LINE
      && table[|table| - 1] == ""
      && forall k :: 0 <= k < |RecentSales(sales)| ==>
           Split(table[k + 1], '\t') == LineFields(RecentSales(sales)[k], fmt)
  {
    RecentSalesSpec(sales);
    if sales != [] {
      var recent := RecentSales(sales);
      forall k | 0 <= k < |recent| ensures CleanOrder(recent[k]) {
        assert recent[k] in multiset(sales);
      }
      HeaderLine();
      TableSplit(HEADER_LINE, recent, fmt);
    }
  }

  /**
    The printed average cost, for the cost rows in any order the database may
    return them: 0 when the part has no rollup for any of its revisions;
    otherwise either 0 (no cost rows at all), NaN (the first revision has
    none while another has one), or one of the part's per-revision trimmed
    averages.
  */
  lemma AverageCostSource(db: Database, p: string, cutoff: Date, costs: seq<CostRollup.CostRow>)
    requires multiset(costs) == multiset(CostRollup.Query(db, [p], cutoff))
    ensures var samples := CostRollup.Samples(db.jobs, db.jobCosts, cutoff);
      (forall k :: 0 <= k < |db.inventory| && db.inventory[k].partNo == p ==>
         CostRollup.RollupOf(samples, p, db.inventory[k].rev).None?)
      ==> AverageCostOf(costs) == Some(0.0)
    ensures var samples := CostRollup.Samples(db.jobs, db.jobCosts, cutoff);
      var avg := AverageCostOf(costs);
      avg.Some? && avg.value != 0.0 ==>
        exists k :: 0 <= k < |db.inventory| && db.inventory[k].partNo == p &&
          CostRollup.RollupOf(samples, p, db.inventory[k].rev).Some? &&
          CostRollup.RollupOf(samples, p, db.inventory[k].rev).value.averageCost == avg.value
  {
    var samples := CostRollup.Samples(db.jobs, db.jobCosts, cutoff);
    if costs != [] {
      forall x | x in costs
        ensures exists k :: (0 <= k < |db.inventory| && db.inventory[k].partNo == p &&
          x == CostRollup.RowOf(db.inventory[k], samples))
      {
        assert x in multiset(CostRollup.Query(db, [p], cutoff));
        CostRollup.QuerySpec(db, [p], cutoff, x);
      }
      if forall k :: 0 <= k < |db.inventory| && db.inventory[k].partNo == p ==>
          CostRollup.RollupOf(samples, p, db.inventory[k].rev).None? {
        forall j | 0 <= j < |costs| ensures costs[j].averageCost.None? {
          assert costs[j] in costs;
        }
      }
      assert costs[0] in costs;
    }
  }

  /**
    `generate_part_summary(engine, part_number)`: the three queries run on
    the one part; the job count and sales count are their row counts.
  */
  method GeneratePartSummary(db: Database, p: string, cutoff: Date, fmt: Formats) returns (summary: string)
    ensures summary == SummaryText(
      p,
      |Manufacturing.Query(db, [p], cutoff)|,
      AverageCostOf(CostRollup.Query(db, [p], cutoff)),
      |Sales.Query(db, [p], cutoff)|,
      SalesTable(Sales.Query(db, [p], cutoff), fmt),
      fmt)
  {
    var manu := Manufacturing.QueryManufacturingHistory(db, [p], cutoff);
    BatchedSingle(p, Manufacturing.Run(db, cutoff));
    var jobCount := |manu|;

    var costs := CostRollup.QueryAverageCost(db, [p], cutoff);
    BatchedSingle(p, CostRollup.Run(db, cutoff));
    var avgCost := AverageCostOf(costs);

    var sales := Sales.QuerySalesHistory(db, [p], cutoff);
    BatchedSingle(p, Sales.Run(db, cutoff));
    var salesCount := |sales|;

    var history := BuildSalesHistory(sales, fmt);
    summary := SummaryText(p, jobCount, avgCost, salesCount, history, fmt);
  }
}
