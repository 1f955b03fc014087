/**
  `query_part_manufacturing_history`: the jobs of the requested parts released
  on or after the cutoff date with status CLOSED or RELEASED, each joined
  (LEFT JOIN) with its actual costs, ordered by part number and then by
  release date, most recent first.
*/
module Manufacturing {
  import opened Sequences
  import opened Sorting
  import opened Text
  import opened Tables
  import opened Batching

  /** One row of the query's result. */
  datatype ManufacturingRow = ManufacturingRow(
    jobNo: string,
    partNo: string,
    revision: string,
    dueDate: Date,
    quantity: real,
    customer: string,
    status: Status,
    releaseDate: Date,
    costs: Option<JobCosts>,     // Labor .. Other; all NULL when the job has no JOPACT row
    totalCost: Option<real>,     // TotalCost
    unitCost: Option<real>)      // UnitCost

  /**
    `CASE WHEN fquantity=0 THEN NULL ELSE (sum of costs)/fquantity END`; the
    sum is NULL when the LEFT JOIN found no cost row.
  */
  function UnitCost(quantity: real, costs: Option<JobCosts>): (r: Option<real>)
    ensures r.None? <==> quantity == 0.0 || costs.None?
    ensures r.Some? ==> r.value * quantity == TotalCost(costs.value)
  {
    if quantity == 0.0 then None
    else match costs
      case None => None
      case Some(c) => Some(TotalCost(c) / quantity)
  }

  /** A JOMAST row joined with its JOPACT row, if any. */
  function RowOf(j: Job, jobCosts: map<string, JobCosts>): ManufacturingRow {
    var costs := if j.jobNo in jobCosts then Some(jobCosts[j.jobNo]) else None;
    ManufacturingRow(
      j.jobNo, j.partNo, j.partRev, j.dueDate, j.quantity, j.customer, j.status, j.releaseDate,
      costs,
      if costs.Some? then Some(TotalCost(costs.value)) else None,
      UnitCost(j.quantity, costs))
  }

  /** `fact_rel >= DATEADD(YEAR, -5, GETDATE()) AND fstatus IN ('CLOSED','RELEASED')` */
  predicate InWindow(r: ManufacturingRow, cutoff: Date) {
    r.releaseDate >= cutoff && (r.status == Closed || r.status == Released)
  }

  /** The joined rows that pass the date and status conditions, before the part filter. */
  function Candidates(db: Database, cutoff: Date): seq<ManufacturingRow> {
    Filter(Map(db.jobs, j => RowOf(j, db.jobCosts)), r => InWindow(r, cutoff))
  }

  function PartOf(r: ManufacturingRow): string {
    r.partNo
  }

  /** `ORDER BY fpartno, fact_rel DESC` */
  predicate RowBefore(a: ManufacturingRow, b: ManufacturingRow) {
    StrLt(a.partNo, b.partNo) || (a.partNo == b.partNo && a.releaseDate >= b.releaseDate)
  }

  /** The query for one chunk of part numbers. */
  function Query(db: Database, chunk: seq<string>, cutoff: Date): seq<ManufacturingRow> {
    SortBy(FilterIn(Candidates(db, cutoff), PartOf, chunk), RowBefore)
  }

  /** The database as the batched loop sees it. */
  function Run(db: Database, cutoff: Date): seq<string> -> seq<ManufacturingRow> {
    chunk => Query(db, chunk, cutoff)
  }

  lemma RowBeforeTotal()
    ensures TotalPreorder(RowBefore)
  {
    forall a: ManufacturingRow, b: ManufacturingRow ensures RowBefore(a, b) || RowBefore(b, a) {
      StrLtTrichotomy(a.partNo, b.partNo);
    }
    forall a: ManufacturingRow, b: ManufacturingRow, c: ManufacturingRow
      | RowBefore(a, b) && RowBefore(b, c) ensures RowBefore(a, c)
    {
      if StrLt(a.partNo, b.partNo) && StrLt(b.partNo, c.partNo) {
        StrLtTransitive(a.partNo, b.partNo, c.partNo);
      }
    }
  }

  /**
    Which rows the query returns: exactly the joined rows of jobs whose part is
    in the chunk, released on or after the cutoff, CLOSED or RELEASED; one row
    per such job; ordered by part number, then most recent release first.
  */
  lemma QuerySpec(db: Database, chunk: seq<string>, cutoff: Date, x: ManufacturingRow)
    ensures Sorted(Query(db, chunk, cutoff), RowBefore)
    ensures multiset(Query(db, chunk, cutoff)) == multiset(FilterIn(Candidates(db, cutoff), PartOf, chunk))
    ensures x in Query(db, chunk, cutoff) <==>
      x.partNo in chunk && InWindow(x, cutoff) &&
      exists k :: 0 <= k < |db.jobs| && x == RowOf(db.jobs[k], db.jobCosts)
  {
    RowBeforeTotal();
    var candidates := FilterIn(Candidates(db, cutoff), PartOf, chunk);
    SortBySpec(candidates, RowBefore);
    assert x in Query(db, chunk, cutoff) <==> x in multiset(candidates);
    FilterInMember(Candidates(db, cutoff), PartOf, chunk, x);
    var joined := Map(db.jobs, j => RowOf(j, db.jobCosts));
    FilterMember(joined, r => InWindow(r, cutoff), x);
    if x in joined {
      var k :| 0 <= k < |joined| && joined[k] == x;
      assert x == RowOf(db.jobs[k], db.jobCosts);
    }
    if exists k :: 0 <= k < |db.jobs| && x == RowOf(db.jobs[k], db.jobCosts) {
      var k :| 0 <= k < |db.jobs| && x == RowOf(db.jobs[k], db.jobCosts);
      assert joined[k] == x;
    }
  }

  /** The jobs of a requested part released on or after the cutoff and CLOSED or RELEASED, by index. */
  function WindowJobs(db: Database, chunk: seq<string>, cutoff: Date): set<int> {
    set k | 0 <= k < |db.jobs| && db.jobs[k].partNo in chunk && db.jobs[k].releaseDate >= cutoff &&
      (db.jobs[k].status == Closed || db.jobs[k].status == Released)
  }

  lemma SelectedCount(db: Database, chunk: seq<string>, cutoff: Date)
    ensures |FilterIn(Candidates(db, cutoff), PartOf, chunk)| == |WindowJobs(db, chunk, cutoff)|
  {
    var joined := Map(db.jobs, j => RowOf(j, db.jobCosts));
    var keep: ManufacturingRow -> bool := r => InWindow(r, cutoff) && r.partNo in chunk;
    FilterInFilter(joined, r => InWindow(r, cutoff), PartOf, chunk, keep);
    assert FilterIn(Candidates(db, cutoff), PartOf, chunk) == Filter(joined, keep);
    assert joined[0..] == joined;
    FilterCount(joined, keep, 0);
    forall k | 0 <= k < |joined| ensures keep(joined[k]) == (k in WindowJobs(db, chunk, cutoff)) {
      assert joined[k] == RowOf(db.jobs[k], db.jobCosts);
    }
    assert Passing(joined, keep, 0) == WindowJobs(db, chunk, cutoff);
  }

  /**
    The query returns one row per JOMAST row of a requested part released on or
    after the cutoff and CLOSED or RELEASED.
  */
  lemma QueryCount(db: Database, chunk: seq<string>, cutoff: Date)
    ensures |Query(db, chunk, cutoff)| ==
      |set k | 0 <= k < |db.jobs| && db.jobs[k].partNo in chunk && db.jobs[k].releaseDate >= cutoff &&
        (db.jobs[k].status == Closed || db.jobs[k].status == Released)|
  {
    var selected := FilterIn(Candidates(db, cutoff), PartOf, chunk);
    SelectedCount(db, chunk, cutoff);
    SortByPermutation(selected, RowBefore);
    assert |Query(db, chunk, cutoff)| == |multiset(Query(db, chunk, cutoff))| == |multiset(selected)|;
  }

  /**
    A row's UnitCost is NULL exactly when the job's quantity is 0 or it has no
    cost row; otherwise it is the sum of the six cost components divided by
    the quantity, and TotalCost is that sum.
  */
  lemma UnitCostRule(j: Job, jobCosts: map<string, JobCosts>)
    ensures RowOf(j, jobCosts).unitCost.None? <==> j.quantity == 0.0 || j.jobNo !in jobCosts
    ensures j.jobNo in jobCosts ==> RowOf(j, jobCosts).totalCost == Some(TotalCost(jobCosts[j.jobNo]))
    ensures j.jobNo in jobCosts && j.quantity != 0.0 ==>
      RowOf(j, jobCosts).unitCost == Some(TotalCost(jobCosts[j.jobNo]) / j.quantity)
  {
  }

  lemma RunPermutes(db: Database, cutoff: Date)
    ensures forall c :: multiset(Run(db, cutoff)(c)) == multiset(FilterIn(Candidates(db, cutoff), PartOf, c))
  {
    forall c ensures multiset(Run(db, cutoff)(c)) == multiset(FilterIn(Candidates(db, cutoff), PartOf, c)) {
      SortByPermutation(FilterIn(Candidates(db, cutoff), PartOf, c), RowBefore);
    }
  }

  /** The batched query over a part list holds exactly the rows one query over the whole list would. */
  lemma BatchedMember(db: Database, parts: seq<string>, cutoff: Date, x: ManufacturingRow)
    ensures x in BatchedRows(parts, Run(db, cutoff)) <==> x in Query(db, parts, cutoff)
  {
    RunPermutes(db, cutoff);
    Batching.BatchedMember(parts, Candidates(db, cutoff), PartOf, Run(db, cutoff), x);
    SortByPermutation(FilterIn(Candidates(db, cutoff), PartOf, parts), RowBefore);
    assert x in Query(db, parts, cutoff) <==> x in multiset(Query(db, parts, cutoff));
  }

  /** For a duplicate-free part list, each row as often. */
  lemma BatchedMultiset(db: Database, parts: seq<string>, cutoff: Date)
    requires Distinct(parts)
    ensures multiset(BatchedRows(parts, Run(db, cutoff))) == multiset(Query(db, parts, cutoff))
  {
    RunPermutes(db, cutoff);
    Batching.BatchedMultiset(parts, Candidates(db, cutoff), PartOf, Run(db, cutoff));
    SortByPermutation(FilterIn(Candidates(db, cutoff), PartOf, parts), RowBefore);
  }

  /** `query_part_manufacturing_history(engine, part_numbers)` */
  method QueryManufacturingHistory(db: Database, parts: seq<string>, cutoff: Date)
    returns (rows: seq<ManufacturingRow>)
    ensures rows == BatchedRows(parts, Run(db, cutoff))
    ensures parts == [] ==> rows == []
    ensures forall x :: x in rows <==> x in Query(db, parts, cutoff)
    ensures Distinct(parts) ==> multiset(rows) == multiset(Query(db, parts, cutoff))
  {
    var issued;
    rows, issued := BatchedQuery(parts, Run(db, cutoff));
    forall x ensures x in rows <==> x in Query(db, parts, cutoff) {
      BatchedMember(db, parts, cutoff, x);
    }
    if Distinct(parts) {
      BatchedMultiset(db, parts, cutoff);
    }
  }
}
