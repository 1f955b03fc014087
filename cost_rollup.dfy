/**
  `query_part_average_cost`: every inventory-master row of the requested
  parts, LEFT JOINed with an outlier-trimmed average unit cost per (part,
  revision). The average is taken over the part's ten most recently released
  closed jobs with nonzero quantity released after the cutoff, ranked by
  unit cost across all revisions of the part, keeping ranks 2 to 9.
*/
module CostRollup {
  import opened Sequences
  import opened Sorting
  import opened Text
  import opened Tables
  import opened Batching

  /** `rn1 <= 10` */
  const RECENT_JOBS: nat := 10
  /** `rn BETWEEN 2 AND 9` */
  const FIRST_KEPT_RANK: nat := 2
  const LAST_KEPT_RANK: nat := 9

  /** A job admitted to the rollup, with its unit cost (the query's `total_cost`). */
  datatype Sample = Sample(jobNo: string, partNo: string, partRev: string, releaseDate: Date, unitCost: real)

  /**
    `m.fstatus='closed' AND m.fquantity<>0 AND m.fact_rel>DATEADD(YEAR,-5,GETDATE())`,
    and the inner join with JOPACT finds a cost row.
  */
  predicate Eligible(j: Job, jobCosts: map<string, JobCosts>, cutoff: Date) {
    j.status == Closed && j.quantity != 0.0 && j.releaseDate > cutoff && j.jobNo in jobCosts
  }

  function SampleOf(j: Job, jobCosts: map<string, JobCosts>): Sample
    requires j.quantity != 0.0 && j.jobNo in jobCosts
  {
    Sample(j.jobNo, j.partNo, j.partRev, j.releaseDate, TotalCost(jobCosts[j.jobNo]) / j.quantity)
  }

  /** The eligible jobs of every part, in table order. */
  function Samples(jobs: seq<Job>, jobCosts: map<string, JobCosts>, cutoff: Date): seq<Sample> {
    if jobs == [] then []
    else (if Eligible(jobs[0], jobCosts, cutoff) then [SampleOf(jobs[0], jobCosts)] else [])
         + Samples(jobs[1..], jobCosts, cutoff)
  }

  /** `PARTITION BY m.fpartno`: one part's eligible jobs. */
  function PartSamples(samples: seq<Sample>, p: string): seq<Sample> {
    FilterIn(samples, SamplePart, [p])
  }

  function SamplePart(s: Sample): string {
    s.partNo
  }

  function SampleRev(s: Sample): string {
    s.partRev
  }

  /** `ORDER BY m.fact_rel DESC` */
  predicate ReleasedLaterOrSame(a: Sample, b: Sample) {
    a.releaseDate >= b.releaseDate
  }

  /** `ORDER BY` the unit cost, cheapest first. */
  predicate CheaperOrSame(a: Sample, b: Sample) {
    a.unitCost <= b.unitCost
  }

  function ByDate(samples: seq<Sample>, p: string): seq<Sample> {
    SortBy(PartSamples(samples, p), ReleasedLaterOrSame)
  }

  /** The part's jobs numbered 1..10 by `rn1`. */
  function Recent(samples: seq<Sample>, p: string): seq<Sample> {
    var byDate := ByDate(samples, p);
    byDate[..Min(RECENT_JOBS, |byDate|)]
  }

  /** The part's eligible jobs beyond the ten most recent. */
  function Older(samples: seq<Sample>, p: string): seq<Sample> {
    var byDate := ByDate(samples, p);
    byDate[Min(RECENT_JOBS, |byDate|)..]
  }

  /** The recent jobs in `rn` order, cheapest first. */
  function Ranked(samples: seq<Sample>, p: string): seq<Sample> {
    SortBy(Recent(samples, p), CheaperOrSame)
  }

  /** `WHERE tmp2.rn BETWEEN 2 AND 9`, on jobs listed in rank order. */
  function Trim(ranked: seq<Sample>): seq<Sample> {
    if |ranked| < FIRST_KEPT_RANK then [] else ranked[FIRST_KEPT_RANK - 1 .. Min(LAST_KEPT_RANK, |ranked|)]
  }

  /** The part's jobs that survive the trim. */
  function Kept(samples: seq<Sample>, p: string): seq<Sample> {
    Trim(Ranked(samples, p))
  }

  /** `GROUP BY tmp2.fpartno, tmp2.fpartrev`: the kept jobs of one revision. */
  function Group(samples: seq<Sample>, p: string, rev: string): seq<Sample> {
    FilterIn(Kept(samples, p), SampleRev, [rev])
  }

  function UnitCostOf(s: Sample): real {
    s.unitCost
  }

  /** `AVG(tmp2.total_cost)` over a non-empty group. */
  function Mean(g: seq<Sample>): real
    requires g != []
  {
    Sum(Map(g, UnitCostOf)) / |g| as real
  }

  /** A row of the grouped subquery: `AVG(total_cost)` and `COUNT(fpartno)`. */
  datatype Rollup = Rollup(averageCost: real, jobCount: nat)

  /** The subquery's row for (part, revision), if the group is not empty. */
  function RollupOf(samples: seq<Sample>, p: string, rev: string): Option<Rollup> {
    var g := Group(samples, p, rev);
    if g == [] then None else Some(Rollup(Mean(g), |g|))
  }

  /** One row of the query's result; Average_Cost and JobCount are NULL when the LEFT JOIN misses. */
  datatype CostRow = CostRow(
    partNo: string,              // PartNumber
    revision: string,            // Revision
    description: string,         // Description
    standardCost: real,          // StandardCost
    averageCost: Option<real>,   // Average_Cost
    jobCount: Option<nat>)       // JobCount

  /** `INMAST m LEFT JOIN subq ON subq.fpartno=m.fpartno AND subq.fpartrev=m.frev` */
  function RowOf(inv: InventoryItem, samples: seq<Sample>): CostRow {
    match RollupOf(samples, inv.partNo, inv.rev)
    case None => CostRow(inv.partNo, inv.rev, inv.description, inv.standardCost, None, None)
    case Some(g) => CostRow(inv.partNo, inv.rev, inv.description, inv.standardCost, Some(g.averageCost), Some(g.jobCount))
  }

  function AllRows(db: Database, cutoff: Date): seq<CostRow> {
    var samples := Samples(db.jobs, db.jobCosts, cutoff);
    Map(db.inventory, inv => RowOf(inv, samples))
  }

  function PartOf(r: CostRow): string {
    r.partNo
  }

  /** `ORDER BY m.fpartno` */
  predicate RowBefore(a: CostRow, b: CostRow) {
    StrLe(a.partNo, b.partNo)
  }

  function Query(db: Database, chunk: seq<string>, cutoff: Date): seq<CostRow> {
    SortBy(FilterIn(AllRows(db, cutoff), PartOf, chunk), RowBefore)
  }

  function Run(db: Database, cutoff: Date): seq<string> -> seq<CostRow> {
    chunk => Query(db, chunk, cutoff)
  }

  /** The jobs admitted to the rollup are exactly the eligible ones. */
  lemma {:induction false} SamplesMember(jobs: seq<Job>, jobCosts: map<string, JobCosts>, cutoff: Date, x: Sample)
    ensures x in Samples(jobs, jobCosts, cutoff) <==>
      exists k :: 0 <= k < |jobs| && Eligible(jobs[k], jobCosts, cutoff) && x == SampleOf(jobs[k], jobCosts)
  {
    if jobs != [] {
      SamplesMember(jobs[1..], jobCosts, cutoff, x);
      if exists k :: 0 <= k < |jobs| && Eligible(jobs[k], jobCosts, cutoff) && x == SampleOf(jobs[k], jobCosts) {
        var k :| 0 <= k < |jobs| && Eligible(jobs[k], jobCosts, cutoff) && x == SampleOf(jobs[k], jobCosts);
        if k > 0 {
          assert jobs[1..][k - 1] == jobs[k];
        }
      }
      if x in Samples(jobs[1..], jobCosts, cutoff) {
        var k :| 0 <= k < |jobs[1..]| && Eligible(jobs[1..][k], jobCosts, cutoff) && x == SampleOf(jobs[1..][k], jobCosts);
        assert jobs[k + 1] == jobs[1..][k];
      }
    }
  }

  /**
    `rn1 <= 10` keeps the ten most recently released of the part's eligible
    jobs (all of them when there are fewer): together with the older ones
    they are all the part's jobs, and none of the older ones was released
    later than a kept one.
  */
  lemma RecentSpec(samples: seq<Sample>, p: string)
    ensures |Recent(samples, p)| == Min(RECENT_JOBS, |PartSamples(samples, p)|)
    ensures multiset(Recent(samples, p)) + multiset(Older(samples, p)) == multiset(PartSamples(samples, p))
    ensures forall x :: x in Recent(samples, p) ==> x.partNo == p
    ensures forall x, y :: x in Recent(samples, p) && y in Older(samples, p) ==> x.releaseDate >= y.releaseDate
  {
    var ps := PartSamples(samples, p);
    var byDate := ByDate(samples, p);
    SortBySpec(ps, ReleasedLaterOrSame);
    SortedSplit(byDate, ReleasedLaterOrSame, Min(RECENT_JOBS, |byDate|));
    forall x | x in Recent(samples, p) ensures x.partNo == p {
      assert x in multiset(byDate);
      FilterInMember(samples, SamplePart, [p], x);
    }
  }

  /**
    Trimming a ranking of at most ten jobs, cheapest first: rank 1 (a cheapest
    job) is always dropped; rank 10 (a dearest job) is dropped only when there
    are ten; with two to nine jobs the dearest is kept; nothing else is dropped.
  */
  lemma TrimRanks(r: seq<Sample>)
    requires Sorted(r, CheaperOrSame)
    requires |r| <= RECENT_JOBS
    ensures |Trim(r)| == if |r| <= 1 then 0 else Min(LAST_KEPT_RANK, |r|) - 1
    ensures |r| >= 1 ==>
      multiset(Trim(r)) + multiset{r[0]} + (if |r| == RECENT_JOBS then multiset{r[RECENT_JOBS - 1]} else multiset{})
      == multiset(r)
    ensures |r| >= 1 ==> forall x :: x in r ==> r[0].unitCost <= x.unitCost
    ensures |r| == RECENT_JOBS ==> forall x :: x in r ==> x.unitCost <= r[RECENT_JOBS - 1].unitCost
    ensures 2 <= |r| < RECENT_JOBS ==>
      r[|r| - 1] in Trim(r) && forall x :: x in r ==> x.unitCost <= r[|r| - 1].unitCost
  {
    var n := |r|;
    if n >= 1 {
      var m := Min(LAST_KEPT_RANK, n);
      assert r == [r[0]] + r[1..m] + r[m..];
      if n == RECENT_JOBS {
        assert r[m..] == [r[RECENT_JOBS - 1]];
      } else {
        assert r[m..] == [];
      }
      forall x | x in r ensures r[0].unitCost <= x.unitCost {
        var k :| 0 <= k < n && r[k] == x;
        if k > 0 {
          assert CheaperOrSame(r[0], r[k]);
        }
      }
      forall x | x in r ensures x.unitCost <= r[n - 1].unitCost {
        var k :| 0 <= k < n && r[k] == x;
        if k < n - 1 {
          assert CheaperOrSame(r[k], r[n - 1]);
        }
      }
      if 2 <= n < RECENT_JOBS {
        assert r[n - 1] == r[1..m][n - 2];
      }
    }
  }

  /**
    The ranking orders the part's recent jobs cheapest first, so the trim of
    `TrimRanks` applies to them.
  */
  lemma RankedSpec(samples: seq<Sample>, p: string)
    ensures multiset(Ranked(samples, p)) == multiset(Recent(samples, p))
    ensures Sorted(Ranked(samples, p), CheaperOrSame)
    ensures |Ranked(samples, p)| == |Recent(samples, p)| <= RECENT_JOBS
  {
    RecentSpec(samples, p);
    SortBySpec(Recent(samples, p), CheaperOrSame);
  }

  /** The mean of a group lies between any bounds on its unit costs, and times the count gives their sum. */
  lemma MeanSpec(g: seq<Sample>, lo: real, hi: real)
    requires g != []
    requires forall x :: x in g ==> lo <= x.unitCost <= hi
    ensures lo <= Mean(g) <= hi
    ensures Mean(g) * |g| as real == Sum(Map(g, UnitCostOf))
  {
    var costs := Map(g, UnitCostOf);
    forall k | 0 <= k < |costs| ensures lo <= costs[k] <= hi {
      assert costs[k] == g[k].unitCost;
      assert g[k] in g;
    }
    SumBounds(costs, lo, hi);
    DivideBounds(Sum(costs), |g| as real, lo, hi);
  }

  lemma DivideBounds(total: real, n: real, lo: real, hi: real)
    requires n > 0.0
    requires lo * n <= total <= hi * n
    ensures lo <= total / n <= hi
    ensures total / n * n == total
  {
  }

  /**
    A revision gets a rollup row exactly when some of its jobs were kept; the
    row counts them (one to eight) and averages their unit costs.
  */
  lemma RollupSpec(samples: seq<Sample>, p: string, rev: string)
    ensures RollupOf(samples, p, rev).None? <==> Group(samples, p, rev) == []
    ensures forall x :: x in Group(samples, p, rev) <==> x in Kept(samples, p) && x.partRev == rev
    ensures RollupOf(samples, p, rev).Some? ==>
      var g := RollupOf(samples, p, rev).value;
      && 1 <= g.jobCount <= LAST_KEPT_RANK - 1
      && g.jobCount == |Group(samples, p, rev)|
      && g.averageCost == Mean(Group(samples, p, rev))
  {
    var kept := Kept(samples, p);
    RankedSpec(samples, p);
    TrimRanks(Ranked(samples, p));
    forall x ensures x in Group(samples, p, rev) <==> x in kept && x.partRev == rev {
      FilterInMember(kept, SampleRev, [rev], x);
    }
    FilterInBounds(kept, SampleRev, [rev]);
  }

  /** A part with at most one eligible job gets no average for any revision (rank 1 is always dropped). */
  lemma SingleJobNoAverage(samples: seq<Sample>, p: string, rev: string)
    requires |PartSamples(samples, p)| <= 1
    ensures RollupOf(samples, p, rev) == None
  {
    RecentSpec(samples, p);
    RankedSpec(samples, p);
    TrimRanks(Ranked(samples, p));
    FilterInBounds(Kept(samples, p), SampleRev, [rev]);
  }

  lemma RowBeforeTotal()
    ensures TotalPreorder(RowBefore)
  {
    forall a: CostRow, b: CostRow ensures RowBefore(a, b) || RowBefore(b, a) {
      StrLtTrichotomy(a.partNo, b.partNo);
    }
    forall a: CostRow, b: CostRow, c: CostRow | RowBefore(a, b) && RowBefore(b, c)
      ensures RowBefore(a, c)
    {
      if StrLt(a.partNo, b.partNo) && StrLt(b.partNo, c.partNo) {
        StrLtTransitive(a.partNo, b.partNo, c.partNo);
      }
    }
  }

  /**
    Which rows the query returns: one per inventory-master row whose part is
    in the chunk, carrying that (part, revision)'s rollup, or NULL average and
    count when it has none; ordered by part number.
  */
  lemma QuerySpec(db: Database, chunk: seq<string>, cutoff: Date, x: CostRow)
    ensures Sorted(Query(db, chunk, cutoff), RowBefore)
    ensures multiset(Query(db, chunk, cutoff)) == multiset(FilterIn(AllRows(db, cutoff), PartOf, chunk))
    ensures x in Query(db, chunk, cutoff) <==>
      x.partNo in chunk &&
      exists k :: 0 <= k < |db.inventory| && x == RowOf(db.inventory[k], Samples(db.jobs, db.jobCosts, cutoff))
    ensures x in Query(db, chunk, cutoff) ==>
      (x.averageCost.None? <==> x.jobCount.None?) &&
      (x.jobCount.Some? ==> 1 <= x.jobCount.value <= LAST_KEPT_RANK - 1)
  {
    RowBeforeTotal();
    var all := AllRows(db, cutoff);
    var samples := Samples(db.jobs, db.jobCosts, cutoff);
    var candidates := FilterIn(all, PartOf, chunk);
    SortBySpec(candidates, RowBefore);
    assert x in Query(db, chunk, cutoff) <==> x in multiset(candidates);
    FilterInMember(all, PartOf, chunk, x);
    if x in all {
      var k :| 0 <= k < |all| && all[k] == x;
      assert x == RowOf(db.inventory[k], samples);
      RollupSpec(samples, db.inventory[k].partNo, db.inventory[k].rev);
    }
    if exists k :: 0 <= k < |db.inventory| && x == RowOf(db.inventory[k], samples) {
      var k :| 0 <= k < |db.inventory| && x == RowOf(db.inventory[k], samples);
      assert all[k] == x;
    }
  }

  lemma SelectedCount(db: Database, chunk: seq<string>, cutoff: Date)
    ensures |FilterIn(AllRows(db, cutoff), PartOf, chunk)| == |set k | 0 <= k < |db.inventory| && db.inventory[k].partNo in chunk|
  {
    var all := AllRows(db, cutoff);
    var any: CostRow -> bool := (r: CostRow) => true;
    var keep: CostRow -> bool := (r: CostRow) => r.partNo in chunk;
    FilterAll(all, any);
    FilterInFilter(all, any, PartOf, chunk, keep);
    assert FilterIn(all, PartOf, chunk) == Filter(all, keep);
    assert all[0..] == all;
    FilterCount(all, keep, 0);
    var requested := set k | 0 <= k < |db.inventory| && db.inventory[k].partNo in chunk;
    forall k | 0 <= k < |all| ensures keep(all[k]) == (db.inventory[k].partNo in chunk) {
      assert all[k] == RowOf(db.inventory[k], Samples(db.jobs, db.jobCosts, cutoff));
    }
    assert Passing(all, keep, 0) == requested;
  }

  /** The query returns one row per INMAST row of a requested part. */
  lemma QueryCount(db: Database, chunk: seq<string>, cutoff: Date)
    ensures |Query(db, chunk, cutoff)| == |set k | 0 <= k < |db.inventory| && db.inventory[k].partNo in chunk|
  {
    var selected := FilterIn(AllRows(db, cutoff), PartOf, chunk);
    SelectedCount(db, chunk, cutoff);
    SortByPermutation(selected, RowBefore);
    assert |Query(db, chunk, cutoff)| == |multiset(Query(db, chunk, cutoff))| == |multiset(selected)|;
  }

  lemma RunPermutes(db: Database, cutoff: Date)
    ensures forall c :: multiset(Run(db, cutoff)(c)) == multiset(FilterIn(AllRows(db, cutoff), PartOf, c))
  {
    forall c ensures multiset(Run(db, cutoff)(c)) == multiset(FilterIn(AllRows(db, cutoff), PartOf, c)) {
      SortByPermutation(FilterIn(AllRows(db, cutoff), PartOf, c), RowBefore);
    }
  }

  lemma BatchedMember(db: Database, parts: seq<string>, cutoff: Date, x: CostRow)
    ensures x in BatchedRows(parts, Run(db, cutoff)) <==> x in Query(db, parts, cutoff)
  {
    RunPermutes(db, cutoff);
    Batching.BatchedMember(parts, AllRows(db, cutoff), PartOf, Run(db, cutoff), x);
    SortByPermutation(FilterIn(AllRows(db, cutoff), PartOf, parts), RowBefore);
    assert x in Query(db, parts, cutoff) <==> x in multiset(Query(db, parts, cutoff));
  }

  lemma BatchedMultiset(db: Database, parts: seq<string>, cutoff: Date)
    requires Distinct(parts)
    ensures multiset(BatchedRows(parts, Run(db, cutoff))) == multiset(Query(db, parts, cutoff))
  {
    RunPermutes(db, cutoff);
    Batching.BatchedMultiset(parts, AllRows(db, cutoff), PartOf, Run(db, cutoff));
    SortByPermutation(FilterIn(AllRows(db, cutoff), PartOf, parts), RowBefore);
  }

  /** `query_part_average_cost(engine, part_numbers)` */
  method QueryAverageCost(db: Database, parts: seq<string>, cutoff: Date)
    returns (rows: seq<CostRow>)
    ensures rows == BatchedRows(parts, Run(db, cutoff))
    ensures parts == [] ==> rows == []
    ensures forall x :: x in rows <==> x in Query(db, parts, cutoff)
    ensures Distinct(parts) ==> multiset(rows) == multiset(Query(db, parts, cutoff))
  {
    var issued;
    rows, issued := BatchedQuery(parts, Run(db, cutoff));
    forall x ensures x in rows <==> x in Query(db, parts, cutoff) {
      BatchedMember(db, parts, cutoff, x);
    }
    if Distinct(parts) {
      BatchedMultiset(db, parts, cutoff);
    }
  }
}
