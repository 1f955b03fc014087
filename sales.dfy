/**
  `query_part_sales_history`: every release of every line item of the
  requested parts on a sales order dated on or after the cutoff (inner joins
  SOMAST-SOITEM-SORELS), ordered by part number and then by order date, most
  recent first.
*/
module Sales {
  import opened Sequences
  import opened Sorting
  import opened Text
  import opened Tables
  import opened Batching

  /** One row of the query's result, with the columns that may be NULL as options. */
  datatype SalesRow = SalesRow(
    soNumber: Option<string>,    // SalesOrderNumber
    customerNumber: string,      // CustomerNumber
    customerName: string,        // CustomerName
    partNo: string,              // PartNumber
    revision: string,            // Revision
    itemStatus: string,          // ItemStatus
    orderedQty: Option<real>,    // OrderedQty
    unitPrice: Option<real>,     // UnitPrice
    totalValue: real,            // TotalValue
    orderDate: Option<Date>)     // OrderDate

  /**
    `CASE WHEN FQUANTITY=0 THEN 0 ELSE FNETPRICE/FQUANTITY END`; a NULL
    quantity fails the test and yields NULL from the division.
  */
  function UnitPrice(quantity: Option<real>, netPrice: real): (r: Option<real>)
    ensures r.None? <==> quantity.None?
    ensures quantity == Some(0.0) ==> r == Some(0.0)
    ensures quantity.Some? && quantity.value != 0.0 ==> r.Some? && r.value * quantity.value == netPrice
  {
    match quantity
    case None => None
    case Some(q) => if q == 0.0 then Some(0.0) else Some(netPrice / q)
  }

  function RowOf(o: SalesOrder, i: SalesItem, r: SalesRelease): SalesRow {
    SalesRow(Some(o.soNo), o.custNo, o.company, i.partNo, i.partRev, i.itemStatus,
             i.quantity, UnitPrice(i.quantity, r.netPrice), r.netPrice, o.orderDate)
  }

  /** An order, a line item and a release that the two inner joins pair up. */
  predicate Joins(o: SalesOrder, i: SalesItem, r: SalesRelease) {
    o.soNo == i.soNo && i.soNo == r.soNo && i.itemNo == r.itemNo
  }

  function ReleaseRows(o: SalesOrder, i: SalesItem, rels: seq<SalesRelease>): seq<SalesRow> {
    if rels == [] then []
    else (if Joins(o, i, rels[0]) then [RowOf(o, i, rels[0])] else []) + ReleaseRows(o, i, rels[1..])
  }

  function ItemRows(o: SalesOrder, items: seq<SalesItem>, rels: seq<SalesRelease>): seq<SalesRow> {
    if items == [] then [] else ReleaseRows(o, items[0], rels) + ItemRows(o, items[1..], rels)
  }

  /** `SOMAST S JOIN SOITEM I ON ... JOIN SORELS R ON ...` */
  function Joined(orders: seq<SalesOrder>, items: seq<SalesItem>, rels: seq<SalesRelease>): seq<SalesRow> {
    if orders == [] then [] else ItemRows(orders[0], items, rels) + Joined(orders[1..], items, rels)
  }

  lemma {:induction false} ReleaseRowsMember(o: SalesOrder, i: SalesItem, rels: seq<SalesRelease>, x: SalesRow)
    ensures x in ReleaseRows(o, i, rels) <==>
      exists c :: 0 <= c < |rels| && Joins(o, i, rels[c]) && x == RowOf(o, i, rels[c])
  {
    if rels != [] {
      ReleaseRowsMember(o, i, rels[1..], x);
      if exists c :: 0 <= c < |rels| && Joins(o, i, rels[c]) && x == RowOf(o, i, rels[c]) {
        var c :| 0 <= c < |rels| && Joins(o, i, rels[c]) && x == RowOf(o, i, rels[c]);
        if c > 0 {
          assert rels[1..][c - 1] == rels[c];
        }
      }
      if x in ReleaseRows(o, i, rels[1..]) {
        var c :| 0 <= c < |rels[1..]| && Joins(o, i, rels[1..][c]) && x == RowOf(o, i, rels[1..][c]);
        assert rels[c + 1] == rels[1..][c];
      }
    }
  }

  lemma {:induction false} ItemRowsMember(o: SalesOrder, items: seq<SalesItem>, rels: seq<SalesRelease>, x: SalesRow)
    ensures x in ItemRows(o, items, rels) <==>
      exists b, c :: 0 <= b < |items| && 0 <= c < |rels| &&
        Joins(o, items[b], rels[c]) && x == RowOf(o, items[b], rels[c])
  {
    if items != [] {
      ItemRowsMember(o, items[1..], rels, x);
      ReleaseRowsMember(o, items[0], rels, x);
      if exists b, c :: 0 <= b < |items| && 0 <= c < |rels| &&
          Joins(o, items[b], rels[c]) && x == RowOf(o, items[b], rels[c]) {
        var b, c :| 0 <= b < |items| && 0 <= c < |rels| &&
          Joins(o, items[b], rels[c]) && x == RowOf(o, items[b], rels[c]);
        if b > 0 {
          assert items[1..][b - 1] == items[b];
        }
      }
      if x in ItemRows(o, items[1..], rels) {
        var b, c :| 0 <= b < |items[1..]| && 0 <= c < |rels| &&
          Joins(o, items[1..][b], rels[c]) && x == RowOf(o, items[1..][b], rels[c]);
        assert items[b + 1] == items[1..][b];
      }
    }
  }

  lemma {:induction false} JoinedOrders(orders: seq<SalesOrder>, items: seq<SalesItem>, rels: seq<SalesRelease>, x: SalesRow)
    ensures x in Joined(orders, items, rels) <==>
      exists a :: 0 <= a < |orders| && x in ItemRows(orders[a], items, rels)
  {
    if orders != [] {
      JoinedOrders(orders[1..], items, rels, x);
      if exists a :: 0 <= a < |orders| && x in ItemRows(orders[a], items, rels) {
        var a :| 0 <= a < |orders| && x in ItemRows(orders[a], items, rels);
        if a > 0 {
          assert orders[1..][a - 1] == orders[a];
        }
      }
      if x in Joined(orders[1..], items, rels) {
        var a :| 0 <= a < |orders[1..]| && x in ItemRows(orders[1..][a], items, rels);
        assert orders[a + 1] == orders[1..][a];
      }
    }
  }

  lemma JoinedSize(orders: seq<SalesOrder>, items: seq<SalesItem>, rels: seq<SalesRelease>)
    ensures |Joined(orders, items, rels)| ==
      |set a, b, c | 0 <= a < |orders| && 0 <= b < |items| && 0 <= c < |rels| &&
        Joins(orders[a], items[b], rels[c]) :: (a, b, c)|
  {
    var any: SalesRow -> bool := r => true;
    JoinedCount(orders, items, rels, any, 0);
    FilterAll(Joined(orders, items, rels), any);
    assert orders[0..] == orders;
    var kept := OrderTriples(orders, items, rels, any, 0);
    var joins := set a, b, c | 0 <= a < |orders| && 0 <= b < |items| && 0 <= c < |rels| &&
      Joins(orders[a], items[b], rels[c]) :: (a, b, c);
    assert kept == joins;
  }

  /**
    The join pairs every order with every matching item and every matching
    release, and yields one row per such (order, item, release) triple.
  */
  lemma JoinedMember(orders: seq<SalesOrder>, items: seq<SalesItem>, rels: seq<SalesRelease>, x: SalesRow)
    ensures x in Joined(orders, items, rels) <==>
      exists a, b, c :: 0 <= a < |orders| && 0 <= b < |items| && 0 <= c < |rels| &&
        Joins(orders[a], items[b], rels[c]) && x == RowOf(orders[a], items[b], rels[c])
    ensures |Joined(orders, items, rels)| ==
      |set a, b, c | 0 <= a < |orders| && 0 <= b < |items| && 0 <= c < |rels| &&
        Joins(orders[a], items[b], rels[c]) :: (a, b, c)|
  {
    JoinedSize(orders, items, rels);
    JoinedOrders(orders, items, rels, x);
    forall a | 0 <= a < |orders|
      ensures x in ItemRows(orders[a], items, rels) <==>
        exists b, c :: 0 <= b < |items| && 0 <= c < |rels| &&
          Joins(orders[a], items[b], rels[c]) && x == RowOf(orders[a], items[b], rels[c])
    {
      ItemRowsMember(orders[a], items, rels, x);
    }
  }

  /**
    Counting the rows of the join: one row per (order, item, release) index
    triple that the ON conditions pair up. `keep` is any filter applied to
    the rows afterwards; it selects the same triples. The three sets hold the
    triples for the releases of one item, the items of one order, and the
    orders, each from index `lo` on.
  */
  ghost function ReleaseTriples(
    o: SalesOrder, i: SalesItem, rels: seq<SalesRelease>, keep: SalesRow -> bool, a: int, b: int, lo: nat)
    : set<(int, int, int)>
  {
    set c | lo <= c < |rels| && Joins(o, i, rels[c]) && keep(RowOf(o, i, rels[c])) :: (a, b, c)
  }

  ghost function ItemTriples(
    o: SalesOrder, items: seq<SalesItem>, rels: seq<SalesRelease>, keep: SalesRow -> bool, a: int, lo: nat)
    : set<(int, int, int)>
  {
    set b, c | lo <= b < |items| && 0 <= c < |rels| && Joins(o, items[b], rels[c]) &&
      keep(RowOf(o, items[b], rels[c])) :: (a, b, c)
  }

  ghost function OrderTriples(
    orders: seq<SalesOrder>, items: seq<SalesItem>, rels: seq<SalesRelease>, keep: SalesRow -> bool, lo: nat)
    : set<(int, int, int)>
  {
    set a, b, c | lo <= a < |orders| && 0 <= b < |items| && 0 <= c < |rels| &&
      Joins(orders[a], items[b], rels[c]) && keep(RowOf(orders[a], items[b], rels[c])) :: (a, b, c)
  }

  lemma ReleaseTriplesStep(
    o: SalesOrder, i: SalesItem, rels: seq<SalesRelease>, keep: SalesRow -> bool, a: int, b: int, lo: nat)
    requires lo < |rels|
    ensures |ReleaseTriples(o, i, rels, keep, a, b, lo)| ==
      (if Joins(o, i, rels[lo]) && keep(RowOf(o, i, rels[lo])) then 1 else 0) +
      |ReleaseTriples(o, i, rels, keep, a, b, lo + 1)|
  {
    var rest := ReleaseTriples(o, i, rels, keep, a, b, lo + 1);
    var head: set<(int, int, int)> :=
      if Joins(o, i, rels[lo]) && keep(RowOf(o, i, rels[lo])) then {(a, b, lo)} else {};
    assert ReleaseTriples(o, i, rels, keep, a, b, lo) == head + rest;
    assert head * rest == {};
  }

  lemma ItemTriplesStep(
    o: SalesOrder, items: seq<SalesItem>, rels: seq<SalesRelease>, keep: SalesRow -> bool, a: int, lo: nat)
    requires lo < |items|
    ensures |ItemTriples(o, items, rels, keep, a, lo)| ==
      |ReleaseTriples(o, items[lo], rels, keep, a, lo, 0)| + |ItemTriples(o, items, rels, keep, a, lo + 1)|
  {
    var head := ReleaseTriples(o, items[lo], rels, keep, a, lo, 0);
    var rest := ItemTriples(o, items, rels, keep, a, lo + 1);
    assert ItemTriples(o, items, rels, keep, a, lo) == head + rest;
    assert head * rest == {};
  }

  lemma OrderTriplesStep(
    orders: seq<SalesOrder>, items: seq<SalesItem>, rels: seq<SalesRelease>, keep: SalesRow -> bool, lo: nat)
    requires lo < |orders|
    ensures |OrderTriples(orders, items, rels, keep, lo)| ==
      |ItemTriples(orders[lo], items, rels, keep, lo, 0)| + |OrderTriples(orders, items, rels, keep, lo + 1)|
  {
    var head := ItemTriples(orders[lo], items, rels, keep, lo, 0);
    var rest := OrderTriples(orders, items, rels, keep, lo + 1);
    assert OrderTriples(orders, items, rels, keep, lo) == head + rest;
    assert head * rest == {};
  }

  lemma {:induction false} ReleaseCount(
    o: SalesOrder, i: SalesItem, rels: seq<SalesRelease>, keep: SalesRow -> bool, a: int, b: int, lo: nat)
    requires lo <= |rels|
    ensures |Filter(ReleaseRows(o, i, rels[lo..]), keep)| == |ReleaseTriples(o, i, rels, keep, a, b, lo)|
    decreases |rels| - lo
  {
    if lo == |rels| {
      assert ReleaseTriples(o, i, rels, keep, a, b, lo) == {};
      assert rels[lo..] == [];
    } else {
      ReleaseCount(o, i, rels, keep, a, b, lo + 1);
      ReleaseTriplesStep(o, i, rels, keep, a, b, lo);
      var first := if Joins(o, i, rels[lo]) then [RowOf(o, i, rels[lo])] else [];
      assert rels[lo..][1..] == rels[lo + 1..];
      assert ReleaseRows(o, i, rels[lo..]) == first + ReleaseRows(o, i, rels[lo + 1..]);
      FilterAppend(first, ReleaseRows(o, i, rels[lo + 1..]), keep);
      if first != [] {
        assert first[1..] == [];
      }
    }
  }

  lemma {:induction false} ItemCount(
    o: SalesOrder, items: seq<SalesItem>, rels: seq<SalesRelease>, keep: SalesRow -> bool, a: int, lo: nat)
    requires lo <= |items|
    ensures |Filter(ItemRows(o, items[lo..], rels), keep)| == |ItemTriples(o, items, rels, keep, a, lo)|
    decreases |items| - lo
  {
    if lo == |items| {
      assert ItemTriples(o, items, rels, keep, a, lo) == {};
      assert items[lo..] == [];
    } else {
      ItemCount(o, items, rels, keep, a, lo + 1);
      ReleaseCount(o, items[lo], rels, keep, a, lo, 0);
      ItemTriplesStep(o, items, rels, keep, a, lo);
      assert rels[0..] == rels;
      assert items[lo..][1..] == items[lo + 1..];
      assert ItemRows(o, items[lo..], rels) == ReleaseRows(o, items[lo], rels) + ItemRows(o, items[lo + 1..], rels);
      FilterAppend(ReleaseRows(o, items[lo], rels), ItemRows(o, items[lo + 1..], rels), keep);
    }
  }

  lemma {:induction false} JoinedCount(
    orders: seq<SalesOrder>, items: seq<SalesItem>, rels: seq<SalesRelease>, keep: SalesRow -> bool, lo: nat)
    requires lo <= |orders|
    ensures |Filter(Joined(orders[lo..], items, rels), keep)| == |OrderTriples(orders, items, rels, keep, lo)|
    decreases |orders| - lo
  {
    if lo == |orders| {
      assert OrderTriples(orders, items, rels, keep, lo) == {};
      assert orders[lo..] == [];
    } else {
      JoinedCount(orders, items, rels, keep, lo + 1);
      ItemCount(orders[lo], items, rels, keep, lo, 0);
      OrderTriplesStep(orders, items, rels, keep, lo);
      assert items[0..] == items;
      assert orders[lo..][1..] == orders[lo + 1..];
      assert Joined(orders[lo..], items, rels) == ItemRows(orders[lo], items, rels) + Joined(orders[lo + 1..], items, rels);
      FilterAppend(ItemRows(orders[lo], items, rels), Joined(orders[lo + 1..], items, rels), keep);
    }
  }

  /** `S.FORDERDATE >= DATEADD(YEAR, -5, GETDATE())`; a NULL date fails the test. */
  predicate InWindow(r: SalesRow, cutoff: Date) {
    r.orderDate.Some? && r.orderDate.value >= cutoff
  }

  function Candidates(db: Database, cutoff: Date): seq<SalesRow> {
    Filter(Joined(db.salesOrders, db.salesItems, db.releases), r => InWindow(r, cutoff))
  }

  function PartOf(r: SalesRow): string {
    r.partNo
  }

  /** Descending date order with missing dates last. */
  predicate LaterOrSame(a: Option<Date>, b: Option<Date>) {
    match (a, b)
    case (Some(x), Some(y)) => x >= y
    case (Some(_), None) => true
    case (None, Some(_)) => false
    case (None, None) => true
  }

  /** `ORDER BY I.FPARTNO, S.FORDERDATE DESC` */
  predicate RowBefore(a: SalesRow, b: SalesRow) {
    StrLt(a.partNo, b.partNo) || (a.partNo == b.partNo && LaterOrSame(a.orderDate, b.orderDate))
  }

  function Query(db: Database, chunk: seq<string>, cutoff: Date): seq<SalesRow> {
    SortBy(FilterIn(Candidates(db, cutoff), PartOf, chunk), RowBefore)
  }

  function Run(db: Database, cutoff: Date): seq<string> -> seq<SalesRow> {
    chunk => Query(db, chunk, cutoff)
  }

  lemma RowBeforeTotal()
    ensures TotalPreorder(RowBefore)
  {
    forall a: SalesRow, b: SalesRow ensures RowBefore(a, b) || RowBefore(b, a) {
      StrLtTrichotomy(a.partNo, b.partNo);
    }
    forall a: SalesRow, b: SalesRow, c: SalesRow | RowBefore(a, b) && RowBefore(b, c)
      ensures RowBefore(a, c)
    {
      if StrLt(a.partNo, b.partNo) && StrLt(b.partNo, c.partNo) {
        StrLtTransitive(a.partNo, b.partNo, c.partNo);
      }
    }
  }

  /**
    Which rows the query returns: one per (order, line item, release) triple
    that the joins pair up, whose part is in the chunk and whose order date is
    on or after the cutoff; ordered by part number, then most recent first.
    Every returned row has an order date and a sales-order number.
  */
  lemma QuerySpec(db: Database, chunk: seq<string>, cutoff: Date, x: SalesRow)
    ensures Sorted(Query(db, chunk, cutoff), RowBefore)
    ensures multiset(Query(db, chunk, cutoff)) == multiset(FilterIn(Candidates(db, cutoff), PartOf, chunk))
    ensures x in Query(db, chunk, cutoff) <==>
      x.partNo in chunk && InWindow(x, cutoff) &&
      exists a, b, c :: 0 <= a < |db.salesOrders| && 0 <= b < |db.salesItems| && 0 <= c < |db.releases| &&
        Joins(db.salesOrders[a], db.salesItems[b], db.releases[c]) &&
        x == RowOf(db.salesOrders[a], db.salesItems[b], db.releases[c])
    ensures x in Query(db, chunk, cutoff) ==> x.orderDate.Some? && x.soNumber.Some?
  {
    RowBeforeTotal();
    var candidates := FilterIn(Candidates(db, cutoff), PartOf, chunk);
    SortBySpec(candidates, RowBefore);
    assert x in Query(db, chunk, cutoff) <==> x in multiset(candidates);
    FilterInMember(Candidates(db, cutoff), PartOf, chunk, x);
    FilterMember(Joined(db.salesOrders, db.salesItems, db.releases), r => InWindow(r, cutoff), x);
    JoinedMember(db.salesOrders, db.salesItems, db.releases, x);
  }

  /**
    The number of rows the query returns (what `len` of the result counts):
    one per (order, item, release) triple that the joins pair up, with the
    item's part in the chunk and the order dated on or after the cutoff.
  */
  lemma QueryCount(db: Database, chunk: seq<string>, cutoff: Date)
    ensures |Query(db, chunk, cutoff)| ==
      |set a, b, c | 0 <= a < |db.salesOrders| && 0 <= b < |db.salesItems| && 0 <= c < |db.releases| &&
        Joins(db.salesOrders[a], db.salesItems[b], db.releases[c]) &&
        db.salesItems[b].partNo in chunk &&
        db.salesOrders[a].orderDate.Some? && db.salesOrders[a].orderDate.value >= cutoff :: (a, b, c)|
  {
    var orders, items, rels := db.salesOrders, db.salesItems, db.releases;
    var joined := Joined(orders, items, rels);
    var keep: SalesRow -> bool := r => InWindow(r, cutoff) && r.partNo in chunk;
    var selected := FilterIn(Candidates(db, cutoff), PartOf, chunk);
    FilterInFilter(joined, r => InWindow(r, cutoff), PartOf, chunk, keep);
    assert selected == Filter(joined, keep);
    JoinedCount(orders, items, rels, keep, 0);
    assert orders[0..] == orders;
    var kept := OrderTriples(orders, items, rels, keep, 0);
    var dated := set a, b, c | 0 <= a < |orders| && 0 <= b < |items| && 0 <= c < |rels| &&
      Joins(orders[a], items[b], rels[c]) && items[b].partNo in chunk &&
      orders[a].orderDate.Some? && orders[a].orderDate.value >= cutoff :: (a, b, c);
    assert kept == dated;
    SortByPermutation(selected, RowBefore);
    assert |Query(db, chunk, cutoff)| == |multiset(Query(db, chunk, cutoff))| == |multiset(selected)|;
  }

  /** An item with quantity 0 is priced 0, not divided by zero. */
  lemma ZeroQuantityPrice(o: SalesOrder, i: SalesItem, r: SalesRelease)
    requires i.quantity == Some(0.0)
    ensures RowOf(o, i, r).unitPrice == Some(0.0)
  {
  }

  lemma RunPermutes(db: Database, cutoff: Date)
    ensures forall c :: multiset(Run(db, cutoff)(c)) == multiset(FilterIn(Candidates(db, cutoff), PartOf, c))
  {
    forall c ensures multiset(Run(db, cutoff)(c)) == multiset(FilterIn(Candidates(db, cutoff), PartOf, c)) {
      SortByPermutation(FilterIn(Candidates(db, cutoff), PartOf, c), RowBefore);
    }
  }

  lemma BatchedMember(db: Database, parts: seq<string>, cutoff: Date, x: SalesRow)
    ensures x in BatchedRows(parts, Run(db, cutoff)) <==> x in Query(db, parts, cutoff)
  {
    RunPermutes(db, cutoff);
    Batching.BatchedMember(parts, Candidates(db, cutoff), PartOf, Run(db, cutoff), x);
    SortByPermutation(FilterIn(Candidates(db, cutoff), PartOf, parts), RowBefore);
    assert x in Query(db, parts, cutoff) <==> x in multiset(Query(db, parts, cutoff));
  }

  lemma BatchedMultiset(db: Database, parts: seq<string>, cutoff: Date)
    requires Distinct(parts)
    ensures multiset(BatchedRows(parts, Run(db, cutoff))) == multiset(Query(db, parts, cutoff))
  {
    RunPermutes(db, cutoff);
    Batching.BatchedMultiset(parts, Candidates(db, cutoff), PartOf, Run(db, cutoff));
    SortByPermutation(FilterIn(Candidates(db, cutoff), PartOf, parts), RowBefore);
  }

  /** `query_part_sales_history(engine, part_numbers)` */
  method QuerySalesHistory(db: Database, parts: seq<string>, cutoff: Date)
    returns (rows: seq<SalesRow>)
    ensures rows == BatchedRows(parts, Run(db, cutoff))
    ensures parts == [] ==> rows == []
    ensures forall x :: x in rows <==> x in Query(db, parts, cutoff)
    ensures Distinct(parts) ==> multiset(rows) == multiset(Query(db, parts, cutoff))
  {
    var issued;
    rows, issued := BatchedQuery(parts, Run(db, cutoff));
    forall x ensures x in rows <==> x in Query(db, parts, cutoff) {
      BatchedMember(db, parts, cutoff, x);
    }
    if Distinct(parts) {
      BatchedMultiset(db, parts, cutoff);
    }
  }
}
