/**
  `query_part_data` of the database module: every inventory-master row of the
  requested parts, LEFT JOINed with the part's latest sales-order line (the
  SOITEM row with the greatest sales-order number, across all revisions of
  the part).
*/
module PartData {
  import opened Sequences
  import opened Text
  import opened Tables
  import opened Batching

  /** The sales-order columns a part-data row carries: FSONO, LAST_ORDER_REV, SO_PRICE, LAST_ORDER_QTY. */
  datatype LastOrder = LastOrder(soNo: string, partRev: string, price: real, quantity: Option<real>)

  /** One row of the query's result; `lastOrder` is None where the LEFT JOIN leaves the SO columns NULL. */
  datatype PartDataRow = PartDataRow(
    partNo: string,              // FPARTNO
    rev: string,                 // FREV
    basePrice: real,             // BASE_PRICE
    onHand: real,                // FONHAND
    onOrder: real,               // FONORDER
    book: real,                  // FBOOK
    displCost: real,             // FDISPLCOST
    dispmCost: real,             // FDISPMCOST
    dispoCost: real,             // FDISPOCOST
    description: string,         // DESCRIPTION
    lastOrder: Option<LastOrder>)

  function ItemPart(i: SalesItem): string {
    i.partNo
  }

  function InventoryPart(i: InventoryItem): string {
    i.partNo
  }

  /**
    The `latest_so` row with `rn = 1` for part `p`: among the items of `p`, one
    with the greatest FSONO (`ORDER BY FSONO DESC`). Among equal FSONOs the
    database may pick any; this model takes the first in table order.
  */
  function LatestSo(items: seq<SalesItem>, p: string): Option<SalesItem> {
    if items == [] then None
    else
      var rest := LatestSo(items[1..], p);
      if items[0].partNo != p then rest
      else if rest.Some? && StrLt(items[0].soNo, rest.value.soNo) then rest
      else Some(items[0])
  }

  /**
    A part has a latest sales-order line exactly when some SOITEM row is of
    that part; that row is one of them, and no row of the part has a greater
    FSONO.
  */
  lemma {:induction false} LatestSoSpec(items: seq<SalesItem>, p: string)
    ensures LatestSo(items, p).None? <==> forall k :: 0 <= k < |items| ==> items[k].partNo != p
    ensures LatestSo(items, p).Some? ==>
      LatestSo(items, p).value in items && LatestSo(items, p).value.partNo == p &&
      forall x :: x in items && x.partNo == p ==> StrLe(x.soNo, LatestSo(items, p).value.soNo)
  {
    if items != [] {
      var rest := LatestSo(items[1..], p);
      LatestSoSpec(items[1..], p);
      forall k | 0 < k < |items| ensures items[k] == items[1..][k - 1] {
      }
      if items[0].partNo == p && rest.Some? {
        var r := LatestSo(items, p).value;
        forall x | x in items && x.partNo == p ensures StrLe(x.soNo, r.soNo) {
          StrLtTrichotomy(items[0].soNo, rest.value.soNo);
          if x != items[0] {
            assert x in items[1..];
            assert StrLe(x.soNo, rest.value.soNo);
            if StrLt(x.soNo, rest.value.soNo) && StrLt(rest.value.soNo, items[0].soNo) {
              StrLtTransitive(x.soNo, rest.value.soNo, items[0].soNo);
            }
          }
        }
      }
    }
  }

  /**
    `latest_so` reads only the SOITEM rows of the chunk's parts; for a part of
    the chunk that changes nothing, because the ranking is per part.
  */
  lemma {:induction false} LatestSoChunk(items: seq<SalesItem>, chunk: seq<string>, p: string)
    requires p in chunk
    ensures LatestSo(FilterIn(items, ItemPart, chunk), p) == LatestSo(items, p)
  {
    if items != [] {
      LatestSoChunk(items[1..], chunk, p);
      var tail := FilterIn(items[1..], ItemPart, chunk);
      if items[0].partNo in chunk {
        assert FilterIn(items, ItemPart, chunk) == [items[0]] + tail;
        assert ([items[0]] + tail)[1..] == tail;
      } else {
        assert FilterIn(items, ItemPart, chunk) == [] + tail == tail;
        assert items[0].partNo != p;
      }
    }
  }

  function LastOrderOf(item: Option<SalesItem>): Option<LastOrder> {
    match item
    case None => None
    case Some(i) => Some(LastOrder(i.soNo, i.partRev, i.price, i.quantity))
  }

  /** `INMAST i LEFT JOIN latest_so s ON i.FPARTNO = s.FPARTNO AND s.rn = 1`, for one INMAST row. */
  function RowOf(inv: InventoryItem, items: seq<SalesItem>): PartDataRow {
    PartDataRow(
      inv.partNo, inv.rev, inv.basePrice, inv.onHand, inv.onOrder, inv.book,
      inv.displCost, inv.dispmCost, inv.dispoCost, inv.description,
      LastOrderOf(LatestSo(items, inv.partNo)))
  }

  function PartOf(r: PartDataRow): string {
    r.partNo
  }

  /** Every INMAST row with its latest sales-order line over the whole SOITEM table. */
  function AllRows(db: Database): seq<PartDataRow> {
    Map(db.inventory, inv => RowOf(inv, db.salesItems))
  }

  /**
    The query for one chunk. It has no ORDER BY; the model returns the rows in
    INMAST order.
  */
  function Query(db: Database, chunk: seq<string>): seq<PartDataRow> {
    var latest := FilterIn(db.salesItems, ItemPart, chunk);
    Map(FilterIn(db.inventory, InventoryPart, chunk), inv => RowOf(inv, latest))
  }

  function Run(db: Database): seq<string> -> seq<PartDataRow> {
    chunk => Query(db, chunk)
  }

  /** The per-chunk query is the whole-table join restricted to the chunk's parts. */
  lemma QueryRestricts(db: Database, chunk: seq<string>)
    ensures Query(db, chunk) == FilterIn(AllRows(db), PartOf, chunk)
  {
    QueryRestrictsFrom(db.inventory, db.salesItems, chunk);
  }

  lemma {:induction false} QueryRestrictsFrom(inventory: seq<InventoryItem>, items: seq<SalesItem>, chunk: seq<string>)
    ensures Map(FilterIn(inventory, InventoryPart, chunk), inv => RowOf(inv, FilterIn(items, ItemPart, chunk)))
         == FilterIn(Map(inventory, inv => RowOf(inv, items)), PartOf, chunk)
  {
    var latest := FilterIn(items, ItemPart, chunk);
    if inventory != [] {
      QueryRestrictsFrom(inventory[1..], items, chunk);
      var all := Map(inventory, inv => RowOf(inv, items));
      assert all[1..] == Map(inventory[1..], inv => RowOf(inv, items));
      if inventory[0].partNo in chunk {
        LatestSoChunk(items, chunk, inventory[0].partNo);
        assert RowOf(inventory[0], latest) == RowOf(inventory[0], items);
        var tail := FilterIn(inventory[1..], InventoryPart, chunk);
        assert FilterIn(inventory, InventoryPart, chunk) == [inventory[0]] + tail;
        assert Map([inventory[0]] + tail, inv => RowOf(inv, latest))
            == [RowOf(inventory[0], latest)] + Map(tail, inv => RowOf(inv, latest));
      }
    }
  }

  /**
    One row per INMAST row of a requested part, carrying that part's latest
    sales-order line, or NULL sales-order columns when the part was never
    ordered.
  */
  lemma QuerySpec(db: Database, chunk: seq<string>, x: PartDataRow)
    ensures |Query(db, chunk)| == |FilterIn(db.inventory, InventoryPart, chunk)|
    ensures x in Query(db, chunk) <==>
      x.partNo in chunk && exists k :: 0 <= k < |db.inventory| && x == RowOf(db.inventory[k], db.salesItems)
    ensures x in Query(db, chunk) ==>
      (x.lastOrder.None? <==> forall k :: 0 <= k < |db.salesItems| ==> db.salesItems[k].partNo != x.partNo)
  {
    var all := AllRows(db);
    QueryRestricts(db, chunk);
    FilterInMember(all, PartOf, chunk, x);
    if x in all {
      var k :| 0 <= k < |all| && all[k] == x;
      assert x == RowOf(db.inventory[k], db.salesItems);
      LatestSoSpec(db.salesItems, x.partNo);
    }
    if exists k :: 0 <= k < |db.inventory| && x == RowOf(db.inventory[k], db.salesItems) {
      var k :| 0 <= k < |db.inventory| && x == RowOf(db.inventory[k], db.salesItems);
      assert all[k] == x;
    }
  }

  lemma RunRestricts(db: Database)
    ensures forall c :: multiset(Run(db)(c)) == multiset(FilterIn(AllRows(db), PartOf, c))
  {
    forall c ensures multiset(Run(db)(c)) == multiset(FilterIn(AllRows(db), PartOf, c)) {
      QueryRestricts(db, c);
    }
  }

  /** The batched query over a part list holds exactly the rows one query over the whole list would. */
  lemma BatchedMember(db: Database, parts: seq<string>, x: PartDataRow)
    ensures x in BatchedRows(parts, Run(db)) <==> x in Query(db, parts)
  {
    RunRestricts(db);
    Batching.BatchedMember(parts, AllRows(db), PartOf, Run(db), x);
    QueryRestricts(db, parts);
  }

  /** ... and, for a duplicate-free list, each row as often: every INMAST row of a requested part once. */
  lemma BatchedMultiset(db: Database, parts: seq<string>)
    requires Distinct(parts)
    ensures multiset(BatchedRows(parts, Run(db))) == multiset(Query(db, parts))
  {
    RunRestricts(db);
    Batching.BatchedMultiset(parts, AllRows(db), PartOf, Run(db));
    QueryRestricts(db, parts);
  }

  /** `query_part_data(engine, part_numbers)` */
  method QueryPartData(db: Database, parts: seq<string>) returns (rows: seq<PartDataRow>)
    ensures rows == BatchedRows(parts, Run(db))
    ensures parts == [] ==> rows == []
    ensures forall x :: x in rows <==> x in Query(db, parts)
    ensures Distinct(parts) ==> multiset(rows) == multiset(Query(db, parts))
  {
    var issued;
    rows, issued := BatchedQuery(parts, Run(db));
    forall x ensures x in rows <==> x in Query(db, parts) {
      BatchedMember(db, parts, x);
    }
    if Distinct(parts) {
      BatchedMultiset(db, parts);
    }
  }
}
