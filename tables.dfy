/**
  The rows of the manufacturing-and-sales database tables that the queries
  read. Column names follow the database (JOMAST is the job master, JOPACT a
  job's actual costs, SOMAST/SOITEM/SORELS sales orders, their line items and
  releases, INMAST the inventory master). A Date is a point in time (a
  datetime), counted in whatever unit the database keeps; money and
  quantities are reals.
*/
module Tables {
  import opened Sequences

  type Date = int

  /**
    JOMAST.fstatus. The database compares it without regard to case, so the
    cost query's `'closed'` and the manufacturing query's `'CLOSED'` both
    select `Closed`.
  */
  datatype Status = Closed | Released | OtherStatus(name: string)

  /** A JOMAST row. */
  datatype Job = Job(
    jobNo: string,        // fjobno
    partNo: string,       // fpartno
    partRev: string,      // fpartrev
    dueDate: Date,        // fddue_date
    quantity: real,       // fquantity
    customer: string,     // fcus_id
    status: Status,       // fstatus
    releaseDate: Date)    // fact_rel

  /** A JOPACT row: the actual cost components of one job. */
  datatype JobCosts = JobCosts(
    labor: real,          // flabact
    material: real,       // FMATLACT
    overhead: real,       // FOVHDACT
    setup: real,          // FSETUPACT
    subcontract: real,    // FSUBACT
    other: real)          // FOTHRACT

  /** The sum of the six cost components. */
  function TotalCost(c: JobCosts): real {
    c.labor + c.material + c.overhead + c.setup + c.subcontract + c.other
  }

  /** A SOMAST row. */
  datatype SalesOrder = SalesOrder(
    soNo: string,                // FSONO
    custNo: string,              // FCUSTNO
    company: string,             // FCOMPANY
    orderDate: Option<Date>)     // FORDERDATE

  /** A SOITEM row. */
  datatype SalesItem = SalesItem(
    soNo: string,                // FSONO
    itemNo: string,              // FENUMBER
    partNo: string,              // FPARTNO
    partRev: string,             // FPARTREV
    itemStatus: string,          // FCITEMSTATUS
    quantity: Option<real>,      // FQUANTITY
    price: real)                 // FPRICE

  /** A SORELS row. */
  datatype SalesRelease = SalesRelease(
    soNo: string,                // FSONO
    itemNo: string,              // FENUMBER
    netPrice: real)              // FNETPRICE

  /** An INMAST row. */
  datatype InventoryItem = InventoryItem(
    partNo: string,              // fpartno
    rev: string,                 // frev
    description: string,         // fdescript
    standardCost: real,          // fstdcost
    basePrice: real,             // FPRICE
    onHand: real,                // FONHAND
    onOrder: real,               // FONORDER
    book: real,                  // FBOOK
    displCost: real,             // FDISPLCOST
    dispmCost: real,             // FDISPMCOST
    dispoCost: real)             // FDISPOCOST

  /**
    The tables. JOPACT holds at most one row per job, so it is a map from the
    job number.
  */
  datatype Database = Database(
    jobs: seq<Job>,
    jobCosts: map<string, JobCosts>,
    salesOrders: seq<SalesOrder>,
    salesItems: seq<SalesItem>,
    releases: seq<SalesRelease>,
    inventory: seq<InventoryItem>)
}
