/**
 * Online order ingestion (src/main.py): the request body's validation
 * (lines 64-106), `add_order` (lines 109-146), which appends one order line
 * to the ledger file, and `order_exists` (lines 175-188).
 */
module Orders {
  import opened Tables
  import opened Ledger
  import opened Identifiers

  /**
   * The request body `OrderLine` (lines 64-78). `date` is the `Date` text as
   * `pd.to_datetime` reads it at line 113: a day, an empty text (NaT), or
   * text it cannot parse.
   */
  datatype OrderLine = OrderLine(
    orderId: int,
    customerId: string,
    warehouseId: string,
    age: int,
    gender: string,
    date: DateCell,
    productId: string,
    skuId: string,
    category: string,
    quantity: int,
    price: real)

  function OrderKey(o: OrderLine): Key {
    Key(o.orderId, o.productId, o.skuId)
  }

  /** The messages of the failed field checks, in field declaration order (lines 68-79). */
  function ValidationErrors(o: OrderLine): (errs: seq<string>)
    ensures errs == [] <==>
              PrefixedDigits("CUST", o.customerId) && PrefixedDigits("WH", o.warehouseId) &&
              PrefixedDigits("Product_", o.productId) && PrefixedDigits("SKU_", o.skuId)
    ensures |errs| <= 4
  {
    var checks := [CustomerId(o.customerId), WarehouseId(o.warehouseId), ProductId(o.productId), SkuId(o.skuId)];
    assert (forall i :: 0 <= i < |checks| ==> checks[i].Ok?) <==>
           checks[0].Ok? && checks[1].Ok? && checks[2].Ok? && checks[3].Ok?;
    Messages(checks)
  }

  /** The messages of the checks that failed, in order. */
  function Messages(checks: seq<Result<string>>): (errs: seq<string>)
    ensures |errs| <= |checks|
    ensures errs == [] <==> forall i :: 0 <= i < |checks| ==> checks[i].Ok?
  {
    if checks == [] then []
    else
      var rest := Messages(checks[1..]);
      match checks[0]
      case Ok(_) => rest
      case Err(m) => [m] + rest
  }

  /**
   * The latest date among the dated rows of customer `c`, if there is one.
   * This is what `max` over the customer's Date column gives when every row
   * of the customer is dated; when none is, `max` gives NaT (`None` here);
   * when dated and undated rows are mixed it raises (`MixedDates`).
   */
  function LatestDate(rows: seq<Row>, c: string): (d: Option<int>)
    ensures d.None? <==> forall i :: 0 <= i < |rows| && rows[i].customerId == c ==> !rows[i].date.Day?
    ensures d.Some? ==> forall i :: 0 <= i < |rows| && rows[i].customerId == c && rows[i].date.Day? ==> rows[i].date.day <= d.value
    ensures d.Some? ==> exists i :: 0 <= i < |rows| && rows[i].customerId == c && rows[i].date == Day(d.value)
  {
    if rows == [] then None
    else
      var rest := LatestDate(rows[..|rows| - 1], c);
      var r := rows[|rows| - 1];
      if r.customerId != c || !r.date.Day? then rest
      else if rest.Some? && rest.value >= r.date.day then rest
      else Some(r.date.day)
  }

  predicate HasRowsOf(rows: seq<Row>, c: string) {
    exists i :: 0 <= i < |rows| && rows[i].customerId == c
  }

  /**
   * Customer `c` has both a dated and an undated ledger row. After line 117
   * the Date column holds `date` objects and NaT; line 133's `max` over such
   * a mix compares a date with the float it puts in place of NaT, and raises.
   */
  predicate MixedDates(rows: seq<Row>, c: string) {
    (exists i :: 0 <= i < |rows| && rows[i].customerId == c && rows[i].date.Day?) &&
    (exists j :: 0 <= j < |rows| && rows[j].customerId == c && rows[j].date.NoDate?)
  }

  /**
   * The row `add_order` appends (lines 126-138): Sales = Quantity x Price,
   * Recency = today - Date, Order Gap = Date minus the customer's latest
   * date, 0 for a customer without rows. Arithmetic with NaT (an empty Date,
   * or a customer whose rows are all undated) yields NaN. The Category text
   * is stored as the cell it reads back as.
   */
  function NewRow(o: OrderLine, rows: seq<Row>, today: int): (r: Row)
    ensures KeyOf(r) == OrderKey(o) && r.customerId == o.customerId && r.date == o.date
    ensures r.sales == Some((o.quantity as real) * o.price)
    ensures r.recency == (if o.date.Day? then Some(today - o.date.day) else None)
    ensures !HasRowsOf(rows, o.customerId) ==> r.gap == Some(0)
    ensures HasRowsOf(rows, o.customerId) && o.date.Day? && LatestDate(rows, o.customerId).Some? ==>
              r.gap == Some(o.date.day - LatestDate(rows, o.customerId).value)
    ensures HasRowsOf(rows, o.customerId) && (!o.date.Day? || LatestDate(rows, o.customerId).None?) ==> r.gap == None
    ensures r.category == TextCell(o.category)
    ensures r.cluster == None
  {
    var recency := if o.date.Day? then Some(today - o.date.day) else None;
    var latest := LatestDate(rows, o.customerId);
    var gap :=
      if !HasRowsOf(rows, o.customerId) then Some(0)
      else if o.date.Day? && latest.Some? then Some(o.date.day - latest.value)
      else None;
    Row(o.orderId, o.customerId, o.warehouseId, o.age, o.gender, o.date,
        o.productId, o.skuId, TextCell(o.category), Some(o.quantity as real), Some(o.price),
        Some((o.quantity as real) * o.price), recency, gap, None)
  }

  /** Lines 122-125, the success response at 143, and the error answer at 144-146. */
  datatype AddOutcome = Accepted | Duplicate | Failed

  /** `add_order`: check the dates, reject a duplicate key, else append the derived row and save. */
  method AddOrder(ledger: LedgerFile, o: OrderLine, today: int) returns (outcome: AddOutcome)
    requires ledger.Valid()
    modifies ledger
    ensures ledger.Valid()
    ensures outcome == Failed <==>
              o.date.BadDate? || HasBadDate(old(ledger.rows)) ||
              (OrderKey(o) !in KeySet(old(ledger.rows)) && MixedDates(old(ledger.rows), o.customerId))
    ensures outcome == Duplicate <==>
              !o.date.BadDate? && !HasBadDate(old(ledger.rows)) && OrderKey(o) in KeySet(old(ledger.rows))
    ensures outcome != Accepted ==> ledger.rows == old(ledger.rows) && ledger.present == old(ledger.present)
    ensures outcome == Accepted ==>
              ledger.present && ledger.rows == old(ledger.rows) + [NewRow(o, old(ledger.rows), today)]
    ensures outcome == Accepted ==> OrderExists(ledger, o.orderId, o.productId, o.skuId)
  {
    // Line 113: an unparseable Date raises; the handler answers with an error.
    if o.date.BadDate? {
      return Failed;
    }
    // Lines 114-120: a missing file reads as an empty table.
    var merged := ledger.rows;
    if HasBadDate(merged) {
      return Failed;
    }
    // Lines 121-125.
    if OrderKey(o) in KeySet(merged) {
      return Duplicate;
    }
    // Line 133: `max` over a mix of dates and NaT raises.
    if MixedDates(merged, o.customerId) {
      return Failed;
    }
    // Lines 126-141.
    var row := NewRow(o, merged, today);
    ledger.rows := merged + [row];
    ledger.present := true;
    assert KeyOf(ledger.rows[|merged|]) == OrderKey(o);
    outcome := Accepted;
  }

  /** `order_exists` (lines 178-185): some ledger row has all three key fields; no file, no row. */
  function OrderExists(ledger: LedgerFile, orderId: int, productId: string, skuId: string): (b: bool)
    reads ledger
    ensures b <==> ledger.present &&
                   exists i :: 0 <= i < |ledger.rows| &&
                     ledger.rows[i].orderId == orderId && ledger.rows[i].productId == productId &&
                     ledger.rows[i].skuId == skuId
  {
    ledger.present && Key(orderId, productId, skuId) in KeySet(ledger.rows)
  }

  /** Appending the new row of an unseen key keeps the ledger's keys unique. */
  lemma AddKeepsKeysUnique(rows: seq<Row>, o: OrderLine, today: int)
    requires KeysUnique(rows) && OrderKey(o) !in KeySet(rows)
    ensures KeysUnique(rows + [NewRow(o, rows, today)])
  {
    var r := rows + [NewRow(o, rows, today)];
    forall i, j | 0 <= i < j < |r| ensures KeyOf(r[i]) != KeyOf(r[j]) {
      if j == |rows| {
        assert KeyOf(rows[i]) in KeySet(rows);
      } else {
        assert r[i] == rows[i] && r[j] == rows[j];
      }
    }
  }

  /** Submitting the same order line again after it was accepted is a duplicate. */
  lemma ResubmitIsDuplicate(rows: seq<Row>, o: OrderLine, o2: OrderLine, today: int)
    requires OrderKey(o2) == OrderKey(o)
    ensures OrderKey(o2) in KeySet(rows + [NewRow(o, rows, today)])
  {
    assert KeyOf((rows + [NewRow(o, rows, today)])[|rows|]) == OrderKey(o);
  }

  /** An order dated before the customer's latest order gets a negative gap. */
  lemma BackdatedGapNegative(rows: seq<Row>, o: OrderLine, today: int, i: nat)
    requires i < |rows| && rows[i].customerId == o.customerId
    requires rows[i].date.Day? && o.date.Day? && o.date.day < rows[i].date.day
    ensures NewRow(o, rows, today).gap.Some? && NewRow(o, rows, today).gap.value < 0
  {
    assert HasRowsOf(rows, o.customerId);
  }
}
