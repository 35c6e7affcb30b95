/**
 * One hourly feature run (`update_relations_main`,
 * src/ml/update_relations.py, lines 37-126): load the ledger, merge in the
 * batch of new rows, preprocess, write the three normalized tables and the
 * customer table, and save the preprocessed ledger back.
 */
module UpdateRelations {
  import opened Tables
  import opened Ledger
  import opened FeatureDerivation
  import opened Projections
  import opened CustomerFeatures

  /** The four tables a completed run writes. */
  datatype RunOutputs = RunOutputs(
    orderInfo: seq<OrderInfo>,
    orderLines: seq<OrderLineInfo>,
    products: seq<ProductInfo>,
    customers: seq<CustomerRow>)

  /**
   * How a run ends: nothing to do (no ledger, or a ledger without rows),
   * an uncaught error while reading the ledger, or every table written.
   */
  datatype RunResult = Skipped | Crashed | Completed(outputs: RunOutputs)

  /**
   * Lines 46-61: the batch is read only when the ledger has rows, and is
   * dropped whole when reading it fails (a Date cell that cannot be parsed
   * raises at line 51 inside the `try`).
   */
  function Ingest(existing: seq<Row>, batch: seq<Row>): (merged: seq<Row>)
    ensures existing == [] ==> merged == []
    ensures HasBadDate(batch) ==> merged == existing
    ensures existing != [] && !HasBadDate(batch) ==> merged == Merge(existing, batch)
  {
    if existing == [] || HasBadDate(batch) then existing else Merge(existing, batch)
  }

  /** The ledger as saved at line 120: the preprocessed facts as rows. */
  function SavedRows(facts: seq<Fact>): (rows: seq<Row>)
    ensures |rows| == |facts|
    ensures forall i :: 0 <= i < |rows| ==> rows[i] == ToRow(facts[i])
  {
    seq(|facts|, i requires 0 <= i < |facts| => ToRow(facts[i]))
  }

  /**
   * A run over the ledger file with the batch `batch` (an absent or empty
   * batch file is the empty batch) on day `today`.
   */
  method UpdateRelationsMain(ledger: LedgerFile, batch: seq<Row>, today: int) returns (result: RunResult)
    requires ledger.Valid()
    modifies ledger
    ensures ledger.Valid() && ledger.present == old(ledger.present)
    ensures old(ledger.rows) == [] ==> result == Skipped && ledger.rows == old(ledger.rows)
    ensures old(ledger.rows) != [] && HasBadDate(old(ledger.rows)) ==>
              result == Crashed && ledger.rows == old(ledger.rows)
    ensures old(ledger.rows) != [] && !HasBadDate(old(ledger.rows)) ==>
              var facts := Preprocess(Ingest(old(ledger.rows), batch), today);
              result == Completed(RunOutputs(OrderInfoTable(facts), OrderLineTable(facts),
                                             ProductTable(facts), CustomerTable(facts, today))) &&
              ledger.rows == SavedRows(facts)
  {
    // Lines 37-44: a missing ledger reads as an empty table; an unparseable date raises.
    var df := ledger.rows;
    if df != [] && HasBadDate(df) {
      return Crashed;
    }
    // Lines 46-61.
    df := Ingest(df, batch);
    if df == [] {
      return Skipped;
    }
    // Lines 66-74.
    var facts := Preprocess(df, today);
    // Lines 83-95.
    var orderInfo := OrderInfoTable(facts);
    var orderLines := OrderLineTable(facts);
    var products := ProductTable(facts);
    // Lines 103-112.
    var customers := CustomerTable(facts, today);
    // Line 120.
    ledger.rows := SavedRows(facts);
    result := Completed(RunOutputs(orderInfo, orderLines, products, customers));
  }

  /** Lines 42-47: without ledger rows the batch is never read, however large it is. */
  lemma BatchIgnoredWithoutLedger(batch: seq<Row>)
    ensures Ingest([], batch) == []
  {
  }

  /**
   * The batch file is never cleared, so the next run merges the same batch
   * again. When the ledger has no undated row (as after any completed run),
   * the key of every dated batch row is in the saved ledger, so the second
   * merge adds only undated rows, which preprocessing drops again.
   */
  lemma RerunAddsOnlyUndatedRows(existing: seq<Row>, batch: seq<Row>, today: int)
    requires existing != [] && !HasBadDate(batch)
    requires forall i :: 0 <= i < |existing| ==> existing[i].date.Day?
    ensures var saved := SavedRows(Preprocess(Ingest(existing, batch), today));
            forall i :: 0 <= i < |batch| && batch[i].date.Day? ==> KeyOf(batch[i]) in KeySet(saved)
  {
    var merged := Merge(existing, batch);
    var saved := SavedRows(Preprocess(merged, today));
    forall i | 0 <= i < |batch| && batch[i].date.Day?
      ensures KeyOf(batch[i]) in KeySet(saved)
    {
      var j := DatedCarrier(existing, batch, i);
      var k := DatedRowKept(merged, today, j);
      assert KeyOf(saved[k]) == KeyOf(merged[j]);
    }
  }

  /** Over a fully dated ledger, a dated batch row's key is carried by a dated row of the merge. */
  lemma DatedCarrier(existing: seq<Row>, batch: seq<Row>, i: nat) returns (j: nat)
    requires forall i :: 0 <= i < |existing| ==> existing[i].date.Day?
    requires i < |batch| && batch[i].date.Day?
    ensures j < |Merge(existing, batch)|
    ensures KeyOf(Merge(existing, batch)[j]) == KeyOf(batch[i]) && Merge(existing, batch)[j].date.Day?
  {
    var merged := Merge(existing, batch);
    if KeyOf(batch[i]) in KeySet(existing) {
      j :| 0 <= j < |existing| && KeyOf(existing[j]) == KeyOf(batch[i]);
      assert merged[j] == existing[j];
    } else {
      var added := NewRows(KeySet(existing), batch);
      assert batch[i] in added;
      var a :| 0 <= a < |added| && added[a] == batch[i];
      j := |existing| + a;
      assert merged == existing + added;
      assert merged[j] == batch[i];
    }
  }
}
