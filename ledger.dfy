/**
 * The order ledger: one row per order line, identified by the natural key
 * (Order ID, Product ID, SKU ID), and the batch merge that brings new rows
 * into it (src/ml/update_relations.py, lines 52-56).
 */
module Ledger {
  import opened Tables

  /**
   * A `Date` cell as pandas reads it: a calendar day (as a day number), an
   * empty cell (NaT), or text that `pd.to_datetime` cannot parse.
   */
  datatype DateCell = Day(day: int) | NoDate | BadDate

  /**
   * One ledger row. `sales`, `recency` and `gap` are the derived columns
   * (missing until a feature run or `add_order` fills them); `cluster` is the
   * `KMeans Cluster` column that a retraining run joins in.
   */
  datatype Row = Row(
    orderId: int,
    customerId: string,
    warehouseId: string,
    age: int,
    gender: string,
    date: DateCell,
    productId: string,
    skuId: string,
    category: Text,
    quantity: Num,
    price: Num,
    sales: Num,
    recency: Option<int>,
    gap: Option<int>,
    cluster: Option<int>)

  /** The natural key of an order line. */
  datatype Key = Key(orderId: int, productId: string, skuId: string)

  function KeyOf(r: Row): Key {
    Key(r.orderId, r.productId, r.skuId)
  }

  /** The distinct keys of a table (`df[key_cols].drop_duplicates()`). */
  function KeySet(rows: seq<Row>): (ks: set<Key>)
    ensures forall i :: 0 <= i < |rows| ==> KeyOf(rows[i]) in ks
    ensures forall k :: k in ks ==> exists i :: 0 <= i < |rows| && KeyOf(rows[i]) == k
  {
    set i | 0 <= i < |rows| :: KeyOf(rows[i])
  }

  /** No two rows share a natural key. */
  predicate KeysUnique(rows: seq<Row>) {
    forall i, j :: 0 <= i < j < |rows| ==> KeyOf(rows[i]) != KeyOf(rows[j])
  }

  /** Some row's date cell cannot be parsed. */
  predicate HasBadDate(rows: seq<Row>) {
    exists i :: 0 <= i < |rows| && rows[i].date.BadDate?
  }

  /**
   * The rows of `batch` whose key is not in `seen`, in batch order (the
   * left merge with `indicator=True` filtered on `left_only`). Rows of the
   * batch are not compared with each other.
   */
  function NewRows(seen: set<Key>, batch: seq<Row>): (r: seq<Row>)
    ensures |r| <= |batch|
    ensures forall i :: 0 <= i < |r| ==> r[i] in batch && KeyOf(r[i]) !in seen
    ensures forall i :: 0 <= i < |batch| && KeyOf(batch[i]) !in seen ==> batch[i] in r
  {
    if batch == [] then []
    else
      var rest := NewRows(seen, batch[..|batch| - 1]);
      var b := batch[|batch| - 1];
      if KeyOf(b) in seen then rest else rest + [b]
  }

  /** Filtering a concatenation is concatenating the filtered parts: order is kept. */
  lemma {:induction false} NewRowsAppend(seen: set<Key>, a: seq<Row>, b: seq<Row>)
    ensures NewRows(seen, a + b) == NewRows(seen, a) + NewRows(seen, b)
  {
    if b == [] {
      assert a + b == a;
    } else {
      var b' := b[..|b| - 1];
      assert (a + b)[..|a + b| - 1] == a + b';
      assert (a + b)[|a + b| - 1] == b[|b| - 1];
      NewRowsAppend(seen, a, b');
    }
  }

  /** A batch none of whose keys is known is taken whole, duplicates included. */
  lemma {:induction false} NewRowsAllUnseen(seen: set<Key>, batch: seq<Row>)
    requires forall i :: 0 <= i < |batch| ==> KeyOf(batch[i]) !in seen
    ensures NewRows(seen, batch) == batch
  {
    if batch != [] {
      NewRowsAllUnseen(seen, batch[..|batch| - 1]);
      assert batch[..|batch| - 1] + [batch[|batch| - 1]] == batch;
    }
  }

  /** A batch all of whose keys are known contributes nothing. */
  lemma NewRowsAllSeen(seen: set<Key>, batch: seq<Row>)
    requires forall i :: 0 <= i < |batch| ==> KeyOf(batch[i]) in seen
    ensures NewRows(seen, batch) == []
  {
  }

  /**
   * Merge of a new batch into a non-empty ledger (update_relations.py 52-56):
   * the existing rows, unchanged and in order, then the batch rows whose key
   * the ledger does not hold yet.
   */
  function Merge(existing: seq<Row>, batch: seq<Row>): (merged: seq<Row>)
    ensures |existing| <= |merged| <= |existing| + |batch|
    ensures merged[..|existing|] == existing
    ensures forall i :: |existing| <= i < |merged| ==>
              merged[i] in batch && KeyOf(merged[i]) !in KeySet(existing)
    ensures forall i :: 0 <= i < |batch| ==> KeyOf(batch[i]) in KeySet(merged)
  {
    var added := NewRows(KeySet(existing), batch);
    var merged := existing + added;
    assert forall i :: 0 <= i < |batch| ==> KeyOf(batch[i]) in KeySet(merged) by {
      KeySetAppend(existing, added);
      forall i | 0 <= i < |batch| ensures KeyOf(batch[i]) in KeySet(existing) + KeySet(added) {
        if KeyOf(batch[i]) !in KeySet(existing) {
          var j :| 0 <= j < |added| && added[j] == batch[i];
          assert KeyOf(added[j]) in KeySet(added);
        }
      }
    }
    assert forall i :: |existing| <= i < |merged| ==>
      merged[i] in batch && KeyOf(merged[i]) !in KeySet(existing) by {
      forall i | |existing| <= i < |merged|
        ensures merged[i] in batch && KeyOf(merged[i]) !in KeySet(existing)
      {
        assert merged[i] == added[i - |existing|];
      }
    }
    assert merged[..|existing|] == existing;
    merged
  }

  /** The keys of two tables stacked are the keys of each. */
  lemma KeySetAppend(a: seq<Row>, b: seq<Row>)
    ensures KeySet(a + b) == KeySet(a) + KeySet(b)
  {
    var ab := a + b;
    forall k | k in KeySet(a) + KeySet(b) ensures k in KeySet(ab) {
      if k in KeySet(a) {
        var i :| 0 <= i < |a| && KeyOf(a[i]) == k;
        assert ab[i] == a[i];
      } else {
        var i :| 0 <= i < |b| && KeyOf(b[i]) == k;
        assert ab[|a| + i] == b[i];
      }
    }
    forall k | k in KeySet(ab) ensures k in KeySet(a) + KeySet(b) {
      var i :| 0 <= i < |ab| && KeyOf(ab[i]) == k;
      if i < |a| {
        assert ab[i] == a[i];
      } else {
        assert ab[i] == b[i - |a|];
      }
    }
  }

  /** Merging the same batch a second time adds nothing. */
  lemma MergeIdempotent(existing: seq<Row>, batch: seq<Row>)
    ensures Merge(Merge(existing, batch), batch) == Merge(existing, batch)
  {
    var m := Merge(existing, batch);
    NewRowsAllSeen(KeySet(m), batch);
    assert m + [] == m;
  }

  /** Rows of the batch whose key is new are all appended, even when they repeat a key among themselves. */
  lemma MergeKeepsBatchDuplicates(existing: seq<Row>, batch: seq<Row>)
    requires forall i :: 0 <= i < |batch| ==> KeyOf(batch[i]) !in KeySet(existing)
    ensures Merge(existing, batch) == existing + batch
  {
    NewRowsAllUnseen(KeySet(existing), batch);
  }

  /** Merge keeps the ledger's key uniqueness when the batch itself has unique keys. */
  lemma MergePreservesUniqueKeys(existing: seq<Row>, batch: seq<Row>)
    requires KeysUnique(existing) && KeysUnique(batch)
    ensures KeysUnique(Merge(existing, batch))
  {
    var added := NewRows(KeySet(existing), batch);
    var m := Merge(existing, batch);
    assert m == existing + added;
    NewRowsUnique(KeySet(existing), batch);
    forall i, j | 0 <= i < j < |m| ensures KeyOf(m[i]) != KeyOf(m[j]) {
      if j >= |existing| && i < |existing| {
        assert KeyOf(m[i]) in KeySet(existing);
      } else if i >= |existing| {
        assert m[i] == added[i - |existing|] && m[j] == added[j - |existing|];
      }
    }
  }

  /** Filtering a key-unique batch leaves it key-unique. */
  lemma {:induction false} NewRowsUnique(seen: set<Key>, batch: seq<Row>)
    requires KeysUnique(batch)
    ensures KeysUnique(NewRows(seen, batch))
  {
    if batch != [] {
      var p := batch[..|batch| - 1];
      var b := batch[|batch| - 1];
      assert KeysUnique(p);
      NewRowsUnique(seen, p);
      var rest := NewRows(seen, p);
      if KeyOf(b) !in seen {
        forall i | 0 <= i < |rest| ensures KeyOf(rest[i]) != KeyOf(b) {
          var k :| 0 <= k < |p| && p[k] == rest[i];
          assert batch[k] == p[k];
        }
      }
    }
  }

  /**
   * The ledger file (`merged_data`). `present` is false while the file does
   * not exist; a missing file holds no rows.
   */
  class LedgerFile {
    var present: bool
    var rows: seq<Row>

    ghost predicate Valid()
      reads this
    {
      present || rows == []
    }

    constructor (present: bool, rows: seq<Row>)
      requires present || rows == []
      ensures Valid()
      ensures this.present == present && this.rows == rows
    {
      this.present := present;
      this.rows := rows;
    }
  }
}
