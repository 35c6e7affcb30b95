/**
 * The three normalized tables a feature run writes
 * (src/ml/update_relations.py, lines 83-95): each is a column projection of
 * the preprocessed ledger with duplicate rows removed.
 */
module Projections {
  import opened Tables
  import opened FeatureDerivation

  /** A row of `order_info_norm`. */
  datatype OrderInfo = OrderInfo(
    orderId: int, customerId: string, warehouseId: string, age: int,
    gender: string, date: int, recency: int, gap: int)

  /** A row of `order_line_norm`. */
  datatype OrderLineInfo = OrderLineInfo(
    orderId: int, productId: string, skuId: string, category: Text,
    quantity: Num, price: Num, sales: Num)

  /** A row of `product_norm`. */
  datatype ProductInfo = ProductInfo(productId: string, skuId: string, category: Text, price: Num)

  function InfoOf(f: Fact): OrderInfo {
    OrderInfo(f.orderId, f.customerId, f.warehouseId, f.age, f.gender, f.date, f.recency, f.gap)
  }

  function LineOf(f: Fact): OrderLineInfo {
    OrderLineInfo(f.orderId, f.productId, f.skuId, f.category, f.quantity, f.price, f.sales)
  }

  function ProductOf(f: Fact): ProductInfo {
    ProductInfo(f.productId, f.skuId, f.category, f.price)
  }

  /** Lines 83-84: the order-header projection, without duplicate rows. */
  function OrderInfoTable(facts: seq<Fact>): (t: seq<OrderInfo>)
    ensures NoDup(t)
    ensures forall i :: 0 <= i < |facts| ==> InfoOf(facts[i]) in t
    ensures forall k :: 0 <= k < |t| ==> exists i :: 0 <= i < |facts| && InfoOf(facts[i]) == t[k]
  {
    var projected := seq(|facts|, i requires 0 <= i < |facts| => InfoOf(facts[i]));
    assert forall i :: 0 <= i < |facts| ==> projected[i] == InfoOf(facts[i]);
    Dedup(projected)
  }

  /** Lines 88-89: the order-line projection, without duplicate rows. */
  function OrderLineTable(facts: seq<Fact>): (t: seq<OrderLineInfo>)
    ensures NoDup(t)
    ensures forall i :: 0 <= i < |facts| ==> LineOf(facts[i]) in t
    ensures forall k :: 0 <= k < |t| ==> exists i :: 0 <= i < |facts| && LineOf(facts[i]) == t[k]
  {
    var projected := seq(|facts|, i requires 0 <= i < |facts| => LineOf(facts[i]));
    assert forall i :: 0 <= i < |facts| ==> projected[i] == LineOf(facts[i]);
    Dedup(projected)
  }

  /** Line 93: the product projection, without duplicate rows. */
  function ProductTable(facts: seq<Fact>): (t: seq<ProductInfo>)
    ensures NoDup(t)
    ensures forall i :: 0 <= i < |facts| ==> ProductOf(facts[i]) in t
    ensures forall k :: 0 <= k < |t| ==> exists i :: 0 <= i < |facts| && ProductOf(facts[i]) == t[k]
  {
    var projected := seq(|facts|, i requires 0 <= i < |facts| => ProductOf(facts[i]));
    assert forall i :: 0 <= i < |facts| ==> projected[i] == ProductOf(facts[i]);
    Dedup(projected)
  }

  /**
   * When the ledger's keys are unique, the order-line table keeps one row per
   * ledger row: no two facts project to the same order line.
   */
  lemma OrderLinesOnePerFact(facts: seq<Fact>)
    requires forall i, j :: 0 <= i < j < |facts| ==>
               (facts[i].orderId, facts[i].productId, facts[i].skuId) != (facts[j].orderId, facts[j].productId, facts[j].skuId)
    ensures |OrderLineTable(facts)| == |facts|
  {
    var projected := seq(|facts|, i requires 0 <= i < |facts| => LineOf(facts[i]));
    assert NoDup(projected) by {
      forall i, j | 0 <= i < j < |projected| ensures projected[i] != projected[j] {
        assert projected[i].orderId == facts[i].orderId && projected[j].orderId == facts[j].orderId;
      }
    }
    DedupOfNoDup(projected);
  }
}
