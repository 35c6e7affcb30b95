/**
 * The bookkeeping of a retraining run (`retrain_models_main`,
 * src/ml/retrain_models.py, lines 41-105): choose the PCA size, label every
 * customer with a cluster, join the labels onto the ledger, and cut the
 * ledger into one training set per cluster label with its rating scale.
 *
 * The fitted pipeline (PowerTransformer, PCA, KMeans) is the parameter
 * `fit`; the SVD models themselves are not computed, only the data and the
 * rating scale each one is trained on.
 */
module Retrain {
  import opened Tables
  import opened Ledger
  import opened CustomerFeatures

  /** Line 58: `min(2, n - 1)` components for `n` customers. */
  function NComponents(n: int): (k: int)
    ensures k <= 2 && k < n
    ensures n >= 3 ==> k == 2
    ensures n <= 2 ==> k == n - 1
  {
    if 2 <= n - 1 then 2 else n - 1
  }

  /**
   * Lines 57-63 as one foreign call: given the customer table, the number
   * of components and the number of clusters, one label per row.
   */
  type FitPredict = (seq<CustomerRow>, int, int) -> seq<int>

  /** A row of `customer_df` with its `KMeans Cluster` column. */
  datatype Labelled = Labelled(row: CustomerRow, cluster: int)

  /**
   * Line 63: the labels become a new column; pandas refuses a column whose
   * length differs from the table's.
   */
  function LabelCustomers(customers: seq<CustomerRow>, clusters: int, fit: FitPredict): (r: Result<seq<Labelled>>)
    ensures r.Ok? <==> |fit(customers, NComponents(|customers|), clusters)| == |customers|
    ensures r.Ok? ==> |r.value| == |customers|
    ensures r.Ok? ==> forall i :: 0 <= i < |customers| ==>
              r.value[i].row == customers[i] &&
              r.value[i].cluster == fit(customers, NComponents(|customers|), clusters)[i]
  {
    var labels := fit(customers, NComponents(|customers|), clusters);
    if |labels| != |customers| then Err("Length of values does not match length of index")
    else Ok(seq(|customers|, i requires 0 <= i < |customers| => Labelled(customers[i], labels[i])))
  }

  /** No Customer ID occurs twice in the labelled table (the `many_to_one` check). */
  predicate UniqueCustomers(t: seq<Labelled>) {
    forall i, j :: 0 <= i < j < |t| ==> t[i].row.customerId != t[j].row.customerId
  }

  /** Customer `c` carries label `l` in the labelled table. */
  predicate InCluster(t: seq<Labelled>, l: int, c: string) {
    exists k :: 0 <= k < |t| && t[k].row.customerId == c && t[k].cluster == l
  }

  /** The label of customer `c`, if the table has a row for `c` (the first one). */
  function LabelOf(t: seq<Labelled>, c: string): (l: Option<int>)
    ensures l.None? <==> forall k :: 0 <= k < |t| ==> t[k].row.customerId != c
    ensures l.Some? ==> InCluster(t, l.value, c)
  {
    if t == [] then None
    else if t[0].row.customerId == c then Some(t[0].cluster)
    else
      var l := LabelOf(t[1..], c);
      assert l.Some? ==> InCluster(t, l.value, c) by {
        if l.Some? {
          var k :| 0 <= k < |t[1..]| && t[1..][k].row.customerId == c && t[1..][k].cluster == l.value;
          assert t[k + 1] == t[1..][k];
        }
      }
      l
  }

  /**
   * Lines 65-68: drop the old cluster column, then left-join each ledger
   * row with its customer's label (missing for a customer without one);
   * the join refuses a customer table with a repeated Customer ID.
   */
  function JoinClusters(rows: seq<Row>, t: seq<Labelled>): (r: Result<seq<Row>>)
    ensures r.Err? <==> !UniqueCustomers(t)
    ensures r.Ok? ==> |r.value| == |rows|
    ensures r.Ok? ==> forall i :: 0 <= i < |rows| ==> r.value[i] == rows[i].(cluster := LabelOf(t, rows[i].customerId))
  {
    if !UniqueCustomers(t) then Err("Merge keys are not unique in right dataset; not a many-to-one merge")
    else Ok(seq(|rows|, i requires 0 <= i < |rows| => rows[i].(cluster := LabelOf(t, rows[i].customerId))))
  }

  /** With unique customers, a joined row carries exactly the label its customer was given. */
  lemma JoinedLabelIsCustomers(rows: seq<Row>, t: seq<Labelled>, i: nat, l: int)
    requires UniqueCustomers(t) && i < |rows|
    ensures JoinClusters(rows, t).value[i].cluster == Some(l) <==> InCluster(t, l, rows[i].customerId)
  {
    var c := rows[i].customerId;
    if InCluster(t, l, c) {
      var k :| 0 <= k < |t| && t[k].row.customerId == c && t[k].cluster == l;
      var m := LabelOf(t, c);
      var k2 :| 0 <= k2 < |t| && t[k2].row.customerId == c && t[k2].cluster == m.value;
      assert k == k2;
    }
  }

  /** The old cluster column plays no part: joining ledgers that differ only there gives the same table. */
  lemma JoinIgnoresOldClusters(rows: seq<Row>, rows2: seq<Row>, t: seq<Labelled>)
    requires |rows| == |rows2|
    requires forall i :: 0 <= i < |rows| ==> rows2[i] == rows[i].(cluster := rows2[i].cluster)
    ensures JoinClusters(rows, t) == JoinClusters(rows2, t)
  {
    if UniqueCustomers(t) {
      var a := JoinClusters(rows, t).value;
      var b := JoinClusters(rows2, t).value;
      forall i | 0 <= i < |rows| ensures a[i] == b[i] {
        assert rows2[i].customerId == rows[i].customerId;
      }
      assert a == b;
    }
  }

  /** A training triple (line 86): customer, product and quantity. */
  datatype Interaction = Interaction(customerId: string, productId: string, quantity: Num)

  function InteractionOf(r: Row): Interaction {
    Interaction(r.customerId, r.productId, r.quantity)
  }

  /** Lines 83-86: the ledger rows of the customers labelled `l`, in ledger order. */
  function ClusterData(rows: seq<Row>, t: seq<Labelled>, l: int): (d: seq<Interaction>)
    ensures |d| <= |rows|
    ensures forall i :: 0 <= i < |d| ==> InCluster(t, l, d[i].customerId)
  {
    if rows == [] then []
    else
      var rest := ClusterData(rows[..|rows| - 1], t, l);
      var r := rows[|rows| - 1];
      if InCluster(t, l, r.customerId) then rest + [InteractionOf(r)] else rest
  }

  /** Every ledger row of a customer labelled `l` is among the training triples. */
  lemma {:induction false} ClusterDataHasRow(rows: seq<Row>, t: seq<Labelled>, l: int, i: nat)
    requires i < |rows| && InCluster(t, l, rows[i].customerId)
    ensures exists k :: 0 <= k < |ClusterData(rows, t, l)| && ClusterData(rows, t, l)[k] == InteractionOf(rows[i])
  {
    var p := rows[..|rows| - 1];
    if i < |p| {
      assert p[i] == rows[i];
      ClusterDataHasRow(p, t, l, i);
      var k :| 0 <= k < |ClusterData(p, t, l)| && ClusterData(p, t, l)[k] == InteractionOf(rows[i]);
      assert ClusterData(rows, t, l)[k] == InteractionOf(rows[i]);
    } else {
      var d := ClusterData(rows, t, l);
      assert d[|d| - 1] == InteractionOf(rows[i]);
    }
  }

  /** Every training triple comes from a ledger row. */
  lemma {:induction false} ClusterDataFromLedger(rows: seq<Row>, t: seq<Labelled>, l: int, k: nat)
    requires k < |ClusterData(rows, t, l)|
    ensures exists i :: 0 <= i < |rows| && InteractionOf(rows[i]) == ClusterData(rows, t, l)[k]
  {
    var p := rows[..|rows| - 1];
    if k < |ClusterData(p, t, l)| {
      ClusterDataFromLedger(p, t, l, k);
      var i :| 0 <= i < |p| && InteractionOf(p[i]) == ClusterData(p, t, l)[k];
      assert rows[i] == p[i];
    } else {
      assert InteractionOf(rows[|rows| - 1]) == ClusterData(rows, t, l)[k];
    }
  }

  /** With unique customers, the training sets of two different labels share no customer. */
  lemma ClustersDisjoint(rows: seq<Row>, t: seq<Labelled>, l1: int, l2: int, i: nat, j: nat)
    requires UniqueCustomers(t) && l1 != l2
    requires i < |ClusterData(rows, t, l1)| && j < |ClusterData(rows, t, l2)|
    ensures ClusterData(rows, t, l1)[i].customerId != ClusterData(rows, t, l2)[j].customerId
  {
  }

  /** The quantities of training triples that are numbers. */
  function NumericQuantities(d: seq<Interaction>): (qs: seq<real>)
    ensures forall q :: q in qs <==> exists i :: 0 <= i < |d| && d[i].quantity == Some(q)
  {
    var cells := seq(|d|, i requires 0 <= i < |d| => d[i].quantity);
    assert forall i :: 0 <= i < |d| ==> cells[i] == d[i].quantity;
    Present(cells)
  }

  function MinOf(xs: seq<real>): (m: real)
    requires xs != []
    ensures forall i :: 0 <= i < |xs| ==> m <= xs[i]
    ensures m in xs
  {
    if |xs| == 1 then xs[0]
    else
      var m := MinOf(xs[..|xs| - 1]);
      if xs[|xs| - 1] < m then xs[|xs| - 1] else m
  }

  function MaxOf(xs: seq<real>): (m: real)
    requires xs != []
    ensures forall i :: 0 <= i < |xs| ==> xs[i] <= m
    ensures m in xs
  {
    if |xs| == 1 then xs[0]
    else
      var m := MaxOf(xs[..|xs| - 1]);
      if xs[|xs| - 1] > m then xs[|xs| - 1] else m
  }

  /**
   * Line 87: `(min, max)` of the Quantity column, skipping NaN; a column
   * with no number has no scale (both ends NaN).
   */
  function RatingScale(d: seq<Interaction>): (s: Option<(real, real)>)
    ensures s.None? <==> forall i :: 0 <= i < |d| ==> d[i].quantity.None?
    ensures s.Some? ==> forall i :: 0 <= i < |d| && d[i].quantity.Some? ==>
              s.value.0 <= d[i].quantity.value <= s.value.1
    ensures s.Some? ==> (exists i :: 0 <= i < |d| && d[i].quantity == Some(s.value.0)) &&
                        (exists i :: 0 <= i < |d| && d[i].quantity == Some(s.value.1))
  {
    var qs := NumericQuantities(d);
    if qs == [] then
      None
    else
      var lo := MinOf(qs);
      var hi := MaxOf(qs);
      assert forall i :: 0 <= i < |d| && d[i].quantity.Some? ==> lo <= d[i].quantity.value <= hi by {
        forall i | 0 <= i < |d| && d[i].quantity.Some? ensures lo <= d[i].quantity.value <= hi {
          assert d[i].quantity.value in qs;
        }
      }
      Some((lo, hi))
  }

  /** What lines 83-89 fit one SVD model on. */
  datatype CfJob = CfJob(cluster: int, data: seq<Interaction>, scale: Option<(real, real)>)

  function JobFor(rows: seq<Row>, t: seq<Labelled>, l: int): CfJob {
    var d := ClusterData(rows, t, l);
    CfJob(l, d, RatingScale(d))
  }

  /** Line 82: the distinct labels, in order of first appearance. */
  function Labels(t: seq<Labelled>): (ls: seq<int>)
    ensures NoDup(ls)
    ensures forall i :: 0 <= i < |ls| ==> exists k :: 0 <= k < |t| && t[k].cluster == ls[i]
    ensures forall k :: 0 <= k < |t| ==> t[k].cluster in ls
  {
    var col := seq(|t|, k requires 0 <= k < |t| => t[k].cluster);
    var ls := Dedup(col);
    forall i | 0 <= i < |ls| ensures exists k :: 0 <= k < |t| && t[k].cluster == ls[i] {
      assert ls[i] in col;
    }
    assert forall k :: 0 <= k < |t| ==> col[k] == t[k].cluster;
    ls
  }

  /** Lines 82-93: one training job per label present, in order of first appearance. */
  method TrainCfModels(rows: seq<Row>, t: seq<Labelled>) returns (jobs: seq<CfJob>)
    ensures |jobs| == |Labels(t)|
    ensures forall k :: 0 <= k < |jobs| ==> jobs[k] == JobFor(rows, t, Labels(t)[k])
  {
    var labels := Labels(t);
    jobs := [];
    for k := 0 to |labels|
      invariant |jobs| == k
      invariant forall m :: 0 <= m < k ==> jobs[m] == JobFor(rows, t, labels[m])
    {
      jobs := jobs + [JobFor(rows, t, labels[k])];
    }
  }

  /**
   * The server loads a model for every id in `range(CLUSTER_NUMBER)`
   * (src/main.py, lines 49-51), but a run trains only the labels some
   * customer carries: a label gets a job exactly when some customer carries
   * it, so an id in that range that no customer carries gets none.
   */
  lemma CarriedLabelsGetJobs(t: seq<Labelled>, l: int)
    ensures l in Labels(t) <==> exists k :: 0 <= k < |t| && t[k].cluster == l
  {
    if l in Labels(t) {
      var i :| 0 <= i < |Labels(t)| && Labels(t)[i] == l;
    }
  }

  /** What a completed retraining run produces besides the saved ledger. */
  datatype RetrainOutputs = RetrainOutputs(nComponents: int, customers: seq<Labelled>, jobs: seq<CfJob>)

  /**
   * `retrain_models_main` over the ledger file and the customer table with
   * `clusters` clusters (the configured `cluster_number`). Any raised error
   * ends the run before anything is saved.
   */
  method RetrainModelsMain(ledger: LedgerFile, customers: seq<CustomerRow>, clusters: int, fit: FitPredict)
    returns (r: Result<RetrainOutputs>)
    requires ledger.Valid()
    modifies ledger
    ensures ledger.Valid() && ledger.present == old(ledger.present)
    ensures r.Err? ==> ledger.rows == old(ledger.rows)
    ensures r.Ok? <==>
              old(ledger.present) && !HasBadDate(old(ledger.rows)) &&
              LabelCustomers(customers, clusters, fit).Ok? &&
              UniqueCustomers(LabelCustomers(customers, clusters, fit).value)
    ensures r.Ok? ==>
              var t := LabelCustomers(customers, clusters, fit).value;
              r.value.nComponents == NComponents(|customers|) && r.value.customers == t &&
              ledger.rows == JoinClusters(old(ledger.rows), t).value &&
              |r.value.jobs| == |Labels(t)| &&
              forall k :: 0 <= k < |r.value.jobs| ==> r.value.jobs[k] == JobFor(ledger.rows, t, Labels(t)[k])
  {
    // Lines 41-49: the ledger must exist and its dates must parse.
    if !ledger.present {
      return Err("No such file: merged data");
    }
    var df := ledger.rows;
    if HasBadDate(df) {
      return Err("Unknown datetime string format");
    }
    // Lines 54-63.
    var labelled := LabelCustomers(customers, clusters, fit);
    if labelled.Err? {
      return Err(labelled.msg);
    }
    var t := labelled.value;
    // Lines 65-68.
    var joined := JoinClusters(df, t);
    if joined.Err? {
      return Err(joined.msg);
    }
    df := joined.value;
    // Lines 80-96.
    var jobs := TrainCfModels(df, t);
    // Lines 99-101.
    ledger.rows := df;
    r := Ok(RetrainOutputs(NComponents(|customers|), t, jobs));
  }
}
