/**
 * The customer feature table (src/ml/update_relations.py, lines 103-111):
 * `groupby('Customer ID').agg(...)` over the preprocessed ledger, one row
 * per customer.
 */
module CustomerFeatures {
  import opened Tables
  import opened FeatureDerivation

  /** One row of `customer_df`. */
  datatype CustomerRow = CustomerRow(
    customerId: string,
    totalSpend: real,
    purchaseFrequency: nat,
    avgBasketSize: Num,
    catDiversity: nat,
    recency: int,
    gap: real,
    age: int)

  /** The Sales column. */
  function SalesColumn(fs: seq<Fact>): seq<Num> {
    seq(|fs|, i requires 0 <= i < |fs| => fs[i].sales)
  }

  /** Sales summed row by row, NaN counting as nothing: pandas `sum` of the Sales column. */
  function SumSales(fs: seq<Fact>): (total: real)
    ensures total == SumNum(SalesColumn(fs))
  {
    if fs == [] then 0.0
    else
      var p := fs[..|fs| - 1];
      var x := fs[|fs| - 1];
      var rest := SumSales(p);
      assert SalesColumn(fs) == SalesColumn(p) + [x.sales];
      assert SalesColumn(fs)[..|fs| - 1] == SalesColumn(p);
      var xs := Present(SalesColumn(fs));
      assert x.sales.Some? ==> xs[..|xs| - 1] == Present(SalesColumn(p)) && xs[|xs| - 1] == x.sales.value;
      rest + (match x.sales case Some(v) => v case None => 0.0)
  }

  function MaxDate(rs: seq<Fact>): (d: int)
    requires rs != []
    ensures forall i :: 0 <= i < |rs| ==> rs[i].date <= d
    ensures exists i :: 0 <= i < |rs| && rs[i].date == d
  {
    if |rs| == 1 then rs[0].date
    else
      var m := MaxDate(rs[..|rs| - 1]);
      if rs[|rs| - 1].date > m then rs[|rs| - 1].date else m
  }

  function OrderIds(rs: seq<Fact>): seq<int> {
    seq(|rs|, i requires 0 <= i < |rs| => rs[i].orderId)
  }

  function Categories(rs: seq<Fact>): seq<Text> {
    seq(|rs|, i requires 0 <= i < |rs| => rs[i].category)
  }

  function Quantities(rs: seq<Fact>): seq<Num> {
    seq(|rs|, i requires 0 <= i < |rs| => rs[i].quantity)
  }

  /** Line 105: `nunique` of Order ID, the number of distinct orders. */
  function PurchaseFrequency(rs: seq<Fact>): (n: nat)
    ensures n == |set i | 0 <= i < |rs| :: rs[i].orderId|
    ensures n <= |rs| && (rs != [] ==> 1 <= n)
  {
    OrderIdValues(rs);
    DistinctCount(OrderIds(rs))
  }

  /** Line 107: `nunique` of Category, which does not count missing cells. */
  function CatDiversity(rs: seq<Fact>): (n: nat)
    ensures n == |set i | 0 <= i < |rs| && rs[i].category.Some? :: rs[i].category.value|
    ensures n <= |rs|
    ensures n == 0 <==> forall i :: 0 <= i < |rs| ==> rs[i].category.None?
  {
    CategoryValues(rs);
    PresentEmpty(Categories(rs));
    assert forall i :: 0 <= i < |rs| ==> Categories(rs)[i] == rs[i].category;
    DistinctCount(Present(Categories(rs)))
  }

  /** Line 106: the mean Quantity, skipping NaN; NaN when no quantity is a number. */
  function AvgBasketSize(rs: seq<Fact>): (m: Num)
    ensures m.None? <==> forall i :: 0 <= i < |rs| ==> rs[i].quantity.None?
    ensures m.Some? ==> IsMeanOf(m.value, Present(Quantities(rs)))
  {
    var qs := Quantities(rs);
    assert (forall i :: 0 <= i < |qs| ==> qs[i].None?) <==> (forall i :: 0 <= i < |rs| ==> rs[i].quantity.None?) by {
      assert |qs| == |rs| && forall i :: 0 <= i < |rs| ==> qs[i] == rs[i].quantity;
    }
    MeanNum(qs)
  }

  /** `g` is the mean Order Gap of `rs`: `g` times the number of rows is the sum of their gaps. */
  predicate IsMeanGap(g: real, rs: seq<Fact>) {
    g * (|rs| as real) == SumGaps(rs) as real
  }

  /** Line 109: the mean Order Gap of the customer's rows. */
  function MeanGap(rs: seq<Fact>): (g: real)
    requires rs != []
    ensures IsMeanGap(g, rs)
  {
    Quotient(SumGaps(rs) as real, |rs| as real)
  }

  /**
   * Lines 104-110 for the rows `rs` of customer `c` (in table order):
   * sum of Sales, distinct orders, mean quantity, distinct categories, days
   * since the latest date, mean gap, and the age on the first row.
   */
  function Aggregate(rs: seq<Fact>, c: string, today: int): (r: CustomerRow)
    requires rs != []
    ensures r.customerId == c
    ensures forall i :: 0 <= i < |rs| ==> r.recency <= today - rs[i].date
    ensures exists i :: 0 <= i < |rs| && r.recency == today - rs[i].date
  {
    CustomerRow(
      c,
      SumSales(rs),
      PurchaseFrequency(rs),
      AvgBasketSize(rs),
      CatDiversity(rs),
      today - MaxDate(rs),
      MeanGap(rs),
      rs[0].age)
  }

  /**
   * Every column of an aggregated row, by what it means: the NaN-skipping
   * Sales sum, the number of distinct orders, the mean non-NaN quantity, the
   * number of distinct non-missing categories, the gaps' mean and the age
   * of the first row.
   */
  lemma AggregateColumns(rs: seq<Fact>, c: string, today: int)
    requires rs != []
    ensures var r := Aggregate(rs, c, today);
            r.totalSpend == SumNum(SalesColumn(rs)) &&
            r.purchaseFrequency == |set i | 0 <= i < |rs| :: rs[i].orderId| &&
            (r.avgBasketSize.None? <==> forall i :: 0 <= i < |rs| ==> rs[i].quantity.None?) &&
            (r.avgBasketSize.Some? ==> IsMeanOf(r.avgBasketSize.value, Present(Quantities(rs)))) &&
            r.catDiversity == |set i | 0 <= i < |rs| && rs[i].category.Some? :: rs[i].category.value| &&
            IsMeanGap(r.gap, rs) &&
            r.age == rs[0].age
  {
    var r := Aggregate(rs, c, today);
    assert r.totalSpend == SumSales(rs);
    assert r.purchaseFrequency == PurchaseFrequency(rs);
    assert r.avgBasketSize == AvgBasketSize(rs);
    assert r.catDiversity == CatDiversity(rs);
    assert r.gap == MeanGap(rs);
  }

  /** The distinct values of the Order ID column are the Order IDs of the rows. */
  lemma OrderIdValues(rs: seq<Fact>)
    ensures (set x | x in OrderIds(rs)) == (set i | 0 <= i < |rs| :: rs[i].orderId)
  {
    var ids := OrderIds(rs);
    forall x | x in ids ensures x in (set i | 0 <= i < |rs| :: rs[i].orderId) {
      var i :| 0 <= i < |ids| && ids[i] == x;
    }
    forall i | 0 <= i < |rs| ensures rs[i].orderId in ids {
      assert ids[i] == rs[i].orderId;
    }
  }

  /** The distinct non-missing values of the Category column are the categories of the rows that have one. */
  lemma CategoryValues(rs: seq<Fact>)
    ensures (set x | x in Present(Categories(rs))) ==
            (set i | 0 <= i < |rs| && rs[i].category.Some? :: rs[i].category.value)
  {
    var cs := Categories(rs);
    var known := Present(cs);
    forall x | x in known
      ensures x in (set i | 0 <= i < |rs| && rs[i].category.Some? :: rs[i].category.value)
    {
      assert Some(x) in cs;
      var i :| 0 <= i < |cs| && cs[i] == Some(x);
      assert rs[i].category == Some(x);
    }
    forall i | 0 <= i < |rs| && rs[i].category.Some? ensures rs[i].category.value in known {
      assert cs[i] == rs[i].category;
    }
  }

  /** The Customer ID column. */
  function CustomerIds(facts: seq<Fact>): seq<string> {
    seq(|facts|, i requires 0 <= i < |facts| => facts[i].customerId)
  }

  /** Every row of a customer is in that customer's group. */
  lemma {:induction false} InGroup(s: seq<Fact>, i: nat)
    requires i < |s|
    ensures exists k :: 0 <= k < |OfCustomer(s, s[i].customerId)| && OfCustomer(s, s[i].customerId)[k] == s[i]
  {
    var p := s[..|s| - 1];
    if i < |p| {
      InGroup(p, i);
      var k :| 0 <= k < |OfCustomer(p, p[i].customerId)| && OfCustomer(p, p[i].customerId)[k] == p[i];
      assert s[i] == p[i];
      if s[|s| - 1].customerId == s[i].customerId {
        assert OfCustomer(s, s[i].customerId) == OfCustomer(p, p[i].customerId) + [s[|s| - 1]];
        assert OfCustomer(s, s[i].customerId)[k] == s[i];
      } else {
        assert OfCustomer(s, s[i].customerId) == OfCustomer(p, p[i].customerId);
      }
    } else {
      var g := OfCustomer(s, s[i].customerId);
      assert g[|g| - 1] == s[i];
    }
  }

  /** A group holds rows of the table only. */
  lemma {:induction false} FromTable(s: seq<Fact>, c: string, k: nat)
    requires k < |OfCustomer(s, c)|
    ensures exists i :: 0 <= i < |s| && s[i] == OfCustomer(s, c)[k]
  {
    var p := s[..|s| - 1];
    if k < |OfCustomer(p, c)| {
      FromTable(p, c, k);
      var i :| 0 <= i < |p| && p[i] == OfCustomer(p, c)[k];
      assert s[i] == OfCustomer(s, c)[k];
    } else {
      assert s[|s| - 1] == OfCustomer(s, c)[k];
    }
  }

  /** One aggregated row per customer of `ids`, in the order of `ids`. */
  function GroupRows(ids: seq<string>, facts: seq<Fact>, today: int): (t: seq<CustomerRow>)
    requires forall k :: 0 <= k < |ids| ==> OfCustomer(facts, ids[k]) != []
    ensures |t| == |ids|
    ensures forall k :: 0 <= k < |t| ==> t[k].customerId == ids[k]
  {
    seq(|ids|, k requires 0 <= k < |ids| => Aggregate(OfCustomer(facts, ids[k]), ids[k], today))
  }

  /** Every customer of the Customer ID column has at least one row. */
  lemma GroupsNonEmpty(facts: seq<Fact>, ids: seq<string>)
    requires forall k :: 0 <= k < |ids| ==> ids[k] in CustomerIds(facts)
    ensures forall k :: 0 <= k < |ids| ==> OfCustomer(facts, ids[k]) != []
  {
    forall k | 0 <= k < |ids| ensures OfCustomer(facts, ids[k]) != [] {
      var i :| 0 <= i < |facts| && CustomerIds(facts)[i] == ids[k];
      InGroup(facts, i);
    }
  }

  /** The Customer ID column of the customer table. */
  function TableIds(t: seq<CustomerRow>): seq<string> {
    seq(|t|, k requires 0 <= k < |t| => t[k].customerId)
  }

  /**
   * The group keys of `groupby('Customer ID')`: every Customer ID of the
   * table once, in increasing order.
   */
  function GroupKeys(facts: seq<Fact>): (ids: seq<string>)
    ensures StrictlySorted(ids)
    ensures forall k :: 0 <= k < |ids| ==> ids[k] in CustomerIds(facts)
    ensures forall i :: 0 <= i < |facts| ==> CustomerIds(facts)[i] in ids
  {
    var col := CustomerIds(facts);
    var distinct := Dedup(col);
    SortStringsSorted(distinct);
    var ids := SortStrings(distinct);
    forall k | 0 <= k < |ids| ensures ids[k] in col {
      assert ids[k] in multiset(distinct);
      var j :| 0 <= j < |distinct| && distinct[j] == ids[k];
    }
    forall i | 0 <= i < |facts| ensures col[i] in ids {
      var j :| 0 <= j < |distinct| && distinct[j] == col[i];
      assert distinct[j] in multiset(ids);
    }
    ids
  }

  /**
   * The table `customer_df`: one aggregated row per distinct customer, in
   * increasing Customer ID order as `groupby` yields them.
   */
  function CustomerTable(facts: seq<Fact>, today: int): (t: seq<CustomerRow>)
    ensures forall i, j :: 0 <= i < j < |t| ==> StrLt(t[i].customerId, t[j].customerId)
    ensures forall i :: 0 <= i < |facts| ==> facts[i].customerId in TableIds(t)
    ensures forall k :: 0 <= k < |t| ==> t[k].customerId in CustomerIds(facts)
  {
    var ids := GroupKeys(facts);
    GroupsNonEmpty(facts, ids);
    KeyedTable(ids, facts, today);
    GroupRows(ids, facts, today)
  }

  /** Aggregating the groups of sorted, complete keys gives a sorted, complete table. */
  lemma KeyedTable(ids: seq<string>, facts: seq<Fact>, today: int)
    requires StrictlySorted(ids)
    requires forall k :: 0 <= k < |ids| ==> ids[k] in CustomerIds(facts)
    requires forall i :: 0 <= i < |facts| ==> CustomerIds(facts)[i] in ids
    requires forall k :: 0 <= k < |ids| ==> OfCustomer(facts, ids[k]) != []
    ensures var t := GroupRows(ids, facts, today);
            (forall i, j :: 0 <= i < j < |t| ==> StrLt(t[i].customerId, t[j].customerId)) &&
            (forall i :: 0 <= i < |facts| ==> facts[i].customerId in TableIds(t)) &&
            (forall k :: 0 <= k < |t| ==> t[k].customerId in CustomerIds(facts))
  {
    var t := GroupRows(ids, facts, today);
    assert TableIds(t) == ids;
    assert forall i :: 0 <= i < |facts| ==> facts[i].customerId == CustomerIds(facts)[i];
  }


  /** Row `k` of the table aggregates exactly the rows of its customer. */
  lemma CustomerTableAt(facts: seq<Fact>, today: int, k: nat)
    requires k < |CustomerTable(facts, today)|
    ensures var row := CustomerTable(facts, today)[k];
            OfCustomer(facts, row.customerId) != [] &&
            row == Aggregate(OfCustomer(facts, row.customerId), row.customerId, today)
  {
    var ids := GroupKeys(facts);
    GroupsNonEmpty(facts, ids);
  }

  /** A customer's recency is the smallest Recency among that customer's rows. */
  lemma RecencyIsMinimum(facts: seq<Fact>, today: int, k: nat)
    requires forall i :: 0 <= i < |facts| ==> facts[i].recency == today - facts[i].date
    requires k < |CustomerTable(facts, today)|
    ensures var row := CustomerTable(facts, today)[k];
            (forall i :: 0 <= i < |facts| && facts[i].customerId == row.customerId ==> row.recency <= facts[i].recency) &&
            (exists i :: 0 <= i < |facts| && facts[i].customerId == row.customerId && row.recency == facts[i].recency)
  {
    var row := CustomerTable(facts, today)[k];
    var c := row.customerId;
    assert OfCustomer(facts, c) != [] && row.recency == today - MaxDate(OfCustomer(facts, c)) by {
      CustomerTableAt(facts, today, k);
    }
    GroupLatest(facts, c);
  }

  /** The latest date of a customer's group is the latest date among that customer's rows. */
  lemma GroupLatest(facts: seq<Fact>, c: string)
    requires OfCustomer(facts, c) != []
    ensures forall i :: 0 <= i < |facts| && facts[i].customerId == c ==> facts[i].date <= MaxDate(OfCustomer(facts, c))
    ensures exists i :: 0 <= i < |facts| && facts[i].customerId == c && facts[i].date == MaxDate(OfCustomer(facts, c))
  {
    var rs := OfCustomer(facts, c);
    forall i | 0 <= i < |facts| && facts[i].customerId == c
      ensures facts[i].date <= MaxDate(rs)
    {
      InGroup(facts, i);
      var j :| 0 <= j < |rs| && rs[j] == facts[i];
    }
    var j :| 0 <= j < |rs| && rs[j].date == MaxDate(rs);
    FromTable(facts, c, j);
    var i :| 0 <= i < |facts| && facts[i] == rs[j];
  }

  /** A group of a table sorted by (Customer ID, Date) is sorted by date. */
  lemma {:induction false} OfCustomerSorted(s: seq<Fact>, c: string)
    requires SortedByCustomerDate(s)
    ensures forall i, j :: 0 <= i < j < |OfCustomer(s, c)| ==> OfCustomer(s, c)[i].date <= OfCustomer(s, c)[j].date
  {
    if s != [] {
      var p := s[..|s| - 1];
      var x := s[|s| - 1];
      assert SortedByCustomerDate(p);
      OfCustomerSorted(p, c);
      if x.customerId == c {
        var rs := OfCustomer(p, c);
        forall i | 0 <= i < |rs| ensures rs[i].date <= x.date {
          FromTable(p, c, i);
          var k :| 0 <= k < |p| && p[k] == rs[i];
          assert FactLe(s[k], s[|s| - 1]);
          FactLeSameCustomer(s[k], x);
        }
      }
    }
  }

  /** On the sorted table, a customer's `age` comes from that customer's earliest-dated row. */
  lemma AgeFromEarliestRow(facts: seq<Fact>, today: int, k: nat)
    requires SortedByCustomerDate(facts)
    requires k < |CustomerTable(facts, today)|
    ensures var row := CustomerTable(facts, today)[k];
            exists i :: 0 <= i < |facts| && facts[i].customerId == row.customerId && facts[i].age == row.age &&
              forall j :: 0 <= j < |facts| && facts[j].customerId == row.customerId ==> facts[i].date <= facts[j].date
  {
    var row := CustomerTable(facts, today)[k];
    var c := row.customerId;
    assert OfCustomer(facts, c) != [] && row.age == OfCustomer(facts, c)[0].age by {
      CustomerTableAt(facts, today, k);
    }
    var i := EarliestOfGroup(facts, c);
  }

  /** The first row of a customer's group, on the sorted table, has that customer's earliest date. */
  lemma EarliestOfGroup(facts: seq<Fact>, c: string) returns (i: nat)
    requires SortedByCustomerDate(facts)
    requires OfCustomer(facts, c) != []
    ensures i < |facts| && facts[i] == OfCustomer(facts, c)[0] && facts[i].customerId == c
    ensures forall j :: 0 <= j < |facts| && facts[j].customerId == c ==> facts[i].date <= facts[j].date
  {
    var rs := OfCustomer(facts, c);
    OfCustomerSorted(facts, c);
    FromTable(facts, c, 0);
    i :| 0 <= i < |facts| && facts[i] == rs[0];
    forall j | 0 <= j < |facts| && facts[j].customerId == c ensures facts[i].date <= facts[j].date {
      InGroup(facts, j);
      var m :| 0 <= m < |rs| && rs[m] == facts[j];
    }
  }

  /** Filling in gaps keeps each customer's number of rows. */
  lemma {:induction false} GroupSizeKept(s: seq<Fact>, c: string)
    ensures |OfCustomer(WithGaps(s), c)| == |OfCustomer(s, c)|
  {
    if s != [] {
      var p, x := s[..|s| - 1], s[|s| - 1];
      assert s == p + [x];
      GroupSizeKept(p, c);
      LastGap(p, x);
      OfCustomerSnoc(p, x, c);
      OfCustomerSnoc(WithGaps(p), x.(gap := GapAt(s, |p|)), c);
    }
  }

  /** `gap` is the span of `rs` (latest minus earliest date) spread over its rows. */
  predicate SpreadOver(gap: real, rs: seq<Fact>) {
    rs != [] && gap * (|rs| as real) == Span(rs) as real
  }

  /**
   * A customer's mean gap is the days between the customer's first and last
   * row spread over their rows: on the sorted table, latest minus earliest
   * date, divided by the number of rows.
   */
  lemma MeanGapIsSpan(s: seq<Fact>, today: int, k: nat)
    requires k < |CustomerTable(WithGaps(s), today)|
    ensures var row := CustomerTable(WithGaps(s), today)[k];
            SpreadOver(row.gap, OfCustomer(s, row.customerId))
  {
    var facts := WithGaps(s);
    var row := CustomerTable(facts, today)[k];
    var c := row.customerId;
    var g := OfCustomer(facts, c);
    var rs := OfCustomer(s, c);
    assert g != [] && row.gap == MeanGap(g) by {
      CustomerTableAt(facts, today, k);
    }
    assert |g| == |rs| by {
      GroupSizeKept(s, c);
    }
    assert SumGaps(g) == Span(rs) by {
      GapsTelescope(s, c);
    }
    SpreadGaps(g, rs);
  }

  /** A group whose gaps add up to the span of `rs` has a mean gap spread over `rs`. */
  lemma SpreadGaps(g: seq<Fact>, rs: seq<Fact>)
    requires g != [] && |g| == |rs| && SumGaps(g) == Span(rs)
    ensures SpreadOver(MeanGap(g), rs)
  {
  }

  /** Sum of `SumSales` over the groups of the customers `cs`. */
  function SalesByCustomer(cs: seq<string>, facts: seq<Fact>): real {
    if cs == [] then 0.0
    else SalesByCustomer(cs[..|cs| - 1], facts) + SumSales(OfCustomer(facts, cs[|cs| - 1]))
  }

  lemma {:induction false} SalesByCustomerSnoc(cs: seq<string>, p: seq<Fact>, x: Fact)
    requires NoDup(cs)
    ensures SalesByCustomer(cs, p + [x]) ==
            SalesByCustomer(cs, p) + (if x.customerId in cs then SumSales([x]) else 0.0)
  {
    if cs != [] {
      var q := cs[..|cs| - 1];
      assert NoDup(q);
      SalesByCustomerSnoc(q, p, x);
      assert (p + [x])[..|p|] == p;
      var c := cs[|cs| - 1];
      if x.customerId == c {
        assert x.customerId !in q by {
          forall i | 0 <= i < |q| ensures q[i] != c {
            assert cs[i] != cs[|cs| - 1];
          }
        }
      }
      assert x.customerId in cs <==> x.customerId in q || x.customerId == c;
    }
  }

  /** Splitting the sales by customer loses and duplicates nothing. */
  lemma {:induction false} SalesByCustomerTotal(cs: seq<string>, facts: seq<Fact>)
    requires NoDup(cs)
    requires forall i :: 0 <= i < |facts| ==> facts[i].customerId in cs
    ensures SalesByCustomer(cs, facts) == SumSales(facts)
  {
    if facts == [] {
      SalesByCustomerEmpty(cs);
    } else {
      var p := facts[..|facts| - 1];
      var x := facts[|facts| - 1];
      assert facts == p + [x];
      SalesByCustomerTotal(cs, p);
      SalesByCustomerSnoc(cs, p, x);
      assert [x][..0] == [];
    }
  }

  lemma {:induction false} SalesByCustomerEmpty(cs: seq<string>)
    ensures SalesByCustomer(cs, []) == 0.0
  {
    if cs != [] {
      SalesByCustomerEmpty(cs[..|cs| - 1]);
    }
  }

  function TotalSpend(t: seq<CustomerRow>): real {
    if t == [] then 0.0 else TotalSpend(t[..|t| - 1]) + t[|t| - 1].totalSpend
  }

  /** The customers' total_spend add up to the ledger's total Sales. */
  lemma TotalSpendConserved(facts: seq<Fact>, today: int)
    ensures TotalSpend(CustomerTable(facts, today)) == SumSales(facts)
  {
    var t := CustomerTable(facts, today);
    var ids := TableIds(t);
    assert NoDup(ids) by {
      forall i, j | 0 <= i < j < |ids| ensures ids[i] != ids[j] {
        assert ids[i] == t[i].customerId && ids[j] == t[j].customerId;
        StrLtIrreflexive(ids[i]);
      }
    }
    forall k | 0 <= k < |t| ensures t[k].totalSpend == SumSales(OfCustomer(facts, ids[k])) {
      CustomerTableAt(facts, today, k);
    }
    SalesByCustomerTotal(ids, facts);
    TotalSpendIsSalesByCustomer(t, ids, facts);
  }

  lemma {:induction false} TotalSpendIsSalesByCustomer(t: seq<CustomerRow>, ids: seq<string>, facts: seq<Fact>)
    requires |ids| == |t|
    requires forall k :: 0 <= k < |t| ==> t[k].totalSpend == SumSales(OfCustomer(facts, ids[k]))
    ensures TotalSpend(t) == SalesByCustomer(ids, facts)
  {
    if t != [] {
      TotalSpendIsSalesByCustomer(t[..|t| - 1], ids[..|ids| - 1], facts);
    }
  }
}
