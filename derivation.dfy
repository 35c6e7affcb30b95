/**
 * Preprocessing of the merged ledger by a feature run
 * (src/ml/update_relations.py, lines 66-74): rows without a date are
 * dropped, Sales and Recency are computed per row, the table is sorted by
 * (Customer ID, Date) and each row gets the day difference to the previous
 * row of the same customer as its Order Gap.
 */
module FeatureDerivation {
  import opened Tables
  import opened Ledger

  /** A ledger row after preprocessing: its date is a day and its derived columns are filled. */
  datatype Fact = Fact(
    orderId: int,
    customerId: string,
    warehouseId: string,
    age: int,
    gender: string,
    date: int,
    productId: string,
    skuId: string,
    category: Text,
    quantity: Num,
    price: Num,
    sales: Num,
    recency: int,
    gap: int,
    cluster: Option<int>)

  /** The same fact written back as a ledger row (the ledger saved at line 120). */
  function ToRow(f: Fact): (r: Row)
    ensures r.date == Day(f.date) && KeyOf(r) == Key(f.orderId, f.productId, f.skuId)
  {
    Row(f.orderId, f.customerId, f.warehouseId, f.age, f.gender, Day(f.date),
        f.productId, f.skuId, f.category, f.quantity, f.price,
        f.sales, Some(f.recency), Some(f.gap), f.cluster)
  }

  /**
   * Lines 68-69: the rows whose date is NaT are dropped; nothing else is.
   * A row whose Quantity or Price was coerced to NaN stays.
   */
  function Dated(rows: seq<Row>): (r: seq<Row>)
    ensures forall x :: multiset(r)[x] == if x.date.Day? then multiset(rows)[x] else 0
  {
    if rows == [] then []
    else
      var p := rows[..|rows| - 1];
      var b := rows[|rows| - 1];
      assert rows == p + [b];
      if b.date.Day? then Dated(p) + [b] else Dated(p)
  }

  /**
   * Lines 70-72 for one row: Sales = Quantity x Price per Unit and
   * Recency = today - Date in days. The gap is filled in by `WithGaps`.
   */
  function FactOf(r: Row, today: int): (f: Fact)
    requires r.date.Day?
  {
    Fact(r.orderId, r.customerId, r.warehouseId, r.age, r.gender, r.date.day,
         r.productId, r.skuId, r.category, r.quantity, r.price,
         MulNum(r.quantity, r.price), today - r.date.day, 0, r.cluster)
  }

  /** The derived values a fact must carry. */
  predicate Consistent(f: Fact, today: int) {
    f.sales == MulNum(f.quantity, f.price) && f.recency == today - f.date
  }

  /**
   * Lines 70-72 on the whole table, row for row: each fact keeps every column
   * of its row, carries the Sales and Recency it must, and has no gap yet.
   */
  function ToFacts(rows: seq<Row>, today: int): (fs: seq<Fact>)
    requires forall i :: 0 <= i < |rows| ==> rows[i].date.Day?
    ensures |fs| == |rows|
    ensures forall i :: 0 <= i < |fs| ==>
              Consistent(fs[i], today) && fs[i].gap == 0 &&
              ToRow(fs[i]) == rows[i].(sales := fs[i].sales, recency := Some(fs[i].recency), gap := Some(0))
  {
    seq(|rows|, i requires 0 <= i < |rows| => FactOf(rows[i], today))
  }

  // ---------------------------------------------------------------------
  // Sorting by (Customer ID, Date), line 73

  /** The order `sort_values(['Customer ID', 'Date'])` sorts by. */
  predicate FactLe(x: Fact, y: Fact) {
    StrLt(x.customerId, y.customerId) || (x.customerId == y.customerId && x.date <= y.date)
  }

  lemma FactLeTransitive(x: Fact, y: Fact, z: Fact)
    requires FactLe(x, y) && FactLe(y, z)
    ensures FactLe(x, z)
  {
    if StrLt(x.customerId, y.customerId) && StrLt(y.customerId, z.customerId) {
      StrLtTransitive(x.customerId, y.customerId, z.customerId);
    }
  }

  lemma FactLeTotal(x: Fact, y: Fact)
    ensures FactLe(x, y) || FactLe(y, x)
  {
    StrLtTotal(x.customerId, y.customerId);
  }

  /** Within one customer, an ordered pair is ordered by date. */
  lemma FactLeSameCustomer(x: Fact, y: Fact)
    requires FactLe(x, y) && x.customerId == y.customerId
    ensures x.date <= y.date
  {
    StrLtIrreflexive(x.customerId);
  }

  predicate SortedByCustomerDate(s: seq<Fact>) {
    forall i, j :: 0 <= i < j < |s| ==> FactLe(s[i], s[j])
  }

  /** Puts `x` before the first element it does not follow, so equal keys keep their order. */
  function Insert(x: Fact, s: seq<Fact>): (r: seq<Fact>)
    ensures multiset(r) == multiset(s) + multiset{x}
  {
    if s == [] || FactLe(x, s[0]) then [x] + s
    else
      assert s == [s[0]] + s[1..];
      [s[0]] + Insert(x, s[1..])
  }

  /** Sorts by (Customer ID, Date); like the multi-column `sort_values`, it is stable (`SortStable`). */
  function SortByCustomerDate(s: seq<Fact>): (r: seq<Fact>)
    ensures multiset(r) == multiset(s)
  {
    if s == [] then []
    else
      assert s == [s[0]] + s[1..];
      Insert(s[0], SortByCustomerDate(s[1..]))
  }

  lemma {:induction false} InsertSorted(x: Fact, s: seq<Fact>)
    requires SortedByCustomerDate(s)
    ensures SortedByCustomerDate(Insert(x, s))
  {
    var r := Insert(x, s);
    if s == [] || FactLe(x, s[0]) {
      forall j | 0 <= j < |s| ensures FactLe(x, s[j]) {
        if j > 0 {
          FactLeTransitive(x, s[0], s[j]);
        }
      }
    } else {
      FactLeTotal(x, s[0]);
      var t := Insert(x, s[1..]);
      InsertSorted(x, s[1..]);
      forall j | 0 <= j < |t| ensures FactLe(s[0], t[j]) {
        assert t[j] in multiset(t);
        if t[j] != x {
          assert t[j] in multiset(s[1..]);
          var k :| 0 <= k < |s[1..]| && s[1..][k] == t[j];
          assert s[k + 1] == t[j];
        }
      }
      assert r == [s[0]] + t;
    }
  }

  lemma {:induction false} SortIsSorted(s: seq<Fact>)
    ensures SortedByCustomerDate(SortByCustomerDate(s))
  {
    if s != [] {
      SortIsSorted(s[1..]);
      InsertSorted(s[0], SortByCustomerDate(s[1..]));
    }
  }
  /** The rows of `s` with customer `c` and date `d`, in their order in `s`. */
  function Ties(s: seq<Fact>, c: string, d: int): seq<Fact> {
    if s == [] then []
    else (if s[0].customerId == c && s[0].date == d then [s[0]] else []) + Ties(s[1..], c, d)
  }

  lemma TiesCons(x: Fact, s: seq<Fact>, c: string, d: int)
    ensures Ties([x] + s, c, d) == (if x.customerId == c && x.date == d then [x] else []) + Ties(s, c, d)
  {
    assert ([x] + s)[1..] == s;
  }

  lemma {:induction false} InsertTies(x: Fact, s: seq<Fact>, c: string, d: int)
    ensures Ties(Insert(x, s), c, d) == Ties([x] + s, c, d)
  {
    if s != [] && !FactLe(x, s[0]) {
      var y, t := s[0], s[1..];
      var tx := if x.customerId == c && x.date == d then [x] else [];
      var ty := if y.customerId == c && y.date == d then [y] else [];
      assert Ties(Insert(x, s), c, d) == ty + (tx + Ties(t, c, d)) by {
        assert Insert(x, s) == [y] + Insert(x, t);
        TiesCons(y, Insert(x, t), c, d);
        InsertTies(x, t, c, d);
        TiesCons(x, t, c, d);
      }
      assert Ties([x] + s, c, d) == tx + (ty + Ties(t, c, d)) by {
        TiesCons(x, s, c, d);
        assert s == [y] + t;
        TiesCons(y, t, c, d);
      }
      // `x` does not sort before `y`, so they cannot share a key.
      assert tx == [] || ty == [];
    }
  }




  /** The sort is stable: rows with the same customer and date keep their table order. */
  lemma {:induction false} SortStable(s: seq<Fact>, c: string, d: int)
    ensures Ties(SortByCustomerDate(s), c, d) == Ties(s, c, d)
  {
    if s != [] {
      SortStable(s[1..], c, d);
      InsertTies(s[0], SortByCustomerDate(s[1..]), c, d);
      assert ([s[0]] + SortByCustomerDate(s[1..]))[1..] == SortByCustomerDate(s[1..]);
    }
  }


  // ---------------------------------------------------------------------
  // Order Gap, line 74

  /** The rows of customer `c`, in table order (a `groupby` group). */
  function OfCustomer(s: seq<Fact>, c: string): (r: seq<Fact>)
    ensures |r| <= |s|
    ensures forall i :: 0 <= i < |r| ==> r[i].customerId == c
  {
    if s == [] then []
    else
      var rest := OfCustomer(s[..|s| - 1], c);
      if s[|s| - 1].customerId == c then rest + [s[|s| - 1]] else rest
  }

  /** Date of the last row of customer `c` in `prefix`, if there is one. */
  function PrevDate(prefix: seq<Fact>, c: string): (d: Option<int>)
    ensures d.None? <==> forall i :: 0 <= i < |prefix| ==> prefix[i].customerId != c
    ensures d.Some? ==> exists i :: 0 <= i < |prefix| && prefix[i].customerId == c && prefix[i].date == d.value
  {
    if prefix == [] then None
    else if prefix[|prefix| - 1].customerId == c then Some(prefix[|prefix| - 1].date)
    else PrevDate(prefix[..|prefix| - 1], c)
  }

  /** The previous date is the date of the last row of the customer's group. */
  lemma {:induction false} PrevDateIsGroupLast(prefix: seq<Fact>, c: string)
    ensures var rs := OfCustomer(prefix, c);
            PrevDate(prefix, c) == if rs == [] then None else Some(rs[|rs| - 1].date)
  {
    if prefix != [] {
      PrevDateIsGroupLast(prefix[..|prefix| - 1], c);
    }
  }

  /** `groupby('Customer ID')['Date'].diff().dt.days.fillna(0)` at row `i`. */
  function GapAt(s: seq<Fact>, i: nat): int
    requires i < |s|
  {
    match PrevDate(s[..i], s[i].customerId)
    case None => 0
    case Some(d) => s[i].date - d
  }

  /** Every row gets its gap; nothing else changes. */
  function WithGaps(s: seq<Fact>): (r: seq<Fact>)
    ensures |r| == |s|
  {
    seq(|s|, i requires 0 <= i < |s| => s[i].(gap := GapAt(s, i)))
  }

  /** A customer's first row has Order Gap 0. */
  lemma FirstGapZero(s: seq<Fact>, i: nat)
    requires i < |s|
    requires forall j :: 0 <= j < i ==> s[j].customerId != s[i].customerId
    ensures WithGaps(s)[i].gap == 0
  {
    assert forall j :: 0 <= j < |s[..i]| ==> s[..i][j].customerId != s[i].customerId;
  }

  /** A prefix of the gapped table is the gapped prefix: a gap only looks backwards. */
  lemma WithGapsPrefix(s: seq<Fact>, n: nat)
    requires n <= |s|
    ensures WithGaps(s)[..n] == WithGaps(s[..n])
  {
    var a, b := WithGaps(s)[..n], WithGaps(s[..n]);
    forall i | 0 <= i < n ensures a[i] == b[i] {
      assert s[..n][..i] == s[..i];
      assert s[..n][i] == s[i];
      assert GapAt(s[..n], i) == GapAt(s, i);
    }
    assert a == b;
  }

  /** After the (Customer ID, Date) sort no gap is negative. */
  lemma GapsNonNegative(s: seq<Fact>)
    requires SortedByCustomerDate(s)
    ensures forall i :: 0 <= i < |s| ==> WithGaps(s)[i].gap >= 0
  {
    forall i | 0 <= i < |s| ensures WithGaps(s)[i].gap >= 0 {
      var d := PrevDate(s[..i], s[i].customerId);
      if d.Some? {
        var j :| 0 <= j < i && s[..i][j].customerId == s[i].customerId && s[..i][j].date == d.value;
        FactLeSameCustomer(s[j], s[i]);
      }
    }
  }

  function SumGaps(s: seq<Fact>): int {
    if s == [] then 0 else SumGaps(s[..|s| - 1]) + s[|s| - 1].gap
  }

  /** Days between a customer's first and last row, in table order. */
  function Span(rs: seq<Fact>): int {
    if rs == [] then 0 else rs[|rs| - 1].date - rs[0].date
  }

  /** Appending a row to a table appends it to its customer's group. */
  lemma OfCustomerSnoc(s: seq<Fact>, x: Fact, c: string)
    ensures OfCustomer(s + [x], c) == OfCustomer(s, c) + (if x.customerId == c then [x] else [])
  {
    assert (s + [x])[..|s|] == s;
  }

  /** The gap the last row of a table receives: its date minus its customer's previous date, or 0. */
  lemma LastGapValue(s: seq<Fact>, x: Fact)
    ensures GapAt(s + [x], |s|) == match PrevDate(s, x.customerId)
              case None => 0
              case Some(d) => x.date - d
  {
    assert (s + [x])[..|s|] == s;
  }

  /** Gapping a table with one more row appends that row, gapped, to the gapped table. */
  lemma LastGap(s: seq<Fact>, x: Fact)
    ensures WithGaps(s + [x]) == WithGaps(s) + [x.(gap := GapAt(s + [x], |s|))]
  {
    var t := s + [x];
    assert t[..|s|] == s;
    WithGapsPrefix(t, |s|);
    var w := WithGaps(t);
    assert w[|s|] == x.(gap := GapAt(t, |s|));
    assert w == w[..|s|] + [w[|s|]];
  }

  /** A customer's gaps add up to the days between its first and last row. */
  lemma {:induction false} GapsTelescope(s: seq<Fact>, c: string)
    ensures SumGaps(OfCustomer(WithGaps(s), c)) == Span(OfCustomer(s, c))
  {
    if s != [] {
      var p := s[..|s| - 1];
      var x := s[|s| - 1];
      assert s == p + [x];
      GapsTelescope(p, c);
      LastGap(p, x);
      LastGapValue(p, x);
      PrevDateIsGroupLast(p, c);
      var x' := x.(gap := GapAt(s, |p|));
      OfCustomerSnoc(p, x, c);
      OfCustomerSnoc(WithGaps(p), x', c);
      if x.customerId == c {
        var rs := OfCustomer(p, c);
        assert SumGaps(OfCustomer(WithGaps(p), c) + [x']) == SumGaps(OfCustomer(WithGaps(p), c)) + x'.gap;
        if rs != [] {
          assert (rs + [x])[0] == rs[0];
        }
      }
    }
  }

  // ---------------------------------------------------------------------
  // The whole preprocessing step

  /** Lines 66-74: drop undated rows, derive Sales and Recency, sort, add gaps. */
  function Preprocess(rows: seq<Row>, today: int): (fs: seq<Fact>)
  {
    var dated := Dated(rows);
    assert forall i :: 0 <= i < |dated| ==> dated[i].date.Day? by {
      forall i | 0 <= i < |dated| ensures dated[i].date.Day? {
        assert dated[i] in multiset(dated);
      }
    }
    WithGaps(SortByCustomerDate(ToFacts(dated, today)))
  }

  /** Row `i` of the gapped table is row `i` of the input with its gap filled in. */
  lemma WithGapsAt(s: seq<Fact>, i: nat)
    requires i < |s|
    ensures WithGaps(s)[i] == s[i].(gap := GapAt(s, i))
  {
  }

  /** Sets every gap to 0, to compare tables regardless of their gaps. */
  function ClearGaps(s: seq<Fact>): (r: seq<Fact>)
    ensures |r| == |s|
  {
    seq(|s|, i requires 0 <= i < |s| => s[i].(gap := 0))
  }

  /** Every fact of the preprocessed table carries Sales = Quantity x Price and Recency = today - Date. */
  lemma PreprocessConsistent(rows: seq<Row>, today: int)
    ensures forall i :: 0 <= i < |Preprocess(rows, today)| ==> Consistent(Preprocess(rows, today)[i], today)
  {
    var dated := Dated(rows);
    assert forall i :: 0 <= i < |dated| ==> dated[i].date.Day? by {
      forall i | 0 <= i < |dated| ensures dated[i].date.Day? {
        assert dated[i] in multiset(dated);
      }
    }
    var facts := ToFacts(dated, today);
    var sorted := SortByCustomerDate(facts);
    forall i | 0 <= i < |Preprocess(rows, today)| ensures Consistent(Preprocess(rows, today)[i], today) {
      WithGapsAt(sorted, i);
      assert sorted[i] in multiset(facts);
    }
  }

  /** The preprocessed table is sorted by (Customer ID, Date) and has no negative gap. */
  lemma PreprocessSorted(rows: seq<Row>, today: int)
    ensures SortedByCustomerDate(Preprocess(rows, today))
    ensures forall i :: 0 <= i < |Preprocess(rows, today)| ==> Preprocess(rows, today)[i].gap >= 0
  {
    var dated := Dated(rows);
    assert forall i :: 0 <= i < |dated| ==> dated[i].date.Day? by {
      forall i | 0 <= i < |dated| ensures dated[i].date.Day? {
        assert dated[i] in multiset(dated);
      }
    }
    var sorted := SortByCustomerDate(ToFacts(dated, today));
    SortIsSorted(ToFacts(dated, today));
    GapsNonNegative(sorted);
    var r := WithGaps(sorted);
    forall i, j | 0 <= i < j < |r| ensures FactLe(r[i], r[j]) {
      WithGapsAt(sorted, i);
      WithGapsAt(sorted, j);
    }
  }

  /**
   * Gaps aside, the preprocessed table holds exactly the facts of the dated
   * rows, each as often as it occurs: only undated rows are dropped.
   */
  lemma PreprocessKeepsDatedRows(rows: seq<Row>, today: int)
    ensures var dated := Dated(rows);
            (forall i :: 0 <= i < |dated| ==> dated[i].date.Day?) &&
            multiset(ClearGaps(Preprocess(rows, today))) == multiset(ToFacts(dated, today))
  {
    var dated := Dated(rows);
    assert forall i :: 0 <= i < |dated| ==> dated[i].date.Day? by {
      forall i | 0 <= i < |dated| ensures dated[i].date.Day? {
        assert dated[i] in multiset(dated);
      }
    }
    var facts := ToFacts(dated, today);
    var sorted := SortByCustomerDate(facts);
    assert forall i :: 0 <= i < |sorted| ==> sorted[i].gap == 0 by {
      forall i | 0 <= i < |sorted| ensures sorted[i].gap == 0 {
        assert sorted[i] in multiset(facts);
      }
    }
    ClearWithGaps(sorted);
  }

  /** On a table whose gaps are still 0, clearing the computed gaps gives the table back. */
  lemma ClearWithGaps(s: seq<Fact>)
    requires forall i :: 0 <= i < |s| ==> s[i].gap == 0
    ensures ClearGaps(WithGaps(s)) == s
  {
    forall i | 0 <= i < |s| ensures ClearGaps(WithGaps(s))[i] == s[i] {
      WithGapsAt(s, i);
    }
  }

  /** A dated row survives preprocessing: some fact is that row with its derived columns. */
  lemma DatedRowKept(rows: seq<Row>, today: int, j: nat) returns (k: nat)
    requires j < |rows| && rows[j].date.Day?
    ensures k < |Preprocess(rows, today)|
    ensures Preprocess(rows, today)[k].(gap := 0) == FactOf(rows[j], today)
  {
    var cleared := ClearGaps(Preprocess(rows, today));
    var f := FactOf(rows[j], today);
    assert f in cleared by {
      DatedRowFact(rows, today, j);
      PreprocessKeepsDatedRows(rows, today);
      assert f in multiset(cleared);
    }
    k :| 0 <= k < |cleared| && cleared[k] == f;
  }

  /** A dated input row yields its fact before sorting. */
  lemma DatedRowFact(rows: seq<Row>, today: int, j: nat)
    requires j < |rows| && rows[j].date.Day?
    ensures var dated := Dated(rows);
            (forall i :: 0 <= i < |dated| ==> dated[i].date.Day?) &&
            FactOf(rows[j], today) in multiset(ToFacts(dated, today))
  {
    var dated := Dated(rows);
    assert forall i :: 0 <= i < |dated| ==> dated[i].date.Day? by {
      forall i | 0 <= i < |dated| ensures dated[i].date.Day? {
        assert dated[i] in multiset(dated);
      }
    }
    assert rows[j] in multiset(dated);
    var d :| 0 <= d < |dated| && dated[d] == rows[j];
    assert ToFacts(dated, today)[d] == FactOf(rows[j], today);
  }
}
