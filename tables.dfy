/**
 * Column-level building blocks shared by the whole pipeline: optional cells,
 * numeric cells that may hold NaN, duplicate-free sequences (pandas'
 * `drop_duplicates` / `unique` / `nunique`), sums and means, and the
 * code-point order on strings that pandas uses when it sorts a text column.
 */
module Tables {

  datatype Option<+T> = None | Some(value: T)

  datatype Result<+T> = Ok(value: T) | Err(msg: string)

  /** A numeric cell after `pd.to_numeric(errors='coerce')`: `None` is NaN. */
  type Num = Option<real>

  /** Product of two numeric cells; NaN propagates. */
  function MulNum(a: Num, b: Num): (r: Num)
    ensures r.Some? <==> a.Some? && b.Some?
    ensures r.Some? ==> r.value == a.value * b.value
  {
    if a.Some? && b.Some? then Some(a.value * b.value) else None
  }

  /** No value occurs twice. */
  predicate NoDup<T(==)>(s: seq<T>) {
    forall i, j :: 0 <= i < j < |s| ==> s[i] != s[j]
  }

  /**
   * Keeps the first occurrence of every value, in order of first occurrence
   * (`drop_duplicates()` with its default `keep='first'`, and `unique()`).
   */
  function Dedup<T(==)>(s: seq<T>): (r: seq<T>)
    ensures NoDup(r)
    ensures forall i :: 0 <= i < |r| ==> r[i] in s
    ensures forall i :: 0 <= i < |s| ==> s[i] in r
    ensures |r| <= |s|
    ensures s != [] ==> |r| >= 1
  {
    if s == [] then []
    else
      var rest := Dedup(s[..|s| - 1]);
      if s[|s| - 1] in rest then rest else rest + [s[|s| - 1]]
  }

  /** The position of the first occurrence of `x` in `s`. */
  function FirstIndex<T(==)>(s: seq<T>, x: T): (i: nat)
    requires x in s
    ensures i < |s| && s[i] == x
    ensures forall j :: 0 <= j < i ==> s[j] != x
  {
    if s[0] == x then 0
    else
      var k := FirstIndex(s[1..], x);
      assert forall j :: 1 <= j <= k ==> s[j] == s[1..][j - 1];
      1 + k
  }

  /** Appending a value does not move the first occurrence of an earlier one. */
  lemma FirstIndexSnoc<T>(p: seq<T>, y: T, x: T)
    requires x in p
    ensures FirstIndex(p + [y], x) == FirstIndex(p, x)
  {
    assert (p + [y])[FirstIndex(p, x)] == x;
  }

  /** A value new to `p` first occurs at the end of `p + [y]`. */
  lemma FirstIndexNew<T>(p: seq<T>, y: T)
    requires y !in p
    ensures FirstIndex(p + [y], y) == |p|
  {
  }

  /** The values of `r`, all from `s`, are in the order of their first occurrence in `s`. */
  predicate FirstOrdered<T(==)>(r: seq<T>, s: seq<T>)
    requires forall i :: 0 <= i < |r| ==> r[i] in s
  {
    forall i, j :: 0 <= i < j < |r| ==> FirstIndex(s, r[i]) < FirstIndex(s, r[j])
  }

  /** Appending to `p` keeps the order of `r`, and a new value can go last. */
  lemma FirstOrderedSnoc<T>(r: seq<T>, p: seq<T>, y: T)
    requires forall i :: 0 <= i < |r| ==> r[i] in p
    requires FirstOrdered(r, p)
    ensures FirstOrdered(r, p + [y])
    ensures y !in p ==> FirstOrdered(r + [y], p + [y])
  {
    forall i | 0 <= i < |r| ensures FirstIndex(p + [y], r[i]) == FirstIndex(p, r[i]) < |p| {
      FirstIndexSnoc(p, y, r[i]);
    }
    if y !in p {
      FirstIndexNew(p, y);
      var r' := r + [y];
      forall i, j | 0 <= i < j < |r'| ensures FirstIndex(p + [y], r'[i]) < FirstIndex(p + [y], r'[j]) {
        assert r'[i] == r[i];
        if j < |r| {
          assert r'[j] == r[j];
        }
      }
    }
  }

  /** `Dedup` lists the values in the order of their first occurrence. */
  lemma {:induction false} DedupFirstOrder<T>(s: seq<T>)
    ensures FirstOrdered(Dedup(s), s)
  {
    if s != [] {
      var p, y := s[..|s| - 1], s[|s| - 1];
      assert s == p + [y];
      DedupFirstOrder(p);
      FirstOrderedSnoc(Dedup(p), p, y);
    }
  }



  /** Removing duplicates from a duplicate-free sequence changes nothing. */
  lemma {:induction false} DedupOfNoDup<T>(s: seq<T>)
    requires NoDup(s)
    ensures Dedup(s) == s
  {
    if s != [] {
      var p := s[..|s| - 1];
      assert NoDup(p);
      DedupOfNoDup(p);
      assert s[|s| - 1] !in p by {
        forall i | 0 <= i < |p| ensures p[i] != s[|s| - 1] {
          assert s[i] != s[|s| - 1];
        }
      }
      assert p + [s[|s| - 1]] == s;
    }
  }

  /** A duplicate-free sequence has as many elements as it has distinct values. */
  lemma {:induction false} NoDupCardinality<T>(s: seq<T>)
    requires NoDup(s)
    ensures |set x | x in s| == |s|
  {
    if s != [] {
      var p, y := s[..|s| - 1], s[|s| - 1];
      assert NoDup(p);
      NoDupCardinality(p);
      assert y !in p by {
        forall i | 0 <= i < |p| ensures p[i] != y {
          assert s[i] == p[i];
        }
      }
      assert (set x | x in s) == (set x | x in p) + {y} by {
        assert s == p + [y];
      }
    }
  }

  /** Number of distinct values (`nunique`). */
  function DistinctCount<T(==)>(s: seq<T>): (n: nat)
    ensures n == |set x | x in s|
    ensures n <= |s|
    ensures s != [] ==> n >= 1
  {
    var r := Dedup(s);
    NoDupCardinality(r);
    assert (set x | x in r) == (set x | x in s);
    |r|
  }

  /**
   * The values of the cells that are present (not NaN), in order, each as
   * often as it occurs.
   */
  function Present<T(!new)>(s: seq<Option<T>>): (r: seq<T>)
    ensures |r| <= |s|
    ensures forall x :: x in r <==> Some(x) in s
  {
    if s == [] then []
    else
      var p := s[..|s| - 1];
      var rest := Present(p);
      assert s == p + [s[|s| - 1]];
      match s[|s| - 1]
      case Some(v) => rest + [v]
      case None => rest
  }

  /** Each present value occurs as often as its cell does. */
  lemma {:induction false} PresentCounts<T(!new)>(s: seq<Option<T>>)
    ensures forall x :: multiset(Present(s))[x] == multiset(s)[Some(x)]
  {
    if s != [] {
      var p := s[..|s| - 1];
      PresentCounts(p);
      assert s == p + [s[|s| - 1]];
    }
  }

  /** No cell is present exactly when every cell is NaN. */
  lemma {:induction false} PresentEmpty<T(!new)>(s: seq<Option<T>>)
    ensures Present(s) == [] <==> forall i :: 0 <= i < |s| ==> s[i].None?
  {
    if s != [] {
      var p := s[..|s| - 1];
      PresentEmpty(p);
      assert forall i :: 0 <= i < |p| ==> p[i] == s[i];
    }
  }

  function Sum(s: seq<real>): real {
    if s == [] then 0.0 else Sum(s[..|s| - 1]) + s[|s| - 1]
  }

  /** `m` is the mean of the values `xs`: `m` times their number is their sum. */
  predicate IsMeanOf(m: real, xs: seq<real>) {
    m * (|xs| as real) == Sum(xs)
  }

  /** pandas `sum` over a numeric column: NaN cells are skipped. */
  function SumNum(s: seq<Num>): real {
    Sum(Present(s))
  }

  /**
   * pandas `mean`: NaN cells are skipped; a column with no number gives
   * NaN, otherwise the mean times the number of numbers is their sum.
   */
  function MeanNum(s: seq<Num>): (r: Num)
    ensures r.None? <==> forall i :: 0 <= i < |s| ==> s[i].None?
    ensures r.Some? ==> IsMeanOf(r.value, Present(s))
  {
    var xs := Present(s);
    PresentEmpty(s);
    if xs == [] then None
    else
      var m := Quotient(Sum(xs), |xs| as real);
      assert IsMeanOf(m, xs);
      Some(m)
  }

  /** Real division by a positive number. */
  function Quotient(a: real, n: real): (q: real)
    requires n > 0.0
    ensures q * n == a
  {
    a / n
  }

  /**
   * A text cell as `read_csv` gives it: `None` when the text is one that
   * pandas reads as missing by default (the empty text among them).
   */
  type Text = Option<string>

  const NaTexts: set<string> := {"", "#N/A", "#N/A N/A", "#NA", "-1.#IND", "-1.#QNAN", "-NaN", "-nan",
    "1.#IND", "1.#QNAN", "<NA>", "N/A", "NA", "NULL", "NaN", "None", "n/a", "nan", "null"}

  /** The cell a text becomes once written to CSV and read back. */
  function TextCell(s: string): (t: Text)
    ensures t.None? <==> s in NaTexts
    ensures t.Some? ==> t.value == s
  {
    if s in NaTexts then None else Some(s)
  }

  /** Code-point lexicographic order on strings, as Python compares `str`. */
  predicate StrLt(a: string, b: string) {
    if a == [] then b != []
    else b != [] && (a[0] < b[0] || (a[0] == b[0] && StrLt(a[1..], b[1..])))
  }

  lemma {:induction false} StrLtIrreflexive(a: string)
    ensures !StrLt(a, a)
  {
    if a != [] {
      StrLtIrreflexive(a[1..]);
    }
  }

  lemma {:induction false} StrLtTransitive(a: string, b: string, c: string)
    requires StrLt(a, b) && StrLt(b, c)
    ensures StrLt(a, c)
  {
    if a != [] && a[0] == b[0] && b[0] == c[0] {
      StrLtTransitive(a[1..], b[1..], c[1..]);
    }
  }

  lemma {:induction false} StrLtTotal(a: string, b: string)
    ensures a == b || StrLt(a, b) || StrLt(b, a)
  {
    if a != [] && b != [] && a[0] == b[0] {
      StrLtTotal(a[1..], b[1..]);
      if a[1..] == b[1..] {
        assert a == [a[0]] + a[1..] && b == [b[0]] + b[1..];
      }
    }
  }

  /** Each string is below the next: sorted, and no string repeats. */
  predicate StrictlySorted(s: seq<string>) {
    forall i, j :: 0 <= i < j < |s| ==> StrLt(s[i], s[j])
  }

  /** Puts `x` before the first string it is below. */
  function InsertStr(x: string, s: seq<string>): (r: seq<string>)
    ensures multiset(r) == multiset(s) + multiset{x}
    ensures |r| == |s| + 1
  {
    if s == [] || StrLt(x, s[0]) then [x] + s
    else
      assert s == [s[0]] + s[1..];
      [s[0]] + InsertStr(x, s[1..])
  }

  /** Sorts strings by code point (the key order of a `groupby`). */
  function SortStrings(s: seq<string>): (r: seq<string>)
    ensures multiset(r) == multiset(s)
    ensures |r| == |s|
  {
    if s == [] then []
    else
      assert s == [s[0]] + s[1..];
      InsertStr(s[0], SortStrings(s[1..]))
  }

  lemma {:induction false} InsertStrSorted(x: string, s: seq<string>)
    requires StrictlySorted(s) && x !in s
    ensures StrictlySorted(InsertStr(x, s))
  {
    if s != [] && !StrLt(x, s[0]) {
      StrLtTotal(x, s[0]);
      assert StrictlySorted(s[1..]);
      InsertStrSorted(x, s[1..]);
      var r := InsertStr(x, s[1..]);
      forall k | 0 <= k < |r| ensures StrLt(s[0], r[k]) {
        assert r[k] in multiset(s[1..]) + multiset{x};
        if r[k] != x {
          assert r[k] in s[1..];
        }
      }
    } else if s != [] {
      forall j | 0 <= j < |s| ensures StrLt(x, s[j]) {
        if j > 0 {
          StrLtTransitive(x, s[0], s[j]);
        }
      }
    }
  }

  /** Sorting a duplicate-free sequence of strings gives a strictly increasing one. */
  lemma {:induction false} SortStringsSorted(s: seq<string>)
    requires NoDup(s)
    ensures StrictlySorted(SortStrings(s))
  {
    if s != [] {
      assert NoDup(s[1..]);
      SortStringsSorted(s[1..]);
      var rest := SortStrings(s[1..]);
      forall k | 0 <= k < |rest| ensures rest[k] != s[0] {
        assert rest[k] in multiset(s[1..]);
        var j :| 0 <= j < |s[1..]| && s[1..][j] == rest[k];
        assert s[j + 1] == rest[k];
      }
      InsertStrSorted(s[0], rest);
    }
  }
}
