/**
 * The selection logic of `predict_next_product` (src/main.py, lines
 * 149-172): find the customer's features, map them to a cluster, score
 * every product of the ledger with that cluster's collaborative-filtering
 * model, and answer the five best-scoring products.
 *
 * The clusterer (PowerTransformer, PCA and KMeans) and the per-cluster
 * scorers (surprise SVD) are parameters: `assign` maps a customer row to a
 * cluster id, and `models` holds the scorer loaded for each cluster id.
 */
module Recommend {
  import opened Tables
  import opened Ledger
  import opened CustomerFeatures

  /** A collaborative-filtering model: the estimated rating of a product for a customer. */
  type Scorer = (string, string) -> real

  /** How many products a recommendation holds at most (line 167). */
  const TopN: nat := 5

  /** One entry of `predictions` (line 166). */
  datatype Scored = Scored(pid: string, score: real)

  /** The three answers: customer unknown (404), no model for the cluster (error), or the products. */
  datatype Recommendation = NotFound | ModelMissing(cluster: int) | Recommended(products: seq<string>)

  /** Line 161: the set of Product IDs in the ledger. */
  function ProductUniverse(rows: seq<Row>): (u: set<string>)
    ensures forall i :: 0 <= i < |rows| ==> rows[i].productId in u
    ensures forall p :: p in u ==> exists i :: 0 <= i < |rows| && rows[i].productId == p
  {
    set i | 0 <= i < |rows| :: rows[i].productId
  }

  /** Line 152: the first customer-table row of customer `c`, if any. */
  function FindCustomer(table: seq<CustomerRow>, c: string): (r: Option<CustomerRow>)
    ensures r.None? <==> forall i :: 0 <= i < |table| ==> table[i].customerId != c
    ensures r.Some? ==> exists i :: 0 <= i < |table| && table[i] == r.value &&
                          r.value.customerId == c && forall j :: 0 <= j < i ==> table[j].customerId != c
  {
    if table == [] then None
    else if table[0].customerId == c then Some(table[0])
    else
      var r := FindCustomer(table[1..], c);
      assert r.Some? ==> exists i :: 0 <= i < |table[1..]| && table[1..][i] == r.value &&
                           forall j :: 0 <= j < i ==> table[1..][j].customerId != c;
      if r.Some? then
        var i :| 0 <= i < |table[1..]| && table[1..][i] == r.value &&
                 forall j :: 0 <= j < i ==> table[1..][j].customerId != c;
        assert table[i + 1] == r.value;
        assert forall j :: 0 <= j < i + 1 ==> table[j].customerId != c by {
          forall j | 0 <= j < i + 1 ensures table[j].customerId != c {
            if j > 0 {
              assert table[j] == table[1..][j - 1];
            }
          }
        }
        r
      else r
  }

  /** Scores do not increase along the sequence. */
  predicate NonIncreasing(s: seq<Scored>) {
    forall i, j :: 0 <= i < j < |s| ==> s[i].score >= s[j].score
  }

  /** No product is scored twice. */
  predicate DistinctIds(s: seq<Scored>) {
    forall i, j :: 0 <= i < j < |s| ==> s[i].pid != s[j].pid
  }

  /** Puts `x` before the first entry it does not score below, so equal scores keep their order. */
  function InsertDesc(x: Scored, s: seq<Scored>): (r: seq<Scored>)
    ensures multiset(r) == multiset(s) + multiset{x}
    ensures |r| == |s| + 1
  {
    if s == [] || s[0].score <= x.score then [x] + s
    else
      assert s == [s[0]] + s[1..];
      [s[0]] + InsertDesc(x, s[1..])
  }

  /** `sorted(predictions, key=score, reverse=True)`: a sort by descending score, stable as `sorted` is (`RankStable`). */
  function RankByScore(ps: seq<Scored>): (r: seq<Scored>)
    ensures multiset(r) == multiset(ps)
    ensures |r| == |ps|
  {
    if ps == [] then []
    else
      assert ps == [ps[0]] + ps[1..];
      InsertDesc(ps[0], RankByScore(ps[1..]))
  }

  lemma {:induction false} InsertDescSorted(x: Scored, s: seq<Scored>)
    requires NonIncreasing(s)
    ensures NonIncreasing(InsertDesc(x, s))
  {
    if s != [] && s[0].score > x.score {
      InsertDescSorted(x, s[1..]);
      var r := InsertDesc(x, s[1..]);
      forall k | 0 <= k < |r| ensures s[0].score >= r[k].score {
        assert r[k] in multiset(s[1..]) + multiset{x};
        if r[k] != x {
          assert r[k] in s[1..];
        }
      }
    }
  }

  /** The ranking is in non-increasing score order. */
  lemma {:induction false} RankSorted(ps: seq<Scored>)
    ensures NonIncreasing(RankByScore(ps))
  {
    if ps != [] {
      RankSorted(ps[1..]);
      InsertDescSorted(ps[0], RankByScore(ps[1..]));
    }
  }
  /** The entries of `s` that score exactly `v`, in their order in `s`. */
  function Ties(s: seq<Scored>, v: real): seq<Scored> {
    if s == [] then [] else (if s[0].score == v then [s[0]] else []) + Ties(s[1..], v)
  }

  lemma {:induction false} InsertDescTies(x: Scored, s: seq<Scored>, v: real)
    ensures Ties(InsertDesc(x, s), v) == Ties([x] + s, v)
  {
    assert ([x] + s)[1..] == s;
    if s != [] && s[0].score > x.score {
      var r := InsertDesc(x, s);
      assert r[1..] == InsertDesc(x, s[1..]);
      InsertDescTies(x, s[1..], v);
      assert ([x] + s[1..])[1..] == s[1..];
    }
  }

  /** Ranking is stable: products with equal scores keep the order they were scored in. */
  lemma {:induction false} RankStable(ps: seq<Scored>, v: real)
    ensures Ties(RankByScore(ps), v) == Ties(ps, v)
  {
    if ps != [] {
      RankStable(ps[1..], v);
      InsertDescTies(ps[0], RankByScore(ps[1..]), v);
      assert ([ps[0]] + RankByScore(ps[1..]))[1..] == RankByScore(ps[1..]);
    }
  }


  lemma {:induction false} InsertDescDistinct(x: Scored, s: seq<Scored>)
    requires DistinctIds(s)
    requires forall i :: 0 <= i < |s| ==> s[i].pid != x.pid
    ensures DistinctIds(InsertDesc(x, s))
  {
    if s != [] && s[0].score > x.score {
      InsertDescDistinct(x, s[1..]);
      var r := InsertDesc(x, s[1..]);
      forall k | 0 <= k < |r| ensures r[k].pid != s[0].pid {
        assert r[k] in multiset(s[1..]) + multiset{x};
        if r[k] != x {
          assert r[k] in s[1..];
        }
      }
    }
  }

  /** Ranking keeps products distinct. */
  lemma {:induction false} RankDistinct(ps: seq<Scored>)
    requires DistinctIds(ps)
    ensures DistinctIds(RankByScore(ps))
  {
    if ps != [] {
      RankDistinct(ps[1..]);
      var rest := RankByScore(ps[1..]);
      forall i | 0 <= i < |rest| ensures rest[i].pid != ps[0].pid {
        assert rest[i] in multiset(ps[1..]);
      }
      InsertDescDistinct(ps[0], rest);
    }
  }

  function Min(a: int, b: int): int {
    if a <= b then a else b
  }

  /** Lines 167-169: the ids of the first five entries of the ranking. */
  function TopProducts(ps: seq<Scored>): (top: seq<string>)
    ensures |top| == Min(TopN, |ps|)
  {
    var ranked := RankByScore(ps);
    var n := Min(TopN, |ranked|);
    seq(n, i requires 0 <= i < n => ranked[i].pid)
  }

  /** The predictions of products of `u`, each scored by `score`. */
  predicate ScoresOf(ps: seq<Scored>, u: set<string>, c: string, score: Scorer) {
    forall i :: 0 <= i < |ps| ==> ps[i].pid in u && ps[i].score == score(c, ps[i].pid)
  }

  /** Ranking keeps every entry, so it keeps the products and their scores. */
  lemma RankKeepsScores(ps: seq<Scored>, u: set<string>, c: string, score: Scorer)
    requires ScoresOf(ps, u, c, score)
    ensures ScoresOf(RankByScore(ps), u, c, score)
  {
    var ranked := RankByScore(ps);
    forall i | 0 <= i < |ranked| ensures ranked[i].pid in u && ranked[i].score == score(c, ranked[i].pid) {
      assert ranked[i] in multiset(ps);
    }
  }

  /** A product not in the top list sits in the ranking behind all of it. */
  lemma OmittedRanksLower(ps: seq<Scored>, p: string) returns (j: nat)
    requires exists k :: 0 <= k < |ps| && ps[k].pid == p
    requires p !in TopProducts(ps)
    ensures j < |RankByScore(ps)| && RankByScore(ps)[j].pid == p && j >= |TopProducts(ps)|
  {
    var ranked := RankByScore(ps);
    var top := TopProducts(ps);
    var k :| 0 <= k < |ps| && ps[k].pid == p;
    assert ps[k] in multiset(ranked);
    j :| 0 <= j < |ranked| && ranked[j] == ps[k];
    forall i | 0 <= i < |top| ensures ranked[i].pid != p {
      assert top[i] in top;
    }
  }

  /**
   * When `ps` scores each product of `u` once with `score`, the top list is
   * duplicate-free, drawn from `u`, best first, and no product left out
   * scores above one that was kept.
   */
  lemma TopProductsBest(ps: seq<Scored>, u: set<string>, c: string, score: Scorer)
    requires DistinctIds(ps) && ScoresOf(ps, u, c, score)
    requires forall p :: p in u ==> exists i :: 0 <= i < |ps| && ps[i].pid == p
    ensures forall i, j :: 0 <= i < j < |TopProducts(ps)| ==> TopProducts(ps)[i] != TopProducts(ps)[j]
    ensures forall i :: 0 <= i < |TopProducts(ps)| ==> TopProducts(ps)[i] in u
    ensures forall i, j :: 0 <= i < j < |TopProducts(ps)| ==>
              score(c, TopProducts(ps)[i]) >= score(c, TopProducts(ps)[j])
    ensures forall p :: p in u && p !in TopProducts(ps) ==>
              forall i :: 0 <= i < |TopProducts(ps)| ==> score(c, p) <= score(c, TopProducts(ps)[i])
  {
    var ranked := RankByScore(ps);
    var top := TopProducts(ps);
    assert forall i :: 0 <= i < |top| ==> top[i] == ranked[i].pid;
    assert forall i, j :: 0 <= i < j < |top| ==> top[i] != top[j] by {
      RankDistinct(ps);
    }
    RankKeepsScores(ps, u, c, score);
    assert forall i :: 0 <= i < |top| ==> top[i] in u && ranked[i].score == score(c, top[i]);
    RankSorted(ps);
    OmittedScoreLower(ps, u, c, score);
  }

  /** A product of `u` left out of the top list scores no higher than any product kept. */
  lemma OmittedScoreLower(ps: seq<Scored>, u: set<string>, c: string, score: Scorer)
    requires ScoresOf(RankByScore(ps), u, c, score) && NonIncreasing(RankByScore(ps))
    requires forall p :: p in u ==> exists i :: 0 <= i < |ps| && ps[i].pid == p
    ensures forall p :: p in u && p !in TopProducts(ps) ==>
              forall i :: 0 <= i < |TopProducts(ps)| ==> score(c, p) <= score(c, TopProducts(ps)[i])
  {
    var ranked := RankByScore(ps);
    var top := TopProducts(ps);
    forall p | p in u && p !in top ensures forall i :: 0 <= i < |top| ==> score(c, p) <= score(c, top[i]) {
      var j := OmittedRanksLower(ps, p);
      forall i | 0 <= i < |top| ensures score(c, p) <= score(c, top[i]) {
        assert top[i] == ranked[i].pid;
        assert ranked[i].score >= ranked[j].score;
      }
    }
  }

  /** Lines 163-166: score every product of `u`, visiting the set in no particular order. */
  method ScoreAll(u: set<string>, c: string, score: Scorer) returns (ps: seq<Scored>)
    ensures |ps| == |u|
    ensures DistinctIds(ps)
    ensures forall i :: 0 <= i < |ps| ==> ps[i].pid in u && ps[i].score == score(c, ps[i].pid)
    ensures forall p :: p in u ==> exists i :: 0 <= i < |ps| && ps[i].pid == p
  {
    var remaining := u;
    ps := [];
    while remaining != {}
      invariant remaining <= u
      invariant |ps| + |remaining| == |u|
      invariant forall i :: 0 <= i < |ps| ==>
                  ps[i].pid in u && ps[i].pid !in remaining && ps[i].score == score(c, ps[i].pid)
      invariant forall p :: p in u && p !in remaining ==> exists i :: 0 <= i < |ps| && ps[i].pid == p
      invariant DistinctIds(ps)
      decreases |remaining|
    {
      var pid :| pid in remaining;
      var before := ps;
      ps := ps + [Scored(pid, score(c, pid))];
      remaining := remaining - {pid};
      forall p | p in u && p !in remaining ensures exists i :: 0 <= i < |ps| && ps[i].pid == p {
        if p == pid {
          assert ps[|before|].pid == p;
        } else {
          var i :| 0 <= i < |before| && before[i].pid == p;
          assert ps[i].pid == p;
        }
      }
    }
  }

  /**
   * `predict_next_product`: the customer's cluster comes from the first
   * matching row of the customer table; every product of the ledger is
   * scored and the best five are answered, best first.
   */
  method PredictNextProduct(
    customers: seq<CustomerRow>, ledger: seq<Row>, c: string,
    assign: CustomerRow -> int, models: map<int, Scorer>)
    returns (rec: Recommendation)
    ensures rec == NotFound <==> FindCustomer(customers, c).None?
    ensures rec.ModelMissing? <==>
              FindCustomer(customers, c).Some? && assign(FindCustomer(customers, c).value) !in models
    ensures rec.ModelMissing? ==> rec.cluster == assign(FindCustomer(customers, c).value)
    ensures rec.Recommended? ==>
              var u := ProductUniverse(ledger);
              var score := models[assign(FindCustomer(customers, c).value)];
              var top := rec.products;
              |top| == Min(TopN, |u|) &&
              (forall i, j :: 0 <= i < j < |top| ==> top[i] != top[j]) &&
              (forall i :: 0 <= i < |top| ==> top[i] in u) &&
              (forall i, j :: 0 <= i < j < |top| ==> score(c, top[i]) >= score(c, top[j])) &&
              (forall p :: p in u && p !in top ==> forall i :: 0 <= i < |top| ==> score(c, p) <= score(c, top[i]))
  {
    var row := FindCustomer(customers, c);
    if row.None? {
      return NotFound;
    }
    var cluster := assign(row.value);
    if cluster !in models {
      return ModelMissing(cluster);
    }
    var score := models[cluster];
    var u := ProductUniverse(ledger);
    var ps := ScoreAll(u, c, score);
    TopProductsBest(ps, u, c, score);
    rec := Recommended(TopProducts(ps));
  }
}
