# Order ledger and feature pipeline — a Dafny model

The system keeps one **ledger** of order lines. Each row is one product line
of a customer order. The row's key is (Order ID, Product ID, SKU ID). Three
parts of the system use the ledger:

- **The hourly relations update** (`update_relations_main`) loads the ledger
  and merges in a batch file of new rows. It then preprocesses the rows:
  - drops rows without a usable Date;
  - derives Sales, Recency and a per-customer Order Gap;
  - sorts by customer and date.

  It writes three normalized tables (order info, order lines, products) and a
  per-customer feature table, then saves the preprocessed ledger back.
- **The order service**:
  - `add_order` validates an incoming order line (identifier formats), rejects
    a duplicate key and appends one derived row to the ledger;
  - `order_exists` answers whether a key is in the ledger;
  - `predict_next_product` looks up a customer, maps them to a cluster, scores
    every product in the ledger with that cluster's collaborative-filtering
    model, and answers the five best.
- **The retraining job** (`retrain_models_main`) labels every customer with a
  cluster and joins the labels onto the ledger. It then prepares one
  collaborative-filtering training set and rating scale per label that
  occurs.

pandas semantics are written out:

| pandas behaviour | how the model represents it |
|---|---|
| a NaN number | `None` of `Num` |
| a text cell `read_csv` reads as missing (empty, `NA`, `null`, …) | `None` of `Text` (`Tables.TextCell`) |
| `drop_duplicates` | keeps first occurrences (`Tables.Dedup`) |
| `nunique` | a distinct count |
| `sum` / `mean` | skip NaN |
| `sort_values(['Customer ID','Date'])` | a stable sort (`FeatureDerivation.SortStable`) |
| `groupby` | orders its keys by code point (`Tables.StrLt`) |
| `groupby(...).diff()` | looks at the previous row of the same customer |
| a left join with `validate='many_to_one'` | refuses a repeated key |

Dates are day numbers. "Today" is a parameter.

Modules:

| file | module | contents |
|---|---|---|
| `tables.dfy` | `Tables` | dataframe building blocks |
| `ledger.dfy` | `Ledger` | the ledger row, its key, the batch merge, and the ledger file as a class |
| `derivation.dfy` | `FeatureDerivation` | preprocessing |
| `projections.dfy` | `Projections` | the three normalized tables |
| `customers.dfy` | `CustomerFeatures` | the customer table |
| `update_relations.dfy` | `UpdateRelations` | the whole hourly run |
| `identifiers.dfy` | `Identifiers` | identifier formats |
| `orders.dfy` | `Orders` | `add_order` and `order_exists` |
| `recommend.dfy` | `Recommend` | `predict_next_product` |
| `retrain.dfy` | `Retrain` | the retraining bookkeeping |

### Behaviour worth noting

- Quantity or Price per Unit that cannot be read as a number is turned into
  NaN, and the row is kept.
  - Sales is then NaN.
  - Only rows without a usable Date are dropped (`src/ml/update_relations.py:66-69`).
- Merging the batch removes only keys already in the ledger. Rows repeated
  inside the batch are all appended (`src/ml/update_relations.py:52-56`).
- A batch with a Date that cannot be read is dropped whole: the error is caught
  at line 60.
- When the ledger has no rows, the batch is never read, and the run does
  nothing.
- The recommendation sorts by score alone.
  - `sorted` is stable, so tied products stay in the iteration order of the
    product set, which is arbitrary (`src/main.py:161-167`).
  - There is no tie-break on the product id.
- A cluster without a loaded model raises a `KeyError` at `src/main.py:162`.
  That becomes the error answer. The model calls it `ModelMissing`.
- Retraining does not check that there are at least two customers.
  - `min(2, n - 1)` components can be 0 or negative (`src/ml/retrain_models.py:58`).
- Retraining trains a model only for the labels that occur. A cluster with no
  customer gets no model.
  - The server, however, loads one model for every id below the configured
    cluster number (`src/main.py:49-51`).
  - A cluster whose rows all have NaN quantities gets no rating scale (`None`).
- `add_order` fails when the customer already has both dated and undated
  ledger rows (and the order is not a duplicate): `max` over a Date column
  holding dates and NaT compares a date with a float and raises
  (`src/main.py:117,133`), and the error becomes the failure answer
  (`src/main.py:144-146`).
- `add_order` computes the Order Gap against the customer's latest date.
  - A back-dated order therefore gets a negative gap.
  - The hourly run recomputes every gap after sorting, and those gaps are
    never negative.

## Model

| member | source | states |
|---|---|---|
| Tables.Dedup | src/ml/update_relations.py:83-95 | `drop_duplicates`: the result has no repeats and holds exactly the values of the input |
| Tables.DedupOfNoDup | src/ml/update_relations.py:83-95 | a table without repeated rows is unchanged by `drop_duplicates` |
| Tables.DedupFirstOrder | src/ml/update_relations.py:83-95 | `drop_duplicates` lists the kept values in the order of their first occurrence |
| Tables.NoDupCardinality | src/ml/update_relations.py:105-107 | a column without repeats has as many distinct values as cells |
| Tables.DistinctCount | src/ml/update_relations.py:105-107 | `nunique` is the number of distinct values; between 1 and the group size for a non-empty group |
| Tables.MulNum | src/ml/update_relations.py:70 | a product is NaN exactly when one factor is NaN, else the real product |
| Tables.MeanNum | src/ml/update_relations.py:106 | a mean that skips NaN is NaN exactly when every value is NaN; otherwise it times the number of non-NaN values is their sum |
| Tables.Present | src/ml/update_relations.py:106 | the values a NaN-skipping aggregate sees are exactly the non-NaN cells, no more of them than cells |
| Tables.PresentCounts | src/ml/update_relations.py:104-106 | each number occurs among the non-NaN values as often as it occurs in the column |
| Tables.PresentEmpty | src/ml/update_relations.py:106 | no value is left exactly when every cell is NaN |
| Tables.TextCell | src/ml/update_relations.py:39 | a text cell reads back as missing exactly when it is one of pandas' default NA strings, else unchanged |
| Tables.StrLtTransitive | src/ml/update_relations.py:103 | the order `groupby` puts keys in is transitive |
| Tables.StrLtTotal | src/ml/update_relations.py:103 | any two different keys are ordered one way or the other |
| Tables.StrLtIrreflexive | src/ml/update_relations.py:103 | no key is ordered before itself |
| Tables.SortStrings | src/ml/update_relations.py:103 | ordering the group keys is a permutation of them |
| Tables.SortStringsSorted | src/ml/update_relations.py:103 | distinct group keys come out strictly ordered |
| Ledger.KeySet | src/ml/update_relations.py:52 | the set of (Order ID, Product ID, SKU ID) triples is exactly the keys of the ledger rows |
| Ledger.KeySetAppend | src/ml/update_relations.py:52-56 | the keys of the merged ledger are the ledger's keys together with the appended rows' keys |
| Ledger.NewRows | src/ml/update_relations.py:53-54 | the anti-join keeps every batch row whose key is unseen and only those |
| Ledger.NewRowsAppend | src/ml/update_relations.py:53-54 | the anti-join works row by row, so it keeps the batch order |
| Ledger.NewRowsAllUnseen | src/ml/update_relations.py:53-54 | a batch of only new keys passes whole |
| Ledger.NewRowsAllSeen | src/ml/update_relations.py:53-55 | a batch of only known keys adds nothing |
| Ledger.Merge | src/ml/update_relations.py:52-56 | the ledger is kept as a prefix, every appended row is an unseen batch row, and every batch key ends up in the ledger |
| Ledger.MergeIdempotent | update_relations.py:52-56 | merging the same batch a second time changes nothing |
| Ledger.MergeKeepsBatchDuplicates | src/ml/update_relations.py:52-56 | rows repeated inside a batch of new keys are all appended, because the batch is not deduplicated |
| Ledger.MergePreservesUniqueKeys | src/ml/update_relations.py:52-56 | a ledger with unique keys, merged with a batch with unique keys, still has unique keys |
| Ledger.NewRowsUnique | src/ml/update_relations.py:53-54 | filtering keeps keys unique |
| Ledger.LedgerFile.constructor | src/ml/update_relations.py:38-44 | a ledger file exists with given rows, or is absent and empty |
| FeatureDerivation.ToRow | src/ml/update_relations.py:120 | a saved fact is a dated row with the same key |
| FeatureDerivation.Dated | src/ml/update_relations.py:68-69 | `dropna(subset=['Date'])` keeps every dated row, with its multiplicity, and no undated one |
| FeatureDerivation.ToFacts | src/ml/update_relations.py:70-72 | row for row, each fact keeps every column of its row, gets Sales = Quantity × Price and Recency = today − Date, and has gap 0 |
| FeatureDerivation.FactLeTransitive | src/ml/update_relations.py:73 | the (Customer ID, Date) order is transitive |
| FeatureDerivation.FactLeTotal | src/ml/update_relations.py:73 | the (Customer ID, Date) order is total |
| FeatureDerivation.FactLeSameCustomer | src/ml/update_relations.py:73 | within one customer the order is by date |
| FeatureDerivation.SortByCustomerDate | src/ml/update_relations.py:73 | sorting is a permutation |
| FeatureDerivation.SortIsSorted | src/ml/update_relations.py:73 | the sorted table is ordered by customer, then date |
| FeatureDerivation.InsertSorted | src/ml/update_relations.py:73 | inserting one row into a sorted table keeps it sorted |
| FeatureDerivation.InsertTies | src/ml/update_relations.py:73 | inserting a row keeps the order of the rows sharing any (Customer ID, Date) |
| FeatureDerivation.SortStable | src/ml/update_relations.py:73 | the sort is stable: rows with the same customer and date keep their table order |
| FeatureDerivation.OfCustomer | src/ml/update_relations.py:74 | a customer's group holds only that customer's rows |
| FeatureDerivation.PrevDate | src/ml/update_relations.py:74 | the previous date of a customer is absent exactly when no earlier row of that customer exists, else it is an earlier row's date |
| FeatureDerivation.PrevDateIsGroupLast | src/ml/update_relations.py:74 | the previous date is the date of the last row of the customer's group so far |
| FeatureDerivation.WithGaps | src/ml/update_relations.py:74 | adding gaps keeps the row count |
| FeatureDerivation.FirstGapZero | update_relations.py:74 | a customer's first row gets gap 0 (the NaN `diff` filled with 0) |
| FeatureDerivation.GapsNonNegative | src/ml/update_relations.py:73-74 | after sorting by customer and date, no gap is negative |
| FeatureDerivation.GapsTelescope | src/ml/update_relations.py:73-74 | a customer's gaps add up to their last date minus their first date |
| FeatureDerivation.WithGapsPrefix | src/ml/update_relations.py:74 | a row's gap depends only on the rows before it |
| FeatureDerivation.LastGap | src/ml/update_relations.py:74 | adding a last row leaves every earlier gap unchanged |
| FeatureDerivation.LastGapValue | src/ml/update_relations.py:74 | the last row's gap is its date minus its customer's previous date, or 0 without one |
| FeatureDerivation.OfCustomerSnoc | src/ml/update_relations.py:74 | grouping works row by row |
| FeatureDerivation.WithGapsAt | src/ml/update_relations.py:74 | the gapped table differs from its input only in the gap column |
| FeatureDerivation.ClearGaps | src/ml/update_relations.py:74 | clearing gaps keeps the row count |
| FeatureDerivation.PreprocessConsistent | src/ml/update_relations.py:70-72 | every preprocessed row has Sales = Quantity × Price and Recency = today − Date |
| FeatureDerivation.PreprocessSorted | src/ml/update_relations.py:73-74 | the preprocessed ledger is sorted by customer and date, and has no negative gap |
| FeatureDerivation.PreprocessKeepsDatedRows | src/ml/update_relations.py:66-74 | up to the gap column, the preprocessed ledger is a permutation of the dated rows with Sales and Recency added |
| FeatureDerivation.DatedRowKept | src/ml/update_relations.py:68-74 | each dated input row appears in the preprocessed ledger with its derived values |
| FeatureDerivation.DatedRowFact | src/ml/update_relations.py:68-72 | a dated input row's fact is among the facts derived before sorting |
| FeatureDerivation.ClearWithGaps | src/ml/update_relations.py:74 | computing gaps changes nothing but the gap column of a table whose gaps are still 0 |
| Projections.OrderInfoTable | src/ml/update_relations.py:83-84 | the order-info table holds each distinct order-info projection once, and nothing else |
| Projections.OrderLineTable | src/ml/update_relations.py:88-89 | the order-line table holds each distinct order-line projection once, and nothing else |
| Projections.ProductTable | src/ml/update_relations.py:93 | the product table holds each distinct product projection once, and nothing else |
| Projections.OrderLinesOnePerFact | src/ml/update_relations.py:88-89 | with unique ledger keys, the order-line table has one row per ledger row |
| CustomerFeatures.MaxDate | src/ml/update_relations.py:108 | `x.max()` is a date of the group and no date of the group is later |
| CustomerFeatures.SumSales | src/ml/update_relations.py:104 | a group's total_spend is the sum of its non-NaN Sales |
| CustomerFeatures.PurchaseFrequency | src/ml/update_relations.py:105 | purchase_frequency is the number of distinct Order IDs of the group, between 1 and the group size |
| CustomerFeatures.OrderIdValues | src/ml/update_relations.py:105 | the distinct values of the group's Order ID column are its rows' Order IDs |
| CustomerFeatures.AvgBasketSize | src/ml/update_relations.py:106 | avg_basket_size is NaN exactly when every quantity is NaN; otherwise the mean of the non-NaN quantities |
| CustomerFeatures.CatDiversity | src/ml/update_relations.py:107 | cat_diversity is the number of distinct non-missing categories; 0 exactly when every category is missing |
| CustomerFeatures.CategoryValues | src/ml/update_relations.py:107 | the distinct non-missing category values are those of the group's rows |
| CustomerFeatures.MeanGap | src/ml/update_relations.py:109 | the mean gap times the group size is the sum of the group's gaps (`IsMeanGap`) |
| CustomerFeatures.Aggregate | src/ml/update_relations.py:103-111 | a group's row carries the group's customer and, as recency, the smallest Recency of the group's rows |
| CustomerFeatures.AggregateColumns | src/ml/update_relations.py:103-111 | every column of a group's row by its meaning: the NaN-skipping Sales sum, the number of distinct Order IDs, the mean of the non-NaN quantities (NaN exactly when all are NaN), the number of distinct non-missing categories, the mean gap, and the first row's age |
| CustomerFeatures.GroupKeys | src/ml/update_relations.py:103 | the group keys are strictly ordered, and are exactly the customers of the ledger |
| CustomerFeatures.CustomerTable | src/ml/update_relations.py:103-111 | one row per distinct Customer ID, ordered by ID; every customer of the ledger has a row; every row is a ledger customer |
| CustomerFeatures.KeyedTable | src/ml/update_relations.py:103-111 | aggregating the groups of strictly ordered keys covering the ledger gives a table ordered by ID covering exactly the ledger's customers |
| CustomerFeatures.CustomerTableAt | src/ml/update_relations.py:103-111 | each customer row is the aggregate of that customer's non-empty group |
| CustomerFeatures.GroupRows | src/ml/update_relations.py:103-111 | one aggregate row per group key, in key order |
| CustomerFeatures.GroupsNonEmpty | src/ml/update_relations.py:103 | every group key has at least one row |
| CustomerFeatures.InGroup | src/ml/update_relations.py:103 | every ledger row belongs to its customer's group |
| CustomerFeatures.FromTable | src/ml/update_relations.py:103 | every group member is a ledger row |
| CustomerFeatures.RecencyIsMinimum | src/ml/update_relations.py:108 | a customer's recency is the smallest Recency among their rows, and some row has it |
| CustomerFeatures.GroupSizeKept | src/ml/update_relations.py:74 | computing gaps keeps each customer's number of rows |
| CustomerFeatures.SpreadGaps | src/ml/update_relations.py:109 | a group whose gaps sum to a span has its mean gap spread over that span |
| CustomerFeatures.MeanGapIsSpan | src/ml/update_relations.py:109 | a customer's mean gap, over the gaps computed after sorting (lines 73-74), is the days between their first and last dated row divided by their number of rows |
| CustomerFeatures.GroupLatest | src/ml/update_relations.py:108 | the group's latest date is the latest date among the customer's rows |
| CustomerFeatures.OfCustomerSorted | src/ml/update_relations.py:73 | within a sorted ledger, each customer's rows are in date order |
| CustomerFeatures.AgeFromEarliestRow | src/ml/update_relations.py:110 | the age is taken from a row of the customer's earliest date |
| CustomerFeatures.EarliestOfGroup | src/ml/update_relations.py:110 | the group's first row is a row of the customer's earliest date |
| CustomerFeatures.SalesByCustomerSnoc | src/ml/update_relations.py:104 | per-customer sales grow by the new row's Sales |
| CustomerFeatures.SalesByCustomerTotal | src/ml/update_relations.py:104 | summing per-customer sales over all customers gives the total Sales |
| CustomerFeatures.TotalSpendIsSalesByCustomer | src/ml/update_relations.py:104 | the table's total spend is the per-customer sales |
| CustomerFeatures.TotalSpendConserved | src/ml/update_relations.py:104 | the customers' total spends add up to the ledger's total Sales |
| UpdateRelations.Ingest | src/ml/update_relations.py:46-61 | a ledger without rows ignores the batch; a batch whose dates cannot be read is dropped whole; otherwise the batch is merged |
| UpdateRelations.SavedRows | src/ml/update_relations.py:120 | the saved ledger is the preprocessed table, row for row |
| UpdateRelations.UpdateRelationsMain | src/ml/update_relations.py:37-126 | the run ends one of three ways: a ledger without rows is left alone; a ledger with an unreadable date raises and is left alone; otherwise it writes the four tables of the preprocessed merged ledger and saves that ledger |
| UpdateRelations.BatchIgnoredWithoutLedger | update_relations.py:47 | without ledger rows no batch row is taken in |
| UpdateRelations.RerunAddsOnlyUndatedRows | src/ml/update_relations.py:46-74 | over a dated ledger, the key of every dated batch row is in the saved ledger, so merging the same batch again adds only undated rows |
| UpdateRelations.DatedCarrier | src/ml/update_relations.py:52-56 | over a dated ledger, a dated batch row's key is carried by a dated row of the merge |
| Identifiers.DigitRun | src/main.py:83 | `\d+` at the end of the text: non-empty and all digits |
| Identifiers.FullMatchCorrect | src/main.py:83 | the matcher accepts a text exactly when it is the prefix followed by one or more digits and nothing else |
| Identifiers.WarehouseId | src/main.py:80-85 | accepted, unchanged, exactly when it is `WH` followed by digits, else the source's error message |
| Identifiers.CustomerId | src/main.py:87-92 | accepted, unchanged, exactly when it is `CUST` followed by digits |
| Identifiers.ProductId | src/main.py:94-99 | accepted, unchanged, exactly when it is `Product_` followed by digits |
| Identifiers.SkuId | src/main.py:101-106 | accepted, unchanged, exactly when it is `SKU_` followed by digits |
| Identifiers.PrefixAloneRefused | src/main.py:80-106 | a prefix with no digits, or followed by a non-digit, is refused |
| Identifiers.FormatsDisjoint | src/main.py:80-106 | no identifier passes two of the checks |
| Orders.ValidationErrors | src/main.py:68-106 | the order is valid exactly when all four identifier formats hold; there are at most four messages |
| Orders.Messages | src/main.py:80-106 | no message exactly when every check passed |
| Orders.LatestDate | src/main.py:133 | the latest date is absent exactly when the customer has no dated row; otherwise it is the date of some row of theirs, and no row of theirs is later |
| Orders.NewRow | src/main.py:126-138 | the appended row: same key; Category as read back; Sales = Quantity × Price; Recency = today − Date; gap 0 for a customer with no rows, else Date minus their latest date, else NaN |
| Orders.AddOrder | src/main.py:109-146 | it fails exactly on an unreadable date, an unreadable ledger date, or a new key whose customer has both dated and undated rows; is a duplicate exactly when the key is in the ledger; otherwise appends the new row at the end of the ledger, after which `order_exists` finds it |
| Orders.OrderExists | src/main.py:175-188 | true exactly when the ledger file exists and some row has all three key fields |
| Orders.AddKeepsKeysUnique | src/main.py:121-141 | accepting an order keeps the ledger's keys unique |
| Orders.ResubmitIsDuplicate | src/main.py:121-125 | an order line with the key of an accepted one is a duplicate |
| Orders.BackdatedGapNegative | src/main.py:131-135 | an order dated before a dated row of the same customer gets a negative gap |
| Recommend.ProductUniverse | src/main.py:161 | the candidate set is exactly the Product IDs of the ledger |
| Recommend.FindCustomer | src/main.py:152-155 | no row exactly when the customer is not in the table; otherwise a row of that customer |
| Recommend.InsertDesc | src/main.py:167 | insertion adds one entry |
| Recommend.RankByScore | src/main.py:167 | the ranking is a permutation of the predictions |
| Recommend.InsertDescSorted | src/main.py:167 | inserting into a best-first list keeps it best first |
| Recommend.RankSorted | src/main.py:167 | the ranking is best first |
| Recommend.InsertDescTies | src/main.py:167 | inserting keeps the order of the entries with any one score |
| Recommend.RankStable | src/main.py:167 | the ranking is stable: products with equal scores keep the order they were scored in |
| Recommend.InsertDescDistinct | src/main.py:167 | inserting a new product keeps products distinct |
| Recommend.RankDistinct | src/main.py:167 | the ranking keeps products distinct |
| Recommend.TopProducts | src/main.py:167-169 | the answer has five products, or all of them when there are fewer |
| Recommend.RankKeepsScores | src/main.py:163-167 | the ranking keeps every product with the model's score |
| Recommend.OmittedRanksLower | src/main.py:167 | a product left out sits behind every product kept |
| Recommend.OmittedScoreLower | src/main.py:167 | a product left out of the top list scores no higher than any product kept |
| Recommend.TopProductsBest | src/main.py:163-169 | the answer is distinct products of the ledger, best first, and no product left out scores above a product kept |
| Recommend.ScoreAll | src/main.py:163-166 | every product of the set is scored once with the model's estimate |
| Recommend.PredictNextProduct | src/main.py:149-172 | an unknown customer is not found; a cluster without a model is reported; otherwise the answer is min(5, #products) distinct ledger products, best first, and none omitted scores higher |
| Retrain.NComponents | src/ml/retrain_models.py:58 | at most 2 and below the customer count; 2 from three customers on; n − 1 for at most two customers |
| Retrain.LabelCustomers | src/ml/retrain_models.py:57-63 | labelling succeeds exactly when there is one label per customer, and then each customer row gets its own label |
| Retrain.LabelOf | src/ml/retrain_models.py:68 | a customer has a label exactly when the table has a row for them, and then it is their label |
| Retrain.JoinClusters | src/ml/retrain_models.py:65-68 | the join fails exactly on a repeated Customer ID; otherwise each ledger row, in order, gets its customer's label and nothing else changes |
| Retrain.JoinedLabelIsCustomers | src/ml/retrain_models.py:68 | a joined row carries label l exactly when its customer was labelled l |
| Retrain.JoinIgnoresOldClusters | src/ml/retrain_models.py:65-66 | ledgers differing only in the old cluster column join to the same table |
| Retrain.ClusterData | src/ml/retrain_models.py:83-86 | every training triple belongs to a customer of the cluster |
| Retrain.ClusterDataHasRow | src/ml/retrain_models.py:83-86 | every ledger row of a customer in the cluster is a training triple |
| Retrain.ClusterDataFromLedger | src/ml/retrain_models.py:84-86 | every training triple comes from a ledger row |
| Retrain.ClustersDisjoint | src/ml/retrain_models.py:82-86 | the training sets of two different labels share no customer |
| Retrain.NumericQuantities | src/ml/retrain_models.py:87 | the numeric quantities are exactly the non-NaN quantity cells |
| Retrain.MinOf | src/ml/retrain_models.py:87 | the minimum is a value and no value is smaller |
| Retrain.MaxOf | src/ml/retrain_models.py:87 | the maximum is a value and no value is larger |
| Retrain.RatingScale | src/ml/retrain_models.py:87 | no scale exactly when every quantity is NaN; otherwise both ends are attained and every quantity lies between them |
| Retrain.Labels | src/ml/retrain_models.py:82 | the distinct labels, each once, exactly those that occur |
| Retrain.TrainCfModels | src/ml/retrain_models.py:82-93 | one training job per label that occurs, with that label's training set and scale |
| Retrain.CarriedLabelsGetJobs | src/ml/retrain_models.py:82 | a label gets a training job exactly when some customer carries it |
| Retrain.RetrainModelsMain | src/ml/retrain_models.py:41-101 | the run succeeds exactly when the ledger exists with readable dates, labelling gives one label per customer and customer IDs are unique; it then saves the joined ledger and one job per label; on any error the ledger is unchanged |

## Left out

- Files, CSV and pickle formats, configuration loading and logging are not
  modelled. The ledger file is a `present` flag with rows. The batch file, the
  written tables and the saved models are values.
- The clock (`datetime.now()`) is a `today` parameter given as a day number.
- Time zones and partial days are not modelled.
- The machine-learning libraries are not modelled:
  - PowerTransformer, PCA and KMeans are one opaque `fit` function, and the
    clustering itself is not computed;
  - the predictor of `predict_next_product` is an opaque `assign` function;
  - each collaborative-filtering model is an opaque scoring function;
  - SVD fitting is not modelled. A training job is the triples and the rating
    scale it would be fitted on.
  - Exceptions raised inside these libraries are not modelled.
- The HTTP layer is not modelled: FastAPI routing, pydantic parsing of
  non-string fields, status codes and JSON bodies. The outcomes are
  datatypes (`AddOutcome`, `Recommendation`).
- `load_models_and_data` in `src/main.py` is not modelled. Neither is the
  cluster-number configuration, nor the failure to start when a model file is
  missing. `Retrain.CarriedLabelsGetJobs` states the mismatch that leads there:
  a cluster id no customer carries gets no training job.
- The schedulers, the React front end and the test files are not part of
  this model.
- Identifier digits are ASCII `0`–`9`. Python's `\d` also matches other
  Unicode decimal digits.
- Reading the batch file is not modelled: its column errors and empty-file
  checks.
  - A batch whose Date column cannot be read is dropped whole; that error
    path is modelled.
  - A batch whose other columns are malformed is not modelled.
- The NaN and NaT arithmetic that an order with an empty Date goes through
  in `add_order` is taken as: Recency NaN, Order Gap NaN.
- Orders.AddOrder: every exception at `src/main.py:113-117` becomes the one
  `Failed` outcome. An unreadable ledger is an unreadable Date; other
  read errors are not modelled.
- Recommend.PredictNextProduct: uses the first customer-table row of the
  customer. The source passes every matching row to the predictor and uses
  the first label. This is the same when Customer IDs are unique, as the
  hourly run makes them.
- Recommend.PredictNextProduct: which of several equally scored products
  reach the top five depends on the set's iteration order. The model picks
  that order arbitrarily and states only properties that hold for every
  order.
- UpdateRelations.UpdateRelationsMain: a missing batch file and an empty
  batch file are both the empty batch.
- UpdateRelations.UpdateRelationsMain: errors in writing the output files
  are not modelled.
- Retrain.RetrainModelsMain: a missing customer-table file is not modelled.
  The customer table is a parameter.
- Retrain.RetrainModelsMain: the saved customer table and transform models
  are not modelled beyond the labelled table returned.
- Numbers are exact reals; pandas computes Quantity, Price per Unit, Sales,
  sums and means in 64-bit floating point, and rounding is not modelled.
- CustomerFeatures.TotalSpendConserved: holds exactly over reals; with
  floating-point sums the two sides agree only up to rounding.
- CustomerFeatures.CustomerTable: a Customer ID cell that pandas reads as
  missing (empty, `NA`, `null`, …) is an ordinary key here, while `groupby`
  drops such rows. `add_order` admits only `CUST` followed by digits, so
  only batch rows can carry such an ID.
- CustomerFeatures.GroupKeys: for the same reason, a missing Customer ID is
  a group key here, where pandas has none for it.
- Only the Category column is read as text that may be missing. Warehouse
  ID, Customer Gender, Product ID and SKU ID are plain text.
- CustomerFeatures.PurchaseFrequency: Order ID is always a number here. A
  batch row with a blank Order ID has NaN there in pandas, and `nunique`
  skips it, so a group whose Order IDs are all blank gets 0 where the model
  gives at least 1. `add_order` types Order ID as an integer
  (`src/main.py:68`), so only batch rows can carry a blank one.
- CustomerFeatures.AggregateColumns: the age is the first row's Customer
  Age. pandas' `first` skips a missing age and takes the first row that has
  one. Missing ages (batch rows only; `add_order` types the age as an
  integer at `src/main.py:71`) are not modelled.
- CustomerFeatures.AgeFromEarliestRow: for the same reason, it holds of the
  program only when no age cell of the customer is missing.
- FeatureDerivation.WithGaps: pandas sorts a missing Customer ID last.
  `groupby` leaves such rows out, so their `diff` is NaN, filled with 0.
  Here the ID is an ordinary text key, sorted by code point, and its rows
  get date differences as gaps.
- FeatureDerivation.SortByCustomerDate: likewise, a missing Customer ID is
  ordered as text, not placed last.
